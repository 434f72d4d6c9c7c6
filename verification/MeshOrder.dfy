/**
  Order and progress of the outbox, and the refinement that ties the coordinator's and the
  poller's uninterrupted loops to the transition system.
*/
module MeshOrder {
  import opened Options
  import opened Listings
  import opened Mesh
  import opened MeshSafety

  // ---- Order ----

  /** File names increase in send order. */
  ghost predicate SendsIncreasing(steps: seq<Step>) {
    forall i, j :: 0 <= i < j < |steps| && steps[i].DoSend? && steps[j].DoSend? ==> steps[i].m.name < steps[j].m.name
  }

  /** The batch is the front of the sorted outbox: whatever else is in the outbox comes later. */
  ghost predicate BatchIsFront(s: State) {
    && Increasing(s.batch)
    && (forall b :: b in s.batch ==> b in OutboxOf(s))
    && (forall b, n :: b in s.batch && n in OutboxOf(s) && n !in s.batch ==> b < n)
    && UnlinkingInOutbox(s)
  }

  lemma TailFront(names: seq<Name>)
    requires Increasing(names) && names != []
    ensures Increasing(names[1..]) && forall n :: n in names[1..] <==> n in names && n != names[0]
  {
    forall n | n in names && n != names[0]
      ensures n in names[1..]
    {
      var i :| 0 <= i < |names| && names[i] == n;
      assert names[1..][i - 1] == n;
    }
  }

  lemma FirstIsLeast(names: seq<Name>)
    requires Increasing(names) && names != []
    ensures forall n :: n in names ==> names[0] <= n
  {
    forall n | n in names
      ensures names[0] <= n
    {
      var i :| 0 <= i < |names| && names[i] == n;
    }
  }

  lemma StepOutbox(c: Contract, s: State, step: Step)
    requires UnlinkingInOutbox(s)
    ensures var t := Next(c, s, step);
      OutboxOf(t) == match EffectOf(c, s, step)
        case Added(p, f) => if p == Outbox then OutboxOf(s)[NameOf(f) := f] else OutboxOf(s)
        case Dropped(n) => OutboxOf(s) - {n}
        case _ => OutboxOf(s)
    ensures EffectOf(c, s, step).Added? && EffectOf(c, s, step).p == Outbox
        <==> step.DoSend? && Accepts(c, s.core, step.m)
  {
    var effect := EffectOf(c, s, step);
    StepEffect(c, s, step);
    match effect
    case Same =>
    case Added(p, f) => PutDir(s.core.files, p, NameOf(f), f, Outbox);
    case Dropped(k) => RemoveDir(s.core.files, Outbox, k, Outbox);
    case Moved(p, k, q) => RenameDir(s.core.files, p, k, q, Outbox);
  }

  /** How a step may change the batch; only the drain's own removal shortens it by one. */
  lemma StepBatch(c: Contract, s: State, step: Step)
    requires UnlinkingInOutbox(s)
    ensures var t := Next(c, s, step); var effect := EffectOf(c, s, step);
      || t.batch == []
      || (t.batch == s.batch && !effect.Dropped?)
      || (s.batch != [] && t.batch == s.batch[1..] && effect == Dropped(s.batch[0]))
      || (effect.Same? && t.batch == Sorted(OutboxOf(s).Keys))
  {
    match step
    case DoList =>
    case DoWrite(_) =>
    case DoUnlink =>
    case DoCrash =>
    case _ => assert Next(c, s, step).batch == s.batch && !EffectOf(c, s, step).Dropped?;
  }

  lemma StepBatchIsFront(c: Contract, s: State, step: Step)
    requires BatchIsFront(s)
    requires step.DoSend? ==> forall n :: n in OutboxOf(s) ==> n < step.m.name
    ensures BatchIsFront(Next(c, s, step))
  {
    var t := Next(c, s, step);
    StepUnlinkingInOutbox(c, s, step);
    StepOutbox(c, s, step);
    StepBatch(c, s, step);
    if s.batch != [] {
      TailFront(s.batch);
    }
    assert forall b :: b in t.batch ==> b in OutboxOf(t);
  }

  lemma {:induction false} AlwaysBatchIsFront(c: Contract, steps: seq<Step>)
    requires SendsIncreasing(steps)
    ensures BatchIsFront(Run(c, steps)) && NamesWithin(Run(c, steps).core.files, NamesOf(steps))
  {
    if steps != [] {
      var front, last := steps[..|steps| - 1], steps[|steps| - 1];
      AlwaysBatchIsFront(c, front);
      var s := Run(c, front);
      assert forall k :: 0 <= k < |front| ==> front[k] == steps[k];
      if last.DoSend? {
        forall n | n in OutboxOf(s)
          ensures n < last.m.name
        {
          assert n in NamesOf(front);
        }
        assert last.m.name in NamesOf(steps);
      }
      StepBatchIsFront(c, s, last);
      StepEffect(c, s, last);
      AddedNamed(c, s, last);
      StepNamesWithin(s.core.files, EffectOf(c, s, last), Next(c, s, last).core.files, NamesOf(front),
          NamesOf(steps)) by {
        SentOnceUnique(front);
        AlwaysKept(c, front, Submitted(front));
        assert EffectOf(c, s, last).Added? ==> NameOf(EffectOf(c, s, last).f) in NamesOf(steps) by {
          if last.DoWrite? && EffectOf(c, s, last).Added? {
            assert Has(s.core.files, Outbox, s.batch[0], OutboxOf(s)[s.batch[0]]);
            assert s.batch[0] in NamesOf(front);
          }
        }
      }
    }
  }

  lemma AddedNamed(c: Contract, s: State, step: Step)
    ensures EffectOf(c, s, step).Added? ==> step.DoSend? || step.DoWrite?
  {
  }

  lemma HeadIsLeast(s: State)
    requires BatchIsFront(s) && s.batch != []
    ensures forall k :: k in OutboxOf(s) ==> s.batch[0] <= k
  {
    FirstIsLeast(s.batch);
    assert s.batch[0] in s.batch;
  }

  /** What leaves the outbox is the head of the batch. */
  lemma LeavesFromBatch(c: Contract, s: State, step: Step, n: Name)
    requires UnlinkingInOutbox(s) && n in OutboxOf(s) && n !in OutboxOf(Next(c, s, step))
    ensures s.batch != [] && n == s.batch[0]
  {
    StepOutbox(c, s, step);
    DropsHead(c, s, step);
    assert EffectOf(c, s, step) == Dropped(n);
  }

  lemma DropsHead(c: Contract, s: State, step: Step)
    requires UnlinkingInOutbox(s)
    ensures EffectOf(c, s, step).Dropped? ==> s.batch != [] && EffectOf(c, s, step).n == s.batch[0]
  {
  }

  /** No file leaves the outbox while an earlier one is still there. */
  lemma OutboxOrder(c: Contract, steps: seq<Step>, step: Step, n: Name)
    requires SendsIncreasing(steps + [step])
    requires n in OutboxOf(Run(c, steps)) && n !in OutboxOf(Next(c, Run(c, steps), step))
    ensures forall k :: k in OutboxOf(Run(c, steps)) ==> n <= k
  {
    assert forall k :: 0 <= k < |steps| ==> (steps + [step])[k] == steps[k];
    AlwaysBatchIsFront(c, steps);
    var s := Run(c, steps);
    LeavesFromBatch(c, s, step, n);
    HeadIsLeast(s);
  }

  // ---- An uninterrupted pass ----

  /** The recipient is known but not ready, so the drain stops here and retries later. */
  predicate Blocks(c: Contract, core: Core, f: File) {
    var m := Read(f);
    && !c.requiresApproval(m.kind) && m.recipient != "war_room" && m.recipient in core.nodes
    && core.nodes[m.recipient].status != "online" && core.nodes[m.recipient].status != "finals-mode"
  }

  ghost predicate BlockedBy(c: Contract, core: Core, n: Name) {
    exists b :: b in DirOf(core.files, Outbox) && b <= n && Blocks(c, core, DirOf(core.files, Outbox)[b])
  }

  /** Removing a first file that does not block leaves every other file as blocked as it was. */
  lemma FirstRemoved(c: Contract, core: Core, next: Core, first: Name, n: Name)
    requires next.nodes == core.nodes && DirOf(next.files, Outbox) == DirOf(core.files, Outbox) - {first}
    requires first in DirOf(core.files, Outbox) && !Blocks(c, core, DirOf(core.files, Outbox)[first])
    requires forall b :: b in DirOf(core.files, Outbox) ==> first <= b
    ensures BlockedBy(c, core, n) <==> n != first && BlockedBy(c, next, n)
  {
    if b :| b in DirOf(core.files, Outbox) && b <= n && Blocks(c, core, DirOf(core.files, Outbox)[b]) {
      assert b in DirOf(next.files, Outbox) && Blocks(c, next, DirOf(next.files, Outbox)[b]);
    }
    if b :| n != first && b in DirOf(next.files, Outbox) && b <= n && Blocks(c, next, DirOf(next.files, Outbox)[b]) {
      assert b in DirOf(core.files, Outbox) && Blocks(c, core, DirOf(core.files, Outbox)[b]);
    }
  }

  /** Over the file transport, what stays is exactly what lies behind a blocked file. */
  lemma {:induction false} PassLeavesBlocked(c: Contract, core: Core, todo: seq<Name>, gatewayAccepts: Message -> bool)
    requires !core.gatewayUp && Increasing(todo)
    requires forall n :: n in todo <==> n in DirOf(core.files, Outbox)
    ensures var t := DrainAll(c, core, todo, gatewayAccepts);
      forall n :: n in DirOf(t.files, Outbox) <==> n in DirOf(core.files, Outbox) && BlockedBy(c, core, n)
    decreases |todo|
  {
    if todo != [] {
      var first := todo[0];
      var m := Read(DirOf(core.files, Outbox)[first]);
      var target := Target(c, core, m, gatewayAccepts(m));
      FirstIsLeast(todo);
      if target.None? {
        assert Blocks(c, core, DirOf(core.files, Outbox)[first]);
        assert forall n :: n in DirOf(core.files, Outbox) ==> BlockedBy(c, core, n);
      } else {
        var d := target.value;
        var written := core.(files := Put(core.files, d.place, m.name, d.file));
        var next := UnlinkSource(written, first);
        PutDir(core.files, d.place, m.name, d.file, Outbox);
        RemoveDir(written.files, Outbox, first, Outbox);
        TailFront(todo);
        PassLeavesBlocked(c, next, todo[1..], gatewayAccepts);
        forall n | n in DirOf(core.files, Outbox)
          ensures BlockedBy(c, core, n) <==> n != first && BlockedBy(c, next, n)
        {
          FirstRemoved(c, core, next, first, n);
        }
      }
    }
  }

  /** A pass over the file transport empties the outbox exactly when nothing in it is blocked. */
  lemma PassEmptiesOutbox(c: Contract, core: Core, gatewayAccepts: Message -> bool)
    requires !core.gatewayUp
    ensures var outbox := DirOf(core.files, Outbox);
      DirOf(DrainAll(c, core, Sorted(outbox.Keys), gatewayAccepts).files, Outbox) == map[]
      <==> forall n :: n in outbox ==> !Blocks(c, core, outbox[n])
  {
    var outbox := DirOf(core.files, Outbox);
    var left := DirOf(DrainAll(c, core, Sorted(outbox.Keys), gatewayAccepts).files, Outbox);
    PassLeavesBlocked(c, core, Sorted(outbox.Keys), gatewayAccepts);
    if n :| n in outbox && Blocks(c, core, outbox[n]) {
      assert BlockedBy(c, core, n);
      assert n in left;
    } else {
      forall n
        ensures n !in left
      {
        assert !BlockedBy(c, core, n);
      }
    }
  }

  // ---- Interleaved progress ----

  ghost predicate DrainReady(c: Contract, s: State) {
    !s.core.gatewayUp && forall n :: n in OutboxOf(s) ==> !Blocks(c, s.core, OutboxOf(s)[n])
  }

  ghost predicate BatchInOutbox(s: State) {
    && Increasing(s.batch)
    && (forall b :: b in s.batch ==> b in OutboxOf(s))
    && UnlinkingInOutbox(s)
  }

  /** The one drain-thread step that is enabled. */
  predicate DrainTurn(s: State, step: Step) {
    if s.unlinking.Some? then step.DoUnlink?
    else if s.batch == [] then step.DoList?
    else step.DoWrite?
  }

  ghost function Rank(s: State): nat {
    3 * |OutboxOf(s)| + if s.unlinking.Some? then 0 else if s.batch != [] then 1 else 2
  }

  lemma StepBatchInOutbox(c: Contract, s: State, step: Step)
    requires BatchInOutbox(s)
    ensures BatchInOutbox(Next(c, s, step))
  {
    StepUnlinkingInOutbox(c, s, step);
    StepOutbox(c, s, step);
    StepBatch(c, s, step);
    if s.batch != [] {
      TailFront(s.batch);
    }
  }

  /** With sends and crashes stopped, no step raises the rank and each turn of the drain lowers it. */
  lemma StepRank(c: Contract, s: State, step: Step)
    requires BatchInOutbox(s) && DrainReady(c, s) && !step.DoSend? && !step.DoCrash?
    ensures Rank(Next(c, s, step)) <= Rank(s)
    ensures OutboxOf(s) != map[] && DrainTurn(s, step) ==> Rank(Next(c, s, step)) < Rank(s)
  {
    StepOutbox(c, s, step);
    var t := Next(c, s, step);
    if step.DoUnlink? && s.unlinking.Some? {
      var n := s.unlinking.value;
      assert OutboxOf(t).Keys == OutboxOf(s).Keys - {n};
      assert |OutboxOf(t).Keys| == |OutboxOf(s).Keys| - 1;
    }
    if step.DoList? && s.batch == [] && s.unlinking.None? && OutboxOf(s) != map[] {
      var n :| n in OutboxOf(s);
      assert n in Sorted(OutboxOf(s).Keys);
      assert t.batch != [];
    }
    if step.DoWrite? && s.batch != [] && s.unlinking.None? {
      assert s.batch[0] in OutboxOf(s);
    }
  }

  function Exec(c: Contract, s: State, steps: seq<Step>): State
    decreases |steps|
  {
    if steps == [] then s else Exec(c, Next(c, s, steps[0]), steps[1..])
  }

  /** The number of turns the drain thread gets while there is something to drain. */
  function Turns(c: Contract, s: State, steps: seq<Step>): nat
    decreases |steps|
  {
    if steps == [] then 0
    else
      (if OutboxOf(s) != map[] && DrainTurn(s, steps[0]) then 1 else 0)
      + Turns(c, Next(c, s, steps[0]), steps[1..])
  }

  ghost predicate QuietAndReady(c: Contract, s: State, steps: seq<Step>)
    decreases |steps|
  {
    DrainReady(c, s) &&
    (steps != [] ==> !steps[0].DoSend? && !steps[0].DoCrash? && QuietAndReady(c, Next(c, s, steps[0]), steps[1..]))
  }

  /** In every run the batch is a sorted part of the outbox. */
  lemma {:induction false} AlwaysBatchInOutbox(c: Contract, steps: seq<Step>)
    ensures BatchInOutbox(Run(c, steps))
  {
    if steps != [] {
      AlwaysBatchInOutbox(c, steps[..|steps| - 1]);
      StepBatchInOutbox(c, Run(c, steps[..|steps| - 1]), steps[|steps| - 1]);
    }
  }

  /**
    Progress: after any run, while sends and crashes stop and every waiting recipient is ready, the
    drain needs at most `Rank` turns, however the other actors interleave, to empty the outbox.
  */
  lemma DrainTerminates(c: Contract, before: seq<Step>, steps: seq<Step>)
    requires QuietAndReady(c, Run(c, before), steps)
    ensures Turns(c, Run(c, before), steps) <= Rank(Run(c, before)) - Rank(Run(c, before + steps))
    ensures Turns(c, Run(c, before), steps) >= Rank(Run(c, before)) - 2 ==> OutboxOf(Run(c, before + steps)) == map[]
  {
    var s, t := Run(c, before), Run(c, before + steps);
    AlwaysBatchInOutbox(c, before);
    DrainBound(c, s, steps);
    RunIsExec(c, before);
    RunIsExec(c, before + steps);
    ExecAppend(c, START, before, steps);
    if OutboxOf(t) != map[] {
      assert OutboxOf(t).Keys != {};
      assert |OutboxOf(t)| >= 1;
    }
  }

  lemma {:induction false} DrainBound(c: Contract, s: State, steps: seq<Step>)
    requires BatchInOutbox(s) && QuietAndReady(c, s, steps)
    ensures Turns(c, s, steps) + Rank(Exec(c, s, steps)) <= Rank(s)
    decreases |steps|
  {
    if steps != [] {
      StepBatchInOutbox(c, s, steps[0]);
      StepRank(c, s, steps[0]);
      DrainBound(c, Next(c, s, steps[0]), steps[1..]);
    }
  }

  // ---- The loops of the classes are runs ----

  lemma {:induction false} ExecAppend(c: Contract, s: State, a: seq<Step>, b: seq<Step>)
    ensures Exec(c, s, a + b) == Exec(c, Exec(c, s, a), b)
    decreases |a|
  {
    if a == [] {
      assert a + b == b;
    } else {
      assert (a + b)[0] == a[0] && (a + b)[1..] == a[1..] + b;
      ExecAppend(c, Next(c, s, a[0]), a[1..], b);
    }
  }

  lemma {:induction false} RunIsExec(c: Contract, steps: seq<Step>)
    ensures Run(c, steps) == Exec(c, START, steps)
  {
    if steps != [] {
      var front, last := steps[..|steps| - 1], steps[|steps| - 1];
      RunIsExec(c, front);
      ExecAppend(c, START, front, [last]);
      assert steps == front + [last];
      assert Exec(c, Exec(c, START, front), [last]) == Next(c, Exec(c, START, front), last) by {
        assert [last][1..] == [];
      }
    }
  }

  /** `ProcessOutbox` is a run of the drain thread's steps with nothing in between. */
  lemma {:induction false} PassIsRun(c: Contract, s: State, gatewayAccepts: Message -> bool) returns (steps: seq<Step>)
    requires s.unlinking.None?
    ensures forall k :: 0 <= k < |steps| ==> steps[k].DoWrite? || steps[k].DoUnlink?
    ensures Exec(c, s, steps).core == DrainAll(c, s.core, s.batch, gatewayAccepts)
    decreases |s.batch|
  {
    if s.batch == [] {
      steps := [];
    } else if s.batch[0] !in OutboxOf(s) {
      var rest := PassIsRun(c, Next(c, s, DoWrite(false)), gatewayAccepts);
      steps := [DoWrite(false)] + rest;
    } else {
      var m := Read(OutboxOf(s)[s.batch[0]]);
      var write := DoWrite(gatewayAccepts(m));
      var s1 := Next(c, s, write);
      if s1.unlinking.None? {
        steps := [write];
        assert Exec(c, s1, steps[1..]) == s1;
      } else {
        var rest := PassIsRun(c, Next(c, s1, DoUnlink), gatewayAccepts);
        steps := [write, DoUnlink] + rest;
        assert steps[1..] == [DoUnlink] + rest && steps[1..][1..] == rest;
      }
    }
  }

  function FilesOf(handled: seq<Handling>): seq<File> {
    seq(|handled|, i requires 0 <= i < |handled| => handled[i].file)
  }

  /** What a poller sees of a state. */
  function Seen(s: State, role: Role): Polled {
    Polled(s.core.files, PollerOf(s, role).processed, FilesOf(s.handled))
  }

  lemma HandleThenArchive(c: Contract, s: State, role: Role, n: Name)
    requires role != WAR_ROOM && PollerOf(s, role).current.None?
    requires n !in PollerOf(s, role).processed && n in DirOf(s.core.files, Inbox(role))
    ensures var t := Next(c, Next(c, s, DoHandle(role, n)), DoArchive(role));
      PollerOf(t, role).current.None? && Seen(t, role) == PollOne(role, Seen(s, role), n)
  {
  }

  /** `CheckInbox` is a run of that poller's steps with nothing in between. */
  lemma {:induction false} PollIsRun(c: Contract, s: State, role: Role, todo: seq<Name>) returns (steps: seq<Step>)
    requires role != WAR_ROOM && PollerOf(s, role).current.None?
    ensures forall k :: 0 <= k < |steps| ==> (steps[k].DoHandle? || steps[k].DoArchive?) && steps[k].role == role
    ensures Seen(Exec(c, s, steps), role) == PollAll(role, Seen(s, role), todo)
    decreases |todo|
  {
    if todo == [] {
      steps := [];
    } else if todo[0] in PollerOf(s, role).processed || todo[0] !in DirOf(s.core.files, Inbox(role)) {
      steps := PollIsRun(c, s, role, todo[1..]);
    } else {
      var handle, archive := DoHandle(role, todo[0]), DoArchive(role);
      HandleThenArchive(c, s, role, todo[0]);
      var t := Next(c, Next(c, s, handle), archive);
      var rest := PollIsRun(c, t, role, todo[1..]);
      steps := [handle, archive] + rest;
      assert steps[1..] == [archive] + rest && steps[1..][1..] == rest;
      assert Exec(c, s, steps) == Exec(c, t, rest);
    }
  }
}
