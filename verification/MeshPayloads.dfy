/**
  What happens to a message's payload. A rejection notice repeats the envelope only, so the drain
  loses the payload of an accepted message whose recipient has since left the mesh; nothing else
  in the protocol does. A veto is a rename and keeps it.
*/
module MeshPayloads {
  import opened Options
  import opened Listings
  import opened Mesh
  import opened MeshSafety

  /** The file of `m` with its payload and squad id. */
  function Carries(m: Message): File -> bool {
    (f: File) => f.Whole? && f.m == m
  }

  ghost predicate PayloadKept(files: Files, m: Message) {
    exists p :: Filed(files, p, m.name, Carries(m))
  }

  // ---- One turn of the drain ----

  /** What one turn of the drain, write and unlink, does to each directory. */
  lemma TurnEffect(c: Contract, s: State, gatewayAccepts: bool, p: Place)
    requires s.unlinking.None? && s.batch != [] && s.batch[0] in OutboxOf(s)
    requires Read(OutboxOf(s)[s.batch[0]]).name == s.batch[0]
    ensures var n := s.batch[0];
      var target := Target(c, s.core, Read(OutboxOf(s)[n]), gatewayAccepts);
      var t := Next(c, Next(c, s, DoWrite(gatewayAccepts)), DoUnlink);
      DirOf(t.core.files, p) ==
        if target.None? then DirOf(s.core.files, p)
        else if p == target.value.place then DirOf(s.core.files, p)[n := target.value.file]
        else if p == Outbox then OutboxOf(s) - {n}
        else DirOf(s.core.files, p)
  {
    var n := s.batch[0];
    var target := Target(c, s.core, Read(OutboxOf(s)[n]), gatewayAccepts);
    if target.Some? {
      var d := target.value;
      PutDir(s.core.files, d.place, n, d.file, p);
      RemoveDir(Put(s.core.files, d.place, n, d.file), Outbox, n, p);
    }
  }

  /**
    A turn of the drain on a message that is nowhere else loses its payload exactly when the
    message needs no approval first, is not for the war room, and its recipient is not registered.
  */
  lemma TurnKeepsPayloadIff(c: Contract, s: State, m: Message, gatewayAccepts: bool)
    requires s.unlinking.None? && s.batch != [] && s.batch[0] == m.name
    requires Filed(s.core.files, Outbox, m.name, Carries(m))
    requires forall p :: p != Outbox ==> m.name !in DirOf(s.core.files, p)
    ensures PayloadKept(Next(c, Next(c, s, DoWrite(gatewayAccepts)), DoUnlink).core.files, m)
       <==> c.requiresApproval(m.kind) || m.recipient == "war_room" || m.recipient in s.core.nodes
  {
    var t := Next(c, Next(c, s, DoWrite(gatewayAccepts)), DoUnlink);
    var target := Target(c, s.core, m, gatewayAccepts);
    var kept := if target.Some? then target.value.place else Outbox;
    TurnEffect(c, s, gatewayAccepts, kept);
    if !Refuses(c, s.core, m) {
      assert Filed(t.core.files, kept, m.name, Carries(m));
    } else {
      forall p
        ensures !Filed(t.core.files, p, m.name, Carries(m))
      {
        TurnEffect(c, s, gatewayAccepts, p);
      }
    }
  }

  // ---- Whole runs ----

  /** The messages handed to `send_message` in a run. */
  function Sent(steps: seq<Step>): set<Message> {
    set k | 0 <= k < |steps| && steps[k].DoSend? :: steps[k].m
  }

  ghost predicate OneMessagePerName(all: set<Message>) {
    forall a, b :: a in all && b in all && a.name == b.name ==> a == b
  }

  /** Where whole files and notices are, in any run. */
  ghost predicate WellFiled(c: Contract, s: State, all: set<Message>) {
    forall p, n, f :: Has(s.core.files, p, n, f) ==>
      && NameOf(f) == n
      && (f.Notice? ==> p == Rejected)
      && (f.Whole? ==> f.m in all)
      && (f.Whole? && (p == Rejected || p == Inbox(WAR_ROOM)) ==> Held(c, f.m) || f.m.recipient == WAR_ROOM)
  }

  /** The message being unlinked is carried in `p`. */
  ghost predicate Unlinked(s: State, p: Place, m: Message) {
    s.unlinking == Some(m.name) && Filed(s.core.files, p, m.name, Carries(m))
  }

  /** An accepted payload is kept unless the drain has refused the message. */
  ghost predicate Intact(s: State, all: set<Message>) {
    && (forall m :: m in s.accepted ==> m in all && (m in s.refused || PayloadKept(s.core.files, m)))
    && (s.unlinking.Some? && s.refusing.None? ==>
          exists p, m :: p != Outbox && m in all && Unlinked(s, p, m))
    && (s.refusing.Some? ==> s.refusing.value in all && s.unlinking == Some(s.refusing.value.name))
  }

  lemma StepWellFiled(c: Contract, s: State, step: Step, all: set<Message>)
    requires WellFiled(c, s, all) && (step.DoSend? ==> step.m in all)
    ensures WellFiled(c, Next(c, s, step), all)
  {
    var t := Next(c, s, step);
    var effect := EffectOf(c, s, step);
    StepEffect(c, s, step);
    AddedWellFiled(c, s, step, all);
    forall p, n, f | Has(t.core.files, p, n, f) && !Has(s.core.files, p, n, f)
      ensures NameOf(f) == n && (f.Notice? ==> p == Rejected) && (f.Whole? ==> f.m in all)
      ensures f.Whole? && (p == Rejected || p == Inbox(WAR_ROOM)) ==> Held(c, f.m) || f.m.recipient == WAR_ROOM
    {
      Origin(s.core.files, effect, t.core.files, p, n, f);
    }
  }

  lemma AddedWellFiled(c: Contract, s: State, step: Step, all: set<Message>)
    requires WellFiled(c, s, all) && (step.DoSend? ==> step.m in all)
    ensures var effect := EffectOf(c, s, step);
      effect.Added? ==>
        && (effect.f.Notice? <==> effect.p == Rejected)
        && (effect.f.Whole? ==> effect.f.m in all)
        && (effect.f.Whole? && effect.p == Inbox(WAR_ROOM) ==> Held(c, effect.f.m) || effect.f.m.recipient == WAR_ROOM)
  {
    if step.DoWrite? && EffectOf(c, s, step).Added? {
      assert Has(s.core.files, Outbox, s.batch[0], OutboxOf(s)[s.batch[0]]);
    }
  }

  /** A name identifies the message a whole file carries. */
  lemma NameCarries(c: Contract, s: State, all: set<Message>, p: Place, m: Message)
    requires WellFiled(c, s, all) && OneMessagePerName(all) && m in all && p != Rejected
    ensures m.name in DirOf(s.core.files, p) ==> Filed(s.core.files, p, m.name, Carries(m))
  {
    if m.name in DirOf(s.core.files, p) {
      assert Has(s.core.files, p, m.name, DirOf(s.core.files, p)[m.name]);
    }
  }

  /** A file carrying `m` is not overwritten by a notice: a send is fresh, and a vetoed message is never refused. */
  lemma AddedKeepsPayload(c: Contract, s: State, step: Step, all: set<Message>, p: Place, m: Message)
    requires WellFiled(c, s, all) && OneMessagePerName(all) && m in all
    requires Filed(s.core.files, p, m.name, Carries(m))
    requires step.DoSend? ==> forall q :: step.m.name !in DirOf(s.core.files, q)
    ensures var effect := EffectOf(c, s, step);
      effect.Added? && NameOf(effect.f) == m.name && effect.p == p ==> Carries(m)(effect.f)
  {
    assert Has(s.core.files, p, m.name, DirOf(s.core.files, p)[m.name]);
    if step.DoWrite? && EffectOf(c, s, step).Added? {
      assert Has(s.core.files, Outbox, s.batch[0], OutboxOf(s)[s.batch[0]]);
      if s.batch[0] == m.name {
        NameCarries(c, s, all, Outbox, m);
      }
    }
  }

  /** A step keeps a payload that is outside the outbox, or in it while nothing is unlinked there. */
  lemma StepKeepsPayload(c: Contract, s: State, step: Step, all: set<Message>, p: Place, m: Message) returns (q: Place)
    requires WellFiled(c, s, all) && OneMessagePerName(all) && m in all
    requires Filed(s.core.files, p, m.name, Carries(m))
    requires step.DoSend? ==> forall q :: step.m.name !in DirOf(s.core.files, q)
    requires EffectOf(c, s, step) == Effect.Dropped(m.name) ==> p != Outbox
    ensures Filed(Next(c, s, step).core.files, q, m.name, Carries(m))
    ensures p != Outbox ==> q != Outbox
  {
    var effect := EffectOf(c, s, step);
    StepEffect(c, s, step);
    AddedKeepsPayload(c, s, step, all, p, m);
    if effect.Moved? {
      NameCarries(c, s, all, effect.from, m);
    }
    assert effect.Moved? ==> effect.dest != Outbox && effect.from != Rejected;
    q := StaysFiled(s.core.files, effect, Next(c, s, step).core.files, p, m.name, Carries(m));
  }

  lemma StepIntact(c: Contract, s: State, step: Step, all: set<Message>)
    requires WellFiled(c, s, all) && OneMessagePerName(all) && Intact(s, all)
    requires step.DoSend? ==> step.m in all && forall q :: step.m.name !in DirOf(s.core.files, q)
    ensures Intact(Next(c, s, step), all)
  {
    var t := Next(c, s, step);
    forall m | m in t.accepted
      ensures m in all && (m in t.refused || PayloadKept(t.core.files, m))
    {
      if m !in s.accepted {
        PutDir(s.core.files, Outbox, m.name, Whole(m, None), Outbox);
        assert Filed(t.core.files, Outbox, m.name, Carries(m));
      } else if m !in t.refused {
        AcceptedStays(c, s, step, all, m);
      }
    }
    UnlinkingStays(c, s, step, all);
  }

  lemma AcceptedStays(c: Contract, s: State, step: Step, all: set<Message>, m: Message)
    requires WellFiled(c, s, all) && OneMessagePerName(all) && Intact(s, all)
    requires step.DoSend? ==> forall q :: step.m.name !in DirOf(s.core.files, q)
    requires m in s.accepted && m !in Next(c, s, step).refused
    ensures PayloadKept(Next(c, s, step).core.files, m)
  {
    var p :| Filed(s.core.files, p, m.name, Carries(m));
    if EffectOf(c, s, step) == Effect.Dropped(m.name) && p == Outbox {
      var q, x :| q != Outbox && x in all && Unlinked(s, q, x);
      p := q;
    }
    var q := StepKeepsPayload(c, s, step, all, p, m);
  }

  lemma UnlinkingStays(c: Contract, s: State, step: Step, all: set<Message>)
    requires WellFiled(c, s, all) && OneMessagePerName(all) && Intact(s, all)
    requires step.DoSend? ==> forall q :: step.m.name !in DirOf(s.core.files, q)
    ensures var t := Next(c, s, step);
      && (t.unlinking.Some? && t.refusing.None? ==>
            exists p, m :: p != Outbox && m in all && Unlinked(t, p, m))
      && (t.refusing.Some? ==> t.refusing.value in all && t.unlinking == Some(t.refusing.value.name))
  {
    var t := Next(c, s, step);
    if t.unlinking.Some? && s.unlinking.Some? && t.refusing.None? {
      var p, m :| p != Outbox && m in all && Unlinked(s, p, m);
      var q := StepKeepsPayload(c, s, step, all, p, m);
      assert Unlinked(t, q, m);
    }
    if t.unlinking.Some? && s.unlinking.None? {
      var f := OutboxOf(s)[s.batch[0]];
      assert Has(s.core.files, Outbox, s.batch[0], f);
      var d := Target(c, s.core, f.m, step.gatewayAccepts).value;
      PutDir(s.core.files, d.place, f.m.name, d.file, d.place);
      if t.refusing.None? {
        assert Unlinked(t, d.place, f.m);
      }
    }
  }

  lemma {:induction false} AlwaysIntact(c: Contract, steps: seq<Step>, all: set<Message>)
    requires SentOnce(steps) && OneMessagePerName(all) && Sent(steps) <= all
    ensures WellFiled(c, Run(c, steps), all) && Intact(Run(c, steps), all)
  {
    if steps != [] {
      var front, last := steps[..|steps| - 1], steps[|steps| - 1];
      SentFront(steps);
      AlwaysIntact(c, front, all);
      if last.DoSend? {
        assert steps == front + [last];
        SendIsFresh(c, front, last.m);
      }
      StepWellFiled(c, Run(c, front), last, all);
      StepIntact(c, Run(c, front), last, all);
    }
  }

  lemma SentFront(steps: seq<Step>)
    requires steps != [] && SentOnce(steps)
    ensures var front, last := steps[..|steps| - 1], steps[|steps| - 1];
      SentOnce(front) && Sent(front) <= Sent(steps) && (last.DoSend? ==> last.m in Sent(steps))
  {
    var front := steps[..|steps| - 1];
    assert forall k :: 0 <= k < |front| ==> front[k] == steps[k];
  }

  /** The name of a send that is used once is in no directory yet. */
  lemma SendIsFresh(c: Contract, front: seq<Step>, m: Message)
    requires SentOnce(front + [DoSend(m)])
    ensures forall p :: m.name !in DirOf(Run(c, front).core.files, p)
  {
    var steps := front + [DoSend(m)];
    assert steps[..|front|] == front;
    SentFront(steps);
    SentOnceUnique(front);
    AlwaysKept(c, front, Submitted(front));
    var files := Run(c, front).core.files;
    forall p, n | n in DirOf(files, p)
      ensures n != m.name
    {
      assert Has(files, p, n, DirOf(files, p)[n]);
      var k :| 0 <= k < |front| && front[k].DoSend? && EnvelopeOf(front[k].m) == FileEnvelope(DirOf(files, p)[n]);
      assert steps[k] == front[k] && steps[|front|] == DoSend(m);
    }
  }

  lemma OneSendPerName(steps: seq<Step>)
    requires SentOnce(steps)
    ensures OneMessagePerName(Sent(steps))
  {
  }

  /** Crashes included, an accepted message keeps its payload somewhere unless the drain refused it. */
  lemma PayloadKeptOrRefused(c: Contract, steps: seq<Step>, m: Message)
    requires SentOnce(steps) && m in Run(c, steps).accepted
    ensures m in Run(c, steps).refused || PayloadKept(Run(c, steps).core.files, m)
  {
    OneSendPerName(steps);
    AlwaysIntact(c, steps, Sent(steps));
  }

  // ---- Refused exactly when ----

  /** At step `j` the drain writes a notice for `m` because its recipient is not registered. */
  ghost predicate RefusesAt(c: Contract, steps: seq<Step>, j: nat, m: Message) {
    j < |steps| && steps[j].DoWrite?
    && var s := Run(c, steps[..j]);
       && s.batch != [] && s.unlinking.None? && Holds(s.core.files, Outbox, s.batch[0], m)
       && !c.requiresApproval(m.kind) && m.recipient != "war_room" && m.recipient !in s.core.nodes
  }

  /** No unlink and no crash since step `j`: the drain is still in the turn that step began. */
  ghost predicate SameTurn(steps: seq<Step>, j: nat) {
    forall i :: j < i < |steps| ==> !steps[i].DoUnlink? && !steps[i].DoCrash?
  }

  ghost predicate RefusedTurn(c: Contract, steps: seq<Step>, j: nat, k: nat, m: Message) {
    j < k < |steps| && RefusesAt(c, steps[..k], j, m) && SameTurn(steps[..k], j) && steps[k].DoUnlink?
  }

  lemma RefusesAtFront(c: Contract, steps: seq<Step>, j: nat, m: Message)
    requires steps != [] && j < |steps| - 1
    ensures RefusesAt(c, steps[..|steps| - 1], j, m) <==> RefusesAt(c, steps, j, m)
  {
    assert steps[..|steps| - 1][..j] == steps[..j];
  }

  lemma SameTurnFront(steps: seq<Step>, j: nat)
    requires steps != [] && j < |steps| - 1
    ensures var last := steps[|steps| - 1];
      SameTurn(steps, j) <==> SameTurn(steps[..|steps| - 1], j) && !last.DoUnlink? && !last.DoCrash?
  {
    var front := steps[..|steps| - 1];
    assert forall i :: 0 <= i < |front| ==> front[i] == steps[i];
  }

  /** How a step changes what is being refused. */
  lemma StepRefusing(c: Contract, s: State, step: Step, m: Message)
    requires s.unlinking.None? ==> s.refusing.None?
    ensures var t := Next(c, s, step);
      && (t.unlinking.None? ==> t.refusing.None?)
      && (t.refusing == Some(m) <==>
            || (s.refusing == Some(m) && !(step.DoUnlink? && s.batch != []) && !step.DoCrash?)
            || (step.DoWrite? && s.batch != [] && s.unlinking.None? && Holds(s.core.files, Outbox, s.batch[0], m)
                && Refuses(c, s.core, m)))
  {
  }

  /** What the drain is refusing is what it refused in the turn it is in. */
  lemma {:induction false} RefusingMeaning(c: Contract, steps: seq<Step>, m: Message)
    ensures Run(c, steps).refusing == Some(m) <==> exists j :: RefusesAt(c, steps, j, m) && SameTurn(steps, j)
    ensures Run(c, steps).unlinking.None? ==> Run(c, steps).refusing.None?
  {
    if steps != [] {
      var front, last := steps[..|steps| - 1], steps[|steps| - 1];
      var s := Run(c, front);
      RefusingMeaning(c, front, m);
      AlwaysUnlinkingInOutbox(c, front);
      StepRefusing(c, s, last, m);
      assert SameTurn(steps, |front|);
      if s.refusing == Some(m) && !last.DoUnlink? && !last.DoCrash? {
        var j :| RefusesAt(c, front, j, m) && SameTurn(front, j);
        RefusesAtFront(c, steps, j, m);
        SameTurnFront(steps, j);
      }
      if j: nat :| RefusesAt(c, steps, j, m) && SameTurn(steps, j) && j < |front| {
        RefusesAtFront(c, steps, j, m);
        SameTurnFront(steps, j);
      }
    }
  }

  lemma StepRefused(c: Contract, s: State, step: Step, m: Message)
    requires UnlinkingInOutbox(s) && (s.unlinking.None? ==> s.refusing.None?)
    ensures m in Next(c, s, step).refused <==> m in s.refused || (step.DoUnlink? && s.refusing == Some(m))
  {
  }

  ghost predicate TurnRefused(c: Contract, steps: seq<Step>, m: Message) {
    exists j, k :: RefusedTurn(c, steps, j, k, m)
  }

  lemma TurnRefusedFront(c: Contract, steps: seq<Step>, m: Message)
    requires steps != []
    ensures var front, last := steps[..|steps| - 1], steps[|steps| - 1];
      TurnRefused(c, steps, m) <==> TurnRefused(c, front, m) || (last.DoUnlink? && Run(c, front).refusing == Some(m))
  {
    var front, last := steps[..|steps| - 1], steps[|steps| - 1];
    RefusingMeaning(c, front, m);
    if j: nat, k: nat :| RefusedTurn(c, front, j, k, m) {
      assert front[..k] == steps[..k] && front[k] == steps[k];
      assert RefusedTurn(c, steps, j, k, m);
    }
    if j: nat, k: nat :| RefusedTurn(c, steps, j, k, m) {
      if k < |front| {
        assert front[..k] == steps[..k] && front[k] == steps[k];
        assert RefusedTurn(c, front, j, k, m);
      } else {
        assert RefusesAt(c, front, j, m) && SameTurn(front, j);
      }
    }
    if last.DoUnlink? && Run(c, front).refusing == Some(m) {
      var j: nat :| RefusesAt(c, front, j, m) && SameTurn(front, j);
      assert RefusedTurn(c, steps, j, |front|, m);
    }
  }

  /** A message counts as refused exactly when an earlier turn wrote its notice and finished with the unlink. */
  lemma {:induction false} RefusedMeaning(c: Contract, steps: seq<Step>, m: Message)
    ensures m in Run(c, steps).refused <==> TurnRefused(c, steps, m)
  {
    if steps != [] {
      var front, last := steps[..|steps| - 1], steps[|steps| - 1];
      RefusedMeaning(c, front, m);
      RefusingMeaning(c, front, m);
      AlwaysUnlinkingInOutbox(c, front);
      StepRefused(c, Run(c, front), last, m);
      TurnRefusedFront(c, steps, m);
    }
  }

  // ---- Without crashes, a refused payload is gone ----

  /** A refused message has only its notice; one being refused has that and its outbox file. */
  ghost predicate RefusedGone(s: State) {
    && (forall m :: m in s.refused ==> OnlyNotice(s.core.files, m.name, {}))
    && (s.refusing.Some? ==>
          s.unlinking == Some(s.refusing.value.name) && OnlyNotice(s.core.files, s.refusing.value.name, {Outbox}))
  }

  /** Under the name there is a notice, and nothing outside `also`. */
  ghost predicate OnlyNotice(files: Files, n: Name, also: set<Place>) {
    && n in DirOf(files, Rejected) && DirOf(files, Rejected)[n].Notice?
    && forall p :: p != Rejected && p !in also ==> n !in DirOf(files, p)
  }

  lemma EffectKeepsNotice(files: Files, effect: Effect, after: Files, n: Name, also: set<Place>)
    requires Matches(files, effect, after) && OnlyNotice(files, n, also) && also <= {Outbox}
    requires effect.Added? ==> NameOf(effect.f) != n
    requires effect.Moved? ==> effect.n != n
    ensures OnlyNotice(after, n, if effect == Effect.Dropped(n) then {} else also)
  {
    forall p
      ensures n in DirOf(after, p) <==> n in DirOf(files, p) && !(effect == Effect.Dropped(n) && p == Outbox)
      ensures n in DirOf(after, p) ==> DirOf(after, p)[n] == DirOf(files, p)[n]
    {
      match effect
      case Same =>
      case Added(q, f) => PutDir(files, q, NameOf(f), f, p);
      case Dropped(k) => RemoveDir(files, Outbox, k, p);
      case Moved(from, k, to) => RenameDir(files, from, k, to, p);
    }
  }

  /** Nothing but a send or the drain's own write can touch the name. */
  lemma StepKeepsNotice(c: Contract, s: State, step: Step, n: Name, also: set<Place>)
    requires OnlyNotice(s.core.files, n, also) && also <= {Outbox}
    requires forall k, f :: Has(s.core.files, Outbox, k, f) ==> NameOf(f) == k
    requires step.DoSend? ==> step.m.name != n
    requires also == {} || s.unlinking.Some?
    ensures OnlyNotice(Next(c, s, step).core.files, n, if EffectOf(c, s, step) == Effect.Dropped(n) then {} else also)
  {
    var effect := EffectOf(c, s, step);
    StepEffect(c, s, step);
    if step.DoWrite? && effect.Added? {
      assert Has(s.core.files, Outbox, s.batch[0], OutboxOf(s)[s.batch[0]]);
    }
    EffectKeepsNotice(s.core.files, effect, Next(c, s, step).core.files, n, also);
  }

  lemma StepRefusedGone(c: Contract, s: State, step: Step)
    requires RefusedGone(s) && Apart(s.core.files, s.unlinking) && !step.DoCrash?
    requires forall k, f :: Has(s.core.files, Outbox, k, f) ==> NameOf(f) == k
    requires step.DoSend? ==> forall q :: step.m.name !in DirOf(s.core.files, q)
    ensures RefusedGone(Next(c, s, step))
  {
    var t := Next(c, s, step);
    forall m | m in t.refused
      ensures OnlyNotice(t.core.files, m.name, {})
    {
      StepKeepsNotice(c, s, step, m.name, if m in s.refused then {} else {Outbox});
    }
    if t.refusing.Some? {
      if s.refusing.Some? {
        StepKeepsNotice(c, s, step, s.refusing.value.name, {Outbox});
      } else {
        assert Has(s.core.files, Outbox, s.batch[0], OutboxOf(s)[s.batch[0]]);
        RefusalWritten(c, s, step.gatewayAccepts);
      }
    }
  }

  lemma RefusalWritten(c: Contract, s: State, gatewayAccepts: bool)
    requires s.unlinking.None? && s.batch != [] && s.batch[0] in OutboxOf(s)
    requires Apart(s.core.files, None) && NameOf(OutboxOf(s)[s.batch[0]]) == s.batch[0]
    requires Refuses(c, s.core, Read(OutboxOf(s)[s.batch[0]]))
    ensures OnlyNotice(Next(c, s, DoWrite(gatewayAccepts)).core.files, s.batch[0], {Outbox})
  {
    var n := s.batch[0];
    var d := Target(c, s.core, Read(OutboxOf(s)[n]), gatewayAccepts).value;
    forall p
      ensures DirOf(Put(s.core.files, Rejected, n, d.file), p) ==
                if p == Rejected then DirOf(s.core.files, p)[n := d.file] else DirOf(s.core.files, p)
    {
      PutDir(s.core.files, Rejected, n, d.file, p);
    }
  }

  lemma {:induction false} AlwaysRefusedGone(c: Contract, steps: seq<Step>)
    requires SentOnce(steps) && forall k :: 0 <= k < |steps| ==> !steps[k].DoCrash?
    ensures RefusedGone(Run(c, steps))
  {
    if steps != [] {
      var front, last := steps[..|steps| - 1], steps[|steps| - 1];
      SentFront(steps);
      AlwaysRefusedGone(c, front);
      AlwaysOnePlace(c, front);
      SentOnceUnique(front);
      AlwaysKept(c, front, Submitted(front));
      RefusingMeaning(c, front, Message(0, "", "", "", "", ""));
      if last.DoSend? {
        assert steps == front + [last];
        SendIsFresh(c, front, last.m);
      }
      StepRefusedGone(c, Run(c, front), last);
    }
  }

  /**
    Without crashes, the payload of an accepted message is gone exactly when a turn of the drain
    wrote a notice for it, because its recipient was not registered at that step, and finished.
  */
  lemma PayloadLostIff(c: Contract, steps: seq<Step>, m: Message)
    requires SentOnce(steps) && (forall k :: 0 <= k < |steps| ==> !steps[k].DoCrash?)
    requires m in Run(c, steps).accepted
    ensures !PayloadKept(Run(c, steps).core.files, m) <==> TurnRefused(c, steps, m)
  {
    PayloadKeptOrRefused(c, steps, m);
    RefusedMeaning(c, steps, m);
    AlwaysRefusedGone(c, steps);
    var files := Run(c, steps).core.files;
    if m in Run(c, steps).refused {
      assert OnlyNotice(files, m.name, {});
    }
  }

  // ---- An input that loses a payload ----

  lemma RunStep(c: Contract, steps: seq<Step>, step: Step)
    ensures Run(c, steps + [step]) == Next(c, Run(c, steps), step)
  {
    assert (steps + [step])[..|steps|] == steps;
  }

  lemma SortedOne(n: Name)
    ensures Sorted({n}) == [n]
  {
    assert {n} - {n} == {};
  }

  /** A message alone in the outbox, and the drain about to look. */
  lemma AloneInOutbox(c: Contract, s: State, m: Message)
    requires s.batch == [] && s.unlinking.None?
    requires forall p :: DirOf(s.core.files, p) == if p == Outbox then map[m.name := Whole(m, None)] else map[]
    requires Refuses(c, s.core, m)
    ensures var t := Next(c, Next(c, Next(c, s, DoList), DoWrite(false)), DoUnlink);
      && t.accepted == s.accepted && !PayloadKept(t.core.files, m)
      && Has(t.core.files, Rejected, m.name, Notice(EnvelopeOf(m), Undeliverable))
  {
    var listed := Next(c, s, DoList);
    assert OutboxOf(s).Keys == {m.name};
    SortedOne(m.name);
    assert Filed(listed.core.files, Outbox, m.name, Carries(m));
    TurnKeepsPayloadIff(c, listed, m, false);
    TurnEffect(c, listed, false, Rejected);
  }

  /** Register, send, unregister, drain: the message was accepted, and only a notice is left of it. */
  lemma UnregisteringDropsPayload(c: Contract, m: Message, address: string)
    requires c.validate(m).None? && !c.requiresApproval(m.kind) && m.recipient != "war_room"
    ensures var s := Run(c, [DoRegister(m.recipient, address), DoSend(m), DoUnregister(m.recipient)]
                            + [DoList] + [DoWrite(false)] + [DoUnlink]);
      && m in s.accepted && !PayloadKept(s.core.files, m)
      && Has(s.core.files, Rejected, m.name, Notice(EnvelopeOf(m), Undeliverable))
  {
    var r, u := DoRegister(m.recipient, address), DoUnregister(m.recipient);
    var sent := [r, DoSend(m), u];
    assert [] + [r] == [r] && [r] + [DoSend(m)] == [r, DoSend(m)] && [r, DoSend(m)] + [u] == sent;
    RunStep(c, [], r);
    RunStep(c, [r], DoSend(m));
    RunStep(c, [r, DoSend(m)], u);
    RunStep(c, sent, DoList);
    RunStep(c, sent + [DoList], DoWrite(false));
    RunStep(c, sent + [DoList] + [DoWrite(false)], DoUnlink);
    var s := Run(c, sent);
    forall p
      ensures DirOf(s.core.files, p) == if p == Outbox then map[m.name := Whole(m, None)] else map[]
    {
      PutDir(map[], Outbox, m.name, Whole(m, None), p);
    }
    AloneInOutbox(c, s, m);
  }
}
