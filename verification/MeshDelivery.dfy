/**
  Where messages arrive: what a send, a turn of the drain, an approval and a check of an inbox do,
  in terms of the roles, statuses and places themselves, and what may be in each directory in any run.
*/
module MeshDelivery {
  import opened Options
  import opened Listings
  import opened Mesh
  import opened MeshSafety
  import opened MeshPayloads
  import opened MeshOrder

  /** The file is in this place and nowhere else. */
  ghost predicate OnlyIn(files: Files, p: Place, f: File) {
    Has(files, p, NameOf(f), f) && forall q :: q != p ==> NameOf(f) !in DirOf(files, q)
  }

  ghost predicate Reachable(nodes: map<Role, ClawNode>, role: Role) {
    role == "war_room"
    || (role in nodes && (nodes[role].status == "online" || nodes[role].status == "finals-mode"))
  }

  // ---- One send ----

  /** A valid message for the war room or a ready claw is queued whole; any other leaves a notice that says why. */
  lemma SendOutcome(c: Contract, core: Core, m: Message)
    ensures var t := Send(c, core, m);
      var reason := if c.validate(m).Some? then Invalid(c.validate(m).value)
                    else if m.recipient !in core.nodes then Unknown
                    else NotReady(core.nodes[m.recipient].status);
      if c.validate(m).None? && Reachable(core.nodes, m.recipient)
      then Has(t.files, Outbox, m.name, Whole(m, None))
      else Has(t.files, Rejected, m.name, Notice(Envelope(m.name, m.sender, m.recipient, m.kind), reason))
  {
    PutDir(core.files, Sending(c, core, m).place, m.name, Sending(c, core, m).file, Sending(c, core, m).place);
  }

  // ---- One turn of the drain ----

  /** The head of the batch is `m`, in the outbox and nowhere else. */
  ghost predicate AtHead(s: State, m: Message) {
    && s.unlinking.None? && s.batch != [] && s.batch[0] == m.name
    && OnlyIn(s.core.files, Outbox, Whole(m, None))
  }

  /** Where a message at the head goes: exactly one place for every state of its recipient and of the gateway. */
  ghost predicate Arrives(c: Contract, core: Core, m: Message, gatewayAccepts: bool, files: Files) {
    var needsApproval := c.requiresApproval(m.kind);
    if needsApproval && m.recipient != "war_room" then
      OnlyIn(files, Inbox("war_room"), Whole(m, Some(true)))
    else if m.recipient != "war_room" && m.recipient !in core.nodes then
      OnlyIn(files, Rejected, Notice(Envelope(m.name, m.sender, m.recipient, m.kind), Undeliverable))
    else if !Reachable(core.nodes, m.recipient) then
      OnlyIn(files, Outbox, Whole(m, None))
    else if !core.gatewayUp then
      OnlyIn(files, Inbox(m.recipient), Whole(m, Some(needsApproval)))
    else if gatewayAccepts then
      OnlyIn(files, Gateway, Whole(m, Some(needsApproval)))
    else
      OnlyIn(files, Outbox, Whole(m, None))
  }

  /** A turn of the drain takes the message at the head where it belongs. */
  lemma TurnArrives(c: Contract, s: State, m: Message, gatewayAccepts: bool)
    requires AtHead(s, m)
    ensures Arrives(c, s.core, m, gatewayAccepts, Next(c, Next(c, s, DoWrite(gatewayAccepts)), DoUnlink).core.files)
  {
    forall p
      ensures var target := Target(c, s.core, m, gatewayAccepts);
        var t := Next(c, Next(c, s, DoWrite(gatewayAccepts)), DoUnlink);
        DirOf(t.core.files, p) ==
          if target.None? then DirOf(s.core.files, p)
          else if p == target.value.place then DirOf(s.core.files, p)[m.name := target.value.file]
          else if p == Outbox then OutboxOf(s) - {m.name}
          else DirOf(s.core.files, p)
    {
      TurnEffect(c, s, gatewayAccepts, p);
    }
  }

  /** An approval takes a waiting file to its recipient's inbox, a veto to rejected, both unchanged. */
  lemma DecisionArrives(c: Contract, s: State, f: File)
    requires f.Whole? && OnlyIn(s.core.files, Inbox("war_room"), f)
    ensures OnlyIn(Next(c, s, DoApprove(NameOf(f))).core.files, Inbox(f.m.recipient), f)
    ensures OnlyIn(Next(c, s, DoVeto(NameOf(f))).core.files, Rejected, f)
  {
    MovedArrives(s.core.files, Inbox("war_room"), f, Inbox(f.m.recipient));
    MovedArrives(s.core.files, Inbox("war_room"), f, Rejected);
  }

  lemma MovedArrives(files: Files, p: Place, f: File, q: Place)
    requires OnlyIn(files, p, f)
    ensures OnlyIn(Rename(files, p, NameOf(f), q), q, f)
  {
    forall r
      ensures DirOf(Rename(files, p, NameOf(f), q), r) ==
        if p == q then DirOf(files, r)
        else if r == q then DirOf(files, q)[NameOf(f) := f]
        else if r == p then DirOf(files, p) - {NameOf(f)}
        else DirOf(files, r)
    {
      RenameDir(files, p, NameOf(f), q, r);
    }
  }

  // ---- From send to inbox, over runs ----

  ghost predicate Orderly(steps: seq<Step>) {
    SentOnce(steps) && forall k :: 0 <= k < |steps| ==> !steps[k].DoCrash?
  }

  /** In every run without crashes, a turn of the drain takes a waiting accepted message where it belongs. */
  lemma WaitingArrives(c: Contract, steps: seq<Step>, m: Message, gatewayAccepts: bool)
    requires Orderly(steps) && m in Run(c, steps).accepted
    requires Run(c, steps).unlinking.None? && Run(c, steps).batch != [] && Run(c, steps).batch[0] == m.name
    ensures Arrives(c, Run(c, steps).core, m, gatewayAccepts,
                    Run(c, steps + [DoWrite(gatewayAccepts)] + [DoUnlink]).core.files)
  {
    var s := Run(c, steps);
    OneSendPerName(steps);
    AlwaysIntact(c, steps, Sent(steps));
    AlwaysPlaced(c, steps);
    ExactlyOnePlace(c, steps, m);
    AlwaysBatchInOutbox(c, steps);
    var p :| Filed(s.core.files, p, m.name, About(EnvelopeOf(m)))
      && forall q :: q != p ==> (m.name in DirOf(s.core.files, q) <==> q.Outbox? && s.unlinking == Some(m.name));
    NameCarries(c, s, Sent(steps), Outbox, m);
    assert Has(s.core.files, Outbox, m.name, OutboxOf(s)[m.name]);
    TurnArrives(c, s, m, gatewayAccepts);
    RunStep(c, steps, DoWrite(gatewayAccepts));
    RunStep(c, steps + [DoWrite(gatewayAccepts)], DoUnlink);
  }

  /** In every run without crashes, an approve step takes an accepted message from the war room to its recipient. */
  lemma HeldArrives(c: Contract, steps: seq<Step>, m: Message)
    requires Orderly(steps) && m in Run(c, steps).accepted && Run(c, steps).unlinking != Some(m.name)
    requires m.name in DirOf(Run(c, steps).core.files, Inbox("war_room"))
    ensures var f := Whole(m, Some(c.requiresApproval(m.kind)));
      && OnlyIn(Run(c, steps).core.files, Inbox("war_room"), f)
      && OnlyIn(Run(c, steps + [DoApprove(m.name)]).core.files, Inbox(m.recipient), f)
      && OnlyIn(Run(c, steps + [DoVeto(m.name)]).core.files, Rejected, f)
  {
    var s := Run(c, steps);
    var warRoom := Inbox("war_room");
    OneSendPerName(steps);
    AlwaysIntact(c, steps, Sent(steps));
    AlwaysPlaced(c, steps);
    ExactlyOnePlace(c, steps, m);
    NameCarries(c, s, Sent(steps), warRoom, m);
    assert Has(s.core.files, warRoom, m.name, DirOf(s.core.files, warRoom)[m.name]);
    DecisionArrives(c, s, Whole(m, Some(c.requiresApproval(m.kind))));
    RunStep(c, steps, DoApprove(m.name));
    RunStep(c, steps, DoVeto(m.name));
  }

  // ---- What is where, in any run ----

  /** Each directory holds only what belongs there. */
  ghost predicate Placed(c: Contract, files: Files) {
    forall p, n, f :: Has(files, p, n, f) ==> Belongs(c, p, f)
  }

  predicate Belongs(c: Contract, p: Place, f: File) {
    match p
    case Outbox => f.Whole? && f.flag.None?
    case Inbox(role) => Flagged(c, f) && (role == f.m.recipient || (role == "war_room" && c.requiresApproval(f.m.kind)))
    case Processed(role) => Flagged(c, f) && role == f.m.recipient
    case Gateway => Flagged(c, f) && (c.requiresApproval(f.m.kind) ==> f.m.recipient == "war_room")
    case Delivered => Flagged(c, f)
    case Rejected => f.Notice? || (Flagged(c, f) && (c.requiresApproval(f.m.kind) || f.m.recipient == "war_room"))
  }

  /** A whole message with the validator's answer written beside it. */
  predicate Flagged(c: Contract, f: File) {
    f.Whole? && f.flag == Some(c.requiresApproval(f.m.kind))
  }

  lemma AddedBelongs(c: Contract, s: State, step: Step)
    requires Placed(c, s.core.files)
    ensures var effect := EffectOf(c, s, step);
      effect.Added? ==> Belongs(c, effect.p, effect.f)
  {
    if step.DoWrite? && EffectOf(c, s, step).Added? {
      assert Has(s.core.files, Outbox, s.batch[0], OutboxOf(s)[s.batch[0]]);
    }
  }

  lemma MovedBelongs(c: Contract, s: State, step: Step, f: File)
    requires PollerOf(s, WAR_ROOM).current.None?
    ensures var effect := EffectOf(c, s, step);
      effect.Moved? && Has(s.core.files, effect.from, effect.n, f) && Belongs(c, effect.from, f)
      ==> Belongs(c, effect.dest, f)
  {
  }

  lemma StepPlaced(c: Contract, s: State, step: Step)
    requires Placed(c, s.core.files) && PollerOf(s, WAR_ROOM).current.None?
    ensures Placed(c, Next(c, s, step).core.files)
  {
    var t := Next(c, s, step);
    var effect := EffectOf(c, s, step);
    StepEffect(c, s, step);
    AddedBelongs(c, s, step);
    forall p, n, f | Has(t.core.files, p, n, f)
      ensures Belongs(c, p, f)
    {
      Origin(s.core.files, effect, t.core.files, p, n, f);
      MovedBelongs(c, s, step, f);
    }
  }

  /** In every run, crashes included, a claw's inbox holds only whole messages for that claw. */
  lemma {:induction false} AlwaysPlaced(c: Contract, steps: seq<Step>)
    ensures Placed(c, Run(c, steps).core.files)
  {
    if steps != [] {
      var front := steps[..|steps| - 1];
      AlwaysPlaced(c, front);
      AlwaysGated(c, front);
      StepPlaced(c, Run(c, front), steps[|steps| - 1]);
    }
  }

  /** The poller has been handed every file it archives or is about to archive. */
  ghost predicate HandledFirst(s: State) {
    && (forall role, n :: n in DirOf(s.core.files, Processed(role)) ==> WasHandled(s, role, n))
    && (forall role :: PollerOf(s, role).current.Some? ==> WasHandled(s, role, PollerOf(s, role).current.value))
  }

  ghost predicate WasHandled(s: State, role: Role, n: Name) {
    exists i :: 0 <= i < |s.handled| && s.handled[i].role == role && s.handled[i].name == n
  }

  lemma StepKeepsHandled(c: Contract, s: State, step: Step, role: Role, n: Name)
    requires WasHandled(s, role, n)
    ensures WasHandled(Next(c, s, step), role, n)
  {
    StepHandles(c, s, step);
    var i :| 0 <= i < |s.handled| && s.handled[i].role == role && s.handled[i].name == n;
    assert Next(c, s, step).handled[i] == s.handled[i];
  }

  lemma CurrentWasHandled(c: Contract, s: State, step: Step, role: Role)
    requires HandledFirst(s)
    ensures var t := Next(c, s, step);
      PollerOf(t, role).current.Some? ==> WasHandled(t, role, PollerOf(t, role).current.value)
  {
    var t := Next(c, s, step);
    if PollerOf(t, role).current.Some? {
      var n := PollerOf(t, role).current.value;
      if PollerOf(s, role).current == Some(n) {
        StepKeepsHandled(c, s, step, role, n);
      } else {
        assert t.handled[|s.handled|].role == role && t.handled[|s.handled|].name == n;
      }
    }
  }

  lemma StepHandledFirst(c: Contract, s: State, step: Step)
    requires HandledFirst(s)
    ensures HandledFirst(Next(c, s, step))
  {
    var t := Next(c, s, step);
    var effect := EffectOf(c, s, step);
    StepEffect(c, s, step);
    forall role, n | n in DirOf(t.core.files, Processed(role))
      ensures WasHandled(t, role, n)
    {
      NameOrigin(s.core.files, effect, t.core.files, Processed(role), n);
      if n !in DirOf(s.core.files, Processed(role)) {
        ArchivesCurrent(c, s, step, role);
      }
      StepKeepsHandled(c, s, step, role, n);
    }
    forall role | PollerOf(t, role).current.Some?
      ensures WasHandled(t, role, PollerOf(t, role).current.value)
    {
      CurrentWasHandled(c, s, step, role);
    }
  }

  /** Only the poller's own archive step files anything in its archive: the file it has just handled. */
  lemma ArchivesCurrent(c: Contract, s: State, step: Step, role: Role)
    ensures var effect := EffectOf(c, s, step);
      && (effect.Added? ==> effect.p != Processed(role))
      && (effect.Moved? && effect.dest == Processed(role) ==>
            step == DoArchive(role) && effect.from == Inbox(role) && PollerOf(s, role).current == Some(effect.n))
  {
  }

  /** In every run, crashes included, every archived file was handed to that claw's handler. */
  lemma {:induction false} AlwaysHandledFirst(c: Contract, steps: seq<Step>)
    ensures HandledFirst(Run(c, steps))
  {
    if steps != [] {
      AlwaysHandledFirst(c, steps[..|steps| - 1]);
      StepHandledFirst(c, Run(c, steps[..|steps| - 1]), steps[|steps| - 1]);
    }
  }

  ghost predicate AckedAt(c: Contract, steps: seq<Step>, k: nat, n: Name) {
    && k < |steps| && steps[k].DoAck? && steps[k].name == n
    && n in DirOf(Run(c, steps[..k]).core.files, Inbox(steps[k].role))
  }

  lemma DeliversByAck(c: Contract, s: State, step: Step)
    ensures var effect := EffectOf(c, s, step);
      && (effect.Added? ==> effect.p != Delivered)
      && (effect.Moved? && effect.dest == Delivered ==>
            step.DoAck? && effect.n == step.name && effect.from == Inbox(step.role))
  {
  }

  /** In every run, what is in `delivered` was acknowledged by a claw that had it in its inbox. */
  lemma {:induction false} DeliveredWasAcked(c: Contract, steps: seq<Step>, n: Name)
    requires n in DirOf(Run(c, steps).core.files, Delivered)
    ensures exists k :: AckedAt(c, steps, k, n)
  {
    var front, last := steps[..|steps| - 1], steps[|steps| - 1];
    var s := Run(c, front);
    StepEffect(c, s, last);
    NameOrigin(s.core.files, EffectOf(c, s, last), Run(c, steps).core.files, Delivered, n);
    if n in DirOf(s.core.files, Delivered) {
      DeliveredWasAcked(c, front, n);
      var k: nat :| AckedAt(c, front, k, n);
      assert front[..k] == steps[..k] && front[k] == steps[k];
      assert AckedAt(c, steps, k, n);
    } else {
      DeliversByAck(c, s, last);
      assert AckedAt(c, steps, |front|, n);
    }
  }

  // ---- One uninterrupted pass of the drain ----

  ghost predicate Waiting(core: Core, n: Name, m: Message) {
    m.name == n && OnlyIn(core.files, Outbox, Whole(m, None))
  }

  ghost predicate AllWaiting(core: Core) {
    forall n :: n in DirOf(core.files, Outbox) ==> exists m :: Waiting(core, n, m)
  }

  /** Under the name nothing is changed anywhere. */
  ghost predicate Untouched(files: Files, after: Files, n: Name) {
    forall p :: (n in DirOf(after, p) <==> n in DirOf(files, p))
             && (n in DirOf(files, p) ==> DirOf(after, p)[n] == DirOf(files, p)[n])
  }

  lemma UntouchedOnlyIn(files: Files, after: Files, p: Place, f: File)
    requires Untouched(files, after, NameOf(f))
    ensures OnlyIn(after, p, f) <==> OnlyIn(files, p, f)
  {
    if OnlyIn(after, p, f) || OnlyIn(files, p, f) {
      assert NameOf(f) in DirOf(files, p) <==> NameOf(f) in DirOf(after, p);
      forall q | q != p
        ensures NameOf(f) in DirOf(files, q) <==> NameOf(f) in DirOf(after, q)
      {
      }
    }
  }

  /** The core after the drain wrote the target of one file and removed the source. */
  function Drained(core: Core, m: Message, d: Delivery): Core {
    UnlinkSource(core.(files := Put(core.files, d.place, m.name, d.file)), m.name)
  }

  lemma DrainedTouchesOne(core: Core, m: Message, d: Delivery, n: Name)
    requires n != m.name
    ensures Untouched(core.files, Drained(core, m, d).files, n)
  {
    forall p
      ensures DirOf(Drained(core, m, d).files, p) ==
        var dir := if p == d.place then DirOf(core.files, p)[m.name := d.file] else DirOf(core.files, p);
        if p == Outbox then dir - {m.name} else dir
    {
      PutDir(core.files, d.place, m.name, d.file, p);
      RemoveDir(Put(core.files, d.place, m.name, d.file), Outbox, m.name, p);
    }
  }

  lemma DrainedKeepsWaiting(core: Core, m: Message, d: Delivery)
    requires AllWaiting(core) && d.place != Outbox
    ensures AllWaiting(Drained(core, m, d))
  {
    var next := Drained(core, m, d);
    PutDir(core.files, d.place, m.name, d.file, Outbox);
    RemoveDir(Put(core.files, d.place, m.name, d.file), Outbox, m.name, Outbox);
    forall n | n in DirOf(next.files, Outbox)
      ensures exists x :: Waiting(next, n, x)
    {
      var x :| Waiting(core, n, x);
      DrainedTouchesOne(core, m, d, n);
      UntouchedOnlyIn(core.files, next.files, Outbox, Whole(x, None));
      assert Waiting(next, n, x);
    }
  }

  lemma TargetLeavesOutbox(c: Contract, core: Core, m: Message, gatewayAccepts: bool)
    ensures var target := Target(c, core, m, gatewayAccepts);
      target.Some? ==> target.value.place != Outbox
  {
  }

  /** The drain does not touch a name that is not on its list. */
  lemma {:induction false} PassTouchesListed(c: Contract, core: Core, todo: seq<Name>, gatewayAccepts: Message -> bool,
      n: Name)
    requires AllWaiting(core) && n !in todo && Increasing(todo)
    requires forall k :: k in todo ==> k in DirOf(core.files, Outbox)
    ensures Untouched(core.files, DrainAll(c, core, todo, gatewayAccepts).files, n)
    decreases |todo|
  {
    if todo != [] {
      var m := Read(DirOf(core.files, Outbox)[todo[0]]);
      assert exists x :: Waiting(core, todo[0], x);
      var target := Target(c, core, m, gatewayAccepts(m));
      if target.Some? {
        TargetLeavesOutbox(c, core, m, gatewayAccepts(m));
        var next := Drained(core, m, target.value);
        DrainedTouchesOne(core, m, target.value, n);
        DrainedKeepsWaiting(core, m, target.value);
        StillListed(core, todo, m, target.value);
        PassTouchesListed(c, next, todo[1..], gatewayAccepts, n);
        assert forall p :: n in DirOf(next.files, p) <==> n in DirOf(core.files, p);
      }
    }
  }

  lemma StillListed(core: Core, todo: seq<Name>, m: Message, d: Delivery)
    requires todo != [] && Increasing(todo) && m.name == todo[0]
    requires forall k :: k in todo ==> k in DirOf(core.files, Outbox)
    ensures Increasing(todo[1..]) && todo[0] !in todo[1..]
    ensures forall k :: k in todo[1..] ==> k in DirOf(Drained(core, m, d).files, Outbox)
  {
    TailFront(todo);
    forall k | k in todo[1..]
      ensures k in DirOf(Drained(core, m, d).files, Outbox)
    {
      DrainedTouchesOne(core, m, d, k);
    }
  }

  /** The first file on the list arrives where a turn takes it, if the drain gets past it. */
  lemma FirstArrives(c: Contract, core: Core, m: Message, gatewayAccepts: bool)
    requires OnlyIn(core.files, Outbox, Whole(m, None))
    ensures var target := Target(c, core, m, gatewayAccepts);
      Arrives(c, core, m, gatewayAccepts, if target.Some? then Drained(core, m, target.value).files else core.files)
  {
    var s := START.(core := core, batch := [m.name]);
    TurnArrives(c, s, m, gatewayAccepts);
  }

  lemma ArrivesUntouched(c: Contract, core: Core, m: Message, gatewayAccepts: bool, files: Files, after: Files)
    requires Arrives(c, core, m, gatewayAccepts, files) && Untouched(files, after, m.name)
    ensures Arrives(c, core, m, gatewayAccepts, after)
  {
    var flag := c.requiresApproval(m.kind);
    UntouchedOnlyIn(files, after, Inbox("war_room"), Whole(m, Some(true)));
    UntouchedOnlyIn(files, after, Rejected, Notice(Envelope(m.name, m.sender, m.recipient, m.kind), Undeliverable));
    UntouchedOnlyIn(files, after, Outbox, Whole(m, None));
    UntouchedOnlyIn(files, after, Inbox(m.recipient), Whole(m, Some(flag)));
    UntouchedOnlyIn(files, after, Gateway, Whole(m, Some(flag)));
  }

  /** The file's own message, or that of an earlier file, waits for a claw that is registered but not ready. */
  ghost predicate HeldUp(c: Contract, core: Core, n: Name) {
    exists b: Name, m :: b <= n && Waiting(core, b, m) && !(c.requiresApproval(m.kind) && m.recipient != "war_room")
      && m.recipient in core.nodes && !Reachable(core.nodes, m.recipient)
  }

  lemma {:induction false} ListArrives(c: Contract, core: Core, todo: seq<Name>, gatewayAccepts: Message -> bool,
      m: Message)
    requires !core.gatewayUp && AllWaiting(core) && Increasing(todo) && m.name in todo
    requires forall k :: k in todo <==> k in DirOf(core.files, Outbox)
    requires OnlyIn(core.files, Outbox, Whole(m, None)) && !HeldUp(c, core, m.name)
    ensures Arrives(c, core, m, gatewayAccepts(m), DrainAll(c, core, todo, gatewayAccepts).files)
    decreases |todo|
  {
    var first := todo[0];
    assert first in DirOf(core.files, Outbox);
    var x :| Waiting(core, first, x);
    FirstIsLeast(todo);
    var target := Target(c, core, x, gatewayAccepts(x));
    assert target.Some?;
    TargetLeavesOutbox(c, core, x, gatewayAccepts(x));
    var next := Drained(core, x, target.value);
    StillListed(core, todo, x, target.value);
    DrainedKeepsWaiting(core, x, target.value);
    if first == m.name {
      assert x == m;
      FirstArrives(c, core, m, gatewayAccepts(m));
      PassTouchesListed(c, next, todo[1..], gatewayAccepts, first);
      ArrivesUntouched(c, core, m, gatewayAccepts(m), next.files, DrainAll(c, next, todo[1..], gatewayAccepts).files);
    } else {
      TailFront(todo);
      DrainedTouchesOne(core, x, target.value, m.name);
      UntouchedOnlyIn(core.files, next.files, Outbox, Whole(m, None));
      StillClear(c, core, next, x, target.value, m.name);
      OutboxShrinks(core, x, target.value);
      ListArrives(c, next, todo[1..], gatewayAccepts, m);
    }
  }

  lemma OutboxShrinks(core: Core, m: Message, d: Delivery)
    requires d.place != Outbox
    ensures DirOf(Drained(core, m, d).files, Outbox) == DirOf(core.files, Outbox) - {m.name}
  {
    PutDir(core.files, d.place, m.name, d.file, Outbox);
    RemoveDir(Put(core.files, d.place, m.name, d.file), Outbox, m.name, Outbox);
  }

  lemma StillClear(c: Contract, core: Core, next: Core, x: Message, d: Delivery, n: Name)
    requires next == Drained(core, x, d) && d.place != Outbox && !HeldUp(c, core, n)
    ensures !HeldUp(c, next, n)
  {
    OutboxShrinks(core, x, d);
    forall b, m | Waiting(next, b, m)
      ensures Waiting(core, b, m)
    {
      DrainedTouchesOne(core, x, d, b);
      UntouchedOnlyIn(core.files, next.files, Outbox, Whole(m, None));
    }
  }

  /** A pass over the file transport takes every message it is not held up before to where it belongs. */
  lemma PassArrives(c: Contract, core: Core, gatewayAccepts: Message -> bool, m: Message)
    requires !core.gatewayUp && AllWaiting(core)
    requires OnlyIn(core.files, Outbox, Whole(m, None)) && !HeldUp(c, core, m.name)
    ensures Arrives(c, core, m, gatewayAccepts(m),
                    DrainAll(c, core, Sorted(DirOf(core.files, Outbox).Keys), gatewayAccepts).files)
  {
    ListArrives(c, core, Sorted(DirOf(core.files, Outbox).Keys), gatewayAccepts, m);
  }

  lemma OnceApart(files: Files, p: Place, n: Name)
    requires Apart(files, None) && n in DirOf(files, p)
    ensures forall q :: q != p ==> n !in DirOf(files, q)
  {
    forall q
      ensures q != p ==> n !in DirOf(files, q)
    {
      assert q != p && n in DirOf(files, q) ==> Option<Name>.None == Some(n);
    }
  }

  /** Between turns of a run without crashes, every file in the outbox waits there and nowhere else. */
  lemma OutboxWaits(c: Contract, steps: seq<Step>)
    requires Orderly(steps) && Run(c, steps).unlinking.None?
    ensures AllWaiting(Run(c, steps).core)
  {
    var s := Run(c, steps);
    SentOnceUnique(steps);
    AlwaysKept(c, steps, Submitted(steps));
    AlwaysOnePlace(c, steps);
    AlwaysPlaced(c, steps);
    forall n | n in DirOf(s.core.files, Outbox)
      ensures exists m :: Waiting(s.core, n, m)
    {
      OnceApart(s.core.files, Outbox, n);
      var f := OutboxOf(s)[n];
      assert Has(s.core.files, Outbox, n, f);
      assert f == Whole(f.m, None) && NameOf(f) == n;
      assert Waiting(s.core, n, f.m);
    }
  }

  // ---- The topology ----

  /** What each topology step makes of a role; the other roles stay as they are. */
  lemma TopologyOutcome(c: Contract, s: State, role: Role, address: string, now: int, status: string, other: Role)
    requires other != role
    ensures Next(c, s, DoRegister(role, address)).core.nodes[role] == ClawNode(address, "online", None, 0)
    ensures role !in Next(c, s, DoUnregister(role)).core.nodes
    ensures role in s.core.nodes ==>
      var was := s.core.nodes[role];
      && Next(c, s, DoHeartbeat(role, now)).core.nodes[role]
         == ClawNode(was.address, if was.status == "unhealthy" then "online" else was.status, Some(now), 0)
      && Next(c, s, DoMarkUnhealthy(role)).core.nodes[role]
         == ClawNode(was.address, "unhealthy", was.lastHeartbeat, was.failures + 1)
      && Next(c, s, DoSetStatus(role, status)).core.nodes[role]
         == ClawNode(was.address, status, was.lastHeartbeat, was.failures)
    ensures role !in s.core.nodes ==>
      && Next(c, s, DoHeartbeat(role, now)) == s
      && Next(c, s, DoMarkUnhealthy(role)) == s
      && Next(c, s, DoSetStatus(role, status)) == s
    ensures forall step ::
      step in {DoRegister(role, address), DoUnregister(role), DoHeartbeat(role, now), DoMarkUnhealthy(role),
               DoSetStatus(role, status)} ==>
      var nodes := Next(c, s, step).core.nodes;
      (other in nodes <==> other in s.core.nodes) && (other in nodes ==> nodes[other] == s.core.nodes[other])
  {
  }

  // ---- One uninterrupted check of an inbox ----

  /** The listed files that are there and not marked, in order. */
  function Fresh(inbox: Dir, processed: set<Name>, todo: seq<Name>): seq<File> {
    if todo == [] then []
    else (if todo[0] in inbox && todo[0] !in processed then [inbox[todo[0]]] else [])
         + Fresh(inbox, processed, todo[1..])
  }

  lemma {:induction false} FreshSame(a: Dir, b: Dir, p: set<Name>, q: set<Name>, todo: seq<Name>)
    requires forall n :: n in todo ==> (n in a <==> n in b) && (n in a ==> a[n] == b[n]) && (n in p <==> n in q)
    ensures Fresh(a, p, todo) == Fresh(b, q, todo)
  {
    if todo != [] {
      FreshSame(a, b, p, q, todo[1..]);
    }
  }

  lemma PollOneEffect(role: Role, p: Polled, n: Name)
    ensures var t := PollOne(role, p, n);
      var inbox, moves := DirOf(p.files, Inbox(role)), n in DirOf(p.files, Inbox(role)) && n !in p.processed;
      && DirOf(t.files, Inbox(role)) == (if moves then inbox - {n} else inbox)
      && DirOf(t.files, Processed(role)) ==
           (if moves then DirOf(p.files, Processed(role))[n := inbox[n]] else DirOf(p.files, Processed(role)))
      && t.processed == (if moves then p.processed + {n} else p.processed)
      && t.handled == (if moves then p.handled + [inbox[n]] else p.handled)
  {
    if n in DirOf(p.files, Inbox(role)) {
      RenameDir(p.files, Inbox(role), n, Processed(role), Inbox(role));
      RenameDir(p.files, Inbox(role), n, Processed(role), Processed(role));
    }
  }

  /** What a check does: the unmarked files are handed over in order, marked and archived; the rest stays. */
  ghost predicate Checked(role: Role, p: Polled, todo: seq<Name>, t: Polled) {
    var inbox, archive := DirOf(p.files, Inbox(role)), DirOf(p.files, Processed(role));
    var after := DirOf(t.files, Processed(role));
    && t.handled == p.handled + Fresh(inbox, p.processed, todo)
    && forall n ::
         var due := n in todo && n in inbox && n !in p.processed;
         && (n in DirOf(t.files, Inbox(role)) <==> n in inbox && !due)
         && (n in t.processed <==> n in p.processed || due)
         && (due ==> n in after && after[n] == inbox[n])
         && (!due && n in archive ==> n in after && after[n] == archive[n])
         && (n in DirOf(t.files, Inbox(role)) ==> DirOf(t.files, Inbox(role))[n] == inbox[n])
  }

  lemma {:induction false} PollChecks(role: Role, p: Polled, todo: seq<Name>)
    requires Increasing(todo)
    ensures Checked(role, p, todo, PollAll(role, p, todo))
    decreases |todo|
  {
    if todo != [] {
      var next := PollOne(role, p, todo[0]);
      PollOneEffect(role, p, todo[0]);
      TailFront(todo);
      PollChecks(role, next, todo[1..]);
      FreshSame(DirOf(p.files, Inbox(role)), DirOf(next.files, Inbox(role)), p.processed, next.processed, todo[1..]);
    }
  }
}
