/**
  Safety of the mesh over every run of the transition system: the approval gate, no loss of an
  accepted message's envelope, and handling at most once. What happens to payloads is in
  `MeshPayloads`.
*/
module MeshSafety {
  import opened Options
  import opened Listings
  import opened Mesh

  // ---- Effects on the directory tree, directory by directory ----

  lemma RenameDir(files: Files, p: Place, n: Name, q: Place, r: Place)
    requires n in DirOf(files, p)
    ensures DirOf(Rename(files, p, n, q), r) ==
      if p == q then DirOf(files, r)
      else if r == q then DirOf(files, q)[n := DirOf(files, p)[n]]
      else if r == p then DirOf(files, p) - {n}
      else DirOf(files, r)
  {
  }

  lemma PutDir(files: Files, p: Place, n: Name, f: File, r: Place)
    ensures DirOf(Put(files, p, n, f), r) == if r == p then DirOf(files, p)[n := f] else DirOf(files, r)
  {
  }

  lemma RemoveDir(files: Files, p: Place, n: Name, r: Place)
    ensures DirOf(Remove(files, p, n), r) == if r == p then DirOf(files, p) - {n} else DirOf(files, r)
  {
  }

  ghost predicate Has(files: Files, p: Place, n: Name, f: File) {
    n in DirOf(files, p) && DirOf(files, p)[n] == f
  }

  /** A step's effect on the tree: a file written under its message's name, removed from the outbox, or renamed. */
  datatype Effect = Same | Added(p: Place, f: File) | Dropped(n: Name) | Moved(from: Place, n: Name, dest: Place)

  function NameOf(f: File): Name {
    FileEnvelope(f).name
  }

  ghost predicate Matches(files: Files, effect: Effect, after: Files) {
    match effect
    case Same => after == files
    case Added(p, f) => after == Put(files, p, NameOf(f), f)
    case Dropped(n) => after == Remove(files, Outbox, n)
    case Moved(p, n, q) => n in DirOf(files, p) && after == Rename(files, p, n, q)
  }

  ghost function EffectOf(c: Contract, s: State, step: Step): Effect {
    match step
    case DoSend(m) => Added(Sending(c, s.core, m).place, Sending(c, s.core, m).file)
    case DoWrite(gatewayAccepts) =>
      if s.batch == [] || s.unlinking.Some? then Same
      else if s.batch[0] !in OutboxOf(s) then Dropped(s.batch[0])
      else
        var target := Target(c, s.core, Read(OutboxOf(s)[s.batch[0]]), gatewayAccepts);
        if target.None? then Same else Added(target.value.place, target.value.file)
    case DoUnlink => if s.batch != [] && s.unlinking.Some? then Dropped(s.unlinking.value) else Same
    case DoApprove(n) =>
      var held := DirOf(s.core.files, Inbox(WAR_ROOM));
      if n in held then Moved(Inbox(WAR_ROOM), n, Inbox(Read(held[n]).recipient)) else Same
    case DoVeto(n) => MoveEffect(s, Inbox(WAR_ROOM), n, Rejected)
    case DoAck(role, n) => MoveEffect(s, Inbox(role), n, Delivered)
    case DoArchive(role) =>
      var poller := PollerOf(s, role);
      if poller.current.None? then Same else MoveEffect(s, Inbox(role), poller.current.value, Processed(role))
    case _ => Same
  }

  ghost function MoveEffect(s: State, p: Place, n: Name, q: Place): Effect {
    if n in DirOf(s.core.files, p) then Moved(p, n, q) else Same
  }

  /** Every step changes the tree by at most one addition, removal or rename. */
  lemma StepEffect(c: Contract, s: State, step: Step)
    ensures Matches(s.core.files, EffectOf(c, s, step), Next(c, s, step).core.files)
  {
    if step.DoWrite? {
      WriteEffect(c, s, step.gatewayAccepts);
    }
  }

  lemma WriteEffect(c: Contract, s: State, gatewayAccepts: bool)
    ensures var step := DoWrite(gatewayAccepts);
      Matches(s.core.files, EffectOf(c, s, step), Next(c, s, step).core.files)
  {
  }

  // ---- Approval gate ----

  /** Places from which a message acts outside the war room. */
  predicate BeyondGate(p: Place) {
    match p
    case Inbox(role) => role != WAR_ROOM
    case Processed(_) => true
    case Gateway => true
    case _ => false
  }

  ghost predicate Gated(c: Contract, s: State) {
    && PollerOf(s, WAR_ROOM).current.None?
    && (forall p, n, f :: Has(s.core.files, p, n, f) && BeyondGate(p) && Held(c, Read(f)) ==> Read(f) in s.approved)
    && (forall i :: 0 <= i < |s.handled| && Held(c, Read(s.handled[i].file)) ==> Read(s.handled[i].file) in s.approved)
  }

  /** What a file found after a step was before it. */
  lemma Origin(files: Files, effect: Effect, after: Files, p: Place, n: Name, f: File)
    requires Matches(files, effect, after) && Has(after, p, n, f)
    ensures Has(files, p, n, f)
      || (effect.Added? && effect.p == p && effect.f == f && n == NameOf(f))
      || (effect.Moved? && effect.dest == p && effect.n == n && Has(files, effect.from, n, f))
  {
    match effect
    case Same =>
    case Added(q, g) => PutDir(files, q, NameOf(g), g, p);
    case Dropped(k) => RemoveDir(files, Outbox, k, p);
    case Moved(q, k, r) => RenameDir(files, q, k, r, p);
  }

  /** A held message is only ever put beyond the gate by moving it there, from beyond or by an approval. */
  lemma BeyondByApproval(c: Contract, s: State, step: Step, p: Place)
    requires BeyondGate(p) && PollerOf(s, WAR_ROOM).current.None?
    ensures var effect := EffectOf(c, s, step);
      && (effect.Added? && effect.p == p ==> !Held(c, Read(effect.f)))
      && (effect.Moved? && effect.dest == p && !BeyondGate(effect.from) ==>
            step.DoApprove? && effect.n == step.name && effect.from == Inbox(WAR_ROOM))
  {
  }

  lemma StepGated(c: Contract, s: State, step: Step)
    requires Gated(c, s)
    ensures Gated(c, Next(c, s, step))
  {
    var t := Next(c, s, step);
    var effect := EffectOf(c, s, step);
    StepEffect(c, s, step);
    forall p, n, f | Has(t.core.files, p, n, f) && BeyondGate(p) && Held(c, Read(f))
      ensures Read(f) in t.approved
    {
      Origin(s.core.files, effect, t.core.files, p, n, f);
      if !Has(s.core.files, p, n, f) {
        BeyondByApproval(c, s, step, p);
        assert Has(s.core.files, effect.from, n, f);
      }
    }
    StepHandledGated(c, s, step);
  }

  /** A handler only sees what is in its inbox. */
  lemma StepHandledGated(c: Contract, s: State, step: Step)
    requires Gated(c, s)
    ensures var t := Next(c, s, step);
      && PollerOf(t, WAR_ROOM).current.None?
      && forall i :: 0 <= i < |t.handled| && Held(c, Read(t.handled[i].file)) ==> Read(t.handled[i].file) in t.approved
  {
    var t := Next(c, s, step);
    if step.DoHandle? && |t.handled| > |s.handled| {
      var h := t.handled[|s.handled|];
      assert Has(s.core.files, Inbox(step.role), step.name, h.file);
    }
  }

  lemma {:induction false} AlwaysGated(c: Contract, steps: seq<Step>)
    ensures Gated(c, Run(c, steps))
  {
    if steps != [] {
      AlwaysGated(c, steps[..|steps| - 1]);
      StepGated(c, Run(c, steps[..|steps| - 1]), steps[|steps| - 1]);
    }
  }

  lemma ApprovesAtFront(c: Contract, steps: seq<Step>, k: nat, m: Message)
    requires k < |steps| - 1
    ensures ApprovesAt(c, steps, k, m) <==> ApprovesAt(c, steps[..|steps| - 1], k, m)
  {
    assert steps[..|steps| - 1][..k] == steps[..k];
  }

  lemma StepApproves(c: Contract, s: State, step: Step, m: Message)
    ensures m in Next(c, s, step).approved <==>
      m in s.approved || (step.DoApprove? && Holds(s.core.files, Inbox(WAR_ROOM), step.name, m))
  {
  }

  /** The approvals recorded in a state are those of earlier approve steps on that very message. */
  lemma {:induction false} ApprovedEarlier(c: Contract, steps: seq<Step>, m: Message)
    ensures m in Run(c, steps).approved <==>
      exists k :: 0 <= k < |steps| && ApprovesAt(c, steps, k, m)
  {
    if steps != [] {
      var last := |steps| - 1;
      var front := steps[..last];
      ApprovedEarlier(c, front, m);
      StepApproves(c, Run(c, front), steps[last], m);
      assert ApprovesAt(c, steps, last, m) <==>
        steps[last].DoApprove? && Holds(Run(c, front).core.files, Inbox(WAR_ROOM), steps[last].name, m);
      if k: nat :| k < last && ApprovesAt(c, steps, k, m) {
        ApprovesAtFront(c, steps, k, m);
      }
      if k: nat :| k < last && ApprovesAt(c, front, k, m) {
        ApprovesAtFront(c, steps, k, m);
      }
    }
  }

  ghost predicate ApprovesAt(c: Contract, steps: seq<Step>, k: nat, m: Message)
    requires k < |steps|
  {
    steps[k].DoApprove? && Holds(Run(c, steps[..k]).core.files, Inbox(WAR_ROOM), steps[k].name, m)
  }

  /** Is message `m` what a reader of the file `n` in `p` finds? */
  ghost predicate Holds(files: Files, p: Place, n: Name, m: Message) {
    n in DirOf(files, p) && Read(DirOf(files, p)[n]) == m
  }

  /** The gate: a held message beyond the war room, or handled, was approved by an earlier step. */
  lemma ApprovalGate(c: Contract, steps: seq<Step>, m: Message)
    requires c.requiresApproval(m.kind) && m.recipient != "war_room"
    requires (exists p, n :: BeyondGate(p) && Holds(Run(c, steps).core.files, p, n, m))
          || (exists i :: 0 <= i < |Run(c, steps).handled| && Read(Run(c, steps).handled[i].file) == m)
    ensures exists k :: 0 <= k < |steps| && ApprovesAt(c, steps, k, m)
  {
    AlwaysGated(c, steps);
    var s := Run(c, steps);
    if p, n :| BeyondGate(p) && Holds(s.core.files, p, n, m) {
      assert Has(s.core.files, p, n, DirOf(s.core.files, p)[n]);
    }
    ApprovedEarlier(c, steps, m);
  }

  // ---- No loss ----

  /** Envelopes of the messages handed to `send_message` in a run, accepted or not. */
  function Submitted(steps: seq<Step>): set<Envelope> {
    set k | 0 <= k < |steps| && steps[k].DoSend? :: EnvelopeOf(steps[k].m)
  }

  /** File names tell envelopes apart. */
  ghost predicate UniqueNames(envelopes: set<Envelope>) {
    forall a, b :: a in envelopes && b in envelopes && a.name == b.name ==> a == b
  }

  /** Each file name is used by one send only. */
  ghost predicate SentOnce(steps: seq<Step>) {
    forall i, j :: 0 <= i < j < |steps| && steps[i].DoSend? && steps[j].DoSend? ==> steps[i].m.name != steps[j].m.name
  }

  /** The file `n` in `p` is there and as wanted. */
  ghost predicate Filed(files: Files, p: Place, n: Name, wanted: File -> bool) {
    n in DirOf(files, p) && wanted(DirOf(files, p)[n])
  }

  function About(e: Envelope): File -> bool {
    f => FileEnvelope(f) == e
  }

  ghost predicate Somewhere(files: Files, e: Envelope) {
    exists p :: Filed(files, p, e.name, About(e))
  }

  ghost predicate Kept(s: State, all: set<Envelope>) {
    && (forall p, n, f :: Has(s.core.files, p, n, f) ==> FileEnvelope(f) in all && NameOf(f) == n)
    && (forall m :: m in s.accepted ==> EnvelopeOf(m) in all && Somewhere(s.core.files, EnvelopeOf(m)))
    && (s.unlinking.Some? ==> exists p :: p != Outbox && s.unlinking.value in DirOf(s.core.files, p))
  }

  /** A wanted file stays, or goes where it is moved, unless another is written over it. */
  lemma StaysFiled(files: Files, effect: Effect, after: Files, p: Place, n: Name, wanted: File -> bool)
    returns (q: Place)
    requires Matches(files, effect, after)
    requires Filed(files, p, n, wanted)
    requires effect.Added? && NameOf(effect.f) == n && effect.p == p ==> wanted(effect.f)
    requires effect.Moved? && effect.n == n && effect.dest == p ==> Filed(files, effect.from, n, wanted)
    requires effect.Dropped? && effect.n == n ==> p != Outbox
    ensures Filed(after, q, n, wanted)
    ensures q == Outbox ==> p == Outbox || (effect.Moved? && effect.dest == Outbox)
  {
    q := p;
    match effect
    case Same =>
    case Added(r, f) => PutDir(files, r, NameOf(f), f, p);
    case Dropped(k) => RemoveDir(files, Outbox, k, p);
    case Moved(from, k, to) =>
      RenameDir(files, from, k, to, p);
      RenameDir(files, from, k, to, to);
      if k == n && p == from {
        q := to;
      }
  }

  lemma StepKept(c: Contract, s: State, step: Step, all: set<Envelope>)
    requires Kept(s, all) && UniqueNames(all)
    requires step.DoSend? ==> EnvelopeOf(step.m) in all
    ensures Kept(Next(c, s, step), all)
  {
    var t := Next(c, s, step);
    var effect := EffectOf(c, s, step);
    StepEffect(c, s, step);
    AddedKnown(c, s, step, all);
    forall p, n, f | Has(t.core.files, p, n, f)
      ensures FileEnvelope(f) in all && NameOf(f) == n
    {
      Origin(s.core.files, effect, t.core.files, p, n, f);
    }
    forall m | m in t.accepted
      ensures EnvelopeOf(m) in all && Somewhere(t.core.files, EnvelopeOf(m))
    {
      if m in s.accepted {
        StepKeepsEnvelope(c, s, step, all, m);
      } else {
        PutDir(s.core.files, Outbox, m.name, Whole(m, None), Outbox);
        assert Filed(t.core.files, Outbox, m.name, About(EnvelopeOf(m)));
      }
    }
    StepKeepsUnlinked(c, s, step);
  }

  /** What is being unlinked has a file outside the outbox, and keeps one. */
  lemma StepKeepsUnlinked(c: Contract, s: State, step: Step)
    requires s.unlinking.Some? ==> exists p :: p != Outbox && s.unlinking.value in DirOf(s.core.files, p)
    requires forall n, f :: Has(s.core.files, Outbox, n, f) ==> NameOf(f) == n
    ensures var t := Next(c, s, step);
      t.unlinking.Some? ==> exists p :: p != Outbox && t.unlinking.value in DirOf(t.core.files, p)
  {
    var t := Next(c, s, step);
    var effect := EffectOf(c, s, step);
    StepEffect(c, s, step);
    if t.unlinking.Some? {
      if s.unlinking.Some? {
        var p :| p != Outbox && s.unlinking.value in DirOf(s.core.files, p);
        var q := StaysFiled(s.core.files, effect, t.core.files, p, s.unlinking.value, f => true);
      } else {
        assert Has(s.core.files, Outbox, s.batch[0], OutboxOf(s)[s.batch[0]]);
        PutDir(s.core.files, effect.p, NameOf(effect.f), effect.f, effect.p);
        assert t.unlinking.value in DirOf(t.core.files, effect.p);
      }
    }
  }

  lemma AddedKnown(c: Contract, s: State, step: Step, all: set<Envelope>)
    requires forall n, f :: Has(s.core.files, Outbox, n, f) ==> FileEnvelope(f) in all
    requires step.DoSend? ==> EnvelopeOf(step.m) in all
    ensures EffectOf(c, s, step).Added? ==> FileEnvelope(EffectOf(c, s, step).f) in all
  {
    if step.DoWrite? && EffectOf(c, s, step).Added? {
      assert Has(s.core.files, Outbox, s.batch[0], OutboxOf(s)[s.batch[0]]);
    }
  }

  lemma SameName(files: Files, all: set<Envelope>, p: Place, e: Envelope)
    requires forall n, f :: Has(files, p, n, f) ==> FileEnvelope(f) in all && NameOf(f) == n
    requires UniqueNames(all) && e in all
    ensures e.name in DirOf(files, p) ==> Filed(files, p, e.name, About(e))
  {
    if e.name in DirOf(files, p) {
      assert Has(files, p, e.name, DirOf(files, p)[e.name]);
    }
  }

  lemma StepKeepsEnvelope(c: Contract, s: State, step: Step, all: set<Envelope>, m: Message)
    requires Kept(s, all) && UniqueNames(all) && m in s.accepted
    requires step.DoSend? ==> EnvelopeOf(step.m) in all
    ensures Somewhere(Next(c, s, step).core.files, EnvelopeOf(m))
  {
    var e := EnvelopeOf(m);
    var effect := EffectOf(c, s, step);
    StepEffect(c, s, step);
    AddedKnown(c, s, step, all);
    var p :| Filed(s.core.files, p, e.name, About(e));
    if effect.Dropped? && effect.n == e.name && p.Outbox? {
      assert step.DoUnlink?;
      p :| p != Outbox && s.unlinking.value in DirOf(s.core.files, p);
      SameName(s.core.files, all, p, e);
    }
    if effect.Moved? {
      SameName(s.core.files, all, effect.from, e);
    }
    var q := StaysFiled(s.core.files, effect, Next(c, s, step).core.files, p, e.name, About(e));
  }

  lemma {:induction false} AlwaysKept(c: Contract, steps: seq<Step>, all: set<Envelope>)
    requires UniqueNames(all) && Submitted(steps) <= all
    ensures Kept(Run(c, steps), all)
  {
    if steps != [] {
      var front := steps[..|steps| - 1];
      assert Submitted(front) <= Submitted(steps);
      AlwaysKept(c, front, all);
      StepKept(c, Run(c, front), steps[|steps| - 1], all);
    }
  }

  /** Crashes between write and unlink included, an accepted message always has a file with its envelope. */
  lemma NoLoss(c: Contract, steps: seq<Step>, m: Message)
    requires UniqueNames(Submitted(steps)) && m in Run(c, steps).accepted
    ensures Somewhere(Run(c, steps).core.files, EnvelopeOf(m))
  {
    AlwaysKept(c, steps, Submitted(steps));
  }

  // ---- Exactly one place ----

  ghost predicate NamesWithin(files: Files, names: set<Name>) {
    forall p, n :: n in DirOf(files, p) ==> n in names
  }

  /** No file name is in two places, except the one being unlinked from the outbox. */
  ghost predicate Apart(files: Files, unlinking: Option<Name>) {
    forall p, q, n :: n in DirOf(files, p) && n in DirOf(files, q) && p != q
      ==> unlinking == Some(n) && (p == Outbox || q == Outbox)
  }

  ghost predicate OnePlace(s: State, names: set<Name>) {
    && (s.unlinking.Some? ==> s.batch != [])
    && NamesWithin(s.core.files, names)
    && Apart(s.core.files, s.unlinking)
  }

  function NamesOf(steps: seq<Step>): set<Name> {
    set k | 0 <= k < |steps| && steps[k].DoSend? :: steps[k].m.name
  }

  lemma NameOrigin(files: Files, effect: Effect, after: Files, p: Place, n: Name)
    requires Matches(files, effect, after) && n in DirOf(after, p)
    ensures n in DirOf(files, p)
      || (effect.Added? && effect.p == p && n == NameOf(effect.f))
      || (effect.Moved? && effect.dest == p && effect.n == n && n in DirOf(files, effect.from))
    ensures effect.Dropped? && p.Outbox? ==> effect.n != n
    ensures effect.Moved? && effect.from == p && effect.from != effect.dest ==> effect.n != n
  {
    Origin(files, effect, after, p, n, DirOf(after, p)[n]);
    match effect
    case Same =>
    case Added(q, x) =>
    case Dropped(k) => RemoveDir(files, Outbox, k, p);
    case Moved(q, k, r) => RenameDir(files, q, k, r, p);
  }

  lemma StepNamesWithin(files: Files, effect: Effect, after: Files, names: set<Name>, known: set<Name>)
    requires Matches(files, effect, after) && NamesWithin(files, names) && names <= known
    requires effect.Added? ==> NameOf(effect.f) in known
    ensures NamesWithin(after, known)
  {
    forall p, n | n in DirOf(after, p)
      ensures n in known
    {
      NameOrigin(files, effect, after, p, n);
    }
  }

  /** What a step may do without putting a name in two places. */
  ghost predicate KeepsApart(files: Files, effect: Effect, unlinking: Option<Name>, next: Option<Name>) {
    && (effect.Moved? ==> effect.from != Outbox && effect.dest != Outbox)
    && (next == unlinking || unlinking.None? || effect == Dropped(unlinking.value))
    && (effect.Added? ==> forall p :: NameOf(effect.f) in DirOf(files, p) ==>
          p == effect.p || (p == Outbox && next == Some(NameOf(effect.f))))
  }

  lemma PairApart(files: Files, effect: Effect, after: Files, unlinking: Option<Name>, next: Option<Name>, p: Place,
      q: Place, n: Name)
    requires Matches(files, effect, after) && Apart(files, unlinking) && KeepsApart(files, effect, unlinking, next)
    requires n in DirOf(after, p) && n in DirOf(after, q) && p != q
    ensures next == Some(n) && (p == Outbox || q == Outbox)
  {
    match effect
    case Same =>
    case Added(r, f) =>
      PutDir(files, r, NameOf(f), f, p);
      PutDir(files, r, NameOf(f), f, q);
    case Dropped(k) =>
      RemoveDir(files, Outbox, k, p);
      RemoveDir(files, Outbox, k, q);
    case Moved(r, k, d) =>
      RenameDir(files, r, k, d, p);
      RenameDir(files, r, k, d, q);
  }

  lemma StepApart(files: Files, effect: Effect, after: Files, unlinking: Option<Name>, next: Option<Name>)
    requires Matches(files, effect, after) && Apart(files, unlinking) && KeepsApart(files, effect, unlinking, next)
    ensures Apart(after, next)
  {
    forall p, q, n
      ensures n in DirOf(after, p) && n in DirOf(after, q) && p != q ==> next == Some(n) && (p == Outbox || q == Outbox)
    {
      if n in DirOf(after, p) && n in DirOf(after, q) && p != q {
        PairApart(files, effect, after, unlinking, next, p, q, n);
      }
    }
  }

  lemma StepOnePlace(c: Contract, s: State, step: Step, names: set<Name>)
    requires OnePlace(s, names) && !step.DoCrash?
    requires step.DoSend? ==> step.m.name !in names
    requires forall n, f :: Has(s.core.files, Outbox, n, f) ==> NameOf(f) == n
    ensures OnePlace(Next(c, s, step), names + if step.DoSend? then {step.m.name} else {})
  {
    var t := Next(c, s, step);
    var effect := EffectOf(c, s, step);
    StepEffect(c, s, step);
    if step.DoWrite? && effect.Added? {
      assert Has(s.core.files, Outbox, s.batch[0], OutboxOf(s)[s.batch[0]]);
    }
    StepNamesWithin(s.core.files, effect, t.core.files, names, names + if step.DoSend? then {step.m.name} else {});
    StepApart(s.core.files, effect, t.core.files, s.unlinking, t.unlinking);
  }

  lemma {:induction false} AlwaysOnePlace(c: Contract, steps: seq<Step>)
    requires SentOnce(steps) && forall k :: 0 <= k < |steps| ==> !steps[k].DoCrash?
    ensures OnePlace(Run(c, steps), NamesOf(steps))
  {
    if steps != [] {
      var front, last := steps[..|steps| - 1], steps[|steps| - 1];
      AlwaysOnePlace(c, front);
      SentOnceUnique(front);
      AlwaysKept(c, front, Submitted(front));
      assert NamesOf(steps) == NamesOf(front) + if last.DoSend? then {last.m.name} else {} by {
        assert forall k :: 0 <= k < |front| ==> front[k] == steps[k];
      }
      StepOnePlace(c, Run(c, front), last, NamesOf(front));
    }
  }

  lemma SentOnceUnique(steps: seq<Step>)
    requires SentOnce(steps)
    ensures UniqueNames(Submitted(steps))
  {
  }

  /**
    Without crashes, an accepted message's envelope is in exactly one directory; only between the
    two halves of a drain step is it in the outbox and in exactly one other.
  */
  lemma ExactlyOnePlace(c: Contract, steps: seq<Step>, m: Message)
    requires SentOnce(steps) && (forall k :: 0 <= k < |steps| ==> !steps[k].DoCrash?)
    requires m in Run(c, steps).accepted
    ensures var s := Run(c, steps);
      exists p :: Filed(s.core.files, p, m.name, About(EnvelopeOf(m)))
        && forall q :: q != p ==>
             (m.name in DirOf(s.core.files, q) <==> q.Outbox? && s.unlinking == Some(m.name))
  {
    SentOnceUnique(steps);
    AlwaysKept(c, steps, Submitted(steps));
    AlwaysOnePlace(c, steps);
    AlwaysUnlinkingInOutbox(c, steps);
    var s := Run(c, steps);
    var e := EnvelopeOf(m);
    var p :| Filed(s.core.files, p, e.name, About(e));
    if s.unlinking == Some(m.name) {
      p :| p != Outbox && m.name in DirOf(s.core.files, p);
      SameName(s.core.files, Submitted(steps), p, e);
    }
    assert Filed(s.core.files, p, m.name, About(e));
  }

  /** The file being unlinked is still in the outbox, at the head of the batch. */
  ghost predicate UnlinkingInOutbox(s: State) {
    s.unlinking.Some? ==> s.batch != [] && s.batch[0] == s.unlinking.value && s.unlinking.value in OutboxOf(s)
  }

  lemma {:induction false} AlwaysUnlinkingInOutbox(c: Contract, steps: seq<Step>)
    ensures UnlinkingInOutbox(Run(c, steps))
  {
    if steps != [] {
      var front, last := steps[..|steps| - 1], steps[|steps| - 1];
      AlwaysUnlinkingInOutbox(c, front);
      StepUnlinkingInOutbox(c, Run(c, front), last);
    }
  }

  lemma StepUnlinkingInOutbox(c: Contract, s: State, step: Step)
    requires UnlinkingInOutbox(s)
    ensures UnlinkingInOutbox(Next(c, s, step))
  {
    var t := Next(c, s, step);
    var effect := EffectOf(c, s, step);
    StepEffect(c, s, step);
    if t.unlinking.Some? {
      var n := t.unlinking.value;
      match effect
      case Same =>
      case Added(p, f) => PutDir(s.core.files, p, NameOf(f), f, Outbox);
      case Dropped(k) => RemoveDir(s.core.files, Outbox, k, Outbox);
      case Moved(p, k, q) => RenameDir(s.core.files, p, k, q, Outbox);
    }
  }

  /** A send under a name already in the outbox replaces the waiting file: exactly that loses it. */
  lemma SendKeepsOthers(c: Contract, core: Core, m: Message, waiting: File)
    requires Has(core.files, Outbox, NameOf(waiting), waiting)
    ensures Has(Send(c, core, m).files, Outbox, NameOf(waiting), waiting) <==>
      !(Accepts(c, core, m) && m.name == NameOf(waiting) && Whole(m, None) != waiting)
  {
    PutDir(core.files, Sending(c, core, m).place, m.name, Sending(c, core, m).file, Outbox);
  }

  // ---- Handled at most once per poller lifetime ----

  ghost predicate HandledOnce(s: State) {
    && (forall i, j :: 0 <= i < j < |s.handled| ==>
          var a, b := s.handled[i], s.handled[j];
          !(a.role == b.role && a.lifetime == b.lifetime && a.name == b.name))
    && (forall i :: 0 <= i < |s.handled| ==>
          var h := s.handled[i];
          && h.lifetime <= PollerOf(s, h.role).lifetime
          && (h.lifetime == PollerOf(s, h.role).lifetime ==> h.name in PollerOf(s, h.role).processed))
  }

  /** Only a handle step that finds the name unmarked adds a handling, and it marks the name. */
  lemma StepHandles(c: Contract, s: State, step: Step)
    ensures var t := Next(c, s, step);
      t.handled == s.handled
      || exists h :: t.handled == s.handled + [h]
           && h.lifetime == PollerOf(s, h.role).lifetime == PollerOf(t, h.role).lifetime
           && h.name !in PollerOf(s, h.role).processed && h.name in PollerOf(t, h.role).processed
  {
    var t := Next(c, s, step);
    if t.handled != s.handled {
      assert t.handled == s.handled + [t.handled[|s.handled|]];
    }
  }

  lemma StepMarks(c: Contract, s: State, step: Step, role: Role)
    ensures var before, after := PollerOf(s, role), PollerOf(Next(c, s, step), role);
      after.lifetime > before.lifetime || (after.lifetime == before.lifetime && before.processed <= after.processed)
  {
  }

  lemma StepHandledOnce(c: Contract, s: State, step: Step)
    requires HandledOnce(s)
    ensures HandledOnce(Next(c, s, step))
  {
    StepHandles(c, s, step);
    forall role
      ensures var before, after := PollerOf(s, role), PollerOf(Next(c, s, step), role);
        after.lifetime > before.lifetime || (after.lifetime == before.lifetime && before.processed <= after.processed)
    {
      StepMarks(c, s, step, role);
    }
  }

  /** Crashes, duplicates and restarts included: one lifetime handles one file name at most once. */
  lemma {:induction false} HandledAtMostOnce(c: Contract, steps: seq<Step>)
    ensures HandledOnce(Run(c, steps))
  {
    if steps != [] {
      HandledAtMostOnce(c, steps[..|steps| - 1]);
      StepHandledOnce(c, Run(c, steps[..|steps| - 1]), steps[|steps| - 1]);
    }
  }
}
