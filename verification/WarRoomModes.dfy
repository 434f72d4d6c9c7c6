/**
  What the operator's configured modes mean for an action in every run of the war room: HOLD waits at
  the front for a decision, AUTO is executed at once, anything else waits behind.
*/
module WarRoomModes {
  import opened Options
  import opened SoloWarRoom

  /** The operator has set this mode for the claw's kind of action. */
  predicate Configured(modes: Modes, claw: string, kind: string, mode: string) {
    claw in modes && kind in modes[claw] && modes[claw][kind] == mode
  }

  /** The operation decides on the action with this id. */
  predicate Names(op: Op, id: string) {
    match op
    case Submit(_, _, _, _) => false
    case ApproveOp(i) => i == id
    case BlockOp(i, _) => i == id
    case AutoOp(i) => i == id
  }

  /** Submitted by operation `k`, and named by none since. */
  ghost predicate Waiting(ops: seq<Op>, k: nat) {
    k < |ops| && ops[k].Submit? && forall l :: k < l < |ops| ==> !Names(ops[l], ops[k].id)
  }

  /** The action operation `k` submits. */
  predicate Submits(op: Op, a: Action) {
    op.Submit? && a.id == op.id && a.claw == op.claw && a.kind == op.kind && a.payload == op.payload
    && a.status == Pending && a.decision == ""
  }

  lemma PriorityByMode(modes: Modes, id: string, claw: string, kind: string, payload: string)
    ensures var a := NewAction(modes, id, claw, kind, payload);
      && Submits(Submit(id, claw, kind, payload), a)
      && (a.priority == Hold <==> Configured(modes, claw, kind, "HOLD"))
      && (a.priority == Auto <==> Configured(modes, claw, kind, "AUTO"))
  {
  }

  // ---- Who is waiting ----

  ghost predicate FromWaiting(modes: Modes, ops: seq<Op>, k: nat, a: Action) {
    && Waiting(ops, k) && a == NewAction(modes, ops[k].id, ops[k].claw, ops[k].kind, ops[k].payload)
    && !Configured(modes, ops[k].claw, ops[k].kind, "AUTO")
  }

  lemma WaitingFront(ops: seq<Op>, k: nat)
    requires ops != [] && k < |ops| - 1
    ensures Waiting(ops, k) <==> Waiting(ops[..|ops| - 1], k) && !Names(ops[|ops| - 1], ops[k].id)
  {
    var front := ops[..|ops| - 1];
    assert forall l :: 0 <= l < |front| ==> front[l] == ops[l];
  }

  lemma UndecidedStepMembers(modes: Modes, u: seq<Action>, op: Op, a: Action)
    ensures a in UndecidedStep(modes, u, op) <==>
      || (a in u && !Names(op, a.id))
      || (op.Submit? && a == NewAction(modes, op.id, op.claw, op.kind, op.payload) && a.priority != Auto)
  {
    match op
    case Submit(id, claw, kind, payload) =>
    case ApproveOp(id) => WithoutMembers(u, id, a);
    case BlockOp(id, _) => WithoutMembers(u, id, a);
    case AutoOp(id) => WithoutMembers(u, id, a);
  }

  ghost predicate SomeWaiting(modes: Modes, ops: seq<Op>, a: Action) {
    exists k :: FromWaiting(modes, ops, k, a)
  }

  lemma SomeWaitingStep(modes: Modes, ops: seq<Op>, a: Action)
    requires ops != []
    ensures var front, last := ops[..|ops| - 1], ops[|ops| - 1];
      SomeWaiting(modes, ops, a) <==>
        || (SomeWaiting(modes, front, a) && !Names(last, a.id))
        || FromWaiting(modes, ops, |front|, a)
  {
    var front, last := ops[..|ops| - 1], ops[|ops| - 1];
    if k: nat :| FromWaiting(modes, front, k, a) && !Names(last, a.id) {
      WaitingFront(ops, k);
      assert FromWaiting(modes, ops, k, a);
    }
    if k: nat :| FromWaiting(modes, ops, k, a) && k < |front| {
      WaitingFront(ops, k);
      assert FromWaiting(modes, front, k, a);
    }
  }

  /** The undecided actions are those submitted and not named since, AUTO ones aside. */
  lemma {:induction false} UndecidedMeaning(modes: Modes, ops: seq<Op>, a: Action)
    ensures a in Undecided(modes, ops) <==> SomeWaiting(modes, ops, a)
  {
    if ops != [] {
      var front, last := ops[..|ops| - 1], ops[|ops| - 1];
      UndecidedMeaning(modes, front, a);
      UndecidedStepMembers(modes, Undecided(modes, front), last, a);
      SomeWaitingStep(modes, ops, a);
      if last.Submit? {
        PriorityByMode(modes, last.id, last.claw, last.kind, last.payload);
      }
    }
  }

  // ---- Where it waits ----

  /** Everything in the queue was submitted and is still waiting, under its configured priority. */
  lemma QueuedByMode(modes: Modes, ops: seq<Op>, i: nat)
    requires FreshIds(ops) && i < |Run(modes, ops).queue|
    ensures var a := Run(modes, ops).queue[i];
      && (a.priority == Hold <==> Configured(modes, a.claw, a.kind, "HOLD"))
      && !Configured(modes, a.claw, a.kind, "AUTO")
      && exists k: nat :: Waiting(ops, k) && Submits(ops[k], a)
  {
    var u, a := Undecided(modes, ops), Run(modes, ops).queue[i];
    QueueIsArranged(modes, ops);
    OfMembers(Hold, u, a);
    OfMembers(Review, u, a);
    assert a in u;
    UndecidedMeaning(modes, ops, a);
    var k: nat :| FromWaiting(modes, ops, k, a);
    PriorityByMode(modes, ops[k].id, ops[k].claw, ops[k].kind, ops[k].payload);
  }

  /** All HOLD actions come before all others. */
  lemma HoldsFirst(modes: Modes, ops: seq<Op>, i: nat, j: nat)
    requires FreshIds(ops) && i < j < |Run(modes, ops).queue|
    ensures var q := Run(modes, ops).queue;
      Configured(modes, q[j].claw, q[j].kind, "HOLD") ==> Configured(modes, q[i].claw, q[i].kind, "HOLD")
  {
    var u := Undecided(modes, ops);
    QueueIsArranged(modes, ops);
    OfPriority(Hold, u);
    OfPriority(Review, u);
    QueuedByMode(modes, ops, i);
    QueuedByMode(modes, ops, j);
  }

  /** At position `i` waits the action that `op` submitted. */
  ghost predicate QueuedAt(modes: Modes, ops: seq<Op>, i: nat, op: Op) {
    i < |Run(modes, ops).queue| && Submits(op, Run(modes, ops).queue[i])
  }

  /** Before a HOLD action there are only HOLD actions; behind any other there are none. */
  ghost predicate InItsBlock(modes: Modes, queue: seq<Action>, i: nat)
    requires i < |queue|
  {
    if Configured(modes, queue[i].claw, queue[i].kind, "HOLD")
    then forall j :: 0 <= j < i ==> Configured(modes, queue[j].claw, queue[j].kind, "HOLD")
    else forall j :: i < j < |queue| ==> !Configured(modes, queue[j].claw, queue[j].kind, "HOLD")
  }

  lemma AllInBlocks(modes: Modes, ops: seq<Op>, i: nat)
    requires FreshIds(ops) && i < |Run(modes, ops).queue|
    ensures InItsBlock(modes, Run(modes, ops).queue, i)
  {
    var q := Run(modes, ops).queue;
    forall j | 0 <= j < i
      ensures Configured(modes, q[i].claw, q[i].kind, "HOLD") ==> Configured(modes, q[j].claw, q[j].kind, "HOLD")
    {
      HoldsFirst(modes, ops, j, i);
    }
    forall j | i < j < |q|
      ensures Configured(modes, q[j].claw, q[j].kind, "HOLD") ==> Configured(modes, q[i].claw, q[i].kind, "HOLD")
    {
      HoldsFirst(modes, ops, i, j);
    }
  }

  lemma IsQueued(modes: Modes, ops: seq<Op>, k: nat) returns (i: nat)
    requires FreshIds(ops) && Waiting(ops, k) && !Configured(modes, ops[k].claw, ops[k].kind, "AUTO")
    ensures QueuedAt(modes, ops, i, ops[k])
  {
    var u, op := Undecided(modes, ops), ops[k];
    var a := NewAction(modes, op.id, op.claw, op.kind, op.payload);
    assert FromWaiting(modes, ops, k, a);
    UndecidedMeaning(modes, ops, a);
    PriorityByMode(modes, op.id, op.claw, op.kind, op.payload);
    QueueIsArranged(modes, ops);
    OfMembers(Hold, u, a);
    OfMembers(Review, u, a);
    assert a in Run(modes, ops).queue;
    i :| 0 <= i < |Run(modes, ops).queue| && Run(modes, ops).queue[i] == a;
  }

  lemma QueuedIsNotProcessed(modes: Modes, ops: seq<Op>, i: nat, j: nat)
    requires FreshIds(ops) && i < |Run(modes, ops).queue| && j < |Run(modes, ops).processed|
    ensures Run(modes, ops).queue[i].id != Run(modes, ops).processed[j].id
  {
    var r := Run(modes, ops);
    EachIdOnce(modes, ops, r.queue[i].id);
    var all := r.queue + r.processed;
    assert all[i].id != all[|r.queue| + j].id;
  }

  /**
    In every run, an action that is not configured AUTO waits in the queue, in its block, and is not
    processed, until an operation names it.
  */
  lemma WaitsByMode(modes: Modes, ops: seq<Op>, k: nat)
    requires FreshIds(ops) && Waiting(ops, k) && !Configured(modes, ops[k].claw, ops[k].kind, "AUTO")
    ensures exists i: nat :: QueuedAt(modes, ops, i, ops[k]) && InItsBlock(modes, Run(modes, ops).queue, i)
    ensures forall a :: a in Run(modes, ops).processed ==> a.id != ops[k].id
  {
    var i := IsQueued(modes, ops, k);
    AllInBlocks(modes, ops, i);
    var processed := Run(modes, ops).processed;
    forall j | 0 <= j < |processed|
      ensures processed[j].id != ops[k].id
    {
      QueuedIsNotProcessed(modes, ops, i, j);
    }
  }

  // ---- What a submit executes ----

  /** A submit executes its action exactly when its mode is AUTO; nothing else is decided by it. */
  lemma SubmitExecutesIff(modes: Modes, ops: seq<Op>, id: string, claw: string, kind: string, payload: string)
    requires FreshIds(ops + [Submit(id, claw, kind, payload)])
    ensures var r, t := Run(modes, ops), Run(modes, ops + [Submit(id, claw, kind, payload)]);
      var done := Action(id, claw, kind, payload, Auto, AutoExecuted, "auto_executed");
      if Configured(modes, claw, kind, "AUTO")
      then t == Room(r.queue, r.processed + [done], r.autoExecuted + [done])
      else t.processed == r.processed && t.autoExecuted == r.autoExecuted && |t.queue| == |r.queue| + 1
  {
    var all := ops + [Submit(id, claw, kind, payload)];
    var r, u := Run(modes, ops), Undecided(modes, ops);
    assert all[..|ops|] == ops && all[|ops|] == Submit(id, claw, kind, payload);
    assert forall k :: 0 <= k < |ops| ==> all[k] == ops[k];
    QueueIsArranged(modes, ops);
    SubmittedMembers(ops, id);
    var action := NewAction(modes, id, claw, kind, payload);
    SortArranged(u, action);
    if action.priority == Auto {
      forall i | 0 <= i < |r.queue|
        ensures r.queue[i].id != id
      {
        SortedMembers(u);
        OfMembers(Hold, u, r.queue[i]);
        OfMembers(Review, u, r.queue[i]);
        assert r.queue[i] in u;
      }
      DecideLast(r.(queue := r.queue + [action]), r.queue, action);
    } else {
      ArrangedSize(u, action);
    }
  }

  lemma ArrangedSize(u: seq<Action>, action: Action)
    requires action.priority != Auto
    ensures |Arranged(u + [action])| == |Arranged(u)| + 1
  {
    OfAppend(Hold, u, action);
    OfAppend(Review, u, action);
  }

  // ---- What a decision records ----

  /** A decision takes the first action with the id out of the queue and records the decision with it. */
  lemma DecisionRecorded(r: Room, modes: Modes, i: nat, id: string, reason: string)
    requires i < |r.queue| && r.queue[i].id == id && forall j :: 0 <= j < i ==> r.queue[j].id != id
    requires reason != ""
    ensures var rest, a := r.queue[..i] + r.queue[i + 1..], r.queue[i];
      var executed := a.(status := AutoExecuted, decision := "auto_executed");
      && Step(r, modes, ApproveOp(id))
         == Room(rest, r.processed + [a.(status := Approved, decision := "approved")], r.autoExecuted)
      && Step(r, modes, BlockOp(id, ""))
         == Room(rest, r.processed + [a.(status := Blocked, decision := "blocked")], r.autoExecuted)
      && Step(r, modes, BlockOp(id, reason))
         == Room(rest, r.processed + [a.(status := Blocked, decision := "blocked: " + reason)], r.autoExecuted)
      && Step(r, modes, AutoOp(id)) == Room(rest, r.processed + [executed], r.autoExecuted + [executed])
  {
    FindMeaning(r.queue, id);
    assert Find(r.queue, id) == Some(i);
  }

  lemma UnknownIdIgnored(r: Room, modes: Modes, id: string, reason: string)
    requires forall i :: 0 <= i < |r.queue| ==> r.queue[i].id != id
    ensures Step(r, modes, ApproveOp(id)) == r && Step(r, modes, BlockOp(id, reason)) == r
    ensures Step(r, modes, AutoOp(id)) == r
  {
    FindMeaning(r.queue, id);
  }
}
