/**
  The single-operator war room (solo_warroom.py): a queue kept sorted by priority, and the lists
  of decided and auto-executed actions.
*/
module SoloWarRoom {
  import opened Options

  datatype Priority = Hold | Review | Auto

  datatype Status = Pending | Approved | Blocked | AutoExecuted

  datatype Action = Action(id: string, claw: string, kind: string, payload: string,
                           priority: Priority, status: Status, decision: string)

  /** `approval_modes` of the operator policy. */
  type Modes = map<string, map<string, string>>

  function PriorityOf(modes: Modes, claw: string, kind: string): Priority {
    var mode := if claw in modes && kind in modes[claw] then modes[claw][kind] else "REVIEW";
    if mode == "HOLD" then Hold else if mode == "AUTO" then Auto else Review
  }

  // ---- The queue as a list ----

  function Of(priority: Priority, actions: seq<Action>): seq<Action> {
    if actions == [] then []
    else
      var before := Of(priority, actions[..|actions| - 1]);
      if actions[|actions| - 1].priority == priority then before + [actions[|actions| - 1]] else before
  }

  /** A stable sort by a key with three values. */
  function SortByPriority(actions: seq<Action>): seq<Action> {
    Of(Hold, actions) + Of(Review, actions) + Of(Auto, actions)
  }

  function Find(actions: seq<Action>, id: string): Option<nat> {
    if actions == [] then None
    else if actions[0].id == id then Some(0)
    else
      var rest := Find(actions[1..], id);
      if rest.Some? then Some(rest.value + 1) else None
  }

  lemma {:induction false} FindMeaning(actions: seq<Action>, id: string)
    ensures Find(actions, id).Some? ==>
      && Find(actions, id).value < |actions| && actions[Find(actions, id).value].id == id
      && forall k :: 0 <= k < Find(actions, id).value ==> actions[k].id != id
    ensures Find(actions, id).None? ==> forall k :: 0 <= k < |actions| ==> actions[k].id != id
  {
    if actions != [] && actions[0].id != id {
      FindMeaning(actions[1..], id);
      assert forall k :: 1 <= k < |actions| ==> actions[k] == actions[1..][k - 1];
    }
  }

  // ---- State and steps ----

  datatype Room = Room(queue: seq<Action>, processed: seq<Action>, autoExecuted: seq<Action>)

  const EMPTY := Room([], [], [])

  function Decide(r: Room, id: string, status: Status, decision: string): Room {
    var found := Find(r.queue, id);
    FindMeaning(r.queue, id);
    if found.None? then r
    else
      var i := found.value;
      var action := r.queue[i].(status := status, decision := decision);
      Room(r.queue[..i] + r.queue[i + 1..], r.processed + [action],
           if status == AutoExecuted then r.autoExecuted + [action] else r.autoExecuted)
  }

  /** The action a decision on `id` is about, as decided. */
  function Decided(r: Room, id: string, status: Status, decision: string): Option<Action> {
    var found := Find(r.queue, id);
    FindMeaning(r.queue, id);
    if found.None? then None else Some(r.queue[found.value].(status := status, decision := decision))
  }

  function Blocking(reason: string): string {
    if reason == "" then "blocked" else "blocked: " + reason
  }

  function NewAction(modes: Modes, id: string, claw: string, kind: string, payload: string): Action {
    Action(id, claw, kind, payload, PriorityOf(modes, claw, kind), Pending, "")
  }

  function Enqueue(r: Room, action: Action): Room {
    var queued := r.(queue := SortByPriority(r.queue + [action]));
    if action.priority == Auto then Decide(queued, action.id, AutoExecuted, "auto_executed") else queued
  }

  class WarRoom {
    const modes: Modes
    var queue: seq<Action>
    var processed: seq<Action>
    var autoExecuted: seq<Action>

    ghost function Now(): Room
      reads this
    {
      Room(queue, processed, autoExecuted)
    }

    constructor (modes: Modes)
      ensures this.modes == modes && Now() == EMPTY
    {
      this.modes := modes;
      queue, processed, autoExecuted := [], [], [];
    }

    /** The id is drawn by the caller; with a fresh one, the new action is returned as it now is. */
    method QueueAction(id: string, claw: string, kind: string, payload: string) returns (action: Action)
      modifies this
      ensures Now() == Enqueue(old(Now()), NewAction(modes, id, claw, kind, payload))
      ensures (forall k :: 0 <= k < |old(queue)| ==> old(queue)[k].id != id) ==>
        var new_ := NewAction(modes, id, claw, kind, payload);
        action == if new_.priority == Auto then new_.(status := AutoExecuted, decision := "auto_executed") else new_
    {
      action := NewAction(modes, id, claw, kind, payload);
      ghost var before, new_ := queue, action;
      queue := queue + [action];
      SortQueue();
      if action.priority == Auto {
        SortedMembers(before + [new_]);
        FindMeaning(queue, id);
        assert queue[if Find(queue, id).Some? then Find(queue, id).value else 0] in before + [new_];
        assert new_ in queue;
        var executed := AutoExecute(id);
        action := if executed.Some? then executed.value else action;
      }
    }

    /** `list.sort` is stable. */
    method SortQueue()
      modifies this`queue
      ensures queue == SortByPriority(old(queue))
    {
      queue := SortByPriority(queue);
    }

    method Approve(id: string) returns (action: Option<Action>)
      modifies this
      ensures Now() == Decide(old(Now()), id, Approved, "approved")
      ensures action == Decided(old(Now()), id, Approved, "approved")
    {
      action := Settle(id, Approved, "approved");
    }

    method Block(id: string, reason: string) returns (action: Option<Action>)
      modifies this
      ensures Now() == Decide(old(Now()), id, Blocked, Blocking(reason))
      ensures action == Decided(old(Now()), id, Blocked, Blocking(reason))
    {
      action := Settle(id, Blocked, if reason == "" then "blocked" else "blocked: " + reason);
    }

    method AutoExecute(id: string) returns (action: Option<Action>)
      modifies this
      ensures Now() == Decide(old(Now()), id, AutoExecuted, "auto_executed")
      ensures action == Decided(old(Now()), id, AutoExecuted, "auto_executed")
    {
      action := Settle(id, AutoExecuted, "auto_executed");
    }

    method Settle(id: string, status: Status, decision: string) returns (action: Option<Action>)
      modifies this
      ensures Now() == Decide(old(Now()), id, status, decision)
      ensures action == Decided(old(Now()), id, status, decision)
    {
      var found := FindAction(id);
      FindMeaning(queue, id);
      if found.None? {
        return None;
      }
      var i := found.value;
      var decided := queue[i].(status := status, decision := decision);
      queue := queue[..i] + queue[i + 1..];
      if status == AutoExecuted {
        autoExecuted := autoExecuted + [decided];
      }
      processed := processed + [decided];
      return Some(decided);
    }

    method FindAction(id: string) returns (found: Option<nat>)
      ensures found == Find(queue, id)
    {
      FindMeaning(queue, id);
      for i := 0 to |queue|
        invariant forall k :: 0 <= k < i ==> queue[k].id != id
      {
        if queue[i].id == id {
          return Some(i);
        }
      }
      return None;
    }
  }

  lemma {:induction false} OfPriority(p: Priority, actions: seq<Action>)
    ensures forall k :: 0 <= k < |Of(p, actions)| ==> Of(p, actions)[k].priority == p
  {
    if actions != [] {
      OfPriority(p, actions[..|actions| - 1]);
    }
  }

  // ---- Every run ----

  datatype Op =
    | Submit(id: string, claw: string, kind: string, payload: string)
    | ApproveOp(id: string)
    | BlockOp(id: string, reason: string)
    | AutoOp(id: string)

  function Step(r: Room, modes: Modes, op: Op): Room {
    match op
    case Submit(id, claw, kind, payload) => Enqueue(r, NewAction(modes, id, claw, kind, payload))
    case ApproveOp(id) => Decide(r, id, Approved, "approved")
    case BlockOp(id, reason) => Decide(r, id, Blocked, Blocking(reason))
    case AutoOp(id) => Decide(r, id, AutoExecuted, "auto_executed")
  }

  function Run(modes: Modes, ops: seq<Op>): Room {
    if ops == [] then EMPTY else Step(Run(modes, ops[..|ops| - 1]), modes, ops[|ops| - 1])
  }

  /** Action ids are unique to their submission. */
  ghost predicate FreshIds(ops: seq<Op>) {
    forall i, j :: 0 <= i < j < |ops| && ops[i].Submit? && ops[j].Submit? ==> ops[i].id != ops[j].id
  }

  function Without(actions: seq<Action>, id: string): seq<Action> {
    if actions == [] then []
    else
      var before := Without(actions[..|actions| - 1], id);
      if actions[|actions| - 1].id == id then before else before + [actions[|actions| - 1]]
  }

  function UndecidedStep(modes: Modes, u: seq<Action>, op: Op): seq<Action> {
    match op
    case Submit(id, claw, kind, payload) =>
      var action := NewAction(modes, id, claw, kind, payload);
      if action.priority == Auto then u else u + [action]
    case ApproveOp(id) => Without(u, id)
    case BlockOp(id, _) => Without(u, id)
    case AutoOp(id) => Without(u, id)
  }

  /** Submitted actions nobody has decided yet, in order of arrival. */
  function Undecided(modes: Modes, ops: seq<Op>): seq<Action> {
    if ops == [] then []
    else UndecidedStep(modes, Undecided(modes, ops[..|ops| - 1]), ops[|ops| - 1])
  }

  function Submitted(ops: seq<Op>): seq<string> {
    if ops == [] then []
    else
      var before := Submitted(ops[..|ops| - 1]);
      if ops[|ops| - 1].Submit? then before + [ops[|ops| - 1].id] else before
  }

  ghost predicate DistinctIds(actions: seq<Action>) {
    forall i, j :: 0 <= i < j < |actions| ==> actions[i].id != actions[j].id
  }

  lemma {:induction false} WithoutConcat(a: seq<Action>, b: seq<Action>, id: string)
    ensures Without(a + b, id) == Without(a, id) + Without(b, id)
  {
    if b == [] {
      assert a + b == a;
    } else {
      assert (a + b)[..|a + b| - 1] == a + b[..|b| - 1];
      WithoutConcat(a, b[..|b| - 1], id);
    }
  }

  lemma {:induction false} WithoutAbsent(a: seq<Action>, id: string)
    requires forall k :: 0 <= k < |a| ==> a[k].id != id
    ensures Without(a, id) == a
  {
    if a != [] {
      WithoutAbsent(a[..|a| - 1], id);
      assert a == a[..|a| - 1] + [a[|a| - 1]];
    }
  }

  lemma WithoutAround(pre: seq<Action>, x: Action, post: seq<Action>)
    requires forall k :: 0 <= k < |pre| ==> pre[k].id != x.id
    requires forall k :: 0 <= k < |post| ==> post[k].id != x.id
    ensures Without(pre + [x] + post, x.id) == pre + post
  {
    WithoutAbsent(pre, x.id);
    WithoutAbsent(post, x.id);
    WithoutConcat(pre + [x], post, x.id);
    WithoutConcat(pre, [x], x.id);
    assert [x][..0] == [];
    assert Without([x], x.id) == [];
  }

  /** With distinct ids, taking out the first match takes out all of them. */
  lemma RemoveIsWithout(a: seq<Action>, i: nat)
    requires DistinctIds(a) && i < |a|
    ensures a[..i] + a[i + 1..] == Without(a, a[i].id)
  {
    var pre, post := a[..i], a[i + 1..];
    forall k | 0 <= k < |post|
      ensures post[k].id != a[i].id
    {
      assert post[k] == a[i + 1 + k];
    }
    WithoutAround(pre, a[i], post);
    assert a == pre + [a[i]] + post;
  }

  lemma {:induction false} OfWithout(p: Priority, a: seq<Action>, id: string)
    ensures Of(p, Without(a, id)) == Without(Of(p, a), id)
  {
    if a != [] {
      var front, last := a[..|a| - 1], a[|a| - 1];
      OfWithout(p, front, id);
      OfAppend(p, Without(front, id), last);
      WithoutConcat(Of(p, front), [last], id);
      assert [last][..0] == [];
    }
  }

  lemma OfAppend(p: Priority, a: seq<Action>, x: Action)
    ensures Of(p, a + [x]) == if x.priority == p then Of(p, a) + [x] else Of(p, a)
  {
    assert (a + [x])[..|a|] == a;
  }

  lemma {:induction false} OfConcat(p: Priority, a: seq<Action>, b: seq<Action>)
    ensures Of(p, a + b) == Of(p, a) + Of(p, b)
  {
    if b == [] {
      assert a + b == a;
    } else {
      assert (a + b)[..|a + b| - 1] == a + b[..|b| - 1];
      OfConcat(p, a, b[..|b| - 1]);
    }
  }

  lemma {:induction false} OfSame(p: Priority, q: Priority, a: seq<Action>)
    requires forall k :: 0 <= k < |a| ==> a[k].priority == q
    ensures Of(p, a) == if p == q then a else []
  {
    if a != [] {
      OfSame(p, q, a[..|a| - 1]);
      assert a == a[..|a| - 1] + [a[|a| - 1]];
    }
  }

  /** Sorting again only moves the new arrival. */
  lemma SortOf(p: Priority, a: seq<Action>)
    ensures Of(p, SortByPriority(a)) == Of(p, a)
  {
    OfPriority(Hold, a);
    OfPriority(Review, a);
    OfPriority(Auto, a);
    OfConcat(p, Of(Hold, a) + Of(Review, a), Of(Auto, a));
    OfConcat(p, Of(Hold, a), Of(Review, a));
    OfSame(p, Hold, Of(Hold, a));
    OfSame(p, Review, Of(Review, a));
    OfSame(p, Auto, Of(Auto, a));
  }

  /** HOLD first, then REVIEW, each in order of arrival. */
  function Arranged(undecided: seq<Action>): seq<Action> {
    Of(Hold, undecided) + Of(Review, undecided)
  }

  ghost predicate NoAuto(actions: seq<Action>) {
    forall k :: 0 <= k < |actions| ==> actions[k].priority != Auto && actions[k].status == Pending
  }

  lemma SortedMembers(actions: seq<Action>)
    ensures forall x :: x in SortByPriority(actions) <==> x in actions
  {
    forall x
      ensures x in SortByPriority(actions) <==> x in actions
    {
      OfMembers(Hold, actions, x);
      OfMembers(Review, actions, x);
      OfMembers(Auto, actions, x);
    }
  }

  lemma {:induction false} OfMembers(p: Priority, a: seq<Action>, x: Action)
    ensures x in Of(p, a) <==> x in a && x.priority == p
  {
    if a != [] {
      OfMembers(p, a[..|a| - 1], x);
      assert a == a[..|a| - 1] + [a[|a| - 1]];
    }
  }

  lemma {:induction false} OfDistinct(p: Priority, a: seq<Action>)
    requires DistinctIds(a)
    ensures DistinctIds(Of(p, a))
  {
    if a != [] {
      var front, last := a[..|a| - 1], a[|a| - 1];
      OfDistinct(p, front);
      forall k | 0 <= k < |Of(p, front)|
        ensures Of(p, front)[k].id != last.id
      {
        OfMembers(p, front, Of(p, front)[k]);
      }
    }
  }

  lemma ArrangedDistinct(u: seq<Action>)
    requires DistinctIds(u)
    ensures DistinctIds(Arranged(u))
    ensures forall x :: x in Arranged(u) <==> x in u && x.priority != Auto
  {
    OfDistinct(Hold, u);
    OfDistinct(Review, u);
    forall x
      ensures x in Arranged(u) <==> x in u && x.priority != Auto
    {
      OfMembers(Hold, u, x);
      OfMembers(Review, u, x);
    }
    OfPriority(Hold, u);
    OfPriority(Review, u);
    var holds, reviews := Of(Hold, u), Of(Review, u);
    forall i, j | 0 <= i < |holds| && 0 <= j < |reviews|
      ensures holds[i].id != reviews[j].id
    {
      OfMembers(Hold, u, holds[i]);
      OfMembers(Review, u, reviews[j]);
      var k :| 0 <= k < |u| && u[k] == holds[i];
      var l :| 0 <= l < |u| && u[l] == reviews[j];
      assert k != l;
    }
  }

  lemma ArrangedWithout(u: seq<Action>, id: string)
    ensures Arranged(Without(u, id)) == Without(Arranged(u), id)
  {
    OfWithout(Hold, u, id);
    OfWithout(Review, u, id);
    WithoutConcat(Of(Hold, u), Of(Review, u), id);
  }

  lemma DecideArranged(r: Room, u: seq<Action>, id: string, status: Status, decision: string)
    requires r.queue == Arranged(u) && DistinctIds(u)
    ensures Decide(r, id, status, decision).queue == Arranged(Without(u, id))
  {
    ArrangedWithout(u, id);
    ArrangedDistinct(u);
    FindMeaning(r.queue, id);
    var found := Find(r.queue, id);
    if found.Some? {
      RemoveIsWithout(r.queue, found.value);
    } else {
      WithoutAbsent(r.queue, id);
    }
  }

  lemma SortArranged(u: seq<Action>, action: Action)
    requires NoAuto(u)
    ensures SortByPriority(Arranged(u) + [action])
         == if action.priority == Auto then Arranged(u) + [action] else Arranged(u + [action])
  {
    QueueOf(u);
    OfAppend(Hold, Arranged(u), action);
    OfAppend(Review, Arranged(u), action);
    OfAppend(Auto, Arranged(u), action);
    OfAppend(Hold, u, action);
    OfAppend(Review, u, action);
  }

  /** An AUTO arrival is found at the end of the queue and leaves it at once. */
  lemma DecideLast(r: Room, queue: seq<Action>, action: Action)
    requires r.queue == queue + [action] && forall k :: 0 <= k < |queue| ==> queue[k].id != action.id
    ensures var done := action.(status := AutoExecuted, decision := "auto_executed");
      Decide(r, action.id, AutoExecuted, "auto_executed")
      == Room(queue, r.processed + [done], r.autoExecuted + [done])
  {
    FindMeaning(r.queue, action.id);
    assert r.queue[|queue|] == action;
    var found := Find(r.queue, action.id);
    assert found.Some?;
    assert forall k :: 0 <= k < |queue| ==> r.queue[k].id == queue[k].id;
    assert found == Some(|queue|);
    assert r.queue[..|queue|] + r.queue[|queue| + 1..] == queue;
  }

  lemma EnqueueArranged(r: Room, u: seq<Action>, action: Action)
    requires r.queue == Arranged(u) && DistinctIds(u) && NoAuto(u)
    requires forall k :: 0 <= k < |u| ==> u[k].id != action.id
    ensures Enqueue(r, action).queue == Arranged(if action.priority == Auto then u else u + [action])
  {
    SortArranged(u, action);
    if action.priority == Auto {
      ArrangedDistinct(u);
      forall k | 0 <= k < |Arranged(u)|
        ensures Arranged(u)[k].id != action.id
      {
        assert Arranged(u)[k] in u;
      }
      DecideLast(r.(queue := SortByPriority(r.queue + [action])), Arranged(u), action);
    }
  }

  lemma QueueOf(u: seq<Action>)
    requires NoAuto(u)
    ensures Of(Hold, Arranged(u)) == Of(Hold, u) && Of(Review, Arranged(u)) == Of(Review, u)
    ensures Of(Auto, Arranged(u)) == []
  {
    NoneAuto(u);
    assert Arranged(u) == SortByPriority(u);
    SortOf(Hold, u);
    SortOf(Review, u);
    SortOf(Auto, u);
  }

  lemma NoneAuto(u: seq<Action>)
    requires NoAuto(u)
    ensures Of(Auto, u) == []
  {
    if Of(Auto, u) != [] {
      var x := Of(Auto, u)[0];
      OfMembers(Auto, u, x);
    }
  }

  lemma {:induction false} WithoutMembers(a: seq<Action>, id: string, x: Action)
    ensures x in Without(a, id) <==> x in a && x.id != id
  {
    if a != [] {
      WithoutMembers(a[..|a| - 1], id, x);
      assert a == a[..|a| - 1] + [a[|a| - 1]];
    }
  }

  lemma {:induction false} WithoutDistinct(a: seq<Action>, id: string)
    requires DistinctIds(a)
    ensures DistinctIds(Without(a, id))
  {
    if a != [] {
      var front, last := a[..|a| - 1], a[|a| - 1];
      WithoutDistinct(front, id);
      forall k | 0 <= k < |Without(front, id)|
        ensures Without(front, id)[k].id != last.id
      {
        WithoutMembers(front, id, Without(front, id)[k]);
      }
    }
  }

  lemma {:induction false} SubmittedMembers(ops: seq<Op>, id: string)
    ensures id in Submitted(ops) <==> exists k :: 0 <= k < |ops| && ops[k].Submit? && ops[k].id == id
  {
    if ops != [] {
      var front, last := ops[..|ops| - 1], ops[|ops| - 1];
      SubmittedMembers(front, id);
      assert forall k :: 0 <= k < |front| ==> front[k] == ops[k];
      if id in Submitted(front) {
        var k :| 0 <= k < |front| && front[k].Submit? && front[k].id == id;
        assert ops[k].Submit? && ops[k].id == id;
      }
    }
  }

  ghost predicate UndecidedOk(u: seq<Action>, submitted: seq<string>) {
    DistinctIds(u) && NoAuto(u) && forall k :: 0 <= k < |u| ==> u[k].id in submitted
  }

  lemma WithoutOk(u: seq<Action>, id: string, submitted: seq<string>)
    requires UndecidedOk(u, submitted)
    ensures UndecidedOk(Without(u, id), submitted)
  {
    WithoutDistinct(u, id);
    var w := Without(u, id);
    forall k | 0 <= k < |w|
      ensures w[k] in u
    {
      WithoutMembers(u, id, w[k]);
    }
  }

  lemma StepArranged(modes: Modes, r: Room, u: seq<Action>, op: Op, submitted: seq<string>)
    requires r.queue == Arranged(u) && UndecidedOk(u, submitted) && (op.Submit? ==> op.id !in submitted)
    ensures Step(r, modes, op).queue == Arranged(UndecidedStep(modes, u, op))
    ensures UndecidedOk(UndecidedStep(modes, u, op), if op.Submit? then submitted + [op.id] else submitted)
  {
    match op
    case Submit(id, claw, kind, payload) => EnqueueArranged(r, u, NewAction(modes, id, claw, kind, payload));
    case ApproveOp(id) =>
      DecideArranged(r, u, id, Approved, "approved");
      WithoutOk(u, id, submitted);
    case BlockOp(id, reason) =>
      DecideArranged(r, u, id, Blocked, Blocking(reason));
      WithoutOk(u, id, submitted);
    case AutoOp(id) =>
      DecideArranged(r, u, id, AutoExecuted, "auto_executed");
      WithoutOk(u, id, submitted);
  }

  /** The queue is always the undecided HOLD actions followed by the undecided REVIEW ones, and no AUTO. */
  lemma {:induction false} QueueIsArranged(modes: Modes, ops: seq<Op>)
    requires FreshIds(ops)
    ensures UndecidedOk(Undecided(modes, ops), Submitted(ops))
    ensures Run(modes, ops).queue == Arranged(Undecided(modes, ops))
  {
    if ops != [] {
      var front, last := ops[..|ops| - 1], ops[|ops| - 1];
      assert forall k :: 0 <= k < |front| ==> front[k] == ops[k];
      QueueIsArranged(modes, front);
      if last.Submit? {
        SubmittedMembers(front, last.id);
      }
      StepArranged(modes, Run(modes, front), Undecided(modes, front), last, Submitted(front));
    }
  }

  // ---- Conservation ----

  function Executed(actions: seq<Action>): seq<Action> {
    if actions == [] then []
    else
      var before := Executed(actions[..|actions| - 1]);
      if actions[|actions| - 1].status == AutoExecuted then before + [actions[|actions| - 1]] else before
  }

  /** The action as it was submitted. */
  function Original(a: Action): Action {
    a.(status := Pending, decision := "")
  }

  function Originals(actions: seq<Action>): (r: seq<Action>)
    ensures |r| == |actions| && forall k :: 0 <= k < |actions| ==> r[k] == Original(actions[k])
  {
    seq(|actions|, k requires 0 <= k < |actions| => Original(actions[k]))
  }

  /** What the queue and the processed list hold together, as submitted, with multiplicity. */
  ghost function Everywhere(r: Room): multiset<Action> {
    multiset(Originals(r.queue + r.processed))
  }

  /** The submitted actions, in order. */
  function Arrivals(modes: Modes, ops: seq<Op>): seq<Action> {
    if ops == [] then []
    else Arrivals(modes, ops[..|ops| - 1]) + Arrived(modes, ops[|ops| - 1])
  }

  function Arrived(modes: Modes, op: Op): seq<Action> {
    if op.Submit? then [NewAction(modes, op.id, op.claw, op.kind, op.payload)] else []
  }

  lemma OriginalsConcat(a: seq<Action>, b: seq<Action>)
    ensures Originals(a + b) == Originals(a) + Originals(b)
  {
  }

  /** Nothing processed is pending, and the auto-executed list is its auto-executed part. */
  ghost predicate Settled(r: Room) {
    r.autoExecuted == Executed(r.processed) && forall k :: 0 <= k < |r.processed| ==> r.processed[k].status != Pending
  }

  lemma DecideSettled(r: Room, id: string, status: Status, decision: string)
    requires Settled(r) && status != Pending
    ensures var t := Decide(r, id, status, decision); Settled(t) && r.processed <= t.processed
  {
    FindMeaning(r.queue, id);
    var found := Find(r.queue, id);
    if found.Some? {
      ExecutedAppend(r.processed, r.queue[found.value].(status := status, decision := decision));
    }
  }

  /** A decision moves one action from the queue to the processed list and changes nothing else in it. */
  lemma DecideConserves(r: Room, id: string, status: Status, decision: string)
    ensures Everywhere(Decide(r, id, status, decision)) == Everywhere(r)
  {
    FindMeaning(r.queue, id);
    var found := Find(r.queue, id);
    if found.Some? {
      MoveOne(r.queue, r.processed, found.value, r.queue[found.value].(status := status, decision := decision));
    }
  }

  lemma MoveOne(queue: seq<Action>, processed: seq<Action>, i: nat, decided: Action)
    requires i < |queue| && Original(decided) == Original(queue[i])
    ensures multiset(Originals(queue[..i] + queue[i + 1..] + (processed + [decided])))
         == multiset(Originals(queue + processed))
  {
    var pre, x, post := queue[..i], queue[i], queue[i + 1..];
    assert queue == pre + [x] + post;
    OriginalsConcat(pre + post, processed + [decided]);
    OriginalsConcat(pre, post);
    OriginalsConcat(processed, [decided]);
    OriginalsConcat(pre + [x] + post, processed);
    OriginalsConcat(pre + [x], post);
    OriginalsConcat(pre, [x]);
    assert Originals([decided]) == [Original(x)] == Originals([x]);
  }

  lemma ExecutedAppend(a: seq<Action>, x: Action)
    ensures Executed(a + [x]) == if x.status == AutoExecuted then Executed(a) + [x] else Executed(a)
  {
    assert (a + [x])[..|a|] == a;
  }

  /** Sorting keeps every action as often as it was there. */
  lemma {:induction false} SortConserves(actions: seq<Action>)
    ensures multiset(Originals(SortByPriority(actions))) == multiset(Originals(actions))
  {
    if actions != [] {
      var front, last := actions[..|actions| - 1], actions[|actions| - 1];
      SortConserves(front);
      assert actions == front + [last];
      OriginalsConcat(front, [last]);
      ThreeParts(Of(Hold, front), Of(Review, front), Of(Auto, front));
      ThreeParts(Of(Hold, actions), Of(Review, actions), Of(Auto, actions));
      OriginalsConcat(Of(last.priority, front), [last]);
    }
  }

  lemma ThreeParts(a: seq<Action>, b: seq<Action>, c: seq<Action>)
    ensures Originals(a + b + c) == Originals(a) + Originals(b) + Originals(c)
  {
    OriginalsConcat(a + b, c);
    OriginalsConcat(a, b);
  }

  lemma EnqueueConserves(r: Room, action: Action)
    requires Settled(r) && action == Original(action)
    ensures var t := Enqueue(r, action);
      Everywhere(t) == Everywhere(r) + multiset{action} && Settled(t) && r.processed <= t.processed
  {
    var queued := r.(queue := SortByPriority(r.queue + [action]));
    SortConserves(r.queue + [action]);
    OriginalsConcat(queued.queue, r.processed);
    OriginalsConcat(r.queue, [action]);
    OriginalsConcat(r.queue, r.processed);
    assert Originals([action]) == [action];
    if action.priority == Auto {
      DecideConserves(queued, action.id, AutoExecuted, "auto_executed");
      DecideSettled(queued, action.id, AutoExecuted, "auto_executed");
    }
  }

  lemma StepConserves(r: Room, modes: Modes, op: Op)
    requires Settled(r)
    ensures var t := Step(r, modes, op);
      Everywhere(t) == Everywhere(r) + multiset(Arrived(modes, op)) && Settled(t) && r.processed <= t.processed
  {
    match op
    case Submit(id, claw, kind, payload) => EnqueueConserves(r, NewAction(modes, id, claw, kind, payload));
    case ApproveOp(id) =>
      DecideConserves(r, id, Approved, "approved");
      DecideSettled(r, id, Approved, "approved");
    case BlockOp(id, reason) =>
      DecideConserves(r, id, Blocked, Blocking(reason));
      DecideSettled(r, id, Blocked, Blocking(reason));
    case AutoOp(id) =>
      DecideConserves(r, id, AutoExecuted, "auto_executed");
      DecideSettled(r, id, AutoExecuted, "auto_executed");
  }

  /**
    Queue and processed list together hold every action ever submitted, as often as it was and
    unchanged but for status and decision; an action once decided stays decided, and the
    auto-executed list is the auto-executed part of processed, in order.
  */
  lemma {:induction false} ActionsConserved(modes: Modes, ops: seq<Op>)
    ensures var r := Run(modes, ops); Everywhere(r) == multiset(Arrivals(modes, ops)) && Settled(r)
    ensures ops != [] ==> Run(modes, ops[..|ops| - 1]).processed <= Run(modes, ops).processed
  {
    if ops != [] {
      var front, last := ops[..|ops| - 1], ops[|ops| - 1];
      ActionsConserved(modes, front);
      StepConserves(Run(modes, front), modes, last);
    }
  }

  lemma {:induction false} ArrivalIds(modes: Modes, ops: seq<Op>)
    ensures |Arrivals(modes, ops)| == |Submitted(ops)|
    ensures forall k :: 0 <= k < |Submitted(ops)| ==> Arrivals(modes, ops)[k].id == Submitted(ops)[k]
    ensures FreshIds(ops) ==> DistinctIds(Arrivals(modes, ops))
  {
    if ops != [] {
      var front, last := ops[..|ops| - 1], ops[|ops| - 1];
      ArrivalIds(modes, front);
      assert forall k :: 0 <= k < |front| ==> front[k] == ops[k];
      if last.Submit? {
        SubmittedMembers(front, last.id);
        assert forall k :: 0 <= k < |Submitted(front)| ==> Submitted(front)[k] in Submitted(front);
      }
    }
  }

  lemma CountTwo(a: seq<Action>, i: nat, j: nat)
    requires i < j < |a| && a[i] == a[j]
    ensures multiset(a)[a[i]] >= 2
  {
    assert a == a[..i] + [a[i]] + a[i + 1..];
    assert a[i + 1..][j - i - 1] == a[i];
    assert a[i] in multiset(a[i + 1..]);
  }

  lemma CountOne(a: seq<Action>, i: nat)
    requires i < |a| && DistinctIds(a)
    ensures multiset(a)[a[i]] == 1
  {
    var pre, post := a[..i], a[i + 1..];
    assert a == pre + [a[i]] + post;
    assert a[i] !in pre && a[i] !in post;
    assert multiset(pre)[a[i]] == 0 && multiset(post)[a[i]] == 0;
  }

  /** Originals that are an arrangement of actions with distinct ids come from distinct ids. */
  lemma DistinctOriginals(all: seq<Action>, arrivals: seq<Action>)
    requires multiset(Originals(all)) == multiset(arrivals) && DistinctIds(arrivals)
    ensures DistinctIds(all)
  {
    var originals := Originals(all);
    forall i, j | 0 <= i < j < |all|
      ensures all[i].id != all[j].id
    {
      assert originals[i] in multiset(arrivals) && originals[j] in multiset(arrivals);
      var k :| 0 <= k < |arrivals| && arrivals[k] == originals[i];
      var l :| 0 <= l < |arrivals| && arrivals[l] == originals[j];
      CountOne(arrivals, k);
      if originals[i] == originals[j] {
        CountTwo(originals, i, j);
      }
    }
  }

  lemma SameIds(all: seq<Action>, arrivals: seq<Action>, id: string)
    requires multiset(Originals(all)) == multiset(arrivals)
    ensures (exists k :: 0 <= k < |all| && all[k].id == id)
        <==> (exists l :: 0 <= l < |arrivals| && arrivals[l].id == id)
  {
    var originals := Originals(all);
    if k :| 0 <= k < |all| && all[k].id == id {
      assert originals[k] in multiset(arrivals);
    }
    if l :| 0 <= l < |arrivals| && arrivals[l].id == id {
      assert arrivals[l] in multiset(originals);
      var k :| 0 <= k < |originals| && originals[k] == arrivals[l];
      assert all[k].id == id;
    }
  }

  /** With ids unique to their submission, each submitted id is in the two lists together exactly once. */
  lemma EachIdOnce(modes: Modes, ops: seq<Op>, id: string)
    requires FreshIds(ops)
    ensures var all := Run(modes, ops).queue + Run(modes, ops).processed;
      DistinctIds(all) && (id in Submitted(ops) <==> exists k :: 0 <= k < |all| && all[k].id == id)
  {
    var r, arrivals := Run(modes, ops), Arrivals(modes, ops);
    ActionsConserved(modes, ops);
    ArrivalIds(modes, ops);
    DistinctOriginals(r.queue + r.processed, arrivals);
    SameIds(r.queue + r.processed, arrivals, id);
    if l :| 0 <= l < |arrivals| && arrivals[l].id == id {
      assert Submitted(ops)[l] == id;
    }
  }
}
