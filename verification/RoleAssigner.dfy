/** Greedy role assignment (role_assigner.py). */
module RoleAssigner {
  import opened Options
  import opened Ascii

  datatype Member = Member(email: string, skills: seq<string>, preferences: seq<string>, experience: map<string, int>)

  datatype Template = Template(required: seq<string>, optional: seq<string>, maxMembers: nat)

  function TemplateOf(name: string): Template {
    if name == "content-agency" then Template(["content", "ops"], ["analytics"], 3)
    else if name == "design-studio" then Template(["content", "ops", "finance"], [], 3)
    else if name == "ai-micro-saas" then Template(["build", "ops", "analytics"], ["finance"], 4)
    else if name == "full-squad" then
      Template(["content", "ops", "analytics", "finance", "build", "assistant"], [], 6)
    else Template(["build", "content", "ops"], ["analytics"], 4)  // campus-ai-tool, also the default
  }

  function Prerequisites(role: string): seq<string> {
    match role
    case "content" => ["writing", "design", "marketing"]
    case "ops" => ["communication", "organization", "project-management"]
    case "analytics" => ["data-analysis", "statistics", "visualization"]
    case "finance" => ["accounting", "budgeting", "spreadsheet"]
    case "build" => ["programming", "devops", "testing"]
    case "assistant" => ["communication", "scheduling", "research"]
    case _ => []
  }

  // ---- Scores ----

  function Matching(skills: seq<string>, role: string): nat {
    if skills == [] then 0
    else Matching(skills[..|skills| - 1], role) + if Lower(skills[|skills| - 1]) in Prerequisites(role) then 1 else 0
  }

  function Score(m: Member, role: string): int {
    5 + 2 * Matching(m.skills, role)
    + (if role in m.preferences then 3 else 0)
    + (if role in m.experience then (if m.experience[role] <= 5 then m.experience[role] else 5) else 0)
  }

  method ScoreMemberForRole(m: Member, role: string) returns (score: int)
    ensures score == Score(m, role)
  {
    score := 5;
    for i := 0 to |m.skills|
      invariant score == 5 + 2 * Matching(m.skills[..i], role)
    {
      assert m.skills[..i + 1][..i] == m.skills[..i];
      if Lower(m.skills[i]) in Prerequisites(role) {
        score := score + 2;
      }
    }
    assert m.skills[..|m.skills|] == m.skills;
    if role in m.preferences {
      score := score + 3;
    }
    if role in m.experience {
      score := score + if m.experience[role] <= 5 then m.experience[role] else 5;
    }
  }

  /** Scores are kept per email: of members sharing one, the last one listed counts. */
  function Holder(members: seq<Member>, email: string): Member
    requires exists m :: m in members && m.email == email
  {
    var last := members[|members| - 1];
    if last.email == email then last else Holder(members[..|members| - 1], email)
  }

  function ScoreOf(members: seq<Member>, i: nat, role: string): int
    requires i < |members|
  {
    assert members[i] in members;
    Score(Holder(members, members[i].email), role)
  }

  // ---- The greedy choice ----

  /** The best of the first `n` members not yet taken; ties go to the first, scores must exceed -1. */
  function Best(members: seq<Member>, taken: set<string>, role: string, n: nat): (best: Option<nat>)
    requires n <= |members|
    ensures best.Some? ==> best.value < n
  {
    if n == 0 then None
    else
      var before := Best(members, taken, role, n - 1);
      if members[n - 1].email in taken then before
      else if ScoreOf(members, n - 1, role) > BestScore(members, role, before) then Some(n - 1)
      else before
  }

  function BestScore(members: seq<Member>, role: string, best: Option<nat>): int
    requires best.Some? ==> best.value < |members|
  {
    if best.Some? then ScoreOf(members, best.value, role) else -1
  }

  function Taken(members: seq<Member>, picks: seq<Option<nat>>): set<string> {
    set k | 0 <= k < |picks| && picks[k].Some? && picks[k].value < |members| :: members[picks[k].value].email
  }

  function Picks(members: seq<Member>, roles: seq<string>): (picks: seq<Option<nat>>)
    ensures |picks| == |roles|
    ensures forall k :: 0 <= k < |picks| && picks[k].Some? ==> picks[k].value < |members|
  {
    if roles == [] then []
    else
      var before := Picks(members, roles[..|roles| - 1]);
      before + [Best(members, Taken(members, before), roles[|roles| - 1], |members|)]
  }

  function DetermineRoles(n: nat, t: Template): seq<string> {
    if n <= |t.required| then t.required[..n]
    else
      var extra := n - |t.required|;
      var roles := t.required + if extra <= |t.optional| then t.optional[..extra] else t.optional;
      if |roles| <= t.maxMembers then roles else roles[..t.maxMembers]
  }

  // ---- Results ----

  datatype RoleAssignment = RoleAssignment(member: Member, role: string, isAdmin: bool)

  datatype SquadAssignments = SquadAssignments(assignments: seq<RoleAssignment>, missing: seq<string>,
      excess: seq<Member>)

  function Assigned(members: seq<Member>, roles: seq<string>, picks: seq<Option<nat>>): seq<RoleAssignment>
    requires |roles| == |picks|
    requires forall k :: 0 <= k < |picks| && picks[k].Some? ==> picks[k].value < |members|
  {
    if picks == [] then []
    else
      var last := |picks| - 1;
      var before := Assigned(members, roles[..last], picks[..last]);
      if picks[last].Some? then before + [RoleAssignment(members[picks[last].value], roles[last], false)] else before
  }

  predicate Leads(a: RoleAssignment) {
    a.role == "ops" || a.role == "content"
  }

  /** The first ops or content assignment, or else the first of all. */
  function AdminIndex(assignments: seq<RoleAssignment>): nat {
    if exists k :: 0 <= k < |assignments| && Leads(assignments[k]) then FirstLead(assignments) else 0
  }

  function FirstLead(assignments: seq<RoleAssignment>): nat {
    if assignments == [] || Leads(assignments[0]) then 0 else 1 + FirstLead(assignments[1..])
  }

  function Unassigned(required: seq<string>, assignments: seq<RoleAssignment>): seq<string> {
    if required == [] then []
    else
      var before := Unassigned(required[..|required| - 1], assignments);
      var role := required[|required| - 1];
      if exists k :: 0 <= k < |assignments| && assignments[k].role == role then before else before + [role]
  }

  function Leftover(members: seq<Member>, taken: set<string>): seq<Member> {
    if members == [] then []
    else
      var before := Leftover(members[..|members| - 1], taken);
      if members[|members| - 1].email in taken then before else before + [members[|members| - 1]]
  }

  method DetermineRolesToFill(n: nat, t: Template) returns (roles: seq<string>)
    ensures roles == DetermineRoles(n, t)
  {
    if n <= |t.required| {
      return t.required[..n];
    }
    roles := t.required;
    var remaining := n - |t.required|;
    var i := 0;
    while i < |t.optional| && i < remaining
      invariant i <= |t.optional| && i <= remaining
      invariant roles == t.required + t.optional[..i]
    {
      roles := roles + [t.optional[i]];
      i := i + 1;
    }
    assert i == |t.optional| ==> t.optional[..i] == t.optional;
    if |roles| > t.maxMembers {
      roles := roles[..t.maxMembers];
    }
  }

  /** The assignments with the chosen one marked as admin. */
  function WithAdmin(assignments: seq<RoleAssignment>): seq<RoleAssignment> {
    var lead := AdminIndex(assignments);
    if lead < |assignments| then assignments[lead := assignments[lead].(isAdmin := true)] else assignments
  }

  function Result(members: seq<Member>, t: Template, assignAdmin: bool): SquadAssignments {
    var roles := DetermineRoles(|members|, t);
    var picks := Picks(members, roles);
    var plain := Assigned(members, roles, picks);
    SquadAssignments(if assignAdmin then WithAdmin(plain) else plain,
                     Unassigned(t.required, plain),
                     Leftover(members, Taken(members, picks)))
  }

  method AssignRoles(members: seq<Member>, template: string, assignAdmin: bool) returns (r: SquadAssignments)
    ensures r == Result(members, TemplateOf(template), assignAdmin)
  {
    var t := TemplateOf(template);
    r := AssignFor(members, t, assignAdmin);
  }

  method AssignFor(members: seq<Member>, t: Template, assignAdmin: bool) returns (r: SquadAssignments)
    ensures r == Result(members, t, assignAdmin)
  {
    var roles := DetermineRolesToFill(|members|, t);
    var scores := ScoreAll(members, t.required + t.optional);
    forall k | 0 <= k < |roles|
      ensures ScoredFor(members, roles[k], scores)
    {
      RolesKnown(|members|, t, k);
    }
    var assignments, taken := GreedyPass(members, roles, scores);
    var missing := Unassigned(t.required, assignments);
    var excess := Leftover(members, taken);
    if assignAdmin && assignments != [] {
      assignments := WithAdmin(assignments);
    }
    r := SquadAssignments(assignments, missing, excess);
  }

  lemma AssignedLast(members: seq<Member>, roles: seq<string>, role: string, picks: seq<Option<nat>>, pick: Option<nat>)
    requires |roles| == |picks|
    requires forall k :: 0 <= k < |picks| && picks[k].Some? ==> picks[k].value < |members|
    requires pick.Some? ==> pick.value < |members|
    ensures Assigned(members, roles + [role], picks + [pick]) ==
      Assigned(members, roles, picks) + if pick.Some? then [RoleAssignment(members[pick.value], role, false)] else []
  {
    assert (roles + [role])[..|roles|] == roles && (picks + [pick])[..|picks|] == picks;
  }

  /** The table holds every member's score for the role. */
  predicate ScoredFor(members: seq<Member>, role: string, scores: map<string, map<string, int>>) {
    forall i :: 0 <= i < |members| ==>
      && members[i].email in scores && role in scores[members[i].email]
      && scores[members[i].email][role] == ScoreOf(members, i, role)
  }

  method GreedyPass(members: seq<Member>, roles: seq<string>, scores: map<string, map<string, int>>)
    returns (assignments: seq<RoleAssignment>, taken: set<string>)
    requires forall k :: 0 <= k < |roles| ==> ScoredFor(members, roles[k], scores)
    ensures taken == Taken(members, Picks(members, roles))
    ensures assignments == Assigned(members, roles, Picks(members, roles))
  {
    assignments, taken := [], {};
    ghost var picks: seq<Option<nat>> := [];
    for k := 0 to |roles|
      invariant picks == Picks(members, roles[..k])
      invariant taken == Taken(members, picks)
      invariant assignments == Assigned(members, roles[..k], picks)
    {
      var best := PickBest(members, taken, roles[k], scores);
      Snoc(roles, k + 1);
      PicksLast(members, roles[..k], roles[k]);
      AssignedLast(members, roles[..k], roles[k], picks, best);
      TakenStep(members, picks, best);
      picks := picks + [best];
      if best.Some? {
        taken := taken + {members[best.value].email};
        assignments := assignments + [RoleAssignment(members[best.value], roles[k], false)];
      }
    }
    assert roles[..|roles|] == roles;
  }

  method ScoreAll(members: seq<Member>, roles: seq<string>) returns (scores: map<string, map<string, int>>)
    ensures forall i :: 0 <= i < |members| ==> members[i].email in scores
    ensures forall i, role :: 0 <= i < |members| && role in roles ==>
              role in scores[members[i].email] && scores[members[i].email][role] == ScoreOf(members, i, role)
  {
    scores := map[];
    for i := 0 to |members|
      invariant forall j :: 0 <= j < i ==> members[j].email in scores
      invariant forall j, role :: 0 <= j < i && role in roles ==>
        role in scores[members[j].email] && scores[members[j].email][role] == ScoreOf(members[..i], j, role)
    {
      var own: map<string, int> := map[];
      for k := 0 to |roles|
        invariant forall role :: role in roles[..k] ==> role in own && own[role] == Score(members[i], role)
      {
        var score := ScoreMemberForRole(members[i], roles[k]);
        own := own[roles[k] := score];
        assert roles[..k + 1] == roles[..k] + [roles[k]];
      }
      assert roles[..|roles|] == roles;
      scores := scores[members[i].email := own];
      forall j, role | 0 <= j < i + 1 && role in roles
        ensures role in scores[members[j].email] && scores[members[j].email][role] == ScoreOf(members[..i + 1], j, role)
      {
        HolderStep(members, i, j);
      }
    }
    assert members[..|members|] == members;
  }

  lemma HolderStep(members: seq<Member>, i: nat, j: nat)
    requires j <= i < |members|
    ensures forall role :: ScoreOf(members[..i + 1], j, role) ==
              if members[j].email == members[i].email then Score(members[i], role) else ScoreOf(members[..i], j, role)
  {
    assert members[..i + 1][..i] == members[..i];
    assert members[..i + 1][j] == members[j];
    if j < i {
      assert members[..i][j] == members[j];
    }
  }

  lemma BestNext(members: seq<Member>, taken: set<string>, role: string, i: nat)
    requires i < |members|
    ensures var before := Best(members, taken, role, i);
      Best(members, taken, role, i + 1) ==
        if members[i].email !in taken && ScoreOf(members, i, role) > BestScore(members, role, before)
        then Some(i) else before
  {
  }

  method PickBest(members: seq<Member>, taken: set<string>, role: string, scores: map<string, map<string, int>>)
    returns (best: Option<nat>)
    requires ScoredFor(members, role, scores)
    ensures best == Best(members, taken, role, |members|)
  {
    best := None;
    var bestScore := -1;
    for i := 0 to |members|
      invariant best == Best(members, taken, role, i)
      invariant bestScore == BestScore(members, role, best)
    {
      BestNext(members, taken, role, i);
      if members[i].email in taken {
        continue;
      }
      var score := scores[members[i].email][role];
      if score > bestScore {
        bestScore := score;
        best := Some(i);
      }
    }
  }

  lemma RolesKnown(n: nat, t: Template, k: nat)
    requires k < |DetermineRoles(n, t)|
    ensures DetermineRoles(n, t)[k] in t.required + t.optional
  {
  }

  /** No template lists a role twice, so no role is filled twice. */
  lemma RolesDistinct(n: nat, name: string, k: nat, l: nat)
    requires k < l < |DetermineRoles(n, TemplateOf(name))|
    ensures DetermineRoles(n, TemplateOf(name))[k] != DetermineRoles(n, TemplateOf(name))[l]
  {
    var t := TemplateOf(name);
    var all := t.required + t.optional;
    assert DetermineRoles(n, t)[k] == all[k] && DetermineRoles(n, t)[l] == all[l];
  }

  lemma TakenStep(members: seq<Member>, picks: seq<Option<nat>>, best: Option<nat>)
    requires best.Some? ==> best.value < |members|
    ensures Taken(members, picks + [best]) ==
      Taken(members, picks) + if best.Some? then {members[best.value].email} else {}
  {
    var after := picks + [best];
    forall e | e in Taken(members, picks)
      ensures e in Taken(members, after)
    {
      var k :| 0 <= k < |picks| && picks[k].Some? && picks[k].value < |members| && members[picks[k].value].email == e;
      assert after[k] == picks[k];
    }
    assert best.Some? ==> after[|picks|] == best;
  }

  // ---- What the greedy choice guarantees ----

  ghost predicate DistinctEmails(members: seq<Member>) {
    forall i, j :: 0 <= i < j < |members| ==> members[i].email != members[j].email
  }

  lemma {:induction false} OwnScore(members: seq<Member>, i: nat, role: string)
    requires DistinctEmails(members) && i < |members|
    ensures ScoreOf(members, i, role) == Score(members[i], role)
  {
    var last := |members| - 1;
    if i < last {
      assert members[..last][i] == members[i] && members[i] in members[..last];
      OwnScore(members[..last], i, role);
      assert members[last].email != members[i].email;
    }
  }

  /** A role is left open exactly when no free member scores above -1; otherwise a free best one gets it. */
  lemma {:induction false} BestMeaning(members: seq<Member>, taken: set<string>, role: string, n: nat)
    requires n <= |members|
    ensures var best := Best(members, taken, role, n);
      && (best.None? <==> forall j :: 0 <= j < n && members[j].email !in taken ==> ScoreOf(members, j, role) <= -1)
      && (best.Some? ==>
            && members[best.value].email !in taken && ScoreOf(members, best.value, role) > -1
            && forall j :: 0 <= j < n && members[j].email !in taken ==>
                 && ScoreOf(members, j, role) <= ScoreOf(members, best.value, role)
                 && (j < best.value ==> ScoreOf(members, j, role) < ScoreOf(members, best.value, role)))
  {
    if n > 0 {
      BestMeaning(members, taken, role, n - 1);
    }
  }

  lemma PicksLast(members: seq<Member>, roles: seq<string>, role: string)
    ensures var before := Picks(members, roles);
      Picks(members, roles + [role]) == before + [Best(members, Taken(members, before), role, |members|)]
  {
    assert (roles + [role])[..|roles|] == roles;
  }

  lemma {:induction false} PickAt(members: seq<Member>, roles: seq<string>, k: nat)
    requires k < |roles|
    ensures Picks(members, roles)[..k] == Picks(members, roles[..k])
    ensures Picks(members, roles)[k] == Best(members, Taken(members, Picks(members, roles)[..k]), roles[k], |members|)
  {
    var last := |roles| - 1;
    var before := Picks(members, roles[..last]);
    assert roles == roles[..last] + [roles[last]];
    PicksLast(members, roles[..last], roles[last]);
    if k < last {
      PickAt(members, roles[..last], k);
      assert roles[..last][..k] == roles[..k];
      assert Picks(members, roles)[..k] == before[..k];
    } else {
      assert Picks(members, roles)[..k] == before;
    }
  }

  /** No member is given two roles. */
  lemma PicksInjective(members: seq<Member>, roles: seq<string>, k: nat, l: nat)
    requires k < l < |roles| && Picks(members, roles)[k].Some? && Picks(members, roles)[l].Some?
    ensures members[Picks(members, roles)[k].value].email != members[Picks(members, roles)[l].value].email
  {
    var picks := Picks(members, roles);
    PickAt(members, roles, l);
    BestMeaning(members, Taken(members, picks[..l]), roles[l], |members|);
    assert picks[..l][k] == picks[k];
    assert members[picks[k].value].email in Taken(members, picks[..l]);
  }

  /** No blocking pair: nobody placed later or left over scores higher for a role than its assignee. */
  lemma NoBlockingPair(members: seq<Member>, roles: seq<string>, k: nat, j: nat)
    requires DistinctEmails(members) && k < |roles| && j < |members|
    requires Picks(members, roles)[k].Some?
    requires members[j].email !in Taken(members, Picks(members, roles)[..k])
    ensures Score(members[j], roles[k]) <= Score(members[Picks(members, roles)[k].value], roles[k])
  {
    var picks := Picks(members, roles);
    PickAt(members, roles, k);
    BestMeaning(members, Taken(members, picks[..k]), roles[k], |members|);
    OwnScore(members, j, roles[k]);
    OwnScore(members, picks[k].value, roles[k]);
  }

  lemma {:induction false} TakenSize(members: seq<Member>, picks: seq<Option<nat>>)
    requires forall k :: 0 <= k < |picks| && picks[k].Some? ==> picks[k].value < |members|
    ensures |Taken(members, picks)| <= |picks|
  {
    if picks != [] {
      var last := |picks| - 1;
      TakenSize(members, picks[..last]);
      TakenStep(members, picks[..last], picks[last]);
      assert picks == picks[..last] + [picks[last]];
    }
  }

  ghost function Emails(members: seq<Member>): set<string> {
    if members == [] then {} else Emails(members[..|members| - 1]) + {members[|members| - 1].email}
  }

  lemma {:induction false} EmailsMembers(members: seq<Member>, e: string)
    ensures e in Emails(members) <==> exists i :: 0 <= i < |members| && members[i].email == e
  {
    if members != [] {
      var last := |members| - 1;
      EmailsMembers(members[..last], e);
      assert forall i :: 0 <= i < last ==> members[..last][i] == members[i];
    }
  }

  lemma {:induction false} EmailsSize(members: seq<Member>)
    requires DistinctEmails(members)
    ensures |Emails(members)| == |members|
  {
    if members != [] {
      var front, last := members[..|members| - 1], members[|members| - 1];
      EmailsSize(front);
      EmailsMembers(front, last.email);
    }
  }

  lemma SomeoneFree(members: seq<Member>, taken: set<string>) returns (j: nat)
    requires DistinctEmails(members) && |taken| < |members|
    ensures j < |members| && members[j].email !in taken
  {
    EmailsSize(members);
    if Emails(members) <= taken {
      SubsetSmaller(Emails(members), taken);
    }
    var e :| e in Emails(members) && e !in taken;
    EmailsMembers(members, e);
    j :| 0 <= j < |members| && members[j].email == e;
  }

  lemma SubsetSmaller(a: set<string>, b: set<string>)
    requires a <= b
    ensures |a| <= |b|
  {
    assert b == a + (b - a);
  }

  /**
    With distinct emails and no member so far below zero experience that a score falls under 0,
    every role to fill is filled: there are never more of them than members.
  */
  lemma EveryRoleFilled(members: seq<Member>, t: Template, k: nat)
    requires DistinctEmails(members)
    requires forall i, role :: 0 <= i < |members| && role in t.required + t.optional ==> Score(members[i], role) >= 0
    requires k < |DetermineRoles(|members|, t)|
    ensures |DetermineRoles(|members|, t)| <= |members|
    ensures Picks(members, DetermineRoles(|members|, t))[k].Some?
  {
    var roles := DetermineRoles(|members|, t);
    var picks := Picks(members, roles);
    PickAt(members, roles, k);
    BestMeaning(members, Taken(members, picks[..k]), roles[k], |members|);
    TakenSize(members, picks[..k]);
    var j := SomeoneFree(members, Taken(members, picks[..k]));
    RolesKnown(|members|, t, k);
    OwnScore(members, j, roles[k]);
  }

  /** Exactly when a role is filled: somebody still free scores at least 0 for it. */
  lemma RoleFilledIff(members: seq<Member>, roles: seq<string>, k: nat)
    requires DistinctEmails(members) && k < |roles|
    ensures Picks(members, roles)[k].Some? <==>
      exists j :: 0 <= j < |members| && members[j].email !in Taken(members, Picks(members, roles)[..k])
                  && Score(members[j], roles[k]) >= 0
  {
    var taken := Taken(members, Picks(members, roles)[..k]);
    PickAt(members, roles, k);
    BestMeaning(members, taken, roles[k], |members|);
    forall j | 0 <= j < |members|
      ensures ScoreOf(members, j, roles[k]) == Score(members[j], roles[k])
    {
      OwnScore(members, j, roles[k]);
    }
  }

  /** Not every role is filled in general: a score below 0 leaves a role open although the member is free. */
  lemma NegativeScoreLeavesRoleOpen(email: string)
    ensures var members := [Member(email, [], [], map["build" := -6])];
      Picks(members, DetermineRoles(1, TemplateOf("campus-ai-tool"))) == [None]
  {
    var members := [Member(email, [], [], map["build" := -6])];
    var roles := DetermineRoles(1, TemplateOf("campus-ai-tool"));
    assert roles == ["build"];
    PickAt(members, roles, 0);
    OwnScore(members, 0, "build");
    BestMeaning(members, Taken(members, []), "build", 1);
    assert Picks(members, roles)[..0] == [];
  }

  /** Members are split: each is left over as often as it is listed, unless someone with its email was assigned. */
  lemma {:induction false} LeftoverExact(members: seq<Member>, taken: set<string>, m: Member)
    ensures multiset(Leftover(members, taken))[m] == if m.email in taken then 0 else multiset(members)[m]
  {
    if members != [] {
      var last := |members| - 1;
      LeftoverExact(members[..last], taken, m);
      assert members == members[..last] + [members[last]];
    }
  }

  /** Those left over keep the order in which they are listed. */
  lemma {:induction false} LeftoverInOrder(members: seq<Member>, taken: set<string>) returns (at: seq<nat>)
    ensures |at| == |Leftover(members, taken)|
    ensures forall k :: 0 <= k < |at| ==> at[k] < |members| && Leftover(members, taken)[k] == members[at[k]]
    ensures forall k, l :: 0 <= k < l < |at| ==> at[k] < at[l]
  {
    if members == [] {
      return [];
    }
    var last := |members| - 1;
    at := LeftoverInOrder(members[..last], taken);
    assert forall k :: 0 <= k < |at| ==> members[..last][at[k]] == members[at[k]];
    if members[last].email !in taken {
      assert Leftover(members, taken) == Leftover(members[..last], taken) + [members[last]];
      at := at + [last];
    }
  }

  /** Pick `k` is free, best and first among the best, given the picks before it. */
  ghost predicate ChosenAt(members: seq<Member>, roles: seq<string>, picks: seq<Option<nat>>, k: nat)
    requires k < |roles| == |picks|
  {
    Chosen(members, Taken(members, picks[..k]), roles[k], picks[k])
  }

  ghost predicate AllChosen(members: seq<Member>, roles: seq<string>, picks: seq<Option<nat>>) {
    |picks| == |roles| && forall k :: 0 <= k < |roles| ==> ChosenAt(members, roles, picks, k)
  }

  /** Pick `k` is the greedy one, given the picks before it. */
  predicate BestAt(members: seq<Member>, roles: seq<string>, picks: seq<Option<nat>>, k: nat)
    requires k < |roles| == |picks|
  {
    picks[k] == Best(members, Taken(members, picks[..k]), roles[k], |members|)
  }

  lemma {:induction false} PicksPrefix(members: seq<Member>, roles: seq<string>, picks: seq<Option<nat>>, k: nat)
    requires k <= |roles| == |picks|
    requires forall i :: 0 <= i < |roles| ==> BestAt(members, roles, picks, i)
    ensures picks[..k] == Picks(members, roles[..k])
  {
    if k > 0 {
      PicksPrefix(members, roles, picks, k - 1);
      assert BestAt(members, roles, picks, k - 1);
      Snoc(roles, k);
      Snoc(picks, k);
      PicksLast(members, roles[..k - 1], roles[k - 1]);
    }
  }

  lemma Snoc<T>(s: seq<T>, k: nat)
    requires 0 < k <= |s|
    ensures s[..k] == s[..k - 1] + [s[k - 1]]
  {
  }

  /** Any other way of choosing a free, best, first member role by role gives the same picks. */
  lemma PicksUnique(members: seq<Member>, roles: seq<string>, picks: seq<Option<nat>>)
    requires AllChosen(members, roles, picks)
    ensures picks == Picks(members, roles)
  {
    forall k | 0 <= k < |roles|
      ensures BestAt(members, roles, picks, k)
    {
      assert ChosenAt(members, roles, picks, k);
      ChosenIsBest(members, Taken(members, picks[..k]), roles[k], picks[k]);
    }
    PicksPrefix(members, roles, picks, |roles|);
    assert picks[..|roles|] == picks && roles[..|roles|] == roles;
  }

  lemma ChosenIsBest(members: seq<Member>, taken: set<string>, role: string, pick: Option<nat>)
    requires Chosen(members, taken, role, pick)
    ensures pick == Best(members, taken, role, |members|)
  {
    BestMeaning(members, taken, role, |members|);
  }

  ghost predicate Chosen(members: seq<Member>, taken: set<string>, role: string, pick: Option<nat>) {
    match pick
    case None => forall j :: 0 <= j < |members| && members[j].email !in taken ==> ScoreOf(members, j, role) <= -1
    case Some(i) =>
      && i < |members| && members[i].email !in taken && ScoreOf(members, i, role) > -1
      && forall j :: 0 <= j < |members| && members[j].email !in taken ==>
           && ScoreOf(members, j, role) <= ScoreOf(members, i, role)
           && (j < i ==> ScoreOf(members, j, role) < ScoreOf(members, i, role))
  }

  /** With someone assigned, marking makes exactly one admin: the first lead, or the first of all if none leads. */
  lemma AdminIsLead(assignments: seq<RoleAssignment>)
    requires assignments != [] && forall a :: a in assignments ==> !a.isAdmin
    ensures var marked := WithAdmin(assignments);
      && |marked| == |assignments|
      && (forall k :: 0 <= k < |marked| ==>
            && marked[k].member == assignments[k].member && marked[k].role == assignments[k].role
            && (marked[k].isAdmin <==>
                  if exists l :: 0 <= l < |assignments| && assignments[l].role in {"ops", "content"}
                  then assignments[k].role in {"ops", "content"}
                       && forall l :: 0 <= l < k ==> assignments[l].role !in {"ops", "content"}
                  else k == 0))
  {
    if exists k :: 0 <= k < |assignments| && Leads(assignments[k]) {
      FirstLeadFound(assignments);
    }
  }

  /** The assignments are the picks that found someone, each with its own role. */
  lemma {:induction false} AssignedExact(members: seq<Member>, roles: seq<string>, picks: seq<Option<nat>>,
      a: RoleAssignment)
    requires |roles| == |picks|
    requires forall k :: 0 <= k < |picks| && picks[k].Some? ==> picks[k].value < |members|
    ensures a in Assigned(members, roles, picks) <==>
      exists k :: 0 <= k < |picks| && picks[k].Some? && a == RoleAssignment(members[picks[k].value], roles[k], false)
  {
    if picks != [] {
      var last := |picks| - 1;
      var front := picks[..last];
      AssignedExact(members, roles[..last], front, a);
      assert forall k :: 0 <= k < last ==> front[k] == picks[k] && roles[..last][k] == roles[k];
    }
  }

  /** A required role is reported missing exactly when no assignment has it. */
  lemma {:induction false} MissingExact(required: seq<string>, assignments: seq<RoleAssignment>, role: string)
    ensures role in Unassigned(required, assignments) <==>
      role in required && forall k :: 0 <= k < |assignments| ==> assignments[k].role != role
  {
    if required != [] {
      var front, last := required[..|required| - 1], required[|required| - 1];
      assert required == front + [last];
      MissingExact(front, assignments, role);
    }
  }

  lemma {:induction false} FirstLeadFound(assignments: seq<RoleAssignment>)
    requires exists k :: 0 <= k < |assignments| && Leads(assignments[k])
    ensures var first := FirstLead(assignments);
      first < |assignments| && Leads(assignments[first]) && forall k :: 0 <= k < first ==> !Leads(assignments[k])
  {
    if !Leads(assignments[0]) {
      var k :| 0 <= k < |assignments| && Leads(assignments[k]);
      assert assignments[1..][k - 1] == assignments[k];
      FirstLeadFound(assignments[1..]);
    }
  }

  // ---- Scores and templates in full ----

  /** The skills that help in each role. */
  const HELPFUL: set<(string, string)> := {
    ("content", "writing"), ("content", "design"), ("content", "marketing"),
    ("ops", "communication"), ("ops", "organization"), ("ops", "project-management"),
    ("analytics", "data-analysis"), ("analytics", "statistics"), ("analytics", "visualization"),
    ("finance", "accounting"), ("finance", "budgeting"), ("finance", "spreadsheet"),
    ("build", "programming"), ("build", "devops"), ("build", "testing"),
    ("assistant", "communication"), ("assistant", "scheduling"), ("assistant", "research")
  }

  lemma PrerequisitesMeaning(role: string, skill: string)
    ensures skill in Prerequisites(role) <==> (role, skill) in HELPFUL
  {
  }

  /** The listed skills, by position, that help in the role. */
  function Helping(skills: seq<string>, role: string): set<nat> {
    set i: nat | i < |skills| && (role, Lower(skills[i])) in HELPFUL
  }

  lemma HelpingLast(skills: seq<string>, skill: string, role: string)
    ensures Helping(skills + [skill], role) ==
      Helping(skills, role) + if (role, Lower(skill)) in HELPFUL then {|skills|} else {}
  {
    var all := skills + [skill];
    assert all[|skills|] == skill;
    assert forall i :: 0 <= i < |skills| ==> all[i] == skills[i];
  }

  lemma {:induction false} MatchingSize(skills: seq<string>, role: string)
    ensures Matching(skills, role) == |Helping(skills, role)|
  {
    if skills != [] {
      var front, last := skills[..|skills| - 1], skills[|skills| - 1];
      MatchingSize(front, role);
      PrerequisitesMeaning(role, Lower(last));
      HelpingLast(front, last, role);
      assert skills == front + [last];
    }
  }

  /** Five points, two for each helpful skill, three for a preference and up to five for experience. */
  lemma ScoreMeaning(m: Member, role: string)
    ensures var points := Score(m, role) - 5 - 2 * |Helping(m.skills, role)| - if role in m.preferences then 3 else 0;
      points == if role !in m.experience then 0 else if m.experience[role] > 5 then 5 else m.experience[role]
  {
    MatchingSize(m.skills, role);
  }

  /** A template's roles, those it requires first. */
  function FullTeam(template: string): seq<string> {
    match template
    case "content-agency" => ["content", "ops", "analytics"]
    case "design-studio" => ["content", "ops", "finance"]
    case "ai-micro-saas" => ["build", "ops", "analytics", "finance"]
    case "full-squad" => ["content", "ops", "analytics", "finance", "build", "assistant"]
    case _ => ["build", "content", "ops", "analytics"]
  }

  /** With every template, as many roles are filled as there are members, from the front of its team. */
  lemma RolesFilledFromFront(n: nat, template: string)
    ensures var team := FullTeam(template);
      DetermineRoles(n, TemplateOf(template)) == if n <= |team| then team[..n] else team
  {
    var t, team := TemplateOf(template), FullTeam(template);
    assert t.required + t.optional == team && |t.required| <= |team| <= t.maxMembers;
    if n <= |t.required| {
      assert t.required[..n] == team[..n];
    } else if n <= |team| {
      assert t.required + t.optional[..n - |t.required|] == team[..n];
    }
  }
}
