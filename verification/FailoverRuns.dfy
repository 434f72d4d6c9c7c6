/**
  Properties of the failover manager over every run: any interleaving of monitor passes, each
  with its own topology and clock, and messages queued for later.
*/
module FailoverRuns {
  import opened Options
  import opened Failover

  datatype Input = Pass(topology: seq<MeshNode>, now: int) | Hold(m: Message)

  /** What holds between inputs: recorded regions are exactly those of the known nodes. */
  ghost predicate Sound(s: Snapshot) {
    QueueOk(s) && s.regions == Rated(s.nodes, RegionIds(s.nodes))
  }

  ghost function Step(s: Snapshot, input: Input, timeout: int): Snapshot
    requires QueueOk(s)
  {
    match input
    case Pass(topology, now) => Tick(s, topology, now, timeout)
    case Hold(m) => Queue(s, m)
  }

  ghost function Run(inputs: seq<Input>, timeout: int): (s: Snapshot)
    ensures Sound(s)
  {
    if inputs == [] then INITIAL
    else
      var s := Run(inputs[..|inputs| - 1], timeout);
      StepSound(s, inputs[|inputs| - 1], timeout);
      Step(s, inputs[|inputs| - 1], timeout)
  }

  // ---- Region status is exact after every pass ----

  /** A pass never forgets a node nor moves it to another region. */
  lemma CheckNodeNodes(s: Snapshot, n: MeshNode, now: int, timeout: int)
    ensures var t := CheckNode(s, n, now, timeout);
      && n.role in t.nodes && t.nodes == s.nodes[n.role := t.nodes[n.role]]
      && (n.role in s.nodes ==> t.nodes[n.role].region == s.nodes[n.role].region)
  {
  }

  lemma {:induction false} NodesKept(s: Snapshot, topology: seq<MeshNode>, now: int, timeout: int)
    ensures var t := CheckNodes(s, topology, now, timeout);
      forall r :: r in s.nodes ==> r in t.nodes && t.nodes[r].region == s.nodes[r].region
  {
    if topology != [] {
      var front, n := topology[..|topology| - 1], topology[|topology| - 1];
      NodesKept(s, front, now, timeout);
      CheckNodeNodes(CheckNodes(s, front, now, timeout), n, now, timeout);
    }
  }

  lemma RegionsExact(s: Snapshot, topology: seq<MeshNode>, now: int, timeout: int)
    requires Sound(s)
    ensures var t := CheckNodes(s, topology, now, timeout);
      CheckRegions(t).regions == Rated(t.nodes, RegionIds(t.nodes))
  {
    NodePhaseKeepsQueue(s, topology, now, timeout);
    NodesKept(s, topology, now, timeout);
    var t := CheckNodes(s, topology, now, timeout);
    forall region | region in RegionIds(s.nodes)
      ensures region in RegionIds(t.nodes)
    {
      var r :| r in s.nodes && s.nodes[r].region == region;
      assert r in t.nodes && t.nodes[r].region == region;
    }
    var exact := Rated(t.nodes, RegionIds(t.nodes));
    assert t.regions.Keys <= exact.Keys;
    Overwritten(t.regions, exact);
  }

  lemma Overwritten(old_: Regions, new_: Regions)
    requires old_.Keys <= new_.Keys
    ensures old_ + new_ == new_
  {
  }

  lemma StepSound(s: Snapshot, input: Input, timeout: int)
    requires Sound(s)
    ensures Sound(Step(s, input, timeout))
  {
    match input
    case Pass(topology, now) =>
      NodePhaseKeepsQueue(s, topology, now, timeout);
      RegionsExact(s, topology, now, timeout);
    case Hold(m) =>
      QueueKeepsOk(s, m);
  }

  lemma QueueKeepsOk(s: Snapshot, m: Message)
    requires QueueOk(s)
    ensures QueueOk(Queue(s, m))
  {
    var t := Queue(s, m);
    if m.recipient !in s.pending {
      assert t.order == s.order + [m.recipient];
      forall r
        ensures r in t.order <==> r in t.pending
      {
        assert r in t.order <==> r in s.order || r == m.recipient;
      }
    }
  }

  /** A region is never both healthy and isolated, and there is no third way to be all healthy. */
  lemma HealthyIsNotIsolated(nodes: Nodes)
    ensures var regions := Rated(nodes, RegionIds(nodes));
      && !(AllHealthy(regions) && Has(regions, Isolated))
      && (AllHealthy(regions) <==> forall r :: r in nodes ==> nodes[r].status.Online?)
      && (Has(regions, Isolated) <==> exists id :: id in RegionIds(nodes) && OnlineMembers(nodes, id) == {})
  {
    var regions := Rated(nodes, RegionIds(nodes));
    forall id | id in regions
      ensures regions[id].status.AllOnline? <==> Members(nodes, id) == OnlineMembers(nodes, id)
      ensures regions[id].status.Isolated? <==> OnlineMembers(nodes, id) == {}
    {
      Population(nodes, id);
    }
    if AllHealthy(regions) {
      forall r | r in nodes
        ensures nodes[r].status.Online?
      {
        var id := nodes[r].region;
        assert id in regions && r in Members(nodes, id);
      }
    }
    if exists id :: id in RegionIds(nodes) && OnlineMembers(nodes, id) == {} {
      var id :| id in RegionIds(nodes) && OnlineMembers(nodes, id) == {};
      assert id in regions && regions[id].status == Isolated;
    }
  }

  lemma Population(nodes: Nodes, id: string)
    requires id in RegionIds(nodes)
    ensures |Members(nodes, id)| > 0
    ensures |OnlineMembers(nodes, id)| == |Members(nodes, id)| <==> Members(nodes, id) == OnlineMembers(nodes, id)
    ensures |OnlineMembers(nodes, id)| == 0 <==> OnlineMembers(nodes, id) == {}
  {
    var r :| r in nodes && nodes[r].region == id;
    assert r in Members(nodes, id);
    SubsetSize(OnlineMembers(nodes, id), Members(nodes, id));
  }

  lemma SubsetSize(a: set<string>, b: set<string>)
    requires a <= b
    ensures |a| <= |b| && (|a| == |b| ==> a == b)
  {
    assert b == a + (b - a);
  }

  // ---- The state after a pass ----

  /**
    The exact outcome of a pass. The region status is that of the nodes after the node phase;
    the node phase's own verdict `mid` survives only when no region is isolated.
  */
  lemma PassOutcome(s: Snapshot, topology: seq<MeshNode>, now: int, timeout: int)
    requires Sound(s)
    ensures var t := Tick(s, topology, now, timeout);
      var mid := CheckNodes(s, topology, now, timeout).state;
      && t.nodes == CheckNodes(s, topology, now, timeout).nodes
      && t.regions == Rated(t.nodes, RegionIds(t.nodes))
      && t.state == if AllHealthy(t.regions) then Normal
                    else if !Has(t.regions, Isolated) then mid
                    else if Has(t.regions, AllOnline) || mid == Partition then Partition
                    else Degraded
  {
    NodePhaseKeepsQueue(s, topology, now, timeout);
    RegionsExact(s, topology, now, timeout);
    HealthyIsNotIsolated(CheckNodes(s, topology, now, timeout).nodes);
  }

  /** After any run that ended in a pass: isolation beside health is a partition, full health is normal. */
  lemma StateReflectsRegions(inputs: seq<Input>, topology: seq<MeshNode>, now: int, timeout: int)
    ensures var t := Run(inputs + [Pass(topology, now)], timeout);
      && (forall id :: id in RegionIds(t.nodes) ==>
            id in t.regions && t.regions[id] == HealthOfRegion(t.nodes, id))
      && t.regions.Keys == RegionIds(t.nodes)
      && (Has(t.regions, Isolated) && Has(t.regions, AllOnline) ==> t.state == Partition)
      && (Has(t.regions, Isolated) ==> t.state == Partition || t.state == Degraded)
      && (AllHealthy(t.regions) ==> t.state == Normal)
      && (t.state == FailoverActive ==> !Has(t.regions, Isolated))
      && t.state != Recovering
  {
    var all := inputs + [Pass(topology, now)];
    assert all[..|all| - 1] == inputs;
    PassOutcome(Run(inputs, timeout), topology, now, timeout);
    NeverRecovering(all, timeout);
    HealthyIsNotIsolated(Run(all, timeout).nodes);
  }

  lemma {:induction false} NodePhaseNeverRecovering(s: Snapshot, topology: seq<MeshNode>, now: int, timeout: int)
    requires s.state != Recovering
    ensures CheckNodes(s, topology, now, timeout).state != Recovering
  {
    if topology != [] {
      NodePhaseNeverRecovering(s, topology[..|topology| - 1], now, timeout);
    }
  }

  lemma {:induction false} NeverRecovering(inputs: seq<Input>, timeout: int)
    ensures Run(inputs, timeout).state != Recovering
  {
    if inputs != [] {
      var s := Run(inputs[..|inputs| - 1], timeout);
      NeverRecovering(inputs[..|inputs| - 1], timeout);
      match inputs[|inputs| - 1]
      case Pass(topology, now) =>
        NodePhaseNeverRecovering(s, topology, now, timeout);
        PassOutcome(s, topology, now, timeout);
      case Hold(m) =>
    }
  }

  // ---- Node status is a function of the trailing run of timeouts ----

  function StatusAfter(failures: nat): NodeStatus {
    if failures == 0 then Online else if failures < 3 then Unhealthy else Offline
  }

  /** Timeouts of `role` since its last fresh heartbeat, continuing from `failures`. */
  function TrailInPass(failures: nat, topology: seq<MeshNode>, now: int, timeout: int, role: string): nat {
    if topology == [] then failures
    else
      var before := TrailInPass(failures, topology[..|topology| - 1], now, timeout, role);
      var n := topology[|topology| - 1];
      if n.role != role || n.lastHeartbeat.None? then before
      else if now - n.lastHeartbeat.value > timeout then before + 1
      else 0
  }

  function Trail(inputs: seq<Input>, timeout: int, role: string): nat {
    if inputs == [] then 0
    else
      var before := Trail(inputs[..|inputs| - 1], timeout, role);
      match inputs[|inputs| - 1]
      case Pass(topology, now) => TrailInPass(before, topology, now, timeout, role)
      case Hold(_) => before
  }

  ghost predicate Tracks(nodes: Nodes, role: string, failures: nat) {
    if role in nodes
    then nodes[role].failures == failures && nodes[role].status == StatusAfter(failures)
    else failures == 0
  }

  lemma {:induction false} PassTracks(s: Snapshot, topology: seq<MeshNode>, now: int, timeout: int, role: string,
      failures: nat)
    requires Tracks(s.nodes, role, failures)
    ensures Tracks(CheckNodes(s, topology, now, timeout).nodes, role,
                   TrailInPass(failures, topology, now, timeout, role))
  {
    if topology != [] {
      PassTracks(s, topology[..|topology| - 1], now, timeout, role, failures);
    }
  }

  lemma {:induction false} StatusIsTrailingTimeouts(inputs: seq<Input>, timeout: int, role: string)
    ensures Tracks(Run(inputs, timeout).nodes, role, Trail(inputs, timeout, role))
  {
    if inputs != [] {
      var s := Run(inputs[..|inputs| - 1], timeout);
      StatusIsTrailingTimeouts(inputs[..|inputs| - 1], timeout, role);
      match inputs[|inputs| - 1]
      case Pass(topology, now) =>
        PassTracks(s, topology, now, timeout, role, Trail(inputs[..|inputs| - 1], timeout, role));
        PassOutcome(s, topology, now, timeout);
      case Hold(m) =>
    }
  }

  // ---- A silent node is found out ----

  /** The role is listed, and every heartbeat it is listed with is older than the timeout. */
  ghost predicate SilentIn(topology: seq<MeshNode>, now: int, timeout: int, role: string) {
    && (exists i :: 0 <= i < |topology| && topology[i].role == role)
    && forall i :: 0 <= i < |topology| && topology[i].role == role ==>
         topology[i].lastHeartbeat.Some? && now - topology[i].lastHeartbeat.value > timeout
  }

  lemma {:induction false} SilenceNeverShortens(failures: nat, topology: seq<MeshNode>, now: int, timeout: int,
      role: string)
    requires forall i :: 0 <= i < |topology| && topology[i].role == role ==>
               topology[i].lastHeartbeat.Some? && now - topology[i].lastHeartbeat.value > timeout
    ensures TrailInPass(failures, topology, now, timeout, role) >= failures
    ensures (exists i :: 0 <= i < |topology| && topology[i].role == role) ==>
              TrailInPass(failures, topology, now, timeout, role) > failures
  {
    if topology != [] {
      var front := topology[..|topology| - 1];
      assert forall i :: 0 <= i < |front| ==> front[i] == topology[i];
      SilenceNeverShortens(failures, front, now, timeout, role);
    }
  }

  function Passes(inputs: seq<Input>): nat {
    if inputs == [] then 0
    else Passes(inputs[..|inputs| - 1]) + if inputs[|inputs| - 1].Pass? then 1 else 0
  }

  ghost predicate SilentThroughout(inputs: seq<Input>, timeout: int, role: string) {
    forall k :: 0 <= k < |inputs| && inputs[k].Pass? ==> SilentIn(inputs[k].topology, inputs[k].now, timeout, role)
  }

  lemma {:induction false} SilenceCounts(before: seq<Input>, later: seq<Input>, timeout: int, role: string)
    requires SilentThroughout(later, timeout, role)
    ensures Trail(before + later, timeout, role) >= Passes(later)
  {
    if later != [] {
      var front, last := later[..|later| - 1], later[|later| - 1];
      assert forall k :: 0 <= k < |front| ==> front[k] == later[k];
      SilenceCounts(before, front, timeout, role);
      assert (before + later)[..|before + later| - 1] == before + front;
      assert (before + later)[|before + later| - 1] == last;
      if last.Pass? {
        assert last == later[|later| - 1];
        SilenceNeverShortens(Trail(before + front, timeout, role), last.topology, last.now, timeout, role);
      }
    }
  }

  /** After any run, a node whose heartbeats stay too old for three passes is offline, and the state is not normal. */
  lemma SilentNodeGoesOffline(before: seq<Input>, later: seq<Input>, timeout: int, role: string)
    requires SilentThroughout(later, timeout, role) && Passes(later) >= 3
    ensures var s := Run(before + later, timeout);
      role in s.nodes && s.nodes[role].status == Offline && s.nodes[role].failures >= 3 && s.state != Normal
  {
    SilenceCounts(before, later, timeout, role);
    StatusIsTrailingTimeouts(before + later, timeout, role);
    NormalMeansNoneOffline(before + later, timeout);
  }

  /** One heartbeat in time brings a node back, whatever it was before; a node keeps the region it was first seen in. */
  lemma FreshNodeIsOnline(before: seq<Input>, topology: seq<MeshNode>, n: MeshNode, now: int, timeout: int)
    requires n.lastHeartbeat.Some? && now - n.lastHeartbeat.value <= timeout
    requires forall i :: 0 <= i < |topology| ==> topology[i].role != n.role
    ensures var was, s := Run(before, timeout).nodes, Run(before + [Pass(topology + [n], now)], timeout);
      n.role in s.nodes && s.nodes[n.role] ==
        NodeHealth(if n.role in was then was[n.role].region else n.region, Online, n.lastHeartbeat, 0)
  {
    var all := before + [Pass(topology + [n], now)];
    assert all[..|all| - 1] == before && all[|all| - 1] == Pass(topology + [n], now);
    assert (topology + [n])[..|topology|] == topology && (topology + [n])[|topology|] == n;
    PassOutcome(Run(before, timeout), topology + [n], now, timeout);
    UnlistedUntouched(Run(before, timeout), topology, now, timeout, n.role);
  }

  /** After a pass every region of a known node is on record with how many of its nodes there are and are online. */
  lemma RegionFigures(inputs: seq<Input>, topology: seq<MeshNode>, now: int, timeout: int, id: string)
    ensures var t := Run(inputs + [Pass(topology, now)], timeout);
      var members := set r | r in t.nodes && t.nodes[r].region == id;
      var online := set r | r in t.nodes && t.nodes[r].region == id && t.nodes[r].status == Online;
      var status := if |online| == |members| then AllOnline else if |online| > 0 then SomeOnline else Isolated;
      && (id in t.regions <==> members != {})
      && (members != {} ==> t.regions[id] == RegionHealth(status, |online|, |members|))
  {
    var t := Run(inputs + [Pass(topology, now)], timeout);
    StateReflectsRegions(inputs, topology, now, timeout);
    var members := set r | r in t.nodes && t.nodes[r].region == id;
    var online := set r | r in t.nodes && t.nodes[r].region == id && t.nodes[r].status == Online;
    assert members == Members(t.nodes, id) && online == OnlineMembers(t.nodes, id);
    if r :| r in t.nodes && t.nodes[r].region == id {
      assert r in members;
    }
  }

  /** The recount in terms of the nodes: all, some or none of them offline. */
  lemma OverallMeaning(nodes: Nodes)
    ensures Overall(nodes) == Normal <==> forall r :: r in nodes ==> nodes[r].status != Offline
    ensures Overall(nodes) == FailoverActive
       <==> nodes != map[] && forall r :: r in nodes ==> nodes[r].status == Offline
    ensures Overall(nodes) == Normal || Overall(nodes) == Degraded || Overall(nodes) == FailoverActive
  {
    var offline := set r | r in nodes && nodes[r].status.Offline?;
    assert offline <= nodes.Keys && |nodes| == |nodes.Keys|;
    SubsetSize(offline, nodes.Keys);
    if r :| r in nodes && nodes[r].status == Offline {
      assert r in offline;
      assert |offline| > 0;
    }
    if offline != {} && |offline| == |nodes| {
      assert forall r :: r in nodes ==> r in offline;
    }
    if nodes != map[] && forall r :: r in nodes ==> nodes[r].status == Offline {
      assert offline == nodes.Keys;
      assert nodes.Keys != {};
    }
  }

  lemma {:induction false} NodePhaseNoneOffline(s: Snapshot, topology: seq<MeshNode>, now: int, timeout: int)
    requires s.state == Normal ==> forall r :: r in s.nodes ==> s.nodes[r].status != Offline
    ensures var t := CheckNodes(s, topology, now, timeout);
      t.state == Normal ==> forall r :: r in t.nodes ==> t.nodes[r].status != Offline
  {
    if topology != [] {
      var front, n := topology[..|topology| - 1], topology[|topology| - 1];
      NodePhaseNoneOffline(s, front, now, timeout);
      var mid := CheckNodes(s, front, now, timeout);
      var t := CheckNode(mid, n, now, timeout);
      CheckNodeState(mid, n, now, timeout);
      if t.state == Normal {
        assert mid.state == Normal;
        assert !HealthOf(mid.nodes, n).status.Offline?;
        assert !t.nodes[n.role].status.Offline?;
      }
    }
  }

  /** In every run, a normal state means that no known node is offline. */
  lemma {:induction false} NormalMeansNoneOffline(inputs: seq<Input>, timeout: int)
    ensures var s := Run(inputs, timeout);
      s.state == Normal ==> forall r :: r in s.nodes ==> s.nodes[r].status != Offline
  {
    if inputs != [] {
      var front, last := inputs[..|inputs| - 1], inputs[|inputs| - 1];
      var s := Run(front, timeout);
      NormalMeansNoneOffline(front, timeout);
      match last
      case Pass(topology, now) =>
        NodePhaseNoneOffline(s, topology, now, timeout);
        PassOutcome(s, topology, now, timeout);
        HealthyIsNotIsolated(Run(inputs, timeout).nodes);
      case Hold(m) =>
    }
  }

  // ---- Recovery ----

  lemma OfflineCounts(nodes: Nodes, role: string)
    requires role in nodes && nodes[role].status.Offline?
    ensures Overall(nodes) == Degraded || Overall(nodes) == FailoverActive
  {
    var offline := set r | r in nodes && nodes[r].status.Offline?;
    assert role in offline;
    assert |offline| > 0;
  }

  /** The recount runs only right after a node went offline, so its Normal branch is never taken. */
  lemma {:induction false} NodePhaseNeverRestores(s: Snapshot, topology: seq<MeshNode>, now: int, timeout: int)
    ensures CheckNodes(s, topology, now, timeout).state == Normal ==> s.state == Normal
  {
    if topology != [] {
      NodePhaseNeverRestores(s, topology[..|topology| - 1], now, timeout);
      var before := CheckNodes(s, topology[..|topology| - 1], now, timeout);
      var n := topology[|topology| - 1];
      var after := CheckNode(before, n, now, timeout);
      if after.state != before.state {
        OfflineCounts(after.nodes, n.role);
      }
    }
  }

  /** Normal is reached from another state exactly by a pass that finds every region healthy, and it replays all. */
  lemma NormalOnlyByRecovery(s: Snapshot, input: Input, timeout: int)
    requires Sound(s) && s.state != Normal
    ensures var t := Step(s, input, timeout);
      && (t.state == Normal <==> input.Pass? && AllHealthy(t.regions))
      && (t.state == Normal ==> t.pending == map[] && t.sent == s.sent + Flatten(s.order, s.pending))
      && (t.state != Normal ==> t.sent == s.sent)
  {
    match input
    case Pass(topology, now) =>
      NodePhaseKeepsQueue(s, topology, now, timeout);
      NodePhaseNeverRestores(s, topology, now, timeout);
      PassOutcome(s, topology, now, timeout);
    case Hold(m) =>
  }

  // ---- Leaving a partition without a heal event ----

  ghost predicate DistinctRoles(topology: seq<MeshNode>) {
    forall i, j :: 0 <= i < j < |topology| ==> topology[i].role != topology[j].role
  }

  ghost predicate NewlyOffline(before: Nodes, after: Nodes) {
    exists r :: r in before && r in after && !before[r].status.Offline? && after[r].status.Offline?
  }

  lemma {:induction false} UnlistedUntouched(s: Snapshot, topology: seq<MeshNode>, now: int, timeout: int, role: string)
    requires forall i :: 0 <= i < |topology| ==> topology[i].role != role
    ensures var t := CheckNodes(s, topology, now, timeout);
      (role in t.nodes <==> role in s.nodes) && (role in s.nodes ==> t.nodes[role] == s.nodes[role])
  {
    if topology != [] {
      UnlistedUntouched(s, topology[..|topology| - 1], now, timeout, role);
    }
  }

  lemma NewlyOfflineGrows(was: Nodes, mid: Nodes, role: string, health: NodeHealth)
    requires role in was ==> role in mid && mid[role] == was[role]
    ensures NewlyOffline(was, mid[role := health])
       <==> NewlyOffline(was, mid) || (role in was && !was[role].status.Offline? && health.status.Offline?)
  {
    var now := mid[role := health];
    if r :| r in was && r in mid && !was[r].status.Offline? && mid[r].status.Offline? {
      assert r in now && now[r].status.Offline?;
    }
    if r :| r in was && r in now && !was[r].status.Offline? && now[r].status.Offline? {
      assert r != role ==> r in mid && mid[r].status.Offline?;
    }
  }

  /** A check changes the state exactly when it takes its node offline, and then to what the count says. */
  lemma CheckNodeState(s: Snapshot, n: MeshNode, now: int, timeout: int)
    ensures var t := CheckNode(s, n, now, timeout);
      && n.role in t.nodes && t.nodes == s.nodes[n.role := t.nodes[n.role]]
      && if t.nodes[n.role].status.Offline? && !HealthOf(s.nodes, n).status.Offline?
         then n.role in s.nodes && (t.state == Degraded || t.state == FailoverActive)
         else t.state == s.state
  {
    var t := CheckNode(s, n, now, timeout);
    if t.nodes[n.role].status.Offline? {
      OfflineCounts(t.nodes, n.role);
    }
  }

  /** With each role listed once, the node phase keeps the state unless some node went offline. */
  lemma {:induction false} OnlyOfflineChangesState(s: Snapshot, topology: seq<MeshNode>, now: int, timeout: int)
    requires DistinctRoles(topology)
    ensures var t := CheckNodes(s, topology, now, timeout);
      if NewlyOffline(s.nodes, t.nodes)
      then t.state == Degraded || t.state == FailoverActive
      else t.state == s.state
  {
    if topology != [] {
      var front := topology[..|topology| - 1];
      var n := topology[|topology| - 1];
      OnlyOfflineChangesState(s, front, now, timeout);
      UnlistedUntouched(s, front, now, timeout, n.role);
      var mid := CheckNodes(s, front, now, timeout);
      CheckNodeState(mid, n, now, timeout);
      NewlyOfflineGrows(s.nodes, mid.nodes, n.role, CheckNode(mid, n, now, timeout).nodes[n.role]);
    }
  }

  /**
    PARTITION ends with a heal event exactly when every region is healthy. It is left silently
    exactly when a node goes offline and isolation no longer stands beside a healthy region.
  */
  lemma LeavingPartition(s: Snapshot, topology: seq<MeshNode>, now: int, timeout: int)
    requires Sound(s) && s.state == Partition && DistinctRoles(topology)
    ensures var t := Tick(s, topology, now, timeout);
      && (t.state == Normal <==> t.log == s.log + [Healed])
      && (t.state != Partition && t.log == s.log <==>
            NewlyOffline(s.nodes, t.nodes) && !(Has(t.regions, Isolated) && Has(t.regions, AllOnline)))
  {
    NodePhaseKeepsQueue(s, topology, now, timeout);
    PassOutcome(s, topology, now, timeout);
    OnlyOfflineChangesState(s, topology, now, timeout);
    var t := Tick(s, topology, now, timeout);
    HealthyIsNotIsolated(t.nodes);
    if NewlyOffline(s.nodes, t.nodes) {
      var r :| r in s.nodes && r in t.nodes && !s.nodes[r].status.Offline? && t.nodes[r].status.Offline?;
      assert !t.nodes[r].status.Online?;
      assert !AllHealthy(t.regions);
    }
    var detected := Detected(RegionsWith(t.regions, Isolated));
    assert (s.log + [detected])[|s.log|] == detected && (s.log + [Recovered])[|s.log|] == Recovered;
    assert (s.log + [Healed])[|s.log|] == Healed;
  }

  // ---- Queued messages are conserved ----

  function To(recipient: string, messages: seq<Message>): seq<Message> {
    if messages == [] then []
    else
      var m := messages[|messages| - 1];
      To(recipient, messages[..|messages| - 1]) + if m.recipient == recipient then [m] else []
  }

  function Queued(inputs: seq<Input>): seq<Message> {
    if inputs == [] then []
    else
      Queued(inputs[..|inputs| - 1]) +
      Arrived(inputs[|inputs| - 1])
  }

  function Arrived(input: Input): seq<Message> {
    match input
    case Pass(_, _) => []
    case Hold(m) => [m]
  }

  function Waiting(s: Snapshot, recipient: string): seq<Message> {
    if recipient in s.pending then s.pending[recipient] else []
  }

  lemma {:induction false} ToConcat(recipient: string, a: seq<Message>, b: seq<Message>)
    ensures To(recipient, a + b) == To(recipient, a) + To(recipient, b)
  {
    if b == [] {
      assert a + b == a;
    } else {
      assert (a + b)[..|a + b| - 1] == a + b[..|b| - 1];
      ToConcat(recipient, a, b[..|b| - 1]);
    }
  }

  lemma {:induction false} ToOneRecipient(recipient: string, of: string, messages: seq<Message>)
    requires forall k :: 0 <= k < |messages| ==> messages[k].recipient == of
    ensures To(recipient, messages) == if recipient == of then messages else []
  {
    if messages != [] {
      ToOneRecipient(recipient, of, messages[..|messages| - 1]);
      assert messages == messages[..|messages| - 1] + [messages[|messages| - 1]];
    }
  }

  ghost predicate Distinct(order: seq<string>) {
    forall i, j :: 0 <= i < j < |order| ==> order[i] != order[j]
  }

  ghost predicate Addressed(recipient: string, messages: seq<Message>) {
    forall k :: 0 <= k < |messages| ==> messages[k].recipient == recipient
  }

  /** Replaying recipient by recipient keeps each recipient's own queue order. */
  lemma {:induction false} ReplayPerRecipient(order: seq<string>, pending: map<string, seq<Message>>, recipient: string)
    requires Distinct(order)
    requires forall r :: r in order ==> r in pending && Addressed(r, pending[r])
    ensures To(recipient, Flatten(order, pending)) == if recipient in order then pending[recipient] else []
  {
    if order != [] {
      var front, last := order[..|order| - 1], order[|order| - 1];
      assert order == front + [last];
      assert forall r :: r in front ==> r in order;
      ReplayPerRecipient(front, pending, recipient);
      ToConcat(recipient, Flatten(front, pending), pending[last]);
      ToOneRecipient(recipient, last, pending[last]);
      assert last !in front;
    }
  }

  lemma {:induction false} RecoveryConserves(s: Snapshot, recipient: string)
    requires QueueOk(s)
    ensures var t := Recover(s);
      To(recipient, s.sent) + Waiting(s, recipient) == To(recipient, t.sent) + Waiting(t, recipient)
  {
    if s.state != Normal && AllHealthy(s.regions) {
      forall r | r in s.order
        ensures r in s.pending && Addressed(r, s.pending[r])
      {
      }
      ReplayPerRecipient(s.order, s.pending, recipient);
      ToConcat(recipient, s.sent, Flatten(s.order, s.pending));
    }
  }

  lemma PassConserves(s: Snapshot, topology: seq<MeshNode>, now: int, timeout: int, recipient: string)
    requires QueueOk(s)
    ensures var t := Tick(s, topology, now, timeout);
      To(recipient, s.sent) + Waiting(s, recipient) == To(recipient, t.sent) + Waiting(t, recipient)
  {
    NodePhaseKeepsQueue(s, topology, now, timeout);
    RecoveryConserves(DetectPartitions(CheckRegions(CheckNodes(s, topology, now, timeout))), recipient);
  }

  lemma HoldConserves(s: Snapshot, m: Message, recipient: string)
    ensures var t := Queue(s, m);
      t.sent == s.sent && Waiting(t, recipient) == Waiting(s, recipient) + To(recipient, [m])
  {
    assert [m][..0] == [];
    assert To(recipient, [m]) == if m.recipient == recipient then [m] else [];
  }

  lemma StepConserves(s: Snapshot, input: Input, timeout: int, recipient: string)
    requires QueueOk(s)
    ensures var t := Step(s, input, timeout);
      To(recipient, s.sent) + Waiting(s, recipient) + To(recipient, Arrived(input))
      == To(recipient, t.sent) + Waiting(t, recipient)
  {
    match input
    case Pass(topology, now) => PassConserves(s, topology, now, timeout, recipient);
    case Hold(m) => HoldConserves(s, m, recipient);
  }

  /** What was queued for a recipient is what was replayed to it followed by what still waits, in order. */
  lemma {:induction false} MessagesConserved(inputs: seq<Input>, timeout: int, recipient: string)
    ensures var s := Run(inputs, timeout);
      To(recipient, Queued(inputs)) == To(recipient, s.sent) + Waiting(s, recipient)
  {
    if inputs != [] {
      var front, last := inputs[..|inputs| - 1], inputs[|inputs| - 1];
      MessagesConserved(front, timeout, recipient);
      StepConserves(Run(front, timeout), last, timeout, recipient);
      ToConcat(recipient, Queued(front), Arrived(last));
    }
  }
}
