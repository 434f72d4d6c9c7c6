/**
  The failover manager (`FailoverManager` in mesh_failover.py): a four-phase tick over node
  health, region health, partitions and recovery, plus the queue of messages held back for replay.

  The functions describe each phase on a `Snapshot`; the class runs the source's loops on its
  own fields and is proved against them.
*/
module Failover {
  import opened Options

  datatype FailoverState = Normal | Degraded | FailoverActive | Partition | Recovering

  datatype NodeStatus = Online | Unhealthy | Offline

  datatype NodeHealth = NodeHealth(region: string, status: NodeStatus, lastHeartbeat: Option<int>, failures: nat)

  datatype RegionStatus = AllOnline | SomeOnline | Isolated

  datatype RegionHealth = RegionHealth(status: RegionStatus, online: nat, total: nat)

  /** The events of the partition and recovery phases. */
  datatype PartitionEvent = Detected(isolated: set<string>) | Healed | Recovered

  datatype Message = Message(recipient: string, id: string)

  /** An entry of the mesh topology; a node that never reported has no heartbeat. */
  datatype MeshNode = MeshNode(role: string, region: string, lastHeartbeat: Option<int>)

  type Nodes = map<string, NodeHealth>
  type Regions = map<string, RegionHealth>

  /**
    `order` is the insertion order of the recipients in `pending`; `sent` is what was handed
    to the mesh's `send_message`; `log` holds the partition events of the history.
  */
  datatype Snapshot = Snapshot(
    state: FailoverState,
    nodes: Nodes,
    regions: Regions,
    order: seq<string>,
    pending: map<string, seq<Message>>,
    sent: seq<Message>,
    log: seq<PartitionEvent>)

  const INITIAL := Snapshot(Normal, map[], map[], [], map[], [], [])

  // ---- Node phase ----

  function HealthOf(nodes: Nodes, n: MeshNode): NodeHealth {
    if n.role in nodes then nodes[n.role] else NodeHealth(n.region, Online, None, 0)
  }

  predicate Late(n: MeshNode, now: int, timeout: int) {
    n.lastHeartbeat.Some? && now - n.lastHeartbeat.value > timeout
  }

  predicate Fresh(n: MeshNode, now: int, timeout: int) {
    n.lastHeartbeat.Some? && now - n.lastHeartbeat.value <= timeout
  }

  /** `_update_failover_state`. */
  function Overall(nodes: Nodes): FailoverState {
    var offline := |set r | r in nodes && nodes[r].status.Offline?|;
    if offline == 0 then Normal
    else if offline < |nodes| then Degraded
    else FailoverActive
  }

  function CheckNode(s: Snapshot, n: MeshNode, now: int, timeout: int): Snapshot {
    var health := HealthOf(s.nodes, n);
    if Late(n, now, timeout) then
      var failed := health.(failures := health.failures + 1);
      if health.status.Online? then
        s.(nodes := s.nodes[n.role := failed.(status := Unhealthy)])
      else if health.status.Unhealthy? && failed.failures >= 3 then
        var nodes := s.nodes[n.role := failed.(status := Offline)];
        s.(nodes := nodes, state := Overall(nodes))
      else
        s.(nodes := s.nodes[n.role := failed])
    else if Fresh(n, now, timeout) then
      s.(nodes := s.nodes[n.role := health.(status := Online, failures := 0, lastHeartbeat := n.lastHeartbeat)])
    else
      s.(nodes := s.nodes[n.role := health])
  }

  function CheckNodes(s: Snapshot, topology: seq<MeshNode>, now: int, timeout: int): Snapshot {
    if topology == [] then s
    else CheckNode(CheckNodes(s, topology[..|topology| - 1], now, timeout), topology[|topology| - 1], now, timeout)
  }

  // ---- Region phase ----

  function RegionIds(nodes: Nodes): set<string> {
    set r | r in nodes :: nodes[r].region
  }

  function Members(nodes: Nodes, region: string): set<string> {
    set r | r in nodes && nodes[r].region == region
  }

  function OnlineMembers(nodes: Nodes, region: string): set<string> {
    set r | r in nodes && nodes[r].region == region && nodes[r].status.Online?
  }

  function StatusOf(online: nat, total: nat): RegionStatus {
    if online == total then AllOnline else if online > 0 then SomeOnline else Isolated
  }

  function HealthOfRegion(nodes: Nodes, region: string): RegionHealth {
    var online, total := |OnlineMembers(nodes, region)|, |Members(nodes, region)|;
    RegionHealth(StatusOf(online, total), online, total)
  }

  function Rated(nodes: Nodes, ids: set<string>): Regions {
    map region | region in ids :: HealthOfRegion(nodes, region)
  }

  ghost predicate Has(regions: Regions, status: RegionStatus) {
    exists r :: r in regions && regions[r].status == status
  }

  function RegionsWith(regions: Regions, status: RegionStatus): set<string> {
    set r | r in regions && regions[r].status == status
  }

  ghost predicate AllHealthy(regions: Regions) {
    forall r :: r in regions ==> regions[r].status.AllOnline?
  }

  /** The region phase once the regions in `done` have been looked at. */
  ghost function RegionsRated(s: Snapshot, done: set<string>): Snapshot {
    s.(regions := s.regions + Rated(s.nodes, done),
       state := if Has(Rated(s.nodes, done), Isolated) && s.state != Partition then Degraded else s.state)
  }

  ghost function CheckRegions(s: Snapshot): Snapshot {
    RegionsRated(s, RegionIds(s.nodes))
  }

  // ---- Partition and recovery phases ----

  ghost function DetectPartitions(s: Snapshot): Snapshot {
    if s.state != Partition && Has(s.regions, Isolated) && Has(s.regions, AllOnline)
    then s.(state := Partition, log := s.log + [Detected(RegionsWith(s.regions, Isolated))])
    else s
  }

  function Flatten(order: seq<string>, pending: map<string, seq<Message>>): seq<Message>
    requires forall r :: r in order ==> r in pending
  {
    if order == [] then []
    else Flatten(order[..|order| - 1], pending) + pending[order[|order| - 1]]
  }

  ghost predicate QueueOk(s: Snapshot) {
    && (forall r :: r in s.order <==> r in s.pending)
    && (forall i, j :: 0 <= i < j < |s.order| ==> s.order[i] != s.order[j])
    && (forall r, k :: r in s.pending && 0 <= k < |s.pending[r]| ==> s.pending[r][k].recipient == r)
  }

  ghost function Recover(s: Snapshot): Snapshot
    requires QueueOk(s)
  {
    if s.state != Normal && AllHealthy(s.regions) then
      Snapshot(Normal, s.nodes, s.regions, [], map[], s.sent + Flatten(s.order, s.pending),
               if s.state == Partition then s.log + [Healed] else s.log + [Recovered])
    else s
  }

  ghost function Tick(s: Snapshot, topology: seq<MeshNode>, now: int, timeout: int): Snapshot
    requires QueueOk(s)
  {
    NodePhaseKeepsQueue(s, topology, now, timeout);
    Recover(DetectPartitions(CheckRegions(CheckNodes(s, topology, now, timeout))))
  }

  function Queue(s: Snapshot, m: Message): Snapshot {
    if m.recipient in s.pending
    then s.(pending := s.pending[m.recipient := s.pending[m.recipient] + [m]])
    else s.(order := s.order + [m.recipient], pending := s.pending[m.recipient := [m]])
  }

  lemma NodePhaseKeepsQueue(s: Snapshot, topology: seq<MeshNode>, now: int, timeout: int)
    ensures var t := CheckNodes(s, topology, now, timeout);
      t.order == s.order && t.pending == s.pending && t.sent == s.sent && t.log == s.log && t.regions == s.regions
  {
  }

  // ---- The manager ----

  class FailoverManager {
    const heartbeatTimeout: int
    var state: FailoverState
    var nodeHealth: Nodes
    var regionHealth: Regions
    var pendingOrder: seq<string>
    var pending: map<string, seq<Message>>
    var sent: seq<Message>
    var log: seq<PartitionEvent>

    ghost function Now(): Snapshot
      reads this
    {
      Snapshot(state, nodeHealth, regionHealth, pendingOrder, pending, sent, log)
    }

    constructor (heartbeatTimeout: int)
      ensures this.heartbeatTimeout == heartbeatTimeout && Now() == INITIAL
    {
      this.heartbeatTimeout := heartbeatTimeout;
      state, nodeHealth, regionHealth := Normal, map[], map[];
      pendingOrder, pending, sent, log := [], map[], [], [];
    }

    /** One pass of the monitor loop. */
    method MonitorOnce(topology: seq<MeshNode>, now: int)
      requires QueueOk(Now())
      modifies this
      ensures Now() == Tick(old(Now()), topology, now, heartbeatTimeout)
    {
      NodePhaseKeepsQueue(Now(), topology, now, heartbeatTimeout);
      CheckNodeHealth(topology, now);
      CheckRegionHealth();
      Detect();
      AttemptRecovery();
    }

    method CheckNodeHealth(topology: seq<MeshNode>, now: int)
      modifies this
      ensures Now() == CheckNodes(old(Now()), topology, now, heartbeatTimeout)
    {
      for i := 0 to |topology|
        invariant Now() == CheckNodes(old(Now()), topology[..i], now, heartbeatTimeout)
      {
        var node := topology[i];
        assert topology[..i + 1][..i] == topology[..i];
        var health := if node.role in nodeHealth then nodeHealth[node.role]
                      else NodeHealth(node.region, Online, None, 0);
        if node.lastHeartbeat.Some? {
          if now - node.lastHeartbeat.value > heartbeatTimeout {
            health := HandleNodeTimeout(node.role, health);
          } else {
            health := health.(status := Online, failures := 0, lastHeartbeat := node.lastHeartbeat);
          }
        }
        nodeHealth := nodeHealth[node.role := health];
      }
      assert topology[..|topology|] == topology;
    }

    /** The record is shared with `nodeHealth` once the role is known, so the recount sees the change. */
    method HandleNodeTimeout(role: string, health: NodeHealth) returns (updated: NodeHealth)
      requires role in nodeHealth ==> nodeHealth[role] == health
      requires role !in nodeHealth ==> health.status.Online?
      modifies this
      ensures updated.region == health.region && updated.lastHeartbeat == health.lastHeartbeat
      ensures updated.failures == health.failures + 1
      ensures updated.status ==
        if health.status.Online? then Unhealthy
        else if health.status.Unhealthy? && health.failures >= 2 then Offline
        else health.status
      ensures role in old(nodeHealth) ==> nodeHealth == old(nodeHealth)[role := updated]
      ensures role !in old(nodeHealth) ==> nodeHealth == old(nodeHealth)
      ensures state == if updated.status.Offline? && !health.status.Offline? then Overall(nodeHealth) else old(state)
      ensures Now() == old(Now()).(nodes := nodeHealth, state := state)
    {
      updated := health.(failures := health.failures + 1);
      var goesOffline := false;
      if updated.status.Online? {
        updated := updated.(status := Unhealthy);
      } else if updated.status.Unhealthy? && updated.failures >= 3 {
        updated := updated.(status := Offline);
        goesOffline := true;
      }
      if role in nodeHealth {
        nodeHealth := nodeHealth[role := updated];
      }
      if goesOffline {
        UpdateFailoverState();
      }
    }

    method UpdateFailoverState()
      modifies this`state
      ensures state == Overall(nodeHealth)
    {
      var offline := |set r | r in nodeHealth && nodeHealth[r].status.Offline?|;
      if offline == 0 {
        state := Normal;
      } else if offline < |nodeHealth| {
        state := Degraded;
      } else {
        state := FailoverActive;
      }
    }

    method CheckRegionHealth()
      modifies this`regionHealth, this`state
      ensures Now() == CheckRegions(old(Now()))
    {
      var regions := GroupByRegion();
      var left := regions.Keys;
      ghost var before, done, ids := Now(), {}, left;
      assert ids == RegionIds(nodeHealth);
      NothingRated(before);
      while left != {}
        invariant done + left == ids && done !! left
        invariant Now() == RegionsRated(before, done)
        decreases left
      {
        var regionId :| regionId in left;
        RateNext(before, done, regionId, regions[regionId]);
        left := left - {regionId};
        done := done + {regionId};
      }
      assert done == ids;
    }

    method RateNext(ghost before: Snapshot, ghost done: set<string>, regionId: string, members: set<string>)
      requires Now() == RegionsRated(before, done) && regionId !in done
      requires members == Members(nodeHealth, regionId)
      modifies this`regionHealth, this`state
      ensures Now() == RegionsRated(before, done + {regionId})
    {
      RatedStep(before, done, regionId);
      RateRegion(regionId, members);
    }

    method RateRegion(regionId: string, members: set<string>)
      requires members == Members(nodeHealth, regionId)
      modifies this`regionHealth, this`state
      ensures regionHealth == old(regionHealth)[regionId := HealthOfRegion(nodeHealth, regionId)]
      ensures state == if HealthOfRegion(nodeHealth, regionId).status.Isolated? && old(state) != Partition
                then Degraded else old(state)
    {
      var online := |set r | r in members && nodeHealth[r].status.Online?|;
      assert (set r | r in members && nodeHealth[r].status.Online?) == OnlineMembers(nodeHealth, regionId);
      var total := |members|;
      var status := if online == total then AllOnline else if online > 0 then SomeOnline else Isolated;
      regionHealth := regionHealth[regionId := RegionHealth(status, online, total)];
      if status == Isolated {
        if state != Partition {
          state := Degraded;
        }
      }
    }

    method GroupByRegion() returns (regions: map<string, set<string>>)
      ensures regions == map region | region in RegionIds(nodeHealth) :: Members(nodeHealth, region)
    {
      regions := map[];
      var roles := nodeHealth.Keys;
      while roles != {}
        invariant roles <= nodeHealth.Keys
        invariant regions.Keys == set r | r in nodeHealth.Keys - roles :: nodeHealth[r].region
        invariant forall region :: region in regions ==>
          regions[region] == set r | r in nodeHealth.Keys - roles && nodeHealth[r].region == region
        decreases roles
      {
        var role :| role in roles;
        var region := nodeHealth[role].region;
        if region !in regions {
          regions := regions[region := {}];
        }
        regions := regions[region := regions[region] + {role}];
        roles := roles - {role};
        assert nodeHealth.Keys - roles == nodeHealth.Keys - (roles + {role}) + {role};
      }
      assert nodeHealth.Keys - roles == nodeHealth.Keys;
      assert regions.Keys == RegionIds(nodeHealth);
      assert forall region :: region in regions ==> regions[region] == Members(nodeHealth, region);
    }

    method Detect()
      modifies this
      ensures Now() == DetectPartitions(old(Now()))
    {
      if state == Partition {
        return;
      }
      var healthy := |set r | r in regionHealth && regionHealth[r].status == AllOnline|;
      var isolated := |set r | r in regionHealth && regionHealth[r].status == Isolated|;
      CountMeansHas(regionHealth, AllOnline);
      CountMeansHas(regionHealth, Isolated);
      if isolated > 0 && healthy > 0 {
        state := Partition;
        log := log + [Detected(set r | r in regionHealth && regionHealth[r].status == Isolated)];
      }
    }

    method AttemptRecovery()
      requires QueueOk(Now())
      modifies this
      ensures Now() == Recover(old(Now()))
    {
      if state == Normal {
        return;
      }
      var allHealthy := forall r :: r in regionHealth ==> regionHealth[r].status == AllOnline;
      if allHealthy {
        var previous := state;
        state := Recovering;
        ReplayPendingMessages();
        state := Normal;
        if previous == Partition {
          log := log + [Healed];
        } else {
          log := log + [Recovered];
        }
      }
    }

    method ReplayPendingMessages()
      requires QueueOk(Now())
      modifies this`sent, this`pending, this`pendingOrder
      ensures sent == old(sent) + Flatten(old(pendingOrder), old(pending))
      ensures pendingOrder == [] && pending == map[]
    {
      for i := 0 to |pendingOrder|
        invariant pendingOrder == old(pendingOrder) && pending == old(pending)
        invariant sent == old(sent) + Flatten(pendingOrder[..i], pending)
      {
        var messages := pending[pendingOrder[i]];
        ghost var before := sent;
        for k := 0 to |messages|
          invariant pendingOrder == old(pendingOrder) && pending == old(pending)
          invariant sent == before + messages[..k]
        {
          sent := sent + [messages[k]];
        }
        assert pendingOrder[..i + 1][..i] == pendingOrder[..i];
        assert messages[..|messages|] == messages;
      }
      assert pendingOrder[..|pendingOrder|] == pendingOrder;
      pendingOrder, pending := [], map[];
    }

    method QueueMessage(m: Message)
      modifies this`pending, this`pendingOrder
      ensures Now() == Queue(old(Now()), m)
    {
      ghost var were := pending;
      if m.recipient !in pending {
        pending := pending[m.recipient := []];
        pendingOrder := pendingOrder + [m.recipient];
      }
      pending := pending[m.recipient := pending[m.recipient] + [m]];
      assert m.recipient !in were ==> pending[m.recipient] == [m];
      assert m.recipient !in were ==> pending == were[m.recipient := [m]];
    }
  }

  lemma CountMeansHas(regions: Regions, status: RegionStatus)
    ensures |set r | r in regions && regions[r].status == status| > 0 <==> Has(regions, status)
  {
    var rated := set r | r in regions && regions[r].status == status;
    if Has(regions, status) {
      var r :| r in regions && regions[r].status == status;
      assert r in rated;
    }
    if |rated| > 0 {
      var r :| r in rated;
      assert r in regions && regions[r].status == status;
    }
  }

  lemma HasAdded(regions: Regions, r: string, health: RegionHealth)
    requires r !in regions
    ensures Has(regions[r := health], Isolated) <==> Has(regions, Isolated) || health.status.Isolated?
  {
    var after := regions[r := health];
    assert after[r] == health;
    if Has(regions, Isolated) {
      var q :| q in regions && regions[q].status == Isolated;
      assert q in after && after[q].status == Isolated;
    }
  }

  lemma AddedLast(base: Regions, rated: Regions, r: string, health: RegionHealth)
    ensures base + rated[r := health] == (base + rated)[r := health]
  {
  }

  lemma RatedAdded(nodes: Nodes, done: set<string>, r: string)
    ensures Rated(nodes, done + {r}) == Rated(nodes, done)[r := HealthOfRegion(nodes, r)]
  {
  }

  lemma NothingRated(s: Snapshot)
    ensures RegionsRated(s, {}) == s
  {
    assert s.regions + Rated(s.nodes, {}) == s.regions;
  }

  lemma RatedStep(s: Snapshot, done: set<string>, r: string)
    requires r !in done
    ensures var before, after := RegionsRated(s, done), RegionsRated(s, done + {r});
      && after.regions == before.regions[r := HealthOfRegion(s.nodes, r)]
      && after.state == (if HealthOfRegion(s.nodes, r).status.Isolated? && before.state != Partition
                         then Degraded else before.state)
  {
    RatedAdded(s.nodes, done, r);
    HasAdded(Rated(s.nodes, done), r, HealthOfRegion(s.nodes, r));
    AddedLast(s.regions, Rated(s.nodes, done), r, HealthOfRegion(s.nodes, r));
  }
}
