/**
  The squad mesh as a message protocol: the coordinator (mesh.py), the war-room decisions
  (bridge_cli.py) and the inbox poller (claw_launcher.py), all working on one directory tree.

  A directory is a map from file name to file. The functions give each operation's effect on
  the tree; the classes run the source's statements on their fields and are proved against them;
  `Next` interleaves everything as one transition system, with the drain's "write target" and
  "unlink source" as two separate steps.
*/
module Mesh {
  import opened Options
  import opened Listings

  type Role = string

  const WAR_ROOM: Role := "war_room"

  /** `name` is the file name the source builds from the timestamp and the message id. */
  datatype Message =
    Message(name: Name, sender: Role, recipient: Role, kind: string, payload: string, squad: string)

  /** What every file about a message repeats, a rejection notice included. */
  datatype Envelope = Envelope(name: Name, sender: Role, recipient: Role, kind: string)

  function EnvelopeOf(m: Message): Envelope {
    Envelope(m.name, m.sender, m.recipient, m.kind)
  }

  /** Why a message was refused: by `send_message`, or (the last one) by the drain. */
  datatype Refusal = Invalid(reason: string) | Unknown | NotReady(status: string) | Undeliverable

  /**
    The two kinds of file. `flag` is `needs_approval`, which outbox files lack. A notice has
    neither the payload nor the squad id of the message it is about.
  */
  datatype File = Whole(m: Message, flag: Option<bool>) | Notice(about: Envelope, reason: Refusal)

  /** The message a reader reconstructs; the empty string stands for the defaults of absent fields. */
  function Read(f: File): Message {
    match f
    case Whole(m, _) => m
    case Notice(e, _) => Message(e.name, e.sender, e.recipient, e.kind, "", "")
  }

  function FileEnvelope(f: File): Envelope {
    EnvelopeOf(Read(f))
  }

  /** The contract validator, uninterpreted: the reason a message is invalid, and whose kind needs approval. */
  datatype Contract = Contract(validate: Message -> Option<string>, requiresApproval: string -> bool)

  datatype ClawNode = ClawNode(address: string, status: string, lastHeartbeat: Option<int>, failures: nat)

  datatype Place =
    | Outbox
    | Inbox(role: Role)
    | Rejected
    | Delivered
    | Processed(role: Role)
    | Gateway  // accepted by the gateway adapter

  type Dir = map<Name, File>
  type Files = map<Place, Dir>

  datatype Core = Core(nodes: map<Role, ClawNode>, files: Files, gatewayUp: bool)

  // ---- The directory tree ----

  function DirOf(files: Files, p: Place): Dir {
    if p in files then files[p] else map[]
  }

  function Put(files: Files, p: Place, n: Name, f: File): Files {
    files[p := DirOf(files, p)[n := f]]
  }

  function Remove(files: Files, p: Place, n: Name): Files {
    files[p := DirOf(files, p) - {n}]
  }

  /** Renaming a file onto itself changes nothing. */
  function Rename(files: Files, p: Place, n: Name, q: Place): Files
    requires n in DirOf(files, p)
  {
    if p == q then files
    else Remove(Put(files, q, n, DirOf(files, p)[n]), p, n)
  }

  // ---- Coordinator steps ----

  predicate Available(node: ClawNode) {
    node.status == "online" || node.status == "finals-mode"
  }

  /** Must the message be approved in the war room before it may go on? */
  predicate Held(c: Contract, m: Message) {
    c.requiresApproval(m.kind) && m.recipient != WAR_ROOM
  }

  /** The first objection `send_message` has, if any. */
  function Objection(c: Contract, core: Core, m: Message): Option<Refusal> {
    if c.validate(m).Some? then Some(Invalid(c.validate(m).value))
    else if m.recipient == WAR_ROOM then None
    else if m.recipient !in core.nodes then Some(Unknown)
    else if !Available(core.nodes[m.recipient]) then Some(NotReady(core.nodes[m.recipient].status))
    else None
  }

  predicate Accepts(c: Contract, core: Core, m: Message) {
    Objection(c, core, m).None?
  }

  /** A file on its way to a place. */
  datatype Delivery = Delivery(place: Place, file: File)

  function Sending(c: Contract, core: Core, m: Message): Delivery {
    var objection := Objection(c, core, m);
    if objection.Some? then Delivery(Rejected, Notice(EnvelopeOf(m), objection.value))
    else Delivery(Outbox, Whole(m, None))
  }

  function Send(c: Contract, core: Core, m: Message): Core {
    var d := Sending(c, core, m);
    core.(files := Put(core.files, d.place, m.name, d.file))
  }

  /** The drain refuses a message that may go on but whose recipient is no longer known. */
  predicate Refuses(c: Contract, core: Core, m: Message) {
    !Held(c, m) && m.recipient != WAR_ROOM && m.recipient !in core.nodes
  }

  /** What the drain would write for a message and where, or nothing if the message has to wait. */
  function Target(c: Contract, core: Core, m: Message, gatewayAccepts: bool): Option<Delivery> {
    var onward := Whole(m, Some(c.requiresApproval(m.kind)));
    if Held(c, m) then Some(Delivery(Inbox(WAR_ROOM), onward))
    else if Refuses(c, core, m) then Some(Delivery(Rejected, Notice(EnvelopeOf(m), Undeliverable)))
    else if m.recipient != WAR_ROOM && !Available(core.nodes[m.recipient]) then None
    else if core.gatewayUp then (if gatewayAccepts then Some(Delivery(Gateway, onward)) else None)
    else Some(Delivery(Inbox(m.recipient), onward))
  }

  function UnlinkSource(core: Core, n: Name): Core {
    core.(files := Remove(core.files, Outbox, n))
  }

  /** One uninterrupted pass of the drain loop over an outbox listing. */
  function DrainAll(c: Contract, core: Core, todo: seq<Name>, gatewayAccepts: Message -> bool): Core
    decreases |todo|
  {
    if todo == [] then core
    else if todo[0] !in DirOf(core.files, Outbox) then
      DrainAll(c, UnlinkSource(core, todo[0]), todo[1..], gatewayAccepts)
    else
      var m := Read(DirOf(core.files, Outbox)[todo[0]]);
      var target := Target(c, core, m, gatewayAccepts(m));
      if target.None? then core
      else
        var written := core.(files := Put(core.files, target.value.place, m.name, target.value.file));
        DrainAll(c, UnlinkSource(written, todo[0]), todo[1..], gatewayAccepts)
  }

  function Register(core: Core, role: Role, address: string): Core {
    core.(nodes := core.nodes[role := ClawNode(address, "online", None, 0)])
  }

  function Unregister(core: Core, role: Role): Core {
    core.(nodes := core.nodes - {role})
  }

  function Heartbeat(core: Core, role: Role, now: int): Core {
    if role !in core.nodes then core
    else
      var node := core.nodes[role];
      core.(nodes := core.nodes[role := ClawNode(node.address,
                                                 if node.status == "unhealthy" then "online" else node.status,
                                                 Some(now), 0)])
  }

  function MarkUnhealthy(core: Core, role: Role): Core {
    if role !in core.nodes then core
    else
      var node := core.nodes[role];
      core.(nodes := core.nodes[role := node.(status := "unhealthy", failures := node.failures + 1)])
  }

  function SetStatus(core: Core, role: Role, status: string): Core {
    if role !in core.nodes then core
    else core.(nodes := core.nodes[role := core.nodes[role].(status := status)])
  }

  function Move(core: Core, p: Place, n: Name, q: Place): Core {
    if n in DirOf(core.files, p) then core.(files := Rename(core.files, p, n, q)) else core
  }

  // ---- The coordinator ----

  class MeshCoordinator {
    const contract: Contract
    var nodes: map<Role, ClawNode>
    var files: Files
    var gatewayUp: bool

    ghost function Now(): Core
      reads this
    {
      Core(nodes, files, gatewayUp)
    }

    constructor (contract: Contract)
      ensures this.contract == contract && Now() == Core(map[], map[], false)
    {
      this.contract := contract;
      nodes, files, gatewayUp := map[], map[], false;
    }

    method RegisterClaw(role: Role, address: string)
      modifies this`nodes
      ensures Now() == Register(old(Now()), role, address)
    {
      nodes := nodes[role := ClawNode(address, "online", None, 0)];
    }

    method UnregisterClaw(role: Role) returns (known: bool)
      modifies this`nodes
      ensures known == (role in old(nodes)) && Now() == Unregister(old(Now()), role)
    {
      if role !in nodes {
        assert nodes - {role} == nodes;
        return false;
      }
      nodes := nodes - {role};
      return true;
    }

    method RecordHeartbeat(role: Role, now: int) returns (known: bool)
      modifies this`nodes
      ensures known == (role in old(nodes)) && Now() == Heartbeat(old(Now()), role, now)
    {
      if role !in nodes {
        return false;
      }
      var node := nodes[role].(lastHeartbeat := Some(now), failures := 0);
      if node.status == "unhealthy" {
        node := node.(status := "online");
      }
      nodes := nodes[role := node];
      return true;
    }

    method MarkClawUnhealthy(role: Role)
      modifies this`nodes
      ensures Now() == MarkUnhealthy(old(Now()), role)
    {
      if role in nodes {
        var node := nodes[role];
        nodes := nodes[role := node.(failures := node.failures + 1, status := "unhealthy")];
      }
    }

    method SetClawStatus(role: Role, status: string) returns (known: bool)
      modifies this`nodes
      ensures known == (role in old(nodes)) && Now() == SetStatus(old(Now()), role, status)
    {
      if role !in nodes {
        return false;
      }
      nodes := nodes[role := nodes[role].(status := status)];
      return true;
    }

    /** Queues the whole message in the outbox, or files a notice with the reason under `rejected`. */
    method SendMessage(m: Message) returns (objection: Option<Refusal>, needsApproval: bool)
      modifies this`files
      ensures Now() == Send(contract, old(Now()), m)
      ensures objection == Objection(contract, old(Now()), m)
      ensures needsApproval == (objection.None? && contract.requiresApproval(m.kind))
    {
      var invalid := contract.validate(m);
      if invalid.Some? {
        WriteRejected(m, Invalid(invalid.value));
        return Some(Invalid(invalid.value)), false;
      }
      if m.recipient != WAR_ROOM {
        if m.recipient !in nodes {
          WriteRejected(m, Unknown);
          return Some(Unknown), false;
        }
        if !Available(nodes[m.recipient]) {
          var refusal := NotReady(nodes[m.recipient].status);
          WriteRejected(m, refusal);
          return Some(refusal), false;
        }
      }
      WriteFile(Outbox, m.name, Whole(m, None));
      return None, contract.requiresApproval(m.kind);
    }

    /** The notice repeats the envelope and gives the reason; payload and squad id are not written. */
    method WriteRejected(m: Message, reason: Refusal)
      modifies this`files
      ensures files == Put(old(files), Rejected, m.name, Notice(EnvelopeOf(m), reason))
    {
      WriteFile(Rejected, m.name, Notice(Envelope(m.name, m.sender, m.recipient, m.kind), reason));
    }

    method WriteFile(p: Place, n: Name, f: File)
      modifies this`files
      ensures files == Put(old(files), p, n, f)
    {
      var dir := if p in files then files[p] else map[];
      files := files[p := dir[n := f]];
    }

    /** One pass of `_process_outbox` over a fresh listing, with no other actor interleaved. */
    method ProcessOutbox(gatewayAccepts: Message -> bool)
      modifies this`files
      ensures Now() == DrainAll(contract, old(Now()), Sorted(DirOf(old(files), Outbox).Keys), gatewayAccepts)
    {
      var batch := Sorted((if Outbox in files then files[Outbox] else map[]).Keys);
      for i := 0 to |batch|
        invariant DrainAll(contract, old(Now()), batch, gatewayAccepts)
            == DrainAll(contract, Now(), batch[i..], gatewayAccepts)
      {
        var name := batch[i];
        assert batch[i..][0] == name && batch[i..][1..] == batch[i + 1..];
        if Outbox in files && name in files[Outbox] {
          var m := Read(files[Outbox][name]);
          var delivered := Transmit(m, gatewayAccepts(m));
          if !delivered {
            return;
          }
        }
        files := files[Outbox := (if Outbox in files then files[Outbox] else map[]) - {name}];
      }
    }

    /** Writes the message's next file; false when the recipient or the gateway is not ready. */
    method Transmit(m: Message, gatewayAccepts: bool) returns (delivered: bool)
      modifies this`files
      ensures var target := Target(contract, old(Now()), m, gatewayAccepts);
        && delivered == target.Some?
        && files == if target.Some? then Put(old(files), target.value.place, m.name, target.value.file) else old(files)
    {
      var needsApproval := contract.requiresApproval(m.kind);
      if needsApproval && m.recipient != WAR_ROOM {
        WriteFile(Inbox(WAR_ROOM), m.name, Whole(m, Some(true)));
        return true;
      }
      if m.recipient != WAR_ROOM {
        if m.recipient !in nodes {
          WriteRejected(m, Undeliverable);
          return true;
        }
        if !Available(nodes[m.recipient]) {
          return false;
        }
      }
      if gatewayUp {
        if gatewayAccepts {
          WriteFile(Gateway, m.name, Whole(m, Some(needsApproval)));
        }
        return gatewayAccepts;
      }
      WriteFile(Inbox(m.recipient), m.name, Whole(m, Some(needsApproval)));
      return true;
    }

    /** Moves the first file the pattern of the id matches, in whatever order the directory is listed. */
    method AckMessage(role: Role, pattern: Name -> bool) returns (found: Option<Name>)
      modifies this`files
      ensures FoundIn(old(files), Inbox(role), pattern, found)
      ensures Now() == if found.Some? then Move(old(Now()), Inbox(role), found.value, Delivered) else old(Now())
    {
      found := FindFile(Inbox(role), pattern);
      if found.Some? {
        var moved := RenameFile(Inbox(role), found.value, Delivered);
      }
    }

    method FindFile(p: Place, pattern: Name -> bool) returns (found: Option<Name>)
      ensures FoundIn(files, p, pattern, found)
    {
      var dir := if p in files then files[p] else map[];
      if n :| n in dir && pattern(n) {
        return Some(n);
      }
      return None;
    }

    method RenameFile(p: Place, name: Name, q: Place) returns (found: bool)
      modifies this`files
      ensures found == (name in DirOf(old(files), p))
      ensures Now() == Move(old(Now()), p, name, q)
    {
      if p !in files || name !in files[p] {
        return false;
      }
      if p != q {
        var f := files[p][name];
        files := files[q := (if q in files then files[q] else map[])[name := f]];
        files := files[p := files[p] - {name}];
      }
      return true;
    }
  }

  /** A search result: some file the pattern matches, or nothing when there is none. */
  ghost predicate FoundIn(files: Files, p: Place, pattern: Name -> bool, found: Option<Name>) {
    match found
    case Some(n) => n in DirOf(files, p) && pattern(n)
    case None => forall n :: n in DirOf(files, p) ==> !pattern(n)
  }

  // ---- War-room decisions ----

  function Approve(core: Core, n: Name): Core {
    var held := DirOf(core.files, Inbox(WAR_ROOM));
    if n in held then Move(core, Inbox(WAR_ROOM), n, Inbox(Read(held[n]).recipient)) else core
  }

  /** The pattern is the match of an action id against file names; no match is the source's error. */
  method HandleApproveAction(mesh: MeshCoordinator, pattern: Name -> bool) returns (found: Option<Name>)
    modifies mesh`files
    ensures FoundIn(old(mesh.files), Inbox(WAR_ROOM), pattern, found)
    ensures mesh.Now() == if found.Some? then Approve(old(mesh.Now()), found.value) else old(mesh.Now())
  {
    found := mesh.FindFile(Inbox(WAR_ROOM), pattern);
    if found.Some? {
      var m := Read(mesh.files[Inbox(WAR_ROOM)][found.value]);
      var moved := mesh.RenameFile(Inbox(WAR_ROOM), found.value, Inbox(m.recipient));
    }
  }

  method HandleVetoAction(mesh: MeshCoordinator, pattern: Name -> bool) returns (found: Option<Name>)
    modifies mesh`files
    ensures FoundIn(old(mesh.files), Inbox(WAR_ROOM), pattern, found)
    ensures mesh.Now() ==
      if found.Some? then Move(old(mesh.Now()), Inbox(WAR_ROOM), found.value, Rejected) else old(mesh.Now())
  {
    found := mesh.FindFile(Inbox(WAR_ROOM), pattern);
    if found.Some? {
      var moved := mesh.RenameFile(Inbox(WAR_ROOM), found.value, Rejected);
    }
  }

  // ---- The inbox poller ----

  /** One invocation of a claw's message handler. */
  datatype Handling = Handling(role: Role, lifetime: nat, name: Name, file: File)

  /** One uninterrupted check of an inbox over a listing. */
  datatype Polled = Polled(files: Files, processed: set<Name>, handled: seq<File>)

  function PollOne(role: Role, p: Polled, n: Name): Polled {
    var inbox := DirOf(p.files, Inbox(role));
    if n in p.processed || n !in inbox then p
    else Polled(Rename(p.files, Inbox(role), n, Processed(role)), p.processed + {n}, p.handled + [inbox[n]])
  }

  function PollAll(role: Role, p: Polled, todo: seq<Name>): Polled
    decreases |todo|
  {
    if todo == [] then p else PollAll(role, PollOne(role, p, todo[0]), todo[1..])
  }

  class InboxPoller {
    const role: Role
    const mesh: MeshCoordinator
    var processed: set<Name>
    var handled: seq<File>

    constructor (role: Role, mesh: MeshCoordinator)
      ensures this.role == role && this.mesh == mesh && processed == {} && handled == []
    {
      this.role, this.mesh := role, mesh;
      processed, handled := {}, [];
    }

    method CheckInbox()
      modifies this, mesh`files
      ensures Polled(mesh.files, processed, handled) ==
        PollAll(role, old(Polled(mesh.files, processed, handled)), Sorted(DirOf(old(mesh.files), Inbox(role)).Keys))
    {
      var names := Sorted((if Inbox(role) in mesh.files then mesh.files[Inbox(role)] else map[]).Keys);
      for i := 0 to |names|
        invariant PollAll(role, old(Polled(mesh.files, processed, handled)), names)
               == PollAll(role, Polled(mesh.files, processed, handled), names[i..])
      {
        assert names[i..][0] == names[i] && names[i..][1..] == names[i + 1..];
        CheckFile(names[i]);
      }
    }

    /** A file that vanished since the listing fails to be read, and is skipped. */
    method CheckFile(name: Name)
      modifies this, mesh`files
      ensures Polled(mesh.files, processed, handled) == PollOne(role, old(Polled(mesh.files, processed, handled)), name)
    {
      if name !in processed {
        var inbox := if Inbox(role) in mesh.files then mesh.files[Inbox(role)] else map[];
        if name in inbox {
          handled := handled + [inbox[name]];
          processed := processed + {name};
          var moved := mesh.RenameFile(Inbox(role), name, Processed(role));
        }
      }
    }
  }

  // ---- The protocol as a transition system ----

  /** A poller's volatile state; `current` is the file between handling and archiving. */
  datatype Poller = Poller(lifetime: nat, processed: set<Name>, current: Option<Name>)

  /**
    `batch` is what is left of the drain thread's listing, `unlinking` the file whose target is
    written but whose source is not yet removed, and `refusing` the message if that target is a
    notice. `accepted`, `approved`, `handled` and `refused` (by a completed turn of the drain)
    record what happened so far.
  */
  datatype State = State(
    core: Core,
    batch: seq<Name>,
    unlinking: Option<Name>,
    refusing: Option<Message>,
    pollers: map<Role, Poller>,
    accepted: set<Message>,
    approved: set<Message>,
    handled: seq<Handling>,
    refused: set<Message>)

  const START := State(Core(map[], map[], false), [], None, None, map[], {}, {}, [], {})

  datatype Step =
    | DoRegister(role: Role, address: string)
    | DoUnregister(role: Role)
    | DoHeartbeat(role: Role, now: int)
    | DoMarkUnhealthy(role: Role)
    | DoSetStatus(role: Role, status: string)
    | DoGateway(up: bool)
    | DoSend(m: Message)
    | DoList                              // the drain thread lists the outbox
    | DoWrite(gatewayAccepts: bool)       // ... writes the next file's target, or gives up the pass
    | DoUnlink                            // ... removes the source
    | DoCrash                             // ... dies and is started again
    | DoApprove(name: Name)
    | DoVeto(name: Name)
    | DoAck(role: Role, name: Name)
    | DoHandle(role: Role, name: Name)    // a poller invokes the handler and marks the file
    | DoArchive(role: Role)               // ... moves the handled file away
    | DoRestartPoller(role: Role)

  function PollerOf(s: State, role: Role): Poller {
    if role in s.pollers then s.pollers[role] else Poller(0, {}, None)
  }

  function OutboxOf(s: State): Dir {
    DirOf(s.core.files, Outbox)
  }

  function WriteNext(c: Contract, s: State, gatewayAccepts: bool): State
    requires s.batch != [] && s.unlinking.None?
  {
    var n := s.batch[0];
    if n !in OutboxOf(s) then s.(core := UnlinkSource(s.core, n), batch := s.batch[1..])
    else
      var m := Read(OutboxOf(s)[n]);
      var target := Target(c, s.core, m, gatewayAccepts);
      if target.None? then s.(batch := [])
      else s.(core := s.core.(files := Put(s.core.files, target.value.place, m.name, target.value.file)),
              unlinking := Some(n),
              refusing := if Refuses(c, s.core, m) then Some(m) else None)
  }

  function UnlinkNext(s: State): State
    requires s.batch != [] && s.unlinking.Some?
  {
    s.(core := UnlinkSource(s.core, s.unlinking.value),
       batch := s.batch[1..],
       unlinking := None,
       refusing := None,
       refused := if s.refusing.Some? then s.refused + {s.refusing.value} else s.refused)
  }

  function ApproveNext(s: State, n: Name): State {
    var held := DirOf(s.core.files, Inbox(WAR_ROOM));
    if n in held then s.(core := Approve(s.core, n), approved := s.approved + {Read(held[n])}) else s
  }

  /** Pollers exist for the claw roles only, never for the war room. */
  function HandleNext(s: State, role: Role, n: Name): State {
    var poller := PollerOf(s, role);
    var inbox := DirOf(s.core.files, Inbox(role));
    if role == WAR_ROOM || poller.current.Some? || n in poller.processed || n !in inbox then s
    else s.(pollers := s.pollers[role := poller.(processed := poller.processed + {n}, current := Some(n))],
            handled := s.handled + [Handling(role, poller.lifetime, n, inbox[n])])
  }

  function ArchiveNext(s: State, role: Role): State {
    var poller := PollerOf(s, role);
    if poller.current.None? then s
    else s.(core := Move(s.core, Inbox(role), poller.current.value, Processed(role)),
            pollers := s.pollers[role := poller.(current := None)])
  }

  /** A step that is not enabled leaves the state as it is. */
  function Next(c: Contract, s: State, step: Step): State {
    match step
    case DoRegister(role, address) => s.(core := Register(s.core, role, address))
    case DoUnregister(role) => s.(core := Unregister(s.core, role))
    case DoHeartbeat(role, now) => s.(core := Heartbeat(s.core, role, now))
    case DoMarkUnhealthy(role) => s.(core := MarkUnhealthy(s.core, role))
    case DoSetStatus(role, status) => s.(core := SetStatus(s.core, role, status))
    case DoGateway(up) => s.(core := s.core.(gatewayUp := up))
    case DoSend(m) =>
      s.(core := Send(c, s.core, m),
         accepted := if Accepts(c, s.core, m) then s.accepted + {m} else s.accepted)
    case DoList =>
      if s.batch == [] && s.unlinking.None? then s.(batch := Sorted(OutboxOf(s).Keys)) else s
    case DoWrite(gatewayAccepts) =>
      if s.batch != [] && s.unlinking.None? then WriteNext(c, s, gatewayAccepts) else s
    case DoUnlink =>
      if s.batch != [] && s.unlinking.Some? then UnlinkNext(s) else s
    case DoCrash => s.(batch := [], unlinking := None, refusing := None)
    case DoApprove(n) => ApproveNext(s, n)
    case DoVeto(n) => s.(core := Move(s.core, Inbox(WAR_ROOM), n, Rejected))
    case DoAck(role, n) => s.(core := Move(s.core, Inbox(role), n, Delivered))
    case DoHandle(role, n) => HandleNext(s, role, n)
    case DoArchive(role) => ArchiveNext(s, role)
    case DoRestartPoller(role) =>
      s.(pollers := s.pollers[role := Poller(PollerOf(s, role).lifetime + 1, {}, None)])
  }

  function Run(c: Contract, steps: seq<Step>): State {
    if steps == [] then START
    else Next(c, Run(c, steps[..|steps| - 1]), steps[|steps| - 1])
  }
}
