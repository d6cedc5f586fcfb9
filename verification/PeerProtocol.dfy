/**
 The concurrent protocol of pkg/btcclient as a transition system: one program counter per connection loop, one
 for the health loop, one for Stop, and `crit` for whoever holds the peer-map lock and how far it has come.
 Every region under a mutex is one atomic step. Dial outcomes, timers, remote disconnects and cancellations
 of a user's context may happen at any time.
 */
module PeerProtocol {
  import opened Wrappers
  import opened PeerTable

  datatype Config = Config(maxPeers: nat, maxFailures: nat)

  /** Where a connection loop stands; the line numbers are those of manager.go. */
  datatype Pc =
    | CheckDone          // 110, left operand
    | CheckContext       // 110, right operand
    | MarkConnecting     // 114
    | CallDial           // 116
    | InDial             // 177-189
    | MarkFailed         // 119
    | CountFailure       // 120
    | CheckThreshold     // 122
    | WantEvictLock      // 236
    | Evicting           // 238
    | MarkConnected      // 134
    | ResetFailures      // 135
    | NotifyConnected    // 138
    | AskAddresses       // 143
    | AwaitDisconnect    // 148
    | MarkDisconnected   // 150
    | ClearPointer       // 151
    | NotifyDisconnected // 154
    | Waiting            // 128 and 159
    | Returned

  /**
   A ManagedPeer and its loop. `dials` lists the outcomes of the finished dials: it numbers the connections, and
   addresses are only received from a peer that is being dialed or has been reached. The fields after it are
   history, which no step's guard reads: `cancelledAt` is where the loop stood when removePeer or Stop first
   cancelled it, and `setsAfterCancel` counts the connections stored since then.
   */
  datatype Peer = Peer(
    address: Addr, pc: Pc, status: Status, failures: nat, conn: Option<Conn>, cancelled: bool, background: bool,
    dials: seq<bool>, connects: nat, loopFarewells: nat, mapFarewells: nat,
    cancelledAt: Option<Pc>, setsAfterCancel: nat)

  datatype Holder = User | Loop(id: nat) | Health | Stopper

  /** Within removePeer, or within one round of Stop's sweep. */
  datatype Stage = Between | Reading(id: nat) | Telling(id: nat, serial: nat) | Deleting(id: nat)

  datatype Crit =
    | Free
    | Scan(todo: set<Addr>, marked: set<Addr>)
    | Work(holder: Holder, left: set<Addr>, stage: Stage)

  datatype HealthPc = NotStarted | Idle | Checking | Finished

  datatype StopPc = NotCalled | WantLock | Sweeping | WaitingForLoops | Succeeded | TimedOut

  datatype State = State(
    entries: map<Addr, nat>, peers: seq<Peer>, crit: Crit, health: HealthPc, stop: StopPc,
    done: bool, wg: int, waitReturned: bool, swept: nat)

  datatype Choice = Fails | Succeeds | TimerFires | SeesDone | SeesCancel

  datatype Action =
    | AddPeer(addr: Addr)
    | AddDiscovered(addrs: seq<Addr>)
    | UserRemove(addr: Addr)
    | LoopStep(id: nat, choice: Choice)
    | RemoteDrop(id: nat)
    | ContextEnds(id: nat)
    | Start
    | HealthTick
    | HealthStops
    | ScanOne(addr: Addr)
    | ScanEnds
    | WorkLookup(addr: Addr)
    | WorkRead
    | WorkTell
    | WorkDelete
    | WorkEnds
    | StopCalled
    | StopLocks
    | WaitReturns
    | StopSucceeds
    | StopTimesOut

  function NewPeer(a: Addr, background: bool): Peer {
    Peer(a, CheckDone, Disconnected, 0, None, false, background, [], 0, 0, 0, None, 0)
  }

  function Init(): State {
    State(map[], [], Free, NotStarted, NotCalled, false, 0, false, 0)
  }

  function Addresses(peers: seq<Peer>): (r: seq<Addr>)
    ensures |r| == |peers|
    ensures forall i :: 0 <= i < |peers| ==> r[i] == peers[i].address
  {
    seq(|peers|, i requires 0 <= i < |peers| => peers[i].address)
  }

  function TableOf(s: State): Table {
    Table(s.entries, Addresses(s.peers))
  }

  /** One fresh loop for every address the table gained. */
  function Grown(peers: seq<Peer>, created: seq<Addr>, background: bool): (r: seq<Peer>)
    requires |peers| <= |created|
    ensures |r| == |created|
    ensures forall i :: 0 <= i < |peers| ==> r[i] == peers[i]
    ensures forall i :: |peers| <= i < |r| ==> r[i] == NewPeer(created[i], background)
  {
    var more := |created| - |peers|;
    peers + seq(more, i requires 0 <= i < more => NewPeer(created[|peers| + i], background))
  }

  function WithTable(s: State, t: Table, background: bool): State
    requires |s.peers| <= |t.created|
  {
    s.(entries := t.entries,
       peers := Grown(s.peers, t.created, background),
       wg := s.wg + |t.created| - |s.peers|)
  }

  // The connection loop

  /** The next state of a loop's own peer. A dial on a context already cancelled fails. */
  function LoopNext(c: Config, p: Peer, done: bool, choice: Choice): Option<Peer> {
    match p.pc
    case CheckDone => Some(p.(pc := if done then Returned else CheckContext))
    case CheckContext => Some(p.(pc := if p.cancelled then Returned else MarkConnecting))
    case MarkConnecting => Some(p.(pc := CallDial, status := Connecting))
    case CallDial =>
      Some(if p.cancelled then p.(pc := MarkFailed, dials := p.dials + [false]) else p.(pc := InDial))
    case InDial =>
      if choice == Fails then Some(p.(pc := MarkFailed, dials := p.dials + [false]))
      else if choice == Succeeds then
        Some(p.(pc := MarkConnected, dials := p.dials + [true], conn := Some(Conn(|p.dials|, false, false)),
                setsAfterCancel := p.setsAfterCancel + if p.cancelledAt.Some? then 1 else 0))
      else None
    case MarkFailed => Some(p.(pc := CountFailure, status := Disconnected))
    case CountFailure => Some(p.(pc := CheckThreshold, failures := p.failures + 1))
    case CheckThreshold => Some(p.(pc := if p.failures >= c.maxFailures then WantEvictLock else Waiting))
    case WantEvictLock => None
    case Evicting => None
    case MarkConnected => Some(p.(pc := ResetFailures, status := Connected))
    case ResetFailures => Some(p.(pc := NotifyConnected, failures := 0))
    case NotifyConnected => Some(p.(pc := AskAddresses, connects := p.connects + 1))
    case AskAddresses => Some(p.(pc := AwaitDisconnect))
    case AwaitDisconnect =>
      if p.conn.Some? && (p.conn.value.told || p.conn.value.dropped) then Some(p.(pc := MarkDisconnected)) else None
    case MarkDisconnected => Some(p.(pc := ClearPointer, status := Disconnected))
    case ClearPointer => Some(p.(pc := NotifyDisconnected, conn := None))
    case NotifyDisconnected => Some(p.(pc := Waiting, loopFarewells := p.loopFarewells + 1))
    case Waiting =>
      if choice == TimerFires then Some(p.(pc := CheckDone))
      else if (choice == SeesDone && done) || (choice == SeesCancel && p.cancelled) then Some(p.(pc := Returned))
      else None
    case Returned => None
  }

  /** A cancellation by removePeer or Stop. */
  function Cancelled(p: Peer): Peer {
    p.(cancelled := true, cancelledAt := if p.cancelledAt.None? then Some(p.pc) else p.cancelledAt)
  }

  /** `Disconnect` on the connection that was read, which the loop may have dropped since. */
  function Told(p: Peer, serial: nat): Peer {
    if p.conn.Some? && p.conn.value.serial == serial then p.(conn := Some(p.conn.value.(told := true))) else p
  }

  /** A user call needs the client's read lock, which Stop excludes while it runs. */
  predicate UsersAllowed(s: State) {
    s.stop.NotCalled? || s.stop.Succeeded? || s.stop.TimedOut?
  }

  /** The wire library reads from a connection before the dial has stored it. */
  predicate Talks(p: Peer) {
    p.pc.InDial? || true in p.dials
  }

  predicate Enabled(c: Config, s: State, a: Action) {
    match a
    case AddPeer(_) => s.crit.Free? && UsersAllowed(s)
    case AddDiscovered(_) => s.crit.Free? && exists i :: 0 <= i < |s.peers| && Talks(s.peers[i])
    case UserRemove(_) => s.crit.Free? && UsersAllowed(s)
    case LoopStep(id, choice) =>
      id < |s.peers| &&
      if s.peers[id].pc == WantEvictLock then s.crit.Free? else LoopNext(c, s.peers[id], s.done, choice).Some?
    case RemoteDrop(id) => id < |s.peers| && s.peers[id].conn.Some?
    case ContextEnds(id) => id < |s.peers| && !s.peers[id].background
    case Start => s.health.NotStarted? && s.stop.NotCalled?
    case HealthTick => s.health.Idle? && s.crit.Free?
    case HealthStops => s.health.Idle? && s.done
    case ScanOne(a) => s.crit.Scan? && a in s.crit.todo && a in s.entries && s.entries[a] < |s.peers|
    case ScanEnds => s.crit.Scan? && s.crit.todo == {}
    case WorkLookup(a) => s.crit.Work? && s.crit.stage.Between? && a in s.crit.left &&
                          (a in s.entries ==> s.entries[a] < |s.peers|)
    case WorkRead => s.crit.Work? && s.crit.stage.Reading? && s.crit.stage.id < |s.peers|
    case WorkTell => s.crit.Work? && s.crit.stage.Telling? && s.crit.stage.id < |s.peers|
    case WorkDelete => s.crit.Work? && s.crit.stage.Deleting? && s.crit.stage.id < |s.peers|
    case WorkEnds => s.crit.Work? && s.crit.stage.Between? && s.crit.left == {} &&
                     (s.crit.holder.Loop? ==> s.crit.holder.id < |s.peers|)
    case StopCalled => s.stop.NotCalled? && !s.health.NotStarted? && !(s.crit.Work? && s.crit.holder.User?)
    case StopLocks => s.stop.WantLock? && s.crit.Free?
    case WaitReturns => s.stop.WaitingForLoops? && s.wg == 0
    case StopSucceeds => s.stop.WaitingForLoops? && s.waitReturned
    case StopTimesOut => s.stop.WaitingForLoops?
  }

  // The steps

  /** One peer changes; a loop that returns is taken off the wait group. */
  function WithPeer(s: State, id: nat, q: Peer): State
    requires id < |s.peers|
  {
    s.(peers := s.peers[id := q], wg := s.wg - if q.pc.Returned? && !s.peers[id].pc.Returned? then 1 else 0)
  }

  function OwnStep(c: Config, s: State, id: nat, choice: Choice): State
    requires id < |s.peers| && LoopNext(c, s.peers[id], s.done, choice).Some?
  {
    WithPeer(s, id, LoopNext(c, s.peers[id], s.done, choice).value)
  }

  function TakeEvictLock(s: State, id: nat): State
    requires id < |s.peers|
  {
    s.(peers := s.peers[id := s.peers[id].(pc := Evicting)],
       crit := Work(Loop(id), {s.peers[id].address}, Between))
  }

  function Dropped(p: Peer): Peer
    requires p.conn.Some?
  {
    p.(conn := Some(p.conn.value.(dropped := true)))
  }

  /** runHealthChecks reads the failure count of one mapped peer. */
  function ScanPeer(c: Config, s: State, a: Addr): State
    requires s.crit.Scan? && a in s.entries && s.entries[a] < |s.peers|
  {
    var over := s.peers[s.entries[a]].failures >= c.maxFailures;
    s.(crit := Scan(s.crit.todo - {a}, s.crit.marked + if over then {a} else {}))
  }

  /** removePeer and the sweep cancel the peer they find. */
  function LookUp(s: State, a: Addr): State
    requires s.crit.Work? && (a in s.entries ==> s.entries[a] < |s.peers|)
  {
    if a in s.entries then
      var id := s.entries[a];
      s.(peers := s.peers[id := Cancelled(s.peers[id])], crit := s.crit.(stage := Reading(id)))
    else
      s.(crit := s.crit.(left := s.crit.left - {a}))
  }

  /** They read its connection. */
  function ReadPointer(s: State): State
    requires s.crit.Work? && s.crit.stage.Reading? && s.crit.stage.id < |s.peers|
  {
    var id := s.crit.stage.id;
    var conn := s.peers[id].conn;
    s.(crit := s.crit.(stage := if conn.Some? then Telling(id, conn.value.serial) else Deleting(id)))
  }

  /** They call `Disconnect` on what they read. */
  function Tell(s: State): State
    requires s.crit.Work? && s.crit.stage.Telling? && s.crit.stage.id < |s.peers|
  {
    var id := s.crit.stage.id;
    s.(peers := s.peers[id := Told(s.peers[id], s.crit.stage.serial)], crit := s.crit.(stage := Deleting(id)))
  }

  /** removePeer deletes the entry and calls the listener; the sweep goes on to the next peer. */
  function Delete(s: State): State
    requires s.crit.Work? && s.crit.stage.Deleting? && s.crit.stage.id < |s.peers|
  {
    var id := s.crit.stage.id;
    var p := s.peers[id];
    var after := s.crit.(left := s.crit.left - {p.address}, stage := Between);
    if s.crit.holder.Stopper? then
      s.(crit := after)
    else
      s.(entries := s.entries - {p.address},
         peers := s.peers[id := p.(mapFarewells := p.mapFarewells + 1)], crit := after)
  }

  /** The lock is released; an eviction ends its loop. */
  function EndWork(s: State): State
    requires s.crit.Work? && (s.crit.holder.Loop? ==> s.crit.holder.id < |s.peers|)
  {
    match s.crit.holder
    case User => s.(crit := Free)
    case Health => s.(crit := Free, health := Idle)
    case Stopper => s.(crit := Free, stop := WaitingForLoops)
    case Loop(id) => s.(crit := Free, peers := s.peers[id := s.peers[id].(pc := Returned)], wg := s.wg - 1)
  }

  function Apply(c: Config, s: State, a: Action): State
    requires Enabled(c, s, a)
  {
    match a
    case AddPeer(addr) => WithTable(s, AddOne(c.maxPeers, TableOf(s), addr).0, false)
    case AddDiscovered(addrs) =>
      DiscoveryGrows(c.maxPeers, TableOf(s), addrs);
      WithTable(s, Discover(c.maxPeers, TableOf(s), addrs), true)
    case UserRemove(addr) => s.(crit := Work(User, {addr}, Between))
    case LoopStep(id, choice) =>
      if s.peers[id].pc == WantEvictLock then TakeEvictLock(s, id) else OwnStep(c, s, id, choice)
    case RemoteDrop(id) => WithPeer(s, id, Dropped(s.peers[id]))
    case ContextEnds(id) => WithPeer(s, id, s.peers[id].(cancelled := true))
    case Start => s.(health := Idle, wg := s.wg + 1)
    case HealthTick => s.(health := Checking, crit := Scan(s.entries.Keys, {}))
    case HealthStops => s.(health := Finished, wg := s.wg - 1)
    case ScanOne(addr) => ScanPeer(c, s, addr)
    case ScanEnds => s.(crit := Work(Health, s.crit.marked, Between))
    case WorkLookup(addr) => LookUp(s, addr)
    case WorkRead => ReadPointer(s)
    case WorkTell => Tell(s)
    case WorkDelete => Delete(s)
    case WorkEnds => EndWork(s)
    case StopCalled => s.(stop := WantLock, done := true)
    case StopLocks => s.(stop := Sweeping, crit := Work(Stopper, s.entries.Keys, Between), swept := |s.peers|)
    case WaitReturns => s.(waitReturned := true)
    case StopSucceeds => s.(stop := Succeeded)
    case StopTimesOut => s.(stop := TimedOut)
  }

  // Runs

  predicate Runs(c: Config, s: State, actions: seq<Action>)
    decreases |actions|
  {
    actions == [] || (Enabled(c, s, actions[0]) && Runs(c, Apply(c, s, actions[0]), actions[1..]))
  }

  function Run(c: Config, s: State, actions: seq<Action>): State
    requires Runs(c, s, actions)
    decreases |actions|
  {
    if actions == [] then s else Run(c, Apply(c, s, actions[0]), actions[1..])
  }
}
