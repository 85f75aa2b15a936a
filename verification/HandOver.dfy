/**
 How phones change hands (relay.go, scoped_port.go): relays from other proxies,
 local acquires, closes and expiries, all at once. One action is one atomic
 operation of the source: a step on the relay map, on a record's once, on the
 port table, on a phone's mutex, or on a phone.
 */
module HandOver {
  import opened Bytes
  import opened Names

  datatype Pkg = Package(name: string)

  // ---------- relay records ----------

  /** A complete listing of a phone's packages; at is when, as an index of the trace. */
  datatype Snapshot = Snapshot(pkgs: set<Pkg>, at: nat)

  /** A record's sync.Once: what it settled on is there once it is done. */
  datatype Once = Unstarted | Underway(relay: nat) | Settled(snapshot: Option<Snapshot>)

  /** One lock's relay of one phone. A record is known by its index, in order of registration. */
  datatype Record = Record(phone: Serial, lock: Lock, prev: Option<nat>, once: Once)

  // ---------- relays ----------

  datatype RelayPc =
    | Registering
    | Swapping(seen: nat)           // another lock's record was there
    | Registered
    | Joined
    | Waited                        // any reset of the phone it found has ended
    | Listing                       // inside once
    | Naming(snapshot: Snapshot)    // inside once, listed; the record replaced is settled next
    | Snapped
    | Serving
    | Ended

  datatype Relay = Relay(phone: Serial, lock: Lock, pc: RelayPc, rec: nat)
  {
    /** It has a record. */
    predicate HasRecord() {
      !pc.Registering? && !pc.Swapping? && !pc.Ended?
    }

    predicate PastWait() {
      HasRecord() && !pc.Registered? && !pc.Joined?
    }

    predicate InOnce() {
      pc.Listing? || pc.Naming?
    }
  }

  // ---------- ports, acquires, closes, expiries ----------

  /** A scoped port: all its phones, those of this proxy, and those whose setup is done. */
  datatype Port = Port(id: nat, phones: set<Serial>, locals: set<Serial>, ready: set<Serial>)

  datatype Acquire = Acquire(lock: Lock, port: nat, todo: set<Serial>, current: Option<Serial>)

  /** A closed port's phones that are still to be reset. */
  datatype Closing = Closing(lock: Lock, todo: set<Serial>)

  /** OnLockExpired past closing the port, if there was one: it ranges over the relay map. */
  datatype Expiry = Expiry(lock: Lock, port: Option<nat>, visited: set<Serial>)

  // ---------- resets ----------

  datatype ResetId = LocalReset(port: nat, phone: Serial) | RelayedReset(expiry: nat, phone: Serial)

  datatype ResetPc =
    | Queued
    | Locked
    | Loaded(seen: Option<nat>)
    | Settling
    | Checking
    | Acting(listed: bool, todo: set<Pkg>)
    | Finished

  datatype Reset = Reset(lock: Lock, pc: ResetPc, rec: Option<nat>, since: Option<Snapshot>)
  {
    /** It holds the phone's mutex. */
    predicate Holding() {
      !pc.Queued? && !pc.Finished?
    }
  }

  datatype Holder = ByReset(id: ResetId) | ByAcquire(n: nat)

  // ---------- the state ----------

  datatype Event =
    | Listed(rec: nat, phone: Serial, pkgs: set<Pkg>)  // the record's snapshot
    | Command(rec: nat, phone: Serial)                 // relayed under the record
    | Stepped(reset: ResetId)                         // an opaque step of a reset
    | Uninstalled(reset: ResetId, under: Option<nat>, pkg: Pkg)

  /** The ports and what is going on with their locks. */
  datatype Table = Table(
    ports: map<Lock, Port>,  // scopedPorts
    nextPort: nat,
    acquires: map<nat, Acquire>,
    closed: map<nat, Closing>,
    expiries: map<nat, Expiry>)

  datatype State = State(
    records: seq<Record>,
    relay: map<Serial, nat>,  // relayLocks
    relays: map<nat, Relay>,
    table: Table,
    resets: map<ResetId, Reset>,
    mutex: map<Serial, Holder>,
    phones: map<Serial, set<Pkg>>,  // what is installed
    trace: seq<Event>)

  function Start(phones: map<Serial, set<Pkg>>): State {
    State([], map[], map[], Table(map[], 0, map[], map[], map[]), map[], map[], phones, [])
  }

  function Installed(s: State, phone: Serial): set<Pkg> {
    if phone in s.phones then s.phones[phone] else {}
  }

  datatype RelayStep =
    | Store
    | Swap
    | Join
    | Wait
    | EnterOnce
    | ListPhone(ok: bool)
    | SettlePrev
    | OpenDevice
    | Issue(after: set<Pkg>)
    | End

  datatype AcquireStep = Enter(phone: Serial) | Clean(after: set<Pkg>) | Leave(ok: bool)

  datatype ResetStep =
    | Begin
    | Load
    | Take
    | Settle
    | Check
    | Opaque  // reverse forwards, reboot, Wi-Fi, Bluetooth, wake, Play Store
    | ListPackages(listed: set<Pkg>, baseline: set<Pkg>)
    | Uninstall(pkg: Pkg, ok: bool)
    | Finish

  datatype Action =
    | RelayStart(n: nat, phone: Serial, lock: Lock)
    | RelayDoes(n: nat, relay: RelayStep)
    | AcquireStart(n: nat, lock: Lock, phones: set<Serial>, locals: set<Serial>)
    | AcquireDoes(n: nat, acquire: AcquireStep)
    | Close(lock: Lock)
    | Expire(n: nat, lock: Lock)
    | Visit(n: nat, phone: Serial)
    | ResetPhone(port: nat, phone: Serial)
    | ResetDoes(id: ResetId, reset: ResetStep)
    | OwnerChanges(phone: Serial, after: set<Pkg>)

  /** From s to t the trace grows by one event at most, and a listing in it says what was installed. */
  predicate OneMore(s: State, t: State) {
    || t.trace == s.trace
    || (&& |t.trace| == |s.trace| + 1 && t.trace[..|s.trace|] == s.trace
        && var e := t.trace[|s.trace|]; (e.Listed? ==> e.pkgs == Installed(s, e.phone)))
  }

  /** The relays and their records are as they were. */
  predicate RelaysAlone(s: State, t: State) {
    t.records == s.records && t.relays == s.relays
  }

  // ---------- relays, step by step ----------

  predicate RelayAt(s: State, n: nat, pc: RelayPc) {
    n in s.relays && s.relays[n].pc == pc
  }

  function RelayTo(s: State, n: nat, pc: RelayPc): (t: State)
    requires n in s.relays
    ensures t.table == s.table && OneMore(s, t)
  {
    s.(relays := s.relays[n := s.relays[n].(pc := pc)])
  }

  function RelayWith(s: State, n: nat, rec: nat): (t: State)
    requires n in s.relays
    ensures t.table == s.table && OneMore(s, t)
  {
    s.(relays := s.relays[n := s.relays[n].(pc := Registered, rec := rec)])
  }

  /** A new record, the latest of its phone. */
  function RegisteredAnew(s: State, n: nat, prev: Option<nat>): (t: State)
    requires n in s.relays
    ensures t.table == s.table && OneMore(s, t)
  {
    var r := s.relays[n];
    var id := |s.records|;
    RelayWith(s, n, id).(records := s.records + [Record(r.phone, r.lock, prev, Unstarted)], relay := s.relay[r.phone := id])
  }

  /** LoadOrStore, and what the relay makes of what was there. */
  function RelayStored(s: State, n: nat): (t: State)
    requires RelayAt(s, n, Registering)
    ensures t.table == s.table && OneMore(s, t)
  {
    var r := s.relays[n];
    if r.phone !in s.relay then RegisteredAnew(s, n, None)
    else
      var seen := s.relay[r.phone];
      if seen < |s.records| && s.records[seen].lock == r.lock then RelayWith(s, n, seen)
      else RelayTo(s, n, Swapping(seen))
  }

  /** CompareAndSwap: the loop starts over if the record seen is no longer there. */
  function RelaySwapped(s: State, n: nat): (t: State)
    requires n in s.relays && s.relays[n].pc.Swapping?
    ensures t.table == s.table && OneMore(s, t)
  {
    var r := s.relays[n];
    if r.phone in s.relay && s.relay[r.phone] == r.pc.seen then RegisteredAnew(s, n, Some(r.pc.seen))
    else RelayTo(s, n, Registering)
  }

  function WithOnce(records: seq<Record>, r: nat, once: Once): seq<Record>
    requires r < |records|
  {
    records[r := records[r].(once := once)]
  }

  predicate OnceReady(s: State, r: nat) {
    r < |s.records| && !s.records[r].once.Underway?
  }

  /** Entering takeSnapshot's once: the first one in lists, the others wait for it. */
  function RelayEnteredOnce(s: State, n: nat): (t: State)
    requires RelayAt(s, n, Waited) && OnceReady(s, s.relays[n].rec)
    ensures t.table == s.table && OneMore(s, t)
  {
    var r := s.relays[n].rec;
    if s.records[r].once.Settled? then RelayTo(s, n, Snapped)
    else RelayTo(s, n, Listing).(records := WithOnce(s.records, r, Underway(n)))
  }

  /** Leaving takeSnapshot's once, which settles the record. */
  function LeftOnce(s: State, n: nat, once: Once): (t: State)
    requires n in s.relays && s.relays[n].rec < |s.records|
    ensures t.table == s.table && OneMore(s, t)
  {
    RelayTo(s, n, Snapped).(records := WithOnce(s.records, s.relays[n].rec, once))
  }

  /** The listing: a failure settles the record as having no snapshot. */
  function RelayListed(s: State, n: nat, ok: bool): (t: State)
    requires RelayAt(s, n, Listing) && s.relays[n].rec < |s.records|
    ensures t.table == s.table && OneMore(s, t)
  {
    var r := s.relays[n];
    if !ok then LeftOnce(s, n, Settled(None))
    else
      var pkgs := Installed(s, r.phone);
      RelayTo(s, n, Naming(Snapshot(pkgs, |s.trace|))).(trace := s.trace + [Listed(r.rec, r.phone, pkgs)])
  }

  /** settledSnapshot: a record nobody has listed for is settled as having none. */
  function SettledRecords(records: seq<Record>, r: nat): seq<Record>
    requires r < |records|
  {
    if records[r].once.Unstarted? then WithOnce(records, r, Settled(None)) else records
  }

  predicate PrevReady(s: State, r: nat) {
    r < |s.records| && (s.records[r].prev.Some? ==> s.records[r].prev.value < r && OnceReady(s, s.records[r].prev.value))
  }

  function RelayNamed(s: State, n: nat): (t: State)
    requires n in s.relays && s.relays[n].pc.Naming? && PrevReady(s, s.relays[n].rec)
    ensures t.table == s.table && OneMore(s, t)
  {
    var r := s.relays[n];
    var prev := s.records[r.rec].prev;
    LeftOnce(if prev.Some? then s.(records := SettledRecords(s.records, prev.value)) else s, n, Settled(Some(r.pc.snapshot)))
  }

  /** A command of the relayed connection: it may install and remove anything. */
  function RelayCommanded(s: State, n: nat, after: set<Pkg>): (t: State)
    requires RelayAt(s, n, Serving)
    ensures t.table == s.table && OneMore(s, t)
  {
    var r := s.relays[n];
    s.(phones := s.phones[r.phone := after], trace := s.trace + [Command(r.rec, r.phone)])
  }

  // ---------- acquires, closes and expiries, step by step ----------

  /** CreateScopedPort, which refuses a lock that has a port. */
  function AcquireStarted(s: State, n: nat, lock: Lock, phones: set<Serial>, locals: set<Serial>): (t: State)
    ensures OneMore(s, t)
    ensures RelaysAlone(s, t)
  {
    if lock in s.table.ports then s
    else
      s.(table := s.table.(
           ports := s.table.ports[lock := Port(s.table.nextPort, phones, phones * locals, {})], nextPort := s.table.nextPort + 1,
           acquires := s.table.acquires[n := Acquire(lock, s.table.nextPort, phones * locals, None)]))
  }

  predicate InPhone(s: State, n: nat) {
    n in s.table.acquires && s.table.acquires[n].current.Some?
  }

  /** The phone's section ends; a phone that could not be set up ends the acquire. */
  function AcquireLeft(s: State, n: nat, ok: bool): (t: State)
    requires InPhone(s, n)
    ensures OneMore(s, t)
    ensures RelaysAlone(s, t)
  {
    var a := s.table.acquires[n];
    var phone := a.current.value;
    var ports := if ok && a.lock in s.table.ports && s.table.ports[a.lock].id == a.port
                 then s.table.ports[a.lock := s.table.ports[a.lock].(ready := s.table.ports[a.lock].ready + {phone})] else s.table.ports;
    var b := a.(todo := if ok then a.todo - {phone} else {}, current := None);
    s.(table := s.table.(ports := ports, acquires := s.table.acquires[n := b]), mutex := s.mutex - {phone})
  }

  /** CloseScopedPort up to its resets. */
  function Closed(s: State, lock: Lock): (t: State)
    requires lock in s.table.ports
    ensures OneMore(s, t)
    ensures RelaysAlone(s, t)
  {
    var port := s.table.ports[lock];
    s.(table := s.table.(ports := s.table.ports - {lock}, closed := s.table.closed[port.id := Closing(lock, port.locals)]))
  }

  function WithExpiry(s: State, n: nat, e: Expiry): (t: State)
    ensures OneMore(s, t)
    ensures RelaysAlone(s, t)
  {
    s.(table := s.table.(expiries := s.table.expiries[n := e]))
  }

  function Expired(s: State, n: nat, lock: Lock): (t: State)
    ensures OneMore(s, t)
    ensures RelaysAlone(s, t)
  {
    if lock in s.table.ports then WithExpiry(Closed(s, lock), n, Expiry(lock, Some(s.table.ports[lock].id), {}))
    else WithExpiry(s, n, Expiry(lock, None, {}))
  }

  /** CloseScopedPort is done with the phones of port. */
  predicate ResetsDone(s: State, port: nat) {
    && port in s.table.closed && s.table.closed[port].todo == {}
    && forall id <- s.resets :: id.LocalReset? && id.port == port ==> s.resets[id].pc.Finished?
  }

  /** resetRelayed's Range comes by a phone: a record of the lock starts a reset. */
  function Visited(s: State, n: nat, phone: Serial): (t: State)
    requires n in s.table.expiries
    ensures OneMore(s, t)
    ensures RelaysAlone(s, t)
  {
    var e := s.table.expiries[n];
    var t := WithExpiry(s, n, e.(visited := e.visited + {phone}));
    if phone in s.relay && s.relay[phone] < |s.records| && s.records[s.relay[phone]].lock == e.lock
    then t.(resets := s.resets[RelayedReset(n, phone) := Reset(e.lock, Queued, None, None)])
    else t
  }

  /** resetDevices goes on to its next phone. */
  function PhoneReset(s: State, port: nat, phone: Serial): (t: State)
    requires port in s.table.closed
    ensures OneMore(s, t)
    ensures RelaysAlone(s, t)
  {
    var c := s.table.closed[port];
    s.(table := s.table.(closed := s.table.closed[port := c.(todo := c.todo - {phone})]),
       resets := s.resets[LocalReset(port, phone) := Reset(c.lock, Queued, None, None)])
  }

  // ---------- resets, step by step ----------

  predicate ResetAt(s: State, id: ResetId, pc: ResetPc) {
    id in s.resets && s.resets[id].pc == pc
  }

  function ResetTo(s: State, id: ResetId, pc: ResetPc): (t: State)
    requires id in s.resets
    ensures t.table == s.table && OneMore(s, t)
    ensures RelaysAlone(s, t)
  {
    s.(resets := s.resets[id := s.resets[id].(pc := pc)])
  }

  function ResetOver(s: State, id: ResetId): (t: State)
    requires id in s.resets
    ensures t.table == s.table && OneMore(s, t)
    ensures RelaysAlone(s, t)
  {
    ResetTo(s, id, Finished).(mutex := s.mutex - {id.phone})
  }

  /** takeRelayRecord's Load: only a record of the reset's own lock counts. */
  function ResetLoaded(s: State, id: ResetId): (t: State)
    requires ResetAt(s, id, Locked)
    ensures t.table == s.table && OneMore(s, t)
    ensures RelaysAlone(s, t)
  {
    var seen := if id.phone in s.relay && s.relay[id.phone] < |s.records| && s.records[s.relay[id.phone]].lock == s.resets[id].lock
                then Some(s.relay[id.phone]) else None;
    ResetTo(s, id, Loaded(seen))
  }

  /** The map has for the phone the record that the reset saw there. */
  predicate StillThere(s: State, id: ResetId)
    requires id in s.resets && s.resets[id].pc.Loaded?
  {
    var seen := s.resets[id].pc.seen;
    seen.Some? && id.phone in s.relay && s.relay[id.phone] == seen.value
  }

  /** takeRelayRecord's CompareAndDelete. A relayed reset without a record is over. */
  function ResetTook(s: State, id: ResetId): (t: State)
    requires id in s.resets && s.resets[id].pc.Loaded?
    ensures t.table == s.table && OneMore(s, t)
    ensures id in t.resets && t.resets[id].lock == s.resets[id].lock
    ensures RelaysAlone(s, t)
    ensures if StillThere(s, id) then t.resets[id].rec == s.resets[id].pc.seen && t.relay == s.relay - {id.phone}
            else t.resets[id].rec == s.resets[id].rec && t.relay == s.relay && (id.RelayedReset? ==> t.resets[id].pc.Finished?)
  {
    if StillThere(s, id) then
      s.(relay := s.relay - {id.phone},
         resets := s.resets[id := s.resets[id].(pc := if id.RelayedReset? then Settling else Checking, rec := s.resets[id].pc.seen)])
    else if id.RelayedReset? then ResetOver(s, id)
    else ResetTo(s, id, Checking)
  }

  function SnapshotOf(o: Once): Option<Snapshot> {
    if o.Settled? then o.snapshot else None
  }

  /** settledSnapshot. */
  function ResetSettled(s: State, id: ResetId): (t: State)
    requires ResetAt(s, id, Settling) && s.resets[id].rec.Some? && OnceReady(s, s.resets[id].rec.value)
    ensures t.table == s.table && OneMore(s, t)
  {
    var r := s.resets[id].rec.value;
    s.(records := SettledRecords(s.records, r),
       resets := s.resets[id := s.resets[id].(pc := Checking, since := SnapshotOf(s.records[r].once))])
  }

  predicate HeldByAnyPort(ports: map<Lock, Port>, phone: Serial) {
    exists lock <- ports :: phone in ports[lock].phones
  }

  function ResetChecked(s: State, id: ResetId): (t: State)
    requires ResetAt(s, id, Checking)
    ensures t.table == s.table && OneMore(s, t)
    ensures RelaysAlone(s, t)
  {
    if HeldByAnyPort(s.table.ports, id.phone) then ResetOver(s, id) else ResetTo(s, id, Acting(false, {}))
  }

  predicate ResetActs(s: State, id: ResetId) {
    id in s.resets && s.resets[id].pc.Acting?
  }

  /** ResetPackages' listing: what is not kept is to go. A relayed phone keeps its snapshot. */
  function ResetListed(s: State, id: ResetId, listed: set<Pkg>, baseline: set<Pkg>): (t: State)
    requires ResetActs(s, id) && (id.RelayedReset? ==> s.resets[id].since.Some?)
    ensures t.table == s.table && OneMore(s, t)
    ensures RelaysAlone(s, t)
  {
    var keep := if id.RelayedReset? then s.resets[id].since.value.pkgs else baseline;
    ResetTo(s, id, Acting(true, listed - keep))
  }

  function ResetUninstalled(s: State, id: ResetId, pkg: Pkg, ok: bool): (t: State)
    requires ResetActs(s, id)
    ensures t.table == s.table && OneMore(s, t)
    ensures RelaysAlone(s, t)
  {
    var t := ResetTo(s, id, Acting(true, s.resets[id].pc.todo - {pkg}));
    if ok then t.(phones := s.phones[id.phone := Installed(s, id.phone) - {pkg}],
                  trace := s.trace + [Uninstalled(id, s.resets[id].rec, pkg)])
    else t
  }

  // ---------- the machine ----------

  predicate RelayMay(s: State, n: nat, step: RelayStep) {
    && n in s.relays
    && var r := s.relays[n];
       match step
       case Store => r.pc.Registering?
       case Swap => r.pc.Swapping?
       case Join => r.pc.Registered?
       case Wait => r.pc.Joined? && r.phone !in s.mutex
       case EnterOnce => r.pc.Waited? && OnceReady(s, r.rec)
       case ListPhone(_) => r.pc.Listing? && r.rec < |s.records|
       case SettlePrev => r.pc.Naming? && PrevReady(s, r.rec)
       case OpenDevice => r.pc.Snapped?
       case Issue(_) => r.pc.Serving?
       case End => !r.InOnce()
  }

  function RelayNext(s: State, n: nat, step: RelayStep): (t: State)
    requires RelayMay(s, n, step)
    ensures t.table == s.table && OneMore(s, t)
  {
    match step
    case Store => RelayStored(s, n)
    case Swap => RelaySwapped(s, n)
    case Join => RelayTo(s, n, Joined)
    case Wait => RelayTo(s, n, Waited)
    case EnterOnce => RelayEnteredOnce(s, n)
    case ListPhone(ok) => RelayListed(s, n, ok)
    case SettlePrev => RelayNamed(s, n)
    case OpenDevice => RelayTo(s, n, Serving)
    case Issue(after) => RelayCommanded(s, n, after)
    case End => RelayTo(s, n, Ended)
  }

  predicate AcquireMay(s: State, n: nat, step: AcquireStep) {
    && n in s.table.acquires
    && var a := s.table.acquires[n];
       match step
       case Enter(phone) => a.current.None? && phone in a.todo && phone !in s.mutex
       case Clean(_) => a.current.Some?
       case Leave(_) => a.current.Some?
  }

  function AcquireNext(s: State, n: nat, step: AcquireStep): (t: State)
    requires AcquireMay(s, n, step)
    ensures OneMore(s, t)
    ensures RelaysAlone(s, t)
  {
    match step
    case Enter(phone) =>
      var a := s.table.acquires[n].(current := Some(phone));
      s.(table := s.table.(acquires := s.table.acquires[n := a]), mutex := s.mutex[phone := ByAcquire(n)])
    case Clean(after) => s.(phones := s.phones[s.table.acquires[n].current.value := after])
    case Leave(ok) => AcquireLeft(s, n, ok)
  }

  predicate ResetMay(s: State, id: ResetId, step: ResetStep) {
    && id in s.resets
    && var r := s.resets[id];
       match step
       case Begin => r.pc.Queued? && id.phone !in s.mutex
       case Load => r.pc.Locked?
       case Take => r.pc.Loaded?
       case Settle => r.pc.Settling? && r.rec.Some? && OnceReady(s, r.rec.value)
       case Check => r.pc.Checking?
       case Opaque => r.pc.Acting?
       case ListPackages(_, _) => r.pc.Acting? && !r.pc.listed && (id.RelayedReset? ==> r.since.Some?)
       case Uninstall(pkg, _) => r.pc.Acting? && pkg in r.pc.todo
       case Finish => r.pc.Acting?
  }

  function ResetNext(s: State, id: ResetId, step: ResetStep): (t: State)
    requires ResetMay(s, id, step)
    ensures t.table == s.table && OneMore(s, t)
    ensures step.Settle? || RelaysAlone(s, t)
  {
    match step
    case Begin => ResetTo(s, id, Locked).(mutex := s.mutex[id.phone := ByReset(id)])
    case Load => ResetLoaded(s, id)
    case Take => ResetTook(s, id)
    case Settle => ResetSettled(s, id)
    case Check => ResetChecked(s, id)
    case Opaque => s.(trace := s.trace + [Stepped(id)])
    case ListPackages(listed, baseline) => ResetListed(s, id, listed, baseline)
    case Uninstall(pkg, ok) => ResetUninstalled(s, id, pkg, ok)
    case Finish => ResetOver(s, id)
  }

  predicate Enabled(s: State, a: Action) {
    match a
    case RelayStart(n, _, _) => n !in s.relays
    case RelayDoes(n, step) => RelayMay(s, n, step)
    case AcquireStart(n, _, _, _) => n !in s.table.acquires
    case AcquireDoes(n, step) => AcquireMay(s, n, step)
    case Close(lock) => lock in s.table.ports
    case Expire(n, _) => n !in s.table.expiries
    case Visit(n, phone) =>
      && n in s.table.expiries && phone !in s.table.expiries[n].visited
      && (s.table.expiries[n].port.Some? ==> ResetsDone(s, s.table.expiries[n].port.value))
    case ResetPhone(port, phone) => port in s.table.closed && phone in s.table.closed[port].todo
    case ResetDoes(id, step) => ResetMay(s, id, step)
    case OwnerChanges(_, _) => true
  }

  function Next(s: State, a: Action): (t: State)
    requires Enabled(s, a)
    ensures OneMore(s, t)
  {
    match a
    case RelayStart(n, phone, lock) => s.(relays := s.relays[n := Relay(phone, lock, Registering, 0)])
    case RelayDoes(n, step) => RelayNext(s, n, step)
    case AcquireStart(n, lock, phones, locals) => AcquireStarted(s, n, lock, phones, locals)
    case AcquireDoes(n, step) => AcquireNext(s, n, step)
    case Close(lock) => Closed(s, lock)
    case Expire(n, lock) => Expired(s, n, lock)
    case Visit(n, phone) => Visited(s, n, phone)
    case ResetPhone(port, phone) => PhoneReset(s, port, phone)
    case ResetDoes(id, step) => ResetNext(s, id, step)
    case OwnerChanges(phone, after) => s.(phones := s.phones[phone := after])
  }

  // ---------- runs ----------

  /** One action leads from moment i to the next. */
  ghost predicate StepAt(states: seq<State>, i: nat)
    requires i + 1 < |states|
  {
    exists a :: Enabled(states[i], a) && states[i + 1] == Next(states[i], a)
  }

  /** A run: the states it goes through, one action from each to the next. */
  ghost predicate Behaviour(states: seq<State>) {
    && |states| > 0
    && (exists phones :: states[0] == Start(phones))
    && forall i :: 0 <= i < |states| - 1 ==> StepAt(states, i)
  }
}
