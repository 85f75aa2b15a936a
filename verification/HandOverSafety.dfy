/**
 What every interleaving of HandOver keeps: resets stay off phones that another
 lock has been given, a relayed reset acts on its own record only, relays that
 come later wait for it, and it uninstalls nothing its snapshot has.
 */
module HandOverSafety {
  import opened Bytes
  import opened Names
  import opened HandOver

  // ---------- the invariant, a predicate for each part of the state it is about ----------

  predicate LatestOf(records: seq<Record>, phone: Serial, r: nat) {
    forall k :: r < k < |records| ==> records[k].phone != phone
  }

  /** The map has each phone's latest record, or none. */
  predicate Current(records: seq<Record>, relay: map<Serial, nat>) {
    forall p <- relay :: relay[p] < |records| && records[relay[p]].phone == p && LatestOf(records, p, relay[p])
  }

  predicate OwnRecord(records: seq<Record>, phone: Serial, lock: Lock, r: nat) {
    r < |records| && records[r].phone == phone && records[r].lock == lock
  }

  predicate Recorded(records: seq<Record>, relays: map<nat, Relay>) {
    forall n <- relays :: relays[n].HasRecord() ==> OwnRecord(records, relays[n].phone, relays[n].lock, relays[n].rec)
  }

  /** Who works on a phone holds its mutex. */
  predicate Guarded(mutex: map<Serial, Holder>, acquires: map<nat, Acquire>, resets: map<ResetId, Reset>) {
    && (forall n <- acquires :: acquires[n].current.Some? ==>
          acquires[n].current.value in mutex && mutex[acquires[n].current.value] == ByAcquire(n))
    && (forall id <- resets :: resets[id].Holding() ==> id.phone in mutex && mutex[id.phone] == ByReset(id))
  }

  /** A port is in the table or closed, never both, and a closed one starts one reset of each phone. */
  predicate PortsApart(ports: map<Lock, Port>, nextPort: nat, closed: map<nat, Closing>, resets: map<ResetId, Reset>) {
    && (forall lock <- ports :: ports[lock].id < nextPort && ports[lock].id !in closed)
    && (forall l1 <- ports, l2 <- ports :: ports[l1].id == ports[l2].id ==> l1 == l2)
    && (forall port <- closed :: port < nextPort)
    && (forall id <- resets :: id.LocalReset? ==> id.port in closed && id.phone !in closed[id.port].todo)
  }

  /** An expiry starts one reset of each phone. */
  predicate ExpiriesApart(expiries: map<nat, Expiry>, resets: map<ResetId, Reset>) {
    forall id <- resets :: id.RelayedReset? ==> id.expiry in expiries && id.phone in expiries[id.expiry].visited
  }

  predicate NotReady(ports: map<Lock, Port>, phone: Serial) {
    forall lock <- ports :: phone !in ports[lock].ready
  }

  /** While a reset acts on a phone, no port in the table has been given it. */
  predicate Unready(ports: map<Lock, Port>, resets: map<ResetId, Reset>) {
    && (forall lock <- ports :: ports[lock].ready <= ports[lock].phones)
    && (forall id <- resets :: resets[id].pc.Acting? ==> NotReady(ports, id.phone))
  }

  /** A record that a reset has taken is gone from the map, and no other reset has it. */
  predicate Claimed(records: seq<Record>, relay: map<Serial, nat>, resets: map<ResetId, Reset>) {
    && (forall id <- resets :: resets[id].rec.Some? ==>
          && OwnRecord(records, id.phone, resets[id].lock, resets[id].rec.value)
          && !(id.phone in relay && relay[id.phone] == resets[id].rec.value))
    && (forall i <- resets, j <- resets :: resets[i].rec.Some? && resets[i].rec == resets[j].rec ==> i == j)
  }

  /** What a reset is about to take names its own lock. */
  predicate Aiming(records: seq<Record>, resets: map<ResetId, Reset>) {
    forall id <- resets :: Aims(records, id, resets[id])
  }

  predicate Aims(records: seq<Record>, id: ResetId, u: Reset) {
    && (u.pc.Queued? || u.pc.Locked? || u.pc.Loaded? ==> u.rec.None?)
    && (u.pc.Loaded? && u.pc.seen.Some? ==> OwnRecord(records, id.phone, u.lock, u.pc.seen.value))
    && (u.pc.Settling? || (id.RelayedReset? && (u.pc.Checking? || u.pc.Acting?)) ==> u.rec.Some?)
  }

  /** What an acquire still has to set up is its port's, if that is still in the table. */
  predicate Acquiring(ports: map<Lock, Port>, nextPort: nat, acquires: map<nat, Acquire>) {
    && (forall n <- acquires :: acquires[n].port < nextPort)
    && (forall n <- acquires, lock <- ports :: ports[lock].id == acquires[n].port ==>
          && acquires[n].todo <= ports[lock].phones
          && (acquires[n].current.Some? ==> acquires[n].current.value in ports[lock].phones))
  }

  predicate Inv(s: State) {
    && Current(s.records, s.relay) && Recorded(s.records, s.relays)
    && Guarded(s.mutex, s.table.acquires, s.resets) && Acquiring(s.table.ports, s.table.nextPort, s.table.acquires)
    && PortsApart(s.table.ports, s.table.nextPort, s.table.closed, s.resets) && ExpiriesApart(s.table.expiries, s.resets)
    && Unready(s.table.ports, s.resets)
    && Claimed(s.records, s.relay, s.resets) && Aiming(s.records, s.resets)
    && OneLister(s.records, s.relays) && Told(s.records, s.relays, s.trace) && Spared(s.records, s.resets, s.trace)
    && Waits(s.relays, s.resets)
  }

  /** Inside once there is one relay; past it, the record is settled. */
  predicate OneLister(records: seq<Record>, relays: map<nat, Relay>) {
    forall n <- relays ::
      && (relays[n].InOnce() ==> relays[n].rec < |records| && records[relays[n].rec].once == Underway(n))
      && (relays[n].pc.Snapped? || relays[n].pc.Serving? ==> relays[n].rec < |records| && records[relays[n].rec].once.Settled?)
  }

  predicate IsListing(trace: seq<Event>, rec: nat, phone: Serial, snapshot: Snapshot) {
    snapshot.at < |trace| && trace[snapshot.at] == Listed(rec, phone, snapshot.pkgs)
  }

  /** A snapshot is a listing of the phone, before the first command under its record. */
  predicate Told(records: seq<Record>, relays: map<nat, Relay>, trace: seq<Event>) {
    && (forall r :: 0 <= r < |records| && SnapshotOf(records[r].once).Some? ==>
          IsListing(trace, r, records[r].phone, SnapshotOf(records[r].once).value))
    && (forall n <- relays :: relays[n].pc.Naming? ==> IsListing(trace, relays[n].rec, relays[n].phone, relays[n].pc.snapshot))
    && (forall k :: 0 <= k < |trace| && trace[k].Command? ==> AfterListing(records, trace[k].rec, k))
  }

  predicate AfterListing(records: seq<Record>, r: nat, k: nat) {
    r < |records| && records[r].once.Settled? && (records[r].once.snapshot.Some? ==> records[r].once.snapshot.value.at < k)
  }

  predicate SparedBy(records: seq<Record>, phone: Serial, r: nat, pkg: Pkg, k: nat) {
    && r < |records| && records[r].phone == phone
    && records[r].once.Settled? && records[r].once.snapshot.Some?
    && records[r].once.snapshot.value.at < k && pkg !in records[r].once.snapshot.value.pkgs
  }

  predicate Mindful(records: seq<Record>, id: ResetId, r: Reset, length: nat) {
    && (r.since.Some? ==>
          && r.rec.Some? && r.rec.value < |records| && records[r.rec.value].once == Settled(r.since)
          && r.since.value.at < length)
    && (id.RelayedReset? && r.pc.Acting? ==> if r.since.Some? then r.pc.todo !! r.since.value.pkgs else r.pc.todo == {})
  }

  /** A relayed reset uninstalls what its snapshot does not have. */
  predicate Spared(records: seq<Record>, resets: map<ResetId, Reset>, trace: seq<Event>) {
    && (forall id <- resets :: Mindful(records, id, resets[id], |trace|))
    && (forall k :: 0 <= k < |trace| && trace[k].Uninstalled? && trace[k].reset.RelayedReset? ==>
          trace[k].under.Some? && SparedBy(records, trace[k].reset.phone, trace[k].under.value, trace[k].pkg, k))
  }

  /** A relay past its wait has no later record than a reset that is still at its phone. */
  predicate Waits(relays: map<nat, Relay>, resets: map<ResetId, Reset>) {
    forall n <- relays, id <- resets ::
      relays[n].PastWait() && relays[n].phone == id.phone && resets[id].Holding() && resets[id].rec.Some? ==>
        relays[n].rec <= resets[id].rec.value
  }

  // ---------- records only move forward ----------

  /** Records stay, and what is settled stays settled. */
  predicate Grows(old_: seq<Record>, new_: seq<Record>) {
    && |old_| <= |new_|
    && forall r :: 0 <= r < |old_| ==>
         && new_[r].phone == old_[r].phone && new_[r].lock == old_[r].lock
         && (old_[r].once.Settled? ==> new_[r].once == old_[r].once)
  }

  predicate SameLength(old_: seq<Record>, new_: seq<Record>) {
    Grows(old_, new_) && |old_| == |new_|
  }

  lemma CurrentStays(old_: seq<Record>, new_: seq<Record>, relay: map<Serial, nat>)
    requires Current(old_, relay) && SameLength(old_, new_)
    ensures Current(new_, relay)
  {
  }

  lemma RecordedStays(old_: seq<Record>, new_: seq<Record>, relays: map<nat, Relay>)
    requires Recorded(old_, relays) && Grows(old_, new_)
    ensures Recorded(new_, relays)
  {
  }

  lemma ResetsStay(old_: seq<Record>, new_: seq<Record>, relay: map<Serial, nat>, resets: map<ResetId, Reset>, trace: seq<Event>)
    requires Claimed(old_, relay, resets) && Aiming(old_, resets) && Spared(old_, resets, trace) && Grows(old_, new_)
    ensures Claimed(new_, relay, resets) && Aiming(new_, resets) && Spared(new_, resets, trace)
  {
  }

  // ---------- one relay changes ----------

  /** u may stand for relay n. */
  predicate RelayFits(records: seq<Record>, resets: map<ResetId, Reset>, trace: seq<Event>, n: nat, u: Relay) {
    && (u.HasRecord() ==> OwnRecord(records, u.phone, u.lock, u.rec))
    && (u.InOnce() ==> u.rec < |records| && records[u.rec].once == Underway(n))
    && (u.pc.Snapped? || u.pc.Serving? ==> u.rec < |records| && records[u.rec].once.Settled?)
    && (u.pc.Naming? ==> IsListing(trace, u.rec, u.phone, u.pc.snapshot))
    && (u.PastWait() ==> forall id <- resets ::
          u.phone == id.phone && resets[id].Holding() && resets[id].rec.Some? ==> u.rec <= resets[id].rec.value)
  }

  lemma PutRelay(s: State, n: nat, u: Relay)
    requires Inv(s) && RelayFits(s.records, s.resets, s.trace, n, u)
    ensures Inv(s.(relays := s.relays[n := u]))
  {
  }

  lemma RelayFitsNow(s: State, n: nat)
    requires Inv(s) && n in s.relays
    ensures RelayFits(s.records, s.resets, s.trace, n, s.relays[n])
  {
  }

  /** A step that changes no more than the relay's pc. */
  lemma RelayToKept(s: State, n: nat, pc: RelayPc)
    requires Inv(s) && n in s.relays && RelayFits(s.records, s.resets, s.trace, n, s.relays[n].(pc := pc))
    ensures Inv(RelayTo(s, n, pc))
  {
  }

  // ---------- a record's once moves on ----------

  lemma ToldOnce(s: State, r: nat, once: Once)
    requires Inv(s) && r < |s.records| && !s.records[r].once.Settled?
    requires SnapshotOf(once).Some? ==> IsListing(s.trace, r, s.records[r].phone, SnapshotOf(once).value)
    ensures Told(WithOnce(s.records, r, once), s.relays, s.trace)
  {
  }

  predicate NobodyIn(relays: map<nat, Relay>, r: nat) {
    forall n <- relays :: relays[n].InOnce() ==> relays[n].rec != r
  }

  lemma UnstartedMeansNobody(records: seq<Record>, relays: map<nat, Relay>, r: nat)
    requires OneLister(records, relays) && r < |records| && !records[r].once.Underway?
    ensures NobodyIn(relays, r)
  {
  }

  lemma NobodyElse(records: seq<Record>, relays: map<nat, Relay>, n: nat)
    requires OneLister(records, relays) && n in relays && relays[n].InOnce()
    ensures NobodyIn(relays[n := relays[n].(pc := Ended)], relays[n].rec)
  {
  }

  lemma PutOnce(s: State, r: nat, once: Once)
    requires Inv(s) && r < |s.records| && !s.records[r].once.Settled? && NobodyIn(s.relays, r)
    requires SnapshotOf(once).Some? ==> IsListing(s.trace, r, s.records[r].phone, SnapshotOf(once).value)
    ensures Inv(s.(records := WithOnce(s.records, r, once)))
  {
    var records := WithOnce(s.records, r, once);
    assert SameLength(s.records, records);
    CurrentStays(s.records, records, s.relay);
    RecordedStays(s.records, records, s.relays);
    ResetsStay(s.records, records, s.relay, s.resets, s.trace);
    ToldOnce(s, r, once);
  }

  /** settledSnapshot settles at most a record nobody has listed for. */
  lemma SettledKept(s: State, r: nat)
    requires Inv(s) && OnceReady(s, r)
    ensures Inv(s.(records := SettledRecords(s.records, r)))
  {
    if s.records[r].once.Unstarted? {
      UnstartedMeansNobody(s.records, s.relays, r);
      PutOnce(s, r, Settled(None));
    } else {
      assert s.(records := SettledRecords(s.records, r)) == s;
    }
  }

  // ---------- the trace grows ----------

  lemma AddEvent(s: State, e: Event)
    requires Inv(s)
    requires e.Command? ==> AfterListing(s.records, e.rec, |s.trace|)
    requires e.Uninstalled? && e.reset.RelayedReset? ==> e.under.Some? && SparedBy(s.records, e.reset.phone, e.under.value, e.pkg, |s.trace|)
    ensures Inv(s.(trace := s.trace + [e]))
  {
  }

  // ---------- the relay's steps ----------

  lemma AppendGrows(records: seq<Record>, rec: Record, phone: Serial, relay: map<Serial, nat>)
    requires Current(records, relay) && rec.phone == phone
    ensures Grows(records, records + [rec])
    ensures Current(records + [rec], relay[phone := |records|])
  {
  }

  lemma ToldAppended(records: seq<Record>, rec: Record, relays: map<nat, Relay>, trace: seq<Event>)
    requires Told(records, relays, trace) && rec.once.Unstarted?
    ensures Told(records + [rec], relays, trace)
  {
  }

  lemma ClaimedAnew(s: State, rec: Record, phone: Serial)
    requires Inv(s)
    ensures Claimed(s.records, s.relay[phone := |s.records|], s.resets)
  {
  }

  lemma RegisteredAnewKept(s: State, n: nat, prev: Option<nat>)
    requires Inv(s) && n in s.relays
    ensures Inv(RegisteredAnew(s, n, prev))
  {
    var r := s.relays[n];
    var rec := Record(r.phone, r.lock, prev, Unstarted);
    var id := |s.records|;
    AppendGrows(s.records, rec, r.phone, s.relay);
    ToldAppended(s.records, rec, s.relays, s.trace);
    ClaimedAnew(s, rec, r.phone);
    ResetsStay(s.records, s.records + [rec], s.relay[r.phone := id], s.resets, s.trace);
    var t := s.(records := s.records + [rec], relay := s.relay[r.phone := id]);
    assert Inv(t);
    PutRelay(t, n, r.(pc := Registered, rec := id));
    assert t.(relays := s.relays[n := r.(pc := Registered, rec := id)]) == RegisteredAnew(s, n, prev);
  }

  lemma StoreKept(s: State, n: nat)
    requires Inv(s) && RelayMay(s, n, Store)
    ensures Inv(RelayNext(s, n, Store))
  {
    var r := s.relays[n];
    if r.phone !in s.relay {
      RegisteredAnewKept(s, n, None);
    } else {
      var seen := s.relay[r.phone];
      if s.records[seen].lock == r.lock {
        PutRelay(s, n, r.(pc := Registered, rec := seen));
      } else {
        RelayToKept(s, n, Swapping(seen));
      }
    }
  }

  lemma EnterOnceKept(s: State, n: nat)
    requires Inv(s) && RelayMay(s, n, EnterOnce)
    ensures Inv(RelayNext(s, n, EnterOnce))
  {
    var r := s.relays[n].rec;
    RelayFitsNow(s, n);
    if s.records[r].once.Settled? {
      RelayToKept(s, n, Snapped);
    } else {
      UnstartedMeansNobody(s.records, s.relays, r);
      PutOnce(s, r, Underway(n));
      var t := s.(records := WithOnce(s.records, r, Underway(n)));
      RelayFitsNow(t, n);
      RelayToKept(t, n, Listing);
      assert RelayTo(t, n, Listing) == RelayNext(s, n, EnterOnce);
    }
  }

  /** The record inside whose once relay n is settles, the relay being gone. */
  function Abandoned(s: State, n: nat, once: Once): State
    requires n in s.relays && s.relays[n].rec < |s.records|
  {
    RelayTo(s, n, Ended).(records := WithOnce(s.records, s.relays[n].rec, once))
  }

  lemma AbandonedKept(s: State, n: nat, once: Once)
    requires Inv(s) && n in s.relays && s.relays[n].InOnce() && once.Settled? && s.relays[n].rec < |s.records|
    requires once.snapshot.Some? ==> IsListing(s.trace, s.relays[n].rec, s.relays[n].phone, once.snapshot.value)
    ensures Inv(Abandoned(s, n, once))
  {
    RelayToKept(s, n, Ended);
    NobodyElse(s.records, s.relays, n);
    PutOnce(RelayTo(s, n, Ended), s.relays[n].rec, once);
  }

  /** The relay inside once settles its record and leaves. */
  lemma LeaveOnceKept(s: State, n: nat, once: Once)
    requires Inv(s) && n in s.relays && s.relays[n].InOnce() && once.Settled? && s.relays[n].rec < |s.records|
    requires once.snapshot.Some? ==> IsListing(s.trace, s.relays[n].rec, s.relays[n].phone, once.snapshot.value)
    ensures Inv(LeftOnce(s, n, once))
  {
    AbandonedKept(s, n, once);
    LeftOnceFits(s, n, once);
    PutRelay(Abandoned(s, n, once), n, s.relays[n].(pc := Snapped));
    assert s.relays[n := s.relays[n].(pc := Ended)][n := s.relays[n].(pc := Snapped)] == s.relays[n := s.relays[n].(pc := Snapped)];
  }

  lemma LeftOnceFits(s: State, n: nat, once: Once)
    requires Recorded(s.records, s.relays) && Waits(s.relays, s.resets)
    requires n in s.relays && s.relays[n].InOnce() && once.Settled? && s.relays[n].rec < |s.records|
    ensures RelayFits(WithOnce(s.records, s.relays[n].rec, once), s.resets, s.trace, n, s.relays[n].(pc := Snapped))
  {
  }

  lemma ListPhoneKept(s: State, n: nat, ok: bool)
    requires Inv(s) && RelayMay(s, n, ListPhone(ok))
    ensures Inv(RelayNext(s, n, ListPhone(ok)))
  {
    var r := s.relays[n];
    if ok {
      var e := Listed(r.rec, r.phone, Installed(s, r.phone));
      AddEvent(s, e);
      var t := s.(trace := s.trace + [e]);
      RelayFitsNow(t, n);
      RelayToKept(t, n, Naming(Snapshot(e.pkgs, |s.trace|)));
    } else {
      LeaveOnceKept(s, n, Settled(None));
    }
  }

  lemma NamedKept(s: State, n: nat)
    requires Inv(s) && n in s.relays && s.relays[n].pc.Naming? && s.relays[n].rec < |s.records|
    ensures Inv(LeftOnce(s, n, Settled(Some(s.relays[n].pc.snapshot))))
  {
    RelayFitsNow(s, n);
    LeaveOnceKept(s, n, Settled(Some(s.relays[n].pc.snapshot)));
  }

  lemma PrevSettledKept(s: State, n: nat, prev: nat)
    requires Inv(s) && n in s.relays && s.relays[n].pc.Naming? && s.relays[n].rec < |s.records| && OnceReady(s, prev)
    ensures Inv(LeftOnce(s.(records := SettledRecords(s.records, prev)), n, Settled(Some(s.relays[n].pc.snapshot))))
  {
    SettledKept(s, prev);
    NamedKept(s.(records := SettledRecords(s.records, prev)), n);
  }

  lemma SettlePrevKept(s: State, n: nat)
    requires Inv(s) && RelayMay(s, n, SettlePrev)
    ensures Inv(RelayNext(s, n, SettlePrev))
  {
    var prev := s.records[s.relays[n].rec].prev;
    if prev.Some? {
      PrevSettledKept(s, n, prev.value);
    } else {
      NamedKept(s, n);
    }
  }

  lemma WaitKept(s: State, n: nat)
    requires Inv(s) && RelayMay(s, n, Wait)
    ensures Inv(RelayNext(s, n, Wait))
  {
  }

  lemma IssueKept(s: State, n: nat, after: set<Pkg>)
    requires Inv(s) && RelayMay(s, n, Issue(after))
    ensures Inv(RelayNext(s, n, Issue(after)))
  {
  }

  lemma SwapKept(s: State, n: nat)
    requires Inv(s) && RelayMay(s, n, Swap)
    ensures Inv(RelayNext(s, n, Swap))
  {
    RelayFitsNow(s, n);
    var r := s.relays[n];
    if r.phone in s.relay && s.relay[r.phone] == r.pc.seen {
      RegisteredAnewKept(s, n, Some(r.pc.seen));
    } else {
      RelayToKept(s, n, Registering);
    }
  }

  lemma RelayMovesOn(s: State, n: nat, step: RelayStep)
    requires Inv(s) && RelayMay(s, n, step) && (step.Join? || step.OpenDevice? || step.End?)
    ensures Inv(RelayNext(s, n, step))
  {
    RelayFitsNow(s, n);
    RelayToKept(s, n, if step.Join? then Joined else if step.OpenDevice? then Serving else Ended);
  }

  lemma RelayKept(s: State, n: nat, step: RelayStep)
    requires Inv(s) && RelayMay(s, n, step)
    ensures Inv(RelayNext(s, n, step))
  {
    match step
    case Store => RelayFitsNow(s, n); StoreKept(s, n);
    case Swap => SwapKept(s, n);
    case Wait => RelayFitsNow(s, n); WaitKept(s, n);
    case EnterOnce => RelayFitsNow(s, n); EnterOnceKept(s, n);
    case ListPhone(ok) => RelayFitsNow(s, n); ListPhoneKept(s, n, ok);
    case SettlePrev => RelayFitsNow(s, n); SettlePrevKept(s, n);
    case Issue(after) => RelayFitsNow(s, n); IssueKept(s, n, after);
    case Join => RelayMovesOn(s, n, step);
    case OpenDevice => RelayMovesOn(s, n, step);
    case End => RelayMovesOn(s, n, step);
  }

  // ---------- acquires, closes, expiries ----------

  lemma NewPort(s: State, n: nat, lock: Lock, port: Port, a: Acquire)
    requires Acquiring(s.table.ports, s.table.nextPort, s.table.acquires) && lock !in s.table.ports && n !in s.table.acquires
    requires forall l <- s.table.ports :: s.table.ports[l].id < s.table.nextPort
    requires port.id == s.table.nextPort == a.port && a.todo <= port.phones && a.current.None?
    ensures Acquiring(s.table.ports[lock := port], s.table.nextPort + 1, s.table.acquires[n := a])
  {
  }

  lemma AcquireStartKept(s: State, n: nat, lock: Lock, phones: set<Serial>, locals: set<Serial>)
    requires Inv(s) && n !in s.table.acquires
    ensures Inv(AcquireStarted(s, n, lock, phones, locals))
  {
    if lock !in s.table.ports {
      NewPort(s, n, lock, Port(s.table.nextPort, phones, phones * locals, {}), Acquire(lock, s.table.nextPort, phones * locals, None));
    }
  }

  lemma EnterKept(s: State, n: nat, phone: Serial)
    requires Inv(s) && AcquireMay(s, n, Enter(phone))
    ensures Inv(AcquireNext(s, n, Enter(phone)))
  {
  }

  /** The port with one more phone set up. */
  function MadeReady(s: State, lock: Lock, phone: Serial): State
    requires lock in s.table.ports
  {
    var port := s.table.ports[lock];
    s.(table := s.table.(ports := s.table.ports[lock := port.(ready := port.ready + {phone})]))
  }

  /** A phone whose mutex an acquire holds has no reset acting on it, so it may be made ready. */
  lemma ReadyUnderMutex(s: State, n: nat, lock: Lock)
    requires Guarded(s.mutex, s.table.acquires, s.resets) && Unready(s.table.ports, s.resets)
    requires Acquiring(s.table.ports, s.table.nextPort, s.table.acquires)
    requires InPhone(s, n) && lock in s.table.ports && s.table.ports[lock].id == s.table.acquires[n].port
    ensures Unready(MadeReady(s, lock, s.table.acquires[n].current.value).table.ports, s.resets)
  {
  }

  lemma MadeReadyKept(s: State, n: nat, lock: Lock)
    requires Inv(s) && InPhone(s, n) && lock in s.table.ports && s.table.ports[lock].id == s.table.acquires[n].port
    ensures Inv(MadeReady(s, lock, s.table.acquires[n].current.value))
  {
    ReadyUnderMutex(s, n, lock);
  }

  lemma UnlockedKept(s: State, n: nat, a: Acquire)
    requires Inv(s) && InPhone(s, n)
    requires a.lock == s.table.acquires[n].lock && a.port == s.table.acquires[n].port && a.todo <= s.table.acquires[n].todo && a.current.None?
    ensures Inv(s.(table := s.table.(acquires := s.table.acquires[n := a]), mutex := s.mutex - {s.table.acquires[n].current.value}))
  {
  }

  lemma LeaveKept(s: State, n: nat, ok: bool)
    requires Inv(s) && AcquireMay(s, n, Leave(ok))
    ensures Inv(AcquireNext(s, n, Leave(ok)))
  {
    var a := s.table.acquires[n];
    var b := a.(todo := if ok then a.todo - {a.current.value} else {}, current := None);
    if ok && a.lock in s.table.ports && s.table.ports[a.lock].id == a.port {
      MadeReadyKept(s, n, a.lock);
      UnlockedKept(MadeReady(s, a.lock, a.current.value), n, b);
    } else {
      UnlockedKept(s, n, b);
    }
  }

  lemma ClosedKept(s: State, lock: Lock)
    requires Inv(s) && lock in s.table.ports
    ensures Inv(Closed(s, lock))
  {
  }

  lemma ExpiredKept(s: State, n: nat, lock: Lock)
    requires Inv(s) && n !in s.table.expiries
    ensures Inv(Expired(s, n, lock))
  {
    if lock in s.table.ports {
      ClosedKept(s, lock);
    }
  }

  // ---------- one reset changes ----------

  predicate ResetFits(s: State, id: ResetId, u: Reset) {
    && (u.Holding() ==> id.phone in s.mutex && s.mutex[id.phone] == ByReset(id))
    && (id.LocalReset? ==> id.port in s.table.closed && id.phone !in s.table.closed[id.port].todo)
    && (id.RelayedReset? ==> id.expiry in s.table.expiries && id.phone in s.table.expiries[id.expiry].visited)
    && (u.pc.Acting? ==> NotReady(s.table.ports, id.phone))
    && (u.rec.Some? ==>
          && OwnRecord(s.records, id.phone, u.lock, u.rec.value)
          && !(id.phone in s.relay && s.relay[id.phone] == u.rec.value)
          && forall j <- s.resets :: s.resets[j].rec == u.rec ==> j == id)
    && Aims(s.records, id, u)
    && Mindful(s.records, id, u, |s.trace|)
    && (u.Holding() && u.rec.Some? ==> forall n <- s.relays ::
          s.relays[n].PastWait() && s.relays[n].phone == id.phone ==> s.relays[n].rec <= u.rec.value)
  }

  lemma PutResetClaimed(s: State, id: ResetId, u: Reset)
    requires Claimed(s.records, s.relay, s.resets) && ResetFits(s, id, u)
    ensures Claimed(s.records, s.relay, s.resets[id := u])
  {
  }

  lemma PutResetSpared(s: State, id: ResetId, u: Reset)
    requires Spared(s.records, s.resets, s.trace) && ResetFits(s, id, u)
    ensures Spared(s.records, s.resets[id := u], s.trace)
  {
  }

  lemma PutResetWaits(s: State, id: ResetId, u: Reset)
    requires Waits(s.relays, s.resets) && Unready(s.table.ports, s.resets) && ResetFits(s, id, u)
    ensures Waits(s.relays, s.resets[id := u]) && Unready(s.table.ports, s.resets[id := u])
  {
  }

  lemma PutReset(s: State, id: ResetId, u: Reset)
    requires Inv(s) && ResetFits(s, id, u)
    ensures Inv(s.(resets := s.resets[id := u]))
  {
    PutResetClaimed(s, id, u);
    PutResetSpared(s, id, u);
    PutResetWaits(s, id, u);
  }

  lemma ResetFitsNow(s: State, id: ResetId)
    requires Inv(s) && id in s.resets
    ensures ResetFits(s, id, s.resets[id])
  {
  }

  lemma VisitKept(s: State, n: nat, phone: Serial)
    requires Inv(s) && Enabled(s, Visit(n, phone))
    ensures Inv(Visited(s, n, phone))
  {
    var e := s.table.expiries[n];
    var t := WithExpiry(s, n, e.(visited := e.visited + {phone}));
    assert Inv(t);
    if phone in s.relay && s.records[s.relay[phone]].lock == e.lock {
      PutReset(t, RelayedReset(n, phone), Reset(e.lock, Queued, None, None));
    }
  }

  lemma ResetPhoneKept(s: State, port: nat, phone: Serial)
    requires Inv(s) && Enabled(s, ResetPhone(port, phone))
    ensures Inv(PhoneReset(s, port, phone))
  {
    var c := s.table.closed[port];
    var t := s.(table := s.table.(closed := s.table.closed[port := c.(todo := c.todo - {phone})]));
    assert Inv(t);
    PutReset(t, LocalReset(port, phone), Reset(c.lock, Queued, None, None));
  }

  // ---------- the reset's steps ----------

  lemma BeginKept(s: State, id: ResetId)
    requires Inv(s) && ResetMay(s, id, Begin)
    ensures Inv(ResetNext(s, id, Begin))
  {
    var t := s.(mutex := s.mutex[id.phone := ByReset(id)]);
    assert Inv(t);
    ResetFitsNow(s, id);
    PutReset(t, id, s.resets[id].(pc := Locked));
  }

  lemma LoadKept(s: State, id: ResetId)
    requires Inv(s) && ResetMay(s, id, Load)
    ensures Inv(ResetNext(s, id, Load))
  {
    ResetFitsNow(s, id);
    PutReset(s, id, ResetNext(s, id, Load).resets[id]);
  }

  lemma OverKept(s: State, id: ResetId)
    requires Inv(s) && id in s.resets && s.resets[id].Holding()
    ensures Inv(ResetOver(s, id))
  {
    ResetFitsNow(s, id);
    var u := s.resets[id].(pc := Finished);
    PutReset(s, id, u);
    assert Inv(ResetOver(s, id));
  }

  lemma TakenFits(s: State, id: ResetId)
    requires Inv(s) && id in s.resets && s.resets[id].pc.Loaded?
    requires s.resets[id].pc.seen.Some? && id.phone in s.relay && s.relay[id.phone] == s.resets[id].pc.seen.value
    ensures ResetFits(s.(relay := s.relay - {id.phone}), id, ResetTook(s, id).resets[id])
  {
  }

  lemma TakeKept(s: State, id: ResetId)
    requires Inv(s) && ResetMay(s, id, Take)
    ensures Inv(ResetNext(s, id, Take))
  {
    var seen := s.resets[id].pc.seen;
    if seen.Some? && id.phone in s.relay && s.relay[id.phone] == seen.value {
      TakenFits(s, id);
      var t := s.(relay := s.relay - {id.phone});
      assert Inv(t);
      PutReset(t, id, ResetTook(s, id).resets[id]);
    } else if id.RelayedReset? {
      OverKept(s, id);
    } else {
      ResetFitsNow(s, id);
      PutReset(s, id, s.resets[id].(pc := Checking));
    }
  }

  lemma SettleKept(s: State, id: ResetId)
    requires Inv(s) && ResetMay(s, id, Settle)
    ensures Inv(ResetNext(s, id, Settle))
  {
    var r := s.resets[id].rec.value;
    SettledKept(s, r);
    var t := s.(records := SettledRecords(s.records, r));
    ResetFitsNow(t, id);
    if SnapshotOf(s.records[r].once).Some? {
      assert IsListing(s.trace, r, s.records[r].phone, SnapshotOf(s.records[r].once).value);
    }
    PutReset(t, id, s.resets[id].(pc := Checking, since := SnapshotOf(s.records[r].once)));
  }

  lemma CheckKept(s: State, id: ResetId)
    requires Inv(s) && ResetMay(s, id, Check)
    ensures Inv(ResetNext(s, id, Check))
  {
    if HeldByAnyPort(s.table.ports, id.phone) {
      OverKept(s, id);
    } else {
      ResetFitsNow(s, id);
      PutReset(s, id, s.resets[id].(pc := Acting(false, {})));
    }
  }

  lemma ListPackagesKept(s: State, id: ResetId, listed: set<Pkg>, baseline: set<Pkg>)
    requires Inv(s) && ResetMay(s, id, ListPackages(listed, baseline))
    ensures Inv(ResetNext(s, id, ListPackages(listed, baseline)))
  {
    ResetFitsNow(s, id);
    PutReset(s, id, ResetListed(s, id, listed, baseline).resets[id]);
  }

  lemma UninstallKept(s: State, id: ResetId, pkg: Pkg, ok: bool)
    requires Inv(s) && ResetMay(s, id, Uninstall(pkg, ok))
    ensures Inv(ResetNext(s, id, Uninstall(pkg, ok)))
  {
    ResetFitsNow(s, id);
    var e := Uninstalled(id, s.resets[id].rec, pkg);
    var t := if ok then s.(trace := s.trace + [e], phones := s.phones[id.phone := Installed(s, id.phone) - {pkg}]) else s;
    if ok {
      AddEvent(s, e);
    }
    ResetFitsNow(t, id);
    PutReset(t, id, s.resets[id].(pc := Acting(true, s.resets[id].pc.todo - {pkg})));
  }

  lemma ResetKept(s: State, id: ResetId, step: ResetStep)
    requires Inv(s) && ResetMay(s, id, step)
    ensures Inv(ResetNext(s, id, step))
  {
    match step
    case Begin => BeginKept(s, id);
    case Load => LoadKept(s, id);
    case Take => TakeKept(s, id);
    case Settle => SettleKept(s, id);
    case Check => CheckKept(s, id);
    case Opaque => AddEvent(s, Stepped(id));
    case ListPackages(listed, baseline) => ListPackagesKept(s, id, listed, baseline);
    case Uninstall(pkg, ok) => UninstallKept(s, id, pkg, ok);
    case Finish => OverKept(s, id);
  }

  // ---------- every step, every run ----------

  lemma StepKept(s: State, a: Action)
    requires Inv(s) && Enabled(s, a)
    ensures Inv(Next(s, a))
  {
    match a
    case RelayStart(n, phone, lock) => PutRelay(s, n, Relay(phone, lock, Registering, 0));
    case RelayDoes(n, step) => RelayKept(s, n, step);
    case AcquireStart(n, lock, phones, locals) => AcquireStartKept(s, n, lock, phones, locals);
    case AcquireDoes(n, step) =>
      match step {
        case Enter(phone) => EnterKept(s, n, phone);
        case Clean(_) =>
        case Leave(ok) => LeaveKept(s, n, ok);
      }
    case Close(lock) => ClosedKept(s, lock);
    case Expire(n, lock) => ExpiredKept(s, n, lock);
    case Visit(n, phone) => VisitKept(s, n, phone);
    case ResetPhone(port, phone) => ResetPhoneKept(s, port, phone);
    case ResetDoes(id, step) => ResetKept(s, id, step);
    case OwnerChanges(_, _) =>
  }

  /** The invariant at every moment up to n. */
  predicate InvUpTo(states: seq<State>, n: nat)
    requires n < |states|
  {
    forall i :: 0 <= i <= n ==> Inv(states[i])
  }

  lemma StepAtKept(states: seq<State>, i: nat)
    requires i + 1 < |states| && StepAt(states, i) && InvUpTo(states, i)
    ensures InvUpTo(states, i + 1)
  {
    var a :| Enabled(states[i], a) && states[i + 1] == Next(states[i], a);
    StepKept(states[i], a);
  }

  lemma StartInv(states: seq<State>)
    requires Behaviour(states)
    ensures InvUpTo(states, 0)
  {
    var phones :| states[0] == Start(phones);
  }

  lemma {:induction false} BehaviourInv(states: seq<State>, n: nat)
    requires Behaviour(states) && n < |states|
    ensures InvUpTo(states, n)
    decreases n
  {
    if n == 0 {
      StartInv(states);
    } else {
      BehaviourInv(states, n - 1);
      StepAtKept(states, n - 1);
    }
  }

  /** Any state that some interleaving leads to. */
  ghost predicate Reachable(s: State) {
    exists states :: Behaviour(states) && s == states[|states| - 1]
  }

  lemma ReachableInv(s: State)
    requires Reachable(s)
    ensures Inv(s)
  {
    var states :| Behaviour(states) && s == states[|states| - 1];
    BehaviourInv(states, |states| - 1);
  }

  // ---------- the main results ----------

  /** What a reset does to a phone. */
  predicate OnPhone(step: ResetStep) {
    step.Opaque? || step.ListPackages? || step.Uninstall?
  }

  lemma ReadyMeansLeftAlone(s: State, lock: Lock, id: ResetId)
    requires Unready(s.table.ports, s.resets) && lock in s.table.ports && id.phone in s.table.ports[lock].ready
    ensures !ResetActs(s, id)
  {
  }

  predicate StillReady(s: State, t: State, lock: Lock, phone: Serial) {
    lock in s.table.ports && (lock !in t.table.ports || (t.table.ports[lock].id == s.table.ports[lock].id && phone in t.table.ports[lock].ready))
  }

  lemma AcquireLeavesReady(s: State, n: nat, step: AcquireStep, lock: Lock, phone: Serial)
    requires AcquireMay(s, n, step) && lock in s.table.ports && phone in s.table.ports[lock].ready
    ensures StillReady(s, AcquireNext(s, n, step), lock, phone)
  {
  }

  /** Set up it stays for another step, unless the port leaves the table. */
  lemma ReadyStays(s: State, a: Action, lock: Lock, phone: Serial)
    requires Enabled(s, a) && lock in s.table.ports && phone in s.table.ports[lock].ready
    ensures StillReady(s, Next(s, a), lock, phone)
  {
    if a.AcquireDoes? {
      AcquireLeavesReady(s, a.n, a.acquire, lock, phone);
    }
  }

  /** The lock has a port with that id. */
  predicate HasPort(s: State, lock: Lock, port: nat) {
    lock in s.table.ports && s.table.ports[lock].id == port
  }

  predicate IsReady(s: State, lock: Lock, port: nat, phone: Serial) {
    HasPort(s, lock, port) && phone in s.table.ports[lock].ready
  }

  lemma AcquireMakesNoPort(s: State, n: nat, step: AcquireStep, lock: Lock, port: nat)
    requires AcquireMay(s, n, step) && HasPort(AcquireNext(s, n, step), lock, port)
    ensures HasPort(s, lock, port)
  {
  }

  lemma EndMakesNoPort(s: State, a: Action, lock: Lock, port: nat)
    requires Enabled(s, a) && (a.Close? || a.Expire?) && HasPort(Next(s, a), lock, port)
    ensures HasPort(s, lock, port)
  {
  }

  /** Only a new port has a new id: one that was given out and is in the table was there before. */
  lemma PortWasThere(s: State, a: Action, lock: Lock, port: nat)
    requires Enabled(s, a) && port < s.table.nextPort && HasPort(Next(s, a), lock, port)
    ensures HasPort(s, lock, port)
  {
    if a.AcquireDoes? {
      AcquireMakesNoPort(s, a.n, a.acquire, lock, port);
    } else if a.Close? || a.Expire? {
      EndMakesNoPort(s, a, lock, port);
    }
  }

  /** The port, if it is still in the table, still has the phone set up. */
  predicate ReadyIfThere(s: State, lock: Lock, port: nat, phone: Serial) {
    port < s.table.nextPort && (HasPort(s, lock, port) ==> IsReady(s, lock, port, phone))
  }

  lemma NextReady(s: State, a: Action, lock: Lock, port: nat, phone: Serial)
    requires Enabled(s, a) && ReadyIfThere(s, lock, port, phone)
    ensures ReadyIfThere(Next(s, a), lock, port, phone)
  {
    if HasPort(Next(s, a), lock, port) {
      PortWasThere(s, a, lock, port);
      ReadyStays(s, a, lock, phone);
    }
  }

  lemma StepAtReady(states: seq<State>, i: nat, lock: Lock, port: nat, phone: Serial)
    requires i + 1 < |states| && StepAt(states, i) && ReadyIfThere(states[i], lock, port, phone)
    ensures ReadyIfThere(states[i + 1], lock, port, phone)
  {
    var a :| Enabled(states[i], a) && states[i + 1] == Next(states[i], a);
    NextReady(states[i], a, lock, port, phone);
  }

  lemma {:induction false} ReadyUntil(states: seq<State>, m: nat, n: nat, lock: Lock, port: nat, phone: Serial)
    requires m <= n < |states| && Behaviour(states) && ReadyIfThere(states[m], lock, port, phone)
    ensures ReadyIfThere(states[n], lock, port, phone)
    decreases n
  {
    if m == n {
    } else {
      ReadyUntil(states, m, n - 1, lock, port, phone);
      StepAtReady(states, n - 1, lock, port, phone);
    }
  }

  lemma ReadyToStart(s: State, lock: Lock, phone: Serial)
    requires PortsApart(s.table.ports, s.table.nextPort, s.table.closed, s.resets)
    requires lock in s.table.ports && phone in s.table.ports[lock].ready
    ensures ReadyIfThere(s, lock, s.table.ports[lock].id, phone)
  {
  }

  lemma ReadyMeansNoStep(s: State, lock: Lock, port: nat, id: ResetId, step: ResetStep)
    requires Inv(s) && ReadyIfThere(s, lock, port, id.phone) && HasPort(s, lock, port) && OnPhone(step)
    ensures !Enabled(s, ResetDoes(id, step))
  {
    ReadyMeansLeftAlone(s, lock, id);
  }

  /**
   From the end of a lock's setup of a phone until its port leaves the table,
   whatever happens in between: no reset does anything to that phone.
   */
  lemma LeftAloneUntilClosed(states: seq<State>, m: nat, n: nat, lock: Lock, port: nat, id: ResetId, step: ResetStep)
    requires Behaviour(states) && m <= n < |states| && OnPhone(step)
    requires IsReady(states[m], lock, port, id.phone) && HasPort(states[n], lock, port)
    ensures !Enabled(states[n], ResetDoes(id, step))
  {
    BehaviourInv(states, m);
    BehaviourInv(states, n);
    ReadyToStart(states[m], lock, id.phone);
    ReadyUntil(states, m, n, lock, port, id.phone);
    ReadyMeansNoStep(states[n], lock, port, id, step);
  }

  /** A relayed reset acts with a record that names its own lock. */
  lemma RelayedResetsActOnTheirOwn(s: State, id: ResetId, step: ResetStep)
    requires Reachable(s) && id.RelayedReset? && OnPhone(step) && Enabled(s, ResetDoes(id, step))
    ensures var r := s.resets[id];
            r.rec.Some? && OwnRecord(s.records, id.phone, r.lock, r.rec.value)
  {
    ReachableInv(s);
    ResetFitsNow(s, id);
  }

  /** A reset takes a record of its own lock, the phone's latest, or none. */
  lemma LatestIsTaken(s: State, id: ResetId)
    requires Reachable(s) && ResetMay(s, id, Take)
    ensures var t := ResetNext(s, id, Take);
            id in t.resets && (t.resets[id].rec.Some? ==> TakenAway(s, t, id))
  {
    ReachableInv(s);
    LatestIsTakenInv(s, id);
  }

  predicate TakenAway(s: State, t: State, id: ResetId)
    requires id in t.resets && t.resets[id].rec.Some?
  {
    var r := t.resets[id].rec.value;
    && OwnRecord(s.records, id.phone, t.resets[id].lock, r) && LatestOf(s.records, id.phone, r)
    && id.phone in s.relay && s.relay[id.phone] == r && id.phone !in t.relay
  }

  lemma LatestIsTakenInv(s: State, id: ResetId)
    requires Current(s.records, s.relay) && Aiming(s.records, s.resets) && ResetMay(s, id, Take)
    ensures var t := ResetNext(s, id, Take);
            id in t.resets && (t.resets[id].rec.Some? ==> TakenAway(s, t, id))
  {
  }

  /** A relay that registers after a reset has taken a record of the phone gets a later one. */
  lemma LaterRelaysHaveLaterRecords(s: State, id: ResetId, n: nat, step: RelayStep)
    requires Reachable(s) && id in s.resets && s.resets[id].rec.Some?
    requires (step.Store? || step.Swap?) && RelayMay(s, n, step) && s.relays[n].phone == id.phone
    ensures var t := RelayNext(s, n, step);
            n in t.relays && (t.relays[n].HasRecord() ==> t.relays[n].rec > s.resets[id].rec.value)
  {
    ReachableInv(s);
    LaterRecords(s, id, n, step);
  }

  lemma LaterRecords(s: State, id: ResetId, n: nat, step: RelayStep)
    requires Current(s.records, s.relay) && Claimed(s.records, s.relay, s.resets)
    requires id in s.resets && s.resets[id].rec.Some?
    requires (step.Store? || step.Swap?) && RelayMay(s, n, step) && s.relays[n].phone == id.phone
    ensures var t := RelayNext(s, n, step);
            n in t.relays && (t.relays[n].HasRecord() ==> t.relays[n].rec > s.resets[id].rec.value)
  {
    assert id.phone in s.relay ==> LatestOf(s.records, id.phone, s.relay[id.phone]);
  }

  /** A relay with a later record than a reset's opens the phone, and uses it, only when that reset is over. */
  lemma LaterRelaysWait(s: State, id: ResetId, n: nat, step: RelayStep)
    requires Reachable(s) && id in s.resets && s.resets[id].rec.Some?
    requires Enabled(s, RelayDoes(n, step)) && (step.ListPhone? || step.OpenDevice? || step.Issue?)
    requires s.relays[n].phone == id.phone && s.relays[n].rec > s.resets[id].rec.value
    ensures s.resets[id].pc.Finished?
  {
    ReachableInv(s);
    ResetFitsNow(s, id);
  }

  /**
   What a relayed reset uninstalls was not on the phone when its record's
   snapshot was listed, before any command relayed under that record.
   */
  lemma SnapshotIsSpared(s: State, id: ResetId, pkg: Pkg, ok: bool)
    requires Reachable(s) && id.RelayedReset? && Enabled(s, ResetDoes(id, Uninstall(pkg, ok)))
    ensures s.resets[id].rec.Some? && s.resets[id].since.Some?
    ensures var r := s.resets[id].rec.value;
            var snapshot := s.resets[id].since.value;
            && OwnRecord(s.records, id.phone, s.resets[id].lock, r)
            && IsListing(s.trace, r, id.phone, snapshot)
            && pkg !in snapshot.pkgs
            && forall k :: 0 <= k < |s.trace| && s.trace[k].Command? && s.trace[k].rec == r ==> snapshot.at < k
  {
    ReachableInv(s);
    ResetFitsNow(s, id);
    var r := s.resets[id].rec.value;
    assert IsListing(s.trace, r, s.records[r].phone, SnapshotOf(s.records[r].once).value);
    forall k | 0 <= k < |s.trace| && s.trace[k].Command? && s.trace[k].rec == r
      ensures s.resets[id].since.value.at < k
    {
      assert AfterListing(s.records, r, k);
    }
  }

  /** Each record is one reset's at most, and each phone of a closed port is reset once. */
  lemma TornDownOnce(s: State)
    requires Reachable(s)
    ensures forall i <- s.resets, j <- s.resets :: s.resets[i].rec.Some? && s.resets[i].rec == s.resets[j].rec ==> i == j
    ensures forall lock <- s.table.ports :: Enabled(s, Close(lock)) && s.table.ports[lock].id !in s.table.closed
    ensures forall port, phone :: Enabled(s, ResetPhone(port, phone)) ==> LocalReset(port, phone) !in s.resets
    ensures forall n, phone :: Enabled(s, Visit(n, phone)) ==> RelayedReset(n, phone) !in s.resets
  {
    ReachableInv(s);
  }

  lemma ListedNowOrBefore(s: State, t: State, k: nat)
    requires OneMore(s, t) && k < |t.trace|
    ensures if k < |s.trace| then t.trace[k] == s.trace[k]
            else k == |s.trace| && (t.trace[k].Listed? ==> t.trace[k].pkgs == Installed(s, t.trace[k].phone))
  {
  }

  lemma StepAtTells(states: seq<State>, i: nat, k: nat)
    requires i + 1 < |states| && StepAt(states, i) && k < |states[i + 1].trace|
    ensures if k < |states[i].trace| then states[i + 1].trace[k] == states[i].trace[k]
            else k == |states[i].trace|
                 && (states[i + 1].trace[k].Listed? ==> states[i + 1].trace[k].pkgs == Installed(states[i], states[i + 1].trace[k].phone))
  {
    ListedNowOrBefore(states[i], states[i + 1], k);
  }

  lemma NothingTold(states: seq<State>)
    requires Behaviour(states)
    ensures states[0].trace == []
  {
  }

  /** A listing in the trace is what was installed at that moment. */
  lemma {:induction false} ListedWhatWasThere(states: seq<State>, n: nat, k: nat) returns (m: nat)
    requires Behaviour(states) && n < |states| && k < |states[n].trace| && states[n].trace[k].Listed?
    ensures m < n && |states[m].trace| == k
    ensures var e := states[n].trace[k]; e.pkgs == Installed(states[m], e.phone)
    decreases n
  {
    NothingTold(states);
    StepAtTells(states, n - 1, k);
    if k < |states[n - 1].trace| {
      m := ListedWhatWasThere(states, n - 1, k);
    } else {
      m := n - 1;
    }
  }

  /**
   Of any run: a package that a relayed reset has uninstalled was absent from
   the phone at moment m, when its record's snapshot was listed as event j, and
   every command relayed under that record came later.
   */
  lemma UninstalledWasAbsent(states: seq<State>, n: nat, k: nat) returns (j: nat, m: nat)
    requires Behaviour(states) && n < |states| && k < |states[n].trace|
    requires states[n].trace[k].Uninstalled? && states[n].trace[k].reset.RelayedReset?
    ensures var t := states[n].trace;
            && j < k && m < n && |states[m].trace| == j && t[k].under.Some?
            && t[j].Listed? && t[j].rec == t[k].under.value && t[j].phone == t[k].reset.phone
            && t[k].pkg !in Installed(states[m], t[k].reset.phone)
            && forall i :: 0 <= i < |t| && t[i].Command? && t[i].rec == t[k].under.value ==> j < i
  {
    BehaviourInv(states, n);
    j := UninstalledAfter(states[n], k);
    m := ListedWhatWasThere(states, n, j);
  }

  lemma UninstalledAfter(s: State, k: nat) returns (j: nat)
    requires Told(s.records, s.relays, s.trace) && Spared(s.records, s.resets, s.trace)
    requires k < |s.trace| && s.trace[k].Uninstalled? && s.trace[k].reset.RelayedReset?
    ensures j < k && s.trace[k].under.Some?
    ensures var e := s.trace[j];
            e.Listed? && e.rec == s.trace[k].under.value && e.phone == s.trace[k].reset.phone && s.trace[k].pkg !in e.pkgs
    ensures forall i :: 0 <= i < |s.trace| && s.trace[i].Command? && s.trace[i].rec == s.trace[k].under.value ==> j < i
  {
    var r := s.trace[k].under.value;
    assert SparedBy(s.records, s.trace[k].reset.phone, r, s.trace[k].pkg, k);
    var snapshot := SnapshotOf(s.records[r].once).value;
    assert IsListing(s.trace, r, s.records[r].phone, snapshot);
    j := snapshot.at;
    forall i | 0 <= i < |s.trace| && s.trace[i].Command? && s.trace[i].rec == r
      ensures j < i
    {
      assert AfterListing(s.records, r, i);
    }
  }
}
