/**
 The scoped port manager as the object it is (scoped_port.go, relay.go), one
 call at a time: what ends with a lock, and which phones are reset. Module
 HandOver has the calls interleaved.
 */
module ScopedPorts {
  import opened Names

  // ---------- transport ids of a port's remote devices ----------

  const FIRST_REMOTE_ID := 1_000_000

  /** The two maps are each other's inverse. */
  predicate Inverse(bySerial: map<Serial, nat>, byID: map<nat, Serial>) {
    && (forall s <- bySerial :: bySerial[s] in byID && byID[bySerial[s]] == s)
    && (forall id <- byID :: byID[id] in bySerial && bySerial[byID[id]] == id)
  }

  class RemoteIDs {
    const remotes: set<Serial>
    var bySerial: map<Serial, nat>
    var byID: map<nat, Serial>

    ghost predicate Valid()
      reads this
    {
      && Inverse(bySerial, byID)
      && bySerial.Keys <= remotes
      && forall id <- byID :: FIRST_REMOTE_ID < id <= FIRST_REMOTE_ID + |bySerial|
    }

    constructor (remotes: set<Serial>)
      ensures Valid() && this.remotes == remotes && bySerial == map[]
    {
      this.remotes := remotes;
      bySerial, byID := map[], map[];
    }

    /** A remote serial's id, for good; 0 for any other serial. */
    method remoteTransportID(serial: Serial) returns (id: nat)
      requires Valid()
      modifies this
      ensures Valid()
      ensures serial !in remotes ==> id == 0 && bySerial == old(bySerial) && byID == old(byID)
      ensures serial in remotes ==> id > FIRST_REMOTE_ID && bySerial == old(bySerial)[serial := id] && byID == old(byID)[id := serial]
      ensures forall s <- old(bySerial) :: s in bySerial && bySerial[s] == old(bySerial)[s]
    {
      if serial !in remotes {
        return 0;
      }
      if serial in bySerial {
        id := bySerial[serial];
        assert bySerial == bySerial[serial := id] && byID == byID[id := serial];
        return;
      }
      id := FIRST_REMOTE_ID + |bySerial| + 1;
      bySerial := bySerial[serial := id];
      byID := byID[id := serial];
    }

    /** The reverse: the one serial that was given id, if any. */
    method remoteSerialByTransportID(id: nat) returns (found: bool, serial: Serial)
      requires Valid()
      ensures found <==> exists s <- bySerial :: bySerial[s] == id
      ensures found ==> serial in bySerial && bySerial[serial] == id
    {
      if id in byID {
        return true, byID[id];
      }
      return false, Serial("");
    }
  }

  // ---------- ports and relay records ----------

  /** A port's phones, and those of them on another proxy. */
  datatype Port = Port(serials: set<Serial>, remotes: set<Serial>)
  {
    function Locals(): set<Serial> {
      serials - remotes
    }
  }

  predicate Held(ports: map<Lock, Port>, serial: Serial) {
    exists lock <- ports :: serial in ports[lock].serials
  }

  function NotHeld(ports: map<Lock, Port>, serials: set<Serial>): set<Serial> {
    set s <- serials | !Held(ports, s)
  }

  /** The phones relayed under lock. */
  function RelayedUnder(relayLocks: map<Serial, Lock>, lock: Lock): set<Serial> {
    set s <- relayLocks | relayLocks[s] == lock
  }

  /** The phones a lock's port has here. */
  function LocalsOf(ports: map<Lock, Port>, lock: Lock): set<Serial> {
    if lock in ports then ports[lock].Locals() else {}
  }

  /** What ends with lock: the phones local to its port and those relayed under it, but for those another port holds. */
  function EndsWith(ports: map<Lock, Port>, relayLocks: map<Serial, Lock>, lock: Lock): set<Serial> {
    NotHeld(ports - {lock}, LocalsOf(ports, lock) + RelayedUnder(relayLocks, lock))
  }

  class ScopedPortManager {
    var scopedPorts: map<Lock, Port>
    var relayLocks: map<Serial, Lock>
    var resets: seq<Serial>  // every reset that has been done

    constructor ()
      ensures scopedPorts == map[] && relayLocks == map[] && resets == []
    {
      scopedPorts, relayLocks, resets := map[], map[], [];
    }

    /** CreateScopedPort refuses a lock that has a port. */
    method CreateScopedPort(lock: Lock, port: Port) returns (ok: bool)
      modifies this`scopedPorts
      ensures ok <==> lock !in old(scopedPorts)
      ensures scopedPorts == if ok then old(scopedPorts)[lock := port] else old(scopedPorts)
    {
      if lock in scopedPorts {
        return false;
      }
      scopedPorts := scopedPorts[lock := port];
      return true;
    }

    /** relayRecordFor: the phone's record names lock from now on, whatever it named before. */
    method relayRecordFor(serial: Serial, lock: Lock)
      modifies this`relayLocks
      ensures relayLocks == old(relayLocks)[serial := lock]
    {
      if serial in relayLocks && relayLocks[serial] == lock {
        assert relayLocks == relayLocks[serial := lock];
        return;
      }
      relayLocks := relayLocks[serial := lock];
    }

    /** takeRelayRecord: the phone's record, if it names lock. */
    method takeRelayRecord(serial: Serial, lock: Lock) returns (taken: bool)
      modifies this`relayLocks
      ensures taken <==> serial in RelayedUnder(old(relayLocks), lock)
      ensures relayLocks == if taken then old(relayLocks) - {serial} else old(relayLocks)
    {
      if serial !in relayLocks || relayLocks[serial] != lock {
        return false;
      }
      relayLocks := relayLocks - {serial};
      return true;
    }

    method heldByAnyPort(serial: Serial) returns (held: bool)
      ensures held <==> Held(scopedPorts, serial)
    {
      var todo := scopedPorts.Keys;
      while todo != {}
        invariant todo <= scopedPorts.Keys
        invariant forall lock <- scopedPorts :: lock !in todo ==> serial !in scopedPorts[lock].serials
      {
        var lock :| lock in todo;
        if serial in scopedPorts[lock].serials {
          return true;
        }
        todo := todo - {lock};
      }
      return false;
    }

    /** resetDevice: settles the lock's record of the phone; resets it unless there is nothing to reset or somebody holds it. */
    method resetDevice(lock: Lock, relayed: bool, serial: Serial)
      modifies this`relayLocks, this`resets
      ensures relayLocks == old(relayLocks) - (RelayedUnder(old(relayLocks), lock) * {serial})
      ensures resets == if (relayed && serial !in RelayedUnder(old(relayLocks), lock)) || Held(scopedPorts, serial)
                        then old(resets) else old(resets) + [serial]
    {
      var taken := takeRelayRecord(serial, lock);
      if relayed && !taken {
        return;
      }
      var held := heldByAnyPort(serial);
      if held {
        return;
      }
      resets := resets + [serial];
    }

    /** The phones of todo are reset one by one, in whatever order the map gives. */
    method resetEach(lock: Lock, relayed: bool, all: set<Serial>) returns (ghost order: seq<Serial>)
      requires relayed ==> all <= RelayedUnder(relayLocks, lock)
      modifies this`relayLocks, this`resets
      ensures relayLocks == old(relayLocks) - (RelayedUnder(old(relayLocks), lock) * all)
      ensures resets == old(resets) + order && OnceEach(order, NotHeld(scopedPorts, all))
    {
      var todo := all;
      order := [];
      while todo != {}
        invariant todo <= all && resets == old(resets) + order
        invariant relayLocks == old(relayLocks) - (RelayedUnder(old(relayLocks), lock) * (all - todo))
        invariant OnceEach(order, NotHeld(scopedPorts, all - todo))
      {
        var serial :| serial in todo;
        assert serial in RelayedUnder(relayLocks, lock) <==> serial in RelayedUnder(old(relayLocks), lock);
        resetDevice(lock, relayed, serial);
        OneMore(scopedPorts, order, all - todo, serial);
        order := if Held(scopedPorts, serial) then order else order + [serial];
        assert all - (todo - {serial}) == all - todo + {serial};
        todo := todo - {serial};
      }
      assert all - todo == all;
    }

    /** CloseScopedPort. */
    method CloseScopedPort(lock: Lock) returns (closed: bool, ghost order: seq<Serial>)
      modifies this
      ensures closed <==> lock in old(scopedPorts)
      ensures scopedPorts == old(scopedPorts) - {lock}
      ensures relayLocks == old(relayLocks) - (RelayedUnder(old(relayLocks), lock) * LocalsOf(old(scopedPorts), lock))
      ensures resets == old(resets) + order && OnceEach(order, NotHeld(scopedPorts, LocalsOf(old(scopedPorts), lock)))
    {
      if lock !in scopedPorts {
        assert scopedPorts == scopedPorts - {lock};
        return false, [];
      }
      var port := scopedPorts[lock];
      scopedPorts := scopedPorts - {lock};
      order := resetEach(lock, false, port.Locals());
      return true, order;
    }

    /** resetRelayed. */
    method resetRelayed(lock: Lock) returns (ghost order: seq<Serial>)
      modifies this`relayLocks, this`resets
      ensures relayLocks == old(relayLocks) - RelayedUnder(old(relayLocks), lock)
      ensures resets == old(resets) + order && OnceEach(order, NotHeld(scopedPorts, RelayedUnder(old(relayLocks), lock)))
    {
      order := resetEach(lock, true, RelayedUnder(relayLocks, lock));
    }

    /** OnLockExpired: everything that ends with the lock is reset, once, and nothing else. */
    method OnLockExpired(lock: Lock) returns (ghost order: seq<Serial>)
      modifies this
      ensures scopedPorts == old(scopedPorts) - {lock}
      ensures relayLocks == old(relayLocks) - RelayedUnder(old(relayLocks), lock)
      ensures resets == old(resets) + order && OnceEach(order, EndsWith(old(scopedPorts), old(relayLocks), lock))
    {
      ghost var relays, locals := relayLocks, LocalsOf(scopedPorts, lock);
      var closed;
      ghost var first;
      closed, first := CloseScopedPort(lock);
      ghost var left := RelayedUnder(relayLocks, lock);
      ghost var second := resetRelayed(lock);
      order := first + second;
      assert left == RelayedUnder(relays, lock) - locals;
      TwoHalves(scopedPorts, first, second, locals, RelayedUnder(relays, lock), left);
    }
  }

  lemma OneMore(ports: map<Lock, Port>, order: seq<Serial>, done: set<Serial>, serial: Serial)
    requires serial !in done && OnceEach(order, NotHeld(ports, done))
    ensures OnceEach(if Held(ports, serial) then order else order + [serial], NotHeld(ports, done + {serial}))
  {
  }

  /** The local phones and then the relayed ones that are left make up both, each once. */
  lemma TwoHalves(ports: map<Lock, Port>, first: seq<Serial>, second: seq<Serial>,
                  locals: set<Serial>, relayed: set<Serial>, left: set<Serial>)
    requires left == relayed - locals
    requires OnceEach(first, NotHeld(ports, locals)) && OnceEach(second, NotHeld(ports, left))
    ensures OnceEach(first + second, NotHeld(ports, locals + relayed))
  {
  }

  /** Once a lock has ended, nothing more ends with it until it has a port or a relay again. */
  lemma EndedOnce(ports: map<Lock, Port>, relayLocks: map<Serial, Lock>, lock: Lock)
    ensures EndsWith(ports - {lock}, relayLocks - RelayedUnder(relayLocks, lock), lock) == {}
  {
  }

  /** An expiry told of twice resets as much as one told of once. */
  method ExpiredTwice(m: ScopedPortManager, lock: Lock) returns (ghost order: seq<Serial>)
    modifies m
    ensures m.resets == old(m.resets) + order && OnceEach(order, EndsWith(old(m.scopedPorts), old(m.relayLocks), lock))
  {
    order := m.OnLockExpired(lock);
    EndedOnce(old(m.scopedPorts), old(m.relayLocks), lock);
    ghost var again := m.OnLockExpired(lock);
    assert |again| == |multiset(again)| == 0;
  }
}
