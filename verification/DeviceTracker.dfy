/**
 The device list tracker (device_tracker.go), one call at a time: what each
 source last reported, the merged list, who owns each serial, and the stable
 transport ids.
 */
module DeviceTracker {
  import opened Bytes
  import opened Names

  datatype Addr = Addr(hostPort: string)

  datatype Entry = Entry(devices: seq<Serial>, lastSeen: int)

  const STALE_AFTER := 30

  /** addr reports serial. */
  predicate Reports(sources: map<Addr, Entry>, addr: Addr, serial: Serial) {
    addr in sources && serial in sources[addr].devices
  }

  /** The owner map has exactly the serials somebody reports, each with somebody who does. */
  ghost predicate Owns(sources: map<Addr, Entry>, owners: map<Serial, Addr>) {
    && (forall s <- owners :: Reports(sources, owners[s], s))
    && (forall addr, s :: Reports(sources, addr, s) ==> s in owners)
  }

  /** One id each, all of them given out already. */
  predicate Distinct(ids: map<Serial, nat>, next: nat) {
    && 0 < next && (forall s <- ids :: 0 < ids[s] < next)
    && (forall s <- ids, t <- ids :: ids[s] == ids[t] ==> s == t)
  }

  predicate SameSerials(devices: seq<Serial>, owners: map<Serial, Addr>) {
    (forall s <- devices :: s in owners) && (forall s <- owners :: s in devices)
  }

  /** From old to new: who stays keeps the id, who comes gets one never given out before. */
  predicate Stable(old_: map<Serial, nat>, new_: map<Serial, nat>, next: nat) {
    forall s <- new_ :: if s in old_ then new_[s] == old_[s] else new_[s] >= next
  }

  class DeviceListTracker {
    var sources: map<Addr, Entry>
    var devices: seq<Serial>
    var serialToSource: map<Serial, Addr>
    var transportIDs: map<Serial, nat>
    var nextTransport: nat

    ghost predicate Valid()
      reads this
    {
      && Owns(sources, serialToSource)
      && SameSerials(devices, serialToSource)
      && transportIDs.Keys == serialToSource.Keys
      && Distinct(transportIDs, nextTransport)
    }

    constructor ()
      ensures Valid() && sources == map[] && devices == []
    {
      sources, devices, serialToSource, transportIDs, nextTransport := map[], [], map[], map[], 1;
    }

    /** UpdateDevices. known is false for a source that is new, or back after it went stale. */
    method UpdateDevices(addr: Addr, reported: seq<Serial>, now: int) returns (known: bool)
      requires Valid()
      modifies this
      ensures Valid()
      ensures known <==> addr in old(sources)
      ensures sources == old(sources)[addr := Entry(reported, now)]
      ensures Stable(old(transportIDs), transportIDs, old(nextTransport)) && nextTransport >= old(nextTransport)
    {
      known := addr in sources;
      sources := sources[addr := Entry(reported, now)];
      rebuild();
    }

    /** reapAndReport: sources not heard from for too long are dropped; what is left is reported. */
    method reapAndReport(now: int) returns (report: seq<Serial>)
      requires Valid()
      modifies this
      ensures Valid() && report == devices
      ensures forall addr :: addr in sources <==> addr in old(sources) && now - old(sources)[addr].lastSeen <= STALE_AFTER
      ensures forall addr <- sources :: sources[addr] == old(sources)[addr]
      ensures Stable(old(transportIDs), transportIDs, old(nextTransport)) && nextTransport >= old(nextTransport)
    {
      var todo := sources.Keys;
      while todo != {}
        invariant todo <= sources.Keys
        invariant serialToSource == old(serialToSource) && transportIDs == old(transportIDs) && nextTransport == old(nextTransport)
        invariant forall addr :: addr in sources ==> addr in old(sources) && sources[addr] == old(sources)[addr]
        invariant forall addr <- old(sources) :: addr in todo ==> addr in sources
        invariant forall addr <- old(sources) :: addr !in todo ==> (addr in sources <==> now - old(sources)[addr].lastSeen <= STALE_AFTER)
      {
        var addr :| addr in todo;
        if now - sources[addr].lastSeen > STALE_AFTER {
          sources := sources - {addr};
        }
        todo := todo - {addr};
      }
      rebuild();
      report := devices;
    }

    /** rebuild's first half: what is reported now has owners and ids, beside what is gone. */
    method addReported() returns (all: seq<Serial>, owners: map<Serial, Addr>)
      requires transportIDs.Keys == serialToSource.Keys && Distinct(transportIDs, nextTransport)
      modifies this`serialToSource, this`transportIDs, this`nextTransport
      ensures Owns(sources, owners) && SameSerials(all, owners)
      ensures transportIDs.Keys == serialToSource.Keys && Distinct(transportIDs, nextTransport)
      ensures forall s <- owners :: s in serialToSource && serialToSource[s] == owners[s]
      ensures Stable(old(transportIDs), transportIDs, old(nextTransport)) && nextTransport >= old(nextTransport)
    {
      all, owners := merged();
      setOwners(owners);
      assignIDs(all);
    }

    /** rebuild: the list, the owners and the ids again, from what the sources report now. */
    method rebuild()
      requires transportIDs.Keys == serialToSource.Keys && Distinct(transportIDs, nextTransport)
      modifies this`devices, this`serialToSource, this`transportIDs, this`nextTransport
      ensures Valid()
      ensures Stable(old(transportIDs), transportIDs, old(nextTransport)) && nextTransport >= old(nextTransport)
    {
      var all, owners := addReported();
      removeGone(all, owners);
      devices := all;
    }

    /** The sources' lists put together, and for each serial a source that reports it. */
    method merged() returns (all: seq<Serial>, owners: map<Serial, Addr>)
      ensures Owns(sources, owners) && SameSerials(all, owners)
    {
      all, owners := [], map[];
      var todo := sources.Keys;
      while todo != {}
        invariant todo <= sources.Keys && SameSerials(all, owners)
        invariant forall s <- owners :: Reports(sources, owners[s], s)
        invariant forall addr, s :: Reports(sources, addr, s) && addr !in todo ==> s in owners
      {
        var addr :| addr in todo;
        var list := sources[addr].devices;
        var i := 0;
        ghost var before := owners;
        while i < |list|
          invariant 0 <= i <= |list|
          invariant forall s <- before :: s in owners
          invariant forall s <- owners :: Reports(sources, owners[s], s) && (s in before || s in list[..i])
          invariant forall s <- list[..i] :: s in owners
        {
          owners := owners[list[i] := addr];
          assert list[..i + 1] == list[..i] + [list[i]];
          i := i + 1;
        }
        assert list[..|list|] == list;
        all := all + list;
        todo := todo - {addr};
      }
    }

    /** serialToSource takes the new owners; serials that are gone stay for now. */
    method setOwners(owners: map<Serial, Addr>)
      modifies this`serialToSource
      ensures forall s <- owners :: s in serialToSource && serialToSource[s] == owners[s]
      ensures serialToSource.Keys == old(serialToSource).Keys + owners.Keys
    {
      var todo := owners.Keys;
      while todo != {}
        invariant todo <= owners.Keys
        invariant forall s <- owners :: s !in todo ==> s in serialToSource && serialToSource[s] == owners[s]
        invariant serialToSource.Keys == old(serialToSource).Keys + (owners.Keys - todo)
      {
        var s :| s in todo;
        serialToSource := serialToSource[s := owners[s]];
        todo := todo - {s};
      }
    }

    /** Every serial of all has an id; a new one gets the next. */
    method assignIDs(all: seq<Serial>)
      requires Distinct(transportIDs, nextTransport)
      modifies this`transportIDs, this`nextTransport
      ensures Distinct(transportIDs, nextTransport) && nextTransport >= old(nextTransport)
      ensures Stable(old(transportIDs), transportIDs, old(nextTransport))
      ensures forall s :: s in transportIDs <==> s in old(transportIDs) || s in all
    {
      var i := 0;
      while i < |all|
        invariant 0 <= i <= |all| && nextTransport >= old(nextTransport)
        invariant Distinct(transportIDs, nextTransport)
        invariant Stable(old(transportIDs), transportIDs, old(nextTransport))
        invariant forall s :: s in transportIDs <==> s in old(transportIDs) || s in all[..i]
      {
        assert all[..i + 1] == all[..i] + [all[i]];
        if all[i] !in transportIDs {
          transportIDs := transportIDs[all[i] := nextTransport];
          nextTransport := nextTransport + 1;
        }
        i := i + 1;
      }
      assert all[..|all|] == all;
    }

    /** Ids and owners of serials nobody reports any more are removed. */
    method removeGone(all: seq<Serial>, ghost owners: map<Serial, Addr>)
      requires transportIDs.Keys == serialToSource.Keys && Distinct(transportIDs, nextTransport)
      requires SameSerials(all, owners) && forall s <- owners :: s in serialToSource && serialToSource[s] == owners[s]
      modifies this`transportIDs, this`serialToSource
      ensures serialToSource == owners && transportIDs.Keys == owners.Keys
      ensures Distinct(transportIDs, nextTransport)
      ensures forall s <- transportIDs :: s in old(transportIDs) && transportIDs[s] == old(transportIDs)[s]
    {
      var todo := transportIDs.Keys;
      while todo != {}
        invariant todo <= transportIDs.Keys == serialToSource.Keys
        invariant forall s <- transportIDs :: s in old(transportIDs) && transportIDs[s] == old(transportIDs)[s]
        invariant forall s <- transportIDs :: s in todo || s in all
        invariant forall s <- owners :: s in serialToSource && serialToSource[s] == owners[s]
      {
        var s :| s in todo;
        if s !in all {
          transportIDs := transportIDs - {s};
          serialToSource := serialToSource - {s};
        }
        todo := todo - {s};
      }
      assert serialToSource.Keys == owners.Keys;
    }

    /** GetSourceAddr: somebody who reports the serial, exactly when somebody does. */
    method GetSourceAddr(serial: Serial) returns (addr: Option<Addr>)
      requires Valid()
      ensures addr.Some? ==> Reports(sources, addr.value, serial)
      ensures addr.Some? <==> exists a :: Reports(sources, a, serial)
    {
      if serial in serialToSource {
        assert Reports(sources, serialToSource[serial], serial);
        return Some(serialToSource[serial]);
      }
      return None;
    }

    /** GetTransportID: 0 for a serial nobody reports. */
    method GetTransportID(serial: Serial) returns (id: nat)
      requires Valid()
      ensures id == if serial in devices then transportIDs[serial] else 0
      ensures id > 0 <==> serial in devices
    {
      id := if serial in transportIDs then transportIDs[serial] else 0;
    }

    /** GetSerialByTransportID: the one serial with that id. */
    method GetSerialByTransportID(id: nat) returns (serial: Option<Serial>)
      requires Valid()
      ensures serial.Some? ==> serial.value in devices && transportIDs[serial.value] == id
      ensures serial.None? ==> forall s <- devices :: transportIDs[s] != id
      ensures forall s <- devices :: transportIDs[s] == id ==> serial == Some(s)
    {
      var todo := transportIDs.Keys;
      while todo != {}
        invariant todo <= transportIDs.Keys
        invariant forall s <- transportIDs :: s !in todo ==> transportIDs[s] != id
      {
        var s :| s in todo;
        if transportIDs[s] == id {
          return Some(s);
        }
        todo := todo - {s};
      }
      return None;
    }
  }

  // ---------- any sequence of updates and reaps ----------

  datatype Call = Update(addr: Addr, reported: seq<Serial>) | Reap

  /** No id of a has another serial in b. */
  predicate SameOwners(a: map<Serial, nat>, b: map<Serial, nat>) {
    forall s <- a, u <- b :: a[s] == b[u] ==> s == u
  }

  predicate KeepsIDs(a: map<Serial, nat>, b: map<Serial, nat>) {
    forall s <- a :: s in b ==> b[s] == a[s]
  }

  /** No id ever has two serials, and a serial keeps its id from one call to the next. */
  predicate NeverReused(history: seq<map<Serial, nat>>) {
    && (forall i, j :: 0 <= i < |history| && 0 <= j < |history| ==> SameOwners(history[i], history[j]))
    && (forall i, j :: 0 <= i < |history| && 0 <= j < |history| && j == i + 1 ==> KeepsIDs(history[i], history[j]))
  }

  predicate Below(ids: map<Serial, nat>, next: nat) {
    forall s <- ids :: ids[s] < next
  }

  predicate GivenOut(history: seq<map<Serial, nat>>, next: nat) {
    forall i :: 0 <= i < |history| ==> Below(history[i], next)
  }

  /** The ids of any earlier call, and those after a call that keeps the last ones and hands out only new ones. */
  lemma StaysApart(earlier: map<Serial, nat>, last: map<Serial, nat>, ids: map<Serial, nat>, next: nat)
    requires SameOwners(earlier, last) && Below(earlier, next) && Stable(last, ids, next)
    ensures SameOwners(earlier, ids) && SameOwners(ids, earlier)
  {
  }

  predicate ApartFromAll(history: seq<map<Serial, nat>>, ids: map<Serial, nat>) {
    forall i :: 0 <= i < |history| ==> SameOwners(history[i], ids) && SameOwners(ids, history[i])
  }

  lemma StaysApartFromAll(history: seq<map<Serial, nat>>, last: map<Serial, nat>, ids: map<Serial, nat>, next: nat)
    requires NeverReused(history) && GivenOut(history, next) && Stable(last, ids, next)
    requires |history| > 0 && last == history[|history| - 1]
    ensures ApartFromAll(history, ids)
  {
    forall i | 0 <= i < |history|
      ensures SameOwners(history[i], ids) && SameOwners(ids, history[i])
    {
      StaysApart(history[i], last, ids, next);
    }
  }

  lemma OneMoreApart(history: seq<map<Serial, nat>>, ids: map<Serial, nat>)
    requires NeverReused(history) && ApartFromAll(history, ids) && SameOwners(ids, ids)
    requires |history| > 0 ==> KeepsIDs(history[|history| - 1], ids)
    ensures NeverReused(history + [ids])
  {
    var n, all := |history|, history + [ids];
    forall i, j | 0 <= i < |all| && 0 <= j < |all|
      ensures SameOwners(all[i], all[j])
    {
      if i < n && j < n {
        assert SameOwners(history[i], history[j]);
      }
    }
  }

  lemma HistoryGrows(history: seq<map<Serial, nat>>, ids: map<Serial, nat>, last: map<Serial, nat>, next: nat, newNext: nat)
    requires NeverReused(history) && GivenOut(history, next)
    requires if |history| == 0 then last == map[] else last == history[|history| - 1]
    requires Stable(last, ids, next) && Distinct(ids, newNext) && next <= newNext
    ensures NeverReused(history + [ids]) && GivenOut(history + [ids], newNext)
  {
    if |history| > 0 {
      StaysApartFromAll(history, last, ids, next);
    }
    OneMoreApart(history, ids);
    forall i | 0 <= i < |history|
      ensures Below(history[i], newNext)
    {
      assert Below(history[i], next);
    }
  }

  /**
   Any calls, one after the other, with any clock: the views keep to the same
   serials, and history, the ids after each call, never reuses one.
   */
  method AnyCalls(t: DeviceListTracker, calls: seq<Call>, clock: seq<int>) returns (ghost history: seq<map<Serial, nat>>)
    requires t.Valid() && |clock| == |calls| && t.transportIDs == map[]
    modifies t
    ensures t.Valid() && |history| == |calls| && NeverReused(history)
    ensures |calls| > 0 ==> history[|calls| - 1] == t.transportIDs
  {
    history := [];
    var i := 0;
    while i < |calls|
      invariant 0 <= i == |history| <= |calls| && t.Valid()
      invariant if i == 0 then t.transportIDs == map[] else t.transportIDs == history[i - 1]
      invariant NeverReused(history) && GivenOut(history, t.nextTransport)
    {
      ghost var ids, next := t.transportIDs, t.nextTransport;
      if calls[i].Update? {
        var known := t.UpdateDevices(calls[i].addr, calls[i].reported, clock[i]);
      } else {
        var report := t.reapAndReport(clock[i]);
      }
      HistoryGrows(history, t.transportIDs, ids, next, t.nextTransport);
      history := history + [t.transportIDs];
      i := i + 1;
    }
  }
}
