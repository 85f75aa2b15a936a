/**
 The lock log and the tunnel observers that feed it (lock_log.go), as the
 mutable objects they are, proved against the functions of LogValues.
 */
module LockLog {
  import opened Bytes
  import Utf8
  import opened ShellDecoder
  import opened LogValues

  /** order lists every observer of os, each once. */
  ghost predicate Enumerates(order: seq<TunnelObserver>, os: set<TunnelObserver>) {
    if |order| == 0 then os == {}
    else
      var last := |order| - 1;
      order[last] in os && Enumerates(order[..last], os - {order[last]})
  }

  lemma {:induction false} EnumeratedIn(order: seq<TunnelObserver>, os: set<TunnelObserver>)
    requires Enumerates(order, os)
    ensures |order| == |os|
    ensures forall i :: 0 <= i < |order| ==> order[i] in os
    decreases |order|
  {
    if |order| > 0 {
      EnumeratedIn(order[..|order| - 1], os - {order[|order| - 1]});
    }
  }

  lemma {:induction false} EnumeratedOnce(order: seq<TunnelObserver>, os: set<TunnelObserver>, i: nat)
    requires Enumerates(order, os) && i < |order|
    ensures order[i] in os
    ensures forall k :: 0 <= k < |order| && k != i ==> order[k] != order[i]
    decreases |order|
  {
    var last := |order| - 1;
    EnumeratedIn(order[..last], os - {order[last]});
    if i == last {
    } else {
      EnumeratedOnce(order[..last], os - {order[last]}, i);
    }
  }

  lemma {:induction false} EnumeratedAll(order: seq<TunnelObserver>, os: set<TunnelObserver>, o: TunnelObserver) returns (i: nat)
    requires Enumerates(order, os) && o in os
    ensures i < |order| && order[i] == o
    decreases |order|
  {
    i := |order| - 1;
    if order[i] != o {
      i := EnumeratedAll(order[..i], os - {order[i]}, o);
    }
  }

  /** was has the values ts for the observers of order. */
  ghost predicate Were(was: map<TunnelObserver, Tunnel>, order: seq<TunnelObserver>, ts: seq<Tunnel>) {
    |ts| == |order| && forall i :: 0 <= i < |order| ==> order[i] in was && was[order[i]] == ts[i]
  }

  /** The observers of order have the values ts. */
  ghost predicate Have(order: seq<TunnelObserver>, ts: seq<Tunnel>)
    reads order
  {
    |ts| == |order| && forall i :: 0 <= i < |order| ==> order[i].Value() == ts[i]
  }

  /** The first observers of order have become after; the others still have what they had before. */
  ghost predicate Served(order: seq<TunnelObserver>, before: seq<Tunnel>, after: seq<Tunnel>)
    reads order
  {
    && |after| <= |order| == |before|
    && forall i :: 0 <= i < |order| ==> order[i].Value() == if i < |after| then after[i] else before[i]
  }

  class LockLog {
    var pending: seq<Entry>
    var pendingBytes: int
    var truncated: bool
    var nextID: nat
    var open: set<TunnelObserver>
    ghost var byID: map<nat, TunnelObserver>  // whose id is whose, for every id ever given

    ghost function Value(): Log
      reads this
    {
      Log(pending, pendingBytes, truncated)
    }

    ghost predicate Valid()
      reads this, open
    {
      && pendingBytes == OutputBytes(pending)
      && (forall o <- open :: o.Valid() && o.id in byID && byID[o.id] == o)
      && (forall id <- byID :: 0 < id <= nextID)
    }

    constructor ()
      ensures Valid() && Clean(Value()) && open == {} && nextID == 0
    {
      pending, pendingBytes, truncated, nextID, open, byID := [], 0, false, 0, {}, map[];
    }

    /** Record. The entry's service is what redaction left of it. */
    method Record(entry: Entry)
      requires Valid()
      modifies this`pending, this`pendingBytes, this`truncated
      ensures Valid()
      ensures Value() == Recorded(old(Value()), entry.(service := Clipped(entry.service)))
    {
      var service := entry.service;
      if |service| > MAX_SERVICE_LEN {
        service := service[..MAX_SERVICE_LEN - |ELLIPSIS|] + ELLIPSIS;
      }
      var e := entry.(service := service);
      AddedBytes(Value(), e);
      if |pending| >= MAX_ENTRIES || pendingBytes + |e.output| > MAX_PENDING_BYTES {
        if !truncated {
          truncated := true;
          pending := pending + [TRUNCATED];
        }
        assert pending == old(pending) + Added(old(Value()), e);
        return;
      }
      pending := pending + [e];
      pendingBytes := pendingBytes + |e.output|;
    }

    method Requeue(entries: seq<Entry>)
      requires Valid()
      modifies this`pending, this`pendingBytes
      ensures Valid()
      ensures Value() == Requeued(old(Value()), entries)
    {
      OutputBytesConcat(entries, pending);
      if |entries| == 0 {
        assert entries + pending == pending;
        return;
      }
      pending := entries + pending;
      var i := 0;
      while i < |entries|
        invariant 0 <= i <= |entries| && pending == entries + old(pending)
        invariant pendingBytes == old(pendingBytes) + BytesUpTo(entries, i)
      {
        pendingBytes := pendingBytes + |entries[i].output|;
        i := i + 1;
      }
    }

    /** drain's first half: entries of pending, up to budget. With live off it is all of drain. */
    method drainPending(budget: int) returns (out: seq<Entry>, left: int)
      requires pendingBytes == OutputBytes(pending)
      modifies this`pending, this`pendingBytes, this`truncated
      ensures pendingBytes == OutputBytes(pending)
      ensures out + pending == old(pending) && |out| == Fit(old(pending), 0, budget)
      ensures left == budget - OutputBytes(out) && pendingBytes == old(pendingBytes) - OutputBytes(out)
      ensures truncated == (old(truncated) && |pending| > 0)
    {
      ghost var all, total := pending, pendingBytes;
      out, left := [], budget;
      var n := 0;
      while n < |pending| && !(|pending[n].output| > left && |out| > 0)
        invariant pending == all && truncated == old(truncated)
        invariant 0 <= n <= |pending| && out == all[..n]
        invariant left == budget - OutputBytes(out)
        invariant pendingBytes == total - OutputBytes(out)
        invariant Fit(all, n, left) == Fit(all, 0, budget)
      {
        assert all[..n + 1] == out + [pending[n]];
        OutputBytesSnoc(out, pending[n]);
        out := out + [pending[n]];
        left := left - |pending[n].output|;
        pendingBytes := pendingBytes - |pending[n].output|;
        n := n + 1;
      }
      OutputBytesSplit(all, n);
      pending := pending[n..];
      assert out + pending == all;
      if |pending| == 0 {
        truncated := false;
      }
    }

    /** was holds what every open tunnel holds now. */
    ghost predicate Now(was: map<TunnelObserver, Tunnel>)
      reads this, open
    {
      forall o <- open :: o in was && was[o] == o.Value() && o.Valid()
    }

    /** The open tunnels in the order this range over the map happens to take. */
    method rangeOpen(ghost was: map<TunnelObserver, Tunnel>) returns (order: seq<TunnelObserver>, ghost before: seq<Tunnel>)
      requires forall o <- open :: o in was
      ensures Enumerates(order, open) && Were(was, order, before)
    {
      order, before := [], [];
      var todo := open;
      while todo != {}
        invariant todo <= open && Enumerates(order, open - todo) && Were(was, order, before)
      {
        var o :| o in todo;
        assert (order + [o])[..|order|] == order && open - (todo - {o}) - {o} == open - todo;
        todo := todo - {o};
        order, before := order + [o], before + [was[o]];
      }
      assert open - todo == open;
    }

    /** One open tunnel's turn: its piece goes out, if it has one. */
    method takeTurn(o: TunnelObserver, before: seq<Entry>, budget: int, ghost after: seq<Tunnel>) returns (out: seq<Entry>, left: int)
      requires o.Valid() && budget > 0
      modifies o`buf, o`dropped, o`binary
      ensures o.Valid()
      ensures LiveResult(out, after + [o.Value()], left) == LiveStep(LiveResult(before, after, budget), old(o.Value()))
    {
      out, left := before, budget;
      var piece := o.take(left, false);
      if piece != [] {
        out := out + [Entry(o.id, [], piece, false, true)];
        left := left - |piece|;
      }
    }

    /** The turn of order[i], whose turn it is: one more has been served. */
    method turnAt(order: seq<TunnelObserver>, i: nat, out0: seq<Entry>, left0: int,
                  budget: int, ghost before: seq<Tunnel>, ghost after0: seq<Tunnel>)
      returns (out: seq<Entry>, left: int, ghost after: seq<Tunnel>)
      requires i == |after0| < |order| && order[i].Valid() && left0 > 0 && Served(order, before, after0)
      requires forall k :: 0 <= k < |order| && k != i ==> order[k] != order[i]
      requires LiveUpTo(before, i, budget) == LiveResult(out0, after0, left0)
      modifies {order[i]}`buf, {order[i]}`dropped, {order[i]}`binary
      ensures order[i].Valid() && |after| == i + 1 && Served(order, before, after)
      ensures LiveUpTo(before, i + 1, budget) == LiveResult(out, after, left)
    {
      out, left := takeTurn(order[i], out0, left0, after0);
      after := after0 + [order[i].Value()];
    }

    /** The tunnels of order have their turns, until the budget is gone. */
    method liveTurns(order: seq<TunnelObserver>, budget: int, ghost before: seq<Tunnel>)
      returns (out: seq<Entry>, left: int, ghost after: seq<Tunnel>)
      requires Enumerates(order, open) && Have(order, before) && forall o <- open :: o.Valid()
      modifies open`buf, open`dropped, open`binary
      ensures forall o <- open :: o.Valid()
      ensures |after| <= |order| && (|after| == |order| || left <= 0)
      ensures LiveUpTo(before, |after|, budget) == LiveResult(out, after, left)
      ensures Served(order, before, after)
    {
      EnumeratedIn(order, open);
      out := [];
      var i := 0;
      left, after := budget, [];
      while i < |order| && left > 0
        invariant 0 <= i == |after| <= |order|
        invariant forall o <- open :: o.Valid()
        invariant Served(order, before, after)
        invariant LiveUpTo(before, i, budget) == LiveResult(out, after, left)
      {
        EnumeratedOnce(order, open, i);
        out, left, after := turnAt(order, i, out, left, budget, before, after);
        i := i + 1;
      }
    }

    /** drain's second half: a piece of each open tunnel, in some order, while the budget lasts. */
    method drainLive(budget: int, ghost was: map<TunnelObserver, Tunnel>)
      returns (out: seq<Entry>, order: seq<TunnelObserver>, ghost before: seq<Tunnel>, ghost live: LiveResult)
      requires Now(was)
      modifies open`buf, open`dropped, open`binary
      ensures Enumerates(order, open) && Were(was, order, before)
      ensures forall o <- open :: o.Valid()
      ensures live == Live(before, budget) && out == live.out && Have(order, live.after)
    {
      order, before := rangeOpen(was);
      EnumeratedIn(order, open);
      var left;
      ghost var after;
      out, left, after := liveTurns(order, budget, before);
      TurnsOver(before, budget, LiveResult(out, after, left));
      live := LiveResult(out, after + before[|after|..], left);
    }

    /** drain with live on. order is the order in which the open tunnels come up. */
    method drain(budget: int, ghost was: map<TunnelObserver, Tunnel>)
      returns (out: seq<Entry>, ghost order: seq<TunnelObserver>, ghost before: seq<Tunnel>)
      requires Valid() && Now(was)
      modifies this`pending, this`pendingBytes, this`truncated, open`buf, open`dropped, open`binary
      ensures Valid() && Were(was, order, before) && Enumerates(order, open)
      ensures var r := Drained(old(Value()), before, budget);
              Value() == r.log && out == r.out && Have(order, r.after)
    {
      ghost var l := Value();
      var first, left := drainPending(budget);
      ghost var rest := Value();
      var pieces;
      ghost var live;
      pieces, order, before, live := drainLive(left, was);
      DrainedHalves(l, before, budget, first, left, rest, live);
      assert Value() == rest;
      out := first + pieces;
    }

    /** Drain: everything recorded, then what running requests produced, up to the drain budget. */
    method Drain(ghost was: map<TunnelObserver, Tunnel>)
      returns (out: seq<Entry>, ghost order: seq<TunnelObserver>, ghost before: seq<Tunnel>)
      requires Valid() && Now(was)
      modifies this`pending, this`pendingBytes, this`truncated, open`buf, open`dropped, open`binary
      ensures Valid() && Were(was, order, before) && Enumerates(order, open)
      ensures var r := Drained(old(Value()), before, DRAIN_BYTES);
              Value() == r.log && out == r.out && Have(order, r.after)
      ensures |old(pending)| > 0 ==> |out| > 0 && out[0] == old(pending)[0]
      ensures |out| == 1 || OutputBytes(out) < DRAIN_BYTES + |BINARY_MARKER|
    {
      out, order, before := drain(DRAIN_BYTES, was);
      DrainBound(old(Value()), before, DRAIN_BYTES);
    }

    /** DrainAll's loop: all of pending, a drain's worth at a time. */
    method drainRounds() returns (all: seq<Entry>)
      requires pendingBytes == OutputBytes(pending)
      modifies this`pending, this`pendingBytes, this`truncated
      ensures Clean(Value()) && pendingBytes == OutputBytes(pending) && all == old(pending)
    {
      all := [];
      var more := true;
      while more
        invariant pendingBytes == OutputBytes(pending) && all + pending == old(pending)
        invariant !more ==> Clean(Value())
        decreases more, |pending|
      {
        var batch, left := drainPending(DRAIN_BYTES);
        more := |batch| > 0;
        all := all + batch;
      }
    }

    /** DrainAll: all of pending, then what each open tunnel holds, all but an unfinished rune. */
    method DrainAll(ghost was: map<TunnelObserver, Tunnel>)
      returns (all: seq<Entry>, ghost order: seq<TunnelObserver>, ghost before: seq<Tunnel>)
      requires Valid() && Now(was)
      modifies this`pending, this`pendingBytes, this`truncated, open`buf, open`dropped, open`binary
      ensures Valid() && Clean(Value()) && Were(was, order, before) && Enumerates(order, open)
      ensures var r := Live(before, Room(|open|));
              all == old(pending) + r.out && Have(order, r.after)
      ensures forall i :: 0 <= i < |order| ==> Unfinished(order[i].Value())
    {
      all := drainRounds();
      ghost var l := Value();
      var last;
      last, order, before := drain(Room(|open|), was);
      DrainedClean(l, before, Room(|open|));
      EnumeratedIn(order, open);
      LiveTakesAll(before, |order|, Room(|open|));
      all := all + last;
    }

    /** register: a request id of its own, before drain can see the tunnel. */
    method register(o: TunnelObserver)
      requires Valid() && o.Valid() && o !in open
      modifies this`nextID, this`open, this`byID, o`id
      ensures Valid()
      ensures nextID == old(nextID) + 1 && o.id == nextID && o.id !in old(byID)
      ensures open == old(open) + {o}
    {
      nextID := nextID + 1;
      o.id := nextID;
      open := open + {o};
      byID := byID[o.id := o];
    }

    method unregister(o: TunnelObserver)
      requires Valid()
      modifies this`open
      ensures Valid() && open == old(open) - {o}
    {
      open := open - {o};
    }
  }

  class TunnelObserver {
    const log: LockLog
    var id: nat
    var entry: Option<Entry>  // the close entry to be; None until a request is seen
    var capture: bool
    var v2: bool
    var status: bytes
    var skip: nat
    var hdr: bytes
    var left: nat
    var keep: bool
    var buf: bytes
    var dropped: nat
    var binary: bool

    ghost function State(): Decoder
      reads this
    {
      Decoder(capture, v2, status, skip, hdr, left, keep)
    }

    ghost function Value(): Tunnel
      reads this
    {
      Tunnel(id, State(), buf, dropped, binary)
    }

    ghost predicate Valid()
      reads this
    {
      |status| <= 4 && |hdr| < 5 && |buf| <= MAX_UNFLUSHED
    }

    constructor (log: LockLog)
      ensures Valid() && this.log == log && entry == None
      ensures Value() == Tunnel(0, Fresh(false, false), [], 0, false)
    {
      this.log := log;
      id, entry := 0, None;
      capture, v2, status, skip, hdr, left, keep := false, false, [], 0, [], 0, false;
      buf, dropped, binary := [], 0, false;
    }

    /** The request starts: what is kept of its reply, and its id. */
    method begin(service: bytes)
      requires Valid() && log.Valid() && this !in log.open && entry == None
      requires Value() == Tunnel(0, Fresh(false, false), [], 0, false)
      modifies this`capture, this`v2, this`entry, this`id, log`nextID, log`open, log`byID
      ensures log.Valid() && log.open == old(log.open) + {this} && log.nextID == old(log.nextID) + 1
      ensures Value() == Opened(log.nextID, service)
      ensures entry == Some(Entry(id, service, [], false, false))
    {
      capture := SHELL <= service;
      v2 := SHELL_V2 <= service;
      log.register(this);
      entry := Some(Entry(id, service, [], false, false));
    }

    /** The sniffer's callback: the request starts, and its open entry is logged. */
    method onService(service: bytes)
      requires Valid() && log.Valid() && this !in log.open && entry == None
      requires Value() == Tunnel(0, Fresh(false, false), [], 0, false)
      modifies this, log`nextID, log`open, log`byID, log`pending, log`pendingBytes, log`truncated
      ensures log.Valid() && log.open == old(log.open) + {this} && log.nextID == old(log.nextID) + 1
      ensures Value() == Opened(log.nextID, service)
      ensures entry == Some(Entry(id, service, [], false, false))
      ensures log.Value() == Recorded(old(log.Value()), Entry(id, Clipped(service), [], true, false))
    {
      begin(service);
      log.Record(Entry(id, service, [], true, false));
    }

    /** Every byte is kept, in order, or counted as dropped, and none is dropped while there is room. */
    method append(p0: bytes)
      requires Valid()
      modifies this`buf, this`dropped
      ensures Value() == Appended(old(Value()), p0)
      ensures binary ==> buf == old(buf) && dropped == old(dropped)
      ensures !binary ==>
                var k := Min(|p0|, MAX_UNFLUSHED - |old(buf)|);
                buf == old(buf) + p0[..k] && dropped == old(dropped) + |p0| - k
      ensures dropped > old(dropped) ==> |buf| == MAX_UNFLUSHED
    {
      if binary {
        return;
      }
      var p := p0;
      var room := MAX_UNFLUSHED - |buf|;
      if |p| > room {
        dropped := dropped + |p| - Max(room, 0);
        p := p[..Max(room, 0)];
      }
      assert p == p0[..|p|];
      buf := buf + p;
    }

    /** The reply's status comes in, or there is some of a FAIL's length to skip. */
    method observeStatus(p: bytes) returns (n: nat)
      requires Valid() && |p| > 0 && capture && (|status| < 4 || skip > 0)
      modifies this`capture, this`v2, this`status, this`skip
      ensures n == RoundLen(old(State()), p)
      ensures Value() == Round(old(Value()), p[..n])
    {
      if |status| < 4 {
        n := Min(4 - |status|, |p|);
        status := status + p[..n];
        if |status| == 4 {
          if status == OKAY {
          } else if status == FAIL {
            v2, skip := false, 4;
          } else {
            capture := false;
          }
        }
      } else {
        n := Min(skip, |p|);
        skip := skip - n;
      }
    }

    /** A packet's header comes in. */
    method observeHeader(p: bytes) returns (n: nat)
      requires Valid() && |p| > 0 && capture && |status| == 4 && skip == 0 && v2 && left == 0
      modifies this`hdr, this`left, this`keep
      ensures n == RoundLen(old(State()), p)
      ensures Value() == Round(old(Value()), p[..n])
    {
      n := Min(5 - |hdr|, |p|);
      hdr := hdr + p[..n];
      if |hdr| == 5 {
        left := Le32(hdr[1..]);
        keep := hdr[0] == STDOUT || hdr[0] == STDERR;
        hdr := [];
      }
    }

    /** One round of observe's loop: the first n bytes of p are decoded. */
    method observeRound(p: bytes) returns (n: nat)
      requires Valid() && |p| > 0 && capture
      modifies this`capture, this`v2, this`status, this`skip, this`hdr, this`left, this`keep, this`buf, this`dropped
      ensures n == RoundLen(old(State()), p)
      ensures Value() == Round(old(Value()), p[..n])
    {
      if |status| < 4 || skip > 0 {
        n := observeStatus(p);
      } else if !v2 {
        n := |p|;
        append(p[..n]);
      } else if left == 0 {
        n := observeHeader(p);
      } else {
        n := Min(left, |p|);
        left := left - n;
        if keep {
          append(p[..n]);
        }
      }
    }

    /** observe: what the device sent back, decoded into the buffer. */
    method observe(chunk: bytes)
      requires Valid()
      modifies this`capture, this`v2, this`status, this`skip, this`hdr, this`left, this`keep, this`buf, this`dropped
      ensures Valid()
      ensures Value() == Observed(old(Value()), chunk)
    {
      var p := chunk;
      ghost var t, seen := Value(), [];
      ObservedNothing(t);
      while |p| > 0 && capture
        invariant Valid() && chunk == seen + p
        invariant Value() == Observed(t, seen)
      {
        var n := observeRound(p);
        AfterRound(t, seen, p, n);
        seen := seen + p[..n];
        p := p[n..];
      }
      AfterLoop(t, seen, p);
    }

    /** take: up to max bytes of buffered output, cut on a rune boundary. */
    method take(max: nat, final: bool) returns (piece: bytes)
      requires Valid()
      modifies this`buf, this`dropped, this`binary
      ensures Valid()
      ensures Value() == Taken(old(Value()), max, final).0
      ensures piece == Taken(old(Value()), max, final).1
    {
      if |buf| == 0 {
        if final && dropped > 0 {
          var n := dropped;
          dropped := 0;
          return DroppedMarker(n);
        }
        return [];
      }
      var cut := Min(max, |buf|);
      if !final || cut < |buf| {
        var i := cut - 1;
        ghost var whole := cut;
        while i >= 0 && i >= cut - Utf8.UTF_MAX
          invariant cut == whole && -1 <= i < cut
          invariant Utf8.CutFrom(buf, whole, i) == Utf8.Cut(buf, whole)
        {
          if Utf8.RuneStart(buf[i]) {
            if !Utf8.FullRune(buf[i..cut]) {
              cut := i;
            }
            break;
          }
          i := i - 1;
        }
      }
      assert cut == TakeEnd(buf, max, final);
      piece := buf[..cut];
      if !Utf8.Valid(piece) {
        binary, buf, dropped := true, [], 0;
        return BINARY_MARKER;
      }
      buf := buf[cut..];
    }

    /** One round of finish's loop: a piece is taken and recorded, or there is none. */
    method finishRound() returns (more: bool)
      requires Valid() && log.Valid() && this !in log.open
      modifies this`buf, this`dropped, this`binary, log`pending, log`pendingBytes, log`truncated
      ensures Valid() && log.Valid()
      ensures FinishLoop(log.Value(), Value()) == FinishLoop(old(log.Value()), old(Value()))
      ensures if more then Remaining(Value()) < Remaining(old(Value()))
              else Value() == old(Value()) && log.Value() == old(log.Value()) && Taken(Value(), MAX_PIECE, true).1 == []
    {
      FinalTakeProgress(Value());
      var piece := take(MAX_PIECE, true);
      more := piece != [];
      if more {
        log.Record(Entry(id, [], piece, false, false));
      }
    }

    /** finish: the rest of the output, then the close entry. */
    method finish()
      requires Valid() && log.Valid() && (entry.None? ==> this !in log.open)
      modifies this, log`open, log`pending, log`pendingBytes, log`truncated
      ensures Valid() && log.Valid()
      ensures entry == old(entry) && this !in log.open
      ensures old(entry).None? ==> Value() == old(Value()) && log.Value() == old(log.Value()) && log.open == old(log.open)
      ensures old(entry).Some? ==>
                && log.open == old(log.open) - {this}
                && Finished(old(log.Value()), old(Value()), old(entry.value)) == (log.Value(), Value())
    {
      if entry.None? {
        return;
      }
      log.unregister(this);
      var more := true;
      while more
        invariant Valid() && log.Valid() && this !in log.open
        invariant log.open == old(log.open) - {this} && entry == old(entry)
        invariant FinishLoop(log.Value(), Value()) == FinishLoop(old(log.Value()), old(Value()))
        invariant !more ==> Taken(Value(), MAX_PIECE, true).1 == []
        decreases more, Remaining(Value())
      {
        more := finishRound();
      }
      FinalTakeProgress(Value());
      log.Record(entry.value);
    }
  }
}
