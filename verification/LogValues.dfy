/**
 The lock log as values (lock_log.go): what one call of Record, drain, Requeue,
 observe or take does to the log and to the tunnels' buffers. The classes of
 module LockLog are proved against these functions; module LogShipping runs them.
 */
module LogValues {
  import opened Bytes
  import opened Utf8
  import opened ShellDecoder

  const MAX_ENTRIES := 2000
  const MAX_PENDING_BYTES := 0x200_0000   // 32 MiB
  const MAX_SERVICE_LEN := 1000
  const DRAIN_BYTES := 0x20_0000          // 2 MiB
  const MAX_PIECE := 0x10_0000            // half of DRAIN_BYTES
  const MAX_UNFLUSHED := 0x80_0000        // 8 MiB
  // "(binary output omitted)"
  const BINARY_MARKER: bytes := [
    0x28, 0x62, 0x69, 0x6E, 0x61, 0x72, 0x79, 0x20, 0x6F, 0x75, 0x74, 0x70, 0x75, 0x74,
    0x20, 0x6F, 0x6D, 0x69, 0x74, 0x74, 0x65, 0x64, 0x29]
  // "(log truncated: too much logged between heartbeats)"
  const TRUNCATED_SERVICE: bytes := [
    0x28, 0x6C, 0x6F, 0x67, 0x20, 0x74, 0x72, 0x75, 0x6E, 0x63, 0x61, 0x74, 0x65, 0x64,
    0x3A, 0x20, 0x74, 0x6F, 0x6F, 0x20, 0x6D, 0x75, 0x63, 0x68, 0x20, 0x6C, 0x6F, 0x67,
    0x67, 0x65, 0x64, 0x20, 0x62, 0x65, 0x74, 0x77, 0x65, 0x65, 0x6E, 0x20, 0x68, 0x65,
    0x61, 0x72, 0x74, 0x62, 0x65, 0x61, 0x74, 0x73, 0x29]
  const ELLIPSIS: bytes := [0xE2, 0x80, 0xA6]

  /** A log entry. live tells an output piece built by drain from one that came through Record. */
  datatype Entry = Entry(request: nat, service: bytes, output: bytes, open: bool, live: bool)

  const TRUNCATED := Entry(0, TRUNCATED_SERVICE, [], false, false)

  /** The output bytes of the first n entries. */
  function BytesUpTo(es: seq<Entry>, n: nat): nat
    requires n <= |es|
  {
    if n == 0 then 0 else BytesUpTo(es, n - 1) + |es[n - 1].output|
  }

  function OutputBytes(es: seq<Entry>): nat {
    BytesUpTo(es, |es|)
  }

  lemma {:induction false} BytesUpToSame(es: seq<Entry>, fs: seq<Entry>, n: nat)
    requires n <= |es| && n <= |fs| && es[..n] == fs[..n]
    ensures BytesUpTo(es, n) == BytesUpTo(fs, n)
  {
    if n == 0 {
    } else {
      assert es[n - 1] == es[..n][n - 1] == fs[..n][n - 1] == fs[n - 1];
      assert es[..n - 1] == es[..n][..n - 1] && fs[..n - 1] == fs[..n][..n - 1];
      BytesUpToSame(es, fs, n - 1);
    }
  }

  lemma {:induction false} BytesUpToConcat(a: seq<Entry>, b: seq<Entry>, n: nat)
    requires n <= |b|
    ensures BytesUpTo(a + b, |a| + n) == OutputBytes(a) + BytesUpTo(b, n)
  {
    if n == 0 {
      BytesUpToSame(a + b, a, |a|);
    } else {
      BytesUpToConcat(a, b, n - 1);
    }
  }

  lemma OutputBytesConcat(a: seq<Entry>, b: seq<Entry>)
    ensures OutputBytes(a + b) == OutputBytes(a) + OutputBytes(b)
  {
    BytesUpToConcat(a, b, |b|);
  }

  // ---------- the pending list ----------

  datatype Log = Log(pending: seq<Entry>, pendingBytes: int, truncated: bool)
  {
    predicate Valid() {
      pendingBytes == OutputBytes(pending)
    }
  }

  /** Nothing pending, nothing counted, no truncation in force. */
  predicate Clean(l: Log) {
    |l.pending| == 0 && l.pendingBytes == 0 && !l.truncated
  }

  /** A service as Record keeps it: within the cap, marker included. */
  function Clipped(service: bytes): (r: bytes)
    ensures |r| <= MAX_SERVICE_LEN
    ensures |service| <= MAX_SERVICE_LEN ==> r == service
  {
    if |service| > MAX_SERVICE_LEN then service[..MAX_SERVICE_LEN - |ELLIPSIS|] + ELLIPSIS else service
  }

  predicate Accepts(l: Log, e: Entry) {
    |l.pending| < MAX_ENTRIES && l.pendingBytes + |e.output| <= MAX_PENDING_BYTES
  }

  /** What Record adds for e: e, or once the truncation marker, or nothing. */
  function Added(l: Log, e: Entry): (es: seq<Entry>) {
    if Accepts(l, e) then [e] else if l.truncated then [] else [TRUNCATED]
  }

  lemma AddedBytes(l: Log, e: Entry)
    ensures OutputBytes(l.pending + Added(l, e)) == OutputBytes(l.pending) + if Accepts(l, e) then |e.output| else 0
  {
    if Accepts(l, e) {
      OutputBytesSnoc(l.pending, e);
    } else if l.truncated {
      assert l.pending + [] == l.pending;
    } else {
      OutputBytesSnoc(l.pending, TRUNCATED);
    }
  }

  function Recorded(l: Log, e: Entry): (r: Log)
    ensures l.Valid() ==> r.Valid()
  {
    AddedBytes(l, e);
    if Accepts(l, e) then l.(pending := l.pending + [e], pendingBytes := l.pendingBytes + |e.output|)
    else l.(pending := l.pending + Added(l, e), truncated := true)
  }

  function Requeued(l: Log, es: seq<Entry>): (r: Log)
    ensures l.Valid() ==> r.Valid()
  {
    OutputBytesConcat(es, l.pending);
    l.(pending := es + l.pending, pendingBytes := l.pendingBytes + OutputBytes(es))
  }

  /** Where drain's loop over es stops, from index n with left of the budget: one entry is always taken. */
  function Fit(es: seq<Entry>, n: nat, left: int): (end: nat)
    requires n <= |es|
    ensures n <= end <= |es|
    decreases |es| - n
  {
    if n < |es| && !(|es[n].output| > left && n > 0) then Fit(es, n + 1, left - |es[n].output|) else n
  }

  lemma OutputBytesSplit(es: seq<Entry>, n: nat)
    requires n <= |es|
    ensures OutputBytes(es) == OutputBytes(es[..n]) + OutputBytes(es[n..])
  {
    OutputBytesConcat(es[..n], es[n..]);
    assert es[..n] + es[n..] == es;
  }

  lemma OutputBytesSnoc(es: seq<Entry>, e: Entry)
    ensures OutputBytes(es + [e]) == OutputBytes(es) + |e.output|
  {
    OutputBytesConcat(es, [e]);
    assert BytesUpTo([e], 0) == 0;
  }

  // ---------- one tunnel ----------

  datatype Tunnel = Tunnel(id: nat, decoder: Decoder, buf: bytes, dropped: nat, binary: bool)
  {
    predicate Valid() {
      decoder.Valid() && |buf| <= MAX_UNFLUSHED
    }
  }

  /** A tunnel whose request has just been read: service decides what is kept of the reply. */
  function Opened(id: nat, service: bytes): (t: Tunnel)
    ensures t.Valid()
  {
    Tunnel(id, Fresh(SHELL <= service, SHELL_V2 <= service), [], 0, false)
  }

  /** append: decoded output into the buffer, up to the cap. */
  function Appended(t: Tunnel, p: bytes): (r: Tunnel)
    ensures t.Valid() ==> r.Valid()
  {
    if t.binary then t
    else
      var room := MAX_UNFLUSHED - |t.buf|;
      if |p| > room then t.(dropped := t.dropped + |p| - Max(room, 0), buf := t.buf + p[..Max(room, 0)])
      else t.(buf := t.buf + p)
  }

  lemma AppendedTwice(t: Tunnel, p: bytes, q: bytes)
    requires t.Valid()
    ensures Appended(Appended(t, p), q) == Appended(t, p + q)
  {
  }

  /** observe: p decoded into the buffer. */
  function Observed(t: Tunnel, p: bytes): (r: Tunnel)
    requires t.Valid()
    ensures r.Valid()
  {
    var (d, out) := Feed(t.decoder, p);
    Appended(t.(decoder := d), out)
  }

  /** How many bytes of p the next round of observe's loop takes. */
  function RoundLen(d: Decoder, p: bytes): (n: nat)
    requires d.Valid() && d.capture && p != []
    ensures 0 < n <= |p|
  {
    if |d.status| < 4 then Min(4 - |d.status|, |p|)
    else if d.skip > 0 then Min(d.skip, |p|)
    else if !d.v2 then |p|
    else if d.left == 0 then Min(5 - |d.hdr|, |p|)
    else Min(d.left, |p|)
  }

  /** The tunnel after a round that took p. */
  function Round(t: Tunnel, p: bytes): (r: Tunnel)
    requires t.Valid() && t.decoder.capture && p != [] && RoundLen(t.decoder, p) == |p|
  {
    var d := t.decoder;
    if |d.status| < 4 then
      var e := d.(status := d.status + p);
      t.(decoder := if |e.status| < 4 || e.status == OKAY then e
                    else if e.status == FAIL then e.(v2 := false, skip := 4)
                    else e.(capture := false))
    else if d.skip > 0 then t.(decoder := d.(skip := d.skip - |p|))
    else if !d.v2 then Appended(t, p)
    else if d.left == 0 then
      var hdr := d.hdr + p;
      t.(decoder := if |hdr| < 5 then d.(hdr := hdr)
                    else d.(hdr := [], left := Le32(hdr[1..]), keep := hdr[0] == STDOUT || hdr[0] == STDERR))
    else
      var u := t.(decoder := d.(left := d.left - |p|));
      if d.keep then Appended(u, p) else u
  }

  lemma RoundIsObserved(t: Tunnel, p: bytes)
    requires t.Valid() && t.decoder.capture && p != [] && RoundLen(t.decoder, p) == |p|
    ensures Round(t, p) == Observed(t, p)
  {
    var d := t.decoder;
    assert t.buf + [] == t.buf;
    if |d.status| < 4 {
      if |d.status| + |p| < 4 {
        FeedStatus(d, p);
      } else {
        FeedWholeStatus(d, p);
      }
    } else if d.skip > 0 {
      FeedSkip(d, p);
    } else if !d.v2 {
      FeedRaw(d, p);
    } else if d.left == 0 {
      if |d.hdr| + |p| < 5 {
        FeedHeader(d, p);
      } else {
        FeedWholeHeader(d, p);
      }
    } else {
      FeedPayload(d, p);
    }
  }

  lemma ObservedTwice(t: Tunnel, p: bytes, q: bytes)
    requires t.Valid()
    ensures Observed(Observed(t, p), q) == Observed(t, p + q)
  {
    FeedConcat(t.decoder, p, q);
    var (d, out) := Feed(t.decoder, p);
    var (e, rest) := Feed(d, q);
    AppendedTwice(t.(decoder := e), out, rest);
    assert Appended(Appended(t.(decoder := d), out).(decoder := e), rest) == Appended(Appended(t.(decoder := e), out), rest);
  }

  lemma ObservedNothing(t: Tunnel)
    requires t.Valid()
    ensures Observed(t, []) == t
  {
  }

  /** observe's loop: one round after the bytes seen so far. */
  lemma AfterRound(t: Tunnel, seen: bytes, p: bytes, n: nat)
    requires t.Valid() && p != []
    requires var d := Observed(t, seen).decoder; d.capture && n == RoundLen(d, p)
    ensures Round(Observed(t, seen), p[..n]) == Observed(t, seen + p[..n])
  {
    assert RoundLen(Observed(t, seen).decoder, p[..n]) == n;
    RoundIsObserved(Observed(t, seen), p[..n]);
    ObservedTwice(t, seen, p[..n]);
  }

  /** observe's loop is done: nothing is left, or it has stopped looking. */
  lemma AfterLoop(t: Tunnel, seen: bytes, p: bytes)
    requires t.Valid() && (p == [] || !Observed(t, seen).decoder.capture)
    ensures Observed(t, seen + p) == Observed(t, seen)
  {
    var u := Observed(t, seen);
    ObservedTwice(t, seen, p);
    if p == [] {
      ObservedNothing(u);
    } else {
      FeedIgnored(u.decoder, p);
      ObservedNothing(u);
    }
  }

  // "\n(" and " bytes of output dropped)\n"
  const DROPPED_BEFORE: bytes := [0x0A, 0x28]
  const DROPPED_AFTER: bytes := [
    0x20, 0x62, 0x79, 0x74, 0x65, 0x73, 0x20, 0x6F, 0x66, 0x20, 0x6F, 0x75, 0x74, 0x70,
    0x75, 0x74, 0x20, 0x64, 0x72, 0x6F, 0x70, 0x70, 0x65, 0x64, 0x29, 0x0A]

  function Decimal(n: nat): (r: bytes)
    ensures r != []
  {
    if n < 10 then ['0' as int + n] else Decimal(n / 10) + ['0' as int + n % 10]
  }

  function DroppedMarker(n: nat): (r: bytes)
    ensures r != []
  {
    DROPPED_BEFORE + Decimal(n) + DROPPED_AFTER
  }

  /** Where take cuts the buffer. */
  function TakeEnd(buf: bytes, max: nat, final: bool): (n: nat)
    ensures n <= |buf| && n <= max
  {
    var cut := Min(max, |buf|);
    if !final || cut < |buf| then Cut(buf, cut) else cut
  }

  /** take: the tunnel afterwards, and the piece. */
  function Taken(t: Tunnel, max: nat, final: bool): (r: (Tunnel, bytes))
    ensures t.Valid() ==> r.0.Valid()
    ensures r.0.id == t.id
  {
    if t.buf == [] then
      if final && t.dropped > 0 then (t.(dropped := 0), DroppedMarker(t.dropped)) else (t, [])
    else
      var n := TakeEnd(t.buf, max, final);
      if Utf8.Valid(t.buf[..n]) then (t.(buf := t.buf[n..]), t.buf[..n])
      else (t.(binary := true, buf := [], dropped := 0), BINARY_MARKER)
  }

  // ---------- the live part of drain ----------

  /** The pieces of the tunnels ts, taken in that order, the tunnels afterwards, and the budget left. */
  datatype LiveResult = LiveResult(out: seq<Entry>, after: seq<Tunnel>, left: int)

  function LiveEntry(id: nat, piece: bytes): Entry {
    Entry(id, [], piece, false, true)
  }

  /** One more tunnel's turn: nothing once the budget is gone. */
  function LiveStep(r: LiveResult, t: Tunnel): (u: LiveResult)
    ensures u.left <= r.left && |u.after| == |r.after| + 1
  {
    if r.left <= 0 then LiveResult(r.out, r.after + [t], r.left)
    else
      var (u, piece) := Taken(t, r.left, false);
      if piece == [] then LiveResult(r.out, r.after + [u], r.left)
      else LiveResult(r.out + [LiveEntry(t.id, piece)], r.after + [u], r.left - |piece|)
  }

  /** After the first n tunnels' turns. */
  function LiveUpTo(ts: seq<Tunnel>, n: nat, budget: int): (r: LiveResult)
    requires n <= |ts|
    ensures |r.after| == n && r.left <= budget
  {
    if n == 0 then LiveResult([], [], budget) else LiveStep(LiveUpTo(ts, n - 1, budget), ts[n - 1])
  }

  function Live(ts: seq<Tunnel>, budget: int): (r: LiveResult)
    ensures |r.after| == |ts| && r.left <= budget
  {
    LiveUpTo(ts, |ts|, budget)
  }

  lemma OneMoreOf(before: seq<Tunnel>, ts: seq<Tunnel>, i: nat, n: nat)
    requires i < n <= |ts|
    ensures before + ts[i..n - 1] + [ts[n - 1]] == before + ts[i..n]
  {
  }

  lemma NoneOf(before: seq<Tunnel>, ts: seq<Tunnel>, i: nat)
    requires i <= |ts|
    ensures before + ts[i..i] == before
  {
  }

  /** Once the budget is gone, nobody else has a turn. */
  lemma {:induction false} LiveRest(ts: seq<Tunnel>, i: nat, n: nat, budget: int)
    requires i <= n <= |ts|
    requires i == n || LiveUpTo(ts, i, budget).left <= 0
    ensures var r := LiveUpTo(ts, i, budget);
            LiveUpTo(ts, n, budget) == LiveResult(r.out, r.after + ts[i..n], r.left)
  {
    if i == n {
      NoneOf(LiveUpTo(ts, i, budget).after, ts, i);
    } else {
      LiveRest(ts, i, n - 1, budget);
      OneMoreOf(LiveUpTo(ts, i, budget).after, ts, i, n);
    }
  }

  /** The turns stopped at r: with everybody served, or the budget gone. */
  lemma TurnsOver(ts: seq<Tunnel>, budget: int, r: LiveResult)
    requires |r.after| <= |ts| && LiveUpTo(ts, |r.after|, budget) == r
    requires |r.after| == |ts| || r.left <= 0
    ensures Live(ts, budget) == LiveResult(r.out, r.after + ts[|r.after|..], r.left)
  {
    LiveRest(ts, |r.after|, |ts|, budget);
  }

  // ---------- drain's budget ----------

  /** What drain takes of pending fits its budget, or is one oversized entry. */
  lemma {:induction false} FitWithinBudget(es: seq<Entry>, n: nat, left: int, budget: nat)
    requires n <= |es| && left == budget - OutputBytes(es[..n])
    requires left >= 0 || n == 1
    ensures var end := Fit(es, n, left);
            OutputBytes(es[..end]) <= budget || end == 1
    decreases |es| - n
  {
    if n < |es| && !(|es[n].output| > left && n > 0) {
      assert es[..n + 1] == es[..n] + [es[n]];
      OutputBytesSnoc(es[..n], es[n]);
      FitWithinBudget(es, n + 1, left - |es[n].output|, budget);
    }
  }

  /** A turn's piece fits what is left, or is the binary marker. */
  lemma LiveStepWithinBudget(r: LiveResult, t: Tunnel)
    ensures var u := LiveStep(r, t);
            && OutputBytes(u.out) - OutputBytes(r.out) == r.left - u.left
            && (r.left <= 0 ==> u.out == r.out)
            && (r.left > 0 ==> u.left >= 0 || (u.left > -|BINARY_MARKER| && u.out != [] && u.out[|u.out| - 1].output == BINARY_MARKER))
  {
    if r.left > 0 {
      var piece := Taken(t, r.left, false).1;
      OutputBytesSnoc(r.out, LiveEntry(t.id, piece));
    }
  }

  /** The live pieces fit what is left, but for one binary marker at the very end. */
  lemma {:induction false} LiveWithinBudget(ts: seq<Tunnel>, n: nat, budget: nat)
    requires n <= |ts|
    ensures var r := LiveUpTo(ts, n, budget);
            && OutputBytes(r.out) == budget - r.left
            && (r.left >= 0 || (r.left > -|BINARY_MARKER| && r.out != [] && r.out[|r.out| - 1].output == BINARY_MARKER))
  {
    if n == 0 {
    } else {
      LiveWithinBudget(ts, n - 1, budget);
      LiveStepWithinBudget(LiveUpTo(ts, n - 1, budget), ts[n - 1]);
    }
  }

  /** What a drain does to the log and to the tunnels, in the order they come up. */
  datatype DrainResult = DrainResult(log: Log, out: seq<Entry>, after: seq<Tunnel>, left: int)

  function Drained(l: Log, ts: seq<Tunnel>, budget: int): (r: DrainResult)
    ensures |r.after| == |ts|
  {
    var n := Fit(l.pending, 0, budget);
    var taken := OutputBytes(l.pending[..n]);
    var r := Live(ts, budget - taken);
    DrainResult(Log(l.pending[n..], l.pendingBytes - taken, l.truncated && n < |l.pending|),
                l.pending[..n] + r.out, r.after, r.left)
  }

  /** A drain's two halves, put together. */
  lemma DrainedHalves(l: Log, ts: seq<Tunnel>, budget: int, first: seq<Entry>, left: int, rest: Log, live: LiveResult)
    requires first + rest.pending == l.pending && |first| == Fit(l.pending, 0, budget)
    requires left == budget - OutputBytes(first) && rest.pendingBytes == l.pendingBytes - OutputBytes(first)
    requires rest.truncated == (l.truncated && |rest.pending| > 0)
    requires live == Live(ts, left)
    ensures var r := Drained(l, ts, budget); r.log == rest && r.out == first + live.out && r.after == live.after && r.left == live.left
  {
    assert l.pending[..|first|] == first && l.pending[|first|..] == rest.pending;
  }

  /** A drain of a clean log takes from the tunnels only. */
  lemma DrainedClean(l: Log, ts: seq<Tunnel>, budget: int)
    requires Clean(l)
    ensures var r := Live(ts, budget);
            var d := Drained(l, ts, budget);
            Clean(d.log) && d.out == r.out && d.after == r.after && d.left == r.left
  {
  }

  lemma {:induction false} LiveNothing(ts: seq<Tunnel>, n: nat, budget: int)
    requires budget <= 0 && n <= |ts|
    ensures LiveUpTo(ts, n, budget) == LiveResult([], ts[..n], budget)
  {
    if n == 0 {
    } else {
      LiveNothing(ts, n - 1, budget);
      assert ts[..n] == ts[..n - 1] + [ts[n - 1]];
    }
  }

  /** One drain carries at most its budget and part of a marker, unless it is one oversized entry; and never skips the first. */
  lemma DrainBound(l: Log, ts: seq<Tunnel>, budget: nat)
    ensures var r := Drained(l, ts, budget);
            && (l.pending != [] ==> r.out != [] && r.out[0] == l.pending[0])
            && (|r.out| == 1 || OutputBytes(r.out) < budget + |BINARY_MARKER|)
  {
    var n := Fit(l.pending, 0, budget);
    var first := l.pending[..n];
    var left := budget - OutputBytes(first);
    FitWithinBudget(l.pending, 0, budget, budget);
    OutputBytesConcat(first, Live(ts, left).out);
    if left < 0 {
      LiveNothing(ts, |ts|, left);
    } else {
      LiveWithinBudget(ts, |ts|, left);
    }
  }

  /** A byte that starts no rune goes out as the binary marker, whatever is left of the budget. */
  lemma BadByteGivesMarker(t: Tunnel, max: nat)
    requires t.buf == [0xFF] && max > 0
    ensures Taken(t, max, false) == (t.(binary := true, buf := [], dropped := 0), BINARY_MARKER)
  {
    assert t.buf[..1] == t.buf && t.buf[0..1] == t.buf;
    assert Cut(t.buf, 1) == 1;
    assert !Utf8.Valid(t.buf);
  }

  /** The bound is reached: one byte of the budget left, and a tunnel whose output is not text. */
  lemma DrainBoundAttained(l: Log, e: Entry, t: Tunnel, budget: nat)
    requires l.pending == [e] && |e.output| == budget - 1 && t.buf == [0xFF]
    ensures OutputBytes(Drained(l, [t], budget).out) == budget + |BINARY_MARKER| - 1
  {
    assert l.pending[..1] == l.pending && BytesUpTo([e], 0) == 0 && OutputBytes([e]) == |e.output|;
    assert Fit(l.pending, 0, budget) == 1;
    BadByteGivesMarker(t, 1);
    assert LiveUpTo([t], 0, 1) == LiveResult([], [], 1);
    assert Live([t], 1).out == [] + [LiveEntry(t.id, BINARY_MARKER)] == [LiveEntry(t.id, BINARY_MARKER)];
    OutputBytesSnoc([e], LiveEntry(t.id, BINARY_MARKER));
  }

  // ---------- finish ----------

  /** An entry through Record that carries output of request id. */
  function PieceEntry(id: nat, piece: bytes): Entry {
    Entry(id, [], piece, false, false)
  }

  /** What one final take leaves to be taken. */
  function Remaining(t: Tunnel): nat {
    |t.buf| + if t.dropped > 0 then 1 else 0
  }

  lemma FinalTakeProgress(t: Tunnel)
    ensures var (u, piece) := Taken(t, MAX_PIECE, true);
            if piece == [] then t.buf == [] && t.dropped == 0 && u == t else Remaining(u) < Remaining(t)
  {
    if t.buf != [] {
      var cut := Min(MAX_PIECE, |t.buf|);
      CutLeavesUnfinishedRune(t.buf, cut, cut - 1);
    }
  }

  /** finish's loop: every piece left recorded. */
  function FinishLoop(l: Log, t: Tunnel): (r: (Log, Tunnel))
    ensures l.Valid() ==> r.0.Valid()
    ensures r.1.buf == [] && r.1.dropped == 0
    decreases Remaining(t)
  {
    FinalTakeProgress(t);
    var (u, piece) := Taken(t, MAX_PIECE, true);
    if piece == [] then (l, u) else FinishLoop(Recorded(l, PieceEntry(t.id, piece)), u)
  }

  /** finish: the rest of the output recorded piece by piece, then the close entry. */
  function Finished(l: Log, t: Tunnel, close: Entry): (r: (Log, Tunnel))
    ensures l.Valid() ==> r.0.Valid()
    ensures r.1.buf == [] && r.1.dropped == 0
  {
    var (m, u) := FinishLoop(l, t);
    (Recorded(m, close.(service := Clipped(close.service))), u)
  }

  // ---------- DrainAll ----------

  /** Nothing left, or at most three bytes of a rune that is not all there. */
  predicate Unfinished(u: Tunnel) {
    |u.buf| < UTF_MAX && (u.buf == [] || !FullRune(u.buf))
  }

  lemma TakeWithRoom(t: Tunnel, max: nat)
    requires t.Valid() && max >= MAX_UNFLUSHED
    ensures var (u, piece) := Taken(t, max, false);
            |piece| <= MAX_UNFLUSHED && Unfinished(u)
  {
    CutLeavesUnfinishedRune(t.buf, |t.buf|, |t.buf| - 1);
  }

  /** What n tunnels can hold at most: the release call's budget for live output. */
  function Room(n: nat): nat {
    n * 0x80_0000 // MAX_UNFLUSHED each
  }

  /** With room for every tunnel's cap, each gives all it has but an unfinished rune. */
  lemma {:induction false} LiveTakesAll(ts: seq<Tunnel>, n: nat, budget: int)
    requires n <= |ts| && forall i :: 0 <= i < n ==> ts[i].Valid()
    requires budget >= Room(n)
    ensures var r := LiveUpTo(ts, n, budget);
            && r.left >= budget - Room(n)
            && forall i :: 0 <= i < n ==> Unfinished(r.after[i])
  {
    if n == 0 {
    } else {
      LiveTakesAll(ts, n - 1, budget);
      TakeWithRoom(ts[n - 1], LiveUpTo(ts, n - 1, budget).left);
    }
  }
}
