/**
 Exactly once and in order: what every run of LogShipping keeps. The pieces of
 each request that have been shipped, are held, are pending, are in the hands
 of finish and are still buffered, put end to end, are the request's decoded
 output; and the entries accepted by Record are shipped in that order.
 */
module LogDelivery {
  import opened Bytes
  import opened ShellDecoder
  import opened LogValues
  import opened LogShipping

  // ---------- drains and the budget ----------

  /** More entries behind do not shorten what a drain takes. */
  lemma {:induction false} FitExtend(a: seq<Entry>, b: seq<Entry>, n: nat, left: int)
    requires n <= |a|
    ensures Fit(a + b, n, left) >= Fit(a, n, left)
    decreases |a| - n
  {
    if n < |a| && !(|a[n].output| > left && n > 0) {
      FitExtend(a, b, n + 1, left - |a[n].output|);
    }
  }

  /** What a drain took fits another drain. */
  lemma {:induction false} FitAgain(es: seq<Entry>, n: nat, left: int)
    requires n <= |es|
    ensures var end := Fit(es, n, left); Fit(es[..end], n, left) == end
    decreases |es| - n
  {
    if n < |es| && !(|es[n].output| > left && n > 0) {
      FitAgain(es, n + 1, left - |es[n].output|);
    }
  }

  /** One entry more fits as well, when the drain's budget has room for it. */
  lemma {:induction false} FitSnoc(es: seq<Entry>, e: Entry, n: nat, left: int)
    requires n <= |es| && Fit(es, n, left) == |es|
    ensures Fit(es + [e], n, left) >= |es|
    ensures |e.output| <= left + BytesUpTo(es, n) - OutputBytes(es) ==> Fit(es + [e], n, left) == |es| + 1
    decreases |es| - n
  {
    if n == |es| {
    } else {
      FitSnoc(es, e, n + 1, left - |es[n].output|);
    }
  }

  // ---------- the invariant ----------

  /** e carries no output of a request that may still produce live pieces. */
  predicate Settled(requests: map<nat, Request>, e: Entry) {
    || e.output == []
    || e.request == 0
    || (e.request in requests && (requests[e.request].lossy || !requests[e.request].phase.Running?))
  }

  predicate SettledFrom(requests: map<nat, Request>, es: seq<Entry>, n: nat) {
    forall j :: n <= j < |es| ==> Settled(requests, es[j])
  }

  predicate Sound(id: nat, nextID: nat, r: Request) {
    && 0 < id <= nextID && r.tunnel.id == id && r.tunnel.Valid()
    && (!r.lossy ==> !r.tunnel.binary && r.tunnel.dropped == 0)
  }

  predicate Shape(s: State) {
    && s.log.Valid()
    && (forall id <- s.requests :: Sound(id, s.nextID, s.requests[id]))
    && (s.loop.Idle? || s.loop.Stopped? ==> s.loopHeld == [])
    && (s.release.Waiting? ==> s.releaseHeld == [])
    && (!s.release.Waiting? ==> s.loop.Stopped?)
    && (s.mutex.TheLoop? <==> s.loop.Draining?)
    && (s.mutex.TheRelease? <==> s.release.LastDraining?)
  }

  /** While entries are out of the log, nothing left in it can be overtaken by a live piece. */
  predicate Quiet(s: State) {
    s.loop.Draining? || s.loopHeld != [] || !s.release.Waiting?
  }

  /** The held batch fits the next drain, but perhaps for a closing piece of a request that lost bytes anyway. */
  predicate Refits(requests: map<nat, Request>, held: seq<Entry>) {
    || Fit(held, 0, DRAIN_BYTES) == |held|
    || (Fit(held, 0, DRAIN_BYTES) == |held| - 1 && Settled(requests, held[|held| - 1]))
  }

  /** What a drain would leave behind belongs to nobody still running. */
  predicate NoOvertaking(s: State) {
    && SettledFrom(s.requests, s.log.pending, if Quiet(s) then 0 else Fit(s.log.pending, 0, DRAIN_BYTES))
    && Refits(s.requests, s.loopHeld)
    && (s.loop.Draining? ==> s.left == DRAIN_BYTES - OutputBytes(s.loopHeld))
    && (s.loop.Draining? && s.left > 0 ==> Fit(s.loopHeld, 0, DRAIN_BYTES) == |s.loopHeld|)
  }

  /** What custody has of a request, what finish has in hand and the buffer are its output. */
  predicate Accounts(custody: bytes, r: Request) {
    custody + r.InHand() + r.tunnel.buf == r.decoded
  }

  /** Nothing of a request is missing, unless it has lost some. */
  predicate Owed(custody: bytes, r: Request) {
    r.lossy || Accounts(custody, r)
  }

  /** The output of request id: in custody, in hand, buffered. */
  predicate Kept(custody: seq<Entry>, id: nat, r: Request) {
    Owed(Pieces(custody, id), r)
  }

  predicate Known(nextID: nat, custody: seq<Entry>) {
    forall j :: 0 <= j < |custody| ==> custody[j].output == [] || custody[j].request <= nextID
  }

  /** Exactly once, in order, per request. */
  predicate Conserved(s: State) {
    forall id <- s.requests :: Kept(Custody(s), id, s.requests[id])
  }

  /** Exactly once, in order, for what Record accepted. */
  predicate InOrder(s: State) {
    Through(Custody(s)) == s.accepted
  }

  predicate Inv(s: State) {
    Shape(s) && NoOvertaking(s) && Known(s.nextID, Custody(s)) && Conserved(s) && InOrder(s)
  }

  lemma DrainKeepsValid(l: Log, n: nat)
    requires l.Valid() && n <= |l.pending|
    ensures Rest(l, n).Valid()
  {
    OutputBytesSplit(l.pending, n);
  }

  // ---------- steps that change one request ----------

  /** A request only ever loses more, and never starts running again. */
  predicate Advances(r: Request, u: Request) {
    (r.lossy ==> u.lossy) && (!r.phase.Running? ==> !u.phase.Running?)
  }

  function With(s: State, id: nat, u: Request, nextID: nat): State {
    s.(nextID := nextID, requests := s.requests[id := u])
  }

  predicate MayBecome(s: State, id: nat, u: Request, nextID: nat) {
    && nextID >= s.nextID && Sound(id, nextID, u)
    && (id in s.requests ==> Advances(s.requests[id], u))
  }

  lemma WithShape(s: State, id: nat, u: Request, nextID: nat)
    requires Shape(s) && MayBecome(s, id, u, nextID)
    ensures Shape(With(s, id, u, nextID))
  {
  }

  lemma WithNoOvertaking(s: State, id: nat, u: Request, nextID: nat)
    requires NoOvertaking(s) && MayBecome(s, id, u, nextID)
    ensures NoOvertaking(With(s, id, u, nextID))
  {
  }

  /** The invariant, but for what is owed to request id. */
  predicate InvBut(s: State, id: nat) {
    && Shape(s) && NoOvertaking(s) && Known(s.nextID, Custody(s)) && InOrder(s)
    && forall k <- s.requests :: k != id ==> Kept(Custody(s), k, s.requests[k])
  }

  lemma WithKept(s: State, id: nat, u: Request, nextID: nat)
    requires InvBut(s, id) && MayBecome(s, id, u, nextID) && Kept(Custody(s), id, u)
    ensures Inv(With(s, id, u, nextID))
  {
    WithShape(s, id, u, nextID);
    WithNoOvertaking(s, id, u, nextID);
    var t := With(s, id, u, nextID);
    assert Custody(t) == Custody(s);
    forall k <- t.requests
      ensures Kept(Custody(t), k, t.requests[k])
    {
      if k != id {
        assert Kept(Custody(s), k, s.requests[k]);
      }
    }
  }

  lemma RegisterKept(s: State, service: bytes)
    requires Inv(s) && s.Valid() && Enabled(s, Register(service))
    ensures Inv(Next(s, Register(service)))
  {
    var id := s.nextID + 1;
    var u := Request(Opened(id, service), Running, service, [], [], false);
    NoPieces(Custody(s), |Custody(s)|, id);
    WithKept(s, id, u, id);
  }

  lemma ObserveMoves(before: bytes, id: nat, nextID: nat, r: Request, chunk: bytes)
    requires Sound(id, nextID, r) && Owed(before, r)
    ensures var u := AfterObserve(r, chunk); Sound(id, nextID, u) && Advances(r, u) && Owed(before, u)
  {
    var out := Feed(r.tunnel.decoder, chunk).1;
    var u := AfterObserve(r, chunk);
    if !u.lossy {
      assert u.tunnel.buf == r.tunnel.buf + out;
      assert before + r.InHand() + r.tunnel.buf + out == before + r.InHand() + (r.tunnel.buf + out);
    }
  }

  lemma ObserveKept(s: State, id: nat, chunk: bytes)
    requires Inv(s) && s.Valid() && Enabled(s, Observe(id, chunk))
    ensures Inv(Next(s, Observe(id, chunk)))
  {
    var r := s.requests[id];
    assert Sound(id, s.nextID, r) && Kept(Custody(s), id, r);
    ObserveMoves(Pieces(Custody(s), id), id, s.nextID, r, chunk);
    WithKept(s, id, AfterObserve(r, chunk), s.nextID);
    assert With(s, id, AfterObserve(r, chunk), s.nextID) == Next(s, Observe(id, chunk));
  }

  lemma BeginFinishKept(s: State, id: nat)
    requires Inv(s) && s.Valid() && Enabled(s, BeginFinish(id))
    ensures Inv(Next(s, BeginFinish(id)))
  {
    var r := s.requests[id];
    assert Sound(id, s.nextID, r) && Kept(Custody(s), id, r);
    WithKept(s, id, r.(phase := Ending([])), s.nextID);
    assert With(s, id, r.(phase := Ending([])), s.nextID) == Next(s, BeginFinish(id));
  }

  /** take neither loses nor adds, short of going binary. */
  lemma TakenSplits(r: Request, t: Tunnel, max: nat, final: bool)
    requires !r.lossy && !r.tunnel.binary && r.tunnel.dropped == 0 && t == Taken(r.tunnel, max, final).0
    ensures t.binary || (t.dropped == 0 && Taken(r.tunnel, max, final).1 + t.buf == r.tunnel.buf)
  {
  }

  lemma FinishTakeSound(id: nat, nextID: nat, r: Request)
    requires Sound(id, nextID, r) && !r.phase.Running?
    ensures var u := AfterFinishTake(r); Sound(id, nextID, u) && Advances(r, u)
  {
  }

  /** What was in the buffer is in hand, or still in the buffer. */
  lemma FinishTakeMoves(before: bytes, id: nat, nextID: nat, r: Request)
    requires Sound(id, nextID, r) && r.phase == Ending([]) && Owed(before, r)
    ensures Owed(before, AfterFinishTake(r))
  {
    var (t, piece) := Taken(r.tunnel, MAX_PIECE, true);
    var u := AfterFinishTake(r);
    if !u.lossy {
      TakenSplits(r, t, MAX_PIECE, true);
      assert u.InHand() == piece && u.tunnel == t;
      InHandInstead(before, r.tunnel.buf, piece, t.buf);
    }
  }

  lemma InHandInstead(before: bytes, buf: bytes, piece: bytes, rest: bytes)
    requires piece + rest == buf
    ensures before + piece + rest == before + [] + buf
  {
    assert before + [] == before;
    assert before + piece + rest == before + (piece + rest);
  }

  lemma FinishTakeKept(s: State, id: nat)
    requires Inv(s) && s.Valid() && Enabled(s, FinishTake(id))
    ensures Inv(Next(s, FinishTake(id)))
  {
    var r := s.requests[id];
    assert Sound(id, s.nextID, r) && Kept(Custody(s), id, r);
    FinishTakeSound(id, s.nextID, r);
    FinishTakeMoves(Pieces(Custody(s), id), id, s.nextID, r);
    WithKept(s, id, AfterFinishTake(r), s.nextID);
    assert With(s, id, AfterFinishTake(r), s.nextID) == Next(s, FinishTake(id));
  }

  // ---------- steps that record ----------

  lemma AddedPieces(es: seq<Entry>, l: Log, e: Entry, id: nat)
    ensures Pieces(es + Added(l, e), id) == Pieces(es, id) + if Accepts(l, e) && e.request == id then e.output else []
  {
    PiecesConcat(es, Added(l, e), id);
    if Accepts(l, e) {
      PiecesOne(e, id);
    } else if !l.truncated {
      PiecesOne(TRUNCATED, id);
    }
  }

  lemma AddedThrough(es: seq<Entry>, l: Log, e: Entry)
    requires !e.live
    ensures Through(es + Added(l, e)) == Through(es) + Added(l, e)
  {
    ThroughConcat(es, Added(l, e));
    if Accepts(l, e) {
      ThroughOne(e);
    } else if !l.truncated {
      ThroughOne(TRUNCATED);
    }
  }

  lemma RecordingNoOvertaking(s: State, e: Entry)
    requires NoOvertaking(s) && Settled(s.requests, e)
    ensures NoOvertaking(Recording(s, e))
  {
    var c := e.(service := Clipped(e.service));
    var es := Added(s.log, c);
    FitExtend(s.log.pending, es, 0, DRAIN_BYTES);
    assert Settled(s.requests, c) && Settled(s.requests, TRUNCATED);
    assert Recording(s, e).log.pending == s.log.pending + es;
  }

  /** What a record adds carries no output of anybody but its request. */
  lemma RecordingKeepsOther(s: State, e: Entry, k: nat)
    requires k in s.requests && k != e.request && Kept(Custody(s), k, s.requests[k])
    ensures Kept(Custody(s) + Added(s.log, e), k, s.requests[k])
  {
    AddedPieces(Custody(s), s.log, e, k);
    assert Pieces(Custody(s), k) + [] == Pieces(Custody(s), k);
  }

  lemma RecordingAdds(s: State, e: Entry)
    ensures var c := e.(service := Clipped(e.service)); Custody(Recording(s, e)) == Custody(s) + Added(s.log, c)
  {
  }

  lemma RecordingKept(s: State, e: Entry)
    requires InvBut(s, e.request) && !e.live && Settled(s.requests, e) && (e.output == [] || e.request <= s.nextID)
    ensures var t := Recording(s, e);
            && InvBut(t, e.request)
            && Pieces(Custody(t), e.request) == Pieces(Custody(s), e.request) + if Accepts(s.log, e) then e.output else []
  {
    var c := e.(service := Clipped(e.service));
    var t := Recording(s, e);
    RecordingNoOvertaking(s, e);
    RecordingAdds(s, e);
    AddedThrough(Custody(s), s.log, c);
    AddedPieces(Custody(s), s.log, c, e.request);
    forall k <- t.requests | k != e.request
      ensures Kept(Custody(t), k, t.requests[k])
    {
      RecordingKeepsOther(s, c, k);
    }
  }

  lemma OwnRecordKept(s: State, e: Entry)
    requires Inv(s) && OwnEntry(e)
    ensures Inv(Recording(s, e))
  {
    RecordingKept(s, e);
    var t := Recording(s, e);
    if e.request in s.requests {
      assert Sound(e.request, s.nextID, s.requests[e.request]) && Kept(Custody(s), e.request, s.requests[e.request]);
      assert Pieces(Custody(s), e.request) + [] == Pieces(Custody(s), e.request);
    }
    assert forall k <- t.requests :: Kept(Custody(t), k, t.requests[k]);
  }

  lemma FinishRecordKept(s: State, id: nat)
    requires Inv(s) && s.Valid() && Enabled(s, FinishRecord(id))
    ensures Inv(Next(s, FinishRecord(id)))
  {
    var r := s.requests[id];
    assert Sound(id, s.nextID, r) && Kept(Custody(s), id, r);
    var e := PieceEntry(id, r.phase.piece);
    var u := r.(phase := Ending([]), lossy := r.lossy || !Accepts(s.log, e));
    RecordingKept(s, e);
    var t := Recording(s, e);
    if !u.lossy {
      var p := Pieces(Custody(s), id);
      assert Pieces(Custody(t), id) + [] == p + r.phase.piece;
    }
    WithKept(t, id, u, s.nextID);
    assert With(t, id, u, s.nextID) == Next(s, FinishRecord(id));
  }

  // ---------- steps that only move entries along ----------

  predicate SameCustody(s: State, t: State) {
    s.requests == t.requests && s.nextID == t.nextID && s.accepted == t.accepted && Custody(s) == Custody(t)
  }

  lemma MovedKept(s: State, t: State)
    requires Inv(s) && SameCustody(s, t) && Shape(t) && NoOvertaking(t)
    ensures Inv(t)
  {
  }

  lemma LoopDrainsNoOvertaking(s: State, tick: Tick)
    requires Inv(s) && s.loop.Idle?
    ensures NoOvertaking(LoopDrains(s, tick))
  {
    FitAgain(s.log.pending, 0, DRAIN_BYTES);
    assert LoopDrains(s, tick).loopHeld == s.log.pending[..Fit(s.log.pending, 0, DRAIN_BYTES)];
  }

  lemma LoopDrainsShape(s: State, tick: Tick)
    requires Shape(s) && s.mutex.Nobody? && s.loop.Idle?
    ensures Shape(LoopDrains(s, tick))
    ensures SameCustody(s, LoopDrains(s, tick))
  {
    var n := Fit(s.log.pending, 0, DRAIN_BYTES);
    DrainKeepsValid(s.log, n);
    assert s.log.pending == s.log.pending[..n] + s.log.pending[n..];
  }

  lemma LoopDrainsKept(s: State, tick: Tick)
    requires Inv(s) && s.mutex.Nobody? && s.loop.Idle?
    ensures Inv(LoopDrains(s, tick))
  {
    LoopDrainsShape(s, tick);
    LoopDrainsNoOvertaking(s, tick);
    MovedKept(s, LoopDrains(s, tick));
  }

  lemma SentKept(s: State, loop: Loop, flushed: bool)
    requires Inv(s) && s.loop.Sending? && (loop.Idle? || loop.Stopped?)
    ensures Inv(Sent(s, loop).(flushed := flushed))
  {
    MovedKept(s, Sent(s, loop).(flushed := flushed));
  }

  /** A held batch that comes back fits the next drain: nothing live can overtake it. */
  lemma RequeuedSettled(requests: map<nat, Request>, held: seq<Entry>, pending: seq<Entry>)
    requires Refits(requests, held) && SettledFrom(requests, pending, 0)
    ensures SettledFrom(requests, held + pending, Fit(held + pending, 0, DRAIN_BYTES))
  {
    FitExtend(held, pending, 0, DRAIN_BYTES);
    var all := held + pending;
    forall j | Fit(all, 0, DRAIN_BYTES) <= j < |all|
      ensures Settled(requests, all[j])
    {
      if j >= |held| {
        assert all[j] == pending[j - |held|];
      }
    }
  }

  lemma RequeueNoOvertaking(s: State, loop: Loop)
    requires Shape(s) && NoOvertaking(s) && s.loop.Sending? && (loop.Idle? || loop.Stopped?)
    ensures NoOvertaking(Unsent(s, loop))
  {
    if s.loopHeld == [] {
      assert [] + s.log.pending == s.log.pending;
    } else {
      RequeuedSettled(s.requests, s.loopHeld, s.log.pending);
    }
  }

  lemma UnsentKept(s: State, loop: Loop)
    requires Inv(s) && s.loop.Sending? && (loop.Idle? || loop.Stopped?)
    ensures Inv(Unsent(s, loop))
  {
    RequeueNoOvertaking(s, loop);
    assert Unsent(s, loop).log.Valid();
    MovedKept(s, Unsent(s, loop));
  }

  function ReleaseDrains(s: State, n: nat): State
    requires n <= |s.log.pending|
  {
    s.(log := Rest(s.log, n), releaseHeld := s.releaseHeld + s.log.pending[..n])
  }

  lemma ReleaseDrainsKept(s: State, n: nat, release: Release, mutex: Holder, left: int, visited: set<nat>)
    requires Inv(s) && s.mutex.Nobody? && s.loop.Stopped?
    requires n <= |s.log.pending| && (s.release.Waiting? ==> n == Fit(s.log.pending, 0, DRAIN_BYTES))
    requires !release.Waiting? && mutex == if release.LastDraining? then TheRelease else Nobody
    ensures Inv(ReleaseDrains(s, n).(release := release, mutex := mutex, left := left, visited := visited))
  {
    var t := ReleaseDrains(s, n).(release := release, mutex := mutex, left := left, visited := visited);
    DrainKeepsValid(s.log, n);
    assert s.log.pending == s.log.pending[..n] + s.log.pending[n..];
    MovedKept(s, t);
  }

  // ---------- a tunnel's turn ----------

  /** Nothing pending belongs to a request that is still running and has lost nothing. */
  lemma NothingPending(s: State, id: nat)
    requires NoOvertaking(s) && Quiet(s) && id in s.requests && id > 0
    requires s.requests[id].phase.Running? && !s.requests[id].lossy
    ensures Pieces(s.log.pending, id) == []
  {
    var es := s.log.pending;
    forall j | 0 <= j < |es|
      ensures es[j].output == [] || es[j].request != id
    {
      assert Settled(s.requests, es[j]);
    }
    NoPieces(es, |es|, id);
  }

  /** The live entries of a turn, put behind front and before rest. */
  lemma InsertedPieces(front: seq<Entry>, out: seq<Entry>, rest: seq<Entry>, id: nat)
    ensures Pieces(front + out + rest, id) == Pieces(front, id) + Pieces(out, id) + Pieces(rest, id)
    ensures Pieces(front + rest, id) == Pieces(front, id) + Pieces(rest, id)
  {
    PiecesConcat(front + out, rest, id);
    PiecesConcat(front, out, id);
    PiecesConcat(front, rest, id);
  }

  lemma InsertedThrough(front: seq<Entry>, out: seq<Entry>, rest: seq<Entry>)
    requires |out| == 0 || (|out| == 1 && out[0].live)
    ensures Through(front + out + rest) == Through(front + rest)
  {
    ThroughConcat(front + out, rest);
    ThroughConcat(front, out);
    ThroughConcat(front, rest);
    if |out| == 1 {
      ThroughOne(out[0]);
      assert out == [out[0]];
    }
    assert Through(front) + [] == Through(front);
  }

  function TurnOut(s: State, id: nat): seq<Entry>
    requires id in s.requests && s.left > 0
  {
    var piece := Taken(s.requests[id].tunnel, s.left, false).1;
    if piece == [] then [] else [LiveEntry(id, piece)]
  }

  /** A turn puts its piece between what is held and what is pending. */
  lemma TurnCustody(s: State, id: nat)
    requires Shape(s) && s.Valid() && Enabled(s, Turn(id))
    ensures var front := s.shipped + s.loopHeld + s.releaseHeld;
            && Custody(s) == front + s.log.pending
            && Custody(Next(s, Turn(id))) == front + TurnOut(s, id) + s.log.pending
  {
  }

  lemma TurnPieces(s: State, id: nat, k: nat)
    requires Shape(s) && s.Valid() && Enabled(s, Turn(id))
    ensures var front := s.shipped + s.loopHeld + s.releaseHeld;
            var mine := if k == id then Taken(s.requests[id].tunnel, s.left, false).1 else [];
            && Pieces(Custody(s), k) == Pieces(front, k) + Pieces(s.log.pending, k)
            && Pieces(Custody(Next(s, Turn(id))), k) == Pieces(front, k) + mine + Pieces(s.log.pending, k)
  {
    TurnCustody(s, id);
    InsertedPieces(s.shipped + s.loopHeld + s.releaseHeld, TurnOut(s, id), s.log.pending, k);
    var piece := Taken(s.requests[id].tunnel, s.left, false).1;
    if piece != [] {
      PiecesOne(LiveEntry(id, piece), k);
    }
  }

  lemma TurnKeepsOthers(s: State, id: nat, k: nat)
    requires Inv(s) && s.Valid() && Enabled(s, Turn(id)) && k in s.requests && k != id
    ensures Kept(Custody(Next(s, Turn(id))), k, s.requests[k])
  {
    assert Kept(Custody(s), k, s.requests[k]);
    TurnPieces(s, id, k);
    var p := Pieces(s.shipped + s.loopHeld + s.releaseHeld, k);
    assert p + [] == p;
  }

  lemma Regroup(p: bytes, piece: bytes, rest: bytes)
    ensures p + piece + [] + [] + rest == p + [] + [] + (piece + rest)
  {
  }

  lemma TurnKeepsOwn(s: State, id: nat)
    requires Inv(s) && s.Valid() && Enabled(s, Turn(id))
    ensures var t := Next(s, Turn(id)); Kept(Custody(t), id, t.requests[id])
  {
    var r := s.requests[id];
    assert Sound(id, s.nextID, r) && Kept(Custody(s), id, r);
    var u := Next(s, Turn(id)).requests[id];
    if !u.lossy {
      var piece := Taken(r.tunnel, s.left, false).1;
      TakenSplits(r, u.tunnel, s.left, false);
      NothingPending(s, id);
      TurnPieces(s, id, id);
      Regroup(Pieces(s.shipped + s.loopHeld + s.releaseHeld, id), piece, u.tunnel.buf);
    }
  }

  lemma TurnShape(s: State, id: nat)
    requires Inv(s) && s.Valid() && Enabled(s, Turn(id))
    ensures Shape(Next(s, Turn(id)))
  {
  }

  /** A piece longer than the budget left is a binary marker: its request has lost output. */
  lemma LongPieceIsLossy(t: Tunnel, max: nat)
    requires |Taken(t, max, false).1| > max
    ensures Taken(t, max, false).0.binary
  {
  }

  lemma TurnNoOvertaking(s: State, id: nat)
    requires Inv(s) && s.Valid() && Enabled(s, Turn(id))
    ensures NoOvertaking(Next(s, Turn(id)))
  {
    var r := s.requests[id];
    assert Sound(id, s.nextID, r);
    var (u, piece) := Taken(r.tunnel, s.left, false);
    var moved := Moved(r, u);
    var mid := With(s, id, moved, s.nextID);
    WithNoOvertaking(s, id, moved, s.nextID);
    if s.mutex.TheLoop? && piece != [] {
      var e := LiveEntry(id, piece);
      FitSnoc(s.loopHeld, e, 0, DRAIN_BYTES);
      OutputBytesSnoc(s.loopHeld, e);
      if |piece| > s.left {
        LongPieceIsLossy(r.tunnel, s.left);
        assert Settled(mid.requests, e);
      }
    } else {
      assert s.loopHeld + [] == s.loopHeld;
    }
  }

  lemma TurnKept(s: State, id: nat)
    requires Inv(s) && s.Valid() && Enabled(s, Turn(id))
    ensures Inv(Next(s, Turn(id)))
  {
    var t := Next(s, Turn(id));
    TurnShape(s, id);
    TurnNoOvertaking(s, id);
    TurnCustody(s, id);
    assert Sound(id, s.nextID, s.requests[id]);
    var front, out := s.shipped + s.loopHeld + s.releaseHeld, TurnOut(s, id);
    InsertedThrough(front, out, s.log.pending);
    KnownInserted(s.nextID, front, out, s.log.pending);
    forall k <- t.requests
      ensures Kept(Custody(t), k, t.requests[k])
    {
      if k == id {
        TurnKeepsOwn(s, id);
      } else {
        TurnKeepsOthers(s, id, k);
      }
    }
  }

  lemma KnownInserted(nextID: nat, front: seq<Entry>, out: seq<Entry>, rest: seq<Entry>)
    requires Known(nextID, front + rest) && forall e <- out :: e.request <= nextID
    ensures Known(nextID, front + out + rest)
  {
    var all, old_ := front + out + rest, front + rest;
    forall j | 0 <= j < |all|
      ensures all[j].output == [] || all[j].request <= nextID
    {
      if j < |front| {
        assert all[j] == old_[j];
      } else if j >= |front + out| {
        assert all[j] == old_[j - |out|];
      }
    }
  }

  // ---------- every step, every run ----------

  lemma SendsKept(s: State, a: Action)
    requires Inv(s) && s.Valid() && Enabled(s, a) && (a.FlushSend? || a.BeatSend?)
    ensures Inv(Next(s, a))
  {
    match a
    case FlushSend(session, ok) =>
      if LogSent(session, ok) {
        SentKept(s, Idle, true);
      } else {
        UnsentKept(s, Idle);
      }
    case BeatSend(session, ok, alive) =>
      var loop := Next(s, a).loop;
      if Heartbeat(session, ok, alive, s.loopHeld).unsent == [] {
        SentKept(s, loop, s.flushed);
      } else {
        UnsentKept(s, loop);
      }
  }

  lemma TicksKept(s: State, a: Action)
    requires Inv(s) && s.Valid() && Enabled(s, a) && (a.FlushTick? || a.BeatTick?)
    ensures Inv(Next(s, a))
  {
    var t := Next(s, a);
    if a.FlushTick? && a.up {
      LoopDrainsKept(s, Flush);
    } else if a.BeatTick? && a.idle.Some? {
      OwnRecordKept(s, a.idle.value);
      MovedKept(Recording(s, a.idle.value), t);
    } else if a.BeatTick? && !s.flushed && !a.up {
      LoopDrainsKept(s, HeartBeat);
    } else {
      MovedKept(s, t);
    }
  }

  lemma GatherKept(s: State)
    requires Inv(s) && s.closer && s.Valid() && Enabled(s, GatherRound)
    ensures Inv(Next(s, GatherRound))
  {
    var n := Fit(s.log.pending, 0, DRAIN_BYTES);
    ReleaseDrainsKept(s, n, if n == 0 then Gathered else Gathering, Nobody, s.left, s.visited);
  }

  lemma LastDrainKept(s: State, budget: nat)
    requires Inv(s) && s.closer && s.Valid() && Enabled(s, LastDrain(budget))
    ensures Inv(Next(s, LastDrain(budget)))
  {
    var n := Fit(s.log.pending, 0, budget);
    ReleaseDrainsKept(s, n, LastDraining, TheRelease, budget - OutputBytes(s.log.pending[..n]), {});
  }

  /** One step of anything keeps the whole invariant. */
  lemma StepKept(s: State, a: Action)
    requires Inv(s) && s.closer && s.Valid() && Enabled(s, a)
    ensures Inv(Next(s, a))
  {
    match a
    case Register(service) => RegisterKept(s, service);
    case Observe(id, chunk) => ObserveKept(s, id, chunk);
    case Record(e) => OwnRecordKept(s, e);
    case BeginFinish(id) => BeginFinishKept(s, id);
    case FinishTake(id) => FinishTakeKept(s, id);
    case FinishRecord(id) => FinishRecordKept(s, id);
    case FlushTick(_) => TicksKept(s, a);
    case BeatTick(_, _) => TicksKept(s, a);
    case Turn(id) => TurnKept(s, id);
    case FlushSend(_, _) => SendsKept(s, a);
    case BeatSend(_, _, _) => SendsKept(s, a);
    case GatherRound => GatherKept(s);
    case LastDrain(budget) => LastDrainKept(s, budget);
    case EndDrain => MovedKept(s, Next(s, a));
    case Stop => MovedKept(s, Next(s, a));
  }

  lemma AttemptKept(s: State, a: Action)
    requires Inv(s) && s.closer && s.Valid()
    ensures Inv(Attempt(s, a)) && Attempt(s, a).closer
  {
    if Enabled(s, a) {
      StepKept(s, a);
    }
  }

  lemma {:induction false} RunKept(s: State, actions: seq<Action>, n: nat)
    requires Inv(s) && s.closer && s.Valid() && n <= |actions|
    ensures Inv(RunUpTo(s, actions, n)) && RunUpTo(s, actions, n).closer
    decreases n
  {
    if n == 0 {
    } else {
      RunKept(s, actions, n - 1);
      AttemptKept(RunUpTo(s, actions, n - 1), actions[n - 1]);
    }
  }

  lemma StartInv(closer: bool)
    ensures Inv(Start(closer))
  {
  }

  // ---------- what has been decoded is the whole reply's output ----------

  /** The reply decoded in one piece: where its decoder stands, and its output. */
  function WholeReply(r: Request): (Decoder, bytes) {
    Feed(Fresh(SHELL <= r.service, SHELL_V2 <= r.service), r.reply)
  }

  predicate Decodes(r: Request) {
    (r.tunnel.decoder, r.decoded) == WholeReply(r)
  }

  lemma ObserveDecodes(r: Request, chunk: bytes)
    requires r.tunnel.Valid() && Decodes(r)
    ensures Decodes(AfterObserve(r, chunk))
  {
    FeedConcat(Fresh(SHELL <= r.service, SHELL_V2 <= r.service), r.reply, chunk);
  }

  predicate SameReply(r: Request, u: Request) {
    u.service == r.service && u.reply == r.reply && u.decoded == r.decoded && u.tunnel.decoder == r.tunnel.decoder
  }

  lemma TakingLeavesReply(s: State, a: Action, id: nat)
    requires s.Valid() && Enabled(s, a) && (a.BeginFinish? || a.FinishTake? || a.FinishRecord? || a.Turn?)
    ensures id in Next(s, a).requests <==> id in s.requests
    ensures id in s.requests ==> SameReply(s.requests[id], Next(s, a).requests[id])
  {
  }

  /** Nothing but its own Observe touches a request's reply. */
  lemma OthersLeaveReply(s: State, a: Action, id: nat)
    requires s.Valid() && Enabled(s, a) && !a.Register? && !a.Observe?
    ensures id in Next(s, a).requests <==> id in s.requests
    ensures id in s.requests ==> SameReply(s.requests[id], Next(s, a).requests[id])
  {
    if OnRequest(a) {
      TakingLeavesReply(s, a, id);
    }
  }

  lemma {:induction false} RunDecodes(closer: bool, actions: seq<Action>, n: nat, id: nat)
    requires n <= |actions| && id in RunUpTo(Start(closer), actions, n).requests
    ensures Decodes(RunUpTo(Start(closer), actions, n).requests[id])
    decreases n
  {
    if n == 0 {
    } else {
      var s, a := RunUpTo(Start(closer), actions, n - 1), actions[n - 1];
      if id in s.requests {
        RunDecodes(closer, actions, n - 1, id);
      }
      if Enabled(s, a) && a.Observe? {
        if a.id == id {
          ObserveDecodes(s.requests[id], a.chunk);
        }
      } else if Enabled(s, a) && !a.Register? {
        OthersLeaveReply(s, a, id);
      }
    }
  }

  // ---------- the main results ----------

  /**
   For any number of tunnels and any run, the output of every request that lost
   nothing, decoded from its whole reply, is in shipping order what is shipped,
   held and pending of it, then what finish has in hand, then what is still
   buffered. Module LogLosses says which requests those are.
   */
  lemma OutputAccountedFor(actions: seq<Action>, id: nat)
    requires id in Run(Start(true), actions).requests
    ensures var s := Run(Start(true), actions);
            var r := s.requests[id];
            r.lossy || Pieces(s.shipped + s.loopHeld + s.releaseHeld + s.log.pending, id) + r.InHand() + r.tunnel.buf == WholeReply(r).1
  {
    StartInv(true);
    RunDecodes(true, actions, |actions|, id);
    RunKept(Start(true), actions, |actions|);
    var s := Run(Start(true), actions);
    assert Kept(Custody(s), id, s.requests[id]) && Decodes(s.requests[id]);
  }

  /** What Record accepted has been shipped, is held and is pending, in the order it was accepted; and pendingBytes counts. */
  lemma RecordedInOrder(actions: seq<Action>)
    ensures var s := Run(Start(true), actions);
            && Through(s.shipped + s.loopHeld + s.releaseHeld + s.log.pending) == s.accepted
            && s.log.pendingBytes == OutputBytes(s.log.pending)
            && (s.release.Waiting? || s.loopHeld == [])
  {
    StartInv(true);
    RunKept(Start(true), actions, |actions|);
  }

  /** Two entries of no output, one after the other. */
  predicate TwoEntries(e1: Entry, e2: Entry) {
    && OwnEntry(e1) && e1.service == [] && e1.output == []
    && OwnEntry(e2) && e2.service == [] && e2.output == []
    && e1 != e2
  }

  /** A run of a release that does not wait for the loop, and meets it between a drain and a failed send. */
  predicate Racing(actions: seq<Action>, e1: Entry, e2: Entry) {
    && |actions| == 6
    && actions[0] == Record(e1) && actions[1] == FlushTick(true) && actions[2] == EndDrain
    && actions[3] == Record(e2) && actions[4] == GatherRound && actions[5] == FlushSend(Up, false)
  }

  lemma OneByOne(e1: Entry, e2: Entry)
    ensures [] + [e2] == [e2] && [e1] + [e2] == [e1, e2]
  {
  }

  lemma RecordOne(s: State, e: Entry)
    requires s.Valid() && s.mutex.Nobody? && OwnEntry(e) && e.service == [] && Accepts(s.log, e)
    ensures Attempt(s, Record(e)).log.pending == s.log.pending + [e]
    ensures Attempt(s, Record(e)) == s.(log := Attempt(s, Record(e)).log, accepted := s.accepted + [e])
  {
  }

  /** A drain of one small entry takes it. */
  lemma DrainOne(l: Log, e: Entry)
    requires l.pending == [e] && e.output == [] && !l.truncated
    ensures Fit(l.pending, 0, DRAIN_BYTES) == 1 && l.pending[..1] == [e] && OutputBytes([e]) == 0
    ensures Rest(l, 1) == Log([], l.pendingBytes, false)
  {
    assert BytesUpTo([e], 0) == 0;
  }

  /** The loop drains what little is pending. */
  lemma LoopDrainsIt(s: State, e: Entry)
    requires s.Valid() && s.mutex.Nobody? && s.loop.Idle? && s.loopHeld == []
    requires s.log == Log([e], 0, false) && e.output == []
    ensures var t := Attempt(s, FlushTick(true));
            t == s.(log := Log([], 0, false), loop := Draining(Flush), mutex := TheLoop, loopHeld := [e], left := t.left, visited := {})
  {
    DrainOne(s.log, e);
    OneByOne(e, e);
  }

  /** The loop drains e1. */
  lemma LoopDrainsFirst(s: State, e: Entry)
    requires s.Valid() && s == Start(s.closer) && OwnEntry(e) && e.service == [] && e.output == []
    ensures var t := Attempt(Attempt(s, Record(e)), FlushTick(true));
            t == s.(loop := Draining(Flush), mutex := TheLoop, loopHeld := [e], accepted := [e], left := t.left)
  {
    RecordOne(s, e);
    OneByOne(e, e);
    LoopDrainsIt(Attempt(s, Record(e)), e);
  }

  lemma NobodyOpen(s: State)
    requires s.Valid() && s.loop.Draining? && s.mutex.TheLoop? && |s.loopHeld| == 1 && s.requests == map[]
    ensures Attempt(s, EndDrain) == s.(mutex := Nobody, loop := Sending(s.loop.tick))
  {
  }

  /** The release takes e2 meanwhile. */
  lemma ReleaseTakesSecond(s: State, e: Entry) returns (t: State)
    requires s.Valid() && s.mutex.Nobody? && s.log == Log([], 0, false) && s.release.Waiting? && !s.closer
    requires OwnEntry(e) && e.service == [] && e.output == []
    ensures t == Attempt(Attempt(s, Record(e)), GatherRound)
    ensures t == s.(release := Gathering, releaseHeld := s.releaseHeld + [e], accepted := s.accepted + [e])
  {
    RecordOne(s, e);
    OneByOne(e, e);
    t := Attempt(s, Record(e));
    DrainOne(t.log, e);
    t := Attempt(t, GatherRound);
  }

  /** Only then does the failed send put e1 back, behind e2. */
  lemma OutOfOrder(s: State, e1: Entry, e2: Entry)
    requires s.Valid() && s.mutex.Nobody? && s.loop == Sending(Flush) && TwoEntries(e1, e2)
    requires s.shipped == [] && s.loopHeld == [e1] && s.releaseHeld == [e2] && s.log.pending == [] && s.accepted == [e1, e2]
    ensures !InOrder(Attempt(s, FlushSend(Up, false)))
  {
    var t := Attempt(s, FlushSend(Up, false));
    assert t == Unsent(s, Idle);
    assert Custody(t) == [e2] + [e1];
    ThroughConcat([e2], [e1]);
    ThroughOne(e1);
    ThroughOne(e2);
    assert ([e2] + [e1])[0] != [e1, e2][0];
  }

  /** Two actions further on. */
  lemma TwoSteps(s: State, actions: seq<Action>, n: nat)
    requires s.Valid() && n + 2 <= |actions|
    ensures RunUpTo(s, actions, n + 2) == Attempt(Attempt(RunUpTo(s, actions, n), actions[n]), actions[n + 1])
  {
  }

  lemma RacingDrainsFirst(s: State, actions: seq<Action>, e1: Entry, e2: Entry)
    requires s.Valid() && s == Start(s.closer) && TwoEntries(e1, e2) && Racing(actions, e1, e2)
    ensures var t := RunUpTo(s, actions, 2);
            t == s.(loop := Draining(Flush), mutex := TheLoop, loopHeld := [e1], accepted := [e1], left := t.left)
  {
    assert RunUpTo(s, actions, 0) == s;
    TwoSteps(s, actions, 0);
    LoopDrainsFirst(s, e1);
  }

  lemma RacingHoldsFirst(s: State, actions: seq<Action>, e1: Entry, e2: Entry)
    requires s.Valid() && s == Start(s.closer) && TwoEntries(e1, e2) && Racing(actions, e1, e2)
    ensures var t := RunUpTo(s, actions, 3); t == s.(loop := Sending(Flush), loopHeld := [e1], accepted := [e1], left := t.left)
  {
    RacingDrainsFirst(s, actions, e1, e2);
    NobodyOpen(RunUpTo(s, actions, 2));
  }

  lemma RacingTakesSecond(s: State, actions: seq<Action>, e1: Entry, e2: Entry)
    requires s.Valid() && s == Start(s.closer) && !s.closer && TwoEntries(e1, e2) && Racing(actions, e1, e2)
    ensures var t := RunUpTo(s, actions, 5);
            t == s.(loop := Sending(Flush), loopHeld := [e1], accepted := [e1, e2], left := t.left,
                    release := Gathering, releaseHeld := [e2])
  {
    RacingHoldsFirst(s, actions, e1, e2);
    TwoSteps(s, actions, 3);
    var t := ReleaseTakesSecond(RunUpTo(s, actions, 3), e2);
    OneByOne(e1, e2);
  }

  lemma ReleaseRacingTheLoop(closer: bool, actions: seq<Action>, e1: Entry, e2: Entry)
    requires !closer && TwoEntries(e1, e2) && Racing(actions, e1, e2)
    ensures !InOrder(Run(Start(closer), actions))
  {
    RacingTakesSecond(Start(closer), actions, e1, e2);
    OutOfOrder(RunUpTo(Start(closer), actions, 5), e1, e2);
  }

  /** Recorded entries stay in order on every run exactly when the release waits for the keepalive loop. */
  lemma InOrderIffReleaseWaits(closer: bool)
    ensures (forall actions :: InOrder(Run(Start(closer), actions))) <==> closer
  {
    if closer {
      forall actions
        ensures InOrder(Run(Start(closer), actions))
      {
        RecordedInOrder(actions);
      }
    } else {
      var e1, e2 := Entry(1, [], [], true, false), Entry(2, [], [], true, false);
      var actions := [Record(e1), FlushTick(true), EndDrain, Record(e2), GatherRound, FlushSend(Up, false)];
      ReleaseRacingTheLoop(closer, actions, e1, e2);
    }
  }
}
