/**
 Every run of one lock's log: tunnels being observed and finished, the
 keepalive loop draining, sending and requeueing over a session that may be up,
 reconnecting or absent, and the release collecting what is left (lock_log.go,
 runKeepalive, Release, LockHeartbeat, SendLockLog).

 One action is what happens under one hold of a mutex. drain holds the log's
 mutex throughout, but observers keep receiving bytes between two tunnels' turns.
 */
module LogShipping {
  import opened Bytes
  import opened ShellDecoder
  import opened LogValues

  // ---------- what is sent where ----------

  /** Where periodic traffic can go: the stream, nowhere, or unary calls. */
  datatype Session = Up | Reconnecting | Fallback

  /** SendLockLog: whether the entries went out. */
  predicate LogSent(session: Session, ok: bool) {
    session.Up? && ok
  }

  datatype Beat = Beat(alive: bool, unsent: seq<Entry>, failed: bool)

  /**
   LockHeartbeat: one send, which carries the log only when it is unary. All of
   the log comes back or none of it, and none only from the unary call that took it.
   */
  function Heartbeat(session: Session, ok: bool, alive: bool, log: seq<Entry>): (b: Beat)
    ensures b.unsent == [] || b.unsent == log
    ensures log != [] ==> (b.unsent == [] <==> session.Fallback? && ok)
    ensures b.failed ==> b.unsent == log && !b.alive
  {
    match session
    case Up => Beat(ok, log, !ok)
    case Reconnecting => Beat(false, log, true)
    case Fallback => if ok then Beat(alive, [], false) else Beat(false, log, true)
  }

  // ---------- the state ----------

  datatype Phase =
    | Running
    | Ending(piece: bytes)  // finish: unregistered; piece is taken and not recorded yet
    | Ended

  /** One request: its tunnel, the device's reply so far, and everything decoded from it as it came. */
  datatype Request = Request(tunnel: Tunnel, phase: Phase, service: bytes, reply: bytes, decoded: bytes, lossy: bool)
  {
    function InHand(): bytes {
      if phase.Ending? then phase.piece else []
    }
  }

  datatype Tick = Flush | HeartBeat

  datatype Loop = Idle | Draining(tick: Tick) | Sending(tick: Tick) | Stopped

  /** The release, or the shutdown: gathering a drain's worth at a time, then the last drain, then the call. */
  datatype Release = Waiting | Gathering | Gathered | LastDraining | Handed

  datatype Holder = Nobody | TheLoop | TheRelease

  datatype State = State(
    log: Log,
    nextID: nat,
    requests: map<nat, Request>,
    loop: Loop,
    release: Release,
    mutex: Holder,         // who is inside drain
    left: int,             // that drain's budget
    visited: set<nat>,     // the tunnels that have had their turn in it
    loopHeld: seq<Entry>,  // drained by the loop, not yet sent
    releaseHeld: seq<Entry>,
    shipped: seq<Entry>,   // in sends that succeeded
    flushed: bool,         // flushedSinceBeat
    accepted: seq<Entry>,  // everything Record has added, ever
    closer: bool)          // the release found the port still in the table, so it waits for the loop
  {
    predicate Valid() {
      forall id <- requests :: requests[id].tunnel.Valid()
    }
  }

  function Start(closer: bool): State {
    State(Log([], 0, false), 0, map[], Idle, Waiting, Nobody, 0, {}, [], [], [], false, [], closer)
  }

  /** Everything that has come into the log, in shipping order. */
  function Custody(s: State): seq<Entry> {
    s.shipped + s.loopHeld + s.releaseHeld + s.log.pending
  }

  // ---------- the actions ----------

  datatype Action =
    | Register(service: bytes)
    | Observe(id: nat, chunk: bytes)
    | Record(e: Entry)          // an open or close entry, or a note of the proxy's own
    | BeginFinish(id: nat)
    | FinishTake(id: nat)
    | FinishRecord(id: nat)
    | FlushTick(up: bool)
    | BeatTick(idle: Option<Entry>, up: bool)
    | Turn(id: nat)
    | EndDrain
    | FlushSend(session: Session, ok: bool)
    | BeatSend(session: Session, ok: bool, alive: bool)
    | Stop
    | GatherRound
    | LastDrain(budget: nat)

  predicate OwnEntry(e: Entry) {
    !e.live && (e.output == [] || e.request == 0)
  }

  predicate Enabled(s: State, a: Action) {
    match a
    case Register(_) => s.mutex.Nobody?
    case Observe(id, _) => id in s.requests
    case Record(e) => s.mutex.Nobody? && OwnEntry(e)
    case BeginFinish(id) => s.mutex.Nobody? && id in s.requests && s.requests[id].phase.Running?
    case FinishTake(id) => id in s.requests && s.requests[id].phase == Ending([])
    case FinishRecord(id) =>
      s.mutex.Nobody? && id in s.requests && s.requests[id].phase.Ending? && s.requests[id].phase.piece != []
    case FlushTick(_) => s.mutex.Nobody? && s.loop.Idle?
    case BeatTick(idle, _) => s.mutex.Nobody? && s.loop.Idle? && (idle.Some? ==> OwnEntry(idle.value))
    case Turn(id) =>
      !s.mutex.Nobody? && s.left > 0 && id in s.requests && s.requests[id].phase.Running? && id !in s.visited
    case EndDrain =>
      (s.mutex.TheRelease? || s.loop.Draining?) && (s.left <= 0 || forall id <- s.requests :: s.requests[id].phase.Running? ==> id in s.visited)
    case FlushSend(_, _) => s.mutex.Nobody? && s.loop == Sending(Flush)
    case BeatSend(_, _, _) => s.mutex.Nobody? && s.loop == Sending(HeartBeat)
    case Stop => s.loop.Idle?
    case GatherRound =>
      s.mutex.Nobody? && (s.release.Waiting? || s.release.Gathering?) && (s.closer ==> s.loop.Stopped?)
    case LastDrain(_) => s.mutex.Nobody? && s.release.Gathered?
  }

  /** A request with its tunnel now t; lost says whether bytes were lost on the way. */
  function Moved(r: Request, t: Tunnel): Request {
    r.(tunnel := t, lossy := r.lossy || t.binary || t.dropped > 0)
  }

  /** A request that has observed chunk of its reply. */
  function AfterObserve(r: Request, chunk: bytes): Request
    requires r.tunnel.Valid()
  {
    Moved(r, Observed(r.tunnel, chunk)).(reply := r.reply + chunk, decoded := r.decoded + Feed(r.tunnel.decoder, chunk).1)
  }

  /** A request after a take of finish's loop, which ends with the first that gives nothing. */
  function AfterFinishTake(r: Request): Request {
    var (t, piece) := Taken(r.tunnel, MAX_PIECE, true);
    Moved(r, t).(phase := if piece == [] then Ended else Ending(piece))
  }

  /** Record, with what it really added noted. */
  function Recording(s: State, entry: Entry): (r: State)
    ensures r.requests == s.requests
  {
    var e := entry.(service := Clipped(entry.service));
    s.(log := Recorded(s.log, e), accepted := s.accepted + Added(s.log, e))
  }

  /** The log without its first n entries, as drain leaves it. */
  function Rest(l: Log, n: nat): Log
    requires n <= |l.pending|
  {
    Log(l.pending[n..], l.pendingBytes - OutputBytes(l.pending[..n]), l.truncated && n < |l.pending|)
  }

  /** drain begins: pending entries up to budget. */
  function LoopDrains(s: State, tick: Tick): (r: State)
    ensures r.requests == s.requests
  {
    var n := Fit(s.log.pending, 0, DRAIN_BYTES);
    s.(log := Rest(s.log, n), loopHeld := s.loopHeld + s.log.pending[..n], loop := Draining(tick),
       mutex := TheLoop, left := DRAIN_BYTES - OutputBytes(s.log.pending[..n]), visited := {})
  }

  /** What the loop holds has gone out. */
  function Sent(s: State, loop: Loop): (r: State)
    ensures r.requests == s.requests
  {
    s.(shipped := s.shipped + s.loopHeld, loopHeld := [], loop := loop)
  }

  /** What the loop holds goes back to the front of the log. */
  function Unsent(s: State, loop: Loop): (r: State)
    ensures r.requests == s.requests
  {
    s.(log := Requeued(s.log, s.loopHeld), loopHeld := [], loop := loop)
  }

  function AfterTurn(s: State, id: nat): State
    requires id in s.requests && s.left > 0
  {
    var (t, piece) := Taken(s.requests[id].tunnel, s.left, false);
    var out := if piece == [] then [] else [LiveEntry(id, piece)];
    s.(requests := s.requests[id := Moved(s.requests[id], t)], visited := s.visited + {id}, left := s.left - |piece|,
       loopHeld := if s.mutex.TheLoop? then s.loopHeld + out else s.loopHeld,
       releaseHeld := if s.mutex.TheLoop? then s.releaseHeld else s.releaseHeld + out)
  }

  /** The actions that change a request or its tunnel. */
  predicate OnRequest(a: Action) {
    a.Register? || a.Observe? || a.BeginFinish? || a.FinishTake? || a.FinishRecord? || a.Turn?
  }

  function Next(s: State, a: Action): (r: State)
    requires Enabled(s, a) && s.Valid()
    ensures r.Valid() && (!OnRequest(a) ==> r.requests == s.requests)
  {
    match a
    case Register(service) =>
      var id := s.nextID + 1;
      s.(nextID := id, requests := s.requests[id := Request(Opened(id, service), Running, service, [], [], false)])
    case Observe(id, chunk) => s.(requests := s.requests[id := AfterObserve(s.requests[id], chunk)])
    case Record(e) => Recording(s, e)
    case BeginFinish(id) => s.(requests := s.requests[id := s.requests[id].(phase := Ending([]))])
    case FinishTake(id) => s.(requests := s.requests[id := AfterFinishTake(s.requests[id])])
    case FinishRecord(id) =>
      var r := s.requests[id];
      var e := PieceEntry(id, r.phase.piece);
      var lossy := r.lossy || !Accepts(s.log, e);
      Recording(s, e).(requests := s.requests[id := r.(phase := Ending([]), lossy := lossy)])
    case FlushTick(up) => if up then LoopDrains(s, Flush) else s
    case BeatTick(idle, up) =>
      if idle.Some? then Recording(s, idle.value).(loop := Stopped)
      else if s.flushed then s.(flushed := false)
      else if up then s.(loop := Sending(HeartBeat))
      else LoopDrains(s, HeartBeat)
    case Turn(id) => AfterTurn(s, id)
    case EndDrain =>
      if s.mutex.TheRelease? then s.(mutex := Nobody, release := Handed)
      else if s.loop.tick.Flush? && s.loopHeld == [] then s.(mutex := Nobody, loop := Idle)
      else s.(mutex := Nobody, loop := Sending(s.loop.tick))
    case FlushSend(session, ok) =>
      if LogSent(session, ok) then Sent(s, Idle).(flushed := true) else Unsent(s, Idle)
    case BeatSend(session, ok, alive) =>
      var b := Heartbeat(session, ok, alive, s.loopHeld);
      var loop := if !b.failed && !b.alive then Stopped else Idle;
      if b.unsent == [] then Sent(s, loop) else Unsent(s, loop)
    case Stop => s.(loop := Stopped)
    case GatherRound =>
      var n := Fit(s.log.pending, 0, DRAIN_BYTES);
      s.(log := Rest(s.log, n), releaseHeld := s.releaseHeld + s.log.pending[..n],
         release := if n == 0 then Gathered else Gathering)
    case LastDrain(budget) =>
      var n := Fit(s.log.pending, 0, budget);
      s.(log := Rest(s.log, n), releaseHeld := s.releaseHeld + s.log.pending[..n], release := LastDraining,
         mutex := TheRelease, left := budget - OutputBytes(s.log.pending[..n]), visited := {})
  }

  // ---------- runs ----------

  /** One action, or nothing when it is not possible now. */
  function Attempt(s: State, a: Action): (r: State)
    requires s.Valid()
    ensures r.Valid()
  {
    if Enabled(s, a) then Next(s, a) else s
  }

  /** After the first n actions. */
  function RunUpTo(s: State, actions: seq<Action>, n: nat): (r: State)
    requires s.Valid() && n <= |actions|
    ensures r.Valid()
  {
    if n == 0 then s else Attempt(RunUpTo(s, actions, n - 1), actions[n - 1])
  }

  function Run(s: State, actions: seq<Action>): (r: State)
    requires s.Valid()
    ensures r.Valid()
  {
    RunUpTo(s, actions, |actions|)
  }

  // ---------- a drain nobody interrupts is LockLog's drain ----------

  /** The running requests of order hold the tunnels ts, and none has had its turn. */
  predicate Await(s: State, order: seq<nat>, ts: seq<Tunnel>, from: nat) {
    && |ts| == |order|
    && forall i :: from <= i < |order| ==>
         && order[i] in s.requests && s.requests[order[i]].phase.Running?
         && s.requests[order[i]].tunnel == ts[i] && ts[i].id == order[i]
         && order[i] !in s.visited
  }

  predicate Distinct(order: seq<nat>) {
    forall i, j :: 0 <= i < j < |order| ==> order[i] != order[j]
  }

  /** The requests of order have become the tunnels after. */
  predicate Became(s: State, order: seq<nat>, after: seq<Tunnel>) {
    && |after| <= |order|
    && forall i :: 0 <= i < |after| ==> order[i] in s.requests && s.requests[order[i]].tunnel == after[i]
  }

  /** From s to t, the first tunnels of order have had their turns, which gave r. */
  predicate TurnsTaken(s: State, t: State, order: seq<nat>, ts: seq<Tunnel>, r: LiveResult) {
    && t.log == s.log && t.mutex == s.mutex && t.left == r.left
    && Await(t, order, ts, |r.after|) && Became(t, order, r.after)
    && t.loopHeld == s.loopHeld + r.out
  }

  /** The one whose turn it was has become what was left of it. */
  lemma TurnBecomes(t: State, order: seq<nat>, ts: seq<Tunnel>, r: LiveResult)
    requires t.Valid() && Distinct(order) && |r.after| < |order| && t.left == r.left
    requires !t.mutex.Nobody? && Await(t, order, ts, |r.after|) && Became(t, order, r.after)
    ensures var u := Attempt(t, Turn(order[|r.after|]));
            var v := LiveStep(r, ts[|r.after|]);
            Became(u, order, v.after) && u.left == v.left
  {
  }

  /** The others still wait. */
  lemma TurnMoves(t: State, order: seq<nat>, ts: seq<Tunnel>, r: LiveResult)
    requires t.Valid() && Distinct(order) && |r.after| < |order| && t.left == r.left
    requires !t.mutex.Nobody? && Await(t, order, ts, |r.after|) && Became(t, order, r.after)
    ensures var u := Attempt(t, Turn(order[|r.after|]));
            var v := LiveStep(r, ts[|r.after|]);
            Await(u, order, ts, |v.after|) && Became(u, order, v.after) && u.left == v.left
  {
    TurnBecomes(t, order, ts, r);
  }

  lemma OneTurn(s: State, t: State, order: seq<nat>, ts: seq<Tunnel>, r: LiveResult)
    requires t.Valid() && t.mutex.TheLoop? && Distinct(order) && |r.after| < |order|
    requires TurnsTaken(s, t, order, ts, r)
    ensures TurnsTaken(s, Attempt(t, Turn(order[|r.after|])), order, ts, LiveStep(r, ts[|r.after|]))
  {
    var n := |r.after|;
    TurnMoves(t, order, ts, r);
    var piece := if t.left > 0 then Taken(ts[n], t.left, false).1 else [];
    if piece != [] {
      assert t.loopHeld + [LiveEntry(order[n], piece)] == s.loopHeld + (r.out + [LiveEntry(order[n], piece)]);
    } else {
      assert t.loopHeld + [] == t.loopHeld;
    }
  }

  /** A drain whose turns nobody comes between takes what LogValues.Live takes, as LockLog.drainLive does. */
  lemma {:induction false} TurnsAreLive(s: State, order: seq<nat>, ts: seq<Tunnel>, actions: seq<Action>, n: nat)
    requires s.Valid() && s.mutex.TheLoop? && Distinct(order) && n <= |order| == |actions| && Await(s, order, ts, 0)
    requires forall i :: 0 <= i < |order| ==> actions[i] == Turn(order[i])
    ensures TurnsTaken(s, RunUpTo(s, actions, n), order, ts, LiveUpTo(ts, n, s.left))
    decreases n
  {
    if n > 0 {
      TurnsAreLive(s, order, ts, actions, n - 1);
      OneTurn(s, RunUpTo(s, actions, n - 1), order, ts, LiveUpTo(ts, n - 1, s.left));
    } else {
      assert s.loopHeld + [] == s.loopHeld;
    }
  }

  // ---------- what is in custody ----------

  /** The output of request id in the first n entries. */
  function PiecesUpTo(es: seq<Entry>, n: nat, id: nat): bytes
    requires n <= |es|
  {
    if n == 0 then []
    else PiecesUpTo(es, n - 1, id) + if es[n - 1].request == id then es[n - 1].output else []
  }

  function Pieces(es: seq<Entry>, id: nat): bytes {
    PiecesUpTo(es, |es|, id)
  }

  lemma {:induction false} PiecesUpToConcat(a: seq<Entry>, b: seq<Entry>, n: nat, id: nat)
    requires n <= |b|
    ensures PiecesUpTo(a + b, |a| + n, id) == Pieces(a, id) + PiecesUpTo(b, n, id)
  {
    if n == 0 {
      PiecesUpToPrefix(a, b, |a|, id);
      assert Pieces(a, id) + [] == Pieces(a, id);
    } else {
      PiecesUpToConcat(a, b, n - 1, id);
      var last := if b[n - 1].request == id then b[n - 1].output else [];
      assert Pieces(a, id) + PiecesUpTo(b, n - 1, id) + last == Pieces(a, id) + (PiecesUpTo(b, n - 1, id) + last);
    }
  }

  lemma {:induction false} PiecesUpToPrefix(a: seq<Entry>, b: seq<Entry>, n: nat, id: nat)
    requires n <= |a|
    ensures PiecesUpTo(a + b, n, id) == PiecesUpTo(a, n, id)
  {
    if n == 0 {
    } else {
      PiecesUpToPrefix(a, b, n - 1, id);
    }
  }

  lemma PiecesConcat(a: seq<Entry>, b: seq<Entry>, id: nat)
    ensures Pieces(a + b, id) == Pieces(a, id) + Pieces(b, id)
  {
    PiecesUpToConcat(a, b, |b|, id);
  }

  lemma PiecesOne(e: Entry, id: nat)
    ensures Pieces([e], id) == if e.request == id then e.output else []
  {
    assert PiecesUpTo([e], 0, id) == [];
  }

  lemma {:induction false} NoPieces(es: seq<Entry>, n: nat, id: nat)
    requires n <= |es| && forall i :: 0 <= i < n ==> es[i].output == [] || es[i].request != id
    ensures PiecesUpTo(es, n, id) == []
  {
    if n == 0 {
    } else {
      NoPieces(es, n - 1, id);
    }
  }

  /** The first n entries that came through Record, without the live pieces. */
  function ThroughUpTo(es: seq<Entry>, n: nat): seq<Entry>
    requires n <= |es|
  {
    if n == 0 then [] else ThroughUpTo(es, n - 1) + if es[n - 1].live then [] else [es[n - 1]]
  }

  function Through(es: seq<Entry>): seq<Entry> {
    ThroughUpTo(es, |es|)
  }

  lemma {:induction false} ThroughUpToPrefix(a: seq<Entry>, b: seq<Entry>, n: nat)
    requires n <= |a|
    ensures ThroughUpTo(a + b, n) == ThroughUpTo(a, n)
  {
    if n == 0 {
    } else {
      ThroughUpToPrefix(a, b, n - 1);
    }
  }

  lemma {:induction false} ThroughUpToConcat(a: seq<Entry>, b: seq<Entry>, n: nat)
    requires n <= |b|
    ensures ThroughUpTo(a + b, |a| + n) == Through(a) + ThroughUpTo(b, n)
  {
    if n == 0 {
      ThroughUpToPrefix(a, b, |a|);
      assert Through(a) + [] == Through(a);
    } else {
      ThroughUpToConcat(a, b, n - 1);
      var last := if b[n - 1].live then [] else [b[n - 1]];
      assert Through(a) + ThroughUpTo(b, n - 1) + last == Through(a) + (ThroughUpTo(b, n - 1) + last);
    }
  }

  lemma ThroughConcat(a: seq<Entry>, b: seq<Entry>)
    ensures Through(a + b) == Through(a) + Through(b)
  {
    ThroughUpToConcat(a, b, |b|);
  }

  lemma ThroughOne(e: Entry)
    ensures Through([e]) == if e.live then [] else [e]
  {
    assert ThroughUpTo([e], 0) == [];
    assert [] + [e] == [e];
  }
}
