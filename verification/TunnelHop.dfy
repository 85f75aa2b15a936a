/**
 One direction of a relayed connection, end to end: the near side's copy loop
 writes data and half_close messages, the orchestrator carries them in order
 and may end the far side's leg at any time, and the far side's loop takes a
 half_close for the end of its stream (relay.go, pump.go).
 */
module TunnelHop {
  import opened Bytes
  import opened Pump

  /** carried of near's messages have reached the far leg; cut says that leg has been ended. */
  datatype Hop = Hop(near: Dir, carried: nat, cut: bool, far: Dir)

  datatype Move = NearStep | Carry | Cut(code: nat) | FarStep

  /** closeSignalStream's RecvBytes. */
  function Received(m: Msg): Recv {
    match m
    case Data(p) => Chunk(p)
    case HalfClose => Eof
  }

  function Moved(h: Hop, move: Move): Hop {
    match move
    case NearStep => h.(near := Step(h.near))
    case Carry =>
      if h.carried < |h.near.out| && !h.cut
      then h.(carried := h.carried + 1, far := h.far.(incoming := h.far.incoming + [Received(h.near.out[h.carried])]))
      else h
    case Cut(code) => if h.cut then h else h.(cut := true, far := h.far.(incoming := h.far.incoming + [Broken(code)]))
    case FarStep => h.(far := Step(h.far))
  }

  /** After the first n moves. */
  function RunUpTo(h: Hop, moves: seq<Move>, n: nat): Hop
    requires n <= |moves|
  {
    if n == 0 then h else Moved(RunUpTo(h, moves, n - 1), moves[n - 1])
  }

  function HopStart(incoming: seq<Recv>, roomNear: nat, roomFar: nat): Hop {
    Hop(Fresh(incoming, roomNear), 0, false, Fresh([], roomFar))
  }

  // ---------- what is kept ----------

  predicate AllChunks(incoming: seq<Recv>) {
    forall i :: 0 <= i < |incoming| ==> incoming[i].Chunk?
  }

  /** near's half-close has been carried. */
  predicate HalfCloseCarried(h: Hop) {
    0 < h.carried <= |h.near.out| && h.near.out[h.carried - 1].HalfClose?
  }

  /** Nothing but a broken stream comes after its end. */
  predicate EofLast(incoming: seq<Recv>) {
    forall i, j :: 0 <= i < j < |incoming| && incoming[i].Eof? ==> !incoming[j].Chunk?
  }

  predicate NoChunks(incoming: seq<Recv>) {
    forall i :: 0 <= i < |incoming| ==> !incoming[i].Chunk?
  }

  /** A leg is cut once, and nothing comes after. */
  predicate BrokenLast(h: Hop) {
    forall i :: 0 <= i < |h.far.incoming| && h.far.incoming[i].Broken? ==> i == |h.far.incoming| - 1 && h.cut
  }

  predicate Open(h: Hop) {
    !h.cut && !HalfCloseCarried(h)
  }

  predicate Carried(h: Hop) {
    && h.carried <= |h.near.out|
    && h.far.got + Stream(h.far.incoming) == SentUpTo(h.near.out, h.carried)
  }

  predicate EndsRight(h: Hop) {
    && h.carried <= |h.near.out| && EofLast(h.far.incoming) && BrokenLast(h)
    && (Open(h) ==> AllChunks(h.far.incoming) && (h.far.pc.Over? ==> h.far.pc == Over(SendFailed)))
    && (Eof in h.far.incoming || h.far.pc == Over(Clean) ==> HalfCloseCarried(h))
    && (h.far.pc == Over(Clean) ==> NoChunks(h.far.incoming))
  }

  predicate Kept(h: Hop) {
    Sound(h.near) && Sound(h.far) && Carried(h) && EndsRight(h)
  }

  lemma {:induction false} StreamSnoc(incoming: seq<Recv>, r: Recv)
    ensures Stream(incoming + [r]) == Stream(incoming) + if AllChunks(incoming) && r.Chunk? then r.p else []
    decreases |incoming|
  {
    if |incoming| == 0 {
      assert incoming + [r] == [r] && [r][1..] == [];
      assert r.Chunk? ==> r.p + [] == [] + r.p;
    } else {
      assert (incoming + [r])[1..] == incoming[1..] + [r];
      StreamSnoc(incoming[1..], r);
      assert AllChunks(incoming) <==> incoming[0].Chunk? && AllChunks(incoming[1..]) by {
        assert forall i :: 0 <= i < |incoming[1..]| ==> incoming[1..][i] == incoming[i + 1];
        if incoming[0].Chunk? && AllChunks(incoming[1..]) {
          forall i | 0 <= i < |incoming|
            ensures incoming[i].Chunk?
          {
            assert i > 0 ==> incoming[1..][i - 1] == incoming[i];
          }
        }
      }
      if incoming[0].Chunk? {
        var last := if AllChunks(incoming) && r.Chunk? then r.p else [];
        assert incoming[0].p + (Stream(incoming[1..]) + last) == incoming[0].p + Stream(incoming[1..]) + last;
      }
    }
  }

  /** What has been sent stays sent. */
  lemma StepExtends(d: Dir) returns (more: seq<Msg>)
    ensures Step(d).out == d.out + more
  {
    more := Step(d).out[|d.out|..];
    if d.pc.Holding? && d.room > 0 {
      assert Step(d).out == d.out + [Data(d.pc.p)];
    } else if d.pc.Receiving? && |d.incoming| > 0 && !d.incoming[0].Chunk? && d.room > 0 {
      assert Step(d).out == d.out + [HalfClose];
    } else {
      assert Step(d).out == d.out;
    }
  }

  lemma NearKept(h: Hop)
    requires Kept(h)
    ensures Kept(Moved(h, NearStep))
  {
    StepSound(h.near);
    var more := StepExtends(h.near);
    SentPrefix(h.near.out, more, h.carried);
  }

  lemma OneMoreMessage(got: bytes, incoming: seq<Recv>, m: Msg, sent: bytes)
    requires AllChunks(incoming) && got + Stream(incoming) == sent
    ensures got + Stream(incoming + [Received(m)]) == sent + Payload(m)
  {
    StreamSnoc(incoming, Received(m));
    assert Stream(incoming) + [] == Stream(incoming);
    assert got + (Stream(incoming) + Payload(m)) == got + Stream(incoming) + Payload(m);
  }

  lemma CarryCarried(h: Hop)
    requires Kept(h) && h.carried < |h.near.out| && !h.cut
    ensures Carried(Moved(h, Carry)) && !HalfCloseCarried(h)
  {
    assert !HalfCloseCarried(h);
    OneMoreMessage(h.far.got, h.far.incoming, h.near.out[h.carried], SentUpTo(h.near.out, h.carried));
  }

  /** incoming with r behind it. */
  lemma EndsWith(incoming: seq<Recv>, r: Recv)
    requires EofLast(incoming)
    ensures !r.Chunk? || AllChunks(incoming) ==> EofLast(incoming + [r])
    ensures Eof in incoming + [r] ==> Eof in incoming || r.Eof?
    ensures AllChunks(incoming) && r.Chunk? ==> AllChunks(incoming + [r])
    ensures NoChunks(incoming) && !r.Chunk? ==> NoChunks(incoming + [r])
  {
  }

  lemma CarryKept(h: Hop)
    requires Kept(h)
    ensures Kept(Moved(h, Carry))
  {
    if h.carried < |h.near.out| && !h.cut {
      CarryCarried(h);
      EndsWith(h.far.incoming, Received(h.near.out[h.carried]));
    }
  }

  lemma CutCarried(h: Hop, code: nat)
    requires Carried(h) && !h.cut
    ensures Carried(Moved(h, Cut(code)))
  {
    StreamSnoc(h.far.incoming, Broken(code));
    assert Stream(h.far.incoming) + [] == Stream(h.far.incoming);
  }

  lemma CutEndsRight(h: Hop, code: nat)
    requires EndsRight(h) && !h.cut
    ensures EndsRight(Moved(h, Cut(code)))
  {
    EndsWith(h.far.incoming, Broken(code));
  }

  lemma CutKept(h: Hop, code: nat)
    requires Kept(h)
    ensures Kept(Moved(h, Cut(code)))
  {
    if !h.cut {
      CutCarried(h, code);
      CutEndsRight(h, code);
    }
  }

  lemma NoChunksNoStream(incoming: seq<Recv>)
    requires NoChunks(incoming)
    ensures Stream(incoming) == []
  {
  }

  lemma FarCarried(h: Hop)
    requires Kept(h)
    ensures Carried(Moved(h, FarStep))
  {
    var d := h.far;
    if d.pc.Receiving? && |d.incoming| > 0 {
      match d.incoming[0]
      case Chunk(p) =>
        assert d.got + p + Stream(d.incoming[1..]) == d.got + (p + Stream(d.incoming[1..]));
        assert d.got + [] == d.got;
      case Eof => NoChunksNoStream(d.incoming[1..]);
      case Broken(_) => BrokenIsLast(h);
    }
  }

  lemma BrokenIsLast(h: Hop)
    requires Kept(h) && |h.far.incoming| > 0 && h.far.incoming[0].Broken?
    ensures Stream(h.far.incoming[1..]) == []
  {
  }

  /** What comes behind the first message. */
  lemma RestOf(incoming: seq<Recv>)
    requires |incoming| > 0 && EofLast(incoming)
    ensures EofLast(incoming[1..]) && (AllChunks(incoming) ==> AllChunks(incoming[1..]))
    ensures Eof in incoming[1..] ==> Eof in incoming
    ensures incoming[0].Eof? ==> Eof in incoming && NoChunks(incoming[1..])
  {
    assert incoming == [incoming[0]] + incoming[1..];
    assert incoming[0].Eof? ==> incoming[0] == Eof;
  }

  lemma RestBrokenLast(h: Hop)
    requires BrokenLast(h) && |h.far.incoming| > 0
    ensures BrokenLast(h.(far := h.far.(incoming := h.far.incoming[1..])))
  {
    var rest := h.far.incoming[1..];
    forall i | 0 <= i < |rest| && rest[i].Broken?
      ensures i == |rest| - 1 && h.cut
    {
      assert h.far.incoming[i + 1].Broken?;
    }
  }

  lemma FarReceivesChunk(h: Hop)
    requires Kept(h) && h.far.pc.Receiving? && |h.far.incoming| > 0 && h.far.incoming[0].Chunk?
    ensures EndsRight(Moved(h, FarStep))
  {
    RestOf(h.far.incoming);
    RestBrokenLast(h);
  }

  lemma FarReceivesEof(h: Hop)
    requires Kept(h) && h.far.pc.Receiving? && |h.far.incoming| > 0 && h.far.incoming[0].Eof?
    ensures EndsRight(Moved(h, FarStep))
  {
    RestOf(h.far.incoming);
    RestBrokenLast(h);
  }

  lemma FarReceivesBroken(h: Hop)
    requires Kept(h) && h.far.pc.Receiving? && |h.far.incoming| > 0 && h.far.incoming[0].Broken?
    ensures EndsRight(Moved(h, FarStep))
  {
    RestOf(h.far.incoming);
    RestBrokenLast(h);
  }

  lemma FarEndsRight(h: Hop)
    requires Kept(h)
    ensures EndsRight(Moved(h, FarStep))
  {
    if h.far.pc.Receiving? && |h.far.incoming| > 0 {
      match h.far.incoming[0]
      case Chunk(_) => FarReceivesChunk(h);
      case Eof => FarReceivesEof(h);
      case Broken(_) => FarReceivesBroken(h);
    }
  }

  lemma MoveKept(h: Hop, move: Move)
    requires Kept(h)
    ensures Kept(Moved(h, move))
  {
    match move
    case NearStep => NearKept(h);
    case Carry => CarryKept(h);
    case Cut(code) => CutKept(h, code);
    case FarStep =>
      StepSound(h.far);
      FarCarried(h);
      FarEndsRight(h);
  }

  predicate KeptUpTo(h: Hop, moves: seq<Move>, n: nat)
    requires n <= |moves|
  {
    forall i :: 0 <= i <= n ==> Kept(RunUpTo(h, moves, i))
  }

  lemma NextKept(h: Hop, moves: seq<Move>, n: nat)
    requires n < |moves| && KeptUpTo(h, moves, n)
    ensures KeptUpTo(h, moves, n + 1)
  {
    MoveKept(RunUpTo(h, moves, n), moves[n]);
  }

  lemma {:induction false} RunKept(h: Hop, moves: seq<Move>, n: nat)
    requires Kept(h) && n <= |moves|
    ensures KeptUpTo(h, moves, n)
    decreases n
  {
    if n == 0 {
    } else {
      RunKept(h, moves, n - 1);
      NextKept(h, moves, n - 1);
    }
  }

  lemma StartKept(incoming: seq<Recv>, roomNear: nat, roomFar: nat)
    ensures Kept(HopStart(incoming, roomNear, roomFar))
  {
  }

  // ---------- the main results ----------

  /** What reaches the far end is always a prefix of what the near end gave. */
  lemma DeliveredIsPrefix(incoming: seq<Recv>, roomNear: nat, roomFar: nat, moves: seq<Move>)
    ensures var h := RunUpTo(HopStart(incoming, roomNear, roomFar), moves, |moves|);
            Sent(h.far.out) <= h.far.got <= Sent(h.near.out) <= h.near.got
  {
    StartKept(incoming, roomNear, roomFar);
    RunKept(HopStart(incoming, roomNear, roomFar), moves, |moves|);
    var h := RunUpTo(HopStart(incoming, roomNear, roomFar), moves, |moves|);
    SentUpToIsPrefix(h.near.out, h.carried);
  }

  function NearSteps(moves: seq<Move>, n: nat): nat
    requires n <= |moves|
  {
    if n == 0 then 0 else NearSteps(moves, n - 1) + if moves[n - 1].NearStep? then 1 else 0
  }

  lemma MovedNear(h: Hop, move: Move)
    ensures Moved(h, move).near == if move.NearStep? then Step(h.near) else h.near
  {
  }

  /** The near loop goes its own way. */
  lemma {:induction false} NearIsOnItsOwn(h: Hop, moves: seq<Move>, n: nat)
    requires n <= |moves|
    ensures RunUpTo(h, moves, n).near == Steps(h.near, NearSteps(moves, n))
    decreases n
  {
    if n == 0 {
    } else {
      NearIsOnItsOwn(h, moves, n - 1);
      MovedNear(RunUpTo(h, moves, n - 1), moves[n - 1]);
      OneMoreStep(h.near, NearSteps(moves, n - 1), moves[n - 1].NearStep?, RunUpTo(h, moves, n - 1).near, RunUpTo(h, moves, n).near);
    }
  }

  /** A loop that half-closes has had no failed send. */
  lemma {:induction false} ClosedIsNotFailed(incoming: seq<Recv>, room: nat, n: nat)
    ensures var d := Steps(Fresh(incoming, room), n); d.closed ==> d.pc.Over? && d.pc.outcome != SendFailed
    decreases n
  {
    if n == 0 {
    } else {
      ClosedIsNotFailed(incoming, room, n - 1);
    }
  }

  /** A loop that half-closes has sent its whole stream, and ends as the stream did. */
  lemma ClosedHasSentAll(incoming: seq<Recv>, room: nat, n: nat)
    requires Steps(Fresh(incoming, room), n).closed
    ensures var d := Steps(Fresh(incoming, room), n);
            Ends(incoming) && Sent(d.out) == Stream(incoming) && (d.pc == Over(Clean) <==> End(incoming).Eof?)
  {
    var d := Fresh(incoming, room);
    ClosedIsNotFailed(incoming, room, n);
    StepsSound(d, n);
    OverMeansEnded(d, n);
    OverIsFinished(d, n);
    CopiesTheStream(d);
    assert [] + Stream(incoming) == Stream(incoming);
  }

  /** A far end that is half-closed cleanly: the near loop half-closed, and all it sent has arrived. */
  lemma CleanEndMeansNearClosed(incoming: seq<Recv>, roomNear: nat, roomFar: nat, moves: seq<Move>)
    requires RunUpTo(HopStart(incoming, roomNear, roomFar), moves, |moves|).far.pc == Over(Clean)
    ensures var h := RunUpTo(HopStart(incoming, roomNear, roomFar), moves, |moves|);
            h.near.closed && h.far.closed && Sent(h.far.out) == Sent(h.near.out)
  {
    StartKept(incoming, roomNear, roomFar);
    RunKept(HopStart(incoming, roomNear, roomFar), moves, |moves|);
    var h := RunUpTo(HopStart(incoming, roomNear, roomFar), moves, |moves|);
    assert h.carried == |h.near.out|;
    NoChunksNoStream(h.far.incoming);
    assert h.far.got + [] == h.far.got;
  }

  /**
   A far end that is half-closed cleanly has been given the whole of the near
   stream, which had ended. The near end was clean exactly when that stream
   came to its EOF: the near loop half-closes on an error too, and the far
   side cannot tell (ErrorLooksClean).
   */
  lemma CleanEndMeansAllArrived(incoming: seq<Recv>, roomNear: nat, roomFar: nat, moves: seq<Move>)
    requires RunUpTo(HopStart(incoming, roomNear, roomFar), moves, |moves|).far.pc == Over(Clean)
    ensures var h := RunUpTo(HopStart(incoming, roomNear, roomFar), moves, |moves|);
            && Ends(incoming) && Sent(h.far.out) == Stream(incoming) && h.far.closed && h.near.pc.Over?
            && (h.near.pc == Over(Clean) <==> End(incoming).Eof?)
  {
    CleanEndMeansNearClosed(incoming, roomNear, roomFar, moves);
    NearIsOnItsOwn(HopStart(incoming, roomNear, roomFar), moves, |moves|);
    ClosedHasSentAll(incoming, roomNear, NearSteps(moves, |moves|));
    ClosedIsNotFailed(incoming, roomNear, NearSteps(moves, |moves|));
  }

  /** The near loop copies a chunk and meets an error, both messages are carried, the far loop takes them. */
  predicate ErrorCarried(moves: seq<Move>) {
    && |moves| == 8
    && moves[0] == NearStep && moves[1] == NearStep && moves[2] == NearStep && moves[3] == Carry && moves[4] == Carry
    && moves[5] == FarStep && moves[6] == FarStep && moves[7] == FarStep
  }

  lemma NearMeetsError(p: bytes, code: nat, room: nat)
    requires p != [] && room >= 2
    ensures var d := Step(Step(Step(Fresh([Chunk(p), Broken(code)], room))));
            d.pc == Over(RecvFailed(code)) && d.out == [Data(p), HalfClose]
  {
    assert [Chunk(p), Broken(code)][1..] == [Broken(code)];
    assert [] + [Data(p)] + [HalfClose] == [Data(p), HalfClose];
  }

  lemma FarEndsClean(p: bytes, room: nat)
    requires p != [] && room >= 2
    ensures Step(Step(Step(Fresh([Chunk(p), Eof], room)))).pc == Over(Clean)
  {
    assert [Chunk(p), Eof][1..] == [Eof];
  }

  lemma BothCarried(h: Hop, moves: seq<Move>, p: bytes)
    requires ErrorCarried(moves) && h.carried == 0 && !h.cut && h.far.incoming == []
    requires RunUpTo(h, moves, 3) == h.(near := RunUpTo(h, moves, 3).near) && RunUpTo(h, moves, 3).near.out == [Data(p), HalfClose]
    ensures var g := RunUpTo(h, moves, 5); g.near == RunUpTo(h, moves, 3).near && g.far == h.far.(incoming := [Chunk(p), Eof])
  {
    var g := RunUpTo(h, moves, 3);
    assert [] + [Chunk(p)] + [Eof] == [Chunk(p), Eof];
    assert RunUpTo(h, moves, 4) == g.(carried := 1, far := h.far.(incoming := [] + [Chunk(p)]));
  }

  /** A run on which the near stream breaks and the far end is clean. */
  lemma ErrorLooksClean(p: bytes, code: nat, roomNear: nat, roomFar: nat, moves: seq<Move>)
    requires p != [] && roomNear >= 2 && roomFar >= 2 && ErrorCarried(moves)
    ensures var h := RunUpTo(HopStart([Chunk(p), Broken(code)], roomNear, roomFar), moves, |moves|);
            h.far.pc == Over(Clean) && h.near.pc == Over(RecvFailed(code))
  {
    var h := HopStart([Chunk(p), Broken(code)], roomNear, roomFar);
    assert RunUpTo(h, moves, 0) == h;
    assert RunUpTo(h, moves, 1) == h.(near := Step(h.near));
    assert RunUpTo(h, moves, 2) == h.(near := Step(Step(h.near)));
    assert RunUpTo(h, moves, 3) == h.(near := Step(Step(Step(h.near))));
    NearMeetsError(p, code, roomNear);
    BothCarried(h, moves, p);
    var g := RunUpTo(h, moves, 5);
    assert RunUpTo(h, moves, 6) == g.(far := Step(g.far));
    assert RunUpTo(h, moves, 7) == g.(far := Step(Step(g.far)));
    assert RunUpTo(h, moves, 8) == g.(far := Step(Step(Step(g.far))));
    FarEndsClean(p, roomFar);
  }
}
