/**
 Output that is text stays text: however a stream of well-formed UTF-8 arrives
 and however it is taken in pieces, every piece is well formed and nothing is
 called binary (lock_log.go, append and take).
 */
module TextOutput {
  import opened Bytes
  import Utf8
  import opened LogValues

  /** What happens to a tunnel's buffer: decoded output arrives, or a drain takes a piece. */
  datatype Op = Arrive(chunk: bytes) | Take(max: nat)

  /** A tunnel, and the pieces taken from it so far. */
  datatype Progress = Progress(tunnel: Tunnel, pieces: seq<bytes>)

  function With(pieces: seq<bytes>, piece: bytes): seq<bytes> {
    if piece == [] then pieces else pieces + [piece]
  }

  function Apply(p: Progress, op: Op): Progress {
    match op
    case Arrive(chunk) => p.(tunnel := Appended(p.tunnel, chunk))
    case Take(max) =>
      var (t, piece) := Taken(p.tunnel, max, false);
      Progress(t, With(p.pieces, piece))
  }

  /** After the first n operations. */
  function After(t: Tunnel, ops: seq<Op>, n: nat): Progress
    requires n <= |ops|
  {
    if n == 0 then Progress(t, []) else Apply(After(t, ops, n - 1), ops[n - 1])
  }

  /** What has arrived by then. */
  function Arrived(ops: seq<Op>, n: nat): bytes
    requires n <= |ops|
  {
    if n == 0 then [] else Arrived(ops, n - 1) + if ops[n - 1].Arrive? then ops[n - 1].chunk else []
  }

  /** finish: everything left, taken in pieces. */
  function Finish(p: Progress): (r: Progress)
    ensures r.tunnel.buf == []
    decreases Remaining(p.tunnel)
  {
    FinalTakeProgress(p.tunnel);
    var (t, piece) := Taken(p.tunnel, MAX_PIECE, true);
    if piece == [] then p else Finish(Progress(t, p.pieces + [piece]))
  }

  /** What operation n brings fits the buffer. */
  predicate Fits(t: Tunnel, ops: seq<Op>, n: nat)
    requires n < |ops|
  {
    ops[n].Arrive? ==> |After(t, ops, n).tunnel.buf| + |ops[n].chunk| <= MAX_UNFLUSHED
  }

  /** The buffer never has to drop anything. */
  predicate NeverFull(t: Tunnel, ops: seq<Op>) {
    forall n :: 0 <= n < |ops| ==> Fits(t, ops, n)
  }

  predicate Empty(t: Tunnel) {
    t.buf == [] && t.dropped == 0 && !t.binary
  }

  /** Nothing called binary: the pieces and the buffer are what has arrived, the pieces are text. */
  predicate Faithful(p: Progress, arrived: bytes) {
    && !p.tunnel.binary && p.tunnel.dropped == 0
    && Flatten(p.pieces) + p.tunnel.buf == arrived
    && Utf8.Valid(Flatten(p.pieces))
    && forall piece <- p.pieces :: Utf8.Valid(piece)
  }

  lemma Regrouped(taken: bytes, buf: bytes, piece: bytes, rest: bytes, arrived: bytes)
    requires taken + buf == arrived && buf == piece + rest
    ensures taken + piece + rest == arrived
  {
    assert taken + piece + rest == taken + (piece + rest);
  }

  /** A piece that is text goes from the buffer to the pieces. */
  lemma OneMorePiece(p: Progress, t: Tunnel, piece: bytes, arrived: bytes)
    requires Faithful(p, arrived) && !t.binary && t.dropped == 0
    requires p.tunnel.buf == piece + t.buf && Utf8.Valid(piece)
    ensures Faithful(Progress(t, p.pieces + [piece]), arrived)
  {
    FlattenSnoc(p.pieces, piece);
    Utf8.ValidConcat(Flatten(p.pieces), piece);
    Regrouped(Flatten(p.pieces), p.tunnel.buf, piece, t.buf, arrived);
  }

  lemma TakenFaithful(p: Progress, max: nat, final: bool, arrived: bytes)
    requires Faithful(p, arrived)
    ensures var (t, piece) := Taken(p.tunnel, max, final);
            t.binary || Faithful(Progress(t, With(p.pieces, piece)), arrived)
  {
    var (t, piece) := Taken(p.tunnel, max, final);
    if t.binary {
    } else if piece == [] {
      assert p.tunnel.buf == [] + t.buf == t.buf;
    } else {
      assert p.tunnel.buf == piece + t.buf;
      OneMorePiece(p, t, piece, arrived);
    }
  }

  /** Only bytes that are not text can make a tunnel binary. */
  lemma TakenText(t: Tunnel, max: nat, future: bytes)
    requires Utf8.Valid(t.buf + future) && !t.binary
    ensures !Taken(t, max, false).0.binary
  {
    if t.buf != [] {
      Utf8.CutKeepsRunesWhole(t.buf, future, Min(max, |t.buf|));
    }
  }

  lemma TakenLastText(t: Tunnel, max: nat)
    requires Utf8.Valid(t.buf) && !t.binary
    ensures !Taken(t, max, true).0.binary
  {
    if t.buf != [] {
      assert t.buf + [] == t.buf;
      Utf8.CutKeepsRunesWhole(t.buf, [], Min(max, |t.buf|));
      assert t.buf[..|t.buf|] == t.buf;
    }
  }

  /** Once binary, always binary. */
  lemma {:induction false} StaysBinary(t: Tunnel, ops: seq<Op>, n: nat, m: nat)
    requires n <= m <= |ops| && After(t, ops, n).tunnel.binary
    ensures After(t, ops, m).tunnel.binary
    decreases m
  {
    if n == m {
    } else {
      StaysBinary(t, ops, n, m - 1);
    }
  }

  lemma {:induction false} FinishStaysBinary(p: Progress)
    requires p.tunnel.binary
    ensures Finish(p).tunnel.binary
    decreases Remaining(p.tunnel)
  {
    FinalTakeProgress(p.tunnel);
    var (t, piece) := Taken(p.tunnel, MAX_PIECE, true);
    if piece == [] {
    } else {
      FinishStaysBinary(Progress(t, p.pieces + [piece]));
    }
  }

  lemma ApplyFaithful(p: Progress, op: Op, arrived: bytes)
    requires Faithful(p, arrived) && (op.Arrive? ==> |p.tunnel.buf| + |op.chunk| <= MAX_UNFLUSHED)
    ensures Apply(p, op).tunnel.binary || Faithful(Apply(p, op), arrived + if op.Arrive? then op.chunk else [])
  {
    match op
    case Arrive(chunk) =>
      assert Flatten(p.pieces) + (p.tunnel.buf + chunk) == Flatten(p.pieces) + p.tunnel.buf + chunk;
    case Take(max) =>
      TakenFaithful(p, max, false, arrived);
      assert arrived + [] == arrived;
  }

  lemma ApplyText(p: Progress, op: Op, arrived: bytes, future: bytes)
    requires Faithful(p, arrived) && Utf8.Valid(arrived + future)
    ensures !Apply(p, op).tunnel.binary
  {
    if op.Take? {
      assert Flatten(p.pieces) + (p.tunnel.buf + future) == arrived + future;
      Utf8.ValidRest(Flatten(p.pieces), p.tunnel.buf + future);
      TakenText(p.tunnel, op.max, future);
    }
  }

  /** After n operations: called binary, or faithful. */
  predicate FaithfulAt(t: Tunnel, ops: seq<Op>, n: nat)
    requires n <= |ops|
  {
    After(t, ops, n).tunnel.binary || Faithful(After(t, ops, n), Arrived(ops, n))
  }

  lemma NextFaithful(t: Tunnel, ops: seq<Op>, n: nat)
    requires n < |ops| && NeverFull(t, ops) && FaithfulAt(t, ops, n)
    ensures FaithfulAt(t, ops, n + 1)
  {
    assert Fits(t, ops, n);
    var p := After(t, ops, n);
    if p.tunnel.binary {
      StaysBinary(t, ops, n, n + 1);
    } else {
      ApplyFaithful(p, ops[n], Arrived(ops, n));
    }
  }

  lemma {:induction false} RunFaithful(t: Tunnel, ops: seq<Op>, n: nat)
    requires Empty(t) && n <= |ops| && NeverFull(t, ops)
    ensures FaithfulAt(t, ops, n)
    decreases n
  {
    if n == 0 {
    } else {
      RunFaithful(t, ops, n - 1);
      NextFaithful(t, ops, n - 1);
    }
  }

  /** The stream so far and what is to come. */
  lemma {:induction false} ArrivedSplit(ops: seq<Op>, n: nat, m: nat) returns (future: bytes)
    requires n <= m <= |ops|
    ensures Arrived(ops, m) == Arrived(ops, n) + future
    decreases m
  {
    if n == m {
      future := [];
    } else {
      future := ArrivedSplit(ops, n, m - 1);
      future := future + if ops[m - 1].Arrive? then ops[m - 1].chunk else [];
    }
  }

  lemma NextText(t: Tunnel, ops: seq<Op>, n: nat)
    requires Empty(t) && n < |ops| && NeverFull(t, ops) && Utf8.Valid(Arrived(ops, |ops|))
    requires !After(t, ops, n).tunnel.binary
    ensures !After(t, ops, n + 1).tunnel.binary
  {
    RunFaithful(t, ops, n);
    var future := ArrivedSplit(ops, n, |ops|);
    ApplyText(After(t, ops, n), ops[n], Arrived(ops, n), future);
  }

  lemma {:induction false} RunText(t: Tunnel, ops: seq<Op>, n: nat)
    requires Empty(t) && n <= |ops| && NeverFull(t, ops) && Utf8.Valid(Arrived(ops, |ops|))
    ensures !After(t, ops, n).tunnel.binary
    decreases n
  {
    if n == 0 {
    } else {
      RunText(t, ops, n - 1);
      NextText(t, ops, n - 1);
    }
  }

  lemma {:induction false} FinishFaithful(p: Progress, arrived: bytes)
    requires Faithful(p, arrived)
    ensures var r := Finish(p); if r.tunnel.binary then !Utf8.Valid(arrived) else Faithful(r, arrived)
    decreases Remaining(p.tunnel)
  {
    FinalTakeProgress(p.tunnel);
    var (t, piece) := Taken(p.tunnel, MAX_PIECE, true);
    if piece == [] {
    } else {
      TakenFaithful(p, MAX_PIECE, true, arrived);
      if t.binary {
        if Utf8.Valid(arrived) {
          Utf8.ValidRest(Flatten(p.pieces), p.tunnel.buf);
          TakenLastText(p.tunnel, MAX_PIECE);
        }
        FinishStaysBinary(Progress(t, p.pieces + [piece]));
      } else {
        FinishFaithful(Progress(t, p.pieces + [piece]), arrived);
      }
    }
  }

  /**
   However output arrives and whatever budgets it is taken with, up to the last
   take: it ends up called binary exactly when the stream is not UTF-8, and
   otherwise the pieces are well formed and are the stream, end to end.
   */
  lemma TextIffNotBinary(t: Tunnel, ops: seq<Op>)
    requires Empty(t) && NeverFull(t, ops)
    ensures var stream := Arrived(ops, |ops|);
            var r := Finish(After(t, ops, |ops|));
            && (Utf8.Valid(stream) <==> !r.tunnel.binary)
            && (Utf8.Valid(stream) ==> Flatten(r.pieces) == stream && forall piece <- r.pieces :: Utf8.Valid(piece))
  {
    var n := |ops|;
    var p := After(t, ops, n);
    RunFaithful(t, ops, n);
    if Utf8.Valid(Arrived(ops, n)) {
      RunText(t, ops, n);
    }
    if p.tunnel.binary {
      FinishStaysBinary(p);
    } else {
      FinishFaithful(p, Arrived(ops, n));
      var r := Finish(p);
      assert Flatten(r.pieces) + [] == Flatten(r.pieces);
    }
  }
}
