/** The two copy loops of pumpStreams (pump.go), in every interleaving. */
module Pump {
  import opened Bytes

  // ---------- one copy loop ----------

  /** What RecvBytes gives: bytes, io.EOF or an error. */
  datatype Recv = Chunk(p: bytes) | Eof | Broken(code: nat)

  /** What the other stream is given. */
  datatype Msg = Data(p: bytes) | HalfClose

  datatype Outcome = Clean | RecvFailed(code: nat) | SendFailed

  datatype Pc = Receiving | Holding(p: bytes) | Over(outcome: Outcome)

  /** One direction: what is still to come, how many sends will succeed, and what it has done. */
  datatype Dir = Dir(incoming: seq<Recv>, room: nat, got: bytes, out: seq<Msg>, closed: bool, pc: Pc)
  {
    function Held(): bytes {
      if pc.Holding? then pc.p else []
    }
  }

  function Fresh(incoming: seq<Recv>, room: nat): Dir {
    Dir(incoming, room, [], [], false, Receiving)
  }

  /** CloseSend; its own error is ignored. */
  function CloseSent(d: Dir): Dir {
    d.(closed := true, out := if d.room > 0 then d.out + [HalfClose] else d.out)
  }

  /** One call on a stream. A receive with nothing to come yet blocks. */
  function Step(d: Dir): Dir {
    match d.pc
    case Receiving =>
      if |d.incoming| == 0 then d
      else
        var e := d.(incoming := d.incoming[1..]);
        (match d.incoming[0]
         case Chunk(p) => if |p| == 0 then e else e.(got := d.got + p, pc := Holding(p))
         case Eof => CloseSent(e).(pc := Over(Clean))
         case Broken(code) => CloseSent(e).(pc := Over(RecvFailed(code))))
    case Holding(p) =>
      if d.room == 0 then d.(pc := Over(SendFailed))
      else d.(room := d.room - 1, out := d.out + [Data(p)], pc := Receiving)
    case Over(_) => d
  }

  function Payload(m: Msg): bytes {
    if m.Data? then m.p else []
  }

  /** The bytes of the first n messages. */
  function SentUpTo(out: seq<Msg>, n: nat): bytes
    requires n <= |out|
  {
    if n == 0 then [] else SentUpTo(out, n - 1) + Payload(out[n - 1])
  }

  function Sent(out: seq<Msg>): bytes {
    SentUpTo(out, |out|)
  }

  lemma {:induction false} SentPrefix(a: seq<Msg>, b: seq<Msg>, n: nat)
    requires n <= |a|
    ensures SentUpTo(a + b, n) == SentUpTo(a, n)
  {
    if n == 0 {
    } else {
      SentPrefix(a, b, n - 1);
    }
  }

  lemma {:induction false} SentUpToIsPrefix(out: seq<Msg>, n: nat)
    requires n <= |out|
    ensures SentUpTo(out, n) <= Sent(out)
    decreases |out| - n
  {
    if n == |out| {
    } else {
      SentUpToIsPrefix(out, n + 1);
    }
  }

  lemma SentSnoc(a: seq<Msg>, m: Msg)
    ensures Sent(a + [m]) == Sent(a) + Payload(m)
  {
    SentPrefix(a, [m], |a|);
  }

  /** Nothing lost, added or reordered; a half-close is the last thing sent; a clean end sent everything. */
  predicate Faithful(d: Dir) {
    Sent(d.out) + d.Held() == d.got || (d.pc == Over(SendFailed) && Sent(d.out) <= d.got)
  }

  predicate HalfCloseLast(d: Dir) {
    && (forall i :: 0 <= i < |d.out| && d.out[i].HalfClose? ==> i == |d.out| - 1 && d.closed)
    && (d.closed ==> d.pc.Over? && Sent(d.out) == d.got)
    && (d.pc == Over(Clean) ==> d.closed)
  }

  predicate Sound(d: Dir) {
    Faithful(d) && HalfCloseLast(d) && Sent(d.out) <= d.got
  }

  lemma StepSound(d: Dir)
    requires Sound(d)
    ensures Sound(Step(d))
  {
    if d.pc.Receiving? && |d.incoming| > 0 {
      SentSnoc(d.out, HalfClose);
      assert Sent(d.out) + [] == Sent(d.out);
    } else if d.pc.Holding? {
      SentSnoc(d.out, Data(d.pc.p));
      assert d.got + [] == d.got;
    }
  }

  // ---------- the loop as it is written ----------

  class ByteStream {
    var incoming: seq<Recv>
    var room: nat
    var out: seq<Msg>
    var closed: bool

    constructor (incoming: seq<Recv>, room: nat)
      ensures this.incoming == incoming && this.room == room && out == [] && !closed
    {
      this.incoming, this.room, out, closed := incoming, room, [], false;
    }

    method RecvBytes() returns (r: Recv)
      requires |incoming| > 0
      modifies this`incoming
      ensures r == old(incoming)[0] && incoming == old(incoming)[1..]
    {
      r := incoming[0];
      incoming := incoming[1..];
    }

    method SendBytes(p: bytes) returns (ok: bool)
      modifies this`room, this`out
      ensures ok <==> old(room) > 0
      ensures if ok then room == old(room) - 1 && out == old(out) + [Data(p)] else room == old(room) && out == old(out)
    {
      ok := room > 0;
      if ok {
        room := room - 1;
        out := out + [Data(p)];
      }
    }

    method CloseSend()
      modifies this`out, this`closed
      ensures closed && out == if room > 0 then old(out) + [HalfClose] else old(out)
    {
      closed := true;
      if room > 0 {
        out := out + [HalfClose];
      }
    }
  }

  /** A stream that ends: some receive gives io.EOF or an error. */
  predicate Ends(incoming: seq<Recv>) {
    |incoming| > 0 && (!incoming[0].Chunk? || Ends(incoming[1..]))
  }

  /** The loop run to its end. */
  function Finished(d: Dir): (r: Dir)
    requires CanFinish(d)
    ensures r.pc.Over?
    decreases |d.incoming|, if d.pc.Holding? then 1 else 0
  {
    if d.pc.Over? then d else Finished(Step(d))
  }

  predicate CanFinish(d: Dir) {
    match d.pc
    case Receiving => Ends(d.incoming)
    case Holding(_) => Ends(d.incoming) || d.room == 0
    case Over(_) => true
  }

  lemma FinishedStep(d: Dir)
    requires CanFinish(d) && !d.pc.Over?
    ensures CanFinish(Step(d)) && Finished(d) == Finished(Step(d))
  {
  }

  lemma FinishedOver(d: Dir)
    requires d.pc.Over?
    ensures Finished(d) == d
  {
  }

  /** copyDir. */
  method CopyDir(from: ByteStream, to: ByteStream) returns (outcome: Outcome)
    requires from != to && Ends(from.incoming) && !to.closed
    modifies from`incoming, to`room, to`out, to`closed
    ensures var r := Finished(Dir(old(from.incoming), old(to.room), [], old(to.out), false, Receiving));
            && from.incoming == r.incoming && to.room == r.room && to.out == r.out && to.closed == r.closed
            && r.pc == Over(outcome)
  {
    ghost var all := Finished(Dir(from.incoming, to.room, [], to.out, false, Receiving));
    ghost var got := [];
    while true
      invariant Ends(from.incoming) && !to.closed
      invariant Finished(Dir(from.incoming, to.room, got, to.out, to.closed, Receiving)) == all
      decreases |from.incoming|
    {
      ghost var d := Dir(from.incoming, to.room, got, to.out, to.closed, Receiving);
      FinishedStep(d);
      var r := from.RecvBytes();
      match r {
        case Chunk(p) =>
          if |p| == 0 {
            continue;
          }
          got := got + p;
          FinishedStep(Step(d));
          var ok := to.SendBytes(p);
          if !ok {
            FinishedOver(Step(Step(d)));
            return SendFailed;
          }
        case Eof =>
          to.CloseSend();
          FinishedOver(Step(d));
          return Clean;
        case Broken(code) =>
          to.CloseSend();
          FinishedOver(Step(d));
          return RecvFailed(code);
      }
    }
  }

  /** The bytes that come before the stream ends. */
  function Stream(incoming: seq<Recv>): bytes {
    if |incoming| == 0 || !incoming[0].Chunk? then [] else incoming[0].p + Stream(incoming[1..])
  }

  /** How the stream ends. */
  function End(incoming: seq<Recv>): (r: Recv)
    requires Ends(incoming)
    ensures !r.Chunk?
  {
    if !incoming[0].Chunk? then incoming[0] else End(incoming[1..])
  }

  /** A loop whose sends all went through has sent the whole stream and then a half-close, and ends as the stream did. */
  lemma {:induction false} CopiesTheStream(d: Dir)
    requires Sound(d) && d.pc.Receiving? && Ends(d.incoming)
    ensures var r := Finished(d);
            && Sound(r)
            && (r.pc != Over(SendFailed) ==>
                  && r.closed && Sent(r.out) == d.got + Stream(d.incoming)
                  && r.pc == Over(if End(d.incoming).Eof? then Clean else RecvFailed(End(d.incoming).code)))
    decreases |d.incoming|
  {
    var e := Step(d);
    StepSound(d);
    FinishedStep(d);
    match d.incoming[0]
    case Eof =>
      FinishedOver(e);
      assert d.got + [] == d.got;
    case Broken(_) =>
      FinishedOver(e);
      assert d.got + [] == d.got;
    case Chunk(p) =>
      assert d.got + (p + Stream(d.incoming[1..])) == d.got + p + Stream(d.incoming[1..]);
      if |p| == 0 {
        CopiesTheStream(e);
        assert d.got + p == d.got;
      } else {
        StepSound(e);
        FinishedStep(e);
        if e.room > 0 {
          CopiesTheStream(Step(e));
        } else {
          FinishedOver(Step(e));
        }
      }
  }

  // ---------- both loops, interleaved ----------

  /** What pumpStreams itself is doing: receiving from errs, twice at most. */
  datatype Main = AwaitingBoth | AwaitingSecond | Returned(outcome: Outcome)

  datatype Pumping = Pumping(ab: Dir, ba: Dir, errs: seq<Outcome>, main: Main)

  datatype Turn = AtoB | BtoA | Collect

  function Reporting(errs: seq<Outcome>, d: Dir, e: Dir): seq<Outcome> {
    if e.pc.Over? && !d.pc.Over? then errs + [e.pc.outcome] else errs
  }

  function Collected(p: Pumping): Pumping {
    if |p.errs| == 0 || p.main.Returned? then p
    else
      var outcome := p.errs[0];
      var main := if p.main.AwaitingBoth? && outcome.Clean? then AwaitingSecond else Returned(outcome);
      p.(errs := p.errs[1..], main := main)
  }

  function Moved(p: Pumping, turn: Turn): Pumping {
    match turn
    case AtoB => var d := Step(p.ab); p.(ab := d, errs := Reporting(p.errs, p.ab, d))
    case BtoA => var d := Step(p.ba); p.(ba := d, errs := Reporting(p.errs, p.ba, d))
    case Collect => Collected(p)
  }

  /** After the first n turns. */
  function RunUpTo(p: Pumping, turns: seq<Turn>, n: nat): Pumping
    requires n <= |turns|
  {
    if n == 0 then p else Moved(RunUpTo(p, turns, n - 1), turns[n - 1])
  }

  function PumpStart(a: seq<Recv>, b: seq<Recv>, roomA: nat, roomB: nat): Pumping {
    Pumping(Fresh(a, roomB), Fresh(b, roomA), [], AwaitingBoth)
  }

  function Steps(d: Dir, n: nat): Dir {
    if n == 0 then d else Step(Steps(d, n - 1))
  }

  function Count(turns: seq<Turn>, n: nat, turn: Turn): nat
    requires n <= |turns|
  {
    if n == 0 then 0 else Count(turns, n - 1, turn) + if turns[n - 1] == turn then 1 else 0
  }

  lemma MovedDirections(p: Pumping, turn: Turn)
    ensures Moved(p, turn).ab == if turn.AtoB? then Step(p.ab) else p.ab
    ensures Moved(p, turn).ba == if turn.BtoA? then Step(p.ba) else p.ba
  {
  }

  /** e has taken n steps from d; f is e, or one step further. */
  lemma OneMoreStep(d: Dir, n: nat, moves: bool, e: Dir, f: Dir)
    requires e == Steps(d, n) && f == if moves then Step(e) else e
    ensures f == Steps(d, n + if moves then 1 else 0)
  {
  }

  lemma {:induction false} AtoBIsIndependent(p: Pumping, turns: seq<Turn>, n: nat)
    requires n <= |turns|
    ensures RunUpTo(p, turns, n).ab == Steps(p.ab, Count(turns, n, AtoB))
    decreases n
  {
    if n == 0 {
    } else {
      AtoBIsIndependent(p, turns, n - 1);
      MovedDirections(RunUpTo(p, turns, n - 1), turns[n - 1]);
      OneMoreStep(p.ab, Count(turns, n - 1, AtoB), turns[n - 1] == AtoB, RunUpTo(p, turns, n - 1).ab, RunUpTo(p, turns, n).ab);
    }
  }

  lemma {:induction false} BtoAIsIndependent(p: Pumping, turns: seq<Turn>, n: nat)
    requires n <= |turns|
    ensures RunUpTo(p, turns, n).ba == Steps(p.ba, Count(turns, n, BtoA))
    decreases n
  {
    if n == 0 {
    } else {
      BtoAIsIndependent(p, turns, n - 1);
      MovedDirections(RunUpTo(p, turns, n - 1), turns[n - 1]);
      OneMoreStep(p.ba, Count(turns, n - 1, BtoA), turns[n - 1] == BtoA, RunUpTo(p, turns, n - 1).ba, RunUpTo(p, turns, n).ba);
    }
  }

  /**
   Each direction goes its own way, whatever the other one does and whether or
   not pumpStreams has returned: a half-close of one never stops the other.
   */
  lemma DirectionsAreIndependent(p: Pumping, turns: seq<Turn>, n: nat)
    requires n <= |turns|
    ensures var q := RunUpTo(p, turns, n);
            q.ab == Steps(p.ab, Count(turns, n, AtoB)) && q.ba == Steps(p.ba, Count(turns, n, BtoA))
  {
    AtoBIsIndependent(p, turns, n);
    BtoAIsIndependent(p, turns, n);
  }

  lemma {:induction false} StepsSound(d: Dir, n: nat)
    requires Sound(d)
    ensures Sound(Steps(d, n))
    decreases n
  {
    if n == 0 {
    } else {
      StepsSound(d, n - 1);
      StepSound(Steps(d, n - 1));
    }
  }

  /** In every interleaving, what was sent on each side is a prefix of what was received on the other. */
  lemma SentIsPrefix(a: seq<Recv>, b: seq<Recv>, roomA: nat, roomB: nat, turns: seq<Turn>, n: nat)
    requires n <= |turns|
    ensures var q := RunUpTo(PumpStart(a, b, roomA, roomB), turns, n);
            && Sound(q.ab) && Sound(q.ba)
            && Sent(q.ab.out) <= q.ab.got && Sent(q.ba.out) <= q.ba.got
  {
    DirectionsAreIndependent(PumpStart(a, b, roomA, roomB), turns, n);
    StepsSound(Fresh(a, roomB), Count(turns, n, AtoB));
    StepsSound(Fresh(b, roomA), Count(turns, n, BtoA));
  }

  /** The outcomes of the loops that are over, in the order they ended. */
  predicate Reports(outcomes: seq<Outcome>, ab: Pc, ba: Pc) {
    match (ab, ba)
    case (Over(o), Over(u)) =>
      |outcomes| == 2 && ((outcomes[0] == o && outcomes[1] == u) || (outcomes[0] == u && outcomes[1] == o))
    case (Over(o), _) => |outcomes| == 1 && outcomes[0] == o
    case (_, Over(u)) => |outcomes| == 1 && outcomes[0] == u
    case _ => |outcomes| == 0
  }

  predicate Accounted(p: Pumping) {
    match p.main
    case AwaitingBoth => Reports(p.errs, p.ab.pc, p.ba.pc)
    case AwaitingSecond => Reports([Clean] + p.errs, p.ab.pc, p.ba.pc)
    case Returned(Clean) => p.ab.pc == Over(Clean) && p.ba.pc == Over(Clean)
    case Returned(outcome) => p.ab.pc == Over(outcome) || p.ba.pc == Over(outcome)
  }

  lemma MovedAccounted(p: Pumping, turn: Turn)
    requires Accounted(p)
    ensures Accounted(Moved(p, turn))
  {
  }

  lemma {:induction false} RunAccounted(p: Pumping, turns: seq<Turn>, n: nat)
    requires Accounted(p) && n <= |turns|
    ensures Accounted(RunUpTo(p, turns, n))
    decreases n
  {
    if n == 0 {
    } else {
      RunAccounted(p, turns, n - 1);
      MovedAccounted(RunUpTo(p, turns, n - 1), turns[n - 1]);
    }
  }

  /** A step that ends a loop, but by a failed send, takes the end of its stream; any other leaves the end to come. */
  lemma StepTowardsEnd(d: Dir)
    requires !d.pc.Over?
    ensures Step(d).pc.Over? && Step(d).pc != Over(SendFailed) ==> Ends(d.incoming)
    ensures Ends(Step(d).incoming) ==> Ends(d.incoming)
  {
  }

  /** A loop that ended without a failed send came to the end of its stream. */
  lemma {:induction false} OverMeansEnded(d: Dir, n: nat)
    requires Steps(d, n).pc.Over? && !d.pc.Over? && Steps(d, n).pc != Over(SendFailed)
    ensures Ends(d.incoming)
    decreases n
  {
    StepsFirst(d, n);
    StepTowardsEnd(d);
    if Step(d).pc.Over? {
      OverStays(Step(d), n - 1);
    } else {
      OverMeansEnded(Step(d), n - 1);
    }
  }

  lemma {:induction false} StepsFirst(d: Dir, n: nat)
    requires n > 0
    ensures Steps(d, n) == Steps(Step(d), n - 1)
    decreases n
  {
    if n > 1 {
      StepsFirst(d, n - 1);
    }
  }

  lemma {:induction false} OverStays(d: Dir, n: nat)
    requires d.pc.Over?
    ensures Steps(d, n) == d
    decreases n
  {
    if n == 0 {
    } else {
      OverStays(d, n - 1);
    }
  }

  /** However often it steps, a loop that is over has done what the loop does run to its end. */
  lemma {:induction false} OverIsFinished(d: Dir, n: nat)
    requires CanFinish(d) && Steps(d, n).pc.Over?
    ensures Steps(d, n) == Finished(d)
    decreases n
  {
    if d.pc.Over? {
      OverStays(d, n);
    } else {
      StepsFirst(d, n);
      FinishedStep(d);
      OverIsFinished(Step(d), n - 1);
    }
  }

  lemma CleanMeansDelivered(incoming: seq<Recv>, room: nat, n: nat)
    requires Steps(Fresh(incoming, room), n).pc == Over(Clean)
    ensures var r := Steps(Fresh(incoming, room), n);
            Ends(incoming) && End(incoming).Eof? && r.closed && Sent(r.out) == Stream(incoming)
  {
    var d := Fresh(incoming, room);
    OverMeansEnded(d, n);
    OverIsFinished(d, n);
    CopiesTheStream(d);
    assert [] + Stream(incoming) == Stream(incoming);
  }

  /** pumpStreams returns nil only when both sides' streams came to their EOF, were delivered whole, and were then half-closed. */
  lemma NilMeansDelivered(a: seq<Recv>, b: seq<Recv>, roomA: nat, roomB: nat, turns: seq<Turn>)
    requires RunUpTo(PumpStart(a, b, roomA, roomB), turns, |turns|).main == Returned(Clean)
    ensures var q := RunUpTo(PumpStart(a, b, roomA, roomB), turns, |turns|);
            && Ends(a) && End(a).Eof? && q.ab.closed && Sent(q.ab.out) == Stream(a)
            && Ends(b) && End(b).Eof? && q.ba.closed && Sent(q.ba.out) == Stream(b)
  {
    var p := PumpStart(a, b, roomA, roomB);
    var n := |turns|;
    RunAccounted(p, turns, n);
    DirectionsAreIndependent(p, turns, n);
    CleanMeansDelivered(a, roomB, Count(turns, n, AtoB));
    CleanMeansDelivered(b, roomA, Count(turns, n, BtoA));
  }

  /** An error it returns is the outcome of one of the directions. */
  lemma ErrorIsADirections(a: seq<Recv>, b: seq<Recv>, roomA: nat, roomB: nat, turns: seq<Turn>)
    requires var main := RunUpTo(PumpStart(a, b, roomA, roomB), turns, |turns|).main; main.Returned? && main.outcome != Clean
    ensures var q := RunUpTo(PumpStart(a, b, roomA, roomB), turns, |turns|);
            q.ab.pc == Over(q.main.outcome) || q.ba.pc == Over(q.main.outcome)
  {
    RunAccounted(PumpStart(a, b, roomA, roomB), turns, |turns|);
  }

  /** One direction fails, pumpStreams returns, and the other direction goes on. */
  predicate ReturnsFirst(turns: seq<Turn>) {
    |turns| == 4 && turns[0] == AtoB && turns[1] == Collect && turns[2] == BtoA && turns[3] == BtoA
  }

  /** What it returned for may not be all: bytes still reach the side that failed. */
  lemma SendsAfterReturn(p: bytes, code: nat, roomA: nat, roomB: nat, turns: seq<Turn>)
    requires p != [] && roomA > 0 && ReturnsFirst(turns)
    ensures var start := PumpStart([Broken(code)], [Chunk(p)], roomA, roomB);
            && RunUpTo(start, turns, 2).main == Returned(RecvFailed(code)) && RunUpTo(start, turns, 2).ba.out == []
            && RunUpTo(start, turns, 4).ba.out == [Data(p)]
  {
    var start := PumpStart([Broken(code)], [Chunk(p)], roomA, roomB);
    assert RunUpTo(start, turns, 0) == start;
    assert RunUpTo(start, turns, 1) == start.(ab := Step(start.ab), errs := [RecvFailed(code)]);
    var returned := RunUpTo(start, turns, 2);
    assert returned == Collected(RunUpTo(start, turns, 1));
    assert RunUpTo(start, turns, 3).ba == Step(start.ba);
    assert RunUpTo(start, turns, 4).ba == Step(Step(start.ba));
    assert [] + [Data(p)] == [Data(p)];
  }
}
