/**
 Output that comes after its request's finish has begun: it stays where it is.
 pumpStreams returns at the first error, and the tunnel is finished then, while
 the other copy loop may still be writing to the client (pump.go,
 adb_connection.go).
 */
module LogLate {
  import opened Bytes
  import Utf8
  import opened ShellDecoder
  import opened LogValues
  import opened LogShipping
  import opened LogDelivery
  import opened LogLosses
  import opened LogHanded

  // ---------- nothing takes it ----------

  /** A request that is over stays over, and what is in its buffer stays there. */
  predicate Stuck(s: State, t: State, id: nat) {
    id in s.requests && s.requests[id].phase.Ended? ==>
      id in t.requests && t.requests[id].phase.Ended? && (s.requests[id].tunnel.buf <= t.requests[id].tunnel.buf)
  }

  lemma AppendedKeeps(t: Tunnel, p: bytes)
    ensures t.buf <= Appended(t, p).buf
  {
  }

  lemma StepStuck(s: State, a: Action, id: nat)
    requires s.Valid() && Enabled(s, a) && Shape(s) && id in s.requests && s.requests[id].phase.Ended?
    ensures Stuck(s, Next(s, a), id)
  {
    EndedStays(s, a, id);
    var t := s.requests[id].tunnel;
    if a.Observe? && a.id == id {
      var (d, out) := Feed(t.decoder, a.chunk);
      AppendedKeeps(t.(decoder := d), out);
    } else if !a.Observe? {
      OtherSteps(s, a, id);
    }
  }

  lemma NextStuck(actions: seq<Action>, n: nat, m: nat, id: nat)
    requires n <= m < |actions| && Stuck(At(actions, n), At(actions, m), id)
    ensures Stuck(At(actions, n), At(actions, m + 1), id)
  {
    InvAt(actions, m);
    if EndedAt(actions, m, id) && Enabled(At(actions, m), actions[m]) {
      StepStuck(At(actions, m), actions[m], id);
    }
  }

  /** On every run, whatever comes: what a request's buffer has once it is over is never shipped. */
  lemma {:induction false} StuckForGood(actions: seq<Action>, n: nat, m: nat, id: nat)
    requires n <= m <= |actions|
    ensures Stuck(At(actions, n), At(actions, m), id)
    decreases m
  {
    if n == m {
    } else {
      StuckForGood(actions, n, m - 1, id);
      NextStuck(actions, n, m - 1, id);
    }
  }

  // ---------- a run on which it happens ----------

  /** A legacy shell's tunnel is finished before its reply comes. */
  predicate FinishedFirst(actions: seq<Action>, service: bytes, out: bytes) {
    && |actions| == 4
    && actions[0] == Register(service) && actions[1] == BeginFinish(1) && actions[2] == FinishTake(1)
    && actions[3] == Observe(1, OKAY + out)
  }

  /** r is the only request, and nothing is in any entry. */
  predicate Alone(s: State, r: Request) {
    s.requests == map[1 := r] && s.mutex.Nobody? && Custody(s) == []
  }

  lemma RegisterAlone(s: State, service: bytes)
    requires s.Valid() && s == Start(s.closer)
    ensures Alone(Attempt(s, Register(service)), Request(Opened(1, service), Running, service, [], [], false))
  {
  }

  lemma FinishAlone(s: State, r: Request)
    requires s.Valid() && Alone(s, r) && r.phase.Running? && r.tunnel.buf == [] && r.tunnel.dropped == 0
    requires !r.lossy && !r.tunnel.binary
    ensures Alone(Attempt(Attempt(s, BeginFinish(1)), FinishTake(1)), r.(phase := Ended))
  {
    var t := Attempt(s, BeginFinish(1));
    assert Alone(t, r.(phase := Ending([])));
    assert AfterFinishTake(r.(phase := Ending([]))) == r.(phase := Ended);
  }

  lemma ObserveAlone(s: State, r: Request, chunk: bytes)
    requires s.Valid() && Alone(s, r) && r.tunnel.Valid()
    ensures Alone(Attempt(s, Observe(1, chunk)), AfterObserve(r, chunk))
  {
  }

  /** The whole of a legacy shell's reply, observed at once. */
  lemma ReplyAtOnce(r: Request, service: bytes, out: bytes)
    requires SHELL <= service && !(SHELL_V2 <= service) && |out| <= MAX_UNFLUSHED
    requires r == Request(Opened(1, service), Ended, service, [], [], false)
    ensures var u := AfterObserve(r, OKAY + out);
            u.phase.Ended? && !u.lossy && u.service == service && u.reply == OKAY + out && u.decoded == out && u.tunnel.buf == out
  {
    StatusThen(false, OKAY, out);
    FeedRaw(Fresh(true, false).(status := OKAY), out);
    assert [] + out == out && [] + (OKAY + out) == OKAY + out;
  }

  lemma LateRun(service: bytes, out: bytes, actions: seq<Action>)
    requires SHELL <= service && !(SHELL_V2 <= service) && |out| <= MAX_UNFLUSHED && FinishedFirst(actions, service, out)
    ensures var r := Request(Opened(1, service), Ended, service, [], [], false);
            Alone(At(actions, 4), AfterObserve(r, OKAY + out))
  {
    var r := Request(Opened(1, service), Running, service, [], [], false);
    assert At(actions, 0) == Start(true);
    RegisterAlone(Start(true), service);
    assert Alone(At(actions, 1), r);
    FinishAlone(At(actions, 1), r);
    TwoSteps(Start(true), actions, 1);
    assert Alone(At(actions, 3), r.(phase := Ended));
    ObserveAlone(At(actions, 3), r.(phase := Ended), OKAY + out);
  }

  /**
   Text, within every cap, and not one byte of it in any entry: it comes once
   the request is over, and is in the buffer for good (StuckForGood). What
   ExactlyOnceInOrder says of a request that is over needs that nothing comes
   late.
   */
  lemma LateIsStuck(service: bytes, out: bytes, actions: seq<Action>)
    requires SHELL <= service && !(SHELL_V2 <= service) && FinishedFirst(actions, service, out)
    requires out != [] && |out| <= MAX_UNFLUSHED && Utf8.Valid(out)
    ensures var s := Run(Start(true), actions);
            && 1 in s.requests && s.requests[1].phase.Ended? && !s.requests[1].lossy
            && WholeReply(s.requests[1]).1 == out && s.requests[1].tunnel.buf == out && Pieces(Custody(s), 1) == []
    ensures !Capped(actions, 4, 1) && Late(actions, 4, 1)
  {
    LateRun(service, out, actions);
    ReplyAtOnce(Request(Opened(1, service), Ended, service, [], [], false), service, out);
    RunDecodes(true, actions, 4, 1);
    LossyIffSteps(actions, 4, 1);
    if !Late(actions, 4, 1) {
      EndedIsEmpty(actions, 4, 1);
    }
  }
}
