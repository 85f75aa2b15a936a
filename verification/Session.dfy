/**
 The session with the orchestrator (session.go): one run loop that connects,
 publishes its stream, withdraws it and tries again, any number of senders
 beside it, and the waits between attempts.
 */
module Session {
  import opened Bytes

  // ---------- the run loop and the senders, interleaved ----------

  /** How far a stream has come. Streams are known by their index, in the order they were opened. */
  datatype Stage = Opened | HelloSent | Welcomed

  datatype RunPc =
    | Dialing
    | Greeting(c: nat)    // open; hello is next
    | Hearing(c: nat)     // for the welcome
    | Publishing(c: nat)  // welcomed
    | Serving(c: nat)
    | Withdrawing(c: nat, unimplemented: bool)
    | Ended(connected: bool, unimplemented: bool)
    | Waiting             // out the backoff
    | Over

  datatype SendPc =
    | Wants(c: nat)     // has the stream, not sendMu
    | Sending(c: nat)   // inside stream.Send
    | Dropping(c: nat)  // Send said the stream is dead
    | Done

  /** What one serveOnce and the wait after it come to. */
  datatype Attempt = Attempt(connected: bool, end: AttemptEnd)

  datatype AttemptEnd = Failed | NotImplemented | Cancelled | CancelledInWait

  /** The run loop's own variables, and what it has done: its attempts, the stream each had, and its waits. */
  datatype Pace = Pace(
    backoffMin: nat,
    backoffMax: nat,
    backoff: nat,
    dialled: Option<nat>,  // the stream of the attempt in progress, once it has one
    attempts: seq<Attempt>,
    streams: seq<Option<nat>>,
    waits: seq<nat>)

  datatype State = State(
    stages: seq<Stage>,
    stream: Option<nat>,
    fallback: bool,
    run: RunPc,
    pace: Pace,
    senders: map<nat, SendPc>,
    sendMu: Option<nat>,
    sent: seq<nat>)  // the stream of every message that went out

  function Start(min: nat, max: nat): State {
    State([], None, false, Dialing, Pace(min, max, min, None, [], [], []), map[], None, [])
  }

  datatype Result = Sent | Dead | Refused

  datatype Action =
    | Dial(ok: bool, unimplemented: bool)
    | Hello(ok: bool, unimplemented: bool)
    | Hear(welcome: bool, unimplemented: bool)
    | Publish
    | StreamFails(unimplemented: bool)
    | Withdraw
    | Decide(cancelled: bool)
    | Wake(cancelled: bool)
    | SendStart(n: nat)
    | SendLock(n: nat)
    | SendReturns(n: nat, result: Result)
    | Drop(n: nat)

  predicate Enabled(s: State, a: Action) {
    match a
    case Dial(_, _) => s.run.Dialing?
    case Hello(_, _) => s.run.Greeting? && s.run.c < |s.stages|
    case Hear(_, _) => s.run.Hearing? && s.run.c < |s.stages|
    case Publish => s.run.Publishing?
    case StreamFails(_) => s.run.Serving?
    case Withdraw => s.run.Withdrawing?
    case Decide(_) => s.run.Ended?
    case Wake(_) => s.run.Waiting?
    case SendStart(n) => n !in s.senders
    case SendLock(n) => n in s.senders && s.senders[n].Wants? && s.sendMu.None?
    case SendReturns(n, _) => n in s.senders && s.senders[n].Sending?
    case Drop(n) => n in s.senders && s.senders[n].Dropping?
  }

  function Doubled(backoff: nat, max: nat): nat {
    if backoff * 2 > max then max else backoff * 2
  }

  /** The attempt in progress is over. */
  function Tried(p: Pace, attempt: Attempt): Pace {
    p.(attempts := p.attempts + [attempt], streams := p.streams + [p.dialled])
  }

  /** The attempt failed, and its wait begins. */
  function Waits(p: Pace, connected: bool): Pace {
    var backoff := if connected then p.backoffMin else p.backoff;
    Tried(p, Attempt(connected, Failed)).(backoff := backoff, waits := p.waits + [backoff])
  }

  /** The wait is over. */
  function Waked(p: Pace, cancelled: bool): Pace {
    if !cancelled then p.(backoff := Doubled(p.backoff, p.backoffMax))
    else if p.attempts == [] then p
    else
      var last := |p.attempts| - 1;
      p.(attempts := p.attempts[last := p.attempts[last].(end := CancelledInWait)])
  }

  function Next(s: State, a: Action): State
    requires Enabled(s, a)
  {
    match a
    case Dial(ok, unimplemented) =>
      if ok then s.(stages := s.stages + [Opened], run := Greeting(|s.stages|), pace := s.pace.(dialled := Some(|s.stages|)))
      else s.(run := Ended(false, unimplemented), pace := s.pace.(dialled := None))
    case Hello(ok, unimplemented) =>
      if ok then s.(stages := s.stages[s.run.c := HelloSent], run := Hearing(s.run.c)) else s.(run := Ended(false, unimplemented))
    case Hear(welcome, unimplemented) =>
      if welcome then s.(stages := s.stages[s.run.c := Welcomed], run := Publishing(s.run.c))
      else s.(run := Ended(false, unimplemented))
    case Publish => s.(stream := Some(s.run.c), run := Serving(s.run.c))
    case StreamFails(unimplemented) => s.(run := Withdrawing(s.run.c, unimplemented))
    case Withdraw => s.(stream := None, run := Ended(true, s.run.unimplemented))
    case Decide(cancelled) =>
      var connected := s.run.connected;
      if cancelled then s.(run := Over, pace := Tried(s.pace, Attempt(connected, Cancelled)))
      else if s.run.unimplemented then s.(fallback := true, run := Over, pace := Tried(s.pace, Attempt(connected, NotImplemented)))
      else s.(run := Waiting, pace := Waits(s.pace, connected))
    case Wake(cancelled) => s.(run := if cancelled then Over else Dialing, pace := Waked(s.pace, cancelled))
    case SendStart(n) => s.(senders := s.senders[n := if s.stream.None? then Done else Wants(s.stream.value)])
    case SendLock(n) => s.(senders := s.senders[n := Sending(s.senders[n].c)], sendMu := Some(n))
    case SendReturns(n, result) =>
      var c := s.senders[n].c;
      s.(senders := s.senders[n := if result.Dead? then Dropping(c) else Done], sendMu := None,
         sent := if result.Sent? then s.sent + [c] else s.sent)
    case Drop(n) =>
      s.(senders := s.senders[n := Done], stream := if s.stream == Some(s.senders[n].c) then None else s.stream)
  }

  /** After the first n actions; one that is not possible does nothing. */
  function RunUpTo(s: State, actions: seq<Action>, n: nat): State
    requires n <= |actions|
  {
    if n == 0 then s
    else
      var t := RunUpTo(s, actions, n - 1);
      if Enabled(t, actions[n - 1]) then Next(t, actions[n - 1]) else t
  }

  // ---------- what every interleaving keeps ----------

  predicate IsWelcomed(stages: seq<Stage>, c: nat) {
    c < |stages| && stages[c].Welcomed?
  }

  /** The stream an attempt has open. */
  function OpenStream(run: RunPc): Option<nat> {
    match run
    case Greeting(c) => Some(c)
    case Hearing(c) => Some(c)
    case Publishing(c) => Some(c)
    case Serving(c) => Some(c)
    case Withdrawing(c, _) => Some(c)
    case _ => None
  }

  predicate RunSound(stages: seq<Stage>, run: RunPc) {
    match run
    case Greeting(c) => c < |stages| && stages[c].Opened?
    case Hearing(c) => c < |stages| && stages[c].HelloSent?
    case Publishing(c) => IsWelcomed(stages, c)
    case Serving(c) => IsWelcomed(stages, c)
    case Withdrawing(c, _) => IsWelcomed(stages, c)
    case _ => true
  }

  predicate SenderSound(stages: seq<Stage>, sendMu: Option<nat>, n: nat, pc: SendPc) {
    && (!pc.Done? ==> IsWelcomed(stages, pc.c))
    && (pc.Sending? ==> sendMu == Some(n))
  }

  predicate Inv(s: State) {
    && RunSound(s.stages, s.run)
    && (s.stream.Some? ==> (s.run.Serving? || s.run.Withdrawing?) && s.run.c == s.stream.value)
    && (s.fallback ==> s.run.Over?)
    && (forall n <- s.senders :: SenderSound(s.stages, s.sendMu, n, s.senders[n]))
    && (s.sendMu.Some? ==> s.sendMu.value in s.senders && s.senders[s.sendMu.value].Sending?)
    && (forall i :: 0 <= i < |s.sent| ==> IsWelcomed(s.stages, s.sent[i]))
  }

  predicate OfSender(a: Action) {
    a.SendStart? || a.SendLock? || a.SendReturns? || a.Drop?
  }

  lemma SenderStepKept(s: State, a: Action)
    requires Inv(s) && Enabled(s, a) && OfSender(a)
    ensures Inv(Next(s, a))
  {
  }

  lemma LoopStepKept(s: State, a: Action)
    requires Inv(s) && Enabled(s, a) && !OfSender(a)
    ensures Inv(Next(s, a))
  {
  }

  lemma StepKept(s: State, a: Action)
    requires Inv(s) && Enabled(s, a)
    ensures Inv(Next(s, a))
  {
    if OfSender(a) {
      SenderStepKept(s, a);
    } else {
      LoopStepKept(s, a);
    }
  }

  lemma {:induction false} RunKept(s: State, actions: seq<Action>, n: nat)
    requires Inv(s) && n <= |actions|
    ensures Inv(RunUpTo(s, actions, n))
    decreases n
  {
    if n == 0 {
    } else {
      RunKept(s, actions, n - 1);
      var t := RunUpTo(s, actions, n - 1);
      if Enabled(t, actions[n - 1]) {
        StepKept(t, actions[n - 1]);
      }
    }
  }

  // ---------- the main results ----------

  /** A published stream, and any a message went out on, has completed hello and welcome; nobody publishes in fallback. */
  lemma PublishedIsWelcomed(min: nat, max: nat, actions: seq<Action>)
    ensures var s := RunUpTo(Start(min, max), actions, |actions|);
            && (s.stream.Some? ==> IsWelcomed(s.stages, s.stream.value))
            && (forall i :: 0 <= i < |s.sent| ==> IsWelcomed(s.stages, s.sent[i]))
            && (s.fallback ==> s.stream.None? && OpenStream(s.run).None?)
  {
    RunKept(Start(min, max), actions, |actions|);
  }

  /** Fallback is for good: no stream is published again, or even opened. */
  lemma {:induction false} FallbackIsPermanent(min: nat, max: nat, actions: seq<Action>, m: nat, n: nat)
    requires m <= n <= |actions| && RunUpTo(Start(min, max), actions, m).fallback
    ensures var s, t := RunUpTo(Start(min, max), actions, m), RunUpTo(Start(min, max), actions, n);
            t.fallback && t.stream.None? && t.run.Over? && t.stages == s.stages
    decreases n
  {
    RunKept(Start(min, max), actions, n);
    if m == n {
    } else {
      FallbackIsPermanent(min, max, actions, m, n - 1);
    }
  }

  /** Only the end of a stream, or a failed send on that very stream, takes it away. */
  lemma OnlyItsOwnFailureDrops(min: nat, max: nat, actions: seq<Action>, a: Action)
    requires var s := RunUpTo(Start(min, max), actions, |actions|); Enabled(s, a) && s.stream.Some? && Next(s, a).stream != s.stream
    ensures var s := RunUpTo(Start(min, max), actions, |actions|);
            && Next(s, a).stream.None?
            && ((a.Withdraw? && s.run.c == s.stream.value) || (a.Drop? && s.senders[a.n] == Dropping(s.stream.value)))
  {
    RunKept(Start(min, max), actions, |actions|);
  }

  /** One Send at a time, and none on a stream whose hello is still to go out. */
  lemma OneSendAtATime(min: nat, max: nat, actions: seq<Action>, n: nat, m: nat)
    requires var s := RunUpTo(Start(min, max), actions, |actions|); n in s.senders && m in s.senders && s.senders[n].Sending? && s.senders[m].Sending?
    ensures var s := RunUpTo(Start(min, max), actions, |actions|);
            n == m && s.run != Greeting(s.senders[n].c)
  {
    RunKept(Start(min, max), actions, |actions|);
    var s := RunUpTo(Start(min, max), actions, |actions|);
    assert SenderSound(s.stages, s.sendMu, n, s.senders[n]) && SenderSound(s.stages, s.sendMu, m, s.senders[m]);
  }

  // ---------- the waits between attempts ----------

  /** backoff before the wait of attempt i. */
  function Backoff(attempts: seq<Attempt>, i: nat, min: nat, max: nat): nat
    requires i < |attempts|
  {
    if attempts[i].connected || i == 0 then min else Doubled(Backoff(attempts, i - 1, min, max), max)
  }

  /** The waits are the backoffs of the first attempts, which all failed but perhaps the last one waited for. */
  predicate Waited(waits: seq<nat>, attempts: seq<Attempt>, min: nat, max: nat) {
    && |waits| <= |attempts|
    && (forall i :: 0 <= i < |waits| ==> waits[i] == Backoff(attempts, i, min, max))
    && (forall i :: 0 <= i < |waits| - 1 ==> attempts[i].end.Failed?)
  }

  /** What backoff is when attempt i begins. */
  function Carried(attempts: seq<Attempt>, i: nat, min: nat, max: nat): nat
    requires i <= |attempts|
  {
    if i == 0 then min else Doubled(Backoff(attempts, i - 1, min, max), max)
  }

  lemma CarriedOn(attempts: seq<Attempt>, i: nat, min: nat, max: nat)
    requires i < |attempts|
    ensures Backoff(attempts, i, min, max) == if attempts[i].connected then min else Carried(attempts, i, min, max)
  {
  }

  /** run's loop over the attempts as they turn out: the waits it makes, and whether it ends in fallback. */
  method run(attempts: seq<Attempt>, backoffMin: nat, backoffMax: nat) returns (waits: seq<nat>, fallback: bool)
    ensures Waited(waits, attempts, backoffMin, backoffMax)
    ensures |waits| < |attempts| ==>
              || (attempts[|waits|].end.NotImplemented? && fallback)
              || (attempts[|waits|].end.Cancelled? && !fallback)
              || (|waits| > 0 && attempts[|waits| - 1].end.CancelledInWait? && !fallback)
    ensures |waits| == |attempts| ==> !fallback
  {
    waits, fallback := [], false;
    var backoff := backoffMin;
    var i := 0;
    while i < |attempts|
      invariant 0 <= i <= |attempts| && |waits| == i && !fallback
      invariant Waited(waits, attempts, backoffMin, backoffMax)
      invariant i > 0 ==> attempts[i - 1].end.Failed?
      invariant backoff == Carried(attempts, i, backoffMin, backoffMax)
    {
      var end := attempts[i].end;
      if end.Cancelled? {
        return;
      }
      if end.NotImplemented? {
        fallback := true;
        return;
      }
      CarriedOn(attempts, i, backoffMin, backoffMax);
      if attempts[i].connected {
        backoff := backoffMin;
      }
      waits := waits + [backoff];
      if end.CancelledInWait? {
        return;
      }
      backoff := backoff * 2;
      if backoff > backoffMax {
        backoff := backoffMax;
      }
      i := i + 1;
    }
  }

  // ---------- the waits of the interleaved loop ----------

  /** Only whether the attempts reached welcome decides the backoffs. */
  lemma {:induction false} BackoffSame(a: seq<Attempt>, b: seq<Attempt>, i: nat, min: nat, max: nat)
    requires i < |a| && i < |b| && forall j :: 0 <= j <= i ==> a[j].connected == b[j].connected
    ensures Backoff(a, i, min, max) == Backoff(b, i, min, max)
  {
    if i == 0 {
    } else {
      BackoffSame(a, b, i - 1, min, max);
    }
  }

  predicate SameConnected(a: seq<Attempt>, b: seq<Attempt>) {
    |a| <= |b| && forall j :: 0 <= j < |a| ==> a[j].connected == b[j].connected
  }

  lemma BackoffsSame(a: seq<Attempt>, b: seq<Attempt>, min: nat, max: nat)
    requires SameConnected(a, b)
    ensures forall i :: 0 <= i < |a| ==> Backoff(a, i, min, max) == Backoff(b, i, min, max)
  {
    forall i | 0 <= i < |a|
      ensures Backoff(a, i, min, max) == Backoff(b, i, min, max)
    {
      BackoffSame(a, b, i, min, max);
    }
  }

  /** An attempt that had stream c, or none, reached welcome exactly when that stream is welcomed. */
  predicate Tied(stages: seq<Stage>, c: Option<nat>, connected: bool) {
    && (c.Some? ==> c.value < |stages|)
    && (connected <==> c.Some? && IsWelcomed(stages, c.value))
  }

  predicate AllTied(stages: seq<Stage>, attempts: seq<Attempt>, streams: seq<Option<nat>>) {
    && |streams| == |attempts|
    && (forall i :: 0 <= i < |streams| ==> Tied(stages, streams[i], attempts[i].connected))
    && (forall i, j :: 0 <= i < j < |streams| && streams[i].Some? ==> streams[i] != streams[j])
  }

  /** No attempt before had this stream. */
  predicate FirstWith(streams: seq<Option<nat>>, c: Option<nat>) {
    c.Some? ==> forall i :: 0 <= i < |streams| ==> streams[i] != c
  }

  /** The attempt in progress: its stream is nobody else's. */
  predicate OwnStream(s: State) {
    && (OpenStream(s.run).Some? ==> s.pace.dialled == OpenStream(s.run) && FirstWith(s.pace.streams, s.pace.dialled))
    && (s.run.Ended? ==> Tied(s.stages, s.pace.dialled, s.run.connected) && FirstWith(s.pace.streams, s.pace.dialled))
  }

  predicate AllFailed(attempts: seq<Attempt>, n: nat)
    requires n <= |attempts|
  {
    forall i :: 0 <= i < n ==> attempts[i].end.Failed?
  }

  /** The waits so far, and the backoff the loop carries on with. */
  predicate Paced(run: RunPc, fallback: bool, p: Pace) {
    && Waited(p.waits, p.attempts, p.backoffMin, p.backoffMax)
    && (run.Over? ==> p.attempts != [] && AllFailed(p.attempts, |p.attempts| - 1) && !p.attempts[|p.attempts| - 1].end.Failed?)
    && (!run.Over? ==> |p.waits| == |p.attempts| && AllFailed(p.attempts, |p.attempts|))
    && (run.Waiting? ==> p.attempts != [] && p.backoff == p.waits[|p.waits| - 1])
    && (!run.Over? && !run.Waiting? ==> p.backoff == Carried(p.attempts, |p.attempts|, p.backoffMin, p.backoffMax))
    && (fallback <==> p.attempts != [] && p.attempts[|p.attempts| - 1].end.NotImplemented?)
  }

  predicate PaceInv(s: State) {
    Inv(s) && AllTied(s.stages, s.pace.attempts, s.pace.streams) && OwnStream(s) && Paced(s.run, s.fallback, s.pace)
  }

  lemma TriedPaced(p: Pace, attempt: Attempt)
    requires Paced(Dialing, false, p) && !attempt.end.Failed?
    ensures Paced(Over, attempt.end.NotImplemented?, Tried(p, attempt))
  {
    BackoffsSame(p.attempts, Tried(p, attempt).attempts, p.backoffMin, p.backoffMax);
  }

  lemma WaitsPaced(p: Pace, connected: bool)
    requires Paced(Dialing, false, p)
    ensures Paced(Waiting, false, Waits(p, connected))
  {
    var q := Waits(p, connected);
    BackoffsSame(p.attempts, q.attempts, p.backoffMin, p.backoffMax);
    CarriedOn(q.attempts, |p.attempts|, p.backoffMin, p.backoffMax);
  }

  lemma WakedPaced(p: Pace, cancelled: bool)
    requires Paced(Waiting, false, p)
    ensures Paced(if cancelled then Over else Dialing, false, Waked(p, cancelled))
  {
    if cancelled {
      BackoffsSame(p.attempts, Waked(p, cancelled).attempts, p.backoffMin, p.backoffMax);
    }
  }

  lemma StepPaced(s: State, a: Action)
    requires PaceInv(s) && Enabled(s, a)
    ensures Paced(Next(s, a).run, Next(s, a).fallback, Next(s, a).pace)
  {
    if a.Decide? && (a.cancelled || s.run.unimplemented) {
      TriedPaced(s.pace, Attempt(s.run.connected, if a.cancelled then Cancelled else NotImplemented));
    } else if a.Decide? {
      WaitsPaced(s.pace, s.run.connected);
    } else if a.Wake? {
      WakedPaced(s.pace, a.cancelled);
    }
  }

  /** A step of stream c leaves the attempts that had others. */
  lemma OthersTied(stages: seq<Stage>, after: seq<Stage>, attempts: seq<Attempt>, streams: seq<Option<nat>>, c: nat)
    requires AllTied(stages, attempts, streams) && FirstWith(streams, Some(c)) && |stages| <= |after|
    requires forall k :: 0 <= k < |stages| && k != c ==> after[k] == stages[k]
    ensures AllTied(after, attempts, streams)
  {
  }

  /** The attempt that ends has its own stream. */
  lemma TriedTied(stages: seq<Stage>, attempts: seq<Attempt>, streams: seq<Option<nat>>, attempt: Attempt, c: Option<nat>)
    requires AllTied(stages, attempts, streams) && FirstWith(streams, c) && Tied(stages, c, attempt.connected)
    ensures AllTied(stages, attempts + [attempt], streams + [c])
  {
  }

  /** A stream that is opened now is nobody's yet. */
  lemma NewStream(stages: seq<Stage>, attempts: seq<Attempt>, streams: seq<Option<nat>>)
    requires AllTied(stages, attempts, streams)
    ensures FirstWith(streams, Some(|stages|))
  {
    forall i | 0 <= i < |streams|
      ensures streams[i] != Some(|stages|)
    {
      assert Tied(stages, streams[i], attempts[i].connected);
    }
  }

  predicate StillTied(s: State) {
    AllTied(s.stages, s.pace.attempts, s.pace.streams)
  }

  lemma StreamsTied(s: State, a: Action)
    requires PaceInv(s) && Enabled(s, a) && (a.Dial? || a.Hello? || a.Hear?)
    ensures StillTied(Next(s, a))
  {
    if a.Dial? {
      NewStream(s.stages, s.pace.attempts, s.pace.streams);
      OthersTied(s.stages, Next(s, a).stages, s.pace.attempts, s.pace.streams, |s.stages|);
    } else {
      OthersTied(s.stages, Next(s, a).stages, s.pace.attempts, s.pace.streams, s.run.c);
    }
  }

  lemma DecideTied(s: State, a: Action)
    requires PaceInv(s) && Enabled(s, a) && a.Decide?
    ensures StillTied(Next(s, a))
  {
    var p := Next(s, a).pace;
    TriedTied(s.stages, s.pace.attempts, s.pace.streams, p.attempts[|s.pace.attempts|], s.pace.dialled);
  }

  lemma WakeTied(s: State, a: Action)
    requires PaceInv(s) && Enabled(s, a) && a.Wake?
    ensures StillTied(Next(s, a))
  {
    var p := Next(s, a).pace;
    assert forall i :: 0 <= i < |p.attempts| ==> p.attempts[i].connected == s.pace.attempts[i].connected;
  }

  lemma StepTied(s: State, a: Action)
    requires PaceInv(s) && Enabled(s, a)
    ensures StillTied(Next(s, a))
  {
    if a.Dial? || a.Hello? || a.Hear? {
      StreamsTied(s, a);
    } else if a.Decide? {
      DecideTied(s, a);
    } else if a.Wake? {
      WakeTied(s, a);
    }
  }

  lemma StepOwnsStream(s: State, a: Action)
    requires PaceInv(s) && Enabled(s, a)
    ensures OwnStream(Next(s, a))
  {
    if a.Dial? {
      NewStream(s.stages, s.pace.attempts, s.pace.streams);
    }
  }

  lemma StepKeepsPace(s: State, a: Action)
    requires PaceInv(s) && Enabled(s, a)
    ensures PaceInv(Next(s, a)) && Next(s, a).pace.backoffMin == s.pace.backoffMin && Next(s, a).pace.backoffMax == s.pace.backoffMax
  {
    StepKept(s, a);
    StepPaced(s, a);
    StepTied(s, a);
    StepOwnsStream(s, a);
  }

  lemma {:induction false} RunPaced(min: nat, max: nat, actions: seq<Action>, n: nat)
    requires n <= |actions|
    ensures PaceInv(RunUpTo(Start(min, max), actions, n))
    ensures var p := RunUpTo(Start(min, max), actions, n).pace; p.backoffMin == min && p.backoffMax == max
    decreases n
  {
    if n == 0 {
    } else {
      RunPaced(min, max, actions, n - 1);
      var s := RunUpTo(Start(min, max), actions, n - 1);
      if Enabled(s, actions[n - 1]) {
        StepKeepsPace(s, actions[n - 1]);
      }
    }
  }

  function Pow2(n: nat): (p: nat)
    ensures p > 0
  {
    if n == 0 then 1 else 2 * Pow2(n - 1)
  }

  /** Which wait in a row this is: one that reached welcome starts over. */
  function InARow(attempts: seq<Attempt>, i: nat): (k: nat)
    requires i < |attempts|
    ensures k > 0
  {
    if attempts[i].connected || i == 0 then 1 else InARow(attempts, i - 1) + 1
  }

  function CappedBackoff(attempts: seq<Attempt>, i: nat, min: nat, max: nat): int
    requires i < |attempts|
  {
    Min(min * Pow2(InARow(attempts, i) - 1), max)
  }

  lemma {:induction false} BackoffIsCapped(attempts: seq<Attempt>, i: nat, min: nat, max: nat)
    requires i < |attempts| && min <= max
    ensures Backoff(attempts, i, min, max) == CappedBackoff(attempts, i, min, max)
  {
    if attempts[i].connected || i == 0 {
      assert min * Pow2(0) == min;
    } else {
      BackoffIsCapped(attempts, i - 1, min, max);
      var k := InARow(attempts, i - 1);
      DoubledProduct(min, Pow2(k - 1));
    }
  }

  lemma DoubledProduct(min: nat, p: nat)
    ensures min * (2 * p) == (min * p) * 2
  {
  }

  /** The k-th wait in a row is backoffMin times 2^(k-1), but no more than backoffMax: for every run exactly when backoffMin is no more than that either. */
  lemma BackoffFormulaIff(min: nat, max: nat)
    ensures min <= max <==> forall attempts: seq<Attempt>, i: nat :: i < |attempts| ==> Backoff(attempts, i, min, max) == CappedBackoff(attempts, i, min, max)
  {
    if min <= max {
      forall attempts: seq<Attempt>, i: nat | i < |attempts|
        ensures Backoff(attempts, i, min, max) == CappedBackoff(attempts, i, min, max)
      {
        BackoffIsCapped(attempts, i, min, max);
      }
    } else {
      var attempts := [Attempt(false, Failed)];
      assert min * Pow2(0) == min;
      assert Backoff(attempts, 0, min, max) != CappedBackoff(attempts, 0, min, max);
    }
  }

  /**
   In every interleaving: the waits are the backoffs of the attempts, where an
   attempt reached welcome exactly when its own stream was welcomed; they
   follow the capped doubling formula when backoffMin is no more than
   backoffMax; and the loop falls back exactly after an attempt that says the
   session is not implemented.
   */
  lemma WaitsOfARun(min: nat, max: nat, actions: seq<Action>)
    ensures var s := RunUpTo(Start(min, max), actions, |actions|);
            var p := s.pace;
            && Waited(p.waits, p.attempts, min, max)
            && (min <= max ==> forall i :: 0 <= i < |p.waits| ==> p.waits[i] == CappedBackoff(p.attempts, i, min, max))
            && |p.streams| == |p.attempts|
            && (forall i :: 0 <= i < |p.attempts| ==>
                  (p.attempts[i].connected <==> p.streams[i].Some? && IsWelcomed(s.stages, p.streams[i].value)))
            && (forall i, j :: 0 <= i < j < |p.streams| && p.streams[i].Some? ==> p.streams[i] != p.streams[j])
            && (s.fallback <==> p.attempts != [] && p.attempts[|p.attempts| - 1].end.NotImplemented?)
  {
    RunPaced(min, max, actions, |actions|);
    var p := RunUpTo(Start(min, max), actions, |actions|).pace;
    if min <= max {
      forall i | 0 <= i < |p.waits|
        ensures p.waits[i] == CappedBackoff(p.attempts, i, min, max)
      {
        BackoffIsCapped(p.attempts, i, min, max);
      }
    }
  }
}
