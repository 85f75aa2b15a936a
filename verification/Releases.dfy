/**
 Any number of releases of one lock and of proxy shutdowns, and of other ways
 its port is closed, at the same time (scoped_port.go, Release, ShutdownAll,
 CloseScopedPort): who may be draining the log while the keepalive loop still
 runs.
 */
module Releases {

  /** Who drains the whole log of a port: a release, or a shutdown, which drains whatever its close says. */
  datatype Kind = Release | Shutdown

  datatype Stage =
    | Before
    | Looked(port: bool)       // has read the table: whether the port was in it
    | Waiting                  // took the port out of the table, waits for the keepalive loop
    | Draining(won: bool)      // in DrainAll; won: it took the port out
    | Over

  datatype Drainer = Drainer(kind: Kind, stage: Stage)

  /** The port in the table, the loop told to stop, the loop over, and the drainers. */
  datatype State = State(inTable: bool, stopping: bool, loopOver: bool, drainers: seq<Drainer>)

  datatype Action =
    | Look(i: nat)
    | Close(i: nat)
    | Resume(i: nat)
    | Finish(i: nat)
    | CloseElsewhere  // an expiry, or a heartbeat that says the lock is gone: nobody drains
    | LoopEnds(ownAccord: bool)

  predicate At(s: State, i: nat, stage: Stage) {
    i < |s.drainers| && s.drainers[i].stage == stage
  }

  predicate Enabled(s: State, a: Action) {
    match a
    case Look(i) => At(s, i, Before)
    case Close(i) => i < |s.drainers| && s.drainers[i].stage.Looked?
    case Resume(i) => At(s, i, Waiting) && s.loopOver
    case Finish(i) => i < |s.drainers| && s.drainers[i].stage.Draining?
    case CloseElsewhere => s.inTable
    case LoopEnds(ownAccord) => !s.loopOver && (s.stopping || ownAccord)
  }

  function With(s: State, i: nat, stage: Stage): State
    requires i < |s.drainers|
  {
    s.(drainers := s.drainers[i := s.drainers[i].(stage := stage)])
  }

  /** A shutdown leaves alone a port that is not in its snapshot of the table; a release closes and then has no log to drain. */
  function AfterLook(kind: Kind, inTable: bool): Stage {
    if kind.Shutdown? && !inTable then Over else Looked(inTable)
  }

  function Next(s: State, a: Action): State
    requires Enabled(s, a)
  {
    match a
    case Look(i) => With(s, i, AfterLook(s.drainers[i].kind, s.inTable))
    case Close(i) =>
      if s.inTable then With(s, i, Waiting).(inTable := false, stopping := true)
      else With(s, i, if s.drainers[i].stage.port then Draining(false) else Over)
    case Resume(i) => With(s, i, Draining(true))
    case Finish(i) => With(s, i, Over)
    case CloseElsewhere => s.(inTable := false, stopping := true)
    case LoopEnds(_) => s.(loopOver := true)
  }

  /** Releases, and then shutdowns, none of which has begun. */
  function Start(releases: nat, shutdowns: nat): State {
    State(true, false, false,
          seq(releases + shutdowns, i => Drainer(if i < releases then Release else Shutdown, Before)))
  }

  function RunUpTo(s: State, actions: seq<Action>, n: nat): State
    requires n <= |actions|
  {
    if n == 0 then s
    else
      var t := RunUpTo(s, actions, n - 1);
      if Enabled(t, actions[n - 1]) then Next(t, actions[n - 1]) else t
  }

  function Run(s: State, actions: seq<Action>): State {
    RunUpTo(s, actions, |actions|)
  }

  // ---------- one drainer ----------

  predicate Drains(s: State, i: nat) {
    i < |s.drainers| && s.drainers[i].stage.Draining?
  }

  /** Nobody drains beside anybody else: no two of the drainers, and none beside the loop. */
  predicate OneDrainer(s: State) {
    && (forall i, j :: 0 <= i < j < |s.drainers| ==> !(Drains(s, i) && Drains(s, j)))
    && (forall i :: 0 <= i < |s.drainers| && Drains(s, i) ==> s.loopOver)
  }

  /** It took the port out, and so waited for the loop. */
  predicate Won(stage: Stage) {
    stage.Waiting? || (stage.Draining? && stage.won)
  }

  predicate Inv(s: State) {
    && (s.inTable ==> forall i :: 0 <= i < |s.drainers| ==> s.drainers[i].stage.Before? || s.drainers[i].stage == Looked(true))
    && (forall i, j :: 0 <= i < j < |s.drainers| ==> !(Won(s.drainers[i].stage) && Won(s.drainers[j].stage)))
    && (forall i :: 0 <= i < |s.drainers| && s.drainers[i].stage == Draining(true) ==> s.loopOver)
  }

  lemma StepKept(s: State, a: Action)
    requires Inv(s) && Enabled(s, a)
    ensures Inv(Next(s, a)) && |Next(s, a).drainers| == |s.drainers|
  {
  }

  lemma {:induction false} RunKept(s: State, actions: seq<Action>, m: nat)
    requires Inv(s) && m <= |actions|
    ensures Inv(RunUpTo(s, actions, m)) && |RunUpTo(s, actions, m).drainers| == |s.drainers|
    decreases m
  {
    if m == 0 {
    } else {
      RunKept(s, actions, m - 1);
      var t := RunUpTo(s, actions, m - 1);
      if Enabled(t, actions[m - 1]) {
        StepKept(t, actions[m - 1]);
      }
    }
  }

  /** It drains, and found the port in the table but did not take it out: it did not wait. */
  predicate Overtaken(s: State, i: nat) {
    At(s, i, Draining(false))
  }

  /**
   For any number of releases and shutdowns and on any run: who took the port
   out drains alone, but for those that found it and were overtaken; without
   one of those there is one drainer.
   */
  lemma OneDrainerUnlessOvertaken(releases: nat, shutdowns: nat, actions: seq<Action>)
    ensures var s := Run(Start(releases, shutdowns), actions);
            && ((forall i :: 0 <= i < releases + shutdowns ==> !Overtaken(s, i)) ==> OneDrainer(s))
            && (forall i, j :: Drains(s, i) && Drains(s, j) && i != j ==> Overtaken(s, i) || Overtaken(s, j))
            && (forall i :: Drains(s, i) && !s.loopOver ==> Overtaken(s, i))
  {
    RunKept(Start(releases, shutdowns), actions, |actions|);
    var s := Run(Start(releases, shutdowns), actions);
    forall i | 0 <= i < |s.drainers| && Drains(s, i) && !Overtaken(s, i)
      ensures s.drainers[i].stage == Draining(true)
    {
      assert s.drainers[i].stage == Draining(s.drainers[i].stage.won);
    }
  }

  // ---------- for how many of them ----------

  /** One drainer and nobody else to close the port: it always takes the port out itself. */
  predicate Alone(s: State) {
    |s.drainers| == 1 && !Overtaken(s, 0) && (s.drainers[0].stage.Looked? || s.drainers[0].stage.Before? ==> s.inTable)
  }

  lemma {:induction false} AloneIsNotOvertaken(s: State, actions: seq<Action>, m: nat)
    requires m <= |actions| && CloseElsewhere !in actions && Alone(s)
    ensures Alone(RunUpTo(s, actions, m))
    decreases m
  {
    if m == 0 {
    } else {
      AloneIsNotOvertaken(s, actions, m - 1);
    }
  }

  predicate BothFind(actions: seq<Action>) {
    |actions| == 4 && actions[0] == Look(0) && actions[1] == Look(1) && actions[2] == Close(0) && actions[3] == Close(1)
  }

  /**
   Two find the port, two releases, two shutdowns or one of each; the first
   takes it out, and the second drains beside the loop.
   */
  lemma SecondIsOvertaken(s: State, actions: seq<Action>)
    requires |s.drainers| >= 2 && At(s, 0, Before) && At(s, 1, Before) && s.inTable && !s.loopOver && BothFind(actions)
    ensures !OneDrainer(Run(s, actions))
  {
    assert RunUpTo(s, actions, 0) == s;
    var s1 := RunUpTo(s, actions, 1);
    assert s1 == With(s, 0, Looked(true));
    var s2 := RunUpTo(s, actions, 2);
    assert s2 == With(s1, 1, Looked(true));
    var s3 := RunUpTo(s, actions, 3);
    assert s3 == With(s2, 0, Waiting).(inTable := false, stopping := true);
    assert Drains(RunUpTo(s, actions, 4), 1);
  }

  predicate FoundThenExpired(actions: seq<Action>) {
    |actions| == 3 && actions[0] == Look(0) && actions[1] == CloseElsewhere && actions[2] == Close(0)
  }

  /** A release or a shutdown finds the port, and an expiry takes it out: it drains beside the loop. */
  lemma ExpiryOvertakes(s: State, actions: seq<Action>)
    requires At(s, 0, Before) && s.inTable && !s.loopOver && FoundThenExpired(actions)
    ensures !OneDrainer(Run(s, actions))
  {
    assert RunUpTo(s, actions, 0) == s;
    var s1 := RunUpTo(s, actions, 1);
    assert s1 == With(s, 0, Looked(true));
    var s2 := RunUpTo(s, actions, 2);
    assert s2 == s1.(inTable := false, stopping := true);
    assert Drains(RunUpTo(s, actions, 3), 0);
  }

  /** Nobody releases, and a shutdown drains beside the loop all the same: an expiry comes between its snapshot and its close. */
  lemma ShutdownMeetsExpiry(actions: seq<Action>)
    requires FoundThenExpired(actions)
    ensures !OneDrainer(Run(Start(0, 1), actions))
  {
    ExpiryOvertakes(Start(0, 1), actions);
  }

  /**
   How many may release a lock or shut the proxy down at once: there is one
   drainer on every run exactly when there is none of them, or there is one
   and nothing else closes the port.
   */
  lemma OneDrainerIff(releases: nat, shutdowns: nat, elsewhere: bool)
    ensures (forall actions :: (elsewhere || CloseElsewhere !in actions) ==> OneDrainer(Run(Start(releases, shutdowns), actions)))
            <==> releases + shutdowns == 0 || (releases + shutdowns == 1 && !elsewhere)
  {
    var start := Start(releases, shutdowns);
    if releases + shutdowns == 0 || (releases + shutdowns == 1 && !elsewhere) {
      forall actions | elsewhere || CloseElsewhere !in actions
        ensures OneDrainer(Run(start, actions))
      {
        RunKept(start, actions, |actions|);
        if releases + shutdowns == 1 {
          AloneIsNotOvertaken(start, actions, |actions|);
        }
        OneDrainerUnlessOvertaken(releases, shutdowns, actions);
      }
    } else if elsewhere {
      var actions := [Look(0), CloseElsewhere, Close(0)];
      ExpiryOvertakes(start, actions);
    } else {
      var actions := [Look(0), Look(1), Close(0), Close(1)];
      SecondIsOvertaken(start, actions);
    }
  }
}
