/**
 Nobody waits for ever in HandOver: a reset holds its phone's mutex while it
 waits for a record's once, and a relay inside one once may wait for another,
 but somebody on the way can always move.
 */
module HandOverProgress {
  import opened Bytes
  import opened Names
  import opened HandOver
  import opened HandOverSafety

  /** A once under way has its relay inside, and records only look back. */
  predicate Linked(records: seq<Record>, relays: map<nat, Relay>) {
    && (forall r :: 0 <= r < |records| && records[r].once.Underway? ==> Inside(records[r].once.relay, r, relays))
    && (forall r :: 0 <= r < |records| && records[r].prev.Some? ==> records[r].prev.value < r)
  }

  predicate Inside(n: nat, r: nat, relays: map<nat, Relay>) {
    n in relays && relays[n].InOnce() && relays[n].rec == r
  }

  /** A relay outside any once changes. */
  lemma PutLinked(records: seq<Record>, relays: map<nat, Relay>, n: nat, u: Relay)
    requires Linked(records, relays) && (n in relays && relays[n].InOnce() ==> u.InOnce() && u.rec == relays[n].rec)
    ensures Linked(records, relays[n := u])
  {
  }

  lemma AnewLinked(s: State, n: nat, prev: Option<nat>)
    requires Linked(s.records, s.relays) && n in s.relays && !s.relays[n].InOnce()
    requires prev.Some? ==> prev.value < |s.records|
    ensures var t := RegisteredAnew(s, n, prev); Linked(t.records, t.relays)
  {
  }

  lemma LeftLinked(s: State, n: nat, once: Once)
    requires Linked(s.records, s.relays) && OneLister(s.records, s.relays)
    requires n in s.relays && s.relays[n].InOnce() && s.relays[n].rec < |s.records| && once.Settled?
    ensures var t := LeftOnce(s, n, once); Linked(t.records, t.relays)
  {
  }

  lemma EnteredLinked(s: State, n: nat)
    requires Linked(s.records, s.relays) && RelayMay(s, n, EnterOnce)
    ensures var t := RelayEnteredOnce(s, n); Linked(t.records, t.relays)
  {
    var t := RelayEnteredOnce(s, n);
    forall k | 0 <= k < |t.records| && t.records[k].once.Underway?
      ensures Inside(t.records[k].once.relay, k, t.relays)
    {
      if k != s.relays[n].rec || s.records[k].once.Settled? {
        assert Inside(s.records[k].once.relay, k, s.relays);
      }
    }
  }

  lemma NamedLinked(s: State, n: nat)
    requires Linked(s.records, s.relays) && Inv(s) && RelayMay(s, n, SettlePrev)
    ensures var t := RelayNamed(s, n); Linked(t.records, t.relays)
  {
  }

  lemma RelayLinked(s: State, n: nat, step: RelayStep)
    requires Linked(s.records, s.relays) && Inv(s) && RelayMay(s, n, step)
    ensures var t := RelayNext(s, n, step); Linked(t.records, t.relays)
  {
    var r := s.relays[n];
    match step
    case Store =>
      if r.phone !in s.relay {
        AnewLinked(s, n, None);
      } else {
        PutLinked(s.records, s.relays, n, RelayStored(s, n).relays[n]);
      }
    case Swap =>
      if r.phone in s.relay && s.relay[r.phone] == r.pc.seen {
        AnewLinked(s, n, Some(r.pc.seen));
      } else {
        PutLinked(s.records, s.relays, n, RelaySwapped(s, n).relays[n]);
      }
    case EnterOnce => EnteredLinked(s, n);
    case ListPhone(ok) =>
      if ok {
        PutLinked(s.records, s.relays, n, RelayListed(s, n, ok).relays[n]);
      } else {
        LeftLinked(s, n, Settled(None));
      }
    case SettlePrev => NamedLinked(s, n);
    case Join => PutLinked(s.records, s.relays, n, r.(pc := Joined));
    case Wait => PutLinked(s.records, s.relays, n, r.(pc := Waited));
    case OpenDevice => PutLinked(s.records, s.relays, n, r.(pc := Serving));
    case Issue(_) =>
    case End => PutLinked(s.records, s.relays, n, r.(pc := Ended));
  }

  lemma ResetLinked(s: State, id: ResetId, step: ResetStep)
    requires Linked(s.records, s.relays) && ResetMay(s, id, step)
    ensures var t := ResetNext(s, id, step); Linked(t.records, t.relays)
  {
  }

  lemma StepLinked(s: State, a: Action)
    requires Linked(s.records, s.relays) && Inv(s) && Enabled(s, a)
    ensures Linked(Next(s, a).records, Next(s, a).relays)
  {
    match a
    case RelayStart(n, phone, lock) => PutLinked(s.records, s.relays, n, Relay(phone, lock, Registering, 0));
    case RelayDoes(n, step) => RelayLinked(s, n, step);
    case ResetDoes(id, step) => ResetLinked(s, id, step);
    case _ => assert RelaysAlone(s, Next(s, a));
  }

  predicate LinkedUpTo(states: seq<State>, n: nat)
    requires n < |states|
  {
    forall i :: 0 <= i <= n ==> Linked(states[i].records, states[i].relays)
  }

  lemma StepAtLinked(states: seq<State>, i: nat)
    requires i + 1 < |states| && StepAt(states, i) && InvUpTo(states, i) && LinkedUpTo(states, i)
    ensures LinkedUpTo(states, i + 1)
  {
    var a :| Enabled(states[i], a) && states[i + 1] == Next(states[i], a);
    StepLinked(states[i], a);
  }

  lemma {:induction false} BehaviourLinked(states: seq<State>, n: nat)
    requires Behaviour(states) && n < |states|
    ensures LinkedUpTo(states, n)
    decreases n
  {
    if n == 0 {
    } else {
      BehaviourLinked(states, n - 1);
      BehaviourInv(states, n - 1);
      StepAtLinked(states, n - 1);
    }
  }

  lemma ReachableLinked(s: State)
    requires Reachable(s)
    ensures Linked(s.records, s.relays)
  {
    var states :| Behaviour(states) && s == states[|states| - 1];
    BehaviourLinked(states, |states| - 1);
  }

  /** A step out of a once. */
  predicate Leaving(step: RelayStep) {
    step == ListPhone(true) || step.SettlePrev?
  }

  /** A once that is under way: its relay can move, or one inside an earlier record's once can. */
  lemma {:induction false} SomeRelayMoves(s: State, r: nat) returns (n: nat, step: RelayStep)
    requires Inv(s) && Linked(s.records, s.relays) && r < |s.records| && s.records[r].once.Underway?
    ensures RelayMay(s, n, step) && Leaving(step) && s.relays[n].rec <= r
    decreases r
  {
    n := s.records[r].once.relay;
    assert Inside(n, r, s.relays);
    var prev := s.records[r].prev;
    if s.relays[n].pc.Listing? {
      step := ListPhone(true);
    } else if prev.None? || !s.records[prev.value].once.Underway? {
      step := SettlePrev;
    } else {
      n, step := SomeRelayMoves(s, prev.value);
    }
  }

  /** While any relay is inside a once, some relay inside one can move: they never wait for each other in a circle. */
  lemma OnceNeverStuck(s: State, n: nat) returns (m: nat, step: RelayStep)
    requires Reachable(s) && n in s.relays && s.relays[n].InOnce()
    ensures Enabled(s, RelayDoes(m, step)) && Leaving(step)
  {
    ReachableInv(s);
    ReachableLinked(s);
    RelayFitsNow(s, n);
    m, step := SomeRelayMoves(s, s.relays[n].rec);
  }

  /** A reset that holds a phone's mutex can move, or waits for a once that some relay can move out of. */
  lemma ResetNeverStuck(s: State, id: ResetId) returns (a: Action)
    requires Reachable(s) && id in s.resets && s.resets[id].Holding()
    ensures Enabled(s, a)
    ensures (a.ResetDoes? && a.id == id) || (a.RelayDoes? && Leaving(a.relay) && s.resets[id].pc.Settling?)
  {
    ReachableInv(s);
    ReachableLinked(s);
    ResetFitsNow(s, id);
    match s.resets[id].pc
    case Locked => a := ResetDoes(id, Load);
    case Loaded(_) => a := ResetDoes(id, Take);
    case Checking => a := ResetDoes(id, Check);
    case Acting(_, _) => a := ResetDoes(id, Finish);
    case Settling =>
      var r := s.resets[id].rec.value;
      if s.records[r].once.Underway? {
        var n, step := SomeRelayMoves(s, r);
        a := RelayDoes(n, step);
      } else {
        a := ResetDoes(id, Settle);
      }
  }
}
