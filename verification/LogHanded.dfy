/**
 How a run of LogShipping ends: the release gathers until a round finds
 nothing, and what it hands over then has everything the log has been given.
 */
module LogHanded {
  import opened Bytes
  import opened LogValues
  import opened LogShipping
  import opened LogDelivery
  import opened LogLosses

  /** The round that ends the gathering: it found nothing. */
  predicate FindsNothing(s: State, a: Action)
    requires s.Valid()
  {
    a.GatherRound? && Enabled(s, a) && Next(s, a).release.Gathered?
  }

  /** What the server has been sent, and what the release call will carry. */
  function Delivered(s: State): seq<Entry> {
    s.shipped + s.releaseHeld
  }

  /** The gathering is over. */
  predicate PastGathering(s: State) {
    s.release.Gathered? || s.release.LastDraining? || s.release.Handed?
  }

  // ---------- the round that finds nothing ----------

  /** After it, everything is delivered: nothing is held by the loop, nothing is pending. */
  lemma NothingLeft(s: State, a: Action)
    requires s.Valid() && Inv(s) && s.closer && FindsNothing(s, a) && Inv(Next(s, a))
    ensures var t := Next(s, a); t.loopHeld == [] && t.log.pending == [] && Custody(t) == Delivered(t)
  {
    var t := Next(s, a);
    assert s.log.pending[..0] == [] && s.log.pending[0..] == s.log.pending;
    assert t.shipped + [] == t.shipped;
    assert Delivered(t) + [] == Delivered(t);
  }

  lemma StepPastGathering(s: State, a: Action, t: State)
    requires s.Valid() && t == Attempt(s, a) && Shape(s) && PastGathering(t)
    ensures PastGathering(s) || FindsNothing(s, a)
  {
  }

  /** There was such a round. */
  lemma {:induction false} RoundThatFoundNothing(actions: seq<Action>, n: nat) returns (i: nat)
    requires n <= |actions| && PastGathering(At(actions, n))
    ensures i < n && FindsNothing(At(actions, i), actions[i])
    decreases n
  {
    if n == 0 {
      assert false;
    } else {
      InvAt(actions, n - 1);
      StepPastGathering(At(actions, n - 1), actions[n - 1], At(actions, n));
      if PastGathering(At(actions, n - 1)) {
        i := RoundThatFoundNothing(actions, n - 1);
      } else {
        i := n - 1;
      }
    }
  }

  // ---------- what is delivered stays ----------

  /** Once the release gathers, what is delivered only grows, at its end. */
  predicate DeliversMore(s: State, t: State) {
    !s.release.Waiting? ==> !t.release.Waiting? && t.shipped == s.shipped && s.releaseHeld <= t.releaseHeld
  }

  lemma StepDelivers(s: State, a: Action, t: State)
    requires s.Valid() && t == Attempt(s, a) && Shape(s)
    ensures DeliversMore(s, t)
  {
  }

  lemma {:induction false} RunDelivers(actions: seq<Action>, n: nat, m: nat)
    requires n <= m <= |actions|
    ensures DeliversMore(At(actions, n), At(actions, m))
    decreases m
  {
    if n == m {
    } else {
      RunDelivers(actions, n, m - 1);
      InvAt(actions, m - 1);
      StepDelivers(At(actions, m - 1), actions[m - 1], At(actions, m));
    }
  }

  /** A request that is over stays as it is. */
  predicate StaysOver(s: State, t: State, id: nat) {
    id in s.requests && s.requests[id].phase.Ended? ==>
      && id in t.requests && t.requests[id].phase.Ended? && t.requests[id].decoded == s.requests[id].decoded
      && (s.requests[id].lossy ==> t.requests[id].lossy)
  }

  lemma StepStaysOver(s: State, a: Action, t: State, id: nat)
    requires s.Valid() && t == Attempt(s, a) && Shape(s) && !ComesLate(s, a, id)
    ensures StaysOver(s, t, id)
  {
    if id in s.requests && s.requests[id].phase.Ended? && Enabled(s, a) {
      StepAdvances(s, a, id);
      StepDecodes(s, a, id);
      EndedStays(s, a, id);
      assert s.requests[id].decoded + [] == s.requests[id].decoded;
    }
  }

  lemma EndedStays(s: State, a: Action, id: nat)
    requires s.Valid() && Enabled(s, a) && Shape(s) && id in s.requests && s.requests[id].phase.Ended?
    ensures id in Next(s, a).requests && Next(s, a).requests[id].phase.Ended?
  {
    if a.Register? {
      assert Sound(id, s.nextID, s.requests[id]);
    }
  }

  lemma {:induction false} RunStaysOver(actions: seq<Action>, n: nat, m: nat, id: nat)
    requires n <= m <= |actions| && !Late(actions, m, id)
    ensures StaysOver(At(actions, n), At(actions, m), id) && !Late(actions, n, id)
    decreases m
  {
    if n == m {
    } else {
      RunStaysOver(actions, n, m - 1, id);
      InvAt(actions, m - 1);
      StepStaysOver(At(actions, m - 1), actions[m - 1], At(actions, m), id);
    }
  }

  lemma DeliveredPrefix(s: State, t: State, id: nat)
    requires t.shipped == s.shipped && s.releaseHeld <= t.releaseHeld
    ensures Through(Delivered(s)) <= Through(Delivered(t)) && Pieces(Delivered(s), id) <= Pieces(Delivered(t), id)
  {
    var more := t.releaseHeld[|s.releaseHeld|..];
    assert Delivered(t) == Delivered(s) + more;
    ThroughConcat(Delivered(s), more);
    PiecesConcat(Delivered(s), more, id);
  }

  predicate DeliversMoreOf(s: State, t: State, id: nat) {
    Through(Delivered(s)) <= Through(Delivered(t)) && Pieces(Delivered(s), id) <= Pieces(Delivered(t), id)
  }

  /** Since the round that found nothing. */
  lemma DeliveredSince(actions: seq<Action>, i: nat, id: nat)
    requires i < |actions| && FindsNothing(At(actions, i), actions[i])
    ensures At(actions, |actions|).loopHeld == []
    ensures DeliversMoreOf(At(actions, i + 1), At(actions, |actions|), id)
  {
    RunDelivers(actions, i + 1, |actions|);
    InvAt(actions, |actions|);
    DeliveredPrefix(At(actions, i + 1), At(actions, |actions|), id);
  }

  /** At s everything was delivered, and at t at least that. */
  predicate AllGathered(s: State, t: State, id: nat) {
    Custody(s) == Delivered(s) && t.loopHeld == [] && DeliversMoreOf(s, t, id)
  }

  lemma HasWhatWasRecorded(actions: seq<Action>, i: nat)
    requires i < |actions| && FindsNothing(At(actions, i), actions[i])
    ensures Through(Delivered(At(actions, i + 1))) == At(actions, i + 1).accepted
    ensures Custody(At(actions, i + 1)) == Delivered(At(actions, i + 1))
  {
    InvAt(actions, i);
    InvAt(actions, i + 1);
    NothingLeft(At(actions, i), actions[i]);
  }

  // ---------- the main results ----------

  /**
   When the release hands over, a round has found nothing, and everything
   accepted up to then has been shipped or goes with the release call, in the
   order it was accepted.
   */
  lemma HandedHasWhatWasRecorded(actions: seq<Action>) returns (i: nat)
    requires Run(Start(true), actions).release.Handed?
    ensures i < |actions| && FindsNothing(At(actions, i), actions[i])
    ensures At(actions, i + 1).accepted <= Through(Delivered(Run(Start(true), actions)))
  {
    i := RoundThatFoundNothing(actions, |actions|);
    DeliveredSince(actions, i, 0);
    HasWhatWasRecorded(actions, i);
  }

  /** Between what was delivered and what is in custody of a request. */
  lemma Between(before: bytes, now: bytes, rest: bytes)
    requires before <= now && now + rest == before
    ensures now == before
  {
    assert |now| <= |before|;
  }

  lemma DeliveredIsAll(s: State, t: State, id: nat, whole: bytes)
    requires Pieces(Custody(s), id) == whole == Pieces(Custody(t), id)
    requires AllGathered(s, t, id)
    ensures Pieces(Delivered(t), id) == whole
  {
    assert t.shipped + [] == t.shipped;
    assert Custody(t) == Delivered(t) + t.log.pending;
    PiecesConcat(Delivered(t), t.log.pending, id);
    Between(whole, Pieces(Delivered(t), id), Pieces(t.log.pending, id));
  }

  predicate EndedAt(actions: seq<Action>, n: nat, id: nat)
    requires n <= |actions|
  {
    id in At(actions, n).requests && At(actions, n).requests[id].phase.Ended?
  }

  predicate OverAt(actions: seq<Action>, n: nat, id: nat)
    requires n <= |actions|
  {
    EndedAt(actions, n, id) && !At(actions, n).requests[id].lossy
  }

  function OutputAt(actions: seq<Action>, n: nat, id: nat): bytes
    requires n <= |actions| && OverAt(actions, n, id)
  {
    At(actions, n).requests[id].decoded
  }

  /** What a request that is over, and lost nothing, has in custody. */
  lemma OverInCustody(actions: seq<Action>, n: nat, id: nat)
    requires n <= |actions| && !Late(actions, n, id) && OverAt(actions, n, id)
    ensures Pieces(Custody(At(actions, n)), id) == OutputAt(actions, n, id)
  {
    InvAt(actions, n);
    InvAccounts(At(actions, n), id);
    EndedIsEmpty(actions, n, id);
    var c := Pieces(Custody(At(actions, n)), id);
    assert c + [] + [] == c;
  }

  /** A request that ends up over without loss, and was over before, had its whole output in custody. */
  lemma WasInCustody(actions: seq<Action>, n: nat, m: nat, id: nat)
    requires n <= m <= |actions| && !Late(actions, m, id) && OverAt(actions, m, id)
    requires EndedAt(actions, n, id)
    ensures Pieces(Custody(At(actions, n)), id) == OutputAt(actions, m, id)
  {
    RunStaysOver(actions, n, m, id);
    OverInCustody(actions, n, id);
  }

  lemma GatheredSince(actions: seq<Action>, i: nat, id: nat)
    requires i < |actions| && FindsNothing(At(actions, i), actions[i])
    ensures AllGathered(At(actions, i + 1), At(actions, |actions|), id)
  {
    HasWhatWasRecorded(actions, i);
    DeliveredSince(actions, i, id);
  }

  lemma AllDelivered(actions: seq<Action>, n: nat, id: nat)
    requires n <= |actions| && AllGathered(At(actions, n), At(actions, |actions|), id)
    requires !Late(actions, |actions|, id) && OverAt(actions, |actions|, id)
    requires EndedAt(actions, n, id)
    ensures Pieces(Delivered(At(actions, |actions|)), id) == OutputAt(actions, |actions|, id)
  {
    WasInCustody(actions, n, |actions|, id);
    OverInCustody(actions, |actions|, id);
    DeliveredIsAll(At(actions, n), At(actions, |actions|), id, OutputAt(actions, |actions|, id));
  }

  /** Once over, and text to the end. */
  lemma TextIsOver(actions: seq<Action>, n: nat, id: nat)
    requires n <= |actions| && EndedAt(actions, n, id) && Textual(actions, id, [])
    ensures !Late(actions, |actions|, id) && OverAt(actions, |actions|, id)
    ensures OutputAt(actions, |actions|, id) == WholeReply(Run(Start(true), actions).requests[id]).1
  {
    RunDecodes(true, actions, |actions|, id);
    NothingLost(actions, |actions|, id, []);
    RunStaysOver(actions, n, |actions|, id);
  }

  lemma {:induction false} LateLater(actions: seq<Action>, n: nat, m: nat, id: nat)
    requires n <= m <= |actions| && !Late(actions, m, id)
    ensures !Late(actions, n, id)
    decreases m
  {
    if n == m {
    } else {
      LateLater(actions, n, m - 1, id);
    }
  }

  lemma EndedNext(actions: seq<Action>, n: nat, id: nat)
    requires n < |actions| && EndedAt(actions, n, id) && !Late(actions, |actions|, id)
    ensures EndedAt(actions, n + 1, id)
  {
    LateLater(actions, n + 1, |actions|, id);
    RunStaysOver(actions, n, n + 1, id);
  }

  /**
   A request that was over by the round that found nothing, whose output is
   text: once the release hands over, what was shipped and what goes with the
   release call are the whole of its output, once and in order.
   */
  lemma HandedHasTheOutput(actions: seq<Action>, i: nat, id: nat)
    requires i < |actions| && FindsNothing(At(actions, i), actions[i])
    requires EndedAt(actions, i, id) && Textual(actions, id, [])
    ensures var s := Run(Start(true), actions); Pieces(Delivered(s), id) == WholeReply(s.requests[id]).1
  {
    TextIsOver(actions, i, id);
    EndedNext(actions, i, id);
    GatheredSince(actions, i, id);
    AllDelivered(actions, i + 1, id);
  }
}
