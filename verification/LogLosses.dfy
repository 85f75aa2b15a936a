/**
 Where a request's output is lost, and that text within the caps is not: over
 every run of LogShipping, exactly once and in order, with nothing said of the
 model's own flags.
 */
module LogLosses {
  import opened Bytes
  import Utf8
  import opened ShellDecoder
  import opened LogValues
  import opened LogShipping
  import opened LogDelivery
  import TextOutput

  // ---------- where output is lost ----------

  /** Decoded output that does not fit the tunnel's buffer. */
  predicate Overflows(s: State, a: Action, id: nat)
    requires s.Valid() && id in s.requests
  {
    a.Observe? && a.id == id && var t := s.requests[id].tunnel; |t.buf| + |Feed(t.decoder, a.chunk).1| > MAX_UNFLUSHED
  }

  /** A piece that is not UTF-8. */
  predicate NotText(s: State, a: Action, id: nat)
    requires s.Valid() && id in s.requests
  {
    || (a.Turn? && a.id == id && s.left > 0 && Taken(s.requests[id].tunnel, s.left, false).0.binary)
    || (a.FinishTake? && a.id == id && Taken(s.requests[id].tunnel, MAX_PIECE, true).0.binary)
  }

  /** A piece the pending list has no room for. */
  predicate Refused(s: State, a: Action, id: nat)
    requires id in s.requests
  {
    a.FinishRecord? && a.id == id && s.requests[id].phase.Ending? && !Accepts(s.log, PieceEntry(id, s.requests[id].phase.piece))
  }

  lemma LostObserving(s: State, k: nat, chunk: bytes, id: nat)
    requires Shape(s) && s.Valid() && Enabled(s, Observe(k, chunk)) && id in s.requests && !s.requests[id].lossy
    ensures Next(s, Observe(k, chunk)).requests[id].lossy <==> Overflows(s, Observe(k, chunk), id)
  {
  }

  lemma LostTaking(s: State, a: Action, id: nat)
    requires Shape(s) && s.Valid() && Enabled(s, a) && (a.Turn? || a.FinishTake?) && id in s.requests && !s.requests[id].lossy
    ensures Next(s, a).requests[id].lossy <==> NotText(s, a, id)
  {
  }

  lemma LostElsewhere(s: State, a: Action, id: nat)
    requires Shape(s) && s.Valid() && Enabled(s, a) && id in s.requests && !s.requests[id].lossy
    requires !a.Observe? && !a.Turn? && !a.FinishTake?
    ensures id in Next(s, a).requests && (Next(s, a).requests[id].lossy <==> Refused(s, a, id))
  {
    if a.Register? {
      assert Sound(id, s.nextID, s.requests[id]);
    }
  }

  /** A request starts losing output in exactly these steps. */
  lemma LostOnlyWhere(s: State, a: Action, id: nat)
    requires Shape(s) && s.Valid() && Enabled(s, a) && id in s.requests && !s.requests[id].lossy
    ensures id in Next(s, a).requests
    ensures Next(s, a).requests[id].lossy <==> Overflows(s, a, id) || NotText(s, a, id) || Refused(s, a, id)
  {
    if a.Observe? {
      LostObserving(s, a.id, a.chunk, id);
    } else if a.Turn? || a.FinishTake? {
      LostTaking(s, a, id);
    } else {
      LostElsewhere(s, a, id);
    }
  }

  // ---------- over a run ----------

  /** The state of a run after its first n actions; the release waits for the loop. */
  function At(actions: seq<Action>, n: nat): (s: State)
    requires n <= |actions|
    ensures s.Valid()
  {
    RunUpTo(Start(true), actions, n)
  }

  lemma InvAt(actions: seq<Action>, n: nat)
    requires n <= |actions|
    ensures Inv(At(actions, n)) && At(actions, n).closer
  {
    StartInv(true);
    RunKept(Start(true), actions, n);
  }

  /** The output of request id that a step decodes. */
  function OutputOf(s: State, a: Action, id: nat): bytes
    requires s.Valid() && id in s.requests
  {
    if a.Observe? && a.id == id then Feed(s.requests[id].tunnel.decoder, a.chunk).1 else []
  }

  /** The action is taken, and costs request id output because a cap is hit. */
  predicate HitsCap(s: State, a: Action, id: nat)
    requires s.Valid()
  {
    id in s.requests && Enabled(s, a) && (Overflows(s, a, id) || Refused(s, a, id))
  }

  /** The action takes a piece of request id that is not text. */
  predicate FindsBinary(s: State, a: Action, id: nat)
    requires s.Valid()
  {
    id in s.requests && Enabled(s, a) && NotText(s, a, id)
  }

  /** The action observes output of request id although finish has begun. */
  predicate ComesLate(s: State, a: Action, id: nat)
    requires s.Valid()
  {
    id in s.requests && !s.requests[id].phase.Running? && OutputOf(s, a, id) != []
  }

  /** A cap is hit in the first n actions. */
  predicate Capped(actions: seq<Action>, n: nat, id: nat)
    requires n <= |actions|
  {
    n > 0 && (Capped(actions, n - 1, id) || HitsCap(At(actions, n - 1), actions[n - 1], id))
  }

  /** A piece is called binary in the first n actions. */
  predicate CalledBinary(actions: seq<Action>, n: nat, id: nat)
    requires n <= |actions|
  {
    n > 0 && (CalledBinary(actions, n - 1, id) || FindsBinary(At(actions, n - 1), actions[n - 1], id))
  }

  /** Output comes late in the first n actions. */
  predicate Late(actions: seq<Action>, n: nat, id: nat)
    requires n <= |actions|
  {
    n > 0 && (Late(actions, n - 1, id) || ComesLate(At(actions, n - 1), actions[n - 1], id))
  }

  // ---------- one step ----------

  /** What a step does to a request: it stays one, and only ever loses more. */
  lemma StepAdvances(s: State, a: Action, id: nat)
    requires Shape(s) && s.Valid() && Enabled(s, a) && id in s.requests
    ensures id in Next(s, a).requests && Advances(s.requests[id], Next(s, a).requests[id])
  {
    if a.Register? {
      assert Sound(id, s.nextID, s.requests[id]);
    }
  }

  lemma StepDecodes(s: State, a: Action, id: nat)
    requires Shape(s) && s.Valid() && Enabled(s, a) && id in s.requests && id in Next(s, a).requests
    ensures Next(s, a).requests[id].decoded == s.requests[id].decoded + OutputOf(s, a, id)
  {
    if a.Register? {
      assert Sound(id, s.nextID, s.requests[id]);
    } else if !a.Observe? {
      OthersLeaveReply(s, a, id);
    }
  }

  lemma Cancel(a: bytes, b: bytes, rest: bytes)
    requires a + rest == b + rest
    ensures a == b
  {
    assert a == (a + rest)[..|a + rest| - |rest|] == (b + rest)[..|b + rest| - |rest|] == b;
  }

  // ---------- what has left the buffer is text ----------

  /** What is in custody of request id, and what finish has in hand, is well formed. */
  predicate Wellformed(custody: bytes, r: Request) {
    r.lossy || (Utf8.Valid(custody) && Utf8.Valid(r.InHand()))
  }

  /** Output that comes in goes to the buffer: nothing in custody or in hand has changed. */
  lemma InWellformed(c: bytes, r: Request, d: bytes, u: Request, out: bytes)
    requires Wellformed(c, r) && !r.lossy && Accounts(c, r) && Accounts(d, u)
    requires u.decoded == r.decoded + out && u.tunnel.buf == r.tunnel.buf + out && u.InHand() == r.InHand()
    ensures Wellformed(d, u)
  {
    assert c + r.InHand() + (r.tunnel.buf + out) == c + r.InHand() + r.tunnel.buf + out;
    Cancel(d + u.InHand(), c + r.InHand(), u.tunnel.buf);
    Cancel(d, c, r.InHand());
  }

  lemma PieceMoves(c: bytes, hand: bytes, buf: bytes, piece: bytes, rest: bytes)
    requires hand + buf == piece + rest
    ensures c + hand + buf == c + piece + [] + rest
  {
    assert c + hand + buf == c + (hand + buf);
    assert c + piece + [] + rest == c + (piece + rest);
  }

  /** A piece that is text goes from the buffer, or from hand, into custody. */
  lemma OutWellformed(c: bytes, r: Request, d: bytes, u: Request, piece: bytes)
    requires Wellformed(c, r) && !r.lossy && Accounts(c, r) && Accounts(d, u) && u.decoded == r.decoded
    requires r.InHand() + r.tunnel.buf == piece + u.tunnel.buf && u.InHand() == [] && Utf8.Valid(piece)
    ensures Wellformed(d, u)
  {
    PieceMoves(c, r.InHand(), r.tunnel.buf, piece, u.tunnel.buf);
    Cancel(d + [], c + piece + [], u.tunnel.buf);
    Cancel(d, c + piece, []);
    Utf8.ValidConcat(c, piece);
  }

  /** finish takes a piece that is text in hand. */
  lemma HandWellformed(c: bytes, r: Request, d: bytes, u: Request, piece: bytes)
    requires Wellformed(c, r) && !r.lossy && Accounts(c, r) && Accounts(d, u) && u.decoded == r.decoded
    requires r.InHand() == [] && r.tunnel.buf == piece + u.tunnel.buf && u.InHand() == piece && Utf8.Valid(piece)
    ensures Wellformed(d, u)
  {
    assert c + [] == c;
    assert c + (piece + u.tunnel.buf) == c + (piece + u.tunnel.buf);
    assert d + piece + u.tunnel.buf == d + (piece + u.tunnel.buf);
    Cancel(d, c, r.tunnel.buf);
  }

  /** A piece that is not called binary is text. */
  lemma TakenIsText(r: Request, max: nat, final: bool)
    requires !r.lossy && !r.tunnel.binary && r.tunnel.dropped == 0
    ensures var (t, piece) := Taken(r.tunnel, max, final);
            t.binary || (t.dropped == 0 && Utf8.Valid(piece) && piece + t.buf == r.tunnel.buf)
  {
  }

  /** The request of a step, before and after. */
  predicate Steps(s: State, a: Action, t: State, id: nat) {
    && s.Valid() && Enabled(s, a) && t == Next(s, a)
    && id in s.requests && id in t.requests && !t.requests[id].lossy && !s.requests[id].lossy
    && Sound(id, s.nextID, s.requests[id])
    && Accounts(Pieces(Custody(s), id), s.requests[id]) && Accounts(Pieces(Custody(t), id), t.requests[id])
    && Wellformed(Pieces(Custody(s), id), s.requests[id])
  }

  lemma ObserveWellformed(s: State, a: Action, t: State, id: nat)
    requires Steps(s, a, t, id) && a.Observe?
    ensures Wellformed(Pieces(Custody(t), id), t.requests[id])
  {
    var out := OutputOf(s, a, id);
    var r := s.requests[id];
    assert r.decoded + [] == r.decoded && r.tunnel.buf + [] == r.tunnel.buf;
    InWellformed(Pieces(Custody(s), id), r, Pieces(Custody(t), id), t.requests[id], out);
  }

  lemma TurnWellformed(s: State, a: Action, t: State, id: nat)
    requires Steps(s, a, t, id) && a.Turn? && a.id == id
    ensures Wellformed(Pieces(Custody(t), id), t.requests[id])
  {
    var r := s.requests[id];
    var piece := Taken(r.tunnel, s.left, false).1;
    TakenIsText(r, s.left, false);
    assert [] + r.tunnel.buf == r.tunnel.buf;
    OutWellformed(Pieces(Custody(s), id), r, Pieces(Custody(t), id), t.requests[id], piece);
  }

  lemma FinishTakeWellformed(s: State, a: Action, t: State, id: nat)
    requires Steps(s, a, t, id) && a.FinishTake? && a.id == id
    ensures Wellformed(Pieces(Custody(t), id), t.requests[id])
  {
    var r := s.requests[id];
    var piece := Taken(r.tunnel, MAX_PIECE, true).1;
    TakenIsText(r, MAX_PIECE, true);
    HandWellformed(Pieces(Custody(s), id), r, Pieces(Custody(t), id), t.requests[id], piece);
  }

  lemma FinishRecordWellformed(s: State, a: Action, t: State, id: nat)
    requires Steps(s, a, t, id) && a.FinishRecord? && a.id == id
    ensures Wellformed(Pieces(Custody(t), id), t.requests[id])
  {
    var r := s.requests[id];
    OutWellformed(Pieces(Custody(s), id), r, Pieces(Custody(t), id), t.requests[id], r.phase.piece);
  }

  /** A step that is none of the request's own changes nothing of it. */
  lemma OtherSteps(s: State, a: Action, id: nat)
    requires Shape(s) && s.Valid() && Enabled(s, a) && id in s.requests
    requires a.Register? || a.BeginFinish? || !OnRequest(a) || (!a.Observe? && a.id != id)
    ensures id in Next(s, a).requests
    ensures var r, u := s.requests[id], Next(s, a).requests[id];
            && u.decoded == r.decoded && u.tunnel.buf == r.tunnel.buf && u.InHand() == r.InHand()
            && (u.phase.Ended? ==> r.phase.Ended?)
  {
    if a.Register? {
      assert Sound(id, s.nextID, s.requests[id]);
    }
  }

  lemma OtherWellformed(s: State, a: Action, t: State, id: nat)
    requires Steps(s, a, t, id) && Shape(s)
    requires a.Register? || a.BeginFinish? || !OnRequest(a) || (!a.Observe? && a.id != id)
    ensures Wellformed(Pieces(Custody(t), id), t.requests[id])
  {
    OtherSteps(s, a, id);
    var r := s.requests[id];
    assert r.decoded + [] == r.decoded && r.tunnel.buf + [] == r.tunnel.buf;
    InWellformed(Pieces(Custody(s), id), r, Pieces(Custody(t), id), t.requests[id], []);
  }

  lemma StepWellformed(s: State, a: Action, t: State, id: nat)
    requires Steps(s, a, t, id) && Shape(s)
    ensures Wellformed(Pieces(Custody(t), id), t.requests[id])
  {
    if a.Observe? {
      ObserveWellformed(s, a, t, id);
    } else if a.Turn? && a.id == id {
      TurnWellformed(s, a, t, id);
    } else if a.FinishTake? && a.id == id {
      FinishTakeWellformed(s, a, t, id);
    } else if a.FinishRecord? && a.id == id {
      FinishRecordWellformed(s, a, t, id);
    } else {
      OtherWellformed(s, a, t, id);
    }
  }

  /** The invariant's conservation, of a request that lost nothing. */
  lemma InvAccounts(s: State, id: nat)
    requires Inv(s) && id in s.requests && !s.requests[id].lossy
    ensures Sound(id, s.nextID, s.requests[id]) && Accounts(Pieces(Custody(s), id), s.requests[id])
  {
    assert Kept(Custody(s), id, s.requests[id]);
  }

  /** A request that was not there before the step: everything of it is empty. */
  lemma NewcomerWellformed(s: State, a: Action, id: nat)
    requires s.Valid() && Enabled(s, a) && id !in s.requests && id in Next(s, a).requests
    requires Inv(Next(s, a))
    ensures var t := Next(s, a); !t.requests[id].lossy && t.requests[id].phase.Running? && Wellformed(Pieces(Custody(t), id), t.requests[id])
  {
    var t := Next(s, a);
    assert a.Register? by {
      if !a.Register? && !a.Observe? {
        OthersLeaveReply(s, a, id);
      }
    }
    InvAccounts(t, id);
    var c := Pieces(Custody(t), id);
    assert c + [] + [] == c;
  }

  /** A step, taken or not. */
  lemma StepOn(s: State, a: Action, t: State, id: nat)
    requires s.Valid() && t == Attempt(s, a) && Inv(s) && Inv(t) && id in t.requests
    requires id in s.requests ==> Wellformed(Pieces(Custody(s), id), s.requests[id])
    ensures Wellformed(Pieces(Custody(t), id), t.requests[id])
  {
    if Enabled(s, a) {
      if id !in s.requests {
        NewcomerWellformed(s, a, id);
      } else if !t.requests[id].lossy {
        StepAdvances(s, a, id);
        InvAccounts(s, id);
        InvAccounts(t, id);
        StepWellformed(s, a, t, id);
      }
    }
  }

  /** On every run, what has left the buffer of a request that lost nothing is text. */
  lemma {:induction false} RunWellformed(actions: seq<Action>, n: nat, id: nat)
    requires n <= |actions| && id in At(actions, n).requests
    ensures Wellformed(Pieces(Custody(At(actions, n)), id), At(actions, n).requests[id])
    decreases n
  {
    if n == 0 {
    } else {
      InvAt(actions, n - 1);
      InvAt(actions, n);
      if id in At(actions, n - 1).requests {
        RunWellformed(actions, n - 1, id);
      }
      StepOn(At(actions, n - 1), actions[n - 1], At(actions, n), id);
    }
  }

  // ---------- text is never called binary ----------

  /** What is left in the buffer of text, and what is still to come, is text. */
  lemma RestIsText(c: bytes, r: Request, future: bytes)
    requires Wellformed(c, r) && Accounts(c, r) && !r.lossy && r.InHand() == []
    requires Utf8.Valid(r.decoded + future)
    ensures Utf8.Valid(r.tunnel.buf + future)
  {
    assert r.decoded + future == c + (r.tunnel.buf + future);
    Utf8.ValidRest(c, r.tunnel.buf + future);
  }

  /** No drain and no final take calls a request binary whose output so far is the beginning of a text. */
  lemma TextIsNotCalledBinary(s: State, a: Action, id: nat, future: bytes)
    requires s.Valid() && Enabled(s, a) && Inv(s) && id in s.requests && !s.requests[id].lossy
    requires Wellformed(Pieces(Custody(s), id), s.requests[id])
    requires Utf8.Valid(s.requests[id].decoded + future) && (s.requests[id].phase.Running? || future == [])
    ensures !NotText(s, a, id)
  {
    InvAccounts(s, id);
    var r := s.requests[id];
    if (a.Turn? || a.FinishTake?) && a.id == id {
      RestIsText(Pieces(Custody(s), id), r, future);
      if a.Turn? {
        TextOutput.TakenText(r.tunnel, s.left, future);
      } else {
        assert r.tunnel.buf + [] == r.tunnel.buf;
        TextOutput.TakenLastText(r.tunnel, MAX_PIECE);
      }
    }
  }

  /** The output so far is the beginning of a text that ends with future; nothing is to come once finish has begun. */
  predicate Begins(r: Request, future: bytes) {
    Utf8.Valid(r.decoded + future) && (r.phase.Running? || future == [])
  }

  /** What was to come before a step, when future is to come after it. */
  function ToCome(s: State, a: Action, id: nat, future: bytes): bytes
    requires s.Valid()
  {
    if id in s.requests && Enabled(s, a) then OutputOf(s, a, id) + future else future
  }

  /** The output of a step moves to what is to come. */
  lemma BeginsEarlier(r: Request, u: Request, out: bytes, future: bytes)
    requires u.decoded == r.decoded + out && Begins(u, future)
    requires r.phase.Running? || (!u.phase.Running? && out == [])
    ensures Begins(r, out + future)
  {
    assert r.decoded + out + future == r.decoded + (out + future);
  }

  lemma StepBegins(s: State, a: Action, id: nat, future: bytes)
    requires s.Valid() && Enabled(s, a) && Shape(s) && id in s.requests && id in Next(s, a).requests
    requires Begins(Next(s, a).requests[id], future) && !ComesLate(s, a, id)
    ensures Begins(s.requests[id], OutputOf(s, a, id) + future)
  {
    StepDecodes(s, a, id);
    StepAdvances(s, a, id);
    BeginsEarlier(s.requests[id], Next(s, a).requests[id], OutputOf(s, a, id), future);
  }

  lemma BeginsBefore(s: State, a: Action, t: State, id: nat, future: bytes)
    requires s.Valid() && t == Attempt(s, a) && Shape(s) && id in s.requests && id in t.requests
    requires Begins(t.requests[id], future) && !ComesLate(s, a, id)
    ensures Begins(s.requests[id], ToCome(s, a, id, future))
  {
    if Enabled(s, a) {
      StepBegins(s, a, id, future);
    }
  }

  /** A step that hits no cap costs text nothing. */
  lemma StepLosesNothing(s: State, a: Action, t: State, id: nat, future: bytes)
    requires s.Valid() && t == Attempt(s, a) && Inv(s) && id in s.requests && id in t.requests
    requires !s.requests[id].lossy && Wellformed(Pieces(Custody(s), id), s.requests[id])
    requires Begins(s.requests[id], future) && !HitsCap(s, a, id)
    ensures !t.requests[id].lossy
  {
    if Enabled(s, a) {
      TextIsNotCalledBinary(s, a, id, future);
      LostOnlyWhere(s, a, id);
    }
  }

  lemma NewcomerLosesNothing(s: State, a: Action, t: State, id: nat)
    requires s.Valid() && t == Attempt(s, a) && Inv(t) && id !in s.requests && id in t.requests
    ensures !t.requests[id].lossy && t.requests[id].phase.Running?
  {
    NewcomerWellformed(s, a, id);
  }

  lemma StepLoses(s: State, a: Action, t: State, id: nat)
    requires s.Valid() && t == Attempt(s, a) && Shape(s) && id in s.requests
    ensures id in t.requests
    ensures t.requests[id].lossy <==> s.requests[id].lossy || HitsCap(s, a, id) || FindsBinary(s, a, id)
  {
    if Enabled(s, a) {
      StepAdvances(s, a, id);
      if !s.requests[id].lossy {
        LostOnlyWhere(s, a, id);
      } else {
        assert Next(s, a).requests[id].lossy;
      }
    }
  }

  predicate BeginsAt(actions: seq<Action>, n: nat, id: nat, future: bytes)
    requires n <= |actions|
  {
    id in At(actions, n).requests ==> Begins(At(actions, n).requests[id], future)
  }

  predicate NothingLostAt(actions: seq<Action>, n: nat, id: nat)
    requires n <= |actions|
  {
    id in At(actions, n).requests ==> !At(actions, n).requests[id].lossy
  }

  function ToComeAt(actions: seq<Action>, n: nat, id: nat, future: bytes): bytes
    requires n < |actions|
  {
    ToCome(At(actions, n), actions[n], id, future)
  }

  lemma NextLosesNothing(actions: seq<Action>, n: nat, id: nat, future: bytes)
    requires n < |actions| && !HitsCap(At(actions, n), actions[n], id)
    requires NothingLostAt(actions, n, id) && BeginsAt(actions, n, id, ToComeAt(actions, n, id, future))
    ensures NothingLostAt(actions, n + 1, id)
  {
    var s, a, t := At(actions, n), actions[n], At(actions, n + 1);
    InvAt(actions, n);
    InvAt(actions, n + 1);
    if id in t.requests {
      if id in s.requests {
        RunWellformed(actions, n, id);
        StepLosesNothing(s, a, t, id, ToCome(s, a, id, future));
      } else {
        NewcomerLosesNothing(s, a, t, id);
      }
    }
  }

  lemma NextBegins(actions: seq<Action>, n: nat, id: nat, future: bytes)
    requires n < |actions| && BeginsAt(actions, n + 1, id, future) && !ComesLate(At(actions, n), actions[n], id)
    ensures BeginsAt(actions, n, id, ToComeAt(actions, n, id, future))
  {
    InvAt(actions, n);
    if id in At(actions, n).requests {
      StepLoses(At(actions, n), actions[n], At(actions, n + 1), id);
      BeginsBefore(At(actions, n), actions[n], At(actions, n + 1), id, future);
    }
  }

  /** A request whose output is the beginning of a text loses nothing as long as no cap is hit and finish comes last. */
  lemma {:induction false} NothingLost(actions: seq<Action>, n: nat, id: nat, future: bytes)
    requires n <= |actions| && !Capped(actions, n, id) && !Late(actions, n, id) && BeginsAt(actions, n, id, future)
    ensures NothingLostAt(actions, n, id)
    decreases n
  {
    if n == 0 {
    } else {
      NextBegins(actions, n - 1, id, future);
      NothingLost(actions, n - 1, id, ToComeAt(actions, n - 1, id, future));
      NextLosesNothing(actions, n - 1, id, future);
    }
  }

  // ---------- exactly when output is lost ----------

  lemma StepFindsNobody(s: State, a: Action, t: State, id: nat)
    requires s.Valid() && t == Attempt(s, a) && Shape(s) && id !in t.requests
    ensures id !in s.requests && !HitsCap(s, a, id) && !FindsBinary(s, a, id)
  {
    if id in s.requests {
      StepLoses(s, a, t, id);
    }
  }

  /** What has happened so far to a request is what its loss says; nothing has happened to one that is not there. */
  predicate LossExplained(s: State, id: nat, capped: bool, binary: bool) {
    if id in s.requests then s.requests[id].lossy <==> capped || binary else !capped && !binary
  }

  lemma StepExplained(s: State, a: Action, t: State, id: nat, capped: bool, binary: bool)
    requires s.Valid() && t == Attempt(s, a) && Inv(s) && Inv(t) && LossExplained(s, id, capped, binary)
    ensures LossExplained(t, id, capped || HitsCap(s, a, id), binary || FindsBinary(s, a, id))
  {
    if id in s.requests {
      StepLoses(s, a, t, id);
    } else if id in t.requests {
      NewcomerLosesNothing(s, a, t, id);
    } else {
      StepFindsNobody(s, a, t, id);
    }
  }

  lemma NextExplained(actions: seq<Action>, n: nat, id: nat)
    requires n < |actions| && LossExplained(At(actions, n), id, Capped(actions, n, id), CalledBinary(actions, n, id))
    ensures LossExplained(At(actions, n + 1), id, Capped(actions, n + 1, id), CalledBinary(actions, n + 1, id))
  {
    InvAt(actions, n);
    InvAt(actions, n + 1);
    StepExplained(At(actions, n), actions[n], At(actions, n + 1), id, Capped(actions, n, id), CalledBinary(actions, n, id));
  }

  lemma {:induction false} RunExplained(actions: seq<Action>, n: nat, id: nat)
    requires n <= |actions|
    ensures LossExplained(At(actions, n), id, Capped(actions, n, id), CalledBinary(actions, n, id))
    decreases n
  {
    if n == 0 {
    } else {
      RunExplained(actions, n - 1, id);
      NextExplained(actions, n - 1, id);
    }
  }

  /** On every run, a request has lost output exactly when some step hit a cap or took a piece of it that is not UTF-8. */
  lemma LossyIffSteps(actions: seq<Action>, n: nat, id: nat)
    requires n <= |actions| && id in At(actions, n).requests
    ensures At(actions, n).requests[id].lossy <==> Capped(actions, n, id) || CalledBinary(actions, n, id)
  {
    RunExplained(actions, n, id);
  }

  // ---------- once finish is over ----------

  predicate EmptyOnceEnded(s: State, id: nat) {
    id in s.requests && s.requests[id].phase.Ended? ==> s.requests[id].tunnel.buf == []
  }

  lemma NothingObserved(t: Tunnel)
    ensures Appended(t, []).buf == t.buf
  {
    var nothing: bytes := [];
    assert t.buf + nothing == t.buf && nothing[..0] == nothing;
  }

  /** Of the request's own steps, a take of finish alone ends it, and leaves nothing. */
  lemma OwnStepEndsEmpty(s: State, a: Action, id: nat)
    requires s.Valid() && Enabled(s, a) && Shape(s) && id in s.requests && !ComesLate(s, a, id) && EmptyOnceEnded(s, id)
    requires a.Observe? || ((a.Turn? || a.FinishTake? || a.FinishRecord?) && a.id == id)
    ensures EmptyOnceEnded(Next(s, a), id)
  {
    if a.FinishTake? {
      FinalTakeProgress(s.requests[id].tunnel);
    } else if a.Observe? && a.id == id {
      NothingObserved(s.requests[id].tunnel.(decoder := Observed(s.requests[id].tunnel, a.chunk).decoder));
    }
  }

  /** finish ends with an empty buffer, and nothing comes after it. */
  lemma StepEndsEmpty(s: State, a: Action, id: nat)
    requires s.Valid() && Enabled(s, a) && Shape(s) && id in s.requests && !ComesLate(s, a, id) && EmptyOnceEnded(s, id)
    ensures EmptyOnceEnded(Next(s, a), id)
  {
    if a.Observe? || ((a.Turn? || a.FinishTake? || a.FinishRecord?) && a.id == id) {
      OwnStepEndsEmpty(s, a, id);
    } else {
      OtherSteps(s, a, id);
    }
  }

  lemma AttemptEndsEmpty(s: State, a: Action, t: State, id: nat)
    requires s.Valid() && t == Attempt(s, a) && Inv(s) && Inv(t) && !ComesLate(s, a, id) && EmptyOnceEnded(s, id)
    ensures EmptyOnceEnded(t, id)
  {
    if id in s.requests {
      if Enabled(s, a) {
        StepEndsEmpty(s, a, id);
      }
    } else if id in t.requests {
      NewcomerLosesNothing(s, a, t, id);
    }
  }

  lemma NextEndsEmpty(actions: seq<Action>, n: nat, id: nat)
    requires n < |actions| && EmptyOnceEnded(At(actions, n), id) && !ComesLate(At(actions, n), actions[n], id)
    ensures EmptyOnceEnded(At(actions, n + 1), id)
  {
    InvAt(actions, n);
    InvAt(actions, n + 1);
    AttemptEndsEmpty(At(actions, n), actions[n], At(actions, n + 1), id);
  }

  lemma {:induction false} EndedIsEmpty(actions: seq<Action>, n: nat, id: nat)
    requires n <= |actions| && !Late(actions, n, id)
    ensures EmptyOnceEnded(At(actions, n), id)
    decreases n
  {
    if n == 0 {
    } else {
      EndedIsEmpty(actions, n - 1, id);
      NextEndsEmpty(actions, n - 1, id);
    }
  }

  /**
   A request that is over has lost output exactly when a cap was hit or its
   reply, decoded whole, is not UTF-8.
   */
  lemma LossyIffCappedOrNotText(actions: seq<Action>, id: nat)
    requires id in Run(Start(true), actions).requests && Run(Start(true), actions).requests[id].phase.Ended?
    requires !Late(actions, |actions|, id)
    ensures var r := Run(Start(true), actions).requests[id];
            r.lossy <==> Capped(actions, |actions|, id) || !Utf8.Valid(WholeReply(r).1)
  {
    var n := |actions|;
    var s := At(actions, n);
    var r := s.requests[id];
    InvAt(actions, n);
    RunDecodes(true, actions, n, id);
    LossyIffSteps(actions, n, id);
    EndedIsEmpty(actions, n, id);
    assert r.decoded + [] == r.decoded;
    if r.lossy {
      if !Capped(actions, n, id) && Utf8.Valid(r.decoded) {
        NothingLost(actions, n, id, []);
      }
    } else {
      RunWellformed(actions, n, id);
      InvAccounts(s, id);
      var c := Pieces(Custody(s), id);
      assert c + [] + [] == c;
    }
  }

  // ---------- the main results ----------

  /** No cap is hit for request id, nothing of it comes after its finish began, and its output is, or is the beginning of, a text. */
  predicate Textual(actions: seq<Action>, id: nat, future: bytes) {
    && !Capped(actions, |actions|, id) && !Late(actions, |actions|, id)
    && var s := Run(Start(true), actions);
       && id in s.requests && (s.requests[id].phase.Running? || future == [])
       && Utf8.Valid(WholeReply(s.requests[id]).1 + future)
  }

  /**
   For any number of tunnels and any run: the output of a request that is
   text, decoded from its whole reply, is in shipping order what is shipped,
   held and pending of it, then what finish has in hand, then what is still
   buffered. Nothing is in hand or buffered once it is over.
   */
  lemma ExactlyOnceInOrder(actions: seq<Action>, id: nat, future: bytes)
    requires Textual(actions, id, future)
    ensures var s := Run(Start(true), actions);
            var r := s.requests[id];
            && Pieces(s.shipped + s.loopHeld + s.releaseHeld + s.log.pending, id) + r.InHand() + r.tunnel.buf == WholeReply(r).1
            && (r.phase.Ended? ==> Pieces(s.shipped + s.loopHeld + s.releaseHeld + s.log.pending, id) == WholeReply(r).1)
  {
    var s := Run(Start(true), actions);
    var r := s.requests[id];
    RunDecodes(true, actions, |actions|, id);
    NothingLost(actions, |actions|, id, future);
    OutputAccountedFor(actions, id);
    if r.phase.Ended? {
      EndedIsEmpty(actions, |actions|, id);
      assert Pieces(Custody(s), id) + [] + [] == Pieces(Custody(s), id);
    }
  }

  lemma ShippedBegins(s: State, id: nat)
    ensures Pieces(s.shipped, id) <= Pieces(Custody(s), id)
  {
    assert Custody(s) == s.shipped + (s.loopHeld + s.releaseHeld + s.log.pending);
    PiecesConcat(s.shipped, s.loopHeld + s.releaseHeld + s.log.pending, id);
  }

  lemma BeginsWhole(shipped: bytes, custody: bytes, hand: bytes, buf: bytes, whole: bytes)
    requires shipped <= custody && custody + hand + buf == whole
    ensures shipped <= whole
  {
  }

  /** What the server has been sent of such a request is a prefix of its output. */
  lemma ShippedIsPrefix(actions: seq<Action>, id: nat, future: bytes)
    requires Textual(actions, id, future)
    ensures var s := Run(Start(true), actions);
            Pieces(s.shipped, id) <= WholeReply(s.requests[id]).1
  {
    ExactlyOnceInOrder(actions, id, future);
    var s := Run(Start(true), actions);
    var r := s.requests[id];
    ShippedBegins(s, id);
    BeginsWhole(Pieces(s.shipped, id), Pieces(Custody(s), id), r.InHand(), r.tunnel.buf, WholeReply(r).1);
  }
}
