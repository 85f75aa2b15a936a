/**
 What a relayed client's connection carries after the transport OKAY: the
 holder's side (adb_connection.go, tunnel; relay.go, RelayToDevice) and the
 owner's (ServeRelay), with everything that can fail on the way.
 */
module RelayStream {
  import opened Bytes
  import opened AdbFraming
  import opened Pump

  /** A gRPC error, or one that carries no status. */
  datatype Error = Unimplemented | Canceled | Other(message: bytes) | NoStatus(message: bytes)

  // "unknown device"
  const UNKNOWN_DEVICE: bytes := [0x75, 0x6E, 0x6B, 0x6E, 0x6F, 0x77, 0x6E, 0x20, 0x64, 0x65, 0x76, 0x69, 0x63, 0x65]

  /** refused: what the client is told, if anything, of an error before anything was relayed. */
  function RefusalOf(e: Error): Option<bytes> {
    match e
    case Unimplemented => Some(UNKNOWN_DEVICE)
    case Canceled => None
    case Other(message) => Some(message)
    case NoStatus(message) => Some(message)
  }

  /** WriteFail's one write: a whole frame, or nothing for a message the framing cannot carry. */
  function FailBytes(message: bytes): bytes {
    if FailFrame(message).Some? then FailFrame(message).value else []
  }

  datatype Owner =
    | NotJoined
    | Joined
    | FailSent    // the FAIL is in the tunnel, the half-close follows
    | Serving     // the device is open
    | Left

  datatype Holder =
    | Reading     // the device service
    | Asking      // for the tunnel to be accepted
    | Relaying
    | Gone

  datatype State = State(
    owner: Owner,
    holder: Holder,
    tunnel: seq<Msg>,  // what the owner has sent
    carried: nat,      // how many of those the holder has received
    fromDevice: bytes, // what the owner has received from the device
    client: bytes,     // what the client has been sent after the OKAY
    broken: bool)      // the client's connection broke in the middle of a write

  function Start(): State {
    State(NotJoined, Reading, [], 0, [], [], false)
  }

  datatype Action =
    // The owner
    | Join
    | GiveUp                    // relay_failed, or the tunnel died during the wait or the snapshot
    | FailInBand(message: bytes, ok: bool)
    | CloseAfterFail(ok: bool)
    | OpenDevice
    | DeviceSends(p: bytes, ok: bool)
    | DeviceEnds(ok: bool)
    // The holder
    | ClientLeft
    | ReverseRefused(message: bytes, write: Write)
    | Ask
    | Refused(e: Error, write: Write)
    | Accepted
    | Receive(write: Write)
    | TunnelEnds

  /** A write to the client: all of it, or the connection breaks after some of it. */
  datatype Write = Whole | Broken(sent: nat)

  predicate Enabled(s: State, a: Action) {
    match a
    case Join => s.owner.NotJoined?
    case GiveUp => s.owner.NotJoined? || s.owner.Joined?
    case FailInBand(_, _) => s.owner.Joined?
    case CloseAfterFail(_) => s.owner.FailSent?
    case OpenDevice => s.owner.Joined?
    case DeviceSends(p, _) => s.owner.Serving? && |p| > 0
    case DeviceEnds(_) => s.owner.Serving?
    case ClientLeft => s.holder.Reading?
    case ReverseRefused(_, _) => s.holder.Reading?
    case Ask => s.holder.Reading?
    case Refused(_, _) => s.holder.Asking?
    case Accepted => s.holder.Asking? && !s.owner.NotJoined?
    case Receive(_) => s.holder.Relaying? && s.carried < |s.tunnel|
    case TunnelEnds => s.holder.Relaying?
  }

  /** The client is sent p. */
  function Written(s: State, p: bytes, write: Write): State {
    match write
    case Whole => s.(client := s.client + p)
    case Broken(sent) => s.(client := s.client + p[..Min(sent, |p|)], broken := true, holder := Gone)
  }

  function Sends(s: State, m: Msg, ok: bool): State {
    if ok then s.(tunnel := s.tunnel + [m]) else s
  }

  function Next(s: State, a: Action): State
    requires Enabled(s, a)
  {
    match a
    case Join => s.(owner := Joined)
    case GiveUp => s.(owner := Left)
    case FailInBand(message, ok) => Sends(s, Data(FailBytes(message)), ok).(owner := if ok then FailSent else Left)
    case CloseAfterFail(ok) => Sends(s, HalfClose, ok).(owner := Left)
    case OpenDevice => s.(owner := Serving)
    case DeviceSends(p, ok) =>
      Sends(s.(fromDevice := s.fromDevice + p), Data(p), ok).(owner := if ok then Serving else Left)
    case DeviceEnds(ok) => Sends(s, HalfClose, ok).(owner := Left)
    case ClientLeft => s.(holder := Gone)
    case ReverseRefused(message, write) => Written(s, FailBytes(message), write).(holder := Gone)
    case Ask => s.(holder := Asking)
    case Refused(e, write) =>
      (match RefusalOf(e)
       case None => s.(holder := Gone)
       case Some(message) => Written(s, FailBytes(message), write).(holder := Gone))
    case Accepted => s.(holder := Relaying)
    case Receive(write) =>
      var t := s.(carried := s.carried + 1);
      (match s.tunnel[s.carried]
       case HalfClose => t
       case Data(p) => Written(t, p, write))
    case TunnelEnds => s.(holder := Gone)
  }

  /** After the first n actions; one that is not possible does nothing. */
  function RunUpTo(s: State, actions: seq<Action>, n: nat): State
    requires n <= |actions|
  {
    if n == 0 then s
    else
      var t := RunUpTo(s, actions, n - 1);
      if Enabled(t, actions[n - 1]) then Next(t, actions[n - 1]) else t
  }

  // ---------- what the client can have been sent ----------

  ghost predicate IsFail(p: bytes) {
    exists message :: FailFrame(message) == Some(p)
  }

  ghost predicate PartOfFail(p: bytes) {
    exists message :: FailFrame(message).Some? && p <= FailFrame(message).value
  }

  /** A whole FAIL and nothing else, or a beginning of what the device sent; a write that broke may have cut the FAIL short. */
  ghost predicate Honest(s: State) {
    s.client <= s.fromDevice || IsFail(s.client) || (s.broken && PartOfFail(s.client))
  }

  /** The tunnel: the owner's FAIL alone, or what the device sent. */
  ghost predicate TunnelHonest(s: State) {
    match s.owner
    case NotJoined => s.tunnel == [] && s.fromDevice == []
    case Joined => s.tunnel == [] && s.fromDevice == []
    case FailSent => FailTunnel(s.tunnel) && s.fromDevice == []
    case Serving => Sent(s.tunnel) == s.fromDevice
    case Left => Sent(s.tunnel) <= s.fromDevice || (FailTunnel(s.tunnel) && s.fromDevice == [])
  }

  ghost predicate FailTunnel(tunnel: seq<Msg>) {
    && |tunnel| > 0 && tunnel[0].Data?
    && (tunnel[0].p == [] || IsFail(tunnel[0].p))
    && forall i :: 0 < i < |tunnel| ==> tunnel[i].HalfClose?
  }

  /** While it relays, the client has what was carried. */
  ghost predicate Kept(s: State) {
    && TunnelHonest(s) && s.carried <= |s.tunnel|
    && (s.holder.Reading? || s.holder.Asking? ==> s.client == [] && s.carried == 0 && !s.broken)
    && (s.holder.Relaying? ==> s.client == SentUpTo(s.tunnel, s.carried) && !s.broken)
    && Honest(s)
  }

  lemma FailBytesIsFail(message: bytes)
    ensures FailBytes(message) == [] || IsFail(FailBytes(message))
  {
  }

  /** Writing a FAIL to a client that has been sent nothing. */
  lemma FailWritten(s: State, message: bytes, write: Write)
    requires Kept(s) && s.client == []
    ensures Kept(Written(s, FailBytes(message), write).(holder := Gone))
  {
    FailBytesIsFail(message);
    var f := FailBytes(message);
    assert [] + f == f;
    if write.Broken? && FailFrame(message).Some? {
      assert f[..Min(write.sent, |f|)] <= FailFrame(message).value;
    }
  }

  lemma FailPart(f: bytes, part: bytes)
    requires (f == [] || IsFail(f)) && part <= f
    ensures part == [] || PartOfFail(part)
  {
  }

  /** What the client has with the whole next message, or a part of it. */
  lemma NextMessage(s: State, part: bytes)
    requires TunnelHonest(s) && s.carried < |s.tunnel| && s.tunnel[s.carried].Data? && part <= s.tunnel[s.carried].p
    ensures var c := SentUpTo(s.tunnel, s.carried) + part;
            c <= s.fromDevice || if part == s.tunnel[s.carried].p then IsFail(c) else PartOfFail(c)
  {
    var n := s.carried;
    SentUpToIsPrefix(s.tunnel, n + 1);
    assert SentUpTo(s.tunnel, n) + part <= SentUpTo(s.tunnel, n + 1);
    if FailTunnel(s.tunnel) {
      assert n == 0 && [] + part == part;
      FailPart(s.tunnel[0].p, part);
    }
  }

  /** The client's side changes, the tunnel does not. */
  lemma ClientMoved(s: State, t: State)
    requires Kept(s) && s.carried < |s.tunnel|
    requires t == s.(carried := s.carried + 1, client := t.client, broken := t.broken, holder := t.holder)
    requires t.holder.Gone? || (t.holder.Relaying? && !t.broken && t.client == SentUpTo(s.tunnel, s.carried + 1))
    requires Honest(t)
    ensures Kept(t)
  {
  }

  /** The holder writes what the next message carries. */
  lemma ReceiveKept(s: State, write: Write)
    requires Kept(s) && Enabled(s, Receive(write))
    ensures Kept(Next(s, Receive(write)))
  {
    var m := s.tunnel[s.carried];
    if m.Data? {
      NextMessage(s, if write.Whole? then m.p else m.p[..Min(write.sent, |m.p|)]);
    } else {
      assert SentUpTo(s.tunnel, s.carried) + [] == SentUpTo(s.tunnel, s.carried);
    }
    ClientMoved(s, Next(s, Receive(write)));
  }

  /** The owner sends one more message. */
  lemma TunnelGrows(s: State, m: Msg)
    ensures Sent(s.tunnel + [m]) == Sent(s.tunnel) + Payload(m)
    ensures s.carried <= |s.tunnel| ==> SentUpTo(s.tunnel + [m], s.carried) == SentUpTo(s.tunnel, s.carried)
  {
    SentSnoc(s.tunnel, m);
    if s.carried <= |s.tunnel| {
      SentPrefix(s.tunnel, [m], s.carried);
    }
  }

  /** The owner's side changes, and the tunnel only grows: the client's side is as it was. */
  lemma OwnerMoved(s: State, t: State)
    requires Kept(s) && TunnelHonest(t) && s.fromDevice <= t.fromDevice
    requires t.holder == s.holder && t.carried == s.carried && t.client == s.client && t.broken == s.broken
    requires s.carried <= |t.tunnel| && SentUpTo(t.tunnel, s.carried) == SentUpTo(s.tunnel, s.carried)
    ensures Kept(t)
  {
  }

  lemma OwnerFailsKept(s: State, message: bytes, ok: bool)
    requires Kept(s) && s.owner.Joined?
    ensures Kept(Next(s, FailInBand(message, ok)))
  {
  }

  lemma DeviceSendsKept(s: State, p: bytes, ok: bool)
    requires Kept(s) && Enabled(s, DeviceSends(p, ok))
    ensures Kept(Next(s, DeviceSends(p, ok)))
  {
    TunnelGrows(s, Data(p));
    OwnerMoved(s, Next(s, DeviceSends(p, ok)));
  }

  lemma HalfClosedHonest(s: State)
    requires TunnelHonest(s) && (s.owner.FailSent? || s.owner.Serving?)
    ensures TunnelHonest(s.(tunnel := s.tunnel + [HalfClose], owner := Left))
  {
    TunnelGrows(s, HalfClose);
    assert Sent(s.tunnel) + [] == Sent(s.tunnel);
  }

  lemma OwnerEndsKept(s: State, a: Action, ok: bool)
    requires Kept(s) && Enabled(s, a) && (a == CloseAfterFail(ok) || a == DeviceEnds(ok))
    ensures Kept(Next(s, a))
  {
    if ok {
      HalfClosedHonest(s);
      TunnelGrows(s, HalfClose);
      OwnerMoved(s, s.(tunnel := s.tunnel + [HalfClose], owner := Left));
    } else {
      OwnerMoved(s, s.(owner := Left));
    }
  }

  lemma StepKept(s: State, a: Action)
    requires Kept(s) && Enabled(s, a)
    ensures Kept(Next(s, a))
  {
    match a
    case ReverseRefused(message, write) => FailWritten(s, message, write);
    case Refused(e, write) =>
      if RefusalOf(e).Some? {
        FailWritten(s, RefusalOf(e).value, write);
      }
    case Receive(write) => ReceiveKept(s, write);
    case FailInBand(message, ok) => OwnerFailsKept(s, message, ok);
    case DeviceSends(p, ok) => DeviceSendsKept(s, p, ok);
    case CloseAfterFail(ok) => OwnerEndsKept(s, a, ok);
    case DeviceEnds(ok) => OwnerEndsKept(s, a, ok);
    case _ =>
  }

  lemma {:induction false} RunKept(s: State, actions: seq<Action>, n: nat)
    requires Kept(s) && n <= |actions|
    ensures Kept(RunUpTo(s, actions, n))
    decreases n
  {
    if n == 0 {
    } else {
      RunKept(s, actions, n - 1);
      var t := RunUpTo(s, actions, n - 1);
      if Enabled(t, actions[n - 1]) {
        StepKept(t, actions[n - 1]);
      }
    }
  }

  // ---------- the main results ----------

  /**
   Over every failure of holder and owner: after the OKAY the client has been
   sent one whole FAIL and nothing else, or a beginning of what the device
   sent, unless its own connection broke in the middle of the FAIL.
   */
  lemma FailOrDevice(actions: seq<Action>)
    ensures var s := RunUpTo(Start(), actions, |actions|);
            s.client <= s.fromDevice || IsFail(s.client) || (s.broken && PartOfFail(s.client))
  {
    RunKept(Start(), actions, |actions|);
  }

  /** And once a device byte has come, it is no FAIL any more: the client gets the device's bytes only. */
  lemma NoFailAfterDevice(actions: seq<Action>)
    ensures var s := RunUpTo(Start(), actions, |actions|);
            s.holder.Relaying? && s.fromDevice != [] ==> s.client <= s.fromDevice
  {
    RunKept(Start(), actions, |actions|);
    var s := RunUpTo(Start(), actions, |actions|);
    if s.holder.Relaying? && s.fromDevice != [] {
      SentUpToIsPrefix(s.tunnel, s.carried);
    }
  }

  /** A FAIL reads back as its message. */
  lemma FailIsReadable(p: bytes)
    requires IsFail(p)
    ensures exists message :: ReadReply(p) == AdbFraming.Refused(FAIL, message)
  {
    var message :| FailFrame(message) == Some(p);
    FailReadsBack(message, []);
    assert p + [] == p;
  }

  // ---------- the look-ahead on the owner's leg ----------

  /** recvAheadStream: the tunnel's first Recv runs from the start, its result is handed over first. */
  class RecvAhead {
    var incoming: seq<Recv>  // what the tunnel will still give
    var first: Option<Recv>  // the first Recv's result, once it has returned
    var taken: bool

    /** What Recv will give, from now on. */
    ghost function Remaining(): seq<Recv>
      reads this
    {
      if first.Some? && !taken then [first.value] + incoming else incoming
    }

    constructor (incoming: seq<Recv>)
      ensures Remaining() == incoming && first == None && !taken
    {
      this.incoming, first, taken := incoming, None, false;
    }

    /** The Recv that runs from the start returns. */
    method firstReturns()
      requires first.None? && !taken && |incoming| > 0
      modifies this
      ensures first.Some? && !taken && Remaining() == old(Remaining())
    {
      first := Some(incoming[0]);
      incoming := incoming[1..];
    }

    /** Whether the first Recv has seen the end, which whoever receives next will still get. */
    method failed() returns (dead: bool)
      ensures dead <==> first.Some? && !first.value.Chunk?
      ensures first.Some? && !taken ==> |Remaining()| > 0 && (dead <==> !Remaining()[0].Chunk?)
    {
      dead := first.Some? && !first.value.Chunk?;
    }

    /** Recv gives everything once and in order, as if nothing had been read ahead. */
    method Recv() returns (r: Recv)
      requires if taken then |incoming| > 0 else first.Some?
      modifies this
      ensures taken && |old(Remaining())| > 0
      ensures r == old(Remaining())[0] && Remaining() == old(Remaining())[1..]
    {
      if taken {
        r := incoming[0];
        incoming := incoming[1..];
        return;
      }
      taken := true;
      r := first.value;
    }
  }
}
