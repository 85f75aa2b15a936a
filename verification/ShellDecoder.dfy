/**
 The reply decoder of a tunnel observer (lock_log.go, observe), as a byte-wise
 automaton, and the shell-v2 packet writer it inverts (adb_protocol.go).
 */
module ShellDecoder {
  import opened Bytes

  const STDOUT: byte := 1
  const STDERR: byte := 2

  /** Where the decoder is in a reply. */
  datatype Decoder = Decoder(
    capture: bool,  // output is being looked for
    v2: bool,       // it is framed
    status: bytes,  // OKAY or FAIL, so far
    skip: nat,
    hdr: bytes,     // id and length of the next frame, so far
    left: nat,      // how much of the frame's payload is still to come
    keep: bool)     // and whether it is output
  {
    predicate Valid() {
      |status| <= 4 && |hdr| < 5
    }
  }

  function Fresh(capture: bool, v2: bool): (d: Decoder)
    ensures d.Valid()
  {
    Decoder(capture, v2, [], 0, [], 0, false)
  }

  /** A little-endian unsigned 32-bit length. */
  function Le32(b: bytes): (n: nat)
    requires |b| == 4
    ensures n < 0x1_0000_0000
  {
    (b[0] as int) + 0x100 * (b[1] as int) + 0x1_0000 * (b[2] as int) + 0x100_0000 * (b[3] as int)
  }

  /** Go's uint32(n), little-endian: lengths of 4 GiB and more wrap. */
  function PutLe32(n: nat): (b: bytes)
    ensures |b| == 4 && Le32(b) == n % 0x1_0000_0000
  {
    var m := n % 0x1_0000_0000;
    var a := m / 0x100;
    var b := a / 0x100;
    [m % 0x100, a % 0x100, b % 0x100, b / 0x100]
  }

  /** What one more byte of the reply does: the next state, and whether the byte is output. */
  function Step(d: Decoder, b: byte): (r: (Decoder, bool))
    requires d.Valid()
    ensures r.0.Valid()
  {
    if !d.capture then (d, false)
    else if |d.status| < 4 then
      var status := d.status + [b];
      var e := d.(status := status);
      if |status| < 4 || status == OKAY then (e, false)
      else if status == FAIL then (e.(v2 := false, skip := 4), false)
      else (e.(capture := false), false)
    else if d.skip > 0 then (d.(skip := d.skip - 1), false)
    else if !d.v2 then (d, true)
    else if d.left == 0 then
      var hdr := d.hdr + [b];
      if |hdr| < 5 then (d.(hdr := hdr), false)
      else (d.(hdr := [], left := Le32(hdr[1..]), keep := hdr[0] == STDOUT || hdr[0] == STDERR), false)
    else (d.(left := d.left - 1), d.keep)
  }

  /** The whole of p, one byte at a time. */
  function Feed(d: Decoder, p: bytes): (r: (Decoder, bytes))
    requires d.Valid()
    ensures r.0.Valid()
    decreases |p|
  {
    if p == [] then (d, [])
    else
      var (e, output) := Step(d, p[0]);
      var (f, rest) := Feed(e, p[1..]);
      (f, if output then [p[0]] + rest else rest)
  }

  /** Decoding does not depend on where the reply is split. */
  lemma {:induction false} FeedConcat(d: Decoder, p: bytes, q: bytes)
    requires d.Valid()
    ensures var (e, out) := Feed(d, p);
            var (f, rest) := Feed(e, q);
            Feed(d, p + q) == (f, out + rest)
    decreases |p|
  {
    if p == [] {
      assert p + q == q;
      assert [] + Feed(d, q).1 == Feed(d, q).1;
    } else {
      FeedConcat(Step(d, p[0]).0, p[1..], q);
      assert (p + q)[1..] == p[1..] + q;
      var (e, out) := Feed(Step(d, p[0]).0, p[1..]);
      assert [p[0]] + out + Feed(e, q).1 == [p[0]] + (out + Feed(e, q).1);
    }
  }

  /** The reply in pieces as they arrive. */
  function FeedAll(d: Decoder, chunks: seq<bytes>): (r: (Decoder, bytes))
    requires d.Valid()
    ensures r.0.Valid()
    decreases |chunks|
  {
    if chunks == [] then (d, [])
    else
      var (e, out) := Feed(d, chunks[0]);
      var (f, rest) := FeedAll(e, chunks[1..]);
      (f, out + rest)
  }

  /** Any chunking decodes like the reply in one piece. */
  lemma {:induction false} ChunkingIrrelevant(d: Decoder, chunks: seq<bytes>)
    requires d.Valid()
    ensures FeedAll(d, chunks) == Feed(d, Flatten(chunks))
    decreases |chunks|
  {
    if chunks == [] {
    } else {
      ChunkingIrrelevant(Feed(d, chunks[0]).0, chunks[1..]);
      FeedConcat(d, chunks[0], Flatten(chunks[1..]));
    }
  }

  // ---------- whole stretches at once: what the source's chunk branches do ----------

  lemma {:induction false} FeedStatus(d: Decoder, p: bytes)
    requires d.Valid() && d.capture && |d.status| + |p| < 4
    ensures Feed(d, p) == (d.(status := d.status + p), [])
    decreases |p|
  {
    if p == [] {
      assert d.status + p == d.status;
    } else {
      FeedStatus(Step(d, p[0]).0, p[1..]);
      assert d.status + [p[0]] + p[1..] == d.status + p;
    }
  }

  lemma {:induction false} FeedSkip(d: Decoder, p: bytes)
    requires d.Valid() && d.capture && |d.status| == 4 && |p| <= d.skip
    ensures Feed(d, p) == (d.(skip := d.skip - |p|), [])
    decreases |p|
  {
    if p == [] {
    } else {
      FeedSkip(Step(d, p[0]).0, p[1..]);
    }
  }

  lemma {:induction false} FeedRaw(d: Decoder, p: bytes)
    requires d.Valid() && d.capture && |d.status| == 4 && d.skip == 0 && !d.v2
    ensures Feed(d, p) == (d, p)
    decreases |p|
  {
    if p == [] {
    } else {
      FeedRaw(d, p[1..]);
      assert [p[0]] + p[1..] == p;
    }
  }

  predicate InPackets(d: Decoder) {
    d.Valid() && d.capture && |d.status| == 4 && d.skip == 0 && d.v2
  }

  lemma {:induction false} FeedHeader(d: Decoder, p: bytes)
    requires InPackets(d) && d.left == 0 && |d.hdr| + |p| < 5
    ensures Feed(d, p) == (d.(hdr := d.hdr + p), [])
    decreases |p|
  {
    if p == [] {
      assert d.hdr + p == d.hdr;
    } else {
      FeedHeader(Step(d, p[0]).0, p[1..]);
      assert d.hdr + [p[0]] + p[1..] == d.hdr + p;
    }
  }

  lemma {:induction false} FeedPayload(d: Decoder, p: bytes)
    requires InPackets(d) && |p| <= d.left
    ensures Feed(d, p) == (d.(left := d.left - |p|), if d.keep then p else [])
    decreases |p|
  {
    if p == [] {
    } else {
      FeedPayload(Step(d, p[0]).0, p[1..]);
      assert [p[0]] + p[1..] == p;
    }
  }

  /** The byte that completes a stretch, after the bytes before it. */
  lemma {:induction false} FeedLast(d: Decoder, p: bytes, last: byte)
    requires d.Valid()
    ensures Feed(d, p + [last]).0 == Step(Feed(d, p).0, last).0
    ensures Feed(d, p + [last]).1 == Feed(d, p).1 + if Step(Feed(d, p).0, last).1 then [last] else []
    decreases |p|
  {
    if p == [] {
      assert p + [last] == [last] && [last][1..] == [];
    } else {
      FeedLast(Step(d, p[0]).0, p[1..], last);
      assert (p + [last])[1..] == p[1..] + [last];
    }
  }

  lemma FeedWholeStatus(d: Decoder, p: bytes)
    requires d.Valid() && d.capture && |d.status| + |p| == 4 && p != []
    ensures var status := d.status + p;
            var e := d.(status := status);
            Feed(d, p) == (if status == OKAY then e
                           else if status == FAIL then e.(v2 := false, skip := 4)
                           else e.(capture := false), [])
  {
    var n := |p| - 1;
    assert p[..n] + [p[n]] == p;
    FeedLast(d, p[..n], p[n]);
    FeedStatus(d, p[..n]);
    assert d.status + p[..n] + [p[n]] == d.status + p;
  }

  lemma FeedWholeHeader(d: Decoder, p: bytes)
    requires InPackets(d) && d.left == 0 && |d.hdr| + |p| == 5
    ensures var hdr := d.hdr + p;
            Feed(d, p) == (d.(hdr := [], left := Le32(hdr[1..]), keep := hdr[0] == STDOUT || hdr[0] == STDERR), [])
  {
    var n := |p| - 1;
    assert p[..n] + [p[n]] == p;
    FeedLast(d, p[..n], p[n]);
    FeedHeader(d, p[..n]);
    assert d.hdr + p[..n] + [p[n]] == d.hdr + p;
  }

  // ---------- the packet writer, and the decoder as its inverse ----------

  datatype Frame = Frame(id: byte, data: bytes)

  /** WriteShellV2Packet: id, little-endian 32-bit length, payload. */
  function Packet(f: Frame): bytes {
    [f.id] + PutLe32(|f.data|) + f.data
  }

  function Packets(fs: seq<Frame>): bytes {
    if fs == [] then [] else Packet(fs[0]) + Packets(fs[1..])
  }

  /** What a user of the shell sees: stdout and stderr payloads, in order. */
  function Output(fs: seq<Frame>): bytes {
    if fs == [] then []
    else (if fs[0].id == STDOUT || fs[0].id == STDERR then fs[0].data else []) + Output(fs[1..])
  }

  /** The decoder between two packets. */
  function Between(keep: bool): (d: Decoder)
    ensures InPackets(d)
  {
    Decoder(true, true, OKAY, 0, [], 0, keep)
  }

  /** A header, from between two packets. */
  lemma HeaderDecoded(keep: bool, id: byte, length: bytes, body: bytes)
    requires |length| == 4
    ensures var e := Between(id == STDOUT || id == STDERR).(left := Le32(length));
            Feed(Between(keep), [id] + length + body) == Feed(e, body)
  {
    var d := Between(keep);
    var hdr := [id] + length;
    FeedConcat(d, hdr, body);
    FeedWholeHeader(d, hdr);
    assert d.hdr + hdr == hdr && hdr[1..] == length;
    var e := Between(id == STDOUT || id == STDERR).(left := Le32(length));
    assert [] + Feed(e, body).1 == Feed(e, body).1;
  }

  lemma PayloadDecoded(keep: bool, id: byte, length: bytes, data: bytes)
    requires |length| == 4 && Le32(length) == |data|
    ensures var kept := id == STDOUT || id == STDERR;
            Feed(Between(keep), [id] + length + data) == (Between(kept), if kept then data else [])
  {
    HeaderDecoded(keep, id, length, data);
    FeedPayload(Between(id == STDOUT || id == STDERR).(left := |data|), data);
  }

  lemma PacketDecoded(keep: bool, f: Frame)
    requires |f.data| < 0x1_0000_0000
    ensures var kept := f.id == STDOUT || f.id == STDERR;
            Feed(Between(keep), Packet(f)) == (Between(kept), if kept then f.data else [])
  {
    PayloadDecoded(keep, f.id, PutLe32(|f.data|), f.data);
  }

  lemma {:induction false} PacketsDecoded(keep: bool, fs: seq<Frame>)
    requires forall f <- fs :: |f.data| < 0x1_0000_0000
    ensures Feed(Between(keep), Packets(fs)).1 == Output(fs)
    ensures exists k :: Feed(Between(keep), Packets(fs)).0 == Between(k)
    decreases |fs|
  {
    if fs == [] {
      assert Feed(Between(keep), Packets(fs)).0 == Between(keep);
    } else {
      assert fs[0] in fs;
      var kept := fs[0].id == STDOUT || fs[0].id == STDERR;
      PacketDecoded(keep, fs[0]);
      PacketsDecoded(kept, fs[1..]);
      FeedConcat(Between(keep), Packet(fs[0]), Packets(fs[1..]));
    }
  }

  /** A reply's status, then a body. */
  lemma StatusThen(v2: bool, status: bytes, body: bytes)
    requires |status| == 4
    ensures var d := Fresh(true, v2).(status := status);
            var e := if status == OKAY then d
                     else if status == FAIL then d.(v2 := false, skip := 4)
                     else d.(capture := false);
            Feed(Fresh(true, v2), status + body) == Feed(e, body)
  {
    var d := Fresh(true, v2);
    FeedConcat(d, status, body);
    FeedWholeStatus(d, status);
    assert d.status + status == status;
    var e := Feed(d, status).0;
    assert [] + Feed(e, body).1 == Feed(e, body).1;
  }

  /**
   OKAY and any sequence of packets, split anywhere, decodes to the payloads
   of the stdout and stderr packets.
   */
  lemma DecoderInvertsWriter(fs: seq<Frame>, chunks: seq<bytes>)
    requires forall f <- fs :: |f.data| < 0x1_0000_0000
    requires Flatten(chunks) == OKAY + Packets(fs)
    ensures FeedAll(Fresh(true, true), chunks).1 == Output(fs)
  {
    ChunkingIrrelevant(Fresh(true, true), chunks);
    StatusThen(true, OKAY, Packets(fs));
    PacketsDecoded(false, fs);
  }

  /** A FAIL reply, in either protocol, decodes to its message. */
  lemma FailDecodesToMessage(v2: bool, length: bytes, message: bytes, chunks: seq<bytes>)
    requires |length| == 4
    requires Flatten(chunks) == FAIL + length + message
    ensures FeedAll(Fresh(true, v2), chunks).1 == message
  {
    ChunkingIrrelevant(Fresh(true, v2), chunks);
    assert FAIL[0] != OKAY[0];
    assert FAIL + length + message == FAIL + (length + message);
    StatusThen(v2, FAIL, length + message);
    var d := Fresh(true, v2).(status := FAIL, v2 := false, skip := 4);
    FeedConcat(d, length, message);
    FeedSkip(d, length);
    FeedRaw(d.(skip := 0), message);
  }

  /** A legacy shell's output is the raw tail of the reply. */
  lemma LegacyIsRawTail(tail: bytes, chunks: seq<bytes>)
    requires Flatten(chunks) == OKAY + tail
    ensures FeedAll(Fresh(true, false), chunks).1 == tail
  {
    ChunkingIrrelevant(Fresh(true, false), chunks);
    StatusThen(false, OKAY, tail);
    FeedRaw(Fresh(true, false).(status := OKAY), tail);
  }

  lemma {:induction false} FeedIgnored(d: Decoder, p: bytes)
    requires d.Valid() && !d.capture
    ensures Feed(d, p) == (d, [])
    decreases |p|
  {
    if p == [] {
    } else {
      FeedIgnored(d, p[1..]);
    }
  }

  /** Services other than shells, and replies that are not ADB, yield nothing. */
  lemma NothingElseDecodes(capture: bool, v2: bool, status: bytes, body: bytes)
    requires |status| == 4
    requires capture ==> status != OKAY && status != FAIL
    ensures Feed(Fresh(capture, v2), status + body).1 == []
  {
    if capture {
      StatusThen(v2, status, body);
      FeedIgnored(Fresh(true, v2).(status := status, capture := false), body);
    } else {
      FeedIgnored(Fresh(capture, v2), status + body);
    }
  }

  lemma {:induction false} OutputWithinInput(d: Decoder, p: bytes)
    requires d.Valid()
    ensures |Feed(d, p).1| <= |p|
    ensures InPackets(d) && d.left == 0 && p != [] ==> |Feed(d, p).1| < |p|
    decreases |p|
  {
    if p == [] {
    } else {
      OutputWithinInput(Step(d, p[0]).0, p[1..]);
    }
  }

  /** The length field is 32 bits: a packet reads back exactly when its payload is under 4 GiB. */
  lemma PacketReadsBackIff(f: Frame)
    requires f.id == STDOUT || f.id == STDERR
    ensures Feed(Fresh(true, true), OKAY + Packet(f)).1 == f.data <==> |f.data| < 0x1_0000_0000
  {
    StatusThen(true, OKAY, Packet(f));
    if |f.data| < 0x1_0000_0000 {
      PacketDecoded(false, f);
    } else {
      var n := Le32(PutLe32(|f.data|));
      HeaderDecoded(false, f.id, PutLe32(|f.data|), f.data);
      var e := Between(true).(left := n);
      assert f.data[..n] + f.data[n..] == f.data;
      FeedConcat(e, f.data[..n], f.data[n..]);
      FeedPayload(e, f.data[..n]);
      OutputWithinInput(Feed(e, f.data[..n]).0, f.data[n..]);
    }
  }
}
