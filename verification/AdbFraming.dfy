/**
 ADB length framing: the writers (sendAdbLtv, WriteFail), the reader of a
 request (ReadRequest), the reader of a reply (readAdbOkay) and the passive
 sniffer on the same connection (sniffConn).
 */
module AdbFraming {
  import opened Bytes

  const PLUS: byte := '+' as int
  const MINUS: byte := '-' as int

  // ---------- hexadecimal ----------

  function HexDigit(d: nat): byte
    requires d < 16
  {
    if d < 10 then '0' as int + d else 'A' as int + d - 10
  }

  function DigitValue(b: byte): Option<nat> {
    if '0' as int <= b <= '9' as int then Some(b - '0' as int)
    else if 'A' as int <= b <= 'F' as int then Some(b - 'A' as int + 10)
    else if 'a' as int <= b <= 'f' as int then Some(b - 'a' as int + 10)
    else None
  }

  /** The value of a string of hex digits; None if any is not one. */
  function HexValue(s: bytes): Option<nat> {
    if s == [] then Some(0)
    else
      var front := HexValue(s[..|s| - 1]);
      var last := DigitValue(s[|s| - 1]);
      if front.Some? && last.Some? then Some(16 * front.value + last.value) else None
  }

  /** strconv.ParseInt(s, 16, 32) on four bytes: a sign is accepted before the digits. */
  function ParseLength(s: bytes): Option<int>
    requires |s| == 4
  {
    if s[0] == PLUS || s[0] == MINUS then
      var v := HexValue(s[1..]);
      if v.None? then None
      else
        var n: int := if s[0] == MINUS then -(v.value as int) else v.value;
        Some(n)
    else
      var v := HexValue(s);
      if v.None? then None else Some(v.value)
  }

  /** fmt.Sprintf("%04X", n): at least four digits. */
  function Hex04(n: nat): (s: bytes)
    ensures |s| >= 4 && (n < 0x1_0000 ==> |s| == 4)
  {
    if n < 0x1_0000 then
      [HexDigit(n / 0x1000), HexDigit(n / 0x100 % 16), HexDigit(n / 0x10 % 16), HexDigit(n % 16)]
    else Hex04(n / 16) + [HexDigit(n % 16)]
  }

  lemma HexValue4(a: byte, b: byte, c: byte, d: byte)
    requires DigitValue(a).Some? && DigitValue(b).Some? && DigitValue(c).Some? && DigitValue(d).Some?
    ensures HexValue([a, b, c, d]) ==
            Some(0x1000 * DigitValue(a).value + 0x100 * DigitValue(b).value + 0x10 * DigitValue(c).value + DigitValue(d).value)
  {
    HexValue3(a, b, c);
    assert [a, b, c, d][..3] == [a, b, c];
  }

  lemma HexValue3(a: byte, b: byte, c: byte)
    requires DigitValue(a).Some? && DigitValue(b).Some? && DigitValue(c).Some?
    ensures HexValue([a, b, c]) == Some(0x100 * DigitValue(a).value + 0x10 * DigitValue(b).value + DigitValue(c).value)
  {
    assert [a, b, c][..2] == [a, b] && [a, b][..1] == [a] && [a][..0] == [];
    assert HexValue([]) == Some(0);
    assert HexValue([a]) == Some(DigitValue(a).value);
    assert HexValue([a, b]) == Some(16 * DigitValue(a).value + DigitValue(b).value);
  }

  lemma DivideTwice(n: nat)
    ensures n / 0x100 == n / 0x10 / 16 && n / 0x1000 == n / 0x100 / 16
  {
  }

  lemma LastDigit(n: nat)
    ensures n == 16 * (n / 16) + n % 16
  {
  }

  lemma FourDigits(n: nat)
    requires n < 0x1_0000
    ensures n / 0x1000 < 16
    ensures n == 0x1000 * (n / 0x1000) + 0x100 * (n / 0x100 % 16) + 0x10 * (n / 0x10 % 16) + n % 16
  {
    DivideTwice(n);
    LastDigit(n);
    LastDigit(n / 0x10);
    LastDigit(n / 0x100);
  }

  lemma LengthReadsBack(n: nat)
    requires n < 0x1_0000
    ensures ParseLength(Hex04(n)) == Some(n)
  {
    FourDigits(n);
    FourDigitsReadBack(n / 0x1000, n / 0x100 % 16, n / 0x10 % 16, n % 16);
  }

  lemma FourDigitsReadBack(a: nat, b: nat, c: nat, d: nat)
    requires a < 16 && b < 16 && c < 16 && d < 16
    ensures ParseLength([HexDigit(a), HexDigit(b), HexDigit(c), HexDigit(d)]) ==
            Some(0x1000 * a + 0x100 * b + 0x10 * c + d)
  {
    HexValue4(HexDigit(a), HexDigit(b), HexDigit(c), HexDigit(d));
  }

  lemma {:induction false} HexValueBound(s: bytes)
    requires |s| <= 4 && HexValue(s).Some?
    ensures HexValue(s).value < if |s| == 4 then 0x1_0000 else if |s| == 3 then 0x1000 else if |s| == 2 then 0x100 else if |s| == 1 then 0x10 else 1
  {
    if s == [] {
    } else {
      HexValueBound(s[..|s| - 1]);
    }
  }

  lemma ParseLengthBound(s: bytes)
    requires |s| == 4
    ensures ParseLength(s).Some? ==> ParseLength(s).value <= 0xFFFF
  {
    if HexValue(s).Some? {
      HexValueBound(s);
    }
    if HexValue(s[1..]).Some? {
      HexValueBound(s[1..]);
    }
  }

  // ---------- ReadRequest as a function of what is on the connection ----------

  datatype Request =
    | Service(text: bytes)
    | Eof             // nothing to read
    | UnexpectedEof   // the connection ended inside the header or the payload
    | InvalidLength
    | LengthOutOfRange

  /** What a full read of n bytes reports when only |got| are left. */
  function Shortfall(got: bytes): Request {
    if got == [] then Eof else UnexpectedEof
  }

  /** The request input starts with, and how many bytes reading it consumes. */
  function Parse(input: bytes): (r: (Request, nat))
    ensures r.1 <= |input|
  {
    if |input| < 4 then (Shortfall(input), |input|)
    else
      var length := ParseLength(input[..4]);
      if length.None? then (InvalidLength, 4)
      else if length.value < 0 || length.value > 0x10_0000 then (LengthOutOfRange, 4)
      else if length.value == 0 then (Service([]), 4)
      else if |input| - 4 < length.value then (Shortfall(input[4..]), |input|)
      else (Service(input[4..4 + length.value]), 4 + length.value)
  }

  // ---------- the sniffer ----------

  datatype Sniffer = Sniffer(header: bytes, want: nat, service: bytes, done: bool)
  {
    predicate Valid() {
      !done ==> if want == 0 then |header| < 4 && service == [] else |service| < want
    }
  }

  const FRESH := Sniffer([], 0, [], false)

  /** One more client byte: the next state, and the service it reports, if any. */
  function SniffStep(s: Sniffer, b: byte): (r: (Sniffer, Option<bytes>))
    requires s.Valid()
    ensures r.0.Valid()
  {
    if s.done then (s, None)
    else if s.want == 0 then
      var header := s.header + [b];
      if |header| < 4 then (s.(header := header), None)
      else
        var length := HexValue(header);
        if length.None? || length.value == 0 then (s.(header := header, done := true), None)
        else (s.(header := header, want := length.value), None)
    else
      var service := s.service + [b];
      if |service| < s.want then (s.(service := service), None)
      else (s.(service := service, done := true), Some(service))
  }

  function Sniff(s: Sniffer, p: bytes): (r: (Sniffer, seq<bytes>))
    requires s.Valid()
    ensures r.0.Valid()
    decreases |p|
  {
    if p == [] then (s, [])
    else
      var (t, first) := SniffStep(s, p[0]);
      var (u, rest) := Sniff(t, p[1..]);
      (u, if first.Some? then [first.value] + rest else rest)
  }

  lemma {:induction false} SniffConcat(s: Sniffer, p: bytes, q: bytes)
    requires s.Valid()
    ensures var (t, first) := Sniff(s, p);
            var (u, rest) := Sniff(t, q);
            Sniff(s, p + q) == (u, first + rest)
    decreases |p|
  {
    if p == [] {
      assert p + q == q;
      assert [] + Sniff(s, q).1 == Sniff(s, q).1;
    } else {
      var t := SniffStep(s, p[0]).0;
      SniffConcat(t, p[1..], q);
      assert (p + q)[1..] == p[1..] + q;
      var (u, rest) := Sniff(t, p[1..]);
      var first := SniffStep(s, p[0]).1;
      if first.Some? {
        assert [first.value] + rest + Sniff(u, q).1 == [first.value] + (rest + Sniff(u, q).1);
      }
    }
  }

  lemma {:induction false} SniffDone(s: Sniffer, p: bytes)
    requires s.Valid() && s.done
    ensures Sniff(s, p) == (s, [])
    decreases |p|
  {
    if p == [] {
    } else {
      SniffDone(s, p[1..]);
    }
  }

  lemma {:induction false} SniffHeader(s: Sniffer, p: bytes)
    requires s.Valid() && !s.done && s.want == 0 && |s.header| + |p| < 4
    ensures Sniff(s, p) == (s.(header := s.header + p), [])
    decreases |p|
  {
    if p == [] {
      assert s.header + p == s.header;
    } else {
      SniffHeader(SniffStep(s, p[0]).0, p[1..]);
      assert s.header + [p[0]] + p[1..] == s.header + p;
    }
  }

  lemma {:induction false} SniffService(s: Sniffer, p: bytes)
    requires s.Valid() && !s.done && s.want > 0 && |s.service| + |p| < s.want
    ensures Sniff(s, p) == (s.(service := s.service + p), [])
    decreases |p|
  {
    if p == [] {
      assert s.service + p == s.service;
    } else {
      SniffService(SniffStep(s, p[0]).0, p[1..]);
      assert s.service + [p[0]] + p[1..] == s.service + p;
    }
  }

  lemma {:induction false} SniffLast(s: Sniffer, p: bytes, last: byte)
    requires s.Valid()
    ensures Sniff(s, p + [last]).0 == SniffStep(Sniff(s, p).0, last).0
    ensures Sniff(s, p).1 == [] ==>
              var first := SniffStep(Sniff(s, p).0, last).1;
              Sniff(s, p + [last]).1 == if first.Some? then [first.value] else []
    decreases |p|
  {
    if p == [] {
      assert p + [last] == [last] && [last][1..] == [];
    } else {
      SniffLast(SniffStep(s, p[0]).0, p[1..], last);
      assert (p + [last])[1..] == p[1..] + [last];
    }
  }

  lemma SniffWholeHeader(s: Sniffer, p: bytes)
    requires s.Valid() && !s.done && s.want == 0 && |s.header| + |p| == 4
    ensures var header := s.header + p;
            var length := HexValue(header);
            Sniff(s, p) == (if length.None? || length.value == 0 then s.(header := header, done := true)
                            else s.(header := header, want := length.value), [])
  {
    var n := |p| - 1;
    assert p[..n] + [p[n]] == p;
    SniffHeader(s, p[..n]);
    SniffLast(s, p[..n], p[n]);
    assert s.header + p[..n] + [p[n]] == s.header + p;
  }

  lemma SniffWholeService(s: Sniffer, p: bytes)
    requires s.Valid() && !s.done && s.want > 0 && |s.service| + |p| == s.want
    ensures Sniff(s, p) == (s.(service := s.service + p, done := true), [s.service + p])
  {
    var n := |p| - 1;
    assert p[..n] + [p[n]] == p;
    SniffService(s, p[..n]);
    SniffLast(s, p[..n], p[n]);
    assert s.service + p[..n] + [p[n]] == s.service + p;
  }

  /** How many bytes the next round of feed takes: up to the end of the header or of the service. */
  function Need(s: Sniffer): (n: nat)
    requires s.Valid() && !s.done
    ensures n > 0
  {
    if s.want == 0 then 4 - |s.header| else s.want - |s.service|
  }

  /** The state after a round of feed that took p, and the services it reported. */
  function Round(s: Sniffer, p: bytes): (r: (Sniffer, seq<bytes>))
    requires s.Valid() && !s.done && 0 < |p| <= Need(s)
    ensures r.0.Valid()
  {
    if s.want == 0 then
      var t := s.(header := s.header + p);
      if |p| < Need(s) then (t, [])
      else if HexValue(t.header).None? || HexValue(t.header).value == 0 then (t.(done := true), [])
      else (t.(want := HexValue(t.header).value), [])
    else
      var t := s.(service := s.service + p);
      if |p| < Need(s) then (t, []) else (t.(done := true), [t.service])
  }

  lemma RoundIsSniff(s: Sniffer, p: bytes)
    requires s.Valid() && !s.done && 0 < |p| <= Need(s)
    ensures Round(s, p) == Sniff(s, p)
  {
    if s.want == 0 {
      if |p| < Need(s) {
        SniffHeader(s, p);
      } else {
        SniffWholeHeader(s, p);
      }
    } else {
      if |p| < Need(s) {
        SniffService(s, p);
      } else {
        SniffWholeService(s, p);
      }
    }
  }

  /** After a round that took piece, what the sniffer is of all bytes seen so far. */
  lemma AfterRound(s: Sniffer, seen: bytes, piece: bytes)
    requires s.Valid()
    requires var t := Sniff(s, seen).0; !t.done && 0 < |piece| <= Need(t)
    ensures var (t, reported) := Sniff(s, seen);
            var (u, more) := Round(t, piece);
            Sniff(s, seen + piece) == (u, reported + more)
  {
    RoundIsSniff(Sniff(s, seen).0, piece);
    SniffConcat(s, seen, piece);
  }

  lemma {:induction false} PlusIsNotHex(s: bytes)
    requires s != [] && DigitValue(s[0]).None?
    ensures HexValue(s).None?
  {
    if |s| > 1 {
      PlusIsNotHex(s[..|s| - 1]);
    }
  }

  /** A header read from the start: the sniffer is done with it, or waits for as much as it says. */
  lemma HeaderSniffed(header: bytes)
    requires |header| == 4
    ensures var length := HexValue(header);
            var (s, reported) := Sniff(FRESH, header);
            && reported == []
            && if length.None? || length.value == 0 then s.done else s == Sniffer(header, length.value, [], false)
  {
    SniffWholeHeader(FRESH, header);
    assert FRESH.header + header == header;
  }

  /** A payload, or the beginning of one. */
  lemma PayloadSniffed(s: Sniffer, payload: bytes)
    requires s.Valid() && !s.done && s.want > 0 && s.service == [] && |payload| <= s.want
    ensures var (t, reported) := Sniff(s, payload);
            if |payload| == s.want then t.done && reported == [payload] else reported == []
  {
    assert [] + payload == payload;
    if |payload| == s.want {
      SniffWholeService(s, payload);
    } else {
      SniffService(s, payload);
    }
  }

  /** A header of hex digits only is read as what they say. */
  lemma ReadAsHex(input: bytes)
    requires |input| >= 4 && HexValue(input[..4]).Some? && HexValue(input[..4]).value > 0
    ensures var length := HexValue(input[..4]).value;
            var (r, n) := Parse(input);
            && input[0] != PLUS
            && if |input| - 4 < length then !r.Service? && n == |input| else r == Service(input[4..4 + length]) && n == 4 + length
  {
    var header := input[..4];
    ParseLengthBound(header);
    if header[0] == PLUS || header[0] == MINUS {
      PlusIsNotHex(header);
    }
  }

  /** A header that is not of hex digits only, or says nothing is to come. */
  lemma ReadNothing(input: bytes)
    requires |input| >= 4 && (HexValue(input[..4]).None? || HexValue(input[..4]).value == 0)
    ensures Parse(input).0.Service? && Parse(input).0.text != [] ==> input[0] == PLUS
  {
  }

  lemma SnifferStopsThere(input: bytes)
    requires |input| >= 4 && (HexValue(input[..4]).None? || HexValue(input[..4]).value == 0)
    ensures var n := Parse(input).1; n >= 4 && Sniff(FRESH, input[..n]).0.done && Sniff(FRESH, input[..n]).1 == []
  {
    var header, payload := input[..4], input[4..Parse(input).1];
    assert input[..Parse(input).1] == header + payload;
    HeaderSniffed(header);
    SniffConcat(FRESH, header, payload);
    SniffDone(Sniff(FRESH, header).0, payload);
  }

  lemma SnifferReadsOn(input: bytes)
    requires |input| >= 4 && HexValue(input[..4]).Some? && HexValue(input[..4]).value > 0
    ensures var (r, n) := Parse(input);
            var (s, reported) := Sniff(FRESH, input[..n]);
            input[0] != PLUS && (r.Service? ==> s.done && r.text != []) && reported == if r.Service? then [r.text] else []
  {
    var (r, n) := Parse(input);
    ReadAsHex(input);
    var header, payload := input[..4], input[4..n];
    assert input[..n] == header + payload;
    HeaderSniffed(header);
    SniffConcat(FRESH, header, payload);
    PayloadSniffed(Sniff(FRESH, header).0, payload);
    assert [] + Sniff(Sniff(FRESH, header).0, payload).1 == Sniff(Sniff(FRESH, header).0, payload).1;
  }

  lemma SnifferAndReader(input: bytes)
    ensures var (r, n) := Parse(input);
            var (s, reported) := Sniff(FRESH, input[..n]);
            && (reported == if r.Service? && r.text != [] && input[0] != PLUS then [r.text] else [])
            && (r.Service? ==> s.done)
  {
    if |input| < 4 {
      assert input[..Parse(input).1] == input;
      SniffHeader(FRESH, input);
    } else if HexValue(input[..4]).None? || HexValue(input[..4]).value == 0 {
      ReadNothing(input);
      SnifferStopsThere(input);
    } else {
      SnifferReadsOn(input);
    }
  }

  /**
   For every input: the sniffer reports what ReadRequest returned, once, when
   that is a non-empty service, except that ReadRequest also takes a header
   with a plus sign; and after a request it reports nothing more, whatever follows.
   */
  lemma SnifferAgreesWithReader(input: bytes, following: bytes)
    ensures var (r, n) := Parse(input);
            var (s, reported) := Sniff(FRESH, input[..n]);
            && (reported == if r.Service? && r.text != [] && input[0] != PLUS then [r.text] else [])
            && (r.Service? ==> Sniff(FRESH, input[..n] + following) == (s, reported))
  {
    SnifferAndReader(input);
    var (r, n) := Parse(input);
    if r.Service? {
      var (s, reported) := Sniff(FRESH, input[..n]);
      SniffConcat(FRESH, input[..n], following);
      SniffDone(s, following);
      assert reported + [] == reported;
    }
  }

  /** A request the reader reads and the sniffer does not report: its length has a plus sign. */
  lemma PlusIsReadNotSniffed(service: bytes)
    requires |service| == 5
    ensures var input := [PLUS, 0x30, 0x30, 0x35] + service;  // "+005" and the service
            Parse(input) == (Service(service), 9) && Sniff(FRESH, input).1 == []
  {
    var header: bytes := [PLUS, 0x30, 0x30, 0x35];
    var input := header + service;
    HexValue3(0x30, 0x30, 0x35);
    assert input[..4] == header && header[1..] == [0x30, 0x30, 0x35] && input[4..9] == service;
    SnifferAgreesWithReader(input, []);
    assert input[..9] == input;
  }

  // ---------- the writers, read back ----------

  /** sendAdbLtv: the length in hex, then the command. */
  function Framed(command: bytes): bytes {
    Hex04(|command|) + command
  }

  function FramedAll(commands: seq<bytes>): bytes {
    if commands == [] then [] else Framed(commands[0]) + FramedAll(commands[1..])
  }

  /** A request reads back exactly when its length fits four hex digits. */
  lemma FrameReadsBackIff(command: bytes, rest: bytes)
    ensures Parse(Framed(command) + rest) == (Service(command), |Framed(command)|) <==> |command| <= 0xFFFF
  {
    var input := Framed(command) + rest;
    ParseLengthBound(input[..4]);
    if |command| <= 0xFFFF {
      LengthReadsBack(|command|);
      assert input[..4] == Hex04(|command|);
      if command != [] {
        assert input[4..4 + |command|] == command;
      }
    }
  }

  /** Reading count requests off a connection, stopping at the first that is not one. */
  function ReadMany(input: bytes, count: nat): seq<bytes> {
    if count == 0 then []
    else
      var (r, n) := Parse(input);
      if r.Service? then [r.text] + ReadMany(input[n..], count - 1) else []
  }

  lemma ReadsOne(c: bytes, others: bytes, count: nat)
    requires |c| <= 0xFFFF && count > 0
    ensures ReadMany(Framed(c) + others, count) == [c] + ReadMany(others, count - 1)
  {
    FrameReadsBackIff(c, others);
    assert (Framed(c) + others)[|Framed(c)|..] == others;
  }

  lemma {:induction false} FramesReadBack(commands: seq<bytes>, rest: bytes)
    requires forall c <- commands :: |c| <= 0xFFFF
    ensures ReadMany(FramedAll(commands) + rest, |commands|) == commands
  {
    if commands == [] {
    } else {
      var c, others := commands[0], FramedAll(commands[1..]) + rest;
      assert c in commands;
      assert FramedAll(commands) + rest == Framed(c) + others;
      ReadsOne(c, others, |commands|);
      FramesReadBack(commands[1..], rest);
    }
  }

  /** WriteFail: nothing at all is written for a message ADB framing cannot carry. */
  function FailFrame(message: bytes): Option<bytes> {
    if |message| > 0xFFFF then None else Some(FAIL + Hex04(|message|) + message)
  }

  datatype Reply =
    | Okay
    | Refused(status: bytes, message: bytes)  // a status that is not OKAY, with its message
    | RefusedBare(status: bytes)              // the same, with no readable length
    | Closed                                  // the server closed inside the status
    | NegativeLength                          // a negative length: the source's allocation panics

  /** readAdbOkay: the status, then the message of anything but OKAY, as much of it as there is. */
  function ReadReply(input: bytes): Reply {
    if |input| < 4 then Closed
    else
      var status := input[..4];
      if status == OKAY then Okay
      else if |input| < 8 then RefusedBare(status)
      else
        var length := ParseLength(input[4..8]);
        if length.None? then RefusedBare(status)
        else if length.value < 0 then NegativeLength
        else
          var got := input[8..Min(8 + length.value, |input|)];
          Refused(status, got + seq(length.value - |got|, _ => 0))
  }

  /** A FAIL reply reads back as its message, whatever follows on the connection. */
  lemma FailReadsBack(message: bytes, rest: bytes)
    requires |message| <= 0xFFFF
    ensures ReadReply(FailFrame(message).value + rest) == Refused(FAIL, message)
  {
    var input := FailFrame(message).value + rest;
    LengthReadsBack(|message|);
    assert FAIL[0] != OKAY[0];
    assert input[..4] == FAIL && input[4..8] == Hex04(|message|);
    assert input[8..8 + |message|] == message;
    assert message + seq(0, _ => 0) == message;
  }

  // ---------- the connection itself ----------

  /** What two reads took of the input, and what they left. */
  lemma BothReads(input: bytes, p: bytes, q: bytes, rest: bytes)
    requires input == p + (q + rest)
    ensures var n := |p| + |q|;
            && input[..|p|] == p && input[|p|..] == q + rest
            && input[|p|..n] == q && input[..n] == p + q && input[n..] == rest
  {
    assert input == p + q + rest;
  }

  /** A client connection with the sniffer on it. */
  class SniffConn {
    var incoming: seq<bytes>  // what is still to arrive, one element a read of the wrapped connection
    var header: bytes
    var want: nat
    var service: bytes
    var done: bool
    var reported: seq<bytes>  // the calls of onService

    ghost function State(): Sniffer
      reads this
    {
      Sniffer(header, want, service, done)
    }

    ghost predicate Valid()
      reads this
    {
      State().Valid()
    }

    constructor (incoming: seq<bytes>)
      ensures Valid() && State() == FRESH && reported == [] && this.incoming == incoming
    {
      this.incoming := incoming;
      header, want, service, done, reported := [], 0, [], false, [];
    }

    /** One round of feed's loop: need bytes of data are taken. */
    method feedRound(data: bytes) returns (need: nat)
      requires Valid() && !done && |data| > 0
      modifies this`header, this`want, this`service, this`done, this`reported
      ensures 0 < need <= |data| && need <= Need(old(State()))
      ensures State() == Round(old(State()), data[..need]).0
      ensures reported == old(reported) + Round(old(State()), data[..need]).1
    {
      need := Min(if want == 0 then 4 - |header| else want - |service|, |data|);
      if want == 0 {
        header := header + data[..need];
        if |header| == 4 {
          var raw := HexValue(header);
          if raw.None? || raw.value == 0 {
            done := true; // not an ADB request, or an empty one; leave the stream alone
          } else {
            want := raw.value;
          }
        }
      } else {
        service := service + data[..need];
        if |service| == want {
          done := true;
          reported := reported + [service];
        }
      }
    }

    method feed(chunk: bytes)
      requires Valid()
      modifies this`header, this`want, this`service, this`done, this`reported
      ensures Valid()
      ensures State() == Sniff(old(State()), chunk).0
      ensures reported == old(reported) + Sniff(old(State()), chunk).1
    {
      var data := chunk;
      ghost var seen: bytes := [];
      while |data| > 0 && !done
        invariant Valid() && chunk == seen + data
        invariant State() == Sniff(old(State()), seen).0
        invariant reported == old(reported) + Sniff(old(State()), seen).1
      {
        var need := feedRound(data);
        AfterRound(old(State()), seen, data[..need]);
        seen := seen + data[..need];
        data := data[need..];
      }
      if done {
        SniffConcat(old(State()), seen, data);
        SniffDone(State(), data);
      }
      assert reported + [] == reported && seen + [] == seen;
    }

    /** One read of at most max bytes. */
    method Read(max: nat) returns (p: bytes, eof: bool)
      requires Valid() && max > 0
      modifies this
      ensures Valid() && |p| <= max
      ensures p + Flatten(incoming) == old(Flatten(incoming))
      ensures eof ==> p == [] && incoming == [] && old(incoming) == []
      ensures !eof ==> |incoming| < |old(incoming)| || (|incoming| == |old(incoming)| && |p| == max)
      ensures State() == Sniff(old(State()), p).0
      ensures reported == old(reported) + Sniff(old(State()), p).1
    {
      if incoming == [] {
        return [], true;
      }
      p, eof := incoming[0], false;
      if |p| <= max {
        incoming := incoming[1..];
      } else {
        var whole := p;
        p := p[..max];
        incoming := [whole[max..]] + incoming[1..];
        assert incoming[1..] == old(incoming)[1..];
        assert whole == p + whole[max..];
      }
      if |p| > 0 && !done {
        feed(p);
      } else if |p| > 0 {
        SniffDone(State(), p);
      }
    }

    /** io.ReadFull: n bytes, or all there are. */
    method ReadFull(n: nat) returns (p: bytes)
      requires Valid()
      modifies this
      ensures Valid()
      ensures p + Flatten(incoming) == old(Flatten(incoming))
      ensures |p| == Min(n, |old(Flatten(incoming))|)
      ensures State() == Sniff(old(State()), p).0
      ensures reported == old(reported) + Sniff(old(State()), p).1
    {
      p := [];
      var eof := false;
      while |p| < n && !eof
        invariant Valid() && |p| <= n
        invariant p + Flatten(incoming) == old(Flatten(incoming))
        invariant eof ==> incoming == []
        invariant State() == Sniff(old(State()), p).0
        invariant reported == old(reported) + Sniff(old(State()), p).1
        decreases !eof, |incoming|, n - |p|
      {
        var got: bytes;
        ghost var before := Flatten(incoming);
        ghost var earlier := reported;
        got, eof := Read(n - |p|);
        SniffConcat(old(State()), p, got);
        assert p + got + Flatten(incoming) == p + before;
        p := p + got;
      }
    }

    /**
     ReadRequest, through the sniffer. However the bytes arrive, the result is
     that of parsing them in one piece, exactly the request's bytes are gone,
     and what the sniffer has seen is those bytes.
     */
    method ReadRequest() returns (r: Request)
      requires Valid()
      modifies this
      ensures Valid()
      ensures var input := old(Flatten(incoming));
              var (expected, n) := Parse(input);
              && r == expected
              && Flatten(incoming) == input[n..]
              && State() == Sniff(old(State()), input[..n]).0
              && reported == old(reported) + Sniff(old(State()), input[..n]).1
    {
      ghost var input, was, earlier := Flatten(incoming), State(), reported;
      var lengthBytes := ReadFull(4);
      assert input[..|lengthBytes|] == lengthBytes && Flatten(incoming) == input[|lengthBytes|..];
      if |lengthBytes| < 4 {
        return if lengthBytes == [] then Eof else UnexpectedEof;
      }
      var length := ParseLength(lengthBytes);
      if length.None? {
        return InvalidLength;
      }
      if length.value < 0 || length.value > 0x10_0000 {
        return LengthOutOfRange;
      }
      if length.value == 0 {
        return Service([]);
      }
      var payload := ReadFull(length.value);
      BothReads(input, lengthBytes, payload, Flatten(incoming));
      SniffConcat(was, lengthBytes, payload);
      assert reported == earlier + Sniff(was, lengthBytes + payload).1;
      if |payload| < length.value {
        return if payload == [] then Eof else UnexpectedEof;
      }
      return Service(payload);
    }
  }

  /** The two parsers on one fresh connection, whatever the client sends and however it arrives. */
  method ReadFirstRequest(incoming: seq<bytes>) returns (r: Request, reported: seq<bytes>, left: bytes)
    ensures var input := Flatten(incoming);
            var (expected, n) := Parse(input);
            && r == expected
            && left == input[n..]
            && (reported == if r.Service? && r.text != [] && input[0] != PLUS then [r.text] else [])
  {
    var conn := new SniffConn(incoming);
    r := conn.ReadRequest();
    SnifferAgreesWithReader(Flatten(incoming), []);
    reported := conn.reported;
    left := Flatten(conn.incoming);
  }
}
