/**
 The UTF-8 predicates the lock log relies on (Go's unicode/utf8), and the
 rune-boundary cut that LockLog pieces are made at. Validity is that of
 section 4 of RFC 3629.
 */
module Utf8 {
  import opened Bytes

  const UTF_MAX := 4

  predicate Continuation(b: byte) {
    0x80 <= b < 0xC0
  }

  predicate RuneStart(b: byte) {
    !Continuation(b)
  }

  /** The number of bytes a first byte announces: 1 for ASCII and for bytes that start no rune. */
  function Announced(b: byte): (n: nat)
    ensures 1 <= n <= UTF_MAX
  {
    if 0xC2 <= b < 0xE0 then 2
    else if 0xE0 <= b < 0xF0 then 3
    else if 0xF0 <= b < 0xF5 then 4
    else 1
  }

  /** Whether second may follow first: narrower than a continuation for four first bytes. */
  predicate SecondAccepted(first: byte, second: byte) {
    var lo := if first == 0xE0 then 0xA0 else if first == 0xF0 then 0x90 else 0x80;
    var hi := if first == 0xED then 0x9F else if first == 0xF4 then 0x8F else 0xBF;
    lo <= second <= hi
  }

  /** Go's utf8.FullRune: p starts with a whole rune or with bytes no longer input could complete. */
  predicate FullRune(p: bytes) {
    && |p| > 0
    && (|| |p| >= Announced(p[0])
        || (|p| > 1 && !SecondAccepted(p[0], p[1]))
        || (|p| > 2 && !Continuation(p[2])))
  }

  /** The length of the well-formed rune s starts with, 0 when there is none. */
  function RuneLen(s: bytes): (n: nat)
    ensures n <= |s| && n <= UTF_MAX
  {
    if |s| == 0 then 0
    else if s[0] < 0x80 then 1
    else
      var n := Announced(s[0]);
      if || n == 1
         || |s| < n
         || !SecondAccepted(s[0], s[1])
         || (n > 2 && !Continuation(s[2]))
         || (n > 3 && !Continuation(s[3]))
      then 0 else n
  }

  predicate Valid(s: bytes)
    decreases |s|
  {
    s == [] || (RuneLen(s) > 0 && Valid(s[RuneLen(s)..]))
  }

  /** One character, by the grammar of section 4 of RFC 3629. */
  predicate Utf8Char(c: bytes) {
    || (|c| == 1 && c[0] <= 0x7F)
    || (|c| == 2 && 0xC2 <= c[0] <= 0xDF && Continuation(c[1]))
    || (|c| == 3 && Continuation(c[2])
        && (|| (c[0] == 0xE0 && 0xA0 <= c[1] <= 0xBF)
            || (0xE1 <= c[0] <= 0xEC && Continuation(c[1]))
            || (c[0] == 0xED && 0x80 <= c[1] <= 0x9F)
            || (0xEE <= c[0] <= 0xEF && Continuation(c[1]))))
    || (|c| == 4 && Continuation(c[2]) && Continuation(c[3])
        && (|| (c[0] == 0xF0 && 0x90 <= c[1] <= 0xBF)
            || (0xF1 <= c[0] <= 0xF3 && Continuation(c[1]))
            || (c[0] == 0xF4 && 0x80 <= c[1] <= 0x8F)))
  }

  ghost predicate Utf8Text(s: bytes, chars: seq<bytes>) {
    (forall c <- chars :: Utf8Char(c)) && Flatten(chars) == s
  }

  /** The table-driven check accepts exactly the texts of the RFC's grammar. */
  lemma ValidIsRfc3629(s: bytes)
    ensures Valid(s) <==> exists chars :: Utf8Text(s, chars)
  {
    if Valid(s) {
      var chars := Characters(s);
    }
    forall chars | Utf8Text(s, chars)
      ensures Valid(s)
    {
      CharactersValid(chars);
    }
  }

  lemma {:induction false} Characters(s: bytes) returns (chars: seq<bytes>)
    requires Valid(s)
    ensures Utf8Text(s, chars)
    decreases |s|
  {
    if s == [] {
      chars := [];
    } else {
      var n := RuneLen(s);
      var rest := Characters(s[n..]);
      chars := [s[..n]] + rest;
      assert chars[1..] == rest;
    }
  }

  lemma {:induction false} CharactersValid(chars: seq<bytes>)
    requires forall c <- chars :: Utf8Char(c)
    ensures Valid(Flatten(chars))
  {
    if chars == [] {
    } else {
      CharactersValid(chars[1..]);
      var c := chars[0];
      assert c in chars;
      assert RuneLen(c) == |c| && c[|c|..] == [];
      ValidConcat(c, Flatten(chars[1..]));
    }
  }

  /** Where the backward scan from index i leaves a piece that was to end at cut. */
  function CutFrom(s: bytes, cut: nat, i: int): (r: nat)
    requires cut <= |s| && i < cut
    ensures r <= cut
    decreases i + 1
  {
    if i < 0 || i < cut - UTF_MAX then cut
    else if RuneStart(s[i]) then (if FullRune(s[i..cut]) then cut else i)
    else CutFrom(s, cut, i - 1)
  }

  /** A piece of s of at most cut bytes ends here. */
  function Cut(s: bytes, cut: nat): (r: nat)
    requires cut <= |s|
    ensures r <= cut
  {
    CutFrom(s, cut, cut - 1)
  }

  /** For any bytes at all, what the cut leaves behind is at most three bytes of one unfinished rune. */
  lemma {:induction false} CutLeavesUnfinishedRune(s: bytes, cut: nat, i: int)
    requires cut <= |s| && i < cut
    ensures var r := CutFrom(s, cut, i);
            r == cut || (r > cut - UTF_MAX && !FullRune(s[r..cut]))
    decreases i + 1
  {
    if 0 <= i && i >= cut - UTF_MAX && !RuneStart(s[i]) {
      CutLeavesUnfinishedRune(s, cut, i - 1);
    }
  }

  lemma {:induction false} ValidConcat(a: bytes, b: bytes)
    requires Valid(a) && Valid(b)
    ensures Valid(a + b)
    decreases |a|
  {
    if a == [] {
      assert a + b == b;
    } else {
      var n := RuneLen(a);
      assert RuneLen(a + b) == n;
      assert (a + b)[n..] == a[n..] + b;
      ValidConcat(a[n..], b);
    }
  }

  /** A well-formed text with a well-formed beginning has a well-formed rest. */
  lemma {:induction false} ValidRest(a: bytes, b: bytes)
    requires Valid(a) && Valid(a + b)
    ensures Valid(b)
    decreases |a|
  {
    if a == [] {
      assert a + b == b;
    } else {
      var n := RuneLen(a);
      assert RuneLen(a + b) == n;
      assert (a + b)[n..] == a[n..] + b;
      ValidRest(a[n..], b);
    }
  }

  /** A rune is a well-formed text. */
  lemma OneRune(s: bytes)
    requires RuneLen(s) > 0
    ensures RuneLen(s[..RuneLen(s)]) == RuneLen(s) && Valid(s[..RuneLen(s)])
  {
    var rune := s[..RuneLen(s)];
    assert RuneLen(rune) == |rune|;
    assert rune[|rune|..] == [];
  }

  lemma SplitTwice(s: bytes, n: nat, r: nat)
    requires n + r <= |s|
    ensures s[n..][r..] == s[n + r..] && s[..n + r] == s[..n] + s[n..][..r]
  {
  }

  /** The first rune and more of a well-formed text. */
  lemma RuneAndMore(s: bytes, r: nat)
    requires RuneLen(s) > 0 && RuneLen(s) + r <= |s| && Valid(s[RuneLen(s)..][..r])
    ensures Valid(s[..RuneLen(s) + r])
  {
    OneRune(s);
    SplitTwice(s, RuneLen(s), r);
    ValidConcat(s[..RuneLen(s)], s[RuneLen(s)..][..r]);
  }

  /** cut falls in, or at the end of, the rune that starts at b; what is before and behind b is well formed. */
  predicate RuneAt(s: bytes, b: nat, cut: nat) {
    b < |s| && b < cut <= b + RuneLen(s[b..]) && Valid(s[..b]) && Valid(s[b..])
  }

  lemma FirstRune(s: bytes, cut: nat)
    requires Valid(s) && 0 < cut <= RuneLen(s)
    ensures RuneAt(s, 0, cut)
  {
    assert s[0..] == s && s[..0] == [];
  }

  /** Where a rune is in what comes behind the first one, it is in the text. */
  lemma LaterRune(s: bytes, r: nat, cut: nat)
    requires RuneLen(s) > 0 && RuneLen(s) < cut && RuneAt(s[RuneLen(s)..], r, cut - RuneLen(s))
    ensures RuneAt(s, RuneLen(s) + r, cut)
  {
    RuneAndMore(s, r);
    SplitTwice(s, RuneLen(s), r);
  }

  /** The rune a position of a well-formed text falls in: it starts at b. */
  lemma {:induction false} RuneAround(s: bytes, cut: nat) returns (b: nat)
    requires Valid(s) && 0 < cut <= |s|
    ensures RuneAt(s, b, cut)
    decreases |s|
  {
    var n := RuneLen(s);
    if cut <= n {
      FirstRune(s, cut);
      b := 0;
    } else {
      var r := RuneAround(s[n..], cut - n);
      LaterRune(s, r, cut);
      b := n + r;
    }
  }

  lemma InsideRune(s: bytes, b: nat, i: nat)
    requires b <= |s| && b < i < b + RuneLen(s[b..])
    ensures i < |s| && Continuation(s[i])
  {
    assert s[b..][i - b] == s[i];
  }

  /** The beginning of a rune is a full rune only when it is all of it. */
  lemma BeginningOfRune(s: bytes, b: nat, cut: nat)
    requires cut <= |s| && b < cut <= b + RuneLen(s[b..])
    ensures RuneStart(s[b]) && (FullRune(s[b..cut]) <==> cut == b + RuneLen(s[b..]))
  {
    assert s[b..cut] == s[b..][..cut - b] && s[b..][0] == s[b];
  }

  /** Inside a well-formed text the scan finds the rune the cut falls in and keeps it whole. */
  lemma {:induction false} ScanFindsRune(s: bytes, cut: nat, b: nat, i: int)
    requires cut <= |s| && b <= i < cut
    requires b < cut <= b + RuneLen(s[b..])
    ensures CutFrom(s, cut, i) == if cut == b + RuneLen(s[b..]) then cut else b
    decreases i
  {
    if i == b {
      BeginningOfRune(s, b, cut);
    } else {
      InsideRune(s, b, i);
      ScanFindsRune(s, cut, b, i - 1);
    }
  }

  lemma PrefixRuneValid(s: bytes, b: nat)
    requires b < |s| && Valid(s[..b]) && RuneLen(s[b..]) > 0
    ensures Valid(s[..b + RuneLen(s[b..])])
  {
    var n := RuneLen(s[b..]);
    OneRune(s[b..]);
    SplitTwice(s, b, n);
    ValidConcat(s[..b], s[b..][..n]);
  }

  /** A cut in the rune at b leaves whole runes. */
  lemma CutAtRune(s: bytes, cut: nat, b: nat)
    requires cut <= |s| && RuneAt(s, b, cut)
    ensures Valid(s[..Cut(s, cut)])
  {
    ScanFindsRune(s, cut, b, cut - 1);
    if cut == b + RuneLen(s[b..]) {
      PrefixRuneValid(s, b);
    } else {
      assert Cut(s, cut) == b;
    }
  }

  /** Cutting a well-formed text leaves a well-formed piece. */
  lemma CutOfValid(s: bytes, cut: nat)
    requires Valid(s) && cut <= |s|
    ensures Valid(s[..Cut(s, cut)])
  {
    if cut == 0 {
      assert s[..Cut(s, 0)] == [];
    } else {
      var b := RuneAround(s, cut);
      CutAtRune(s, cut, b);
    }
  }

  lemma SplitBefore(buf: bytes, future: bytes, r: nat)
    requires r <= |buf|
    ensures (buf + future)[..r] == buf[..r] && buf + future == buf[..r] + (buf[r..] + future)
  {
  }

  /**
   Cutting inside a stream that is well formed once the rest has arrived: the
   piece is well formed, and so is everything after it.
   */
  lemma CutKeepsRunesWhole(buf: bytes, future: bytes, cut: nat)
    requires Valid(buf + future) && cut <= |buf|
    ensures var r := Cut(buf, cut);
            Valid(buf[..r]) && Valid(buf[r..] + future)
  {
    var r := Cut(buf, cut);
    CutFromPrefix(buf, future, cut, cut - 1);
    CutOfValid(buf + future, cut);
    SplitBefore(buf, future, r);
    ValidRest(buf[..r], buf[r..] + future);
  }

  lemma {:induction false} CutFromPrefix(buf: bytes, future: bytes, cut: nat, i: int)
    requires cut <= |buf| && i < cut
    ensures CutFrom(buf, cut, i) == CutFrom(buf + future, cut, i)
    decreases i + 1
  {
    if 0 <= i && i >= cut - UTF_MAX {
      assert (buf + future)[i..cut] == buf[i..cut];
      if !RuneStart(buf[i]) {
        CutFromPrefix(buf, future, cut, i - 1);
      }
    }
  }
}
