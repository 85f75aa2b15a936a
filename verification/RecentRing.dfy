/** The ring of recent log lines (logging/recent.go), which refines "the last max lines written". */
module RecentRing {
  import opened Lines

  /** strings.TrimRight(s, "\n"). */
  function TrimNewlines(s: string): string {
    if |s| > 0 && s[|s| - 1] == '\n' then TrimNewlines(s[..|s| - 1]) else s
  }

  function LastOf(all: seq<string>, max: nat): seq<string> {
    if |all| <= max then all else all[|all| - max..]
  }

  predicate At(s: string, sub: string, i: nat) {
    i + |sub| <= |s| && s[i..i + |sub|] == sub
  }

  /** strings.Contains. */
  predicate Contains(s: string, sub: string) {
    exists i :: 0 <= i <= |s| && At(s, sub, i)
  }

  predicate ContainsAny(s: string, subs: seq<string>) {
    exists sub <- subs :: sub != "" && Contains(s, sub)
  }

  /** An empty list of substrings matches everything. */
  predicate Matches(s: string, subs: seq<string>) {
    |subs| == 0 || ContainsAny(s, subs)
  }

  /** The matching ones of the first n lines, in order, each as redact leaves it. */
  function MatchingUpTo(lines: seq<string>, n: nat, subs: seq<string>, redact: string -> string): seq<string>
    requires n <= |lines|
  {
    if n == 0 then []
    else MatchingUpTo(lines, n - 1, subs, redact) + if Matches(lines[n - 1], subs) then [redact(lines[n - 1])] else []
  }

  function Matching(lines: seq<string>, subs: seq<string>, redact: string -> string): seq<string> {
    MatchingUpTo(lines, |lines|, subs, redact)
  }

  lemma {:induction false} AllMatch(lines: seq<string>, n: nat, redact: string -> string)
    requires n <= |lines|
    ensures |MatchingUpTo(lines, n, [], redact)| == n
    ensures forall i :: 0 <= i < n ==> MatchingUpTo(lines, n, [], redact)[i] == redact(lines[i])
  {
    if n == 0 {
    } else {
      AllMatch(lines, n - 1, redact);
    }
  }

  lemma Wrapped(a: nat, m: nat)
    requires a < 2 * m
    ensures a % m == if a < m then a else a - m
  {
  }

  /** Where the i-th oldest line is. */
  function Slot(next: nat, i: nat, length: nat): nat
    requires length > 0
  {
    (next + i) % length
  }

  class Ring {
    const max: nat
    var lines: seq<string>
    var next: nat
    ghost var all: seq<string>  // every line ever written

    ghost predicate Valid()
      reads this
    {
      && 0 < max && |lines| <= max && |lines| <= |all|
      && (|lines| < max ==> next == 0 && lines == all)
      && next < max
      && forall i :: 0 <= i < |lines| ==> lines[Slot(next, i, |lines|)] == all[|all| - |lines| + i]
    }

    constructor (max: nat)
      requires 0 < max
      ensures Valid() && all == [] && this.max == max
    {
      this.max, lines, next, all := max, [], 0, [];
    }

    /** One line of a Write. */
    method put(line: string)
      requires Valid()
      modifies this`lines, this`next, this`all
      ensures Valid() && all == old(all) + [line]
    {
      ghost var before, was, n := lines, all, next;
      all := all + [line];
      if |lines| < max {
        lines := lines + [line];
        forall i | 0 <= i < |lines|
          ensures lines[Slot(next, i, |lines|)] == all[|all| - |lines| + i]
        {
          Wrapped(i, |lines|);
        }
        return;
      }
      lines := lines[next := line];
      next := (next + 1) % max;
      Wrapped(n + 1, max);
      forall i | 0 <= i < max
        ensures lines[Slot(next, i, max)] == all[|all| - max + i]
      {
        Wrapped(next + i, max);
        if i < max - 1 {
          Wrapped(n + (i + 1), max);
          assert before[Slot(n, i + 1, max)] == was[|was| - max + (i + 1)];
        }
      }
    }

    /** Write: the lines of one log entry. */
    method Write(p: string) returns (n: nat)
      requires Valid()
      modifies this`lines, this`next, this`all
      ensures Valid() && n == |p|
      ensures all == old(all) + Split(TrimNewlines(p))
    {
      var entry := Split(TrimNewlines(p));
      var i := 0;
      while i < |entry|
        invariant 0 <= i <= |entry| && Valid() && all == old(all) + entry[..i]
      {
        put(entry[i]);
        assert entry[..i + 1] == entry[..i] + [entry[i]];
        i := i + 1;
      }
      assert entry[..|entry|] == entry;
      return |p|;
    }

    /** Lines: of the last max lines ever written those that match, oldest first. */
    method Lines(match_: seq<string>, redact: string -> string) returns (out: seq<string>)
      requires Valid()
      ensures out == Matching(LastOf(all, max), match_, redact)
      ensures match_ == [] ==> |out| == |LastOf(all, max)| && forall i :: 0 <= i < |out| ==> out[i] == redact(LastOf(all, max)[i])
    {
      ghost var last := LastOf(all, max);
      out := [];
      var i := 0;
      while i < |lines|
        invariant 0 <= i <= |lines| == |last|
        invariant out == MatchingUpTo(last, i, match_, redact)
      {
        var line := lines[(next + i) % |lines|];
        assert line == lines[Slot(next, i, |lines|)] == last[i];
        if |match_| == 0 || ContainsAny(line, match_) {
          out := out + [redact(line)];
        }
        i := i + 1;
      }
      if match_ == [] {
        AllMatch(last, |last|, redact);
      }
    }
  }

  /** Everything written by any sequence of Writes. */
  function Written(ps: seq<string>, n: nat): seq<string>
    requires n <= |ps|
  {
    if n == 0 then [] else Written(ps, n - 1) + Split(TrimNewlines(ps[n - 1]))
  }

  method WriteAll(max: nat, ps: seq<string>) returns (r: Ring)
    requires 0 < max
    ensures fresh(r) && r.Valid() && r.max == max && r.all == Written(ps, |ps|)
  {
    r := new Ring(max);
    var i := 0;
    while i < |ps|
      invariant 0 <= i <= |ps| && r.Valid() && r.all == Written(ps, i)
    {
      var n := r.Write(ps[i]);
      i := i + 1;
    }
  }

  /** Any Writes, of one line or many, and then Lines: of the last max lines written, those that match. */
  method AnyWrites(max: nat, ps: seq<string>, match_: seq<string>, redact: string -> string) returns (out: seq<string>)
    requires 0 < max
    ensures out == Matching(LastOf(Written(ps, |ps|), max), match_, redact)
  {
    var r := WriteAll(max, ps);
    out := r.Lines(match_, redact);
  }
}
