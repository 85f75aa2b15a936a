/** Lines of text, as Go's strings package takes them apart. Strings are sequences of Unicode code points. */
module Lines {

  /** unicode.IsSpace. */
  predicate IsSpace(c: char) {
    || '\t' <= c <= '\r'
    || c == ' ' || c == '\U{85}' || c == '\U{A0}' || c == '\U{1680}'
    || '\U{2000}' <= c <= '\U{200A}'
    || c == '\U{2028}' || c == '\U{2029}' || c == '\U{202F}' || c == '\U{205F}' || c == '\U{3000}'
  }

  predicate Blank(s: string) {
    forall i :: 0 <= i < |s| ==> IsSpace(s[i])
  }

  predicate NoSpace(s: string) {
    forall i :: 0 <= i < |s| ==> !IsSpace(s[i])
  }

  function TrimLeft(s: string): string {
    if |s| > 0 && IsSpace(s[0]) then TrimLeft(s[1..]) else s
  }

  function TrimRight(s: string): string {
    if |s| > 0 && IsSpace(s[|s| - 1]) then TrimRight(s[..|s| - 1]) else s
  }

  /** strings.TrimSpace. */
  function Trim(s: string): string {
    TrimRight(TrimLeft(s))
  }

  /** strings.Split(s, "\n") as far as it has come: the lines that are over, and the one that is not. */
  datatype Splitting = Splitting(done: seq<string>, current: string)

  function SplitUpTo(s: string, n: nat): Splitting
    requires n <= |s|
  {
    if n == 0 then Splitting([], "")
    else
      var r := SplitUpTo(s, n - 1);
      if s[n - 1] == '\n' then Splitting(r.done + [r.current], "") else r.(current := r.current + [s[n - 1]])
  }

  function Split(s: string): (lines: seq<string>)
    ensures |lines| > 0
  {
    var r := SplitUpTo(s, |s|);
    r.done + [r.current]
  }
}
