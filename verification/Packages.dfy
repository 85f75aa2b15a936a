/**
 Package listings and the uninstall loop that trusts them (packages.go).
 */
module Packages {
  import opened Bytes
  import opened Lines
  import opened Names

  // ---------- lines ----------

  /** The first n lines, trimmed, without the blank ones. */
  function NonBlankUpTo(lines: seq<string>, n: nat): seq<string>
    requires n <= |lines|
  {
    if n == 0 then []
    else
      var line := Trim(lines[n - 1]);
      NonBlankUpTo(lines, n - 1) + if line == "" then [] else [line]
  }

  function NonBlank(lines: seq<string>): seq<string> {
    NonBlankUpTo(lines, |lines|)
  }

  // ---------- a listing ----------

  const PACKAGE := "package:"
  const LISTING_END := "sair-listing-end"

  /** strings.CutPrefix(line, "package:"), a name that is not empty. */
  function NameIn(line: string): Option<string> {
    if PACKAGE <= line && line != PACKAGE then Some(line[|PACKAGE|..]) else None
  }

  /** The names of the first n lines, or None when one is not a package. */
  function NamesUpTo(lines: seq<string>, n: nat): Option<set<string>>
    requires n <= |lines|
  {
    if n == 0 then Some({})
    else if NamesUpTo(lines, n - 1).None? || NameIn(lines[n - 1]).None? then None
    else Some(NamesUpTo(lines, n - 1).value + {NameIn(lines[n - 1]).value})
  }

  /** completeListing: every line a package, and the end marker last. */
  function Complete(out: string): Option<set<string>> {
    var lines := NonBlank(Split(out));
    if |lines| == 0 || lines[|lines| - 1] != LISTING_END then None else NamesUpTo(lines, |lines| - 1)
  }

  lemma {:induction false} NamesNone(lines: seq<string>, n: nat, m: nat)
    requires n <= m <= |lines| && NamesUpTo(lines, n).None?
    ensures NamesUpTo(lines, m).None?
    decreases m
  {
    if n == m {
    } else {
      NamesNone(lines, n, m - 1);
    }
  }

  /** The loop that collects the non-blank lines. */
  method nonBlankLines(out: string) returns (lines: seq<string>)
    ensures lines == NonBlank(Split(out))
  {
    lines := [];
    var all := Split(out);
    var i := 0;
    while i < |all|
      invariant 0 <= i <= |all| && lines == NonBlankUpTo(all, i)
    {
      var line := Trim(all[i]);
      if line != "" {
        lines := lines + [line];
      }
      i := i + 1;
    }
  }

  /** What a listing that may be missing is accepted as. */
  function Accepted(out: Option<string>): Option<set<string>> {
    if out.Some? then Complete(out.value) else None
  }

  /** completeListing; out is None when the shell command failed. */
  method completeListing(out: Option<string>) returns (pkgs: Option<set<string>>)
    ensures pkgs == Accepted(out)
  {
    if out.None? {
      return None;
    }
    var lines := nonBlankLines(out.value);
    if |lines| == 0 || lines[|lines| - 1] != LISTING_END {
      return None;
    }
    var names: set<string> := {};
    var i := 0;
    while i < |lines| - 1
      invariant 0 <= i <= |lines| - 1 && NamesUpTo(lines, i) == Some(names)
    {
      if !(PACKAGE <= lines[i]) || lines[i] == PACKAGE {
        NamesNone(lines, i + 1, |lines| - 1);
        return None;
      }
      names := names + {lines[i][|PACKAGE|..]};
      i := i + 1;
    }
    return Some(names);
  }

  // ---------- what a phone prints ----------

  predicate GoodName(name: string) {
    name != "" && NoSpace(name)
  }

  predicate GoodNames(names: seq<string>) {
    forall i :: 0 <= i < |names| ==> GoodName(names[i])
  }

  function LineOf(name: string): string {
    PACKAGE + name
  }

  /** pm's lines for the first n names. */
  function Printed(names: seq<string>, n: nat): string
    requires n <= |names|
  {
    if n == 0 then "" else Printed(names, n - 1) + LineOf(names[n - 1]) + "\n"
  }

  /** pm list packages && echo sair-listing-end. */
  function Listing(names: seq<string>): string {
    Printed(names, |names|) + LISTING_END + "\n"
  }

  function NameSet(names: seq<string>): set<string> {
    set name <- names
  }

  // ---------- splitting what was printed ----------

  lemma {:induction false} SplitPrefix(s: string, t: string, n: nat)
    requires n <= |s|
    ensures SplitUpTo(s + t, n) == SplitUpTo(s, n)
  {
    if n == 0 {
    } else {
      SplitPrefix(s, t, n - 1);
    }
  }

  /** Text without a line end only makes the current line longer. */
  lemma {:induction false} SplitMore(s: string, t: string, n: nat)
    requires n <= |t| && NoSpace(t)
    ensures var r := SplitUpTo(s, |s|);
            SplitUpTo(s + t, |s| + n) == r.(current := r.current + t[..n])
  {
    if n == 0 {
      SplitPrefix(s, t, |s|);
      var r := SplitUpTo(s, |s|);
      assert r.current + [] == r.current;
    } else {
      SplitMore(s, t, n - 1);
      var r := SplitUpTo(s, |s|);
      assert r.current + t[..n - 1] + [t[n - 1]] == r.current + t[..n];
    }
  }

  lemma SplitWord(s: string, t: string)
    requires NoSpace(t)
    ensures var r := SplitUpTo(s, |s|);
            SplitUpTo(s + t, |s + t|) == r.(current := r.current + t)
  {
    SplitMore(s, t, |t|);
    assert t[..|t|] == t;
  }

  lemma SplitEnd(s: string)
    ensures var r := SplitUpTo(s, |s|);
            SplitUpTo(s + "\n", |s| + 1) == Splitting(r.done + [r.current], "")
  {
    SplitPrefix(s, "\n", |s|);
  }

  lemma SplitLine(s: string, t: string)
    requires NoSpace(t) && SplitUpTo(s, |s|).current == ""
    ensures SplitUpTo(s + t + "\n", |s + t + "\n"|) == Splitting(SplitUpTo(s, |s|).done + [t], "")
  {
    SplitWord(s, t);
    SplitEnd(s + t);
    assert "" + t == t;
  }

  function LinesOf(names: seq<string>, n: nat): seq<string>
    requires n <= |names|
  {
    if n == 0 then [] else LinesOf(names, n - 1) + [LineOf(names[n - 1])]
  }

  lemma LineHasNoSpace(name: string)
    requires GoodName(name)
    ensures NoSpace(LineOf(name)) && LineOf(name) != "" && NameIn(LineOf(name)) == Some(name)
  {
  }

  lemma {:induction false} SplitPrinted(names: seq<string>, n: nat)
    requires GoodNames(names) && n <= |names|
    ensures SplitUpTo(Printed(names, n), |Printed(names, n)|) == Splitting(LinesOf(names, n), "")
  {
    if n == 0 {
    } else {
      SplitPrinted(names, n - 1);
      LineHasNoSpace(names[n - 1]);
      SplitLine(Printed(names, n - 1), LineOf(names[n - 1]));
    }
  }

  lemma TrimWord(s: string)
    requires NoSpace(s)
    ensures Trim(s) == s
  {
  }

  lemma {:induction false} NonBlankPrefix(a: seq<string>, b: seq<string>, n: nat)
    requires n <= |a|
    ensures NonBlankUpTo(a + b, n) == NonBlankUpTo(a, n)
  {
    if n == 0 {
    } else {
      NonBlankPrefix(a, b, n - 1);
    }
  }

  lemma NonBlankSnoc(a: seq<string>, line: string)
    requires NoSpace(line)
    ensures NonBlank(a + [line]) == if line == "" then NonBlank(a) else NonBlank(a) + [line]
  {
    NonBlankPrefix(a, [line], |a|);
    TrimWord(line);
    assert NonBlank(a) + [] == NonBlank(a);
  }

  lemma {:induction false} LinesPrinted(names: seq<string>, n: nat)
    requires n <= |names|
    ensures |LinesOf(names, n)| == n && forall i :: 0 <= i < n ==> LinesOf(names, n)[i] == LineOf(names[i])
  {
    if n == 0 {
    } else {
      LinesPrinted(names, n - 1);
    }
  }

  /** A line that is not blank, and has no space, is kept as it is. */
  lemma NonBlankMore(lines: seq<string>, line: string)
    requires NonBlank(lines) == lines && NoSpace(line) && line != ""
    ensures NonBlank(lines + [line]) == lines + [line]
  {
    NonBlankSnoc(lines, line);
  }

  lemma {:induction false} NonBlankPrinted(names: seq<string>, n: nat)
    requires GoodNames(names) && n <= |names|
    ensures NonBlank(LinesOf(names, n)) == LinesOf(names, n)
  {
    if n == 0 {
    } else {
      NonBlankPrinted(names, n - 1);
      LineHasNoSpace(names[n - 1]);
      NonBlankMore(LinesOf(names, n - 1), LineOf(names[n - 1]));
    }
  }

  lemma {:induction false} NamesPrinted(lines: seq<string>, names: seq<string>, n: nat)
    requires GoodNames(names) && n <= |names| && n <= |lines|
    requires forall i :: 0 <= i < n ==> lines[i] == LineOf(names[i])
    ensures NamesUpTo(lines, n) == Some(NameSet(names[..n]))
  {
    if n > 0 {
      NamesPrinted(lines, names, n - 1);
      LineHasNoSpace(names[n - 1]);
      assert names[..n] == names[..n - 1] + [names[n - 1]];
      assert NameSet(names[..n]) == NameSet(names[..n - 1]) + {names[n - 1]};
    } else {
      assert NameSet(names[..0]) == {};
    }
  }

  // ---------- the parts of a listing ----------

  /** k whole lines and a part of the next, without its end. */
  lemma Partial(names: seq<string>, k: nat, part: string)
    requires GoodNames(names) && k <= |names| && NoSpace(part)
    ensures NonBlank(Split(Printed(names, k) + part)) == if part == "" then LinesOf(names, k) else LinesOf(names, k) + [part]
  {
    SplitPrinted(names, k);
    SplitWord(Printed(names, k), part);
    assert "" + part == part;
    NonBlankPrinted(names, k);
    NonBlankSnoc(LinesOf(names, k), part);
  }

  lemma EndHasNoSpace()
    ensures NoSpace(LISTING_END) && LISTING_END != "" && LISTING_END[0] == 's'
  {
  }

  /** The listing cut inside a line that is not all there is refused. */
  lemma CutShort(names: seq<string>, k: nat, part: string)
    requires GoodNames(names) && k <= |names| && NoSpace(part) && part != LISTING_END
    ensures Complete(Printed(names, k) + part).None?
  {
    Partial(names, k, part);
    LinesPrinted(names, k);
    EndHasNoSpace();
    if part == "" && k > 0 {
      assert LineOf(names[k - 1])[0] == 'p';
    }
  }

  lemma WholeLines(names: seq<string>, ended: bool)
    requires GoodNames(names)
    ensures var text := Printed(names, |names|) + LISTING_END;
            NonBlank(Split(if ended then text + "\n" else text)) == LinesOf(names, |names|) + [LISTING_END]
  {
    var n := |names|;
    EndHasNoSpace();
    if ended {
      SplitPrinted(names, n);
      SplitLine(Printed(names, n), LISTING_END);
      NonBlankPrinted(names, n);
      NonBlankSnoc(LinesOf(names, n), LISTING_END);
      NonBlankSnoc(LinesOf(names, n) + [LISTING_END], "");
    } else {
      Partial(names, n, LISTING_END);
    }
  }

  lemma LinesAccepted(names: seq<string>, lines: seq<string>)
    requires GoodNames(names) && lines == LinesOf(names, |names|) + [LISTING_END]
    ensures |lines| == |names| + 1 && NamesUpTo(lines, |names|) == Some(NameSet(names))
  {
    LinesPrinted(names, |names|);
    NamesPrinted(lines, names, |names|);
    assert names[..|names|] == names;
  }

  /** Only the line end of the marker is missing, or nothing is. */
  lemma AllThere(names: seq<string>, ended: bool)
    requires GoodNames(names)
    ensures var text := Printed(names, |names|) + LISTING_END;
            Complete(if ended then text + "\n" else text) == Some(NameSet(names))
  {
    WholeLines(names, ended);
    LinesAccepted(names, LinesOf(names, |names|) + [LISTING_END]);
  }

  /** Where the first n characters of what pm printed for k names end. */
  lemma {:induction false} CutPoint(names: seq<string>, k: nat, n: nat) returns (j: nat, part: string)
    requires GoodNames(names) && k <= |names| && n < |Printed(names, k)|
    ensures j < k && NoSpace(part) && part <= LineOf(names[j])
    ensures Printed(names, k)[..n] == Printed(names, j) + part
    decreases k
  {
    var before := Printed(names, k - 1);
    if n < |before| {
      j, part := CutPoint(names, k - 1, n);
      assert Printed(names, k)[..n] == before[..n];
    } else {
      j := k - 1;
      part := LineOf(names[j])[..n - |before|];
      LineHasNoSpace(names[j]);
      assert Printed(names, k)[..n] == before + part;
    }
  }

  lemma PartIsNoEnd(name: string, part: string)
    requires part <= LineOf(name)
    ensures part != LISTING_END
  {
    EndHasNoSpace();
    assert part != "" ==> part[0] == 'p';
  }

  lemma CutInPackages(names: seq<string>, n: nat)
    requires GoodNames(names) && n < |Printed(names, |names|)|
    ensures Complete(Listing(names)[..n]).None? && !Blank(Listing(names)[n..])
  {
    var text := Printed(names, |names|);
    var all := Listing(names);
    var j, part := CutPoint(names, |names|, n);
    assert all[..n] == text[..n];
    PartIsNoEnd(names[j], part);
    CutShort(names, j, part);
    EndHasNoSpace();
    assert all[n..][|text| - n] == all[|text|] == LISTING_END[0];
  }

  lemma CutInMarker(names: seq<string>, n: nat)
    requires GoodNames(names) && |Printed(names, |names|)| <= n < |Printed(names, |names|) + LISTING_END|
    ensures Complete(Listing(names)[..n]).None? && !Blank(Listing(names)[n..])
  {
    var text := Printed(names, |names|);
    var all := Listing(names);
    EndHasNoSpace();
    var part := LISTING_END[..n - |text|];
    assert all[..n] == text + part;
    CutShort(names, |names|, part);
    assert all[n..][0] == all[n] == LISTING_END[n - |text|];
  }

  /**
   A listing cut short anywhere is accepted exactly when nothing but white space
   is missing, and then it names the packages that are there, no more and no less.
   */
  lemma AcceptedIffWhole(names: seq<string>, n: nat)
    requires GoodNames(names) && n <= |Listing(names)|
    ensures Complete(Listing(names)[..n]).Some? <==> Blank(Listing(names)[n..])
    ensures Complete(Listing(names)[..n]).Some? ==> Complete(Listing(names)[..n]).value == NameSet(names)
  {
    var text := Printed(names, |names|);
    var all := Listing(names);
    if n < |text| {
      CutInPackages(names, n);
    } else if n < |text + LISTING_END| {
      CutInMarker(names, n);
    } else {
      assert all[..n] == if n == |all| then text + LISTING_END + "\n" else text + LISTING_END;
      AllThere(names, n == |all|);
      assert all[n..] == if n == |all| then "" else "\n";
    }
  }

  // ---------- ListPackages and ResetPackages ----------

  /** ListPackages: the packages of a complete listing; a blank one is believed only if pm can name a system package. */
  method ListPackages(third: Option<string>, system: Option<string>) returns (pkgs: Option<set<string>>)
    ensures pkgs.Some? ==> pkgs == Accepted(third)
    ensures pkgs.Some? <==>
              && Accepted(third).Some?
              && (Accepted(third).value == {} ==> Accepted(system).Some? && Accepted(system).value != {})
  {
    pkgs := completeListing(third);
    if pkgs == Some({}) {
      var sys := completeListing(system);
      if sys.None? || sys.value == {} {
        return None;
      }
    }
  }

  lemma NoNamesNoSet(names: seq<string>)
    ensures NameSet(names) == {} <==> names == []
  {
    assert names != [] ==> names[0] in NameSet(names);
  }

  /**
   A snapshot over listings that may each have been cut short anywhere: it is
   an error or exactly what is installed, and it is no error exactly when the
   listing is whole and either names something or is backed by a whole listing
   that names a system package.
   */
  method SnapshotOfCutListings(names: seq<string>, n: nat, sys: seq<string>, m: nat) returns (pkgs: Option<set<string>>)
    requires GoodNames(names) && n <= |Listing(names)|
    requires GoodNames(sys) && m <= |Listing(sys)|
    ensures pkgs.Some? ==> pkgs.value == NameSet(names)
    ensures pkgs.Some? <==> Blank(Listing(names)[n..]) && (names != [] || (sys != [] && Blank(Listing(sys)[m..])))
  {
    AcceptedIffWhole(names, n);
    AcceptedIffWhole(sys, m);
    NoNamesNoSet(names);
    NoNamesNoSet(sys);
    pkgs := ListPackages(Some(Listing(names)[..n]), Some(Listing(sys)[..m]));
  }

  /** parsePackages, which a baseline reset uses: the lines that name a package, whatever else there is. */
  function ParsedUpTo(lines: seq<string>, n: nat): set<string>
    requires n <= |lines|
  {
    if n == 0 then {}
    else
      var name := NameIn(Trim(lines[n - 1]));
      ParsedUpTo(lines, n - 1) + if name.Some? then {name.value} else {}
  }

  method parsePackages(out: string) returns (pkgs: set<string>)
    ensures pkgs == ParsedUpTo(Split(out), |Split(out)|)
  {
    pkgs := {};
    var lines := Split(out);
    var i := 0;
    while i < |lines|
      invariant 0 <= i <= |lines| && pkgs == ParsedUpTo(lines, i)
    {
      var line := Trim(lines[i]);
      if PACKAGE <= line && line != PACKAGE {
        pkgs := pkgs + {line[|PACKAGE|..]};
      }
      i := i + 1;
    }
  }

  /** What goes of pkgs: what is installed and does not refuse. */
  function Going(pkgs: set<string>, installed: set<string>, stubborn: set<string>): set<string> {
    (pkgs * installed) - stubborn
  }

  lemma OneGoes(tried: set<string>, pkg: string, installed: set<string>, stubborn: set<string>, removed: seq<string>)
    requires pkg !in tried && OnceEach(removed, Going(tried, installed, stubborn))
    requires pkg in installed && pkg !in stubborn
    ensures var goes := Going(tried, installed, stubborn);
            && Going(tried + {pkg}, installed, stubborn) == goes + {pkg} && pkg !in goes
            && OnceEach(removed + [pkg], goes + {pkg})
            && installed - (goes + {pkg}) == installed - goes - {pkg}
  {
  }

  lemma OneStays(tried: set<string>, pkg: string, installed: set<string>, stubborn: set<string>)
    requires pkg !in installed || pkg in stubborn
    ensures Going(tried + {pkg}, installed, stubborn) == Going(tried, installed, stubborn)
  {
  }

  /** A phone's packages, and those of them that refuse to go. */
  class Phone {
    var installed: set<string>
    const stubborn: set<string>

    constructor (installed: set<string>, stubborn: set<string>)
      ensures this.installed == installed && this.stubborn == stubborn
    {
      this.installed, this.stubborn := installed, stubborn;
    }

    method uninstall(pkg: string) returns (ok: bool)
      modifies this`installed
      ensures ok <==> pkg in old(installed) && pkg !in stubborn
      ensures installed == if ok then old(installed) - {pkg} else old(installed)
    {
      ok := pkg in installed && pkg !in stubborn;
      if ok {
        installed := installed - {pkg};
      }
    }

    /**
     ResetPackages: with since its packages are kept and the listing must be
     complete; without, the baseline's, and there must be one. removed has what
     went, each once.
     */
    method ResetPackages(since: Option<set<string>>, baseline: Option<set<string>>, out: Option<string>)
      returns (ok: bool, removed: seq<string>)
      modifies this`installed
      ensures ok <==> out.Some? && if since.Some? then Complete(out.value).Some? else baseline.Some?
      ensures !ok ==> removed == [] && installed == old(installed)
      ensures ok ==>
                var listed := if since.Some? then Complete(out.value).value else ParsedUpTo(Split(out.value), |Split(out.value)|);
                var keep := if since.Some? then since.value else baseline.value;
                var goes := Going(listed - keep, old(installed), stubborn);
                && OnceEach(removed, goes)
                && installed == old(installed) - goes
    {
      removed := [];
      if since.None? && baseline.None? {
        return false, [];
      }
      var keep := if since.Some? then since.value else baseline.value;
      var listed: set<string> := {};
      if since.Some? {
        var complete := completeListing(out);
        if complete.None? {
          return false, [];
        }
        listed := complete.value;
      } else {
        if out.None? {
          return false, [];
        }
        listed := parsePackages(out.value);
      }
      removed := uninstallEach(listed - keep);
      return true, removed;
    }

    /** One round of the uninstall loop; a package that refuses to go stays. */
    method uninstallNext(pkg: string, removed: seq<string>, ghost was: set<string>, ghost tried: set<string>)
      returns (more: seq<string>)
      requires pkg !in tried && OnceEach(removed, Going(tried, was, stubborn)) && installed == was - Going(tried, was, stubborn)
      modifies this`installed
      ensures OnceEach(more, Going(tried + {pkg}, was, stubborn)) && installed == was - Going(tried + {pkg}, was, stubborn)
    {
      more := removed;
      var ok := uninstall(pkg);
      if ok {
        OneGoes(tried, pkg, was, stubborn, removed);
        more := removed + [pkg];
      } else {
        OneStays(tried, pkg, was, stubborn);
      }
    }

    method uninstallEach(pkgs: set<string>) returns (removed: seq<string>)
      modifies this`installed
      ensures var goes := Going(pkgs, old(installed), stubborn);
              && OnceEach(removed, goes)
              && installed == old(installed) - goes
    {
      removed := [];
      var todo := pkgs;
      ghost var tried := {};
      while todo != {}
        invariant tried + todo == pkgs && tried !! todo
        invariant OnceEach(removed, Going(tried, old(installed), stubborn))
        invariant installed == old(installed) - Going(tried, old(installed), stubborn)
      {
        var pkg :| pkg in todo;
        removed := uninstallNext(pkg, removed, old(installed), tried);
        tried, todo := tried + {pkg}, todo - {pkg};
      }
      assert tried == pkgs;
    }
  }

  /**
   A reset of a relayed phone, whose listing may have been cut short anywhere:
   either nothing is uninstalled, or exactly what is installed beyond the
   snapshot is tried. No name that was cut short is ever tried.
   */
  method SinceReset(phone: Phone, names: seq<string>, n: nat, since: set<string>) returns (ok: bool, removed: seq<string>)
    requires GoodNames(names) && NameSet(names) == phone.installed && n <= |Listing(names)|
    modifies phone
    ensures ok <==> Blank(Listing(names)[n..])
    ensures !ok ==> removed == [] && phone.installed == old(phone.installed)
    ensures ok ==> phone.installed == old(phone.installed) - ((old(phone.installed) - since) - phone.stubborn)
    ensures ok ==> OnceEach(removed, (old(phone.installed) - since) - phone.stubborn)
  {
    AcceptedIffWhole(names, n);
    ok, removed := phone.ResetPackages(Some(since), None, Some(Listing(names)[..n]));
    if ok {
      assert Going(NameSet(names) - since, old(phone.installed), phone.stubborn) == (old(phone.installed) - since) - phone.stubborn;
    }
  }
}
