/** The three line matchers of the search-execution engine
    (securelog-client/src/searchrunner.rs): substring containment for
    Contains, a whole-line glob for Wildcard (the `wildmatch` crate's
    semantics: `*` matches any run of characters, `?` exactly one), and an
    opaque predicate produced by the regex compiler for Regex. */
module Matchers {
  import opened Seqs

  /** `needle` occurs in `hay` starting at index `i`. */
  ghost predicate OccursAt(needle: string, hay: string, i: int) {
    0 <= i && i + |needle| <= |hay| && hay[i..i + |needle|] == needle
  }

  /** `str::contains`: `needle` is a contiguous part of `hay`. */
  predicate IsSubstring(needle: string, hay: string)
    decreases |hay|
  {
    (|needle| <= |hay| && hay[..|needle|] == needle) ||
    (hay != [] && IsSubstring(needle, hay[1..]))
  }

  /** IsSubstring holds exactly when the needle occurs at some index. */
  lemma {:induction false} IsSubstringIffOccurs(needle: string, hay: string)
    ensures IsSubstring(needle, hay) <==> exists i :: OccursAt(needle, hay, i)
    decreases |hay|
  {
    if |needle| <= |hay| && hay[..|needle|] == needle {
      assert OccursAt(needle, hay, 0);
    }
    if hay != [] {
      IsSubstringIffOccurs(needle, hay[1..]);
      if IsSubstring(needle, hay[1..]) {
        var i :| OccursAt(needle, hay[1..], i);
        assert hay[i + 1..i + 1 + |needle|] == hay[1..][i..i + |needle|];
        assert OccursAt(needle, hay, i + 1);
      }
      if exists i :: OccursAt(needle, hay, i) {
        var i :| OccursAt(needle, hay, i);
        if i > 0 {
          assert hay[1..][i - 1..i - 1 + |needle|] == hay[i..i + |needle|];
          assert OccursAt(needle, hay[1..], i - 1);
        } else {
          assert hay[..|needle|] == needle;
        }
      }
    } else {
      if exists i :: OccursAt(needle, hay, i) {
        var i :| OccursAt(needle, hay, i);
        assert needle == [] && hay[..0] == [];
      }
    }
  }

  /** A needle longer than the line never occurs in it. */
  lemma {:induction false} TooLongNotSubstring(needle: string, hay: string)
    requires |needle| > |hay|
    ensures !IsSubstring(needle, hay)
    decreases |hay|
  {
    if hay != [] {
      TooLongNotSubstring(needle, hay[1..]);
    }
  }

  /** The empty pattern is contained in every line. */
  lemma EmptyNeedleEverywhere(hay: string)
    ensures IsSubstring([], hay)
  {
    assert hay[..0] == [];
  }

  /** `WildMatch::matches`: the whole of `s` is matched by the glob `p`. */
  predicate WildMatch(p: string, s: string)
    decreases |p| + |s|
  {
    if p == [] then s == []
    else if p[0] == '*' then WildMatch(p[1..], s) || (s != [] && WildMatch(p, s[1..]))
    else s != [] && (p[0] == '?' || p[0] == s[0]) && WildMatch(p[1..], s[1..])
  }

  /** A pattern without wildcard characters. */
  predicate Literal(p: string) {
    forall i :: 0 <= i < |p| ==> p[i] != '*' && p[i] != '?'
  }

  /** Without wildcards, a glob matches exactly the line equal to it. */
  lemma {:induction false} LiteralMatchesItselfOnly(p: string, s: string)
    requires Literal(p)
    ensures WildMatch(p, s) <==> s == p
    decreases |p|
  {
    if p != [] && s != [] {
      assert Literal(p[1..]);
      LiteralMatchesItselfOnly(p[1..], s[1..]);
      if s == p {
        assert s[1..] == p[1..];
      }
      if WildMatch(p, s) {
        assert s == [s[0]] + s[1..] && p == [p[0]] + p[1..];
      }
    }
  }

  /** Without `*`, a glob only matches lines of its own length: it is
      anchored at both ends. */
  lemma {:induction false} StarFreeMatchLength(p: string, s: string)
    requires forall i :: 0 <= i < |p| ==> p[i] != '*'
    requires WildMatch(p, s)
    ensures |s| == |p|
    decreases |p|
  {
    if p != [] {
      StarFreeMatchLength(p[1..], s[1..]);
    }
  }

  /** A lone `*` matches every line. */
  lemma {:induction false} StarMatchesEverything(s: string)
    ensures WildMatch("*", s)
    decreases |s|
  {
    assert "*"[1..] == [];
    if s != [] {
      StarMatchesEverything(s[1..]);
    }
  }

  /** A literal followed by `*` matches exactly the lines starting with the
      literal: the glob is anchored at the start, not searched for. */
  lemma {:induction false} LiteralThenStar(lit: string, s: string)
    requires Literal(lit)
    ensures WildMatch(lit + "*", s) <==> (|lit| <= |s| && s[..|lit|] == lit)
    decreases |lit|
  {
    if lit == [] {
      assert lit + "*" == "*";
      StarMatchesEverything(s);
    } else {
      assert (lit + "*")[0] == lit[0];
      assert (lit + "*")[1..] == lit[1..] + "*";
      assert Literal(lit[1..]);
      if s != [] {
        LiteralThenStar(lit[1..], s[1..]);
        if |lit| <= |s| && s[..|lit|] == lit {
          assert s[1..][..|lit| - 1] == s[..|lit|][1..];
        }
        if WildMatch(lit + "*", s) {
          assert s[..|lit|] == [s[0]] + s[1..][..|lit| - 1];
        }
      }
    }
  }

  /** Two glob examples: `ERROR *` accepts a line that
      starts with `ERROR ` and rejects one that merely contains it. */
  lemma ErrorGlobExamples()
    ensures WildMatch("ERROR *", "ERROR disk full")
    ensures !WildMatch("ERROR *", "disk full ERROR")
  {
    assert "ERROR *" == "ERROR " + "*";
    assert Literal("ERROR ");
    LiteralThenStar("ERROR ", "ERROR disk full");
    LiteralThenStar("ERROR ", "disk full ERROR");
    assert "ERROR disk full"[..6] == "ERROR ";
    assert "disk full ERROR"[..6] != "ERROR ";
  }

  /** The compiled matcher of one search. A regex is modelled by the
      membership predicate the compiled expression decides. */
  datatype LineMatcher =
    | ContainsMatcher(needle: string)
    | RegexMatcher(isMatch: string -> bool)
    | WildcardMatcher(pattern: string)

  predicate Matches(m: LineMatcher, line: string) {
    match m
    case ContainsMatcher(needle) => IsSubstring(needle, line)
    case RegexMatcher(isMatch) => isMatch(line)
    case WildcardMatcher(pattern) => WildMatch(pattern, line)
  }

  /** The matcher as a line predicate. */
  function Accepts(m: LineMatcher): string -> bool {
    line => Matches(m, line)
  }

  /** The lines a matcher keeps, in file order. */
  function Keep(lines: seq<string>, m: LineMatcher): seq<string> {
    Filter(lines, Accepts(m))
  }

  /** A line is kept iff it occurs in the file and matches. */
  lemma KeepExactly(lines: seq<string>, m: LineMatcher, x: string)
    ensures x in Keep(lines, m) <==> x in lines && Matches(m, x)
  {
    FilterMembers(lines, Accepts(m), x);
  }

  /** Kept lines are verbatim lines of the file, in file order. */
  lemma KeepInFileOrder(lines: seq<string>, m: LineMatcher)
    ensures Subsequence(Keep(lines, m), lines)
    ensures |Keep(lines, m)| <= |lines|
  {
    FilterSubsequence(lines, Accepts(m));
  }
}
