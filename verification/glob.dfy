/** Shell-pattern matching as `filepath.Match` does it: `*` stands for any run of
    characters other than '/', `?` for one character other than '/', `[...]` for a
    character class (`^` negates it, `lo-hi` is a range, `\` escapes), and `\c`
    for the literal `c`. A malformed pattern never matches.

    The matcher here is the declarative reading of those rules. Go's own matcher
    commits to the leftmost place where each star-free chunk fits; the two agree
    on every name without '/', and differ only where a character class admits
    '/' inside a name that contains '/'. */
module Glob {
  import opened Wrappers
  import opened Strs

  datatype Token = Star | AnyChar | Lit(c: char) | Class(negated: bool, ranges: seq<(char, char)>)

  /** One bound of a class range (Go's `getEsc`): a character, possibly escaped by
      '\'. It fails on '-', on ']' and at the end of the pattern, and when nothing
      follows it, since the class would then never close. */
  function ClassBound(p: string): (r: Option<(char, string)>)
    ensures r.Some? ==> 0 < |r.value.1| < |p|
  {
    if p == [] || p[0] == '-' || p[0] == ']' then None
    else
      var q := if p[0] == '\\' then p[1..] else p;
      if |q| <= 1 then None else Some((q[0], q[1..]))
  }

  /** The ranges of a class up to and including its closing ']', which closes the
      class only after at least one range. Gives the ranges and what follows ']'. */
  function ClassRanges(p: string, seen: nat): (r: Option<(seq<(char, char)>, string)>)
    ensures r.Some? ==> |r.value.1| < |p|
    decreases |p|
  {
    if p != [] && p[0] == ']' && seen > 0 then Some(([], p[1..]))
    else
      match ClassBound(p)
      case None => None
      case Some((lo, rest)) =>
        if rest[0] == '-' then
          match ClassBound(rest[1..])
          case None => None
          case Some((hi, rest2)) =>
            match ClassRanges(rest2, seen + 1)
            case None => None
            case Some((rs, tail)) => Some(([(lo, hi)] + rs, tail))
        else
          match ClassRanges(rest, seen + 1)
          case None => None
          case Some((rs, tail)) => Some(([(lo, lo)] + rs, tail))
  }

  function Prepend(t: Token, r: Option<seq<Token>>): Option<seq<Token>> {
    match r
    case None => None
    case Some(ts) => Some([t] + ts)
  }

  /** The tokens of a pattern, or None when it is malformed (a trailing '\' or a
      class that does not parse). */
  function Parse(p: string): Option<seq<Token>>
    decreases |p|
  {
    if p == [] then Some([])
    else if p[0] == '*' then Prepend(Star, Parse(p[1..]))
    else if p[0] == '?' then Prepend(AnyChar, Parse(p[1..]))
    else if p[0] == '\\' then
      if |p| < 2 then None else Prepend(Lit(p[1]), Parse(p[2..]))
    else if p[0] == '[' then
      var q := p[1..];
      var negated := q != [] && q[0] == '^';
      match ClassRanges(if negated then q[1..] else q, 0)
      case None => None
      case Some((rs, rest)) => Prepend(Class(negated, rs), Parse(rest))
    else Prepend(Lit(p[0]), Parse(p[1..]))
  }

  predicate InClass(c: char, ranges: seq<(char, char)>) {
    exists i :: 0 <= i < |ranges| && ranges[i].0 <= c <= ranges[i].1
  }

  predicate MatchTokens(ts: seq<Token>, s: string)
    decreases |ts|, |s|
  {
    if ts == [] then s == []
    else
      match ts[0]
      case Star => MatchTokens(ts[1..], s) || (s != [] && s[0] != '/' && MatchTokens(ts, s[1..]))
      case AnyChar => s != [] && s[0] != '/' && MatchTokens(ts[1..], s[1..])
      case Lit(c) => s != [] && s[0] == c && MatchTokens(ts[1..], s[1..])
      case Class(negated, rs) => s != [] && InClass(s[0], rs) != negated && MatchTokens(ts[1..], s[1..])
  }

  /** `filepath.Match(pattern, name)` read as a boolean: the error a malformed
      pattern gives counts as "no match". */
  predicate Match(pattern: string, name: string): (m: bool)
    ensures Parse(pattern) == None ==> !m
  {
    match Parse(pattern)
    case None => false
    case Some(ts) => MatchTokens(ts, name)
  }

  /** A pattern without any of the special characters `*`, `?`, `[` and `\`. */
  predicate IsPlain(p: string) {
    '*' !in p && '?' !in p && '[' !in p && '\\' !in p
  }

  function Lits(p: string): (ts: seq<Token>)
    ensures |ts| == |p|
    ensures forall i :: 0 <= i < |p| ==> ts[i] == Lit(p[i])
  {
    if p == [] then [] else [Lit(p[0])] + Lits(p[1..])
  }

  lemma {:induction false} ParsePlain(p: string)
    requires IsPlain(p)
    ensures Parse(p) == Some(Lits(p))
  {
    if p != [] {
      assert p[0] in p;
      assert forall c :: c in p[1..] ==> c in p;
      ParsePlain(p[1..]);
    }
  }

  lemma {:induction false} MatchLits(p: string, s: string)
    ensures MatchTokens(Lits(p), s) <==> s == p
  {
    if p != [] {
      assert Lits(p)[1..] == Lits(p[1..]);
      if s != [] {
        MatchLits(p[1..], s[1..]);
        assert s == [s[0]] + s[1..];
        assert p == [p[0]] + p[1..];
      }
    }
  }

  /** A plain pattern matches exactly itself. */
  lemma LiteralMatch(p: string, s: string)
    requires IsPlain(p)
    ensures Match(p, s) <==> s == p
  {
    ParsePlain(p);
    MatchLits(p, s);
  }

  lemma {:induction false} StarLits(suffix: string, s: string)
    requires '/' !in suffix
    ensures MatchTokens([Star] + Lits(suffix), s) <==> '/' !in s && HasSuffix(s, suffix)
  {
    var ts := [Star] + Lits(suffix);
    assert ts[1..] == Lits(suffix);
    MatchLits(suffix, s);
    if s != [] {
      StarLits(suffix, s[1..]);
      assert s == [s[0]] + s[1..];
      if HasSuffix(s, suffix) && s != suffix {
        assert |s| > |suffix|;
        assert s[1..][|s[1..]| - |suffix|..] == s[|s| - |suffix|..];
      }
      if HasSuffix(s[1..], suffix) {
        assert s[1..][|s[1..]| - |suffix|..] == s[|s| - |suffix|..];
      }
    }
  }

  /** `*` followed by a plain suffix without '/' matches exactly the names that have
      no '/' and end with that suffix (the shape of `*.go` or `*.png`). */
  lemma StarSuffixMatch(suffix: string, s: string)
    requires IsPlain(suffix) && '/' !in suffix
    ensures Match("*" + suffix, s) <==> '/' !in s && HasSuffix(s, suffix)
  {
    var p := "*" + suffix;
    assert p[1..] == suffix;
    ParsePlain(suffix);
    assert Parse(p) == Some([Star] + Lits(suffix));
    StarLits(suffix, s);
  }
}
