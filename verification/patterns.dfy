/** The include/exclude filter (patterns.go): which walked paths are processed. */
module Patterns {
  import opened Wrappers
  import opened Strs
  import opened Paths
  import opened Types
  import Glob

  datatype PatternMatcher = PatternMatcher(includePatterns: seq<string>, excludePatterns: seq<string>)

  /** The built-in deny-list: version-control and build directories, binary and
      image extensions, cache directories. */
  function DefaultExcludes(): seq<string> {
    [ ".git", ".svn", ".hg",
      "target", "node_modules", "dist", "build",
      "*.exe", "*.dll", "*.so", "*.dylib", "*.o", "*.obj",
      "*.jpg", "*.jpeg", "*.png", "*.gif", "*.bmp",
      "*.ico", "*.svg", "*.webp", "*.tiff", "*.raw", "*.heic",
      "__pycache__", ".mypy_cache", ".pytest_cache" ]
  }

  /** A nil exclude list is replaced by the deny-list; a non-nil one, even empty, is
      kept. A nil include list is the empty list. */
  function NewPatternMatcher(includes: PatternList, excludes: PatternList): PatternMatcher {
    PatternMatcher(includes.GetOr([]), if excludes.None? then DefaultExcludes() else excludes.value)
  }

  // What `matchPattern` decides: a `**/` pattern's remainder is tried on the
  // whole path and on what follows its last '/'; any other pattern is tried on
  // the base name only.
  predicate PatternMatches(pattern: string, path: string) {
    if HasPrefix(pattern, "**/") then
      var rest := pattern[3..];
      Glob.Match(rest, path) || Glob.Match(rest, AfterLastSlash(path))
    else
      Glob.Match(pattern, Base(path))
  }

  /** Some element of `s` satisfies `f`. */
  predicate SomeHolds(s: seq<string>, f: string -> bool) {
    exists i :: 0 <= i < |s| && f(s[i])
  }

  /** "This pattern matches `path`", as a value. */
  function MatchesPath(path: string): string -> bool {
    p => PatternMatches(p, path)
  }

  /** Some pattern of the list matches the path. */
  predicate AnyMatches(patterns: seq<string>, path: string) {
    SomeHolds(patterns, MatchesPath(path))
  }

  /** What `ShouldProcess` decides: some include pattern matches (when there are
      any), and no exclude pattern does. */
  predicate Accepts(pm: PatternMatcher, path: string) {
    && (|pm.includePatterns| == 0 || AnyMatches(pm.includePatterns, path))
    && !AnyMatches(pm.excludePatterns, path)
  }

  // `matchPattern`: for `**/`, a loop that tries the path and then cuts it after
  // its last '/', until no '/' is left.
  method MatchPattern(pattern: string, path: string) returns (matched: bool)
    ensures matched == PatternMatches(pattern, path)
  {
    if HasPrefix(pattern, "**/") {
      var rest := pattern[3..];
      var p := path;
      while true
        invariant p == path || (p == AfterLastSlash(path) && !Glob.Match(rest, path))
        decreases |p|
      {
        if Glob.Match(rest, p) {
          return true;
        }
        var lastSlash := LastIndex(p, '/');
        if lastSlash == -1 {
          break;
        }
        p := p[lastSlash + 1..];
      }
      return false;
    }
    matched := Glob.Match(pattern, Base(path));
  }

  /** `PatternMatcher.ShouldProcess`. */
  method ShouldProcess(pm: PatternMatcher, path: string) returns (ok: bool)
    ensures ok == Accepts(pm, path)
  {
    if |pm.includePatterns| > 0 {
      var matches := MatchAny(pm.includePatterns, path);
      if !matches {
        return false;
      }
    }
    var excluded := MatchAny(pm.excludePatterns, path);
    if excluded {
      return false;
    }
    return true;
  }

  /** The two loops of `ShouldProcess`: try the patterns in order and stop at
      the first that matches. */
  method MatchAny(patterns: seq<string>, path: string) returns (found: bool)
    ensures found == AnyMatches(patterns, path)
  {
    var i := 0;
    while i < |patterns|
      invariant 0 <= i <= |patterns|
      invariant !SomeHolds(patterns[..i], MatchesPath(path))
    {
      var m := MatchPattern(patterns[i], path);
      SomeHoldsStep(patterns, MatchesPath(path), i);
      if m {
        SomeHoldsPrefix(patterns, MatchesPath(path), i + 1);
        return true;
      }
      i := i + 1;
    }
    assert patterns[..i] == patterns;
    return false;
  }

  /** Looking at one more element: some of the first `i + 1` satisfy `f` when
      some of the first `i` do or element `i` does. */
  lemma SomeHoldsStep(s: seq<string>, f: string -> bool, i: nat)
    requires i < |s|
    ensures SomeHolds(s[..i + 1], f) <==> SomeHolds(s[..i], f) || f(s[i])
  {
    var pre := s[..i + 1];
    assert pre[i] == s[i];
    if SomeHolds(s[..i], f) {
      var j :| 0 <= j < i && f(s[..i][j]);
      assert pre[j] == s[..i][j];
    }
    if SomeHolds(pre, f) && !f(s[i]) {
      var j :| 0 <= j < i + 1 && f(pre[j]);
      assert s[..i][j] == pre[j];
    }
  }

  /** What holds for some of the first `i` elements holds for some element. */
  lemma SomeHoldsPrefix(s: seq<string>, f: string -> bool, i: nat)
    requires i <= |s| && SomeHolds(s[..i], f)
    ensures SomeHolds(s, f)
  {
    var j :| 0 <= j < i && f(s[..i][j]);
    assert s[j] == s[..i][j];
  }

  lemma BaseOfName(name: string)
    requires name != "" && '/' !in name
    ensures Base(name) == name
  {
    assert TrimTrailingSlashes(name) == name;
  }

  /** The base name of a path whose last '/' is at `k` and that does not end in '/'. */
  lemma BaseAfterSlash(p: string, k: nat)
    requires k < |p| - 1 && p[k] == '/'
    requires forall j :: k < j < |p| ==> p[j] != '/'
    ensures Base(p) == p[k + 1..]
  {
    assert TrimTrailingSlashes(p) == p;
  }

  // A plain pattern (no wildcard, so no `**/` prefix) is compared with the base
  // name only: `node_modules` rejects `a/node_modules` but not `node_modules/x.js`.
  lemma PlainPatternMatchesBase(pattern: string, path: string)
    requires Glob.IsPlain(pattern)
    ensures PatternMatches(pattern, path) <==> Base(path) == pattern
  {
    Glob.LiteralMatch(pattern, Base(path));
  }

  lemma AfterSlashAt(p: string, k: nat)
    requires k < |p| && p[k] == '/'
    requires forall j :: k < j < |p| ==> p[j] != '/'
    ensures AfterLastSlash(p) == p[k + 1..]
  {
  }

  // `**/*.go` matches `a/b/c.go` through its last segment ...
  lemma DoubleStarMatchesLastSegment()
    ensures PatternMatches("**/*.go", "a/b/c.go")
  {
    assert "**/*.go"[3..] == "*" + ".go";
    AfterSlashAt("a/b/c.go", 3);
    Glob.StarSuffixMatch(".go", "c.go");
  }

  // ... and rejects `a/b/c.txt`, whose last segment has another extension.
  lemma DoubleStarRejectsOtherExtension()
    ensures !PatternMatches("**/*.go", "a/b/c.txt")
  {
    assert "**/*.go"[3..] == "*" + ".go";
    var path := "a/b/c.txt";
    assert path[1] == '/';
    Glob.StarSuffixMatch(".go", path);
    AfterSlashAt(path, 3);
    Glob.StarSuffixMatch(".go", "c.txt");
  }

  // Only two candidates are tried: a `**/` pattern whose remainder is plain and
  // contains '/' matches only the path equal to that remainder, never a deeper
  // one (`**/src/main.go` rejects `app/src/main.go`).
  lemma DoubleStarWithSlashIsAnchored(pattern: string, path: string)
    requires HasPrefix(pattern, "**/")
    requires Glob.IsPlain(pattern[3..]) && '/' in pattern[3..]
    ensures PatternMatches(pattern, path) <==> path == pattern[3..]
  {
    var rest := pattern[3..];
    Glob.LiteralMatch(rest, path);
    Glob.LiteralMatch(rest, AfterLastSlash(path));
  }

  /** A non-nil empty exclude list switches the deny-list off entirely. */
  lemma EmptyExcludeAcceptsAll(path: string)
    ensures Accepts(NewPatternMatcher(None, Some([])), path)
  {
  }

  /** An exclude match wins over an include match. */
  lemma ExcludeWins(pm: PatternMatcher, path: string, k: nat)
    requires k < |pm.excludePatterns| && PatternMatches(pm.excludePatterns[k], path)
    ensures !Accepts(pm, path)
  {
  }

  /** Adding a path to an empty include list does not always admit that path: a
      nested path is compared only through its base name. */
  lemma SelfIncludeRejectsNestedPath()
    ensures !Accepts(NewPatternMatcher(Some(["src/a.go"]), Some([])), "src/a.go")
  {
    var pm := NewPatternMatcher(Some(["src/a.go"]), Some([]));
    assert pm.includePatterns[0] == "src/a.go";
    BaseOfJoin("src", "a.go");
    assert "src" + "/" + "a.go" == "src/a.go";
    PlainPatternMatchesBase("src/a.go", "src/a.go");
  }

  /** ... while a single plain name does admit itself. */
  lemma SelfIncludeAcceptsName(name: string)
    requires name != "" && '/' !in name && Glob.IsPlain(name)
    ensures Accepts(NewPatternMatcher(Some([name]), Some([])), name)
  {
    var pm := NewPatternMatcher(Some([name]), Some([]));
    PlainPatternMatchesBase(name, name);
    BaseOfName(name);
    assert PatternMatches(pm.includePatterns[0], name);
  }

  /** The deny-list names a directory such as `.git` by base name only, so its
      `.git` entry rejects an entry called `.git` at any depth ... */
  lemma GitEntryRejectsNestedGit()
    ensures PatternMatches(".git", "x/.git")
  {
    BaseOfJoin("x", ".git");
    assert "x" + "/" + ".git" == "x/.git";
    PlainPatternMatchesBase(".git", "x/.git");
  }

  /** The base name of `dir/name` is `name`. */
  lemma BaseOfJoin(dir: string, name: string)
    requires name != "" && '/' !in name
    ensures Base(dir + "/" + name) == name
  {
    var p := dir + "/" + name;
    assert p[|dir|] == '/';
    assert p[|dir| + 1..] == name;
    BaseAfterSlash(p, |dir|);
  }

  /** ... but not the files inside a `.git` directory. */
  lemma GitEntryKeepsGitContents()
    ensures !PatternMatches(".git", ".git/HEAD")
  {
    var path := ".git/HEAD";
    BaseAfterSlash(path, 4);
    assert Base(path)[0] == 'H';
    PlainPatternMatchesBase(".git", path);
  }
}
