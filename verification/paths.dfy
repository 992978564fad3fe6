/** The part of Go's `path/filepath` the core relies on, for '/'-separated paths. */
module Paths {
  import opened Strs

  function TrimTrailingSlashes(p: string): (r: string)
    ensures |r| <= |p| && r == p[..|r|]
    ensures r == [] || r[|r| - 1] != '/'
  {
    if p != [] && p[|p| - 1] == '/' then TrimTrailingSlashes(p[..|p| - 1]) else p
  }

  /** `filepath.Base`: the last element after trailing slashes are removed;
      "." for the empty path and "/" for a path of slashes only. */
  function Base(p: string): (r: string)
    ensures r != []
  {
    if p == "" then "."
    else
      var q := TrimTrailingSlashes(p);
      if q == "" then "/" else q[LastIndex(q, '/') + 1..]
  }

  /** `filepath.Dir` on a clean path: everything before the last slash; "." when
      there is no slash and "/" when the only slash leads. */
  function Dir(p: string): (r: string) {
    var i := LastIndex(p, '/');
    if i == -1 then "." else if i == 0 then "/" else p[..i]
  }

  /** What follows the last slash (the whole path when there is none). */
  function AfterLastSlash(p: string): (r: string)
    ensures '/' !in r
    ensures |r| <= |p| && r == p[|p| - |r|..]
  {
    p[LastIndex(p, '/') + 1..]
  }

  /** `filepath.Ext`: the suffix of the last element that starts at its final '.',
      or "" when the last element has no '.'. */
  function Ext(p: string): (r: string)
    ensures r == [] || (HasSuffix(p, r) && r[0] == '.' && '/' !in r && '.' !in r[1..])
  {
    ExtBefore(p, |p|)
  }

  function ExtBefore(p: string, n: nat): (r: string)
    requires n <= |p|
    requires '/' !in p[n..] && '.' !in p[n..]
    ensures r == [] || (HasSuffix(p, r) && r[0] == '.' && '/' !in r && '.' !in r[1..])
  {
    if n == 0 || p[n - 1] == '/' then ""
    else if p[n - 1] == '.' then p[n - 1..]
    else ExtBefore(p, n - 1)
  }

  /** `filepath.Join(a, b)` for clean arguments: an empty side is dropped, otherwise
      the two are joined by one '/'. */
  function Join(a: string, b: string): string {
    if a == "" then b
    else if b == "" then a
    else if a[|a| - 1] == '/' then a + b
    else a + "/" + b
  }

  /** A relative path in the form `filepath.Rel` gives for a descendant of the
      root: non-empty, '/'-separated, no empty, "." or ".." element. */
  predicate IsCleanRel(p: string) {
    p != "" && forall seg | seg in SplitOn(p, '/') :: seg != "" && seg != "." && seg != ".."
  }

  // ------------------------------------------------------------------ Clean

  /** An element `Clean` keeps as it is: not empty, not "." and not "..". */
  predicate Plain(e: string) {
    e != "" && e != "." && e != ".."
  }

  /** What `filepath.Clean` may have kept: elements that are neither empty nor
      "." and hold no separator. */
  predicate Kept(st: seq<string>) {
    forall k :: 0 <= k < |st| ==> st[k] != "" && st[k] != "." && '/' !in st[k]
  }

  /** One element of `filepath.Clean`'s scan: "" and "." are dropped; ".."
      removes the last kept element unless that is itself "..", is dropped at the
      top of a rooted path and kept otherwise; any other element is kept. */
  function CleanStep(st: seq<string>, e: string, rooted: bool): seq<string> {
    if e == "" || e == "." then st
    else if e == ".." then
      if |st| > 0 && st[|st| - 1] != ".." then st[..|st| - 1]
      else if rooted then st
      else st + [".."]
    else st + [e]
  }

  function CleanElems(st: seq<string>, elems: seq<string>, rooted: bool): seq<string>
    decreases |elems|
  {
    if elems == [] then st else CleanElems(CleanStep(st, elems[0], rooted), elems[1..], rooted)
  }

  /** `filepath.Clean`: the shortest path naming the same file by lexical rules
      alone; "." for a path that cleans to nothing. */
  function Clean(p: string): (r: string)
    ensures r != ""
  {
    if p == "" then "."
    else
      var rooted := p[0] == '/';
      var body := JoinWith(CleanElems([], SplitOn(p, '/'), rooted), '/');
      if rooted then "/" + body else if body == "" then "." else body
  }

  /** `filepath.Join(a, b)`: empty arguments are ignored and the joined path is
      cleaned. */
  function FullJoin(a: string, b: string): string {
    if a == "" && b == "" then ""
    else if a == "" then Clean(b)
    else if b == "" then Clean(a)
    else Clean(a + "/" + b)
  }

  lemma {:induction false} CleanStepKept(st: seq<string>, e: string, rooted: bool)
    requires Kept(st) && '/' !in e
    ensures Kept(CleanStep(st, e, rooted))
  {
  }

  lemma {:induction false} CleanElemsKept(st: seq<string>, elems: seq<string>, rooted: bool)
    requires Kept(st) && forall k :: 0 <= k < |elems| ==> '/' !in elems[k]
    ensures Kept(CleanElems(st, elems, rooted))
    decreases |elems|
  {
    if elems != [] {
      CleanStepKept(st, elems[0], rooted);
      CleanElemsKept(CleanStep(st, elems[0], rooted), elems[1..], rooted);
    }
  }

  /** Cleaning is a left-to-right scan, so the elements of two paths can be
      scanned one after the other. */
  lemma {:induction false} CleanElemsAppend(st: seq<string>, xs: seq<string>, ys: seq<string>, rooted: bool)
    ensures CleanElems(st, xs + ys, rooted) == CleanElems(CleanElems(st, xs, rooted), ys, rooted)
    decreases |xs|
  {
    if xs != [] {
      assert (xs + ys)[0] == xs[0] && (xs + ys)[1..] == xs[1..] + ys;
      CleanElemsAppend(CleanStep(st, xs[0], rooted), xs[1..], ys, rooted);
    } else {
      assert xs + ys == ys;
    }
  }

  /** Plain elements are kept as they come. */
  lemma {:induction false} CleanElemsPlain(st: seq<string>, ys: seq<string>, rooted: bool)
    requires forall k :: 0 <= k < |ys| ==> Plain(ys[k])
    ensures CleanElems(st, ys, rooted) == st + ys
    decreases |ys|
  {
    if ys != [] {
      CleanElemsPlain(st + [ys[0]], ys[1..], rooted);
      assert st + [ys[0]] + ys[1..] == st + ys;
    } else {
      assert st + ys == st;
    }
  }

  /** Splitting `a + sep + b` splits `a` and `b` apart. */
  lemma {:induction false} SplitAround(a: string, b: string, sep: char)
    ensures SplitOn(a + [sep] + b, sep) == SplitOn(a, sep) + SplitOn(b, sep)
  {
    var s := a + [sep] + b;
    if a == [] {
      assert s == [sep] + b;
      assert s[1..] == b;
    } else {
      assert s[0] == a[0] && s[1..] == a[1..] + [sep] + b;
      SplitAround(a[1..], b, sep);
      if a[0] != sep {
        SplitAroundStep(a, b, sep, SplitOn(a[1..], sep), SplitOn(b, sep));
      }
    }
  }

  lemma SplitAroundStep(a: string, b: string, sep: char, ra: seq<string>, rb: seq<string>)
    requires a != [] && a[0] != sep
    requires ra == SplitOn(a[1..], sep) && rb == SplitOn(b, sep)
    requires SplitOn((a + [sep] + b)[1..], sep) == ra + rb
    requires (a + [sep] + b)[0] == a[0]
    ensures SplitOn(a + [sep] + b, sep) == SplitOn(a, sep) + rb
  {
    var r := ra + rb;
    assert r[0] == ra[0];
    assert r[1..] == ra[1..] + rb;
    assert SplitOn(a, sep) == [[a[0]] + ra[0]] + ra[1..];
  }

  lemma {:induction false} JoinWithAppend(xs: seq<string>, ys: seq<string>, sep: char)
    requires xs != [] && ys != []
    ensures JoinWith(xs + ys, sep) == JoinWith(xs, sep) + [sep] + JoinWith(ys, sep)
    decreases |xs|
  {
    if |xs| > 1 {
      assert (xs + ys)[1..] == xs[1..] + ys;
      JoinWithAppend(xs[1..], ys, sep);
    } else {
      assert (xs + ys)[1..] == ys;
    }
  }

  /** Kept elements joined by '/' neither start nor end with '/', and are
      neither empty nor ".". */
  lemma {:induction false} JoinKeptEnds(st: seq<string>)
    requires st != [] && Kept(st)
    ensures var j := JoinWith(st, '/');
      j != "" && j != "." && j[0] != '/' && j[|j| - 1] != '/'
    decreases |st|
  {
    assert st[0] != "" && '/' !in st[0];
    assert st[0][0] in st[0];
    if |st| > 1 {
      JoinKeptEnds(st[1..]);
      var t := JoinWith(st[1..], '/');
      assert JoinWith(st, '/') == st[0] + ['/'] + t;
    }
  }

  /** The pieces of a clean relative path are all plain, and it does not start
      with '/'. */
  lemma CleanRelPieces(rel: string)
    requires IsCleanRel(rel)
    ensures forall k :: 0 <= k < |SplitOn(rel, '/')| ==> Plain(SplitOn(rel, '/')[k])
    ensures rel[0] != '/'
  {
    var parts := SplitOn(rel, '/');
    forall k | 0 <= k < |parts|
      ensures Plain(parts[k])
    {
      assert parts[k] in parts;
    }
    assert Plain(parts[0]);
  }

  /** A clean relative path is its own `Clean`. */
  lemma CleanOfCleanRel(rel: string)
    requires IsCleanRel(rel)
    ensures Clean(rel) == rel
  {
    CleanRelPieces(rel);
    CleanElemsPlain([], SplitOn(rel, '/'), false);
    assert [] + SplitOn(rel, '/') == SplitOn(rel, '/');
    JoinSplit(rel, '/');
  }

  /** Cleaning `root + "/" + rel` scans the root's elements, then keeps the
      plain elements of `rel`. */
  lemma CleanElemsAround(root: string, rel: string, rooted: bool)
    requires IsCleanRel(rel)
    ensures var st := CleanElems([], SplitOn(root, '/'), rooted);
      && Kept(st)
      && CleanElems([], SplitOn(root + "/" + rel, '/'), rooted) == st + SplitOn(rel, '/')
  {
    var ra := SplitOn(root, '/');
    var rb := SplitOn(rel, '/');
    SplitAround(root, rel, '/');
    CleanElemsAppend([], ra, rb, rooted);
    CleanRelPieces(rel);
    CleanElemsPlain(CleanElems([], ra, rooted), rb, rooted);
    CleanElemsKept([], ra, rooted);
  }

  /** `filepath.Join(root, rel)` for a clean relative `rel`: the cleaned root,
      then `rel`; a root that cleans to "." contributes nothing. */
  lemma FullJoinCleanRel(root: string, rel: string)
    requires IsCleanRel(rel)
    ensures FullJoin(root, rel) == (if Clean(root) == "." then rel else Join(Clean(root), rel))
  {
    if root == "" {
      CleanOfCleanRel(rel);
    } else {
      var p := root + "/" + rel;
      var rooted := root[0] == '/';
      assert p[0] == root[0];
      var st := CleanElems([], SplitOn(root, '/'), rooted);
      CleanElemsAround(root, rel, rooted);
      JoinSplit(rel, '/');
      var body := JoinWith(st + SplitOn(rel, '/'), '/');
      assert Clean(p) == if rooted then "/" + body else if body == "" then "." else body;
      if st == [] {
        assert st + SplitOn(rel, '/') == SplitOn(rel, '/');
      } else {
        JoinWithAppend(st, SplitOn(rel, '/'), '/');
        JoinKeptEnds(st);
        JoinedRoot(JoinWith(st, '/'), rel, rooted);
      }
    }
  }

  lemma JoinedRoot(j: string, rel: string, rooted: bool)
    requires j != "" && j != "." && j[0] != '/' && j[|j| - 1] != '/' && rel != ""
    ensures var c := if rooted then "/" + j else j;
      c != "." && Join(c, rel) == c + "/" + rel
  {
    var c := if rooted then "/" + j else j;
    assert c[|c| - 1] == j[|j| - 1];
  }

  /** What `Clean` leaves: kept elements, any ".." before all others, and none at
      all in a rooted path. */
  predicate Normal(st: seq<string>, rooted: bool) {
    && Kept(st)
    && (forall i, j :: 0 <= i < j < |st| && st[j] == ".." ==> st[i] == "..")
    && (rooted ==> forall k :: 0 <= k < |st| ==> st[k] != "..")
  }

  lemma CleanStepNormal(st: seq<string>, e: string, rooted: bool)
    requires Normal(st, rooted) && '/' !in e
    ensures Normal(CleanStep(st, e, rooted), rooted)
  {
    if e == ".." && |st| > 0 && st[|st| - 1] != ".." {
      var r := st[..|st| - 1];
      assert forall k :: 0 <= k < |r| ==> r[k] == st[k];
    }
  }

  lemma {:induction false} CleanElemsNormal(st: seq<string>, elems: seq<string>, rooted: bool)
    requires Normal(st, rooted) && forall k :: 0 <= k < |elems| ==> '/' !in elems[k]
    ensures Normal(CleanElems(st, elems, rooted), rooted)
    decreases |elems|
  {
    if elems != [] {
      CleanStepNormal(st, elems[0], rooted);
      CleanElemsNormal(CleanStep(st, elems[0], rooted), elems[1..], rooted);
    }
  }

  /** Scanning what `Clean` left changes nothing: each element is pushed back. */
  lemma {:induction false} CleanElemsFixed(st: seq<string>, i: nat, rooted: bool)
    requires Normal(st, rooted) && i <= |st|
    ensures CleanElems(st[..i], st[i..], rooted) == st
    decreases |st| - i
  {
    if i < |st| {
      var pre := st[..i];
      assert pre + [st[i]] == st[..i + 1];
      if st[i] == ".." && i > 0 {
        assert pre[|pre| - 1] == "..";
      }
      assert CleanStep(pre, st[i], rooted) == st[..i + 1];
      assert st[i..][1..] == st[i + 1..];
      CleanElemsFixed(st, i + 1, rooted);
    } else {
      assert st[..i] == st;
    }
  }

  /** `filepath.Clean` is idempotent. */
  lemma CleanIdempotent(p: string)
    ensures Clean(Clean(p)) == Clean(p)
  {
    if p == "" {
      CleanDot();
    } else {
      var rooted := p[0] == '/';
      var st := CleanElems([], SplitOn(p, '/'), rooted);
      CleanElemsNormal([], SplitOn(p, '/'), rooted);
      CleanElemsFixed(st, 0, rooted);
      assert st[..0] == [] && st[0..] == st;
      if st == [] {
        if rooted {
          assert "/"[0] == '/' && "/"[1..] == "";
          assert SplitOn("/", '/') == ["", ""];
          assert CleanElems([], ["", ""], true) == [];
          assert Clean(p) == "/";
        } else {
          CleanDot();
        }
      } else {
        var j := JoinWith(st, '/');
        JoinKeptEnds(st);
        SplitJoin(st, '/');
        if rooted {
          var c := "/" + j;
          assert c[1..] == j;
          assert SplitOn(c, '/') == [""] + st;
          assert ([""] + st)[1..] == st;
        }
      }
    }
  }

  lemma CleanDot()
    ensures Clean(".") == "."
  {
    SplitJoin(["."], '/');
    assert JoinWith(["."], '/') == ".";
  }

  /** A clean relative path does not end with '/', and adding one more plain
      element keeps it clean. */
  lemma CleanRelExtend(rel: string, name: string)
    requires IsCleanRel(rel) && Plain(name) && '/' !in name
    ensures rel[|rel| - 1] != '/' && rel != "."
    ensures IsCleanRel(rel + "/" + name)
  {
    var parts := SplitOn(rel, '/');
    CleanRelPieces(rel);
    JoinSplit(rel, '/');
    JoinKeptEnds(parts);
    SplitAround(rel, name, '/');
    SplitJoin([name], '/');
    var all := parts + [name];
    forall seg | seg in all
      ensures seg != "" && seg != "." && seg != ".."
    {
      var k :| 0 <= k < |all| && all[k] == seg;
      if k < |parts| {
        assert seg == parts[k];
      }
    }
  }

  /** `filepath.Join(root, rel)` is clean, is not ".", and ends as `rel` ends. */
  lemma FullJoinShape(root: string, rel: string)
    requires IsCleanRel(rel)
    ensures var x := FullJoin(root, rel);
      && Clean(x) == x && x != "." && |x| >= |rel| && x[|x| - 1] == rel[|rel| - 1]
  {
    CleanRelExtend(rel, "a");
    FullJoinCleanRel(root, rel);
    if root == "" {
      CleanIdempotent(rel);
    } else {
      CleanIdempotent(root + "/" + rel);
    }
    var x := FullJoin(root, rel);
    if Clean(root) != "." {
      assert |x| > |rel|;
    }
  }

  lemma JoinLonger(c: string, rel: string, name: string)
    requires c != "" && rel != ""
    ensures Join(c, rel + "/" + name) == Join(c, rel) + "/" + name
  {
  }

  /** Joining one more plain name to `filepath.Join(root, rel)` is joining the root
      with the longer relative path: a walk that joins each child to its
      directory's path reaches the root joined with the child's relative path. */
  lemma FullJoinStep(root: string, rel: string, name: string)
    requires IsCleanRel(rel) && Plain(name) && '/' !in name
    ensures FullJoin(FullJoin(root, rel), name) == FullJoin(root, rel + "/" + name)
  {
    CleanRelExtend(rel, name);
    assert IsCleanRel(name) by {
      SplitJoin([name], '/');
    }
    var x := FullJoin(root, rel);
    FullJoinShape(root, rel);
    FullJoinCleanRel(x, name);
    assert FullJoin(x, name) == x + "/" + name;
    FullJoinCleanRel(root, rel);
    FullJoinCleanRel(root, rel + "/" + name);
    if Clean(root) != "." {
      JoinLonger(Clean(root), rel, name);
    }
  }
}
