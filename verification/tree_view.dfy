/** The directory-tree renderer (`printTree` and `printNode` in output.go). The
    tree is a map from a directory key ("." for the root) to the list of its
    children, in the order they were first seen; a child that is itself a key is
    a directory and is printed with its own children below it. */
module TreeView {
  import opened Strs
  import opened Paths
  import opened Types
  import opened Buffers

  type Tree = map<string, seq<string>>

  const BRANCH := "\U{251C}\U{2500}"
  const LAST_BRANCH := "\U{2514}\U{2500}"
  const INDENT := "  "
  const INDENT_PIPE := "\U{2502} "

  /** `tree[node]`, which is nil for a missing key. */
  function Kids(t: Tree, node: string): seq<string> {
    if node in t then t[node] else []
  }

  /** `root[parent] = append(root[parent], child)`. */
  function AddChild(t: Tree, parent: string, child: string): (u: Tree)
    ensures u.Keys == t.Keys + {parent}
  {
    t[parent := Kids(t, parent) + [child]]
  }

  /** `filepath.Join(parts[:n]...)`, folded from the left. */
  function JoinAll(parts: seq<string>): string {
    if parts == [] then "" else Join(JoinAll(parts[..|parts| - 1]), parts[|parts| - 1])
  }

  /** One turn of the inner loop of `printTree`: the path of the first `i + 1`
      parts is added under its parent unless it is already a key. */
  function StepDir(t: Tree, parts: seq<string>, i: nat): Tree
    requires i < |parts|
  {
    var current := JoinAll(parts[..i + 1]);
    if current in t then t
    else AddChild(t, if i == 0 then "." else JoinAll(parts[..i]), current)
  }

  /** The inner loop of `printTree` from part `i` on. */
  function DirsFrom(t: Tree, parts: seq<string>, i: nat): Tree
    requires i <= |parts|
    decreases |parts| - i
  {
    if i == |parts| then t else DirsFrom(StepDir(t, parts, i), parts, i + 1)
  }

  /** One turn of the outer loop of `printTree`: a top-level path goes under
      "."; any other path first gets its chain of directories and then goes under
      its own directory. */
  function AddEntry(t: Tree, path: string): Tree {
    var dir := Dir(path);
    if dir == "." then AddChild(t, dir, path)
    else AddChild(DirsFrom(t, SplitOn(dir, '/'), 0), dir, path)
  }

  /** The map `printTree` builds from the entries. */
  function TreeOf(entries: seq<FileEntry>): Tree {
    if entries == [] then map[]
    else AddEntry(TreeOf(entries[..|entries| - 1]), entries[|entries| - 1].path)
  }

  /** `BuildTree`: the first loop of `printTree`. */
  method BuildTree(entries: seq<FileEntry>) returns (root: Tree)
    ensures root == TreeOf(entries)
  {
    root := map[];
    var k := 0;
    while k < |entries|
      invariant 0 <= k <= |entries|
      invariant root == TreeOf(entries[..k])
    {
      assert entries[..k + 1][..k] == entries[..k];
      var path := entries[k].path;
      var dir := Dir(path);
      if dir == "." {
        root := root[dir := Kids(root, dir) + [path]];
      } else {
        var parts := SplitOn(dir, '/');
        root := AddDirs(root, parts);
        root := root[dir := Kids(root, dir) + [path]];
      }
      k := k + 1;
    }
    assert entries[..k] == entries;
  }

  /** The inner loop of `printTree`: each prefix of the directory's parts that
      is not yet a key is added under its parent. */
  method AddDirs(root0: Tree, parts: seq<string>) returns (root: Tree)
    ensures root == DirsFrom(root0, parts, 0)
  {
    root := root0;
    var current := "";
    var i := 0;
    while i < |parts|
      invariant 0 <= i <= |parts|
      invariant current == JoinAll(parts[..i])
      invariant DirsFrom(root, parts, i) == DirsFrom(root0, parts, 0)
    {
      assert parts[..i + 1][..i] == parts[..i];
      if i == 0 {
        current := parts[i];
      } else {
        current := Join(current, parts[i]);
      }
      if current !in root {
        var parent := ".";
        if i > 0 {
          parent := JoinAll(parts[..i]);
        }
        root := root[parent := Kids(root, parent) + [current]];
      }
      i := i + 1;
    }
  }

  // ------------------------------------------------------------ invariants

  /** The depth order the printer descends along: "." first, then longer keys. */
  function Level(k: string): nat {
    if k == "." then 0 else |k| + 1
  }

  /** Every child that is itself a key lies strictly deeper than its parent, so
      printing descends and stops. */
  predicate TreeOk(t: Tree) {
    forall k, c :: k in t && c in t[k] && c in t ==> Level(c) > Level(k)
  }

  /** The keys deeper than `l`: the printer's measure. */
  ghost function Below(t: Tree, l: nat): set<string> {
    set k | k in t && Level(k) > l
  }

  lemma BelowShrinks(t: Tree, node: string, child: string)
    requires child in t && Level(child) > Level(node)
    ensures Below(t, Level(child)) < Below(t, Level(node))
  {
    assert child in Below(t, Level(node)) && child !in Below(t, Level(child));
  }

  /** The shape of the map `printTree` builds: each child lies in the directory
      that is its key and is neither "." nor "/", and each key other than "." is
      itself listed as a child of its own directory. */
  ghost predicate TreeInv(t: Tree) {
    KidsInDir(t) && (forall k {:trigger IsKey(t, k)} :: IsKey(t, k) && k != "." ==> Placed(t, k))
  }

  /** Each child lies in the directory that is its key and is neither "." nor "/". */
  ghost predicate KidsInDir(t: Tree) {
    forall k, c :: k in t && c in t[k] ==> Dir(c) == k && c != "." && c != "/"
  }

  /** `k in t`, named so that the placement clause above fires once per key and
      not again for the directory it names. */
  predicate IsKey(t: Tree, k: string) {
    k in t
  }

  /** `k` is "." or listed under its own directory. */
  predicate Placed(t: Tree, k: string) {
    k == "." || (Dir(k) in t && k in t[Dir(k)])
  }

  /** `u` extends `t`: no key and no child is lost. */
  predicate Grows(t: Tree, u: Tree) {
    forall k :: k in t ==> k in u && forall c :: c in t[k] ==> c in u[k]
  }

  /** The paths the tree can be built from: a path from the walk below the
      root, or the empty path of a binary file's zero entry. The "." of a
      single-file root is not one (see `DotListedUnderItself`). */
  predicate TreePath(p: string) {
    p != "." && p != "/" && (Dir(p) == "." || IsCleanRel(Dir(p)))
  }

  /** A child of `k` is deeper than `k`. */
  lemma DirBelow(c: string)
    requires c != "." && c != "/"
    ensures Level(Dir(c)) < Level(c)
  {
    var i := LastIndex(c, '/');
    if i == 0 {
      assert c[0] == '/' && |c| >= 2;
    }
  }

  lemma TreeInvOk(t: Tree)
    requires TreeInv(t)
    ensures TreeOk(t)
  {
    forall k, c | k in t && c in t[k] && c in t
      ensures Level(c) > Level(k)
    {
      assert Dir(c) == k && c != "." && c != "/";
      DirBelow(c);
    }
  }

  lemma LastSlashAt(a: string, b: string)
    requires '/' !in b
    ensures LastIndex(a + "/" + b, '/') == |a|
  {
    var s := a + "/" + b;
    var i := LastIndex(s, '/');
    assert s[|a|] == '/';
  }

  lemma NoSlash(s: string)
    requires '/' !in s
    ensures LastIndex(s, '/') == -1
  {
  }

  /** The parts of a clean relative path. */
  predicate CleanParts(parts: seq<string>) {
    forall k :: 0 <= k < |parts| ==> parts[k] != "" && parts[k] != "." && '/' !in parts[k]
  }

  /** The path of the first `i + 1` parts ends with part `i`, is neither "." nor
      "/", and its directory is the path of the first `i` parts ("." for none). */
  lemma {:induction false} JoinAllStep(parts: seq<string>, i: nat)
    requires CleanParts(parts) && i < |parts|
    ensures var cur := JoinAll(parts[..i + 1]);
      && HasSuffix(cur, parts[i]) && cur != "." && cur != "/"
      && Dir(cur) == (if i == 0 then "." else JoinAll(parts[..i]))
  {
    assert parts[..i + 1][..i] == parts[..i];
    assert parts[..i + 1][i] == parts[i];
    if i == 0 {
      assert JoinAll(parts[..1]) == Join("", parts[0]);
      NoSlash(parts[0]);
    } else {
      JoinAllStep(parts, i - 1);
      SuffixLastChar(JoinAll(parts[..i]), parts[i - 1]);
      JoinOnto(JoinAll(parts[..i]), parts[i]);
    }
  }

  /** A path ending in a non-empty element without '/' does not end in '/'. */
  lemma SuffixLastChar(p: string, x: string)
    requires HasSuffix(p, x) && x != "" && '/' !in x
    ensures p != "" && p[|p| - 1] != '/'
  {
    assert p[|p| - 1] == x[|x| - 1];
  }

  /** Joining a clean element onto a path not ending in '/' puts one slash
      between them, and the directory of the result is the path. */
  lemma JoinOnto(p: string, x: string)
    requires p != "" && p[|p| - 1] != '/'
    requires x != "" && '/' !in x
    ensures var cur := Join(p, x);
      && cur == p + "/" + x && HasSuffix(cur, x) && cur != "." && cur != "/" && Dir(cur) == p
  {
    var cur := p + "/" + x;
    LastSlashAt(p, x);
    assert cur[|p| + 1..] == x;
    assert |cur| >= 3;
    assert cur[..|p|] == p;
  }

  lemma {:induction false} JoinWithSnoc(parts: seq<string>, x: string)
    requires |parts| >= 1
    ensures JoinWith(parts + [x], '/') == JoinWith(parts, '/') + "/" + x
  {
    if |parts| > 1 {
      assert (parts + [x])[1..] == parts[1..] + [x];
      JoinWithSnoc(parts[1..], x);
    }
  }

  lemma {:induction false} JoinAllIsJoinWith(parts: seq<string>)
    requires |parts| >= 1 && CleanParts(parts)
    ensures JoinAll(parts) == JoinWith(parts, '/')
  {
    var n := |parts|;
    if n > 1 {
      var init := parts[..n - 1];
      JoinAllIsJoinWith(init);
      JoinAllStep(parts, n - 1);
      assert parts[..n] == parts;
      assert init + [parts[n - 1]] == parts;
      JoinWithSnoc(init, parts[n - 1]);
      assert JoinAll(init) != "";
    } else {
      assert parts[..0] == [];
    }
  }

  /** Joining the parts of a clean relative directory gives the directory back,
      so the inner loop ends at the key the entry goes under. */
  lemma JoinAllSplit(dir: string)
    requires IsCleanRel(dir)
    ensures CleanParts(SplitOn(dir, '/'))
    ensures JoinAll(SplitOn(dir, '/')) == dir
  {
    var parts := SplitOn(dir, '/');
    forall k | 0 <= k < |parts|
      ensures parts[k] != "" && parts[k] != "."
    {
      assert parts[k] in parts;
    }
    JoinAllIsJoinWith(parts);
    JoinSplit(dir, '/');
  }

  lemma AddChildInv(t: Tree, parent: string, child: string)
    requires TreeInv(t) && Placed(t, parent)
    requires Dir(child) == parent && child != "." && child != "/"
    ensures var u := AddChild(t, parent, child);
      TreeInv(u) && Grows(t, u) && child in u[parent]
  {
    var u := AddChild(t, parent, child);
    AddChildGrows(t, parent, child);
    AddChildKidsInDir(t, parent, child);
    forall k | IsKey(u, k) && k != "."
      ensures Placed(u, k)
    {
      if k != parent {
        assert IsKey(t, k);
        PlacedGrows(t, u, k);
      } else {
        PlacedGrows(t, u, parent);
      }
    }
  }

  lemma AddChildGrows(t: Tree, parent: string, child: string)
    ensures var u := AddChild(t, parent, child);
      Grows(t, u) && parent in u && child in u[parent]
  {
    var u := AddChild(t, parent, child);
    assert u[parent] == Kids(t, parent) + [child];
    forall k | k in t
      ensures k in u && forall c :: c in t[k] ==> c in u[k]
    {
      if k == parent {
        assert t[k] == Kids(t, parent);
      }
    }
  }

  lemma AddChildKidsInDir(t: Tree, parent: string, child: string)
    requires KidsInDir(t)
    requires Dir(child) == parent && child != "." && child != "/"
    ensures KidsInDir(AddChild(t, parent, child))
  {
    var u := AddChild(t, parent, child);
    forall k, c | k in u && c in u[k]
      ensures Dir(c) == k && c != "." && c != "/"
    {
      if k != parent {
        assert u[k] == t[k];
      } else if c in Kids(t, parent) {
        assert parent in t && c in t[parent];
      } else {
        assert u[parent] == Kids(t, parent) + [child];
        assert c == child;
      }
    }
  }

  lemma GrowsKeeps(t: Tree, u: Tree, k: string, c: string)
    requires Grows(t, u) && k in t && c in t[k]
    ensures k in u && c in u[k]
  {
  }

  lemma PlacedGrows(t: Tree, u: Tree, k: string)
    requires Placed(t, k) && Grows(t, u)
    ensures Placed(u, k)
  {
  }

  lemma {:induction false} DirsFromInv(t: Tree, parts: seq<string>, i: nat)
    requires CleanParts(parts) && 1 <= |parts| && i <= |parts|
    requires TreeInv(t)
    requires i > 0 ==> "." in t && Placed(t, JoinAll(parts[..i]))
    ensures var u := DirsFrom(t, parts, i);
      TreeInv(u) && Grows(t, u) && "." in u && Placed(u, JoinAll(parts))
    decreases |parts| - i
  {
    if i == |parts| {
      assert parts[..i] == parts;
    } else {
      var s := StepDir(t, parts, i);
      StepDirInv(t, parts, i);
      DirsFromInv(s, parts, i + 1);
      GrowsTrans(t, s, DirsFrom(s, parts, i + 1));
    }
  }

  /** One turn of the inner loop keeps the shape, and places the path of the
      first `i + 1` parts. */
  lemma StepDirInv(t: Tree, parts: seq<string>, i: nat)
    requires CleanParts(parts) && i < |parts|
    requires TreeInv(t)
    requires i > 0 ==> "." in t && Placed(t, JoinAll(parts[..i]))
    ensures var s := StepDir(t, parts, i);
      TreeInv(s) && Grows(t, s) && "." in s && Placed(s, JoinAll(parts[..i + 1]))
  {
    var cur := JoinAll(parts[..i + 1]);
    JoinAllStep(parts, i);
    if cur !in t {
      AddChildInv(t, Dir(cur), cur);
    } else {
      assert IsKey(t, cur);
    }
  }

  lemma GrowsTrans(t: Tree, s: Tree, u: Tree)
    requires Grows(t, s) && Grows(s, u)
    ensures Grows(t, u)
  {
  }

  lemma AddEntryInv(t: Tree, path: string)
    requires TreeInv(t) && TreePath(path)
    ensures var u := AddEntry(t, path);
      TreeInv(u) && Grows(t, u) && "." in u && Dir(path) in u && path in u[Dir(path)]
  {
    var dir := Dir(path);
    if dir == "." {
      AddChildInv(t, dir, path);
    } else {
      var parts := SplitOn(dir, '/');
      JoinAllSplit(dir);
      DirsFromInv(t, parts, 0);
      var u1 := DirsFrom(t, parts, 0);
      AddChildInv(u1, dir, path);
    }
  }

  /** The tree `printTree` builds from walk paths has the shape above, and "."
      is a key as soon as there is an entry. */
  lemma {:induction false} TreeOfInv(entries: seq<FileEntry>)
    requires forall j :: 0 <= j < |entries| ==> TreePath(entries[j].path)
    ensures TreeInv(TreeOf(entries))
    ensures entries != [] ==> "." in TreeOf(entries)
  {
    if entries != [] {
      var init := entries[..|entries| - 1];
      InitPaths(entries, init);
      TreeOfInv(init);
      AddEntryInv(TreeOf(init), entries[|entries| - 1].path);
    }
  }

  lemma InitPaths(entries: seq<FileEntry>, init: seq<FileEntry>)
    requires entries != [] && init == entries[..|entries| - 1]
    requires forall j :: 0 <= j < |entries| ==> TreePath(entries[j].path)
    ensures forall j :: 0 <= j < |init| ==> TreePath(init[j].path)
  {
    forall j | 0 <= j < |init|
      ensures TreePath(init[j].path)
    {
      assert init[j] == entries[j];
    }
  }

  /** Adding the last entry keeps what the earlier ones built and lists the
      last entry under its directory. */
  lemma TreeOfStep(entries: seq<FileEntry>)
    requires entries != []
    requires forall j :: 0 <= j < |entries| ==> TreePath(entries[j].path)
    ensures var last := entries[|entries| - 1].path;
      && Grows(TreeOf(entries[..|entries| - 1]), TreeOf(entries))
      && Dir(last) in TreeOf(entries) && last in TreeOf(entries)[Dir(last)]
  {
    var init := entries[..|entries| - 1];
    InitPaths(entries, init);
    TreeOfInv(init);
    AddEntryInv(TreeOf(init), entries[|entries| - 1].path);
  }

  /** Every entry is listed under its own directory, which is a key. */
  lemma {:induction false} EntryListed(entries: seq<FileEntry>, j: nat)
    requires forall j :: 0 <= j < |entries| ==> TreePath(entries[j].path)
    requires j < |entries|
    ensures Dir(entries[j].path) in TreeOf(entries)
    ensures entries[j].path in TreeOf(entries)[Dir(entries[j].path)]
  {
    var init := entries[..|entries| - 1];
    TreeOfStep(entries);
    if j < |entries| - 1 {
      InitPaths(entries, init);
      EntryListed(init, j);
      assert init[j] == entries[j];
      GrowsKeeps(TreeOf(init), TreeOf(entries), Dir(init[j].path), init[j].path);
    }
  }

  /** `k` is the directory `d` or one of the directories above it. */
  predicate IsAncestorOrSelf(k: string, d: string) {
    k == d || HasPrefix(d, k + "/")
  }

  /** The keys the inner loop adds from part `i` on are "." and the paths of
      proper prefixes of the parts. */
  lemma {:induction false} DirsFromKeys(t: Tree, parts: seq<string>, i: nat, k: string)
    requires i <= |parts| && k in DirsFrom(t, parts, i)
    ensures k in t || k == "." || exists m :: 1 <= m < |parts| && k == JoinAll(parts[..m])
    decreases |parts| - i
  {
    if i < |parts| {
      var s := StepDir(t, parts, i);
      DirsFromKeys(s, parts, i + 1, k);
      if k in s && k !in t && k != "." {
        assert k == JoinAll(parts[..i]) && 1 <= i < |parts|;
      }
    }
  }

  /** The path of a proper prefix of clean parts, followed by '/', begins the
      path of all of them. */
  lemma PrefixAncestor(parts: seq<string>, m: nat)
    requires CleanParts(parts) && 1 <= m < |parts|
    ensures HasPrefix(JoinAll(parts), JoinAll(parts[..m]) + "/")
  {
    var a := parts[..m];
    var b := parts[m..];
    assert a + b == parts;
    JoinAllIsJoinWith(parts);
    JoinAllIsJoinWith(a);
    JoinWithAppend(a, b, '/');
    var j := JoinWith(a, '/');
    assert JoinWith(parts, '/') == (j + "/") + JoinWith(b, '/');
  }

  /** Adding an entry adds "." or keys at or above the entry's directory. */
  lemma AddEntryKeys(t: Tree, path: string, k: string)
    requires TreePath(path) && k in AddEntry(t, path)
    ensures k in t || k == "." || IsAncestorOrSelf(k, Dir(path))
  {
    var dir := Dir(path);
    if dir != "." && k != dir {
      var parts := SplitOn(dir, '/');
      JoinAllSplit(dir);
      DirsFromKeys(t, parts, 0, k);
      if k !in t && k != "." {
        var m :| 1 <= m < |parts| && k == JoinAll(parts[..m]);
        PrefixAncestor(parts, m);
      }
    }
  }

  /** Every key of the tree is "." or the directory of some entry or a directory
      above it: the printer shows no directory the entries do not lie in. */
  lemma {:induction false} KeysAreEntryDirs(entries: seq<FileEntry>, k: string)
    requires forall j :: 0 <= j < |entries| ==> TreePath(entries[j].path)
    requires k in TreeOf(entries)
    ensures k == "." || exists j :: 0 <= j < |entries| && IsAncestorOrSelf(k, Dir(entries[j].path))
  {
    var n := |entries|;
    var init := entries[..n - 1];
    AddEntryKeys(TreeOf(init), entries[n - 1].path, k);
    if k in TreeOf(init) && k != "." {
      InitPaths(entries, init);
      KeysAreEntryDirs(init, k);
      var j :| 0 <= j < |init| && IsAncestorOrSelf(k, Dir(init[j].path));
      assert init[j] == entries[j];
    }
  }

  /** The "." entry a single-file root gives is filed under its own directory,
      ".", so `printNode` on "." meets "." again as a directory child and
      recurses without end; this is why the tree formats need `TreePath`. */
  lemma DotListedUnderItself(e: FileEntry)
    requires e.path == "."
    ensures !TreePath(e.path)
    ensures TreeOf([e]) == map["." := ["."]]
    ensures "." in TreeOf([e]) && "." in TreeOf([e])["."]
  {
    assert [e][..0] == [];
    NoSlash(".");
    assert Dir(".") == ".";
    assert Kids(map[], ".") == [];
    assert TreeOf([e]) == AddChild(map[], ".", ".");
    var u := AddChild(map[], ".", ".");
    assert u.Keys == {"."} && u["."] == ["."];
  }

  // -------------------------------------------------------------- printing

  /** What `printNode(tree, node, prefix, childPrefix)` writes. */
  function NodeText(t: Tree, node: string, prefix: string, childPrefix: string): string
    requires TreeOk(t)
    decreases Below(t, Level(node)), 1, 0, 0
  {
    ChildrenText(t, node, 0, prefix, childPrefix)
  }

  /** What the loop of `printNode` writes from child `i` on. */
  function ChildrenText(t: Tree, node: string, i: nat, prefix: string, childPrefix: string): string
    requires TreeOk(t)
    decreases Below(t, Level(node)), 0, |Kids(t, node)| - i, 1
  {
    if i >= |Kids(t, node)| then ""
    else ChildText(t, node, i, prefix, childPrefix) + ChildrenText(t, node, i + 1, prefix, childPrefix)
  }

  /** The line of one child: the prefix, a branch (the closing one for the last
      child) and the child's base name. */
  function BranchLine(prefix: string, isLast: bool, child: string): string {
    prefix + (if isLast then LAST_BRANCH else BRANCH) + " " + Base(child) + "\n"
  }

  /** What one turn of the loop of `printNode` writes for child `i`: its line
      and, when the child is a key, its own children below it, with the prefix
      extended by blanks under the last child and by a pipe otherwise. */
  function ChildText(t: Tree, node: string, i: nat, prefix: string, childPrefix: string): string
    requires TreeOk(t) && i < |Kids(t, node)|
    decreases Below(t, Level(node)), 0, |Kids(t, node)| - i, 0
  {
    var kids := Kids(t, node);
    var child := kids[i];
    var isLast := i == |kids| - 1;
    BranchLine(prefix, isLast, child)
      + if child in t then
          var p := childPrefix + (if isLast then INDENT else INDENT_PIPE);
          BelowShrinks(t, node, child);
          NodeText(t, child, p, p)
        else ""
  }

  /** What a child that is a key writes: its line, then its own children with
      the prefix extended. */
  lemma ChildTextDir(t: Tree, node: string, i: nat, prefix: string, childPrefix: string, isLast: bool, p: string)
    requires TreeOk(t) && i < |Kids(t, node)| && Kids(t, node)[i] in t
    requires isLast == (i == |Kids(t, node)| - 1)
    requires p == childPrefix + (if isLast then INDENT else INDENT_PIPE)
    ensures ChildText(t, node, i, prefix, childPrefix)
      == BranchLine(prefix, isLast, Kids(t, node)[i]) + NodeText(t, Kids(t, node)[i], p, p)
  {
  }

  /** What a child that is not a key writes: its line alone. */
  lemma ChildTextFile(t: Tree, node: string, i: nat, prefix: string, childPrefix: string)
    requires TreeOk(t) && i < |Kids(t, node)| && Kids(t, node)[i] !in t
    ensures ChildText(t, node, i, prefix, childPrefix)
      == BranchLine(prefix, i == |Kids(t, node)| - 1, Kids(t, node)[i])
  {
  }

  /** One turn of the loop of `PrintNode`. */
  lemma PrintStep(t: Tree, node: string, i: nat, prefix: string, childPrefix: string, before: string, after: string, total: string)
    requires TreeOk(t) && i < |Kids(t, node)|
    requires after == before + ChildText(t, node, i, prefix, childPrefix)
    requires before + ChildrenText(t, node, i, prefix, childPrefix) == total
    ensures after + ChildrenText(t, node, i + 1, prefix, childPrefix) == total
  {
  }

  /** `printNode`. */
  method PrintNode(t: Tree, node: string, prefix: string, childPrefix: string, buf: Buffer)
    requires TreeOk(t)
    modifies buf
    ensures buf.data == old(buf.data) + NodeText(t, node, prefix, childPrefix)
    decreases Below(t, Level(node)), 1
  {
    var children := Kids(t, node);
    if |children| == 0 {
      return;
    }
    ghost var total := old(buf.data) + NodeText(t, node, prefix, childPrefix);
    var i := 0;
    while i < |children|
      invariant 0 <= i <= |children|
      invariant buf.data + ChildrenText(t, node, i, prefix, childPrefix) == total
    {
      ghost var before := buf.data;
      PrintChild(t, node, i, prefix, childPrefix, buf);
      PrintStep(t, node, i, prefix, childPrefix, before, buf.data, total);
      i := i + 1;
    }
    assert ChildrenText(t, node, i, prefix, childPrefix) == "";
  }

  /** The body of the loop of `printNode`, for child `i`. */
  method PrintChild(t: Tree, node: string, i: nat, prefix: string, childPrefix: string, buf: Buffer)
    requires TreeOk(t) && i < |Kids(t, node)|
    modifies buf
    ensures buf.data == old(buf.data) + ChildText(t, node, i, prefix, childPrefix)
    decreases Below(t, Level(node)), 0
  {
    var children := Kids(t, node);
    var child := children[i];
    var isLast := i == |children| - 1;
    if child in t {
      BelowShrinks(t, node, child);
      if isLast {
        buf.WriteString(prefix + LAST_BRANCH + " " + Base(child) + "\n");
        ChildTextDir(t, node, i, prefix, childPrefix, isLast, childPrefix + INDENT);
        PrintNode(t, child, childPrefix + INDENT, childPrefix + INDENT, buf);
      } else {
        buf.WriteString(prefix + BRANCH + " " + Base(child) + "\n");
        ChildTextDir(t, node, i, prefix, childPrefix, isLast, childPrefix + INDENT_PIPE);
        PrintNode(t, child, childPrefix + INDENT_PIPE, childPrefix + INDENT_PIPE, buf);
      }
    } else {
      if isLast {
        buf.WriteString(prefix + LAST_BRANCH + " " + Base(child) + "\n");
      } else {
        buf.WriteString(prefix + BRANCH + " " + Base(child) + "\n");
      }
      ChildTextFile(t, node, i, prefix, childPrefix);
    }
  }

  /** The summary's file count: the entries whose path does not end in '/'. */
  function FileCount(entries: seq<FileEntry>): (n: nat)
    ensures n <= |entries|
  {
    if entries == [] then 0
    else FileCount(entries[..|entries| - 1]) + (if HasSuffix(entries[|entries| - 1].path, "/") then 0 else 1)
  }

  /** The closing line of `printTree`. */
  function Summary(dirs: nat, files: nat): string {
    "\n" + IntToString(dirs) + " directories, " + IntToString(files) + " files\n"
  }

  /** What `printTree` writes: nothing for no entries; otherwise ".", the tree
      below it, and a summary counting the map's keys as directories. */
  function TreeText(entries: seq<FileEntry>): string
    requires forall j :: 0 <= j < |entries| ==> TreePath(entries[j].path)
  {
    if entries == [] then ""
    else
      var t := TreeOf(entries);
      TreeOfInv(entries);
      TreeInvOk(t);
      ".\n" + NodeText(t, ".", "", "") + Summary(|t.Keys|, FileCount(entries))
  }

  /** `printTree`. */
  method PrintTree(entries: seq<FileEntry>, buf: Buffer)
    requires forall j :: 0 <= j < |entries| ==> TreePath(entries[j].path)
    modifies buf
    ensures buf.data == old(buf.data) + TreeText(entries)
  {
    if |entries| == 0 {
      assert buf.data == old(buf.data) + "";
      return;
    }
    buf.WriteString(".\n");
    ghost var afterRoot := buf.data;
    var root := BuildTree(entries);
    TreeOfInv(entries);
    TreeInvOk(root);
    PrintNode(root, ".", "", "", buf);
    ghost var tree := NodeText(root, ".", "", "");
    assert buf.data == afterRoot + tree;
    var dirs := |root.Keys|;
    var files := CountFiles(entries);
    buf.WriteString(Summary(dirs, files));
    ghost var summary := Summary(dirs, files);
    assert buf.data == old(buf.data) + ".\n" + tree + summary;
    assert TreeText(entries) == ".\n" + tree + summary;
    ConcatAssoc(old(buf.data), ".\n", tree, summary);
  }

  /** Regrouping the pieces `PrintTree` appended, over plain variables so that the
      solver does not regroup the tree text itself. */
  lemma ConcatAssoc(a: string, b: string, c: string, d: string)
    ensures a + b + c + d == a + (b + c + d)
  {
  }

  /** The counting loop of `printTree`. */
  method CountFiles(entries: seq<FileEntry>) returns (files: nat)
    ensures files == FileCount(entries)
  {
    files := 0;
    var k := 0;
    while k < |entries|
      invariant 0 <= k <= |entries|
      invariant files == FileCount(entries[..k])
    {
      assert entries[..k + 1][..k] == entries[..k];
      if !HasSuffix(entries[k].path, "/") {
        files := files + 1;
      }
      k := k + 1;
    }
    assert entries[..k] == entries;
  }

  // ------------------------------------------------------------ properties

  /** The walk only yields files, so every entry is counted as a file. */
  lemma {:induction false} FileCountOfFiles(entries: seq<FileEntry>)
    requires forall j :: 0 <= j < |entries| ==> !HasSuffix(entries[j].path, "/")
    ensures FileCount(entries) == |entries|
  {
    if entries != [] {
      FileCountOfFiles(entries[..|entries| - 1]);
    }
  }

  /** The directory count includes the root: entries that all lie at the top
      level still report one directory. */
  lemma TopLevelEntriesMakeOneDirectory(entries: seq<FileEntry>)
    requires entries != []
    requires forall j :: 0 <= j < |entries| ==> TreePath(entries[j].path) && Dir(entries[j].path) == "."
    ensures TreeOf(entries).Keys == {"."}
  {
    TreeOfInv(entries);
    var t := TreeOf(entries);
    forall k | k in t
      ensures k == "."
    {
      TopLevelKeys(entries, k);
    }
  }

  lemma {:induction false} TopLevelKeys(entries: seq<FileEntry>, k: string)
    requires forall j :: 0 <= j < |entries| ==> Dir(entries[j].path) == "."
    requires k in TreeOf(entries)
    ensures k == "."
  {
    if entries != [] && k != "." {
      TopLevelKeys(entries[..|entries| - 1], k);
    }
  }

  // ------------------------------------------------------------ indentation

  /** `s` is a run of whole lines, each starting with `p`. */
  predicate IndentedLines(s: string, p: string) {
    && (s == "" || (HasPrefix(s, p) && s[|s| - 1] == '\n'))
    && forall i :: 0 <= i < |s| - 1 && s[i] == '\n' ==> HasPrefix(s[i + 1..], p)
  }

  /** No listed name spans two lines. */
  predicate OneLineNames(t: Tree) {
    forall k, c :: k in t && c in t[k] ==> '\n' !in c
  }

  lemma {:induction false} IndentedConcat(a: string, b: string, p: string)
    requires IndentedLines(a, p) && IndentedLines(b, p)
    ensures IndentedLines(a + b, p)
  {
    var s := a + b;
    if a != "" {
      assert s[..|p|] == a[..|p|];
    }
    forall i | 0 <= i < |s| - 1 && s[i] == '\n'
      ensures HasPrefix(s[i + 1..], p)
    {
      if i < |a| - 1 {
        assert s[i + 1..] == a[i + 1..] + b;
        assert s[i + 1..][..|p|] == a[i + 1..][..|p|];
      } else if i == |a| - 1 {
        assert s[i + 1..] == b;
      } else {
        assert s[i + 1..] == b[i - |a| + 1..];
        assert b[i - |a|] == '\n';
      }
    }
  }

  lemma IndentedWeaken(s: string, p: string, q: string)
    requires IndentedLines(s, p + q)
    ensures IndentedLines(s, p)
  {
    forall x: string | HasPrefix(x, p + q)
      ensures HasPrefix(x, p)
    {
      assert x[..|p|] == (p + q)[..|p|];
    }
  }

  lemma BaseNoNewline(c: string)
    requires '\n' !in c
    ensures '\n' !in Base(c)
  {
    if c != "" {
      var q := TrimTrailingSlashes(c);
      if q != "" {
        var k := LastIndex(q, '/') + 1;
        assert Base(c) == q[k..];
        NoNewlineIn(c, q, k);
      }
    }
  }

  lemma NoNewlineIn(c: string, q: string, k: nat)
    requires '\n' !in c && |q| <= |c| && q == c[..|q|] && k <= |q|
    ensures '\n' !in q[k..]
  {
    forall j | 0 <= j < |q| - k
      ensures q[k..][j] != '\n'
    {
      assert q[k..][j] == c[k + j];
    }
  }

  lemma BranchLineIndented(prefix: string, isLast: bool, child: string)
    requires '\n' !in prefix && '\n' !in child
    ensures IndentedLines(BranchLine(prefix, isLast, child), prefix)
  {
    var mid := (if isLast then LAST_BRANCH else BRANCH) + " " + Base(child);
    BaseNoNewline(child);
    assert '\n' !in mid;
    var s := BranchLine(prefix, isLast, child);
    assert s == (prefix + mid) + "\n";
    assert '\n' !in prefix + mid;
    assert s[..|prefix|] == prefix;
    forall i | 0 <= i < |s| - 1
      ensures s[i] != '\n'
    {
      assert s[i] == (prefix + mid)[i];
    }
  }

  /** Every line printed for the subtree of `node` starts with its prefix, when
      the prefix for its first line and for its children are the same, as in
      every recursive call of `printNode`; a name with a newline in it would
      break this. */
  lemma NodeIndented(t: Tree, node: string, p: string)
    requires TreeOk(t) && OneLineNames(t) && '\n' !in p
    ensures IndentedLines(NodeText(t, node, p, p), p)
    decreases Below(t, Level(node)), 1, 0, 0
  {
    ChildrenIndented(t, node, 0, p);
  }

  lemma ChildrenIndented(t: Tree, node: string, i: nat, p: string)
    requires TreeOk(t) && OneLineNames(t) && '\n' !in p
    ensures IndentedLines(ChildrenText(t, node, i, p, p), p)
    decreases Below(t, Level(node)), 0, |Kids(t, node)| - i, 1
  {
    if i < |Kids(t, node)| {
      ChildIndented(t, node, i, p);
      ChildrenIndented(t, node, i + 1, p);
      IndentedConcat(ChildText(t, node, i, p, p), ChildrenText(t, node, i + 1, p, p), p);
    }
  }

  /** A child's block is its branch line at the parent's prefix, then, for a
      directory, its own subtree with every line indented further: by `INDENT`
      under the last child and by `INDENT_PIPE` under the others. */
  lemma ChildIndented(t: Tree, node: string, i: nat, p: string)
    requires TreeOk(t) && OneLineNames(t) && '\n' !in p && i < |Kids(t, node)|
    ensures var kids := Kids(t, node);
      var line := BranchLine(p, i == |kids| - 1, kids[i]);
      var q := p + (if i == |kids| - 1 then INDENT else INDENT_PIPE);
      && IndentedLines(ChildText(t, node, i, p, p), p)
      && HasPrefix(ChildText(t, node, i, p, p), line)
      && IndentedLines(ChildText(t, node, i, p, p)[|line|..], q)
    decreases Below(t, Level(node)), 0, |Kids(t, node)| - i, 0
  {
    var kids := Kids(t, node);
    var child := kids[i];
    var isLast := i == |kids| - 1;
    var line := BranchLine(p, isLast, child);
    var q := p + (if isLast then INDENT else INDENT_PIPE);
    assert child in t[node];
    BranchLineIndented(p, isLast, child);
    var text := ChildText(t, node, i, p, p);
    if child in t {
      BelowShrinks(t, node, child);
      assert '\n' !in q;
      ChildTextDir(t, node, i, p, p, isLast, q);
      NodeIndented(t, child, q);
      IndentedWeaken(NodeText(t, child, q, q), p, q[|p|..]);
      assert p + q[|p|..] == q;
      IndentedConcat(line, NodeText(t, child, q, q), p);
      assert text[|line|..] == NodeText(t, child, q, q);
    } else {
      ChildTextFile(t, node, i, p, p);
      assert text[|line|..] == "";
    }
    assert text[..|line|] == line;
  }
}
