/** The scanner (analyzer.go): which walked files become entries, the binary
    test on a file's first bytes, reading a file (in chunks when it is large), and
    building its entry.

    The directory tree is an in-memory list of nodes in walk order, each with its
    root-relative path. Reading a node either fails with the operating system's
    message or yields the node's bytes. Collection runs the walk sequentially;
    the source hands each file to its own goroutine, so the order of the result
    is not promised and only its multiset is specified. */
module Analyzer {
  import opened Wrappers
  import opened Strs
  import opened Paths
  import opened Types
  import opened Patterns
  import opened Tokenizers

  /** One entry of the walked tree: its path relative to the root, whether it is
      a directory, its stat size, its bytes, the error the walk reports for it
      (if any), and the error opening, stating or reading it gives (if any). */
  datatype FsNode = FsNode(
    rel: string,
    isDir: bool,
    size: Int64,
    data: seq<Byte>,
    walkErr: Option<string>,
    readErr: Option<string>)

  datatype Analyzer = Analyzer(config: Config, matcher: PatternMatcher, tokenizer: Option<Tokenizer>)

  /** How a collection ends: with the entries, with the walk's first error, or
      not at all, because a goroutine that failed to process its file blocks
      sending on an error channel that nobody reads; the collector then waits
      for it and the program deadlocks, which the Go runtime most likely ends
      by aborting with "all goroutines are asleep". */
  datatype Collected = Files(entries: seq<FileEntry>) | WalkFailed(err: string) | Hung

  const SAMPLE_SIZE := 512
  const CHUNK_SIZE := 32 * 1024
  const LARGE_FILE := 1024 * 1024

  function Min(a: int, b: int): (m: int)
    ensures m <= a && m <= b && (m == a || m == b)
  {
    if a <= b then a else b
  }

  /** The path the walk hands to the callbacks: the root as given for the root
      itself, and `filepath.Join` of the root and the relative path for a node
      below it, which is cleaned; `Paths.FullJoinStep` shows this is the path
      that joining each name onto its directory's path, as `filepath.Walk`
      does, arrives at. */
  function WalkPath(root: string, rel: string): string {
    if rel == "." then root else FullJoin(root, rel)
  }

  /** A root written with a leading "./" is cleaned away below the root: walking
      "./src" visits "src/a/b.go", not "./src/a/b.go". */
  lemma WalkPathCleansRoot()
    ensures WalkPath("./src", ".") == "./src"
    ensures WalkPath("./src", "a/b.go") == "src/a/b.go"
  {
    ExampleRel();
    ExampleRoot();
    FullJoinCleanRel("./src", "a/b.go");
  }

  lemma ExampleRel()
    ensures IsCleanRel("a/b.go")
  {
    SplitJoin(["a", "b.go"], '/');
    assert JoinWith(["a", "b.go"], '/') == "a/b.go";
  }

  lemma ExampleRoot()
    ensures Clean("./src") == "src"
  {
    SplitJoin([".", "src"], '/');
    assert JoinWith([".", "src"], '/') == "./src";
    assert CleanElems([], [".", "src"], false) == ["src"];
    assert JoinWith(["src"], '/') == "src";
  }

  /** `NewAnalyzer`: a tokenizer is always built, so a configured analyzer always
      counts tokens; a factory error is wrapped. */
  function NewAnalyzer(env: TokenizerEnv, cfg: Config): (r: Result<Analyzer, string>)
    ensures r.Ok? <==> NewTokenizer(env, cfg.tokenizerType, cfg.tokenizerModel, cfg.tokenLimit).Ok?
    ensures r.Err? ==> r.error == "failed to create tokenizer: " + NewTokenizer(env, cfg.tokenizerType, cfg.tokenizerModel, cfg.tokenLimit).error
    ensures r.Ok? ==>
      && r.value.config == cfg
      && r.value.matcher == NewPatternMatcher(cfg.includes, cfg.excludes)
      && r.value.tokenizer == Some(NewTokenizer(env, cfg.tokenizerType, cfg.tokenizerModel, cfg.tokenLimit).value)
  {
    match NewTokenizer(env, cfg.tokenizerType, cfg.tokenizerModel, cfg.tokenLimit)
    case Err(e) => Err("failed to create tokenizer: " + e)
    case Ok(tok) => Ok(Analyzer(cfg, NewPatternMatcher(cfg.includes, cfg.excludes), Some(tok)))
  }

  // ---------------------------------------------------------------- the gates

  /** What `shouldProcessFile` decides for a walked path and its size. */
  predicate Eligible(a: Analyzer, path: string, size: int) {
    && (a.config.hidden || !HasPrefix(Base(path), "."))
    && size <= a.config.maxSize
    && Accepts(a.matcher, path)
  }

  /** `shouldProcessFile`. */
  method ShouldProcessFile(a: Analyzer, path: string, size: int) returns (ok: bool)
    ensures ok == Eligible(a, path, size)
  {
    if !a.config.hidden && HasPrefix(Base(path), ".") {
      return false;
    }
    if size > a.config.maxSize {
      return false;
    }
    ok := ShouldProcess(a.matcher, path);
  }

  /** The number of separators in a relative path, which the walk compares with
      the depth limit. */
  function Depth(rel: string): nat {
    CountChar(rel, '/')
  }

  /** A walked node that reaches `processFile`: within the depth limit, not a
      directory, and eligible. */
  predicate IsCandidate(a: Analyzer, n: FsNode) {
    Depth(n.rel) <= a.config.maxDepth && !n.isDir && Eligible(a, WalkPath(a.config.path, n.rel), n.size)
  }

  /** A directory over the depth limit is skipped with everything below it; the
      nodes below are deeper still, so gating each node on its own depth leaves
      out exactly the same files. */
  lemma SkipDirSound(a: Analyzer, dir: string, rel: string)
    requires Depth(dir) > a.config.maxDepth
    requires HasPrefix(rel, dir + "/")
    ensures Depth(rel) > a.config.maxDepth
  {
    var p := dir + "/";
    assert rel == p + rel[|p|..];
    CountCharAppend(p, rel[|p|..], '/');
    CountCharAppend(dir, "/", '/');
  }

  // ---------------------------------------------------------- the binary test

  /** The bytes the binary test counts, written as the source's condition. */
  predicate IsBinaryByte(b: Byte) {
    b == 0 || (b < 7 && b != 5 && b != 4) || (b > 14 && b < 32 && b != 10 && b != 13 && b != 9)
  }

  /** The condition picks out exactly 0, 1, 2, 3, 6 and 15 to 31; tab, newline and
      carriage return (9, 10, 13) are never counted. */
  lemma BinaryBytesExactly(b: Byte)
    ensures IsBinaryByte(b) <==> b in {0, 1, 2, 3, 6} || 15 <= b <= 31
  {
  }

  function BinaryCount(buf: seq<Byte>): (c: nat)
    ensures c <= |buf|
  {
    if buf == [] then 0
    else BinaryCount(buf[..|buf| - 1]) + (if IsBinaryByte(buf[|buf| - 1]) then 1 else 0)
  }

  /** `isBinary`: more than 30 % of the sample are counted bytes. The source
      compares `float64(count) / float64(len) > 0.3`; for samples of at most 512
      bytes that is exactly `10 * count > 3 * len`. */
  predicate BinarySample(buf: seq<Byte>) {
    |buf| > 0 && 10 * BinaryCount(buf) > 3 * |buf|
  }

  /** `isBinary`, the counting loop. */
  method IsBinary(buf: seq<Byte>) returns (binary: bool)
    ensures binary == BinarySample(buf)
  {
    if |buf| == 0 {
      return false;
    }
    var count := 0;
    var i := 0;
    while i < |buf|
      invariant 0 <= i <= |buf|
      invariant count == BinaryCount(buf[..i])
    {
      assert buf[..i + 1][..i] == buf[..i];
      if buf[i] == 0 || (buf[i] < 7 && buf[i] != 5 && buf[i] != 4) || (buf[i] > 14 && buf[i] < 32 && buf[i] != 10 && buf[i] != 13 && buf[i] != 9) {
        count := count + 1;
      }
      i := i + 1;
    }
    assert buf[..i] == buf;
    binary := 10 * count > 3 * |buf|;
  }

  /** A sample of text bytes (tab, newline, carriage return, and everything from
      the space upward) is never binary. */
  lemma {:induction false} TextNeverCounted(buf: seq<Byte>)
    requires forall i :: 0 <= i < |buf| ==> buf[i] >= 32 || buf[i] == 9 || buf[i] == 10 || buf[i] == 13
    ensures BinaryCount(buf) == 0 && !BinarySample(buf)
  {
    if buf != [] {
      TextNeverCounted(buf[..|buf| - 1]);
    }
  }

  /** A sample that is all counted bytes is binary. */
  lemma {:induction false} AllCountedIsBinary(buf: seq<Byte>)
    requires forall i :: 0 <= i < |buf| ==> IsBinaryByte(buf[i])
    ensures BinaryCount(buf) == |buf|
    ensures buf != [] ==> BinarySample(buf)
  {
    if buf != [] {
      AllCountedIsBinary(buf[..|buf| - 1]);
    }
  }

  // ------------------------------------------------------ reading and entries

  /** A file's bytes read as a Go string: one character per byte, same code. */
  function Text(data: seq<Byte>): (s: string)
    ensures |s| == |data|
    ensures forall i :: 0 <= i < |data| ==> s[i] as int == data[i]
  {
    seq(|data|, i requires 0 <= i < |data| => data[i] as char)
  }

  /** The first read: up to 512 bytes. */
  function Sample(data: seq<Byte>): (s: seq<Byte>)
    ensures |s| <= SAMPLE_SIZE && |s| <= |data| && s == data[..|s|]
    ensures |data| >= SAMPLE_SIZE ==> |s| == SAMPLE_SIZE
  {
    data[..Min(SAMPLE_SIZE, |data|)]
  }

  /** `createFileEntry`: the entry keeps the relative path, the text and the stat
      size; it has a token count exactly when a tokenizer is configured, and a
      counting error becomes the entry's error. */
  function CreateFileEntry(a: Analyzer, rel: string, content: string, size: Int64): (r: Result<FileEntry, string>)
    ensures a.tokenizer.None? ==> r == Ok(FileEntry(rel, content, size, None))
    ensures a.tokenizer.Some? ==>
      && (r.Err? <==> CountTokens(a.tokenizer.value, content).Err?)
      && (r.Err? ==> r.error == "failed to count tokens: " + CountTokens(a.tokenizer.value, content).error)
      && (r.Ok? ==> r.value == FileEntry(rel, content, size, Some(CountTokens(a.tokenizer.value, content).value)))
  {
    match a.tokenizer
    case None => Ok(FileEntry(rel, content, size, None))
    case Some(tok) =>
      match CountTokens(tok, content)
      case Err(e) => Err("failed to count tokens: " + e)
      case Ok(tc) => Ok(FileEntry(rel, content, size, Some(tc)))
  }

  /** What `processFile` yields: the read error; the zero entry when the first
      512 bytes look binary; otherwise the entry for the whole file's text. */
  function ProcessResult(a: Analyzer, n: FsNode): Result<FileEntry, string> {
    if n.readErr.Some? then Err(n.readErr.value)
    else if BinarySample(Sample(n.data)) then Ok(ZERO_ENTRY)
    else CreateFileEntry(a, n.rel, Text(n.data), n.size)
  }

  /** `processFile`: the first read takes up to 512 bytes; a file whose stat size
      exceeds 1 MiB is then read on in 32 KiB chunks until end of file, any other
      file is read again as a whole. Both ways give the whole file. */
  method ProcessFile(a: Analyzer, node: FsNode) returns (r: Result<FileEntry, string>)
    ensures r == ProcessResult(a, node)
  {
    if node.readErr.Some? {
      return Err(node.readErr.value);
    }
    var data := node.data;
    var n := Min(SAMPLE_SIZE, |data|);
    var sample := data[..n];
    var binary := IsBinary(sample);
    if binary {
      return Ok(ZERO_ENTRY);
    }
    var content: seq<Byte>;
    if node.size > LARGE_FILE {
      content := sample;
      var off := n;
      while true
        invariant n <= off <= |data| && content == data[..off]
        decreases |data| - off
      {
        var got := Min(CHUNK_SIZE, |data| - off);
        if got == 0 {
          break;
        }
        content := content + data[off..off + got];
        off := off + got;
      }
      assert content == data;
    } else {
      content := data;
    }
    r := CreateFileEntry(a, node.rel, Text(content), node.size);
  }

  /** A binary-looking file that can be read yields the zero entry, not an error:
      the collector keeps it like any other result. */
  lemma BinaryYieldsZeroEntry(a: Analyzer, n: FsNode)
    requires n.readErr.None? && BinarySample(Sample(n.data))
    ensures ProcessResult(a, n) == Ok(ZERO_ENTRY)
  {
  }

  /** A text file's entry holds its path, its whole text and its size, and a
      token count whenever the analyzer came from `NewAnalyzer`. */
  lemma TextEntry(env: TokenizerEnv, cfg: Config, n: FsNode)
    requires NewAnalyzer(env, cfg).Ok?
    requires n.readErr.None? && !BinarySample(Sample(n.data))
    requires ProcessResult(NewAnalyzer(env, cfg).value, n).Ok?
    ensures var e := ProcessResult(NewAnalyzer(env, cfg).value, n).value;
      e.path == n.rel && e.content == Text(n.data) && e.size == n.size && e.tokenCount.Some?
  {
  }

  // ---------------------------------------------------------------- collection

  /** The error the first (counting) walk stops at. That walk has no depth gate,
      so an error anywhere in the tree ends the collection. */
  function FirstWalkError(fs: seq<FsNode>): Option<string> {
    if fs == [] then None
    else if fs[0].walkErr.Some? then fs[0].walkErr
    else FirstWalkError(fs[1..])
  }

  lemma {:induction false} FirstWalkErrorAt(fs: seq<FsNode>, i: nat)
    requires i < |fs| && fs[i].walkErr.Some?
    requires forall j :: 0 <= j < i ==> fs[j].walkErr.None?
    ensures FirstWalkError(fs) == fs[i].walkErr
  {
    if i > 0 {
      FirstWalkErrorAt(fs[1..], i - 1);
    }
  }

  lemma {:induction false} NoWalkError(fs: seq<FsNode>)
    requires forall j :: 0 <= j < |fs| ==> fs[j].walkErr.None?
    ensures FirstWalkError(fs) == None
  {
    if fs != [] {
      NoWalkError(fs[1..]);
    }
  }

  /** The nodes that reach `processFile`, in walk order. */
  function Candidates(a: Analyzer, fs: seq<FsNode>): (cs: seq<FsNode>)
    ensures forall n :: n in cs ==> n in fs && IsCandidate(a, n)
  {
    if fs == [] then []
    else
      var last := fs[|fs| - 1];
      Candidates(a, fs[..|fs| - 1]) + (if IsCandidate(a, last) then [last] else [])
  }

  lemma {:induction false} CandidateIncluded(a: Analyzer, fs: seq<FsNode>, k: nat)
    requires k < |fs| && IsCandidate(a, fs[k])
    ensures fs[k] in Candidates(a, fs)
  {
    if k < |fs| - 1 {
      CandidateIncluded(a, fs[..|fs| - 1], k);
    }
  }

  predicate AllProcessable(a: Analyzer, ns: seq<FsNode>) {
    forall n :: n in ns ==> ProcessResult(a, n).Ok?
  }

  function Entries(a: Analyzer, ns: seq<FsNode>): (es: seq<FileEntry>)
    requires AllProcessable(a, ns)
    ensures |es| == |ns|
  {
    if ns == [] then []
    else Entries(a, ns[..|ns| - 1]) + [ProcessResult(a, ns[|ns| - 1]).value]
  }

  /** What a collection of the tree yields. */
  function Collect(a: Analyzer, fs: seq<FsNode>): Collected {
    if FirstWalkError(fs).Some? then WalkFailed(FirstWalkError(fs).value)
    else if !AllProcessable(a, Candidates(a, fs)) then Hung
    else Files(Entries(a, Candidates(a, fs)))
  }

  /** The processing walk's invariant after the first `k` nodes. */
  predicate WalkedSoFar(a: Analyzer, fs: seq<FsNode>, k: nat, entries: seq<FileEntry>)
    requires k <= |fs|
  {
    AllProcessable(a, Candidates(a, fs[..k])) && entries == Entries(a, Candidates(a, fs[..k]))
  }

  lemma StepCandidate(a: Analyzer, fs: seq<FsNode>, k: nat, entries: seq<FileEntry>)
    requires k < |fs| && WalkedSoFar(a, fs, k, entries)
    requires IsCandidate(a, fs[k]) && ProcessResult(a, fs[k]).Ok?
    ensures WalkedSoFar(a, fs, k + 1, entries + [ProcessResult(a, fs[k]).value])
  {
    var cs := Candidates(a, fs[..k]);
    assert fs[..k + 1][..k] == fs[..k];
    assert Candidates(a, fs[..k + 1]) == cs + [fs[k]];
    assert (cs + [fs[k]])[..|cs|] == cs;
  }

  lemma StepSkip(a: Analyzer, fs: seq<FsNode>, k: nat, entries: seq<FileEntry>)
    requires k < |fs| && WalkedSoFar(a, fs, k, entries)
    requires !IsCandidate(a, fs[k])
    ensures WalkedSoFar(a, fs, k + 1, entries)
  {
    assert fs[..k + 1][..k] == fs[..k];
    var cs := Candidates(a, fs[..k]);
    assert Candidates(a, fs[..k + 1]) == cs + [];
    assert cs + [] == cs;
  }

  /** The counting walk: it stops at the first error the walk reports. */
  method CountingWalk(fs: seq<FsNode>) returns (err: Option<string>)
    ensures err == FirstWalkError(fs)
  {
    var i := 0;
    while i < |fs|
      invariant 0 <= i <= |fs|
      invariant forall j :: 0 <= j < i ==> fs[j].walkErr.None?
    {
      if fs[i].walkErr.Some? {
        FirstWalkErrorAt(fs, i);
        return fs[i].walkErr;
      }
      i := i + 1;
    }
    NoWalkError(fs);
    return None;
  }

  /** The processing walk: the depth gate, the directory gate and
      `shouldProcessFile`, then `processFile` for each remaining file. */
  method ProcessingWalk(a: Analyzer, fs: seq<FsNode>) returns (r: Collected)
    ensures !r.WalkFailed?
    ensures r.Hung? <==> !AllProcessable(a, Candidates(a, fs))
    ensures r.Files? ==> r.entries == Entries(a, Candidates(a, fs))
  {
    var entries: seq<FileEntry> := [];
    var k := 0;
    while k < |fs|
      invariant 0 <= k <= |fs|
      invariant WalkedSoFar(a, fs, k, entries)
    {
      var node := fs[k];
      var candidate := false;
      if Depth(node.rel) <= a.config.maxDepth && !node.isDir {
        candidate := ShouldProcessFile(a, WalkPath(a.config.path, node.rel), node.size);
      }
      if candidate {
        var res := ProcessFile(a, node);
        if res.Err? {
          CandidateIncluded(a, fs, k);
          return Hung;
        }
        StepCandidate(a, fs, k, entries);
        entries := entries + [res.value];
      } else {
        StepSkip(a, fs, k, entries);
      }
      k := k + 1;
    }
    assert fs[..k] == fs;
    r := Files(entries);
  }

  /** `CollectFiles`, run sequentially: the counting walk, then the processing
      walk. */
  method CollectFiles(a: Analyzer, fs: seq<FsNode>) returns (r: Collected)
    ensures r.Files? <==> Collect(a, fs).Files?
    ensures !r.Files? ==> r == Collect(a, fs)
    ensures r.Files? ==> multiset(r.entries) == multiset(Collect(a, fs).entries)
  {
    var err := CountingWalk(fs);
    if err.Some? {
      return WalkFailed(err.value);
    }
    r := ProcessingWalk(a, fs);
  }

  /** Every candidate contributes exactly one entry. */
  lemma EntryPerCandidate(a: Analyzer, fs: seq<FsNode>)
    requires Collect(a, fs).Files?
    ensures |Collect(a, fs).entries| == |Candidates(a, fs)|
  {
  }

  lemma {:induction false} EntryFromNode(a: Analyzer, ns: seq<FsNode>, e: FileEntry)
    requires AllProcessable(a, ns)
    requires e in Entries(a, ns)
    ensures exists n :: n in ns && ProcessResult(a, n) == Ok(e)
  {
    var last := ns[|ns| - 1];
    if e != ProcessResult(a, last).value {
      EntryFromNode(a, ns[..|ns| - 1], e);
      var n :| n in ns[..|ns| - 1] && ProcessResult(a, n) == Ok(e);
      assert n in ns;
    }
  }

  /** Every entry other than the zero entry comes from a candidate: a file within
      the depth limit and the size limit, not hidden unless hidden files are on,
      that the matcher accepts; the entry holds its path, whole text and size. */
  lemma CollectedEntryFromCandidate(a: Analyzer, fs: seq<FsNode>, e: FileEntry)
    requires Collect(a, fs).Files? && e in Collect(a, fs).entries && e != ZERO_ENTRY
    ensures exists n :: n in fs && IsCandidate(a, n) && e.path == n.rel && e.content == Text(n.data) && e.size == n.size
    ensures Depth(e.path) <= a.config.maxDepth
  {
    var cs := Candidates(a, fs);
    assert Collect(a, fs).entries == Entries(a, cs);
    EntryFromNode(a, cs, e);
    var n :| n in cs && ProcessResult(a, n) == Ok(e);
    assert n in fs && IsCandidate(a, n);
    assert ProcessResult(a, n) != Ok(ZERO_ENTRY);
    assert e.path == n.rel;
  }

  /** A readable candidate whose first bytes look binary puts the zero entry in
      the result. */
  lemma BinaryCandidateGivesZeroEntry(a: Analyzer, fs: seq<FsNode>, k: nat)
    requires Collect(a, fs).Files?
    requires k < |fs| && IsCandidate(a, fs[k]) && fs[k].readErr.None? && BinarySample(Sample(fs[k].data))
    ensures ZERO_ENTRY in Collect(a, fs).entries
  {
    CandidateIncluded(a, fs, k);
    EntryOfCandidate(a, Candidates(a, fs), fs[k]);
  }

  lemma {:induction false} EntryOfCandidate(a: Analyzer, ns: seq<FsNode>, n: FsNode)
    requires AllProcessable(a, ns) && n in ns
    ensures ProcessResult(a, n).value in Entries(a, ns)
  {
    if n != ns[|ns| - 1] {
      assert n in ns[..|ns| - 1] by {
        var i :| 0 <= i < |ns| && ns[i] == n;
        assert ns[..|ns| - 1][i] == n;
      }
      EntryOfCandidate(a, ns[..|ns| - 1], n);
    }
  }

  /** With hidden files off, a file whose base name starts with '.' is never
      processed; a file exactly at the size limit may be. */
  lemma HiddenAndSizeGates(a: Analyzer, path: string, size: int)
    ensures !a.config.hidden && HasPrefix(Base(path), ".") ==> !Eligible(a, path, size)
    ensures size > a.config.maxSize ==> !Eligible(a, path, size)
    ensures (a.config.hidden || !HasPrefix(Base(path), ".")) && Accepts(a.matcher, path) ==>
      Eligible(a, path, a.config.maxSize)
  {
  }
}
