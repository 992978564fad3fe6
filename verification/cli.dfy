/** The command line (main.go): turning the parsed flag values into a
    configuration, and what happens to the picker's selection before the output
    is generated. Registering and parsing the flags is left to the flag library;
    the model starts from the values it produced. */
module Cli {
  import opened Wrappers
  import opened Strs
  import opened Types
  import opened Patterns
  import opened Analyzer

  /** The flag values after parsing. `include`, `exclude` and `tokenizer` are the
      raw strings; the others go into the configuration as they are. */
  datatype Flags = Flags(
    path: string,
    includeStr: string,
    excludeStr: string,
    maxSize: Int64,
    maxDepth: int,
    output: string,
    threads: int,
    hidden: bool,
    useClip: bool,
    interactive: bool,
    tokenizer: string,
    tokenizerModel: string,
    tokenLimit: int)

  /** The values of flags that are not given on the command line. */
  const DEFAULT_FLAGS := Flags(".", "", "", 10 * 1024 * 1024, 20, "both", 0, false, false, false, "", "", 4096)

  const HF_MODEL_MISSING := "must specify --tokenizer-model for HuggingFace tokenizer"

  /** A comma-separated pattern flag: nil when empty, its pieces otherwise. */
  function PatternFlag(s: string): (r: PatternList)
    ensures r.None? <==> s == ""
    ensures r.Some? ==> |r.value| >= 1 && forall k :: 0 <= k < |r.value| ==> ',' !in r.value[k]
  {
    if s != "" then Some(SplitOn(s, ',')) else None
  }

  /** The tokenizer kind a `-tokenizer` value selects, or the error for it. An
      empty value keeps the default. */
  function TokenizerKind(name: string, model: string): Result<TokenizerType, string> {
    if name == "" then Ok(TIKTOKEN_GPT35)
    else if name == "gpt-3.5-turbo" then Ok(TIKTOKEN_GPT35)
    else if name == "gpt-4" then Ok(TIKTOKEN_GPT4)
    else if name == "claude" then Ok(TIKTOKEN_CLAUDE)
    else if name == "huggingface" then
      if model == "" then Err(HF_MODEL_MISSING) else Ok(HUGGING_FACE)
    else Err("unsupported tokenizer type: " + name)
  }

  /** The part of `parseFlags` after `flag.Parse`. `pathMissing` is whether
      `os.Stat` reports that the path does not exist; any other stat error is
      ignored, as in the source. */
  function ParseConfig(f: Flags, pathMissing: bool): Result<Config, string> {
    if pathMissing then Err("path '" + f.path + "' does not exist")
    else
      match TokenizerKind(f.tokenizer, f.tokenizerModel)
      case Err(e) => Err(e)
      case Ok(kind) =>
        Ok(Config(f.path, PatternFlag(f.includeStr), PatternFlag(f.excludeStr), f.maxSize, f.maxDepth, f.output,
                  f.threads, f.hidden, f.useClip, f.interactive, kind, f.tokenizerModel, f.tokenLimit))
  }

  // ------------------------------------------------------------ properties

  /** A missing path is always an error, whatever the other flags say. */
  lemma MissingPathRejected(f: Flags)
    ensures ParseConfig(f, true) == Err("path '" + f.path + "' does not exist")
  {
  }

  /** The configuration takes the flag values, with the pattern lists nil
      exactly when their flag is empty. */
  lemma ConfigFromFlags(f: Flags)
    requires ParseConfig(f, false).Ok?
    ensures var c := ParseConfig(f, false).value;
      && c.path == f.path && c.output == f.output && c.tokenLimit == f.tokenLimit
      && c.maxSize == f.maxSize && c.maxDepth == f.maxDepth && c.tokenizerModel == f.tokenizerModel
      && (c.includes.None? <==> f.includeStr == "")
      && (c.excludes.None? <==> f.excludeStr == "")
      && (f.excludeStr != "" ==> c.excludes == Some(SplitOn(f.excludeStr, ',')))
  {
  }

  /** Without `-exclude` the deny-list applies; with one, the given patterns
      replace it. */
  lemma ExcludeFlagReplacesDefaults(f: Flags)
    requires ParseConfig(f, false).Ok?
    ensures var c := ParseConfig(f, false).value;
      NewPatternMatcher(c.includes, c.excludes).excludePatterns
        == (if f.excludeStr == "" then DefaultExcludes() else SplitOn(f.excludeStr, ','))
  {
  }

  /** Which tokenizer values are accepted, and what they select: the default
      when none is given. */
  lemma TokenizerChoice(f: Flags)
    ensures ParseConfig(f, false).Ok? <==>
      (f.tokenizer in {"", "gpt-3.5-turbo", "gpt-4", "claude"} || (f.tokenizer == "huggingface" && f.tokenizerModel != ""))
    ensures f.tokenizer == "" ==> ParseConfig(f, false).Ok? && ParseConfig(f, false).value.tokenizerType == TIKTOKEN_GPT35
    ensures f.tokenizer == "huggingface" && f.tokenizerModel == "" ==> ParseConfig(f, false) == Err(HF_MODEL_MISSING)
    ensures ParseConfig(f, false).Ok? && f.tokenizer != "" ==> ParseConfig(f, false).value.tokenizerType == f.tokenizer
  {
  }

  /** With every flag at its default, and the current directory present, the
      configuration is the default one. */
  lemma DefaultConfig()
    ensures ParseConfig(DEFAULT_FLAGS, false)
      == Ok(Config(".", None, None, 10 * 1024 * 1024, 20, "both", 0, false, false, false, TIKTOKEN_GPT35, "", 4096))
  {
  }

  // ------------------------------------------------------------ the picker's callback

  /** What reading a file with `processFile` finds now: the node at a
      root-relative path, as the analyzer sees it. */
  type Disk = string -> FsNode

  /** `processFile(filepath.Join(cfg.Path, file.Path))` reads the node at the
      selected path, and `createFileEntry` takes its path relative to the root,
      which is the selected path again. */
  function Reload(disk: Disk, path: string): (n: FsNode)
    ensures n.rel == path
  {
    disk(path).(rel := path)
  }

  /** The entries the callback keeps: an entry without content is loaded again
      and dropped when that fails; any other entry is kept as it is. */
  function Processed(a: Analyzer, disk: Disk, selected: seq<FileEntry>): seq<FileEntry> {
    if selected == [] then []
    else
      var file := selected[|selected| - 1];
      var rest := Processed(a, disk, selected[..|selected| - 1]);
      if file.content == "" then
        match ProcessResult(a, Reload(disk, file.path))
        case Err(_) => rest
        case Ok(entry) => rest + [entry]
      else rest + [file]
  }

  /** The messages the callback writes to standard error, one per dropped file. */
  function LoadErrors(a: Analyzer, disk: Disk, selected: seq<FileEntry>): seq<string> {
    if selected == [] then []
    else
      var file := selected[|selected| - 1];
      var rest := LoadErrors(a, disk, selected[..|selected| - 1]);
      if file.content == "" && ProcessResult(a, Reload(disk, file.path)).Err? then
        rest + ["Error loading file " + file.path + ": " + ProcessResult(a, Reload(disk, file.path)).error + "\n"]
      else rest
  }

  /** What the callback sends: nil (`None`) for an empty selection or when no
      entry survived, the kept entries otherwise. */
  function Sent(a: Analyzer, disk: Disk, selected: seq<FileEntry>): Option<seq<FileEntry>> {
    if |selected| == 0 then None
    else
      var p := Processed(a, disk, selected);
      if p == [] then None else Some(p)
  }

  /** The picker's `onDone` callback of `main`. */
  method OnDone(a: Analyzer, disk: Disk, selected: seq<FileEntry>) returns (sent: Option<seq<FileEntry>>, stderr: seq<string>)
    ensures sent == Sent(a, disk, selected)
    ensures stderr == LoadErrors(a, disk, selected)
  {
    stderr := [];
    if |selected| == 0 {
      return None, stderr;
    }
    var processedFiles: seq<FileEntry> := [];
    var k := 0;
    while k < |selected|
      invariant 0 <= k <= |selected|
      invariant processedFiles == Processed(a, disk, selected[..k])
      invariant stderr == LoadErrors(a, disk, selected[..k])
    {
      var file := selected[k];
      assert selected[..k + 1][..k] == selected[..k];
      if file.content == "" {
        var entry := ProcessFile(a, Reload(disk, file.path));
        if entry.Err? {
          stderr := stderr + ["Error loading file " + file.path + ": " + entry.error + "\n"];
        } else {
          processedFiles := processedFiles + [entry.value];
        }
      } else {
        processedFiles := processedFiles + [file];
      }
      k := k + 1;
    }
    assert selected[..k] == selected;
    if processedFiles == [] {
      sent := None;
    } else {
      sent := Some(processedFiles);
    }
  }

  /** What `main` does with what the callback sent. */
  datatype AfterPick = Cancelled | NoFilesSelected | Generate(files: seq<FileEntry>)

  function AfterPicker(sent: Option<seq<FileEntry>>): AfterPick {
    if sent.None? then Cancelled
    else if |sent.value| == 0 then NoFilesSelected
    else Generate(sent.value)
  }

  /** The entries kept are the selected ones with content, in their order, with
      every reloaded entry in its place; none are invented, and a reloaded entry
      other than a binary file's zero entry keeps the selected path. */
  lemma {:induction false} ProcessedShape(a: Analyzer, disk: Disk, selected: seq<FileEntry>)
    ensures |Processed(a, disk, selected)| + |LoadErrors(a, disk, selected)| == |selected|
    ensures forall e :: e in Processed(a, disk, selected) ==>
      (e in selected && e.content != "")
      || exists f :: f in selected && f.content == "" && ProcessResult(a, Reload(disk, f.path)) == Ok(e)
                 && (e == ZERO_ENTRY || e.path == f.path)
  {
    if selected != [] {
      var init := selected[..|selected| - 1];
      ProcessedShape(a, disk, init);
      assert forall f :: f in init ==> f in selected;
    }
  }

  /** Entries that already have content are forwarded unchanged and in order. */
  lemma {:induction false} LoadedKept(a: Analyzer, disk: Disk, selected: seq<FileEntry>)
    requires forall k :: 0 <= k < |selected| ==> selected[k].content != ""
    ensures Processed(a, disk, selected) == selected
    ensures LoadErrors(a, disk, selected) == []
  {
    if selected != [] {
      LoadedKept(a, disk, selected[..|selected| - 1]);
      assert selected[..|selected| - 1] + [selected[|selected| - 1]] == selected;
    }
  }

  /** Nothing survives exactly when every selected entry had to be loaded again
      and every load failed. */
  lemma {:induction false} NothingSurvivedIff(a: Analyzer, disk: Disk, selected: seq<FileEntry>)
    ensures Processed(a, disk, selected) == [] <==>
      forall k :: 0 <= k < |selected| ==> selected[k].content == "" && ProcessResult(a, Reload(disk, selected[k].path)).Err?
  {
    if selected != [] {
      var n := |selected|;
      var init := selected[..n - 1];
      NothingSurvivedIff(a, disk, init);
      assert forall k :: 0 <= k < n - 1 ==> init[k] == selected[k];
    }
  }

  /** An empty selection and a selection of which nothing could be loaded both
      end as a cancellation; "No files selected." is never printed. */
  lemma CancelledIff(a: Analyzer, disk: Disk, selected: seq<FileEntry>)
    ensures AfterPicker(Sent(a, disk, selected)) != NoFilesSelected
    ensures AfterPicker(Sent(a, disk, selected)) == Cancelled <==>
      forall k :: 0 <= k < |selected| ==> selected[k].content == "" && ProcessResult(a, Reload(disk, selected[k].path)).Err?
  {
    NothingSurvivedIff(a, disk, selected);
    if |selected| == 0 {
      assert Processed(a, disk, selected) == [];
    }
  }
}
