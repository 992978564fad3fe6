/** The renderers of output.go: the file listing with its token summary, and the
    three output formats. Writing to the terminal and to the clipboard is
    modelled by what would be written: the text for standard output, and the
    clipboard's answer as a parameter. */
module Output {
  import opened Wrappers
  import opened Strs
  import opened Types
  import opened Buffers
  import opened ContentFormat
  import opened TreeView

  const WARNING_SIGN := "\U{26A0}\U{FE0F}"

  // ------------------------------------------------------------ the summary

  /** The total of the token counts of the entries that have one. */
  function SumTokens(entries: seq<FileEntry>): nat {
    if entries == [] then 0
    else
      var last := entries[|entries| - 1];
      SumTokens(entries[..|entries| - 1]) + (if last.tokenCount.Some? then last.tokenCount.value.count else 0)
  }

  /** The largest token limit among the entries that have a count, and 0 when
      there is none larger. */
  function MaxLimit(entries: seq<FileEntry>): int {
    if entries == [] then 0
    else
      var last := entries[|entries| - 1];
      var m := MaxLimit(entries[..|entries| - 1]);
      if last.tokenCount.Some? && last.tokenCount.value.tokenLimit > m then last.tokenCount.value.tokenLimit else m
  }

  /** The first loop of `printFiles`: the running total and the running maximum. */
  method TokenTotals(entries: seq<FileEntry>) returns (totalTokens: nat, maxTokenLimit: int)
    ensures totalTokens == SumTokens(entries) && maxTokenLimit == MaxLimit(entries)
  {
    totalTokens, maxTokenLimit := 0, 0;
    var k := 0;
    while k < |entries|
      invariant 0 <= k <= |entries|
      invariant totalTokens == SumTokens(entries[..k]) && maxTokenLimit == MaxLimit(entries[..k])
    {
      assert entries[..k + 1][..k] == entries[..k];
      var entry := entries[k];
      if entry.tokenCount.Some? {
        totalTokens := totalTokens + entry.tokenCount.value.count;
        if entry.tokenCount.value.tokenLimit > maxTokenLimit {
          maxTokenLimit := entry.tokenCount.value.tokenLimit;
        }
      }
      k := k + 1;
    }
    assert entries[..k] == entries;
  }

  const SUMMARY_HEADING := "Token Summary:\n"

  function TotalLine(total: int): string {
    "Total Tokens: " + IntToString(total) + "\n"
  }

  function LimitLine(limit: int): string {
    "Token Limit: " + IntToString(limit) + "\n"
  }

  function UsageLine(total: int, limit: int, ft: FloatText): string {
    "Usage: " + ft.percent(total, limit) + "%\n\n"
  }

  /** The summary block for a total and a limit: shown only when the limit is
      positive. */
  function SummaryBlock(total: int, limit: int, ft: FloatText): string {
    if limit > 0 then
      SUMMARY_HEADING + TotalLine(total) + LimitLine(limit) + UsageLine(total, limit, ft)
    else ""
  }

  /** The token summary of the entries. */
  function SummaryText(entries: seq<FileEntry>, ft: FloatText): string {
    SummaryBlock(SumTokens(entries), MaxLimit(entries), ft)
  }

  function WarningLine(tc: TokenCount, ft: FloatText): string {
    WARNING_SIGN + " Token usage: " + IntToString(tc.count) + " (" + ft.percent(tc.count, tc.tokenLimit) + "% of limit)\n"
  }

  /** The usage warning of one entry, written when its count is at 80 % of its
      limit or more. */
  function WarningText(e: FileEntry, ft: FloatText): string {
    if e.tokenCount.Some? && NearLimit(e.tokenCount.value) then WarningLine(e.tokenCount.value, ft) else ""
  }

  function HeaderLine(path: string): string {
    "\nFile: " + path + "\n"
  }

  function RuleLine(): string {
    Repeat("=", 48) + "\n"
  }

  /** One entry: a header with its path and a rule of 48 '=', the warning, and
      the re-indented content. */
  function EntryText(e: FileEntry, ft: FloatText): string {
    HeaderLine(e.path) + RuleLine() + WarningText(e, ft) + (FormatText(e.content) + "\n")
  }

  function EntriesText(entries: seq<FileEntry>, ft: FloatText): string {
    if entries == [] then ""
    else EntriesText(entries[..|entries| - 1], ft) + EntryText(entries[|entries| - 1], ft)
  }

  /** What `printFiles` writes. */
  function FilesText(entries: seq<FileEntry>, ft: FloatText): string {
    SummaryText(entries, ft) + EntriesText(entries, ft)
  }

  /** `printFiles`. */
  method PrintFiles(entries: seq<FileEntry>, buf: Buffer, ft: FloatText)
    modifies buf
    ensures buf.data == old(buf.data) + FilesText(entries, ft)
  {
    var totalTokens, maxTokenLimit := TokenTotals(entries);
    PrintSummary(totalTokens, maxTokenLimit, buf, ft);
    ghost var afterSummary := buf.data;
    var k := 0;
    while k < |entries|
      invariant 0 <= k <= |entries|
      invariant buf.data == afterSummary + EntriesText(entries[..k], ft)
    {
      PrintEntry(entries[k], buf, ft);
      EntriesStep(entries, k, ft);
      Assoc3(afterSummary, EntriesText(entries[..k], ft), EntryText(entries[k], ft));
      k := k + 1;
    }
    assert entries[..k] == entries;
    Assoc3(old(buf.data), SummaryText(entries, ft), EntriesText(entries, ft));
  }

  lemma EntriesStep(entries: seq<FileEntry>, k: int, ft: FloatText)
    requires 0 <= k < |entries|
    ensures EntriesText(entries[..k + 1], ft) == EntriesText(entries[..k], ft) + EntryText(entries[k], ft)
  {
    assert entries[..k + 1][..k] == entries[..k];
  }

  /** The summary block of `printFiles`, written after its first loop. */
  method PrintSummary(totalTokens: int, maxTokenLimit: int, buf: Buffer, ft: FloatText)
    modifies buf
    ensures buf.data == old(buf.data) + SummaryBlock(totalTokens, maxTokenLimit, ft)
  {
    if maxTokenLimit > 0 {
      buf.WriteString(SUMMARY_HEADING);
      buf.WriteString(TotalLine(totalTokens));
      buf.WriteString(LimitLine(maxTokenLimit));
      buf.WriteString(UsageLine(totalTokens, maxTokenLimit, ft));
      Assoc5(old(buf.data), SUMMARY_HEADING, TotalLine(totalTokens), LimitLine(maxTokenLimit), UsageLine(totalTokens, maxTokenLimit, ft));
    } else {
      assert buf.data == old(buf.data) + "";
    }
  }

  /** The body of the second loop of `printFiles`. */
  method PrintEntry(entry: FileEntry, buf: Buffer, ft: FloatText)
    modifies buf
    ensures buf.data == old(buf.data) + EntryText(entry, ft)
  {
    buf.WriteString(HeaderLine(entry.path));
    buf.WriteString(RuleLine());
    if entry.tokenCount.Some? && NearLimit(entry.tokenCount.value) {
      buf.WriteString(WarningLine(entry.tokenCount.value, ft));
    } else {
      assert buf.data == buf.data + "";
    }
    var formattedContent := FormatFileContent(entry.content);
    buf.WriteString(formattedContent + "\n");
    Assoc5(old(buf.data), HeaderLine(entry.path), RuleLine(), WarningText(entry, ft), formattedContent + "\n");
  }

  /** Regrouping the pieces a printer appended, stated over plain variables so
      that the solver does not have to regroup the long strings themselves. */
  lemma Assoc3(a: string, b: string, c: string)
    ensures a + b + c == a + (b + c)
  {
  }

  lemma Assoc5(a: string, b: string, c: string, d: string, e: string)
    ensures a + b + c + d + e == a + (b + c + d + e)
  {
  }

  // --------------------------------------------------------- generateOutput

  const INVALID_FORMAT := "invalid output format specified"
  const CONTENTS_HEADING := "\nFile Contents:\n"

  /** The tree formats need paths from the walk (see `TreeView.TreePath`); the
      file listing and an unknown format take any paths, such as the "." entry
      of a single-file root. */
  predicate Printable(entries: seq<FileEntry>, format: string) {
    (format == "tree" || format == "both") ==> forall j :: 0 <= j < |entries| ==> TreePath(entries[j].path)
  }

  /** The text `generateOutput` builds for a format, or its error for an unknown
      one. */
  function Render(entries: seq<FileEntry>, format: string, ft: FloatText): (r: Result<string, string>)
    requires Printable(entries, format)
  {
    if format == "tree" then Ok(TreeText(entries))
    else if format == "files" then Ok(FilesText(entries, ft))
    else if format == "both" then Ok(TreeText(entries) + CONTENTS_HEADING + FilesText(entries, ft))
    else Err(INVALID_FORMAT)
  }

  /** What `generateOutput` does: the text written to standard output and the
      error it returns. `clipboardErr` is the clipboard's answer when asked to
      hold the text. */
  datatype Outcome = Outcome(stdout: string, err: Option<string>)

  function OutputOf(entries: seq<FileEntry>, format: string, useClip: bool, clipboardErr: Option<string>, ft: FloatText): Outcome
    requires Printable(entries, format)
  {
    match Render(entries, format, ft)
    case Err(e) => Outcome("", Some(e))
    case Ok(text) =>
      if !useClip then Outcome(text, None)
      else if clipboardErr.Some? then Outcome(text, Some("failed to copy to clipboard: " + clipboardErr.value))
      else Outcome(text + "\nOutput copied to clipboard!\n", None)
  }

  /** `generateOutput`. */
  method GenerateOutput(entries: seq<FileEntry>, format: string, useClip: bool, clipboardErr: Option<string>, ft: FloatText)
    returns (out: Outcome)
    requires Printable(entries, format)
    ensures out == OutputOf(entries, format, useClip, clipboardErr, ft)
  {
    var buf := new Buffer();
    if format == "tree" {
      PrintTree(entries, buf);
      assert "" + TreeText(entries) == TreeText(entries);
      assert buf.data == Render(entries, format, ft).value;
    } else if format == "files" {
      PrintFiles(entries, buf, ft);
      assert "" + FilesText(entries, ft) == FilesText(entries, ft);
      assert buf.data == Render(entries, format, ft).value;
    } else if format == "both" {
      PrintTree(entries, buf);
      assert "" + TreeText(entries) == TreeText(entries);
      buf.WriteString(CONTENTS_HEADING);
      PrintFiles(entries, buf, ft);
      assert buf.data == Render(entries, format, ft).value;
    } else {
      return Outcome("", Some(INVALID_FORMAT));
    }
    var stdout := buf.data;
    if useClip {
      if clipboardErr.Some? {
        return Outcome(stdout, Some("failed to copy to clipboard: " + clipboardErr.value));
      }
      stdout := stdout + "\nOutput copied to clipboard!\n";
    }
    return Outcome(stdout, None);
  }

  // ------------------------------------------------------------ properties

  /** Only the three named formats are accepted, and nothing reaches standard
      output for any other. */
  lemma FormatAccepted(entries: seq<FileEntry>, format: string, useClip: bool, clipboardErr: Option<string>, ft: FloatText)
    requires Printable(entries, format)
    ensures Render(entries, format, ft).Ok? <==> format in {"tree", "files", "both"}
    ensures Render(entries, format, ft).Err? ==> Render(entries, format, ft).error == INVALID_FORMAT
    ensures format !in {"tree", "files", "both"} ==>
      OutputOf(entries, format, useClip, clipboardErr, ft) == Outcome("", Some(INVALID_FORMAT))
  {
  }

  /** "both" is the tree, a separator heading, and the file listing. */
  lemma BothIsTreeThenFiles(entries: seq<FileEntry>, ft: FloatText)
    requires forall j :: 0 <= j < |entries| ==> TreePath(entries[j].path)
    ensures Render(entries, "both", ft).value
      == Render(entries, "tree", ft).value + CONTENTS_HEADING + Render(entries, "files", ft).value
  {
  }

  /** A clipboard failure still leaves the text printed. */
  lemma ClipboardFailureKeepsText(entries: seq<FileEntry>, format: string, e: string, ft: FloatText)
    requires Printable(entries, format)
    requires format in {"tree", "files", "both"}
    ensures var o := OutputOf(entries, format, true, Some(e), ft);
      o.stdout == Render(entries, format, ft).value && o.err == Some("failed to copy to clipboard: " + e)
  {
  }

  /** The limit the summary reports is the largest limit of a counted entry, or
      0 when every limit is at most 0. */
  lemma {:induction false} MaxLimitIsMaximum(entries: seq<FileEntry>)
    ensures MaxLimit(entries) >= 0
    ensures forall j :: 0 <= j < |entries| && entries[j].tokenCount.Some? ==>
      entries[j].tokenCount.value.tokenLimit <= MaxLimit(entries)
    ensures MaxLimit(entries) == 0 ||
      exists j :: 0 <= j < |entries| && entries[j].tokenCount.Some? && entries[j].tokenCount.value.tokenLimit == MaxLimit(entries)
  {
    if entries != [] {
      var n := |entries|;
      var init := entries[..n - 1];
      MaxLimitIsMaximum(init);
      forall j | 0 <= j < n - 1 && entries[j].tokenCount.Some?
        ensures entries[j].tokenCount.value.tokenLimit <= MaxLimit(entries)
      {
        assert init[j] == entries[j];
      }
      if MaxLimit(entries) != 0 && MaxLimit(entries) == MaxLimit(init) {
        var j :| 0 <= j < n - 1 && init[j].tokenCount.Some? && init[j].tokenCount.value.tokenLimit == MaxLimit(init);
        assert entries[j] == init[j];
      }
    }
  }

  /** The summary is written exactly when some counted entry has a positive
      limit. */
  lemma SummaryShownIff(entries: seq<FileEntry>, ft: FloatText)
    ensures SummaryText(entries, ft) != "" <==>
      exists j :: 0 <= j < |entries| && entries[j].tokenCount.Some? && entries[j].tokenCount.value.tokenLimit > 0
  {
    MaxLimitIsMaximum(entries);
    if MaxLimit(entries) > 0 {
      assert SummaryText(entries, ft)[0] == 'T';
    }
  }

  lemma {:induction false} SumTokensAppend(a: seq<FileEntry>, b: seq<FileEntry>)
    ensures SumTokens(a + b) == SumTokens(a) + SumTokens(b)
    decreases |b|
  {
    if b == [] {
      assert a + b == a;
    } else {
      var n := |b|;
      assert (a + b)[..|a + b| - 1] == a + b[..n - 1];
      SumTokensAppend(a, b[..n - 1]);
    }
  }

  /** The total does not depend on the order in which the walk delivered the
      entries. */
  lemma {:induction false} SumTokensPermutation(a: seq<FileEntry>, b: seq<FileEntry>)
    requires multiset(a) == multiset(b)
    ensures SumTokens(a) == SumTokens(b)
    decreases |a|
  {
    if a != [] {
      var n := |a|;
      var x := a[n - 1];
      assert a == a[..n - 1] + [x];
      assert x in multiset(b);
      var i :| 0 <= i < |b| && b[i] == x;
      assert b == b[..i] + [x] + b[i + 1..];
      var rest := b[..i] + b[i + 1..];
      RemoveAt(a, n - 1);
      RemoveAt(b, i);
      assert a[n..] == [];
      assert a[..n - 1] + a[n..] == a[..n - 1];
      SumTokensPermutation(a[..n - 1], rest);
      SumTokensAppend(b[..i] + [x], b[i + 1..]);
      SumTokensAppend(b[..i], [x]);
      SumTokensAppend(b[..i], b[i + 1..]);
      assert [x][..0] == [];
    } else {
      assert b == [];
    }
  }

  lemma RemoveAt(s: seq<FileEntry>, i: int)
    requires 0 <= i < |s|
    ensures multiset(s[..i] + s[i + 1..]) == multiset(s) - multiset{s[i]}
  {
    assert s == s[..i] + [s[i]] + s[i + 1..];
  }

  /** Nor does the reported limit. */
  lemma MaxLimitPermutation(a: seq<FileEntry>, b: seq<FileEntry>)
    requires multiset(a) == multiset(b)
    ensures MaxLimit(a) == MaxLimit(b)
  {
    MaxLimitIsMaximum(a);
    MaxLimitIsMaximum(b);
    forall j | 0 <= j < |a| && a[j].tokenCount.Some?
      ensures a[j].tokenCount.value.tokenLimit <= MaxLimit(b)
    {
      LimitBelowMax(a, b, j);
    }
    forall k | 0 <= k < |b| && b[k].tokenCount.Some?
      ensures b[k].tokenCount.value.tokenLimit <= MaxLimit(a)
    {
      LimitBelowMax(b, a, k);
    }
  }

  lemma LimitBelowMax(a: seq<FileEntry>, b: seq<FileEntry>, j: int)
    requires multiset(a) == multiset(b)
    requires 0 <= j < |a| && a[j].tokenCount.Some?
    ensures a[j].tokenCount.value.tokenLimit <= MaxLimit(b)
  {
    assert a[j] in multiset(b);
    var k :| 0 <= k < |b| && b[k] == a[j];
    MaxLimitIsMaximum(b);
  }

  /** Each entry's block ends with its re-indented content, which keeps the
      content's line count. */
  lemma EntryEndsWithContent(e: FileEntry, ft: FloatText)
    ensures HasSuffix(EntryText(e, ft), FormatText(e.content) + "\n")
    ensures |SplitOn(FormatText(e.content), '\n')| == |SplitOn(e.content, '\n')|
  {
    FormatTextLines(e.content);
    var s := EntryText(e, ft);
    var tail := FormatText(e.content) + "\n";
    assert s == (HeaderLine(e.path) + RuleLine() + WarningText(e, ft)) + tail;
  }
}
