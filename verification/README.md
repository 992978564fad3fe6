# context — a verified model of the directory-to-text tool

`context` walks a directory and writes it out as one block of text for a
language model. The text has a tree of the paths, and each file's content
re-indented under a header. Each file gets a token count and a warning when
the count nears the configured limit. The include/exclude glob patterns, the
hidden-file and size gates, and a depth gate decide which files are taken. An
interactive picker lets the user choose files before the output is generated.

This project models that core in Dafny:

- `types.dfy`: the shared records (`Config`, `TokenCount`, `FileEntry`, the tokenizer kinds).
- `patterns.dfy` and `glob.dfy`: the pattern matcher, over a declarative reading of `filepath.Match`.
- `tokenizers.dfy`: the tokenizer factory and token counting. The encoders are parameters.
- `analyzer.dfy`: the gates, the binary test, reading a file, and collecting the entries of a walked tree.
- `content_format.dfy`: the re-indenting of file content.
- `tree_view.dfy`: building the directory map and printing the tree.
- `output.dfy`: the file listing with its token summary, and the three output formats.
- `buffer.dfy`: the growing text buffer the renderers write into.
- `picker.dfy`: the picker's selection, its filtered list, its keys, and the file description line.
- `cli.dfy`: validating the parsed flags, and what happens to the picker's selection.
- `strs.dfy`, `paths.dfy` and `wrappers.dfy`: the parts of Go's `strings`, `strconv` and `path/filepath` that the core relies on, plus `Option`/`Result`.

Each method that builds text in a buffer or a loop is proved equal to a
function of its inputs. The properties are proved as lemmas about those
functions.

The model takes the following from outside, as parameters:

- the file system, as a list of walked nodes with their bytes and errors;
- the tokenizer libraries;
- the clipboard's answer;
- the two `%.1f` floating-point renderings (`FloatText`).

## Model

| member | source | states |
|---|---|---|
| Patterns.NewPatternMatcher | patterns.go:13-22 | a nil exclude list becomes the default deny-list; a non-nil one, even empty, is kept |
| Patterns.MatchPattern | patterns.go:50-74 | the `**/` loop matches the rest of the pattern against the whole path or against what follows its last '/'; any other pattern is matched against the base name |
| Patterns.ShouldProcess | patterns.go:24-47 | accepts exactly when some include pattern matches (or there are none) and no exclude pattern matches |
| Patterns.MatchAny | patterns.go:28-33 | the loop over a pattern list finds a match exactly when some pattern of the list matches the path |
| Patterns.PlainPatternMatchesBase | patterns.go:72-73 | a pattern without metacharacters matches a path exactly when it equals the path's base name |
| Patterns.DoubleStarMatchesLastSegment | patterns.go:56-68 | `**/*.go` matches `a/b/c.go` |
| Patterns.DoubleStarRejectsOtherExtension | patterns.go:56-69 | `**/*.go` does not match `a/b/c.txt` |
| Patterns.DoubleStarWithSlashIsAnchored | patterns.go:56-69 | a `**/` pattern whose remainder is a plain path with a '/' matches only that exact path |
| Patterns.EmptyExcludeAcceptsAll | patterns.go:13-16 | an explicit empty exclude list switches the deny-list off, so every path is accepted |
| Patterns.ExcludeWins | patterns.go:40-44 | a path matched by any exclude pattern is rejected, whatever the include patterns say |
| Patterns.SelfIncludeRejectsNestedPath | patterns.go:72-73 | including `src/a.go` by name does not accept the path `src/a.go` (only the base name is matched) |
| Patterns.SelfIncludeAcceptsName | patterns.go:24-47 | a plain top-level name given as the only include pattern accepts that name |
| Patterns.GitEntryRejectsNestedGit | patterns.go:72-79 | the default `.git` pattern matches a nested `x/.git` |
| Patterns.GitEntryKeepsGitContents | patterns.go:72-79 | the default `.git` pattern does not match `.git/HEAD`, because only base names are tested |
| Glob.LiteralMatch | patterns.go:60 | a pattern without metacharacters matches a name exactly when they are equal |
| Glob.StarSuffixMatch | patterns.go:72 | `*` followed by a plain suffix matches exactly the slash-free names that end with the suffix |
| Tokenizers.WarnLimitOf | tokenizers.go:32 | the warn limit is 4/5 of the limit, truncated toward zero |
| Tokenizers.WarnLimitBelowLimit | tokenizers.go:32 | for a non-negative limit the warn limit lies between 0 and the limit |
| Tokenizers.NewTiktokenTokenizer | tokenizers.go:26-40 | fails exactly when the encoding cannot be loaded, with the wrapped message; otherwise it keeps the model name, the limit and the warn limit |
| Tokenizers.NewHuggingFaceTokenizer | tokenizers.go:68-82 | fails exactly when the model file cannot be loaded, with the wrapped message; otherwise it keeps the path, the limit and the warn limit |
| Tokenizers.CountTokens | tokenizers.go:42-55 | the count is the number of tokens the encoder returns; `truncated` holds exactly when the count exceeds the limit; a HuggingFace encoding error is wrapped |
| Tokenizers.Name | tokenizers.go:57-59 | the name is `tiktoken-` followed by the model, or `huggingface-` followed by the base name of the model path |
| Tokenizers.NamesDistinguishKinds | tokenizers.go:57-105 | a tiktoken tokenizer and a HuggingFace tokenizer never share a name |
| Tokenizers.NewTokenizer | tokenizers.go:107-120 | an unknown kind is rejected with `unsupported tokenizer type`; the three tiktoken kinds build a tiktoken tokenizer under the kind's name; `huggingface` builds one from the model path |
| Tokenizers.NewTokenizerFailsOnlyInLibrary | tokenizers.go:107-120 | a known kind fails only when its library fails |
| Tokenizers.FactoryCounts | tokenizers.go:42-55 | every count from a factory-built tokenizer carries the configured limit and warn limit |
| Tokenizers.NearLimitMatchesWarnLimit | tokenizers.go:32 | for a positive limit, a count above the warn limit is at least 80 % of the limit, and 80 % or more is at least the warn limit |
| Tokenizers.TruncatedIsNearLimit | tokenizers.go:48-50 | a truncated count is always at least 80 % of the limit |
| Analyzer.NewAnalyzer | analyzer.go:21-32 | succeeds exactly when the tokenizer can be built, and then keeps the configuration, the matcher built from its pattern lists and the tokenizer; otherwise the error is wrapped |
| Analyzer.ShouldProcessFile | analyzer.go:96-106 | takes a file exactly when it is not hidden (unless hidden files are wanted), not larger than the size limit, and accepted by the matcher |
| Analyzer.WalkPathCleansRoot | analyzer.go:247-265 | the walk hands the root its path as given, and a node below it the cleaned join of root and relative path: under the root "./src" the file "a/b.go" is checked as "src/a/b.go" |
| Paths.FullJoinCleanRel | analyzer.go:247 | `filepath.Join` of a root and a clean relative path is the cleaned root, then the relative path; a root that cleans to "." adds nothing |
| Paths.FullJoinStep | analyzer.go:247 | joining one more name onto the joined path of a directory gives the root joined with the longer relative path, so joining name by name, as the walk does, reaches the same path |
| Paths.CleanIdempotent | analyzer.go:247 | cleaning a cleaned path changes nothing |
| Analyzer.HiddenAndSizeGates | analyzer.go:96-106 | a hidden base name or an oversized file is refused; a visible accepted file at the size limit is taken |
| Analyzer.SkipDirSound | analyzer.go:252-259 | skipping a directory that is too deep skips nothing that the depth gate would have taken |
| Analyzer.IsBinary | analyzer.go:199-213 | a sample is binary exactly when it is non-empty and more than 30 % of its bytes are control bytes |
| Analyzer.BinaryBytesExactly | analyzer.go:207 | the control bytes are 0, 1, 2, 3, 6 and 15 to 31 |
| Analyzer.TextNeverCounted | analyzer.go:199-213 | printable bytes, tab, newline and carriage return never count, so such text is never binary |
| Analyzer.AllCountedIsBinary | analyzer.go:199-213 | a non-empty sample made only of control bytes is binary |
| Analyzer.Sample | analyzer.go:128-133 | the sample is the first 512 bytes, or the whole file when it is shorter |
| Analyzer.CreateFileEntry | analyzer.go:176-197 | the entry holds the path, content and size, and the token count when a tokenizer is present; a counting error is wrapped |
| Analyzer.ProcessFile | analyzer.go:108-174 | a read error is returned; a binary sample gives the zero entry; otherwise the whole file is read (in 32 KiB chunks above 1 MiB) and its entry is built |
| Analyzer.BinaryYieldsZeroEntry | analyzer.go:136-138 | a readable binary file yields the zero entry, not an error |
| Analyzer.TextEntry | analyzer.go:165-196 | a text file's entry holds its path, its whole text, its size and a token count |
| Analyzer.FirstWalkErrorAt | analyzer.go:224-235 | the counting walk stops at the first node the walk reports an error for |
| Analyzer.NoWalkError | analyzer.go:224-235 | without walk errors the counting walk succeeds |
| Analyzer.CountingWalk | analyzer.go:224-235 | the loop returns the first walk error, or none |
| Analyzer.Candidates | analyzer.go:247-267 | every candidate is a walked file that passes the depth gate and the file gates |
| Analyzer.CandidateIncluded | analyzer.go:247-267 | every walked file that passes the gates is a candidate |
| Analyzer.ProcessingWalk | analyzer.go:247-295 | the second walk hangs exactly when some candidate cannot be processed, and otherwise yields one entry per candidate in walk order |
| Analyzer.CollectFiles | analyzer.go:215-296 | fails with the first walk error, hangs when a candidate fails, and otherwise yields the candidates' entries; only their multiset is promised |
| Analyzer.EntryPerCandidate | analyzer.go:269-278 | a completed collection has exactly one entry per candidate |
| Analyzer.CollectedEntryFromCandidate | analyzer.go:247-296 | every non-zero collected entry comes from a candidate, with its path, text and size, and lies within the depth limit |
| Analyzer.BinaryCandidateGivesZeroEntry | analyzer.go:136-138 | a binary candidate puts the zero entry into the result |
| ContentFormat.Max | output.go:152-157 | the result is the larger of the two arguments |
| ContentFormat.CountLeadingSpace | output.go:136-150 | counts one per leading whitespace character and four per tab |
| ContentFormat.LeadingWidth | output.go:136-150 | the width lies between the number of leading whitespace characters and four times that number |
| ContentFormat.FormatOneLine | output.go:105-130 | one turn of the loop gives the line's output and the next indent level |
| ContentFormat.FormatFileContent | output.go:99-134 | the loop's result is the lines re-indented in order and joined with newlines |
| ContentFormat.FormatLines | output.go:105-131 | one output line per input line |
| ContentFormat.LineShape | output.go:106-130 | a line is blank exactly when its output is empty; otherwise the output is some indent of 2-space units followed by the trimmed line |
| ContentFormat.FormatLinesShape | output.go:105-131 | the same holds for every line of a whole text, and no line gains a newline |
| ContentFormat.LineRule | output.go:108-130 | a blank line keeps the level; an opening line is printed at the level and raises it; a closing line lowers the level (not below zero) and is printed at the new level; any other line sets the level to half its leading width when that width is positive, keeps it otherwise, and is printed at that level |
| ContentFormat.BracketRule | output.go:103-131 | within a whole text, each line follows that rule at the level reached by the lines before it |
| ContentFormat.FormatTextLines | output.go:101-133 | the result has as many lines as the content, and splitting it on newlines gives the re-indented lines |
| ContentFormat.TrimSpaceShape | output.go:115 | trimming keeps only characters of the line and leaves no whitespace at either end |
| ContentFormat.TrimSpaceOfBlank | output.go:107-115 | a line is blank after right-trimming exactly when it is blank after trimming both ends |
| TreeView.AddChild | output.go:186 | appending a child adds its parent to the map's keys and no other key |
| TreeView.AddDirs | output.go:173-188 | the loop over the parts of a directory adds each missing prefix directory under its parent |
| TreeView.BuildTree | output.go:167-191 | the map built by the loop is the map that the entries, taken in order, define |
| TreeView.AddChildInv | output.go:181-187 | adding a directory under its placed parent keeps every child under its own `Dir`, and every key except "." placed under its parent |
| TreeView.DirsFromInv | output.go:173-188 | adding the prefixes of a clean directory keeps that invariant, and places the directory and all its ancestors |
| TreeView.AddEntryInv | output.go:168-190 | adding an entry keeps the invariant, and lists the entry's path under its directory, which is a key |
| TreeView.TreeOfInv | output.go:167-191 | the whole map satisfies the invariant and has "." when there are entries |
| TreeView.TreeOfStep | output.go:167-191 | adding the last entry loses no key or child already in the map, and lists that entry under its directory |
| TreeView.EntryListed | output.go:167-191 | every entry, not only the last, ends up listed under its directory, which is a key |
| TreeView.JoinAllStep | output.go:179-184 | the path of the first `i + 1` parts ends with part `i`, and its directory is the path of the first `i` parts ("." for none) |
| TreeView.TreeInvOk | output.go:207-231 | under the invariant every listed child that is a key is strictly deeper than its parent, so printing ends |
| TreeView.JoinAllIsJoinWith | output.go:179-184 | joining the parts one by one gives the same path as joining them all at once |
| TreeView.JoinAllSplit | output.go:173-184 | splitting a clean directory on '/' and joining the parts back gives the directory |
| TreeView.DotListedUnderItself | output.go:168-171 | the "." entry of a single-file root fails `TreePath`, and the map lists "." under itself, so the source's printer recurses on it without end |
| TreeView.KeysAreEntryDirs | output.go:167-191 | every key of the map is "." or the directory of some entry or a directory above it |
| TreeView.NodeIndented | output.go:207-231 | every line of a subtree's text starts with the prefix it was printed at, when no name and no prefix holds a newline |
| TreeView.ChildrenIndented | output.go:213-230 | the blocks of the children from index `i` on are whole lines, each starting with the node's prefix |
| TreeView.ChildIndented | output.go:214-229 | a child's block opens with its branch line, and every later line starts with the prefix grown by `INDENT` under the last child and by `INDENT_PIPE` under the others |
| TreeView.BranchLineIndented | output.go:216-228 | a branch line is exactly one line, starting with the prefix it is given |
| TreeView.PrintNode | output.go:207-231 | the buffer gains exactly the node's subtree text |
| TreeView.PrintChild | output.go:214-229 | the buffer gains exactly one child's text |
| TreeView.PrintTree | output.go:160-205 | the buffer gains the tree text: nothing without entries, otherwise ".", the subtree of ".", and the directory and file counts |
| TreeView.FileCount | output.go:196-201 | never more files than entries |
| TreeView.CountFiles | output.go:196-201 | the loop counts the entries whose path does not end in '/' |
| TreeView.FileCountOfFiles | output.go:196-201 | when no path ends in '/', every entry is counted as a file |
| TreeView.TopLevelEntriesMakeOneDirectory | output.go:169-171 | entries all at the top level give exactly one directory, "." |
| TreeView.TopLevelKeys | output.go:169-171 | with only top-level entries, "." is the only key |
| Output.TokenTotals | output.go:60-70 | the first loop computes the sum of the counts and the largest limit |
| Output.MaxLimitIsMaximum | output.go:66-68 | the reported limit is never negative, is at least every entry's limit, and is 0 or the limit of some counted entry |
| Output.SummaryShownIff | output.go:73-78 | the summary is written exactly when some counted entry has a positive limit |
| Output.SumTokensAppend | output.go:63-65 | the total over two lists is the sum of their totals |
| Output.SumTokensPermutation | output.go:63-70 | the total does not depend on the order of the entries |
| Output.MaxLimitPermutation | output.go:63-70 | nor does the reported limit |
| Output.PrintSummary | output.go:73-78 | the buffer gains the four summary lines when the limit is positive, and nothing otherwise |
| Output.PrintEntry | output.go:81-93 | the buffer gains the entry's header, its rule of 48 '=', its warning when the count is at least 80 % of the limit, and its re-indented content |
| Output.PrintFiles | output.go:59-97 | the buffer gains the summary followed by every entry's block, in order |
| Output.EntryEndsWithContent | output.go:92-93 | each entry's block ends with its re-indented content, which has as many lines as the content |
| Output.GenerateOutput | output.go:22-57 | writes the text for "tree", "files" or "both"; rejects any other format with nothing printed; reports a clipboard failure after printing, and confirms a copy otherwise; only the tree formats need walk paths |
| Output.FormatAccepted | output.go:25-44 | exactly the three formats are accepted; any other gives `invalid output format specified` with nothing on standard output, whatever the entry paths |
| Output.BothIsTreeThenFiles | output.go:34-41 | "both" is the tree, the `File Contents` heading, and the file listing |
| Output.ClipboardFailureKeepsText | output.go:46-52 | a clipboard failure still leaves the whole text on standard output, and the error is wrapped, for each of the three formats |
| Picker.FirstPathIndex | picker.go:125-126 | the position of the first selected entry with the path, and -1 exactly when there is none |
| Picker.IsSelected | picker.go:150-156 | the inner loop finds whether some selected entry has the path |
| Picker.Rows | picker.go:158-172 | one row per listed file |
| Picker.RowsAt | picker.go:158-172 | row `i` is file `i`'s label and description, so rows follow the filtered files in order |
| Picker.RowsSnoc | picker.go:164-171 | listing one more file appends its row and leaves the earlier rows as they were |
| Picker.FilePicker.constructor | picker.go:22-32 | the picker starts with nothing selected, an empty search, and every file listed |
| Picker.FilePicker.UpdateList | picker.go:142-175 | the list is rebuilt, in file order, from exactly the files that pass the filter; the selection is unchanged |
| Picker.FilePicker.OnSearch | picker.go:138-140 | the list is rebuilt for the new search text |
| Picker.FilePicker.ToggleSelection | picker.go:123-136 | the first selected entry with the file's path is removed, or the file is appended; the list is rebuilt |
| Picker.FilePicker.OnKey | picker.go:71-102 | Enter hands over the selection; Esc and Ctrl-C hand over nothing; '/' is consumed; Space toggles the current row's file only when that row exists, and otherwise passes the key on |
| Picker.ToggleAppendsAbsent | picker.go:134 | toggling an unselected path appends the file at the end |
| Picker.ToggleRemovesFirst | picker.go:125-131 | toggling a selected path removes its first entry and keeps the others in order |
| Picker.ToggleKeepsDistinct | picker.go:123-136 | distinct selected paths stay distinct, and the toggled path's selection state flips |
| Picker.ToggleTwiceRestores | picker.go:125-134 | toggling an unselected file twice gives the selection back |
| Picker.FilteredMembers | picker.go:146-148 | a file is listed exactly when its lower-cased path contains the lower-cased search |
| Picker.FilteredAppend | picker.go:147-159 | the filter keeps the files' order |
| Picker.EmptySearchKeepsAll | picker.go:148 | an empty search lists every file |
| Picker.LabelMarksSelection | picker.go:162-168 | a row's label starts with the check mark exactly when its path is selected, and ends with the path |
| Picker.StepsBounds | picker.go:203-206 | the loop's turn count is the exponent of the largest power of 1024 not above the quotient |
| Picker.UnitBounds | picker.go:198-207 | for a size of at least 1024 the divisor is 1024 to the power exp+1, lies at or below the size and above a 1024th of it, and `exp` indexes "KMGTPE" |
| Picker.FormatSize | picker.go:197-208 | the loop prints bytes below 1024, and otherwise the quotient by the chosen unit with the unit's letter |
| Picker.ExtLabel | picker.go:179-182 | the extension shown is never empty |
| Picker.FileInfoParts | picker.go:177-194 | "no extension" stands in for a missing extension, and the token part is there exactly when the file has a count |
| Cli.PatternFlag | main.go:39-44 | a pattern flag is nil exactly when it is empty; otherwise it is split on ',' into pieces without commas |
| Cli.MissingPathRejected | main.go:34-36 | a path that does not exist is an error, whatever the other flags say |
| Cli.ConfigFromFlags | main.go:39-44 | the configuration takes the flag values, and each pattern list is nil exactly when its flag is empty |
| Cli.ExcludeFlagReplacesDefaults | main.go:42-44 | without `-exclude` the deny-list applies; any `-exclude` replaces it |
| Cli.TokenizerChoice | main.go:47-62 | the accepted tokenizer names, what each selects, the default when none is given, and the error for `huggingface` without a model |
| Cli.DefaultConfig | main.go:14-29 | with every flag at its default the configuration is the default one |
| Cli.OnDone | main.go:91-115 | the callback sends nil for an empty selection; otherwise it reloads entries without content, drops those that fail with a message, keeps the others in order, and sends nil when none are left |
| Cli.Reload | main.go:104 | the reloaded node is the one `Disk` gives for the selected path, with its root-relative path fixed to the selected path by this abstraction (`filepath.Rel` of the root and the joined path is not modelled) |
| Cli.ProcessedShape | main.go:100-113 | every forwarded entry is a selected entry with content or a successful reload of a selected entry, which keeps that entry's path unless it is the zero entry of a binary file; each selected entry is either forwarded or reported |
| Cli.LoadedKept | main.go:110-112 | entries that already have content are forwarded unchanged and in order |
| Cli.NothingSurvivedIff | main.go:100-114 | nothing is forwarded exactly when every selected entry needed a reload and every reload failed |
| Cli.CancelledIff | main.go:95-146 | both an empty selection and a selection where nothing survived end as "Operation cancelled."; "No files selected." is never reached |

## Left out

- Concurrency: the analyzer hands each file to a goroutine. The model collects sequentially and promises only the multiset of entries. A goroutine whose file fails blocks sending on an error channel nobody reads, and the collector waits for it. The program deadlocks, which the Go runtime most likely ends by aborting with "all goroutines are asleep". The model calls this outcome `Hung`.
- `ProcessDirectory` (analyzer.go:34-94) is not called by `main`, and it is not modelled.
- Progress bars (progress.go) are left out. progress.go is not part of this model.
- I/O is taken as parameters:
  - the file system is a list of walked nodes;
  - `os.Stat` in `parseFlags` is a flag saying whether the path is missing;
  - the clipboard's answer is a parameter;
  - standard output is the `Outcome` text;
  - the reload in the picker callback reads a `Disk` function.
- The tiktoken and HuggingFace encoders are foreign libraries. They are parameters (`TokenizerEnv`), and counts are taken as they come.
- Floating point:
  - the two `%.1f` renderings are the `FloatText` parameter;
  - `TokensPerc >= 80` is read over the integers (`NearLimit`), which is exact while the limit is below 2^40;
  - the warn limit is `4 * limit / 5` truncated toward zero, which agrees with `int(float64(limit) * 0.8)` for limits up to 2^40 in size.
- Unicode: whitespace is the ASCII set, and lower-casing is the ASCII mapping. Bytes become characters with the same code, with no UTF-8 decoding.
- The tview/tcell layout, focus, Tab and the help text of the picker are left out. Only the keys with an effect on the selection or on the end of the picker are modelled.
- Flag registration and parsing, `os.Exit`, and the 100 ms wait for the picker in `main` are left out. The model starts from the parsed flag values.
- testutil (a random fixture generator) is left out.
- TreeView.PrintTree: it requires every entry path to satisfy `TreePath`: the path is not "." or "/", and its directory is "." or a clean relative path. Every path the walk gives satisfies it except one: a root that is a single file gives the entry path ".". The source's map then lists "." under itself, and its tree formats, including the default "both", recurse forever on that input. The model leaves that run out (see `TreeView.DotListedUnderItself`).
- Cli.Reload: the zero entry of a binary file has the empty path, and reloading it reads `filepath.Join(root, "")`, which is the root itself. When the root is a directory that read fails; when the root is a single binary file it yields the zero entry again. The model leaves what `Disk` gives for the empty path open.
- TreeView.JoinAllIsJoinWith: the variadic `filepath.Join` is modelled only on clean parts (no empty, "." or ".." segments), the only parts the walk produces.
- Glob.LiteralMatch: `filepath.Match` is read declaratively. It agrees with Go's matcher except where a character class admits '/' and the name contains '/'.
- TreeView.PrintTree: the text is specified exactly. That each entry is printed exactly once is not claimed: a file and a directory with the same path would both be listed.
- The source does not drop binary files: each yields the zero entry, with an empty path, and the model does the same.
- The source prints a directory's children in insertion order, unsorted, and so does the model.
- ContentFormat.FormatFileContent: re-formatting is not idempotent, and no such property is claimed. "a {\n b" formats to "a {\nb", which formats again to "a {\n  b".
- Picker.FormatSize: the `int64` arithmetic of the loop does not overflow, because the divisor never exceeds the size. The model uses unbounded integers.
