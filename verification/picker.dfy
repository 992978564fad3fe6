/** The interactive file picker (picker.go): the selection it keeps, the list it
    rebuilds from the search text, the keys of the list, and the one-line
    description of a file. The terminal widgets are reduced to what they hold:
    the search field to its text, the list to its rows. */
module Picker {
  import opened Strs
  import opened Paths
  import opened Types

  const CHECK_MARK := "\U{2713} "
  const NO_MARK := "  "
  const SIZE_UNIT := 1024
  const UNIT_LETTERS := "KMGTPE"

  /** A row of the list: its main text and its secondary text. */
  datatype Row = Row(main: string, secondary: string)

  // ------------------------------------------------------------ selection

  /** Some entry of `sel` has path `path`. */
  predicate PathIn(sel: seq<FileEntry>, path: string) {
    exists j :: 0 <= j < |sel| && sel[j].path == path
  }

  /** No two entries of `sel` share a path. */
  predicate DistinctPaths(sel: seq<FileEntry>) {
    forall i, j :: 0 <= i < j < |sel| ==> sel[i].path != sel[j].path
  }

  /** The position of the first entry with path `path`, or -1. */
  function FirstPathIndex(sel: seq<FileEntry>, path: string): (i: int)
    ensures -1 <= i < |sel|
    ensures i == -1 <==> !PathIn(sel, path)
    ensures 0 <= i ==> sel[i].path == path && forall j :: 0 <= j < i ==> sel[j].path != path
  {
    if sel == [] then -1
    else if sel[0].path == path then 0
    else
      var r := FirstPathIndex(sel[1..], path);
      if r < 0 then -1 else r + 1
  }

  /** The selection after toggling `file`: the first entry with its path is
      removed, or, when there is none, `file` is appended. */
  function Toggled(sel: seq<FileEntry>, file: FileEntry): seq<FileEntry> {
    var i := FirstPathIndex(sel, file.path);
    if i >= 0 then sel[..i] + sel[i + 1..] else sel + [file]
  }

  /** The inner loop of `updateList`: whether some selected entry has the path. */
  method IsSelected(selected: seq<FileEntry>, path: string) returns (isSelected: bool)
    ensures isSelected == PathIn(selected, path)
  {
    isSelected := false;
    var k := 0;
    while k < |selected|
      invariant 0 <= k <= |selected|
      invariant !PathIn(selected[..k], path)
    {
      if selected[k].path == path {
        isSelected := true;
        break;
      }
      assert selected[..k + 1] == selected[..k] + [selected[k]];
      k := k + 1;
    }
    if !isSelected {
      assert selected[..k] == selected;
    }
  }

  // ------------------------------------------------------------ the list

  /** The filter of `updateList`: the lower-cased path contains the lower-cased
      search text; an empty search lets everything through. */
  predicate Matches(search: string, path: string) {
    var s := ToLower(search);
    s == "" || Contains(ToLower(path), s)
  }

  /** The files that pass the filter, in their order. */
  function FilteredOf(files: seq<FileEntry>, search: string): seq<FileEntry> {
    if files == [] then []
    else
      var last := files[|files| - 1];
      FilteredOf(files[..|files| - 1], search) + (if Matches(search, last.path) then [last] else [])
  }

  /** A row's main text: a check mark for a selected path, two spaces otherwise,
      then the path. */
  function Label(path: string, selected: seq<FileEntry>): string {
    (if PathIn(selected, path) then CHECK_MARK else NO_MARK) + path
  }

  function RowOf(file: FileEntry, selected: seq<FileEntry>, ft: FloatText): Row {
    Row(Label(file.path, selected), FileInfo(file, ft))
  }

  /** The rows shown for the filtered files. */
  function Rows(filtered: seq<FileEntry>, selected: seq<FileEntry>, ft: FloatText): (rows: seq<Row>)
    ensures |rows| == |filtered|
  {
    if filtered == [] then []
    else Rows(filtered[..|filtered| - 1], selected, ft) + [RowOf(filtered[|filtered| - 1], selected, ft)]
  }

  /** Row `i` shows file `i`, so an index into the list is an index into the
      filtered files. */
  lemma {:induction false} RowsAt(filtered: seq<FileEntry>, selected: seq<FileEntry>, ft: FloatText, i: nat)
    requires i < |filtered|
    ensures Rows(filtered, selected, ft)[i] == RowOf(filtered[i], selected, ft)
  {
    var init := filtered[..|filtered| - 1];
    if i < |init| {
      RowsAt(init, selected, ft, i);
      assert init[i] == filtered[i];
    }
  }

  /** Showing one more file adds its row at the end. */
  lemma RowsSnoc(filtered: seq<FileEntry>, file: FileEntry, selected: seq<FileEntry>, ft: FloatText)
    ensures Rows(filtered + [file], selected, ft) == Rows(filtered, selected, ft) + [RowOf(file, selected, ft)]
  {
    assert (filtered + [file])[..|filtered|] == filtered;
  }

  // ------------------------------------------------------------ keys

  /** The keys the picker reacts to; any other key is `OtherKey`. */
  datatype Key = Enter | Esc | CtrlC | Rune(c: char) | OtherKey

  /** What a key press ends in: the picker finishes and hands over a selection
      (empty when cancelled), the key is consumed, or it is passed on to the
      widget. */
  datatype KeyOutcome = Finished(selection: seq<FileEntry>) | Consumed | PassedOn

  /** The outcome of a key for a selection, the number of listed files and the
      current row. */
  function KeyResult(key: Key, idx: int, selected: seq<FileEntry>, listed: nat): KeyOutcome {
    match key
    case CtrlC => Finished([])
    case Enter => Finished(selected)
    case Esc => Finished([])
    case Rune(c) =>
      if c == '/' then Consumed
      else if c == ' ' && 0 <= idx < listed then Consumed
      else PassedOn
    case OtherKey => PassedOn
  }

  class FilePicker {
    var files: seq<FileEntry>
    var filtered: seq<FileEntry>
    var selected: seq<FileEntry>
    /** The text of the search field. */
    var search: string
    /** The rows of the list widget. */
    var rows: seq<Row>
    /** How the `%.1f` numbers of the rows are printed. */
    const ft: FloatText

    /** The list shows exactly the files that match the search text, each with
        the mark of its current selection state. */
    predicate Valid()
      reads this
    {
      filtered == FilteredOf(files, search) && rows == Rows(filtered, selected, ft)
    }

    /** `NewFilePicker` (with the list populated by `setupUI`). */
    constructor(files: seq<FileEntry>, ft: FloatText)
      ensures Valid()
      ensures this.files == files && this.ft == ft && selected == [] && search == ""
      ensures filtered == files
    {
      this.files := files;
      this.filtered := files;
      this.ft := ft;
      this.selected := [];
      this.search := "";
      new;
      UpdateList("");
      EmptySearchKeepsAll(files);
    }

    /** `updateList`: clears the list and refills it, in file order, with the
        files that pass the filter. */
    method UpdateList(text: string)
      modifies this
      ensures files == old(files) && selected == old(selected) && search == old(search)
      ensures filtered == FilteredOf(files, text) && rows == Rows(filtered, selected, ft)
    {
      rows := [];
      filtered := [];
      var k := 0;
      while k < |files|
        invariant 0 <= k <= |files|
        invariant files == old(files) && selected == old(selected) && search == old(search)
        invariant filtered == FilteredOf(files[..k], text) && rows == Rows(filtered, selected, ft)
      {
        var file := files[k];
        assert files[..k + 1][..k] == files[..k];
        if Matches(text, file.path) {
          var isSelected := IsSelected(selected, file.path);
          var prefix := NO_MARK;
          if isSelected {
            prefix := CHECK_MARK;
          }
          assert prefix + file.path == Label(file.path, selected);
          RowsSnoc(filtered, file, selected, ft);
          filtered := filtered + [file];
          rows := rows + [Row(prefix + file.path, FileInfo(file, ft))];
        } else {
          assert filtered + [] == filtered;
        }
        k := k + 1;
      }
      assert files[..k] == files;
    }

    /** `onSearch`: the search field now holds `text`. */
    method OnSearch(text: string)
      modifies this
      ensures Valid()
      ensures search == text && files == old(files) && selected == old(selected)
    {
      search := text;
      UpdateList(text);
    }

    /** `toggleSelection`: removes the first selected entry with the file's path,
        or appends the file when there is none, and rebuilds the list. */
    method ToggleSelection(file: FileEntry)
      modifies this
      ensures Valid()
      ensures selected == Toggled(old(selected), file)
      ensures files == old(files) && search == old(search)
    {
      var i := 0;
      while i < |selected|
        invariant 0 <= i <= |selected| && selected == old(selected)
        invariant forall j :: 0 <= j < i ==> selected[j].path != file.path
      {
        if selected[i].path == file.path {
          selected := selected[..i] + selected[i + 1..];
          UpdateList(search);
          return;
        }
        i := i + 1;
      }
      selected := selected + [file];
      UpdateList(search);
    }

    /** The list's key handler, behind the application's (which ends the picker
        on Ctrl-C). Space toggles the current row's file only when the row
        exists. */
    method OnKey(key: Key, idx: int) returns (r: KeyOutcome)
      requires Valid()
      modifies this
      ensures Valid()
      ensures r == KeyResult(key, idx, old(selected), |old(filtered)|)
      ensures files == old(files) && search == old(search)
      ensures selected == (if key == Rune(' ') && 0 <= idx < |old(filtered)|
                           then Toggled(old(selected), old(filtered)[idx]) else old(selected))
    {
      match key {
        case CtrlC => r := Finished([]);
        case Enter => r := Finished(selected);
        case Esc => r := Finished([]);
        case Rune(c) =>
          if c == '/' {
            r := Consumed;
          } else if c == ' ' && 0 <= idx < |filtered| {
            ToggleSelection(filtered[idx]);
            r := Consumed;
          } else {
            r := PassedOn;
          }
        case OtherKey => r := PassedOn;
      }
    }
  }

  // ------------------------------------------------------------ file info

  function Pow(b: nat, e: nat): nat {
    if e == 0 then 1 else b * Pow(b, e - 1)
  }

  /** How many times a quotient can still be divided by 1024 while staying at
      1024 or more: the number of turns of `formatSize`'s loop. */
  function Steps(n: int): nat
    decreases if n < 0 then 0 else n
  {
    if n < SIZE_UNIT then 0 else 1 + Steps(n / SIZE_UNIT)
  }

  /** For a positive `n`, `Steps(n)` is the exponent of the largest power of
      1024 that is at most `n`. */
  lemma {:induction false} StepsBounds(n: int)
    requires n >= 1
    ensures Pow(SIZE_UNIT, Steps(n)) <= n < Pow(SIZE_UNIT, Steps(n) + 1)
    decreases n
  {
    if n >= SIZE_UNIT {
      var q := n / SIZE_UNIT;
      StepsBounds(q);
      var p := Pow(SIZE_UNIT, Steps(q));
      assert p <= q < SIZE_UNIT * p;
      assert SIZE_UNIT * q <= n < SIZE_UNIT * q + SIZE_UNIT;
      assert SIZE_UNIT * p <= SIZE_UNIT * q;
      assert SIZE_UNIT * q + SIZE_UNIT <= SIZE_UNIT * (SIZE_UNIT * p);
    }
  }

  lemma {:induction false} UnitPowMonotone(d: nat, e: nat)
    requires d <= e
    ensures Pow(SIZE_UNIT, d) <= Pow(SIZE_UNIT, e)
    decreases e
  {
    if d < e {
      UnitPowMonotone(d, e - 1);
    }
  }

  /** The unit `formatSize` picks for a size of at least 1024 bytes: `div` is
      1024 to the power `exp + 1`, `div <= size < 1024 * div`, and, since a
      size is an `int64`, `exp` indexes "KMGTPE". */
  lemma UnitBounds(size: Int64)
    requires size >= SIZE_UNIT
    ensures var exp := Steps(size / SIZE_UNIT);
      && exp < |UNIT_LETTERS|
      && Pow(SIZE_UNIT, exp + 1) <= size < Pow(SIZE_UNIT, exp + 2)
  {
    var q := size / SIZE_UNIT;
    var exp := Steps(q);
    StepsBounds(q);
    var p := Pow(SIZE_UNIT, exp);
    assert p <= q < SIZE_UNIT * p;
    assert SIZE_UNIT * q <= size < SIZE_UNIT * q + SIZE_UNIT;
    assert SIZE_UNIT * p <= SIZE_UNIT * q;
    assert SIZE_UNIT * q + SIZE_UNIT <= SIZE_UNIT * (SIZE_UNIT * p);
    if exp >= 6 {
      UnitPowMonotone(7, exp + 1);
    }
  }

  /** What `formatSize` prints: bytes below 1024, otherwise the size divided by
      the unit, to one decimal place, and the unit's letter. */
  function SizeText(size: Int64, ft: FloatText): string {
    if size < SIZE_UNIT then IntToString(size) + " B"
    else
      var exp := Steps(size / SIZE_UNIT);
      UnitBounds(size);
      ft.quotient(size, Pow(SIZE_UNIT, exp + 1)) + " " + [UNIT_LETTERS[exp]] + "B"
  }

  /** `formatSize`. */
  method FormatSize(size: Int64, ft: FloatText) returns (s: string)
    ensures s == SizeText(size, ft)
  {
    if size < SIZE_UNIT {
      return IntToString(size) + " B";
    }
    var div, exp := SIZE_UNIT, 0;
    var n := size / SIZE_UNIT;
    while n >= SIZE_UNIT
      invariant exp + Steps(n) == Steps(size / SIZE_UNIT)
      invariant div == Pow(SIZE_UNIT, exp + 1)
      decreases n
    {
      div := div * SIZE_UNIT;
      exp := exp + 1;
      n := n / SIZE_UNIT;
    }
    UnitBounds(size);
    s := ft.quotient(size, div) + " " + [UNIT_LETTERS[exp]] + "B";
  }

  /** The extension shown for a path, "no extension" when it has none. */
  function ExtLabel(path: string): (r: string)
    ensures r != ""
  {
    var ext := Ext(path);
    if ext == "" then "no extension" else ext
  }

  /** The token part of a row's secondary text: the count, and the share of the
      limit when it is 80 % or more. */
  function TokenInfo(tc: TokenCount, ft: FloatText): string {
    ", " + IntToString(tc.count) + " tokens"
      + (if NearLimit(tc) then " (" + ft.percent(tc.count, tc.tokenLimit) + "% of limit!)" else "")
  }

  /** `formatFileInfo`: size, extension, and the token part when the file has
      a count. */
  function FileInfo(file: FileEntry, ft: FloatText): string {
    var info := SizeText(file.size, ft) + ", " + ExtLabel(file.path);
    if file.tokenCount.Some? then info + TokenInfo(file.tokenCount.value, ft) else info
  }

  // ------------------------------------------------------------ properties

  /** Toggling a path that is not selected appends the file at the end. */
  lemma ToggleAppendsAbsent(sel: seq<FileEntry>, file: FileEntry)
    requires !PathIn(sel, file.path)
    ensures Toggled(sel, file) == sel + [file]
    ensures PathIn(Toggled(sel, file), file.path)
  {
    assert (sel + [file])[|sel|] == file;
  }

  /** Toggling a selected path removes its first entry and keeps the others in
      their order. */
  lemma ToggleRemovesFirst(sel: seq<FileEntry>, file: FileEntry)
    requires PathIn(sel, file.path)
    ensures exists i :: (0 <= i < |sel| && sel[i].path == file.path
      && (forall j :: 0 <= j < i ==> sel[j].path != file.path)
      && Toggled(sel, file) == sel[..i] + sel[i + 1..])
  {
    var i := FirstPathIndex(sel, file.path);
    assert Toggled(sel, file) == sel[..i] + sel[i + 1..];
  }

  /** A toggle keeps the selected paths pairwise distinct, and with distinct
      paths it flips whether the file's path is selected. */
  lemma ToggleKeepsDistinct(sel: seq<FileEntry>, file: FileEntry)
    requires DistinctPaths(sel)
    ensures DistinctPaths(Toggled(sel, file))
    ensures PathIn(Toggled(sel, file), file.path) <==> !PathIn(sel, file.path)
  {
    var i := FirstPathIndex(sel, file.path);
    var t := Toggled(sel, file);
    if i >= 0 {
      assert forall k :: 0 <= k < |t| ==> t[k] == (if k < i then sel[k] else sel[k + 1]);
    } else {
      assert forall k :: 0 <= k < |sel| ==> t[k] == sel[k];
      assert t[|sel|] == file;
    }
  }

  /** Toggling a file that is not selected twice gives the selection back. */
  lemma ToggleTwiceRestores(sel: seq<FileEntry>, file: FileEntry)
    requires !PathIn(sel, file.path)
    ensures Toggled(Toggled(sel, file), file) == sel
  {
    var t := sel + [file];
    ToggleAppendsAbsent(sel, file);
    var i := FirstPathIndex(t, file.path);
    assert i == |sel|;
    assert t[..i] == sel;
    assert t[i + 1..] == [];
  }

  /** The filter keeps exactly the matching files. */
  lemma {:induction false} FilteredMembers(files: seq<FileEntry>, search: string, f: FileEntry)
    ensures f in FilteredOf(files, search) <==> f in files && Matches(search, f.path)
  {
    if files != [] {
      var init := files[..|files| - 1];
      FilteredMembers(init, search, f);
      assert files == init + [files[|files| - 1]];
    }
  }

  /** The filter keeps the order of the files: filtering a concatenation is
      concatenating the filtered parts. */
  lemma {:induction false} FilteredAppend(a: seq<FileEntry>, b: seq<FileEntry>, search: string)
    ensures FilteredOf(a + b, search) == FilteredOf(a, search) + FilteredOf(b, search)
    decreases |b|
  {
    if b == [] {
      assert a + b == a;
    } else {
      var n := |b|;
      assert (a + b)[..|a + b| - 1] == a + b[..n - 1];
      FilteredAppend(a, b[..n - 1], search);
    }
  }

  /** An empty search lists every file. */
  lemma {:induction false} EmptySearchKeepsAll(files: seq<FileEntry>)
    ensures FilteredOf(files, "") == files
  {
    if files != [] {
      EmptySearchKeepsAll(files[..|files| - 1]);
      assert files[..|files| - 1] + [files[|files| - 1]] == files;
    }
  }

  /** A row carries the check mark exactly when its path is selected. */
  lemma LabelMarksSelection(path: string, selected: seq<FileEntry>)
    ensures HasPrefix(Label(path, selected), CHECK_MARK) <==> PathIn(selected, path)
    ensures HasSuffix(Label(path, selected), path)
  {
    var l := Label(path, selected);
    if !PathIn(selected, path) {
      assert l[0] == ' ';
    }
    assert l[|l| - |path|..] == path;
  }

  /** "no extension" stands in for a missing extension; the token part is there
      exactly when the file has a count. */
  lemma FileInfoParts(file: FileEntry, ft: FloatText)
    ensures Ext(file.path) == "" ==> ExtLabel(file.path) == "no extension"
    ensures Ext(file.path) != "" ==> ExtLabel(file.path) == Ext(file.path)
    ensures file.tokenCount.None? <==> FileInfo(file, ft) == SizeText(file.size, ft) + ", " + ExtLabel(file.path)
  {
    if file.tokenCount.Some? {
      var info := SizeText(file.size, ft) + ", " + ExtLabel(file.path);
      assert |FileInfo(file, ft)| > |info|;
    }
  }
}
