/** The indentation normaliser of the file renderer (output.go): every line is
    trimmed and re-indented by two spaces per bracket depth. */
module ContentFormat {
  import opened Strs

  /** `max`. */
  function Max(a: int, b: int): (m: int)
    ensures m >= a && m >= b
    ensures m == a || m == b
  {
    if a > b then a else b
  }

  /** The width `countLeadingSpace` gives: a tab counts 4, any other whitespace
      character 1, up to the first other character. It lies between the number of
      leading whitespace characters and four times that number. */
  function LeadingWidth(s: string): (w: nat)
    ensures |s| - |TrimLeft(s)| <= w <= 4 * (|s| - |TrimLeft(s)|)
  {
    if s == [] || !IsSpace(s[0]) then 0
    else
      assert TrimLeft(s) == TrimLeft(s[1..]);
      (if s[0] == '\t' then 4 else 1) + LeadingWidth(s[1..])
  }

  /** `countLeadingSpace`. */
  method CountLeadingSpace(s: string) returns (count: int)
    ensures count == LeadingWidth(s)
  {
    count := 0;
    var i := 0;
    while i < |s|
      invariant 0 <= i <= |s|
      invariant count + LeadingWidth(s[i..]) == LeadingWidth(s)
    {
      assert s[i..][1..] == s[i + 1..];
      if IsSpace(s[i]) {
        if s[i] == '\t' {
          count := count + 4;
        } else {
          count := count + 1;
        }
      } else {
        break;
      }
      i := i + 1;
    }
  }

  predicate Opens(t: string) {
    HasSuffix(t, "{") || HasSuffix(t, "[")
  }

  predicate Closes(t: string) {
    HasPrefix(t, "}") || HasPrefix(t, "]")
  }

  /** The depth after a non-blank line whose trimmed text is `t` and whose
      leading width is `lead`: one more after an opening bracket, one less (never
      below zero) at a closing bracket, half the leading width for any other
      indented line, and unchanged otherwise. */
  function NextIndent(indent: nat, lead: nat, t: string): nat {
    if Opens(t) then indent + 1
    else if Closes(t) then Max(0, indent - 1)
    else if lead > 0 then lead / 2
    else indent
  }

  /** The depth a non-blank line is emitted at: an opening line at the depth
      before it, any other line at the depth after it. */
  function LineIndent(indent: nat, lead: nat, t: string): nat {
    if Opens(t) then indent else NextIndent(indent, lead, t)
  }

  /** One line of `formatFileContent`: from the depth before the line, the depth
      after it and the line it emits. */
  function FormatLine(indent: nat, line: string): (nat, string) {
    var trimmed := TrimRight(line);
    if trimmed == "" then (indent, "")
    else
      var lead := LeadingWidth(trimmed);
      var t := TrimSpace(trimmed);
      (NextIndent(indent, lead, t), Repeat("  ", LineIndent(indent, lead, t)) + t)
  }

  function FormatLines(lines: seq<string>, indent: nat): (out: seq<string>)
    ensures |out| == |lines|
  {
    if lines == [] then []
    else
      var step := FormatLine(indent, lines[0]);
      [step.1] + FormatLines(lines[1..], step.0)
  }

  /** What `formatFileContent` returns. */
  function FormatText(content: string): string {
    JoinWith(FormatLines(SplitOn(content, '\n'), 0), '\n')
  }

  /** One turn of the loop in `formatFileContent`: a blank line is emitted empty
      and leaves the depth alone; any other line is re-indented. */
  method FormatOneLine(indent: nat, line: string) returns (next: nat, out: string)
    ensures (next, out) == FormatLine(indent, line)
  {
    var trimmed := TrimRight(line);
    if trimmed == "" {
      return indent, "";
    }
    var leadingSpace := CountLeadingSpace(trimmed);
    trimmed := TrimSpace(trimmed);
    next := indent;
    if HasSuffix(trimmed, "{") || HasSuffix(trimmed, "[") {
      out := Repeat("  ", next) + trimmed;
      next := next + 1;
    } else if HasPrefix(trimmed, "}") || HasPrefix(trimmed, "]") {
      next := Max(0, next - 1);
      out := Repeat("  ", next) + trimmed;
    } else {
      if leadingSpace > 0 {
        next := leadingSpace / 2;
      }
      out := Repeat("  ", next) + trimmed;
    }
  }

  /** `formatFileContent`: the depth is kept in a running counter that never
      goes below zero. */
  method FormatFileContent(content: string) returns (r: string)
    ensures r == FormatText(content)
  {
    var lines := SplitOn(content, '\n');
    var formatted: seq<string> := [];
    var indent := 0;
    var i := 0;
    while i < |lines|
      invariant 0 <= i <= |lines|
      invariant formatted + FormatLines(lines[i..], indent) == FormatLines(lines, 0)
    {
      FormatLinesStep(lines, i, indent, formatted);
      var next, out := FormatOneLine(indent, lines[i]);
      formatted := formatted + [out];
      indent := next;
      i := i + 1;
    }
    assert lines[i..] == [];
    assert formatted + [] == formatted;
    r := JoinWith(formatted, '\n');
  }

  // ------------------------------------------------------------------ lemmas

  /** One turn of the loop in `FormatFileContent`. */
  lemma FormatLinesStep(lines: seq<string>, i: nat, indent: nat, done: seq<string>)
    requires i < |lines|
    ensures done + FormatLines(lines[i..], indent)
      == (done + [FormatLine(indent, lines[i]).1]) + FormatLines(lines[i + 1..], FormatLine(indent, lines[i]).0)
  {
    assert lines[i..][1..] == lines[i + 1..];
  }

  lemma {:induction false} RepeatSpaces(d: nat)
    ensures |Repeat("  ", d)| == 2 * d
    ensures forall j :: 0 <= j < 2 * d ==> Repeat("  ", d)[j] == ' '
  {
    if d > 0 {
      RepeatSpaces(d - 1);
    }
  }

  lemma TrimSpaceShape(line: string)
    ensures var t := TrimSpace(line);
      |t| <= |line| && (forall c :: c in t ==> c in line) && (t == [] || (!IsSpace(t[0]) && !IsSpace(t[|t| - 1])))
  {
    var r := TrimRight(line);
    var t := TrimLeft(r);
    forall c | c in t
      ensures c in line
    {
      var k :| 0 <= k < |t| && t[k] == c;
      assert r[|r| - |t| + k] == c;
      assert line[|r| - |t| + k] == c;
    }
    if t != [] {
      assert t[|t| - 1] == r[|r| - 1];
    }
  }

  lemma TrimSpaceOfBlank(line: string)
    ensures TrimRight(line) == "" <==> TrimSpace(line) == ""
  {
    var r := TrimRight(line);
    if r != "" {
      assert !IsSpace(r[|r| - 1]);
      assert |TrimLeft(r)| > 0;
    }
  }

  /** The indentation of an emitted line: `2 * d` spaces in front of text that
      neither starts nor ends with whitespace. */
  lemma IndentedShape(d: nat, t: string)
    requires t == [] || (!IsSpace(t[0]) && !IsSpace(t[|t| - 1]))
    ensures LeadingWidth(Repeat("  ", d) + t) == 2 * d
    ensures t != [] ==> TrimLeft(Repeat("  ", d) + t) == t
  {
    RepeatSpaces(d);
    IndentedWidth(Repeat("  ", d), t);
  }

  lemma {:induction false} IndentedWidth(sp: string, t: string)
    requires forall j :: 0 <= j < |sp| ==> sp[j] == ' '
    requires t == [] || !IsSpace(t[0])
    ensures LeadingWidth(sp + t) == |sp|
    ensures t != [] ==> TrimLeft(sp + t) == t
  {
    if sp == [] {
      assert sp + t == t;
    } else {
      assert (sp + t)[1..] == sp[1..] + t;
      IndentedWidth(sp[1..], t);
    }
  }

  /** What each output line is: empty exactly for a whitespace-only input line,
      and otherwise the trimmed input line behind an even number of spaces, so
      that removing the indentation gives the trimmed line back. */
  lemma {:induction false} FormatLinesShape(lines: seq<string>, indent: nat, i: nat)
    requires i < |lines|
    ensures var out := FormatLines(lines, indent)[i];
      && (out == "" <==> TrimRight(lines[i]) == "")
      && (out != "" ==> exists d: nat :: out == Repeat("  ", d) + TrimSpace(lines[i]))
      && (out != "" ==> TrimLeft(out) == TrimSpace(lines[i]))
      && ('\n' !in out || '\n' in lines[i])
  {
    var (d, l) := FormatLine(indent, lines[0]);
    if i > 0 {
      assert lines[1..][i - 1] == lines[i];
      FormatLinesShape(lines[1..], d, i - 1);
    } else {
      LineShape(indent, lines[0]);
    }
  }

  lemma TrimRightIdempotent(s: string)
    ensures TrimRight(TrimRight(s)) == TrimRight(s)
  {
  }

  lemma {:induction false} RepeatNoNewline(d: nat)
    ensures '\n' !in Repeat("  ", d)
  {
    if d > 0 {
      RepeatNoNewline(d - 1);
    }
  }

  lemma LineShape(indent: nat, line: string)
    ensures var l := FormatLine(indent, line).1;
      && (l == "" <==> TrimRight(line) == "")
      && (l != "" ==> exists d: nat :: l == Repeat("  ", d) + TrimSpace(line))
      && (l != "" ==> TrimLeft(l) == TrimSpace(line))
      && ('\n' !in l || '\n' in line)
  {
    var trimmed := TrimRight(line);
    TrimSpaceOfBlank(line);
    if trimmed != "" {
      var t := TrimSpace(line);
      TrimRightIdempotent(line);
      assert TrimSpace(trimmed) == t;
      TrimSpaceShape(line);
      var dd := LineIndent(indent, LeadingWidth(trimmed), t);
      var l := Repeat("  ", dd) + t;
      assert FormatLine(indent, line).1 == l;
      IndentedShape(dd, t);
      RepeatNoNewline(dd);
    }
  }

  /** The depth `formatFileContent` holds when it reaches line `i`. */
  function DepthBefore(lines: seq<string>, indent: nat, i: nat): nat
    requires i <= |lines|
  {
    if i == 0 then indent else DepthBefore(lines[1..], FormatLine(indent, lines[0]).0, i - 1)
  }

  /** Line `i` of the output is line `i` of the input formatted at the depth
      reached there. */
  lemma {:induction false} FormatLinesAt(lines: seq<string>, indent: nat, i: nat)
    requires i < |lines|
    ensures FormatLines(lines, indent)[i] == FormatLine(DepthBefore(lines, indent, i), lines[i]).1
  {
    if i > 0 {
      var step := FormatLine(indent, lines[0]);
      assert FormatLines(lines, indent) == [step.1] + FormatLines(lines[1..], step.0);
      assert lines[1..][i - 1] == lines[i];
      FormatLinesAt(lines[1..], step.0, i - 1);
    }
  }

  /** The depth after line `i` is the depth line `i` leaves behind. */
  lemma {:induction false} DepthStep(lines: seq<string>, indent: nat, i: nat)
    requires i < |lines|
    ensures DepthBefore(lines, indent, i + 1) == FormatLine(DepthBefore(lines, indent, i), lines[i]).0
  {
    if i > 0 {
      assert lines[1..][i - 1] == lines[i];
      DepthStep(lines[1..], FormatLine(indent, lines[0]).0, i - 1);
    }
  }

  /** The indentation rule for one line at depth `d`, emitted as `out` and leaving
      depth `next`: a line ending in an opening bracket is emitted at the current
      depth and raises it by one; a line starting with a closing bracket lowers it
      by one, never below zero, and is emitted at the lowered depth; any other
      line sets the depth to half its leading width when it is indented, keeps
      it otherwise, and is emitted at that depth; a blank line is emitted empty
      and changes nothing. */
  predicate FollowsRule(d: nat, line: string, out: string, next: nat) {
    var t := TrimSpace(line);
    var lead := LeadingWidth(TrimRight(line));
    && (TrimRight(line) == "" ==> out == "" && next == d)
    && (TrimRight(line) != "" && Opens(t) ==> LeadingWidth(out) == 2 * d && next == d + 1)
    && (TrimRight(line) != "" && !Opens(t) && Closes(t) ==>
          LeadingWidth(out) == 2 * Max(0, d - 1) && next == Max(0, d - 1))
    && (TrimRight(line) != "" && !Opens(t) && !Closes(t) ==>
          next == (if lead > 0 then lead / 2 else d) && LeadingWidth(out) == 2 * next)
  }

  lemma LineRule(indent: nat, line: string)
    ensures FollowsRule(indent, line, FormatLine(indent, line).1, FormatLine(indent, line).0)
  {
    var trimmed := TrimRight(line);
    if trimmed != "" {
      TrimRightIdempotent(line);
      TrimSpaceShape(line);
      var t := TrimSpace(line);
      assert TrimSpace(trimmed) == t;
      IndentedShape(LineIndent(indent, LeadingWidth(trimmed), t), t);
    }
  }

  /** The same rule along the whole text, from depth zero. */
  lemma BracketRule(lines: seq<string>, i: nat)
    requires i < |lines|
    ensures FollowsRule(DepthBefore(lines, 0, i), lines[i], FormatLines(lines, 0)[i], DepthBefore(lines, 0, i + 1))
  {
    var d := DepthBefore(lines, 0, i);
    FormatLinesAt(lines, 0, i);
    DepthStep(lines, 0, i);
    LineRule(d, lines[i]);
  }

  /** Formatting keeps the line structure: splitting the result at newlines gives
      exactly the formatted lines, one per input line. */
  lemma FormatTextLines(content: string)
    ensures SplitOn(FormatText(content), '\n') == FormatLines(SplitOn(content, '\n'), 0)
    ensures |SplitOn(FormatText(content), '\n')| == |SplitOn(content, '\n')|
  {
    var lines := SplitOn(content, '\n');
    var out := FormatLines(lines, 0);
    forall k | 0 <= k < |out|
      ensures '\n' !in out[k]
    {
      FormatLinesShape(lines, 0, k);
    }
    SplitJoin(out, '\n');
  }
}
