/** The run splitter over a captured screen: lines of text with SGR sequences, as runs
    that share one set of SGR parameters. */
module SgrRows {
  import opened Sequences

  const ESC := 27 as char

  /** A stretch of text and the parameters that style it. */
  datatype Run = Run(text: string, sgr: seq<string>)

  type Row = seq<Run>

  // ---- strings.Split and strings.Join ----------------------------------------------

  function Split(s: string, sep: char): (parts: seq<string>)
    ensures |parts| > 0
  {
    if s == "" then [""]
    else
      var rest := Split(s[1..], sep);
      if s[0] == sep then [""] + rest else [[s[0]] + rest[0]] + rest[1..]
  }

  function Join(parts: seq<string>, sep: char): string {
    if parts == [] then ""
    else if |parts| == 1 then parts[0]
    else Join(parts[..|parts| - 1], sep) + [sep] + parts[|parts| - 1]
  }

  lemma {:induction false} SplitWhole(s: string, sep: char)
    requires sep !in s
    ensures Split(s, sep) == [s]
  {
    if s != "" {
      SplitWhole(s[1..], sep);
      assert s == [s[0]] + s[1..];
    }
  }

  lemma {:induction false} SplitSnoc(a: string, b: string, sep: char)
    requires sep !in b
    ensures Split(a + [sep] + b, sep) == Split(a, sep) + [b]
  {
    var s := a + [sep] + b;
    if a == "" {
      assert s[1..] == b;
      SplitWhole(b, sep);
    } else {
      assert s[1..] == a[1..] + [sep] + b;
      SplitSnoc(a[1..], b, sep);
    }
  }

  lemma {:induction false} SplitInvertsJoin(parts: seq<string>, sep: char)
    requires parts != [] && forall i :: 0 <= i < |parts| ==> sep !in parts[i]
    ensures Split(Join(parts, sep), sep) == parts
  {
    if |parts| == 1 {
      SplitWhole(parts[0], sep);
    } else {
      var init := parts[..|parts| - 1];
      SplitInvertsJoin(init, sep);
      SplitSnoc(Join(init, sep), parts[|parts| - 1], sep);
    }
  }

  // ---- SGR sequences ---------------------------------------------------------------

  predicate IsParam(c: char) {
    '0' <= c <= '9' || c == ';'
  }

  function ParamLen(s: string): (n: nat)
    ensures n <= |s| && (n < |s| ==> !IsParam(s[n])) && forall i :: 0 <= i < n ==> IsParam(s[i])
  {
    if s == "" || !IsParam(s[0]) then 0 else 1 + ParamLen(s[1..])
  }

  /** The length of the SGR sequence that s starts with, 0 if there is none. */
  function MatchLen(s: string): (n: nat)
    ensures n <= |s| && (n > 0 ==> n >= 3)
  {
    if |s| < 3 || s[0] != ESC || s[1] != '[' then 0
    else
      var n := ParamLen(s[2..]);
      if n + 2 < |s| && s[n + 2] == 'm' then n + 3 else 0
  }

  /** The parameters that matter: no empty ones, no resets. */
  function Kept(params: seq<string>): seq<string> {
    if params == [] then []
    else
      var rest, last := Kept(params[..|params| - 1]), params[|params| - 1];
      if last == "" || last == "0" then rest else rest + [last]
  }

  function ParseSGR(params: string): seq<string> {
    Kept(Split(params, ';'))
  }

  // ---- the reference: one character at a time --------------------------------------

  function Flush(text: string, sgr: seq<string>): Row {
    if text == "" then [] else [Run(text, sgr)]
  }

  function RunsFrom(s: string, text: string, sgr: seq<string>): Row
    decreases |s|
  {
    if s == "" then Flush(text, sgr)
    else
      var n := MatchLen(s);
      if n > 0 then Flush(text, sgr) + RunsFrom(s[n..], "", ParseSGR(s[2..n - 1]))
      else RunsFrom(s[1..], text + [s[0]], sgr)
  }

  function RowOf(line: string): Row {
    RunsFrom(line, "", [])
  }

  function TrimRight(s: string): string {
    if s != "" && s[|s| - 1] == '\n' then TrimRight(s[..|s| - 1]) else s
  }

  function RowsOf(screen: string): seq<Row> {
    var lines := Split(TrimRight(screen), '\n');
    seq(|lines|, i requires 0 <= i < |lines| => RowOf(lines[i]))
  }

  // ---- what counts as a sequence ---------------------------------------------------

  /** s starts with ESC [ parameters m, n characters long. */
  ghost predicate StartsSgr(s: string, n: nat) {
    && 3 <= n <= |s| && s[0] == 27 as char && s[1] == '[' && s[n - 1] == 'm'
    && forall k :: 2 <= k < n - 1 ==> '0' <= s[k] <= '9' || s[k] == ';'
  }

  lemma {:induction false} ParamsEnd(s: string, p: nat)
    requires p < |s| && !IsParam(s[p]) && forall k :: 0 <= k < p ==> IsParam(s[k])
    ensures ParamLen(s) == p
  {
    if p > 0 { ParamsEnd(s[1..], p - 1); }
  }

  /** What is taken for a sequence is one, and every one is, in its whole length. */
  lemma MatchesExactly(s: string, n: nat)
    ensures MatchLen(s) > 0 ==> StartsSgr(s, MatchLen(s))
    ensures StartsSgr(s, n) ==> MatchLen(s) == n
  {
    if MatchLen(s) > 0 {
      forall k | 2 <= k < MatchLen(s) - 1 ensures '0' <= s[k] <= '9' || s[k] == ';' {
        assert s[k] == s[2..][k - 2];
      }
    }
    if StartsSgr(s, n) {
      assert s[2..][n - 3] == s[n - 1];
      ParamsEnd(s[2..], n - 3);
    }
  }

  /** Resets and empty parameters count for nothing, all others stay, in order. */
  lemma {:induction false} KeptOf(a: seq<string>, p: string)
    ensures Kept([]) == []
    ensures Kept(a + [p]) == if p == "" || p == "0" then Kept(a) else Kept(a) + [p]
  {
    assert (a + [p])[..|a|] == a;
  }

  // ---- no text is lost or invented -------------------------------------------------

  /** A line without its SGR sequences. */
  function Stripped(s: string): string
    decreases |s|
  {
    if s == "" then ""
    else if MatchLen(s) > 0 then Stripped(s[MatchLen(s)..])
    else [s[0]] + Stripped(s[1..])
  }

  function TextOf(row: Row): string {
    if row == [] then "" else row[0].text + TextOf(row[1..])
  }

  lemma TextOfFlush(text: string, sgr: seq<string>, row: Row)
    ensures TextOf(Flush(text, sgr) + row) == text + TextOf(row)
  {
    if text != "" {
      assert ([Run(text, sgr)] + row)[1..] == row;
    } else {
      assert Flush(text, sgr) + row == row && text + TextOf(row) == TextOf(row);
    }
  }

  lemma MatchFlushes(s: string, text: string, sgr: seq<string>)
    requires MatchLen(s) > 0
    ensures RunsFrom(s, text, sgr) == Flush(text, sgr) + RunsFrom(s[MatchLen(s)..], "", ParseSGR(s[2..MatchLen(s) - 1]))
  {
  }

  lemma PlainStep(s: string, text: string, sgr: seq<string>)
    requires s != "" && MatchLen(s) == 0
    ensures RunsFrom(s, text, sgr) == RunsFrom(s[1..], text + [s[0]], sgr)
  {
  }

  lemma {:induction false} RunsKeepText(s: string, text: string, sgr: seq<string>)
    ensures TextOf(RunsFrom(s, text, sgr)) == text + Stripped(s)
    ensures forall i :: 0 <= i < |RunsFrom(s, text, sgr)| ==> RunsFrom(s, text, sgr)[i].text != ""
    decreases |s|
  {
    if s == "" {
      TextOfFlush(text, sgr, []);
      assert Flush(text, sgr) + [] == Flush(text, sgr);
    } else if MatchLen(s) > 0 {
      var n := MatchLen(s);
      var rest, params := s[n..], ParseSGR(s[2..n - 1]);
      MatchFlushes(s, text, sgr);
      RunsKeepText(rest, "", params);
      TextOfFlush(text, sgr, RunsFrom(rest, "", params));
      assert "" + Stripped(rest) == Stripped(rest);
    } else {
      PlainStep(s, text, sgr);
      RunsKeepText(s[1..], text + [s[0]], sgr);
      Regroup(text, [s[0]], Stripped(s[1..]));
    }
  }

  /** For any screen, each row's joined text is its line without the SGR sequences, and
      no run is empty. */
  lemma RowsKeepText(screen: string, i: nat)
    requires i < |RowsOf(screen)|
    ensures |RowsOf(screen)| == |Split(TrimRight(screen), '\n')|
    ensures TextOf(RowsOf(screen)[i]) == Stripped(Split(TrimRight(screen), '\n')[i])
    ensures forall k :: 0 <= k < |RowsOf(screen)[i]| ==> RowsOf(screen)[i][k].text != ""
  {
    RunsKeepText(Split(TrimRight(screen), '\n')[i], "", []);
  }

  // ---- the splitter inverts its printer --------------------------------------------

  predicate IsNumber(p: string) {
    p != "" && p != "0" && forall i :: 0 <= i < |p| ==> '0' <= p[i] <= '9'
  }

  predicate Printable(r: Run) {
    && r.text != "" && ESC !in r.text && '\n' !in r.text
    && forall i :: 0 <= i < |r.sgr| ==> IsNumber(r.sgr[i])
  }

  predicate RowPrintable(row: Row) {
    forall i :: 0 <= i < |row| ==> Printable(row[i])
  }

  function PrintSGR(sgr: seq<string>): string {
    [ESC, '['] + Join(sgr, ';') + ['m']
  }

  function PrintRow(row: Row): string {
    if row == [] then "" else PrintSGR(row[0].sgr) + row[0].text + PrintRow(row[1..])
  }

  function Printed(rows: seq<Row>): (lines: seq<string>)
    ensures |lines| == |rows| && forall i :: 0 <= i < |rows| ==> lines[i] == PrintRow(rows[i])
  {
    seq(|rows|, i requires 0 <= i < |rows| => PrintRow(rows[i]))
  }

  function PrintRows(rows: seq<Row>): string {
    Join(Printed(rows), '\n')
  }

  lemma {:induction false} JoinIsParams(sgr: seq<string>)
    requires forall i :: 0 <= i < |sgr| ==> IsNumber(sgr[i])
    ensures forall k :: 0 <= k < |Join(sgr, ';')| ==> IsParam(Join(sgr, ';')[k])
  {
    if |sgr| > 1 { JoinIsParams(sgr[..|sgr| - 1]); }
  }

  lemma {:induction false} ParamLenStops(p: string, tail: string)
    requires (forall k :: 0 <= k < |p| ==> IsParam(p[k])) && tail != "" && !IsParam(tail[0])
    ensures ParamLen(p + tail) == |p|
  {
    if p == "" {
      assert p + tail == tail;
    } else {
      assert (p + tail)[1..] == p[1..] + tail;
      ParamLenStops(p[1..], tail);
    }
  }

  lemma {:induction false} AllKept(sgr: seq<string>)
    requires forall i :: 0 <= i < |sgr| ==> IsNumber(sgr[i])
    ensures Kept(sgr) == sgr
  {
    if sgr != [] { AllKept(sgr[..|sgr| - 1]); }
  }

  lemma ParseInvertsJoin(sgr: seq<string>)
    requires forall i :: 0 <= i < |sgr| ==> IsNumber(sgr[i])
    ensures ParseSGR(Join(sgr, ';')) == sgr
  {
    if sgr == [] {
      assert Split("", ';') == [""];
      assert Kept([""]) == [] by { assert [""][..0] == []; }
    } else {
      SplitInvertsJoin(sgr, ';');
      AllKept(sgr);
    }
  }

  lemma SgrMatches(sgr: seq<string>, tail: string)
    requires forall i :: 0 <= i < |sgr| ==> IsNumber(sgr[i])
    ensures var s := PrintSGR(sgr) + tail;
            && MatchLen(s) == |PrintSGR(sgr)| && ParseSGR(s[2..MatchLen(s) - 1]) == sgr && s[MatchLen(s)..] == tail
  {
    var p := Join(sgr, ';');
    var s := PrintSGR(sgr) + tail;
    JoinIsParams(sgr);
    assert s[2..] == p + (['m'] + tail);
    ParamLenStops(p, ['m'] + tail);
    assert s[|p| + 2] == 'm';
    assert s[2..|p| + 2] == p;
    ParseInvertsJoin(sgr);
  }

  lemma {:induction false} PlainText(text: string, tail: string, acc: string, sgr: seq<string>)
    requires ESC !in text
    ensures RunsFrom(text + tail, acc, sgr) == RunsFrom(tail, acc + text, sgr)
  {
    if text == "" {
      assert text + tail == tail && acc + text == acc;
    } else {
      assert (text + tail)[1..] == text[1..] + tail;
      PlainText(text[1..], tail, acc + [text[0]], sgr);
      assert acc + [text[0]] + text[1..] == acc + text;
    }
  }

  /** After some text, the rest of a printed row starts afresh. */
  lemma PrintedRowFlushes(row: Row, acc: string, sgr: seq<string>)
    requires RowPrintable(row) && RunsFrom(PrintRow(row), "", []) == row
    ensures RunsFrom(PrintRow(row), acc, sgr) == Flush(acc, sgr) + row
  {
    var s := PrintRow(row);
    if row == [] {
      assert Flush(acc, sgr) + [] == Flush(acc, sgr);
    } else {
      var tail := row[0].text + PrintRow(row[1..]);
      assert s == PrintSGR(row[0].sgr) + tail;
      SgrMatches(row[0].sgr, tail);
      var runs := RunsFrom(tail, "", row[0].sgr);
      assert RunsFrom(s, "", []) == Flush("", []) + runs by { MatchFlushes(s, "", []); }
      assert RunsFrom(s, acc, sgr) == Flush(acc, sgr) + runs by { MatchFlushes(s, acc, sgr); }
      assert Flush("", []) + runs == runs;
    }
  }

  lemma {:induction false} RowInverts(row: Row)
    requires RowPrintable(row)
    ensures RowOf(PrintRow(row)) == row
  {
    if row != [] {
      var r, rest := row[0], row[1..];
      var tail := r.text + PrintRow(rest);
      assert PrintRow(row) == PrintSGR(r.sgr) + tail;
      SgrMatches(r.sgr, tail);
      PlainText(r.text, PrintRow(rest), "", r.sgr);
      assert "" + r.text == r.text;
      RowInverts(rest);
      PrintedRowFlushes(rest, r.text, r.sgr);
      assert Flush("", []) + RunsFrom(tail, "", r.sgr) == RunsFrom(tail, "", r.sgr);
      assert [r] + rest == row;
    }
  }

  lemma {:induction false} PrintedRowIsOneLine(row: Row)
    requires RowPrintable(row)
    ensures '\n' !in PrintRow(row) && (row != [] ==> PrintRow(row) != "")
  {
    if row != [] {
      JoinIsParams(row[0].sgr);
      PrintedRowIsOneLine(row[1..]);
    }
  }

  /** The rows a print can give back: trailing empty rows are lost with the trailing line
      breaks, and there is always a first row. */
  function DropTrailing(rows: seq<Row>): seq<Row> {
    if rows == [] then [[]]
    else if |rows| > 1 && rows[|rows| - 1] == [] then DropTrailing(rows[..|rows| - 1])
    else rows
  }

  lemma PrintRowsSnoc(rows: seq<Row>)
    requires |rows| > 1
    ensures PrintRows(rows) == PrintRows(rows[..|rows| - 1]) + ['\n'] + PrintRow(rows[|rows| - 1])
  {
    var init := rows[..|rows| - 1];
    assert PrintRows(rows) == Join(Printed(rows), '\n') && PrintRows(init) == Join(Printed(init), '\n');
    assert Printed(rows)[..|rows| - 1] == Printed(init);
  }

  lemma SolidRowsEndPlain(rows: seq<Row>)
    requires forall i :: 0 <= i < |rows| ==> RowPrintable(rows[i])
    requires |rows| == 1 || (rows != [] && rows[|rows| - 1] != [])
    ensures TrimRight(PrintRows(rows)) == PrintRows(rows)
  {
    var s, last := PrintRows(rows), rows[|rows| - 1];
    PrintedRowIsOneLine(last);
    if |rows| > 1 {
      PrintRowsSnoc(rows);
      assert s[|s| - 1] == PrintRow(last)[|PrintRow(last)| - 1];
    }
  }

  lemma SolidRowsInvert(rows: seq<Row>)
    requires forall i :: 0 <= i < |rows| ==> RowPrintable(rows[i])
    requires |rows| == 1 || (rows != [] && rows[|rows| - 1] != [])
    ensures RowsOf(PrintRows(rows)) == rows
  {
    SolidRowsEndPlain(rows);
    forall i | 0 <= i < |rows| ensures '\n' !in Printed(rows)[i] && RowOf(Printed(rows)[i]) == rows[i] {
      PrintedRowIsOneLine(rows[i]);
      RowInverts(rows[i]);
    }
    SplitInvertsJoin(Printed(rows), '\n');
  }

  /** The splitter inverts its printer, up to trailing empty rows. */
  lemma {:induction false} SplitterInverts(rows: seq<Row>)
    requires forall i :: 0 <= i < |rows| ==> RowPrintable(rows[i])
    ensures RowsOf(PrintRows(rows)) == DropTrailing(rows)
  {
    if rows == [] {
      assert PrintRows(rows) == PrintRow([]) == "";
      assert Split("", '\n') == [""];
    } else if |rows| > 1 && rows[|rows| - 1] == [] {
      PrintRowsSnoc(rows);
      var s := PrintRows(rows[..|rows| - 1]);
      assert s + ['\n'] + "" == s + ['\n'];
      assert (s + ['\n'])[..|s|] == s;
      SplitterInverts(rows[..|rows| - 1]);
    } else {
      SolidRowsInvert(rows);
    }
  }

  lemma {:induction false} DropTrailingShortens(rows: seq<Row>)
    ensures rows != [] ==> |DropTrailing(rows)| <= |rows|
  {
    if |rows| > 1 { DropTrailingShortens(rows[..|rows| - 1]); }
  }

  /** Printing loses nothing exactly for a single row, or when the last row is not empty. */
  lemma ExactWhenLastRowIsSolid(rows: seq<Row>)
    requires forall i :: 0 <= i < |rows| ==> RowPrintable(rows[i])
    ensures RowsOf(PrintRows(rows)) == rows <==> |rows| == 1 || (rows != [] && rows[|rows| - 1] != [])
  {
    SplitterInverts(rows);
    if |rows| > 1 { DropTrailingShortens(rows[..|rows| - 1]); }
  }

  lemma ResetParses(zero: string)
    requires zero == "" || zero == "0"
    ensures ParseSGR(zero) == []
  {
    SplitWhole(zero, ';');
    KeptOf([], zero);
    assert [] + [zero] == [zero];
  }

  lemma PlainRun(text: string, sgr: seq<string>)
    requires text != "" && ESC !in text
    ensures RunsFrom(text, "", sgr) == [Run(text, sgr)]
  {
    PlainText(text, "", "", sgr);
    assert text + "" == text && "" + text == text;
  }

  lemma ResetMatches(zero: string, text: string)
    requires zero == "" || zero == "0"
    ensures var s := [ESC, '['] + zero + ['m'] + text;
            MatchLen(s) == |zero| + 3 && s[2..|zero| + 2] == zero && s[|zero| + 3..] == text
  {
    MatchesExactly([ESC, '['] + zero + ['m'] + text, |zero| + 3);
  }

  /** A reset ends the styling: text after ESC[0m or ESC[m is a run without parameters. */
  lemma ResetClears(zero: string, text: string, before: string, sgr: seq<string>)
    requires zero == "" || zero == "0"
    requires text != "" && ESC !in text
    ensures RunsFrom([ESC, '['] + zero + ['m'] + text, before, sgr) == Flush(before, sgr) + [Run(text, [])]
  {
    ResetMatches(zero, text);
    ResetParses(zero);
    MatchFlushes([ESC, '['] + zero + ['m'] + text, before, sgr);
    PlainRun(text, []);
  }

  // ---- the loops -------------------------------------------------------------------

  /** Where the next SGR sequence of s starts, |s| if there is none. */
  function NextMatch(s: string): (i: nat)
    ensures i <= |s|
  {
    if s == "" || MatchLen(s) > 0 then 0 else 1 + NextMatch(s[1..])
  }

  lemma {:induction false} NextMatchMatches(s: string)
    ensures NextMatch(s) < |s| ==> MatchLen(s[NextMatch(s)..]) > 0
  {
    if s != "" && MatchLen(s) == 0 {
      NextMatchMatches(s[1..]);
      assert s[1..][NextMatch(s[1..])..] == s[NextMatch(s)..];
    } else {
      assert s[0..] == s;
    }
  }

  /** What follows the next match, and its parameters. */
  function AfterMatch(s: string): string
    requires NextMatch(s) < |s|
  {
    var m := s[NextMatch(s)..];
    m[MatchLen(m)..]
  }

  function MatchParams(s: string): string
    requires NextMatch(s) < |s|
  {
    NextMatchMatches(s);
    var m := s[NextMatch(s)..];
    m[2..MatchLen(m) - 1]
  }

  lemma LaterMatch(s: string)
    requires s != "" && MatchLen(s) == 0
    ensures NextMatch(s) == 1 + NextMatch(s[1..])
    ensures NextMatch(s) < |s| ==> AfterMatch(s) == AfterMatch(s[1..]) && MatchParams(s) == MatchParams(s[1..])
  {
    var i := NextMatch(s);
    assert s[1..][i - 1..] == s[i..];
  }

  /** What the runs of a line are, given its next match. */
  function RunsVia(s: string, text: string, sgr: seq<string>): Row {
    var i := NextMatch(s);
    if i == |s| then Flush(text + s, sgr)
    else Flush(text + s[..i], sgr) + RunsFrom(AfterMatch(s), "", ParseSGR(MatchParams(s)))
  }

  lemma TextBefore(s: string, text: string, i: nat)
    requires s != "" && 0 < i <= |s|
    ensures text + s[..i] == text + [s[0]] + s[1..][..i - 1]
    ensures text + s == text + [s[0]] + s[1..]
  {
  }

  lemma MatchStep(s: string, text: string, sgr: seq<string>)
    requires s == "" || MatchLen(s) > 0
    ensures RunsFrom(s, text, sgr) == RunsVia(s, text, sgr)
  {
    assert NextMatch(s) == 0;
    if s == "" {
      assert text + s == text;
    } else {
      assert s[0..] == s && text + s[..0] == text;
      MatchFlushes(s, text, sgr);
    }
  }

  /** One turn of the loop over matches. */
  lemma {:induction false} NextRun(s: string, text: string, sgr: seq<string>)
    ensures RunsFrom(s, text, sgr) == RunsVia(s, text, sgr)
    decreases |s|
  {
    if s == "" || MatchLen(s) > 0 {
      MatchStep(s, text, sgr);
    } else {
      LaterMatch(s);
      TextBefore(s, text, NextMatch(s));
      PlainStep(s, text, sgr);
      NextRun(s[1..], text + [s[0]], sgr);
    }
  }

  lemma NextRunFresh(s: string, sgr: seq<string>)
    ensures var i := NextMatch(s);
            RunsFrom(s, "", sgr) ==
              if i == |s| then Flush(s, sgr)
              else Flush(s[..i], sgr) + RunsFrom(AfterMatch(s), "", ParseSGR(MatchParams(s)))
  {
    var i := NextMatch(s);
    NextRun(s, "", sgr);
    assert "" + s == s;
    assert "" + s[..i] == s[..i];
  }

  /** parseSGR. */
  method KeepParams(params: string) returns (out: seq<string>)
    ensures out == ParseSGR(params)
  {
    var parts := Split(params, ';');
    out := [];
    for i := 0 to |parts|
      invariant out == Kept(parts[..i])
    {
      assert parts[..i + 1][..i] == parts[..i];
      if parts[i] == "" || parts[i] == "0" {
        continue;
      }
      out := out + [parts[i]];
    }
    assert parts[..|parts|] == parts;
  }

  /** The inner loop of sgrRows: one line. `rest` is the line from `pos` on. */
  method SplitLine(line: string) returns (runs: Row)
    ensures runs == RowOf(line)
  {
    runs := [];
    var sgr, rest := [], line;
    var at := NextMatch(rest);
    while at < |rest|
      invariant at == NextMatch(rest)
      invariant runs + RunsFrom(rest, "", sgr) == RowOf(line)
      decreases |rest|
    {
      NextRunFresh(rest, sgr);
      var params, next := MatchParams(rest), AfterMatch(rest);
      Regroup(runs, Flush(rest[..at], sgr), RunsFrom(next, "", ParseSGR(params)));
      if at > 0 {
        runs := runs + [Run(rest[..at], sgr)];
      } else {
        assert runs + Flush(rest[..at], sgr) == runs;
      }
      sgr := KeepParams(params);
      rest := next;
      at := NextMatch(rest);
    }
    NextRunFresh(rest, sgr);
    if rest != "" {
      runs := runs + [Run(rest, sgr)];
    }
  }

  /** sgrRows. */
  method Rows(screen: string) returns (rows: seq<Row>)
    ensures rows == RowsOf(screen)
  {
    var lines := Split(TrimRight(screen), '\n');
    rows := [];
    for i := 0 to |lines|
      invariant |rows| == i && forall k :: 0 <= k < i ==> rows[k] == RowOf(lines[k])
    {
      var runs := SplitLine(lines[i]);
      rows := rows + [runs];
    }
  }
}
