/** tmux control mode: the notification loop, and the printer it inverts.
    A byte is a char below 256. */
module ControlMode {
  import opened Sequences
  import opened Channels

  const MAX_LINE := 0x40_0000
  const OUTPUT_QUEUE := 256

  // ---- escaping --------------------------------------------------------------------

  predicate IsOctal(c: char) {
    '0' <= c <= '7'
  }

  predicate StartsEscape(s: string) {
    |s| > 3 && s[0] == '\\' && IsOctal(s[1]) && IsOctal(s[2]) && IsOctal(s[3])
  }

  /** byte(v) of three octal digits: values of 256 and more wrap. */
  function OctalByte(a: char, b: char, c: char): char
    requires IsOctal(a) && IsOctal(b) && IsOctal(c)
  {
    (((a - '0') as int * 64 + (b - '0') as int * 8 + (c - '0') as int) % 256) as char
  }

  function Unescape(s: string): string {
    if s == "" then ""
    else if StartsEscape(s) then [OctalByte(s[1], s[2], s[3])] + Unescape(s[4..])
    else [s[0]] + Unescape(s[1..])
  }

  /** `text` is some way of writing `data` on one line: a backslash or a line break must
      be written as three octal digits, any other byte may be. */
  ghost predicate Writes(text: string, data: string)
    decreases |data|
  {
    if data == "" then text == ""
    else
      || (text != "" && text[0] == data[0] && text[0] !in {'\\', '\n', '\r'} && Writes(text[1..], data[1..]))
      || (StartsEscape(text) && OctalByte(text[1], text[2], text[3]) == data[0] && Writes(text[4..], data[1..]))
  }

  lemma {:induction false} UnescapeInverts(text: string, data: string)
    requires Writes(text, data)
    ensures Unescape(text) == data
    decreases |data|
  {
    if data != "" {
      if StartsEscape(text) {
        UnescapeInverts(text[4..], data[1..]);
      } else {
        UnescapeInverts(text[1..], data[1..]);
      }
      assert data == [data[0]] + data[1..];
    }
  }

  lemma {:induction false} WritesOneLine(text: string, data: string)
    requires Writes(text, data)
    ensures '\n' !in text && '\r' !in text
    decreases |data|
  {
    if data != "" {
      if StartsEscape(text) {
        WritesOneLine(text[4..], data[1..]);
        assert text == [text[0]] + [text[1]] + [text[2]] + [text[3]] + text[4..];
      } else {
        WritesOneLine(text[1..], data[1..]);
        assert text == [text[0]] + text[1..];
      }
    }
  }

  function Digit(n: int): char
    requires 0 <= n < 8
  {
    '0' + n as char
  }

  predicate IsBytes(s: string) {
    forall i :: 0 <= i < |s| ==> s[i] < 256 as char
  }

  /** How tmux writes pane output: control characters and the backslash in octal. */
  function Escape(data: string): string
    requires IsBytes(data)
  {
    if data == "" then ""
    else
      var n := data[0] as int;
      var octal := ['\\', Digit(n / 64), Digit(n / 8 % 8), Digit(n % 8)];
      (if data[0] < ' ' || data[0] == '\\' then octal else [data[0]]) + Escape(data[1..])
  }

  lemma {:induction false} EscapeWrites(data: string)
    requires IsBytes(data)
    ensures Writes(Escape(data), data)
  {
    if data != "" {
      EscapeWrites(data[1..]);
      var n := data[0] as int;
      var text, rest := Escape(data), Escape(data[1..]);
      if data[0] < ' ' || data[0] == '\\' {
        assert text[4..] == rest;
        assert n == n / 64 * 64 + n / 8 % 8 * 8 + n % 8;
      } else {
        assert text[1..] == rest;
      }
    }
  }

  // ---- lines -----------------------------------------------------------------------

  function IndexOf(s: string, c: char): (i: nat)
    ensures i <= |s| && (forall k :: 0 <= k < i ==> s[k] != c) && (i < |s| ==> s[i] == c)
  {
    if s == "" || s[0] == c then 0 else 1 + IndexOf(s[1..], c)
  }

  lemma {:induction false} FirstFound(a: string, c: char, b: string)
    requires c !in a
    ensures IndexOf(a + [c] + b, c) == |a|
  {
    if a != "" {
      assert (a + [c] + b)[1..] == a[1..] + [c] + b;
      FirstFound(a[1..], c, b);
    }
  }

  function DropCR(line: string): string {
    if line != "" && line[|line| - 1] == '\r' then line[..|line| - 1] else line
  }

  /** The scanner's lines: it gives up for good at a line that does not fit its buffer. */
  function Scan(s: string): seq<string> {
    var i := IndexOf(s, '\n');
    if s == "" || i >= MAX_LINE then []
    else if i == |s| then [DropCR(s)]
    else [DropCR(s[..i])] + Scan(s[i + 1..])
  }

  function PrintLines(lines: seq<string>): string {
    if lines == [] then "" else lines[0] + ['\n'] + PrintLines(lines[1..])
  }

  predicate OneLine(line: string) {
    '\n' !in line && (line != "" ==> line[|line| - 1] != '\r')
  }

  function UpToOverlong(lines: seq<string>): seq<string> {
    if lines == [] || |lines[0]| >= MAX_LINE then [] else [lines[0]] + UpToOverlong(lines[1..])
  }

  /** The scanner gets back the lines that were printed, up to the first overlong one. */
  lemma {:induction false} ScanInvertsPrint(lines: seq<string>)
    requires forall k :: 0 <= k < |lines| ==> OneLine(lines[k])
    ensures Scan(PrintLines(lines)) == UpToOverlong(lines)
  {
    if lines != [] {
      var line, rest := lines[0], PrintLines(lines[1..]);
      var s := line + ['\n'] + rest;
      var i := IndexOf(s, '\n');
      FirstFound(line, '\n', rest);
      assert s[..i] == line && s[i + 1..] == rest;
      ScanInvertsPrint(lines[1..]);
    }
  }

  // ---- notifications ---------------------------------------------------------------

  datatype Kind = Begin | End | Output | Extended | Exit | SessionChanged | Pause | Other

  predicate Is(line: string, tag: string) {
    tag <= line
  }

  /** The tests of the loop's switch, in its order. */
  function KindOf(line: string): Kind {
    if Is(line, "%begin") then Begin
    else if Is(line, "%end") || Is(line, "%error") then End
    else if Is(line, "%output ") then Output
    else if Is(line, "%extended-output ") then Extended
    else if Is(line, "%exit") then Exit
    else if Is(line, "%session-changed") then SessionChanged
    else if Is(line, "%pause") then Pause
    else Other
  }

  datatype Parsed = NoData | Data(bytes: string)

  /** "%output %<pane> <escaped bytes>" */
  function ParseOutput(line: string): Parsed
    requires |line| >= 8
  {
    var rest := line[8..];
    var sp := IndexOf(rest, ' ');
    if sp == |rest| then NoData else Data(Unescape(rest[sp + 1..]))
  }

  /** The first place of " : ". */
  function IndexOfColon(s: string): (i: nat)
    ensures i <= |s|
    ensures i < |s| ==> " : " <= s[i..]
  {
    if s == "" || " : " <= s then 0 else 1 + IndexOfColon(s[1..])
  }

  /** "%extended-output %<pane> <age> : <escaped bytes>" */
  function ParseExtended(line: string): Parsed
    requires |line| >= 17
  {
    var rest := line[17..];
    var i := IndexOfColon(rest);
    if i == |rest| then NoData else Data(Unescape(rest[i + 3..]))
  }

  function DataOf(line: string): Parsed {
    match KindOf(line)
    case Output => ParseOutput(line)
    case Extended => ParseExtended(line)
    case _ => NoData
  }

  function EmittedBy(line: string): seq<string> {
    match DataOf(line)
    case NoData => []
    case Data(d) => [d]
  }

  /** What the loop emits for these lines, started inside or outside a reply block. */
  function Emitted(lines: seq<string>, inBlock: bool): seq<string> {
    if lines == [] then []
    else
      var kind, rest := KindOf(lines[0]), lines[1..];
      if kind == Begin then Emitted(rest, true)
      else if kind == End then Emitted(rest, false)
      else if inBlock then Emitted(rest, true)
      else if kind == Exit then []
      else EmittedBy(lines[0]) + Emitted(rest, false)
  }

  /** How often the loop tells tmux to go on after a pause. */
  function Resumes(lines: seq<string>, inBlock: bool): nat {
    if lines == [] then 0
    else
      var kind, rest := KindOf(lines[0]), lines[1..];
      if kind == Begin then Resumes(rest, true)
      else if kind == End then Resumes(rest, false)
      else if inBlock then Resumes(rest, true)
      else if kind == Exit then 0
      else (if kind == Pause then 1 else 0) + Resumes(rest, false)
  }

  /** No line outside a block ends the loop or carries data. */
  predicate Quiet(lines: seq<string>, inBlock: bool) {
    if lines == [] then true
    else
      var kind, rest := KindOf(lines[0]), lines[1..];
      if kind == Begin then Quiet(rest, true)
      else if kind == End then Quiet(rest, false)
      else if inBlock then Quiet(rest, true)
      else kind != Exit && DataOf(lines[0]).NoData? && Quiet(rest, false)
  }

  // ---- the printer -----------------------------------------------------------------

  datatype Event =
    | PaneOutput(pane: string, text: string, data: string)
    | PaneExtended(head: string, text: string, data: string)
    | Reply(args: string, body: seq<string>, failed: bool, endArgs: string)
    | Paused(args: string)
    | SessionChanges(args: string)
    | Notice(line: string)
    | Exited(args: string)

  /** Panes are written without blanks; the fields before the " : " without colons. A reply's
      body may hold anything quiet, even guard lines. */
  ghost predicate Printable(e: Event) {
    match e
    case PaneOutput(pane, text, data) => ' ' !in pane && '\n' !in pane && Writes(text, data)
    case PaneExtended(head, text, data) => ':' !in head && '\n' !in head && Writes(text, data)
    case Reply(args, body, _, endArgs) =>
      OneLine("%begin" + args) && OneLine("%end" + endArgs) && OneLine("%error" + endArgs) &&
      Quiet(body, true) && forall k :: 0 <= k < |body| ==> OneLine(body[k])
    case Paused(args) => OneLine("%pause" + args)
    case SessionChanges(args) => OneLine("%session-changed" + args)
    case Notice(line) => OneLine(line) && Unmarked(line)
    case Exited(args) => OneLine("%exit" + args)
  }

  /** A notification the loop has no case for. */
  predicate Unmarked(line: string) {
    && !("%begin" <= line) && !("%end" <= line) && !("%error" <= line)
    && !("%output " <= line) && !("%extended-output " <= line)
    && !("%exit" <= line) && !("%session-changed" <= line) && !("%pause" <= line)
  }

  function LinesOf(e: Event): seq<string> {
    match e
    case PaneOutput(pane, text, _) => ["%output " + (pane + [' '] + text)]
    case PaneExtended(head, text, _) => ["%extended-output " + (head + " : " + text)]
    case Reply(args, body, failed, endArgs) =>
      ["%begin" + args] + body + [if failed then "%error" + endArgs else "%end" + endArgs]
    case Paused(args) => ["%pause" + args]
    case SessionChanges(args) => ["%session-changed" + args]
    case Notice(line) => [line]
    case Exited(args) => ["%exit" + args]
  }

  function AllLines(es: seq<Event>): seq<string> {
    if es == [] then [] else LinesOf(es[0]) + AllLines(es[1..])
  }

  /** The terminal bytes of the events before the first exit. */
  function Payloads(es: seq<Event>): seq<string> {
    if es == [] || es[0].Exited? then []
    else (if es[0].PaneOutput? || es[0].PaneExtended? then [es[0].data] else []) + Payloads(es[1..])
  }

  lemma OutputParses(pane: string, text: string)
    requires ' ' !in pane
    ensures var line := "%output " + (pane + [' '] + text);
            KindOf(line) == Output && |line| >= 8 && ParseOutput(line) == Data(Unescape(text))
  {
    var tail := pane + [' '] + text;
    var line := "%output " + tail;
    assert line[..8] == "%output ";
    assert line[1] == 'o';
    assert line[8..] == tail;
    FirstFound(pane, ' ', text);
    assert tail[|pane| + 1..] == text;
  }

  lemma {:induction false} ColonFound(head: string, text: string)
    requires ':' !in head
    ensures IndexOfColon(head + " : " + text) == |head|
  {
    var s := head + " : " + text;
    if head == "" {
      assert s[..3] == " : ";
    } else {
      assert s[1..] == head[1..] + " : " + text;
      assert s[1] == (if |head| > 1 then head[1] else ' ');
      assert " : "[1] == ':';
      ColonFound(head[1..], text);
    }
  }

  lemma ExtendedKind(line: string)
    requires Is(line, "%extended-output ")
    ensures KindOf(line) == Extended
  {
    assert line[1] == 'e' && line[2] == 'x' && line[3] == 't';
  }

  lemma ExtendedParses(head: string, text: string)
    requires ':' !in head
    ensures var line := "%extended-output " + (head + " : " + text);
            KindOf(line) == Extended && |line| >= 17 && ParseExtended(line) == Data(Unescape(text))
  {
    var tag, tail := "%extended-output ", head + " : " + text;
    assert |tag| == 17;
    var line := tag + tail;
    assert line[..17] == tag;
    ExtendedKind(line);
    assert line[17..] == tail;
    ColonFound(head, text);
    assert tail[|head| + 3..] == text;
  }

  lemma TagsParse(args: string)
    ensures KindOf("%begin" + args) == Begin
    ensures KindOf("%end" + args) == End && KindOf("%error" + args) == End
    ensures KindOf("%exit" + args) == Exit
  {
    var b, n, r, x := "%begin" + args, "%end" + args, "%error" + args, "%exit" + args;
    assert b[..6] == "%begin";
    assert n[..4] == "%end" && n[1] == 'e';
    assert r[..6] == "%error" && r[1] == 'e';
    assert x[..5] == "%exit" && x[1] == 'e' && x[2] == 'x' && x[3] == 'i';
  }

  lemma PauseParses(args: string)
    ensures KindOf("%pause" + args) == Pause && KindOf("%session-changed" + args) == SessionChanged
  {
    var p, c := "%pause" + args, "%session-changed" + args;
    assert p[..6] == "%pause" && p[1] == 'p';
    assert c[..16] == "%session-changed" && c[1] == 's';
  }

  /** Whether the loop leaves for good within these lines. */
  predicate Exits(lines: seq<string>, inBlock: bool) {
    if lines == [] then false
    else
      var kind, rest := KindOf(lines[0]), lines[1..];
      if kind == Begin then Exits(rest, true)
      else if kind == End then Exits(rest, false)
      else if inBlock then Exits(rest, true)
      else kind == Exit || Exits(rest, false)
  }

  /** A guard line ends whatever block is open: what follows is read as from the start. */
  lemma {:induction false} GuardSplits(body: seq<string>, inBlock: bool, last: string, more: seq<string>)
    requires KindOf(last) == End
    ensures Emitted(body + [last] + more, inBlock) ==
            Emitted(body, inBlock) + (if Exits(body, inBlock) then [] else Emitted(more, false))
  {
    var lines := body + [last] + more;
    if body == [] {
      assert lines[0] == last && lines[1..] == more;
    } else {
      assert lines[0] == body[0] && lines[1..] == body[1..] + [last] + more;
      GuardSplits(body[1..], InBlockAfter(body[0], inBlock), last, more);
    }
  }

  lemma {:induction false} QuietIsSilent(body: seq<string>, inBlock: bool)
    ensures Quiet(body, inBlock) <==> Emitted(body, inBlock) == [] && !Exits(body, inBlock)
  {
    if body != [] {
      QuietIsSilent(body[1..], InBlockAfter(body[0], inBlock));
    }
  }

  lemma {:induction false} GuardlessIsQuiet(body: seq<string>)
    requires forall k :: 0 <= k < |body| ==> KindOf(body[k]) != End
    ensures Quiet(body, true)
  {
    if body != [] {
      GuardlessIsQuiet(body[1..]);
    }
  }

  /** Whether what follows a reply is read as if the reply had not been there. */
  ghost predicate Unnoticed(body: seq<string>, last: string) {
    forall more :: Emitted(body + [last] + more, true) == Emitted(more, false)
  }

  /** A reply goes unnoticed, whatever follows, exactly if its body is quiet. */
  lemma QuietExactly(body: seq<string>, last: string)
    requires KindOf(last) == End
    ensures Unnoticed(body, last) <==> Quiet(body, true)
  {
    QuietIsSilent(body, true);
    forall more: seq<string>
      ensures Emitted(body + [last] + more, true) ==
              Emitted(body, true) + (if Exits(body, true) then [] else Emitted(more, false))
    {
      GuardSplits(body, true, last, more);
    }
    if Unnoticed(body, last) {
      assert Emitted(body + [last] + [], true) == Emitted([], false) == [];
      SomethingEmits();
      var line :| Emitted([line], false) != [];
      assert Emitted(body + [last] + [line], true) == Emitted([line], false);
    }
  }

  lemma SomethingEmits()
    ensures exists line :: Emitted([line], false) != []
  {
    var line := "%output " + ("" + [' '] + "");
    OutputParses("", "");
    EmittedFirst(line, [], false);
    assert [line] + [] == [line];
    assert Emitted([line], false) != [];
  }

  lemma EmittedFirst(line: string, more: seq<string>, inBlock: bool)
    ensures Emitted([line] + more, inBlock) ==
            match KindOf(line)
            case Begin => Emitted(more, true)
            case End => Emitted(more, false)
            case Exit => if inBlock then Emitted(more, true) else []
            case _ => if inBlock then Emitted(more, true) else EmittedBy(line) + Emitted(more, false)
  {
    assert ([line] + more)[1..] == more;
  }

  lemma ReplyEmitsNothing(args: string, body: seq<string>, last: string, more: seq<string>)
    requires Quiet(body, true) && KindOf(last) == End
    ensures Emitted(["%begin" + args] + body + [last] + more, false) == Emitted(more, false)
  {
    TagsParse(args);
    assert ["%begin" + args] + body + [last] + more == ["%begin" + args] + (body + [last] + more);
    EmittedFirst("%begin" + args, body + [last] + more, false);
    QuietExactly(body, last);
  }

  /** Replies are told from output by line prefixes alone: a guard line in a block ends it,
      and an output line after it, inside the same block, is taken for terminal bytes. */
  lemma ForgedGuardIsBelieved(args: string, body: seq<string>, endArgs: string, pane: string, text: string,
      data: string, last: string)
    requires Quiet(body, true) && ' ' !in pane && Writes(text, data) && KindOf(last) == End
    ensures var forged := ["%output " + (pane + [' '] + text)] + [last];
            Emitted(["%begin" + args] + body + ["%end" + endArgs] + forged, false) == [data]
  {
    var line := "%output " + (pane + [' '] + text);
    TagsParse(endArgs);
    ReplyEmitsNothing(args, body, "%end" + endArgs, [line] + [last]);
    OutputParses(pane, text);
    UnescapeInverts(text, data);
    EmittedFirst(line, [last], false);
    EmittedFirst(last, [], false);
    assert [last] + [] == [last];
  }

  lemma EventEmits(e: Event, more: seq<string>)
    requires Printable(e)
    ensures Emitted(LinesOf(e) + more, false) ==
              if e.Exited? then []
                  else (if e.PaneOutput? || e.PaneExtended? then [e.data] else []) + Emitted(more, false)
  {
    match e
    case PaneOutput(pane, text, data) =>
      OutputParses(pane, text);
      UnescapeInverts(text, data);
      EmittedFirst(LinesOf(e)[0], more, false);
    case PaneExtended(head, text, data) =>
      ExtendedParses(head, text);
      UnescapeInverts(text, data);
      EmittedFirst(LinesOf(e)[0], more, false);
    case Reply(args, body, failed, endArgs) =>
      TagsParse(endArgs);
      ReplyEmitsNothing(args, body, if failed then "%error" + endArgs else "%end" + endArgs, more);
    case Paused(args) =>
      PauseParses(args);
      EmittedFirst("%pause" + args, more, false);
    case SessionChanges(args) =>
      PauseParses(args);
      EmittedFirst("%session-changed" + args, more, false);
    case Notice(line) =>
      EmittedFirst(line, more, false);
    case Exited(args) =>
      TagsParse(args);
      EmittedFirst("%exit" + args, more, false);
  }

  lemma {:induction false} LoopInvertsLines(es: seq<Event>)
    requires forall k :: 0 <= k < |es| ==> Printable(es[k])
    ensures Emitted(AllLines(es), false) == Payloads(es)
  {
    if es != [] {
      EventEmits(es[0], AllLines(es[1..]));
      LoopInvertsLines(es[1..]);
    }
  }

  lemma LinesAreOneLine(e: Event, k: nat)
    requires Printable(e) && k < |LinesOf(e)|
    ensures OneLine(LinesOf(e)[k])
  {
    match e
    case PaneOutput(pane, text, data) =>
      WritesOneLine(text, data);
      assert '\n' !in "%output ";
    case PaneExtended(head, text, data) =>
      WritesOneLine(text, data);
      assert '\n' !in "%extended-output " && '\n' !in " : ";
      assert (head + " : " + text) == head + (" : " + text);
      assert text == "" ==> (" : " + text)[2] == ' ';
    case _ =>
  }

  lemma {:induction false} AllLinesAreOneLine(es: seq<Event>, k: nat)
    requires forall j :: 0 <= j < |es| ==> Printable(es[j])
    requires k < |AllLines(es)|
    ensures OneLine(AllLines(es)[k])
  {
    if k < |LinesOf(es[0])| {
      LinesAreOneLine(es[0], k);
    } else {
      AllLinesAreOneLine(es[1..], k - |LinesOf(es[0])|);
    }
  }

  predicate AllFit(lines: seq<string>) {
    forall k :: 0 <= k < |lines| ==> |lines[k]| < 4_194_304
  }

  /** The terminal bytes of the events before the first exit and before the first event
      with a line too long for the scanner. */
  function PayloadsThatFit(es: seq<Event>): seq<string> {
    if es == [] || es[0].Exited? || !AllFit(LinesOf(es[0])) then []
    else (if es[0].PaneOutput? || es[0].PaneExtended? then [es[0].data] else []) + PayloadsThatFit(es[1..])
  }

  lemma AllFitFirst(lines: seq<string>)
    requires lines != []
    ensures AllFit(lines) <==> |lines[0]| < MAX_LINE && AllFit(lines[1..])
  {
    if |lines[0]| < MAX_LINE && AllFit(lines[1..]) {
      forall k | 0 <= k < |lines| ensures |lines[k]| < 4_194_304 { assert k > 0 ==> lines[k] == lines[1..][k - 1]; }
    }
  }

  lemma {:induction false} UpToOverlongOf(a: seq<string>, b: seq<string>)
    ensures UpToOverlong(a + b) == if AllFit(a) then a + UpToOverlong(b) else UpToOverlong(a)
  {
    if a == [] {
      assert a + b == b && a + UpToOverlong(b) == UpToOverlong(b);
    } else {
      AllFitFirst(a);
      assert (a + b)[0] == a[0] && (a + b)[1..] == a[1..] + b;
      UpToOverlongOf(a[1..], b);
      assert a + UpToOverlong(b) == [a[0]] + (a[1..] + UpToOverlong(b));
    }
  }

  lemma {:induction false} QuietUpTo(lines: seq<string>, inBlock: bool)
    requires Quiet(lines, inBlock)
    ensures Quiet(UpToOverlong(lines), inBlock)
  {
    if lines != [] && |lines[0]| < MAX_LINE {
      var rest := UpToOverlong(lines[1..]);
      assert ([lines[0]] + rest)[1..] == rest;
      QuietUpTo(lines[1..], InBlockAfter(lines[0], inBlock));
    }
  }

  lemma {:induction false} QuietEnds(body: seq<string>, inBlock: bool, last: string)
    requires Quiet(body, inBlock) && KindOf(last) == End
    ensures Quiet(body + [last], inBlock)
  {
    if body == [] {
      assert body + [last] == [last] && [last][1..] == [];
    } else {
      assert (body + [last])[1..] == body[1..] + [last];
      QuietEnds(body[1..], InBlockAfter(body[0], inBlock), last);
    }
  }

  /** A whole reply is quiet. */
  lemma ReplyIsQuiet(args: string, body: seq<string>, last: string)
    requires Quiet(body, true) && KindOf(last) == End
    ensures Quiet(["%begin" + args] + body + [last], false)
  {
    TagsParse(args);
    QuietEnds(body, true, last);
    assert ["%begin" + args] + body + [last] == ["%begin" + args] + (body + [last]);
    assert (["%begin" + args] + (body + [last]))[1..] == body + [last];
  }

  /** An event cut short by the scanner emits nothing. */
  lemma CutEventEmitsNothing(e: Event)
    requires Printable(e) && !AllFit(LinesOf(e))
    ensures Emitted(UpToOverlong(LinesOf(e)), false) == []
  {
    if e.Reply? {
      var last := if e.failed then "%error" + e.endArgs else "%end" + e.endArgs;
      TagsParse(e.endArgs);
      ReplyIsQuiet(e.args, e.body, last);
      QuietUpTo(LinesOf(e), false);
      QuietIsSilent(UpToOverlong(LinesOf(e)), false);
    } else {
      assert LinesOf(e) == [LinesOf(e)[0]];
    }
  }

  lemma {:induction false} LoopInvertsCut(es: seq<Event>)
    requires forall k :: 0 <= k < |es| ==> Printable(es[k])
    ensures Emitted(UpToOverlong(AllLines(es)), false) == PayloadsThatFit(es)
  {
    if es != [] {
      UpToOverlongOf(LinesOf(es[0]), AllLines(es[1..]));
      if AllFit(LinesOf(es[0])) {
        EventEmits(es[0], UpToOverlong(AllLines(es[1..])));
        LoopInvertsCut(es[1..]);
      } else {
        CutEventEmitsNothing(es[0]);
      }
    }
  }

  /** The loop inverts the printer: from the bytes of any printed events it emits exactly
      the terminal bytes before the first exit, or before the first line that overflows
      the scanner if that comes sooner. */
  lemma LoopInvertsPrinter(es: seq<Event>)
    requires forall k :: 0 <= k < |es| ==> Printable(es[k])
    ensures Emitted(Scan(PrintLines(AllLines(es))), false) == PayloadsThatFit(es)
  {
    forall k | 0 <= k < |AllLines(es)| ensures OneLine(AllLines(es)[k]) {
      AllLinesAreOneLine(es, k);
    }
    ScanInvertsPrint(AllLines(es));
    LoopInvertsCut(es);
  }

  /** Nothing is lost to the scanner when every line fits. */
  lemma {:induction false} AllPayloadsFit(es: seq<Event>)
    requires forall k :: 0 <= k < |es| ==> AllFit(LinesOf(es[k]))
    ensures PayloadsThatFit(es) == Payloads(es)
  {
    if es != [] && !es[0].Exited? {
      AllPayloadsFit(es[1..]);
    }
  }

  // ---- pauses ----------------------------------------------------------------------

  /** No line outside a block is a pause. */
  predicate Calm(lines: seq<string>, inBlock: bool) {
    if lines == [] then true
    else
      var line, rest := lines[0], lines[1..];
      if "%begin" <= line then Calm(rest, true)
      else if "%end" <= line || "%error" <= line then Calm(rest, false)
      else if inBlock then Calm(rest, true)
      else !("%pause" <= line) && Calm(rest, false)
  }

  predicate AllCalm(es: seq<Event>) {
    forall k :: 0 <= k < |es| ==> (es[k].Reply? ==> Calm(es[k].body, true))
  }

  /** The pauses before the first exit and before the first event with a line too long for
      the scanner. */
  function PausesThatFit(es: seq<Event>): nat {
    if es == [] || es[0].Exited? || !AllFit(LinesOf(es[0])) then 0
    else (if es[0].Paused? then 1 else 0) + PausesThatFit(es[1..])
  }

  lemma ResumesFirst(line: string, more: seq<string>, inBlock: bool)
    ensures Resumes([line] + more, inBlock) ==
            match KindOf(line)
            case Begin => Resumes(more, true)
            case End => Resumes(more, false)
            case Exit => if inBlock then Resumes(more, true) else 0
            case Pause => if inBlock then Resumes(more, true) else 1 + Resumes(more, false)
            case _ => Resumes(more, inBlock)
  {
    assert ([line] + more)[1..] == more;
  }

  lemma {:induction false} CalmBody(body: seq<string>, inBlock: bool, last: string, more: seq<string>)
    requires Calm(body, inBlock) && Quiet(body, inBlock) && KindOf(last) == End
    ensures Resumes(body + [last] + more, inBlock) == Resumes(more, false)
  {
    if body == [] {
      assert body + [last] + more == [last] + more;
      ResumesFirst(last, more, inBlock);
    } else {
      var rest := body[1..] + [last] + more;
      assert body + [last] + more == [body[0]] + rest;
      ResumesFirst(body[0], rest, inBlock);
      CalmBody(body[1..], InBlockAfter(body[0], inBlock), last, more);
    }
  }

  lemma {:induction false} CalmUpTo(lines: seq<string>, inBlock: bool)
    requires Calm(lines, inBlock) && Quiet(lines, inBlock)
    ensures Resumes(UpToOverlong(lines), inBlock) == 0
  {
    if lines != [] && |lines[0]| < MAX_LINE {
      ResumesFirst(lines[0], UpToOverlong(lines[1..]), inBlock);
      CalmUpTo(lines[1..], InBlockAfter(lines[0], inBlock));
    }
  }

  lemma {:induction false} CalmEnds(body: seq<string>, inBlock: bool, last: string)
    requires Calm(body, inBlock) && KindOf(last) == End
    ensures Calm(body + [last], inBlock)
  {
    if body == [] {
      assert body + [last] == [last] && [last][1..] == [];
    } else {
      assert (body + [last])[1..] == body[1..] + [last];
      CalmEnds(body[1..], InBlockAfter(body[0], inBlock), last);
    }
  }

  function LastOf(e: Event): string
    requires e.Reply?
  {
    if e.failed then "%error" + e.endArgs else "%end" + e.endArgs
  }

  lemma ReplyIsCalm(e: Event)
    requires e.Reply? && Printable(e) && Calm(e.body, true)
    ensures Calm(LinesOf(e), false) && Quiet(LinesOf(e), false)
  {
    TagsParse(e.args);
    TagsParse(e.endArgs);
    ReplyIsQuiet(e.args, e.body, LastOf(e));
    CalmEnds(e.body, true, LastOf(e));
    var lines := ["%begin" + e.args] + (e.body + [LastOf(e)]);
    assert LinesOf(e) == lines && lines[1..] == e.body + [LastOf(e)];
  }

  lemma ReplyResumesNothing(e: Event, more: seq<string>)
    requires e.Reply? && Printable(e) && Calm(e.body, true)
    ensures Resumes(LinesOf(e) + more, false) == Resumes(more, false)
  {
    TagsParse(e.args);
    TagsParse(e.endArgs);
    var rest := e.body + [LastOf(e)] + more;
    assert LinesOf(e) + more == ["%begin" + e.args] + rest;
    ResumesFirst("%begin" + e.args, rest, false);
    CalmBody(e.body, true, LastOf(e), more);
  }

  lemma EventResumes(e: Event, more: seq<string>)
    requires Printable(e) && (e.Reply? ==> Calm(e.body, true))
    ensures Resumes(LinesOf(e) + more, false) ==
            if e.Exited? then 0 else (if e.Paused? then 1 else 0) + Resumes(more, false)
  {
    match e
    case PaneOutput(pane, text, data) => OutputParses(pane, text); ResumesFirst(LinesOf(e)[0], more, false);
    case PaneExtended(head, text, data) => ExtendedParses(head, text); ResumesFirst(LinesOf(e)[0], more, false);
    case Reply(_, _, _, _) => ReplyResumesNothing(e, more);
    case Paused(args) => PauseParses(args); ResumesFirst(LinesOf(e)[0], more, false);
    case SessionChanges(args) => PauseParses(args); ResumesFirst(LinesOf(e)[0], more, false);
    case Notice(line) => ResumesFirst(line, more, false);
    case Exited(args) => TagsParse(args); ResumesFirst(LinesOf(e)[0], more, false);
  }

  lemma CutEventResumesNothing(e: Event)
    requires Printable(e) && (e.Reply? ==> Calm(e.body, true)) && !AllFit(LinesOf(e))
    ensures Resumes(UpToOverlong(LinesOf(e)), false) == 0
  {
    if e.Reply? {
      ReplyIsCalm(e);
      CalmUpTo(LinesOf(e), false);
    } else {
      assert LinesOf(e) == [LinesOf(e)[0]];
    }
  }

  lemma {:induction false} CutResumes(es: seq<Event>)
    requires AllCalm(es) && forall k :: 0 <= k < |es| ==> Printable(es[k])
    ensures Resumes(UpToOverlong(AllLines(es)), false) == PausesThatFit(es)
  {
    if es != [] {
      UpToOverlongOf(LinesOf(es[0]), AllLines(es[1..]));
      if AllFit(LinesOf(es[0])) {
        EventResumes(es[0], UpToOverlong(AllLines(es[1..])));
        CutResumes(es[1..]);
      } else {
        CutEventResumesNothing(es[0]);
      }
    }
  }

  /** From the bytes of any printed events the loop tells tmux to go on exactly once for
      each pause before the first exit or the first line that overflows the scanner, and
      for nothing else: not for a session change, nor for what a reply shows. */
  lemma ResumesEachPause(es: seq<Event>)
    requires AllCalm(es) && forall k :: 0 <= k < |es| ==> Printable(es[k])
    ensures Resumes(Scan(PrintLines(AllLines(es))), false) == PausesThatFit(es)
  {
    forall k | 0 <= k < |AllLines(es)| ensures OneLine(AllLines(es)[k]) {
      AllLinesAreOneLine(es, k);
    }
    ScanInvertsPrint(AllLines(es));
    CutResumes(es);
  }

  // ---- at the rim ------------------------------------------------------------------

  /** A backslash and three octal digits stand at k. */
  predicate OctalAt(s: string, k: nat) {
    k + 3 < |s| && s[k] == '\\' && '0' <= s[k + 1] <= '7' && '0' <= s[k + 2] <= '7' && '0' <= s[k + 3] <= '7'
  }

  /** A backslash that does not start three octal digits stands for itself. */
  lemma {:induction false} UnescapeKeepsTheRest(s: string)
    requires forall k :: 0 <= k < |s| ==> !OctalAt(s, k)
    ensures Unescape(s) == s
  {
    if s != "" {
      assert !OctalAt(s, 0) && !StartsEscape(s);
      forall k | 0 <= k < |s[1..]| ensures !OctalAt(s[1..], k) {
        assert !OctalAt(s, k + 1);
      }
      UnescapeKeepsTheRest(s[1..]);
      assert s == [s[0]] + s[1..];
    }
  }

  lemma {:induction false} NoColon(s: string)
    requires forall k :: 0 <= k <= |s| ==> !(" : " <= s[k..])
    ensures IndexOfColon(s) == |s|
  {
    if s != "" {
      assert s[0..] == s;
      forall k | 0 <= k <= |s[1..]| ensures !(" : " <= s[1..][k..]) {
        assert s[1..][k..] == s[k + 1..];
      }
      NoColon(s[1..]);
    }
  }

  /** An output line without the blank after its pane, or an extended one without the " : "
      before its data, is dropped. */
  lemma MalformedIsDropped(rest: string)
    ensures ' ' !in rest ==> EmittedBy("%output " + rest) == []
    ensures (forall k :: 0 <= k <= |rest| ==> !(" : " <= rest[k..])) ==> EmittedBy("%extended-output " + rest) == []
  {
    var a, b := "%output " + rest, "%extended-output " + rest;
    assert a[8..] == rest && b[17..] == rest;
    if ' ' !in rest { NotFound(rest, ' '); }
    ExtendedKind(b);
    if forall k :: 0 <= k <= |rest| ==> !(" : " <= rest[k..]) { NoColon(rest); }
  }

  /** A carriage return before the line break is not part of the line, and a last line
      needs no line break. */
  lemma ScanIsLenient(line: string)
    requires OneLine(line) && line != "" && |line| < 4_194_303
    ensures Scan(line + "\r\n") == [line] && Scan(line) == [line] && Scan(line + "\r") == [line]
  {
    FirstFound(line + "\r", '\n', "");
    assert line + "\r\n" == (line + "\r") + ['\n'] + "";
    var s := line + "\r\n";
    assert s[..|line| + 1] == line + "\r" && s[|line| + 2..] == "";
    assert (line + "\r")[..|line|] == line;
    NotFound(line, '\n');
    NotFound(line + "\r", '\n');
  }

  lemma {:induction false} NotFound(s: string, c: char)
    requires c !in s
    ensures IndexOf(s, c) == |s|
  {
    if s != "" { NotFound(s[1..], c); }
  }

  // ---- the client ------------------------------------------------------------------

  predicate EscapeAt(s: string, i: nat)
    requires i < |s|
  {
    s[i] == '\\' && i + 3 < |s| && IsOctal(s[i + 1]) && IsOctal(s[i + 2]) && IsOctal(s[i + 3])
  }

  lemma UnescapeStep(s: string, i: nat)
    requires i < |s|
    ensures EscapeAt(s, i) ==> Unescape(s[i..]) == [OctalByte(s[i + 1], s[i + 2], s[i + 3])] + Unescape(s[i + 4..])
    ensures !EscapeAt(s, i) ==> Unescape(s[i..]) == [s[i]] + Unescape(s[i + 1..])
  {
    var t := s[i..];
    if EscapeAt(s, i) {
      assert StartsEscape(t) && t[4..] == s[i + 4..];
    } else {
      assert !StartsEscape(t) && t[1..] == s[i + 1..];
    }
  }

  /** unescape, byte by byte. */
  method UnescapeBytes(s: string) returns (out: string)
    ensures out == Unescape(s)
  {
    out := "";
    var i := 0;
    assert s[0..] == s;
    while i < |s|
      invariant i <= |s|
      invariant out + Unescape(s[i..]) == Unescape(s)
    {
      UnescapeStep(s, i);
      if s[i] == '\\' && i + 3 < |s| && IsOctal(s[i + 1]) && IsOctal(s[i + 2]) && IsOctal(s[i + 3]) {
        var b := OctalByte(s[i + 1], s[i + 2], s[i + 3]);
        Regroup(out, [b], Unescape(s[i + 4..]));
        out := out + [b];
        i := i + 4;
      } else {
        Regroup(out, [s[i]], Unescape(s[i + 1..]));
        out := out + [s[i]];
        i := i + 1;
      }
    }
  }

  function Given(line: string, inBlock: bool): seq<string> {
    if inBlock then [] else EmittedBy(line)
  }

  predicate InBlockAfter(line: string, inBlock: bool) {
    KindOf(line) == Begin || (KindOf(line) != End && inBlock)
  }

  /** One turn of the loop, as a step of the line-by-line reading. */
  lemma EmittedStep(lines: seq<string>, inBlock: bool, inBlock': bool, stop: bool)
    requires lines != []
    requires inBlock' == InBlockAfter(lines[0], inBlock) && stop == (!inBlock && KindOf(lines[0]) == Exit)
    ensures Emitted(lines, inBlock) == Given(lines[0], inBlock) + (if stop then [] else Emitted(lines[1..], inBlock'))
    ensures Resumes(lines, inBlock) ==
              (if !inBlock && KindOf(lines[0]) == Pause then 1 else 0)
              + (if stop then 0 else Resumes(lines[1..], inBlock'))
  {
  }

  /** Scanner.Scan and Scanner.Text. */
  method NextLine(s: string) returns (more: bool, line: string, rest: string)
    ensures Scan(s) == if more then [line] + Scan(rest) else []
    ensures more ==> |rest| < |s|
  {
    var i := IndexOf(s, '\n');
    if s == "" || i >= MAX_LINE {
      return false, "", s;
    }
    if i == |s| {
      return true, DropCR(s), "";
    }
    return true, DropCR(s[..i]), s[i + 1..];
  }

  method ParseOutputLine(line: string) returns (parsed: Parsed)
    requires |line| >= 8
    ensures parsed == ParseOutput(line)
  {
    var rest := line[8..];
    var sp := IndexOf(rest, ' ');
    if sp == |rest| {
      return NoData;
    }
    var bytes := UnescapeBytes(rest[sp + 1..]);
    return Data(bytes);
  }

  method ParseExtendedLine(line: string) returns (parsed: Parsed)
    requires |line| >= 17
    ensures parsed == ParseExtended(line)
  {
    var rest := line[17..];
    var at := IndexOfColon(rest);
    if at == |rest| {
      return NoData;
    }
    var bytes := UnescapeBytes(rest[at + 3..]);
    return Data(bytes);
  }

  /** The two output cases of the loop's switch. */
  method ParseLine(line: string) returns (parsed: Parsed)
    ensures parsed == DataOf(line)
  {
    match KindOf(line)
    case Output =>
      parsed := ParseOutputLine(line);
    case Extended =>
      parsed := ParseExtendedLine(line);
    case _ =>
      parsed := NoData;
  }

  class Client {
    const pace: nat -> nat // how many chunks the consumer takes before each emission
    var out: Chan<string>
    var resumes: nat

    constructor (pace: nat -> nat)
      ensures this.pace == pace && Runs() && out.offered == [] && resumes == 0
    {
      this.pace := pace;
      out := NewChan(OUTPUT_QUEUE);
      resumes := 0;
    }

    /** The queue of 256 is what the emissions so far have made of it. */
    ghost predicate Runs()
      reads this
    {
      out == Fed(out.offered, pace, 256)
    }

    /** The consumer on the other end takes up to n chunks. */
    method ConsumerRuns(n: nat)
      modifies this`out
      ensures out == old(out).Drain(n)
    {
      var m := if n < |out.queue| then n else |out.queue|;
      ghost var was := out;
      for i := 0 to m
        invariant out == was.(queue := was.queue[i..], taken := was.taken + was.queue[..i])
      {
        out := out.Take();
      }
    }

    /** The select never blocks: a chunk that finds the queue full is dropped. */
    method Emit(data: string)
      requires Runs()
      modifies this`out
      ensures Runs() && out.offered == old(out.offered) + [data]
    {
      FedSnoc(out.offered, data, pace, 256);
      ConsumerRuns(pace(|out.offered|));
      out := out.Offer(data);
    }

    /** One turn of the loop. */
    method HandleLine(line: string, inBlock: bool) returns (inBlock': bool, stop: bool)
      requires Runs()
      modifies this
      ensures Runs() && out.offered == old(out.offered) + Given(line, inBlock)
      ensures resumes == old(resumes) + (if !inBlock && KindOf(line) == Pause then 1 else 0)
      ensures inBlock' == InBlockAfter(line, inBlock) && stop == (!inBlock && KindOf(line) == Exit)
    {
      inBlock', stop := inBlock, false;
      var kind := KindOf(line);
      if kind == Begin {
        inBlock' := true;
      } else if kind == End {
        inBlock' := false;
      } else if inBlock {
      } else if kind == Output || kind == Extended {
        var parsed := ParseLine(line);
        if parsed.Data? {
          Emit(parsed.bytes);
        }
      } else if kind == Exit {
        stop := true;
      } else if kind == Pause {
        resumes := resumes + 1;
      }
    }

    /** The notification loop, to the end of the stream. What is queued or already taken
        is an in-order selection of what was emitted; something is missing exactly if an
        emission found 256 chunks queued. */
    method ReadLoop(stdout: string)
      requires Runs()
      modifies this
      ensures out == Fed(out.offered, pace, 256).Close() && out.Sound()
      ensures out.offered == old(out.offered) + Emitted(Scan(stdout), false)
      ensures out.overflowed <==> EverFull(|out.offered|, pace)
      ensures resumes == old(resumes) + Resumes(Scan(stdout), false)
    {
      var inBlock, stop, rest := false, false, stdout;
      ghost var emitted, resumed, lines := [], 0, Scan(stdout);
      ghost var all := lines;
      while !stop
        invariant Runs()
        invariant stop || lines == Scan(rest)
        invariant out.offered == old(out.offered) + emitted && resumes == old(resumes) + resumed
        invariant Emitted(all, false) == emitted + (if stop then [] else Emitted(lines, inBlock))
        invariant Resumes(all, false) == resumed + (if stop then 0 else Resumes(lines, inBlock))
        decreases !stop, |rest|
      {
        var more, line, rest' := NextLine(rest);
        if !more {
          assert lines == [];
          stop := true;
        } else {
          ghost var was := inBlock;
          inBlock, stop := HandleLine(line, inBlock);
          EmittedStep(lines, was, inBlock, stop);
          Regroup(emitted, Given(line, was), if stop then [] else Emitted(lines[1..], inBlock));
          Regroup(old(out.offered), emitted, Given(line, was));
          emitted, resumed := emitted + Given(line, was), resumed + (if !was && KindOf(line) == Pause then 1 else 0);
          lines := lines[1..];
          rest := rest';
        }
      }
      FedIsSound(out.offered, pace);
      FedLosesExactly(out.offered, pace);
      out := out.Close();
    }
  }
}
