/** What a line of Markdown is, by itself. */
module MarkdownLine {
  import opened Text

  datatype Kind =
    | CommentLine(chopMarker: bool)
    | FenceLine(language: string)
    | RowLine
    | OtherLine

  // The `White_Space` property.
  predicate IsSpace(c: char) {
    || '\t' <= c <= '\r' || c in " \U{85}\U{A0}\U{1680}\U{2028}\U{2029}\U{202F}\U{205F}\U{3000}"
    || '\U{2000}' <= c <= '\U{200A}'
  }

  function TrimStart(s: string): string {
    if s != "" && IsSpace(s[0]) then TrimStart(s[1..]) else s
  }

  function TrimEnd(s: string): string {
    if s != "" && IsSpace(s[|s| - 1]) then TrimEnd(s[..|s| - 1]) else s
  }

  // Repeatedly, as `trim_start_matches` and `trim_end_matches` do.
  function TrimStartMatches(s: string, p: string): string
    requires p != ""
  {
    if p <= s then TrimStartMatches(s[|p|..], p) else s
  }

  function TrimEndMatches(s: string, p: string): string
    requires p != ""
  {
    if EndsWith(s, p) then TrimEndMatches(s[..|s| - |p|], p) else s
  }

  predicate IsComment(line: string) {
    var trimmed := TrimStart(line);
    "<!--" <= trimmed && EndsWith(trimmed, "-->")
  }

  predicate IsChopMarker(line: string) {
    "wt list" <= TrimStart(TrimEnd(TrimEndMatches(TrimStartMatches(TrimStart(line), "<!--"), "-->")))
  }

  predicate IsFence(line: string) {
    "```" <= TrimStart(line)
  }

  function Language(line: string): string
    requires IsFence(line)
  {
    TrimStart(TrimEnd(TrimStart(line)[3..]))
  }

  predicate IsRow(line: string) {
    var trimmed := TrimStart(line);
    trimmed != "" && trimmed[0] == '|' && trimmed[|trimmed| - 1] == '|'
  }

  // Outside a fence the tests come in this order. Within one only the test for a fence is made.
  function Classify(line: string): Kind {
    if IsComment(line) then CommentLine(IsChopMarker(line))
    else if IsFence(line) then FenceLine(Language(line))
    else if IsRow(line) then RowLine
    else OtherLine
  }

  // So the order does not matter: each line passes at most one of the tests.
  lemma ClassesAreDisjoint(line: string)
    ensures IsFence(line) <==> Classify(line).FenceLine?
    ensures IsRow(line) <==> Classify(line).RowLine?
  {
    var trimmed := TrimStart(line);
    assert "```" <= trimmed ==> trimmed[0] == '`';
    assert "<!--" <= trimmed ==> trimmed[0] == '<';
  }

  lemma {:induction false} TrimIndent(indent: string, s: string)
    requires forall i :: 0 <= i < |indent| ==> IsSpace(indent[i])
    ensures TrimStart(indent + s) == TrimStart(s)
    decreases |indent|
  {
    if indent == "" {
      assert indent + s == s;
    } else {
      assert (indent + s)[1..] == indent[1..] + s;
      TrimIndent(indent[1..], s);
    }
  }

  // Behind any indent: three backquotes open or close a fence, a bar at either end makes a row, and a comment is
  // one whatever is in it.
  lemma FenceIsRead(indent: string, text: string)
    requires forall i :: 0 <= i < |indent| ==> IsSpace(indent[i])
    ensures Classify(indent + "```" + text) == FenceLine(TrimStart(TrimEnd(text)))
  {
    var fence := "```" + text;
    assert indent + "```" + text == indent + fence;
    TrimIndent(indent, fence);
    assert fence[0] == '`' && fence[3..] == text;
    ClassesAreDisjoint(indent + fence);
  }

  lemma RowIsRead(indent: string, text: string)
    requires forall i :: 0 <= i < |indent| ==> IsSpace(indent[i])
    ensures Classify(indent + "|" + text + "|") == RowLine
  {
    var row := "|" + text + "|";
    assert indent + "|" + text + "|" == indent + row;
    TrimIndent(indent, row);
    assert row[0] == '|' && row[|row| - 1] == '|';
    ClassesAreDisjoint(indent + row);
  }

  // A comment is a marker exactly when its text begins with the name of the command.
  lemma CommentIsRead(indent: string, text: string)
    requires forall i :: 0 <= i < |indent| ==> IsSpace(indent[i])
    requires !("<!--" <= text + "-->") && !EndsWith(text, "-->")
    ensures Classify(indent + "<!--" + text + "-->") == CommentLine("wt list" <= TrimStart(TrimEnd(text)))
  {
    var comment := "<!--" + (text + "-->");
    assert indent + "<!--" + text + "-->" == indent + comment;
    TrimIndent(indent, comment);
    assert comment[0] == '<' && TrimStart(comment) == comment && "<!--" <= comment;
    EndsInArrow(comment);
    InnerIs(text);
  }

  lemma EndsInArrow(comment: string)
    requires |comment| >= 3 && comment[|comment| - 3..] == "-->"
    ensures EndsWith(comment, "-->")
  {
  }

  lemma InnerIs(text: string)
    requires !("<!--" <= text + "-->") && !EndsWith(text, "-->")
    ensures TrimEndMatches(TrimStartMatches("<!--" + (text + "-->"), "<!--"), "-->") == text
  {
    var inner := text + "-->";
    assert ("<!--" + inner)[|"<!--"|..] == inner;
    assert TrimStartMatches("<!--" + inner, "<!--") == TrimStartMatches(inner, "<!--") == inner;
    assert inner[..|inner| - |"-->"|] == text && inner[|inner| - |"-->"|..] == "-->";
    assert TrimEndMatches(inner, "-->") == TrimEndMatches(text, "-->") == text;
  }

  // What is no such line: a rule, a header of one of four levels, or prose.
  lemma RuleIsRendered(rule: string, header: (nat, string) -> string, prose: string -> string)
    ensures RenderOther(rule, header, prose, "---") == rule == RenderOther(rule, header, prose, "***")
    ensures RenderOther(rule, header, prose, "___") == rule
  {
  }

  lemma HeaderIsRendered(rule: string, header: (nat, string) -> string, prose: string -> string, text: string)
    ensures RenderOther(rule, header, prose, "# " + text) == header(1, text)
    ensures RenderOther(rule, header, prose, "## " + text) == header(2, text)
  {
    assert ("# " + text)[2..] == text && ("## " + text)[3..] == text;
    assert ("# " + text)[1] == ' ' && ("## " + text)[1] == '#' && ("## " + text)[2] == ' ';
  }

  lemma LowerHeaderIsRendered(rule: string, header: (nat, string) -> string, prose: string -> string, text: string)
    ensures RenderOther(rule, header, prose, "### " + text) == header(3, text)
    ensures RenderOther(rule, header, prose, "#### " + text) == header(4, text)
  {
    assert ("### " + text)[4..] == text && ("#### " + text)[5..] == text;
    assert ("### " + text)[1] == '#' && ("### " + text)[2] == '#' && ("### " + text)[3] == ' ';
    assert ("#### " + text)[1] == '#' && ("#### " + text)[2] == '#' && ("#### " + text)[3] == '#';
  }

  lemma ProseIsRendered(rule: string, header: (nat, string) -> string, prose: string -> string, text: string)
    requires text != "" && text[0] !in "#-*_" && !IsSpace(text[0])
    ensures RenderOther(rule, header, prose, text) == prose(text)
  {
  }

  function RenderOther(rule: string, header: (nat, string) -> string, prose: string -> string, line: string): string {
    var trimmed := TrimStart(line);
    if trimmed == "---" || trimmed == "***" || trimmed == "___" then rule
    else if "#### " <= trimmed then header(4, trimmed[5..])
    else if "### " <= trimmed then header(3, trimmed[4..])
    else if "## " <= trimmed then header(2, trimmed[3..])
    else if "# " <= trimmed then header(1, trimmed[2..])
    else prose(line)
  }
}

/** The fenced-Markdown line machine. What tells the kinds of line apart, and what renders a line, a table
    or a block of code, are parameters, so the results hold for every width, style and gutter. */
module Markdown {
  import opened MarkdownLine

  type Reader = string -> Kind

  datatype Renderers = Renderers(
    kind: Reader,
    code: (seq<string>, string, bool) -> string,
    table: seq<string> -> string,
    other: string -> string,
    recolour: string -> string)

  // Those of the help pages and panes, which the results below hold of in particular.
  function HelpRenderers(code: (seq<string>, string, bool) -> string, table: seq<string> -> string, rule: string,
      header: (nat, string) -> string, prose: string -> string, recolour: string -> string): Renderers {
    Renderers(Classify, code, table, line => RenderOther(rule, header, prose, line), recolour)
  }

  // ---------------------------------------------------------------- what a document is

  lemma Halves<T>(s: seq<T>, n: nat)
    requires n <= |s|
    ensures s[..n] + s[n..] == s
  {
  }

  lemma DropAppend<T>(a: seq<T>, b: seq<T>, n: nat)
    requires n <= |a|
    ensures (a + b)[n..] == a[n..] + b
  {
  }

  lemma RestOf(lines: seq<string>, i: nat)
    requires i < |lines|
    ensures lines[i..] != [] && lines[i..][0] == lines[i] && lines[i..][1..] == lines[i + 1..]
  {
  }

  lemma Ends(lines: seq<string>)
    ensures lines[0..] == lines && lines[|lines|..] == []
  {
  }

  lemma SliceOfRest(lines: seq<string>, i: nat, j: nat)
    requires i <= j <= |lines|
    ensures lines[i..][..j - i] == lines[i..j] && lines[i..][j - i..] == lines[j..]
  {
  }

  lemma Emit(done: string, piece: string, next: string)
    ensures done + (piece + next) == (done + piece) + next
  {
  }

  // `closing` is the closing fence, if there is one.
  datatype Block =
    | Comment(line: string, chopMarker: bool)
    | Fenced(fence: string, language: string, body: seq<string>, closing: seq<string>)
    | Table(rows: seq<string>)
    | Single(line: string)
  {
    function Size(): nat {
      match this
      case Fenced(_, _, body, closing) => 1 + |body| + |closing|
      case Table(rows) => |rows|
      case _ => 1
    }

    function Source(): (s: seq<string>)
      ensures |s| == Size()
    {
      match this
      case Comment(line, _) => [line]
      case Fenced(fence, _, body, closing) => [fence] + body + closing
      case Table(rows) => rows
      case Single(line) => [line]
    }
  }

  datatype Document = End | More(first: Block, rest: Document) {
    function Then(next: Document): Document {
      match this
      case End => next
      case More(first, rest) => More(first, rest.Then(next))
    }
  }

  function RowCount(kind: Reader, lines: seq<string>): (n: nat)
    ensures n <= |lines| && forall i :: 0 <= i < n ==> kind(lines[i]).RowLine?
    ensures n < |lines| ==> !kind(lines[n]).RowLine?
  {
    if lines != [] && kind(lines[0]).RowLine? then 1 + RowCount(kind, lines[1..]) else 0
  }

  function BodyLength(kind: Reader, lines: seq<string>): (n: nat)
    ensures n <= |lines| && forall i :: 0 <= i < n ==> !kind(lines[i]).FenceLine?
    ensures n < |lines| ==> kind(lines[n]).FenceLine?
  {
    if lines != [] && !kind(lines[0]).FenceLine? then 1 + BodyLength(kind, lines[1..]) else 0
  }

  function FirstBlock(kind: Reader, lines: seq<string>): (b: Block)
    requires lines != []
    ensures 1 <= b.Size() <= |lines|
  {
    var line, rest := lines[0], lines[1..];
    if kind(line).CommentLine? then Comment(line, kind(line).chopMarker)
    else if kind(line).FenceLine? then
      var n := BodyLength(kind, rest);
      Fenced(line, kind(line).language, rest[..n], if n < |rest| then [rest[n]] else [])
    else if kind(line).RowLine? then Table(lines[..RowCount(kind, lines)])
    else Single(line)
  }

  function Blocks(kind: Reader, lines: seq<string>): Document
    decreases |lines|
  {
    if lines == [] then End
    else More(FirstBlock(kind, lines), Blocks(kind, lines[FirstBlock(kind, lines).Size()..]))
  }

  // Whether a marker is still waiting for its block of code.
  function Pending(document: Document, chop: bool): bool {
    match document
    case End => chop
    case More(first, rest) => Pending(rest, PendingAfter(first, chop))
  }

  function PendingAfter(b: Block, chop: bool): bool {
    match b
    case Comment(_, chopMarker) => chop || chopMarker
    case Fenced(_, _, _, _) => false
    case _ => chop
  }

  function RenderBlock(r: Renderers, b: Block, chop: bool): string {
    match b
    case Comment(_, _) => ""
    case Fenced(_, language, body, _) => r.code(body, language, chop) + "\n"
    case Table(rows) => r.table(rows)
    case Single(line) => r.other(line)
  }

  function RenderBlocks(r: Renderers, document: Document, chop: bool): string {
    match document
    case End => ""
    case More(first, rest) => RenderBlock(r, first, chop) + RenderBlocks(r, rest, PendingAfter(first, chop))
  }

  function Rendered(r: Renderers, lines: seq<string>): string {
    RenderBlocks(r, Blocks(r.kind, lines), false)
  }

  // ---------------------------------------------------------------- the line machine

  // What remains to be rendered with a fence open: `body` has been collected, `lines` are to come.
  function FenceFrom(r: Renderers, lang: string, body: seq<string>, lines: seq<string>, chop: bool): string {
    var n := BodyLength(r.kind, lines);
    r.code(body + lines[..n], lang, chop) + "\n"
      + if n < |lines| then RenderBlocks(r, Blocks(r.kind, lines[n + 1..]), false) else ""
  }

  lemma FenceOpens(r: Renderers, lines: seq<string>, chop: bool)
    requires lines != [] && r.kind(lines[0]).FenceLine?
    ensures RenderBlocks(r, Blocks(r.kind, lines), chop)
      == FenceFrom(r, r.kind(lines[0]).language, [], lines[1..], chop)
  {
    var rest, language := lines[1..], r.kind(lines[0]).language;
    var n := BodyLength(r.kind, rest);
    FencedFirst(r.kind, lines);
    PastFence(lines, n);
    var ahead := if n < |rest| then rest[n + 1..] else [];
    assert lines[FirstBlock(r.kind, lines).Size()..] == ahead;
    RenderFenced(r, Blocks(r.kind, lines), language, rest[..n], Blocks(r.kind, ahead), chop);
  }

  lemma FencedFirst(kind: Reader, lines: seq<string>)
    requires lines != [] && kind(lines[0]).FenceLine?
    ensures var n, b := BodyLength(kind, lines[1..]), FirstBlock(kind, lines);
      && b.Fenced? && b.language == kind(lines[0]).language && b.body == lines[1..][..n]
      && b.Size() == if n < |lines| - 1 then n + 2 else n + 1
  {
  }

  lemma RenderFenced(r: Renderers, document: Document, language: string, body: seq<string>, ahead: Document, chop: bool)
    requires document.More? && document.first.Fenced? && document.rest == ahead
    requires document.first.language == language && document.first.body == body
    ensures RenderBlocks(r, document, chop) == r.code(body, language, chop) + "\n" + RenderBlocks(r, ahead, false)
  {
  }

  lemma PastFence(lines: seq<string>, n: nat)
    requires lines != [] && n < |lines|
    ensures [] + lines[1..][..n] == lines[1..][..n]
    ensures n < |lines| - 1 ==> lines[n + 2..] == lines[1..][n + 1..]
    ensures n == |lines| - 1 ==> lines[n + 1..] == []
  {
  }

  lemma FenceTakesLine(r: Renderers, lang: string, body: seq<string>, lines: seq<string>, chop: bool)
    requires lines != [] && !r.kind(lines[0]).FenceLine?
    ensures FenceFrom(r, lang, body, lines, chop) == FenceFrom(r, lang, body + [lines[0]], lines[1..], chop)
  {
    var n := BodyLength(r.kind, lines);
    assert body + [lines[0]] + lines[1..][..n - 1] == body + lines[..n];
    assert n < |lines| ==> lines[n + 1..] == lines[1..][n..];
  }

  // The variables of the loop.
  datatype Machine = Machine(
    result: string, inCodeBlock: bool, chopNextBlock: bool, lang: string, codeLines: seq<string>)

  // What remains to be rendered of `lines`.
  function Remaining(r: Renderers, m: Machine, lines: seq<string>): string {
    if m.inCodeBlock then FenceFrom(r, m.lang, m.codeLines, lines, m.chopNextBlock)
    else RenderBlocks(r, Blocks(r.kind, lines), m.chopNextBlock)
  }

  function Total(r: Renderers, m: Machine, lines: seq<string>): string {
    m.result + Remaining(r, m, lines)
  }

  lemma FenceCloses(r: Renderers, lang: string, body: seq<string>, lines: seq<string>, chop: bool)
    requires lines != [] && r.kind(lines[0]).FenceLine?
    ensures FenceFrom(r, lang, body, lines, chop)
      == r.code(body, lang, chop) + "\n" + RenderBlocks(r, Blocks(r.kind, lines[1..]), false)
  {
    NothingTaken(body, lines);
  }

  lemma NothingTaken(body: seq<string>, lines: seq<string>)
    ensures body + lines[..0] == body
  {
  }

  lemma FenceAtEnd(r: Renderers, lang: string, body: seq<string>, chop: bool)
    ensures FenceFrom(r, lang, body, [], chop) == r.code(body, lang, chop) + "\n"
  {
    assert body + [][..0] == body;
  }

  lemma TableFirst(r: Renderers, lines: seq<string>, n: nat, chop: bool)
    requires 1 <= n <= |lines| && (forall i :: 0 <= i < n ==> r.kind(lines[i]).RowLine?)
    requires n < |lines| ==> !r.kind(lines[n]).RowLine?
    ensures RenderBlocks(r, Blocks(r.kind, lines), chop)
      == r.table(lines[..n]) + RenderBlocks(r, Blocks(r.kind, lines[n..]), chop)
  {
    RowCountIs(r.kind, lines, n);
  }

  lemma CommentFirst(r: Renderers, lines: seq<string>, chop: bool)
    requires lines != [] && r.kind(lines[0]).CommentLine?
    ensures RenderBlocks(r, Blocks(r.kind, lines), chop)
      == RenderBlocks(r, Blocks(r.kind, lines[1..]), chop || r.kind(lines[0]).chopMarker)
  {
  }

  lemma OtherFirst(r: Renderers, lines: seq<string>, chop: bool)
    requires lines != [] && r.kind(lines[0]).OtherLine?
    ensures RenderBlocks(r, Blocks(r.kind, lines), chop)
      == r.other(lines[0]) + RenderBlocks(r, Blocks(r.kind, lines[1..]), chop)
  {
  }

  // A line that is not collected into a table.
  method TakeLine(r: Renderers, m: Machine, line: string, ghost rest: seq<string>) returns (next: Machine)
    requires rest != [] && rest[0] == line && (r.kind(line).RowLine? ==> m.inCodeBlock)
    ensures Total(r, next, rest[1..]) == Total(r, m, rest)
  {
    var kind := r.kind(line);
    if !m.inCodeBlock && kind.CommentLine? {
      CommentFirst(r, rest, m.chopNextBlock);
      next := if kind.chopMarker then m.(chopNextBlock := true) else m;
    } else if kind.FenceLine? {
      if !m.inCodeBlock {
        FenceOpens(r, rest, m.chopNextBlock);
        next := m.(lang := kind.language, codeLines := [], inCodeBlock := true);
      } else {
        FenceCloses(r, m.lang, m.codeLines, rest, m.chopNextBlock);
        var block := r.code(m.codeLines, m.lang, m.chopNextBlock) + "\n";
        next := m.(result := m.result + block, inCodeBlock := false, chopNextBlock := false);
        Emit(m.result, block, Remaining(r, next, rest[1..]));
      }
    } else if m.inCodeBlock {
      FenceTakesLine(r, m.lang, m.codeLines, rest, m.chopNextBlock);
      next := m.(codeLines := m.codeLines + [line]);
    } else {
      OtherFirst(r, rest, m.chopNextBlock);
      next := m.(result := m.result + r.other(line));
      Emit(m.result, r.other(line), Remaining(r, next, rest[1..]));
    }
  }

  // The first `n` of `rest` are its leading rows.
  ghost predicate LeadingRows(kind: Reader, rest: seq<string>, n: nat) {
    && 1 <= n <= |rest| && (forall j :: 0 <= j < n ==> kind(rest[j]).RowLine?)
    && (n < |rest| ==> !kind(rest[n]).RowLine?)
  }

  // The rows from `start` on.
  method CollectRows(kind: Reader, lines: seq<string>, start: nat) returns (rows: seq<string>, i: nat)
    requires start < |lines| && kind(lines[start]).RowLine?
    ensures start < i <= |lines| && LeadingRows(kind, lines[start..], i - start)
    ensures rows == lines[start..][..i - start] && lines[i..] == lines[start..][i - start..]
  {
    rows, i := [], start;
    while i < |lines| && kind(lines[i]).RowLine?
      invariant start <= i <= |lines| && rows == lines[start..i]
      invariant forall j :: start <= j < i ==> kind(lines[j]).RowLine?
    {
      rows := rows + [lines[i]];
      i := i + 1;
    }
    SliceOfRest(lines, start, i);
  }

  method TakeTable(r: Renderers, m: Machine, lines: seq<string>, start: nat) returns (next: Machine, i: nat)
    requires start < |lines| && r.kind(lines[start]).RowLine? && !m.inCodeBlock
    ensures start < i <= |lines| && Total(r, next, lines[i..]) == Total(r, m, lines[start..])
  {
    var rows;
    rows, i := CollectRows(r.kind, lines, start);
    ghost var rest, n := lines[start..], i - start;
    TableTotal(r, m, rest, n);
    assert rows == rest[..n] && lines[i..] == rest[n..];
    next := m.(result := m.result + r.table(rows));
  }

  lemma TableTotal(r: Renderers, m: Machine, lines: seq<string>, n: nat)
    requires !m.inCodeBlock && LeadingRows(r.kind, lines, n)
    ensures Total(r, m.(result := m.result + r.table(lines[..n])), lines[n..]) == Total(r, m, lines)
  {
    TableFirst(r, lines, n, m.chopNextBlock);
    Emit(m.result, r.table(lines[..n]), RenderBlocks(r, Blocks(r.kind, lines[n..]), m.chopNextBlock));
  }

  // The end of the input renders a fence still open.
  method Finish(r: Renderers, m: Machine) returns (result: string)
    ensures result == Total(r, m, [])
  {
    result := m.result;
    if m.inCodeBlock {
      FenceAtEnd(r, m.lang, m.codeLines, m.chopNextBlock);
      result := result + (r.code(m.codeLines, m.lang, m.chopNextBlock) + "\n");
    }
  }

  method RenderMarkdown(r: Renderers, lines: seq<string>) returns (out: string)
    ensures out == r.recolour(Rendered(r, lines))
  {
    var m := Machine("", false, false, "", []);
    var i := 0;
    Ends(lines);
    while i < |lines|
      invariant i <= |lines| && Total(r, m, lines[i..]) == Rendered(r, lines)
    {
      RestOf(lines, i);
      if !m.inCodeBlock && r.kind(lines[i]).RowLine? {
        m, i := TakeTable(r, m, lines, i);
      } else {
        m := TakeLine(r, m, lines[i], lines[i..]);
        i := i + 1;
      }
    }
    var result := Finish(r, m);
    out := r.recolour(result);
  }

  lemma RowCountIs(kind: Reader, lines: seq<string>, n: nat)
    requires n <= |lines| && (forall i :: 0 <= i < n ==> kind(lines[i]).RowLine?)
    requires n < |lines| ==> !kind(lines[n]).RowLine?
    ensures RowCount(kind, lines) == n
  {
  }

  // ---------------------------------------------------------------- no line is lost or shown twice

  function Sources(document: Document): seq<string> {
    match document
    case End => []
    case More(first, rest) => first.Source() + Sources(rest)
  }

  lemma FirstBlockIsAPrefix(kind: Reader, lines: seq<string>)
    requires lines != []
    ensures var b := FirstBlock(kind, lines); b.Source() == lines[..b.Size()]
  {
  }

  lemma {:induction false} BlocksPartitionTheLines(kind: Reader, lines: seq<string>)
    ensures Sources(Blocks(kind, lines)) == lines
    decreases |lines|
  {
    if lines != [] {
      var n := FirstBlock(kind, lines).Size();
      FirstBlockIsAPrefix(kind, lines);
      BlocksPartitionTheLines(kind, lines[n..]);
      Halves(lines, n);
    }
  }

  // ---------------------------------------------------------------- a fence left open

  function FenceCount(kind: Reader, lines: seq<string>): nat {
    if lines == [] then 0 else (if kind(lines[0]).FenceLine? then 1 else 0) + FenceCount(kind, lines[1..])
  }

  // Every fence line opens or closes.
  predicate LeavesFenceOpen(kind: Reader, lines: seq<string>) {
    FenceCount(kind, lines) % 2 == 1
  }

  lemma {:induction false} FenceCountAppend(kind: Reader, a: seq<string>, b: seq<string>)
    ensures FenceCount(kind, a + b) == FenceCount(kind, a) + FenceCount(kind, b)
    decreases |a|
  {
    if a == [] {
      assert a + b == b;
    } else {
      FenceCountAppend(kind, a[1..], b);
      assert (a + b)[1..] == a[1..] + b;
    }
  }

  lemma {:induction false} NoFences(kind: Reader, lines: seq<string>)
    requires forall i :: 0 <= i < |lines| ==> !kind(lines[i]).FenceLine?
    ensures FenceCount(kind, lines) == 0
    decreases |lines|
  {
    if lines != [] {
      NoFences(kind, lines[1..]);
    }
  }

  lemma FirstBlockFences(kind: Reader, lines: seq<string>)
    requires lines != []
    ensures var b := FirstBlock(kind, lines);
      FenceCount(kind, b.Source()) == if b.Fenced? then 1 + |b.closing| else 0
    ensures var b := FirstBlock(kind, lines); b.Fenced? ==> |b.closing| <= 1 && kind(b.fence).FenceLine?
  {
    var b := FirstBlock(kind, lines);
    match b
    case Fenced(fence, _, body, closing) =>
      NoFences(kind, body);
      FenceCountAppend(kind, [fence], body);
      FenceCountAppend(kind, [fence] + body, closing);
    case Table(rows) =>
      NoFences(kind, rows);
    case _ =>
      NoFences(kind, b.Source());
  }

  // What is after the first block is left open exactly when the whole is, unless the first block is.
  lemma OpenAfterFirst(kind: Reader, lines: seq<string>)
    requires lines != []
    ensures var b := FirstBlock(kind, lines);
      var rest := lines[b.Size()..];
      if b.Fenced? && b.closing == [] then rest == [] && LeavesFenceOpen(kind, lines)
      else LeavesFenceOpen(kind, rest) == LeavesFenceOpen(kind, lines)
  {
    var b := FirstBlock(kind, lines);
    var n := b.Size();
    FirstBlockFences(kind, lines);
    FirstBlockIsAPrefix(kind, lines);
    FenceCountAppend(kind, lines[..n], lines[n..]);
    Halves(lines, n);
  }

  // The first block stays what it is when lines are added behind, unless it is an open fence or a table
  // that the added lines go on with.
  lemma FirstBlockStays(kind: Reader, a: seq<string>, b: seq<string>)
    requires a != [] && !TableSpans(kind, a, b)
    requires FirstBlock(kind, a).Fenced? ==> FirstBlock(kind, a).closing != []
    ensures FirstBlock(kind, a + b) == FirstBlock(kind, a)
  {
    var rest := (a + b)[1..];
    assert rest == a[1..] + b;
    if kind(a[0]).CommentLine? {
    } else if kind(a[0]).FenceLine? {
      var n := BodyLength(kind, a[1..]);
      BodyLengthIs(kind, rest, n);
      assert rest[..n] == a[1..][..n];
    } else if kind(a[0]).RowLine? {
      var n := RowCount(kind, a);
      RowCountIs(kind, a + b, n);
      assert (a + b)[..n] == a[..n];
    }
  }

  lemma BodyLengthIs(kind: Reader, lines: seq<string>, n: nat)
    requires n <= |lines| && (forall i :: 0 <= i < n ==> !kind(lines[i]).FenceLine?)
    requires n < |lines| ==> kind(lines[n]).FenceLine?
    ensures BodyLength(kind, lines) == n
  {
  }

  // Closing a fence that was left open changes nothing, whatever line closes it.
  lemma {:induction false} OpenFenceRendersAsClosed(r: Renderers, lines: seq<string>, fence: string, chop: bool)
    requires r.kind(fence).FenceLine? && LeavesFenceOpen(r.kind, lines)
    ensures RenderBlocks(r, Blocks(r.kind, lines + [fence]), chop) == RenderBlocks(r, Blocks(r.kind, lines), chop)
    decreases |lines|
  {
    var b := FirstBlock(r.kind, lines);
    var n := b.Size();
    OpenAfterFirst(r.kind, lines);
    if b.Fenced? && b.closing == [] {
      OpenBlockCloses(r, lines, fence, chop);
    } else {
      FirstBlockStays(r.kind, lines, [fence]);
      OpenFenceRendersAsClosed(r, lines[n..], fence, PendingAfter(b, chop));
      DropAppend(lines, [fence], n);
    }
  }

  lemma OpenBlockCloses(r: Renderers, lines: seq<string>, fence: string, chop: bool)
    requires r.kind(fence).FenceLine? && lines != []
    requires FirstBlock(r.kind, lines).Fenced? && FirstBlock(r.kind, lines).closing == []
    ensures RenderBlocks(r, Blocks(r.kind, lines + [fence]), chop) == RenderBlocks(r, Blocks(r.kind, lines), chop)
  {
    var closed, rest := lines + [fence], lines[1..];
    assert closed[1..] == rest + [fence];
    BodyLengthIs(r.kind, closed[1..], |rest|);
    FenceOpens(r, lines, chop);
    FenceOpens(r, closed, chop);
    assert [] + closed[1..][..|rest|] == [] + rest[..|rest|];
    assert closed[1..][|rest| + 1..] == [];
  }

  // ---------------------------------------------------------------- one document after another

  predicate TableSpans(kind: Reader, a: seq<string>, b: seq<string>) {
    a != [] && b != [] && kind(a[|a| - 1]).RowLine? && kind(b[0]).RowLine?
  }

  lemma {:induction false} BlocksAppend(kind: Reader, a: seq<string>, b: seq<string>)
    requires !LeavesFenceOpen(kind, a) && !TableSpans(kind, a, b)
    ensures Blocks(kind, a + b) == Blocks(kind, a).Then(Blocks(kind, b))
    decreases |a|
  {
    if a == [] {
      assert a + b == b;
    } else {
      var first := FirstBlock(kind, a);
      var n := first.Size();
      OpenAfterFirst(kind, a);
      FirstBlockStays(kind, a, b);
      BlocksAppend(kind, a[n..], b);
      DropAppend(a, b, n);
    }
  }

  lemma {:induction false} RenderBlocksThen(r: Renderers, x: Document, y: Document, chop: bool)
    ensures RenderBlocks(r, x.Then(y), chop) == RenderBlocks(r, x, chop) + RenderBlocks(r, y, Pending(x, chop))
  {
    match x
    case End =>
    case More(first, rest) =>
      var next := PendingAfter(first, chop);
      RenderBlocksThen(r, rest, y, next);
      assert RenderBlock(r, first, chop) + (RenderBlocks(r, rest, next) + RenderBlocks(r, y, Pending(rest, next)))
          == RenderBlock(r, first, chop) + RenderBlocks(r, rest, next) + RenderBlocks(r, y, Pending(rest, next));
  }

  // Rendering distributes over a cut outside any fence and any table, up to a marker still pending there.
  lemma RenderingDistributes(r: Renderers, a: seq<string>, b: seq<string>)
    requires !LeavesFenceOpen(r.kind, a) && !TableSpans(r.kind, a, b)
    ensures Rendered(r, a + b) == Rendered(r, a) + RenderBlocks(r, Blocks(r.kind, b), Pending(Blocks(r.kind, a), false))
    ensures !Pending(Blocks(r.kind, a), false) ==> Rendered(r, a + b) == Rendered(r, a) + Rendered(r, b)
  {
    BlocksAppend(r.kind, a, b);
    RenderBlocksThen(r, Blocks(r.kind, a), Blocks(r.kind, b), false);
  }

  lemma FenceCountOne(kind: Reader, fence: string)
    requires kind(fence).FenceLine?
    ensures FenceCount(kind, [fence]) == 1
  {
    assert [fence][1..] == [];
  }

  lemma FenceToggles(kind: Reader, lines: seq<string>, fence: string)
    requires kind(fence).FenceLine?
    ensures LeavesFenceOpen(kind, lines + [fence]) != LeavesFenceOpen(kind, lines)
  {
    FenceCountAppend(kind, lines, [fence]);
    FenceCountOne(kind, fence);
    OddStep(FenceCount(kind, lines));
  }

  lemma OddStep(n: nat)
    ensures ((n + 1) % 2 == 1) != (n % 2 == 1)
  {
  }

  lemma LoneFence(r: Renderers, fence: string, chop: bool)
    requires r.kind(fence).FenceLine?
    ensures RenderBlocks(r, Blocks(r.kind, [fence]), chop) == r.code([], r.kind(fence).language, chop) + "\n"
  {
    FenceOpens(r, [fence], chop);
    FenceAtEnd(r, r.kind(fence).language, [], chop);
    assert [fence][1..] == [];
  }

  // One more fence line: it closes an open fence without a trace, and otherwise opens an empty block.
  lemma OneMoreFence(r: Renderers, lines: seq<string>, fence: string)
    requires r.kind(fence).FenceLine?
    ensures LeavesFenceOpen(r.kind, lines + [fence]) != LeavesFenceOpen(r.kind, lines)
    ensures LeavesFenceOpen(r.kind, lines) ==> Rendered(r, lines + [fence]) == Rendered(r, lines)
    ensures !LeavesFenceOpen(r.kind, lines) ==>
      var chop := Pending(Blocks(r.kind, lines), false);
      Rendered(r, lines + [fence]) == Rendered(r, lines) + (r.code([], r.kind(fence).language, chop) + "\n")
  {
    FenceToggles(r.kind, lines, fence);
    if LeavesFenceOpen(r.kind, lines) {
      OpenFenceRendersAsClosed(r, lines, fence, false);
    } else {
      RenderingDistributes(r, lines, [fence]);
      LoneFence(r, fence, Pending(Blocks(r.kind, lines), false));
    }
  }

  // For help text and forge Markdown, read as the repository reads it: any line that opens with three
  // backquotes closes an open fence, and rendering without it comes to the same.
  lemma AnyFenceLineCloses(code: (seq<string>, string, bool) -> string, table: seq<string> -> string, rule: string,
      header: (nat, string) -> string, prose: string -> string, recolour: string -> string,
      lines: seq<string>, fence: string)
    requires IsFence(fence) && LeavesFenceOpen(Classify, lines)
    ensures var r := HelpRenderers(code, table, rule, header, prose, recolour);
      r.recolour(Rendered(r, lines + [fence])) == r.recolour(Rendered(r, lines))
  {
    var r := HelpRenderers(code, table, rule, header, prose, recolour);
    ClassesAreDisjoint(fence);
    OneMoreFence(r, lines, fence);
  }

  // ---------------------------------------------------------------- what each kind of block comes to

  lemma {:induction false} NothingPending(kind: Reader, lines: seq<string>)
    requires forall i :: 0 <= i < |lines| && kind(lines[i]).CommentLine? ==> !kind(lines[i]).chopMarker
    ensures !Pending(Blocks(kind, lines), false)
    decreases |lines|
  {
    if lines != [] {
      NothingPending(kind, lines[FirstBlock(kind, lines).Size()..]);
    }
  }

  // A piece between two cuts that are outside any fence and table and where no marker waits.
  lemma BetweenCuts(r: Renderers, a: seq<string>, x: seq<string>, b: seq<string>)
    requires !LeavesFenceOpen(r.kind, a) && !LeavesFenceOpen(r.kind, x)
    requires !TableSpans(r.kind, a, x + b) && !TableSpans(r.kind, x, b)
    requires forall i :: 0 <= i < |a| && r.kind(a[i]).CommentLine? ==> !r.kind(a[i]).chopMarker
    requires !Pending(Blocks(r.kind, x), false)
    ensures Rendered(r, a + (x + b)) == Rendered(r, a) + (Rendered(r, x) + Rendered(r, b))
  {
    NothingPending(r.kind, a);
    RenderingDistributes(r, a, x + b);
    RenderingDistributes(r, x, b);
  }

  lemma Alone<T>(x: T)
    ensures [x] != [] && [x][0] == x && [x][1..] == []
  {
  }

  // A line that is no comment, fence or row goes to `other`, by itself.
  lemma OtherRenders(r: Renderers, a: seq<string>, line: string, b: seq<string>)
    requires r.kind(line).OtherLine? && !LeavesFenceOpen(r.kind, a)
    requires forall i :: 0 <= i < |a| && r.kind(a[i]).CommentLine? ==> !r.kind(a[i]).chopMarker
    ensures Rendered(r, a + ([line] + b)) == Rendered(r, a) + (r.other(line) + Rendered(r, b))
  {
    Alone(line);
    OtherFirst(r, [line], false);
    NoFences(r.kind, [line]);
    NothingPending(r.kind, [line]);
    BetweenCuts(r, a, [line], b);
  }

  // Rows, all that stand together, go to `table`.
  lemma RowsRender(r: Renderers, a: seq<string>, rows: seq<string>, b: seq<string>)
    requires rows != [] && (forall i :: 0 <= i < |rows| ==> r.kind(rows[i]).RowLine?) && !LeavesFenceOpen(r.kind, a)
    requires a != [] ==> !r.kind(a[|a| - 1]).RowLine?
    requires b != [] ==> !r.kind(b[0]).RowLine?
    requires forall i :: 0 <= i < |a| && r.kind(a[i]).CommentLine? ==> !r.kind(a[i]).chopMarker
    ensures Rendered(r, a + (rows + b)) == Rendered(r, a) + (r.table(rows) + Rendered(r, b))
  {
    TableFirst(r, rows, |rows|, false);
    assert rows[..|rows|] == rows && rows[|rows|..] == [];
    NoFences(r.kind, rows);
    NothingPending(r.kind, rows);
    BetweenCuts(r, a, rows, b);
  }

  // The lines between two fences go to `code`, with the language of the first, unchopped where no marker waits.
  lemma FenceRenders(r: Renderers, a: seq<string>, fence: string, body: seq<string>, closing: string, b: seq<string>)
    requires r.kind(fence).FenceLine? && r.kind(closing).FenceLine? && !LeavesFenceOpen(r.kind, a)
    requires forall i :: 0 <= i < |body| ==> !r.kind(body[i]).FenceLine?
    requires forall i :: 0 <= i < |a| && r.kind(a[i]).CommentLine? ==> !r.kind(a[i]).chopMarker
    ensures var x := [fence] + body + [closing];
      Rendered(r, a + (x + b)) == Rendered(r, a) + (r.code(body, r.kind(fence).language, false) + "\n" + Rendered(r, b))
  {
    var x := [fence] + body + [closing];
    WholeFence(r, fence, body, closing, false);
    assert x[0] == fence && x[|x| - 1] == closing;
    BetweenCuts(r, a, x, b);
  }

  lemma WholeFence(r: Renderers, fence: string, body: seq<string>, closing: string, chop: bool)
    requires r.kind(fence).FenceLine? && r.kind(closing).FenceLine?
    requires forall i :: 0 <= i < |body| ==> !r.kind(body[i]).FenceLine?
    ensures var x := [fence] + body + [closing];
      && RenderBlocks(r, Blocks(r.kind, x), chop) == r.code(body, r.kind(fence).language, chop) + "\n"
      && !LeavesFenceOpen(r.kind, x) && !Pending(Blocks(r.kind, x), chop)
  {
    var x := [fence] + body + [closing];
    OneBlock(r.kind, fence, body, closing);
    FenceCounts(r.kind, fence, body, closing);
    assert x[FirstBlock(r.kind, x).Size()..] == [] && Blocks(r.kind, []) == End;
    assert Blocks(r.kind, x) == More(FirstBlock(r.kind, x), Blocks(r.kind, x[FirstBlock(r.kind, x).Size()..]));
    RenderFenced(r, Blocks(r.kind, x), r.kind(fence).language, body, End, chop);
    NoEnd(r.code(body, r.kind(fence).language, chop) + "\n");
  }

  lemma NoEnd(s: string)
    ensures s + "" == s
  {
  }

  lemma OneBlock(kind: Reader, fence: string, body: seq<string>, closing: string)
    requires kind(fence).FenceLine? && kind(closing).FenceLine?
    requires forall i :: 0 <= i < |body| ==> !kind(body[i]).FenceLine?
    ensures var x := [fence] + body + [closing];
      && FirstBlock(kind, x).Fenced? && FirstBlock(kind, x).language == kind(fence).language
      && FirstBlock(kind, x).body == body && FirstBlock(kind, x).Size() == |x|
  {
    var x := [fence] + body + [closing];
    var rest := x[1..];
    assert rest == body + [closing] && rest[..|body|] == body;
    BodyLengthIs(kind, rest, |body|);
    FencedFirst(kind, x);
  }

  lemma FenceCounts(kind: Reader, fence: string, body: seq<string>, closing: string)
    requires kind(fence).FenceLine? && kind(closing).FenceLine?
    requires forall i :: 0 <= i < |body| ==> !kind(body[i]).FenceLine?
    ensures !LeavesFenceOpen(kind, [fence] + body + [closing])
  {
    NoFences(kind, body);
    FenceCountAppend(kind, [fence], body);
    FenceCountAppend(kind, [fence] + body, [closing]);
    FenceCountOne(kind, fence);
    FenceCountOne(kind, closing);
  }

  // A comment shows nothing; a marker has the next block of code chopped, whatever other lines come between, and
  // no block after it.
  lemma MarkerChopsTheNext(r: Renderers, marker: string, fence: string, body: seq<string>, closing: string,
      b: seq<string>)
    requires r.kind(marker).CommentLine? && r.kind(fence).FenceLine? && r.kind(closing).FenceLine?
    requires forall i :: 0 <= i < |body| ==> !r.kind(body[i]).FenceLine?
    ensures var x := [fence] + body + [closing];
      Rendered(r, [marker] + (x + b))
        == r.code(body, r.kind(fence).language, r.kind(marker).chopMarker) + "\n" + Rendered(r, b)
  {
    var x, chop := [fence] + body + [closing], r.kind(marker).chopMarker;
    assert ([marker] + (x + b))[1..] == x + b;
    CommentFirst(r, [marker] + (x + b), false);
    WholeFence(r, fence, body, closing, chop);
    assert x[0] == fence && x[|x| - 1] == closing;
    BlocksAppend(r.kind, x, b);
    RenderBlocksThen(r, Blocks(r.kind, x), Blocks(r.kind, b), chop);
  }
}
