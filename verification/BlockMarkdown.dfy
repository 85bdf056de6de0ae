/**
  `parseMarkdown` of `MessageList.tsx`: the lines of a message become headings, code blocks, list
  items, paragraphs and spacers. Elements carry their React key, the index of their first line.
 */
module BlockMarkdown {
  import opened Wrappers
  import opened CodeUnits
  import opened InlineMarkdown

  datatype Block =
    | Heading(key: nat, level: nat, content: seq<Node>)
    | CodeBlock(key: nat, code: Text)
    | Bullet(key: nat, indent: nat, content: seq<Node>)
    | Numbered(key: nat, indent: nat, number: Text, content: seq<Node>)
    | Spacer(key: nat)
    | Paragraph(key: nat, indent: nat, content: seq<Node>)

  const FENCE: Text := [BACKTICK, BACKTICK, BACKTICK]

  // ---------------------------------------------------------------- lines

  /** `text.split('\n')` */
  function SplitLines(text: Text): (lines: seq<Text>)
    ensures lines != []
  {
    if text == [] then [[]]
    else
      var more := SplitLines(text[1..]);
      if text[0] == NEWLINE then [[]] + more else [[text[0]] + more[0]] + more[1..]
  }

  /** Joining restores a text that was split, and no line of it holds a newline. */
  lemma {:induction false} SplitJoin(text: Text)
    ensures JoinLines(SplitLines(text)) == text
    ensures forall i :: 0 <= i < |SplitLines(text)| ==> NEWLINE !in SplitLines(text)[i]
  {
    if text != [] {
      SplitJoin(text[1..]);
      var more := SplitLines(text[1..]);
      if text[0] == NEWLINE {
        assert SplitLines(text)[1..] == more;
      } else {
        assert SplitLines(text)[1..] == more[1..];
      }
    }
  }

  lemma {:induction false} SplitFirst(first: Text, rest: Text)
    requires NEWLINE !in first
    ensures SplitLines(first + [NEWLINE] + rest) == [first] + SplitLines(rest)
    decreases |first|
  {
    var t := first + [NEWLINE] + rest;
    if first == [] {
      assert t[1..] == rest;
    } else {
      assert t[1..] == first[1..] + [NEWLINE] + rest;
      SplitFirst(first[1..], rest);
      assert [first[0]] + first[1..] == first;
    }
  }

  lemma {:induction false} SplitLast(line: Text)
    requires NEWLINE !in line
    ensures SplitLines(line) == [line]
    decreases |line|
  {
    if line != [] {
      SplitLast(line[1..]);
      assert [line[0]] + line[1..] == line;
    }
  }

  /** The other way round: splitting restores any lines that were joined. */
  lemma {:induction false} JoinSplit(lines: seq<Text>)
    requires lines != [] && forall i :: 0 <= i < |lines| ==> NEWLINE !in lines[i]
    ensures SplitLines(JoinLines(lines)) == lines
    decreases |lines|
  {
    if |lines| == 1 {
      SplitLast(lines[0]);
      assert lines == [lines[0]];
    } else {
      JoinSplit(lines[1..]);
      SplitFirst(lines[0], JoinLines(lines[1..]));
    }
  }

  predicate IsFence(line: Text) {
    StartsWith(Trim(line), FENCE)
  }

  // ---------------------------------------------------------------- the two list patterns

  function SpaceRun(t: Text): (n: nat)
    ensures n <= |t| && (n < |t| ==> !IsSpace(t[n])) && forall i :: 0 <= i < n ==> IsSpace(t[i])
  {
    if t != [] && IsSpace(t[0]) then 1 + SpaceRun(t[1..]) else 0
  }

  function DecimalRun(t: Text): (n: nat)
    ensures n <= |t|
  {
    if t != [] && 48 <= t[0] <= 57 then 1 + DecimalRun(t[1..]) else 0
  }

  /** `.*`, which stops at a line terminator. */
  function DotStar(t: Text): Text {
    if t == [] || t[0] in {10, 13, 0x2028, 0x2029} then [] else [t[0]] + DotStar(t[1..])
  }

  datatype ListMatch = ListMatch(spaces: nat, marker: Text, content: Text)

  /** `/^(\s*)([-*•])\s+(.*)/` */
  function MatchUnordered(line: Text): Option<ListMatch> {
    var n := SpaceRun(line);
    if n == |line| || line[n] !in {45, 42, 0x2022} || SpaceRun(line[n + 1..]) == 0 then None
    else Some(ListMatch(n, [line[n]], DotStar(line[n + 1 + SpaceRun(line[n + 1..])..])))
  }

  /** `/^(\s*)(\d+)\.\s+(.*)/` */
  function MatchOrdered(line: Text): Option<ListMatch> {
    var n := SpaceRun(line);
    var d := DecimalRun(line[n..]);
    if d == 0 || n + d == |line| || line[n + d] != 46 || SpaceRun(line[n + d + 1..]) == 0 then None
    else Some(ListMatch(n, line[n..n + d], DotStar(line[n + d + 1 + SpaceRun(line[n + d + 1..])..])))
  }

  ghost predicate AllDecimal(t: Text) {
    forall i :: 0 <= i < |t| ==> 48 <= t[i] <= 57
  }

  lemma {:induction false} SpaceRunIs(a: Text, rest: Text)
    requires AllSpace(a) && (rest == [] || !IsSpace(rest[0]))
    ensures SpaceRun(a + rest) == |a|
  {
    if a == [] {
      assert a + rest == rest;
    } else {
      assert (a + rest)[1..] == a[1..] + rest;
      SpaceRunIs(a[1..], rest);
    }
  }

  lemma {:induction false} DecimalRunIs(d: Text, rest: Text)
    requires AllDecimal(d) && (rest == [] || !(48 <= rest[0] <= 57))
    ensures DecimalRun(d + rest) == |d|
  {
    if d == [] {
      assert d + rest == rest;
    } else {
      assert (d + rest)[1..] == d[1..] + rest;
      DecimalRunIs(d[1..], rest);
    }
  }

  lemma {:induction false} DecimalRunDigits(t: Text)
    ensures AllDecimal(t[..DecimalRun(t)])
  {
    if t != [] && 48 <= t[0] <= 57 {
      DecimalRunDigits(t[1..]);
    }
  }

  /** The line reads as spaces, one of the three bullets, and a rest that opens with a space. */
  ghost predicate ReadsAsBullet(line: Text, a: Text, u: CodeUnit, rest: Text) {
    line == a + ([u] + rest) && AllSpace(a) && u in {45, 42, 0x2022} && rest != [] && IsSpace(rest[0])
  }

  /** The line reads as spaces, digits, a dot, and a rest that opens with a space. */
  ghost predicate ReadsAsNumber(line: Text, a: Text, d: Text, rest: Text) {
    line == a + (d + ([46] + rest)) && AllSpace(a) && d != [] && AllDecimal(d) && rest != [] && IsSpace(rest[0])
  }

  lemma {:induction false} BulletMatches(line: Text, a: Text, u: CodeUnit, rest: Text)
    requires ReadsAsBullet(line, a, u, rest)
    ensures MatchUnordered(line).Some? && MatchUnordered(line).value.spaces == |a| && MatchUnordered(line).value.marker == [u]
  {
    hide SpaceRun, DotStar;
    SpaceRunIs(a, [u] + rest);
    assert line[|a| + 1..] == rest;
  }

  lemma {:induction false} NumberMatches(line: Text, a: Text, d: Text, rest: Text)
    requires ReadsAsNumber(line, a, d, rest)
    ensures MatchOrdered(line).Some? && MatchOrdered(line).value.spaces == |a| && MatchOrdered(line).value.marker == d
  {
    hide SpaceRun, DecimalRun, DotStar;
    SpaceRunIs(a, d + ([46] + rest));
    assert line[|a|..] == d + ([46] + rest);
    DecimalRunIs(d, [46] + rest);
    assert line[|a| + |d| + 1..] == rest;
  }

  /** A line matches the bullet pattern exactly when it reads as a bullet item. */
  lemma {:induction false} UnorderedPattern(line: Text)
    ensures MatchUnordered(line).Some? <==> exists a, u, rest :: ReadsAsBullet(line, a, u, rest)
  {
    hide SpaceRun, DotStar;
    if MatchUnordered(line).Some? {
      var n := SpaceRun(line);
      var rest := line[n + 1..];
      assert line == line[..n] + ([line[n]] + rest);
      assert ReadsAsBullet(line, line[..n], line[n], rest);
    }
    if a, u, rest :| ReadsAsBullet(line, a, u, rest) {
      BulletMatches(line, a, u, rest);
    }
  }

  /** A line matches the number pattern exactly when it reads as a numbered item. */
  lemma {:induction false} OrderedPattern(line: Text)
    ensures MatchOrdered(line).Some? <==> exists a, d, rest :: ReadsAsNumber(line, a, d, rest)
  {
    hide SpaceRun, DecimalRun, DotStar;
    if MatchOrdered(line).Some? {
      var n := SpaceRun(line);
      var d := DecimalRun(line[n..]);
      DecimalRunDigits(line[n..]);
      var rest := line[n + d + 1..];
      assert line[n..][..d] == line[n..n + d];
      assert line == line[..n] + (line[n..n + d] + ([46] + rest));
      assert ReadsAsNumber(line, line[..n], line[n..n + d], rest);
    }
    if a, d, rest :| ReadsAsNumber(line, a, d, rest) {
      NumberMatches(line, a, d, rest);
    }
  }

  // ---------------------------------------------------------------- elements

  /** The element of a line outside code that is no fence. */
  function LineBlock(key: nat, line: Text): Block {
    var trimmed := Trim(line);
    if StartsWith(trimmed, U("# ")) then Heading(key, 1, ParseInline(trimmed[2..]))
    else if StartsWith(trimmed, U("## ")) then Heading(key, 2, ParseInline(trimmed[3..]))
    else if StartsWith(trimmed, U("### ")) then Heading(key, 3, ParseInline(trimmed[4..]))
    else if MatchUnordered(line).Some? then
      var m := MatchUnordered(line).value;
      Bullet(key, m.spaces / 2, ParseInline(m.content))
    else if MatchOrdered(line).Some? then
      var m := MatchOrdered(line).value;
      Numbered(key, m.spaces / 2, m.marker, ParseInline(m.content))
    else if trimmed == [] then Spacer(key)
    else
      var n := SpaceRun(line);
      Paragraph(key, n / 2, ParseInline(if n == 0 then line else DotStar(line[n..])))
  }

  /** The first fence at `from` or after, or the end of the lines. */
  function FenceFrom(lines: seq<Text>, from: nat): (k: nat)
    requires from <= |lines|
    ensures from <= k <= |lines|
    ensures forall i :: from <= i < k ==> !IsFence(lines[i])
    ensures k < |lines| ==> IsFence(lines[k])
    decreases |lines| - from
  {
    if from == |lines| || IsFence(lines[from]) then from else FenceFrom(lines, from + 1)
  }

  /** The element that starts at a line: a fence opens a block of all the lines up to the next fence. */
  function BlockAt(lines: seq<Text>, i: nat): Block
    requires i < |lines|
  {
    if IsFence(lines[i]) then CodeBlock(i, JoinLines(lines[i + 1..FenceFrom(lines, i + 1)])) else LineBlock(i, lines[i])
  }

  /** The line after an element, past its closing fence. */
  function Next(lines: seq<Text>, i: nat): (n: nat)
    requires i < |lines|
    ensures i < n
  {
    if IsFence(lines[i]) then FenceFrom(lines, i + 1) + 1 else i + 1
  }

  function Blocks(lines: seq<Text>, i: nat): seq<Block>
    decreases |lines| - i
  {
    if i >= |lines| then [] else [BlockAt(lines, i)] + Blocks(lines, Next(lines, i))
  }

  function ParseMarkdown(text: Text): seq<Block> {
    if text == [] then [] else Blocks(SplitLines(text), 0)
  }

  lemma {:induction false} FenceIsNoHeading(line: Text)
    ensures IsFence(line) ==> !StartsWith(Trim(line), U("# ")) && !StartsWith(Trim(line), U("## ")) && !StartsWith(Trim(line), U("### "))
  {
    hide Trim;
    var t := Trim(line);
    if IsFence(line) {
      assert t[0] == t[..3][0] == BACKTICK;
      assert U("# ")[0] == 35 && U("## ")[0] == 35 && U("### ")[0] == 35;
    }
  }

  lemma {:induction false} BlocksStep(lines: seq<Text>, elements: seq<Block>, i: nat)
    ensures i >= |lines| ==> elements + Blocks(lines, i) == elements
    ensures i < |lines| ==> elements + Blocks(lines, i) == (elements + [BlockAt(lines, i)]) + Blocks(lines, Next(lines, i))
  {
    hide BlockAt, Next;
  }

  /** The lines of a code block that opens on `lineIdx`, and where they end. */
  method ReadCodeLines(lines: seq<Text>, lineIdx: nat) returns (codeLines: seq<Text>, blockLineIdx: nat)
    requires lineIdx < |lines|
    ensures blockLineIdx == FenceFrom(lines, lineIdx + 1)
    ensures codeLines == lines[lineIdx + 1..blockLineIdx]
  {
    hide Trim;
    codeLines := [];
    blockLineIdx := lineIdx + 1;
    while blockLineIdx < |lines| && !StartsWith(Trim(lines[blockLineIdx]), FENCE)
      invariant lineIdx + 1 <= blockLineIdx <= |lines|
      invariant codeLines == lines[lineIdx + 1..blockLineIdx]
      invariant FenceFrom(lines, lineIdx + 1) == FenceFrom(lines, blockLineIdx)
    {
      codeLines := codeLines + [lines[blockLineIdx]];
      blockLineIdx := blockLineIdx + 1;
    }
  }

  method ParseMarkdownLoop(text: Text) returns (elements: seq<Block>)
    ensures elements == ParseMarkdown(text)
  {
    hide Trim, SplitLines, MatchUnordered, MatchOrdered, ParseInline, SpaceRun, DotStar, Blocks, FenceFrom, JoinLines;
    if text == [] {
      return [];
    }
    var lines := SplitLines(text);
    elements := [];
    var lineIdx := 0;
    assert [] + Blocks(lines, 0) == Blocks(lines, 0);
    while lineIdx < |lines|
      invariant Blocks(lines, 0) == elements + Blocks(lines, lineIdx)
      decreases |lines| - lineIdx
    {
      var line := lines[lineIdx];
      var trimmed := Trim(line);
      FenceIsNoHeading(line);
      BlocksStep(lines, elements, lineIdx);
      if StartsWith(trimmed, U("# ")) {
        var content := ParseInlineLoop(trimmed[2..]);
        elements, lineIdx := elements + [Heading(lineIdx, 1, content)], lineIdx + 1;
        continue;
      }
      if StartsWith(trimmed, U("## ")) {
        var content := ParseInlineLoop(trimmed[3..]);
        elements, lineIdx := elements + [Heading(lineIdx, 2, content)], lineIdx + 1;
        continue;
      }
      if StartsWith(trimmed, U("### ")) {
        var content := ParseInlineLoop(trimmed[4..]);
        elements, lineIdx := elements + [Heading(lineIdx, 3, content)], lineIdx + 1;
        continue;
      }
      if StartsWith(trimmed, FENCE) {
        var codeLines, blockLineIdx := ReadCodeLines(lines, lineIdx);
        var codeContent := JoinLines(codeLines);
        elements, lineIdx := elements + [CodeBlock(lineIdx, codeContent)], blockLineIdx + 1;
        continue;
      }
      var unorderedMatch := MatchUnordered(line);
      if unorderedMatch.Some? {
        var content := ParseInlineLoop(unorderedMatch.value.content);
        var indentLevel := unorderedMatch.value.spaces / 2;
        elements, lineIdx := elements + [Bullet(lineIdx, indentLevel, content)], lineIdx + 1;
        continue;
      }
      var orderedMatch := MatchOrdered(line);
      if orderedMatch.Some? {
        var content := ParseInlineLoop(orderedMatch.value.content);
        var indentLevel := orderedMatch.value.spaces / 2;
        elements, lineIdx := elements + [Numbered(lineIdx, indentLevel, orderedMatch.value.marker, content)], lineIdx + 1;
        continue;
      }
      if trimmed == [] {
        elements := elements + [Spacer(lineIdx)];
      } else {
        var spaces := SpaceRun(line);
        var content := ParseInlineLoop(if spaces > 0 then DotStar(line[spaces..]) else line);
        elements := elements + [Paragraph(lineIdx, spaces / 2, content)];
      }
      lineIdx := lineIdx + 1;
    }
    BlocksStep(lines, elements, lineIdx);
  }

  // ---------------------------------------------------------------- an element keeps the text of its line

  predicate IsTerminator(u: CodeUnit) {
    u in {10, 13, 0x2028, 0x2029}
  }

  /** Where `.*` stops: at the end or at a line terminator. */
  ghost predicate CutOff(tail: Text) {
    tail == [] || IsTerminator(tail[0])
  }

  ghost predicate OneLine(t: Text) {
    forall i :: 0 <= i < |t| ==> !IsTerminator(t[i])
  }

  lemma {:induction false} DotStarCuts(t: Text) returns (tail: Text)
    ensures t == DotStar(t) + tail && CutOff(tail) && OneLine(DotStar(t))
  {
    if t == [] || IsTerminator(t[0]) {
      tail := t;
    } else {
      tail := DotStarCuts(t[1..]);
      assert t == [t[0]] + t[1..];
    }
  }

  function Hashes(n: nat): Text {
    seq(n, _ => 35)
  }

  /**
    The element of a line outside code keeps the line's text: printed back after its marker and its
    indentation, its content is the line, up to a line terminator inside it; the text of an item or
    a paragraph starts with no space, so all white space before it is marker space or indentation.
    The content is the canonical tree of its text.
   */
  ghost predicate KeepsText(b: Block, line: Text) {
    match b
    case Heading(_, level, content) => 1 <= level <= 3 && Trim(line) == Hashes(level) + [32] + Print(content) && Canon(content)
    case Bullet(_, indent, content) =>
      Canon(content) && exists a, u, s, tail :: u in {45, 42, 0x2022} && ReadsAsItem(line, a, [u], s, Print(content), tail) && indent == |a| / 2
    case Numbered(_, indent, number, content) =>
      Canon(content) && number != [] && AllDecimal(number)
      && exists a, s, tail :: ReadsAsItem(line, a, number + [46], s, Print(content), tail) && indent == |a| / 2
    case Spacer(_) => AllSpace(line)
    case Paragraph(_, indent, content) =>
      Canon(content) && if line != [] && !IsSpace(line[0]) then indent == 0 && Print(content) == line
                        else exists a, tail :: ReadsAsItem(line, a, [], [], Print(content), tail) && indent == |a| / 2
    case CodeBlock(_, _) => false
  }

  ghost predicate ReadsAsItem(line: Text, a: Text, marker: Text, s: Text, content: Text, tail: Text) {
    && line == a + marker + s + content + tail && AllSpace(a) && AllSpace(s) && (s != [] <==> marker != [])
    && CutOff(tail) && OneLine(content) && (if content == [] then tail == [] else !IsSpace(content[0]))
  }

  /** A text that starts with no space is cut off after its first unit, if it has one. */
  lemma {:induction false} DotStarStarts(t: Text)
    requires t != [] ==> !IsSpace(t[0])
    ensures t != [] ==> DotStar(t) != [] && DotStar(t)[0] == t[0]
  {}

  lemma {:induction false} Pieces(t: Text, a: nat, b: nat, c: nat)
    requires a <= b <= c <= |t|
    ensures t == t[..a] + t[a..b] + t[b..c] + t[c..]
  {}

  lemma {:induction false} LastPiece(t: Text, front: Text, content: Text, tail: Text)
    requires t == front + (content + tail)
    ensures t == front + content + tail
  {}

  /** A line of which a pattern took spaces, a marker up to `m` and spaces up to `e`, and the rest up to a terminator. */
  lemma {:induction false} ItemParts(line: Text, a: nat, m: nat, e: nat) returns (tail: Text)
    requires a < m < e <= |line| && AllSpace(line[..a]) && AllSpace(line[m..e]) && (e < |line| ==> !IsSpace(line[e]))
    ensures ReadsAsItem(line, line[..a], line[a..m], line[m..e], DotStar(line[e..]), tail)
  {
    hide DotStar, IsSpace;
    tail := DotStarCuts(line[e..]);
    DotStarStarts(line[e..]);
    Pieces(line, a, m, e);
    LastPiece(line, line[..a] + line[a..m] + line[m..e], DotStar(line[e..]), tail);
    assert line[e..] == DotStar(line[e..]) + tail;
  }

  lemma {:induction false} BulletParts(line: Text) returns (a: Text, u: CodeUnit, s: Text, tail: Text)
    requires MatchUnordered(line).Some?
    ensures var m := MatchUnordered(line).value;
            |a| == m.spaces && u in {45, 42, 0x2022} && ReadsAsItem(line, a, [u], s, m.content, tail)
  {
    hide SpaceRun, DotStar, IsSpace, ReadsAsItem;
    var n := SpaceRun(line);
    var e := n + 1 + SpaceRun(line[n + 1..]);
    a, u, s := line[..n], line[n], line[n + 1..e];
    assert line[n + 1..][..e - n - 1] == s && line[n..n + 1] == [u];
    tail := ItemParts(line, n, n + 1, e);
  }

  lemma {:induction false} NumberParts(line: Text) returns (a: Text, s: Text, tail: Text)
    requires MatchOrdered(line).Some?
    ensures var m := MatchOrdered(line).value;
            |a| == m.spaces && m.marker != [] && AllDecimal(m.marker) && ReadsAsItem(line, a, m.marker + [46], s, m.content, tail)
  {
    hide SpaceRun, DecimalRun, DotStar, IsSpace, ReadsAsItem;
    var n := SpaceRun(line);
    var d := n + DecimalRun(line[n..]);
    var e := d + 1 + SpaceRun(line[d + 1..]);
    DecimalRunDigits(line[n..]);
    assert line[n..][..d - n] == line[n..d];
    a, s := line[..n], line[d + 1..e];
    assert line[d + 1..][..e - d - 1] == s;
    assert line[n..d] + [line[d]] == line[n..d + 1];
    tail := ItemParts(line, n, d + 1, e);
  }

  lemma {:induction false} BulletKeepsText(key: nat, line: Text)
    requires MatchUnordered(line).Some?
    ensures var m := MatchUnordered(line).value;
            KeepsText(Bullet(key, m.spaces / 2, ParseInline(m.content)), line)
  {
    hide MatchUnordered, ReadsAsItem, Print, Canon, ParseInline;
    var a, u, s, tail := BulletParts(line);
    InlineParseIsCanonicalTree(MatchUnordered(line).value.content, ParseInline(MatchUnordered(line).value.content));
  }

  lemma {:induction false} NumberKeepsText(key: nat, line: Text)
    requires MatchOrdered(line).Some?
    ensures var m := MatchOrdered(line).value;
            KeepsText(Numbered(key, m.spaces / 2, m.marker, ParseInline(m.content)), line)
  {
    hide MatchOrdered, ReadsAsItem, Print, Canon, ParseInline;
    var a, s, tail := NumberParts(line);
    InlineParseIsCanonicalTree(MatchOrdered(line).value.content, ParseInline(MatchOrdered(line).value.content));
  }

  lemma {:induction false} ParagraphKeepsText(key: nat, line: Text)
    requires line != []
    ensures var n := SpaceRun(line);
            KeepsText(Paragraph(key, n / 2, ParseInline(if n == 0 then line else DotStar(line[n..]))), line)
  {
    hide SpaceRun, DotStar, Print, Canon, ParseInline;
    var n := SpaceRun(line);
    InlineParseIsCanonicalTree(line, ParseInline(line));
    InlineParseIsCanonicalTree(DotStar(line[n..]), ParseInline(DotStar(line[n..])));
    if n > 0 {
      var tail := DotStarCuts(line[n..]);
      DotStarStarts(line[n..]);
      assert line == line[..n] + [] + [] + DotStar(line[n..]) + tail;
      assert ReadsAsItem(line, line[..n], [], [], DotStar(line[n..]), tail);
    }
  }

  lemma {:induction false} HashesLength(n: nat)
    ensures |Hashes(n)| == n
  {}

  lemma {:induction false} PrefixSplits(t: Text, p: Text)
    requires StartsWith(t, p)
    ensures t == p + t[|p|..]
  {}

  lemma {:induction false} HeadingKeepsText(key: nat, line: Text, level: nat)
    requires 1 <= level <= 3 && StartsWith(Trim(line), Hashes(level) + [32])
    ensures KeepsText(Heading(key, level, ParseInline(Trim(line)[level + 1..])), line)
  {
    hide Trim, Print, Canon, ParseInline, Hashes;
    var t, mark := Trim(line), Hashes(level) + [32];
    HashesLength(level);
    InlineParseIsCanonicalTree(t[level + 1..], ParseInline(t[level + 1..]));
    PrefixSplits(t, mark);
  }

  lemma {:induction false} ElementKeepsText(key: nat, line: Text)
    ensures KeepsText(LineBlock(key, line), line)
  {
    hide Trim, KeepsText, MatchUnordered, MatchOrdered, SpaceRun, DotStar;
    assert U("# ") == Hashes(1) + [32] && U("## ") == Hashes(2) + [32] && U("### ") == Hashes(3) + [32];
    var t := Trim(line);
    if StartsWith(t, U("# ")) {
      HeadingKeepsText(key, line, 1);
    } else if StartsWith(t, U("## ")) {
      HeadingKeepsText(key, line, 2);
    } else if StartsWith(t, U("### ")) {
      HeadingKeepsText(key, line, 3);
    } else if MatchUnordered(line).Some? {
      BulletKeepsText(key, line);
    } else if MatchOrdered(line).Some? {
      NumberKeepsText(key, line);
    } else if t == [] {
      SpacerKeepsText(key, line);
    } else {
      TrimNothing(line);
      ParagraphKeepsText(key, line);
    }
  }

  lemma {:induction false} SpacerKeepsText(key: nat, line: Text)
    requires Trim(line) == []
    ensures KeepsText(Spacer(key), line)
  {
    TrimNothing(line);
  }

  // ---------------------------------------------------------------- which element a line becomes

  /** Trimmed, the line is `level` number signs, a space and a rest. */
  ghost predicate IsHeading(line: Text, level: nat) {
    exists rest :: Trim(line) == Hashes(level) + [32] + rest
  }

  ghost predicate IsAnyHeading(line: Text) {
    IsHeading(line, 1) || IsHeading(line, 2) || IsHeading(line, 3)
  }

  ghost predicate IsBullet(line: Text) {
    exists a, u, rest :: ReadsAsBullet(line, a, u, rest)
  }

  ghost predicate IsNumbered(line: Text) {
    exists a, d, rest :: ReadsAsNumber(line, a, d, rest)
  }

  /** The kind of an element agrees with what its line is, the first that applies. */
  ghost predicate KindOf(b: Block, line: Text) {
    && (forall n :: b.Heading? && b.level == n <==> 1 <= n <= 3 && IsHeading(line, n))
    && (b.Bullet? <==> !IsAnyHeading(line) && IsBullet(line))
    && (b.Numbered? <==> !IsAnyHeading(line) && !IsBullet(line) && IsNumbered(line))
    && (b.Spacer? <==> AllSpace(line))
    && (b.Paragraph? <==> !IsAnyHeading(line) && !IsBullet(line) && !IsNumbered(line) && !AllSpace(line))
  }

  lemma {:induction false} HeadingStarts(line: Text, level: nat)
    ensures IsHeading(line, level) <==> StartsWith(Trim(line), Hashes(level) + [32])
  {
    hide Trim, Hashes;
    var t, mark := Trim(line), Hashes(level) + [32];
    if StartsWith(t, mark) {
      PrefixSplits(t, mark);
    }
  }

  /** A line is a heading of one level at most. */
  lemma {:induction false} OneLevel(line: Text, n: nat, m: nat)
    requires IsHeading(line, n) && IsHeading(line, m)
    ensures n == m
  {
    hide Trim;
    var t := Trim(line);
    assert t[n] == 32 && t[m] == 32;
    assert forall i :: 0 <= i < n ==> t[i] == 35;
    assert forall i :: 0 <= i < m ==> t[i] == 35;
  }

  lemma {:induction false} SpaceAt(line: Text, i: nat)
    requires AllSpace(line) && i < |line|
    ensures IsSpace(line[i]) && line[i] !in {45, 42, 0x2022} && !(48 <= line[i] <= 57)
  {}

  lemma {:induction false} BlankIsNothingElse(line: Text)
    requires AllSpace(line)
    ensures !IsAnyHeading(line) && !IsBullet(line) && !IsNumbered(line)
  {
    hide Trim;
    TrimNothing(line);
    if a, u, rest :| ReadsAsBullet(line, a, u, rest) {
      SpaceAt(line, |a|);
    }
    if a, d, rest :| ReadsAsNumber(line, a, d, rest) {
      SpaceAt(line, |a|);
    }
  }

  /**
    What a line that is no fence becomes: a heading of the level its number signs give; otherwise a
    bullet item, otherwise a numbered item, if it reads as one; otherwise a spacer if it is all white
    space, and a paragraph if not.
   */
  lemma {:induction false} LineKind(key: nat, line: Text)
    ensures KindOf(LineBlock(key, line), line)
  {
    hide Trim, IsHeading, IsBullet, IsNumbered, MatchUnordered, MatchOrdered, SpaceRun, DotStar, ParseInline;
    assert U("# ") == Hashes(1) + [32] && U("## ") == Hashes(2) + [32] && U("### ") == Hashes(3) + [32];
    HeadingStarts(line, 1);
    HeadingStarts(line, 2);
    HeadingStarts(line, 3);
    forall n, m | IsHeading(line, n) && IsHeading(line, m) ensures n == m {
      OneLevel(line, n, m);
    }
    UnorderedKind(line);
    OrderedKind(line);
    TrimNothing(line);
    if AllSpace(line) {
      BlankIsNothingElse(line);
    }
  }

  lemma {:induction false} UnorderedKind(line: Text)
    ensures MatchUnordered(line).Some? <==> IsBullet(line)
  {
    UnorderedPattern(line);
  }

  lemma {:induction false} OrderedKind(line: Text)
    ensures MatchOrdered(line).Some? <==> IsNumbered(line)
  {
    OrderedPattern(line);
  }

  // ---------------------------------------------------------------- a partition of the lines

  /** The elements' keys, each followed by where its element ends, tile the lines from `i` on. */
  ghost predicate Tiles(bs: seq<Block>, lines: seq<Text>, i: nat)
    decreases |bs|
  {
    if bs == [] then i >= |lines|
    else i < |lines| && bs[0] == BlockAt(lines, i) && bs[0].key == i && Tiles(bs[1..], lines, Next(lines, i))
  }

  lemma {:induction false} BlocksTile(lines: seq<Text>, i: nat)
    ensures Tiles(Blocks(lines, i), lines, i)
    decreases |lines| - i
  {
    hide LineBlock;
    if i < |lines| {
      LineBlockKey(i, lines[i]);
      assert Blocks(lines, i)[1..] == Blocks(lines, Next(lines, i));
      BlocksTile(lines, Next(lines, i));
    }
  }

  lemma {:induction false} LineBlockKey(key: nat, line: Text)
    ensures LineBlock(key, line).key == key
  {}

  lemma {:induction false} TileKeys(bs: seq<Block>, lines: seq<Text>, i: nat)
    requires Tiles(bs, lines, i)
    ensures forall k :: 0 <= k < |bs| ==> i <= bs[k].key < |lines| && bs[k] == BlockAt(lines, bs[k].key)
    ensures forall k :: 0 <= k < |bs| - 1 ==> bs[k + 1].key == Next(lines, bs[k].key)
    ensures bs != [] ==> bs[0].key == i && Next(lines, bs[|bs| - 1].key) >= |lines|
    decreases |bs|
  {
    hide LineBlock, IsFence;
    if bs != [] {
      var rest := bs[1..];
      TileKeys(rest, lines, Next(lines, i));
      forall k | 0 <= k < |bs| ensures i <= bs[k].key < |lines| && bs[k] == BlockAt(lines, bs[k].key) {
        if k > 0 {
          assert bs[k] == rest[k - 1];
        }
      }
      forall k | 0 <= k < |bs| - 1 ensures bs[k + 1].key == Next(lines, bs[k].key) {
        assert bs[k + 1] == rest[k];
        if k > 0 {
          assert bs[k] == rest[k - 1];
        }
      }
    }
  }

  /** Trimmed, the line starts with three backticks. */
  ghost predicate OpensCode(line: Text) {
    exists rest :: Trim(line) == U("```") + rest
  }

  lemma {:induction false} FenceOpens(line: Text)
    ensures IsFence(line) <==> OpensCode(line)
  {
    hide Trim;
    var t := Trim(line);
    assert FENCE == U("```");
    if StartsWith(t, FENCE) {
      PrefixSplits(t, FENCE);
    }
  }

  /**
    The element is what the lines from `from` up to `end` make: a fence, with all the lines up to the
    next fence, as they are, for code, and that fence; any other line by itself.
   */
  ghost predicate Covers(b: Block, lines: seq<Text>, from: nat, end: nat)
    requires from < |lines|
  {
    if OpensCode(lines[from]) then
      && b.CodeBlock? && from + 1 < end <= |lines| + 1
      && b.code == JoinLines(lines[from + 1..end - 1])
      && (forall i :: from < i < end - 1 ==> !OpensCode(lines[i]))
      && (end <= |lines| ==> OpensCode(lines[end - 1]))
    else end == from + 1 && KindOf(b, lines[from]) && KeepsText(b, lines[from])
  }

  lemma {:induction false} BlockCovers(lines: seq<Text>, i: nat)
    requires i < |lines|
    ensures Covers(BlockAt(lines, i), lines, i, Next(lines, i))
  {
    hide Trim, LineBlock, KindOf, KeepsText, IsFence, OpensCode, JoinLines;
    forall k | 0 <= k < |lines| ensures IsFence(lines[k]) <==> OpensCode(lines[k]) {
      FenceOpens(lines[k]);
    }
    LineKind(i, lines[i]);
    ElementKeepsText(i, lines[i]);
  }

  /** Element `k` ends where the next one starts, or the last one not before the end of the lines. */
  ghost predicate EndsAt(bs: seq<Block>, k: nat, lines: seq<Text>, end: nat)
    requires k < |bs|
  {
    if k == |bs| - 1 then end >= |lines| else end == bs[k + 1].key
  }

  ghost predicate CoversItsLines(bs: seq<Block>, k: nat, lines: seq<Text>)
    requires k < |bs|
  {
    bs[k].key < |lines| && exists end :: Covers(bs[k], lines, bs[k].key, end) && EndsAt(bs, k, lines, end)
  }

  /**
    Partition: the elements start at line 0, each next one starts on the line after the last line
    of the one before, the last one reaches the end, and each is what its own lines make.
   */
  lemma {:induction false} ElementsPartitionLines(text: Text)
    requires text != []
    ensures var bs := ParseMarkdown(text);
            bs != [] && bs[0].key == 0 && forall k :: 0 <= k < |bs| ==> CoversItsLines(bs, k, SplitLines(text))
  {
    hide LineBlock, SplitLines, BlockAt, Next, Covers, CoversItsLines, IsFence;
    var lines, bs := SplitLines(text), ParseMarkdown(text);
    BlocksTile(lines, 0);
    TileKeys(bs, lines, 0);
    forall k | 0 <= k < |bs| ensures CoversItsLines(bs, k, lines) {
      OneCovers(bs, k, lines);
    }
  }

  lemma {:induction false} OneCovers(bs: seq<Block>, k: nat, lines: seq<Text>)
    requires k < |bs| && bs[k].key < |lines| && bs[k] == BlockAt(lines, bs[k].key)
    requires if k == |bs| - 1 then Next(lines, bs[k].key) >= |lines| else bs[k + 1].key == Next(lines, bs[k].key)
    ensures CoversItsLines(bs, k, lines)
  {
    hide BlockAt, Next, Covers;
    BlockCovers(lines, bs[k].key);
  }

  lemma {:induction false} NothingToParse()
    ensures ParseMarkdown([]) == []
  {}

  // ---------------------------------------------------------------- fences pair up

  function Fences(lines: seq<Text>): nat {
    if lines == [] then 0 else Fences(lines[..|lines| - 1]) + (if IsFence(lines[|lines| - 1]) then 1 else 0)
  }

  lemma {:induction false} FencesPush(lines: seq<Text>, i: nat)
    requires i < |lines|
    ensures Fences(lines[..i + 1]) == Fences(lines[..i]) + (if IsFence(lines[i]) then 1 else 0)
  {
    assert lines[..i + 1][..i] == lines[..i];
  }

  lemma {:induction false} FencesFlat(lines: seq<Text>, i: nat, j: nat)
    requires i <= j <= |lines| && forall k :: i <= k < j ==> !IsFence(lines[k])
    ensures Fences(lines[..j]) == Fences(lines[..i])
    decreases j - i
  {
    hide IsFence;
    if i < j {
      FencesPush(lines, j - 1);
      FencesFlat(lines, i, j - 1);
    }
  }

  lemma {:induction false} TileParity(bs: seq<Block>, lines: seq<Text>, i: nat, at: nat)
    requires Tiles(bs, lines, i) && i <= at < |lines|
    requires i <= |lines| && Fences(lines[..i]) % 2 == 0
    ensures (exists k :: 0 <= k < |bs| && bs[k].key == at) <==> Fences(lines[..at]) % 2 == 0
    decreases |bs|
  {
    hide LineBlock, IsFence, Fences;
    TileKeys(bs, lines, i);
    if at == i {
      assert bs[0].key == at;
    } else {
      var n, rest := Next(lines, i), bs[1..];
      FencesPush(lines, i);
      if at < n {
        FencesFlat(lines, i + 1, at);
        forall k | 0 <= k < |bs| ensures bs[k].key != at {
          if k > 0 {
            TileKeys(rest, lines, n);
            assert bs[k] == rest[k - 1];
          }
        }
      } else {
        NextIsEven(lines, i);
        TileParity(rest, lines, n, at);
        if k :| 0 <= k < |rest| && rest[k].key == at {
          assert bs[k + 1] == rest[k];
        }
        if k :| 0 <= k < |bs| && bs[k].key == at {
          assert k > 0;
          assert rest[k - 1] == bs[k];
        }
      }
    }
  }

  /** An element takes its fences with it. */
  lemma {:induction false} NextIsEven(lines: seq<Text>, i: nat)
    requires i < |lines| && Next(lines, i) <= |lines| && Fences(lines[..i]) % 2 == 0
    ensures Fences(lines[..Next(lines, i)]) % 2 == 0
  {
    hide IsFence;
    FencesPush(lines, i);
    if IsFence(lines[i]) {
      var close := FenceFrom(lines, i + 1);
      FencesFlat(lines, i + 1, close);
      FencesPush(lines, close);
    }
  }

  /**
    Fences pair up from the top: a line starts an element exactly when an even number of fences
    stands above it, so after an odd number a line is code or the fence that closes it.
   */
  lemma {:induction false} LineStartsElement(text: Text, at: nat)
    requires text != [] && at < |SplitLines(text)|
    ensures (exists k :: 0 <= k < |ParseMarkdown(text)| && ParseMarkdown(text)[k].key == at)
            <==> Fences(SplitLines(text)[..at]) % 2 == 0
  {
    hide LineBlock, IsFence, SplitLines;
    var lines := SplitLines(text);
    BlocksTile(lines, 0);
    assert lines[..0] == [];
    assert ParseMarkdown(text) == Blocks(lines, 0);
    TileParity(Blocks(lines, 0), lines, 0, at);
  }
}
