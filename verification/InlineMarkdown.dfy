/**
  `parseInline` of `MessageList.tsx`: bold, italic and code inside one line. The nodes remember
  their delimiters, which the rendered elements do not show, so that a tree can be printed back.
 */
module InlineMarkdown {
  import opened CodeUnits

  datatype Node = Plain(text: Text) | Code(text: Text) | Strong(delim: Text, parts: seq<Node>)

  const STAR: CodeUnit := 42
  const UNDERSCORE: CodeUnit := 95
  const BACKTICK: CodeUnit := 96
  const STARS: Text := [STAR, STAR]

  predicate Special(u: CodeUnit) {
    u == STAR || u == UNDERSCORE || u == BACKTICK
  }

  /** `p` occurs somewhere in `t`. */
  ghost predicate Occurs(t: Text, p: Text) {
    exists k: nat :: StartsAt(t, p, k)
  }

  lemma {:induction false} UnitAt(t: Text, u: CodeUnit, j: nat)
    ensures StartsAt(t, [u], j) <==> j < |t| && t[j] == u
  {
    if j < |t| {
      assert t[j..j + 1] == [t[j]];
    }
  }

  lemma {:induction false} StarsAt(t: Text, j: nat)
    ensures StartsAt(t, STARS, j) <==> j + 1 < |t| && t[j] == STAR && t[j + 1] == STAR
  {
    if j + 1 < |t| {
      assert t[j..j + 2] == [t[j], t[j + 1]];
    }
  }

  /** A slice of a suffix is a slice of the whole. */
  lemma {:induction false} SuffixSlice(t: Text, idx: nat, a: nat, b: nat)
    requires idx <= |t| && a <= b <= |t| - idx
    ensures t[idx..][a..b] == t[idx + a..idx + b] && t[idx..][b..] == t[idx + b..]
  {}

  /** `if (currentText) parts.push(currentText)` */
  function Flush(current: Text): seq<Node> {
    if current == [] then [] else [Plain(current)]
  }

  /** What the scanner finds at the head of a text: an element and where its closing delimiter is, or a unit. */
  datatype Token = CodeToken(close: nat) | StrongToken(delim: Text, close: nat) | Unclosed | Ordinary

  function Found(delim: Text, k: int): Token
    requires k >= -1
  {
    if k == -1 then Unclosed else StrongToken(delim, k)
  }

  /** An unclosed `**` falls through to the single star. */
  function Head(rest: Text): (t: Token)
    requires rest != []
    ensures t.CodeToken? ==> 1 <= t.close < |rest|
    ensures t.StrongToken? ==> 0 < |t.delim| <= t.close <= |rest| - |t.delim|
  {
    if rest[0] == BACKTICK then
      var k := IndexOf(rest, [BACKTICK], 1);
      if k == -1 then Unclosed else CodeToken(k)
    else if StartsWith(rest, STARS) && IndexOf(rest, STARS, 2) != -1 then StrongToken(STARS, IndexOf(rest, STARS, 2))
    else if rest[0] == STAR || rest[0] == UNDERSCORE then Found([rest[0]], IndexOf(rest, [rest[0]], 1))
    else Ordinary
  }

  /** The parts that the loop still has to push when `current` is pending and `rest` unread. */
  function Scan(current: Text, rest: Text): seq<Node>
    decreases |rest|
  {
    if rest == [] then Flush(current)
    else match Head(rest)
      case CodeToken(k) => Flush(current) + [Code(rest[1..k])] + Scan([], rest[k + 1..])
      case StrongToken(d, k) => Flush(current) + [Strong(d, Scan([], rest[|d|..k]))] + Scan([], rest[k + |d|..])
      case Unclosed => Flush(current) + Scan([rest[0]], rest[1..])
      case Ordinary => Scan(current + [rest[0]], rest[1..])
  }

  function ParseInline(line: Text): seq<Node> {
    Scan([], line)
  }

  // ---------------------------------------------------------------- the loop

  lemma {:induction false} IndexOfSuffix(t: Text, p: Text, from: nat, k: nat)
    requires p != [] && from <= |t|
    ensures IndexOf(t, p, from + k) == if IndexOf(t[from..], p, k) == -1 then -1 else from + IndexOf(t[from..], p, k)
    decreases |t| - from - k
  {
    if from + k < |t| {
      if from + k + |p| <= |t| {
        assert t[from..][k..k + |p|] == t[from + k..from + k + |p|];
      }
      IndexOfSuffix(t, p, from, k + 1);
    }
  }

  lemma {:induction false} ScanStep(current: Text, rest: Text)
    ensures rest == [] ==> Scan(current, rest) == Flush(current)
    ensures rest != [] ==> Head(rest).CodeToken? ==> var k := Head(rest).close;
      Scan(current, rest) == Flush(current) + [Code(rest[1..k])] + Scan([], rest[k + 1..])
    ensures rest != [] ==> Head(rest).StrongToken? ==> var d, k := Head(rest).delim, Head(rest).close;
      Scan(current, rest) == Flush(current) + [Strong(d, ParseInline(rest[|d|..k]))] + Scan([], rest[k + |d|..])
    ensures rest != [] ==> Head(rest).Unclosed? ==> Scan(current, rest) == Flush(current) + Scan([rest[0]], rest[1..])
    ensures rest != [] ==> Head(rest).Ordinary? ==> Scan(current, rest) == Scan(current + [rest[0]], rest[1..])
  {
    hide Head;
  }

  /** What the loop finds at `idx`, in the indices of the whole line. */
  function HeadAt(t: Text, idx: nat): (r: Token)
    requires idx < |t|
  {
    var u := t[idx];
    var code := IndexOf(t, [BACKTICK], idx + 1);
    var bold := IndexOf(t, STARS, idx + 2);
    if u == BACKTICK then (if code == -1 then Unclosed else CodeToken(code))
    else if StartsAt(t, STARS, idx) && bold != -1 then StrongToken(STARS, bold)
    else if u == STAR || u == UNDERSCORE then Found([u], IndexOf(t, [u], idx + 1))
    else Ordinary
  }

  lemma {:induction false} HeadAtSuffix(t: Text, idx: nat)
    requires idx < |t|
    ensures HeadAt(t, idx) == match Head(t[idx..])
      case CodeToken(close) => CodeToken(idx + close)
      case StrongToken(delim, close) => StrongToken(delim, idx + close)
      case other => other
  {
    var rest := t[idx..];
    IndexOfSuffix(t, [t[idx]], idx, 1);
    if StartsAt(t, STARS, idx) || StartsWith(rest, STARS) {
      assert t[idx..idx + 2] == rest[..2];
      IndexOfSuffix(t, STARS, idx, 2);
    }
  }

  /** One turn of the loop: what it pushes, and where it continues. */
  lemma {:induction false} Turn(t: Text, idx: nat, parts: seq<Node>, current: Text)
    requires idx < |t|
    ensures HeadAt(t, idx).CodeToken? ==> var k := HeadAt(t, idx).close;
      idx < k < |t| && parts + Scan(current, t[idx..]) == parts + Flush(current) + [Code(t[idx + 1..k])] + Scan([], t[k + 1..])
    ensures HeadAt(t, idx).StrongToken? ==> var d, k := HeadAt(t, idx).delim, HeadAt(t, idx).close;
      idx + |d| <= k <= |t| - |d|
      && parts + Scan(current, t[idx..]) == parts + Flush(current) + [Strong(d, ParseInline(t[idx + |d|..k]))] + Scan([], t[k + |d|..])
    ensures HeadAt(t, idx).Unclosed? ==>
      parts + Scan(current, t[idx..]) == parts + Flush(current) + Scan([t[idx]], t[idx + 1..])
    ensures HeadAt(t, idx).Ordinary? ==>
      parts + Scan(current, t[idx..]) == parts + Scan(current + [t[idx]], t[idx + 1..])
  {
    hide HeadAt, Head, Scan, Flush;
    var rest := t[idx..];
    HeadAtSuffix(t, idx);
    ScanStep(current, rest);
    match Head(rest)
    case CodeToken(k) =>
      SuffixSlice(t, idx, 1, k);
      SuffixSlice(t, idx, k + 1, k + 1);
    case StrongToken(d, k) =>
      SuffixSlice(t, idx, |d|, k);
      SuffixSlice(t, idx, k + |d|, k + |d|);
    case Unclosed => SuffixSlice(t, idx, 1, 1);
    case Ordinary => SuffixSlice(t, idx, 1, 1);
  }

  method ParseInlineLoop(lineText: Text) returns (parts: seq<Node>)
    ensures parts == ParseInline(lineText)
    decreases |lineText|
  {
    hide Scan, IndexOf, ParseInline;
    parts := [];
    var currentText: Text := [];
    var idx := 0;
    Entry(lineText);
    while idx < |lineText|
      invariant idx <= |lineText|
      invariant ParseInline(lineText) == parts + Scan(currentText, lineText[idx..])
      decreases |lineText| - idx
    {
      ghost var parts0, current0 := parts, currentText;
      Turn(lineText, idx, parts, currentText);
      if lineText[idx] == BACKTICK {
        parts, currentText := parts + Flush(currentText), [];
        assert parts == parts0 + Flush(current0);
        var nextBacktick := IndexOf(lineText, [BACKTICK], idx + 1);
        if nextBacktick != -1 {
          var codeContent := lineText[idx + 1..nextBacktick];
          parts := parts + [Code(codeContent)];
          idx := nextBacktick + 1;
          continue;
        }
      }
      if StartsAt(lineText, STARS, idx) {
        parts, currentText := parts + Flush(currentText), [];
        assert parts == parts0 + Flush(current0);
        var nextAsterisk := IndexOf(lineText, STARS, idx + 2);
        if nextAsterisk != -1 {
          var boldContent := lineText[idx + 2..nextAsterisk];
          var inner := ParseInlineLoop(boldContent);
          parts := parts + [Strong(STARS, inner)];
          idx := nextAsterisk + 2;
          continue;
        }
      }
      if lineText[idx] == STAR || lineText[idx] == UNDERSCORE {
        var delim := lineText[idx];
        parts, currentText := parts + Flush(currentText), [];
        assert parts == parts0 + Flush(current0);
        var nextChar := IndexOf(lineText, [delim], idx + 1);
        if nextChar != -1 {
          var italicContent := lineText[idx + 1..nextChar];
          var inner := ParseInlineLoop(italicContent);
          parts := parts + [Strong([delim], inner)];
          idx := nextChar + 1;
          continue;
        }
      }
      assert if HeadAt(lineText, idx).Unclosed? then parts == parts0 + Flush(current0) && currentText == []
             else HeadAt(lineText, idx).Ordinary? && parts == parts0 && currentText == current0;
      assert [] + [lineText[idx]] == [lineText[idx]];
      currentText := currentText + [lineText[idx]];
      idx := idx + 1;
    }
    assert lineText[idx..] == [];
    FinalFlush(parts, currentText);
    parts := parts + Flush(currentText);
  }

  lemma {:induction false} Entry(t: Text)
    ensures ParseInline(t) == [] + Scan([], t[0..])
  {
    assert t[0..] == t;
  }

  lemma {:induction false} FinalFlush(parts: seq<Node>, current: Text)
    ensures parts + Scan(current, []) == parts + Flush(current)
  {}

  // ---------------------------------------------------------------- printing back

  function PrintNode(n: Node): Text
    decreases n, 1
  {
    match n
    case Plain(t) => t
    case Code(t) => [BACKTICK] + t + [BACKTICK]
    case Strong(d, parts) => d + Print(parts) + d
  }

  function Print(parts: seq<Node>): Text
    decreases parts, 0
  {
    if parts == [] then [] else PrintNode(parts[0]) + Print(parts[1..])
  }

  lemma {:induction false} PrintSplits(a: seq<Node>, b: seq<Node>)
    ensures Print(a + b) == Print(a) + Print(b)
  {
    if a == [] {
      assert a + b == b;
    } else {
      assert (a + b)[1..] == a[1..] + b;
      PrintSplits(a[1..], b);
    }
  }

  lemma {:induction false} PrintOne(n: Node)
    ensures Print([n]) == PrintNode(n)
  {
    assert Print([n][1..]) == [];
  }

  lemma {:induction false} PrintFlush(current: Text, tail: seq<Node>)
    ensures Print(Flush(current) + tail) == current + Print(tail)
  {
    if current == [] {
      assert Flush(current) + tail == tail;
    } else {
      PrintOne(Plain(current));
      PrintSplits(Flush(current), tail);
    }
  }

  lemma {:induction false} PrintElement(current: Text, n: Node, tail: seq<Node>)
    ensures Print(Flush(current) + [n] + tail) == current + (PrintNode(n) + Print(tail))
  {
    assert Flush(current) + [n] + tail == Flush(current) + ([n] + tail);
    PrintFlush(current, [n] + tail);
    PrintOne(n);
    PrintSplits([n], tail);
  }

  lemma {:induction false} Cut(t: Text, a: nat, b: nat, c: nat)
    requires a <= b <= c <= |t|
    ensures t[..a] + t[a..b] + t[b..c] + t[c..] == t
  {}

  /** An element's delimiters stand around its content. */
  lemma {:induction false} CloserPrints(rest: Text, inner: seq<Node>)
    requires rest != []
    requires Head(rest).StrongToken? ==> Print(inner) == rest[|Head(rest).delim|..Head(rest).close]
    ensures Head(rest).CodeToken? ==> var k := Head(rest).close;
      PrintNode(Code(rest[1..k])) + rest[k + 1..] == rest
    ensures Head(rest).StrongToken? ==> var d, k := Head(rest).delim, Head(rest).close;
      PrintNode(Strong(d, inner)) + rest[k + |d|..] == rest
  {
    hide IndexOf, Print;
    match Head(rest)
    case CodeToken(k) => UnitAt(rest, BACKTICK, k);
    case StrongToken(d, k) =>
      assert rest[..|d|] == d && rest[k..k + |d|] == d by {
        UnitAt(rest, d[0], k);
      }
      Cut(rest, |d|, k, k + |d|);
    case _ =>
  }

  lemma {:induction false} ScanPrints(current: Text, rest: Text)
    ensures Print(Scan(current, rest)) == current + rest
    decreases |rest|
  {
    hide Head, Print, Flush, Scan, PrintNode;
    ScanStep(current, rest);
    if rest == [] {
      PrintFlush(current, []);
      PrintNothing();
      assert Flush(current) + [] == Flush(current);
    } else {
      match Head(rest)
      case CodeToken(k) =>
        ScanPrints([], rest[k + 1..]);
        CloserPrints(rest, []);
        assert [] + rest[k + 1..] == rest[k + 1..];
        PrintElement(current, Code(rest[1..k]), Scan([], rest[k + 1..]));
      case StrongToken(d, k) =>
        ScanPrints([], rest[|d|..k]);
        assert [] + rest[|d|..k] == rest[|d|..k];
        CloserPrints(rest, ParseInline(rest[|d|..k]));
        ScanPrints([], rest[k + |d|..]);
        assert [] + rest[k + |d|..] == rest[k + |d|..];
        PrintElement(current, Strong(d, ParseInline(rest[|d|..k])), Scan([], rest[k + |d|..]));
      case Unclosed =>
        ScanPrints([rest[0]], rest[1..]);
        assert [rest[0]] + rest[1..] == rest;
        PrintFlush(current, Scan([rest[0]], rest[1..]));
      case Ordinary =>
        ScanPrints(current + [rest[0]], rest[1..]);
        assert current + [rest[0]] + rest[1..] == current + rest;
    }
  }

  lemma {:induction false} PrintNothing()
    ensures Print([]) == []
  {}

  /** Nothing is lost: printing the tree with its delimiters restores the line, unmatched delimiters included. */
  lemma {:induction false} InlineRoundTrip(line: Text)
    ensures Print(ParseInline(line)) == line
  {
    ScanPrints([], line);
  }

  // ---------------------------------------------------------------- which trees are parses

  /**
    A tree as the parser builds it, told without the parser. An element's content is free of its
    own closing delimiter; a plain part holds a special unit only in front, when nothing later
    closes it; and a plain part starts with such a unit whenever another precedes it.
   */
  ghost predicate CanonNode(n: Node, after: Text)
    decreases n, 1
  {
    match n
    case Plain(t) =>
      && t != [] && (forall i :: 1 <= i < |t| ==> !Special(t[i]))
      && (Special(t[0]) ==> t[0] !in after)
    case Code(t) => BACKTICK !in t
    case Strong(d, parts) =>
      var content := Print(parts);
      && Canon(parts)
      && (|| (d == STARS && !Occurs(content + [STAR], STARS))
          || (d == [UNDERSCORE] && UNDERSCORE !in content)
          || (d == [STAR] && STAR !in content && (content == [] ==> !Occurs(after, STARS))))
  }

  ghost predicate Canon(parts: seq<Node>)
    decreases parts, 0
  {
    parts == []
    || (&& CanonNode(parts[0], Print(parts[1..]))
        && Canon(parts[1..])
        && (parts[0].Plain? ==> StartsApart(parts[1..])))
  }

  /** The parts do not start with text that would join a plain part before them. */
  ghost predicate StartsApart(parts: seq<Node>) {
    parts != [] && parts[0].Plain? && parts[0].text != [] ==> Special(parts[0].text[0])
  }

  // ---------------------------------------------------------------- parses are canonical

  /** The pending text is the start of a canonical plain part before `rest`. */
  ghost predicate Pending(current: Text, rest: Text) {
    && (forall i :: 1 <= i < |current| ==> !Special(current[i]))
    && (current != [] && Special(current[0]) ==> current[0] !in rest)
  }

  /** What follows pending text starts with it, or does not start with text that would join it. */
  lemma {:induction false} ScanStarts(current: Text, rest: Text)
    requires current != []
    ensures Scan(current, rest) != [] && Scan(current, rest)[0].Plain? && current <= Scan(current, rest)[0].text
    decreases |rest|
  {
    hide Head;
    if rest != [] && Head(rest).Ordinary? {
      ScanStarts(current + [rest[0]], rest[1..]);
    }
  }

  lemma {:induction false} FlushCanon(current: Text, tail: seq<Node>)
    requires Canon(tail) && Pending(current, Print(tail)) && (current != [] ==> StartsApart(tail))
    ensures Canon(Flush(current) + tail)
  {
    if current == [] {
      assert Flush(current) + tail == tail;
    } else {
      assert (Flush(current) + tail)[1..] == tail;
    }
  }

  lemma {:induction false} ElementCanon(current: Text, n: Node, tail: seq<Node>)
    requires !n.Plain? && CanonNode(n, Print(tail)) && Canon(tail) && Pending(current, PrintNode(n) + Print(tail))
    ensures Canon(Flush(current) + [n] + tail)
  {
    hide CanonNode, PrintNode, Flush;
    var rest := [n] + tail;
    assert rest[1..] == tail;
    assert Print(rest) == PrintNode(n) + Print(tail);
    assert Flush(current) + [n] + tail == Flush(current) + rest;
    FlushCanon(current, rest);
  }

  lemma {:induction false} FreeOf(t: Text, u: CodeUnit, from: nat, k: nat)
    requires from <= k <= |t|
    requires var r := IndexOf(t, [u], from); r == k || (r == -1 && k == |t|)
    ensures u !in t[from..k]
  {
    forall j | from <= j < k ensures t[j] != u {
      UnitAt(t, u, j);
    }
  }

  /** No `**` starts before the first one found, even one that overlaps it. */
  lemma {:induction false} FreeOfStars(t: Text, k: nat)
    requires k == IndexOf(t, STARS, 2)
    ensures 2 <= k && !Occurs(t[2..k] + [STAR], STARS)
  {
    hide IndexOf;
    StarsAt(t, k);
    var body := t[2..k] + [STAR];
    assert forall j :: 0 <= j < |body| ==> body[j] == t[2 + j];
    forall j: nat | StartsAt(body, STARS, j) ensures false {
      StarsAt(body, j);
      StarsAt(t, 2 + j);
    }
  }

  lemma {:induction false} NoStarsAfter(t: Text)
    requires |t| >= 2 && IndexOf(t, STARS, 2) == -1
    ensures !Occurs(t[2..], STARS)
  {
    hide IndexOf;
    forall j: nat | StartsAt(t[2..], STARS, j) ensures false {
      StarsAt(t[2..], j);
      StarsAt(t, 2 + j);
    }
  }

  /** The closing delimiter that the parser finds is the first, so the content is free of it. */
  lemma {:induction false} TokenCanon(rest: Text, inner: seq<Node>)
    requires rest != []
    requires Head(rest).StrongToken? ==> Canon(inner) && Print(inner) == rest[|Head(rest).delim|..Head(rest).close]
    ensures Head(rest).CodeToken? ==> CanonNode(Code(rest[1..Head(rest).close]), rest[Head(rest).close + 1..])
    ensures Head(rest).StrongToken? ==>
      CanonNode(Strong(Head(rest).delim, inner), rest[Head(rest).close + |Head(rest).delim|..])
    ensures Head(rest).Unclosed? ==> Pending([rest[0]], rest[1..])
  {
    hide IndexOf, Print, Canon;
    match Head(rest)
    case CodeToken(k) => FreeOf(rest, BACKTICK, 1, k);
    case StrongToken(d, k) =>
      if d == STARS {
        FreeOfStars(rest, k);
      } else {
        FreeOf(rest, d[0], 1, k);
        if d == [STAR] && k == 1 {
          UnitAt(rest, STAR, 1);
          assert rest[..2] == STARS;
          NoStarsAfter(rest);
        }
      }
    case Unclosed => FreeOf(rest, rest[0], 1, |rest|);
    case _ =>
  }

  lemma {:induction false} ScanCanon(current: Text, rest: Text)
    requires Pending(current, rest)
    ensures Canon(Scan(current, rest))
    decreases |rest|
  {
    hide Head, Print, Canon, CanonNode, Flush, Scan;
    ScanStep(current, rest);
    if rest == [] {
      CanonNothing();
      PrintNothing();
      FlushCanon(current, []);
      assert Flush(current) + [] == Flush(current);
    } else {
      match Head(rest)
      case CodeToken(k) =>
        var tail := ParseInline(rest[k + 1..]);
        ScanCanon([], rest[k + 1..]);
        InlineRoundTrip(rest[k + 1..]);
        TokenCanon(rest, []);
        CloserPrints(rest, []);
        ElementCanon(current, Code(rest[1..k]), tail);
      case StrongToken(d, k) =>
        var inner, tail := ParseInline(rest[|d|..k]), ParseInline(rest[k + |d|..]);
        ScanCanon([], rest[|d|..k]);
        InlineRoundTrip(rest[|d|..k]);
        ScanCanon([], rest[k + |d|..]);
        InlineRoundTrip(rest[k + |d|..]);
        TokenCanon(rest, inner);
        CloserPrints(rest, inner);
        ElementCanon(current, Strong(d, inner), tail);
      case Unclosed =>
        var tail := Scan([rest[0]], rest[1..]);
        TokenCanon(rest, []);
        ScanCanon([rest[0]], rest[1..]);
        ScanPrints([rest[0]], rest[1..]);
        ScanStarts([rest[0]], rest[1..]);
        UnclosedIsSpecial(rest);
        FlushCanon(current, tail);
      case Ordinary =>
        UnclosedIsSpecial(rest);
        ScanCanon(current + [rest[0]], rest[1..]);
    }
  }

  lemma {:induction false} UnclosedIsSpecial(rest: Text)
    requires rest != []
    ensures Head(rest).Unclosed? ==> Special(rest[0])
    ensures Head(rest).Ordinary? <==> !Special(rest[0])
  {}

  lemma {:induction false} CanonNothing()
    ensures Canon([])
  {}

  // ---------------------------------------------------------------- canonical trees are parses

  lemma {:induction false} FirstUnit(before: Text, u: CodeUnit, content: Text, after: Text)
    requires |before| == 1 && u !in content
    ensures IndexOf(before + content + [u] + after, [u], 1) == 1 + |content|
  {
    var t, k := before + content + [u] + after, 1 + |content|;
    UnitAt(t, u, k);
    forall j | 1 <= j < k ensures !StartsAt(t, [u], j) {
      assert t[j] == content[j - 1];
      UnitAt(t, u, j);
    }
  }

  lemma {:induction false} FirstStars(content: Text, after: Text)
    requires !Occurs(content + [STAR], STARS)
    ensures IndexOf(STARS + content + STARS + after, STARS, 2) == 2 + |content|
  {
    var t, k := STARS + content + STARS + after, 2 + |content|;
    hide IndexOf;
    StarsAt(t, k);
    var body := content + [STAR];
    forall j | 2 <= j < k ensures !StartsAt(t, STARS, j) {
      StarsAt(t, j);
      StarsAt(body, j - 2);
      assert body[j - 2] == t[j] && body[j - 1] == t[j + 1];
    }
  }

  lemma {:induction false} NoStarsFrom2(t: Text)
    requires |t| >= 2 && !Occurs(t[2..], STARS)
    ensures IndexOf(t, STARS, 2) == -1
  {
    hide IndexOf;
    var k := IndexOf(t, STARS, 2);
    if k != -1 {
      StarsAt(t, k);
      StarsAt(t[2..], k - 2);
    }
  }

  lemma {:induction false} CodeHead(c: Text, after: Text)
    requires BACKTICK !in c
    ensures Head([BACKTICK] + c + [BACKTICK] + after) == CodeToken(1 + |c|)
  {
    hide IndexOf;
    FirstUnit([BACKTICK], BACKTICK, c, after);
  }

  lemma {:induction false} StarsHead(content: Text, after: Text)
    requires !Occurs(content + [STAR], STARS)
    ensures Head(STARS + content + STARS + after) == StrongToken(STARS, 2 + |content|)
  {
    hide IndexOf;
    FirstStars(content, after);
    assert (STARS + content + STARS + after)[..2] == STARS;
  }

  lemma {:induction false} SingleHead(u: CodeUnit, content: Text, after: Text)
    requires u == STAR || u == UNDERSCORE
    requires u !in content && (u == STAR && content == [] ==> !Occurs(after, STARS))
    ensures Head([u] + content + [u] + after) == StrongToken([u], 1 + |content|)
  {
    hide IndexOf;
    var t := [u] + content + [u] + after;
    FirstUnit([u], u, content, after);
    if content != [] {
      assert t[1] == content[0];
    }
    if StartsWith(t, STARS) {
      assert t[..2][0] == STAR && t[..2][1] == STAR;
      assert t[2..] == after;
      NoStarsFrom2(t);
    }
  }

  /** The scanner finds the delimiter that a canonical element put there. */
  lemma {:induction false} CanonHead(n: Node, after: Text)
    requires CanonNode(n, after) && !n.Plain?
    ensures var t := PrintNode(n) + after;
            t != []
            && (n.Code? ==> Head(t) == CodeToken(1 + |n.text|))
            && (n.Strong? ==> n.delim != [] && Canon(n.parts) && Head(t) == StrongToken(n.delim, |n.delim| + |Print(n.parts)|))
  {
    hide Head, Canon, Print;
    match n
    case Code(c) => CodeHead(c, after);
    case Strong(d, parts) =>
      if d == STARS {
        StarsHead(Print(parts), after);
      } else {
        SingleHead(d[0], Print(parts), after);
      }
  }

  lemma {:induction false} OrdinaryRun(current: Text, run: Text, rest: Text)
    requires forall i :: 0 <= i < |run| ==> !Special(run[i])
    ensures Scan(current, run + rest) == Scan(current + run, rest)
    decreases |run|
  {
    hide Head;
    if run == [] {
      assert run + rest == rest && current + run == current;
    } else {
      var t := run + rest;
      assert t[0] == run[0] && t[1..] == run[1..] + rest;
      UnclosedIsSpecial(t);
      OrdinaryRun(current + [run[0]], run[1..], rest);
      assert current + [run[0]] + run[1..] == current + run;
    }
  }

  lemma {:induction false} LoneUnit(t: Text, after: Text)
    requires t != [] && Special(t[0]) && t[0] !in after && forall i :: 1 <= i < |t| ==> !Special(t[i])
    ensures Head(t + after).Unclosed?
  {
    var s := t + after;
    forall j | 1 <= j ensures !StartsAt(s, [t[0]], j) {
      UnitAt(s, t[0], j);
      if |t| <= j < |s| {
        assert s[j] == after[j - |t|];
      }
    }
    if StartsWith(s, STARS) {
      assert s[..2][1] == STAR && s[..2][0] == STAR;
      UnitAt(s, STAR, 1);
    }
  }

  lemma {:induction false} PlainScans(current: Text, text: Text, after: Text)
    requires CanonNode(Plain(text), after) && (current != [] ==> Special(text[0]))
    ensures Scan(current, text + after) == (if Special(text[0]) then Flush(current) else []) + Scan(text, after)
  {
    hide Head, Scan, Flush;
    var t := text + after;
    if Special(text[0]) {
      LoneUnit(text, after);
      ScanStep(current, t);
      assert t[1..] == text[1..] + after && [text[0]] + text[1..] == text;
      OrdinaryRun([text[0]], text[1..], after);
    } else {
      OrdinaryRun([], text, after);
      assert [] + text == text;
    }
  }

  lemma {:induction false} ElementScans(current: Text, n: Node, after: Text)
    requires CanonNode(n, after) && !n.Plain?
    requires n.Strong? ==> ParseInline(Print(n.parts)) == n.parts
    ensures Scan(current, PrintNode(n) + after) == Flush(current) + [n] + ParseInline(after)
  {
    hide Head, Scan, CanonNode, Flush, Print;
    var t := PrintNode(n) + after;
    CanonHead(n, after);
    ScanStep(current, t);
    match n
    case Code(c) => assert t[1..1 + |c|] == c && t[1 + |c| + 1..] == after;
    case Strong(d, inner) =>
      var k := |d| + |Print(inner)|;
      assert t[|d|..k] == Print(inner) && t[k + |d|..] == after;
  }

  lemma {:induction false} ScanOfPrint(current: Text, parts: seq<Node>)
    requires Canon(parts) && (current != [] ==> StartsApart(parts))
    ensures Scan(current, Print(parts)) == Flush(current) + parts
    decreases parts, |parts|
  {
    hide Head, Scan, CanonNode;
    ScanStep(current, Print(parts));
    if parts != [] {
      var n, rest := parts[0], parts[1..];
      var after := Print(rest);
      assert parts == [n] + rest;
      if n.Plain? {
        PlainNotEmpty(n.text, after);
        ScanOfPrint(n.text, rest);
        PlainScans(current, n.text, after);
      } else {
        ScanOfPrint([], rest);
        assert Flush([]) + rest == rest;
        if n.Strong? {
          InsideCanon(n, after);
          ScanOfPrint([], n.parts);
          assert Flush([]) + n.parts == n.parts;
        }
        ElementScans(current, n, after);
        assert Flush(current) + [n] + rest == Flush(current) + parts;
      }
    }
  }

  lemma {:induction false} InsideCanon(n: Node, after: Text)
    requires CanonNode(n, after) && n.Strong?
    ensures Canon(n.parts)
  {}

  lemma {:induction false} PlainNotEmpty(text: Text, after: Text)
    requires CanonNode(Plain(text), after)
    ensures text != []
  {}

  /**
    The parser decides every tie the one way: a tree is the parse of a line if and only if it
    prints that line and is canonical.
   */
  lemma {:induction false} InlineParseIsCanonicalTree(line: Text, parts: seq<Node>)
    ensures parts == ParseInline(line) <==> Print(parts) == line && Canon(parts)
  {
    ScanPrints([], line);
    ScanCanon([], line);
    if Print(parts) == line && Canon(parts) {
      ScanOfPrint([], parts);
    }
  }
}
