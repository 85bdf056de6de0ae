/** The grammar of RFC 8259 as syntax trees, and that `JSON.parse` accepts exactly the texts it derives. */
module JsonGrammar {
  import opened Wrappers
  import opened CodeUnits
  import opened JsonText

  // ---------------------------------------------------------------- syntax trees

  /** One unit of a string as it is written: by itself, or escaped. */
  datatype Written = Raw(unit: CodeUnit) | Short(letter: CodeUnit, unit: CodeUnit) | Long(digits: seq<CodeUnit>, unit: CodeUnit)

  datatype Tree =
    | Word(value: Json)
    | Number(lexeme: Text)
    | Quoted(units: seq<Written>)
    | Items(space: Text, items: seq<Spaced>)
    | Members(space: Text, members: seq<Pair>)

  datatype Spaced = Spaced(before: Text, tree: Tree, after: Text)

  datatype Pair = Pair(before: Text, key: seq<Written>, between: Text, value: Spaced)

  predicate IsBlankSpace(t: Text) {
    forall i :: 0 <= i < |t| ==> t[i] == 32 || t[i] == 9 || t[i] == 10 || t[i] == 13
  }

  /** The letters of the short escapes: quote, backslash, slash, b, f, n, r, t. */
  predicate ShortEscape(letter: CodeUnit, unit: CodeUnit) {
    || (letter in {34, 92, 47} && unit == letter)
    || (letter == 98 && unit == 8) || (letter == 102 && unit == 12) || (letter == 110 && unit == 10)
    || (letter == 114 && unit == 13) || (letter == 116 && unit == 9)
  }

  predicate IsHexDigit(u: CodeUnit, n: int) {
    (48 <= u <= 57 && n == u - 48) || (97 <= u <= 102 && n == u - 97 + 10) || (65 <= u <= 70 && n == u - 65 + 10)
  }

  ghost predicate Digits(t: Text) {
    t != [] && forall i :: 0 <= i < |t| ==> 48 <= t[i] <= 57
  }

  /** A point and digits, or nothing. */
  ghost predicate Fraction(t: Text) {
    t == [] || (t[0] == 46 && Digits(t[1..]))
  }

  /** An e, a sign or none, and digits; or nothing. */
  ghost predicate Exponent(t: Text) {
    t == [] || ((t[0] == 69 || t[0] == 101) && (Digits(t[1..]) || (|t| > 1 && (t[1] == 43 || t[1] == 45) && Digits(t[2..]))))
  }

  ghost predicate NumberParts(t: Text, minus: Text, whole: Text, frac: Text, exp: Text) {
    && t == minus + (whole + (frac + exp)) && (minus == [] || minus == [45])
    && Digits(whole) && (|whole| > 1 ==> whole[0] != 48) && Fraction(frac) && Exponent(exp)
  }

  /** number = [ minus ] int [ frac ] [ exp ], and the integer part has no leading zero. */
  ghost predicate IsNumberText(t: Text) {
    exists minus, whole, frac, exp :: NumberParts(t, minus, whole, frac, exp)
  }

  ghost predicate GoodUnit(w: Written) {
    match w
    case Raw(u) => u >= 32 && u != 34 && u != 92
    case Short(letter, u) => ShortEscape(letter, u)
    case Long(ds, u) => |ds| == 4 && exists a, b, c, d ::
      IsHexDigit(ds[0], a) && IsHexDigit(ds[1], b) && IsHexDigit(ds[2], c) && IsHexDigit(ds[3], d) && u == ((a * 16 + b) * 16 + c) * 16 + d
  }

  ghost predicate GoodUnits(ws: seq<Written>) {
    forall i :: 0 <= i < |ws| ==> GoodUnit(ws[i])
  }

  ghost predicate Good(t: Tree)
    decreases t, 0
  {
    match t
    case Word(v) => v.Null? || v.Bool?
    case Number(lexeme) => IsNumberText(lexeme)
    case Quoted(units) => GoodUnits(units)
    case Items(space, items) => IsBlankSpace(space) && forall i :: 0 <= i < |items| ==> GoodSpaced(items[i])
    case Members(space, members) => IsBlankSpace(space) && forall i :: 0 <= i < |members| ==> GoodPair(members[i])
  }

  ghost predicate GoodSpaced(s: Spaced)
    decreases s, 1
  {
    IsBlankSpace(s.before) && Good(s.tree) && IsBlankSpace(s.after)
  }

  ghost predicate GoodPair(p: Pair)
    decreases p, 2
  {
    IsBlankSpace(p.before) && GoodUnits(p.key) && IsBlankSpace(p.between) && GoodSpaced(p.value)
  }

  // ---------------------------------------------------------------- the text of a tree

  function UnitText(w: Written): Text {
    match w
    case Raw(u) => [u]
    case Short(letter, _) => [92, letter]
    case Long(ds, _) => [92, 117] + ds
  }

  function UnitsText(ws: seq<Written>): Text {
    if ws == [] then [] else UnitText(ws[0]) + UnitsText(ws[1..])
  }

  function QuotedText(ws: seq<Written>): Text {
    [34] + UnitsText(ws) + [34]
  }

  function WordText(v: Json): Text {
    match v
    case Null => U("null")
    case Bool(b) => if b then U("true") else U("false")
    case _ => []
  }

  function TreeText(t: Tree): Text
    decreases t, 0
  {
    match t
    case Word(v) => WordText(v)
    case Number(lexeme) => lexeme
    case Quoted(units) => QuotedText(units)
    case Items(space, items) => [91] + (if items == [] then space else ItemsText(items)) + [93]
    case Members(space, members) => [123] + (if members == [] then space else MembersText(members)) + [125]
  }

  function SpacedText(s: Spaced): Text
    decreases s, 1
  {
    s.before + TreeText(s.tree) + s.after
  }

  function PairText(p: Pair): Text
    decreases p, 2
  {
    p.before + QuotedText(p.key) + p.between + [58] + SpacedText(p.value)
  }

  function ItemsText(items: seq<Spaced>): Text
    decreases items, 0
  {
    if items == [] then []
    else if |items| == 1 then SpacedText(items[0])
    else SpacedText(items[0]) + [44] + ItemsText(items[1..])
  }

  function MembersText(members: seq<Pair>): Text
    decreases members, 0
  {
    if members == [] then []
    else if |members| == 1 then PairText(members[0])
    else PairText(members[0]) + [44] + MembersText(members[1..])
  }

  // ---------------------------------------------------------------- the value of a tree

  function UnitsValue(ws: seq<Written>): Text {
    if ws == [] then [] else [ws[0].unit] + UnitsValue(ws[1..])
  }

  function TreeValue(t: Tree): Json
    decreases t, 0
  {
    match t
    case Word(v) => v
    case Number(lexeme) => Num(lexeme)
    case Quoted(units) => Str(UnitsValue(units))
    case Items(_, items) => Arr(ItemsValue(items))
    case Members(_, members) => Obj(MembersValue(members))
  }

  function ItemsValue(items: seq<Spaced>): (vs: seq<Json>)
    ensures |vs| == |items|
    decreases items, 0
  {
    if items == [] then [] else [TreeValue(items[0].tree)] + ItemsValue(items[1..])
  }

  function MembersValue(members: seq<Pair>): (vs: seq<Member>)
    ensures |vs| == |members|
    decreases members, 0
  {
    if members == [] then []
    else [Member(UnitsValue(members[0].key), TreeValue(members[0].value.tree))] + MembersValue(members[1..])
  }

  lemma {:induction false} OneItem(one: Spaced)
    ensures ItemsText([one]) == SpacedText(one) && ItemsValue([one]) == [TreeValue(one.tree)]
  {
    hide TreeText, TreeValue;
    assert [one][1..] == [] && ItemsValue([]) == [];
  }

  lemma {:induction false} MoreItems(one: Spaced, more: seq<Spaced>)
    requires more != []
    ensures ItemsText([one] + more) == SpacedText(one) + [44] + ItemsText(more)
    ensures ItemsValue([one] + more) == [TreeValue(one.tree)] + ItemsValue(more)
  {
    hide TreeText, TreeValue;
    assert ([one] + more)[1..] == more;
  }

  lemma {:induction false} OneMember(one: Pair)
    ensures MembersText([one]) == PairText(one)
    ensures MembersValue([one]) == [Member(UnitsValue(one.key), TreeValue(one.value.tree))]
  {
    hide PairText, TreeValue, UnitsValue;
    assert [one][1..] == [] && MembersValue([]) == [];
  }

  lemma {:induction false} MoreMembers(one: Pair, more: seq<Pair>)
    requires more != []
    ensures MembersText([one] + more) == PairText(one) + [44] + MembersText(more)
    ensures MembersValue([one] + more) == [Member(UnitsValue(one.key), TreeValue(one.value.tree))] + MembersValue(more)
  {
    hide PairText, TreeValue, UnitsValue;
    assert ([one] + more)[1..] == more;
  }

  // ---------------------------------------------------------------- white space

  lemma {:induction false} SkipWsParts(s: Text) returns (space: Text)
    ensures IsBlankSpace(space) && s == space + SkipWs(s)
  {
    if s != [] && (s[0] == 32 || s[0] == 9 || s[0] == 10 || s[0] == 13) {
      space := SkipWsParts(s[1..]);
      space := [s[0]] + space;
    } else {
      space := [];
    }
  }

  lemma {:induction false} SkipWsIs(space: Text, s: Text)
    requires IsBlankSpace(space)
    ensures SkipWs(space + s) == SkipWs(s)
  {
    if space == [] {
      assert space + s == s;
    } else {
      assert (space + s)[1..] == space[1..] + s;
      SkipWsIs(space[1..], s);
    }
  }

  lemma {:induction false} SkipWsTwice(s: Text)
    ensures SkipWs(SkipWs(s)) == SkipWs(s)
  {
    if s != [] && (s[0] == 32 || s[0] == 9 || s[0] == 10 || s[0] == 13) {
      SkipWsTwice(s[1..]);
    }
  }

  /** The scanners see nothing of leading white space. */
  lemma {:induction false} LeadingBlank(space: Text, s: Text)
    requires IsBlankSpace(space)
    ensures SkipWs(space + s) == SkipWs(s)
    ensures ParseValue(space + s) == ParseValue(s)
    ensures ParseMember(space + s) == ParseMember(s)
    ensures ParseItems(space + s) == ParseItems(s)
    ensures ParseMembers(space + s) == ParseMembers(s)
  {
    hide ParseChars, IsNumber, NumRun;
    SkipWsIs(space, s);
  }

  // ---------------------------------------------------------------- numbers

  lemma {:induction false} DigitRunIs(d: Text, rest: Text)
    requires (forall i :: 0 <= i < |d| ==> 48 <= d[i] <= 57) && (rest == [] || !IsDigit(rest[0]))
    ensures DigitRun(d + rest) == |d|
  {
    if d == [] {
      assert d + rest == rest;
    } else {
      assert (d + rest)[1..] == d[1..] + rest;
      DigitRunIs(d[1..], rest);
    }
  }

  lemma {:induction false} DigitRunHolds(t: Text)
    ensures var n := DigitRun(t); (n < |t| ==> !IsDigit(t[n])) && forall i :: 0 <= i < n ==> 48 <= t[i] <= 57
  {
    if t != [] && IsDigit(t[0]) {
      DigitRunHolds(t[1..]);
    }
  }

  lemma {:induction false} AllDigits(d: Text)
    ensures d != [] && DigitRun(d) == |d| <==> Digits(d)
  {
    DigitRunHolds(d);
    if Digits(d) {
      DigitRunIs(d, []);
      assert d + [] == d;
    }
  }

  lemma {:induction false} ExponentIs(t: Text)
    ensures IsExponent(t) <==> Exponent(t)
  {
    hide DigitRun;
    if t != [] {
      AllDigits(t[1..]);
      if |t| > 1 {
        AllDigits(t[2..]);
        assert t[1] == t[1..][0];
      }
    }
  }

  /** What may follow digits: nothing, a point or an e. */
  predicate NoDigitFirst(t: Text) {
    t == [] || !IsDigit(t[0])
  }

  lemma {:induction false} FractionIs(frac: Text, exp: Text)
    requires Fraction(frac) && Exponent(exp)
    ensures IsFractionExponent(frac + exp) && NoDigitFirst(frac + exp)
  {
    hide DigitRun, IsExponent;
    ExponentIs(exp);
    if frac == [] {
      assert frac + exp == exp;
    } else {
      var d := frac[1..];
      assert (frac + exp)[1..] == d + exp;
      DigitRunIs(d, exp);
      assert (d + exp)[|d|..] == exp && (frac + exp)[1 + |d|..] == exp;
    }
  }

  lemma {:induction false} FractionParts(t: Text) returns (frac: Text, exp: Text)
    requires IsFractionExponent(t)
    ensures t == frac + exp && Fraction(frac) && Exponent(exp)
  {
    hide DigitRun, IsExponent;
    if t != [] && t[0] == 46 {
      var n := DigitRun(t[1..]);
      DigitRunHolds(t[1..]);
      frac, exp := t[..1 + n], t[1 + n..];
      assert frac[1..] == t[1..][..n];
    } else {
      frac, exp := [], t;
    }
    ExponentIs(exp);
  }

  ghost predicate Units(t: Text) {
    forall i :: 0 <= i < |t| ==> IsNumUnit(t[i])
  }

  lemma {:induction false} FractionUnits(t: Text)
    requires Fraction(t)
    ensures Units(t)
  {
    assert forall i :: 0 < i < |t| ==> t[i] == t[1..][i - 1];
  }

  lemma {:induction false} ExponentUnits(t: Text)
    requires Exponent(t)
    ensures Units(t)
  {
    if t != [] && Digits(t[1..]) {
      assert forall i :: 0 < i < |t| ==> t[i] == t[1..][i - 1];
    } else if t != [] {
      assert forall i :: 1 < i < |t| ==> t[i] == t[2..][i - 2];
    }
  }

  lemma {:induction false} NumberUnits(t: Text)
    requires IsNumberText(t)
    ensures t != [] && Units(t)
  {
    hide Fraction, Exponent, IsNumUnit;
    var minus, whole, frac, exp :| NumberParts(t, minus, whole, frac, exp);
    FractionUnits(frac);
    ExponentUnits(exp);
    WholeUnits(minus, whole);
  }

  lemma {:induction false} WholeUnits(minus: Text, whole: Text)
    requires (minus == [] || minus == [45]) && Digits(whole)
    ensures Units(minus) && Units(whole)
  {}

  lemma {:induction false} RunIsDigits(t: Text)
    requires DigitRun(t) > 0
    ensures Digits(t[..DigitRun(t)])
  {
    DigitRunHolds(t);
  }

  lemma {:induction false} NumberHasParts(t: Text)
    requires IsNumber(t)
    ensures IsNumberText(t)
  {
    hide DigitRun, IsFractionExponent, Fraction, Exponent, IsNumUnit, Digits;
    var minus := if t[0] == 45 then [45] else [];
    var m := t[|minus|..];
    var n := DigitRun(m);
    RunIsDigits(m);
    var frac, exp := FractionParts(m[n..]);
    assert t == minus + m && m == m[..n] + (frac + exp);
    assert NumberParts(t, minus, m[..n], frac, exp);
  }

  lemma {:induction false} PartsAreNumber(t: Text, minus: Text, whole: Text, frac: Text, exp: Text)
    requires NumberParts(t, minus, whole, frac, exp)
    ensures IsNumber(t)
  {
    hide DigitRun, IsFractionExponent, Fraction, Exponent, IsNumUnit;
    NumberUnits(t);
    FractionIs(frac, exp);
    var m := whole + (frac + exp);
    assert m[0] == whole[0];
    assert t[0] == (minus + m)[0] && t[|minus|..] == m;
    DigitRunIs(whole, frac + exp);
    assert m[|whole|..] == frac + exp;
  }

  /** The scanner's test for a number is the grammar's. */
  lemma {:induction false} NumberIsGrammar(t: Text)
    ensures IsNumber(t) <==> IsNumberText(t)
  {
    hide IsNumber, NumberParts;
    if IsNumber(t) {
      NumberHasParts(t);
    }
    if minus, whole, frac, exp :| NumberParts(t, minus, whole, frac, exp) {
      PartsAreNumber(t, minus, whole, frac, exp);
    }
  }

  // ---------------------------------------------------------------- every text of a tree is accepted

  lemma {:induction false} HexIsValue(u: CodeUnit, n: int)
    ensures IsHexDigit(u, n) <==> n >= 0 && HexValue(u) == n
  {}

  lemma {:induction false} UnitIsRead(w: Written, rest: Text)
    requires GoodUnit(w)
    ensures ParseUnit(UnitText(w) + rest) == Some((w.unit, |UnitText(w)|)) && UnitText(w)[0] != 34
  {
    hide HexValue, IsHexDigit;
    var s := UnitText(w) + rest;
    match w
    case Raw(u) =>
    case Short(letter, u) => assert s[1] == letter;
    case Long(ds, u) =>
      var a, b, c, d :| IsHexDigit(ds[0], a) && IsHexDigit(ds[1], b) && IsHexDigit(ds[2], c) && IsHexDigit(ds[3], d)
        && u == ((a * 16 + b) * 16 + c) * 16 + d;
      HexIsValue(ds[0], a);
      HexIsValue(ds[1], b);
      HexIsValue(ds[2], c);
      HexIsValue(ds[3], d);
      assert s[1] == 117 && s[2] == ds[0] && s[3] == ds[1] && s[4] == ds[2] && s[5] == ds[3];
  }

  lemma {:induction false} UnitsAreRead(ws: seq<Written>, rest: Text)
    requires GoodUnits(ws)
    ensures ParseChars(UnitsText(ws) + [34] + rest) == Some((UnitsValue(ws), rest))
  {
    hide ParseUnit, GoodUnit;
    var s := UnitsText(ws) + [34] + rest;
    if ws == [] {
      assert s == [34] + rest && s[1..] == rest;
    } else {
      var tail := UnitsText(ws[1..]) + [34] + rest;
      assert s == UnitText(ws[0]) + tail;
      UnitIsRead(ws[0], tail);
      assert s[0] == UnitText(ws[0])[0] && s[|UnitText(ws[0])|..] == tail;
      UnitsAreRead(ws[1..], rest);
    }
  }

  lemma {:induction false} WordIsRead(v: Json, rest: Text)
    requires v.Null? || v.Bool?
    ensures ParseValue(WordText(v) + rest) == Some((v, rest))
  {
    assert WordText(v) == Dumps(v);
    WordRoundTrip(v, rest);
  }

  lemma {:induction false} QuotedIsRead(ws: seq<Written>, rest: Text)
    requires GoodUnits(ws)
    ensures ParseValue(QuotedText(ws) + rest) == Some((Str(UnitsValue(ws)), rest))
  {
    hide ParseChars, ParseItems, ParseMembers, IsNumber, NumRun, UnitsText, GoodUnits;
    var s := QuotedText(ws) + rest;
    assert SkipWs(s) == s && s[1..] == UnitsText(ws) + [34] + rest;
    UnitsAreRead(ws, rest);
  }

  /** A good tree's text starts with a unit that no scanner skips or takes for a closing bracket. */
  lemma {:induction false} TreeHead(t: Tree)
    requires Good(t)
    ensures TreeText(t) != [] && TreeText(t)[0] !in {32, 9, 10, 13, CLOSEARR}
  {
    if t.Number? {
      NumberUnits(t.lexeme);
    }
  }

  lemma {:induction false} TreeIsRead(t: Tree, rest: Text)
    requires Good(t) && Follows(rest)
    ensures ParseValue(TreeText(t) + rest) == Some((TreeValue(t), rest))
    decreases t, 0
  {
    hide ParseValue, ParseItems, ParseMembers, IsNumber, IsNumberText, ItemsText, MembersText, GoodSpaced, GoodPair;
    match t
    case Word(v) => WordIsRead(v, rest);
    case Number(lexeme) =>
      NumberIsGrammar(lexeme);
      NumberRoundTrip(lexeme, rest);
    case Quoted(units) => QuotedIsRead(units, rest);
    case Items(space, items) => ItemsTreeIsRead(space, items, rest);
    case Members(space, members) => MembersTreeIsRead(space, members, rest);
  }

  lemma {:induction false} OpenBracket(inner: Text, stripped: Text)
    requires SkipWs(inner) == stripped && stripped != []
    ensures stripped[0] == CLOSEARR ==> ParseValue([OPENARR] + inner) == Some((Arr([]), stripped[1..]))
    ensures stripped[0] != CLOSEARR && ParseItems(stripped).Some? ==>
      ParseValue([OPENARR] + inner) == Some((Arr(ParseItems(stripped).value.0), ParseItems(stripped).value.1))
    ensures stripped[0] == CLOSEOBJ ==> ParseValue([OPENOBJ] + inner) == Some((Obj([]), stripped[1..]))
    ensures stripped[0] != CLOSEOBJ && ParseMembers(stripped).Some? ==>
      ParseValue([OPENOBJ] + inner) == Some((Obj(ParseMembers(stripped).value.0), ParseMembers(stripped).value.1))
  {
    hide ParseChars, ParseItems, ParseMembers, IsNumber, NumRun;
    var t, u := [OPENARR] + inner, [OPENOBJ] + inner;
    assert SkipWs(t) == t && t[1..] == inner && SkipWs(u) == u && u[1..] == inner;
  }

  lemma {:induction false} ItemsTreeIsRead(space: Text, items: seq<Spaced>, rest: Text)
    requires IsBlankSpace(space) && forall i :: 0 <= i < |items| ==> GoodSpaced(items[i])
    ensures ParseValue([91] + (if items == [] then space else ItemsText(items)) + [93] + rest) == Some((Arr(ItemsValue(items)), rest))
    decreases items, 3
  {
    hide ParseValue, ParseItems, ParseMembers, GoodSpaced, ItemsText, SkipWs;
    var close := [93] + rest;
    var inner := (if items == [] then space else ItemsText(items)) + close;
    assert [91] + (if items == [] then space else ItemsText(items)) + [93] + rest == [OPENARR] + inner;
    if items == [] {
      LeadingBlank(space, close);
      SkipNothing(close);
      assert close[1..] == rest;
    } else {
      ItemsAreRead(items, rest);
      ItemsSkip(inner);
    }
    OpenBracket(inner, SkipWs(inner));
  }

  lemma {:induction false} ItemsSkip(s: Text)
    ensures ParseItems(SkipWs(s)) == ParseItems(s)
  {
    hide ParseItems;
    var space := SkipWsParts(s);
    LeadingBlank(space, SkipWs(s));
  }

  lemma {:induction false} ItemsStart(one: Spaced, tail: Text)
    requires GoodSpaced(one)
    ensures var s := SkipWs(SpacedText(one) + tail); s != [] && s[0] != CLOSEARR
  {
    hide TreeText, SkipWs, Good, IsBlankSpace;
    TreeHead(one.tree);
    var body := TreeText(one.tree) + (one.after + tail);
    assert SpacedText(one) + tail == one.before + body && body[0] == TreeText(one.tree)[0];
    SkipWsIs(one.before, body);
    SkipNothing(body);
  }

  lemma {:induction false} BlankFollows(space: Text, rest: Text)
    requires IsBlankSpace(space) && rest != [] && rest[0] in {44, 93, 125}
    ensures Follows(space + rest)
  {}

  lemma {:induction false} ItemsStep(s: Text, v: Json, after: Text)
    requires ParseValue(s) == Some((v, after)) && SkipWs(after) != []
    ensures var t := SkipWs(after);
            && (t[0] == 93 ==> ParseItems(s) == Some(([v], t[1..])))
            && (t[0] == 44 && ParseItems(t[1..]).Some? ==>
                  ParseItems(s) == Some(([v] + ParseItems(t[1..]).value.0, ParseItems(t[1..]).value.1)))
  {
    hide ParseValue, SkipWs;
  }

  lemma {:induction false} MembersStep(s: Text, m: Member, after: Text)
    requires ParseMember(s) == Some((m, after)) && SkipWs(after) != []
    ensures var t := SkipWs(after);
            && (t[0] == 125 ==> ParseMembers(s) == Some(([m], t[1..])))
            && (t[0] == 44 && ParseMembers(t[1..]).Some? ==>
                  ParseMembers(s) == Some(([m] + ParseMembers(t[1..]).value.0, ParseMembers(t[1..]).value.1)))
  {
    hide ParseMember, SkipWs;
  }

  /** Units other than white space stop the scanner. */
  lemma {:induction false} SkipNothing(s: Text)
    requires s != [] && s[0] !in {32, 9, 10, 13}
    ensures SkipWs(s) == s
  {}

  lemma {:induction false} ItemIsRead(s: Spaced, next: Text)
    requires GoodSpaced(s) && next != [] && next[0] in {44, 93}
    ensures var text, v := SpacedText(s) + next, TreeValue(s.tree);
            && (next[0] == 93 ==> ParseItems(text) == Some(([v], next[1..])))
            && (next[0] == 44 && ParseItems(next[1..]).Some? ==>
                  ParseItems(text) == Some(([v] + ParseItems(next[1..]).value.0, ParseItems(next[1..]).value.1)))
    decreases s, 1
  {
    hide ParseValue, ParseItems, SkipWs, Good, TreeText, TreeValue, Follows;
    var after := s.after + next;
    var body := TreeText(s.tree) + after;
    assert SpacedText(s) + next == s.before + body;
    LeadingBlank(s.before, body);
    BlankFollows(s.after, next);
    TreeIsRead(s.tree, after);
    LeadingBlank(s.after, next);
    SkipNothing(next);
    ItemsStep(body, TreeValue(s.tree), after);
  }

  lemma {:induction false} ItemsAreRead(items: seq<Spaced>, rest: Text)
    requires items != [] && forall i :: 0 <= i < |items| ==> GoodSpaced(items[i])
    ensures ParseItems(ItemsText(items) + ([93] + rest)) == Some((ItemsValue(items), rest))
    ensures var s := SkipWs(ItemsText(items) + ([93] + rest)); s != [] && s[0] != CLOSEARR
    decreases items, 1
  {
    hide ParseItems, SkipWs, GoodSpaced, SpacedText, TreeValue, ItemsText, ItemsValue;
    var one, more, close := items[0], items[1..], [93] + rest;
    assert items == [one] + more;
    if more == [] {
      OneItem(one);
      assert close[1..] == rest && items == [one];
      ItemIsRead(one, close);
      ItemsStart(one, close);
    } else {
      MoreItems(one, more);
      ItemsAreRead(more, rest);
      var next := [44] + (ItemsText(more) + close);
      assert ItemsText(items) + close == SpacedText(one) + next && next[1..] == ItemsText(more) + close;
      ItemIsRead(one, next);
      ItemsStart(one, next);
    }
  }

  /** How a member is put together. */
  lemma {:induction false} MemberStep(t: Text, key: Text, after: Text, v: Json, rest: Text)
    requires t != [] && t[0] == 34 && ParseChars(t[1..]) == Some((key, after))
    requires var c := SkipWs(after); c != [] && c[0] == 58 && ParseValue(c[1..]) == Some((v, rest))
    ensures ParseMember(t) == Some((Member(key, v), rest))
  {
    hide ParseValue, ParseChars;
    assert SkipWs(t) == t;
  }

  lemma {:induction false} PairIsRead(p: Pair, rest: Text)
    requires GoodPair(p) && rest != [] && rest[0] in {44, 125}
    ensures ParseMember(PairText(p) + rest) == Some((Member(UnitsValue(p.key), TreeValue(p.value.tree)), p.value.after + rest))
    decreases p, 1
  {
    hide ParseValue, ParseChars, ParseMember, SkipWs, Good, TreeText, TreeValue, UnitsText, UnitsValue, GoodUnits, IsBlankSpace, Follows;
    var v := p.value;
    var after := v.after + rest;
    var valueText := TreeText(v.tree) + after;
    var colon := [58] + (v.before + valueText);
    var tail := p.between + colon;
    var quoted := [34] + (UnitsText(p.key) + [34] + tail);
    assert PairText(p) + rest == p.before + quoted;
    LeadingBlank(p.before, quoted);
    assert quoted[1..] == UnitsText(p.key) + [34] + tail;
    UnitsAreRead(p.key, tail);
    LeadingBlank(p.between, colon);
    SkipNothing(colon);
    assert colon[1..] == v.before + valueText;
    LeadingBlank(v.before, valueText);
    BlankFollows(v.after, rest);
    TreeIsRead(v.tree, after);
    MemberStep(quoted, UnitsValue(p.key), tail, TreeValue(v.tree), after);
  }

  lemma {:induction false} MembersStart(p: Pair, tail: Text)
    requires GoodPair(p)
    ensures var s := SkipWs(PairText(p) + tail); s != [] && s[0] == QUOTE
  {
    hide TreeText, UnitsText, SkipWs, GoodUnits, GoodSpaced, IsBlankSpace;
    var body := [34] + (UnitsText(p.key) + [34] + p.between + [58] + SpacedText(p.value) + tail);
    assert PairText(p) + tail == p.before + body;
    SkipWsIs(p.before, body);
    SkipNothing(body);
  }

  lemma {:induction false} MembersTreeIsRead(space: Text, members: seq<Pair>, rest: Text)
    requires IsBlankSpace(space) && forall i :: 0 <= i < |members| ==> GoodPair(members[i])
    ensures ParseValue([123] + (if members == [] then space else MembersText(members)) + [125] + rest)
            == Some((Obj(MembersValue(members)), rest))
    decreases members, 3
  {
    hide ParseValue, ParseItems, ParseMembers, GoodPair, MembersText, SkipWs;
    var close := [125] + rest;
    var inner := (if members == [] then space else MembersText(members)) + close;
    assert [123] + (if members == [] then space else MembersText(members)) + [125] + rest == [OPENOBJ] + inner;
    if members == [] {
      LeadingBlank(space, close);
      SkipNothing(close);
      assert close[1..] == rest;
    } else {
      MembersAreRead(members, rest);
      MembersSkip(inner);
    }
    OpenBracket(inner, SkipWs(inner));
  }

  lemma {:induction false} MembersSkip(s: Text)
    ensures ParseMembers(SkipWs(s)) == ParseMembers(s)
  {
    hide ParseMembers;
    var space := SkipWsParts(s);
    LeadingBlank(space, SkipWs(s));
  }

  lemma {:induction false} MemberIsRead(p: Pair, next: Text)
    requires GoodPair(p) && next != [] && next[0] in {44, 125}
    ensures var text, m := PairText(p) + next, Member(UnitsValue(p.key), TreeValue(p.value.tree));
            && (next[0] == 125 ==> ParseMembers(text) == Some(([m], next[1..])))
            && (next[0] == 44 && ParseMembers(next[1..]).Some? ==>
                  ParseMembers(text) == Some(([m] + ParseMembers(next[1..]).value.0, ParseMembers(next[1..]).value.1)))
    decreases p, 2
  {
    hide ParseMember, ParseMembers, SkipWs, PairText, Good, TreeValue, UnitsValue;
    PairIsRead(p, next);
    LeadingBlank(p.value.after, next);
    SkipNothing(next);
    MembersStep(PairText(p) + next, Member(UnitsValue(p.key), TreeValue(p.value.tree)), p.value.after + next);
  }

  lemma {:induction false} MembersAreRead(members: seq<Pair>, rest: Text)
    requires members != [] && forall i :: 0 <= i < |members| ==> GoodPair(members[i])
    ensures ParseMembers(MembersText(members) + ([125] + rest)) == Some((MembersValue(members), rest))
    ensures var s := SkipWs(MembersText(members) + ([125] + rest)); s != [] && s[0] == QUOTE
    decreases members, 1
  {
    hide ParseMembers, SkipWs, GoodPair, PairText, TreeValue, UnitsValue, MembersText, MembersValue;
    var one, more, close := members[0], members[1..], [125] + rest;
    assert members == [one] + more;
    if more == [] {
      OneMember(one);
      assert close[1..] == rest && members == [one];
      MemberIsRead(one, close);
      MembersStart(one, close);
    } else {
      MoreMembers(one, more);
      MembersAreRead(more, rest);
      var next := [44] + (MembersText(more) + close);
      assert MembersText(members) + close == PairText(one) + next && next[1..] == MembersText(more) + close;
      MemberIsRead(one, next);
      MembersStart(one, next);
    }
  }

  // ---------------------------------------------------------------- every accepted text is that of a tree

  lemma {:induction false} ReadUnit(s: Text) returns (w: Written)
    requires ParseUnit(s).Some?
    ensures GoodUnit(w) && w.unit == ParseUnit(s).value.0 && |UnitText(w)| == ParseUnit(s).value.1 && s == UnitText(w) + s[|UnitText(w)|..]
  {
    if s[0] != BACKSLASH {
      w := Raw(s[0]);
    } else if SimpleEscape(s[1]).Some? {
      w := Short(s[1], SimpleEscape(s[1]).value);
    } else {
      w := Long(s[2..6], ParseUnit(s).value.0);
      HexIsValue(s[2], HexValue(s[2]));
      HexIsValue(s[3], HexValue(s[3]));
      HexIsValue(s[4], HexValue(s[4]));
      HexIsValue(s[5], HexValue(s[5]));
    }
  }

  lemma {:induction false} ReadUnits(s: Text) returns (ws: seq<Written>)
    requires ParseChars(s).Some?
    ensures var (value, rest) := ParseChars(s).value;
            GoodUnits(ws) && UnitsValue(ws) == value && s == UnitsText(ws) + [34] + rest
    decreases |s|
  {
    hide ParseUnit, GoodUnit;
    if s[0] == QUOTE {
      ws := [];
    } else {
      var w := ReadUnit(s);
      var n := |UnitText(w)|;
      var more := ReadUnits(s[n..]);
      ws := [w] + more;
      assert ws[1..] == more;
    }
  }

  /** The value read at the head of a text, with the white space before it. */
  lemma {:induction false} ReadTree(s: Text) returns (before: Text, t: Tree)
    requires ParseValue(s).Some?
    ensures var (value, rest) := ParseValue(s).value;
            IsBlankSpace(before) && Good(t) && TreeValue(t) == value && s == before + TreeText(t) + rest
    decreases |s|, 1
  {
    hide ParseValue, SkipWs, Good, TreeText, TreeValue;
    SkipWsTwice(s);
    SkippedValue(s);
    NothingIsNoValue();
    before := SkipWsParts(s);
    var u := SkipWs(s);
    if u[0] == QUOTE {
      t := ReadString(u);
    } else if u[0] == OPENARR {
      t := ReadArray(u);
    } else if u[0] == OPENOBJ {
      t := ReadObject(u);
    } else {
      t := ReadScalar(u);
    }
  }

  /** A word or a number. */
  lemma {:induction false} ReadScalar(u: Text) returns (t: Tree)
    requires u != [] && u[0] !in {QUOTE, OPENARR, OPENOBJ} && SkipWs(u) == u && ParseValue(u).Some?
    ensures Good(t) && TreeValue(t) == ParseValue(u).value.0 && u == TreeText(t) + ParseValue(u).value.1
    decreases |u|, 0
  {
    hide ParseChars, ParseItems, ParseMembers, IsNumber, IsNumberText, NumRun, SkipWs;
    if StartsWith(u, U("null")) {
      t := Word(Null);
    } else if StartsWith(u, U("true")) {
      t := Word(Bool(true));
    } else if StartsWith(u, U("false")) {
      t := Word(Bool(false));
    } else {
      t := Number(u[..NumRun(u)]);
      NumberIsGrammar(u[..NumRun(u)]);
    }
  }

  lemma {:induction false} ReadString(u: Text) returns (t: Tree)
    requires u != [] && u[0] == QUOTE && SkipWs(u) == u && ParseValue(u).Some?
    ensures Good(t) && TreeValue(t) == ParseValue(u).value.0 && u == TreeText(t) + ParseValue(u).value.1
  {
    hide ParseChars, ParseItems, ParseMembers, IsNumber, NumRun, SkipWs, UnitsText, UnitsValue, GoodUnits;
    var units := ReadUnits(u[1..]);
    t := Quoted(units);
  }

  lemma {:induction false} NothingIsNoValue()
    ensures ParseValue([]) == None
  {}

  lemma {:induction false} SkippedValue(s: Text)
    ensures ParseValue(SkipWs(s)) == ParseValue(s)
  {
    hide ParseValue, SkipWs;
    var space := SkipWsParts(s);
    LeadingBlank(space, SkipWs(s));
  }

  /** How a bracketed value was read. */
  lemma {:induction false} BracketRead(u: Text)
    requires u != [] && (u[0] == OPENARR || u[0] == OPENOBJ) && ParseValue(u).Some?
    ensures var inner := SkipWs(u[1..]);
            if u[0] == OPENARR then
              if inner != [] && inner[0] == CLOSEARR then ParseValue(u).value == (Arr([]), inner[1..])
              else ParseItems(inner).Some? && ParseValue(u).value == (Arr(ParseItems(inner).value.0), ParseItems(inner).value.1)
            else
              if inner != [] && inner[0] == CLOSEOBJ then ParseValue(u).value == (Obj([]), inner[1..])
              else ParseMembers(inner).Some? && ParseValue(u).value == (Obj(ParseMembers(inner).value.0), ParseMembers(inner).value.1)
  {
    hide ParseChars, ParseItems, ParseMembers, IsNumber, NumRun;
    assert SkipWs(u) == u;
  }

  lemma {:induction false} ReadArray(u: Text) returns (t: Tree)
    requires u != [] && u[0] == OPENARR && SkipWs(u) == u && ParseValue(u).Some?
    ensures t.Items? && Good(t) && TreeValue(t) == ParseValue(u).value.0 && u == TreeText(t) + ParseValue(u).value.1
    decreases |u|, 0
  {
    hide ParseValue, ParseItems, SkipWs, ItemsText, ItemsValue, GoodSpaced;
    var space := SkipWsParts(u[1..]);
    var inner := SkipWs(u[1..]);
    assert u == [91] + space + inner;
    BracketRead(u);
    if inner != [] && inner[0] == CLOSEARR {
      t := Items(space, []);
      assert inner == [93] + inner[1..];
    } else {
      var items := ReadItems(inner);
      Prefixed(space, items);
      var all := [items[0].(before := space + items[0].before)] + items[1..];
      t := Items([], all);
      assert u == [91] + ItemsText(all) + [93] + ParseItems(inner).value.1;
    }
  }

  /** More white space before the first item. */
  lemma {:induction false} Prefixed(space: Text, items: seq<Spaced>)
    requires IsBlankSpace(space) && items != [] && forall i :: 0 <= i < |items| ==> GoodSpaced(items[i])
    ensures var more := [items[0].(before := space + items[0].before)] + items[1..];
            && (forall i :: 0 <= i < |more| ==> GoodSpaced(more[i]))
            && ItemsText(more) == space + ItemsText(items) && ItemsValue(more) == ItemsValue(items)
  {
    hide TreeText, TreeValue, Good;
    var first := items[0].(before := space + items[0].before);
    var more := [first] + items[1..];
    assert more[1..] == items[1..];
    assert SpacedText(first) == space + SpacedText(items[0]);
  }

  /** How the items were read. */
  lemma {:induction false} ItemsRead(s: Text)
    requires ParseItems(s).Some?
    ensures ParseValue(s).Some?
    ensures var (v, after) := ParseValue(s).value;
            var t, r := SkipWs(after), ParseItems(s).value;
            && t != [] && (t[0] == 93 || t[0] == 44)
            && (t[0] == 93 ==> r == ([v], t[1..]))
            && (t[0] == 44 ==> ParseItems(t[1..]).Some? && r == ([v] + ParseItems(t[1..]).value.0, ParseItems(t[1..]).value.1))
  {
    hide ParseValue, SkipWs;
  }

  lemma {:induction false} ReadItems(s: Text) returns (items: seq<Spaced>)
    requires ParseItems(s).Some?
    ensures var (values, rest) := ParseItems(s).value;
            && items != [] && (forall i :: 0 <= i < |items| ==> GoodSpaced(items[i]))
            && ItemsValue(items) == values && s == ItemsText(items) + [93] + rest
    decreases |s|, 2
  {
    hide ParseValue, ParseItems, SkipWs, Good, TreeText, TreeValue, ItemsText, ItemsValue, IsBlankSpace;
    ItemsRead(s);
    var before, tree := ReadTree(s);
    var rest := ParseValue(s).value.1;
    var after := SkipWsParts(rest);
    var t := SkipWs(rest);
    var one := Spaced(before, tree, after);
    assert s == SpacedText(one) + t && t == [t[0]] + t[1..];
    if t[0] == 93 {
      items := [one];
      OneItem(one);
    } else {
      var more := ReadItems(t[1..]);
      items := [one] + more;
      MoreItems(one, more);
    }
  }

  lemma {:induction false} ReadObject(u: Text) returns (t: Tree)
    requires u != [] && u[0] == OPENOBJ && SkipWs(u) == u && ParseValue(u).Some?
    ensures t.Members? && Good(t) && TreeValue(t) == ParseValue(u).value.0 && u == TreeText(t) + ParseValue(u).value.1
    decreases |u|, 0
  {
    hide ParseValue, ParseMembers, SkipWs, MembersText, MembersValue, GoodPair;
    var space := SkipWsParts(u[1..]);
    var inner := SkipWs(u[1..]);
    assert u == [123] + space + inner;
    BracketRead(u);
    if inner != [] && inner[0] == CLOSEOBJ {
      t := Members(space, []);
      assert inner == [125] + inner[1..];
    } else {
      var members := ReadMembers(inner);
      PrefixedPair(space, members);
      var all := [members[0].(before := space + members[0].before)] + members[1..];
      t := Members([], all);
      assert u == [123] + MembersText(all) + [125] + ParseMembers(inner).value.1;
    }
  }

  lemma {:induction false} PrefixedPair(space: Text, members: seq<Pair>)
    requires IsBlankSpace(space) && members != [] && forall i :: 0 <= i < |members| ==> GoodPair(members[i])
    ensures var more := [members[0].(before := space + members[0].before)] + members[1..];
            && (forall i :: 0 <= i < |more| ==> GoodPair(more[i]))
            && MembersText(more) == space + MembersText(members) && MembersValue(more) == MembersValue(members)
  {
    hide TreeValue, GoodSpaced, SpacedText, QuotedText, GoodUnits;
    var first := members[0].(before := space + members[0].before);
    var more := [first] + members[1..];
    assert more[1..] == members[1..];
    assert PairText(first) == space + PairText(members[0]);
  }

  /** How a member was read. */
  lemma {:induction false} MemberRead(s: Text)
    requires ParseMember(s).Some?
    ensures var t := SkipWs(s);
            && t != [] && t[0] == 34 && ParseChars(t[1..]).Some?
            && var (key, after) := ParseChars(t[1..]).value;
            var c := SkipWs(after);
            && c != [] && c[0] == 58 && ParseValue(c[1..]).Some?
            && ParseMember(s).value == (Member(key, ParseValue(c[1..]).value.0), ParseValue(c[1..]).value.1)
  {
    hide ParseValue, ParseChars, SkipWs;
  }

  lemma {:induction false} Assembles(s: Text, before: Text, t: Text, quoted: Text, after: Text, between: Text, c: Text, v: Text)
    requires s == before + t && t == quoted + after && after == between + c && c == [58] + v
    ensures s == before + quoted + between + [58] + v
  {}

  lemma {:induction false} ReadPair(s: Text) returns (before: Text, key: seq<Written>, between: Text, space: Text, tree: Tree)
    requires ParseMember(s).Some?
    ensures var (m, rest) := ParseMember(s).value;
            && IsBlankSpace(before) && GoodUnits(key) && IsBlankSpace(between) && IsBlankSpace(space) && Good(tree)
            && m == Member(UnitsValue(key), TreeValue(tree))
            && s == before + QuotedText(key) + between + [58] + (space + TreeText(tree) + rest)
    decreases |s|, 2
  {
    hide ParseValue, ParseChars, ParseMember, SkipWs, Good, TreeText, TreeValue, UnitsText, UnitsValue, GoodUnits, IsBlankSpace;
    MemberRead(s);
    before := SkipWsParts(s);
    var t := SkipWs(s);
    key := ReadUnits(t[1..]);
    var after := ParseChars(t[1..]).value.1;
    between := SkipWsParts(after);
    var c := SkipWs(after);
    space, tree := ReadTree(c[1..]);
    assert t == [34] + t[1..] && c == [58] + c[1..];
    assert t == QuotedText(key) + after;
    Assembles(s, before, t, QuotedText(key), after, between, c, c[1..]);
  }

  /** How the members were read. */
  lemma {:induction false} MembersRead(s: Text)
    requires ParseMembers(s).Some?
    ensures ParseMember(s).Some?
    ensures var (m, after) := ParseMember(s).value;
            var t, r := SkipWs(after), ParseMembers(s).value;
            && t != [] && (t[0] == 125 || t[0] == 44)
            && (t[0] == 125 ==> r == ([m], t[1..]))
            && (t[0] == 44 ==> ParseMembers(t[1..]).Some? && r == ([m] + ParseMembers(t[1..]).value.0, ParseMembers(t[1..]).value.1))
  {
    hide ParseMember, SkipWs;
  }

  lemma {:induction false} PairJoins(head: Text, value: Text, after: Text, t: Text)
    ensures head + (value + (after + t)) == (head + (value + after)) + t
  {}

  lemma {:induction false} ReadMembers(s: Text) returns (members: seq<Pair>)
    requires ParseMembers(s).Some?
    ensures var (values, rest) := ParseMembers(s).value;
            && members != [] && (forall i :: 0 <= i < |members| ==> GoodPair(members[i]))
            && MembersValue(members) == values && s == MembersText(members) + [125] + rest
    decreases |s|, 4
  {
    hide ParseMember, ParseMembers, SkipWs, GoodUnits, Good, GoodPair, TreeText, TreeValue, QuotedText, UnitsValue, PairText, IsBlankSpace,
         MembersText, MembersValue;
    MembersRead(s);
    var one := ReadSpacedPair(s);
    var t := SkipWs(ParseMember(s).value.1);
    assert t == [t[0]] + t[1..];
    if t[0] == 125 {
      members := [one];
      OneMember(one);
    } else {
      var more := ReadMembers(t[1..]);
      members := [one] + more;
      MoreMembers(one, more);
    }
  }

  lemma {:induction false} ReadSpacedPair(s: Text) returns (one: Pair)
    requires ParseMember(s).Some?
    ensures var (m, rest) := ParseMember(s).value;
            && GoodPair(one) && m == Member(UnitsValue(one.key), TreeValue(one.value.tree)) && s == PairText(one) + SkipWs(rest)
    decreases |s|, 3
  {
    hide ParseMember, SkipWs, Good, TreeText, TreeValue, QuotedText, UnitsValue, GoodUnits, IsBlankSpace;
    var before, key, between, space, tree := ReadPair(s);
    var rest := ParseMember(s).value.1;
    var after := SkipWsParts(rest);
    one := Pair(before, key, between, Spaced(space, tree, after));
    PairJoins(before + QuotedText(key) + between + [58], space + TreeText(tree), after, SkipWs(rest));
  }

  // ---------------------------------------------------------------- exactly the grammar

  /** The text is that of a good tree with this value, between white space. */
  ghost predicate Derives(s: Text, v: Json) {
    exists d :: GoodSpaced(d) && SpacedText(d) == s && TreeValue(d.tree) == v
  }

  /** `JSON.parse` reads a text as a value if and only if the grammar derives the text with that value. */
  lemma {:induction false} ParseIsGrammar(s: Text, v: Json)
    ensures Parse(s) == Some(v) <==> Derives(s, v)
  {
    hide ParseValue, Good, TreeText, TreeValue;
    if Parse(s) == Some(v) {
      var before, tree := ReadTree(s);
      var rest := ParseValue(s).value.1;
      var after := SkipWsParts(rest);
      assert after + [] == after;
      assert SpacedText(Spaced(before, tree, after)) == s;
      assert GoodSpaced(Spaced(before, tree, after));
    }
    if d :| GoodSpaced(d) && SpacedText(d) == s && TreeValue(d.tree) == v {
      assert s == d.before + (TreeText(d.tree) + d.after);
      LeadingBlank(d.before, TreeText(d.tree) + d.after);
      SpaceFollows(d.after);
      TreeIsRead(d.tree, d.after);
      LeadingBlank(d.after, []);
      assert d.after + [] == d.after;
    }
  }

  lemma {:induction false} SpaceFollows(space: Text)
    requires IsBlankSpace(space)
    ensures Follows(space)
  {}
}
