/**
  JSON as the two ends of the stream use it: Python's `json.dumps` with its default arguments and
  JavaScript's `JSON.parse`, the grammar of RFC 8259. Text is in UTF-16 code units on both sides;
  `json.dumps` writes a character outside the basic plane as the escapes of its two units.
 */
module JsonText {
  import opened Wrappers
  import opened CodeUnits

  /** Numbers are kept as written. */
  datatype Json =
    | Null
    | Bool(b: bool)
    | Num(lexeme: Text)
    | Str(s: Text)
    | Arr(items: seq<Json>)
    | Obj(members: seq<Member>)

  datatype Member = Member(key: Text, value: Json)

  /** The value of a key; of several members with the key the last counts, in Python and in JavaScript. */
  function Lookup(members: seq<Member>, key: Text): Option<Json> {
    if members == [] then None
    else if members[|members| - 1].key == key then Some(members[|members| - 1].value)
    else Lookup(members[..|members| - 1], key)
  }

  /** The last member with the key has this value. */
  ghost predicate HasLast(members: seq<Member>, key: Text, v: Json) {
    exists i :: LastAt(members, key, v, i)
  }

  ghost predicate HasNone(members: seq<Member>, key: Text) {
    forall i :: 0 <= i < |members| ==> members[i].key != key
  }

  ghost predicate LastAt(members: seq<Member>, key: Text, v: Json, i: nat) {
    i < |members| && members[i] == Member(key, v) && forall j :: i < j < |members| ==> members[j].key != key
  }

  /** The lookup finds the last member with the key, and nothing exactly when there is none. */
  lemma {:induction false} LookupIsLast(members: seq<Member>, key: Text, v: Json)
    ensures Lookup(members, key) == Some(v) <==> HasLast(members, key, v)
    ensures Lookup(members, key) == None <==> HasNone(members, key)
  {
    if members != [] {
      var n := |members| - 1;
      var front := members[..n];
      LookupIsLast(front, key, v);
      if members[n].key == key {
        if v == members[n].value {
          assert LastAt(members, key, v, n);
        }
        if i :| LastAt(members, key, v, i) {
          assert i == n;
        }
      } else {
        if i :| LastAt(front, key, v, i) {
          assert LastAt(members, key, v, i);
        }
        if i :| LastAt(members, key, v, i) {
          assert LastAt(front, key, v, i);
        }
        assert HasNone(front, key) ==> HasNone(members, key);
      }
    }
  }

  const QUOTE: CodeUnit := 34
  const COMMA: CodeUnit := 44
  const COLON: CodeUnit := 58
  const OPENARR: CodeUnit := 91
  const BACKSLASH: CodeUnit := 92
  const CLOSEARR: CodeUnit := 93
  const OPENOBJ: CodeUnit := 123
  const CLOSEOBJ: CodeUnit := 125

  // ---------------------------------------------------------------- numbers

  predicate IsDigit(u: CodeUnit) {
    48 <= u <= 57
  }

  /** Units that occur in numbers; none of them may follow a number in JSON. */
  predicate IsNumUnit(u: CodeUnit) {
    IsDigit(u) || u == 43 || u == 45 || u == 46 || u == 69 || u == 101
  }

  function DigitRun(t: Text): (n: nat)
    ensures n <= |t|
  {
    if t != [] && IsDigit(t[0]) then 1 + DigitRun(t[1..]) else 0
  }

  predicate IsExponent(t: Text) {
    t == [] || ((t[0] == 69 || t[0] == 101)
                && var d := if |t| > 1 && (t[1] == 43 || t[1] == 45) then t[2..] else t[1..];
                   d != [] && DigitRun(d) == |d|)
  }

  predicate IsFractionExponent(t: Text) {
    if t != [] && t[0] == 46
    then var n := DigitRun(t[1..]); n > 0 && IsExponent(t[1 + n..])
    else IsExponent(t)
  }

  /** number = [ minus ] int [ frac ] [ exp ] */
  predicate IsNumber(t: Text) {
    && t != [] && (forall i :: 0 <= i < |t| ==> IsNumUnit(t[i]))
    && var m := if t[0] == 45 then t[1..] else t;
       var n := DigitRun(m);
       n > 0 && (n > 1 ==> m[0] != 48) && IsFractionExponent(m[n..])
  }

  /** Some digit before the exponent is not 0. */
  predicate NonZero(lexeme: Text) {
    exists i :: 0 <= i < |lexeme| && 49 <= lexeme[i] <= 57 && 69 !in lexeme[..i] && 101 !in lexeme[..i]
  }

  /** The digits before the exponent, read as one number without its point. */
  function Mantissa(lexeme: Text): (n: nat) {
    if lexeme == [] then 0
    else
      var u, front := lexeme[|lexeme| - 1], lexeme[..|lexeme| - 1];
      if 69 in front || 101 in front then Mantissa(front)
      else if IsDigit(u) then 10 * Mantissa(front) + (u - 48)
      else Mantissa(front)
  }

  /** A number is zero exactly when its digits before the exponent are. */
  lemma {:induction false} NonZeroIsNotZero(lexeme: Text)
    ensures NonZero(lexeme) <==> Mantissa(lexeme) != 0
  {
    if lexeme != [] {
      var n := |lexeme| - 1;
      var front := lexeme[..n];
      NonZeroIsNotZero(front);
      if NonZero(front) {
        var i :| 0 <= i < n && 49 <= front[i] <= 57 && 69 !in front[..i] && 101 !in front[..i];
        assert lexeme[i] == front[i] && lexeme[..i] == front[..i];
      }
      if i :| 0 <= i < |lexeme| && 49 <= lexeme[i] <= 57 && 69 !in lexeme[..i] && 101 !in lexeme[..i] {
        if i < n {
          assert front[i] == lexeme[i] && front[..i] == lexeme[..i];
        }
      }
    }
  }

  predicate Printable(v: Json)
    decreases v
  {
    match v
    case Num(lexeme) => IsNumber(lexeme)
    case Arr(items) => forall i :: 0 <= i < |items| ==> Printable(items[i])
    case Obj(members) => forall i :: 0 <= i < |members| ==> Printable(members[i].value)
    case _ => true
  }

  // ---------------------------------------------------------------- json.dumps

  function HexDigit(n: nat): CodeUnit
    requires n < 16
  {
    if n < 10 then 48 + n else 87 + n
  }

  function Hex4(u: CodeUnit): Text {
    [HexDigit(u / 4096), HexDigit(u / 256 % 16), HexDigit(u / 16 % 16), HexDigit(u % 16)]
  }

  function EscapeUnit(u: CodeUnit): Text {
    if u == QUOTE || u == BACKSLASH then [BACKSLASH, u]
    else if u == 10 then [BACKSLASH, 110]
    else if u == 13 then [BACKSLASH, 114]
    else if u == 9 then [BACKSLASH, 116]
    else if u == 12 then [BACKSLASH, 102]
    else if u == 8 then [BACKSLASH, 98]
    else if 32 <= u <= 126 then [u]
    else [BACKSLASH, 117] + Hex4(u)
  }

  function Escape(s: Text): Text {
    if s == [] then [] else EscapeUnit(s[0]) + Escape(s[1..])
  }

  function DumpString(s: Text): Text {
    [QUOTE] + Escape(s) + [QUOTE]
  }

  function Dumps(v: Json): Text
    decreases v, 1
  {
    match v
    case Null => U("null")
    case Bool(b) => if b then U("true") else U("false")
    case Num(lexeme) => lexeme
    case Str(s) => DumpString(s)
    case Arr(items) => [OPENARR] + DumpItems(items) + [CLOSEARR]
    case Obj(members) => [OPENOBJ] + DumpMembers(members) + [CLOSEOBJ]
  }

  function DumpItems(items: seq<Json>): Text
    decreases items, 0
  {
    if items == [] then []
    else if |items| == 1 then Dumps(items[0])
    else Dumps(items[0]) + ([COMMA, 32] + DumpItems(items[1..]))
  }

  function DumpMember(m: Member): Text
    decreases m, 2
  {
    DumpString(m.key) + ([COLON, 32] + Dumps(m.value))
  }

  function DumpMembers(members: seq<Member>): Text
    decreases members, 0
  {
    if members == [] then []
    else if |members| == 1 then DumpMember(members[0])
    else DumpMember(members[0]) + ([COMMA, 32] + DumpMembers(members[1..]))
  }

  // ---------------------------------------------------------------- JSON.parse

  function SkipWs(s: Text): (r: Text)
    ensures |r| <= |s|
  {
    if s != [] && (s[0] == 32 || s[0] == 9 || s[0] == 10 || s[0] == 13) then SkipWs(s[1..]) else s
  }

  function HexValue(u: CodeUnit): (r: int)
    ensures -1 <= r < 16
  {
    if IsDigit(u) then u - 48
    else if 97 <= u <= 102 then u - 87
    else if 65 <= u <= 70 then u - 55
    else -1
  }

  /** The unit written by the escape letter after a backslash, other than `u`. */
  function SimpleEscape(u: CodeUnit): Option<CodeUnit> {
    if u == QUOTE || u == BACKSLASH || u == 47 then Some(u)
    else if u == 98 then Some(8)
    else if u == 102 then Some(12)
    else if u == 110 then Some(10)
    else if u == 114 then Some(13)
    else if u == 116 then Some(9)
    else None
  }

  /** The first unit of a string's body and how many units write it. */
  function ParseUnit(s: Text): (r: Option<(CodeUnit, nat)>)
    ensures r.Some? ==> 0 < r.value.1 <= |s|
  {
    if s == [] || s[0] == QUOTE || s[0] < 32 then None
    else if s[0] != BACKSLASH then Some((s[0], 1))
    else if |s| > 1 && SimpleEscape(s[1]).Some? then Some((SimpleEscape(s[1]).value, 2))
    else if |s| > 5 && s[1] == 117 && forall i :: 2 <= i < 6 ==> HexValue(s[i]) >= 0
    then Some((HexValue(s[2]) * 4096 + HexValue(s[3]) * 256 + HexValue(s[4]) * 16 + HexValue(s[5]), 6))
    else None
  }

  /** The body of a string up to its closing quote, and what follows the quote. */
  function ParseChars(s: Text): (r: Option<(Text, Text)>)
    ensures r.Some? ==> |r.value.1| < |s|
    decreases |s|
  {
    if s != [] && s[0] == QUOTE then Some(([], s[1..]))
    else match ParseUnit(s)
      case None => None
      case Some((u, n)) =>
        match ParseChars(s[n..])
        case None => None
        case Some((more, rest)) => Some(([u] + more, rest))
  }

  function NumRun(s: Text): (n: nat)
    ensures n <= |s|
  {
    if s != [] && IsNumUnit(s[0]) then 1 + NumRun(s[1..]) else 0
  }

  function ParseValue(s: Text): (r: Option<(Json, Text)>)
    ensures r.Some? ==> |r.value.1| < |s|
    decreases |s|, 1
  {
    var t := SkipWs(s);
    if t == [] then None
    else if t[0] == QUOTE then
      match ParseChars(t[1..])
      case None => None
      case Some((text, rest)) => Some((Str(text), rest))
    else if t[0] == OPENARR then
      var inner := SkipWs(t[1..]);
      if inner != [] && inner[0] == CLOSEARR then Some((Arr([]), inner[1..]))
      else match ParseItems(inner)
        case None => None
        case Some((items, rest)) => Some((Arr(items), rest))
    else if t[0] == OPENOBJ then
      var inner := SkipWs(t[1..]);
      if inner != [] && inner[0] == CLOSEOBJ then Some((Obj([]), inner[1..]))
      else match ParseMembers(inner)
        case None => None
        case Some((members, rest)) => Some((Obj(members), rest))
    else if StartsWith(t, U("null")) then Some((Null, t[4..]))
    else if StartsWith(t, U("true")) then Some((Bool(true), t[4..]))
    else if StartsWith(t, U("false")) then Some((Bool(false), t[5..]))
    else
      var n := NumRun(t);
      if IsNumber(t[..n]) then Some((Num(t[..n]), t[n..])) else None
  }

  /** One or more items and the closing bracket. */
  function ParseItems(s: Text): (r: Option<(seq<Json>, Text)>)
    ensures r.Some? ==> |r.value.1| < |s|
    decreases |s|, 2
  {
    match ParseValue(s)
    case None => None
    case Some((v, after)) =>
      var t := SkipWs(after);
      if t == [] then None
      else if t[0] == CLOSEARR then Some(([v], t[1..]))
      else if t[0] != COMMA then None
      else match ParseItems(t[1..])
        case None => None
        case Some((more, rest)) => Some(([v] + more, rest))
  }

  function ParseMember(s: Text): (r: Option<(Member, Text)>)
    ensures r.Some? ==> |r.value.1| < |s|
    decreases |s|, 2
  {
    var t := SkipWs(s);
    if t == [] || t[0] != QUOTE then None
    else match ParseChars(t[1..])
      case None => None
      case Some((key, after)) =>
        var c := SkipWs(after);
        if c == [] || c[0] != COLON then None
        else match ParseValue(c[1..])
          case None => None
          case Some((v, rest)) => Some((Member(key, v), rest))
  }

  /** One or more members and the closing brace. */
  function ParseMembers(s: Text): (r: Option<(seq<Member>, Text)>)
    ensures r.Some? ==> |r.value.1| < |s|
    decreases |s|, 3
  {
    match ParseMember(s)
    case None => None
    case Some((m, after)) =>
      var t := SkipWs(after);
      if t == [] then None
      else if t[0] == CLOSEOBJ then Some(([m], t[1..]))
      else if t[0] != COMMA then None
      else match ParseMembers(t[1..])
        case None => None
        case Some((more, rest)) => Some(([m] + more, rest))
  }

  /** `JSON.parse(s)`, with None for a SyntaxError. */
  function Parse(s: Text): Option<Json> {
    match ParseValue(s)
    case None => None
    case Some((v, rest)) => if SkipWs(rest) == [] then Some(v) else None
  }

  // ---------------------------------------------------------------- escapes

  lemma {:induction false} HexRoundTrip(n: nat)
    requires n < 16
    ensures HexValue(HexDigit(n)) == n
  {}

  lemma {:induction false} Hex4RoundTrip(u: CodeUnit)
    ensures u / 4096 * 4096 + u / 256 % 16 * 256 + u / 16 % 16 * 16 + u % 16 == u
  {
    var a, b, c := u / 4096, u / 256, u / 16;
    assert u == 16 * c + u % 16;
    assert c / 16 == b && b / 16 == a;
    assert c == 16 * b + c % 16;
    assert b == 16 * a + b % 16;
  }

  lemma {:induction false} EscapeUnitRoundTrip(u: CodeUnit, rest: Text)
    ensures ParseUnit(EscapeUnit(u) + rest) == Some((u, |EscapeUnit(u)|))
  {
    var e := EscapeUnit(u) + rest;
    if 32 <= u <= 126 || u == 10 || u == 13 || u == 9 || u == 12 || u == 8 {
    } else {
      var h := Hex4(u);
      assert e[0] == BACKSLASH && e[1] == 117;
      assert e[2] == h[0] && e[3] == h[1] && e[4] == h[2] && e[5] == h[3];
      HexRoundTrip(u / 4096);
      HexRoundTrip(u / 256 % 16);
      HexRoundTrip(u / 16 % 16);
      HexRoundTrip(u % 16);
      Hex4RoundTrip(u);
    }
  }

  lemma {:induction false} CharsRoundTrip(s: Text, rest: Text)
    ensures ParseChars(Escape(s) + [QUOTE] + rest) == Some((s, rest))
  {
    var e := Escape(s) + [QUOTE] + rest;
    if s == [] {
      assert e == [QUOTE] + rest;
      assert e[1..] == rest;
    } else {
      var tail := Escape(s[1..]) + [QUOTE] + rest;
      assert e == EscapeUnit(s[0]) + tail;
      EscapeUnitRoundTrip(s[0], tail);
      assert e[0] == EscapeUnit(s[0])[0] != QUOTE;
      assert e[|EscapeUnit(s[0])|..] == tail;
      CharsRoundTrip(s[1..], rest);
      assert [s[0]] + s[1..] == s;
    }
  }

  // ---------------------------------------------------------------- values

  lemma {:induction false} NumRunStops(t: Text, rest: Text)
    requires forall i :: 0 <= i < |t| ==> IsNumUnit(t[i])
    requires rest == [] || !IsNumUnit(rest[0])
    ensures NumRun(t + rest) == |t|
  {
    if t == [] {
      assert t + rest == rest;
    } else {
      assert (t + rest)[1..] == t[1..] + rest;
      NumRunStops(t[1..], rest);
    }
  }

  /** A printed value starts with a unit that no scanner skips or takes for a closing bracket. */
  lemma {:induction false} DumpsHead(v: Json)
    requires Printable(v)
    ensures Dumps(v) != [] && Dumps(v)[0] !in {32, 9, 10, 13, CLOSEARR}
  {}

  /** What may follow a value. */
  predicate Follows(rest: Text) {
    rest == [] || !IsNumUnit(rest[0])
  }

  lemma {:induction false} LeadingSpace(s: Text)
    ensures SkipWs([32] + s) == SkipWs(s)
    ensures ParseValue([32] + s) == ParseValue(s)
    ensures ParseItems([32] + s) == ParseItems(s)
    ensures ParseMember([32] + s) == ParseMember(s)
    ensures ParseMembers([32] + s) == ParseMembers(s)
  {
    assert ([32] + s)[1..] == s;
  }

  lemma {:induction false} WordRoundTrip(v: Json, rest: Text)
    requires v.Null? || v.Bool?
    ensures ParseValue(Dumps(v) + rest) == Some((v, rest))
  {
    hide ParseChars, ParseItems, ParseMembers, IsNumber, NumRun;
    var t, n := Dumps(v) + rest, |Dumps(v)|;
    assert t[0] == Dumps(v)[0];
    assert SkipWs(t) == t && t[..n] == Dumps(v) && t[n..] == rest;
  }

  lemma {:induction false} NumberRoundTrip(lexeme: Text, rest: Text)
    requires IsNumber(lexeme) && Follows(rest)
    ensures ParseValue(lexeme + rest) == Some((Num(lexeme), rest))
  {
    hide ParseChars, ParseItems, ParseMembers;
    var t := lexeme + rest;
    assert IsNumUnit(t[0]) && SkipWs(t) == t;
    NumRunStops(lexeme, rest);
    assert t[..|lexeme|] == lexeme && t[|lexeme|..] == rest;
  }

  lemma {:induction false} StringRoundTrip(s: Text, rest: Text)
    ensures ParseValue(DumpString(s) + rest) == Some((Str(s), rest))
  {
    hide ParseChars, ParseItems, ParseMembers, IsNumber, NumRun, Escape;
    var t := DumpString(s) + rest;
    assert SkipWs(t) == t && t[1..] == Escape(s) + [QUOTE] + rest;
    CharsRoundTrip(s, rest);
  }

  /** How the parser enters a bracketed value: an empty one closes at once, any other starts with an item. */
  lemma {:induction false} ArrayOpens(inner: Text)
    requires inner != [] && SkipWs(inner) == inner
    ensures inner[0] == CLOSEARR ==> ParseValue([OPENARR] + inner) == Some((Arr([]), inner[1..]))
    ensures inner[0] != CLOSEARR && ParseItems(inner).Some? ==>
      ParseValue([OPENARR] + inner) == Some((Arr(ParseItems(inner).value.0), ParseItems(inner).value.1))
  {
    hide ParseChars, ParseItems, ParseMembers, IsNumber, NumRun;
    var t := [OPENARR] + inner;
    assert SkipWs(t) == t && t[1..] == inner;
  }

  lemma {:induction false} ObjectOpens(inner: Text)
    requires inner != [] && SkipWs(inner) == inner
    ensures inner[0] == CLOSEOBJ ==> ParseValue([OPENOBJ] + inner) == Some((Obj([]), inner[1..]))
    ensures inner[0] != CLOSEOBJ && ParseMembers(inner).Some? ==>
      ParseValue([OPENOBJ] + inner) == Some((Obj(ParseMembers(inner).value.0), ParseMembers(inner).value.1))
  {
    hide ParseChars, ParseItems, ParseMembers, IsNumber, NumRun;
    var t := [OPENOBJ] + inner;
    assert SkipWs(t) == t && t[1..] == inner;
  }

  lemma {:induction false} ValueRoundTrip(v: Json, rest: Text)
    requires Printable(v) && Follows(rest)
    ensures ParseValue(Dumps(v) + rest) == Some((v, rest))
    decreases v, 1
  {
    hide ParseValue, ParseItems, ParseMembers, IsNumber;
    match v
    case Null => WordRoundTrip(v, rest);
    case Bool(b) => WordRoundTrip(v, rest);
    case Num(lexeme) => NumberRoundTrip(lexeme, rest);
    case Str(s) => StringRoundTrip(s, rest);
    case Arr(items) =>
      var inner := DumpItems(items) + ([CLOSEARR] + rest);
      assert Dumps(v) + rest == [OPENARR] + inner;
      if items == [] {
        assert inner == [CLOSEARR] + rest && inner[1..] == rest;
      } else {
        DumpsHead(items[0]);
        assert inner[0] == Dumps(items[0])[0];
        ItemsRoundTrip(items, rest);
      }
      ArrayOpens(inner);
    case Obj(members) =>
      var inner := DumpMembers(members) + ([CLOSEOBJ] + rest);
      assert Dumps(v) + rest == [OPENOBJ] + inner;
      if members == [] {
        assert inner == [CLOSEOBJ] + rest && inner[1..] == rest;
      } else {
        assert inner[0] == DumpMember(members[0])[0] == QUOTE;
        MembersRoundTrip(members, rest);
      }
      ObjectOpens(inner);
  }

  lemma {:induction false} ItemsRoundTrip(items: seq<Json>, rest: Text)
    requires items != [] && forall i :: 0 <= i < |items| ==> Printable(items[i])
    ensures ParseItems(DumpItems(items) + ([CLOSEARR] + rest)) == Some((items, rest))
    decreases items, 0
  {
    hide ParseValue, ParseMembers, Printable, Dumps;
    var end := [CLOSEARR] + rest;
    if |items| == 1 {
      ValueRoundTrip(items[0], end);
      assert SkipWs(end) == end && end[1..] == rest && items == [items[0]];
    } else {
      var tail := DumpItems(items[1..]) + end;
      var after := [COMMA, 32] + tail;
      assert DumpItems(items) + end == Dumps(items[0]) + after;
      ValueRoundTrip(items[0], after);
      assert SkipWs(after) == after && after[1..] == [32] + tail;
      ItemsRoundTrip(items[1..], rest);
      LeadingSpace(tail);
      assert [items[0]] + items[1..] == items;
    }
  }

  lemma {:induction false} MemberRoundTrip(m: Member, rest: Text)
    requires Printable(m.value) && Follows(rest)
    ensures ParseMember(DumpMember(m) + rest) == Some((m, rest))
    decreases m, 2
  {
    hide ParseValue, ParseChars, Printable, Dumps, Escape;
    var v := Dumps(m.value) + rest;
    var after := [COLON, 32] + v;
    var t := DumpMember(m) + rest;
    assert t == [QUOTE] + (Escape(m.key) + [QUOTE] + after);
    assert SkipWs(t) == t && t[1..] == Escape(m.key) + [QUOTE] + after;
    CharsRoundTrip(m.key, after);
    assert SkipWs(after) == after && after[1..] == [32] + v;
    LeadingSpace(v);
    ValueRoundTrip(m.value, rest);
  }

  lemma {:induction false} MembersRoundTrip(members: seq<Member>, rest: Text)
    requires members != [] && forall i :: 0 <= i < |members| ==> Printable(members[i].value)
    ensures ParseMembers(DumpMembers(members) + ([CLOSEOBJ] + rest)) == Some((members, rest))
    decreases members, 0
  {
    hide ParseValue, ParseMember, DumpMember, Printable, Dumps;
    var end := [CLOSEOBJ] + rest;
    if |members| == 1 {
      MemberRoundTrip(members[0], end);
      assert SkipWs(end) == end && end[1..] == rest && members == [members[0]];
    } else {
      var tail := DumpMembers(members[1..]) + end;
      var after := [COMMA, 32] + tail;
      assert DumpMembers(members) + end == DumpMember(members[0]) + after;
      MemberRoundTrip(members[0], after);
      assert SkipWs(after) == after && after[1..] == [32] + tail;
      MembersRoundTrip(members[1..], rest);
      LeadingSpace(tail);
      assert [members[0]] + members[1..] == members;
    }
  }

  /** What `json.dumps` writes, `JSON.parse` reads back. */
  lemma {:induction false} ParseDumps(v: Json)
    requires Printable(v)
    ensures Parse(Dumps(v)) == Some(v)
  {
    ValueRoundTrip(v, []);
    assert Dumps(v) + [] == Dumps(v);
  }

  // ---------------------------------------------------------------- what was parsed can be printed

  lemma {:induction false} ParsedIsPrintable(s: Text)
    requires ParseValue(s).Some?
    ensures Printable(ParseValue(s).value.0)
    decreases |s|, 1
  {
    hide ParseChars, ParseItems, ParseMembers, IsNumber, NumRun;
    var t := SkipWs(s);
    if t[0] == OPENARR {
      var inner := SkipWs(t[1..]);
      if ParseItems(inner).Some? {
        ParsedItemsPrintable(inner);
      }
    } else if t[0] == OPENOBJ {
      var inner := SkipWs(t[1..]);
      if ParseMembers(inner).Some? {
        ParsedMembersPrintable(inner);
      }
    }
  }

  lemma {:induction false} ParsedItemsPrintable(s: Text)
    requires ParseItems(s).Some?
    ensures forall i :: 0 <= i < |ParseItems(s).value.0| ==> Printable(ParseItems(s).value.0[i])
    decreases |s|, 2
  {
    hide ParseValue, Printable;
    ParsedIsPrintable(s);
    var t := SkipWs(ParseValue(s).value.1);
    if t[0] == COMMA {
      ParsedItemsPrintable(t[1..]);
    }
  }

  lemma {:induction false} ParsedMembersPrintable(s: Text)
    requires ParseMembers(s).Some?
    ensures forall i :: 0 <= i < |ParseMembers(s).value.0| ==> Printable(ParseMembers(s).value.0[i].value)
    decreases |s|, 3
  {
    hide ParseMember, Printable;
    ParsedMemberPrintable(s);
    var t := SkipWs(ParseMember(s).value.1);
    if t[0] == COMMA {
      ParsedMembersPrintable(t[1..]);
    }
  }

  lemma {:induction false} ParsedMemberPrintable(s: Text)
    requires ParseMember(s).Some?
    ensures Printable(ParseMember(s).value.0.value)
    decreases |s|, 2
  {
    hide ParseValue, ParseChars, Printable;
    var t := SkipWs(s);
    var c := SkipWs(ParseChars(t[1..]).value.1);
    ParsedIsPrintable(c[1..]);
  }

  lemma {:induction false} LookupPrintable(members: seq<Member>, key: Text)
    requires forall i :: 0 <= i < |members| ==> Printable(members[i].value)
    ensures Lookup(members, key).Some? ==> Printable(Lookup(members, key).value)
  {
    hide Printable;
    if members != [] {
      LookupPrintable(members[..|members| - 1], key);
    }
  }

  // ---------------------------------------------------------------- one printable ASCII line

  predicate AsciiLine(t: Text) {
    forall i :: 0 <= i < |t| ==> 32 <= t[i] <= 126
  }

  lemma {:induction false} EscapeIsAsciiLine(s: Text)
    ensures AsciiLine(Escape(s))
  {
    if s != [] {
      assert AsciiLine(EscapeUnit(s[0]));
      EscapeIsAsciiLine(s[1..]);
    }
  }

  /** No printed value holds a raw newline, or anything outside printable ASCII. */
  lemma {:induction false} DumpsIsAsciiLine(v: Json)
    requires Printable(v)
    ensures AsciiLine(Dumps(v))
    decreases v, 1
  {
    hide DumpItems, DumpMembers, Escape;
    match v
    case Null =>
    case Bool(_) =>
    case Num(_) =>
    case Str(s) => EscapeIsAsciiLine(s);
    case Arr(items) => ItemsAreAsciiLine(items);
    case Obj(members) => MembersAreAsciiLine(members);
  }

  lemma {:induction false} ItemsAreAsciiLine(items: seq<Json>)
    requires forall i :: 0 <= i < |items| ==> Printable(items[i])
    ensures AsciiLine(DumpItems(items))
    decreases items, 0
  {
    if items != [] {
      DumpsIsAsciiLine(items[0]);
      ItemsAreAsciiLine(items[1..]);
    }
  }

  lemma {:induction false} MembersAreAsciiLine(members: seq<Member>)
    requires forall i :: 0 <= i < |members| ==> Printable(members[i].value)
    ensures AsciiLine(DumpMembers(members))
    decreases members, 0
  {
    if members != [] {
      EscapeIsAsciiLine(members[0].key);
      DumpsIsAsciiLine(members[0].value);
      assert AsciiLine(DumpMember(members[0]));
      MembersAreAsciiLine(members[1..]);
    }
  }
}
