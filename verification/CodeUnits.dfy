/** JavaScript strings: sequences of UTF-16 code units, with the few library calls the front end makes. */
module CodeUnits {

  type CodeUnit = n: nat | n < 0x1_0000

  type Text = seq<CodeUnit>

  /** A literal of the source, character by character. */
  function U(s: string): (t: Text)
    requires forall i :: 0 <= i < |s| ==> s[i] as int < 128
    ensures |t| == |s| && forall i :: 0 <= i < |s| ==> t[i] == s[i] as int
  {
    seq(|s|, i requires 0 <= i < |s| => s[i] as int)
  }

  const NEWLINE: CodeUnit := 10

  /** What `trim` removes and what `\s` matches: WhiteSpace and LineTerminator of ECMA-262. */
  predicate IsSpace(u: CodeUnit) {
    9 <= u <= 13 || u == 0x20 || u == 0xA0 || u == 0x1680 || 0x2000 <= u <= 0x200A
    || u == 0x2028 || u == 0x2029 || u == 0x202F || u == 0x205F || u == 0x3000 || u == 0xFEFF
  }

  function TrimStart(t: Text): Text {
    if t != [] && IsSpace(t[0]) then TrimStart(t[1..]) else t
  }

  function TrimEnd(t: Text): Text {
    if t != [] && IsSpace(t[|t| - 1]) then TrimEnd(t[..|t| - 1]) else t
  }

  function Trim(t: Text): Text {
    TrimEnd(TrimStart(t))
  }

  ghost predicate AllSpace(t: Text) {
    forall i :: 0 <= i < |t| ==> IsSpace(t[i])
  }

  /** Neither starts nor ends in white space. */
  predicate Bare(t: Text) {
    t == [] || (!IsSpace(t[0]) && !IsSpace(t[|t| - 1]))
  }

  lemma {:induction false} TrimStartIs(a: Text, t: Text)
    requires AllSpace(a) && (t == [] || !IsSpace(t[0]))
    ensures TrimStart(a + t) == t
  {
    if a == [] {
      assert a + t == t;
    } else {
      assert (a + t)[1..] == a[1..] + t;
      TrimStartIs(a[1..], t);
    }
  }

  lemma {:induction false} TrimEndIs(t: Text, c: Text)
    requires AllSpace(c) && (t == [] || !IsSpace(t[|t| - 1]))
    ensures TrimEnd(t + c) == t
  {
    if c == [] {
      assert t + c == t;
    } else {
      var n := |c| - 1;
      assert (t + c)[..|t + c| - 1] == t + c[..n];
      TrimEndIs(t, c[..n]);
    }
  }

  /** Trimming takes all outer white space and nothing else. */
  lemma {:induction false} TrimIs(a: Text, t: Text, c: Text)
    requires AllSpace(a) && Bare(t) && AllSpace(c)
    ensures Trim(a + t + c) == t
  {
    hide TrimStart, TrimEnd, IsSpace;
    if t == [] {
      assert a + t + c == (a + c) + [];
      TrimStartIs(a + c, []);
      assert [] + [] == TrimStart(a + t + c);
      TrimEndIs([], []);
    } else {
      assert a + t + c == a + (t + c) && (t + c)[0] == t[0];
      TrimStartIs(a, t + c);
      TrimEndIs(t, c);
    }
  }

  lemma {:induction false} TrimStartParts(t: Text) returns (a: Text)
    ensures AllSpace(a) && t == a + TrimStart(t) && (TrimStart(t) == [] || !IsSpace(TrimStart(t)[0]))
  {
    if t != [] && IsSpace(t[0]) {
      a := TrimStartParts(t[1..]);
      a := [t[0]] + a;
    } else {
      a := [];
    }
  }

  lemma {:induction false} TrimEndParts(t: Text) returns (c: Text)
    ensures AllSpace(c) && t == TrimEnd(t) + c && (TrimEnd(t) == [] || !IsSpace(TrimEnd(t)[|TrimEnd(t)| - 1]))
  {
    if t != [] && IsSpace(t[|t| - 1]) {
      c := TrimEndParts(t[..|t| - 1]);
      c := c + [t[|t| - 1]];
    } else {
      c := [];
    }
  }

  lemma {:induction false} TrimParts(t: Text) returns (a: Text, c: Text)
    ensures AllSpace(a) && AllSpace(c) && t == a + Trim(t) + c && Bare(Trim(t))
  {
    hide TrimStart, TrimEnd, IsSpace;
    a := TrimStartParts(t);
    c := TrimEndParts(TrimStart(t));
  }

  /** Nothing is left of a text exactly when it is all white space. */
  lemma {:induction false} TrimNothing(t: Text)
    ensures Trim(t) == [] <==> AllSpace(t)
  {
    hide Trim, IsSpace;
    var a, c := TrimParts(t);
    if AllSpace(t) {
      TrimIs(t, [], []);
      assert t + [] + [] == t;
    }
  }

  /** A text that neither starts nor ends in white space is its own trim. */
  lemma {:induction false} TrimIdle(t: Text)
    requires t == [] || (!IsSpace(t[0]) && !IsSpace(t[|t| - 1]))
    ensures Trim(t) == t
  {}

  predicate StartsWith(t: Text, p: Text) {
    p <= t
  }

  /** `t.startsWith(p, from)` */
  predicate StartsAt(t: Text, p: Text, from: nat) {
    from + |p| <= |t| && t[from..from + |p|] == p
  }

  /** `t.indexOf(p, from)`, with None for -1. */
  function IndexOf(t: Text, p: Text, from: nat): (r: int)
    requires p != []
    ensures r == -1 || (from <= r && StartsAt(t, p, r))
    ensures forall k :: from <= k && (r == -1 || k < r) ==> !StartsAt(t, p, k)
    decreases |t| - from
  {
    if from >= |t| then -1
    else if StartsAt(t, p, from) then from
    else IndexOf(t, p, from + 1)
  }

  /** `parts.join('\n')` */
  function JoinLines(parts: seq<Text>): Text {
    if parts == [] then []
    else if |parts| == 1 then parts[0]
    else parts[0] + [NEWLINE] + JoinLines(parts[1..])
  }

  /** The parts one after the other. */
  function Concat(parts: seq<Text>): Text {
    if parts == [] then [] else parts[0] + Concat(parts[1..])
  }

  lemma {:induction false} ConcatSplits(a: seq<Text>, b: seq<Text>)
    ensures Concat(a + b) == Concat(a) + Concat(b)
  {
    if a == [] {
      assert a + b == b;
    } else {
      ConcatSplits(a[1..], b);
      assert (a + b)[1..] == a[1..] + b;
      assert Concat(a + b) == a[0] + (Concat(a[1..]) + Concat(b));
    }
  }
}
