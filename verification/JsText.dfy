/** JavaScript texts as sequences of UTF-16 code units: their order, and how JSON quotes them. */
module JsText {
  import opened Base

  type CodeUnit = u: int | 0 <= u < 0x1_0000

  type Text = seq<CodeUnit>

  // ---- the order of texts ----

  /** `a < b`, code unit by code unit. */
  predicate Less(a: Text, b: Text) {
    b != [] && (a == [] || a[0] < b[0] || (a[0] == b[0] && Less(a[1..], b[1..])))
  }

  lemma {:induction false} LessTransitive(a: Text, b: Text, c: Text)
    requires Less(a, b) && Less(b, c)
    ensures Less(a, c)
  {
    if a != [] && a[0] == b[0] && b[0] == c[0] { LessTransitive(a[1..], b[1..], c[1..]); }
  }

  lemma {:induction false} LessIrreflexive(a: Text)
    ensures !Less(a, a)
  {
    if a != [] { LessIrreflexive(a[1..]); }
  }

  lemma {:induction false} LessTotal(a: Text, b: Text)
    ensures Less(a, b) || a == b || Less(b, a)
  {
    if a != [] && b != [] && a[0] == b[0] {
      LessTotal(a[1..], b[1..]);
      assert a == [a[0]] + a[1..] && b == [b[0]] + b[1..];
    }
  }

  /** The order is the usual one: `a` is a proper beginning of `b`, or smaller where they first differ. */
  lemma {:induction false} LessIff(a: Text, b: Text)
    ensures Less(a, b) <==>
              exists k: nat :: FirstDifference(a, b, k) && k < |b| && (k == |a| || a[k] < b[k])
  {
    if a != [] && b != [] && a[0] == b[0] {
      LessIff(a[1..], b[1..]);
      if k: nat :| FirstDifference(a[1..], b[1..], k) && k < |b[1..]| && (k == |a[1..]| || a[1..][k] < b[1..][k]) {
        DifferenceOn(a, b, k);
      }
      if k: nat :| FirstDifference(a, b, k) && k < |b| && (k == |a| || a[k] < b[k]) {
        assert k > 0;
        DifferenceOn(a, b, k - 1);
      }
    } else {
      assert FirstDifference(a, b, 0);
      forall k: nat | 0 < k <= |a| && k <= |b|
        ensures a[..k] != b[..k]
      {
        assert a[..k][0] == a[0] && b[..k][0] == b[0];
      }
    }
  }

  /** `a` and `b` agree before `k` and not at it. */
  ghost predicate FirstDifference(a: Text, b: Text, k: nat) {
    k <= |a| && k <= |b| && a[..k] == b[..k] && (k < |a| && k < |b| ==> a[k] != b[k])
  }

  lemma DifferenceOn(a: Text, b: Text, k: nat)
    requires a != [] && b != [] && a[0] == b[0]
    ensures FirstDifference(a[1..], b[1..], k) <==> FirstDifference(a, b, k + 1)
  {
    if k < |a| && k < |b| {
      assert a[..k + 1] == [a[0]] + a[1..][..k] && b[..k + 1] == [b[0]] + b[1..][..k];
      assert a[1..][..k] == a[..k + 1][1..] && b[1..][..k] == b[..k + 1][1..];
    }
  }

  // ---- quoting ----

  const QUOTE: CodeUnit := 34
  const BACKSLASH: CodeUnit := 92

  predicate IsHigh(u: CodeUnit) { 0xD800 <= u < 0xDC00 }
  predicate IsLow(u: CodeUnit) { 0xDC00 <= u < 0xE000 }

  function HexDigit(d: int): CodeUnit
    requires 0 <= d < 16
  {
    if d < 10 then 48 + d else 87 + d
  }

  function HexValue(u: CodeUnit): (d: int)
    ensures 0 <= d < 16
  {
    if 48 <= u <= 57 then u - 48 else if 97 <= u <= 102 then u - 87 else 0
  }

  /** `\uXXXX`, in lower-case hexadecimal. */
  function UnicodeEscape(u: CodeUnit): (t: Text)
    ensures |t| == 6
  {
    [BACKSLASH, 117, HexDigit(u / 4096), HexDigit(u / 256 % 16), HexDigit(u / 16 % 16), HexDigit(u % 16)]
  }

  /** A code unit on its own: the short escapes, `\u` for other controls and for lone surrogates. */
  function EscapeUnit(u: CodeUnit): (t: Text)
    ensures |t| > 0
  {
    if u == QUOTE then [BACKSLASH, QUOTE]
    else if u == BACKSLASH then [BACKSLASH, BACKSLASH]
    else if u == 8 then [BACKSLASH, 98]
    else if u == 9 then [BACKSLASH, 116]
    else if u == 10 then [BACKSLASH, 110]
    else if u == 12 then [BACKSLASH, 102]
    else if u == 13 then [BACKSLASH, 114]
    else if u < 32 || IsHigh(u) || IsLow(u) then UnicodeEscape(u)
    else [u]
  }

  /** Surrogate pairs stand as they are. */
  function Escape(s: Text): Text {
    if s == [] then []
    else if IsHigh(s[0]) && |s| > 1 && IsLow(s[1]) then [s[0], s[1]] + Escape(s[2..])
    else EscapeUnit(s[0]) + Escape(s[1..])
  }

  function Quoted(s: Text): Text { [QUOTE] + Escape(s) + [QUOTE] }

  // ---- reading a quoted text ----

  /** One code unit of a quoted text and what follows it; nothing at the closing quote, at the end, or at
      what has to be escaped: a control character, a surrogate without its partner. */
  function ReadUnit(t: Text): (r: Option<(CodeUnit, Text)>)
    ensures r.Some? ==> |r.value.1| < |t|
  {
    if t == [] || t[0] == QUOTE || t[0] < 32 || IsHigh(t[0]) || IsLow(t[0]) then None
    else if t[0] != BACKSLASH then Some((t[0], t[1..]))
    else if |t| < 2 then None
    else if t[1] == 117 then
      if |t| < 6 then None
      else Some((HexValue(t[2]) * 4096 + HexValue(t[3]) * 256 + HexValue(t[4]) * 16 + HexValue(t[5]), t[6..]))
    else
      var u := if t[1] == 98 then 8 else if t[1] == 116 then 9 else if t[1] == 110 then 10
               else if t[1] == 102 then 12 else if t[1] == 114 then 13 else t[1];
      Some((u, t[2..]))
  }

  /** The text up to the closing quote, and what follows the quote. */
  function Unquoted(t: Text): (r: Option<(Text, Text)>)
    ensures r.Some? ==> |r.value.1| < |t|
    decreases |t|
  {
    if t != [] && t[0] == QUOTE then Some(([], t[1..]))
    else if |t| > 1 && IsHigh(t[0]) && IsLow(t[1]) then
      match Unquoted(t[2..])
      case None => None
      case Some((s, after)) => Some(([t[0], t[1]] + s, after))
    else
      match ReadUnit(t)
      case None => None
      case Some((u, rest)) =>
        match Unquoted(rest)
        case None => None
        case Some((s, after)) => Some(([u] + s, after))
  }

  lemma HexReadsBack(u: CodeUnit)
    ensures HexValue(HexDigit(u / 4096)) * 4096 + HexValue(HexDigit(u / 256 % 16)) * 256
            + HexValue(HexDigit(u / 16 % 16)) * 16 + HexValue(HexDigit(u % 16)) == u
  {
    assert u / 256 / 16 == u / 4096 && u / 16 / 16 == u / 256;
  }

  lemma UnitReadsBack(u: CodeUnit, rest: Text)
    ensures ReadUnit(EscapeUnit(u) + rest) == Some((u, rest))
  {
    HexReadsBack(u);
    var t := EscapeUnit(u) + rest;
    assert t[|EscapeUnit(u)|..] == rest;
  }

  lemma UnquotedCons(t: Text, u: CodeUnit, rest: Text, s: Text, after: Text)
    requires ReadUnit(t) == Some((u, rest)) && Unquoted(rest) == Some((s, after))
    ensures Unquoted(t) == Some(([u] + s, after))
  {
  }

  lemma PairReadsBack(high: CodeUnit, low: CodeUnit, rest: Text, s: Text, after: Text)
    requires IsHigh(high) && IsLow(low) && Unquoted(rest) == Some((s, after))
    ensures Unquoted([high, low] + rest) == Some(([high, low] + s, after))
  {
    assert ([high, low] + rest)[2..] == rest;
  }

  lemma SingleReadsBack(u: CodeUnit, rest: Text, s: Text, after: Text)
    requires Unquoted(rest) == Some((s, after))
    ensures Unquoted(EscapeUnit(u) + rest) == Some(([u] + s, after))
  {
    UnitReadsBack(u, rest);
    UnquotedCons(EscapeUnit(u) + rest, u, rest, s, after);
  }

  /** A quoted text reads back, whatever follows it. */
  lemma {:induction false} QuotedReadsBack(s: Text, after: Text)
    ensures Unquoted(Escape(s) + ([QUOTE] + after)) == Some((s, after))
    decreases |s|
  {
    var end := [QUOTE] + after;
    if s == [] {
      assert Escape(s) + end == end && end[1..] == after;
    } else if IsHigh(s[0]) && |s| > 1 && IsLow(s[1]) {
      QuotedReadsBack(s[2..], after);
      PairReadsBack(s[0], s[1], Escape(s[2..]) + end, s[2..], after);
      Associates([s[0], s[1]], Escape(s[2..]), end);
      assert [s[0], s[1]] + s[2..] == s;
    } else {
      QuotedReadsBack(s[1..], after);
      SingleReadsBack(s[0], Escape(s[1..]) + end, s[1..], after);
      Associates(EscapeUnit(s[0]), Escape(s[1..]), end);
      assert [s[0]] + s[1..] == s;
    }
  }

  // ---- what a quoted text is made of ----

  /** No control character, and no surrogate but in pairs. */
  predicate Clean(t: Text) {
    t == [] ||
    if IsHigh(t[0]) then |t| > 1 && IsLow(t[1]) && Clean(t[2..]) else t[0] >= 32 && !IsLow(t[0]) && Clean(t[1..])
  }

  lemma {:induction false} CleanConcat(a: Text, b: Text)
    requires Clean(a) && Clean(b)
    ensures Clean(a + b)
  {
    if a == [] {
      assert a + b == b;
    } else {
      var n := if IsHigh(a[0]) then 2 else 1;
      CleanConcat(a[n..], b);
      assert (a + b)[n..] == a[n..] + b && (a + b)[0] == a[0] && (n == 2 ==> (a + b)[1] == a[1]);
    }
  }

  lemma {:induction false} PlainIsClean(t: Text)
    requires forall i :: 0 <= i < |t| ==> 32 <= t[i] < 0xD800
    ensures Clean(t)
  {
    if t != [] { PlainIsClean(t[1..]); }
  }

  lemma UnitIsClean(u: CodeUnit)
    ensures Clean(EscapeUnit(u))
  {
    if IsHigh(u) || IsLow(u) || u < 0xD800 {
      PlainIsClean(EscapeUnit(u));
    } else {
      assert [u][1..] == [];
    }
  }

  /** Whatever text is quoted, nothing in it stands as JSON does not let it stand. */
  lemma {:induction false} EscapeIsClean(s: Text)
    ensures Clean(Escape(s))
    decreases |s|
  {
    if s == [] {
    } else if IsHigh(s[0]) && |s| > 1 && IsLow(s[1]) {
      EscapeIsClean(s[2..]);
      assert [s[0], s[1]][2..] == [];
      CleanConcat([s[0], s[1]], Escape(s[2..]));
    } else {
      EscapeIsClean(s[1..]);
      UnitIsClean(s[0]);
      CleanConcat(EscapeUnit(s[0]), Escape(s[1..]));
    }
  }

  lemma QuotedIsClean(s: Text)
    ensures Clean(Quoted(s))
  {
    EscapeIsClean(s);
    PlainIsClean([QUOTE]);
    CleanConcat([QUOTE], Escape(s));
    CleanConcat([QUOTE] + Escape(s), [QUOTE]);
  }

  /** What needs no escape stands as it is. */
  lemma {:induction false} PlainStandsAsItIs(s: Text)
    requires Clean(s) && QUOTE !in s && BACKSLASH !in s
    ensures Escape(s) == s
    decreases |s|
  {
    if s != [] {
      if IsHigh(s[0]) {
        PlainStandsAsItIs(s[2..]);
        assert s == [s[0], s[1]] + s[2..];
      } else {
        PlainStandsAsItIs(s[1..]);
        assert EscapeUnit(s[0]) == [s[0]] && s == [s[0]] + s[1..];
      }
    }
  }

  /** The code units of a text that is all ASCII. */
  function Units(s: string): Text { seq(|s|, i requires 0 <= i < |s| => s[i] as int % 128) }

  /** The escapes: backspace, tab, line feed, form feed and return have a letter, a quote and a backslash
      stand behind a backslash, and the rest has four hexadecimal digits. */
  lemma EscapesAre()
    ensures EscapeUnit(8) == Units("\\b") && EscapeUnit(9) == Units("\\t") && EscapeUnit(10) == Units("\\n")
    ensures EscapeUnit(12) == Units("\\f") && EscapeUnit(13) == Units("\\r")
    ensures EscapeUnit('\"' as int) == Units("\\\"") && EscapeUnit('\\' as int) == Units("\\\\")
    ensures EscapeUnit(0) == Units("\\u0000") && EscapeUnit(31) == Units("\\u001f") && EscapeUnit(0xD83D) == Units("\\ud83d")
  {
    LongEscapesAre();
  }

  lemma LongEscapesAre()
    ensures EscapeUnit(0) == Units("\\u0000") && EscapeUnit(31) == Units("\\u001f") && EscapeUnit(0xD83D) == Units("\\ud83d")
  {
    var t := Units("\\u0000");
    assert |t| == 6;
  }
}
