/** Small shared vocabulary: optional values, decimal numerals, and sequences of texts. */
module Base {

  datatype Option<+T> = None | Some(value: T)

  function Max(a: int, b: int): int { if a < b then b else a }

  lemma Associates<T>(a: seq<T>, b: seq<T>, c: seq<T>)
    ensures a + (b + c) == a + b + c
  {
  }

  lemma Rejoins<T>(whole: seq<T>, part: seq<T>)
    requires part <= whole
    ensures part + whole[|part|..] == whole
  {
  }

  lemma SliceOfSlice<T>(s: seq<T>, a: nat, b: nat, c: nat, d: nat)
    requires a <= b <= |s| && c <= d <= b - a
    ensures s[a..b][c..d] == s[a + c..a + d]
  {
    assert |s[a..b][c..d]| == |s[a + c..a + d]|;
    assert forall i :: 0 <= i < d - c ==> s[a..b][c..d][i] == s[a + c..a + d][i];
  }

  lemma Middle<T>(a: seq<T>, b: seq<T>, c: seq<T>, from: nat, to: nat)
    requires from <= to <= |b|
    ensures (a + b + c)[|a| + from..|a| + to] == b[from..to]
  {
  }

  lemma Halves<T>(a: seq<T>, b: seq<T>)
    ensures (a + b)[..|a|] == a && (a + b)[|a|..] == b
  {
  }

  /** The decimal numeral of `n`, as JavaScript prints a natural number. */
  function Decimal(n: nat): (s: string)
    ensures |s| > 0
    ensures forall i :: 0 <= i < |s| ==> '0' <= s[i] <= '9'
  {
    var digit := [('0' as int + n % 10) as char];
    if n < 10 then digit else Decimal(n / 10) + digit
  }

  function DecimalValue(s: string): int {
    if s == [] then 0 else 10 * DecimalValue(s[..|s| - 1]) + (s[|s| - 1] as int - '0' as int)
  }

  /** A numeral reads back as its number, so distinct numbers have distinct numerals. */
  lemma {:induction false} DecimalRoundTrip(n: nat)
    ensures DecimalValue(Decimal(n)) == n
  {
    var s := Decimal(n);
    if n >= 10 {
      DecimalRoundTrip(n / 10);
      assert s[..|s| - 1] == Decimal(n / 10);
    } else {
      assert s[..|s| - 1] == [];
    }
  }

  /** A numeral has no leading zero, and zero is `0`. */
  lemma {:induction false} DecimalIsPlain(n: nat)
    ensures Decimal(0) == "0" && (n > 0 ==> Decimal(n)[0] != '0')
  {
    if n >= 10 { DecimalIsPlain(n / 10); }
  }

  lemma ConsIsInjective<T>(a: T, s: seq<T>, b: T, t: seq<T>)
    ensures [a] + s == [b] + t <==> a == b && s == t
  {
    if [a] + s == [b] + t {
      assert ([a] + s)[1..] == s && ([b] + t)[1..] == t;
      assert ([a] + s)[0] == a && ([b] + t)[0] == b;
    }
  }

  /** What follows the last occurrence of `c`, or the whole text when there is none. */
  function AfterLast(s: string, c: char): string {
    if s == [] then []
    else if s[|s| - 1] == c then []
    else AfterLast(s[..|s| - 1], c) + [s[|s| - 1]]
  }

  lemma {:induction false} AfterLastSplits(head: string, c: char, tail: string)
    requires c !in tail
    ensures AfterLast(head + [c] + tail, c) == tail
  {
    var s := head + [c] + tail;
    if tail != [] {
      assert s[..|s| - 1] == head + [c] + tail[..|tail| - 1];
      AfterLastSplits(head, c, tail[..|tail| - 1]);
    }
  }
}
