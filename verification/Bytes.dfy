/** Bytes, fixed-width numbers in both byte orders, and byte strings joined end to end. */
module Bytes {
  type byte = b: int | 0 <= b < 256

  /** A cast to an unsigned byte keeps the low eight bits. */
  function AsByte(n: int): byte { n % 256 }

  const U16: nat := 0x1_0000
  const U32: nat := 0x1_0000_0000

  function AsU16(n: nat): nat { n % U16 }
  function AsU32(n: nat): nat { if n < U32 then n else n % U32 }

  function Pow256(width: nat): nat { if width == 0 then 1 else 256 * Pow256(width - 1) }

  function BigEndian(n: nat, width: nat): (s: seq<byte>)
    ensures |s| == width
    decreases width, n
  {
    if width == 0 then [] else BigEndian(n / 256, width - 1) + [n % 256]
  }

  function FromBigEndian(s: seq<byte>): nat {
    if s == [] then 0 else 256 * FromBigEndian(s[..|s| - 1]) + s[|s| - 1]
  }

  function LittleEndian(n: nat, width: nat): (s: seq<byte>)
    ensures |s| == width
    decreases width, n
  {
    if width == 0 then [] else [n % 256] + LittleEndian(n / 256, width - 1)
  }

  function FromLittleEndian(s: seq<byte>): nat {
    if s == [] then 0 else s[0] + 256 * FromLittleEndian(s[1..])
  }

  lemma {:induction false} BigEndianReadsBack(n: nat, width: nat)
    requires n < Pow256(width)
    ensures FromBigEndian(BigEndian(n, width)) == n
    decreases width
  {
    if width > 0 {
      BigEndianReadsBack(n / 256, width - 1);
      assert BigEndian(n, width)[..width - 1] == BigEndian(n / 256, width - 1);
    }
  }

  lemma {:induction false} LittleEndianReadsBack(n: nat, width: nat)
    requires n < Pow256(width)
    ensures FromLittleEndian(LittleEndian(n, width)) == n
    decreases width
  {
    if width > 0 {
      LittleEndianReadsBack(n / 256, width - 1);
      assert LittleEndian(n, width)[1..] == LittleEndian(n / 256, width - 1);
    }
  }

  lemma Widths()
    ensures Pow256(2) == U16 && Pow256(4) == U32
  {
  }

  // ---- joined parts ----

  function Joined(parts: seq<seq<byte>>): seq<byte> {
    if parts == [] then [] else parts[0] + Joined(parts[1..])
  }

  /** Where part `i` starts. */
  function Start(parts: seq<seq<byte>>, i: nat): nat
    requires i <= |parts|
  {
    if i == 0 then 0 else |parts[0]| + Start(parts[1..], i - 1)
  }

  /** Part `i` stands at its start, the next part right behind it, and the last at the end. */
  lemma {:induction false} JoinedAt(parts: seq<seq<byte>>, i: nat)
    requires i < |parts|
    ensures Start(parts, i + 1) == Start(parts, i) + |parts[i]| <= |Joined(parts)|
    ensures Joined(parts)[Start(parts, i)..Start(parts, i + 1)] == parts[i]
    ensures i + 1 == |parts| ==> Start(parts, i + 1) == |Joined(parts)|
    decreases i
  {
    var head, rest := parts[0], parts[1..];
    if i == 0 {
      assert Start(rest, 0) == 0;
      assert (head + Joined(rest))[..|head|] == head;
    } else {
      JoinedAt(rest, i - 1);
      var from, to := Start(rest, i - 1), Start(rest, i);
      assert (head + Joined(rest))[|head| + from..|head| + to] == Joined(rest)[from..to];
    }
  }

  lemma JoinedOn(parts: seq<seq<byte>>, i: nat)
    requires i <= |parts|
    ensures i == 0 ==> Joined(parts[i..]) == Joined(parts)
    ensures i == |parts| ==> Joined(parts[i..]) == []
    ensures i < |parts| ==>
              forall before :: before + Joined(parts[i..]) == before + parts[i] + Joined(parts[i + 1..])
  {
  }
}
