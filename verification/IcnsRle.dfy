/** The run-length code of `ic04`/`ic05` icon payloads: four byte planes, none of whose packets
    reaches into the next plane. */
module IcnsRle {
  import opened Base
  import opened Bytes

  datatype Pixel = Pixel(alpha: byte, red: byte, green: byte, blue: byte)

  const MAGIC: seq<byte> := [65, 82, 71, 66]  // ARGB

  // ---- the packets of a plane ----

  /** How many bytes from the start of `plane`, at most `limit`, equal `b`. */
  function RunLength(plane: seq<byte>, b: byte, limit: nat): (n: nat)
    ensures n <= |plane| && n <= limit
    decreases limit, |plane|
  {
    if limit == 0 || plane == [] || plane[0] != b then 0 else 1 + RunLength(plane[1..], b, limit - 1)
  }

  /** Whether three equal bytes stand at `at`. */
  predicate Triple(plane: seq<byte>, at: nat) {
    at + 3 <= |plane| && plane[at + 1] == plane[at] && plane[at + 2] == plane[at]
  }

  /** How many bytes from `at` go into a literal before a triple, at most `limit`. */
  function LiteralLength(plane: seq<byte>, at: nat, limit: nat): (n: nat)
    requires at <= |plane|
    ensures at + n <= |plane| && n <= limit
    decreases limit, |plane| - at
  {
    if limit == 0 || at == |plane| || Triple(plane, at) then 0 else 1 + LiteralLength(plane, at + 1, limit - 1)
  }

  lemma {:induction false} RunIsMaximal(plane: seq<byte>, b: byte, limit: nat)
    ensures var n := RunLength(plane, b, limit);
            (forall i :: 0 <= i < n ==> plane[i] == b) && (n < |plane| && n < limit ==> plane[n] != b)
    decreases limit
  {
    if limit > 0 && plane != [] && plane[0] == b {
      RunIsMaximal(plane[1..], b, limit - 1);
      assert forall i :: 0 < i < |plane| ==> plane[i] == plane[1..][i - 1];
    }
  }

  /** A literal stops only at its limit, at the end, or before a triple. */
  lemma {:induction false} LiteralIsMaximal(plane: seq<byte>, at: nat, limit: nat)
    requires at <= |plane|
    ensures var n := LiteralLength(plane, at, limit); n == limit || at + n == |plane| || Triple(plane, at + n)
    decreases limit
  {
    if limit > 0 && at < |plane| && !Triple(plane, at) { LiteralIsMaximal(plane, at + 1, limit - 1); }
  }

  /** No triple starts inside a literal. */
  lemma {:induction false} LiteralAvoidsTriples(plane: seq<byte>, at: nat, limit: nat, i: nat)
    requires at <= |plane| && i < LiteralLength(plane, at, limit)
    ensures !Triple(plane, at + i)
    decreases limit
  {
    if i > 0 { LiteralAvoidsTriples(plane, at + 1, limit - 1, i - 1); }
  }

  /** A literal does not depend on what stands before it. */
  lemma {:induction false} LiteralOfTail(plane: seq<byte>, start: nat, at: nat, limit: nat)
    requires start <= at <= |plane|
    ensures LiteralLength(plane[start..], at - start, limit) == LiteralLength(plane, at, limit)
    decreases limit
  {
    if limit > 0 && at < |plane| && !Triple(plane, at) { LiteralOfTail(plane, start, at + 1, limit - 1); }
  }

  datatype Packet = Literal(bytes: seq<byte>) | Repeat(b: byte, count: nat)

  /** The greedy split of a plane: a run of three to 130 equal bytes, else a literal of up to 128
      bytes that stops before the next triple. */
  function FirstPacket(plane: seq<byte>): Packet
    requires plane != []
  {
    var run := RunLength(plane, plane[0], 130);
    if run >= 3 then Repeat(plane[0], run) else Literal(plane[..LiteralLength(plane, 0, 128)])
  }

  predicate Fits(p: Packet) {
    match p case Literal(bytes) => 1 <= |bytes| <= 128 case Repeat(_, count) => 3 <= count <= 130
  }

  /** The first packet fits its header and stands for a prefix of the plane. */
  lemma FirstPacketFits(plane: seq<byte>)
    requires plane != []
    ensures var p := FirstPacket(plane); Fits(p) && Expanded(p) <= plane
  {
    RunIsMaximal(plane, plane[0], 130);
  }

  /** The bytes a packet stands for. */
  function Expanded(p: Packet): seq<byte> {
    match p
    case Literal(bytes) => bytes
    case Repeat(b, count) => seq(count, _ => b)
  }

  /** A header cast to a byte, and what it heads. */
  function Headed(header: int, rest: seq<byte>): seq<byte> { [AsByte(header)] + rest }

  function Written(p: Packet): seq<byte> {
    match p
    case Literal(bytes) => Headed(|bytes| - 1, bytes)
    case Repeat(b, count) => Headed(count + 125, [b])
  }

  /** The greedy split of a whole plane. */
  function Packets(plane: seq<byte>): seq<Packet>
    decreases |plane|
  {
    if plane == [] then []
    else
      FirstPacketFits(plane);
      var p := FirstPacket(plane);
      [p] + Packets(plane[|Expanded(p)|..])
  }

  function WrittenAll(packets: seq<Packet>): seq<byte> {
    if packets == [] then [] else Written(packets[0]) + WrittenAll(packets[1..])
  }

  function ExpandedAll(packets: seq<Packet>): seq<byte> {
    if packets == [] then [] else Expanded(packets[0]) + ExpandedAll(packets[1..])
  }

  predicate AllFit(packets: seq<Packet>) {
    forall i :: 0 <= i < |packets| ==> Fits(packets[i])
  }

  /** A plane as the encoder writes it. */
  function Packed(plane: seq<byte>): seq<byte> { WrittenAll(Packets(plane)) }

  lemma PacketsCons(plane: seq<byte>) returns (p: Packet, tail: seq<byte>)
    requires plane != []
    ensures p == FirstPacket(plane) && Fits(p) && |Expanded(p)| <= |plane| && tail == plane[|Expanded(p)|..]
    ensures Packets(plane) == [p] + Packets(tail) && Expanded(p) + tail == plane
  {
    FirstPacketFits(plane);
    p := FirstPacket(plane);
    tail := plane[|Expanded(p)|..];
    Rejoins(plane, Expanded(p));
  }

  lemma ExpandedCons(p: Packet, others: seq<Packet>)
    ensures ExpandedAll([p] + others) == Expanded(p) + ExpandedAll(others)
  {
  }

  /** The packets of a plane fit their headers and stand for exactly that plane, so none of them
      crosses into another plane. */
  lemma {:induction false} PacketsCover(plane: seq<byte>)
    ensures AllFit(Packets(plane)) && ExpandedAll(Packets(plane)) == plane
    decreases |plane|
  {
    if plane != [] {
      var p, tail := PacketsCons(plane);
      PacketsCover(tail);
      ExpandedCons(p, Packets(tail));
    }
  }

  // ---- the documented decoder ----

  /** The next packet of `data`. The upper half of the header values counts a repeated byte from three on,
      the lower half counts literal bytes from one on. Nothing when the data ends inside it. */
  function NextPacket(data: seq<byte>): Option<(Packet, seq<byte>)> {
    if data == [] then None
    else if data[0] < 0x80 then
      var n := data[0] + 1;
      if |data| < 1 + n then None else Some((Literal(data[1..1 + n]), data[1 + n..]))
    else if |data| < 2 then None
    else Some((Repeat(data[1], data[0] - 125), data[2..]))
  }

  /** The first `n` bytes packed in `data`, and what follows their packets. Nothing when the data ends
      early or a packet reaches past the `n` bytes. */
  function Unpacked(data: seq<byte>, n: nat): Option<(seq<byte>, seq<byte>)>
    decreases n
  {
    if n == 0 then Some(([], data))
    else
      match NextPacket(data)
      case None => None
      case Some((p, rest)) =>
        var bytes := Expanded(p);
        if |bytes| == 0 || |bytes| > n then None
        else
          match Unpacked(rest, n - |bytes|)
          case None => None
          case Some((more, left)) => Some((bytes + more, left))
  }

  /** Every packet the encoder writes is read back whole, its header never truncated. */
  lemma PacketReadsBack(p: Packet, rest: seq<byte>)
    requires Fits(p)
    ensures NextPacket(Written(p) + rest) == Some((p, rest))
    ensures p.Repeat? ==> Written(p)[0] == p.count + 125
    ensures p.Literal? ==> Written(p)[0] == |p.bytes| - 1
  {
  }

  lemma UnpackedCons(data: seq<byte>, n: nat, p: Packet, rest: seq<byte>, more: seq<byte>, left: seq<byte>)
    requires NextPacket(data) == Some((p, rest)) && 0 < |Expanded(p)| <= n
    requires Unpacked(rest, n - |Expanded(p)|) == Some((more, left))
    ensures Unpacked(data, n) == Some((Expanded(p) + more, left))
  {
  }

  /** Any packets that fit read back as the bytes they stand for. */
  lemma {:induction false} PacketsReadBack(packets: seq<Packet>, rest: seq<byte>)
    requires AllFit(packets)
    ensures Unpacked(WrittenAll(packets) + rest, |ExpandedAll(packets)|) == Some((ExpandedAll(packets), rest))
  {
    if packets == [] {
      assert WrittenAll(packets) + rest == rest;
    } else {
      var p, others := packets[0], packets[1..];
      var left := WrittenAll(others) + rest;
      assert WrittenAll(packets) + rest == Written(p) + left;
      PacketReadsBack(p, left);
      PacketsReadBack(others, rest);
      UnpackedCons(Written(p) + left, |ExpandedAll(packets)|, p, left, ExpandedAll(others), rest);
    }
  }

  /** Unpacking a plane's own packets recovers the plane and leaves what follows them. */
  lemma PlaneRoundTrip(plane: seq<byte>, rest: seq<byte>)
    ensures Unpacked(Packed(plane) + rest, |plane|) == Some((plane, rest))
  {
    PacketsCover(plane);
    PacketsReadBack(Packets(plane), rest);
  }

  // ---- size ----

  /** A plane grows by at most one byte for every 128 it has, rounded up. */
  function Bound(n: nat): nat { n + (n + 127) / 128 }

  /** A literal shorter than 128 bytes is the last packet, or a run follows it. */
  lemma ShortLiteralMeetsRun(plane: seq<byte>)
    requires plane != [] && FirstPacket(plane).Literal?
    ensures var n := |FirstPacket(plane).bytes|;
            n == 128 || n == |plane| || (n < |plane| && FirstPacket(plane[n..]).Repeat?)
  {
    LiteralIsMaximal(plane, 0, 128);
    var n := |FirstPacket(plane).bytes|;
    if n < 128 && n < |plane| { TripleRuns(plane[n..]); }
  }

  lemma TripleRuns(plane: seq<byte>)
    requires Triple(plane, 0)
    ensures FirstPacket(plane).Repeat?
  {
    RunIsMaximal(plane, plane[0], 130);
  }

  /** No literal holds three equal bytes in a row. */
  lemma LiteralHasNoTriple(plane: seq<byte>, i: nat)
    requires plane != [] && FirstPacket(plane).Literal? && i + 2 < |FirstPacket(plane).bytes|
    ensures var bytes := FirstPacket(plane).bytes; !(bytes[i] == bytes[i + 1] == bytes[i + 2])
  {
    LiteralAvoidsTriples(plane, 0, 128, i);
  }

  function WrittenSize(packets: seq<Packet>): nat {
    if packets == [] then 0
    else (match packets[0] case Literal(bytes) => 1 + |bytes| case Repeat(_, _) => 2) + WrittenSize(packets[1..])
  }

  lemma {:induction false} WrittenAllSize(packets: seq<Packet>)
    ensures |WrittenAll(packets)| == WrittenSize(packets)
  {
    if packets != [] { WrittenAllSize(packets[1..]); }
  }

  lemma {:induction false} SizeBound(plane: seq<byte>)
    ensures WrittenSize(Packets(plane)) <= Bound(|plane|)
    decreases |plane|
  {
    if plane != [] {
      var p, tail := PacketsCons(plane);
      assert Packets(plane)[1..] == Packets(tail);
      SizeBound(tail);
      if p.Literal? && |p.bytes| < 128 && tail != [] {
        ShortLiteralMeetsRun(plane);
        var q, end := PacketsCons(tail);
        assert Packets(tail)[1..] == Packets(end);
        SizeBound(end);
      }
    }
  }

  /** A plane of `n` bytes packs into at most `n + ceil(n / 128)` bytes. */
  lemma ExpansionBound(plane: seq<byte>)
    ensures |Packed(plane)| <= Bound(|plane|)
  {
    SizeBound(plane);
    WrittenAllSize(Packets(plane));
  }

  // ---- the whole payload ----

  function Alphas(pixels: seq<Pixel>): seq<byte> { seq(|pixels|, i requires 0 <= i < |pixels| => pixels[i].alpha) }
  function Reds(pixels: seq<Pixel>): seq<byte> { seq(|pixels|, i requires 0 <= i < |pixels| => pixels[i].red) }
  function Greens(pixels: seq<Pixel>): seq<byte> { seq(|pixels|, i requires 0 <= i < |pixels| => pixels[i].green) }
  function Blues(pixels: seq<Pixel>): seq<byte> { seq(|pixels|, i requires 0 <= i < |pixels| => pixels[i].blue) }

  function Planes(pixels: seq<Pixel>): seq<seq<byte>> {
    [Alphas(pixels), Reds(pixels), Greens(pixels), Blues(pixels)]
  }

  function PackedEach(planes: seq<seq<byte>>): seq<seq<byte>> {
    seq(|planes|, i requires 0 <= i < |planes| => Packed(planes[i]))
  }

  function PackedPlanes(planes: seq<seq<byte>>): seq<byte> { Joined(PackedEach(planes)) }

  function Payload(pixels: seq<Pixel>): seq<byte> { MAGIC + PackedPlanes(Planes(pixels)) }

  /** The four planes of `n` bytes packed in `data`; nothing unless the data ends with the last. */
  function UnpackedPlanes(data: seq<byte>, n: nat, count: nat): Option<seq<seq<byte>>>
    decreases count
  {
    if count == 0 then if data == [] then Some([]) else None
    else
      match Unpacked(data, n)
      case None => None
      case Some((plane, rest)) =>
        match UnpackedPlanes(rest, n, count - 1)
        case None => None
        case Some(planes) => Some([plane] + planes)
  }

  lemma UnpackedPlanesCons(data: seq<byte>, n: nat, plane: seq<byte>, rest: seq<byte>, planes: seq<seq<byte>>)
    requires Unpacked(data, n) == Some((plane, rest)) && UnpackedPlanes(rest, n, |planes|) == Some(planes)
    ensures UnpackedPlanes(data, n, |planes| + 1) == Some([plane] + planes)
  {
  }

  /** `part` unpacks to `plane` whatever follows it. */
  ghost predicate Unpacks(part: seq<byte>, plane: seq<byte>) {
    forall rest :: Unpacked(part + rest, |plane|) == Some((plane, rest))
  }

  lemma {:induction false} JoinedReadsBack(parts: seq<seq<byte>>, planes: seq<seq<byte>>, n: nat)
    requires |parts| == |planes|
    requires forall i :: 0 <= i < |planes| ==> |planes[i]| == n && Unpacks(parts[i], planes[i])
    ensures UnpackedPlanes(Joined(parts), n, |planes|) == Some(planes)
    decreases |planes|
  {
    if planes != [] {
      var rest := Joined(parts[1..]);
      JoinedReadsBack(parts[1..], planes[1..], n);
      assert Unpacks(parts[0], planes[0]);
      UnpackedPlanesCons(parts[0] + rest, n, planes[0], rest, planes[1..]);
      assert [planes[0]] + planes[1..] == planes;
    }
  }

  lemma PlanesRoundTrip(planes: seq<seq<byte>>, n: nat)
    requires forall i :: 0 <= i < |planes| ==> |planes[i]| == n
    ensures UnpackedPlanes(PackedPlanes(planes), n, |planes|) == Some(planes)
  {
    forall i | 0 <= i < |planes|
      ensures Unpacks(PackedEach(planes)[i], planes[i])
    {
      forall rest { PlaneRoundTrip(planes[i], rest); }
    }
    JoinedReadsBack(PackedEach(planes), planes, n);
  }

  /** The planes of a payload of `n` pixels, when `data` is one. */
  function UnpackedPayload(data: seq<byte>, n: nat): Option<seq<seq<byte>>> {
    if |data| < 4 || data[..4] != MAGIC then None else UnpackedPlanes(data[4..], n, 4)
  }

  lemma AfterMagic(rest: seq<byte>, n: nat)
    ensures UnpackedPayload(MAGIC + rest, n) == UnpackedPlanes(rest, n, 4)
  {
  }

  /** The pixels whose alpha, red, green and blue bytes stand in these planes, in this order. */
  ghost predicate Pictures(planes: seq<seq<byte>>, pixels: seq<Pixel>) {
    && |planes| == 4
    && (forall p :: 0 <= p < 4 ==> |planes[p]| == |pixels|)
    && forall k :: 0 <= k < |pixels| ==> pixels[k] == Pixel(planes[0][k], planes[1][k], planes[2][k], planes[3][k])
  }

  /** The payload of any image decodes, plane by plane, to exactly its alpha, red, green and blue
      planes, with nothing left over. */
  lemma PayloadRoundTrip(pixels: seq<Pixel>)
    ensures UnpackedPayload(Payload(pixels), |pixels|) == Some(Planes(pixels))
    ensures Pictures(Planes(pixels), pixels)
  {
    AfterMagic(PackedPlanes(Planes(pixels)), |pixels|);
    PlanesRoundTrip(Planes(pixels), |pixels|);
  }

  lemma {:induction false} JoinedBound(parts: seq<seq<byte>>, most: nat)
    requires forall i :: 0 <= i < |parts| ==> |parts[i]| <= most
    ensures |Joined(parts)| <= |parts| * most
  {
    if parts != [] {
      JoinedBound(parts[1..], most);
      assert |parts| * most == most + |parts[1..]| * most;
    }
  }

  /** A payload is at most `4 + 4 * (n + ceil(n / 128))` bytes. */
  lemma PayloadBound(pixels: seq<Pixel>)
    ensures |Payload(pixels)| <= 4 + 4 * Bound(|pixels|)
  {
    var planes := Planes(pixels);
    forall i | 0 <= i < |planes|
      ensures |PackedEach(planes)[i]| <= Bound(|pixels|)
    {
      ExpansionBound(planes[i]);
    }
    JoinedBound(PackedEach(planes), Bound(|pixels|));
  }

  // ---- the encoder as it runs ----

  /** The end of the literal that starts at `start`. */
  method LiteralEnd(plane: seq<byte>, start: nat) returns (at: nat)
    requires start <= |plane|
    ensures at == start + LiteralLength(plane, start, 128)
  {
    at := start;
    while at < |plane| && at - start < 128 && !Triple(plane, at)
      invariant start <= at <= |plane| && at - start <= 128
      invariant at + LiteralLength(plane, at, 128 - (at - start)) == start + LiteralLength(plane, start, 128)
    {
      at := at + 1;
    }
  }

  /** Writes the packet that starts at `at`, and returns where the next one starts. */
  method WritePacket(plane: seq<byte>, at: nat) returns (packet: seq<byte>, next: nat)
    requires at < |plane|
    ensures packet == Written(FirstPacket(plane[at..]))
    ensures at < next <= |plane| && plane[next..] == plane[at..][|Expanded(FirstPacket(plane[at..]))|..]
  {
    var run := RunLength(plane[at..], plane[at], 130);
    if run >= 3 {
      RunFrom(plane, at, run);
      PartOf(plane, at, run);
      packet, next := Headed(run + 125, [plane[at]]), at + run;
    } else {
      next := LiteralEnd(plane, at);
      LiteralFrom(plane, at, next);
      PartOf(plane, at, next - at);
      packet := Headed(next - at - 1, plane[at..next]);
    }
  }

  /** What a packet that starts at `at` and stands for `n` bytes is made of. */
  lemma PartOf(plane: seq<byte>, at: nat, n: nat)
    requires at + n <= |plane|
    ensures plane[at..][..n] == plane[at..at + n] && plane[at..][n..] == plane[at + n..]
  {
  }

  lemma RunFrom(plane: seq<byte>, at: nat, run: nat)
    requires at < |plane| && run == RunLength(plane[at..], plane[at], 130) && run >= 3
    ensures FirstPacket(plane[at..]) == Repeat(plane[at], run) && at + run <= |plane|
  {
  }

  lemma LiteralFrom(plane: seq<byte>, at: nat, next: nat)
    requires at < |plane| && RunLength(plane[at..], plane[at], 130) < 3
    requires next == at + LiteralLength(plane, at, 128)
    ensures at < next <= |plane| && FirstPacket(plane[at..]) == Literal(plane[at..next])
  {
    var tail := plane[at..];
    LiteralOfTail(plane, at, at, 128);
    PartOf(plane, at, next - at);
    assert FirstPacket(tail) == Literal(tail[..next - at]);
    FirstPacketFits(tail);
  }

  lemma PackedOn(plane: seq<byte>) returns (rest: seq<byte>)
    requires plane != []
    ensures |Expanded(FirstPacket(plane))| <= |plane| && rest == Packed(plane[|Expanded(FirstPacket(plane))|..])
    ensures Packed(plane) == Written(FirstPacket(plane)) + rest
  {
    var p, tail := PacketsCons(plane);
    assert Packets(plane)[1..] == Packets(tail);
    rest := Packed(tail);
  }

  /** Packs one plane onto the end of `data`, packet by packet. */
  method PackPlane(data: seq<byte>, plane: seq<byte>) returns (packed: seq<byte>)
    ensures packed == data + Packed(plane)
  {
    packed := data;
    var at := 0;
    ghost var whole, rest := data + Packed(plane), Packed(plane);
    assert plane[0..] == plane;
    while at < |plane|
      invariant at <= |plane| && rest == Packed(plane[at..])
      invariant packed + rest == whole
    {
      ghost var more := PackedOn(plane[at..]);
      var packet, next := WritePacket(plane, at);
      Associates(packed, packet, more);
      packed, at, rest := packed + packet, next, more;
    }
    assert plane[|plane|..] == [] && packed + [] == packed;
  }

  method PackPlanes(data: seq<byte>, planes: seq<seq<byte>>) returns (packed: seq<byte>)
    ensures packed == data + PackedPlanes(planes)
  {
    packed := data;
    ghost var parts := PackedEach(planes);
    ghost var whole := data + Joined(parts);
    JoinedOn(parts, 0);
    for i := 0 to |planes|
      invariant packed + Joined(parts[i..]) == whole
    {
      JoinedOn(parts, i);
      packed := PackPlane(packed, planes[i]);
    }
    JoinedOn(parts, |planes|);
  }

  /** The payload of an image: the magic, then its four planes packed in turn. */
  method IcnsArgb(pixels: seq<Pixel>) returns (data: seq<byte>)
    ensures data == Payload(pixels)
  {
    data := PackPlanes(MAGIC, Planes(pixels));
  }
}
