/** The two icon containers the build writes: an `.icns` of type-length records and an `.ico` with a
    directory of offsets. */
module IconContainers {
  import opened Base
  import opened Bytes
  import opened IcnsRle

  // ---- .icns ----

  datatype Element = Element(kind: seq<byte>, data: seq<byte>)

  const ICNS: seq<byte> := [105, 99, 110, 115]

  /** Lengths are cast to 32 bits before the eight bytes of the record header are added. */
  function LengthField(size: nat): seq<byte> { BigEndian(AsU32(8 + AsU32(size)), 4) }

  function Record(e: Element): seq<byte> { e.kind + LengthField(|e.data|) + e.data }

  function Records(elements: seq<Element>): seq<byte> {
    if elements == [] then [] else Record(elements[0]) + Records(elements[1..])
  }

  function Icns(elements: seq<Element>): seq<byte> {
    var body := Records(elements);
    ICNS + LengthField(|body|) + body
  }

  /** Walking type-length records to the end of `data`; nothing when a record does not fit. */
  function Walk(data: seq<byte>): Option<seq<Element>>
    decreases |data|
  {
    if data == [] then Some([])
    else if |data| < 8 then None
    else
      var length := FromBigEndian(data[4..8]);
      if length < 8 || length > |data| then None
      else
        match Walk(data[length..])
        case None => None
        case Some(rest) => Some([Element(data[..4], data[8..length])] + rest)
  }

  /** The elements of a file whose declared length is its own. */
  function ReadIcns(file: seq<byte>): Option<seq<Element>> {
    if |file| < 8 || file[..4] != ICNS || FromBigEndian(file[4..8]) != |file| then None else Walk(file[8..])
  }

  lemma LengthReadsBack(size: nat)
    ensures FromBigEndian(LengthField(size)) < U32
    ensures 8 + size < U32 ==> FromBigEndian(LengthField(size)) == 8 + size
  {
    Widths();
    BigEndianReadsBack(AsU32(8 + AsU32(size)), 4);
  }

  lemma WalkCons(data: seq<byte>, e: Element, rest: seq<byte>, others: seq<Element>)
    requires |data| >= 8 && 8 <= FromBigEndian(data[4..8]) <= |data|
    requires e == Element(data[..4], data[8..FromBigEndian(data[4..8])]) && rest == data[FromBigEndian(data[4..8])..]
    requires Walk(rest) == Some(others)
    ensures Walk(data) == Some([e] + others)
  {
  }

  lemma {:induction false} RecordsWalk(elements: seq<Element>)
    requires forall i :: 0 <= i < |elements| ==> |elements[i].kind| == 4
    requires 8 + |Records(elements)| < U32
    ensures Walk(Records(elements)) == Some(elements)
  {
    if elements != [] {
      var e, rest := elements[0], Records(elements[1..]);
      var data := Record(e) + rest;
      LengthReadsBack(|e.data|);
      RecordsWalk(elements[1..]);
      var length := 8 + |e.data|;
      assert data[..4] == e.kind && data[4..8] == LengthField(|e.data|);
      assert data[8..length] == e.data && data[length..] == rest;
      WalkCons(data, e, rest, elements[1..]);
      assert [e] + elements[1..] == elements;
    }
  }

  /** The file reads back as exactly its elements, in order and ending at its declared length, if and
      only if it is shorter than four gibibytes. */
  lemma IcnsReadsBackIff(elements: seq<Element>)
    requires forall i :: 0 <= i < |elements| ==> |elements[i].kind| == 4
    ensures ReadIcns(Icns(elements)) == Some(elements) <==> |Icns(elements)| < U32
  {
    var body := Records(elements);
    var file := Icns(elements);
    assert file[..4] == ICNS && file[4..8] == LengthField(|body|) && file[8..] == body;
    LengthReadsBack(|body|);
    if |file| < U32 { RecordsWalk(elements); }
  }

  // ---- .ico ----

  function DirectorySize(size: nat): byte { if size == 256 then 0 else AsByte(size) }

  function DirectoryEntry(size: nat, length: nat, offset: nat): (s: seq<byte>)
    ensures |s| == 16
  {
    [DirectorySize(size), DirectorySize(size), 0, 0] + LittleEndian(1, 2) + LittleEndian(32, 2) +
    LittleEndian(AsU32(length), 4) + LittleEndian(offset, 4)
  }

  /** The offset written for image `i`: a running 32-bit sum. */
  function OffsetAt(images: seq<seq<byte>>, i: nat): nat
    requires i <= |images|
  {
    if i == 0 then AsU32(6 + 16 * |images|) else AsU32(OffsetAt(images, i - 1) + AsU32(|images[i - 1]|))
  }

  function Directory(sizes: seq<nat>, images: seq<seq<byte>>): seq<seq<byte>>
    requires |sizes| == |images|
  {
    seq(|images|, i requires 0 <= i < |images| => DirectoryEntry(sizes[i], |images[i]|, OffsetAt(images, i)))
  }

  function IcoHeader(count: nat): (s: seq<byte>)
    ensures |s| == 6
  {
    LittleEndian(0, 2) + LittleEndian(1, 2) + LittleEndian(AsU16(count), 2)
  }

  function Ico(sizes: seq<nat>, images: seq<seq<byte>>): seq<byte>
    requires |sizes| == |images|
  {
    IcoHeader(|images|) + Joined(Directory(sizes, images)) + Joined(images)
  }

  // Reading a file: its kind and the number of images, and what the directory says of each: its width
  // and height (a zero byte stands for 256), planes and bits a pixel, length and offset.

  function KindIn(file: seq<byte>): nat
    requires |file| >= 6
  {
    FromLittleEndian(file[2..4])
  }

  function CountIn(file: seq<byte>): nat
    requires |file| >= 6
  {
    FromLittleEndian(file[4..6])
  }

  function SideOf(b: byte): nat { if b == 0 then 256 else b }

  function ReservedIn(file: seq<byte>): nat
    requires |file| >= 6
  {
    FromLittleEndian(file[0..2])
  }

  /** The image is square, of one plane with 32 bits a pixel and no palette, and has this size. */
  predicate Describes(entry: seq<byte>, size: nat)
    requires |entry| == 16
  {
    SideOf(entry[0]) == size && SideOf(entry[1]) == size && entry[2] == 0 && entry[3] == 0 &&
    FromLittleEndian(entry[4..6]) == 1 && FromLittleEndian(entry[6..8]) == 32
  }

  function EntryIn(file: seq<byte>, i: nat): (entry: seq<byte>)
    requires |file| >= 6 + 16 * (i + 1)
    ensures |entry| == 16
  {
    file[6 + 16 * i..6 + 16 * i + 16]
  }

  function LengthIn(file: seq<byte>, i: nat): nat
    requires |file| >= 6 + 16 * (i + 1)
  {
    FromLittleEndian(file[6 + 16 * i + 8..6 + 16 * i + 12])
  }

  function OffsetIn(file: seq<byte>, i: nat): nat
    requires |file| >= 6 + 16 * (i + 1)
  {
    FromLittleEndian(file[6 + 16 * i + 12..6 + 16 * i + 16])
  }

  function EndIn(file: seq<byte>, i: nat): (end: nat)
    requires |file| >= 6 + 16 * (i + 1)
    ensures end >= OffsetIn(file, i)
  {
    OffsetIn(file, i) + LengthIn(file, i)
  }

  /** The directory selects image `i`, which starts right behind the directory or the image before it;
      the last image ends the file. */
  ghost predicate Selects(file: seq<byte>, images: seq<seq<byte>>, i: nat)
    requires i < |images| && |file| >= 6 + 16 * |images|
  {
    && OffsetIn(file, i) == (if i == 0 then 6 + 16 * |images| else EndIn(file, i - 1))
    && EndIn(file, i) <= |file| && file[OffsetIn(file, i)..EndIn(file, i)] == images[i]
    && (i + 1 == |images| ==> EndIn(file, i) == |file|)
  }

  /** The directory counts the images and selects each of them. */
  ghost predicate LaidOut(file: seq<byte>, images: seq<seq<byte>>) {
    && |file| >= 6 + 16 * |images|
    && CountIn(file) == |images|
    && forall i :: 0 <= i < |images| ==> Selects(file, images, i)
  }

  /** The file is an icon whose directory describes images of these sizes. */
  ghost predicate Described(file: seq<byte>, sizes: seq<nat>) {
    && |file| >= 6 + 16 * |sizes|
    && ReservedIn(file) == 0 && KindIn(file) == 1
    && forall i :: 0 <= i < |sizes| ==> Describes(EntryIn(file, i), sizes[i])
  }

  /** Every number the directory has to hold fits its field. */
  predicate FieldsFit(images: seq<seq<byte>>) {
    && |images| < U16
    && forall i :: 0 <= i < |images| ==> |images[i]| < U32 && 6 + 16 * |images| + Start(images, i) < U32
  }

  lemma SideReadsBackIff(size: nat)
    ensures SideOf(DirectorySize(size)) == size <==> 1 <= size <= 256
  {
  }

  lemma FieldsStand(head: seq<byte>, planes: seq<byte>, bits: seq<byte>, length: seq<byte>, offset: seq<byte>)
    requires |head| == 4 && |planes| == 2 && |bits| == 2
    ensures var entry := head + planes + bits + length + offset;
            entry[0] == head[0] && entry[1] == head[1] && entry[2] == head[2] && entry[3] == head[3] && entry[4..6] == planes && entry[6..8] == bits
  {
  }

  lemma EntryDescribesIff(size: nat, length: nat, offset: nat)
    ensures Describes(DirectoryEntry(size, length, offset), size) <==> 1 <= size <= 256
  {
    SideReadsBackIff(size);
    Widths();
    LittleEndianReadsBack(1, 2);
    LittleEndianReadsBack(32, 2);
    FieldsStand([DirectorySize(size), DirectorySize(size), 0, 0], LittleEndian(1, 2), LittleEndian(32, 2),
                LittleEndian(AsU32(length), 4), LittleEndian(offset, 4));
  }

  lemma {:induction false} EntriesAreEven(entries: seq<seq<byte>>, i: nat)
    requires i <= |entries| && forall k :: 0 <= k < |entries| ==> |entries[k]| == 16
    ensures Start(entries, i) == 16 * i
  {
    if i > 0 { EntriesAreEven(entries[1..], i - 1); }
  }

  lemma {:induction false} JoinedSize(parts: seq<seq<byte>>)
    ensures |Joined(parts)| == Start(parts, |parts|)
  {
    if parts != [] { JoinedAt(parts, |parts| - 1); }
  }

  lemma EntryFields(size: nat, length: nat, offset: nat)
    requires offset < U32
    ensures FromLittleEndian(DirectoryEntry(size, length, offset)[8..12]) == AsU32(length)
    ensures FromLittleEndian(DirectoryEntry(size, length, offset)[12..16]) == offset
  {
    var entry := DirectoryEntry(size, length, offset);
    Widths();
    LittleEndianReadsBack(AsU32(length), 4);
    LittleEndianReadsBack(offset, 4);
    assert entry[8..12] == LittleEndian(AsU32(length), 4);
    assert entry[12..16] == LittleEndian(offset, 4);
  }

  lemma EvenPart(entries: seq<seq<byte>>, i: nat)
    requires i < |entries| && forall k :: 0 <= k < |entries| ==> |entries[k]| == 16
    ensures |Joined(entries)| == 16 * |entries| && Joined(entries)[16 * i..16 * i + 16] == entries[i]
  {
    JoinedSize(entries);
    EntriesAreEven(entries, |entries|);
    EntriesAreEven(entries, i);
    EntriesAreEven(entries, i + 1);
    JoinedAt(entries, i);
  }

  lemma PartStands(header: seq<byte>, entries: seq<seq<byte>>, rest: seq<byte>, i: nat)
    requires |header| == 6 && i < |entries| && forall k :: 0 <= k < |entries| ==> |entries[k]| == 16
    ensures var file, at := header + Joined(entries) + rest, 6 + 16 * i;
            at + 16 <= 6 + 16 * |entries| <= |file| && file[at..at + 16] == entries[i]
  {
    EvenPart(entries, i);
    Middle(header, Joined(entries), rest, 16 * i, 16 * i + 16);
  }

  lemma EntryStands(sizes: seq<nat>, images: seq<seq<byte>>, i: nat)
    requires |sizes| == |images| && i < |images|
    ensures var file, at := Ico(sizes, images), 6 + 16 * i;
            at + 16 <= 6 + 16 * |images| <= |file| &&
            file[at..at + 16] == DirectoryEntry(sizes[i], |images[i]|, OffsetAt(images, i))
  {
    PartStands(IcoHeader(|images|), Directory(sizes, images), Joined(images), i);
  }

  lemma FieldsIn(file: seq<byte>, i: nat, entry: seq<byte>)
    requires |file| >= 6 + 16 * (i + 1) && file[6 + 16 * i..6 + 16 * i + 16] == entry
    ensures LengthIn(file, i) == FromLittleEndian(entry[8..12]) && OffsetIn(file, i) == FromLittleEndian(entry[12..16])
  {
    var at := 6 + 16 * i;
    SliceOfSlice(file, at, at + 16, 8, 12);
    SliceOfSlice(file, at, at + 16, 12, 16);
  }

  /** What the directory of a written file says. */
  lemma DirectoryReads(sizes: seq<nat>, images: seq<seq<byte>>, i: nat)
    requires |sizes| == |images| && i < |images|
    ensures var file := Ico(sizes, images);
            |file| >= 6 + 16 * |images| && LengthIn(file, i) == AsU32(|images[i]|) && OffsetIn(file, i) == OffsetAt(images, i)
  {
    EntryStands(sizes, images, i);
    EntryFields(sizes[i], |images[i]|, OffsetAt(images, i));
    FieldsIn(Ico(sizes, images), i, DirectoryEntry(sizes[i], |images[i]|, OffsetAt(images, i)));
  }

  lemma HeaderCount(count: nat)
    ensures FromLittleEndian(IcoHeader(count)[4..6]) == AsU16(count)
  {
    assert IcoHeader(count)[4..6] == LittleEndian(AsU16(count), 2);
    Widths();
    LittleEndianReadsBack(AsU16(count), 2);
  }

  lemma HeaderReads(sizes: seq<nat>, images: seq<seq<byte>>)
    requires |sizes| == |images|
    ensures var file := Ico(sizes, images);
            |file| == 6 + 16 * |images| + |Joined(images)| && CountIn(file) == AsU16(|images|) &&
            file[6 + 16 * |images|..] == Joined(images)
  {
    var entries := Directory(sizes, images);
    var header, directory := IcoHeader(|images|), Joined(entries);
    JoinedSize(entries);
    EntriesAreEven(entries, |entries|);
    Halves(header + directory, Joined(images));
    Middle([], header, directory + Joined(images), 4, 6);
    Associates(header, directory, Joined(images));
    assert [] + header == header;
    HeaderCount(|images|);
  }

  lemma HeaderKind(count: nat)
    ensures FromLittleEndian(IcoHeader(count)[0..2]) == 0 && FromLittleEndian(IcoHeader(count)[2..4]) == 1
  {
    assert IcoHeader(count)[0..2] == LittleEndian(0, 2) && IcoHeader(count)[2..4] == LittleEndian(1, 2);
    Widths();
    LittleEndianReadsBack(0, 2);
    LittleEndianReadsBack(1, 2);
  }

  lemma KindReads(sizes: seq<nat>, images: seq<seq<byte>>)
    requires |sizes| == |images|
    ensures |Ico(sizes, images)| >= 6 && ReservedIn(Ico(sizes, images)) == 0 && KindIn(Ico(sizes, images)) == 1
  {
    var header, rest := IcoHeader(|images|), Joined(Directory(sizes, images)) + Joined(images);
    Associates(header, Joined(Directory(sizes, images)), Joined(images));
    Middle([], header, rest, 0, 2);
    Middle([], header, rest, 2, 4);
    assert [] + header == header;
    HeaderKind(|images|);
  }

  /** The directory describes every image by its size if and only if all sizes are from 1 to 256. */
  lemma IcoDescribesIff(sizes: seq<nat>, images: seq<seq<byte>>)
    requires |sizes| == |images|
    ensures Described(Ico(sizes, images), sizes) <==> forall i :: 0 <= i < |sizes| ==> 1 <= sizes[i] <= 256
  {
    var file := Ico(sizes, images);
    HeaderReads(sizes, images);
    KindReads(sizes, images);
    forall i | 0 <= i < |sizes|
      ensures Describes(EntryIn(file, i), sizes[i]) <==> 1 <= sizes[i] <= 256
    {
      EntryStands(sizes, images, i);
      EntryDescribesIff(sizes[i], |images[i]|, OffsetAt(images, i));
    }
  }

  lemma {:induction false} OffsetsAreExact(images: seq<seq<byte>>, i: nat)
    requires i < |images| && FieldsFit(images)
    ensures OffsetAt(images, i) == 6 + 16 * |images| + Start(images, i)
  {
    if i > 0 {
      OffsetsAreExact(images, i - 1);
      JoinedAt(images, i - 1);
    }
  }

  lemma FieldsAreExact(file: seq<byte>, images: seq<seq<byte>>, i: nat)
    requires FieldsFit(images) && i < |images| && |file| >= 6 + 16 * |images|
    requires LengthIn(file, i) == AsU32(|images[i]|) && OffsetIn(file, i) == OffsetAt(images, i)
    ensures OffsetIn(file, i) == 6 + 16 * |images| + Start(images, i) && LengthIn(file, i) == |images[i]|
  {
    OffsetsAreExact(images, i);
  }

  lemma SlicesOut(file: seq<byte>, images: seq<seq<byte>>, base: nat, i: nat)
    requires i < |images| && |file| >= base == 6 + 16 * |images| && file[base..] == Joined(images)
    requires OffsetIn(file, i) == base + Start(images, i) && LengthIn(file, i) == |images[i]|
    requires i > 0 ==> OffsetIn(file, i - 1) == base + Start(images, i - 1) && LengthIn(file, i - 1) == |images[i - 1]|
    ensures Selects(file, images, i)
  {
    JoinedAt(images, i);
    if i > 0 { JoinedAt(images, i - 1); }
    SliceOfSlice(file, base, |file|, Start(images, i), Start(images, i + 1));
    assert file[base..|file|] == file[base..];
  }

  lemma FittingFieldsLayOut(sizes: seq<nat>, images: seq<seq<byte>>)
    requires |sizes| == |images| && FieldsFit(images)
    ensures LaidOut(Ico(sizes, images), images)
  {
    var file := Ico(sizes, images);
    HeaderReads(sizes, images);
    forall i | 0 <= i < |images|
      ensures Selects(file, images, i)
    {
      DirectoryReads(sizes, images, i);
      FieldsAreExact(file, images, i);
      if i > 0 {
        DirectoryReads(sizes, images, i - 1);
        FieldsAreExact(file, images, i - 1);
      }
      SlicesOut(file, images, 6 + 16 * |images|, i);
    }
  }

  lemma {:induction false} LaidOutOffsets(file: seq<byte>, images: seq<seq<byte>>, i: nat)
    requires LaidOut(file, images) && i < |images|
    ensures OffsetIn(file, i) == 6 + 16 * |images| + Start(images, i) && LengthIn(file, i) == |images[i]|
  {
    assert Selects(file, images, i);
    assert |file[OffsetIn(file, i)..EndIn(file, i)]| == LengthIn(file, i);
    if i > 0 {
      LaidOutOffsets(file, images, i - 1);
      JoinedAt(images, i - 1);
    }
  }

  /** The directory selects every image, contiguously up to the end of the file, if and only if the
      count fits 16 bits and every length and offset fits 32. */
  lemma IcoLayoutIff(sizes: seq<nat>, images: seq<seq<byte>>)
    requires |sizes| == |images|
    ensures LaidOut(Ico(sizes, images), images) <==> FieldsFit(images)
  {
    var file := Ico(sizes, images);
    if FieldsFit(images) {
      FittingFieldsLayOut(sizes, images);
    } else if LaidOut(file, images) {
      HeaderReads(sizes, images);
      forall i | 0 <= i < |images|
        ensures |images[i]| < U32 && 6 + 16 * |images| + Start(images, i) < U32
      {
        LaidOutOffsets(file, images, i);
        DirectoryReads(sizes, images, i);
      }
      assert false;
    }
  }

  // ---- the writers as they run ----

  /** An image rendered at one size: its pixels, and its PNG encoding. */
  datatype Pixmap = Pixmap(pixels: seq<Pixel>, png: seq<byte>)

  datatype Slot = Slot(kind: seq<byte>, size: nat)

  const IC04: seq<byte> := [105, 99, 48, 52]
  const IC05: seq<byte> := [105, 99, 48, 53]

  /** The element types of the icon and the size each is rendered at. */
  const SLOTS: seq<Slot> := [
    Slot(IC04, 16), Slot(IC05, 32), Slot([105, 99, 49, 49], 32), Slot([105, 99, 49, 50], 64),
    Slot([105, 99, 48, 55], 128), Slot([105, 99, 49, 51], 256), Slot([105, 99, 48, 56], 256),
    Slot([105, 99, 49, 52], 512), Slot([105, 99, 48, 57], 512), Slot([105, 99, 49, 48], 1024)]

  function ElementFor(slot: Slot, render: nat -> Pixmap): Element {
    var pixmap := render(slot.size);
    Element(slot.kind, if slot.kind == IC04 || slot.kind == IC05 then Payload(pixmap.pixels) else pixmap.png)
  }

  function ElementsFor(slots: seq<Slot>, render: nat -> Pixmap): seq<Element> {
    seq(|slots|, i requires 0 <= i < |slots| => ElementFor(slots[i], render))
  }

  lemma {:induction false} RecordsSnoc(elements: seq<Element>, e: Element)
    ensures Records(elements + [e]) == Records(elements) + Record(e)
  {
    if elements == [] {
      assert elements + [e] == [e];
    } else {
      RecordsSnoc(elements[1..], e);
      assert (elements + [e])[1..] == elements[1..] + [e];
      Associates(Record(elements[0]), Records(elements[1..]), Record(e));
    }
  }

  /** One slot's element, from a pixmap rendered at most once per size. */
  method RenderedElement(slot: Slot, render: nat -> Pixmap, rendered: map<nat, Pixmap>)
    returns (element: Element, after: map<nat, Pixmap>)
    requires forall size :: size in rendered ==> rendered[size] == render(size)
    ensures element == ElementFor(slot, render)
    ensures forall size :: size in after ==> after[size] == render(size)
  {
    after := rendered;
    if slot.size !in after { after := after[slot.size := render(slot.size)]; }
    var pixmap := after[slot.size];
    if slot.kind == IC04 || slot.kind == IC05 {
      var data := IcnsArgb(pixmap.pixels);
      element := Element(slot.kind, data);
    } else {
      element := Element(slot.kind, pixmap.png);
    }
  }

  /** Writes one record per slot; the two small slots take run-length data, every other a PNG. */
  method GeneratedIcns(slots: seq<Slot>, render: nat -> Pixmap) returns (icns: seq<byte>)
    ensures icns == Icns(ElementsFor(slots, render))
  {
    var rendered: map<nat, Pixmap> := map[];
    var body: seq<byte> := [];
    ghost var written: seq<Element>, all := [], ElementsFor(slots, render);
    for k := 0 to |slots|
      invariant forall size :: size in rendered ==> rendered[size] == render(size)
      invariant written == all[..k]
      invariant body == Records(written)
    {
      var element: Element;
      element, rendered := RenderedElement(slots[k], render, rendered);
      assert all[k] == element;
      RecordsSnoc(written, element);
      body := body + (element.kind + LengthField(|element.data|) + element.data);
      written := written + [element];
    }
    assert all[..|slots|] == all;
    icns := ICNS + LengthField(|body|) + body;
  }

  function Code(kind: string): seq<byte> { seq(|kind|, i requires 0 <= i < |kind| => kind[i] as int % 128) }

  /** The ten types, each with the size of its image. */
  const KINDS := ["ic04", "ic05", "ic11", "ic12", "ic07", "ic13", "ic08", "ic14", "ic09", "ic10"]
  const SIDES: seq<nat> := [16, 32, 32, 64, 128, 256, 256, 512, 512, 1024]

  lemma SlotsAre(i: nat)
    requires i < 10
    ensures |SLOTS| == 10 && SLOTS[i].kind == Code(KINDS[i]) && SLOTS[i].size == SIDES[i]
    ensures (SLOTS[i].kind == IC04 || SLOTS[i].kind == IC05) <==> i < 2
    ensures MAGIC == Code("ARGB") && ICNS == Code("icns")
  {
  }

  /** The generated icon reads back as its ten elements if and only if it is shorter than four gibibytes.
      Each is of its slot's type and from the image of its slot's size: the two small ones decode to that
      image's planes, the others are its PNG. */
  lemma GeneratedIcnsReads(render: nat -> Pixmap)
    ensures var elements := ElementsFor(SLOTS, render);
            |elements| == 10 &&
            (ReadIcns(Icns(elements)) == Some(elements) <==> |Icns(elements)| < U32) &&
            (forall i :: 0 <= i < 10 ==>
               elements[i].kind == Code(KINDS[i]) &&
               var image := render(SIDES[i]);
               if i < 2 then UnpackedPayload(elements[i].data, |image.pixels|) == Some(Planes(image.pixels))
               else elements[i].data == image.png)
  {
    var elements := ElementsFor(SLOTS, render);
    assert |SLOTS| == 10 by { SlotsAre(0); }
    forall i | 0 <= i < 10
      ensures |elements[i].kind| == 4 && elements[i].kind == Code(KINDS[i])
      ensures var image := render(SIDES[i]);
              if i < 2 then UnpackedPayload(elements[i].data, |image.pixels|) == Some(Planes(image.pixels))
              else elements[i].data == image.png
    {
      SlotReads(render, i);
    }
    IcnsReadsBackIff(elements);
  }

  lemma SlotReads(render: nat -> Pixmap, i: nat)
    requires i < 10 && |SLOTS| == 10
    ensures var element, image := ElementFor(SLOTS[i], render), render(SIDES[i]);
            |element.kind| == 4 && element.kind == Code(KINDS[i]) &&
            if i < 2 then UnpackedPayload(element.data, |image.pixels|) == Some(Planes(image.pixels))
            else element.data == image.png
  {
    SlotsAre(i);
    PayloadRoundTrip(render(SIDES[i]).pixels);
  }

  method AppendAll(before: seq<byte>, parts: seq<seq<byte>>) returns (data: seq<byte>)
    ensures data == before + Joined(parts)
  {
    data := before;
    ghost var whole := before + Joined(parts);
    JoinedOn(parts, 0);
    for i := 0 to |parts|
      invariant data + Joined(parts[i..]) == whole
    {
      JoinedOn(parts, i);
      data := data + parts[i];
    }
    JoinedOn(parts, |parts|);
  }

  lemma DirectoryAt(sizes: seq<nat>, images: seq<seq<byte>>, i: nat)
    requires |sizes| == |images| && i < |images|
    ensures Directory(sizes, images)[i] == DirectoryEntry(sizes[i], |images[i]|, OffsetAt(images, i))
  {
  }

  /** Appends one directory entry and moves the offset past its image. */
  method AppendEntry(before: seq<byte>, sizes: seq<nat>, images: seq<seq<byte>>, i: nat, offset: nat)
    returns (icon: seq<byte>, next: nat)
    requires |sizes| == |images| && i < |images| && offset == OffsetAt(images, i)
    ensures icon == before + DirectoryEntry(sizes[i], |images[i]|, OffsetAt(images, i)) && next == OffsetAt(images, i + 1)
  {
    icon := before + DirectoryEntry(sizes[i], |images[i]|, offset);
    next := AsU32(offset + AsU32(|images[i]|));
  }

  /** Appends the directory, keeping the offset of the next image as it goes. */
  method AppendDirectory(before: seq<byte>, sizes: seq<nat>, images: seq<seq<byte>>) returns (icon: seq<byte>)
    requires |sizes| == |images|
    ensures icon == before + Joined(Directory(sizes, images))
  {
    icon := before;
    var offset := AsU32(6 + |images| * 16);
    ghost var entries := Directory(sizes, images);
    ghost var whole := before + Joined(entries);
    JoinedOn(entries, 0);
    for i := 0 to |images|
      invariant offset == OffsetAt(images, i)
      invariant icon + Joined(entries[i..]) == whole
    {
      JoinedOn(entries, i);
      DirectoryAt(sizes, images, i);
      icon, offset := AppendEntry(icon, sizes, images, i, offset);
    }
    JoinedOn(entries, |entries|);
  }

  function Rendered(sizes: seq<nat>, render: nat -> seq<byte>): seq<seq<byte>> {
    seq(|sizes|, i requires 0 <= i < |sizes| => render(sizes[i]))
  }

  /** Writes the header, the directory, then the images. */
  method GeneratedIcon(sizes: seq<nat>, render: nat -> seq<byte>) returns (icon: seq<byte>)
    ensures icon == Ico(sizes, Rendered(sizes, render))
  {
    var images := Rendered(sizes, render);
    icon := LittleEndian(0, 2) + LittleEndian(1, 2) + LittleEndian(AsU16(|images|), 2);
    icon := AppendDirectory(icon, sizes, images);
    icon := AppendAll(icon, images);
  }

  /** The sizes of the generated icon. */
  const ICON_SIZES: seq<nat> := [16, 24, 32, 48, 128, 256]

  lemma ShortFilesFit(sizes: seq<nat>, images: seq<seq<byte>>)
    requires |sizes| == |images| < U16 && |Ico(sizes, images)| < U32
    ensures FieldsFit(images)
  {
    HeaderReads(sizes, images);
    forall i | 0 <= i < |images|
      ensures |images[i]| < U32 && 6 + 16 * |images| + Start(images, i) < U32
    {
      JoinedAt(images, i);
    }
  }

  /** The generated icon describes its six images by their sizes, and if it is shorter than four
      gibibytes its directory selects each of them. */
  lemma GeneratedIconReads(render: nat -> seq<byte>)
    ensures var images := Rendered(ICON_SIZES, render);
            Described(Ico(ICON_SIZES, images), [16, 24, 32, 48, 128, 256]) &&
            (|Ico(ICON_SIZES, images)| < U32 ==> LaidOut(Ico(ICON_SIZES, images), images))
  {
    var images := Rendered(ICON_SIZES, render);
    IcoDescribesIff(ICON_SIZES, images);
    IcoLayoutIff(ICON_SIZES, images);
    if |Ico(ICON_SIZES, images)| < U32 { ShortFilesFit(ICON_SIZES, images); }
  }
}
