/** Calls that carry their own ids but no indexes, in any interleaving: the normaliser numbers them
    by first appearance and keeps every call's arguments together. */
module ChatNumbering {
  import opened Base
  import opened ChatFrames
  import opened ChatDialect
  import opened ChatStreams

  /** `order` followed by the ids of `ids` not yet in it, by first appearance. */
  function OrderFrom(order: seq<string>, ids: seq<string>): (r: seq<string>)
    ensures order <= r
    ensures forall id :: id in r <==> id in order || id in ids
    decreases |ids|
  {
    if ids == [] then order
    else
      OrderFrom(if ids[0] in order then order else order + [ids[0]], ids[1..])
  }

  ghost predicate Distinct(order: seq<string>) {
    forall a, b :: 0 <= a < b < |order| ==> order[a] != order[b]
  }

  lemma {:induction false} OrderIsDistinct(order: seq<string>, ids: seq<string>)
    requires Distinct(order)
    ensures Distinct(OrderFrom(order, ids))
    decreases |ids|
  {
    if ids != [] {
      OrderIsDistinct(if ids[0] in order then order else order + [ids[0]], ids[1..]);
    }
  }

  lemma {:induction false} OrderInTwo(order: seq<string>, first: seq<string>, second: seq<string>)
    ensures OrderFrom(order, first + second) == OrderFrom(OrderFrom(order, first), second)
    decreases |first|
  {
    if first == [] {
      assert first + second == second;
    } else {
      assert (first + second)[1..] == first[1..] + second;
      OrderInTwo(if first[0] in order then order else order + [first[0]], first[1..], second);
    }
  }

  /** The order really is by first appearance: an id that has turned up before the first fragment of
      another stands before it. */
  lemma OrderIsByAppearance(ids: seq<string>, i: nat, j: nat, a: nat, b: nat)
    requires i < j < |ids| && ids[j] !in ids[..j]
    requires var order := OrderFrom([], ids); a < |order| && b < |order| && order[a] == ids[i] && order[b] == ids[j]
    ensures a < b
  {
    var first, second := ids[..j], ids[j..];
    assert first + second == ids && first[i] == ids[i];
    OrderInParts(first, second, ids[i], ids[j], a, b);
  }

  lemma OrderInParts(first: seq<string>, second: seq<string>, x: string, y: string, a: nat, b: nat)
    requires x in first && y !in first
    requires var order := OrderFrom([], first + second); a < |order| && b < |order| && order[a] == x && order[b] == y
    ensures a < b
  {
    OrderGrows(first, second);
    StandsBefore(OrderFrom([], first), OrderFrom([], first + second), x, y, a, b);
  }

  lemma OrderGrows(first: seq<string>, second: seq<string>)
    ensures OrderFrom([], first) <= OrderFrom([], first + second) && Distinct(OrderFrom([], first + second))
  {
    OrderInTwo([], first, second);
    OrderIsDistinct([], first + second);
  }

  lemma StandsBefore(before: seq<string>, order: seq<string>, x: string, y: string, a: nat, b: nat)
    requires before <= order && Distinct(order) && x in before && y !in before
    requires a < |order| && b < |order| && order[a] == x && order[b] == y
    ensures a < b
  {
  }

  /** A fragment that carries its own id and no index. */
  predicate Named(entry: Entry) {
    entry.Entry? && EntryId(entry).Some? && !entry.index.Number?
  }

  ghost predicate AllNamed(fragments: seq<Fragment>) {
    forall i :: 0 <= i < |fragments| ==> Named(fragments[i].entry)
  }

  function Ids(fragments: seq<Fragment>): seq<string>
    requires AllNamed(fragments)
  {
    seq(|fragments|, i requires 0 <= i < |fragments| => EntryId(fragments[i].entry).value)
  }

  /** Every call's first fragment names its function; `known` are the calls already begun. */
  ghost predicate BeginWithNames(known: seq<string>, fragments: seq<Fragment>)
    requires AllNamed(fragments)
  {
    forall i :: 0 <= i < |fragments| && Ids(fragments)[i] !in known && Ids(fragments)[i] !in Ids(fragments)[..i] ==>
      StartsCall(fragments[i].entry)
  }

  /** The claims when exactly the calls of `order` have begun. */
  ghost predicate Numbered(claims: Claims, order: seq<string>) {
    && Distinct(order) && claims.next == |order|
    && (forall id :: id in claims.byId <==> id in order)
    && (forall k :: 0 <= k < |order| ==> claims.byId[order[k]] == k)
    && (forall slot: nat :: slot in claims.byIndex <==> slot < |order|)
    && (forall k :: 0 <= k < |order| ==> claims.byIndex[k].id == Some(order[k]))
  }

  /** `emitted` is `sent` with the number of its call for an index. */
  ghost predicate Renumbered(calls: seq<string>, sent: Entry, emitted: Entry)
    requires sent.Entry?
  {
    && emitted.Entry? && emitted.index.Number? && emitted.index.value < |calls|
    && Some(calls[emitted.index.value]) == EntryId(sent)
    && emitted == sent.(index := emitted.index)
  }

  function Begun(order: seq<string>, id: string): seq<string> {
    if id in order then order else order + [id]
  }

  lemma NumberStep(claims: Claims, order: seq<string>, stream: string, entry: Entry)
    requires Numbered(claims, order) && Named(entry)
    requires EntryId(entry).value !in order ==> StartsCall(entry)
    ensures var next := Begun(order, EntryId(entry).value);
            var step := NormalizeEntry(claims, stream, entry);
            step.Done? && Numbered(step.claims, next) && Renumbered(next, entry, step.value)
  {
    var id := EntryId(entry).value;
    var At(slot, free) := Locate(claims, entry);
    assert Begun(order, id)[slot] == id;
    var filed := Filed(claims, entry, stream, slot, free);
    assert filed.byIndex[slot].id == Some(id);
    assert filed.byId == claims.byId[id := slot];
    NumberedNext(claims, order, id, slot, filed);
  }

  lemma NumberedNext(claims: Claims, order: seq<string>, id: string, slot: nat, filed: Claims)
    requires Numbered(claims, order)
    requires slot == if id in order then claims.byId[id] else |order|
    requires filed.next == (if id in order then |order| else |order| + 1)
    requires filed.byId == claims.byId[id := slot]
    requires slot in filed.byIndex && filed.byIndex[slot].id == Some(id)
    requires filed.byIndex == claims.byIndex[slot := filed.byIndex[slot]]
    ensures Numbered(filed, Begun(order, id))
  {
    var next := Begun(order, id);
    assert next[slot] == id;
    assert forall k :: 0 <= k < |order| && order[k] == id ==> k == slot;
  }

  lemma {:induction false} NumberFold(claims: Claims, order: seq<string>, fragments: seq<Fragment>)
    requires Numbered(claims, order) && AllNamed(fragments) && BeginWithNames(order, fragments)
    ensures var fold := Fold(claims, fragments);
            fold.Done? && |fold.value| == |fragments| &&
            forall i :: 0 <= i < |fragments| ==>
              Renumbered(OrderFrom(order, Ids(fragments)), fragments[i].entry, fold.value[i])
    decreases |fragments|
  {
    if fragments != [] {
      var first, rest := fragments[0], fragments[1..];
      var id := Ids(fragments)[0];
      NumberStep(claims, order, first.stream, first.entry);
      var step := NormalizeEntry(claims, first.stream, first.entry);
      assert Ids(rest) == Ids(fragments)[1..];
      BeginRest(order, fragments);
      NumberFold(step.claims, Begun(order, id), rest);
      var all := OrderFrom(order, Ids(fragments));
      assert all == OrderFrom(Begun(order, id), Ids(rest));
      assert Renumbered(all, first.entry, step.value);
      RenumberedCons(all, fragments, step.value, Fold(step.claims, rest).value);
    }
  }

  lemma RenumberedCons(calls: seq<string>, fragments: seq<Fragment>, entry: Entry, entries: seq<Entry>)
    requires AllNamed(fragments) && |fragments| == |entries| + 1
    requires Renumbered(calls, fragments[0].entry, entry)
    requires forall i :: 0 <= i < |entries| ==> Renumbered(calls, fragments[i + 1].entry, entries[i])
    ensures forall i :: 0 <= i < |fragments| ==> Renumbered(calls, fragments[i].entry, ([entry] + entries)[i])
  {
  }

  lemma BeginRest(order: seq<string>, fragments: seq<Fragment>)
    requires fragments != [] && AllNamed(fragments) && BeginWithNames(order, fragments)
    ensures AllNamed(fragments[1..]) && BeginWithNames(Begun(order, Ids(fragments)[0]), fragments[1..])
  {
    var rest, ids := fragments[1..], Ids(fragments);
    forall i | 0 <= i < |rest| && Ids(rest)[i] !in Begun(order, ids[0]) && Ids(rest)[i] !in Ids(rest)[..i]
      ensures StartsCall(rest[i].entry)
    {
      assert ids[..i + 1] == [ids[0]] + Ids(rest)[..i];
      assert ids[i + 1] == Ids(rest)[i] && rest[i] == fragments[i + 1];
    }
  }

  // ---- arguments ----

  function ArgumentText(entry: Entry): string {
    if entry.Entry? && entry.function_.Function? && entry.function_.arguments.Text?
    then entry.function_.arguments.text else ""
  }

  /** The argument fragments emitted under one index, joined in order. */
  function JoinedAt(entries: seq<Entry>, index: nat): string {
    if entries == [] then ""
    else (if entries[0].Entry? && entries[0].index == Number(index) then ArgumentText(entries[0]) else "")
         + JoinedAt(entries[1..], index)
  }

  /** The argument fragments sent for one call, joined in order. */
  function JoinedFor(fragments: seq<Fragment>, id: string): string {
    if fragments == [] then ""
    else (if fragments[0].entry.Entry? && EntryId(fragments[0].entry) == Some(id)
          then ArgumentText(fragments[0].entry) else "")
         + JoinedFor(fragments[1..], id)
  }

  lemma {:induction false} JoinedAgrees(entries: seq<Entry>, fragments: seq<Fragment>, calls: seq<string>, k: nat)
    requires Distinct(calls) && k < |calls| && AllNamed(fragments) && |entries| == |fragments|
    requires forall i :: 0 <= i < |fragments| ==> Renumbered(calls, fragments[i].entry, entries[i])
    ensures JoinedAt(entries, k) == JoinedFor(fragments, calls[k])
    decreases |fragments|
  {
    if fragments != [] {
      assert Renumbered(calls, fragments[0].entry, entries[0]);
      JoinedAgrees(entries[1..], fragments[1..], calls, k);
    }
  }

  /** Every fragment keeps everything but its index, which is the number of its call by first
      appearance; and what is emitted under an index is exactly the arguments of that call. */
  ghost predicate NumberedByAppearance(sent: seq<Fragment>, emitted: seq<Entry>)
    requires AllNamed(sent)
  {
    var calls := OrderFrom([], Ids(sent));
    && Distinct(calls) && |emitted| == |sent|
    && (forall i :: 0 <= i < |sent| ==> Renumbered(calls, sent[i].entry, emitted[i]))
    && (forall k :: 0 <= k < |calls| ==> JoinedAt(emitted, k) == JoinedFor(sent, calls[k]))
  }

  lemma RenumberedIsNumbered(sent: seq<Fragment>, emitted: seq<Entry>)
    requires AllNamed(sent) && |emitted| == |sent|
    requires forall i :: 0 <= i < |sent| ==> Renumbered(OrderFrom([], Ids(sent)), sent[i].entry, emitted[i])
    ensures NumberedByAppearance(sent, emitted)
  {
    var calls := OrderFrom([], Ids(sent));
    OrderIsDistinct([], Ids(sent));
    forall k | 0 <= k < |calls|
      ensures JoinedAt(emitted, k) == JoinedFor(sent, calls[k])
    {
      JoinedAgrees(emitted, sent, calls, k);
    }
  }

  lemma FragmentsAreNumbered(sent: seq<Fragment>)
    requires AllNamed(sent) && BeginWithNames([], sent)
    ensures Fold(FRESH, sent).Done? && NumberedByAppearance(sent, Fold(FRESH, sent).value)
  {
    NumberFold(FRESH, [], sent);
    RenumberedIsNumbered(sent, Fold(FRESH, sent).value);
  }

  /** Any interleaving of calls whose fragments carry their own id but no index, each call's first
      fragment naming its function, is accepted and numbered by first appearance. */
  lemma CallsAreNumberedByAppearance(chunks: seq<Chunk>)
    requires AllNamed(Fragments(chunks)) && BeginWithNames([], Fragments(chunks))
    ensures NormalizeStream(FRESH, chunks).Done?
    ensures NumberedByAppearance(Fragments(chunks), Entries(Fragments(NormalizeStream(FRESH, chunks).value)))
  {
    FragmentsAreNumbered(Fragments(chunks));
    StreamFold(FRESH, chunks);
  }
}
