/** Where the fragments of a stream go: by the ids they were sent with. */
module ChatRouting {
  import opened Base
  import opened ChatFrames
  import opened ChatDialect
  import opened ChatStreams
  import opened ChatIdentity

  /** An owner has an upstream id only once it has published one; a published id is the upstream's or
      made up, never both. */
  ghost predicate Consistent(owner: Owner) {
    && (owner.id.None? ==> owner.upstreamId.None?)
    && (owner.id.Some? && owner.syntheticId ==> LooksSynthetic(owner.id.value))
    && (owner.id.Some? && !owner.syntheticId ==> owner.upstreamId == owner.id)
  }

  /** Every upstream id that is claimed is the one upstream id of its slot. */
  ghost predicate Owned(claims: Claims) {
    && (forall slot :: slot in claims.byIndex ==> Consistent(claims.byIndex[slot]))
    && (forall id :: id in claims.byId && !LooksSynthetic(id) ==> Owns(claims, claims.byId[id], id))
  }

  ghost predicate Owns(claims: Claims, slot: nat, id: string) {
    slot in claims.byIndex && claims.byIndex[slot].upstreamId == Some(id)
  }

  ghost predicate Keeps(before: Claims, after: Claims) {
    forall slot, id :: Owns(before, slot, id) ==> Owns(after, slot, id)
  }

  /** A fragment sent with an id comes out at the slot that owns the id. */
  ghost predicate Routed(claims: Claims, sent: Entry, emitted: Entry) {
    sent.Entry? && EntryId(sent).Some? ==>
      emitted.Entry? && emitted.index.Number? &&
      var id := EntryId(sent).value;
      id in claims.byId && claims.byId[id] == emitted.index.value && Owns(claims, emitted.index.value, id)
  }

  /** The owner a fragment is filed under takes its id for its upstream id. */
  lemma InformedOwner(claims: Claims, entry: Entry, stream: string)
    requires Sound(claims) && Owned(claims) && FromUpstream(entry)
    requires entry.Entry? && Locate(claims, entry).At?
    ensures var slot := Locate(claims, entry).slot;
            var owner := Informed(OwnerAt(claims, entry, slot), entry, stream, slot);
            Consistent(owner) &&
            (EntryId(entry).Some? ==> owner.upstreamId == EntryId(entry)) &&
            (EntryId(entry).None? ==> owner.upstreamId == OwnerAt(claims, entry, slot).upstreamId)
  {
    var slot := Locate(claims, entry).slot;
    SyntheticSlotReadsBack(stream, slot);
    assert slot !in claims.byIndex || Consistent(claims.byIndex[slot]);
  }

  lemma NewIds(claims: Claims, entry: Entry, stream: string, slot: nat, next: nat, id: string)
    requires entry.Entry? && id in Filed(claims, entry, stream, slot, next).byId
    ensures id in claims.byId || Some(id) == EntryId(entry) || LooksSynthetic(id)
  {
    SyntheticSlotReadsBack(stream, slot);
  }

  lemma OwnedStep(claims: Claims, stream: string, entry: Entry)
    requires Sound(claims) && Owned(claims) && FromUpstream(entry) && NormalizeEntry(claims, stream, entry).Done?
    ensures var step := NormalizeEntry(claims, stream, entry);
            Owned(step.claims) && Keeps(claims, step.claims) && Routed(step.claims, entry, step.value)
  {
    if entry.Entry? {
      var At(slot, next) := Locate(claims, entry);
      var after := NormalizeEntry(claims, stream, entry).claims;
      InformedOwner(claims, entry, stream);
      SoundStep(claims, stream, entry);
      var owner := Informed(OwnerAt(claims, entry, slot), entry, stream, slot);
      assert after.byIndex == claims.byIndex[slot := owner];
      forall id | id in after.byId && !LooksSynthetic(id)
        ensures Owns(after, after.byId[id], id)
      {
        NewIds(claims, entry, stream, slot, next, id);
        if Some(id) != EntryId(entry) { assert Owns(claims, claims.byId[id], id); }
      }
    }
  }

  lemma {:induction false} OwnedFold(claims: Claims, sent: seq<Fragment>)
    requires Sound(claims) && Owned(claims) && AllFromUpstream(sent) && Fold(claims, sent).Done?
    ensures var end := Fold(claims, sent);
            Keeps(claims, end.claims) && Extends(claims, end.claims) && |end.value| == |sent| &&
            forall i :: 0 <= i < |sent| ==> Routed(end.claims, sent[i].entry, end.value[i])
    decreases |sent|
  {
    if sent != [] {
      var step := NormalizeEntry(claims, sent[0].stream, sent[0].entry);
      SoundStep(claims, sent[0].stream, sent[0].entry);
      OwnedStep(claims, sent[0].stream, sent[0].entry);
      assert forall i :: 0 <= i < |sent[1..]| ==> sent[1..][i] == sent[i + 1];
      OwnedFold(step.claims, sent[1..]);
    }
  }

  /** Over every accepted stream, two fragments sent with ids come out with the same index exactly when
      they were sent with the same id: with or without indexes of their own, and even where the id
      arrives after one has been made up for its call. */
  lemma SentIdsAreKeptApart(chunks: seq<Chunk>, i: nat, j: nat)
    requires AllFromUpstream(Fragments(chunks)) && NormalizeStream(FRESH, chunks).Done?
    requires i < |Fragments(chunks)| && j < |Fragments(chunks)|
    requires var a, b := Fragments(chunks)[i].entry, Fragments(chunks)[j].entry;
             a.Entry? && b.Entry? && EntryId(a).Some? && EntryId(b).Some?
    ensures var emitted := Entries(Fragments(NormalizeStream(FRESH, chunks).value));
            |emitted| == |Fragments(chunks)| && emitted[i].Entry? && emitted[j].Entry? &&
            (emitted[i].index == emitted[j].index <==>
               EntryId(Fragments(chunks)[i].entry) == EntryId(Fragments(chunks)[j].entry))
  {
    var sent := Fragments(chunks);
    StreamFold(FRESH, chunks);
    OwnedFold(FRESH, sent);
    var fold := Fold(FRESH, sent);
    assert Routed(fold.claims, sent[i].entry, fold.value[i]) && Routed(fold.claims, sent[j].entry, fold.value[j]);
  }

  /** All that a pass may change of a fragment: an index is added, never replaced, and an id is added or
      replaced; a fragment that names its function gets one. */
  ghost predicate Kept(sent: Entry, emitted: Entry) {
    if sent.NotAnEntry? then emitted == sent
    else
      && emitted.Entry? && emitted.index.Number? && emitted == sent.(index := emitted.index, id := emitted.id)
      && (sent.index.Number? ==> emitted.index == sent.index)
      && (StartsCall(sent) ==> emitted.id.Text?)
  }

  lemma {:induction false} FoldKeeps(claims: Claims, sent: seq<Fragment>)
    requires Fold(claims, sent).Done?
    ensures |Fold(claims, sent).value| == |sent|
    ensures forall i :: 0 <= i < |sent| ==> Kept(sent[i].entry, Fold(claims, sent).value[i])
    decreases |sent|
  {
    if sent != [] {
      var step := NormalizeEntry(claims, sent[0].stream, sent[0].entry);
      assert Kept(sent[0].entry, step.value);
      FoldKeeps(step.claims, sent[1..]);
      assert forall i :: 0 < i < |sent| ==> sent[i] == sent[1..][i - 1];
    }
  }

  /** Over every accepted stream, whatever its ids, as many fragments come out as were sent, in order,
      with everything but their identity as it was sent. */
  lemma OnlyIdentityChanges(chunks: seq<Chunk>)
    requires NormalizeStream(FRESH, chunks).Done?
    ensures var sent, emitted := Fragments(chunks), Entries(Fragments(NormalizeStream(FRESH, chunks).value));
            |emitted| == |sent| && forall i :: 0 <= i < |sent| ==> Kept(sent[i].entry, emitted[i])
  {
    StreamFold(FRESH, chunks);
    FoldKeeps(FRESH, Fragments(chunks));
  }
}
