/** The identity guarantees of the normaliser over whole streams. */
module ChatIdentity {
  import opened Base
  import opened ChatFrames
  import opened ChatDialect
  import opened ChatStreams

  /** The slot of a made-up id stands after its last underscore, whatever the stream is called. */
  lemma SyntheticSlotReadsBack(stream: string, slot: nat)
    ensures DecimalValue(AfterLast(SyntheticId(stream, slot), '_')) == slot
    ensures LooksSynthetic(SyntheticId(stream, slot))
  {
    ReadsAfterUnderscore(stream, Decimal(slot));
    DecimalRoundTrip(slot);
  }

  lemma ReadsAfterUnderscore(stream: string, tail: string)
    requires forall i :: 0 <= i < |tail| ==> '0' <= tail[i] <= '9'
    ensures var id := SYNTHETIC + stream + "_" + tail; LooksSynthetic(id) && AfterLast(id, '_') == tail
  {
    var head := SYNTHETIC + stream;
    assert head[..|SYNTHETIC|] == SYNTHETIC;
    assert (head + ['_'] + tail)[..|SYNTHETIC|] == SYNTHETIC;
    AfterLastSplits(head, '_', tail);
  }

  /** An id the normaliser made up for `slot`. */
  ghost predicate MadeUpFor(id: string, slot: nat) {
    LooksSynthetic(id) && DecimalValue(AfterLast(id, '_')) == slot
  }

  /** The invariant of a stream whose upstream never uses the reserved form. */
  ghost predicate Sound(claims: Claims) {
    && (forall slot :: slot in claims.byIndex ==> slot < claims.next)
    && (forall id :: id in claims.byId ==>
          id != "" && claims.byId[id] in claims.byIndex && claims.byIndex[claims.byId[id]].id.Some?)
    && (forall id :: id in claims.byId && LooksSynthetic(id) ==> MadeUpFor(id, claims.byId[id]))
    && (forall slot :: slot in claims.byIndex && claims.byIndex[slot].id.Some? ==>
          var id := claims.byIndex[slot].id.value;
          id in claims.byId && claims.byId[id] == slot)
  }

  /** Nothing claimed or published in `before` is taken back in `after`. */
  ghost predicate Extends(before: Claims, after: Claims) {
    && before.next <= after.next
    && (forall id :: id in before.byId ==> id in after.byId && after.byId[id] == before.byId[id])
    && (forall slot :: slot in before.byIndex ==>
          slot in after.byIndex &&
          (before.byIndex[slot].id.Some? ==> after.byIndex[slot].id == before.byIndex[slot].id))
  }

  ghost predicate FromUpstream(entry: Entry) {
    entry.Entry? && EntryId(entry).Some? ==> !LooksSynthetic(EntryId(entry).value)
  }

  /** No fragment of the stream carries an id of the reserved form. */
  ghost predicate AllFromUpstream(fragments: seq<Fragment>) {
    forall i :: 0 <= i < |fragments| ==> FromUpstream(fragments[i].entry)
  }

  /** An emitted fragment carries its slot and, once one is published, that slot's id. */
  ghost predicate Settled(claims: Claims, entry: Entry) {
    entry.Entry? ==>
      entry.index.Number? && entry.index.value in claims.byIndex &&
      (EntryId(entry).Some? ==> claims.byIndex[entry.index.value].id == EntryId(entry))
  }

  /** A fragment is never placed against a claim its own id already makes. */
  lemma LocateKeepsClaims(claims: Claims, entry: Entry)
    requires Sound(claims) && entry.Entry? && Locate(claims, entry).At?
    ensures var At(slot, next) := Locate(claims, entry);
            slot < next && claims.next <= next &&
            (EntryId(entry).Some? && EntryId(entry).value in claims.byId ==> claims.byId[EntryId(entry).value] == slot)
  {
  }

  /** Where a fragment can be filed without contradicting a claim of its own id. */
  ghost predicate Fits(claims: Claims, entry: Entry, slot: nat, next: nat)
    requires entry.Entry?
  {
    && Sound(claims) && FromUpstream(entry)
    && slot < next && claims.next <= next
    && (EntryId(entry).Some? && EntryId(entry).value in claims.byId ==> claims.byId[EntryId(entry).value] == slot)
  }

  /** `after` adds to `before` only acceptable ids, all for `slot`. */
  ghost predicate Adds(before: map<string, nat>, after: map<string, nat>, slot: nat) {
    && (forall id :: id in before ==> id in after && after[id] == before[id])
    && (forall id :: id in after && id !in before ==>
          after[id] == slot && id != "" && (LooksSynthetic(id) ==> MadeUpFor(id, slot)))
  }

  lemma AddsOne(before: map<string, nat>, now: map<string, nat>, id: string, slot: nat)
    requires Adds(before, now, slot)
    requires id in before ==> before[id] == slot
    requires id != "" && (LooksSynthetic(id) ==> MadeUpFor(id, slot))
    ensures Adds(before, now[id := slot], slot)
  {
  }

  lemma FiledIds(claims: Claims, entry: Entry, stream: string, slot: nat, next: nat)
    requires entry.Entry? && Fits(claims, entry, slot, next)
    ensures Adds(claims.byId, Filed(claims, entry, stream, slot, next).byId, slot)
  {
    var id := EntryId(entry);
    var byId := Remember(claims.byId, id, slot);
    assert Adds(claims.byId, byId, slot) by {
      if id.Some? { AddsOne(claims.byId, claims.byId, id.value, slot); }
    }
    var before := OwnerAt(claims, entry, slot);
    if before.id.None? && id.Some? {
      assert Filed(claims, entry, stream, slot, next).byId == byId[id.value := slot];
      AddsOne(claims.byId, byId, id.value, slot);
    } else if before.id.None? && StartsCall(entry) {
      var madeUp := SyntheticId(stream, slot);
      SyntheticSlotReadsBack(stream, slot);
      assert Filed(claims, entry, stream, slot, next).byId == byId[madeUp := slot];
      AddsOne(claims.byId, byId, madeUp, slot);
    }
  }

  lemma FiledOwner(claims: Claims, entry: Entry, stream: string, slot: nat, next: nat)
    requires entry.Entry? && Fits(claims, entry, slot, next)
    ensures var filed := Filed(claims, entry, stream, slot, next);
            var id := filed.byIndex[slot].id;
            (id.Some? ==> id.value in filed.byId && filed.byId[id.value] == slot) &&
            (id.None? ==> filed.byId == claims.byId && OwnerAt(claims, entry, slot).id.None? && EntryId(entry).None?) &&
            (OwnerAt(claims, entry, slot).id.Some? ==> id == OwnerAt(claims, entry, slot).id)
  {
  }

  lemma SoundFiled(claims: Claims, entry: Entry, stream: string, slot: nat, next: nat)
    requires entry.Entry? && Fits(claims, entry, slot, next)
    ensures Sound(Filed(claims, entry, stream, slot, next))
    ensures Extends(claims, Filed(claims, entry, stream, slot, next))
  {
    FiledIds(claims, entry, stream, slot, next);
    FiledOwner(claims, entry, stream, slot, next);
    var filed := Filed(claims, entry, stream, slot, next);
    var owner := filed.byIndex[slot];
    assert filed == Claims(filed.byId, claims.byIndex[slot := owner], next, Some(slot));
    SoundParts(claims, filed, slot, owner);
  }

  /** Replacing one owner keeps the claims sound when its id and the new ids point at its slot. */
  lemma SoundParts(claims: Claims, filed: Claims, slot: nat, owner: Owner)
    requires Sound(claims)
    requires filed.byIndex == claims.byIndex[slot := owner] && slot < filed.next && claims.next <= filed.next
    requires Adds(claims.byId, filed.byId, slot)
    requires owner.id.Some? ==> owner.id.value in filed.byId && filed.byId[owner.id.value] == slot
    requires owner.id.None? ==> filed.byId == claims.byId && (slot in claims.byIndex ==> claims.byIndex[slot].id.None?)
    requires slot in claims.byIndex && claims.byIndex[slot].id.Some? ==> owner.id == claims.byIndex[slot].id
    ensures Sound(filed) && Extends(claims, filed)
  {
  }

  lemma SoundStep(claims: Claims, stream: string, entry: Entry)
    requires Sound(claims) && FromUpstream(entry)
    requires NormalizeEntry(claims, stream, entry).Done?
    ensures var step := NormalizeEntry(claims, stream, entry);
            Sound(step.claims) && Extends(claims, step.claims) && Settled(step.claims, step.value)
  {
    if entry.Entry? {
      var At(slot, next) := Locate(claims, entry);
      LocateKeepsClaims(claims, entry);
      SoundFiled(claims, entry, stream, slot, next);
    }
  }

  /** Without the assumption about upstream ids, a claim is moved exactly when the normaliser makes
      up an id that another slot already holds. */
  lemma ClaimMovesIff(claims: Claims, stream: string, entry: Entry)
    requires entry.Entry? && Locate(claims, entry).At?
    ensures var slot := Locate(claims, entry).slot;
            var after := NormalizeEntry(claims, stream, entry).claims;
            var madeUp := SyntheticId(stream, slot);
            (exists id :: id in claims.byId && after.byId[id] != claims.byId[id]) <==>
            (StartsCall(entry) && EntryId(entry).None? && OwnerAt(claims, entry, slot).id.None? &&
             madeUp in claims.byId && claims.byId[madeUp] != slot)
  {
  }

  lemma {:induction false} SoundFold(claims: Claims, fragments: seq<Fragment>)
    requires Sound(claims) && AllFromUpstream(fragments) && Fold(claims, fragments).Done?
    ensures var end := Fold(claims, fragments);
            Sound(end.claims) && Extends(claims, end.claims) && |end.value| == |fragments| &&
            forall i :: 0 <= i < |end.value| ==> Settled(end.claims, end.value[i])
    decreases |fragments|
  {
    if fragments != [] {
      var step := NormalizeEntry(claims, fragments[0].stream, fragments[0].entry);
      SoundStep(claims, fragments[0].stream, fragments[0].entry);
      assert forall i :: 0 <= i < |fragments[1..]| ==> fragments[1..][i] == fragments[i + 1];
      SoundFold(step.claims, fragments[1..]);
    }
  }

  /** Emitted indexes and emitted ids name the same calls. */
  ghost predicate OneIdPerIndex(entries: seq<Entry>) {
    forall i, j ::
      0 <= i < |entries| && 0 <= j < |entries| && entries[i].Entry? && entries[j].Entry? &&
      EntryId(entries[i]).Some? && EntryId(entries[j]).Some? ==>
        (entries[i].index == entries[j].index <==> EntryId(entries[i]) == EntryId(entries[j]))
  }

  /** What is left of the invariant when an upstream may use the reserved form. */
  ghost predicate Coherent(claims: Claims) {
    && (forall slot :: slot in claims.byIndex ==> slot < claims.next)
    && (forall id :: id in claims.byId ==>
          id != "" && claims.byId[id] in claims.byIndex && claims.byIndex[claims.byId[id]].id.Some?)
    && (forall slot :: slot in claims.byIndex && claims.byIndex[slot].id.Some? ==>
          var id := claims.byIndex[slot].id.value;
          id in claims.byId && claims.byId[id] == slot)
  }

  lemma CoherentBijection(claims: Claims, entries: seq<Entry>)
    requires Coherent(claims)
    requires forall i :: 0 <= i < |entries| ==> Settled(claims, entries[i])
    ensures OneIdPerIndex(entries)
  {
  }

  lemma {:induction false} SoundStream(claims: Claims, chunks: seq<Chunk>)
    requires Sound(claims) && AllFromUpstream(Fragments(chunks)) && NormalizeStream(claims, chunks).Done?
    ensures var end := NormalizeStream(claims, chunks);
            Sound(end.claims) && Extends(claims, end.claims) &&
            forall i :: 0 <= i < |Fragments(end.value)| ==> Settled(end.claims, Fragments(end.value)[i].entry)
  {
    StreamFold(claims, chunks);
    SoundFold(claims, Fragments(chunks));
    var end := NormalizeStream(claims, chunks);
    forall i | 0 <= i < |Fragments(end.value)|
      ensures Settled(end.claims, Fragments(end.value)[i].entry)
    {
      assert Fragments(end.value)[i].entry == Entries(Fragments(end.value))[i];
    }
  }

  /** A stream is normalised by normalising a prefix and going on from there. */
  lemma {:induction false} StreamConcat(claims: Claims, first: seq<Chunk>, second: seq<Chunk>)
    requires NormalizeStream(claims, first + second).Done?
    ensures NormalizeStream(claims, first).Done?
    ensures var mid := NormalizeStream(claims, first).claims;
            NormalizeStream(mid, second).Done? &&
            NormalizeStream(mid, second).claims == NormalizeStream(claims, first + second).claims
    decreases |first|
  {
    if first == [] {
      assert first + second == second;
    } else {
      var step := NormalizeChunk(claims, first[0]);
      assert (first + second)[1..] == first[1..] + second && (first + second)[0] == first[0];
      StreamConcat(step.claims, first[1..], second);
    }
  }

  lemma {:induction false} FragmentsConcat(first: seq<Chunk>, second: seq<Chunk>)
    ensures Fragments(first + second) == Fragments(first) + Fragments(second)
  {
    if first == [] {
      assert first + second == second;
    } else {
      assert (first + second)[1..] == first[1..] + second;
      FragmentsConcat(first[1..], second);
      Associates(InChunk(first[0]), Fragments(first[1..]), Fragments(second));
    }
  }

  /** Over every accepted stream, at every moment: the invariant holds, and whatever has been
      claimed or published is never taken back later, however late an upstream id arrives and
      whatever the chunks call the stream. */
  lemma ClaimsNeverMove(before: seq<Chunk>, after: seq<Chunk>)
    requires AllFromUpstream(Fragments(before + after)) && NormalizeStream(FRESH, before + after).Done?
    ensures NormalizeStream(FRESH, before).Done?
    ensures var mid := NormalizeStream(FRESH, before).claims;
            var end := NormalizeStream(FRESH, before + after).claims;
            Sound(mid) && Sound(end) && Extends(mid, end)
  {
    StreamConcat(FRESH, before, after);
    FragmentsConcat(before, after);
    var all := Fragments(before + after);
    assert AllFromUpstream(Fragments(before)) by {
      forall i | 0 <= i < |Fragments(before)|
        ensures FromUpstream(Fragments(before)[i].entry)
      {
        assert Fragments(before)[i] == all[i];
      }
    }
    assert AllFromUpstream(Fragments(after)) by {
      forall i | 0 <= i < |Fragments(after)|
        ensures FromUpstream(Fragments(after)[i].entry)
      {
        assert Fragments(after)[i] == all[|Fragments(before)| + i];
      }
    }
    SoundStream(FRESH, before);
    SoundStream(NormalizeStream(FRESH, before).claims, after);
  }

  /** Over every accepted stream, two emitted fragments carry the same index exactly when they
      carry the same id, and that id is the one published for the index. */
  lemma EmittedBijection(chunks: seq<Chunk>)
    requires AllFromUpstream(Fragments(chunks)) && NormalizeStream(FRESH, chunks).Done?
    ensures var end := NormalizeStream(FRESH, chunks);
            OneIdPerIndex(Entries(Fragments(end.value))) &&
            forall i :: 0 <= i < |Fragments(end.value)| ==> Settled(end.claims, Fragments(end.value)[i].entry)
  {
    SoundStream(FRESH, chunks);
    var end := NormalizeStream(FRESH, chunks);
    CoherentBijection(end.claims, Entries(Fragments(end.value)));
  }

  // ---- without the assumption about upstream ids ----

  /** The step makes up an id that is already published for another slot. */
  ghost predicate Clashes(claims: Claims, stream: string, entry: Entry) {
    && entry.Entry? && Locate(claims, entry).At?
    && var slot := Locate(claims, entry).slot;
    && StartsCall(entry) && EntryId(entry).None? && OwnerAt(claims, entry, slot).id.None?
    && exists other :: other in claims.byIndex && other != slot && claims.byIndex[other].id == Some(SyntheticId(stream, slot))
  }

  /** No step of an accepted run does so. */
  ghost predicate NeverClashes(claims: Claims, fragments: seq<Fragment>)
    requires Fold(claims, fragments).Done?
    decreases |fragments|
  {
    fragments == [] ||
    (!Clashes(claims, fragments[0].stream, fragments[0].entry) &&
     NeverClashes(NormalizeEntry(claims, fragments[0].stream, fragments[0].entry).claims, fragments[1..]))
  }

  /** No published id is taken back. */
  ghost predicate KeepsPublished(before: Claims, after: Claims) {
    forall slot :: slot in before.byIndex && before.byIndex[slot].id.Some? ==>
      slot in after.byIndex && after.byIndex[slot].id == before.byIndex[slot].id
  }

  /** The ids a step files, all under its slot: the fragment's own, and its owner's if that is new. */
  lemma FiledUnder(claims: Claims, entry: Entry, stream: string, slot: nat, next: nat, id: string)
    requires entry.Entry?
    ensures var filed := Filed(claims, entry, stream, slot, next);
            var own := Some(id) == EntryId(entry) ||
                       (OwnerAt(claims, entry, slot).id.None? && Some(id) == filed.byIndex[slot].id);
            (id in filed.byId <==> id in claims.byId || own) &&
            (id in filed.byId ==> filed.byId[id] == if own then slot else claims.byId[id])
  {
  }

  lemma FiledKeepsId(claims: Claims, entry: Entry, stream: string, slot: nat, next: nat)
    requires entry.Entry?
    ensures var before, after := OwnerAt(claims, entry, slot).id, Filed(claims, entry, stream, slot, next).byIndex[slot].id;
            (before.Some? ==> after == before) &&
            (before.None? && EntryId(entry).Some? ==> after == EntryId(entry)) &&
            (before.None? && EntryId(entry).None? ==> after == if StartsCall(entry) then Some(SyntheticId(stream, slot)) else None)
  {
  }

  /** A published id of another slot is not filed under this one. */
  lemma OthersKeepTheirs(claims: Claims, entry: Entry, stream: string, slot: nat, next: nat, other: nat)
    requires Coherent(claims) && entry.Entry? && Locate(claims, entry) == At(slot, next) && !Clashes(claims, stream, entry)
    requires other != slot && other in claims.byIndex && claims.byIndex[other].id.Some?
    ensures var id := claims.byIndex[other].id.value;
            var filed := Filed(claims, entry, stream, slot, next);
            id in filed.byId && filed.byId[id] == other
  {
    FiledUnder(claims, entry, stream, slot, next, claims.byIndex[other].id.value);
    FiledKeepsId(claims, entry, stream, slot, next);
  }

  lemma CoherentFiled(claims: Claims, entry: Entry, stream: string, slot: nat, next: nat)
    requires Coherent(claims) && entry.Entry? && Locate(claims, entry) == At(slot, next) && !Clashes(claims, stream, entry)
    ensures Coherent(Filed(claims, entry, stream, slot, next))
  {
    var filed := Filed(claims, entry, stream, slot, next);
    assert slot < next && claims.next <= next;
    assert filed.byIndex == claims.byIndex[slot := filed.byIndex[slot]] && filed.next == next;
    FiledKeepsId(claims, entry, stream, slot, next);
    SyntheticSlotReadsBack(stream, slot);
    forall id | id in filed.byId
      ensures id != "" && filed.byId[id] in filed.byIndex && filed.byIndex[filed.byId[id]].id.Some?
    {
      FiledUnder(claims, entry, stream, slot, next, id);
    }
    forall at | at in filed.byIndex && filed.byIndex[at].id.Some?
      ensures filed.byIndex[at].id.value in filed.byId && filed.byId[filed.byIndex[at].id.value] == at
    {
      if at == slot {
        FiledUnder(claims, entry, stream, slot, next, filed.byIndex[slot].id.value);
      } else {
        OthersKeepTheirs(claims, entry, stream, slot, next, at);
      }
    }
  }

  lemma CoherentStep(claims: Claims, stream: string, entry: Entry)
    requires Coherent(claims) && NormalizeEntry(claims, stream, entry).Done? && !Clashes(claims, stream, entry)
    ensures var step := NormalizeEntry(claims, stream, entry);
            Coherent(step.claims) && KeepsPublished(claims, step.claims) && Settled(step.claims, step.value)
  {
    if entry.Entry? {
      var At(slot, next) := Locate(claims, entry);
      CoherentFiled(claims, entry, stream, slot, next);
      FiledKeepsId(claims, entry, stream, slot, next);
    }
  }

  /** Every published id has been emitted at its slot. */
  ghost predicate AllEmitted(claims: Claims, emitted: seq<Entry>) {
    && (forall i :: 0 <= i < |emitted| ==> Settled(claims, emitted[i]))
    && forall slot :: slot in claims.byIndex && claims.byIndex[slot].id.Some? ==>
         EmittedAt(emitted, slot, claims.byIndex[slot].id)
  }

  ghost predicate EmittedAt(emitted: seq<Entry>, slot: nat, id: Option<string>) {
    exists i :: 0 <= i < |emitted| && emitted[i].Entry? && emitted[i].index == Number(slot) && EntryId(emitted[i]) == id
  }

  lemma AllEmittedStep(claims: Claims, stream: string, entry: Entry, emitted: seq<Entry>)
    requires Coherent(claims) && NormalizeEntry(claims, stream, entry).Done? && !Clashes(claims, stream, entry)
    requires AllEmitted(claims, emitted)
    ensures var step := NormalizeEntry(claims, stream, entry); AllEmitted(step.claims, emitted + [step.value])
  {
    CoherentStep(claims, stream, entry);
    var step := NormalizeEntry(claims, stream, entry);
    var all := emitted + [step.value];
    forall slot | slot in step.claims.byIndex && step.claims.byIndex[slot].id.Some?
      ensures EmittedAt(all, slot, step.claims.byIndex[slot].id)
    {
      if slot in claims.byIndex && claims.byIndex[slot].id.Some? {
        var i :| 0 <= i < |emitted| && emitted[i].Entry? && emitted[i].index == Number(slot) && EntryId(emitted[i]) == claims.byIndex[slot].id;
        assert all[i] == emitted[i];
      } else {
        assert all[|emitted|] == step.value;
      }
    }
  }

  /** A clash emits one id under two indexes. */
  lemma ClashShares(claims: Claims, stream: string, entry: Entry, emitted: seq<Entry>, rest: seq<Entry>)
    requires Clashes(claims, stream, entry) && AllEmitted(claims, emitted)
    ensures NormalizeEntry(claims, stream, entry).Done?
    ensures !OneIdPerIndex(emitted + [NormalizeEntry(claims, stream, entry).value] + rest)
  {
    var slot := Locate(claims, entry).slot;
    var value := NormalizeEntry(claims, stream, entry).value;
    SyntheticSlotReadsBack(stream, slot);
    var other :| other in claims.byIndex && other != slot && claims.byIndex[other].id == Some(SyntheticId(stream, slot));
    assert EmittedAt(emitted, other, claims.byIndex[other].id);
    var i :| 0 <= i < |emitted| && emitted[i].Entry? && emitted[i].index == Number(other) && EntryId(emitted[i]) == claims.byIndex[other].id;
    FiledKeepsId(claims, entry, stream, slot, Locate(claims, entry).next);
    assert value.index == Number(slot) && EntryId(value) == Some(SyntheticId(stream, slot));
    SharedAt(emitted, value, rest, i);
  }

  lemma SharedAt(emitted: seq<Entry>, value: Entry, rest: seq<Entry>, i: nat)
    requires i < |emitted| && emitted[i].Entry? && value.Entry? && emitted[i].index != value.index
    requires EntryId(value).Some? && EntryId(emitted[i]) == EntryId(value)
    ensures !OneIdPerIndex(emitted + [value] + rest)
  {
    var all := emitted + [value] + rest;
    assert all[i] == emitted[i] && all[|emitted|] == value;
  }

  lemma {:induction false} FoldSharesIff(claims: Claims, emitted: seq<Entry>, fragments: seq<Fragment>)
    requires Coherent(claims) && AllEmitted(claims, emitted) && Fold(claims, fragments).Done?
    ensures OneIdPerIndex(emitted + Fold(claims, fragments).value) <==> NeverClashes(claims, fragments)
    decreases |fragments|
  {
    if fragments == [] {
      assert emitted + [] == emitted;
      CoherentBijection(claims, emitted);
    } else {
      var stream, entry := fragments[0].stream, fragments[0].entry;
      var step := NormalizeEntry(claims, stream, entry);
      var rest := Fold(step.claims, fragments[1..]).value;
      Associates(emitted, [step.value], rest);
      if Clashes(claims, stream, entry) {
        ClashShares(claims, stream, entry, emitted, rest);
      } else {
        CoherentStep(claims, stream, entry);
        AllEmittedStep(claims, stream, entry, emitted);
        FoldSharesIff(step.claims, emitted + [step.value], fragments[1..]);
      }
    }
  }

  /** Over every accepted stream, whatever ids the upstream sends: emitted indexes and emitted ids name
      the same calls if and only if no step makes up an id already published for another slot. */
  lemma BijectionIff(chunks: seq<Chunk>)
    requires NormalizeStream(FRESH, chunks).Done?
    ensures Fold(FRESH, Fragments(chunks)).Done?
    ensures OneIdPerIndex(Entries(Fragments(NormalizeStream(FRESH, chunks).value))) <==> NeverClashes(FRESH, Fragments(chunks))
  {
    StreamFold(FRESH, chunks);
    FoldSharesIff(FRESH, [], Fragments(chunks));
    assert [] + Fold(FRESH, Fragments(chunks)).value == Fold(FRESH, Fragments(chunks)).value;
  }

  /** An upstream that never uses the reserved form never brings that about. */
  lemma {:induction false} UpstreamNeverClashes(claims: Claims, fragments: seq<Fragment>)
    requires Sound(claims) && AllFromUpstream(fragments) && Fold(claims, fragments).Done?
    ensures NeverClashes(claims, fragments)
    decreases |fragments|
  {
    if fragments != [] {
      var stream, entry := fragments[0].stream, fragments[0].entry;
      SoundStep(claims, stream, entry);
      if entry.Entry? { SyntheticSlotReadsBack(stream, Locate(claims, entry).slot); }
      assert forall i :: 0 <= i < |fragments[1..]| ==> fragments[1..][i] == fragments[i + 1];
      UpstreamNeverClashes(NormalizeEntry(claims, stream, entry).claims, fragments[1..]);
    }
  }

  /** It does happen: an upstream that sends an id of the reserved form can make two calls share one
      id. */
  lemma ReservedIdsCanCollide()
    ensures var taken := Entry(Number(1), Text("synth_call_0"), Text("function"), Function(Text("f"), Text("")));
            var nameless := Entry(Number(0), Missing, Text("function"), Function(Text("g"), Text("")));
            var stream := [Chunk(Missing, Some([Choice(Delta(NoLegacy(Missing), Calls([taken, nameless])), Null)]))];
            NormalizeStream(FRESH, stream).Done? &&
            !OneIdPerIndex(Entries(Fragments(NormalizeStream(FRESH, stream).value)))
  {
    var taken := Entry(Number(1), Text("synth_call_0"), Text("function"), Function(Text("f"), Text("")));
    var nameless := Entry(Number(0), Missing, Text("function"), Function(Text("g"), Text("")));
    var choice := Choice(Delta(NoLegacy(Missing), Calls([taken, nameless])), Null);
    var stream := [Chunk(Missing, Some([choice]))];
    StreamFold(FRESH, stream);
    assert Fragments(stream) == [Fragment("call", taken), Fragment("call", nameless)] by {
      assert InChoices("call", [choice]) == InChoice("call", choice) + [];
      assert stream[1..] == [];
    }
    CollidingPair(taken, nameless);
    var emitted := Fold(FRESH, [Fragment("call", taken), Fragment("call", nameless)]).value;
    assert EntryId(emitted[0]) == EntryId(emitted[1]) && emitted[0].index != emitted[1].index;
  }

  lemma CollidingPair(taken: Entry, nameless: Entry)
    requires taken == Entry(Number(1), Text("synth_call_0"), Text("function"), Function(Text("f"), Text("")))
    requires nameless == Entry(Number(0), Missing, Text("function"), Function(Text("g"), Text("")))
    ensures var fold := Fold(FRESH, [Fragment("call", taken), Fragment("call", nameless)]);
            fold.Done? && fold.value == [taken, nameless.(id := taken.id)]
  {
    assert SyntheticId("call", 0) == "synth_call_0" by { assert Decimal(0) == "0"; }
    var first := NormalizeEntry(FRESH, "call", taken);
    assert first.Done? && first.value == taken;
    var second := NormalizeEntry(first.claims, "call", nameless);
    assert second.Done? && second.value == nameless.(id := taken.id);
    FoldTwo(FRESH, Fragment("call", taken), Fragment("call", nameless));
  }

  lemma FoldTwo(claims: Claims, a: Fragment, b: Fragment)
    requires NormalizeEntry(claims, a.stream, a.entry).Done?
    requires NormalizeEntry(NormalizeEntry(claims, a.stream, a.entry).claims, b.stream, b.entry).Done?
    ensures var first := NormalizeEntry(claims, a.stream, a.entry);
            var second := NormalizeEntry(first.claims, b.stream, b.entry);
            Fold(claims, [a, b]).Done? && Fold(claims, [a, b]).value == [first.value, second.value]
  {
    var first := NormalizeEntry(claims, a.stream, a.entry);
    assert [a, b][1..] == [b] && [b][1..] == [];
    assert Fold(first.claims, [b]).Done?;
  }
}
