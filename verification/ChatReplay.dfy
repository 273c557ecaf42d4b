/** Normalising is idempotent: a second pass over a normalised stream refuses nothing and changes
    nothing. */
module ChatReplay {
  import opened Base
  import opened ChatFrames
  import opened ChatDialect
  import opened ChatStreams
  import opened ChatIdentity

  /** What a second pass knows when the first pass has reached `first`: the same slots with the
      same published ids, all of them taken to be the upstream's own, and no other ids. */
  ghost predicate Replays(first: Claims, second: Claims) {
    && second.byIndex.Keys == first.byIndex.Keys
    && (forall slot :: slot in first.byIndex ==>
          second.byIndex[slot].id == first.byIndex[slot].id && !second.byIndex[slot].syntheticId)
    && (forall id :: id in second.byId ==>
          second.byId[id] in first.byIndex && first.byIndex[second.byId[id]].id == Some(id))
    && (forall slot :: slot in first.byIndex && first.byIndex[slot].id.Some? ==>
          first.byIndex[slot].id.value in second.byId && second.byId[first.byIndex[slot].id.value] == slot)
  }

  /** `entry` is what the first pass emits on its way from `before` to `after`: it has an index, and
      the id of its slot whenever that slot has one. */
  ghost predicate Emits(before: Claims, after: Claims, entry: Entry) {
    && entry.Entry? && entry.index.Number?
    && var slot := entry.index.value;
    && Coherent(after) && KeepsPublished(before, after)
    && slot in after.byIndex && after.byIndex == before.byIndex[slot := after.byIndex[slot]]
    && EntryId(entry) == after.byIndex[slot].id
    && (StartsCall(entry) ==> EntryId(entry).Some?)
  }

  lemma FirstPassEmits(claims: Claims, stream: string, entry: Entry)
    requires Coherent(claims) && entry.Entry?
    requires NormalizeEntry(claims, stream, entry).Done? && !Clashes(claims, stream, entry)
    ensures var Done(after, published, _) := NormalizeEntry(claims, stream, entry);
            Emits(claims, after, published)
  {
    CoherentStep(claims, stream, entry);
  }

  lemma SecondPassLocates(before: Claims, after: Claims, second: Claims, entry: Entry)
    requires Emits(before, after, entry) && Replays(before, second)
    ensures Locate(second, entry) == At(entry.index.value, Max(second.next, entry.index.value + 1))
  {
  }

  lemma SecondPassFiles(before: Claims, after: Claims, second: Claims, again: string, entry: Entry, next: nat)
    requires Emits(before, after, entry) && Replays(before, second)
    ensures var slot := entry.index.value;
            var filed := Filed(second, entry, again, slot, next);
            filed.byIndex[slot].id == EntryId(entry) && !filed.byIndex[slot].syntheticId &&
            filed.byIndex == second.byIndex[slot := filed.byIndex[slot]] &&
            filed.byId == Remember(second.byId, EntryId(entry), slot)
  {
  }

  lemma ReplaysNext(before: Claims, after: Claims, second: Claims, filed: Claims, entry: Entry)
    requires Emits(before, after, entry) && Replays(before, second)
    requires var slot := entry.index.value;
             slot in filed.byIndex && filed.byIndex[slot].id == EntryId(entry) && !filed.byIndex[slot].syntheticId &&
             filed.byIndex == second.byIndex[slot := filed.byIndex[slot]] &&
             filed.byId == Remember(second.byId, EntryId(entry), slot)
    ensures Replays(after, filed)
  {
    var slot, id := entry.index.value, EntryId(entry);
    forall other | other in filed.byId
      ensures filed.byId[other] in after.byIndex && after.byIndex[filed.byId[other]].id == Some(other)
    {
      if Some(other) != id { assert other in second.byId; }
    }
    forall at | at in after.byIndex && after.byIndex[at].id.Some?
      ensures after.byIndex[at].id.value in filed.byId && filed.byId[after.byIndex[at].id.value] == at
    {
      if at != slot {
        assert before.byIndex[at].id == after.byIndex[at].id;
        assert after.byId[after.byIndex[at].id.value] == at;
      }
    }
  }

  lemma ReplayStep(first: Claims, second: Claims, stream: string, again: string, entry: Entry)
    requires Coherent(first) && Replays(first, second)
    requires NormalizeEntry(first, stream, entry).Done? && !Clashes(first, stream, entry)
    ensures var Done(after, published, _) := NormalizeEntry(first, stream, entry);
            var replay := NormalizeEntry(second, again, published);
            replay.Done? && replay.value == published && !replay.changed && Replays(after, replay.claims)
  {
    if entry.Entry? {
      var Done(after, published, _) := NormalizeEntry(first, stream, entry);
      FirstPassEmits(first, stream, entry);
      SecondPassLocates(first, after, second, published);
      var slot := published.index.value;
      var next := Max(second.next, slot + 1);
      SecondPassFiles(first, after, second, again, published, next);
      ReplaysNext(first, after, second, Filed(second, published, again, slot, next), published);
    }
  }

  /** A run that never clashes does not clash in either of its parts. */
  lemma {:induction false} NeverClashesParts(claims: Claims, a: seq<Fragment>, b: seq<Fragment>)
    requires Fold(claims, a + b).Done? && NeverClashes(claims, a + b)
    ensures Fold(claims, a).Done? && NeverClashes(claims, a)
    ensures Fold(Fold(claims, a).claims, b).Done? && NeverClashes(Fold(claims, a).claims, b)
    decreases |a|
  {
    FoldConcat(claims, a, b);
    if a == [] {
      assert a + b == b;
    } else {
      assert (a + b)[1..] == a[1..] + b;
      NeverClashesParts(NormalizeEntry(claims, a[0].stream, a[0].entry).claims, a[1..], b);
    }
  }

  /** The second pass repeats what the first published. */
  ghost predicate Repeats<T>(first: Outcome<T>, second: Outcome<T>) {
    && first.Done? && second.Done? && second.value == first.value && !second.changed
    && Coherent(first.claims) && Replays(first.claims, second.claims)
  }

  ghost predicate Clean(claims: Claims, fragments: seq<Fragment>) {
    Fold(claims, fragments).Done? && NeverClashes(claims, fragments)
  }

  lemma {:induction false} ReplayEntries(first: Claims, second: Claims, stream: string, again: string, entries: seq<Entry>)
    requires Coherent(first) && Replays(first, second) && Clean(first, Tagged(stream, entries))
    requires NormalizeEntries(first, stream, entries).Done?
    ensures var outcome := NormalizeEntries(first, stream, entries);
            Repeats(outcome, NormalizeEntries(second, again, outcome.value))
    decreases |entries|
  {
    if entries != [] {
      var tagged := Tagged(stream, entries);
      assert tagged[1..] == Tagged(stream, entries[1..]) && tagged[0] == Fragment(stream, entries[0]);
      ReplayStep(first, second, stream, again, entries[0]);
      CoherentStep(first, stream, entries[0]);
      var step := NormalizeEntry(first, stream, entries[0]);
      var replay := NormalizeEntry(second, again, step.value);
      ReplayEntries(step.claims, replay.claims, stream, again, entries[1..]);
      var rest := NormalizeEntries(step.claims, stream, entries[1..]).value;
      assert ([step.value] + rest)[1..] == rest;
    }
  }

  lemma ReplayChoice(first: Claims, second: Claims, stream: string, again: string, choice: Choice)
    requires Coherent(first) && Replays(first, second) && Clean(first, InChoice(stream, choice))
    requires NormalizeChoice(first, stream, choice).Done?
    ensures var outcome := NormalizeChoice(first, stream, choice);
            Repeats(outcome, NormalizeChoice(second, again, outcome.value))
  {
    if choice.Choice? {
      var delta := Modern(choice.delta, stream);
      if delta.Delta? && delta.calls.Calls? { ReplayEntries(first, second, stream, again, delta.calls.entries); }
    }
  }

  lemma {:induction false} ReplayChoices(first: Claims, second: Claims, stream: string, again: string, choices: seq<Choice>)
    requires Coherent(first) && Replays(first, second) && Clean(first, InChoices(stream, choices))
    requires NormalizeChoices(first, stream, choices).Done?
    ensures var outcome := NormalizeChoices(first, stream, choices);
            Repeats(outcome, NormalizeChoices(second, again, outcome.value))
    decreases |choices|
  {
    if choices != [] {
      NeverClashesParts(first, InChoice(stream, choices[0]), InChoices(stream, choices[1..]));
      ChoiceFold(first, stream, choices[0]);
      ReplayChoice(first, second, stream, again, choices[0]);
      var step := NormalizeChoice(first, stream, choices[0]);
      var replay := NormalizeChoice(second, again, step.value);
      ReplayChoices(step.claims, replay.claims, stream, again, choices[1..]);
      var rest := NormalizeChoices(step.claims, stream, choices[1..]).value;
      assert ([step.value] + rest)[1..] == rest;
    }
  }

  lemma ReplayChunk(first: Claims, second: Claims, chunk: Chunk)
    requires Coherent(first) && Replays(first, second) && Clean(first, InChunk(chunk))
    requires NormalizeChunk(first, chunk).Done?
    ensures var outcome := NormalizeChunk(first, chunk);
            Repeats(outcome, NormalizeChunk(second, outcome.value))
  {
    if chunk.choices.Some? { ReplayChoices(first, second, StreamId(chunk), StreamId(chunk), chunk.choices.value); }
  }

  lemma {:induction false} ReplayStream(first: Claims, second: Claims, chunks: seq<Chunk>)
    requires Coherent(first) && Replays(first, second) && Clean(first, Fragments(chunks))
    requires NormalizeStream(first, chunks).Done?
    ensures var outcome := NormalizeStream(first, chunks);
            Repeats(outcome, NormalizeStream(second, outcome.value))
    decreases |chunks|
  {
    if chunks != [] {
      NeverClashesParts(first, InChunk(chunks[0]), Fragments(chunks[1..]));
      ChunkFold(first, chunks[0]);
      ReplayChunk(first, second, chunks[0]);
      var step := NormalizeChunk(first, chunks[0]);
      var replay := NormalizeChunk(second, step.value);
      ReplayStream(step.claims, replay.claims, chunks[1..]);
      var rest := NormalizeStream(step.claims, chunks[1..]).value;
      assert ([step.value] + rest)[1..] == rest;
    }
  }

  // ---- what a second pass shows of the first ----

  /** Published ids are not empty. */
  ghost predicate Nonempty(claims: Claims) {
    forall slot :: slot in claims.byIndex && claims.byIndex[slot].id.Some? ==> claims.byIndex[slot].id.value != ""
  }

  /** A fragment that names its function comes out with an id. */
  ghost predicate Identified(entry: Entry) {
    entry.Entry? && StartsCall(entry) ==> EntryId(entry).Some?
  }

  lemma IdentifiesStep(claims: Claims, stream: string, entry: Entry)
    requires Nonempty(claims) && NormalizeEntry(claims, stream, entry).Done?
    ensures var step := NormalizeEntry(claims, stream, entry); Nonempty(step.claims) && Identified(step.value)
  {
    if entry.Entry? {
      var At(slot, next) := Locate(claims, entry);
      SyntheticSlotReadsBack(stream, slot);
      FiledKeepsId(claims, entry, stream, slot, next);
    }
  }

  lemma {:induction false} FoldIdentifies(claims: Claims, fragments: seq<Fragment>)
    requires Nonempty(claims) && Fold(claims, fragments).Done?
    ensures forall i :: 0 <= i < |Fold(claims, fragments).value| ==> Identified(Fold(claims, fragments).value[i])
    decreases |fragments|
  {
    if fragments != [] {
      var stream, entry := fragments[0].stream, fragments[0].entry;
      IdentifiesStep(claims, stream, entry);
      FoldIdentifies(NormalizeEntry(claims, stream, entry).claims, fragments[1..]);
    }
  }

  /** Where every naming fragment has an id, none is made up, so nothing clashes. */
  lemma {:induction false} IdentifiedNeverClashes(claims: Claims, fragments: seq<Fragment>)
    requires Fold(claims, fragments).Done? && forall i :: 0 <= i < |fragments| ==> Identified(fragments[i].entry)
    ensures NeverClashes(claims, fragments)
    decreases |fragments|
  {
    if fragments != [] {
      assert forall i :: 0 <= i < |fragments[1..]| ==> fragments[1..][i] == fragments[i + 1];
      assert Identified(fragments[0].entry);
      IdentifiedNeverClashes(NormalizeEntry(claims, fragments[0].stream, fragments[0].entry).claims, fragments[1..]);
    }
  }

  /** A stream that a second pass leaves alone has one id per index. */
  lemma RepeatedIsBijective(chunks: seq<Chunk>)
    requires NormalizeStream(FRESH, chunks).Done?
    requires var published := NormalizeStream(FRESH, chunks).value;
             NormalizeStream(FRESH, published).Done? && NormalizeStream(FRESH, published).value == published
    ensures OneIdPerIndex(Entries(Fragments(NormalizeStream(FRESH, chunks).value)))
  {
    var published := NormalizeStream(FRESH, chunks).value;
    var sent := Fragments(published);
    StreamFold(FRESH, chunks);
    FoldIdentifies(FRESH, Fragments(chunks));
    forall i | 0 <= i < |sent|
      ensures Identified(sent[i].entry)
    {
      assert Entries(sent)[i] == sent[i].entry;
    }
    StreamFold(FRESH, published);
    IdentifiedNeverClashes(FRESH, sent);
    BijectionIff(published);
  }

  /** Feeding an accepted stream's own output to a fresh normaliser refuses nothing and changes nothing
      (tool calls, legacy frames and finish reasons alike) if and only if no step of the first pass made
      up an id already published for another slot. */
  lemma NormalizingIsIdempotentIff(chunks: seq<Chunk>)
    requires NormalizeStream(FRESH, chunks).Done?
    ensures Fold(FRESH, Fragments(chunks)).Done?
    ensures var published := NormalizeStream(FRESH, chunks).value;
            var replay := NormalizeStream(FRESH, published);
            (replay.Done? && replay.value == published && !replay.changed) <==> NeverClashes(FRESH, Fragments(chunks))
  {
    BijectionIff(chunks);
    var published := NormalizeStream(FRESH, chunks).value;
    var replay := NormalizeStream(FRESH, published);
    if NeverClashes(FRESH, Fragments(chunks)) {
      ReplayStream(FRESH, FRESH, chunks);
    } else if replay.Done? && replay.value == published {
      RepeatedIsBijective(chunks);
      assert false;
    }
  }

  /** So it is for every upstream that sends no id of the reserved form. */
  lemma NormalizingIsIdempotent(chunks: seq<Chunk>)
    requires AllFromUpstream(Fragments(chunks)) && NormalizeStream(FRESH, chunks).Done?
    ensures var published := NormalizeStream(FRESH, chunks).value;
            var replay := NormalizeStream(FRESH, published);
            replay.Done? && replay.value == published && !replay.changed
  {
    NormalizingIsIdempotentIff(chunks);
    UpstreamNeverClashes(FRESH, Fragments(chunks));
  }
}
