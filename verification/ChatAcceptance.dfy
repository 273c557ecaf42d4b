/** Which fragments are accepted, and under which identity they come out, told by what has been sent and
    emitted so far. */
module ChatAcceptance {
  import opened Base
  import opened ChatFrames
  import opened ChatDialect
  import opened ChatStreams
  import opened ChatIdentity
  import opened ChatRouting

  /** A fragment as it was sent and as it came out. */
  datatype Step = Step(sent: Entry, emitted: Entry)

  function Zip(sent: seq<Fragment>, emitted: seq<Entry>): (past: seq<Step>)
    requires |sent| == |emitted|
    ensures |past| == |sent|
  {
    seq(|sent|, i requires 0 <= i < |sent| => Step(sent[i].entry, emitted[i]))
  }

  /** What an accepted run of fragments has sent and emitted. */
  function Past(sent: seq<Fragment>): seq<Step>
    requires Fold(FRESH, sent).Done?
  {
    FoldKeeps(FRESH, sent);
    Zip(sent, Fold(FRESH, sent).value)
  }

  // ---- reading the past ----

  predicate OutAt(step: Step, index: nat) {
    step.sent.Entry? && step.emitted.Entry? && step.emitted.index == Number(index)
  }

  ghost predicate CameOut(past: seq<Step>, index: nat) {
    exists i :: 0 <= i < |past| && OutAt(past[i], index)
  }

  /** A fragment sent with this id came out at this index. */
  ghost predicate SentAs(past: seq<Step>, id: string, index: nat) {
    exists i :: 0 <= i < |past| && OutAt(past[i], index) && EntryId(past[i].sent) == Some(id)
  }

  /** A fragment came out with this id at this index. */
  ghost predicate PublishedAs(past: seq<Step>, id: string, index: nat) {
    exists i :: 0 <= i < |past| && OutAt(past[i], index) && EntryId(past[i].emitted) == Some(id)
  }

  /** Exactly one index has come out. */
  ghost predicate OneOnly(past: seq<Step>) {
    exists index: nat :: CameOut(past, index) && forall other: nat :: CameOut(past, other) ==> other == index
  }

  /** The function first named at an index. */
  function FirstName(past: seq<Step>, index: nat): Option<string>
    decreases |past|
  {
    if past == [] then None
    else
      var earlier := FirstName(past[..|past| - 1], index);
      var last := past[|past| - 1];
      if earlier.None? && OutAt(last, index) && StartsCall(last.sent) then NonEmpty(last.sent.function_.name) else earlier
  }

  /** One past the greatest index that has come out. */
  function Free(past: seq<Step>): nat
    decreases |past|
  {
    if past == [] then 0
    else
      var earlier, last := Free(past[..|past| - 1]), past[|past| - 1];
      if last.sent.Entry? && last.emitted.Entry? && last.emitted.index.Number? && last.emitted.index.value >= earlier
      then last.emitted.index.value + 1 else earlier
  }

  lemma {:induction false} FreeIsFree(past: seq<Step>, index: nat)
    ensures CameOut(past, index) ==> index < Free(past)
    ensures Free(past) > 0 ==> CameOut(past, Free(past) - 1)
    decreases |past|
  {
    if past != [] {
      var before, last := past[..|past| - 1], past[|past| - 1];
      assert past == before + [last];
      OneMore(before, last, index);
      FreeIsFree(before, index);
      if Free(past) > 0 { OneMore(before, last, Free(past) - 1); }
    }
  }

  lemma OneMore(past: seq<Step>, last: Step, index: nat)
    ensures CameOut(past + [last], index) <==> CameOut(past, index) || OutAt(last, index)
  {
    var all := past + [last];
    assert all[|past|] == last;
    if CameOut(past, index) {
      var i :| 0 <= i < |past| && OutAt(past[i], index);
      assert all[i] == past[i];
    }
  }

  lemma OneMoreId(past: seq<Step>, last: Step, id: string, index: nat)
    ensures SentAs(past + [last], id, index) <==>
              SentAs(past, id, index) || (OutAt(last, index) && EntryId(last.sent) == Some(id))
    ensures PublishedAs(past + [last], id, index) <==>
              PublishedAs(past, id, index) || (OutAt(last, index) && EntryId(last.emitted) == Some(id))
  {
    var all := past + [last];
    assert all[|past|] == last;
    if SentAs(past, id, index) {
      var i :| 0 <= i < |past| && OutAt(past[i], index) && EntryId(past[i].sent) == Some(id);
      assert all[i] == past[i];
    }
    if PublishedAs(past, id, index) {
      var i :| 0 <= i < |past| && OutAt(past[i], index) && EntryId(past[i].emitted) == Some(id);
      assert all[i] == past[i];
    }
  }

  lemma OneMoreName(past: seq<Step>, last: Step, index: nat)
    ensures FirstName(past + [last], index) ==
              if FirstName(past, index).None? && OutAt(last, index) && StartsCall(last.sent)
              then NonEmpty(last.sent.function_.name) else FirstName(past, index)
    ensures Free(past + [last]) ==
              if last.sent.Entry? && last.emitted.Entry? && last.emitted.index.Number? && last.emitted.index.value >= Free(past)
              then last.emitted.index.value + 1 else Free(past)
  {
    assert (past + [last])[..|past|] == past;
  }

  // ---- what the claims know of the past ----

  /** In every run: the slots known, the first free one, and the functions named. */
  ghost predicate Knows(claims: Claims, past: seq<Step>) {
    && (forall slot: nat :: slot in claims.byIndex <==> CameOut(past, slot))
    && claims.next == Free(past)
    && (forall id :: id in claims.byId ==> claims.byId[id] in claims.byIndex)
    && (forall slot: nat :: slot in claims.byIndex ==> claims.byIndex[slot].name == FirstName(past, slot))
  }

  /** What a step does to the slots, the first free one and the name of the slot it files under. */
  lemma StepFiles(claims: Claims, past: seq<Step>, stream: string, entry: Entry)
    requires Knows(claims, past) && entry.Entry? && NormalizeEntry(claims, stream, entry).Done?
    ensures var step := NormalizeEntry(claims, stream, entry);
            step.value.Entry? && step.value.index.Number? &&
            var slot := step.value.index.value;
            slot in step.claims.byIndex && step.claims.byIndex == claims.byIndex[slot := step.claims.byIndex[slot]] &&
            step.claims.next == (if slot >= claims.next then slot + 1 else claims.next) &&
            step.claims.byIndex[slot].name ==
              (if slot in claims.byIndex && claims.byIndex[slot].name.Some? then claims.byIndex[slot].name
               else if StartsCall(entry) then NonEmpty(entry.function_.name) else None)
  {
    var slot := Locate(claims, entry).slot;
    if slot in claims.byIndex { FreeIsFree(past, slot); }
  }

  lemma FoldSnoc(sent: seq<Fragment>, next: Fragment)
    requires Fold(FRESH, sent).Done?
    ensures var mid := Fold(FRESH, sent);
            var step := NormalizeEntry(mid.claims, next.stream, next.entry);
            var all := Fold(FRESH, sent + [next]);
            (all.Done? <==> step.Done?) &&
            (all.Done? ==> all.claims == step.claims && all.value == mid.value + [step.value])
  {
    FoldConcat(FRESH, sent, [next]);
    var claims := Fold(FRESH, sent).claims;
    var step := NormalizeEntry(claims, next.stream, next.entry);
    assert [next][1..] == [];
    assert step.Done? ==> Fold(claims, [next]).Done? && Fold(claims, [next]).value == [step.value] + [];
  }

  lemma KnowsStep(claims: Claims, past: seq<Step>, stream: string, entry: Entry)
    requires Knows(claims, past) && NormalizeEntry(claims, stream, entry).Done?
    ensures var step := NormalizeEntry(claims, stream, entry);
            Knows(step.claims, past + [Step(entry, step.value)])
  {
    var step := NormalizeEntry(claims, stream, entry);
    var last := Step(entry, step.value);
    var all := past + [last];
    forall slot: nat
      ensures slot in step.claims.byIndex <==> CameOut(all, slot)
      ensures slot in step.claims.byIndex ==> step.claims.byIndex[slot].name == FirstName(all, slot)
      ensures step.claims.next == Free(all)
    {
      OneMore(past, last, slot);
      OneMoreName(past, last, slot);
      if entry.Entry? {
        StepFiles(claims, past, stream, entry);
        if slot !in claims.byIndex { NeverNamed(past, slot); }
      }
    }
    assert step.claims.next == Free(all) by { OneMoreName(past, last, 0); if entry.Entry? { StepFiles(claims, past, stream, entry); } }
    if entry.Entry? {
      StepFiles(claims, past, stream, entry);
      var At(slot, next) := Locate(claims, entry);
      forall id | id in step.claims.byId
        ensures step.claims.byId[id] in step.claims.byIndex
      {
        FiledUnder(claims, entry, stream, slot, next, id);
      }
    }
  }

  lemma {:induction false} NeverNamed(past: seq<Step>, index: nat)
    requires !CameOut(past, index)
    ensures FirstName(past, index).None?
    decreases |past|
  {
    if past != [] {
      var before, last := past[..|past| - 1], past[|past| - 1];
      assert past == before + [last];
      OneMore(before, last, index);
      NeverNamed(before, index);
    }
  }

  lemma {:induction false} RunKnows(sent: seq<Fragment>)
    requires Fold(FRESH, sent).Done?
    ensures Knows(Fold(FRESH, sent).claims, Past(sent))
    decreases |sent|
  {
    if sent != [] {
      var before, last := sent[..|sent| - 1], sent[|sent| - 1];
      assert sent == before + [last];
      PastSnoc(before, last);
      RunKnows(before);
      KnowsStep(Fold(FRESH, before).claims, Past(before), last.stream, last.entry);
    }
  }

  lemma PastSnoc(sent: seq<Fragment>, next: Fragment)
    requires Fold(FRESH, sent + [next]).Done?
    ensures Fold(FRESH, sent).Done?
    ensures var mid := Fold(FRESH, sent).claims;
            var step := NormalizeEntry(mid, next.stream, next.entry);
            step.Done? && Fold(FRESH, sent + [next]).claims == step.claims &&
            Past(sent + [next]) == Past(sent) + [Step(next.entry, step.value)]
  {
    FoldConcat(FRESH, sent, [next]);
    FoldSnoc(sent, next);
    FoldKeeps(FRESH, sent);
    FoldKeeps(FRESH, sent + [next]);
    var step := NormalizeEntry(Fold(FRESH, sent).claims, next.stream, next.entry);
    assert Past(sent + [next]) == Past(sent) + [Step(next.entry, step.value)];
  }

  // ---- what they tell of ids, when the upstream stays clear of the reserved form ----

  ghost predicate Tells(claims: Claims, past: seq<Step>) {
    && Sound(claims) && Owned(claims) && Knows(claims, past)
    && (forall id, slot: nat :: !LooksSynthetic(id) ==>
          (id in claims.byId && claims.byId[id] == slot <==> SentAs(past, id, slot)))
    && (forall id, slot: nat :: slot in claims.byIndex && claims.byIndex[slot].upstreamId == Some(id) <==> SentAs(past, id, slot))
    && (forall id, slot: nat :: slot in claims.byIndex && claims.byIndex[slot].id == Some(id) <==> PublishedAs(past, id, slot))
  }

  lemma TellsStep(claims: Claims, past: seq<Step>, stream: string, entry: Entry)
    requires Tells(claims, past) && FromUpstream(entry) && NormalizeEntry(claims, stream, entry).Done?
    ensures var step := NormalizeEntry(claims, stream, entry);
            Tells(step.claims, past + [Step(entry, step.value)])
  {
    var step := NormalizeEntry(claims, stream, entry);
    var last := Step(entry, step.value);
    SoundStep(claims, stream, entry);
    OwnedStep(claims, stream, entry);
    KnowsStep(claims, past, stream, entry);
    forall id, slot: nat
      ensures !LooksSynthetic(id) ==>
                (id in step.claims.byId && step.claims.byId[id] == slot <==> SentAs(past + [last], id, slot))
      ensures slot in step.claims.byIndex && step.claims.byIndex[slot].upstreamId == Some(id) <==> SentAs(past + [last], id, slot)
      ensures slot in step.claims.byIndex && step.claims.byIndex[slot].id == Some(id) <==> PublishedAs(past + [last], id, slot)
    {
      OneMoreId(past, last, id, slot);
      if entry.Entry? { TellsId(claims, past, stream, entry, id, slot); }
    }
  }

  lemma TellsId(claims: Claims, past: seq<Step>, stream: string, entry: Entry, id: string, slot: nat)
    requires Tells(claims, past) && FromUpstream(entry) && entry.Entry? && NormalizeEntry(claims, stream, entry).Done?
    ensures var step := NormalizeEntry(claims, stream, entry);
            var here := step.value.index == Number(slot);
            (!LooksSynthetic(id) ==>
               (id in step.claims.byId && step.claims.byId[id] == slot <==>
                (id in claims.byId && claims.byId[id] == slot) || (here && EntryId(entry) == Some(id)))) &&
            (slot in step.claims.byIndex && step.claims.byIndex[slot].upstreamId == Some(id) <==>
             (slot in claims.byIndex && claims.byIndex[slot].upstreamId == Some(id)) || (here && EntryId(entry) == Some(id))) &&
            (slot in step.claims.byIndex && step.claims.byIndex[slot].id == Some(id) <==>
             (slot in claims.byIndex && claims.byIndex[slot].id == Some(id)) || (here && EntryId(step.value) == Some(id)))
  {
    var At(at, next) := Locate(claims, entry);
    if !LooksSynthetic(id) { TellsClaim(claims, entry, stream, at, next, id, slot); }
    TellsPublished(claims, entry, stream, at, next, id);
    InformedOwner(claims, entry, stream);
  }

  lemma TellsClaim(claims: Claims, entry: Entry, stream: string, at: nat, next: nat, id: string, slot: nat)
    requires Sound(claims) && FromUpstream(entry) && entry.Entry? && Locate(claims, entry) == At(at, next)
    requires !LooksSynthetic(id)
    ensures var byId := Filed(claims, entry, stream, at, next).byId;
            id in byId && byId[id] == slot <==>
            (id in claims.byId && claims.byId[id] == slot) || (at == slot && EntryId(entry) == Some(id))
  {
    LocateKeepsClaims(claims, entry);
    FiledUnder(claims, entry, stream, at, next, id);
    FiledKeepsId(claims, entry, stream, at, next);
    SyntheticSlotReadsBack(stream, at);
  }

  lemma TellsPublished(claims: Claims, entry: Entry, stream: string, at: nat, next: nat, id: string)
    requires Sound(claims) && entry.Entry? && Locate(claims, entry) == At(at, next)
    ensures var owner := Filed(claims, entry, stream, at, next).byIndex[at];
            (owner.id == Some(id) <==>
             (at in claims.byIndex && claims.byIndex[at].id == Some(id)) || EntryId(Published(entry, owner, at)) == Some(id))
  {
    FiledKeepsId(claims, entry, stream, at, next);
    SyntheticSlotReadsBack(stream, at);
  }

  lemma {:induction false} RunTells(sent: seq<Fragment>)
    requires Fold(FRESH, sent).Done? && AllFromUpstream(sent)
    ensures Tells(Fold(FRESH, sent).claims, Past(sent))
    decreases |sent|
  {
    if sent != [] {
      var before, last := sent[..|sent| - 1], sent[|sent| - 1];
      assert sent == before + [last];
      assert forall i :: 0 <= i < |before| ==> before[i] == sent[i];
      PastSnoc(before, last);
      RunTells(before);
      TellsStep(Fold(FRESH, before).claims, Past(before), last.stream, last.entry);
    }
  }

  // ---- the verdict on the next fragment ----

  /** The next fragment contradicts the past or has no unique owner. With an index: its id has come out at
      another index, or the index has another upstream id, or it has another published id and the
      fragment names another function than its first. Without one, and naming no function: its id has
      never been sent, or it has none and not exactly one index has come out. */
  ghost predicate Refused(past: seq<Step>, entry: Entry)
    requires entry.Entry?
  {
    if entry.index.Number? then
      var index := entry.index.value;
      EntryId(entry).Some? &&
      var id := EntryId(entry).value;
      || (exists other: nat :: other != index && SentAs(past, id, other))
      || (exists another :: another != id && SentAs(past, another, index))
      || ((exists published :: published != id && PublishedAs(past, published, index)) &&
          StartsCall(entry) && FirstName(past, index) != NonEmpty(entry.function_.name))
    else
      !StartsCall(entry) &&
      if EntryId(entry).Some? then !exists index: nat :: SentAs(past, EntryId(entry).value, index) else !OneOnly(past)
  }

  /** The index it comes out at: its own; else the one its id came out at; else, naming a function, the
      first one past all that have come out; else the only one that has. */
  ghost predicate ComesOutAt(past: seq<Step>, entry: Entry, index: nat)
    requires entry.Entry?
  {
    if entry.index.Number? then entry.index == Number(index)
    else if EntryId(entry).Some? && exists other: nat :: SentAs(past, EntryId(entry).value, other) then
      SentAs(past, EntryId(entry).value, index)
    else if StartsCall(entry) then index == Free(past)
    else CameOut(past, index)
  }

  /** The id it comes out with: the one published for the index; where none is yet, its own, or one made
      up for the call it begins; else its id is left as it is. */
  ghost predicate ComesOutAs(past: seq<Step>, stream: string, entry: Entry, index: nat, id: Json)
    requires entry.Entry?
  {
    if exists published :: PublishedAs(past, published, index) then
      id.Text? && PublishedAs(past, id.text, index)
    else
      id == (if EntryId(entry).Some? then Text(EntryId(entry).value)
             else if StartsCall(entry) then Text("synth_" + stream + "_" + Decimal(index)) else entry.id)
  }

  lemma OneOnlySole(claims: Claims, past: seq<Step>)
    requires Knows(claims, past)
    ensures OneOnly(past) <==> |claims.byIndex| == 1
    ensures |claims.byIndex| == 1 ==> CameOut(past, SoleKey(claims.byIndex))
  {
    if OneOnly(past) {
      var index: nat :| CameOut(past, index) && forall other: nat :: CameOut(past, other) ==> other == index;
      SoleMember(claims.byIndex, index);
    }
    if |claims.byIndex| == 1 { SoleIsOnly(claims, past); }
  }

  lemma SoleIsOnly(claims: Claims, past: seq<Step>)
    requires Knows(claims, past) && |claims.byIndex| == 1
    ensures CameOut(past, SoleKey(claims.byIndex)) && OneOnly(past)
  {
    var sole := SoleKey(claims.byIndex);
    MemberIsSole(claims.byIndex);
    assert CameOut(past, sole);
  }

  lemma MemberIsSole<T>(m: map<nat, T>)
    requires |m| == 1
    ensures forall k: nat :: k in m <==> k == SoleKey(m)
  {
    forall k: nat
      ensures k in m <==> k == SoleKey(m)
    {
      assert k in m <==> k in m.Keys;
    }
  }

  lemma SoleMember<T>(m: map<nat, T>, k: nat)
    requires k in m && forall other: nat :: other in m ==> other == k
    ensures |m| == 1
  {
    assert m.Keys == {k};
  }

  /** Over every run, whatever ids were sent: a fragment without an id is refused if and only if it has no
      index, names no function, and not exactly one index has come out; accepted, it comes out at its own
      index, or the first free one when it begins a call, or that only one. */
  lemma NextWithoutIdIff(sent: seq<Fragment>, next: Fragment)
    requires Fold(FRESH, sent).Done? && next.entry.Entry? && EntryId(next.entry).None?
    ensures var past, all := Past(sent), Fold(FRESH, sent + [next]);
            (all.Done? <==> !Refused(past, next.entry)) &&
            (all.Done? ==>
               |all.value| == |sent| + 1 && all.value[..|sent|] == Fold(FRESH, sent).value &&
               all.value[|sent|].Entry? && all.value[|sent|].index.Number? &&
               ComesOutAt(past, next.entry, all.value[|sent|].index.value))
  {
    FoldSnoc(sent, next);
    FoldKeeps(FRESH, sent);
    RunKnows(sent);
    VerdictWithoutId(Fold(FRESH, sent).claims, Past(sent), next.stream, next.entry);
  }

  lemma VerdictWithoutId(claims: Claims, past: seq<Step>, stream: string, entry: Entry)
    requires Knows(claims, past) && entry.Entry? && EntryId(entry).None?
    ensures var step := NormalizeEntry(claims, stream, entry);
            (step.Done? <==> !Refused(past, entry)) &&
            (step.Done? ==>
               step.value.Entry? && step.value.index.Number? && ComesOutAt(past, entry, step.value.index.value))
  {
    if !entry.index.Number? && !StartsCall(entry) { OneOnlySole(claims, past); }
  }

  lemma ConflictsIff(claims: Claims, past: seq<Step>, entry: Entry)
    requires Tells(claims, past) && FromUpstream(entry) && entry.Entry? && entry.index.Number?
    ensures Conflicts(claims, entry, entry.index.value) <==> Refused(past, entry)
  {
    var index := entry.index.value;
    if EntryId(entry).Some? {
      var id := EntryId(entry).value;
      if id in claims.byId { assert SentAs(past, id, claims.byId[id]); }
      if index in claims.byIndex {
        var owner := claims.byIndex[index];
        assert Consistent(owner);
        if owner.id.Some? { assert PublishedAs(past, owner.id.value, index); }
        if owner.upstreamId.Some? { assert SentAs(past, owner.upstreamId.value, index); }
      }
    }
  }

  lemma IdIsPublished(claims: Claims, past: seq<Step>, stream: string, entry: Entry)
    requires Tells(claims, past) && FromUpstream(entry) && entry.Entry? && NormalizeEntry(claims, stream, entry).Done?
    ensures var value := NormalizeEntry(claims, stream, entry).value;
            value.Entry? && value.index.Number? && ComesOutAs(past, stream, entry, value.index.value, value.id)
  {
    var At(slot, free) := Locate(claims, entry);
    FiledKeepsId(claims, entry, stream, slot, free);
    if slot in claims.byIndex && claims.byIndex[slot].id.Some? {
      assert PublishedAs(past, claims.byIndex[slot].id.value, slot);
    }
  }

  /** Over every run whose upstream stays clear of the reserved form: the next fragment is refused exactly
      when it contradicts what has been sent and come out, or has no unique owner in it; and accepted, it
      comes out under the index and the id that these determine. */
  lemma NextFragmentIff(sent: seq<Fragment>, next: Fragment)
    requires Fold(FRESH, sent).Done? && AllFromUpstream(sent)
    requires next.entry.Entry? && FromUpstream(next.entry)
    ensures var past, all := Past(sent), Fold(FRESH, sent + [next]);
            (all.Done? <==> !Refused(past, next.entry)) &&
            (all.Done? ==>
               |all.value| == |sent| + 1 && all.value[..|sent|] == Fold(FRESH, sent).value &&
               var value := all.value[|sent|];
               value.Entry? && value.index.Number? &&
               ComesOutAt(past, next.entry, value.index.value) &&
               ComesOutAs(past, next.stream, next.entry, value.index.value, value.id))
  {
    FoldSnoc(sent, next);
    FoldKeeps(FRESH, sent);
    RunTells(sent);
    var claims, past := Fold(FRESH, sent).claims, Past(sent);
    Verdict(claims, past, next.stream, next.entry);
    if NormalizeEntry(claims, next.stream, next.entry).Done? { IdIsPublished(claims, past, next.stream, next.entry); }
  }

  /** Over every run, what is no fragment at all is passed on as it is and teaches nothing. */
  lemma OthersPass(sent: seq<Fragment>, next: Fragment)
    requires Fold(FRESH, sent).Done? && next.entry.NotAnEntry?
    ensures var before, all := Fold(FRESH, sent), Fold(FRESH, sent + [next]);
            all.Done? && all.value == before.value + [next.entry] && all.claims == before.claims
  {
    FoldSnoc(sent, next);
  }

  lemma Verdict(claims: Claims, past: seq<Step>, stream: string, entry: Entry)
    requires Tells(claims, past) && FromUpstream(entry) && entry.Entry?
    ensures var step := NormalizeEntry(claims, stream, entry);
            (step.Done? <==> !Refused(past, entry)) &&
            (step.Done? ==>
               step.value.Entry? && step.value.index.Number? && ComesOutAt(past, entry, step.value.index.value))
  {
    if entry.index.Number? {
      ConflictsIff(claims, past, entry);
    } else if EntryId(entry).Some? {
      var id := EntryId(entry).value;
      if id in claims.byId { assert SentAs(past, id, claims.byId[id]); }
    } else {
      VerdictWithoutId(claims, past, stream, entry);
    }
  }
}
