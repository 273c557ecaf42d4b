/** The normaliser as the program runs it: per-stream state updated in place, chunk by chunk. */
module ChatRewriter {
  import opened Base
  import opened ChatFrames
  import opened ChatDialect

  class ToolCallIndexState {
    var byId: map<string, nat>
    var byIndex: map<nat, Owner>
    var next: nat
    var last: Option<nat>

    function View(): Claims
      reads this
    {
      Claims(byId, byIndex, next, last)
    }

    constructor ()
      ensures View() == FRESH
    {
      byId, byIndex, next, last := map[], map[], 0, None;
    }

    /** Finds the slot of one fragment and keeps the first free slot ahead of it. */
    method Place(entry: Entry) returns (place: ChatDialect.Place)
      requires entry.Entry?
      modifies `next
      ensures place == Locate(old(View()), entry)
      ensures next == if place.At? then place.next else old(next)
    {
      var id := EntryId(entry);
      if entry.index.Number? {
        var slot := entry.index.value;
        if Conflicts(View(), entry, slot) { return Nowhere; }
        next := Max(next, slot + 1);
        return At(slot, next);
      }
      var slot: nat;
      if id.Some? && id.value in byId {
        slot := byId[id.value];
      } else if StartsCall(entry) {
        slot := next;
        next := next + 1;
      } else {
        if id.Some? || |byIndex| != 1 { return Nowhere; }
        slot := SoleKey(byIndex);
      }
      place := At(slot, next);
    }

    /** Takes in what a fragment says about the owner of its slot, and gives the owner one stable id. */
    static method Inform(owner: Owner, entry: Entry, stream: string, slot: nat) returns (informed: Owner)
      requires entry.Entry?
      ensures informed == Informed(owner, entry, stream, slot)
    {
      informed := owner;
      if informed.upstreamId.None? { informed := informed.(upstreamId := EntryId(entry)); }
      if StartsCall(entry) && informed.name.None? { informed := informed.(name := NonEmpty(entry.function_.name)); }
      if informed.id.None? && (StartsCall(entry) || EntryId(entry).Some?) {
        var id := EntryId(entry);
        informed := informed.(id := if id.Some? then id else Some(SyntheticId(stream, slot)), syntheticId := id.None?);
      }
    }

    /** Files one fragment under its slot and publishes the slot's id on it. */
    method Publish(stream: string, entry: Entry, slot: nat) returns (published: Entry, changed: bool)
      requires entry.Entry?
      modifies `byId, `byIndex, `last
      ensures View() == Filed(old(View()), entry, stream, slot, old(next))
      ensures slot in byIndex && published == Published(entry, byIndex[slot], slot)
      ensures changed == (published != entry)
    {
      var id := EntryId(entry);
      if id.Some? { byId := byId[id.value := slot]; }
      last := Some(slot);
      var owner := if slot in byIndex then byIndex[slot] else Owner(None, None, None, false, !entry.index.Number?);
      var named := owner.id.None? && (StartsCall(entry) || id.Some?);
      owner := Inform(owner, entry, stream, slot);
      if named { byId := byId[owner.id.value := slot]; }
      byIndex := byIndex[slot := owner];
      published, changed := entry.(index := Number(slot)), entry.index != Number(slot);
      if owner.id.Some? && entry.id != Text(owner.id.value) {
        published := published.(id := Text(owner.id.value));
        changed := true;
      }
    }

    /** Rewrites one fragment. On a refusal nothing has changed. */
    method NormalizeEntry(stream: string, entry: Entry) returns (r: Outcome<Entry>)
      modifies this
      ensures r == ChatDialect.NormalizeEntry(old(View()), stream, entry)
      ensures View() == r.claims
    {
      if entry.NotAnEntry? {
        return Done(View(), entry, false);
      }
      ghost var before := View();
      var place := Place(entry);
      match place {
        case Nowhere => r := Thrown(View());
        case At(slot, free) =>
          assert View() == before.(next := free);
          var published, changed := Publish(stream, entry, slot);
          assert Filed(before.(next := free), entry, stream, slot, free) == Filed(before, entry, stream, slot, free);
          r := Done(View(), published, changed);
      }
    }

    /** Rewrites the fragments of one delta in order, stopping at the first refusal. */
    method NormalizeEntries(stream: string, entries: seq<Entry>) returns (r: Outcome<seq<Entry>>)
      modifies this
      ensures r == ChatDialect.NormalizeEntries(old(View()), stream, entries)
      ensures View() == r.claims
    {
      var done, changed := [], false;
      OntoNothing(ChatDialect.NormalizeEntries(View(), stream, entries));
      assert entries[0..] == entries;
      for i := 0 to |entries|
        invariant |done| == i
        invariant Onto(done, changed, ChatDialect.NormalizeEntries(View(), stream, entries[i..]))
               == ChatDialect.NormalizeEntries(old(View()), stream, entries)
      {
        var step := NormalizeEntry(stream, entries[i]);
        assert entries[i..][1..] == entries[i + 1..];
        match step {
          case Thrown(claims) => return Thrown(claims);
          case Done(_, entry, more) =>
            OntoAfter(done, changed, entry, more, ChatDialect.NormalizeEntries(View(), stream, entries[i + 1..]));
            done, changed := done + [entry], changed || more;
        }
      }
      OntoEnd(View(), done, changed);
      assert entries[|entries|..] == [];
      r := Done(View(), done, changed);
    }

    /** Rewrites one parsed frame: legacy calls, tool-call fragments, finish reasons. */
    method NormalizeChunk(chunk: Chunk) returns (r: Outcome<Chunk>)
      modifies this
      ensures r == ChatDialect.NormalizeChunk(old(View()), chunk)
      ensures View() == r.claims
    {
      if chunk.choices.None? {
        return Done(View(), chunk, false);
      }
      var stream, choices := StreamId(chunk), chunk.choices.value;
      var done: seq<Choice>, changed := [], false;
      OntoNothing(NormalizeChoices(View(), stream, choices));
      assert choices[0..] == choices;
      for i := 0 to |choices|
        invariant |done| == i
        invariant Onto(done, changed, NormalizeChoices(View(), stream, choices[i..]))
               == NormalizeChoices(old(View()), stream, choices)
      {
        ghost var before := View();
        var choice, touched := choices[i], false;
        if choice.Choice? {
          var delta := choice.delta;
          if delta.Delta? && delta.legacy.Legacy? {
            delta := Delta(NoLegacy(Missing), Calls([FromLegacy(delta.legacy, stream)]));
            touched := true;
          }
          if delta.Delta? && delta.calls.Calls? {
            var step := NormalizeEntries(stream, delta.calls.entries);
            if step.Thrown? {
              return Thrown(step.claims);
            }
            delta := delta.(calls := Calls(step.value));
            touched := touched || step.changed;
          }
          if choice.finish == Text("function_call") {
            choice := Choice(delta, Text("tool_calls"));
            touched := true;
          } else {
            choice := Choice(delta, choice.finish);
          }
        }
        assert NormalizeChoice(before, stream, choices[i]) == Done(View(), choice, touched);
        assert choices[i..][1..] == choices[i + 1..];
        OntoAfter(done, changed, choice, touched, NormalizeChoices(View(), stream, choices[i + 1..]));
        done, changed := done + [choice], changed || touched;
      }
      OntoEnd(View(), done, changed);
      assert choices[|choices|..] == [];
      r := Done(View(), chunk.(choices := Some(done)), changed);
    }
  }

  /** An outcome that follows a sequence of values already rewritten. */
  ghost function Onto<T>(done: seq<T>, changed: bool, rest: Outcome<seq<T>>): Outcome<seq<T>> {
    match rest
    case Thrown(claims) => Thrown(claims)
    case Done(claims, values, more) => Done(claims, done + values, changed || more)
  }

  lemma OntoNothing<T>(rest: Outcome<seq<T>>)
    ensures Onto([], false, rest) == rest
  {
    if rest.Done? { assert [] + rest.value == rest.value; }
  }

  lemma OntoEnd<T>(claims: Claims, done: seq<T>, changed: bool)
    ensures Onto(done, changed, Done(claims, [], false)) == Done(claims, done, changed)
  {
    assert done + [] == done;
  }

  lemma OntoAfter<T>(done: seq<T>, changed: bool, value: T, more: bool, rest: Outcome<seq<T>>)
    ensures Onto(done, changed, After(value, more, rest)) == Onto(done + [value], changed || more, rest)
  {
    if rest.Done? { assert done + ([value] + rest.value) == done + [value] + rest.value; }
  }
}
