/** A response stream seen as the flat sequence of its tool-call fragments. Normalising the chunks
    is the same as normalising the fragments one after another, so what holds of every run over
    fragments holds of every run over chunks. */
module ChatStreams {
  import opened Base
  import opened ChatFrames
  import opened ChatDialect

  /** A tool-call fragment with the id of the stream its chunk names. */
  datatype Fragment = Fragment(stream: string, entry: Entry)

  function Tagged(stream: string, entries: seq<Entry>): seq<Fragment> {
    seq(|entries|, i requires 0 <= i < |entries| => Fragment(stream, entries[i]))
  }

  function InChoice(stream: string, choice: Choice): seq<Fragment> {
    if choice.NotAChoice? then []
    else
      var delta := Modern(choice.delta, stream);
      if delta.NoDelta? || delta.calls.NoCalls? then [] else Tagged(stream, delta.calls.entries)
  }

  function InChoices(stream: string, choices: seq<Choice>): seq<Fragment> {
    if choices == [] then [] else InChoice(stream, choices[0]) + InChoices(stream, choices[1..])
  }

  function InChunk(chunk: Chunk): seq<Fragment> {
    if chunk.choices.None? then [] else InChoices(StreamId(chunk), chunk.choices.value)
  }

  /** All fragments of a stream in arrival order, legacy frames in their `tool_calls` shape. */
  function Fragments(chunks: seq<Chunk>): seq<Fragment> {
    if chunks == [] then [] else InChunk(chunks[0]) + Fragments(chunks[1..])
  }

  function Entries(fragments: seq<Fragment>): seq<Entry> {
    seq(|fragments|, i requires 0 <= i < |fragments| => fragments[i].entry)
  }

  /** Normalising fragments one after another. */
  function Fold(claims: Claims, fragments: seq<Fragment>): Outcome<seq<Entry>>
    decreases |fragments|
  {
    if fragments == [] then Done(claims, [], false)
    else
      match NormalizeEntry(claims, fragments[0].stream, fragments[0].entry)
      case Thrown(after) => Thrown(after)
      case Done(after, entry, changed) => After(entry, changed, Fold(after, fragments[1..]))
  }

  /** `outcome`, whose value carries `emitted`, does what the fold does. */
  ghost predicate Matches<T>(outcome: Outcome<T>, emitted: seq<Entry>, fold: Outcome<seq<Entry>>) {
    match outcome
    case Thrown(claims) => fold == Thrown(claims)
    case Done(claims, _, _) => fold.Done? && fold.claims == claims && fold.value == emitted
  }

  lemma {:induction false} FoldConcat(claims: Claims, first: seq<Fragment>, second: seq<Fragment>)
    ensures match Fold(claims, first)
            case Thrown(after) => Fold(claims, first + second) == Thrown(after)
            case Done(after, entries, _) =>
              match Fold(after, second)
              case Thrown(last) => Fold(claims, first + second) == Thrown(last)
              case Done(last, more, _) =>
                Fold(claims, first + second).Done? && Fold(claims, first + second).claims == last &&
                Fold(claims, first + second).value == entries + more
    decreases |first|
  {
    if first == [] {
      assert first + second == second;
    } else {
      var step := NormalizeEntry(claims, first[0].stream, first[0].entry);
      assert (first + second)[1..] == first[1..] + second;
      if step.Done? { FoldConcat(step.claims, first[1..], second); }
    }
  }

  lemma {:induction false} EntriesFold(claims: Claims, stream: string, entries: seq<Entry>)
    ensures NormalizeEntries(claims, stream, entries) == Fold(claims, Tagged(stream, entries))
    ensures NormalizeEntries(claims, stream, entries).Done? ==>
              |NormalizeEntries(claims, stream, entries).value| == |entries|
    decreases |entries|
  {
    if entries != [] {
      assert Tagged(stream, entries)[1..] == Tagged(stream, entries[1..]);
      var step := NormalizeEntry(claims, stream, entries[0]);
      if step.Done? { EntriesFold(step.claims, stream, entries[1..]); }
    }
  }

  lemma ChoiceFold(claims: Claims, stream: string, choice: Choice)
    ensures var outcome := NormalizeChoice(claims, stream, choice);
            Matches(outcome, if outcome.Done? then Entries(InChoice(stream, outcome.value)) else [],
                    Fold(claims, InChoice(stream, choice)))
  {
    if choice.Choice? {
      var delta := Modern(choice.delta, stream);
      if delta.Delta? && delta.calls.Calls? {
        EntriesFold(claims, stream, delta.calls.entries);
        var outcome := NormalizeChoice(claims, stream, choice);
        if outcome.Done? {
          var entries := NormalizeEntries(claims, stream, delta.calls.entries).value;
          assert Entries(InChoice(stream, outcome.value)) == entries;
        }
      }
    }
  }

  lemma InChoicesCons(stream: string, choice: Choice, rest: seq<Choice>)
    ensures Entries(InChoices(stream, [choice] + rest)) == Entries(InChoice(stream, choice)) + Entries(InChoices(stream, rest))
  {
    assert ([choice] + rest)[1..] == rest;
  }

  lemma {:induction false} ChoicesFold(claims: Claims, stream: string, choices: seq<Choice>)
    ensures var outcome := NormalizeChoices(claims, stream, choices);
            Matches(outcome, if outcome.Done? then Entries(InChoices(stream, outcome.value)) else [],
                    Fold(claims, InChoices(stream, choices)))
    decreases |choices|
  {
    if choices != [] {
      ChoiceFold(claims, stream, choices[0]);
      FoldConcat(claims, InChoice(stream, choices[0]), InChoices(stream, choices[1..]));
      var step := NormalizeChoice(claims, stream, choices[0]);
      if step.Done? {
        ChoicesFold(step.claims, stream, choices[1..]);
        var rest := NormalizeChoices(step.claims, stream, choices[1..]);
        if rest.Done? { InChoicesCons(stream, step.value, rest.value); }
      }
    }
  }

  lemma ChunkFold(claims: Claims, chunk: Chunk)
    ensures var outcome := NormalizeChunk(claims, chunk);
            Matches(outcome, if outcome.Done? then Entries(InChunk(outcome.value)) else [],
                    Fold(claims, InChunk(chunk)))
  {
    if chunk.choices.Some? { ChoicesFold(claims, StreamId(chunk), chunk.choices.value); }
  }

  /** Normalising a stream of chunks emits, in order, what normalising its fragments emits, and
      refuses the stream exactly when some fragment is refused. */
  lemma {:induction false} StreamFold(claims: Claims, chunks: seq<Chunk>)
    ensures var outcome := NormalizeStream(claims, chunks);
            Matches(outcome, if outcome.Done? then Entries(Fragments(outcome.value)) else [],
                    Fold(claims, Fragments(chunks)))
    decreases |chunks|
  {
    if chunks != [] {
      ChunkFold(claims, chunks[0]);
      FoldConcat(claims, InChunk(chunks[0]), Fragments(chunks[1..]));
      var step := NormalizeChunk(claims, chunks[0]);
      if step.Done? {
        StreamFold(step.claims, chunks[1..]);
        var rest := NormalizeStream(step.claims, chunks[1..]);
        if rest.Done? { FragmentsCons(step.value, rest.value); }
      }
    }
  }

  // ---- the change flag ----

  lemma {:induction false} EntriesChangedIff(claims: Claims, stream: string, entries: seq<Entry>)
    requires NormalizeEntries(claims, stream, entries).Done?
    ensures var outcome := NormalizeEntries(claims, stream, entries); outcome.changed <==> outcome.value != entries
    decreases |entries|
  {
    if entries != [] {
      var step := NormalizeEntry(claims, stream, entries[0]);
      EntriesChangedIff(step.claims, stream, entries[1..]);
      var rest := NormalizeEntries(step.claims, stream, entries[1..]);
      ConsIsInjective(step.value, rest.value, entries[0], entries[1..]);
      assert entries == [entries[0]] + entries[1..];
    }
  }

  lemma ChoiceChangedIff(claims: Claims, stream: string, choice: Choice)
    requires NormalizeChoice(claims, stream, choice).Done?
    ensures var outcome := NormalizeChoice(claims, stream, choice); outcome.changed <==> outcome.value != choice
  {
    if choice.Choice? {
      var delta := Modern(choice.delta, stream);
      if delta.Delta? && delta.calls.Calls? { EntriesChangedIff(claims, stream, delta.calls.entries); }
    }
  }

  lemma {:induction false} ChoicesChangedIff(claims: Claims, stream: string, choices: seq<Choice>)
    requires NormalizeChoices(claims, stream, choices).Done?
    ensures var outcome := NormalizeChoices(claims, stream, choices); outcome.changed <==> outcome.value != choices
    decreases |choices|
  {
    if choices != [] {
      ChoiceChangedIff(claims, stream, choices[0]);
      var step := NormalizeChoice(claims, stream, choices[0]);
      ChoicesChangedIff(step.claims, stream, choices[1..]);
      var rest := NormalizeChoices(step.claims, stream, choices[1..]);
      ConsIsInjective(step.value, rest.value, choices[0], choices[1..]);
      assert choices == [choices[0]] + choices[1..];
    }
  }

  lemma ChunkChangedIff(claims: Claims, chunk: Chunk)
    requires NormalizeChunk(claims, chunk).Done?
    ensures var outcome := NormalizeChunk(claims, chunk); outcome.changed <==> outcome.value != chunk
  {
    if chunk.choices.Some? { ChoicesChangedIff(claims, StreamId(chunk), chunk.choices.value); }
  }

  /** A chunk is marked as changed, and so written anew rather than passed on as it came, if and only if
      something in it has been changed; and so is a stream of them. */
  lemma {:induction false} StreamChangedIff(claims: Claims, chunks: seq<Chunk>)
    requires NormalizeStream(claims, chunks).Done?
    ensures var outcome := NormalizeStream(claims, chunks); outcome.changed <==> outcome.value != chunks
    ensures chunks != [] ==>
              var first := NormalizeChunk(claims, chunks[0]);
              first.Done? && (first.changed <==> first.value != chunks[0])
    decreases |chunks|
  {
    if chunks != [] {
      ChunkChangedIff(claims, chunks[0]);
      var step := NormalizeChunk(claims, chunks[0]);
      StreamChangedIff(step.claims, chunks[1..]);
      var rest := NormalizeStream(step.claims, chunks[1..]);
      ConsIsInjective(step.value, rest.value, chunks[0], chunks[1..]);
      assert chunks == [chunks[0]] + chunks[1..];
    }
  }

  lemma FragmentsCons(chunk: Chunk, rest: seq<Chunk>)
    ensures Entries(Fragments([chunk] + rest)) == Entries(InChunk(chunk)) + Entries(Fragments(rest))
  {
  }
}
