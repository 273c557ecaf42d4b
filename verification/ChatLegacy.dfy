/** Streams in the legacy shape: all their calls come as `function_call`, and other frames say nothing of
    calls (the role, the text, the finish reason that closes the stream). */
module ChatLegacy {
  import opened Base
  import opened ChatFrames
  import opened ChatDialect
  import opened ChatStreams
  import opened ChatNumbering

  /** A `function_call` with the id of the chunk it came in. */
  datatype Frame = Frame(id: Json, legacy: Legacy)

  type LegacyFrame = f: Frame | f.legacy.Legacy? witness Frame(Missing, Legacy(Missing, Missing))

  function StreamOf(id: Json): string { StreamId(Chunk(id, None)) }

  /** The choice carries no tool call in the current shape, unless a legacy one stands beside it, which
      takes its place. */
  predicate LegacyOnly(choice: Choice) {
    choice.NotAChoice? || choice.delta.NoDelta? || choice.delta.legacy.Legacy? ||
    choice.delta.calls.NoCalls? || choice.delta.calls.entries == []
  }

  ghost predicate AllLegacy(chunks: seq<Chunk>) {
    forall i :: 0 <= i < |chunks| && chunks[i].choices.Some? ==>
      forall choice :: choice in chunks[i].choices.value ==> LegacyOnly(choice)
  }

  function FrameIn(id: Json, choice: Choice): seq<LegacyFrame> {
    if choice.Choice? && choice.delta.Delta? && choice.delta.legacy.Legacy? then [Frame(id, choice.delta.legacy)] else []
  }

  function FramesIn(id: Json, choices: seq<Choice>): seq<LegacyFrame> {
    if choices == [] then [] else FrameIn(id, choices[0]) + FramesIn(id, choices[1..])
  }

  function FramesOf(chunk: Chunk): seq<LegacyFrame> {
    if chunk.choices.None? then [] else FramesIn(chunk.id, chunk.choices.value)
  }

  /** All legacy calls of a stream, in arrival order. */
  function Frames(chunks: seq<Chunk>): seq<LegacyFrame> {
    if chunks == [] then [] else FramesOf(chunks[0]) + Frames(chunks[1..])
  }

  /** The id of the call that a frame naming its function begins or repeats. */
  function CallId(frame: LegacyFrame): Option<string> {
    if NonEmpty(frame.legacy.name).Some? then Some("legacy_" + StreamOf(frame.id)) else None
  }

  /** The argument text a frame carries: text as it is, any other value as JSON. */
  function ArgumentsOf(frame: LegacyFrame): string {
    match frame.legacy.arguments
    case Missing => ""
    case Null => ""
    case Text(text) => text
    case _ => Stringified(frame.legacy.arguments)
  }

  function AllArguments(frames: seq<LegacyFrame>): string {
    if frames == [] then "" else ArgumentsOf(frames[0]) + AllArguments(frames[1..])
  }

  function FragmentOf(frame: LegacyFrame): Fragment {
    Fragment(StreamOf(frame.id), FromLegacy(frame.legacy, StreamOf(frame.id)))
  }

  function Sent(frames: seq<LegacyFrame>): seq<Fragment> {
    if frames == [] then [] else [FragmentOf(frames[0])] + Sent(frames[1..])
  }

  lemma {:induction false} SentConcat(a: seq<LegacyFrame>, b: seq<LegacyFrame>)
    ensures Sent(a + b) == Sent(a) + Sent(b)
  {
    if a == [] {
      assert a + b == b;
    } else {
      assert (a + b)[1..] == a[1..] + b;
      SentConcat(a[1..], b);
      Associates([FragmentOf(a[0])], Sent(a[1..]), Sent(b));
    }
  }

  lemma ChoiceSends(id: Json, choice: Choice)
    requires LegacyOnly(choice)
    ensures InChoice(StreamOf(id), choice) == Sent(FrameIn(id, choice))
  {
    if choice.Choice? && choice.delta.Delta? && choice.delta.legacy.Legacy? {
      var frame: LegacyFrame := Frame(id, choice.delta.legacy);
      assert Tagged(StreamOf(id), [FragmentOf(frame).entry]) == [FragmentOf(frame)];
      assert [frame][1..] == [] && Sent([frame]) == [FragmentOf(frame)];
    }
  }

  lemma {:induction false} ChoicesSend(id: Json, choices: seq<Choice>)
    requires forall choice :: choice in choices ==> LegacyOnly(choice)
    ensures InChoices(StreamOf(id), choices) == Sent(FramesIn(id, choices))
  {
    if choices != [] {
      ChoiceSends(id, choices[0]);
      ChoicesSend(id, choices[1..]);
      SentConcat(FrameIn(id, choices[0]), FramesIn(id, choices[1..]));
    }
  }

  /** The fragments of a legacy stream are those of its legacy calls. */
  lemma {:induction false} StreamSends(chunks: seq<Chunk>)
    requires AllLegacy(chunks)
    ensures Fragments(chunks) == Sent(Frames(chunks))
  {
    if chunks != [] {
      if chunks[0].choices.Some? { ChoicesSend(chunks[0].id, chunks[0].choices.value); }
      assert forall i :: 0 <= i < |chunks[1..]| ==> chunks[1..][i] == chunks[i + 1];
      StreamSends(chunks[1..]);
      SentConcat(FramesOf(chunks[0]), Frames(chunks[1..]));
    }
  }

  /** What a stream of legacy frames has taught: at most one slot, and its id once one is named. */
  ghost predicate Holds(claims: Claims, held: Option<string>) {
    && (forall slot :: slot in claims.byIndex ==> slot == 0)
    && (held.Some? ==> 0 in claims.byIndex && claims.byIndex[0].id == held && !claims.byIndex[0].syntheticId)
    && (held.None? && 0 in claims.byIndex ==> claims.byIndex[0].id.None?)
    && (forall id :: id in claims.byId <==> Some(id) == held)
    && (held.Some? ==> claims.byId[held.value] == 0)
  }

  function HeldAfter(held: Option<string>, frame: LegacyFrame): Option<string>
  {
    if held.Some? then held else CallId(frame)
  }

  function WithId(entry: Entry, held: Option<string>): Entry
    requires entry.Entry?
  {
    if held.Some? then entry.(id := Text(held.value)) else entry
  }

  lemma LegacyStep(claims: Claims, held: Option<string>, frame: LegacyFrame)
    requires Holds(claims, held)
    ensures var fragment := FragmentOf(frame);
            var step := NormalizeEntry(claims, fragment.stream, fragment.entry);
            (step.Done? <==> held.None? || CallId(frame).None? || CallId(frame) == held) &&
            (step.Done? ==>
               Holds(step.claims, HeldAfter(held, frame)) &&
               step.value == WithId(fragment.entry, HeldAfter(held, frame)))
  {
    var fragment := FragmentOf(frame);
    var entry := fragment.entry;
    assert EntryId(entry) == CallId(frame) && entry.index == Number(0);
    assert StartsCall(entry) <==> CallId(frame).Some?;
    if !Conflicts(claims, entry, 0) {
      var filed := Filed(claims, entry, fragment.stream, 0, Max(claims.next, 1));
      assert filed.byIndex[0].id == HeldAfter(held, frame);
      assert filed.byId == Remember(claims.byId, HeldAfter(held, frame), 0);
    }
  }

  /** All frames from here on that name a function name the same call, and the one held if any. */
  ghost predicate OneCall(held: Option<string>, frames: seq<LegacyFrame>)
  {
    && (forall i :: 0 <= i < |frames| && CallId(frames[i]).Some? && held.Some? ==> CallId(frames[i]) == held)
    && (forall i, j :: 0 <= i < |frames| && 0 <= j < |frames| && CallId(frames[i]).Some? && CallId(frames[j]).Some? ==>
          CallId(frames[i]) == CallId(frames[j]))
  }

  lemma OneCallCons(held: Option<string>, frames: seq<LegacyFrame>)
    requires frames != []
    ensures OneCall(held, frames) <==>
              (held.None? || CallId(frames[0]).None? || CallId(frames[0]) == held) &&
              OneCall(HeldAfter(held, frames[0]), frames[1..])
  {
    var rest, next := frames[1..], HeldAfter(held, frames[0]);
    assert forall i :: 0 <= i < |rest| ==> rest[i] == frames[i + 1];
    if OneCall(held, frames) {
      assert OneCall(next, rest);
    }
    if (held.None? || CallId(frames[0]).None? || CallId(frames[0]) == held) && OneCall(next, rest) {
      forall i | 0 < i < |frames| && CallId(frames[i]).Some?
        ensures next.Some? ==> CallId(frames[i]) == next
      {
        assert frames[i] == rest[i - 1];
      }
      forall i, j | 0 < i < |frames| && 0 < j < |frames| && CallId(frames[i]).Some? && CallId(frames[j]).Some?
        ensures CallId(frames[i]) == CallId(frames[j])
      {
        assert frames[i] == rest[i - 1] && frames[j] == rest[j - 1];
      }
    }
  }

  /** Under one index, every entry carries the name its frame gave and the id of the call from its
      first name on, and the entries together its arguments. */
  ghost predicate OneEntryEach(held: Option<string>, frames: seq<LegacyFrame>, emitted: seq<Entry>)
  {
    && |emitted| == |frames|
    && (forall i :: 0 <= i < |frames| ==> emitted[i].Entry? && emitted[i].index == Number(0))
    && (forall i :: 0 <= i < |frames| ==>
          emitted[i].function_.Function? && NonEmpty(emitted[i].function_.name) == NonEmpty(frames[i].legacy.name) &&
          emitted[i].kind == if CallId(frames[i]).Some? then Text("function") else Missing)
    && (forall i :: 0 <= i < |frames| && held.Some? ==> EntryId(emitted[i]) == held)
    && (forall i, k :: 0 <= k <= i < |frames| && CallId(frames[k]).Some? ==> EntryId(emitted[i]) == CallId(frames[k]))
    && JoinedAt(emitted, 0) == AllArguments(frames)
  }

  lemma EntriesCons(held: Option<string>, frames: seq<LegacyFrame>, entry: Entry, rest: seq<Entry>)
    requires frames != []
    requires held.None? || held.value != ""
    requires held.None? || CallId(frames[0]).None? || CallId(frames[0]) == held
    requires var next := HeldAfter(held, frames[0]);
             entry == WithId(FragmentOf(frames[0]).entry, next) && OneEntryEach(next, frames[1..], rest)
    ensures OneEntryEach(held, frames, [entry] + rest)
  {
    var all := [entry] + rest;
    assert forall i :: 0 < i < |frames| ==> frames[i] == frames[1..][i - 1] && all[i] == rest[i - 1];
    assert all[1..] == rest;
    assert ArgumentText(entry) == ArgumentsOf(frames[0]);
  }

  lemma {:induction false} LegacyFold(claims: Claims, held: Option<string>, frames: seq<LegacyFrame>)
    requires Holds(claims, held) && (held.Some? ==> held.value != "")
    ensures var fold := Fold(claims, Sent(frames));
            (fold.Done? <==> OneCall(held, frames)) && (fold.Done? ==> OneEntryEach(held, frames, fold.value))
    decreases |frames|
  {
    if frames != [] {
      var fragment, rest := FragmentOf(frames[0]), frames[1..];
      var tail := Sent(rest);
      assert ([fragment] + tail)[1..] == tail;
      LegacyStep(claims, held, frames[0]);
      OneCallCons(held, frames);
      var step := NormalizeEntry(claims, fragment.stream, fragment.entry);
      if step.Done? {
        LegacyFold(step.claims, HeldAfter(held, frames[0]), rest);
        var fold := Fold(step.claims, tail);
        if fold.Done? { EntriesCons(held, frames, step.value, fold.value); }
      }
    }
  }

  /** A stream in the legacy shape is accepted if and only if all its frames that name a function come in
      chunks with the same stream id. It then comes out as one call at index 0: its id made from the
      stream id and carried by every fragment from the first name on, its arguments all those sent, in
      order. */
  lemma LegacyStreamIff(chunks: seq<Chunk>)
    requires AllLegacy(chunks)
    ensures var outcome := NormalizeStream(FRESH, chunks);
            (outcome.Done? <==> OneCall(None, Frames(chunks))) &&
            (outcome.Done? ==> OneEntryEach(None, Frames(chunks), Entries(Fragments(outcome.value))))
  {
    StreamFold(FRESH, chunks);
    StreamSends(chunks);
    LegacyFold(FRESH, None, Frames(chunks));
  }

  // ---- what is left of the legacy shape ----

  /** The finish reason in the current shape, everything else of a choice that is no call as sent, and
      no legacy call. */
  ghost predicate Modernised(sent: Choice, published: Choice) {
    if sent.NotAChoice? then published == sent
    else
      && published.Choice?
      && published.finish == (if sent.finish == Text("function_call") then Text("tool_calls") else sent.finish)
      && (if sent.delta.NoDelta? then published.delta == sent.delta
          else
            published.delta.Delta? && published.delta.legacy.NoLegacy? &&
            (sent.delta.legacy.Legacy? ==> published.delta.calls.Calls? && |published.delta.calls.entries| == 1) &&
            (sent.delta.legacy.NoLegacy? ==>
               published.delta.legacy == sent.delta.legacy &&
               if sent.delta.calls.NoCalls? then published.delta.calls == sent.delta.calls
               else published.delta.calls.Calls? && |published.delta.calls.entries| == |sent.delta.calls.entries|))
  }

  ghost predicate ChunkModernised(sent: Chunk, published: Chunk) {
    && published.id == sent.id && (published.choices.Some? <==> sent.choices.Some?)
    && (sent.choices.Some? ==>
          |published.choices.value| == |sent.choices.value| &&
          forall i :: 0 <= i < |sent.choices.value| ==> Modernised(sent.choices.value[i], published.choices.value[i]))
  }

  lemma ChoiceIsModernised(claims: Claims, stream: string, choice: Choice)
    requires NormalizeChoice(claims, stream, choice).Done?
    ensures Modernised(choice, NormalizeChoice(claims, stream, choice).value)
  {
    if choice.Choice? {
      var delta := Modern(choice.delta, stream);
      if delta.Delta? && delta.calls.Calls? { EntriesFold(claims, stream, delta.calls.entries); }
    }
  }

  lemma {:induction false} ChoicesAreModernised(claims: Claims, stream: string, choices: seq<Choice>)
    requires NormalizeChoices(claims, stream, choices).Done?
    ensures var published := NormalizeChoices(claims, stream, choices).value;
            |published| == |choices| && forall i :: 0 <= i < |choices| ==> Modernised(choices[i], published[i])
    decreases |choices|
  {
    if choices != [] {
      ChoiceIsModernised(claims, stream, choices[0]);
      ChoicesAreModernised(NormalizeChoice(claims, stream, choices[0]).claims, stream, choices[1..]);
      assert forall i :: 0 < i < |choices| ==> choices[i] == choices[1..][i - 1];
    }
  }

  /** Over every accepted stream chunks and choices come out one for one: a finish reason `function_call`
      as `tool_calls` and any other as sent, a legacy call as one tool call, and no legacy call at all. */
  lemma {:induction false} StreamIsModernised(claims: Claims, chunks: seq<Chunk>)
    requires NormalizeStream(claims, chunks).Done?
    ensures var published := NormalizeStream(claims, chunks).value;
            |published| == |chunks| && forall i :: 0 <= i < |chunks| ==> ChunkModernised(chunks[i], published[i])
    decreases |chunks|
  {
    if chunks != [] {
      if chunks[0].choices.Some? { ChoicesAreModernised(claims, StreamId(chunks[0]), chunks[0].choices.value); }
      StreamIsModernised(NormalizeChunk(claims, chunks[0]).claims, chunks[1..]);
      assert forall i :: 0 < i < |chunks| ==> chunks[i] == chunks[1..][i - 1];
    }
  }
}
