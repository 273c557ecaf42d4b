/** The Chat Completions dialect normaliser: one pass over a response stream that gives every
    tool-call fragment an index and one published id. */
module ChatDialect {
  import opened Base
  import opened ChatFrames

  datatype Owner = Owner(id: Option<string>, upstreamId: Option<string>, name: Option<string>,
                         syntheticId: bool, syntheticIndex: bool)

  /** What the stream has taught so far: ids and slots already claimed, and the first free slot. */
  datatype Claims = Claims(byId: map<string, nat>, byIndex: map<nat, Owner>, next: nat, last: Option<nat>)

  const FRESH := Claims(map[], map[], 0, None)

  /** One step of the pass: the stream is refused, or a rewritten value comes out. */
  datatype Outcome<+T> = Thrown(claims: Claims) | Done(claims: Claims, value: T, changed: bool)

  const SYNTHETIC := "synth_"

  function SyntheticId(stream: string, slot: nat): string {
    SYNTHETIC + stream + "_" + Decimal(slot)
  }

  /** Whether an id has the form the normaliser reserves for the ids it makes up. */
  predicate LooksSynthetic(id: string) {
    |id| >= |SYNTHETIC| && id[..|SYNTHETIC|] == SYNTHETIC
  }

  // ---- one fragment ----

  function SlotOf(claims: Claims, id: Option<string>): Option<nat> {
    if id.Some? && id.value in claims.byId then Some(claims.byId[id.value]) else None
  }

  function Remember(byId: map<string, nat>, id: Option<string>, slot: nat): map<string, nat> {
    if id.Some? then byId[id.value := slot] else byId
  }

  /** A fragment that names both an index and an id contradicts what is already claimed. */
  predicate Conflicts(claims: Claims, entry: Entry, slot: nat)
    requires entry.Entry?
  {
    var id := EntryId(entry);
    var known := SlotOf(claims, id);
    (known.Some? && known.value != slot) ||
    (id.Some? && slot in claims.byIndex && claims.byIndex[slot].id.Some? && claims.byIndex[slot].id != id &&
     var owner := claims.byIndex[slot];
     !(owner.syntheticId && (owner.upstreamId.None? || owner.upstreamId == id) &&
       (!StartsCall(entry) || owner.name == NonEmpty(entry.function_.name)) &&
       (known.None? || known.value == slot)))
  }

  /** The slot a fragment belongs to and the first free slot afterwards; `Nowhere` when the
      fragment is contradictory or has no unique owner. */
  datatype Place = Nowhere | At(slot: nat, next: nat)

  function Locate(claims: Claims, entry: Entry): Place
    requires entry.Entry?
  {
    var id := EntryId(entry);
    if entry.index.Number? then
      var slot := entry.index.value;
      if Conflicts(claims, entry, slot) then Nowhere else At(slot, Max(claims.next, slot + 1))
    else if id.Some? && id.value in claims.byId then At(claims.byId[id.value], claims.next)
    else if StartsCall(entry) then At(claims.next, claims.next + 1)
    else if id.Some? || |claims.byIndex| != 1 then Nowhere
    else At(SoleKey(claims.byIndex), claims.next)
  }

  /** The only key of a map of size one. */
  function SoleKey<T>(m: map<nat, T>): (k: nat)
    requires |m| == 1
    ensures m.Keys == {k}
  {
    var k0 :| k0 in m.Keys;
    assert m.Keys - {k0} == {} by { assert |m.Keys - {k0}| == 0; }
    assert m.Keys == {k0};
    var k :| k in m; k
  }

  function OwnerAt(claims: Claims, entry: Entry, slot: nat): Owner
    requires entry.Entry?
  {
    if slot in claims.byIndex then claims.byIndex[slot]
    else Owner(None, None, None, false, !entry.index.Number?)
  }

  /** The owner of `slot` once it has taken in what `entry` says about it. */
  function Informed(owner: Owner, entry: Entry, stream: string, slot: nat): Owner
    requires entry.Entry?
  {
    var id := EntryId(entry);
    var seen := owner.(
      upstreamId := if owner.upstreamId.None? then id else owner.upstreamId,
      name := if owner.name.None? && StartsCall(entry) then NonEmpty(entry.function_.name) else owner.name);
    if seen.id.None? && (StartsCall(entry) || id.Some?) then
      seen.(id := if id.Some? then id else Some(SyntheticId(stream, slot)), syntheticId := id.None?)
    else seen
  }

  /** The claims once `entry` has been filed under `slot`. */
  function Filed(claims: Claims, entry: Entry, stream: string, slot: nat, next: nat): Claims
    requires entry.Entry?
  {
    var before := OwnerAt(claims, entry, slot);
    var owner := Informed(before, entry, stream, slot);
    var byId := Remember(claims.byId, EntryId(entry), slot);
    Claims(
      if before.id.None? then Remember(byId, owner.id, slot) else byId,
      claims.byIndex[slot := owner],
      next,
      Some(slot))
  }

  function Published(entry: Entry, owner: Owner, slot: nat): Entry
    requires entry.Entry?
  {
    entry.(index := Number(slot), id := if owner.id.Some? then Text(owner.id.value) else entry.id)
  }

  function NormalizeEntry(claims: Claims, stream: string, entry: Entry): Outcome<Entry> {
    if entry.NotAnEntry? then Done(claims, entry, false)
    else
      match Locate(claims, entry)
      case Nowhere => Thrown(claims)
      case At(slot, next) =>
        var filed := Filed(claims, entry, stream, slot, next);
        var published := Published(entry, filed.byIndex[slot], slot);
        Done(filed, published, published != entry)
  }

  // ---- entries, deltas, choices, chunks ----

  /** An outcome that follows a value already rewritten. */
  function After<T>(value: T, changed: bool, rest: Outcome<seq<T>>): Outcome<seq<T>> {
    match rest
    case Thrown(claims) => Thrown(claims)
    case Done(claims, values, more) => Done(claims, [value] + values, changed || more)
  }

  function NormalizeEntries(claims: Claims, stream: string, entries: seq<Entry>): Outcome<seq<Entry>>
    decreases |entries|
  {
    if entries == [] then Done(claims, [], false)
    else
      match NormalizeEntry(claims, stream, entries[0])
      case Thrown(after) => Thrown(after)
      case Done(after, entry, changed) => After(entry, changed, NormalizeEntries(after, stream, entries[1..]))
  }

  /** The `tool_calls` shape of a legacy `function_call`. */
  function FromLegacy(legacy: Legacy, stream: string): Entry
    requires legacy.Legacy?
  {
    var named := NonEmpty(legacy.name).Some?;
    Entry(
      Number(0),
      if named then Text("legacy_" + stream) else Missing,
      if named then Text("function") else Missing,
      Function(
        if named then legacy.name else Missing,
        match legacy.arguments
        case Text(text) => Text(text)
        case Missing => Missing
        case Null => Missing
        case _ => Text(Stringified(legacy.arguments))))
  }

  function Modern(delta: Delta, stream: string): Delta {
    if delta.Delta? && delta.legacy.Legacy? then
      Delta(NoLegacy(Missing), Calls([FromLegacy(delta.legacy, stream)]))
    else delta
  }

  function NormalizeDelta(claims: Claims, stream: string, delta: Delta): Outcome<Delta> {
    var modern := Modern(delta, stream);
    if modern.NoDelta? || modern.calls.NoCalls? then Done(claims, modern, modern != delta)
    else
      match NormalizeEntries(claims, stream, modern.calls.entries)
      case Thrown(after) => Thrown(after)
      case Done(after, entries, changed) =>
        Done(after, modern.(calls := Calls(entries)), changed || modern != delta)
  }

  function NormalizeChoice(claims: Claims, stream: string, choice: Choice): Outcome<Choice> {
    if choice.NotAChoice? then Done(claims, choice, false)
    else
      match NormalizeDelta(claims, stream, choice.delta)
      case Thrown(after) => Thrown(after)
      case Done(after, delta, changed) =>
        var finish := if choice.finish == Text("function_call") then Text("tool_calls") else choice.finish;
        Done(after, Choice(delta, finish), changed || finish != choice.finish)
  }

  function NormalizeChoices(claims: Claims, stream: string, choices: seq<Choice>): Outcome<seq<Choice>>
    decreases |choices|
  {
    if choices == [] then Done(claims, [], false)
    else
      match NormalizeChoice(claims, stream, choices[0])
      case Thrown(after) => Thrown(after)
      case Done(after, choice, changed) => After(choice, changed, NormalizeChoices(after, stream, choices[1..]))
  }

  function NormalizeChunk(claims: Claims, chunk: Chunk): Outcome<Chunk> {
    if chunk.choices.None? then Done(claims, chunk, false)
    else
      match NormalizeChoices(claims, StreamId(chunk), chunk.choices.value)
      case Thrown(after) => Thrown(after)
      case Done(after, choices, changed) => Done(after, chunk.(choices := Some(choices)), changed)
  }

  /** A whole response stream, until the first refusal. */
  function NormalizeStream(claims: Claims, chunks: seq<Chunk>): Outcome<seq<Chunk>>
    decreases |chunks|
  {
    if chunks == [] then Done(claims, [], false)
    else
      match NormalizeChunk(claims, chunks[0])
      case Thrown(after) => Thrown(after)
      case Done(after, chunk, changed) => After(chunk, changed, NormalizeStream(after, chunks[1..]))
  }
}
