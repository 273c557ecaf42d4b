/** Parsed Chat Completions stream frames, as far as the dialect normaliser looks at them. */
module ChatFrames {
  import opened Base

  /** A property value of unknown type. `Other` keeps the compact JSON text of any value that is
      neither a string nor an index (an object, an array, a boolean). */
  datatype Json = Missing | Null | Text(text: string) | Number(value: nat) | Other(json: string)

  datatype Function = NoFunction(raw: Json) | Function(name: Json, arguments: Json)

  datatype Entry = NotAnEntry(raw: Json) | Entry(index: Json, id: Json, kind: Json, function_: Function)

  datatype Legacy = NoLegacy(raw: Json) | Legacy(name: Json, arguments: Json)

  datatype Calls = NoCalls(raw: Json) | Calls(entries: seq<Entry>)

  datatype Delta = NoDelta(raw: Json) | Delta(legacy: Legacy, calls: Calls)

  datatype Choice = NotAChoice(raw: Json) | Choice(delta: Delta, finish: Json)

  datatype Chunk = Chunk(id: Json, choices: Option<seq<Choice>>)

  /** A non-empty string value, or nothing. */
  function NonEmpty(value: Json): Option<string> {
    if value.Text? && value.text != "" then Some(value.text) else None
  }

  function EntryId(entry: Entry): Option<string>
    requires entry.Entry?
  {
    NonEmpty(entry.id)
  }

  predicate StartsCall(entry: Entry)
    requires entry.Entry?
  {
    entry.function_.Function? && NonEmpty(entry.function_.name).Some?
  }

  /** `JSON.stringify` of a value that is present. */
  function Stringified(value: Json): string
    requires !value.Missing? && !value.Text?
  {
    match value
    case Null => "null"
    case Number(n) => Decimal(n)
    case Other(json) => json
  }

  /** A null is the word, a number its numeral without leading zeros, and any other value the text it has. */
  lemma StringifiedIs(n: nat, json: string)
    ensures Stringified(Null) == "null" && Stringified(Other(json)) == json
    ensures DecimalValue(Stringified(Number(n))) == n && Stringified(Number(0)) == "0"
    ensures n > 0 ==> Stringified(Number(n))[0] != '0'
  {
    DecimalRoundTrip(n);
    DecimalIsPlain(n);
  }

  /** A fragment's own id and the function it names are the non-empty texts that stand there, and nothing
      else does. */
  lemma NamesAre(entry: Entry, text: string)
    requires entry.Entry?
    ensures EntryId(entry) == Some(text) <==> entry.id == Text(text) && text != ""
    ensures StartsCall(entry) <==>
              entry.function_.Function? && entry.function_.name.Text? && entry.function_.name.text != ""
  {
  }

  /** The stream id of a chunk is its id if that is a non-empty text, else the word `call`. */
  lemma StreamIdIs(chunk: Chunk)
    ensures chunk.id.Text? && chunk.id.text != "" ==> StreamId(chunk) == chunk.id.text
    ensures !(chunk.id.Text? && chunk.id.text != "") ==> StreamId(chunk) == "call"
  {
  }

  function StreamId(chunk: Chunk): string {
    match NonEmpty(chunk.id) case Some(id) => id case None => "call"
  }
}
