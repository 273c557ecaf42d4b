/** The canonical serializer behind the digests: keys sorted, undefined fields dropped. */
module StableJson {
  import opened Base
  import opened JsText

  predicate NumberUnit(u: CodeUnit) {
    48 <= u <= 57 || u == 43 || u == 45 || u == 46 || u == 101  // 0-9 + - . e
  }

  /** A finite number, by the text that Number::toString gives it (section 6.1.6.1.20 of ECMA-262):
      finite numbers are equal exactly when these texts are. */
  type Numeral = t: Text | |t| > 0 && forall i :: 0 <= i < |t| ==> NumberUnit(t[i]) witness [48]

  /** A JavaScript value. `Odd` is a value that JSON has no form for: a number that is not finite, a
      function, a symbol. */
  datatype Value =
    | Null | Undefined | Odd
    | Bool(b: bool) | Num(numeral: Numeral) | Str(text: Text)
    | List(items: seq<Value>) | Object(fields: seq<Field>)

  datatype Field = Field(key: Text, value: Value)

  const NULL: Text := [110, 117, 108, 108]
  const TRUE: Text := [116, 114, 117, 101]
  const FALSE: Text := [102, 97, 108, 115, 101]
  const OPEN_LIST: CodeUnit := 91
  const CLOSE_LIST: CodeUnit := 93
  const OPEN_OBJECT: CodeUnit := 123
  const CLOSE_OBJECT: CodeUnit := 125
  const COMMA: CodeUnit := 44
  const COLON: CodeUnit := 58

  /** The keys of an object are different from one another. */
  ghost predicate DistinctKeys(fields: seq<Field>) {
    forall i, j :: 0 <= i < j < |fields| ==> fields[i].key != fields[j].key
  }

  ghost predicate Proper(v: Value) {
    match v
    case List(items) => forall x :: x in items ==> Proper(x)
    case Object(fields) => DistinctKeys(fields) && forall f :: f in fields ==> Proper(f.value)
    case _ => true
  }

  // ---- sorting the fields that are present ----

  function Present(fields: seq<Field>): (r: seq<Field>)
    ensures forall f :: f in r <==> f in fields && !f.value.Undefined?
  {
    if fields == [] then []
    else (if fields[0].value.Undefined? then [] else [fields[0]]) + Present(fields[1..])
  }

  function Insert(f: Field, fields: seq<Field>): (r: seq<Field>)
    ensures forall g :: g in r <==> g == f || g in fields
  {
    if fields == [] || Less(f.key, fields[0].key) then [f] + fields
    else [fields[0]] + Insert(f, fields[1..])
  }

  function Sorted(fields: seq<Field>): (r: seq<Field>)
    ensures forall f :: f in r <==> f in fields
  {
    if fields == [] then [] else Insert(fields[0], Sorted(fields[1..]))
  }

  /** The fields as they are written: those present, by key. */
  function InOrder(fields: seq<Field>): (r: seq<Field>)
    ensures forall f :: f in r <==> f in fields && !f.value.Undefined?
  {
    Sorted(Present(fields))
  }

  // ---- the serializer ----

  function Show(v: Value): (t: Text)
    decreases v, 1, 0
  {
    match v
    case Null => NULL
    case Undefined => NULL
    case Odd => NULL
    case Bool(b) => if b then TRUE else FALSE
    case Num(numeral) => numeral
    case Str(text) => Quoted(text)
    case List(items) => [OPEN_LIST] + ShowItems(v, items) + [CLOSE_LIST]
    case Object(fields) => [OPEN_OBJECT] + ShowFields(v, InOrder(fields)) + [CLOSE_OBJECT]
  }

  function ShowItems(v: Value, items: seq<Value>): Text
    requires forall i :: 0 <= i < |items| ==> items[i] < v
    decreases v, 0, |items|
  {
    if items == [] then []
    else if |items| == 1 then Show(items[0])
    else Show(items[0]) + ([COMMA] + ShowItems(v, items[1..]))
  }

  function ShowField(v: Value, f: Field): Text
    requires f.value < v
    decreases v, 0, 0
  {
    Quoted(f.key) + ([COLON] + Show(f.value))
  }

  function ShowFields(v: Value, fields: seq<Field>): Text
    requires forall f :: f in fields ==> f.value < v
    decreases v, 0, |fields| + 1
  {
    if fields == [] then []
    else if |fields| == 1 then ShowField(v, fields[0])
    else ShowField(v, fields[0]) + ([COMMA] + ShowFields(v, fields[1..]))
  }

  // ---- what a value means ----

  /** A value up to key order and undefined fields. What JSON has no form for counts as null. */
  datatype Meaning =
    | MNull | MBool(b: bool) | MNum(numeral: Text) | MStr(text: Text)
    | MList(items: seq<Meaning>) | MObject(entries: map<Text, Meaning>)

  function Meant(v: Value): Meaning
    decreases v, 1, 0
  {
    match v
    case Null => MNull
    case Undefined => MNull
    case Odd => MNull
    case Bool(b) => MBool(b)
    case Num(numeral) => MNum(numeral)
    case Str(text) => MStr(text)
    case List(items) => MList(MeantItems(v, items))
    case Object(fields) => MObject(MeantEntries(v, fields))
  }

  function MeantItems(v: Value, items: seq<Value>): (r: seq<Meaning>)
    requires forall i :: 0 <= i < |items| ==> items[i] < v
    ensures |r| == |items|
    decreases v, 0, |items|
  {
    if items == [] then [] else [Meant(items[0])] + MeantItems(v, items[1..])
  }

  function MeantEntries(v: Value, fields: seq<Field>): map<Text, Meaning>
    requires forall f :: f in fields ==> f.value < v
    decreases v, 0, |fields|
  {
    if fields == [] then map[]
    else
      var rest := MeantEntries(v, fields[1..]);
      if fields[0].value.Undefined? then rest else rest[fields[0].key := Meant(fields[0].value)]
  }

  // ---- reading a text ----

  function NumberSpan(t: Text): (n: nat)
    ensures n <= |t|
  {
    if t == [] || !NumberUnit(t[0]) then 0 else 1 + NumberSpan(t[1..])
  }

  function Read(t: Text): (r: Option<(Meaning, Text)>)
    ensures r.Some? ==> |r.value.1| < |t|
    decreases |t|, 1
  {
    if t == [] then None
    else if t[0] == QUOTE then
      match Unquoted(t[1..])
      case None => None
      case Some((s, rest)) => Some((MStr(s), rest))
    else if t[0] == OPEN_LIST then
      if |t| > 1 && t[1] == CLOSE_LIST then Some((MList([]), t[2..]))
      else
        match ReadItems(t[1..])
        case None => None
        case Some((items, rest)) => Some((MList(items), rest))
    else if t[0] == OPEN_OBJECT then
      if |t| > 1 && t[1] == CLOSE_OBJECT then Some((MObject(map[]), t[2..]))
      else
        match ReadFields(t[1..])
        case None => None
        case Some((entries, rest)) => Some((MObject(entries), rest))
    else if NULL <= t then Some((MNull, t[|NULL|..]))
    else if TRUE <= t then Some((MBool(true), t[|TRUE|..]))
    else if FALSE <= t then Some((MBool(false), t[|FALSE|..]))
    else if NumberUnit(t[0]) then Some((MNum(t[..NumberSpan(t)]), t[NumberSpan(t)..]))
    else None
  }

  function ReadItems(t: Text): (r: Option<(seq<Meaning>, Text)>)
    ensures r.Some? ==> |r.value.1| < |t|
    decreases |t|, 2
  {
    match Read(t)
    case None => None
    case Some((item, rest)) =>
      if rest == [] then None
      else if rest[0] == CLOSE_LIST then Some(([item], rest[1..]))
      else if rest[0] != COMMA then None
      else
        match ReadItems(rest[1..])
        case None => None
        case Some((items, after)) => Some(([item] + items, after))
  }

  function ReadField(t: Text): (r: Option<(Text, Meaning, Text)>)
    ensures r.Some? ==> |r.value.2| < |t|
    decreases |t|, 2
  {
    if t == [] || t[0] != QUOTE then None
    else
      match Unquoted(t[1..])
      case None => None
      case Some((key, rest)) =>
        if rest == [] || rest[0] != COLON then None
        else
          match Read(rest[1..])
          case None => None
          case Some((value, after)) => Some((key, value, after))
  }

  function ReadFields(t: Text): (r: Option<(map<Text, Meaning>, Text)>)
    ensures r.Some? ==> |r.value.1| < |t|
    decreases |t|, 3
  {
    match ReadField(t)
    case None => None
    case Some((key, value, rest)) =>
      if rest == [] then None
      else if rest[0] == CLOSE_OBJECT then Some((map[key := value], rest[1..]))
      else if rest[0] != COMMA then None
      else
        match ReadFields(rest[1..])
        case None => None
        case Some((entries, after)) => Some((entries[key := value], after))
  }
}
