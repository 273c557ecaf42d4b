/** The serializer is a canonical form: its text can be read back to what the value means, and values
    that mean the same have the same text. */
module CanonicalJson {
  import opened Base
  import opened JsText
  import opened StableJson

  // ---- the order of the fields ----

  ghost predicate ByKey(fields: seq<Field>) {
    forall i, j :: 0 <= i < j < |fields| ==> Less(fields[i].key, fields[j].key)
  }

  lemma {:induction false} InsertKeepsOrder(f: Field, fields: seq<Field>)
    requires ByKey(fields) && forall g :: g in fields ==> g.key != f.key
    ensures ByKey(Insert(f, fields))
  {
    if fields != [] {
      var first, rest := fields[0], fields[1..];
      assert forall i :: 0 <= i < |rest| ==> rest[i] == fields[i + 1];
      if Less(f.key, first.key) {
        forall j | 0 <= j < |fields|
          ensures Less(f.key, fields[j].key)
        {
          if j > 0 { LessTransitive(f.key, first.key, fields[j].key); }
        }
      } else {
        InsertKeepsOrder(f, rest);
        LessTotal(f.key, first.key);
        var inserted := Insert(f, rest);
        forall j | 0 <= j < |inserted|
          ensures Less(first.key, inserted[j].key)
        {
          assert inserted[j] in inserted;
        }
      }
    }
  }

  lemma {:induction false} SortedByKey(fields: seq<Field>)
    requires DistinctKeys(fields)
    ensures ByKey(Sorted(fields))
  {
    if fields != [] {
      assert forall i :: 0 <= i < |fields[1..]| ==> fields[1..][i] == fields[i + 1];
      SortedByKey(fields[1..]);
      InsertKeepsOrder(fields[0], Sorted(fields[1..]));
    }
  }

  lemma {:induction false} PresentStaysDistinct(fields: seq<Field>)
    requires DistinctKeys(fields)
    ensures DistinctKeys(Present(fields))
  {
    if fields != [] {
      var rest := Present(fields[1..]);
      assert forall i :: 0 <= i < |fields[1..]| ==> fields[1..][i] == fields[i + 1];
      PresentStaysDistinct(fields[1..]);
      assert forall i :: 0 <= i < |rest| ==> rest[i] in rest;
    }
  }

  lemma InOrderByKey(fields: seq<Field>)
    requires DistinctKeys(fields)
    ensures ByKey(InOrder(fields))
  {
    PresentStaysDistinct(fields);
    SortedByKey(Present(fields));
  }

  lemma ByKeyIsDistinct(fields: seq<Field>)
    requires ByKey(fields)
    ensures DistinctKeys(fields)
  {
    forall i, j | 0 <= i < j < |fields|
      ensures fields[i].key != fields[j].key
    {
      LessIrreflexive(fields[i].key);
    }
  }

  // ---- what an object's entries are ----

  ghost predicate Below(v: Value, fields: seq<Field>) {
    forall f :: f in fields ==> f.value < v
  }

  lemma {:induction false} EntriesAre(v: Value, fields: seq<Field>)
    requires Below(v, fields) && DistinctKeys(fields)
    ensures forall f :: f in fields && !f.value.Undefined? ==>
              f.key in MeantEntries(v, fields) && MeantEntries(v, fields)[f.key] == Meant(f.value)
    ensures forall key :: key in MeantEntries(v, fields) ==>
              exists f :: f in fields && !f.value.Undefined? && f.key == key
  {
    if fields != [] {
      var first, rest := fields[0], fields[1..];
      assert forall i :: 0 <= i < |rest| ==> rest[i] == fields[i + 1];
      EntriesAre(v, rest);
      assert forall f :: f in rest ==> f.key != first.key;
      forall key | key in MeantEntries(v, fields)
        ensures exists f :: f in fields && !f.value.Undefined? && f.key == key
      {
        if key in MeantEntries(v, rest) {
          var f :| f in rest && !f.value.Undefined? && f.key == key;
          assert f in fields;
        } else {
          assert first in fields && first.key == key;
        }
      }
    }
  }

  /** Sorting and dropping undefined fields does not change the entries. */
  lemma InOrderMeansTheSame(v: Value, fields: seq<Field>)
    requires Below(v, fields) && DistinctKeys(fields)
    ensures MeantEntries(v, InOrder(fields)) == MeantEntries(v, fields)
  {
    var ordered := InOrder(fields);
    InOrderByKey(fields);
    ByKeyIsDistinct(ordered);
    EntriesAre(v, fields);
    EntriesAre(v, ordered);
    var a, b := MeantEntries(v, ordered), MeantEntries(v, fields);
    forall key | key in a
      ensures key in b && a[key] == b[key]
    {
      var f :| f in ordered && !f.value.Undefined? && f.key == key;
    }
    forall key | key in b
      ensures key in a
    {
      var f :| f in fields && !f.value.Undefined? && f.key == key;
      assert f in ordered;
    }
  }

  // ---- reading one piece ----

  /** What may follow a value without being taken into it. */
  predicate Ends(after: Text) { after == [] || !NumberUnit(after[0]) }

  lemma ReadsNull(after: Text)
    ensures Read(NULL + after) == Some((MNull, after))
  {
  }

  lemma ReadsBool(b: bool, after: Text)
    ensures Read((if b then TRUE else FALSE) + after) == Some((MBool(b), after))
  {
  }

  lemma {:induction false} SpanOfNumeral(t: Text, after: Text)
    requires (forall i :: 0 <= i < |t| ==> NumberUnit(t[i])) && Ends(after)
    ensures NumberSpan(t + after) == |t|
  {
    if t == [] {
      assert t + after == after;
    } else {
      assert (t + after)[1..] == t[1..] + after;
      SpanOfNumeral(t[1..], after);
    }
  }

  lemma ReadsNumeral(t: Numeral, after: Text)
    requires Ends(after)
    ensures Read(t + after) == Some((MNum(t), after))
  {
    SpanOfNumeral(t, after);
    var all := t + after;
    assert NumberUnit(all[0]);
    Halves(t, after);
    assert !(NULL <= all) && !(TRUE <= all) && !(FALSE <= all);
  }

  lemma ReadsString(s: Text, after: Text)
    ensures Read(Quoted(s) + after) == Some((MStr(s), after))
  {
    QuotedReadsBack(s, after);
    var t := Quoted(s) + after;
    assert t == [QUOTE] + (Escape(s) + ([QUOTE] + after));
    assert t[1..] == Escape(s) + ([QUOTE] + after);
  }

  lemma ReadsLastItem(t: Text, item: Meaning, after: Text)
    requires Read(t) == Some((item, [CLOSE_LIST] + after))
    ensures ReadItems(t) == Some(([item], after))
  {
  }

  lemma ReadsItem(t: Text, item: Meaning, rest: Text, items: seq<Meaning>, after: Text)
    requires Read(t) == Some((item, [COMMA] + rest)) && ReadItems(rest) == Some((items, after))
    ensures ReadItems(t) == Some(([item] + items, after))
  {
  }

  lemma ReadsList(body: Text, items: seq<Meaning>, after: Text)
    requires body != [] && body[0] != CLOSE_LIST && ReadItems(body) == Some((items, after))
    ensures Read([OPEN_LIST] + body) == Some((MList(items), after))
  {
  }

  lemma ReadsField(key: Text, body: Text, value: Meaning, after: Text)
    requires Read(body) == Some((value, after))
    ensures ReadField(Quoted(key) + ([COLON] + body)) == Some((key, value, after))
  {
    var rest := [COLON] + body;
    QuotedThen(key, rest);
    assert rest[1..] == body;
    FieldThen(Quoted(key) + rest, key, rest, value, after);
  }

  lemma QuotedThen(key: Text, rest: Text)
    ensures var t := Quoted(key) + rest; t[0] == QUOTE && Unquoted(t[1..]) == Some((key, rest))
  {
    QuotedReadsBack(key, rest);
    Bracketed(QUOTE, Escape(key), QUOTE, rest);
    var inner := Escape(key) + ([QUOTE] + rest);
    assert ([QUOTE] + inner)[1..] == inner;
  }

  lemma FieldThen(t: Text, key: Text, rest: Text, value: Meaning, after: Text)
    requires t != [] && t[0] == QUOTE && Unquoted(t[1..]) == Some((key, rest))
    requires rest != [] && rest[0] == COLON && Read(rest[1..]) == Some((value, after))
    ensures ReadField(t) == Some((key, value, after))
  {
  }

  lemma ReadsLastField(t: Text, key: Text, value: Meaning, after: Text)
    requires ReadField(t) == Some((key, value, [CLOSE_OBJECT] + after))
    ensures ReadFields(t) == Some((map[key := value], after))
  {
  }

  lemma ReadsMoreFields(t: Text, key: Text, value: Meaning, rest: Text, entries: map<Text, Meaning>, after: Text)
    requires ReadField(t) == Some((key, value, [COMMA] + rest)) && ReadFields(rest) == Some((entries, after))
    ensures ReadFields(t) == Some((entries[key := value], after))
  {
  }

  lemma ReadsObject(body: Text, entries: map<Text, Meaning>, after: Text)
    requires body != [] && body[0] == QUOTE && ReadFields(body) == Some((entries, after))
    ensures Read([OPEN_OBJECT] + body) == Some((MObject(entries), after))
  {
  }

  // ---- reading a value back ----

  lemma ShowBegins(v: Value)
    ensures Show(v) != [] && Show(v)[0] != CLOSE_LIST
  {
  }

  lemma ItemsText(v: Value, items: seq<Value>, end: Text)
    requires items != [] && forall i :: 0 <= i < |items| ==> items[i] < v
    ensures |items| == 1 ==> ShowItems(v, items) == Show(items[0]) && MeantItems(v, items) == [Meant(items[0])]
    ensures |items| > 1 ==>
              ShowItems(v, items) + end == Show(items[0]) + ([COMMA] + (ShowItems(v, items[1..]) + end)) &&
              MeantItems(v, items) == [Meant(items[0])] + MeantItems(v, items[1..])
  {
  }

  lemma FieldText(v: Value, f: Field, after: Text)
    requires f.value < v
    ensures ShowField(v, f) + after == Quoted(f.key) + ([COLON] + (Show(f.value) + after))
    ensures ShowField(v, f) != [] && ShowField(v, f)[0] == QUOTE
  {
  }

  lemma FieldsText(v: Value, fields: seq<Field>, end: Text)
    requires fields != [] && Below(v, fields) && !fields[0].value.Undefined?
    ensures ShowFields(v, fields) != [] && ShowFields(v, fields)[0] == QUOTE
    ensures |fields| == 1 ==>
              ShowFields(v, fields) == ShowField(v, fields[0]) &&
              MeantEntries(v, fields) == map[fields[0].key := Meant(fields[0].value)]
    ensures |fields| > 1 ==>
              ShowFields(v, fields) + end == ShowField(v, fields[0]) + ([COMMA] + (ShowFields(v, fields[1..]) + end)) &&
              MeantEntries(v, fields) == MeantEntries(v, fields[1..])[fields[0].key := Meant(fields[0].value)]
  {
    FieldText(v, fields[0], end);
    if |fields| == 1 {
      assert MeantEntries(v, fields[1..]) == map[];
    } else {
      Associates(ShowField(v, fields[0]), [COMMA] + ShowFields(v, fields[1..]), end);
      Associates([COMMA], ShowFields(v, fields[1..]), end);
    }
  }

  lemma Bracketed(open: CodeUnit, body: Text, close: CodeUnit, after: Text)
    ensures [open] + body + [close] + after == [open] + (body + ([close] + after))
  {
  }

  lemma ListReads(v: Value, after: Text)
    requires v.List?
    requires v.items != [] ==>
               ReadItems(ShowItems(v, v.items) + ([CLOSE_LIST] + after)) == Some((MeantItems(v, v.items), after))
    ensures Read(Show(v) + after) == Some((Meant(v), after))
  {
    var body := ShowItems(v, v.items) + ([CLOSE_LIST] + after);
    Bracketed(OPEN_LIST, ShowItems(v, v.items), CLOSE_LIST, after);
    if v.items == [] {
      assert ([OPEN_LIST] + body)[2..] == after;
    } else {
      ItemsText(v, v.items, [CLOSE_LIST] + after);
      ShowBegins(v.items[0]);
      ReadsList(body, MeantItems(v, v.items), after);
    }
  }

  lemma ObjectReads(v: Value, ordered: seq<Field>, after: Text)
    requires v.Object? && ordered == InOrder(v.fields) && Below(v, ordered)
    requires MeantEntries(v, ordered) == MeantEntries(v, v.fields)
    requires ordered != [] ==>
               ReadFields(ShowFields(v, ordered) + ([CLOSE_OBJECT] + after)) == Some((MeantEntries(v, ordered), after))
    ensures Read(Show(v) + after) == Some((Meant(v), after))
  {
    var body := ShowFields(v, ordered) + ([CLOSE_OBJECT] + after);
    Bracketed(OPEN_OBJECT, ShowFields(v, ordered), CLOSE_OBJECT, after);
    if ordered == [] {
      assert ([OPEN_OBJECT] + body)[2..] == after;
    } else {
      FieldsText(v, ordered, [CLOSE_OBJECT] + after);
      ReadsObject(body, MeantEntries(v, ordered), after);
    }
  }

  /** The text of a value reads back to what the value means, whatever follows it. */
  lemma {:induction false} ShowReadsBack(v: Value, after: Text)
    requires Proper(v) && Ends(after)
    ensures Read(Show(v) + after) == Some((Meant(v), after))
    decreases v, 1, 0
  {
    match v
    case Null => ReadsNull(after);
    case Undefined => ReadsNull(after);
    case Odd => ReadsNull(after);
    case Bool(b) => ReadsBool(b, after);
    case Num(numeral) => ReadsNumeral(numeral, after);
    case Str(text) => ReadsString(text, after);
    case List(items) =>
      if items != [] { ItemsReadBack(v, items, after); }
      ListReads(v, after);
    case Object(fields) =>
      var ordered := InOrder(fields);
      InOrderMeansTheSame(v, fields);
      if ordered != [] { FieldsReadBack(v, ordered, after); }
      ObjectReads(v, ordered, after);
  }

  lemma {:induction false} ItemsReadBack(v: Value, items: seq<Value>, after: Text)
    requires items != [] && forall i :: 0 <= i < |items| ==> items[i] < v && Proper(items[i])
    ensures ReadItems(ShowItems(v, items) + ([CLOSE_LIST] + after)) == Some((MeantItems(v, items), after))
    decreases v, 0, |items|
  {
    var end := [CLOSE_LIST] + after;
    ItemsText(v, items, end);
    if |items| == 1 {
      ShowReadsBack(items[0], end);
      ReadsLastItem(Show(items[0]) + end, Meant(items[0]), after);
    } else {
      var rest := ShowItems(v, items[1..]) + end;
      ItemsReadBack(v, items[1..], after);
      ShowReadsBack(items[0], [COMMA] + rest);
      ReadsItem(Show(items[0]) + ([COMMA] + rest), Meant(items[0]), rest, MeantItems(v, items[1..]), after);
    }
  }

  lemma {:induction false} FieldReadsBack(v: Value, f: Field, after: Text)
    requires f.value < v && Proper(f.value) && Ends(after)
    ensures ReadField(ShowField(v, f) + after) == Some((f.key, Meant(f.value), after))
    decreases v, 0, 0
  {
    ShowReadsBack(f.value, after);
    ReadsField(f.key, Show(f.value) + after, Meant(f.value), after);
    FieldText(v, f, after);
  }

  lemma {:induction false} FieldsReadBack(v: Value, fields: seq<Field>, after: Text)
    requires fields != [] && Below(v, fields)
    requires forall f :: f in fields ==> Proper(f.value) && !f.value.Undefined?
    ensures ReadFields(ShowFields(v, fields) + ([CLOSE_OBJECT] + after)) == Some((MeantEntries(v, fields), after))
    decreases v, 0, |fields| + 1
  {
    var end := [CLOSE_OBJECT] + after;
    var f := fields[0];
    FieldsText(v, fields, end);
    if |fields| == 1 {
      FieldReadsBack(v, f, end);
      ReadsLastField(ShowField(v, f) + end, f.key, Meant(f.value), after);
    } else {
      var rest := ShowFields(v, fields[1..]) + end;
      FieldsReadBack(v, fields[1..], after);
      FieldReadsBack(v, f, [COMMA] + rest);
      ReadsMoreFields(ShowField(v, f) + ([COMMA] + rest), f.key, Meant(f.value), rest, MeantEntries(v, fields[1..]), after);
    }
  }

  // ---- what the text is made of ----

  /** The text of a value holds no control character and no surrogate without its partner. */
  lemma {:induction false} ShowIsClean(v: Value)
    requires Proper(v)
    ensures Clean(Show(v))
    decreases v, 1, 0
  {
    match v
    case Null => PlainIsClean(NULL);
    case Undefined => PlainIsClean(NULL);
    case Odd => PlainIsClean(NULL);
    case Bool(b) => PlainIsClean(if b then TRUE else FALSE);
    case Num(numeral) =>
      assert forall i :: 0 <= i < |numeral| ==> NumberUnit(numeral[i]);
      PlainIsClean(numeral);
    case Str(text) => QuotedIsClean(text);
    case List(items) =>
      ItemsAreClean(v, items);
      PlainIsClean([OPEN_LIST]);
      PlainIsClean([CLOSE_LIST]);
      CleanConcat([OPEN_LIST], ShowItems(v, items));
      CleanConcat([OPEN_LIST] + ShowItems(v, items), [CLOSE_LIST]);
    case Object(fields) =>
      FieldsAreClean(v, InOrder(fields));
      PlainIsClean([OPEN_OBJECT]);
      PlainIsClean([CLOSE_OBJECT]);
      CleanConcat([OPEN_OBJECT], ShowFields(v, InOrder(fields)));
      CleanConcat([OPEN_OBJECT] + ShowFields(v, InOrder(fields)), [CLOSE_OBJECT]);
  }

  lemma {:induction false} ItemsAreClean(v: Value, items: seq<Value>)
    requires forall i :: 0 <= i < |items| ==> items[i] < v && Proper(items[i])
    ensures Clean(ShowItems(v, items))
    decreases v, 0, |items|
  {
    if items != [] {
      ShowIsClean(items[0]);
      ItemsAreClean(v, items[1..]);
      PlainIsClean([COMMA]);
      CleanConcat([COMMA], ShowItems(v, items[1..]));
      CleanConcat(Show(items[0]), [COMMA] + ShowItems(v, items[1..]));
    }
  }

  lemma {:induction false} FieldsAreClean(v: Value, fields: seq<Field>)
    requires Below(v, fields) && forall f :: f in fields ==> Proper(f.value)
    ensures Clean(ShowFields(v, fields))
    decreases v, 0, |fields| + 1
  {
    if fields != [] {
      var f := fields[0];
      ShowIsClean(f.value);
      QuotedIsClean(f.key);
      PlainIsClean([COLON]);
      CleanConcat([COLON], Show(f.value));
      CleanConcat(Quoted(f.key), [COLON] + Show(f.value));
      FieldsAreClean(v, fields[1..]);
      PlainIsClean([COMMA]);
      CleanConcat([COMMA], ShowFields(v, fields[1..]));
      CleanConcat(ShowField(v, f), [COMMA] + ShowFields(v, fields[1..]));
    }
  }

  /** The words and the punctuation of the text. */
  lemma WordsAre()
    ensures NULL == Units("null") && TRUE == Units("true") && FALSE == Units("false")
    ensures [OPEN_LIST, CLOSE_LIST, OPEN_OBJECT, CLOSE_OBJECT, COMMA, COLON, QUOTE] == Units("[]{},:\"")
  {
    assert |Units("null")| == 4 && |Units("true")| == 4 && |Units("false")| == 5;
  }

  /** `a` is a proper beginning of `b`, or smaller where they first differ. */
  ghost predicate Before(a: Text, b: Text) {
    exists k: nat :: FirstDifference(a, b, k) && k < |b| && (k == |a| || a[k] < b[k])
  }

  lemma FieldsStandInOrder(v: Value, i: nat, j: nat)
    requires v.Object? && Proper(v) && i < j < |InOrder(v.fields)|
    ensures Before(InOrder(v.fields)[i].key, InOrder(v.fields)[j].key)
  {
    InOrderByKey(v.fields);
    LessIff(InOrder(v.fields)[i].key, InOrder(v.fields)[j].key);
  }

  function CommaJoined(parts: seq<Text>): Text {
    if parts == [] then [] else if |parts| == 1 then parts[0] else parts[0] + Units(",") + CommaJoined(parts[1..])
  }

  function FieldTexts(fields: seq<Field>): seq<Text> {
    seq(|fields|, i requires 0 <= i < |fields| => Quoted(fields[i].key) + Units(":") + Show(fields[i].value))
  }

  lemma {:induction false} FieldsAreJoined(v: Value, fields: seq<Field>)
    requires forall f :: f in fields ==> f.value < v
    ensures ShowFields(v, fields) == CommaJoined(FieldTexts(fields))
    decreases |fields|
  {
    if fields != [] {
      assert FieldTexts(fields)[1..] == FieldTexts(fields[1..]);
      Associates(Quoted(fields[0].key), Units(":"), Show(fields[0].value));
      assert Units(":") == [COLON] && Units(",") == [COMMA];
      FieldsAreJoined(v, fields[1..]);
      Associates(ShowField(v, fields[0]), [COMMA], ShowFields(v, fields[1..]));
    }
  }

  /** An object is shown as exactly its fields that are present, joined by commas in braces, each key
      smaller than the next where they first differ. */
  lemma ObjectTextIs(v: Value)
    requires v.Object? && Proper(v)
    ensures exists order: seq<Field> ::
              (forall f :: f in order <==> f in v.fields && f.value != Undefined) &&
              (forall i, j :: 0 <= i < j < |order| ==> Before(order[i].key, order[j].key)) &&
              Show(v) == Units("{") + CommaJoined(FieldTexts(order)) + Units("}")
  {
    var order := InOrder(v.fields);
    FieldsAreJoined(v, order);
    assert Units("{") == [OPEN_OBJECT] && Units("}") == [CLOSE_OBJECT];
    forall i, j | 0 <= i < j < |order|
      ensures Before(order[i].key, order[j].key)
    {
      FieldsStandInOrder(v, i, j);
    }
  }

  // ---- values that mean the same ----

  function Keys(fields: seq<Field>): seq<Text> {
    seq(|fields|, i requires 0 <= i < |fields| => fields[i].key)
  }

  ghost predicate Climbing(keys: seq<Text>) {
    forall i, j :: 0 <= i < j < |keys| ==> Less(keys[i], keys[j])
  }

  lemma TailIsTheRest(keys: seq<Text>, key: Text)
    requires Climbing(keys) && keys != []
    ensures key in keys[1..] <==> key in keys && key != keys[0]
  {
    LessIrreflexive(keys[0]);
    if key in keys && key != keys[0] {
      var i :| 0 <= i < |keys| && keys[i] == key;
      assert keys[1..][i - 1] == key;
    }
  }

  lemma FirstIsLeast(a: seq<Text>, b: seq<Text>)
    requires Climbing(a) && Climbing(b) && a != [] && b != [] && b[0] in a && a[0] in b
    ensures a[0] == b[0]
  {
    var i :| 0 <= i < |a| && a[i] == b[0];
    var j :| 0 <= j < |b| && b[j] == a[0];
    if i > 0 && j > 0 {
      LessTransitive(a[0], b[0], a[0]);
      LessIrreflexive(a[0]);
    }
  }

  /** Keys in increasing order are determined by which keys they are. */
  lemma {:induction false} OrderIsUnique(a: seq<Text>, b: seq<Text>)
    requires Climbing(a) && Climbing(b) && forall key :: key in a <==> key in b
    ensures a == b
    decreases |a|
  {
    assert b != [] ==> b[0] in b;
    if a != [] {
      assert a[0] in a;
      FirstIsLeast(a, b);
      forall key
        ensures key in a[1..] <==> key in b[1..]
      {
        TailIsTheRest(a, key);
        TailIsTheRest(b, key);
      }
      OrderIsUnique(a[1..], b[1..]);
      assert a == [a[0]] + a[1..] && b == [b[0]] + b[1..];
    }
  }

  lemma KeysOf(fields: seq<Field>, key: Text)
    ensures key in Keys(fields) <==> exists f :: f in fields && f.key == key
  {
    if key in Keys(fields) {
      var i :| 0 <= i < |fields| && Keys(fields)[i] == key;
      assert fields[i] in fields;
    }
    if f :| f in fields && f.key == key {
      var i :| 0 <= i < |fields| && fields[i] == f;
      assert Keys(fields)[i] == key;
    }
  }

  lemma WrittenKeys(v: Value, key: Text)
    requires v.Object? && Proper(v)
    ensures key in Keys(InOrder(v.fields)) <==> key in MeantEntries(v, v.fields)
  {
    EntriesAre(v, v.fields);
    KeysOf(InOrder(v.fields), key);
  }

  /** The fields written for two objects with the same entries have the same keys in the same order,
      and values that mean the same. */
  lemma SameEntries(a: Value, b: Value)
    requires a.Object? && b.Object? && Proper(a) && Proper(b)
    requires MeantEntries(a, a.fields) == MeantEntries(b, b.fields)
    ensures var x, y := InOrder(a.fields), InOrder(b.fields);
            Alike(x, y)
  {
    var x, y := InOrder(a.fields), InOrder(b.fields);
    InOrderByKey(a.fields);
    InOrderByKey(b.fields);
    forall key
      ensures key in Keys(x) <==> key in Keys(y)
    {
      WrittenKeys(a, key);
      WrittenKeys(b, key);
    }
    OrderIsUnique(Keys(x), Keys(y));
    forall i | 0 <= i < |x|
      ensures x[i].key == y[i].key && Meant(x[i].value) == Meant(y[i].value)
    {
      assert Keys(x)[i] == Keys(y)[i];
      assert x[i] in x && y[i] in y;
      FieldMeans(a, x[i]);
      FieldMeans(b, y[i]);
    }
  }

  lemma FieldMeans(v: Value, f: Field)
    requires v.Object? && Proper(v) && f in InOrder(v.fields)
    ensures f.key in MeantEntries(v, v.fields) && MeantEntries(v, v.fields)[f.key] == Meant(f.value)
  {
    EntriesAre(v, v.fields);
  }

  /** Values that mean the same have the same text. */
  lemma {:induction false} SameMeaningSameText(a: Value, b: Value)
    requires Proper(a) && Proper(b) && Meant(a) == Meant(b)
    ensures Show(a) == Show(b)
    decreases a, 1, 0
  {
    if a.List? {
      ItemsShowAlike(a, a.items, b, b.items);
    } else if a.Object? {
      SameEntries(a, b);
      FieldsShowAlike(a, InOrder(a.fields), b, InOrder(b.fields));
    }
  }

  lemma {:induction false} ItemsShowAlike(a: Value, x: seq<Value>, b: Value, y: seq<Value>)
    requires forall i :: 0 <= i < |x| ==> x[i] < a && Proper(x[i])
    requires forall i :: 0 <= i < |y| ==> y[i] < b && Proper(y[i])
    requires MeantItems(a, x) == MeantItems(b, y)
    ensures ShowItems(a, x) == ShowItems(b, y)
    decreases a, 0, |x|
  {
    assert |x| == |y|;
    if x != [] {
      var p, q := MeantItems(a, x), MeantItems(b, y);
      assert p[0] == Meant(x[0]) && q[0] == Meant(y[0]);
      assert p[1..] == MeantItems(a, x[1..]) && q[1..] == MeantItems(b, y[1..]);
      SameMeaningSameText(x[0], y[0]);
      ItemsShowAlike(a, x[1..], b, y[1..]);
    }
  }

  /** Two lists of fields with the same keys, and values that mean the same. */
  ghost predicate Alike(x: seq<Field>, y: seq<Field>) {
    && |x| == |y|
    && forall i :: 0 <= i < |x| ==>
         x[i].key == y[i].key && Meant(x[i].value) == Meant(y[i].value) && Proper(x[i].value) && Proper(y[i].value)
  }

  lemma AlikeTail(x: seq<Field>, y: seq<Field>)
    requires Alike(x, y) && x != []
    ensures Alike(x[1..], y[1..])
  {
  }

  lemma {:induction false} FieldsShowAlike(a: Value, x: seq<Field>, b: Value, y: seq<Field>)
    requires Below(a, x) && Below(b, y) && Alike(x, y)
    ensures ShowFields(a, x) == ShowFields(b, y)
    decreases a, 0, |x| + 1
  {
    if x != [] {
      assert x[0] in x && y[0] in y;
      SameMeaningSameText(x[0].value, y[0].value);
      AlikeTail(x, y);
      FieldsShowAlike(a, x[1..], b, y[1..]);
    }
  }

  /** The text is a canonical form: two values have the same text exactly when they are equal up to
      the order of keys, fields that are undefined, and what JSON has no form for. */
  lemma CanonicalForm(a: Value, b: Value)
    requires Proper(a) && Proper(b)
    ensures Show(a) == Show(b) <==> Meant(a) == Meant(b)
  {
    ShowReadsBack(a, []);
    ShowReadsBack(b, []);
    assert Show(a) + [] == Show(a) && Show(b) + [] == Show(b);
    if Meant(a) == Meant(b) { SameMeaningSameText(a, b); }
  }
}
