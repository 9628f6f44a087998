/** Two values sign to the same text exactly when they are the same JSON value. */
module CanonicalSigning {
  import opened Texts
  import opened CanonicalJson
  import opened CanonicalText

  // ---- The key order is a strict total order ----

  lemma KeyTotal(a: Text, b: Text)
    ensures !(KeyBefore(a, b) && KeyBefore(b, a))
    ensures a != b ==> KeyBefore(a, b) || KeyBefore(b, a)
  {
    TextOrderTotal(a, b);
  }

  lemma KeyTransitive(a: Text, b: Text, c: Text)
    requires KeyBefore(a, b) && KeyBefore(b, c)
    ensures KeyBefore(a, c)
  {
    if TextBefore(a, b) && TextBefore(b, c) {
      TextOrderTransitive(a, b, c);
    }
  }

  // ---- Sorted values ----

  /** key comes before every key of fields. */
  ghost predicate Precedes(key: Text, fields: Fields) {
    forall k :: k in Keys(fields) ==> KeyBefore(key, k)
  }

  ghost predicate Sorted(v: Json) {
    match v
    case Arr(items) => SortedItems(items)
    case Obj(fields) => SortedFields(fields)
    case _ => true
  }

  ghost predicate SortedItems(items: Items) {
    match items
    case NoItems => true
    case Item(head, tail) => Sorted(head) && SortedItems(tail)
  }

  ghost predicate SortedFields(fields: Fields) {
    match fields
    case NoFields => true
    case Field(key, value, tail) => Precedes(key, tail) && Sorted(value) && SortedFields(tail)
  }

  lemma {:induction false} InsertAdds(key: Text, value: Json, fields: Fields)
    requires key !in Keys(fields)
    ensures Keys(Insert(key, value, fields)) == Keys(fields) + {key}
    ensures FieldsMeaning(Insert(key, value, fields)) == FieldsMeaning(fields)[key := Meaning(value)]
  {
    hide KeyBefore, Meaning;
    if fields.Field? && !KeyBefore(key, fields.key) {
      InsertAdds(key, value, fields.tail);
    }
  }

  lemma PrecedesTransitively(key: Text, k: Text, fields: Fields)
    requires KeyBefore(key, k) && Precedes(k, fields)
    ensures Precedes(key, fields)
  {
    forall x | x in Keys(fields)
      ensures KeyBefore(key, x)
    {
      KeyTransitive(key, k, x);
    }
  }

  lemma {:induction false} InsertSorts(key: Text, value: Json, fields: Fields)
    requires SortedFields(fields) && Sorted(value) && key !in Keys(fields)
    ensures SortedFields(Insert(key, value, fields))
  {
    match fields
    case NoFields =>
    case Field(k, v, tail) =>
      KeyTotal(key, k);
      if KeyBefore(key, k) {
        PrecedesTransitively(key, k, tail);
      } else {
        InsertSorts(key, value, tail);
        InsertAdds(key, value, tail);
      }
  }

  /** Sorting gives a sorted value with the same meaning, less any "__proto__" field. */
  lemma {:induction false} SortKeeps(v: Json)
    requires WellFormed(v)
    ensures Sorted(SortKeysDeep(v)) && Meaning(SortKeysDeep(v)) == Meaning(DropProto(v))
    decreases v
  {
    match v
    case Arr(items) => SortKeepsItems(items);
    case Obj(fields) => SortKeepsFields(fields);
    case _ =>
  }

  lemma {:induction false} SortKeepsItems(items: Items)
    requires WellFormedItems(items)
    ensures SortedItems(SortItems(items)) && ItemsMeaning(SortItems(items)) == ItemsMeaning(DropProtoItems(items))
    decreases items
  {
    match items
    case NoItems =>
    case Item(head, tail) =>
      SortKeeps(head);
      SortKeepsItems(tail);
  }

  lemma {:induction false} SortKeepsFields(fields: Fields)
    requires WellFormedFields(fields)
    ensures SortedFields(SortFields(fields)) && FieldsMeaning(SortFields(fields)) == FieldsMeaning(DropProtoFields(fields))
    ensures Keys(SortFields(fields)) == Keys(fields) - {PROTO}
    decreases fields
  {
    match fields
    case NoFields =>
    case Field(key, value, tail) =>
      SortKeepsFields(tail);
      if key != PROTO {
        SortKeeps(value);
        InsertSorts(key, SortKeysDeep(value), SortFields(tail));
        InsertAdds(key, SortKeysDeep(value), SortFields(tail));
      }
  }

  lemma {:induction false} KeysOfMeaning(fields: Fields)
    ensures FieldsMeaning(fields).Keys == Keys(fields)
  {
    if fields.Field? { KeysOfMeaning(fields.tail); }
  }

  /** A sorted value is determined by its meaning. */
  lemma {:induction false} SortedIsUnique(v: Json, w: Json)
    requires Sorted(v) && Sorted(w) && Meaning(v) == Meaning(w)
    ensures v == w
    decreases v
  {
    match v
    case Arr(items) => SortedItemsUnique(items, w.items);
    case Obj(fields) => SortedFieldsUnique(fields, w.fields);
    case _ =>
  }

  lemma {:induction false} SortedItemsUnique(a: Items, b: Items)
    requires SortedItems(a) && SortedItems(b) && ItemsMeaning(a) == ItemsMeaning(b)
    ensures a == b
    decreases a
  {
    if a.Item? {
      assert ItemsMeaning(a)[0] == ItemsMeaning(b)[0];
      assert ItemsMeaning(a)[1..] == ItemsMeaning(a.tail) && ItemsMeaning(b)[1..] == ItemsMeaning(b.tail);
      SortedIsUnique(a.head, b.head);
      SortedItemsUnique(a.tail, b.tail);
    }
  }

  lemma {:induction false} SortedFieldsUnique(a: Fields, b: Fields)
    requires SortedFields(a) && SortedFields(b) && FieldsMeaning(a) == FieldsMeaning(b)
    ensures a == b
    decreases a
  {
    KeysOfMeaning(a);
    KeysOfMeaning(b);
    if a.Field? {
      assert a.key in Keys(b);
      KeyTotal(a.key, b.key);
      assert a.key == b.key;
      assert FieldsMeaning(a)[a.key] == FieldsMeaning(b)[a.key];
      SortedIsUnique(a.value, b.value);
      KeyTotal(a.key, a.key);
      KeysOfMeaning(a.tail);
      KeysOfMeaning(b.tail);
      assert FieldsMeaning(a) - {a.key} == FieldsMeaning(a.tail);
      assert FieldsMeaning(b) - {a.key} == FieldsMeaning(b.tail);
      SortedFieldsUnique(a.tail, b.tail);
    }
  }

  // ---- The law, exactly ----

  /** The signed texts are equal exactly when the values are, "__proto__" fields aside. */
  lemma CanonicalExactly(v: Json, w: Json)
    requires WellFormed(v) && WellFormed(w)
    ensures CanonicalizeForSigning(v) == CanonicalizeForSigning(w) <==> Meaning(DropProto(v)) == Meaning(DropProto(w))
  {
    SortKeeps(v);
    SortKeeps(w);
    PrintIsInjective(SortKeysDeep(v), SortKeysDeep(w));
    if Meaning(DropProto(v)) == Meaning(DropProto(w)) {
      SortedIsUnique(SortKeysDeep(v), SortKeysDeep(w));
    }
  }

  predicate NoProto(v: Json) {
    match v
    case Arr(items) => NoProtoItems(items)
    case Obj(fields) => NoProtoFields(fields)
    case _ => true
  }

  predicate NoProtoItems(items: Items) {
    match items
    case NoItems => true
    case Item(head, tail) => NoProto(head) && NoProtoItems(tail)
  }

  predicate NoProtoFields(fields: Fields) {
    match fields
    case NoFields => true
    case Field(key, value, tail) => key != PROTO && NoProto(value) && NoProtoFields(tail)
  }

  lemma {:induction false} NothingToDrop(v: Json)
    requires NoProto(v)
    ensures DropProto(v) == v
    decreases v
  {
    match v
    case Arr(items) => NothingToDropItems(items);
    case Obj(fields) => NothingToDropFields(fields);
    case _ =>
  }

  lemma {:induction false} NothingToDropItems(items: Items)
    requires NoProtoItems(items)
    ensures DropProtoItems(items) == items
    decreases items
  {
    if items.Item? {
      NothingToDrop(items.head);
      NothingToDropItems(items.tail);
    }
  }

  lemma {:induction false} NothingToDropFields(fields: Fields)
    requires NoProtoFields(fields)
    ensures DropProtoFields(fields) == fields
    decreases fields
  {
    if fields.Field? {
      NothingToDrop(fields.value);
      NothingToDropFields(fields.tail);
    }
  }

  /** Without "__proto__" keys: same text exactly when they are the same JSON value up to key order at every depth. */
  lemma CanonicalUpToKeyOrder(v: Json, w: Json)
    requires WellFormed(v) && WellFormed(w) && NoProto(v) && NoProto(w)
    ensures CanonicalizeForSigning(v) == CanonicalizeForSigning(w) <==> Meaning(v) == Meaning(w)
  {
    CanonicalExactly(v, w);
    NothingToDrop(v);
    NothingToDrop(w);
  }

  /** With one, two different values share their signed text. */
  lemma ProtoKeyIsLost()
    ensures var v, w := Obj(Field(PROTO, Null, NoFields)), Obj(NoFields);
      && WellFormed(v) && WellFormed(w) && Meaning(v) != Meaning(w)
      && CanonicalizeForSigning(v) == CanonicalizeForSigning(w)
  {
    assert PROTO in FieldsMeaning(Field(PROTO, Null, NoFields));
  }

  // ---- Signing and checking an entry ----

  /** Rest-destructuring one field away. */
  function Without(fields: Fields, key: Text): Fields {
    match fields
    case NoFields => NoFields
    case Field(k, v, tail) => if k == key then Without(tail, key) else Field(k, v, Without(tail, key))
  }

  lemma {:induction false} WithoutMeaning(fields: Fields, key: Text)
    requires WellFormedFields(fields)
    ensures WellFormedFields(Without(fields, key)) && Keys(Without(fields, key)) == Keys(fields) - {key}
    ensures FieldsMeaning(DropProtoFields(Without(fields, key))) == FieldsMeaning(DropProtoFields(fields)) - {key}
  {
    if fields.Field? {
      WithoutMeaning(fields.tail, key);
      DroppedKeys(fields.tail);
      KeysOfMeaning(DropProtoFields(fields.tail));
      hide Meaning;
    }
  }

  lemma {:induction false} DroppedKeys(fields: Fields)
    ensures Keys(DropProtoFields(fields)) == Keys(fields) - {PROTO}
  {
    if fields.Field? { DroppedKeys(fields.tail); }
  }

  /**
   * The device takes the signature off whatever entry it holds and checks the text of the rest: it is the text the
   * server signed exactly when the other fields, "__proto__" aside, are the signed ones.
   */
  lemma SignedTextIsRecovered(unsigned: Fields, signatureKey: Text, held: Fields)
    requires WellFormedFields(unsigned) && WellFormedFields(held)
    ensures CanonicalizeForSigning(Obj(Without(held, signatureKey))) == CanonicalizeForSigning(Obj(unsigned))
      <==> FieldsMeaning(DropProtoFields(held)) - {signatureKey} == FieldsMeaning(DropProtoFields(unsigned))
  {
    WithoutMeaning(held, signatureKey);
    CanonicalExactly(Obj(Without(held, signatureKey)), Obj(unsigned));
    hide CanonicalizeForSigning, Without, FieldsMeaning, DropProtoFields;
  }

  /** An entry whose fields, in any order, are the signed ones and a signature verifies against the signed text. */
  lemma UntouchedEntryVerifies(unsigned: Fields, signatureKey: Text, signature: Json, held: Fields)
    requires WellFormedFields(unsigned) && NoProtoFields(unsigned) && signatureKey !in Keys(unsigned)
    requires WellFormedFields(held) && NoProtoFields(held)
    requires FieldsMeaning(held) == FieldsMeaning(unsigned)[signatureKey := Meaning(signature)]
    ensures CanonicalizeForSigning(Obj(Without(held, signatureKey))) == CanonicalizeForSigning(Obj(unsigned))
  {
    SignedTextIsRecovered(unsigned, signatureKey, held);
    NothingToDropFields(unsigned);
    NothingToDropFields(held);
    KeysOfMeaning(unsigned);
    hide CanonicalizeForSigning, FieldsMeaning, WellFormedFields, NoProtoFields;
    assert FieldsMeaning(unsigned)[signatureKey := Meaning(signature)] - {signatureKey} == FieldsMeaning(unsigned);
  }

  /** The server's own entries have no field named "__proto__". */
  predicate Issuable(entry: Fields) {
    WellFormedFields(entry) && NoProtoFields(entry)
  }

  /**
   * If signatures only verify for texts the server signed, an accepted entry says what some issued entry said,
   * "__proto__" fields aside.
   */
  lemma AcceptedEntriesWereIssued(issued: set<Fields>, signatureKey: Text, held: Fields, verifies: Text -> bool)
    requires forall u :: u in issued ==> Issuable(u)
    requires forall t :: verifies(t) ==> exists u :: u in issued && CanonicalizeForSigning(Obj(u)) == t
    requires WellFormedFields(held) && verifies(CanonicalizeForSigning(Obj(Without(held, signatureKey))))
    ensures exists u :: u in issued && FieldsMeaning(DropProtoFields(held)) - {signatureKey} == FieldsMeaning(u)
  {
    var u :| u in issued && CanonicalizeForSigning(Obj(u)) == CanonicalizeForSigning(Obj(Without(held, signatureKey)));
    SignedTextIsRecovered(u, signatureKey, held);
    NothingToDropFields(u);
  }

  /** The exception is real: any issued entry is still accepted with a "__proto__" field put in. */
  lemma AddedProtoIsAccepted(u: Fields, signatureKey: Text, signature: Json, added: Json)
    requires Issuable(u) && signatureKey !in Keys(u) && signatureKey != PROTO && WellFormed(signature) && WellFormed(added)
    ensures var held := Field(PROTO, added, Field(signatureKey, signature, u));
      && WellFormedFields(held)
      && CanonicalizeForSigning(Obj(Without(held, signatureKey))) == CanonicalizeForSigning(Obj(u))
      && FieldsMeaning(held) - {signatureKey} != FieldsMeaning(u)
  {
    var held := Field(PROTO, added, Field(signatureKey, signature, u));
    NothingToDropFields(u);
    NoProtoKey(u);
    KeysOfMeaning(u);
    assert WellFormedFields(held);
    SignedTextIsRecovered(u, signatureKey, held);
    assert DropProtoFields(held) == Field(signatureKey, DropProto(signature), u);
    assert FieldsMeaning(DropProtoFields(held)) - {signatureKey} == FieldsMeaning(u);
    assert PROTO in FieldsMeaning(held) - {signatureKey};
  }

  lemma {:induction false} NoProtoKey(fields: Fields)
    requires NoProtoFields(fields)
    ensures PROTO !in Keys(fields)
  {
    if fields.Field? { NoProtoKey(fields.tail); }
  }

  // ---- One text in full ----

  const TRUE_LIST := Arr(Item(Null, Item(Bool(true), NoItems)))
  const A_LINE := Str([97, 10])
  /** b: {}, 10: "a" and a line end, 2: [null, true], added in this order. */
  const SAMPLE := Obj(Field([98], Obj(NoFields), Field([49, 48], A_LINE, Field([50], TRUE_LIST, NoFields))))

  /** [null,true] */
  function ListValue(): Text {
    [91, 110, 117, 108, 108, 44, 116, 114, 117, 101, 93]
  }

  /** "2":[null,true], */
  function ListField(): Text {
    [34, 50, 34, 58] + ListValue() + [44]
  }

  /** "10":"a\n", */
  function LineField(): Text {
    [34, 49, 48, 34, 58] + [34, 97, 92, 110, 34] + [44]
  }

  /** "b":{}} */
  function LastField(): Text {
    [34, 98, 34, 58, 123, 125, 125]
  }

  lemma SampleIsSorted()
    ensures SortKeysDeep(SAMPLE) == Obj(Field([50], TRUE_LIST, Field([49, 48], A_LINE, Field([98], Obj(NoFields), NoFields))))
  {
    assert IsIndex([50]) && IsIndex([49, 48]) && !IsIndex([98]);
    var two := Field([50], TRUE_LIST, NoFields);
    assert SortFields(Field([50], TRUE_LIST, NoFields)) == two by {
      assert SortKeysDeep(TRUE_LIST) == TRUE_LIST;
    }
    assert Insert([49, 48], A_LINE, two) == Field([50], TRUE_LIST, Field([49, 48], A_LINE, NoFields));
    var ten := Field([49, 48], A_LINE, NoFields);
    assert Insert([98], Obj(NoFields), ten) == Field([49, 48], A_LINE, Field([98], Obj(NoFields), NoFields));
    hide IsIndex, TextBefore;
  }

  lemma EscapeTwo(c: Unit, d: Unit, rest: Text)
    requires !HighSurrogate(c) && !HighSurrogate(d)
    ensures Escape([c], rest) == EscapeUnit(c) + rest
    ensures Escape([c, d], rest) == EscapeUnit(c) + (EscapeUnit(d) + rest)
  {
    assert [c][1..] == [] && [c, d][1..] == [d] && [d][1..] == [];
  }

  lemma ListText(rest: Text)
    ensures Write(TRUE_LIST, rest) == ListValue() + rest
  {
    assert WriteItems(Item(Bool(true), NoItems), rest) == [116, 114, 117, 101] + ([93] + rest);
    assert WriteItems(Item(Null, Item(Bool(true), NoItems)), rest) == [110, 117, 108, 108] + ([44] + ([116, 114, 117, 101] + ([93] + rest)));
  }

  lemma LastFieldText()
    ensures WriteFields(Field([98], Obj(NoFields), NoFields), []) == LastField()
  {
    EscapeTwo(98, 98, [QUOTE] + ([COLON] + [OPEN_OBJECT, CLOSE_OBJECT, CLOSE_OBJECT]));
    var braces: Text := [OPEN_OBJECT, CLOSE_OBJECT, CLOSE_OBJECT];
    assert Write(Obj(NoFields), [CLOSE_OBJECT]) == braces;
    assert Quote([98], [COLON] + braces) == [34] + ([98] + ([34] + ([58] + braces)));
    assert WriteFields(Field([98], Obj(NoFields), NoFields), []) == Quote([98], [COLON] + Write(Obj(NoFields), [CLOSE_OBJECT] + []));
    assert [CLOSE_OBJECT] + [] == [CLOSE_OBJECT];
    hide Write, Escape, Quote, WriteFields;
  }

  lemma LineText(rest: Text)
    ensures Write(A_LINE, rest) == [34, 97, 92, 110, 34] + rest
  {
    EscapeTwo(97, 10, [QUOTE] + rest);
    hide Escape;
  }

  lemma Regrouped(key: Text, value: Text, rest: Text)
    ensures key + (value + ([COMMA] + rest)) == key + value + [COMMA] + rest
  {
  }

  lemma LineFieldText(tail: Fields)
    requires tail.Field?
    ensures WriteFields(Field([49, 48], A_LINE, tail), []) == LineField() + WriteFields(tail, [])
  {
    var after := [COMMA] + WriteFields(tail, []);
    KeyText(49, 48, Write(A_LINE, after));
    hide Write, Quote;
    LineText(after);
    Regrouped([34, 49, 48, 34, 58], [34, 97, 92, 110, 34], WriteFields(tail, []));
  }

  lemma KeyText(c: Unit, d: Unit, rest: Text)
    requires 47 < c < 92 && 47 < d < 92
    ensures Quote([c], [COLON] + rest) == [34, c, 34, 58] + rest && Quote([c, d], [COLON] + rest) == [34, c, d, 34, 58] + rest
  {
    EscapeTwo(c, d, [QUOTE] + ([COLON] + rest));
    hide Escape;
  }

  lemma ListFieldText(tail: Fields)
    requires tail.Field?
    ensures WriteFields(Field([50], TRUE_LIST, tail), []) == ListField() + WriteFields(tail, [])
  {
    var after := [COMMA] + WriteFields(tail, []);
    KeyText(50, 50, Write(TRUE_LIST, after));
    hide Write, Quote, ListValue;
    ListText(after);
    Regrouped([34, 50, 34, 58], ListValue(), WriteFields(tail, []));
  }

  /** Keys that read as numbers come first, by number; and the text is as JSON.stringify writes it. */
  lemma SampleText()
    ensures CanonicalizeForSigning(SAMPLE) == [123] + (ListField() + (LineField() + LastField()))
  {
    SampleIsSorted();
    var last := Field([98], Obj(NoFields), NoFields);
    var line := Field([49, 48], A_LINE, last);
    assert Write(SortKeysDeep(SAMPLE), []) == [123] + WriteFields(Field([50], TRUE_LIST, line), []);
    hide Write, WriteFields, SortKeysDeep, Print, ListField, LineField, LastField;
    ListFieldText(line);
    LineFieldText(last);
    LastFieldText();
  }
}
