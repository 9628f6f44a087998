/** The text that is signed: JSON with every object's keys sorted. */
module CanonicalJson {
  import opened Texts

  /** A number by its shortest decimal: 0, or the digits after "0." times ten to the point. 0 and -0 are one number. */
  datatype Decimal = Zero | Decimal(negative: bool, digits: Text, point: int)

  predicate AllDigits(t: Text) {
    forall i :: 0 <= i < |t| ==> IsDigit(t[i])
  }

  /** The digits neither start nor end with 0. */
  predicate Normal(d: Decimal) {
    d.Decimal? ==> d.digits != [] && AllDigits(d.digits) && d.digits[0] != 48 && d.digits[|d.digits| - 1] != 48
  }

  type Number = d: Decimal | Normal(d) witness Zero

  /** Objects and arrays are lists; an object's fields are in the order they were added. */
  datatype Json = Null | Bool(b: bool) | Num(n: Number) | Str(s: Text) | Arr(items: Items) | Obj(fields: Fields)
  datatype Items = NoItems | Item(head: Json, tail: Items)
  datatype Fields = NoFields | Field(key: Text, value: Json, tail: Fields)

  const QUOTE: Unit := 34
  const COMMA: Unit := 44
  const PLUS: Unit := 43
  const MINUS: Unit := 45
  const DOT: Unit := 46
  const COLON: Unit := 58
  const OPEN_ARRAY: Unit := 91
  const BACKSLASH: Unit := 92
  const CLOSE_ARRAY: Unit := 93
  const LETTER_E: Unit := 101
  const LETTER_U: Unit := 117
  const OPEN_OBJECT: Unit := 123
  const CLOSE_OBJECT: Unit := 125

  // ---- Printing (JSON.stringify) ----

  function Digits(n: nat): Text {
    if n < 10 then [48 + n] else Digits(n / 10) + [48 + n % 10]
  }

  function Zeros(n: nat): Text {
    seq(n, _ => 48)
  }

  function Exponent(e: int): Text {
    if e < 0 then [MINUS] + Digits(-e) else [PLUS] + Digits(e)
  }

  /** Number::toString of ECMA-262: plain up to 21 digits, then with an exponent; as small as 0.000001, then with one. */
  function Magnitude(digits: Text, point: int): Text
    requires digits != []
  {
    if |digits| <= point <= 21 then WholeForm(digits, point)
    else if 0 < point <= 21 then DottedForm(digits, point)
    else if -6 < point <= 0 then SmallForm(digits, -point)
    else ScientificForm(digits, point - 1)
  }

  function WholeForm(digits: Text, point: nat): Text
    requires |digits| <= point
  {
    digits + Zeros(point - |digits|)
  }

  function DottedForm(digits: Text, point: nat): Text
    requires point <= |digits|
  {
    digits[..point] + ([DOT] + digits[point..])
  }

  function SmallForm(digits: Text, zeros: nat): Text {
    [48] + ([DOT] + (Zeros(zeros) + digits))
  }

  function ScientificForm(digits: Text, exponent: int): Text
    requires digits != []
  {
    (if |digits| == 1 then digits else DottedForm(digits, 1)) + ([LETTER_E] + Exponent(exponent))
  }

  function NumberText(n: Number): Text {
    match n
    case Zero => [48]
    case Decimal(negative, digits, point) => (if negative then [MINUS] else []) + Magnitude(digits, point)
  }

  predicate HighSurrogate(c: Unit) {
    0xD800 <= c <= 0xDBFF
  }

  predicate LowSurrogate(c: Unit) {
    0xDC00 <= c <= 0xDFFF
  }

  function HexDigit(d: int): Unit
    requires 0 <= d < 16
  {
    if d < 10 then 48 + d else 87 + d
  }

  /**
   * Section 7 of RFC 8259: two-character escapes where there is one, \u and four digits for other controls and lone
   * surrogates.
   */
  function EscapeUnit(c: Unit): Text {
    if c == 8 then [BACKSLASH, 98]
    else if c == 9 then [BACKSLASH, 116]
    else if c == 10 then [BACKSLASH, 110]
    else if c == 12 then [BACKSLASH, 102]
    else if c == 13 then [BACKSLASH, 114]
    else if c == QUOTE || c == BACKSLASH then [BACKSLASH, c]
    else if c < 32 || HighSurrogate(c) || LowSurrogate(c) then
      [BACKSLASH, LETTER_U, HexDigit(c / 0x1000), HexDigit(c / 0x100 % 16), HexDigit(c / 16 % 16), HexDigit(c % 16)]
    else [c]
  }

  /** The escaped string, followed by what comes after it. */
  function Escape(s: Text, rest: Text): Text {
    if s == [] then rest
    else if |s| > 1 && HighSurrogate(s[0]) && LowSurrogate(s[1]) then [s[0]] + ([s[1]] + Escape(s[2..], rest))
    else EscapeUnit(s[0]) + Escape(s[1..], rest)
  }

  function Quote(s: Text, rest: Text): Text {
    [QUOTE] + Escape(s, [QUOTE] + rest)
  }

  function Write(v: Json, rest: Text): Text {
    match v
    case Null => [110, 117, 108, 108] + rest
    case Bool(b) => (if b then [116, 114, 117, 101] else [102, 97, 108, 115, 101]) + rest
    case Num(n) => NumberText(n) + rest
    case Str(s) => Quote(s, rest)
    case Arr(items) => [OPEN_ARRAY] + WriteItems(items, rest)
    case Obj(fields) => [OPEN_OBJECT] + WriteFields(fields, rest)
  }

  function WriteItems(items: Items, rest: Text): Text {
    match items
    case NoItems => [CLOSE_ARRAY] + rest
    case Item(head, tail) => Write(head, if tail.NoItems? then [CLOSE_ARRAY] + rest else [COMMA] + WriteItems(tail, rest))
  }

  function WriteFields(fields: Fields, rest: Text): Text {
    match fields
    case NoFields => [CLOSE_OBJECT] + rest
    case Field(key, value, tail) =>
      Quote(key, [COLON] + Write(value, if tail.NoFields? then [CLOSE_OBJECT] + rest else [COMMA] + WriteFields(tail, rest)))
  }

  function Print(v: Json): Text {
    Write(v, [])
  }

  // ---- Sorting keys ----

  const LARGEST_INDEX: Text := [52, 50, 57, 52, 57, 54, 55, 50, 57, 52]

  /** A key that reads as an array index, 0 to 4294967294: objects list those first, by number. */
  predicate IsIndex(key: Text) {
    && 0 < |key| <= 10
    && (forall i :: 0 <= i < |key| ==> IsDigit(key[i]))
    && (key[0] == 48 ==> |key| == 1)
    && (|key| == 10 ==> !TextBefore(LARGEST_INDEX, key))
  }

  /** The order in which an object built from sorted keys lists them. */
  predicate KeyBefore(a: Text, b: Text) {
    if IsIndex(a) && IsIndex(b) then |a| < |b| || (|a| == |b| && TextBefore(a, b))
    else if IsIndex(a) || IsIndex(b) then IsIndex(a)
    else TextBefore(a, b)
  }

  /** "__proto__": assigning it sets the prototype instead of adding a field. */
  const PROTO: Text := [95, 95, 112, 114, 111, 116, 111, 95, 95]

  function Insert(key: Text, value: Json, fields: Fields): Fields {
    match fields
    case NoFields => Field(key, value, NoFields)
    case Field(k, v, tail) =>
      if KeyBefore(key, k) then Field(key, value, fields) else Field(k, v, Insert(key, value, tail))
  }

  function SortKeysDeep(v: Json): Json {
    match v
    case Arr(items) => Arr(SortItems(items))
    case Obj(fields) => Obj(SortFields(fields))
    case _ => v
  }

  function SortItems(items: Items): Items {
    match items
    case NoItems => NoItems
    case Item(head, tail) => Item(SortKeysDeep(head), SortItems(tail))
  }

  function SortFields(fields: Fields): Fields {
    match fields
    case NoFields => NoFields
    case Field(key, value, tail) =>
      if key == PROTO then SortFields(tail) else Insert(key, SortKeysDeep(value), SortFields(tail))
  }

  function CanonicalizeForSigning(v: Json): Text {
    Print(SortKeysDeep(v))
  }

  // ---- What a JSON value means: objects are maps, so key order is gone ----

  datatype Value = VNull | VBool(b: bool) | VNum(n: Number) | VStr(s: Text) | VArr(items: seq<Value>) | VObj(fields: map<Text, Value>)

  function Meaning(v: Json): Value {
    match v
    case Null => VNull
    case Bool(b) => VBool(b)
    case Num(n) => VNum(n)
    case Str(s) => VStr(s)
    case Arr(items) => VArr(ItemsMeaning(items))
    case Obj(fields) => VObj(FieldsMeaning(fields))
  }

  function ItemsMeaning(items: Items): seq<Value> {
    match items
    case NoItems => []
    case Item(head, tail) => [Meaning(head)] + ItemsMeaning(tail)
  }

  function FieldsMeaning(fields: Fields): map<Text, Value> {
    match fields
    case NoFields => map[]
    case Field(key, value, tail) => FieldsMeaning(tail)[key := Meaning(value)]
  }

  function Keys(fields: Fields): set<Text> {
    match fields
    case NoFields => {}
    case Field(key, _, tail) => {key} + Keys(tail)
  }

  /** No object has the same key twice. */
  predicate WellFormed(v: Json) {
    match v
    case Arr(items) => WellFormedItems(items)
    case Obj(fields) => WellFormedFields(fields)
    case _ => true
  }

  predicate WellFormedItems(items: Items) {
    match items
    case NoItems => true
    case Item(head, tail) => WellFormed(head) && WellFormedItems(tail)
  }

  predicate WellFormedFields(fields: Fields) {
    match fields
    case NoFields => true
    case Field(key, value, tail) => key !in Keys(tail) && WellFormed(value) && WellFormedFields(tail)
  }

  /** The value without its "__proto__" fields, at every depth. */
  function DropProto(v: Json): Json {
    match v
    case Arr(items) => Arr(DropProtoItems(items))
    case Obj(fields) => Obj(DropProtoFields(fields))
    case _ => v
  }

  function DropProtoItems(items: Items): Items {
    match items
    case NoItems => NoItems
    case Item(head, tail) => Item(DropProto(head), DropProtoItems(tail))
  }

  function DropProtoFields(fields: Fields): Fields {
    match fields
    case NoFields => NoFields
    case Field(key, value, tail) =>
      if key == PROTO then DropProtoFields(tail) else Field(key, DropProto(value), DropProtoFields(tail))
  }
}
