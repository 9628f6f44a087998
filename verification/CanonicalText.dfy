/** The printed text determines the value it was printed from. */
module CanonicalText {
  import opened Texts
  import opened CanonicalJson
  import opened CanonicalNumbers

  // ---- Strings: reading an escaped string back ----

  function HexValue(c: Unit): int {
    if c >= 97 then c - 87 else c - 48
  }

  function AsUnit(n: int): Unit {
    if 0 <= n < 0x1_0000 then n else 0
  }

  function ReadUnit(c: Unit): Unit {
    if c == 98 then 8 else if c == 116 then 9 else if c == 110 then 10 else if c == 102 then 12 else if c == 114 then 13 else c
  }

  /** The string up to the next closing quote, and what follows it. */
  function ReadString(t: Text): (Text, Text) {
    if t == [] then ([], [])
    else if t[0] == QUOTE then ([], t[1..])
    else if t[0] == BACKSLASH && |t| > 1 then
      if t[1] == LETTER_U && |t| > 5 then
        var c := AsUnit(((HexValue(t[2]) * 16 + HexValue(t[3])) * 16 + HexValue(t[4])) * 16 + HexValue(t[5]));
        var (s, rest) := ReadString(t[6..]);
        ([c] + s, rest)
      else
        var (s, rest) := ReadString(t[2..]);
        ([ReadUnit(t[1])] + s, rest)
    else
      var (s, rest) := ReadString(t[1..]);
      ([t[0]] + s, rest)
  }

  lemma HexReadBack(c: Unit)
    ensures ((c / 0x1000 * 16 + c / 0x100 % 16) * 16 + c / 16 % 16) * 16 + c % 16 == c
    ensures forall d :: 0 <= d < 16 ==> HexValue(HexDigit(d)) == d
  {
    assert c / 0x100 == c / 0x1000 * 16 + c / 0x100 % 16;
    assert c / 16 == c / 0x100 * 16 + c / 16 % 16;
  }

  lemma ReadOne(c: Unit, t: Text)
    ensures var (s, rest) := ReadString(t); ReadString(EscapeUnit(c) + t) == ([c] + s, rest)
  {
    HexReadBack(c);
    var e := EscapeUnit(c);
    assert (e + t)[|e|..] == t;
    assert 0 <= c / 0x1000 < 16;
  }

  lemma ReadPlain(c: Unit, t: Text)
    requires HighSurrogate(c) || LowSurrogate(c)
    ensures var (s, rest) := ReadString(t); ReadString([c] + t) == ([c] + s, rest)
  {
    assert ([c] + t)[1..] == t;
  }

  /** Both halves of a surrogate pair are written as they are. */
  lemma ReadPair(high: Unit, low: Unit, t: Text)
    requires HighSurrogate(high) && LowSurrogate(low)
    ensures var (s, rest) := ReadString(t); ReadString([high] + ([low] + t)) == ([high] + ([low] + s), rest)
  {
    ReadPlain(low, t);
    ReadPlain(high, [low] + t);
  }

  /**
   * A character is left as it is unless it is a quote, a backslash, a control or half of a surrogate pair; of those, the ones
   * with an escape of two characters get it, and the others six, the digits in lower case.
   */
  lemma EscapedAsShortAsCanBe(c: Unit)
    ensures EscapeUnit(c) == [c] <==> 32 <= c && c != 34 && c != 92 && !(0xD800 <= c <= 0xDFFF)
    ensures |EscapeUnit(c)| == 2 <==> c in {8, 9, 10, 12, 13, 34, 92}
    ensures |EscapeUnit(c)| == 1 || |EscapeUnit(c)| == 2 || |EscapeUnit(c)| == 6
    ensures |EscapeUnit(c)| == 6 ==> forall i :: 2 <= i < 6 ==> IsDigit(EscapeUnit(c)[i]) || 97 <= EscapeUnit(c)[i] <= 102
  {
  }

  lemma {:induction false} StringReadBack(s: Text, end: Text)
    requires end != [] && end[0] == QUOTE
    ensures ReadString(Escape(s, end)) == (s, end[1..])
  {
    if s == [] {
    } else if |s| > 1 && HighSurrogate(s[0]) && LowSurrogate(s[1]) {
      StringReadBack(s[2..], end);
      ReadPair(s[0], s[1], Escape(s[2..], end));
      assert s == [s[0]] + ([s[1]] + s[2..]);
    } else {
      StringReadBack(s[1..], end);
      ReadOne(s[0], Escape(s[1..], end));
      assert s == [s[0]] + s[1..];
    }
  }

  lemma SameString(s: Text, t: Text, r: Text, q: Text)
    requires Quote(s, r) == Quote(t, q)
    ensures s == t && r == q
  {
    StringReadBack(s, [QUOTE] + r);
    StringReadBack(t, [QUOTE] + q);
    assert ([QUOTE] + r)[1..] == r && ([QUOTE] + q)[1..] == q;
    DropPrefix([QUOTE], Escape(s, [QUOTE] + r), Escape(t, [QUOTE] + q));
  }

  // ---- Whole values ----

  /** The first character tells which kind of value follows, and is never a closing bracket or a comma. */
  predicate Opens(v: Json, c: Unit) {
    match v
    case Null => c == 110
    case Bool(b) => c == if b then 116 else 102
    case Num(_) => c == MINUS || IsDigit(c)
    case Str(_) => c == QUOTE
    case Arr(_) => c == OPEN_ARRAY
    case Obj(_) => c == OPEN_OBJECT
  }

  lemma FirstUnit(v: Json, r: Text)
    ensures Write(v, r) != [] && Opens(v, Write(v, r)[0])
  {
    if v.Num? {
      NumberIsMarked(v.n);
    }
  }

  lemma DropPrefix(p: Text, a: Text, b: Text)
    requires p + a == p + b
    ensures a == b
  {
    assert a == (p + a)[|p|..] == (p + b)[|p|..] == b;
  }

  /** Two values whose texts agree as far as both go are the same value, and so is what follows. */
  lemma {:induction false} SameText(v: Json, w: Json, r: Text, q: Text)
    requires Write(v, r) == Write(w, q) && Stops(r) && Stops(q)
    ensures v == w && r == q
    decreases v
  {
    FirstUnit(v, r);
    FirstUnit(w, q);
    match v
    case Null => DropPrefix([110, 117, 108, 108], r, q);
    case Bool(b) => DropPrefix(if b then [116, 114, 117, 101] else [102, 97, 108, 115, 101], r, q);
    case Num(n) => SameNumber(n, w.n, r, q);
    case Str(s) => SameString(s, w.s, r, q);
    case Arr(items) =>
      DropPrefix([OPEN_ARRAY], WriteItems(items, r), WriteItems(w.items, q));
      SameItems(items, w.items, r, q);
    case Obj(fields) =>
      DropPrefix([OPEN_OBJECT], WriteFields(fields, r), WriteFields(w.fields, q));
      SameFields(fields, w.fields, r, q);
  }

  function AfterItem(tail: Items, r: Text): Text {
    if tail.NoItems? then [CLOSE_ARRAY] + r else [COMMA] + WriteItems(tail, r)
  }

  lemma ItemsStart(items: Items, r: Text)
    ensures WriteItems(items, r) != [] && (items.NoItems? <==> WriteItems(items, r)[0] == CLOSE_ARRAY)
  {
    if items.Item? { FirstUnit(items.head, AfterItem(items.tail, r)); }
  }

  lemma {:induction false} SameItems(a: Items, b: Items, r: Text, q: Text)
    requires WriteItems(a, r) == WriteItems(b, q)
    ensures a == b && r == q
    decreases a
  {
    ItemsStart(a, r);
    ItemsStart(b, q);
    if a.NoItems? {
      DropPrefix([CLOSE_ARRAY], r, q);
    } else {
      SameText(a.head, b.head, AfterItem(a.tail, r), AfterItem(b.tail, q));
      assert AfterItem(a.tail, r)[0] == if a.tail.NoItems? then CLOSE_ARRAY else COMMA;
      assert AfterItem(b.tail, q)[0] == if b.tail.NoItems? then CLOSE_ARRAY else COMMA;
      if a.tail.NoItems? {
        DropPrefix([CLOSE_ARRAY], r, q);
      } else {
        DropPrefix([COMMA], WriteItems(a.tail, r), WriteItems(b.tail, q));
        SameItems(a.tail, b.tail, r, q);
      }
    }
  }

  function AfterField(tail: Fields, r: Text): Text {
    if tail.NoFields? then [CLOSE_OBJECT] + r else [COMMA] + WriteFields(tail, r)
  }

  lemma FieldsStart(fields: Fields, r: Text)
    ensures WriteFields(fields, r) != [] && WriteFields(fields, r)[0] == if fields.NoFields? then CLOSE_OBJECT else QUOTE
  {
  }

  lemma {:induction false} SameFields(a: Fields, b: Fields, r: Text, q: Text)
    requires WriteFields(a, r) == WriteFields(b, q)
    ensures a == b && r == q
    decreases a
  {
    FieldsStart(a, r);
    FieldsStart(b, q);
    if a.NoFields? {
      DropPrefix([CLOSE_OBJECT], r, q);
    } else {
      var x, y := Write(a.value, AfterField(a.tail, r)), Write(b.value, AfterField(b.tail, q));
      SameString(a.key, b.key, [COLON] + x, [COLON] + y);
      DropPrefix([COLON], x, y);
      SameText(a.value, b.value, AfterField(a.tail, r), AfterField(b.tail, q));
      assert AfterField(a.tail, r)[0] == if a.tail.NoFields? then CLOSE_OBJECT else COMMA;
      assert AfterField(b.tail, q)[0] == if b.tail.NoFields? then CLOSE_OBJECT else COMMA;
      if a.tail.NoFields? {
        DropPrefix([CLOSE_OBJECT], r, q);
      } else {
        DropPrefix([COMMA], WriteFields(a.tail, r), WriteFields(b.tail, q));
        SameFields(a.tail, b.tail, r, q);
      }
    }
  }

  /** The printer is injective. */
  lemma PrintIsInjective(v: Json, w: Json)
    ensures Print(v) == Print(w) <==> v == w
  {
    if Print(v) == Print(w) {
      SameText(v, w, [], []);
    }
  }
}
