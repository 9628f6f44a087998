/** A number's text reads back as the number, in every one of its forms. */
module CanonicalNumbers {
  import opened Texts
  import opened CanonicalJson

  // ---- Whole numbers ----

  function ValueOf(digits: Text): int {
    if digits == [] then 0 else 10 * ValueOf(digits[..|digits| - 1]) + (digits[|digits| - 1] as int - 48)
  }

  lemma {:induction false} DigitsReadBack(n: nat)
    ensures ValueOf(Digits(n)) == n
    ensures Digits(n) != [] && AllDigits(Digits(n))
  {
    if n < 10 {
      assert Digits(n)[..0] == [];
    } else {
      DigitsReadBack(n / 10);
      assert Digits(n)[..|Digits(n)| - 1] == Digits(n / 10);
    }
  }

  // ---- Reading a number ----

  /** What comes before the first c, and what comes after it if there is one. */
  function Before(t: Text, c: Unit): Text {
    if t == [] || t[0] == c then [] else [t[0]] + Before(t[1..], c)
  }

  function After(t: Text, c: Unit): Text {
    if t == [] then [] else if t[0] == c then t[1..] else After(t[1..], c)
  }

  function ReadExponent(t: Text): int {
    if t == [] then 0 else if t[0] == MINUS then -ValueOf(t[1..]) else ValueOf(t[1..])
  }

  function LeadingZeros(t: Text): nat {
    if t == [] || t[0] != 48 then 0 else 1 + LeadingZeros(t[1..])
  }

  function WithoutTrailingZeros(t: Text): Text {
    if t == [] || t[|t| - 1] != 48 then t else WithoutTrailingZeros(t[..|t| - 1])
  }

  /** whole and part stand before and after the dot. */
  function FromParts(negative: bool, whole: Text, part: Text, exponent: int): Decimal {
    var zeros := LeadingZeros(whole + part);
    if zeros >= |whole + part| then Zero
    else Decimal(negative, WithoutTrailingZeros((whole + part)[zeros..]), |whole| - zeros + exponent)
  }

  function ReadMagnitude(negative: bool, t: Text): Decimal {
    var mantissa := Before(t, LETTER_E);
    FromParts(negative, Before(mantissa, DOT), After(mantissa, DOT), ReadExponent(After(t, LETTER_E)))
  }

  function ReadNumber(t: Text): Decimal {
    if t != [] && t[0] == MINUS then ReadMagnitude(true, t[1..]) else ReadMagnitude(false, t)
  }

  // ---- It reads back ----

  lemma {:induction false} CutAtMark(x: Text, c: Unit, y: Text)
    requires c !in x
    ensures Before(x + ([c] + y), c) == x && After(x + ([c] + y), c) == y
    ensures Before(x, c) == x && After(x, c) == []
  {
    if x == [] {
      assert x + ([c] + y) == [c] + y;
    } else {
      assert (x + ([c] + y))[1..] == x[1..] + ([c] + y);
      CutAtMark(x[1..], c, y);
    }
  }

  lemma {:induction false} ZerosLead(n: nat, t: Text)
    requires t != [] && t[0] != 48
    ensures LeadingZeros(Zeros(n) + t) == n && (Zeros(n) + t)[n..] == t
  {
    if n == 0 {
      assert Zeros(n) + t == t;
    } else {
      assert (Zeros(n) + t)[1..] == Zeros(n - 1) + t;
      ZerosLead(n - 1, t);
    }
  }

  lemma {:induction false} ZerosTrail(t: Text, n: nat)
    requires t != [] && t[|t| - 1] != 48
    ensures WithoutTrailingZeros(t + Zeros(n)) == t
  {
    if n == 0 {
      assert t + Zeros(n) == t;
    } else {
      assert (t + Zeros(n))[..|t| + n - 1] == t + Zeros(n - 1);
      ZerosTrail(t, n - 1);
    }
  }

  lemma ExponentReadsBack(e: int)
    ensures ReadExponent(Exponent(e)) == e && Exponent(e) != []
    ensures forall i :: 0 <= i < |Exponent(e)| ==> InNumber(Exponent(e)[i])
  {
    DigitsReadBack(if e < 0 then -e else e);
    assert Exponent(e)[1..] == Digits(if e < 0 then -e else e);
  }

  /** Zeros around the digits do not count. */
  lemma PartsReadBack(negative: bool, digits: Text, point: int, lead: nat, trail: nat, whole: Text, part: Text, exponent: int)
    requires Normal(Decimal(negative, digits, point))
    requires whole + part == Zeros(lead) + (digits + Zeros(trail)) && |whole| - lead + exponent == point
    ensures FromParts(negative, whole, part, exponent) == Decimal(negative, digits, point)
  {
    ZerosLead(lead, digits + Zeros(trail));
    ZerosTrail(digits, trail);
  }

  lemma NoMark(t: Text, c: Unit)
    requires AllDigits(t) && !IsDigit(c)
    ensures c !in t
  {
  }

  /** A text of two parts and an exponent, each mark left out when what follows it is missing, is cut as it was built. */
  lemma MarkedReadsBack(negative: bool, whole: Text, part: Text, exponent: int)
    requires AllDigits(whole) && AllDigits(part)
    ensures ReadMagnitude(negative, whole) == FromParts(negative, whole, [], 0)
    ensures ReadMagnitude(negative, whole + ([DOT] + part)) == FromParts(negative, whole, part, 0)
    ensures ReadMagnitude(negative, whole + ([LETTER_E] + Exponent(exponent))) == FromParts(negative, whole, [], exponent)
    ensures ReadMagnitude(negative, whole + ([DOT] + part) + ([LETTER_E] + Exponent(exponent))) == FromParts(negative, whole, part, exponent)
  {
    var dotted := whole + ([DOT] + part);
    NoMark(whole, DOT);
    NoMark(whole, LETTER_E);
    NoMark(part, LETTER_E);
    assert LETTER_E !in dotted;
    ExponentReadsBack(exponent);
    CutAtMark(whole, DOT, part);
    CutAtMark(whole, LETTER_E, Exponent(exponent));
    CutAtMark(dotted, LETTER_E, Exponent(exponent));
    hide Before, After, FromParts, Exponent;
  }

  lemma IntegerReadsBack(negative: bool, digits: Text, point: int)
    requires Normal(Decimal(negative, digits, point)) && 0 <= point && |digits| <= point
    ensures ReadMagnitude(negative, WholeForm(digits, point)) == Decimal(negative, digits, point)
  {
    hide ReadMagnitude, FromParts;
    var whole := digits + Zeros(point - |digits|);
    MarkedReadsBack(negative, whole, [], 0);
    assert whole + [] == Zeros(0) + whole;
    PartsReadBack(negative, digits, point, 0, point - |digits|, whole, [], 0);
  }

  lemma SmallReadsBack(negative: bool, digits: Text, point: int, zeros: nat)
    requires Normal(Decimal(negative, digits, point)) && point + zeros == 0
    ensures ReadMagnitude(negative, SmallForm(digits, zeros)) == Decimal(negative, digits, point)
  {
    hide ReadMagnitude, FromParts;
    var part := Zeros(zeros) + digits;
    MarkedReadsBack(negative, [48], part, 0);
    assert [48] + part == Zeros(zeros + 1) + (digits + Zeros(0));
    PartsReadBack(negative, digits, point, zeros + 1, 0, [48], part, 0);
  }

  /** The digits cut in two at the dot, with or without an exponent. */
  lemma CutReadsBack(negative: bool, digits: Text, point: int, at: nat, exponent: int)
    requires Normal(Decimal(negative, digits, point)) && at <= |digits| && at + exponent == point
    ensures FromParts(negative, digits[..at], digits[at..], exponent) == Decimal(negative, digits, point)
  {
    hide FromParts;
    assert digits[..at] + digits[at..] == Zeros(0) + (digits + Zeros(0));
    PartsReadBack(negative, digits, point, 0, 0, digits[..at], digits[at..], exponent);
  }

  lemma DottedReadsBack(negative: bool, digits: Text, point: nat)
    requires Normal(Decimal(negative, digits, point)) && point <= |digits|
    ensures ReadMagnitude(negative, DottedForm(digits, point)) == Decimal(negative, digits, point)
  {
    MarkedReadsBack(negative, digits[..point], digits[point..], 0);
    CutReadsBack(negative, digits, point, point, 0);
    hide ReadMagnitude, FromParts;
  }

  lemma ScientificReadsBack(negative: bool, digits: Text, point: int, e: int)
    requires Normal(Decimal(negative, digits, point)) && e == point - 1
    ensures ReadMagnitude(negative, ScientificForm(digits, e)) == Decimal(negative, digits, point)
  {
    MarkedReadsBack(negative, digits[..1], digits[1..], e);
    CutReadsBack(negative, digits, point, 1, e);
    hide ReadMagnitude, FromParts, Exponent;
    assert |digits| == 1 ==> digits[..1] == digits && digits[1..] == [];
  }

  lemma MagnitudeReadsBack(negative: bool, digits: Text, point: int)
    requires Normal(Decimal(negative, digits, point))
    ensures ReadMagnitude(negative, Magnitude(digits, point)) == Decimal(negative, digits, point)
  {
    hide ReadMagnitude, WholeForm, DottedForm, SmallForm, ScientificForm;
    if |digits| <= point <= 21 {
      IntegerReadsBack(negative, digits, point);
    } else if 0 < point <= 21 {
      DottedReadsBack(negative, digits, point);
    } else if -6 < point <= 0 {
      SmallReadsBack(negative, digits, point, -point);
    } else {
      ScientificReadsBack(negative, digits, point, point - 1);
    }
  }

  predicate AllInNumber(t: Text) {
    forall i :: 0 <= i < |t| ==> InNumber(t[i])
  }

  lemma InNumberTogether(x: Text, c: Unit, y: Text)
    requires AllInNumber(x) && InNumber(c) && AllInNumber(y)
    ensures AllInNumber(x + ([c] + y))
  {
  }

  lemma MagnitudeStarts(digits: Text, point: int)
    requires digits != [] && AllDigits(digits)
    ensures Magnitude(digits, point) != [] && IsDigit(Magnitude(digits, point)[0]) && AllInNumber(Magnitude(digits, point))
  {
    ExponentReadsBack(point - 1);
    var k := |digits|;
    if 0 < point < k {
      InNumberTogether(digits[..point], DOT, digits[point..]);
    } else if -6 < point <= 0 {
      InNumberTogether([48], DOT, Zeros(-point) + digits);
    }
    InNumberTogether(digits[..1], DOT, digits[1..]);
    InNumberTogether(digits[..1] + ([DOT] + digits[1..]), LETTER_E, Exponent(point - 1));
    InNumberTogether(digits, LETTER_E, Exponent(point - 1));
    hide Exponent, InNumber;
  }

  /** Every number reads back from its text. */
  lemma NumberReadsBack(n: Number)
    ensures ReadNumber(NumberText(n)) == n
  {
    hide Magnitude, ReadMagnitude;
    match n
    case Zero => ZeroReadsBack();
    case Decimal(negative, digits, point) =>
      var t := Magnitude(digits, point);
      MagnitudeReadsBack(negative, digits, point);
      MagnitudeStarts(digits, point);
      assert [] + t == t && ([MINUS] + t)[1..] == t;
  }

  lemma ZeroReadsBack()
    ensures ReadMagnitude(false, [48]) == Zero
  {
    MarkedReadsBack(false, [48], [], 0);
    assert [48] + [] == [48] && LeadingZeros([48]) == 1 + LeadingZeros([48][1..]);
    hide ReadMagnitude;
  }

  /** The text has only digits and the four marks, and starts with a digit or a minus. */
  lemma NumberIsMarked(n: Number)
    ensures NumberText(n) != [] && (NumberText(n)[0] == MINUS || IsDigit(NumberText(n)[0]))
    ensures forall i :: 0 <= i < |NumberText(n)| ==> InNumber(NumberText(n)[i])
  {
    if n.Decimal? {
      MagnitudeStarts(n.digits, n.point);
      hide Magnitude;
    }
  }

  // ---- A number and what follows it ----

  predicate InNumber(c: Unit) {
    IsDigit(c) || c == DOT || c == LETTER_E || c == PLUS || c == MINUS
  }

  /** What may follow a number. */
  predicate Stops(rest: Text) {
    rest == [] || !InNumber(rest[0])
  }

  function NumberLength(t: Text): nat {
    if Stops(t) then 0 else 1 + NumberLength(t[1..])
  }

  lemma {:induction false} NumberThenStop(x: Text, r: Text)
    requires Stops(r) && forall i :: 0 <= i < |x| ==> InNumber(x[i])
    ensures NumberLength(x + r) == |x|
  {
    if x == [] {
      assert x + r == r;
    } else {
      assert (x + r)[1..] == x[1..] + r;
      NumberThenStop(x[1..], r);
    }
  }

  lemma SameNumber(a: Number, b: Number, r: Text, q: Text)
    requires NumberText(a) + r == NumberText(b) + q && Stops(r) && Stops(q)
    ensures a == b && r == q
  {
    NumberReadsBack(a);
    NumberReadsBack(b);
    NumberIsMarked(a);
    NumberIsMarked(b);
    hide NumberText, ReadNumber;
    var x, y := NumberText(a), NumberText(b);
    NumberThenStop(x, r);
    NumberThenStop(y, q);
    assert x == (x + r)[..|x|] == (y + q)[..|y|] == y;
    assert r == (x + r)[|x|..] == (y + q)[|y|..] == q;
  }

  /** Where one form ends and the next begins: 1e20 is written out and 1e21 is not, 0.000001 is and 1e-7 is not. */
  lemma WhereFormsChange(digits: Text, point: int)
    requires digits != []
    ensures var text := Magnitude(digits, point);
      var leading := if |digits| == 1 then digits else digits[..1] + ([DOT] + digits[1..]);
      && (|digits| <= point <= 21 ==> text == digits + Zeros(point - |digits|))
      && (0 < point < |digits| && point <= 21 ==> text == digits[..point] + ([DOT] + digits[point..]))
      && (-6 < point <= 0 ==> text == [48] + ([DOT] + (Zeros(-point) + digits)))
      && (point > 21 ==> text == leading + ([LETTER_E] + ([PLUS] + Digits(point - 1))))
      && (point <= -6 ==> text == leading + ([LETTER_E] + ([MINUS] + Digits(1 - point))))
  {
    hide Digits, Zeros;
  }

  // ---- Keys that are numbers ----

  lemma {:induction false} SnocOrder(x: Text, c: Unit, y: Text, d: Unit)
    requires |x| == |y|
    ensures TextBefore(x + [c], y + [d]) <==> TextBefore(x, y) || (x == y && c < d)
  {
    if x == [] {
      assert x + [c] == [c] && y + [d] == [d];
    } else {
      assert (x + [c])[1..] == x[1..] + [c] && (y + [d])[1..] == y[1..] + [d];
      SnocOrder(x[1..], c, y[1..], d);
      assert x == [x[0]] + x[1..] && y == [y[0]] + y[1..];
    }
  }

  /** Longer numbers are larger, and among those of one length text order is their order. */
  lemma {:induction false} DigitsInOrder(m: nat, n: nat)
    ensures |Digits(m)| < |Digits(n)| ==> m < n
    ensures |Digits(m)| == |Digits(n)| ==> (TextBefore(Digits(m), Digits(n)) <==> m < n)
    decreases m + n
  {
    if 10 <= m && 10 <= n {
      DigitsInOrder(m / 10, n / 10);
      if |Digits(m)| == |Digits(n)| {
        SnocOrder(Digits(m / 10), 48 + m % 10, Digits(n / 10), 48 + n % 10);
        if Digits(m / 10) == Digits(n / 10) {
          DigitsReadBack(m / 10);
          DigitsReadBack(n / 10);
        }
      }
    } else if m < 10 && n < 10 {
      SnocOrder([], 48 + m, [], 48 + n);
      assert [] + [48 + m] == [48 + m] && [] + [48 + n] == [48 + n];
    }
  }

  lemma LargestIndex()
    ensures LARGEST_INDEX == Digits(4294967294) && |Digits(4294967294)| == 10
  {
    var a, b, c := Digits(42), Digits(429), Digits(4294);
    assert a == [52, 50] && b == [52, 50, 57] && c == [52, 50, 57, 52];
    var d, e, f := Digits(42949), Digits(429496), Digits(4294967);
    assert d == c + [57] && e == d + [54] && f == e + [55];
    var g, h := Digits(42949672), Digits(429496729);
    assert g == f + [50] && h == g + [57] && Digits(4294967294) == h + [52];
  }

  lemma {:induction false} NoLeadingZero(n: nat)
    ensures n > 0 ==> Digits(n)[0] != 48
    ensures Digits(n)[0] == 48 ==> |Digits(n)| == 1
  {
    if 10 <= n { NoLeadingZero(n / 10); }
  }

  /** A number's text is such a key exactly up to 4294967294, and an object lists those keys first and in the numbers' order. */
  lemma NumbersAreListedFirst(m: nat, n: nat, key: Text)
    ensures IsIndex(Digits(m)) <==> m <= 4294967294
    ensures m <= 4294967294 && n <= 4294967294 ==> (KeyBefore(Digits(m), Digits(n)) <==> m < n)
    ensures m <= 4294967294 && !IsIndex(key) ==> KeyBefore(Digits(m), key)
  {
    IndexExactly(m);
    IndexExactly(n);
    DigitsInOrder(m, n);
    DigitsInOrder(n, m);
    hide Digits, IsIndex, TextBefore;
  }

  lemma IndexExactly(n: nat)
    ensures IsIndex(Digits(n)) <==> n <= 4294967294
  {
    LargestIndex();
    DigitsReadBack(n);
    NoLeadingZero(n);
    DigitsInOrder(4294967294, n);
    DigitsInOrder(n, 4294967294);
    hide Digits, TextBefore;
  }
}
