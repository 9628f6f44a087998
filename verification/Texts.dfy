/** Text as the program's language holds it: UTF-16 code units, compared unit by unit. */
module Texts {
  type Unit = c: int | 0 <= c < 0x1_0000
  type Text = seq<Unit>

  predicate IsDigit(c: Unit) {
    48 <= c <= 57
  }

  /** The order of < on strings and of sort() on keys. */
  predicate TextBefore(a: Text, b: Text) {
    b != [] && (a == [] || a[0] < b[0] || (a[0] == b[0] && TextBefore(a[1..], b[1..])))
  }

  lemma {:induction false} TextOrderTotal(a: Text, b: Text)
    ensures !(TextBefore(a, b) && TextBefore(b, a))
    ensures a != b ==> TextBefore(a, b) || TextBefore(b, a)
  {
    if a != [] && b != [] && a[0] == b[0] {
      TextOrderTotal(a[1..], b[1..]);
      assert a == [a[0]] + a[1..] && b == [b[0]] + b[1..];
    }
  }

  lemma {:induction false} TextOrderTransitive(a: Text, b: Text, c: Text)
    requires TextBefore(a, b) && TextBefore(b, c)
    ensures TextBefore(a, c)
  {
    if a != [] && a[0] == b[0] == c[0] {
      TextOrderTransitive(a[1..], b[1..], c[1..]);
    }
  }
}
