// What a report must hold, member by member.

module Schema {
  import opened Basics
  import opened Json
  import opened Evidence

  datatype Kind =
    | Whole                                 // an integer, which is neither a boolean nor a float
    | AtLeast(least: int)                   // an integer, and not less
    | Within(least: int, most: int)
    | Quantity                              // an integer or a finite float, not negative
    | Text
    | Name                                  // a text with something besides whitespace
    | Word(words: set<string>)
    | Digits(length: nat)                   // hexadecimal, in lower case
    | Flag
    | Instant                               // a text that is a timezone-aware timestamp

  predicate Meets(w: World, kind: Kind, j: Json) {
    match kind
    case Whole => j.JInt?
    case AtLeast(least) => j.JInt? && least <= j.n
    case Within(least, most) => j.JInt? && least <= j.n <= most
    case Quantity => !j.JBool? && FiniteNumber(j) && NotAbove(Fraction(0, 0), Number(j).value)
    case Text => j.JString?
    case Name => j.JString? && !w.blank(j.s)
    case Word(words) => j.JString? && j.s in words
    case Digits(length) => j.JString? && |j.s| == length && forall c :: c in j.s ==> c in "0123456789abcdef"
    case Flag => j.JBool?
    case Instant => j.JString? && w.instant(j.s).Some?
  }

  /** The member of this name is of this kind. */
  predicate Has(w: World, j: Json, name: string, kind: Kind) {
    Meets(w, kind, Get(j, name))
  }

  /** The member is this value, a number only in the same type. */
  predicate Is(j: Json, name: string, value: Json) {
    Get(j, name) == value
  }

  /** The member equals this value in Python's sense. */
  predicate Agrees(j: Json, name: string, value: Json) {
    PyEqual(Get(j, name), value)
  }

  predicate HasOrNull(w: World, j: Json, name: string, kind: Kind) {
    Get(j, name) == JNull || Has(w, j, name, kind)
  }

  lemma QuantityExact(w: World, j: Json)
    ensures FiniteNonnegative(j) <==> Meets(w, Quantity, j)
  {
    if FiniteNumber(j) {
      assert Power2(0) == 1;
    }
  }

  lemma DigitsExact(w: World, j: Json, length: nat)
    ensures HexString(j, length) <==> Meets(w, Digits(length), j)
  {
    assert forall c :: HexDigit(c) <==> c in "0123456789abcdef";
  }
}
