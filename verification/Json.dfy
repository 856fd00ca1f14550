// JSON values as Python holds them after json.loads.

module Json {
  import opened Basics

  /** numerator / 2^scale, which every finite binary float is. */
  datatype Fraction = Fraction(numerator: int, scale: nat)

  /** In lowest terms, so that equal values are equal. */
  type Dyadic = f: Fraction | f.scale == 0 || f.numerator % 2 == 1 witness Fraction(0, 0)

  datatype Float = Finite(value: Dyadic) | Infinite(negative: bool) | NaN

  datatype Json =
    | JNull
    | JBool(b: bool)
    | JInt(n: int)
    | JFloat(f: Float)
    | JString(s: string)
    | JArray(items: seq<Json>)
    | JObject(fields: map<string, Json>)

  predicate Numeric(j: Json) {
    j.JBool? || j.JInt? || j.JFloat?
  }

  /** The exact value that Python compares; booleans are 0 and 1. */
  function Number(j: Json): Float
    requires Numeric(j)
  {
    match j
    case JBool(b) => Finite(Fraction(if b then 1 else 0, 0))
    case JInt(n) => Finite(Fraction(n, 0))
    case JFloat(f) => f
  }

  /** Python's ==: numbers of all types compare by value, and NaN equals nothing. */
  predicate PyEqual(a: Json, b: Json)
    decreases a, 0
  {
    if Numeric(a) && Numeric(b) then Number(a) == Number(b) && Number(a) != NaN
    else
      match (a, b)
      case (JNull, JNull) => true
      case (JString(s), JString(t)) => s == t
      case (JArray(x), JArray(y)) => |x| == |y| && forall i :: 0 <= i < |x| ==> SameElement(x[i], y[i])
      case (JObject(f), JObject(g)) => f.Keys == g.Keys && forall k :: k in f ==> SameElement(f[k], g[k])
      case _ => false
  }

  /** Containers compare elements by identity first, and json.loads returns one and the same NaN object. */
  predicate SameElement(a: Json, b: Json)
    decreases a, 1
  {
    (a == JFloat(NaN) && b == JFloat(NaN)) || PyEqual(a, b)
  }

  /** dict.get: JNull for an absent key, and for anything that is not an object. */
  function Get(j: Json, key: string): Json {
    if j.JObject? && key in j.fields then j.fields[key] else JNull
  }

  /** isinstance(j, dict) and set(j) == keys. */
  predicate HasFields(j: Json, keys: set<string>) {
    j.JObject? && j.fields.Keys == keys
  }

  predicate Present(j: Json) {
    j != JNull && j != JString("") && j != JObject(map[]) && j != JArray([])
  }

  /** The elements of an array, none for anything else. */
  function Items(j: Json): seq<Json> {
    if j.JArray? then j.items else []
  }

  predicate IsInt(j: Json, least: int) {
    j.JInt? && j.n >= least
  }

  predicate FiniteNonnegative(j: Json) {
    (j.JInt? && j.n >= 0) || (j.JFloat? && j.f.Finite? && j.f.value.numerator >= 0)
  }

  predicate FiniteNumber(j: Json) {
    Numeric(j) && Number(j).Finite?
  }

  function Power2(n: nat): (r: int)
    ensures r > 0
  {
    if n == 0 then 1 else 2 * Power2(n - 1)
  }

  /** a / 2^m <= b / 2^n, without division. */
  predicate NotAbove(a: Dyadic, b: Dyadic) {
    a.numerator * Power2(b.scale) <= b.numerator * Power2(a.scale)
  }

  /** Equal values have one representation, so comparing fractions is comparing numbers. */
  lemma DyadicUnique(a: Dyadic, b: Dyadic)
    ensures a == b <==> NotAbove(a, b) && NotAbove(b, a)
  {
    if NotAbove(a, b) && NotAbove(b, a) {
      if a.scale <= b.scale {
        SameScale(a, b);
      } else {
        SameScale(b, a);
      }
    }
  }

  /** Python's == on numbers is its <= both ways, whatever their types. */
  lemma EqualIsNotAbove(a: Json, b: Json)
    requires FiniteNumber(a) && FiniteNumber(b)
    ensures PyEqual(a, b) <==> NotAbove(Number(a).value, Number(b).value) && NotAbove(Number(b).value, Number(a).value)
  {
    DyadicUnique(Number(a).value, Number(b).value);
  }

  lemma SameScale(a: Dyadic, b: Dyadic)
    requires a.scale <= b.scale && a.numerator * Power2(b.scale) == b.numerator * Power2(a.scale)
    ensures a == b
  {
    var gap := b.scale - a.scale;
    Shift(a.scale, gap);
    CancelFactor(a.numerator, Power2(gap), b.numerator, Power2(a.scale));
    if gap > 0 {
      Even(a.numerator, Power2(gap - 1));
    }
  }

  lemma {:induction false} Shift(m: nat, n: nat)
    ensures Power2(m + n) == Power2(n) * Power2(m)
  {
    if n > 0 {
      Shift(m, n - 1);
    }
  }

  lemma CancelFactor(x: int, q: int, y: int, p: int)
    requires p > 0 && x * (q * p) == y * p
    ensures x * q == y
  {
    assert (x * q - y) * p == 0;
  }

  lemma Even(x: int, r: int)
    ensures (x * (2 * r)) % 2 == 0
  {
    assert x * (2 * r) == 2 * (x * r);
  }

  /** json.dumps with allow_nan=False succeeds. */
  predicate AllFinite(j: Json)
    decreases j
  {
    match j
    case JFloat(f) => f.Finite?
    case JArray(items) => forall i :: 0 <= i < |items| ==> AllFinite(items[i])
    case JObject(fields) => forall k :: k in fields ==> AllFinite(fields[k])
    case _ => true
  }

  predicate Distinct<T(==)>(s: seq<T>) {
    forall i, j :: 0 <= i < j < |s| ==> s[i] != s[j]
  }

  predicate HexDigit(c: char) {
    '0' <= c <= '9' || 'a' <= c <= 'f'
  }

  predicate Hex(s: string, length: nat) {
    |s| == length && forall i :: 0 <= i < |s| ==> HexDigit(s[i])
  }

  predicate HexString(j: Json, length: nat) {
    j.JString? && Hex(j.s, length)
  }

  // ---- The same in other words ----

  /** All numbers as floats. */
  function Canonical(j: Json): Json
    decreases j
  {
    match j
    case JBool(b) => JFloat(Finite(Fraction(if b then 1 else 0, 0)))
    case JInt(n) => JFloat(Finite(Fraction(n, 0)))
    case JArray(items) => JArray(seq(|items|, i requires 0 <= i < |items| => Canonical(items[i])))
    case JObject(fields) => JObject(map k | k in fields :: Canonical(fields[k]))
    case _ => j
  }

  /** Python's == compares the canonical forms; by itself, outside a container, a NaN equals nothing. */
  lemma PyEqualExact(a: Json, b: Json)
    ensures PyEqual(a, b) <==> Canonical(a) == Canonical(b) && a != JFloat(NaN)
    decreases a, 0
  {
    if a.JArray? && b.JArray? {
      var x, y := Canonical(a).items, Canonical(b).items;
      if |x| == |y| {
        assert forall i :: 0 <= i < |x| ==> x[i] == Canonical(a.items[i]) && y[i] == Canonical(b.items[i]);
        forall i | 0 <= i < |x| ensures SameElement(a.items[i], b.items[i]) <==> x[i] == y[i] {
          SameElementExact(a.items[i], b.items[i]);
        }
      }
    } else if a.JObject? && b.JObject? {
      var x, y := Canonical(a).fields, Canonical(b).fields;
      assert x.Keys == a.fields.Keys && y.Keys == b.fields.Keys;
      if x.Keys == y.Keys {
        forall k | k in x ensures SameElement(a.fields[k], b.fields[k]) <==> x[k] == y[k] {
          SameElementExact(a.fields[k], b.fields[k]);
        }
      }
    }
  }

  lemma SameElementExact(a: Json, b: Json)
    ensures SameElement(a, b) <==> Canonical(a) == Canonical(b)
    decreases a, 1
  {
    PyEqualExact(a, b);
  }

  /** A step into an array or an object. */
  datatype Place = At(index: nat) | Under(key: string)

  function Inside(j: Json, places: seq<Place>): Option<Json> {
    if places == [] then Some(j)
    else
      match (j, places[0])
      case (JArray(items), At(i)) => if i < |items| then Inside(items[i], places[1..]) else None
      case (JObject(fields), Under(k)) => if k in fields then Inside(fields[k], places[1..]) else None
      case _ => None
  }

  /** An object with these members and no others. */
  lemma HasFieldsExact(j: Json, keys: set<string>)
    ensures HasFields(j, keys) <==> j.JObject? && forall key :: key in keys <==> Inside(j, [Under(key)]).Some?
  {
    forall key ensures j.JObject? ==> (key in j.fields <==> Inside(j, [Under(key)]).Some?) {
      GetIsInside(j, key);
    }
  }

  /** What stands under the key, or null. */
  lemma GetIsInside(j: Json, key: string)
    ensures Inside(j, [Under(key)]) == None ==> Get(j, key) == JNull
    ensures Inside(j, [Under(key)]).Some? ==> Inside(j, [Under(key)]) == Some(Get(j, key))
    ensures j.JObject? ==> (key in j.fields <==> Inside(j, [Under(key)]).Some?)
  {
    if j.JObject? && key in j.fields {
      assert [Under(key)][1..] == [] && Inside(j.fields[key], []) == Some(j.fields[key]);
    }
  }

  /** Nothing is there, or something with nothing in it. */
  predicate Empty(j: Json) {
    match j
    case JNull => true
    case JString(s) => |s| == 0
    case JArray(items) => |items| == 0
    case JObject(fields) => |fields| == 0
    case _ => false
  }

  lemma PresentExact(j: Json)
    ensures Present(j) <==> !Empty(j)
  {
  }

  /** A NaN or an infinity stands somewhere inside. */
  ghost predicate HoldsNonfinite(j: Json) {
    exists places :: Inside(j, places).Some? && Inside(j, places).value.JFloat? && !Inside(j, places).value.f.Finite?
  }

  lemma {:induction false} AllFiniteExact(j: Json)
    ensures AllFinite(j) <==> !HoldsNonfinite(j)
    decreases j
  {
    if HoldsNonfinite(j) {
      var places :| Inside(j, places).Some? && Inside(j, places).value.JFloat? && !Inside(j, places).value.f.Finite?;
      NonfiniteInside(j, places);
    }
    if !AllFinite(j) {
      var places := FindNonfinite(j);
    }
  }

  lemma {:induction false} NonfiniteInside(j: Json, places: seq<Place>)
    requires Inside(j, places).Some? && Inside(j, places).value.JFloat? && !Inside(j, places).value.f.Finite?
    ensures !AllFinite(j)
    decreases |places|
  {
    if places != [] {
      if j.JArray? {
        NonfiniteInside(j.items[places[0].index], places[1..]);
      } else {
        NonfiniteInside(j.fields[places[0].key], places[1..]);
      }
    }
  }

  lemma {:induction false} FindNonfinite(j: Json) returns (places: seq<Place>)
    requires !AllFinite(j)
    ensures Inside(j, places).Some? && Inside(j, places).value.JFloat? && !Inside(j, places).value.f.Finite?
    decreases j
  {
    if j.JArray? {
      var i :| 0 <= i < |j.items| && !AllFinite(j.items[i]);
      var rest := FindNonfinite(j.items[i]);
      places := [At(i)] + rest;
      assert places[1..] == rest;
    } else if j.JObject? {
      var k :| k in j.fields && !AllFinite(j.fields[k]);
      var rest := FindNonfinite(j.fields[k]);
      places := [Under(k)] + rest;
      assert places[1..] == rest;
    } else {
      places := [];
    }
  }
}
