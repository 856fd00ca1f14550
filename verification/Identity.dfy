// Portable activation identity: the key codecs and the UUID stamp (src/identity.rs:6-81).

module Identity {
  import opened Basics

  type Int64 = k: int | -0x8000_0000_0000_0000 <= k < 0x8000_0000_0000_0000

  type UuidBytes = s: seq<Byte> | |s| == 16 witness seq(16, i => 0)

  const BIGINT_CODEC_V1: Byte := 1
  const TUPLE_CODEC_V2: Byte := 2
  const BIGINT_TYPE_TAG: Byte := 1
  const UUID_TYPE_TAG: Byte := 2
  const TEXT_TYPE_TAG: Byte := 3
  const BIGINT_BYTES: nat := 8
  const TWO_TO_THE_32: nat := 0x1_0000_0000
  const TWO_TO_THE_64: nat := 0x1_0000_0000_0000_0000

  /** A text is given by its UTF-8 bytes. */
  datatype ScalarKey = Bigint(value: Int64) | Uuid(uuid: UuidBytes) | Text(bytes: seq<Byte>)

  // ---- Big-endian integers ----

  /** The low width bytes of n, most significant first; higher bytes are dropped, as a narrowing cast drops them. */
  function BigEndian(n: nat, width: nat): (s: seq<Byte>)
    ensures |s| == width
  {
    if width == 0 then [] else BigEndian(n / 256, width - 1) + [n % 256]
  }

  function FromBigEndian(s: seq<Byte>): nat {
    if s == [] then 0 else 256 * FromBigEndian(s[..|s| - 1]) + s[|s| - 1]
  }

  function Power256(width: nat): nat {
    if width == 0 then 1 else 256 * Power256(width - 1)
  }

  /** Reading back gives the number modulo the width: the number itself exactly when it fits. */
  lemma {:induction false} BigEndianRoundTrip(n: nat, width: nat)
    ensures Power256(width) > 0 && FromBigEndian(BigEndian(n, width)) == n % Power256(width)
  {
    if width > 0 {
      BigEndianRoundTrip(n / 256, width - 1);
      assert BigEndian(n, width)[..width - 1] == BigEndian(n / 256, width - 1);
      ModuloStep(n, Power256(width - 1));
    }
  }

  lemma ModuloStep(n: nat, p: nat)
    requires p > 0
    ensures n % (256 * p) == 256 * ((n / 256) % p) + n % 256
  {
    var q, high, low := n / 256 / p, (n / 256) % p, n % 256;
    assert n / 256 == q * p + high;
    assert n == 256 * (q * p + high) + low;
    assert 256 * (q * p) == q * (256 * p);
    Division(q, 256 * p, 256 * high + low);
  }

  lemma BigEndianExact(n: nat, width: nat)
    requires n < Power256(width)
    ensures FromBigEndian(BigEndian(n, width)) == n
  {
    BigEndianRoundTrip(n, width);
  }

  lemma {:induction false} FromBigEndianBound(s: seq<Byte>)
    ensures FromBigEndian(s) < Power256(|s|)
  {
    if s != [] {
      FromBigEndianBound(s[..|s| - 1]);
    }
  }

  lemma Widths()
    ensures Power256(4) == TWO_TO_THE_32 && Power256(8) == TWO_TO_THE_64
  {
    assert Power256(1) == 256;
    assert Power256(2) == 0x1_0000;
    assert Power256(3) == 0x100_0000;
    assert Power256(5) == 0x100_0000_0000;
    assert Power256(6) == 0x1_0000_0000_0000;
    assert Power256(7) == 0x100_0000_0000_0000;
  }

  function TwosComplement(value: Int64): nat {
    if value < 0 then value + TWO_TO_THE_64 else value
  }

  function FromTwosComplement(n: nat): Int64
    requires n < TWO_TO_THE_64
  {
    if n < 0x8000_0000_0000_0000 then n else n - TWO_TO_THE_64
  }

  // ---- The codecs ----

  function Tag(key: ScalarKey): Byte {
    match key
    case Bigint(_) => BIGINT_TYPE_TAG
    case Uuid(_) => UUID_TYPE_TAG
    case Text(_) => TEXT_TYPE_TAG
  }

  function Body(key: ScalarKey): seq<Byte> {
    match key
    case Bigint(value) => BigEndian(TwosComplement(value), 8)
    case Uuid(uuid) => uuid
    case Text(bytes) => bytes
  }

  function EncodeScalar(key: ScalarKey): seq<Byte> {
    [Tag(key)] + BigEndian(|Body(key)|, 4) + Body(key)
  }

  function EncodeScalars(keys: seq<ScalarKey>): seq<Byte> {
    if keys == [] then [] else EncodeScalars(keys[..|keys| - 1]) + EncodeScalar(keys[|keys| - 1])
  }

  predicate Arity(keys: seq<ScalarKey>) {
    0 < |keys| <= 255
  }

  function TupleV2(keys: seq<ScalarKey>): seq<Byte>
    requires Arity(keys)
  {
    [TUPLE_CODEC_V2, |keys|] + EncodeScalars(keys)
  }

  function BigintV1(value: Int64): seq<Byte> {
    [BIGINT_CODEC_V1, BIGINT_TYPE_TAG] + BigEndian(BIGINT_BYTES, 4) + BigEndian(TwosComplement(value), 8)
  }

  method EncodeBigintV1(value: Int64) returns (encoded: seq<Byte>)
    ensures encoded == BigintV1(value) && |encoded| == 14
    ensures encoded[0] == BIGINT_CODEC_V1 && encoded[1] == BIGINT_TYPE_TAG
    ensures FromBigEndian(encoded[2..6]) == |encoded[6..]| == 8
    ensures FromBigEndian(encoded[6..]) < TWO_TO_THE_64 && FromTwosComplement(FromBigEndian(encoded[6..])) == value
  {
    encoded := [];
    encoded := encoded + [BIGINT_CODEC_V1, BIGINT_TYPE_TAG];
    encoded := encoded + BigEndian(BIGINT_BYTES, 4);
    encoded := encoded + BigEndian(TwosComplement(value), 8);
    Widths();
    BigEndianExact(BIGINT_BYTES, 4);
    BigEndianExact(TwosComplement(value), 8);
    assert encoded[2..6] == BigEndian(BIGINT_BYTES, 4) && encoded[6..] == BigEndian(TwosComplement(value), 8);
  }

  /** The bytes that the SQL side computes for 42. */
  lemma SqlParityKey()
    ensures BigintV1(42) == [1, 1, 0, 0, 0, 8, 0, 0, 0, 0, 0, 0, 0, 42]
  {
    assert BigEndian(8, 1) == [8] && BigEndian(42, 1) == [42] by {
      assert BigEndian(0, 0) == [];
    }
    Padded(8, 3);
    Padded(42, 7);
  }

  /** A number of one byte is preceded by zeros. */
  lemma {:induction false} Padded(n: nat, width: nat)
    requires n < 256
    ensures BigEndian(n, width + 1) == seq(width, i => 0) + [n]
  {
    if width > 0 {
      Padded(0, width - 1);
    }
  }

  lemma {:induction false} AllOnes(width: nat)
    ensures Power256(width) > 0 && BigEndian(Power256(width) - 1, width) == seq(width, i => 255)
  {
    if width > 0 {
      AllOnes(width - 1);
      var p := Power256(width - 1);
      assert 256 * p - 1 == 256 * (p - 1) + 255;
      Division(p - 1, 256, 255);
    }
  }

  lemma EightOnes()
    ensures BigEndian(TwosComplement(-1), 8) == [255, 255, 255, 255, 255, 255, 255, 255]
  {
    Widths();
    AllOnes(8);
    assert TwosComplement(-1) == Power256(8) - 1;
  }

  /** Minus one is all ones. */
  lemma MinusOne()
    ensures BigintV1(-1) == [1, 1, 0, 0, 0, 8] + [255, 255, 255, 255, 255, 255, 255, 255]
  {
    EightOnes();
    SmallLength(8);
  }

  /** The length field of a short value. */
  lemma SmallLength(n: nat)
    requires n < 256
    ensures BigEndian(n, 4) == [0, 0, 0, n]
  {
    Padded(n, 3);
  }

  const NORTH: ScalarKey := Text([110, 111, 114, 116, 104])
  const EXAMPLE_UUID: ScalarKey := Uuid([18, 62, 69, 103, 232, 155, 18, 211, 164, 86, 66, 102, 20, 23, 64, 0])

  lemma ScalarVectors()
    ensures EncodeScalar(NORTH) == [3, 0, 0, 0, 5] + [110, 111, 114, 116, 104]
    ensures EncodeScalar(EXAMPLE_UUID)
         == [2, 0, 0, 0, 16] + [18, 62, 69, 103, 232, 155, 18, 211, 164, 86, 66, 102, 20, 23, 64, 0]
    ensures EncodeScalar(Bigint(-1)) == [1, 0, 0, 0, 8] + [255, 255, 255, 255, 255, 255, 255, 255]
  {
    SmallLength(5);
    SmallLength(16);
    SmallLength(8);
    EightOnes();
  }

  lemma EncodeTriple(x: ScalarKey, y: ScalarKey, z: ScalarKey)
    ensures EncodeScalars([x, y, z]) == EncodeScalar(x) + EncodeScalar(y) + EncodeScalar(z)
  {
    EncodePair(x, y);
    assert [x, y, z][..2] == [x, y];
  }

  /** A text, an identifier and a number, in this order, to the byte. */
  lemma TupleVector()
    ensures TupleV2([NORTH, EXAMPLE_UUID, Bigint(-1)])
         == [2, 3] + ([3, 0, 0, 0, 5] + [110, 111, 114, 116, 104]
                      + ([2, 0, 0, 0, 16] + [18, 62, 69, 103, 232, 155, 18, 211, 164, 86, 66, 102, 20, 23, 64, 0])
                      + ([1, 0, 0, 0, 8] + [255, 255, 255, 255, 255, 255, 255, 255]))
  {
    EncodeTriple(NORTH, EXAMPLE_UUID, Bigint(-1));
    ScalarVectors();
  }

  /** None is the assertion failure on an empty or overlong tuple. */
  method EncodeTupleV2(keys: seq<ScalarKey>) returns (r: Option<seq<Byte>>)
    ensures r.Some? <==> Arity(keys)
    ensures r.Some? ==> r.value == TupleV2(keys)
  {
    if keys == [] || |keys| > 255 {
      return None;
    }
    var encoded: seq<Byte> := [TUPLE_CODEC_V2, |keys|];
    for i := 0 to |keys|
      invariant encoded == [TUPLE_CODEC_V2, |keys|] + EncodeScalars(keys[..i])
    {
      var tag, bytes := Tag(keys[i]), Body(keys[i]);
      EncodeLonger([TUPLE_CODEC_V2, |keys|], keys, i);
      encoded := encoded + [tag];
      encoded := encoded + BigEndian(|bytes|, 4);
      encoded := encoded + bytes;
    }
    assert keys[..|keys|] == keys;
    r := Some(encoded);
  }

  lemma EncodeLonger(start: seq<Byte>, keys: seq<ScalarKey>, i: nat)
    requires i < |keys|
    ensures start + EncodeScalars(keys[..i + 1])
         == start + EncodeScalars(keys[..i]) + [Tag(keys[i])] + BigEndian(|Body(keys[i])|, 4) + Body(keys[i])
  {
    assert keys[..i + 1][..i] == keys[..i];
  }

  // ---- The inverse ----

  /** The first scalar of s and what follows it. */
  function DecodeScalar(s: seq<Byte>): Option<(ScalarKey, seq<Byte>)> {
    if |s| < 5 then None
    else
      var n := FromBigEndian(s[1..5]);
      if |s| < 5 + n then None
      else
        var body, rest := s[5..5 + n], s[5 + n..];
        if s[0] == BIGINT_TYPE_TAG && n == 8 then
          FromBigEndianBound(body);
          Widths();
          Some((Bigint(FromTwosComplement(FromBigEndian(body))), rest))
        else if s[0] == UUID_TYPE_TAG && n == 16 then Some((Uuid(body), rest))
        else if s[0] == TEXT_TYPE_TAG then Some((Text(body), rest))
        else None
  }

  function DecodeScalars(s: seq<Byte>, n: nat): Option<(seq<ScalarKey>, seq<Byte>)> {
    if n == 0 then Some(([], s))
    else
      match DecodeScalar(s)
      case None => None
      case Some((key, rest)) =>
        match DecodeScalars(rest, n - 1)
        case None => None
        case Some((keys, tail)) => Some(([key] + keys, tail))
  }

  /** A version 2 tuple at the start of s and what follows it. */
  function DecodeTuple(s: seq<Byte>): Option<(seq<ScalarKey>, seq<Byte>)> {
    if |s| < 2 || s[0] != TUPLE_CODEC_V2 || s[1] == 0 then None else DecodeScalars(s[2..], s[1])
  }

  /** Its length fits the 32-bit length field. */
  predicate Short(key: ScalarKey) {
    key.Text? ==> |key.bytes| < TWO_TO_THE_32
  }

  predicate AllShort(keys: seq<ScalarKey>) {
    forall i :: 0 <= i < |keys| ==> Short(keys[i])
  }

  lemma DecodeEncodedScalar(key: ScalarKey, rest: seq<Byte>)
    requires Short(key)
    ensures DecodeScalar(EncodeScalar(key) + rest) == Some((key, rest))
  {
    var s, body := EncodeScalar(key) + rest, Body(key);
    Widths();
    BigEndianExact(|body|, 4);
    assert s[1..5] == BigEndian(|body|, 4);
    assert s[5..5 + |body|] == body && s[5 + |body|..] == rest;
    if key.Bigint? { BigEndianExact(TwosComplement(key.value), 8); }
  }

  lemma {:induction false} EncodeFirst(keys: seq<ScalarKey>)
    requires keys != []
    ensures EncodeScalars(keys) == EncodeScalar(keys[0]) + EncodeScalars(keys[1..])
  {
    if |keys| > 1 {
      EncodeFirst(keys[..|keys| - 1]);
      assert keys[..|keys| - 1][1..] == keys[1..][..|keys| - 2];
    } else {
      assert keys[..0] == [];
    }
  }

  lemma DecodeStep(s: seq<Byte>, key: ScalarKey, middle: seq<Byte>, keys: seq<ScalarKey>, rest: seq<Byte>)
    requires DecodeScalar(s) == Some((key, middle)) && DecodeScalars(middle, |keys|) == Some((keys, rest))
    ensures DecodeScalars(s, 1 + |keys|) == Some(([key] + keys, rest))
  {
  }

  lemma {:induction false} DecodeEncodedScalars(keys: seq<ScalarKey>, rest: seq<Byte>)
    requires AllShort(keys)
    ensures DecodeScalars(EncodeScalars(keys) + rest, |keys|) == Some((keys, rest))
  {
    if keys == [] {
      assert EncodeScalars(keys) + rest == rest;
    } else {
      EncodeFirst(keys);
      var tail := EncodeScalars(keys[1..]) + rest;
      assert EncodeScalars(keys) + rest == EncodeScalar(keys[0]) + tail;
      DecodeEncodedScalar(keys[0], tail);
      DecodeEncodedScalars(keys[1..], rest);
      DecodeStep(EncodeScalar(keys[0]) + tail, keys[0], tail, keys[1..], rest);
      assert [keys[0]] + keys[1..] == keys;
    }
  }

  lemma {:induction false} DecodedAreShort(s: seq<Byte>, n: nat)
    ensures DecodeScalars(s, n).Some? ==> AllShort(DecodeScalars(s, n).value.0)
  {
    if n > 0 && DecodeScalar(s).Some? {
      FromBigEndianBound(s[1..5]);
      Widths();
      DecodedAreShort(DecodeScalar(s).value.1, n - 1);
    }
  }

  lemma AfterTwo(a: Byte, b: Byte, x: seq<Byte>, y: seq<Byte>)
    ensures var s := [a, b] + x + y; |s| >= 2 && s[0] == a && s[1] == b && s[2..] == x + y
  {
    assert ([a, b] + x + y)[2..] == x + y;
  }

  lemma TupleParts(keys: seq<ScalarKey>, rest: seq<Byte>)
    requires Arity(keys)
    ensures DecodeTuple(TupleV2(keys) + rest) == DecodeScalars(EncodeScalars(keys) + rest, |keys|)
    ensures (TupleV2(keys) + rest)[2..] == EncodeScalars(keys) + rest
  {
    AfterTwo(TUPLE_CODEC_V2, |keys|, EncodeScalars(keys), rest);
  }

  /** The codec is invertible on a tuple exactly when every text is shorter than 2^32 bytes. */
  lemma TupleRoundTrip(keys: seq<ScalarKey>, rest: seq<Byte>)
    requires Arity(keys)
    ensures DecodeTuple(TupleV2(keys) + rest) == Some((keys, rest)) <==> AllShort(keys)
  {
    var s := TupleV2(keys) + rest;
    TupleParts(keys, rest);
    if AllShort(keys) {
      DecodeEncodedScalars(keys, rest);
    } else {
      DecodedAreShort(s[2..], |keys|);
    }
  }

  /** A text of 2^32 bytes or more can make two tuples share an encoding. */
  lemma LongTextsCollide()
    ensures exists a, b :: Arity(a) && Arity(b) && a != b && TupleV2(a) == TupleV2(b)
  {
    var zeros: seq<Byte> := seq(TWO_TO_THE_32 - 5, i => 0);
    var header := [TEXT_TYPE_TAG] + BigEndian(0, 4);
    var a, b := [Text([]), Text(zeros + header)], [Text(header + zeros), Text([])];
    WrapsToZero();
    LongTextHeader(zeros + header);
    LongTextHeader(header + zeros);
    assert EncodeScalar(Text([])) == header;
    EncodePair(a[0], a[1]);
    EncodePair(b[0], b[1]);
    Regroup(header, zeros);
    assert a[0] != b[0];
    assert Arity(a) && Arity(b) && TupleV2(a) == TupleV2(b);
  }

  lemma LongTextHeader(bytes: seq<Byte>)
    requires |bytes| == TWO_TO_THE_32 && BigEndian(TWO_TO_THE_32, 4) == BigEndian(0, 4)
    ensures EncodeScalar(Text(bytes)) == [TEXT_TYPE_TAG] + BigEndian(0, 4) + bytes
  {
  }

  lemma Regroup(header: seq<Byte>, zeros: seq<Byte>)
    ensures header + (header + (zeros + header)) == (header + (header + zeros)) + header
  {
  }

  lemma EncodePair(x: ScalarKey, y: ScalarKey)
    ensures EncodeScalars([x, y]) == EncodeScalar(x) + EncodeScalar(y)
  {
    assert [x, y][..1] == [x] && [x][..0] == [];
    assert EncodeScalars([x]) == EncodeScalar(x);
  }

  lemma WrapsToZero()
    ensures BigEndian(TWO_TO_THE_32, 4) == BigEndian(0, 4)
  {
    assert BigEndian(0x100_0000, 3) == BigEndian(0, 3) by {
      assert BigEndian(0x1_0000, 2) == BigEndian(0, 2) by {
        assert BigEndian(0x100, 1) == BigEndian(0, 1);
      }
    }
  }

  // ---- Canonical keys of both codecs ----

  datatype Canonical = V1(value: Int64) | V2(keys: seq<ScalarKey>)

  predicate Encodable(c: Canonical) {
    c.V2? ==> Arity(c.keys) && AllShort(c.keys)
  }

  function Encode(c: Canonical): seq<Byte>
    requires Encodable(c)
  {
    match c
    case V1(value) => BigintV1(value)
    case V2(keys) => TupleV2(keys)
  }

  /** No canonical key is a prefix of another, so none equals another. */
  lemma PrefixFree(a: Canonical, b: Canonical)
    requires Encodable(a) && Encodable(b) && Encode(a) <= Encode(b)
    ensures a == b
  {
    var x, y := Encode(a), Encode(b);
    assert x[0] == y[0];
    assert y == x + y[|x|..];
    if a.V1? {
      Widths();
      assert x[6..14] == BigEndian(TwosComplement(a.value), 8) && y[6..14] == BigEndian(TwosComplement(b.value), 8);
      BigEndianExact(TwosComplement(a.value), 8);
      BigEndianExact(TwosComplement(b.value), 8);
    } else {
      TupleRoundTrip(a.keys, y[|x|..]);
      TupleRoundTrip(b.keys, []);
      assert y + [] == y;
    }
  }

  /** The digest's input determines the rule version and the key, across both codecs. */
  lemma HashInputInjective(rule: UuidBytes, a: Canonical, rule': UuidBytes, b: Canonical)
    requires Encodable(a) && Encodable(b) && rule + Encode(a) == rule' + Encode(b)
    ensures rule == rule' && a == b
  {
    assert (rule + Encode(a))[..16] == rule && (rule' + Encode(b))[..16] == rule';
    assert (rule + Encode(a))[16..] == Encode(a) && (rule' + Encode(b))[16..] == Encode(b);
    PrefixFree(a, b);
  }

  // ---- The UUID stamp (section 5.8 of RFC 9562) ----

  /** The identifier and the digest hold bytes as bits. */
  datatype ActivationIdentity = ActivationIdentity(activationId: seq<bv8>, canonicalKey: seq<Byte>, digest: seq<bv8>)

  method ActivationIdentityForCanonical(sha256: seq<Byte> -> seq<bv8>, rule: UuidBytes, canonicalKey: seq<Byte>)
    returns (identity: ActivationIdentity)
    requires forall s :: |sha256(s)| == 32
    ensures identity.canonicalKey == canonicalKey && identity.digest == sha256(rule + canonicalKey)
    ensures StampOf(identity.activationId, identity.digest)
  {
    var digest := sha256(rule + canonicalKey);
    var bytes := new bv8[16](i requires 0 <= i < 16 => digest[i]);
    bytes[6] := (bytes[6] & 0x0f) | 0x80;
    bytes[8] := (bytes[8] & 0x3f) | 0x80;
    StampedBits(digest[6], digest[8]);
    identity := ActivationIdentity(bytes[..], canonicalKey, digest);
  }

  /** The version nibble is 8 and the variant bits are 10; the other 122 bits are the digest's. */
  predicate StampOf(id: seq<bv8>, digest: seq<bv8>) {
    && |id| == 16 && |digest| == 32
    && id[6] >> 4 == 8 && id[6] & 0x0f == digest[6] & 0x0f
    && id[8] >> 6 == 2 && id[8] & 0x3f == digest[8] & 0x3f
    && forall i :: 0 <= i < 16 && i != 6 && i != 8 ==> id[i] == digest[i]
  }

  /** What the two assignments do to the bits. */
  lemma StampedBits(b: bv8, c: bv8)
    ensures ((b & 0x0f) | 0x80) >> 4 == 8 && ((b & 0x0f) | 0x80) & 0x0f == b & 0x0f
    ensures ((c & 0x3f) | 0x80) >> 6 == 2 && ((c & 0x3f) | 0x80) & 0x3f == c & 0x3f
  {
  }

  /** A byte is its upper and its lower bits. */
  lemma SplitBits(b: bv8, c: bv8)
    ensures b == c <==> b >> 4 == c >> 4 && b & 0x0f == c & 0x0f
    ensures b == c <==> b >> 6 == c >> 6 && b & 0x3f == c & 0x3f
  {
  }

  /** The bits of the digest's prefix that the stamp leaves. */
  predicate SamePrefixBits(a: seq<bv8>, b: seq<bv8>)
    requires |a| == |b| == 32
  {
    && a[6] & 0x0f == b[6] & 0x0f && a[8] & 0x3f == b[8] & 0x3f
    && forall i :: 0 <= i < 16 && i != 6 && i != 8 ==> a[i] == b[i]
  }

  /** Two digests give one identifier exactly when their 122 remaining prefix bits agree. */
  lemma StampIdentifies(a: seq<bv8>, digestA: seq<bv8>, b: seq<bv8>, digestB: seq<bv8>)
    requires StampOf(a, digestA) && StampOf(b, digestB)
    ensures a == b <==> SamePrefixBits(digestA, digestB)
  {
    SplitBits(a[6], b[6]);
    SplitBits(a[8], b[8]);
    if SamePrefixBits(digestA, digestB) {
      forall i | 0 <= i < 16 ensures a[i] == b[i] {
        assert i != 6 && i != 8 ==> digestA[i] == digestB[i];
      }
    }
    if a == b {
      forall i | 0 <= i < 16 && i != 6 && i != 8 ensures digestA[i] == digestB[i] {
        assert a[i] == b[i];
      }
    }
  }

  /** The digest of the nil rule version with the key 42, as the SQL side has it, gives this identifier and no other. */
  lemma SqlParityIdentifier(id: seq<bv8>, digest: seq<bv8>)
    requires |digest| == 32
    requires digest[..16] == [0x83, 0x07, 0xbd, 0x70, 0xb2, 0x87, 0x11, 0xd3, 0x5b, 0x35, 0x6a, 0x1d, 0xf7, 0xc9, 0xbb,
                              0x60]
    ensures StampOf(id, digest)
       <==> id == [0x83, 0x07, 0xbd, 0x70, 0xb2, 0x87, 0x81, 0xd3, 0x9b, 0x35, 0x6a, 0x1d, 0xf7, 0xc9, 0xbb, 0x60]
  {
    var prefix := digest[..16];
    assert forall i :: 0 <= i < 16 ==> digest[i] == prefix[i];
    if StampOf(id, digest) {
      SplitBits(id[6], 0x81);
      SplitBits(id[8], 0x9b);
    }
  }
}
