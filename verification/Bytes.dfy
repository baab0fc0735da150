/** Byte strings in the order both metadata engines keep their keys in. */
module Bytes {
  type byte = x: int | 0 <= x < 256
  type bytes = seq<byte>

  /** Lexicographic order; a proper prefix sorts before its extensions. */
  predicate Less(a: bytes, b: bytes)
  {
    if b == [] then false
    else if a == [] then true
    else if a[0] != b[0] then a[0] < b[0]
    else Less(a[1..], b[1..])
  }

  predicate StartsWith(key: bytes, prefix: bytes) {
    |prefix| <= |key| && key[..|prefix|] == prefix
  }

  lemma {:induction false} LessIrreflexive(a: bytes)
    ensures !Less(a, a)
  {
    if a != [] { LessIrreflexive(a[1..]); }
  }

  lemma {:induction false} LessTransitive(a: bytes, b: bytes, c: bytes)
    requires Less(a, b) && Less(b, c)
    ensures Less(a, c)
  {
    if a != [] && a[0] == b[0] == c[0] { LessTransitive(a[1..], b[1..], c[1..]); }
  }

  lemma {:induction false} LessTotal(a: bytes, b: bytes)
    ensures a == b || Less(a, b) || Less(b, a)
  {
    if a != [] && b != [] && a[0] == b[0] {
      LessTotal(a[1..], b[1..]);
      assert a == [a[0]] + a[1..] && b == [b[0]] + b[1..];
    }
  }

  lemma LessAsymmetric(a: bytes, b: bytes)
    requires Less(a, b)
    ensures !Less(b, a) && a != b
  {
    LessIrreflexive(a);
    if Less(b, a) { LessTransitive(a, b, a); }
  }

  /** A common prefix does not decide the order. */
  lemma {:induction false} LessPrefix(p: bytes, x: bytes, y: bytes)
    ensures Less(p + x, p + y) <==> Less(x, y)
    decreases |p|
  {
    if p == [] {
      assert p + x == x && p + y == y;
    } else {
      assert (p + x)[1..] == p[1..] + x && (p + y)[1..] == p[1..] + y;
      LessPrefix(p[1..], x, y);
    }
  }

  /** Two strings of one length decide the order before any tail is looked at. */
  lemma {:induction false} LessHead(a: bytes, b: bytes, x: bytes, y: bytes)
    requires |a| == |b| && a != b
    ensures Less(a + x, b + y) <==> Less(a, b)
  {
    assert a[0] == (a + x)[0] && b[0] == (b + y)[0];
    if a[0] == b[0] {
      assert (a + x)[1..] == a[1..] + x && (b + y)[1..] == b[1..] + y;
      assert a == [a[0]] + a[1..] && b == [b[0]] + b[1..];
      LessHead(a[1..], b[1..], x, y);
    }
  }

  /** Everything a prefix leads sorts at or after it. */
  lemma {:induction false} PrefixIsFirst(key: bytes, prefix: bytes)
    requires StartsWith(key, prefix)
    ensures !Less(key, prefix)
  {
    LessPrefix(prefix, key[|prefix|..], []);
    assert key == prefix + key[|prefix|..] && prefix == prefix + [];
  }

  /** The keys under a prefix are contiguous: nothing sorts between two of them from outside. */
  lemma {:induction false} PrefixIsConvex(lo: bytes, key: bytes, hi: bytes, prefix: bytes)
    requires StartsWith(lo, prefix) && StartsWith(hi, prefix)
    requires !Less(key, lo) && !Less(hi, key)
    ensures StartsWith(key, prefix)
    decreases |prefix|
  {
    if prefix != [] {
      assert key != [];
      assert lo[0] == prefix[0] == hi[0] by {
        assert lo[..|prefix|][0] == prefix[0] && hi[..|prefix|][0] == prefix[0];
      }
      assert key[0] == prefix[0];
      assert lo[1..][..|prefix[1..]|] == prefix[1..] by { assert lo[..|prefix|][1..] == prefix[1..]; }
      assert hi[1..][..|prefix[1..]|] == prefix[1..] by { assert hi[..|prefix|][1..] == prefix[1..]; }
      PrefixIsConvex(lo[1..], key[1..], hi[1..], prefix[1..]);
      assert key[..|prefix|] == [key[0]] + key[1..][..|prefix[1..]|];
      assert prefix == [prefix[0]] + prefix[1..];
    }
  }

  /** Big-endian, `w` bytes wide: what `to_be_bytes` writes. */
  function BigEndian(n: nat, w: nat): (b: bytes)
    ensures |b| == w
  {
    if w == 0 then [] else BigEndian(n / 256, w - 1) + [n % 256]
  }

  function FromBigEndian(b: bytes): nat {
    if b == [] then 0 else FromBigEndian(b[..|b| - 1]) * 256 + b[|b| - 1]
  }

  function Pow256(w: nat): (p: nat)
    ensures p >= 1
  {
    if w == 0 then 1 else 256 * Pow256(w - 1)
  }

  lemma {:induction false} BigEndianRoundTrip(n: nat, w: nat)
    requires n < Pow256(w)
    ensures FromBigEndian(BigEndian(n, w)) == n
  {
    if w > 0 {
      BigEndianRoundTrip(n / 256, w - 1);
      assert BigEndian(n, w)[..w - 1] == BigEndian(n / 256, w - 1);
    }
  }

  lemma {:induction false} LessSnoc(a: bytes, b: bytes, u: byte, v: byte)
    requires |a| == |b|
    ensures Less(a + [u], b + [v]) <==> Less(a, b) || (a == b && u < v)
  {
    if a == b {
      LessPrefix(a, [u], [v]);
      LessIrreflexive(a);
    } else {
      LessHead(a, b, [u], [v]);
    }
  }

  /** Fixed-width big-endian keeps numeric order. */
  lemma {:induction false} BigEndianOrder(a: nat, b: nat, w: nat)
    requires a < Pow256(w) && b < Pow256(w)
    ensures Less(BigEndian(a, w), BigEndian(b, w)) <==> a < b
    ensures BigEndian(a, w) == BigEndian(b, w) <==> a == b
  {
    BigEndianRoundTrip(a, w);
    BigEndianRoundTrip(b, w);
    if w > 0 {
      BigEndianOrder(a / 256, b / 256, w - 1);
      LessSnoc(BigEndian(a / 256, w - 1), BigEndian(b / 256, w - 1), a % 256, b % 256);
    }
  }

  // --- text -------------------------------------------------------------

  predicate Continues(c: byte) { 0x80 <= c <= 0xBF }

  /** Well-formed UTF-8, which is what turns stored bytes back into a name. */
  predicate Utf8(b: bytes) {
    if b == [] then true
    else if b[0] < 0x80 then Utf8(b[1..])
    else if 0xC2 <= b[0] <= 0xDF then |b| >= 2 && Continues(b[1]) && Utf8(b[2..])
    else if 0xE0 <= b[0] <= 0xEF then
      && |b| >= 3 && Continues(b[1]) && Continues(b[2])
      && (b[0] == 0xE0 ==> b[1] >= 0xA0) && (b[0] == 0xED ==> b[1] <= 0x9F)
      && Utf8(b[3..])
    else
      && 0xF0 <= b[0] <= 0xF4 && |b| >= 4 && Continues(b[1]) && Continues(b[2]) && Continues(b[3])
      && (b[0] == 0xF0 ==> b[1] >= 0x90) && (b[0] == 0xF4 ==> b[1] <= 0x8F)
      && Utf8(b[4..])
  }

  lemma {:induction false} PlainText(b: bytes)
    requires forall i :: 0 <= i < |b| ==> b[i] < 0x80
    ensures Utf8(b)
  {
    if b != [] { PlainText(b[1..]); }
  }

  /** A Unicode scalar value: any code point but a surrogate. */
  type Scalar = c: int | 0 <= c < 0xD800 || 0xE000 <= c < 0x11_0000

  /** The encoder of section 3 of RFC 3629. */
  function EncodeScalar(c: Scalar): bytes {
    if c < 0x80 then [c]
    else if c < 0x800 then [0xC0 + c / 64, 0x80 + c % 64]
    else if c < 0x1_0000 then [0xE0 + c / 4096, 0x80 + c / 64 % 64, 0x80 + c % 64]
    else [0xF0 + c / 262144, 0x80 + c / 4096 % 64, 0x80 + c / 64 % 64, 0x80 + c % 64]
  }

  function EncodeText(cs: seq<Scalar>): bytes {
    if cs == [] then [] else EncodeScalar(cs[0]) + EncodeText(cs[1..])
  }

  lemma ScalarThenRest(c: Scalar, rest: bytes)
    ensures Utf8(EncodeScalar(c) + rest) <==> Utf8(rest)
  {
    var b := EncodeScalar(c) + rest;
    assert b[|EncodeScalar(c)|..] == rest;
    ScalarIsWellFormed(c);
  }

  lemma ScalarIsWellFormed(c: Scalar)
    ensures var b := EncodeScalar(c);
      || (|b| == 1 && b[0] < 0x80)
      || (|b| == 2 && 0xC2 <= b[0] <= 0xDF && Continues(b[1]))
      || (|b| == 3 && 0xE0 <= b[0] <= 0xEF && Continues(b[1]) && Continues(b[2]) && (b[0] == 0xE0 ==> b[1] >= 0xA0) && (b[0] == 0xED ==> b[1] <= 0x9F))
      || (|b| == 4 && 0xF0 <= b[0] <= 0xF4 && Continues(b[1]) && Continues(b[2]) && Continues(b[3])
          && (b[0] == 0xF0 ==> b[1] >= 0x90) && (b[0] == 0xF4 ==> b[1] <= 0x8F))
  {}

  /** Base-64 digits, which are what the continuation bytes carry. */
  lemma Digits(a: nat, b: nat, c: nat, d: nat)
    requires b < 64 && c < 64 && d < 64
    ensures var n := a * 262144 + b * 4096 + c * 64 + d;
      n / 262144 == a && n / 4096 % 64 == b && n / 64 % 64 == c && n % 64 == d && n / 4096 == a * 64 + b && n / 64 == a * 4096 + b * 64 + c
  {
    var n := a * 262144 + b * 4096 + c * 64 + d;
    assert n == 64 * (a * 4096 + b * 64 + c) + d;
    assert n / 64 == a * 4096 + b * 64 + c;
    assert n / 4096 == a * 64 + b;
  }

  lemma TwoBytes(x: nat, y: nat) returns (c: Scalar)
    requires 0xC2 <= x <= 0xDF && y < 64
    ensures EncodeScalar(c) == [x, 0x80 + y]
  {
    Digits(0, 0, x - 0xC0, y);
    c := (x - 0xC0) * 64 + y;
  }

  lemma ThreeBytes(x: nat, y: nat, z: nat) returns (c: Scalar)
    requires 0xE0 <= x <= 0xEF && y < 64 && z < 64 && (x == 0xE0 ==> y >= 0x20) && (x == 0xED ==> y <= 0x1F)
    ensures EncodeScalar(c) == [x, 0x80 + y, 0x80 + z]
  {
    Digits(0, x - 0xE0, y, z);
    c := (x - 0xE0) * 4096 + y * 64 + z;
  }

  lemma FourBytes(x: nat, y: nat, z: nat, w: nat) returns (c: Scalar)
    requires 0xF0 <= x <= 0xF4 && y < 64 && z < 64 && w < 64 && (x == 0xF0 ==> y >= 0x10) && (x == 0xF4 ==> y <= 0x0F)
    ensures EncodeScalar(c) == [x, 0x80 + y, 0x80 + z, 0x80 + w]
  {
    Digits(x - 0xF0, y, z, w);
    c := (x - 0xF0) * 262144 + y * 4096 + z * 64 + w;
  }

  /** The first scalar of a well-formed string, read back out of its bits. */
  lemma FirstScalar(b: bytes) returns (c: Scalar)
    requires Utf8(b) && b != []
    ensures StartsWith(b, EncodeScalar(c)) && Utf8(b[|EncodeScalar(c)|..])
  {
    if b[0] < 0x80 {
      c := b[0];
    } else if b[0] <= 0xDF {
      c := TwoBytes(b[0], b[1] - 0x80);
    } else if b[0] <= 0xEF {
      c := ThreeBytes(b[0], b[1] - 0x80, b[2] - 0x80);
    } else {
      c := FourBytes(b[0], b[1] - 0x80, b[2] - 0x80, b[3] - 0x80);
    }
  }

  /** Well-formed is exactly what the encoder writes for some run of scalars. */
  lemma {:induction false} Utf8Iff(b: bytes) returns (cs: seq<Scalar>)
    ensures Utf8(b) ==> EncodeText(cs) == b
    ensures forall text: seq<Scalar> :: EncodeText(text) == b ==> Utf8(b)
  {
    cs := [];
    if Utf8(b) && b != [] {
      var c := FirstScalar(b);
      var rest := Utf8Iff(b[|EncodeScalar(c)|..]);
      cs := [c] + rest;
    }
    forall text: seq<Scalar> | EncodeText(text) == b ensures Utf8(b) { TextIsUtf8(text); }
  }

  lemma {:induction false} TextIsUtf8(cs: seq<Scalar>)
    ensures Utf8(EncodeText(cs))
  {
    if cs != [] {
      TextIsUtf8(cs[1..]);
      ScalarThenRest(cs[0], EncodeText(cs[1..]));
    }
  }
}
