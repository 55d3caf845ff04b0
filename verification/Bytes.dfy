/** Bytes, and the bridge between byte values and the numbers they stand for. */
module Bytes {
  type byte = bv8

  const TWO_32 := 0x1_0000_0000
  const TWO_64 := 0x1_0000_0000_0000_0000

  /** A C `uint8_t` used as a count or an index. */
  type uint8 = n: nat | n < 256

  // ----- a byte as eight bits, and as a number -----

  datatype Bits = Bits(b0: bool, b1: bool, b2: bool, b3: bool, b4: bool, b5: bool, b6: bool, b7: bool)

  function Pack(x: Bits): byte {
    (if x.b0 then 0x01 else 0) | (if x.b1 then 0x02 else 0) | (if x.b2 then 0x04 else 0) | (if x.b3 then 0x08 else 0) |
    (if x.b4 then 0x10 else 0) | (if x.b5 then 0x20 else 0) | (if x.b6 then 0x40 else 0) | (if x.b7 then 0x80 else 0)
  }

  function Unpack(b: byte): Bits {
    Bits(b & 0x01 != 0, b & 0x02 != 0, b & 0x04 != 0, b & 0x08 != 0,
         b & 0x10 != 0, b & 0x20 != 0, b & 0x40 != 0, b & 0x80 != 0)
  }

  function Put(low: bool, high: nat): nat {
    2 * high + if low then 1 else 0
  }

  function Sum(x: Bits): (n: nat)
    ensures n < 256
  {
    Put(x.b0, Put(x.b1, Put(x.b2, Put(x.b3, Put(x.b4, Put(x.b5, Put(x.b6, Put(x.b7, 0))))))))
  }

  function Digits(n: nat): Bits {
    var n1 := n / 2; var n2 := n1 / 2; var n3 := n2 / 2; var n4 := n3 / 2;
    var n5 := n4 / 2; var n6 := n5 / 2; var n7 := n6 / 2;
    Bits(n % 2 == 1, n1 % 2 == 1, n2 % 2 == 1, n3 % 2 == 1, n4 % 2 == 1, n5 % 2 == 1, n6 % 2 == 1, n7 % 2 == 1)
  }

  function ToByte(n: uint8): byte {
    Pack(Digits(n))
  }

  function FromByte(b: byte): uint8 {
    Sum(Unpack(b))
  }

  lemma UnpackPack(x: Bits)
    ensures Unpack(Pack(x)) == x
  {
  }

  lemma PackUnpack(b: byte)
    ensures Pack(Unpack(b)) == b
  {
  }

  lemma PutHalves(n: nat)
    ensures Put(n % 2 == 1, n / 2) == n
  {
  }

  lemma HalvesPut(low: bool, high: nat)
    ensures Put(low, high) / 2 == high && (Put(low, high) % 2 == 1 <==> low)
  {
  }

  lemma EightHalves(n: uint8)
    ensures n / 2 / 2 / 2 / 2 / 2 / 2 / 2 / 2 == 0
  {
  }

  lemma ByteRoundTrip(n: uint8)
    ensures FromByte(ToByte(n)) == n
  {
    UnpackPack(Digits(n));
    hide Put, Pack, Unpack;
    var n1 := n / 2; var n2 := n1 / 2; var n3 := n2 / 2; var n4 := n3 / 2;
    var n5 := n4 / 2; var n6 := n5 / 2; var n7 := n6 / 2;
    EightHalves(n);
    PutHalves(n); PutHalves(n1); PutHalves(n2); PutHalves(n3);
    PutHalves(n4); PutHalves(n5); PutHalves(n6); PutHalves(n7);
  }

  lemma ByteValueRoundTrip(b: byte)
    ensures ToByte(FromByte(b)) == b
  {
    PackUnpack(b);
    hide Put, Pack, Unpack;
    var x := Unpack(b);
    var s7 := Put(x.b7, 0); var s6 := Put(x.b6, s7); var s5 := Put(x.b5, s6); var s4 := Put(x.b4, s5);
    var s3 := Put(x.b3, s4); var s2 := Put(x.b2, s3); var s1 := Put(x.b1, s2);
    HalvesPut(x.b7, 0); HalvesPut(x.b6, s7); HalvesPut(x.b5, s6); HalvesPut(x.b4, s5);
    HalvesPut(x.b3, s4); HalvesPut(x.b2, s3); HalvesPut(x.b1, s2); HalvesPut(x.b0, s1);
  }

  /** The number a byte stands for is its value. */
  lemma FromByteIs(b: byte)
    ensures FromByte(b) == b as int
  {
  }

  lemma ToByteIs(n: uint8)
    ensures ToByte(n) as int == n && ToByte(n) == n as byte
  {
    hide ToByte, FromByte;
    ByteRoundTrip(n);
    FromByteIs(ToByte(n));
  }

  /** `uint8_t` increment, with its wrap-around. */
  function Next(b: byte): byte {
    b + 1
  }

  lemma NextIs(b: byte)
    ensures Next(b) as int == (b as int + 1) % 256
  {
  }

  function Zeros(n: nat): (s: seq<byte>)
    ensures |s| == n
    ensures forall i :: 0 <= i < n ==> s[i] == 0
  {
    seq(n, i => 0)
  }

  // ----- little-endian numbers -----

  function Power256(n: nat): (p: nat)
    ensures p >= 1
  {
    if n == 0 then 1 else 256 * Power256(n - 1)
  }

  /** The n low bytes of a number, least significant first. */
  function LittleEndian(value: nat, n: nat): (s: seq<byte>)
    ensures |s| == n
  {
    if n == 0 then [] else [ToByte(value % 256)] + LittleEndian(value / 256, n - 1)
  }

  function FromLittleEndian(s: seq<byte>): nat {
    if s == [] then 0 else FromByte(s[0]) + 256 * FromLittleEndian(s[1..])
  }

  lemma {:induction false} LittleEndianRoundTrip(value: nat, n: nat)
    requires value < Power256(n)
    ensures FromLittleEndian(LittleEndian(value, n)) == value
  {
    hide ToByte, FromByte;
    if n > 0 {
      ByteRoundTrip(value % 256);
      LittleEndianRoundTrip(value / 256, n - 1);
      assert LittleEndian(value, n)[1..] == LittleEndian(value / 256, n - 1);
    }
  }

  /** Byte i of a little-endian number is its i-th digit to the base 256. */
  lemma {:induction false} LittleEndianDigit(value: nat, n: nat, i: nat)
    requires i < n
    ensures LittleEndian(value, n)[i] as int == value / Power256(i) % 256
  {
    hide ToByte;
    ToByteIs(value % 256);
    if i > 0 {
      LittleEndianDigit(value / 256, n - 1, i - 1);
      DivideTwice(value, 256, Power256(i - 1));
    }
  }

  lemma Regroup(a: nat, b: nat, s: nat, t: nat)
    ensures a * (b * s + t) == (a * b) * s + a * t
  {
  }

  lemma Below(a: nat, b: nat, t: nat, r: nat)
    requires t < b && r < a
    ensures a * t + r < a * b
  {
    var gap := b - t - 1;
    assert a * b == a * t + a + a * gap by {
      assert b == t + 1 + gap;
      Spread3(a, t, gap);
    }
  }

  lemma Spread3(a: nat, t: nat, gap: nat)
    ensures a * (t + 1 + gap) == a * t + a + a * gap && a * gap >= 0
  {
  }

  lemma TwoQuotients(n: nat, a: nat, b: nat, q: nat, r: nat, s: nat, t: nat)
    requires n == a * q + r && q == b * s + t && r < a && t < b
    ensures a * b > 0 && n / (a * b) == s
  {
    Below(a, b, t, r);
    Regroup(a, b, s, t);
    var ab, low := a * b, a * t + r;
    assert n == ab * s + low;
    QuotientIs(n, ab, s, low);
  }

  lemma Divided(n: nat, a: nat)
    requires a > 0
    ensures n == a * (n / a) + n % a && n % a < a
  {
  }

  lemma DivideTwice(n: nat, a: nat, b: nat)
    requires a > 0 && b > 0
    ensures a * b > 0 && n / a / b == n / (a * b)
  {
    Divided(n, a);
    Divided(n / a, b);
    TwoQuotients(n, a, b, n / a, n % a, n / a / b, n / a % b);
  }

  lemma QuotientIs(n: nat, m: nat, q: nat, r: nat)
    requires m > 0 && n == m * q + r && r < m
    ensures n / m == q
  {
    var d: int := n / m - q;
    Apart(m, n / m, q);
    NoMultipleBetween(d, m);
  }

  lemma Apart(m: nat, p: nat, q: nat)
    ensures m * (p - q) == m * p - m * q
  {
  }

  lemma NoMultipleBetween(d: int, m: nat)
    ensures d > 0 ==> m * d >= m
    ensures d < 0 ==> m * d + m <= 0
  {
  }

  lemma {:induction false} FromLittleEndianBound(s: seq<byte>)
    ensures FromLittleEndian(s) < Power256(|s|)
  {
    hide FromByte;
    if s != [] {
      FromLittleEndianBound(s[1..]);
    }
  }

  lemma TwoToThe48()
    ensures Power256(6) == 0x1_0000_0000_0000
  {
    assert Power256(3) == 0x100_0000;
    assert Power256(4) == 0x1_0000_0000;
    assert Power256(5) == 0x100_0000_0000;
  }
}
