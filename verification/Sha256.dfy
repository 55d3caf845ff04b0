/** The one-shot hash of FIPS 180-4, the specification of the streaming context. */
module Sha256 {
  import opened Bytes

  type word = bv32

  // ----- FIPS 180-4, section 4.1.2: functions -----

  function Rotr(x: word, n: bv6): word
    requires 0 < n < 32
  {
    (x >> n) | (x << (32 - n))
  }

  function Ch(x: word, y: word, z: word): word { (x & y) ^ (!x & z) }
  function Maj(x: word, y: word, z: word): word { (x & y) ^ (x & z) ^ (y & z) }
  function BigSigma0(x: word): word { Rotr(x, 2) ^ Rotr(x, 13) ^ Rotr(x, 22) }
  function BigSigma1(x: word): word { Rotr(x, 6) ^ Rotr(x, 11) ^ Rotr(x, 25) }
  function SmallSigma0(x: word): word { Rotr(x, 7) ^ Rotr(x, 18) ^ (x >> 3) }
  function SmallSigma1(x: word): word { Rotr(x, 17) ^ Rotr(x, 19) ^ (x >> 10) }

  // Addition modulo 2^32, the only arithmetic of the algorithm.
  function Add(x: word, y: word): word { x + y }

  // ----- sections 4.2.2 and 5.3.3: constants -----

  // The round constants, eight to a row.
  const K0: seq<word> := [0x428a2f98, 0x71374491, 0xb5c0fbcf, 0xe9b5dba5, 0x3956c25b, 0x59f111f1, 0x923f82a4, 0xab1c5ed5]
  const K1: seq<word> := [0xd807aa98, 0x12835b01, 0x243185be, 0x550c7dc3, 0x72be5d74, 0x80deb1fe, 0x9bdc06a7, 0xc19bf174]
  const K2: seq<word> := [0xe49b69c1, 0xefbe4786, 0x0fc19dc6, 0x240ca1cc, 0x2de92c6f, 0x4a7484aa, 0x5cb0a9dc, 0x76f988da]
  const K3: seq<word> := [0x983e5152, 0xa831c66d, 0xb00327c8, 0xbf597fc7, 0xc6e00bf3, 0xd5a79147, 0x06ca6351, 0x14292967]
  const K4: seq<word> := [0x27b70a85, 0x2e1b2138, 0x4d2c6dfc, 0x53380d13, 0x650a7354, 0x766a0abb, 0x81c2c92e, 0x92722c85]
  const K5: seq<word> := [0xa2bfe8a1, 0xa81a664b, 0xc24b8b70, 0xc76c51a3, 0xd192e819, 0xd6990624, 0xf40e3585, 0x106aa070]
  const K6: seq<word> := [0x19a4c116, 0x1e376c08, 0x2748774c, 0x34b0bcb5, 0x391c0cb3, 0x4ed8aa4a, 0x5b9cca4f, 0x682e6ff3]
  const K7: seq<word> := [0x748f82ee, 0x78a5636f, 0x84c87814, 0x8cc70208, 0x90befffa, 0xa4506ceb, 0xbef9a3f7, 0xc67178f2]

  const K: seq<word> := K0 + K1 + K2 + K3 + K4 + K5 + K6 + K7

  function RoundConstant(t: nat): word
    requires t < 64
  {
    K[t]
  }

  const INITIAL: seq<word> := [
    0x6a09e667, 0xbb67ae85, 0x3c6ef372, 0xa54ff53a, 0x510e527f, 0x9b05688c, 0x1f83d9ab, 0x5be0cd19]

  // ----- section 6.2.2: the compression function -----

  /** The message schedule. */
  function Schedule(block: seq<word>, t: nat): word
    requires |block| == 16
  {
    if t < 16 then block[t]
    else Add(Add(Add(SmallSigma1(Schedule(block, t - 2)), Schedule(block, t - 7)),
                 SmallSigma0(Schedule(block, t - 15))), Schedule(block, t - 16))
  }

  datatype Vars = Vars(a: word, b: word, c: word, d: word, e: word, f: word, g: word, h: word)

  function Round(v: Vars, k: word, w: word): Vars {
    var t1 := Add(Add(Add(Add(v.h, BigSigma1(v.e)), Ch(v.e, v.f, v.g)), k), w);
    var t2 := Add(BigSigma0(v.a), Maj(v.a, v.b, v.c));
    Vars(Add(t1, t2), v.a, v.b, v.c, Add(v.d, t1), v.e, v.f, v.g)
  }

  function Rounds(v: Vars, block: seq<word>, n: nat): Vars
    requires |block| == 16 && n <= 64
  {
    if n == 0 then v else Round(Rounds(v, block, n - 1), RoundConstant(n - 1), Schedule(block, n - 1))
  }

  function Load(h: seq<word>): Vars
    requires |h| == 8
  {
    Vars(h[0], h[1], h[2], h[3], h[4], h[5], h[6], h[7])
  }

  function Compress(h: seq<word>, block: seq<word>): (r: seq<word>)
    requires |h| == 8 && |block| == 16
    ensures |r| == 8
  {
    var v := Rounds(Load(h), block, 64);
    [Add(h[0], v.a), Add(h[1], v.b), Add(h[2], v.c), Add(h[3], v.d),
     Add(h[4], v.e), Add(h[5], v.f), Add(h[6], v.g), Add(h[7], v.h)]
  }

  // ----- sections 5.1.1 and 5.2.1: padding and parsing -----

  function BigEndianWord(b0: byte, b1: byte, b2: byte, b3: byte): word {
    ((b0 as word) << 24) | ((b1 as word) << 16) | ((b2 as word) << 8) | (b3 as word)
  }

  function WordBytes(w: word): (s: seq<byte>)
    ensures |s| == 4
  {
    [((w >> 24) & 0xFF) as byte, ((w >> 16) & 0xFF) as byte, ((w >> 8) & 0xFF) as byte, (w & 0xFF) as byte]
  }

  function Words(block: seq<byte>): (ws: seq<word>)
    requires |block| == 64
    ensures |ws| == 16
  {
    seq(16, i requires 0 <= i < 16 =>
      BigEndianWord(block[4 * i], block[4 * i + 1], block[4 * i + 2], block[4 * i + 3]))
  }

  /** The chaining value after all the 64-byte blocks of `m`. */
  function HashBlocks(m: seq<byte>): (h: seq<word>)
    requires |m| % 64 == 0
    ensures |h| == 8
  {
    if |m| == 0 then INITIAL
    else Compress(HashBlocks(m[..|m| - 64]), Words(m[|m| - 64..]))
  }

  function BigEndian32(n: nat): (s: seq<byte>)
    requires n < TWO_32
    ensures |s| == 4
  {
    [ToByte(n / 0x100_0000 % 256), ToByte(n / 0x1_0000 % 256), ToByte(n / 0x100 % 256), ToByte(n % 256)]
  }

  /** The low 64 bits of a number, most significant byte first. */
  function BigEndian64(n: nat): (s: seq<byte>)
    ensures |s| == 8
  {
    BigEndian32(n / TWO_32 % TWO_32) + BigEndian32(n % TWO_32)
  }

  /** Byte i of the length field is the (7 - i)-th digit of the low 64 bits to the base 256. */
  lemma BigEndian64Digits(n: nat)
    ensures var s := BigEndian64(n);
      && s[7] as int == n % 0x100 && s[6] as int == n / 0x100 % 0x100
      && s[5] as int == n / 0x1_0000 % 0x100 && s[4] as int == n / 0x100_0000 % 0x100
      && s[3] as int == n / 0x1_0000_0000 % 0x100 && s[2] as int == n / 0x100_0000_0000 % 0x100
      && s[1] as int == n / 0x1_0000_0000_0000 % 0x100 && s[0] as int == n / 0x100_0000_0000_0000 % 0x100
  {
    hide ToByte, BigEndian32;
    BigEndian32Digits(n % TWO_32);
    BigEndian32Digits(n / TWO_32 % TWO_32);
    LowDigits(n);
    LowDigits(n / TWO_32);
    DivideTwice(n, TWO_32, 0x100);
    DivideTwice(n, TWO_32, 0x1_0000);
    DivideTwice(n, TWO_32, 0x100_0000);
  }

  lemma BigEndian32Digits(n: nat)
    requires n < TWO_32
    ensures var s := BigEndian32(n);
      && s[3] as int == n % 0x100 && s[2] as int == n / 0x100 % 0x100
      && s[1] as int == n / 0x1_0000 % 0x100 && s[0] as int == n / 0x100_0000 % 0x100
  {
    hide ToByte;
    ToByteIs(n % 0x100);
    ToByteIs(n / 0x100 % 0x100);
    ToByteIs(n / 0x1_0000 % 0x100);
    ToByteIs(n / 0x100_0000 % 0x100);
  }

  // What a multiple of m times 256 times d adds does not reach the digit at m.
  lemma DigitAt(q: nat, r: nat, m: nat, d: nat)
    requires m > 0
    ensures (q * (m * (0x100 * d)) + r) / m % 0x100 == r / m % 0x100
  {
    var x, n := r / m, q * (m * (0x100 * d)) + r;
    Exchanged(q, m, d);
    Distributed(m, 0x100 * (q * d), x);
    QuotientIs(n, m, 0x100 * (q * d) + x, r % m);
    MultipleOf256(x, q * d);
  }

  lemma Exchanged(q: nat, m: nat, d: nat)
    ensures q * (m * (0x100 * d)) == m * (0x100 * (q * d))
  {
  }

  lemma Distributed(m: nat, x: nat, y: nat)
    ensures m * (x + y) == m * x + m * y
  {
  }

  lemma MultipleOf256(x: nat, k: nat)
    ensures (0x100 * k + x) % 0x100 == x % 0x100
  {
  }

  lemma LowDigits(n: nat)
    ensures n % TWO_32 % 0x100 == n % 0x100 && n % TWO_32 / 0x100 % 0x100 == n / 0x100 % 0x100
    ensures n % TWO_32 / 0x1_0000 % 0x100 == n / 0x1_0000 % 0x100
    ensures n % TWO_32 / 0x100_0000 % 0x100 == n / 0x100_0000 % 0x100
  {
    var q, r := n / TWO_32, n % TWO_32;
    assert n == q * TWO_32 + r;
    DigitAt(q, r, 1, 0x100_0000);
    DigitAt(q, r, 0x100, 0x1_0000);
    DigitAt(q, r, 0x1_0000, 0x100);
    DigitAt(q, r, 0x100_0000, 1);
  }

  /** The bit 1, the least number of zero bits that reach 448 modulo 512, and the 64-bit length. */
  function Padding(length: nat, bits: nat): (p: seq<byte>)
    ensures (length + |p|) % 64 == 0
    ensures 9 <= |p| <= 72
  {
    PaddingFills(length);
    [0x80] + Zeros((55 - length) % 64) + BigEndian64(bits)
  }

  lemma PaddingFills(length: nat)
    ensures (length + (9 + (55 - length) % 64)) % 64 == 0
  {
  }

  /** A message padded with a length field that need not be its own. */
  function Padded(m: seq<byte>, bits: nat): (p: seq<byte>)
    ensures |p| % 64 == 0
  {
    var padding := Padding(|m|, bits);
    Congruent(|m + padding|, |m| + |padding|);
    m + padding
  }

  lemma Congruent(a: nat, b: nat)
    requires a == b && b % 64 == 0
    ensures a % 64 == 0
  {
  }

  /** The eight-word hash of a message; FIPS 180-4 defines it for messages of fewer than 2^61 bytes. */
  function Hash(m: seq<byte>): (h: seq<word>)
    ensures |h| == 8
  {
    HashBlocks(Padded(m, 8 * |m|))
  }

  /** The first 48 bits of a hash value. */
  function First48(h: seq<word>): (s: seq<byte>)
    requires |h| == 8
    ensures |s| == 6
  {
    (WordBytes(h[0]) + WordBytes(h[1]))[..6]
  }

  function Sha48(m: seq<byte>): (s: seq<byte>)
    ensures |s| == 6
  {
    First48(Hash(m))
  }

  /** Only the low 64 bits of the length reach the padding. */
  lemma PaddingIgnoresHighBits(length: nat, a: nat, b: nat)
    requires a % TWO_64 == b % TWO_64
    ensures Padding(length, a) == Padding(length, b)
  {
    SplitCounter(a);
    SplitCounter(b);
  }

  lemma SplitCounter(n: nat)
    ensures n % TWO_64 == (n / TWO_32 % TWO_32) * TWO_32 + n % TWO_32
    ensures n % TWO_64 / TWO_32 == n / TWO_32 % TWO_32
    ensures n % TWO_64 % TWO_32 == n % TWO_32
  {
  }
}
