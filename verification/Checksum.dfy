/** CRC-16/MCRF4XX as checksum.h computes it, and the bit-serial division it must agree with.
    Bit-vector operations are kept inside small functions; the proofs that combine them hide the
    function bodies, so that each solver query is either bits or algebra, never both. */
module Checksum {
  import opened Bytes

  const X25_INIT_CRC: bv16 := 0xFFFF

  /** One byte of input, by the source's shift-only formula. */
  function Accumulate(data: byte, crc: bv16): bv16 {
    (crc >> 8) ^ Spread(MixLow(data, crc))
  }

  // The source's 8-bit `tmp`: the data byte mixed with the low half of the state.
  function MixLow(data: byte, crc: bv16): byte {
    data ^ ((crc & 0xFF) as byte)
  }

  // `tmp` after `tmp ^= tmp << 4`, spread over the sixteen bits.
  function Spread(t: byte): bv16 {
    var tmp: byte := t ^ (t << 4);
    var w := tmp as bv16;
    (w << 8) ^ (w << 3) ^ (w >> 4)
  }

  /** The checksum state after a whole buffer. */
  function Fold(crc: bv16, s: seq<byte>): bv16 {
    if s == [] then crc else Accumulate(s[|s| - 1], Fold(crc, s[..|s| - 1]))
  }

  function Crc(s: seq<byte>): bv16 {
    Fold(X25_INIT_CRC, s)
  }

  function Low(crc: bv16): byte {
    (crc & 0xFF) as byte
  }

  function High(crc: bv16): byte {
    (crc >> 8) as byte
  }

  function Join(low: byte, high: byte): bv16 {
    (low as bv16) | ((high as bv16) << 8)
  }

  lemma JoinHalves(crc: bv16)
    ensures Join(Low(crc), High(crc)) == crc
  {
  }

  lemma HalvesOfJoin(low: byte, high: byte)
    ensures Low(Join(low, high)) == low && High(Join(low, high)) == high
  {
  }

  // ----- the reference: division by the reflected polynomial, one bit at a time -----

  function BitStep(crc: bv16): bv16 {
    if crc & 1 != 0 then (crc >> 1) ^ 0x8408 else crc >> 1
  }

  function BitSteps(n: nat, crc: bv16): bv16 {
    if n == 0 then crc else BitStep(BitSteps(n - 1, crc))
  }

  /** The data byte is mixed into the low half of the state before the eight bit steps. */
  function Mix(data: byte, crc: bv16): bv16 {
    crc ^ (data as bv16)
  }

  function BitSerial(s: seq<byte>): bv16 {
    if s == [] then 0xFFFF
    else BitSteps(8, Mix(s[|s| - 1], BitSerial(s[..|s| - 1])))
  }

  // Four bit steps at once, and all eight on a state the data is already mixed into.
  function NibbleStep(x: bv16): bv16 {
    (x >> 4) ^ ((x & 15) << 12) ^ ((x & 15) << 7) ^ (x & 15)
  }

  function ByteStep(x: bv16): bv16 {
    (x >> 8) ^ Spread(Low(x))
  }

  lemma NibbleIsFourBits(x: bv16)
    ensures BitStep(BitStep(BitStep(BitStep(x)))) == NibbleStep(x)
  {
  }

  lemma ByteIsTwoNibbles(x: bv16)
    ensures ByteStep(x) == NibbleStep(NibbleStep(x))
  {
  }

  lemma MixTouchesTheLowHalf(data: byte, crc: bv16)
    ensures Low(Mix(data, crc)) == MixLow(data, crc)
    ensures Mix(data, crc) >> 8 == crc >> 8
  {
  }

  lemma AccumulateIsMixThenByteStep(data: byte, crc: bv16)
    ensures Accumulate(data, crc) == ByteStep(Mix(data, crc))
  {
    hide Spread, Low, Mix, MixLow;
    MixTouchesTheLowHalf(data, crc);
  }

  lemma FourBitSteps(n: nat, x: bv16)
    ensures BitSteps(n + 4, x) == NibbleStep(BitSteps(n, x))
  {
    hide BitStep, NibbleStep;
    assert BitSteps(n + 2, x) == BitStep(BitSteps(n + 1, x));
    NibbleIsFourBits(BitSteps(n, x));
  }

  lemma AccumulateIsEightBitSteps(data: byte, crc: bv16)
    ensures Accumulate(data, crc) == BitSteps(8, Mix(data, crc))
  {
    var x := Mix(data, crc);
    assert BitSteps(0, x) == x;
    hide *;
    FourBitSteps(0, x);
    FourBitSteps(4, x);
    ByteIsTwoNibbles(x);
    AccumulateIsMixThenByteStep(data, crc);
  }

  /** The shift-only checksum of every buffer is the bit-serial one. */
  lemma {:induction false} CrcIsBitSerial(s: seq<byte>)
    ensures Crc(s) == BitSerial(s)
  {
    hide Accumulate, BitSteps, Mix;
    if s != [] {
      var init := s[..|s| - 1];
      CrcIsBitSerial(init);
      AccumulateIsEightBitSteps(s[|s| - 1], Crc(init));
    }
  }

  // ----- composition and the residue -----

  lemma {:induction false} FoldAppend(crc: bv16, s: seq<byte>, t: seq<byte>)
    ensures Fold(crc, s + t) == Fold(Fold(crc, s), t)
  {
    hide Accumulate;
    if t == [] {
      assert s + t == s;
    } else {
      assert (s + t)[..|s + t| - 1] == s + t[..|t| - 1];
      FoldAppend(crc, s, t[..|t| - 1]);
    }
  }

  lemma FoldOne(crc: bv16, b: byte)
    ensures Fold(crc, [b]) == Accumulate(b, crc)
  {
    hide Accumulate;
    assert [b][..0] == [];
  }

  lemma FoldTwo(crc: bv16, a: byte, b: byte)
    ensures Fold(crc, [a, b]) == Accumulate(b, Accumulate(a, crc))
  {
    hide Accumulate;
    assert [a, b][..1] == [a];
    FoldOne(crc, a);
  }

  lemma CrcSnoc(s: seq<byte>, b: byte)
    ensures Crc(s + [b]) == Accumulate(b, Crc(s))
  {
    hide Accumulate;
    assert (s + [b])[..|s|] == s;
  }

  lemma OwnChecksumCancels(crc: bv16)
    ensures Accumulate((crc >> 8) as byte, Accumulate((crc & 0xFF) as byte, crc)) == 0
  {
  }

  /** A receiver that keeps accumulating over the two checksum bytes ends at zero. */
  lemma ResidueIsZero(s: seq<byte>)
    ensures Crc(s + [Low(Crc(s)), High(Crc(s))]) == 0
  {
    hide Accumulate, Fold;
    var crc := Crc(s);
    FoldAppend(X25_INIT_CRC, s, [Low(crc), High(crc)]);
    FoldTwo(crc, Low(crc), High(crc));
    OwnChecksumCancels(crc);
  }

  // ----- error detection -----

  function UndoBit(r: bv16): bv16 {
    if r & 0x8000 != 0 then ((r ^ 0x8408) << 1) | 1 else r << 1
  }

  lemma BitStepUndone(x: bv16)
    ensures UndoBit(BitStep(x)) == x
  {
  }

  lemma {:induction false} BitStepsInjective(n: nat, x: bv16, y: bv16)
    requires BitSteps(n, x) == BitSteps(n, y)
    ensures x == y
  {
    hide BitStep, UndoBit;
    if n > 0 {
      BitStepUndone(BitSteps(n - 1, x));
      BitStepUndone(BitSteps(n - 1, y));
      BitStepsInjective(n - 1, x, y);
    }
  }

  lemma MixCancelsData(data: byte, x: bv16, y: bv16)
    requires Mix(data, x) == Mix(data, y)
    ensures x == y
  {
  }

  lemma MixCancelsState(x: bv16, a: byte, b: byte)
    requires Mix(a, x) == Mix(b, x)
    ensures a == b
  {
  }

  lemma MixKeepsTheHighHalf(a: byte, b: byte, x: bv16, y: bv16)
    requires Mix(a, x) == Mix(b, y)
    ensures High(x) == High(y)
  {
  }

  lemma EqualStepsMeanEqualMixes(a: byte, b: byte, x: bv16, y: bv16)
    requires Accumulate(a, x) == Accumulate(b, y)
    ensures Mix(a, x) == Mix(b, y)
  {
    hide *;
    AccumulateIsEightBitSteps(a, x);
    AccumulateIsEightBitSteps(b, y);
    BitStepsInjective(8, Mix(a, x), Mix(b, y));
  }

  /** For a fixed byte the step is one-to-one in the state. */
  lemma StateInjective(data: byte, x: bv16, y: bv16)
    requires Accumulate(data, x) == Accumulate(data, y)
    ensures x == y
  {
    hide *;
    EqualStepsMeanEqualMixes(data, data, x, y);
    MixCancelsData(data, x, y);
  }

  /** For a fixed state the step is one-to-one in the byte. */
  lemma DataInjective(crc: bv16, a: byte, b: byte)
    requires Accumulate(a, crc) == Accumulate(b, crc)
    ensures a == b
  {
    hide *;
    EqualStepsMeanEqualMixes(a, b, crc, crc);
    MixCancelsState(crc, a, b);
  }

  lemma SpreadHighInjective(s: byte, t: byte)
    requires High(Spread(s)) == High(Spread(t))
    ensures s == t
  {
  }

  lemma HighOfAccumulate(data: byte, crc: bv16)
    ensures High(Accumulate(data, crc)) == High(Spread(MixLow(data, crc)))
  {
    hide Spread, MixLow;
  }

  lemma MixLowInjective(crc: bv16, a: byte, b: byte)
    requires MixLow(a, crc) == MixLow(b, crc)
    ensures a == b
  {
  }

  lemma HighTellsBytesApart(crc: bv16, a: byte, b: byte)
    requires High(Accumulate(a, crc)) == High(Accumulate(b, crc))
    ensures a == b
  {
    hide *;
    HighOfAccumulate(a, crc);
    HighOfAccumulate(b, crc);
    SpreadHighInjective(MixLow(a, crc), MixLow(b, crc));
    MixLowInjective(crc, a, b);
  }

  /** From a fixed state, two bytes are told apart by the state they lead to. */
  lemma PairInjective(crc: bv16, a: byte, b: byte, x: byte, y: byte)
    requires Accumulate(b, Accumulate(a, crc)) == Accumulate(y, Accumulate(x, crc))
    ensures a == x && b == y
  {
    hide *;
    var s, t := Accumulate(a, crc), Accumulate(x, crc);
    EqualStepsMeanEqualMixes(b, y, s, t);
    MixKeepsTheHighHalf(b, y, s, t);
    HighTellsBytesApart(crc, a, x);
    DataInjective(s, b, y);
  }

  lemma {:induction false} FoldInjective(x: bv16, y: bv16, s: seq<byte>)
    requires Fold(x, s) == Fold(y, s)
    ensures x == y
  {
    hide Accumulate;
    if s != [] {
      var init := s[..|s| - 1];
      StateInjective(s[|s| - 1], Fold(x, init), Fold(y, init));
      FoldInjective(x, y, init);
    }
  }

  // ----- linearity -----

  function Wide(b: byte): bv16 {
    b as bv16
  }

  function Differ(a: byte, b: byte): byte {
    a ^ b
  }

  function Differ16(x: bv16, y: bv16): bv16 {
    x ^ y
  }

  lemma Exchange(a: bv16, b: bv16, c: bv16, d: bv16)
    ensures Differ16(Differ16(a, b), Differ16(c, d)) == Differ16(Differ16(a, c), Differ16(b, d))
  {
    hide *;
    Regroup(a, b, Differ16(c, d));
    Regroup(b, c, d);
    Swap(b, c);
    Regroup(c, b, d);
    Regroup(a, c, Differ16(b, d));
  }

  lemma Regroup(a: bv16, b: bv16, c: bv16)
    ensures Differ16(Differ16(a, b), c) == Differ16(a, Differ16(b, c))
  {
  }

  lemma Swap(a: bv16, b: bv16)
    ensures Differ16(a, b) == Differ16(b, a)
  {
  }

  function ShiftedPart(x: bv16): bv16 {
    (x >> 4) ^ ((x & 15) << 12)
  }

  function FedBackPart(x: bv16): bv16 {
    ((x & 15) << 7) ^ (x & 15)
  }

  lemma NibbleStepParts(x: bv16)
    ensures NibbleStep(x) == Differ16(ShiftedPart(x), FedBackPart(x))
  {
  }

  lemma ShiftedPartIsLinear(x: bv16, y: bv16)
    ensures Differ16(ShiftedPart(x), ShiftedPart(y)) == ShiftedPart(Differ16(x, y))
  {
  }

  lemma FedBackPartIsLinear(x: bv16, y: bv16)
    ensures Differ16(FedBackPart(x), FedBackPart(y)) == FedBackPart(Differ16(x, y))
  {
  }

  lemma NibbleStepIsLinear(x: bv16, y: bv16)
    ensures Differ16(NibbleStep(x), NibbleStep(y)) == NibbleStep(Differ16(x, y))
  {
    hide *;
    NibbleStepParts(x);
    NibbleStepParts(y);
    NibbleStepParts(Differ16(x, y));
    ShiftedPartIsLinear(x, y);
    FedBackPartIsLinear(x, y);
    Exchange(ShiftedPart(x), FedBackPart(x), ShiftedPart(y), FedBackPart(y));
  }

  lemma ByteStepIsLinear(x: bv16, y: bv16)
    ensures Differ16(ByteStep(x), ByteStep(y)) == ByteStep(Differ16(x, y))
  {
    hide *;
    ByteIsTwoNibbles(x);
    ByteIsTwoNibbles(y);
    ByteIsTwoNibbles(Differ16(x, y));
    NibbleStepIsLinear(x, y);
    NibbleStepIsLinear(NibbleStep(x), NibbleStep(y));
  }

  lemma MixIsLinear(a: byte, b: byte, x: bv16, y: bv16)
    ensures Differ16(Mix(a, x), Mix(b, y)) == Differ16(Differ16(x, y), Wide(Differ(a, b)))
  {
    hide *;
    MixIsDifference(a, x);
    MixIsDifference(b, y);
    WideDifference(a, b);
    Exchange(x, Wide(a), y, Wide(b));
  }

  lemma MixIsDifference(a: byte, x: bv16)
    ensures Mix(a, x) == Differ16(x, Wide(a))
  {
  }

  lemma WideDifference(a: byte, b: byte)
    ensures Wide(Differ(a, b)) == Differ16(Wide(a), Wide(b))
  {
  }

  /** The step is linear: the difference of two results is what the differences of states and bytes lead to. */
  lemma AccumulateIsLinear(a: byte, b: byte, x: bv16, y: bv16)
    ensures Differ16(Accumulate(a, x), Accumulate(b, y)) == ByteStep(Differ16(Differ16(x, y), Wide(Differ(a, b))))
  {
    hide *;
    AccumulateIsMixThenByteStep(a, x);
    AccumulateIsMixThenByteStep(b, y);
    ByteStepIsLinear(Mix(a, x), Mix(b, y));
    MixIsLinear(a, b, x, y);
  }

  // ----- bursts of up to sixteen bits -----

  // The k low bits of a byte, which are its first on the wire, and the rest.
  function LowBits(k: nat): byte
    requires k <= 8
  {
    match k
    case 0 => 0x00
    case 1 => 0x01
    case 2 => 0x03
    case 3 => 0x07
    case 4 => 0x0F
    case 5 => 0x1F
    case 6 => 0x3F
    case 7 => 0x7F
    case 8 => 0xFF
  }

  /** Three bytes whose bits are all among the sixteen that begin k bits into the first. */
  predicate WindowAt(k: nat, d: byte, f: byte)
    requires k <= 8
  {
    d & LowBits(k) == 0 && f & (0xFF - LowBits(k)) == 0
  }

  lemma Window0(d: byte, e: byte, f: byte)
    requires d & 0x00 == 0 && f & 0xFF == 0 && ByteStep(Differ16(ByteStep(Wide(d)), Wide(e))) == Wide(f)
    ensures d == 0 && e == 0 && f == 0
  {
  }

  lemma Window1(d: byte, e: byte, f: byte)
    requires d & 0x01 == 0 && f & 0xFE == 0 && ByteStep(Differ16(ByteStep(Wide(d)), Wide(e))) == Wide(f)
    ensures d == 0 && e == 0 && f == 0
  {
  }

  lemma Window2(d: byte, e: byte, f: byte)
    requires d & 0x03 == 0 && f & 0xFC == 0 && ByteStep(Differ16(ByteStep(Wide(d)), Wide(e))) == Wide(f)
    ensures d == 0 && e == 0 && f == 0
  {
  }

  lemma Window3(d: byte, e: byte, f: byte)
    requires d & 0x07 == 0 && f & 0xF8 == 0 && ByteStep(Differ16(ByteStep(Wide(d)), Wide(e))) == Wide(f)
    ensures d == 0 && e == 0 && f == 0
  {
  }

  lemma Window4(d: byte, e: byte, f: byte)
    requires d & 0x0F == 0 && f & 0xF0 == 0 && ByteStep(Differ16(ByteStep(Wide(d)), Wide(e))) == Wide(f)
    ensures d == 0 && e == 0 && f == 0
  {
  }

  lemma Window5(d: byte, e: byte, f: byte)
    requires d & 0x1F == 0 && f & 0xE0 == 0 && ByteStep(Differ16(ByteStep(Wide(d)), Wide(e))) == Wide(f)
    ensures d == 0 && e == 0 && f == 0
  {
  }

  lemma Window6(d: byte, e: byte, f: byte)
    requires d & 0x3F == 0 && f & 0xC0 == 0 && ByteStep(Differ16(ByteStep(Wide(d)), Wide(e))) == Wide(f)
    ensures d == 0 && e == 0 && f == 0
  {
  }

  lemma Window7(d: byte, e: byte, f: byte)
    requires d & 0x7F == 0 && f & 0x80 == 0 && ByteStep(Differ16(ByteStep(Wide(d)), Wide(e))) == Wide(f)
    ensures d == 0 && e == 0 && f == 0
  {
  }

  lemma Window8(d: byte, e: byte, f: byte)
    requires d & 0xFF == 0 && f & 0x00 == 0 && ByteStep(Differ16(ByteStep(Wide(d)), Wide(e))) == Wide(f)
    ensures d == 0 && e == 0 && f == 0
  {
  }

  // No non-zero difference within such a window is taken back by the third byte.
  lemma Window(k: nat, d: byte, e: byte, f: byte)
    requires k <= 8 && WindowAt(k, d, f) && ByteStep(Differ16(ByteStep(Wide(d)), Wide(e))) == Wide(f)
    ensures d == 0 && e == 0 && f == 0
  {
    hide ByteStep, Differ16, Wide;
    match k {
      case 0 => Window0(d, e, f);
      case 1 => Window1(d, e, f);
      case 2 => Window2(d, e, f);
      case 3 => Window3(d, e, f);
      case 4 => Window4(d, e, f);
      case 5 => Window5(d, e, f);
      case 6 => Window6(d, e, f);
      case 7 => Window7(d, e, f);
      case 8 => Window8(d, e, f);
    }
  }

  lemma SameMeansNoDifference(a: byte, b: byte, x: bv16)
    ensures a == b <==> Differ(a, b) == 0
    ensures Differ16(x, x) == 0
  {
  }

  lemma DifferenceOnly(d: byte, x: bv16)
    ensures Differ16(0, Wide(d)) == Wide(d)
    ensures Differ16(x, Wide(d)) == 0 ==> x == Wide(d)
  {
  }

  lemma ByteStepOfNothing(x: bv16)
    ensures ByteStep(x) == 0 ==> x == 0
  {
  }

  /** From a fixed state, three bytes that differ within sixteen bits are told apart by the state they lead to. */
  lemma TripleInjective(crc: bv16, a: byte, b: byte, c: byte, x: byte, y: byte, z: byte, k: nat)
    requires k <= 8 && WindowAt(k, Differ(a, x), Differ(c, z))
    requires Accumulate(c, Accumulate(b, Accumulate(a, crc))) == Accumulate(z, Accumulate(y, Accumulate(x, crc)))
    ensures a == x && b == y && c == z
  {
    hide *;
    var d, e, f := Differ(a, x), Differ(b, y), Differ(c, z);
    var s, t := Accumulate(a, crc), Accumulate(x, crc);
    var u, v := Accumulate(b, s), Accumulate(y, t);
    AccumulateIsLinear(a, x, crc, crc);
    AccumulateIsLinear(b, y, s, t);
    AccumulateIsLinear(c, z, u, v);
    SameMeansNoDifference(a, x, crc);
    SameMeansNoDifference(b, y, Accumulate(c, u));
    SameMeansNoDifference(c, z, crc);
    DifferenceOnly(d, 0);
    ByteStepOfNothing(Differ16(Differ16(u, v), Wide(f)));
    DifferenceOnly(f, Differ16(u, v));
    Window(k, d, e, f);
  }

  /** A burst: up to two bytes, or three that differ within sixteen bits. */
  ghost predicate Local(was: seq<byte>, now: seq<byte>) {
    && |was| == |now| && 1 <= |was| <= 3
    && (|was| == 3 ==> exists k :: 0 <= k <= 8 && WindowAt(k, Differ(was[0], now[0]), Differ(was[2], now[2])))
  }

  lemma FoldThree(crc: bv16, a: byte, b: byte, c: byte)
    ensures Fold(crc, [a, b, c]) == Accumulate(c, Accumulate(b, Accumulate(a, crc)))
  {
    hide Accumulate, Fold;
    assert [a, b, c] == [a, b] + [c];
    FoldAppend(crc, [a, b], [c]);
    FoldTwo(crc, a, b);
    FoldOne(Fold(crc, [a, b]), c);
  }

  lemma ShortFoldInjective(crc: bv16, s: seq<byte>, t: seq<byte>)
    requires Local(s, t) && Fold(crc, s) == Fold(crc, t)
    ensures s == t
  {
    hide Accumulate, Fold, WindowAt, Differ;
    if |s| == 1 {
      assert s == [s[0]] && t == [t[0]];
      FoldOne(crc, s[0]);
      FoldOne(crc, t[0]);
      DataInjective(crc, s[0], t[0]);
    } else if |s| == 2 {
      assert s == [s[0], s[1]] && t == [t[0], t[1]];
      FoldTwo(crc, s[0], s[1]);
      FoldTwo(crc, t[0], t[1]);
      PairInjective(crc, s[0], s[1], t[0], t[1]);
    } else {
      assert s == [s[0], s[1], s[2]] && t == [t[0], t[1], t[2]];
      FoldThree(crc, s[0], s[1], s[2]);
      FoldThree(crc, t[0], t[1], t[2]);
      var k :| 0 <= k <= 8 && WindowAt(k, Differ(s[0], t[0]), Differ(s[2], t[2]));
      TripleInjective(crc, s[0], s[1], s[2], t[0], t[1], t[2], k);
    }
  }

  /** A change within two adjacent bytes, or within sixteen consecutive bits, always changes the checksum. */
  lemma BurstChangesCrc(head: seq<byte>, was: seq<byte>, now: seq<byte>, tail: seq<byte>)
    requires Local(was, now) && was != now
    ensures Crc(head + was + tail) != Crc(head + now + tail)
  {
    hide Accumulate, Fold;
    FoldAppend(X25_INIT_CRC, head + was, tail);
    FoldAppend(X25_INIT_CRC, head + now, tail);
    FoldAppend(X25_INIT_CRC, head, was);
    FoldAppend(X25_INIT_CRC, head, now);
    if Crc(head + was + tail) == Crc(head + now + tail) {
      FoldInjective(Fold(Crc(head), was), Fold(Crc(head), now), tail);
      ShortFoldInjective(Crc(head), was, now);
    }
  }

  // ----- parity -----

  // Whether the number of ones is odd.
  function OddByte(b: byte): bool {
    Last(Halved1(Halved2(Halved4(b))))
  }

  function Halved4(b: byte): byte {
    b ^ (b >> 4)
  }

  function Halved2(b: byte): byte {
    b ^ (b >> 2)
  }

  function Halved1(b: byte): byte {
    b ^ (b >> 1)
  }

  function Last(b: byte): bool {
    b & 1 != 0
  }

  lemma Halving4IsLinear(a: byte, b: byte)
    ensures Halved4(Differ(a, b)) == Differ(Halved4(a), Halved4(b))
  {
  }

  lemma Halving2IsLinear(a: byte, b: byte)
    ensures Halved2(Differ(a, b)) == Differ(Halved2(a), Halved2(b))
  {
  }

  lemma Halving1IsLinear(a: byte, b: byte)
    ensures Halved1(Differ(a, b)) == Differ(Halved1(a), Halved1(b))
  {
  }

  lemma LastOfDifference(a: byte, b: byte)
    ensures Last(Differ(a, b)) == (Last(a) != Last(b))
  {
  }

  function Odd(x: bv16): bool {
    OddByte(Low(x)) != OddByte(High(x))
  }

  function OddBits(s: seq<byte>): bool {
    if s == [] then false else OddBits(s[..|s| - 1]) != OddByte(s[|s| - 1])
  }

  lemma ByteStepHalves(x: bv16)
    ensures Low(ByteStep(x)) == Differ(High(x), Low(Spread(Low(x))))
    ensures High(ByteStep(x)) == High(Spread(Low(x)))
  {
    hide Spread;
  }

  lemma SpreadKeepsParity(b: byte)
    ensures OddByte(b) == (OddByte(Low(Spread(b))) != OddByte(High(Spread(b))))
  {
  }

  lemma DifferenceParity(a: byte, b: byte)
    ensures OddByte(Differ(a, b)) == (OddByte(a) != OddByte(b))
  {
    hide Differ, Halved4, Halved2, Halved1, Last;
    Halving4IsLinear(a, b);
    Halving2IsLinear(Halved4(a), Halved4(b));
    Halving1IsLinear(Halved2(Halved4(a)), Halved2(Halved4(b)));
    LastOfDifference(Halved1(Halved2(Halved4(a))), Halved1(Halved2(Halved4(b))));
  }

  lemma MixHalves(d: byte, x: bv16)
    ensures Low(Mix(d, x)) == Differ(Low(x), d) && High(Mix(d, x)) == High(x)
  {
  }

  /** The polynomial has an even number of terms, so a step keeps the parity of state and data together. */
  lemma AccumulateParity(d: byte, x: bv16)
    ensures Odd(Accumulate(d, x)) == (Odd(x) != OddByte(d))
  {
    hide OddByte, Spread, Low, High, Differ, Mix, ByteStep, Accumulate;
    var m := Mix(d, x);
    AccumulateIsMixThenByteStep(d, x);
    MixHalves(d, x);
    ByteStepHalves(m);
    SpreadKeepsParity(Low(m));
    DifferenceParity(High(m), Low(Spread(Low(m))));
    DifferenceParity(Low(x), d);
  }

  lemma {:induction false} FoldParity(crc: bv16, s: seq<byte>)
    ensures Odd(Fold(crc, s)) == (Odd(crc) != OddBits(s))
  {
    hide Accumulate, Odd, OddByte;
    if s != [] {
      FoldParity(crc, s[..|s| - 1]);
      AccumulateParity(s[|s| - 1], Fold(crc, s[..|s| - 1]));
    }
  }

  /** The number of ones of a byte, and of the bits in which two texts of one length differ. */
  function Ones(b: byte): nat {
    Bit(b, 0) + Bit(b, 1) + Bit(b, 2) + Bit(b, 3) + Bit(b, 4) + Bit(b, 5) + Bit(b, 6) + Bit(b, 7)
  }

  function Bit(b: byte, i: bv4): nat
    requires i < 8
  {
    if (b >> i) & 1 != 0 then 1 else 0
  }

  function Flipped(s: seq<byte>, t: seq<byte>): nat
    requires |s| == |t|
  {
    if s == [] then 0 else Flipped(s[..|s| - 1], t[..|s| - 1]) + Ones(Differ(s[|s| - 1], t[|s| - 1]))
  }

  lemma OnesParity(b: byte)
    ensures OddByte(b) <==> Ones(b) % 2 == 1
  {
  }

  lemma {:induction false} FlippedParity(s: seq<byte>, t: seq<byte>)
    requires |s| == |t|
    ensures OddBits(s) != OddBits(t) <==> Flipped(s, t) % 2 == 1
  {
    hide OddByte, Ones, Differ;
    if s != [] {
      var n := |s| - 1;
      FlippedParity(s[..n], t[..n]);
      DifferenceParity(s[n], t[n]);
      OnesParity(Differ(s[n], t[n]));
    }
  }

  lemma {:induction false} OddBitsAppend(s: seq<byte>, t: seq<byte>)
    ensures OddBits(s + t) == (OddBits(s) != OddBits(t))
  {
    hide OddByte;
    if t == [] {
      assert s + t == s;
    } else {
      assert (s + t)[..|s + t| - 1] == s + t[..|t| - 1];
      OddBitsAppend(s, t[..|t| - 1]);
    }
  }

  lemma OddBitsOfTwo(crc: bv16)
    ensures OddBits([Low(crc), High(crc)]) == Odd(crc)
  {
    hide OddByte, Low, High;
    var low, both := [Low(crc)], [Low(crc), High(crc)];
    assert both[..1] == low && low[..0] == [];
    assert OddBits(low) == (OddBits([]) != OddByte(Low(crc)));
    assert OddBits(both) == (OddBits(low) != OddByte(High(crc)));
  }

  /** With the message's extra byte and its checksum behind it, every text has the same parity: an odd number of flipped
      bits, in the text or in its checksum, is always noticed. */
  lemma CheckedParity(s: seq<byte>, extra: byte)
    ensures var crc := Accumulate(extra, Crc(s));
      OddBits(s + [Low(crc), High(crc)]) == (Odd(X25_INIT_CRC) != OddByte(extra))
  {
    hide Accumulate, Odd, OddByte, Low, High, Fold;
    var crc := Accumulate(extra, Crc(s));
    FoldParity(X25_INIT_CRC, s);
    AccumulateParity(extra, Crc(s));
    OddBitsAppend(s, [Low(crc), High(crc)]);
    OddBitsOfTwo(crc);
  }

  // ----- the loops of checksum.h -----

  /** `crc_accumulate_buffer`: continues a checksum over the first `length` bytes of a buffer. */
  method AccumulateBuffer(crcAccum: bv16, buffer: seq<byte>, length: nat) returns (crc: bv16)
    requires length <= |buffer|
    ensures crc == Fold(crcAccum, buffer[..length])
  {
    hide Accumulate;
    crc := crcAccum;
    var i := 0;
    while i < length
      invariant 0 <= i <= length
      invariant crc == Fold(crcAccum, buffer[..i])
    {
      assert buffer[..i + 1][..i] == buffer[..i];
      crc := Accumulate(buffer[i], crc);
      i := i + 1;
    }
  }

  /** `crc_calculate`: the checksum of the first `length` bytes of a buffer. */
  method Calculate(buffer: seq<byte>, length: nat) returns (crc: bv16)
    requires length <= |buffer|
    ensures crc == BitSerial(buffer[..length])
    ensures crc == Crc(buffer[..length])
  {
    crc := AccumulateBuffer(X25_INIT_CRC, buffer, length);
    CrcIsBitSerial(buffer[..length]);
  }
}
