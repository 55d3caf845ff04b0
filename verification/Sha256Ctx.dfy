/** `mavlink_sha256_ctx`: the buffered context, proved against the one-shot hash in Sha256. */
module Sha256Ctx {
  import opened Bytes
  import opened Sha256

  // The length of the part of an n-byte message that fills whole blocks.
  function Whole(n: nat): (w: nat)
    ensures w <= n < w + 64 && w % 64 == 0 && w == n - n % 64
  {
    n - n % 64
  }

  // A 32-bit word as little-endian memory holds it, given its four bytes in address order.
  function FromMemory(p0: byte, p1: byte, p2: byte, p3: byte): word {
    (p0 as word) | ((p1 as word) << 8) | ((p2 as word) << 16) | ((p3 as word) << 24)
  }

  // The byte at address offset i of a word in little-endian memory.
  function MemoryByte(w: word, i: nat): byte
    requires i < 4
  {
    if i == 0 then (w & 0xFF) as byte else if i == 1 then ((w >> 8) & 0xFF) as byte
    else if i == 2 then ((w >> 16) & 0xFF) as byte else ((w >> 24) & 0xFF) as byte
  }

  lemma SwappedMemoryIsBigEndian(b0: byte, b1: byte, b2: byte, b3: byte)
    ensures FromMemory(b3, b2, b1, b0) == BigEndianWord(b0, b1, b2, b3)
  {
  }

  lemma OneMoreBlock(m: seq<byte>, block: seq<byte>)
    requires |m| % 64 == 0 && |block| == 64
    ensures HashBlocks(m + block) == Compress(HashBlocks(m), Words(block))
  {
    hide Compress, Words;
    assert (m + block)[..|m|] == m && (m + block)[|m|..] == block;
  }

  lemma CarryKeepsTheCount(sz0: nat, sz1: nat, bits: nat, more: nat)
    requires sz0 < TWO_32 && sz1 < TWO_32 && more < TWO_32
    requires sz1 * TWO_32 + sz0 == bits % TWO_64
    ensures var new0 := (sz0 + more) % TWO_32;
            var new1 := if new0 < sz0 then (sz1 + 1) % TWO_32 else sz1;
            new1 * TWO_32 + new0 == (bits + more) % TWO_64
  {
    var total := sz1 * TWO_32 + sz0 + more;
    assert (bits + more) % TWO_64 == total % TWO_64;
    if sz0 + more < TWO_32 {
      assert total < TWO_64;
    } else if sz1 + 1 < TWO_32 {
      assert total < TWO_64;
    } else {
      assert total % TWO_64 == total - TWO_64;
    }
  }

  lemma OffsetFromCounter(sz0: nat, sz1: nat, count: nat)
    requires sz0 < TWO_32
    requires sz1 * TWO_32 + sz0 == (8 * count) % TWO_64
    ensures sz0 / 8 % 64 == count % 64
  {
    var q := 8 * count / TWO_64;
    assert sz0 == 8 * (count - sz1 * 0x2000_0000 - q * 0x2000_0000_0000_0000);
    var k := sz1 * 0x80_0000 + q * 0x80_0000_0000_0000;
    assert sz0 / 8 == count - 64 * k;
  }

  lemma AtLeastOnce(d: int, m: nat)
    ensures d > 0 ==> d * m >= m
    ensures d < 0 ==> d * m + m <= 0
  {
  }

  // A remainder is what it multiplies out to.
  lemma DivMod(n: nat, m: nat, q: nat, r: nat)
    requires m > 0 && n == q * m + r && r < m
    ensures n % m == r
  {
    var d: int := n / m - q;
    assert d * m == (n / m) * m - q * m;
    AtLeastOnce(d, m);
  }

  lemma LengthInBits(len: nat, counted: nat)
    ensures len * 8 % TWO_32 == 8 * (len % 0x2000_0000)
    ensures (counted + len % 0x2000_0000) % 64 == (counted + len) % 64
  {
    var q, r := len / 0x2000_0000, len % 0x2000_0000;
    assert len == q * 0x2000_0000 + r;
    DivMod(len * 8, TWO_32, q, 8 * r);
    Multiple64(counted + r, q * 0x80_0000);
  }

  lemma Multiple64(n: nat, k: nat)
    ensures n % 64 == (n + 64 * k) % 64
  {
    DivMod(n + 64 * k, 64, n / 64 + k, n % 64);
  }

  lemma SameOffset(a: nat, b: nat, more: nat)
    requires a % 64 == b % 64
    ensures (a + more) % 64 == (b + more) % 64
  {
    var r := a % 64 + more;
    Multiple64(r, a / 64);
    Multiple64(r, b / 64);
  }

  /** Whether two lengths in bytes have the same 64-bit length in bits. */
  predicate SameLengthField(a: nat, b: nat) {
    8 * a % TWO_64 == 8 * b % TWO_64
  }

  lemma OwnLengthField(n: nat)
    ensures SameLengthField(n, n)
  {
  }

  lemma SamePadded(m: seq<byte>, counted: nat)
    ensures SameLengthField(counted, |m|) ==> Padded(m, 8 * counted) == Padded(m, 8 * |m|)
  {
    hide Padding;
    if SameLengthField(counted, |m|) {
      PaddingIgnoresHighBits(|m|, 8 * counted, 8 * |m|);
    }
  }

  // Where the save buffer continues after k more bytes.
  lemma NextOffset(n: nat, k: nat)
    requires n % 64 + k <= 64
    ensures (n + k) % 64 == if n % 64 + k == 64 then 0 else n % 64 + k
    ensures Whole(n + k) == if n % 64 + k == 64 then n + k else Whole(n)
  {
  }

  lemma PieceAppended(was: seq<byte>, piece: seq<byte>, whole: nat)
    requires whole <= |was|
    ensures (was + piece)[..whole] == was[..whole]
    ensures (was + piece)[whole..] == was[whole..] + piece
  {
  }

  /** The message schedule, in the source's 64-word table. */
  method Expand(block: seq<word>) returns (data: array<word>)
    requires |block| == 16
    ensures fresh(data) && data.Length == 64
    ensures forall j :: 0 <= j < 64 ==> data[j] == Schedule(block, j)
  {
    hide Add, SmallSigma0, SmallSigma1;
    data := new word[64];
    var i := 0;
    while i < 16
      invariant 0 <= i <= 16
      invariant forall j :: 0 <= j < i ==> data[j] == Schedule(block, j)
    {
      data[i] := block[i];
      i := i + 1;
    }
    while i < 64
      invariant 16 <= i <= 64
      invariant forall j :: 0 <= j < i ==> data[j] == Schedule(block, j)
    {
      data[i] := Add(Add(Add(SmallSigma1(data[i - 2]), data[i - 7]), SmallSigma0(data[i - 15])), data[i - 16]);
      i := i + 1;
    }
  }

  /** The 64 rounds over the eight working variables. */
  method RunRounds(start: Vars, ghost block: seq<word>, data: array<word>) returns (v: Vars)
    requires |block| == 16 && data.Length == 64
    requires forall j :: 0 <= j < 64 ==> data[j] == Schedule(block, j)
    ensures v == Rounds(start, block, 64)
  {
    hide Add, BigSigma0, BigSigma1, Ch, Maj, RoundConstant, Schedule;
    var a, b, c, d := start.a, start.b, start.c, start.d;
    var e, f, g, h := start.e, start.f, start.g, start.h;
    var i := 0;
    while i < 64
      invariant 0 <= i <= 64
      invariant Vars(a, b, c, d, e, f, g, h) == Rounds(start, block, i)
    {
      var t1 := Add(Add(Add(Add(h, BigSigma1(e)), Ch(e, f, g)), RoundConstant(i)), data[i]);
      var t2 := Add(BigSigma0(a), Maj(a, b, c));
      h := g;
      g := f;
      f := e;
      e := Add(d, t1);
      d := c;
      c := b;
      b := a;
      a := Add(t1, t2);
      i := i + 1;
    }
    v := Vars(a, b, c, d, e, f, g, h);
  }

  /** The `zeros` block of `mavlink_sha256_final_48`, and the length `dstart + 8` it is used to. */
  method PaddingBlock(sz0: nat, sz1: nat, ghost length: nat, ghost bits: nat) returns (zeros: array<byte>, len: nat)
    requires sz0 < TWO_32 && sz1 < TWO_32
    requires sz1 * TWO_32 + sz0 == bits % TWO_64
    requires sz0 / 8 % 64 == length % 64
    ensures fresh(zeros) && zeros.Length == 72 && len <= 72
    ensures zeros[..len] == Padding(length, bits)
  {
    hide ToByte, Zeros;
    SamePadding(sz0 / 8 % 64, length);
    SameCounters(sz0, sz1, bits);
    var offset := sz0 / 8 % 64;
    var dstart := (120 - offset - 1) % 64 + 1;
    zeros := new byte[72](i => 0);
    zeros[0] := 0x80;
    assert zeros[..dstart] == [0x80] + Zeros(dstart - 1);
    WriteCounters(zeros, dstart, sz0, sz1);
    len := dstart + 8;
    assert zeros[..len] == zeros[..dstart] + zeros[dstart..len];
  }

  /** The eight stores of the length into `zeros[dstart..dstart + 8]`. */
  method WriteCounters(zeros: array<byte>, dstart: nat, sz0: nat, sz1: nat)
    requires sz0 < TWO_32 && sz1 < TWO_32
    requires 1 <= dstart && dstart + 8 <= zeros.Length
    modifies zeros
    ensures zeros[..dstart] == old(zeros[..dstart])
    ensures zeros[dstart..dstart + 8] == BigEndian32(sz1) + BigEndian32(sz0)
  {
    hide ToByte;
    var length := [
      ToByte(sz1 / 0x100_0000 % 256), ToByte(sz1 / 0x1_0000 % 256), ToByte(sz1 / 0x100 % 256), ToByte(sz1 % 256),
      ToByte(sz0 / 0x100_0000 % 256), ToByte(sz0 / 0x1_0000 % 256), ToByte(sz0 / 0x100 % 256), ToByte(sz0 % 256)];
    assert length == BigEndian32(sz1) + BigEndian32(sz0);
    forall i | 0 <= i < 8 {
      zeros[dstart + i] := length[i];
    }
  }

  lemma SameCounters(sz0: nat, sz1: nat, bits: nat)
    requires sz0 < TWO_32 && sz1 < TWO_32
    requires sz1 * TWO_32 + sz0 == bits % TWO_64
    ensures BigEndian64(bits) == BigEndian32(sz1) + BigEndian32(sz0)
  {
    hide BigEndian32;
    SplitCounter(bits);
  }

  lemma SamePadding(offset: nat, length: nat)
    requires offset == length % 64
    ensures (120 - offset - 1) % 64 == (55 - length) % 64
  {
  }

  class Context {
    var sz0: nat
    var sz1: nat
    const counter: array<word>
    const saveBytes: array<byte>
    /** Every byte fed since `Init`. */
    ghost var fed: seq<byte>
    /** The number of those bytes that the 64-bit bit counter took notice of. */
    ghost var counted: nat

    ghost predicate Valid()
      reads this, counter, saveBytes
    {
      Counted() && Buffered() && counted % 64 == |fed| % 64
    }

    /** The two counter words hold eight times `counted`, modulo 2^64. */
    ghost predicate Counted()
      reads `sz0, `sz1, `counted
    {
      sz0 < TWO_32 && sz1 < TWO_32 && sz1 * TWO_32 + sz0 == (8 * counted) % TWO_64
    }

    /** Whole blocks are in the chaining value, the rest is in the save buffer. */
    ghost predicate Buffered()
      reads `fed, counter, saveBytes
    {
      && counter.Length == 8 && saveBytes.Length == 64
      && counter[..] == HashBlocks(fed[..Whole(|fed|)])
      && saveBytes[..|fed| % 64] == fed[Whole(|fed|)..]
    }

    /** `mavlink_sha256_init` on a fresh context. */
    constructor Init()
      ensures Valid() && fresh(counter) && fresh(saveBytes)
      ensures fed == [] && counted == 0
    {
      sz0, sz1 := 0, 0;
      counter := new word[8];
      saveBytes := new byte[64];
      fed, counted := [], 0;
      new;
      counter[0], counter[1], counter[2], counter[3] := 0x6a09e667, 0xbb67ae85, 0x3c6ef372, 0xa54ff53a;
      counter[4], counter[5], counter[6], counter[7] := 0x510e527f, 0x9b05688c, 0x1f83d9ab, 0x5be0cd19;
      assert counter[..] == INITIAL;
    }

    /** `mavlink_sha256_calc`: folds one block into the chaining value. */
    method Calc(block: seq<word>)
      requires counter.Length == 8 && |block| == 16
      modifies counter
      ensures counter[..] == Compress(old(counter[..]), block)
    {
      hide Rounds, Schedule, Add;
      var data := Expand(block);
      var v := RunRounds(Load(counter[..]), block, data);
      counter[0] := Add(counter[0], v.a);
      counter[1] := Add(counter[1], v.b);
      counter[2] := Add(counter[2], v.c);
      counter[3] := Add(counter[3], v.d);
      counter[4] := Add(counter[4], v.e);
      counter[5] := Add(counter[5], v.f);
      counter[6] := Add(counter[6], v.g);
      counter[7] := Add(counter[7], v.h);
    }

    /** The byte swap of a full buffer, and the compression of the result. */
    method CalcBuffer()
      requires counter.Length == 8 && saveBytes.Length == 64
      modifies counter
      ensures counter[..] == Compress(old(counter[..]), Words(saveBytes[..]))
    {
      hide Compress, FromMemory, BigEndianWord;
      ghost var was, bytes := counter[..], saveBytes[..];
      var current := new word[16];
      var i := 0;
      while i < 16
        invariant 0 <= i <= 16
        invariant forall j :: 0 <= j < i ==> current[j] == Words(bytes)[j]
        invariant counter[..] == was
      {
        current[i] := FromMemory(saveBytes[4 * i + 3], saveBytes[4 * i + 2], saveBytes[4 * i + 1], saveBytes[4 * i]);
        SwappedMemoryIsBigEndian(saveBytes[4 * i], saveBytes[4 * i + 1], saveBytes[4 * i + 2], saveBytes[4 * i + 3]);
        i := i + 1;
      }
      assert current[..] == Words(bytes);
      assert counter[..] == was;
      Calc(current[..]);
      assert saveBytes[..] == bytes;
    }

    /** The `memcpy` into the save buffer. */
    method Save(offset: nat, p: seq<byte>)
      requires saveBytes.Length == 64 && offset + |p| <= 64
      modifies saveBytes
      ensures saveBytes[..offset + |p|] == old(saveBytes[..offset]) + p
    {
      forall i | 0 <= i < |p| {
        saveBytes[offset + i] := p[i];
      }
    }

    /** `mavlink_sha256_update`. The counter receives `len * 8` reduced to 32 bits. */
    method Update(v: seq<byte>, len: nat)
      requires Valid()
      requires len <= |v| && len < 0x1_0000_0000
      modifies this, counter, saveBytes
      ensures Valid()
      ensures fed == old(fed) + v[..len]
      ensures counted == old(counted) + len % 0x2000_0000
      ensures old(counted) == |old(fed)| && len < 0x2000_0000 ==> counted == |fed|
    {
      hide Buffered, Counted;
      var oldSz := sz0;
      SameOffset(counted, |fed|, len);
      Count(len);
      var offset := oldSz / 8 % 64;
      Absorb(v[..len], offset);
    }

    /** The 64-bit bit counter, kept in two words with a carry. */
    method Count(len: nat)
      requires Counted() && len < TWO_32
      modifies this`sz0, this`sz1, this`counted
      ensures old(sz0) / 8 % 64 == old(counted) % 64
      ensures counted == old(counted) + len % 0x2000_0000
      ensures counted % 64 == (old(counted) + len) % 64
      ensures Counted()
    {
      OffsetFromCounter(sz0, sz1, counted);
      CarryKeepsTheCount(sz0, sz1, 8 * counted, len * 8 % TWO_32);
      LengthInBits(len, counted);
      var oldSz := sz0;
      sz0 := (sz0 + len * 8 % TWO_32) % TWO_32;
      if sz0 < oldSz {
        sz1 := (sz1 + 1) % TWO_32;
      }
      counted := counted + len % 0x2000_0000;
    }

    /** The loop of `mavlink_sha256_update`: buffers the input and compresses every block it fills. */
    method Absorb(p: seq<byte>, start: nat)
      requires Buffered() && start == |fed| % 64
      modifies this`fed, counter, saveBytes
      ensures Buffered() && fed == old(fed) + p
    {
      hide Buffered;
      var done := 0;
      var offset := start;
      while done < |p|
        invariant 0 <= done <= |p|
        invariant Buffered() && fed == old(fed) + p[..done]
        invariant offset == |fed| % 64
      {
        var l := 64 - offset;
        if |p| - done < l {
          l := |p| - done;
        }
        assert p[..done] + p[done..done + l] == p[..done + l];
        offset := AbsorbPiece(p[done..done + l], offset);
        done := done + l;
      }
      assert p[..done] == p;
    }

    /** One turn of that loop: a piece that fits into the save buffer. */
    method AbsorbPiece(piece: seq<byte>, start: nat) returns (offset: nat)
      requires Buffered() && start == |fed| % 64 && start + |piece| <= 64
      modifies this`fed, counter, saveBytes
      ensures Buffered() && fed == old(fed) + piece && offset == |fed| % 64
    {
      hide HashBlocks, Compress, Words, Whole;
      ghost var whole, was := Whole(|fed|), fed;
      Save(start, piece);
      offset := start + |piece|;
      fed := fed + piece;
      PieceAppended(was, piece, whole);
      NextOffset(|was|, |piece|);
      if offset == 64 {
        Flush(whole);
        offset := 0;
      }
    }

    /** A full save buffer is compressed. */
    method Flush(ghost whole: nat)
      requires counter.Length == 8 && saveBytes.Length == 64 && counter as object != saveBytes as object
      requires whole % 64 == 0 && |fed| == whole + 64 && saveBytes[..] == fed[whole..]
      requires counter[..] == HashBlocks(fed[..whole])
      modifies counter, saveBytes
      ensures Buffered()
    {
      hide HashBlocks, Compress, Words;
      CalcBuffer();
      OneMoreBlock(fed[..whole], fed[whole..]);
      assert fed[..whole] + fed[whole..] == fed;
      assert fed[..Whole(|fed|)] == fed;
    }

    /** The `update` with the padding, which leaves whole blocks only. */
    method Pad(zeros: seq<byte>, len: nat)
      requires Valid() && len <= |zeros| <= 72 && zeros[..len] == Padding(|fed|, 8 * counted)
      modifies this, counter, saveBytes
      ensures Valid() && counter[..] == HashBlocks(Padded(old(fed), 8 * old(counted)))
    {
      hide HashBlocks, Padding, Counted, Buffered, Whole;
      Update(zeros, len);
      assert fed == Padded(old(fed), 8 * old(counted));
      Complete();
    }

    /** With nothing left in the save buffer the chaining value is that of everything fed. */
    lemma Complete()
      requires Buffered() && |fed| % 64 == 0
      ensures counter.Length == 8 && counter[..] == HashBlocks(fed)
    {
      hide HashBlocks;
      assert fed[..Whole(|fed|)] == fed;
    }

    /** `mavlink_sha256_final_48`: the first six bytes of the hash, padded with the counted length. */
    method Final48() returns (result: seq<byte>)
      requires Valid()
      modifies this, counter, saveBytes
      ensures result == First48(HashBlocks(Padded(old(fed), 8 * old(counted))))
      ensures SameLengthField(old(counted), |old(fed)|) ==> result == Sha48(old(fed))
    {
      hide HashBlocks, Compress, Words, WordBytes, Padding, MemoryByte, First48, Buffered, SameLengthField;
      OffsetFromCounter(sz0, sz1, counted);
      SamePadded(fed, counted);
      var zeros, len := PaddingBlock(sz0, sz1, |fed|, 8 * counted);
      Pad(zeros[..], len);
      result := [MemoryByte(counter[0], 3), MemoryByte(counter[0], 2), MemoryByte(counter[0], 1),
                 MemoryByte(counter[0], 0), MemoryByte(counter[1], 3), MemoryByte(counter[1], 2)];
      ConventionalOrder(counter[..], result);
    }
  }

  lemma ConventionalOrder(h: seq<word>, r: seq<byte>)
    requires |h| == 8
    requires r == [MemoryByte(h[0], 3), MemoryByte(h[0], 2), MemoryByte(h[0], 1), MemoryByte(h[0], 0),
                   MemoryByte(h[1], 3), MemoryByte(h[1], 2)]
    ensures r == First48(h)
  {
  }
}
