/** The companion's streaming SHA-256 and HMAC (companion/src/plugin.cpp). The compression function
    of section 6.2.2 of FIPS 180-4 is a parameter: the results hold for every such function, and what
    is proved is the buffering, the padding and the keyed construction around it. */
module Sha256 {

  type byte = b: int | 0 <= b < 256

  datatype Words = Words(a: bv32, b: bv32, c: bv32, d: bv32, e: bv32, f: bv32, g: bv32, h: bv32)

  type Compression = (Words, seq<byte>) -> Words

  const IV: Words := Words(0x6a09e667, 0xbb67ae85, 0x3c6ef372, 0xa54ff53a,
                           0x510e527f, 0x9b05688c, 0x1f83d9ab, 0x5be0cd19)

  const TWO64: nat := 0x1_0000_0000_0000_0000

  // ---- the definition (sections 5.1.1 and 6.2 of FIPS 180-4) --------------

  function Zeros(k: nat): (z: seq<byte>)
    ensures |z| == k && forall i :: 0 <= i < k ==> z[i] == 0
  {
    seq(k, _ => 0)
  }

  function Pow256(k: nat): (p: nat)
    ensures p > 0
  {
    if k == 0 then 1 else 256 * Pow256(k - 1)
  }

  function ByteAt(n: nat, k: nat): byte {
    (n / Pow256(k)) % 256
  }

  /** Eight bytes, most significant first. */
  function BigEndian64(n: nat): (s: seq<byte>)
    ensures |s| == 8
  {
    seq(8, i requires 0 <= i < 8 => ByteAt(n, 7 - i))
  }

  /** Number of zero bytes between the marker and the length. */
  function PadZeros(n: nat): nat {
    (119 - n % 64) % 64
  }

  /** It is the least number that leaves eight bytes to a multiple of 64, as the standard asks. */
  lemma PadZerosLeast(n: nat, k: nat)
    ensures (n + 1 + PadZeros(n)) % 64 == 56
    ensures (n + 1 + k) % 64 == 56 ==> PadZeros(n) <= k
  {
  }

  function Pad(m: seq<byte>): (p: seq<byte>)
    ensures |p| == |m| + 9 + PadZeros(|m|)
  {
    m + [0x80] + Zeros(PadZeros(|m|)) + BigEndian64(8 * |m| % TWO64)
  }

  lemma PadAligned(m: seq<byte>)
    ensures |Pad(m)| % 64 == 0
  {
    hide Pad;
    PadZerosLeast(|m|, 0);
  }

  /** The compression function folded over the 64-byte blocks. */
  function Fold(f: Compression, s: Words, m: seq<byte>): Words
    requires |m| % 64 == 0
    decreases |m|
  {
    if m == [] then s else Fold(f, f(s, m[..64]), m[64..])
  }

  function LowByte(w: bv32): byte {
    ((w & 0xff) as bv8) as int
  }

  function WordBytes(w: bv32): seq<byte> {
    [LowByte(w >> 24), LowByte(w >> 16), LowByte(w >> 8), LowByte(w)]
  }

  function Digest(s: Words): (d: seq<byte>)
    ensures |d| == 32
  {
    WordBytes(s.a) + WordBytes(s.b) + WordBytes(s.c) + WordBytes(s.d) +
    WordBytes(s.e) + WordBytes(s.f) + WordBytes(s.g) + WordBytes(s.h)
  }

  function Hash(f: Compression, m: seq<byte>): (d: seq<byte>)
    ensures |d| == 32
  {
    PadAligned(m);
    Digest(Fold(f, IV, Pad(m)))
  }

  lemma {:induction false} FoldSnoc(f: Compression, s: Words, m: seq<byte>, block: seq<byte>)
    requires |m| % 64 == 0 && |block| == 64
    ensures Fold(f, s, m + block) == f(Fold(f, s, m), block)
    decreases |m|
  {
    if m == [] {
      assert m + block == block && block[..64] == block && block[64..] == [];
    } else {
      assert (m + block)[..64] == m[..64] && (m + block)[64..] == m[64..] + block;
      FoldSnoc(f, f(s, m[..64]), m[64..], block);
    }
  }

  lemma FoldTwo(f: Compression, s: Words, m: seq<byte>, first: seq<byte>, second: seq<byte>)
    requires |m| % 64 == 0 && |first| == |second| == 64
    ensures Fold(f, s, m + first + second) == f(f(Fold(f, s, m), first), second)
  {
    hide Fold;
    FoldSnoc(f, s, m, first);
    FoldSnoc(f, s, m + first, second);
  }

  // ---- what the object holds between calls -------------------------------

  /** After the bytes `m`, the chaining state covers all of them but `held`, the bytes that wait in
      the buffer, and `bits` counts the covered ones. */
  ghost predicate Absorbed(f: Compression, m: seq<byte>, state: Words, held: seq<byte>, bits: nat) {
    && |held| < 64 && |held| <= |m| && (|m| - |held|) % 64 == 0
    && state == Fold(f, IV, m[..|m| - |held|])
    && held == m[|m| - |held|..]
    && bits == 8 * (|m| - |held|) % TWO64
  }

  lemma AbsorbHeld(f: Compression, m: seq<byte>, state: Words, held: seq<byte>, bits: nat, x: byte)
    requires Absorbed(f, m, state, held, bits) && |held| < 63
    ensures Absorbed(f, m + [x], state, held + [x], bits)
  {
    var done := m[..|m| - |held|];
    assert (m + [x])[..|m| - |held|] == done;
  }

  lemma AbsorbBlock(f: Compression, m: seq<byte>, state: Words, held: seq<byte>, bits: nat, x: byte)
    requires Absorbed(f, m, state, held, bits) && |held| == 63
    ensures Absorbed(f, m + [x], f(state, held + [x]), [], (bits + 512) % TWO64)
  {
    var done := m[..|m| - |held|];
    assert (m + [x])[..|m| + 1] == done + (held + [x]);
    FoldSnoc(f, IV, done, held + [x]);
    BitCount(|done|);
    assert (m + [x])[|m| + 1..] == [];
  }

  lemma FinishShort(f: Compression, m: seq<byte>, state: Words, held: seq<byte>, bits: nat)
    requires Absorbed(f, m, state, held, bits) && |held| <= 55
    ensures var total := (bits + |held| * 8) % TWO64;
            Hash(f, m) == Digest(f(state, held + [0x80] + Zeros(55 - |held|) + BigEndian64(total)))
  {
    hide BigEndian64, Zeros, Digest, Pad, Fold;
    var done := m[..|m| - |held|];
    assert m == done + held;
    TotalBits(|done|, |held|, bits);
    PaddedBlocks(done, held);
    PadAligned(m);
    FoldSnoc(f, IV, done, held + [0x80] + Zeros(55 - |held|) + BigEndian64(8 * |m| % TWO64));
  }

  lemma FinishLong(f: Compression, m: seq<byte>, state: Words, held: seq<byte>, bits: nat)
    requires Absorbed(f, m, state, held, bits) && |held| > 55
    ensures var total := (bits + |held| * 8) % TWO64;
            Hash(f, m) == Digest(f(f(state, held + [0x80] + Zeros(63 - |held|)), Zeros(56) + BigEndian64(total)))
  {
    hide BigEndian64, Zeros, Digest, Pad, Fold;
    var done := m[..|m| - |held|];
    assert m == done + held;
    TotalBits(|done|, |held|, bits);
    PaddedBlocks(done, held);
    PadAligned(m);
    FoldTwo(f, IV, done, held + [0x80] + Zeros(63 - |held|), Zeros(56) + BigEndian64(8 * |m| % TWO64));
  }

  // ---- the streaming object ----------------------------------------------

  class Sha256 {
    const compress: Compression
    const buffer: array<byte>
    var state: Words
    var bufferLength: nat
    var bitLength: nat
    ghost var message: seq<byte>

    ghost predicate Valid()
      reads this, buffer
    {
      && buffer.Length == 64 && bufferLength < 64
      && Absorbed(compress, message, state, buffer[..bufferLength], bitLength)
    }

    constructor (f: Compression)
      ensures Valid() && message == [] && compress == f && fresh(buffer)
    {
      compress := f;
      buffer := new byte[64](_ => 0);
      state := IV;
      bufferLength, bitLength := 0, 0;
      message := [];
    }

    /** `update`: byte by byte, compressing whenever the buffer is full. */
    method Update(data: seq<byte>)
      requires Valid()
      modifies this, buffer
      ensures Valid() && message == old(message) + data
    {
      hide Absorbed;
      var i := 0;
      while i < |data|
        invariant 0 <= i <= |data| && Valid()
        invariant message == old(message) + data[..i]
      {
        assert old(message) + data[..i + 1] == message + [data[i]];
        Push(data[i]);
        i := i + 1;
      }
      assert data[..i] == data;
    }

    method Push(x: byte)
      requires Valid()
      modifies this, buffer
      ensures Valid() && message == old(message) + [x]
    {
      hide Absorbed;
      ghost var held := buffer[..bufferLength];
      buffer[bufferLength] := x;
      bufferLength := bufferLength + 1;
      assert buffer[..bufferLength] == held + [x];
      if bufferLength == 64 {
        AbsorbBlock(compress, message, state, held, bitLength, x);
        assert buffer[..] == held + [x];
        state := compress(state, buffer[..]);
        bitLength := (bitLength + 512) % TWO64;
        bufferLength := 0;
        assert buffer[..0] == [];
      } else {
        AbsorbHeld(compress, message, state, held, bitLength, x);
      }
      message := message + [x];
    }

    /** `final`: pad, append the length and return the digest. */
    method Final() returns (hash: seq<byte>)
      requires Valid()
      modifies this, buffer
      ensures hash == Hash(compress, old(message))
    {
      hide Absorbed, BigEndian64, Zeros, Digest, Hash;
      ghost var held := buffer[..bufferLength];
      var total := (bitLength + bufferLength * 8) % TWO64;
      if bufferLength <= 55 {
        FinishShort(compress, message, state, held, bitLength);
      } else {
        FinishLong(compress, message, state, held, bitLength);
      }
      buffer[bufferLength] := 0x80;
      var i := bufferLength + 1;
      ghost var left := held + [0x80];
      assert buffer[..i] == left;
      if i > 56 {
        FillZeros(i, 64);
        assert buffer[..] == buffer[..i] + buffer[i..64];
        state := compress(state, buffer[..]);
        i, left := 0, [];
      }
      FillZeros(i, 56);
      WriteLength(total);
      assert buffer[..] == buffer[..i] + buffer[i..56] + buffer[56..];
      assert buffer[..] == left + Zeros(56 - i) + BigEndian64(total);
      assert i == 0 ==> left + Zeros(56) + BigEndian64(total) == Zeros(56) + BigEndian64(total);
      state := compress(state, buffer[..]);
      bitLength := total;
      hash := Digest(state);
    }

    method FillZeros(from: nat, to: nat)
      requires buffer.Length == 64 && from <= to <= 64
      modifies buffer
      ensures buffer[..from] == old(buffer[..from]) && buffer[from..to] == Zeros(to - from)
    {
      var i := from;
      while i < to
        invariant from <= i <= to
        invariant buffer[..from] == old(buffer[..from])
        invariant forall j :: from <= j < i ==> buffer[j] == 0
      {
        buffer[i] := 0;
        i := i + 1;
      }
    }

    method WriteLength(total: nat)
      requires buffer.Length == 64
      modifies buffer
      ensures buffer[..56] == old(buffer[..56]) && buffer[56..] == BigEndian64(total)
    {
      hide ByteAt, BigEndian64;
      var k := 0;
      while k < 8
        invariant 0 <= k <= 8
        invariant buffer[..56] == old(buffer[..56])
        invariant buffer[56..56 + k] == BigEndian64(total)[..k]
      {
        buffer[56 + k] := BigEndian64(total)[k];
        assert buffer[56..56 + (k + 1)] == buffer[56..56 + k] + [BigEndian64(total)[k]];
        k := k + 1;
      }
      assert buffer[56..] == buffer[56..56 + k];
      assert BigEndian64(total)[..k] == BigEndian64(total);
    }
  }

  lemma BitCount(n: nat)
    ensures (8 * n % TWO64 + 512) % TWO64 == 8 * (n + 64) % TWO64
  {
  }

  lemma TotalBits(n: nat, l: nat, bits: nat)
    requires bits == 8 * n % TWO64
    ensures (bits + l * 8) % TWO64 == 8 * (n + l) % TWO64
  {
  }

  /** The padded message, block by block: the tail takes one more block, or two when it is long. */
  lemma PaddedBlocks(done: seq<byte>, tail: seq<byte>)
    requires |done| % 64 == 0 && |tail| < 64
    ensures var len := BigEndian64(8 * (|done| + |tail|) % TWO64);
            Pad(done + tail) ==
              if |tail| + 1 > 56 then done + (tail + [0x80] + Zeros(63 - |tail|)) + (Zeros(56) + len)
              else done + (tail + [0x80] + Zeros(55 - |tail|) + len)
  {
    hide BigEndian64, Zeros, PadZeros;
    PadZerosAfterBlocks(|done|, |tail|);
    if |tail| + 1 > 56 {
      ZerosAppend(63 - |tail|, 56);
    }
  }

  lemma PadZerosAfterBlocks(n: nat, t: nat)
    requires n % 64 == 0 && t < 64
    ensures PadZeros(n + t) == if t + 1 > 56 then 119 - t else 55 - t
  {
    assert (n + t) % 64 == t;
  }

  lemma ZerosAppend(a: nat, b: nat)
    ensures Zeros(a + b) == Zeros(a) + Zeros(b)
  {
  }

  // ---- every way of cutting the input ------------------------------------

  function Flatten(chunks: seq<seq<byte>>): seq<byte> {
    if chunks == [] then [] else Flatten(chunks[..|chunks| - 1]) + chunks[|chunks| - 1]
  }

  /** However the input is cut into `update` calls, the digest is that of the whole. */
  method HashChunks(f: Compression, chunks: seq<seq<byte>>) returns (hash: seq<byte>)
    ensures hash == Hash(f, Flatten(chunks))
  {
    hide Hash, Absorbed;
    var sha := new Sha256(f);
    var i := 0;
    while i < |chunks|
      invariant 0 <= i <= |chunks| && fresh(sha) && fresh(sha.buffer) && sha.compress == f
      invariant sha.Valid() && sha.message == Flatten(chunks[..i])
    {
      sha.Update(chunks[i]);
      assert chunks[..i + 1][..i] == chunks[..i];
      i := i + 1;
    }
    assert chunks[..i] == chunks;
    hash := sha.Final();
  }

  // ---- HMAC (section 2 of RFC 2104) --------------------------------------

  /** The key as one block: hashed first if longer than a block, then filled with zeros. */
  function KeyBlock(f: Compression, key: seq<byte>): (k: seq<byte>)
    ensures |k| == 64
  {
    if |key| > 64 then Hash(f, key) + Zeros(32) else key + Zeros(64 - |key|)
  }

  function XorByte(x: byte, y: byte): byte {
    ((x as bv8) ^ (y as bv8)) as int
  }

  function Xor(k: seq<byte>, pad: byte): (r: seq<byte>)
    ensures |r| == |k|
  {
    seq(|k|, i requires 0 <= i < |k| => XorByte(k[i], pad))
  }

  function Hmac(f: Compression, key: seq<byte>, text: seq<byte>): seq<byte> {
    var k := KeyBlock(f, key);
    Hash(f, Xor(k, 0x5c) + Hash(f, Xor(k, 0x36) + text))
  }

  const DIGITS: string := "0123456789abcdef"

  function HexDigit(n: nat): char {
    if n < 16 then DIGITS[n] else '0'
  }

  function HexByte(x: byte): string {
    [HexDigit(x / 16), HexDigit(x % 16)]
  }

  function Hex(d: seq<byte>): string {
    if d == [] then "" else HexByte(d[0]) + Hex(d[1..])
  }

  method HexDigest(digest: seq<byte>) returns (output: string)
    ensures output == Hex(digest)
  {
    output := "";
    var i := |digest|;
    while i > 0
      invariant 0 <= i <= |digest| && output == Hex(digest[i..])
    {
      i := i - 1;
      assert digest[i..][1..] == digest[i + 1..];
      output := HexByte(digest[i]) + output;
    }
  }

  method Compute(f: Compression, x: seq<byte>, y: seq<byte>) returns (hash: seq<byte>)
    ensures hash == Hash(f, x + y)
  {
    hide Hash, Absorbed;
    var sha := new Sha256(f);
    sha.Update(x);
    sha.Update(y);
    assert sha.message == x + y;
    hash := sha.Final();
  }

  /** The key, or its digest when it is long, at the start of a block of zeros. */
  method FillKeyBlock(f: Compression, key: seq<byte>) returns (keyBlock: array<byte>)
    ensures fresh(keyBlock) && keyBlock[..] == KeyBlock(f, key)
  {
    hide Hash;
    keyBlock := new byte[64](_ => 0);
    var material := key;
    if |key| > 64 {
      material := Compute(f, key, []);
      assert key + [] == key;
    }
    var i := 0;
    while i < |material|
      invariant 0 <= i <= |material| <= 64
      invariant keyBlock[..i] == material[..i] && forall j :: i <= j < 64 ==> keyBlock[j] == 0
    {
      keyBlock[i] := material[i];
      i := i + 1;
    }
  }

  /** Both pads at once. */
  method FillPads(keyBlock: array<byte>) returns (inner: array<byte>, outer: array<byte>)
    requires keyBlock.Length == 64
    ensures inner[..] == Xor(keyBlock[..], 0x36) && outer[..] == Xor(keyBlock[..], 0x5c)
  {
    hide XorByte;
    inner, outer := new byte[64], new byte[64];
    var i := 0;
    while i < 64
      invariant 0 <= i <= 64
      invariant forall j :: 0 <= j < i ==> (inner[j] == XorByte(keyBlock[j], 0x36)
          && outer[j] == XorByte(keyBlock[j], 0x5c))
    {
      inner[i] := XorByte(keyBlock[i], 0x36);
      outer[i] := XorByte(keyBlock[i], 0x5c);
      i := i + 1;
    }
  }

  /** `hmac_sha256` */
  method HmacSha256(f: Compression, key: seq<byte>, message: seq<byte>) returns (hex: string)
    ensures hex == Hex(Hmac(f, key, message))
  {
    hide Hash, Xor, Hex, KeyBlock;
    var keyBlock := FillKeyBlock(f, key);
    KeyBlockLength(f, key);
    var inner, outer := FillPads(keyBlock);
    var innerDigest := Compute(f, inner[..], message);
    var digest := Compute(f, outer[..], innerDigest);
    hex := HexDigest(digest);
  }

  lemma KeyBlockLength(f: Compression, key: seq<byte>)
    ensures |KeyBlock(f, key)| == 64
  {
    hide Hash;
  }
}
