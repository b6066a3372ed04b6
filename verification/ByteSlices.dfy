/** Byte slices, digests and the bit-level helpers of collection/byteslice.go. */
module ByteSlices {

  type Byte = x: int | 0 <= x < 256

  type Bytes = seq<Byte>

  /** A 32-byte SHA-256 digest; it doubles as a node label and as a path. */
  type Digest = d: Bytes | |d| == 32 witness seq(32, _ => 0)

  /** The all-zero array of 32 bytes, Go's zero value of a label. */
  function Zero(): Digest {
    seq(32, _ => 0)
  }

  /** The number of steps a digest can describe. */
  const BITS := 256

  function Pow2(n: nat): (p: nat)
    ensures p > 0
  {
    if n == 0 then 1 else 2 * Pow2(n - 1)
  }

  /** The n-th least significant bit of a number. */
  predicate LowBit(b: nat, n: nat)
    decreases n
  {
    if n == 0 then b % 2 == 1 else LowBit(b / 2, n - 1)
  }

  /** The number with its n-th least significant bit forced, the others kept. */
  function WithLowBit(b: nat, n: nat, value: bool): (r: nat)
    decreases n
  {
    if n == 0 then 2 * (b / 2) + (if value then 1 else 0) else 2 * WithLowBit(b / 2, n - 1, value) + b % 2
  }

  lemma {:induction false} WithLowBitSets(b: nat, n: nat, value: bool, j: nat)
    ensures LowBit(WithLowBit(b, n, value), j) == if j == n then value else LowBit(b, j)
    decreases n
  {
    if n > 0 && j > 0 {
      WithLowBitSets(b / 2, n - 1, value, j - 1);
    }
  }

  lemma {:induction false} WithLowBitFits(b: nat, n: nat, value: bool, w: nat)
    requires n < w && b < Pow2(w)
    ensures WithLowBit(b, n, value) < Pow2(w)
    decreases n
  {
    if n > 0 {
      WithLowBitFits(b / 2, n - 1, value, w - 1);
    }
  }

  lemma {:induction false} LowBitsDetermine(a: nat, b: nat, w: nat)
    requires a < Pow2(w) && b < Pow2(w)
    requires forall n: nat | n < w :: LowBit(a, n) == LowBit(b, n)
    ensures a == b
    decreases w
  {
    if w > 0 {
      assert LowBit(a, 0) == LowBit(b, 0);
      forall n: nat | n < w - 1
        ensures LowBit(a / 2, n) == LowBit(b / 2, n)
      {
        assert LowBit(a, n + 1) == LowBit(b, n + 1);
      }
      LowBitsDetermine(a / 2, b / 2, w - 1);
    }
  }

  /** Bit `index` of the buffer, most significant bit of byte 0 first. */
  predicate Bit(buffer: Bytes, index: nat)
    requires index < 8 * |buffer|
  {
    LowBit(buffer[index / 8], 7 - index % 8)
  }

  /** The number that a bit string denotes, its last bit the least significant. */
  function Binary(bits: seq<bool>): nat {
    if bits == [] then 0 else 2 * Binary(bits[..|bits| - 1]) + if bits[|bits| - 1] then 1 else 0
  }

  lemma {:induction false} BinaryDigits(b: nat, bits: seq<bool>)
    requires b < Pow2(|bits|) && forall i | 0 <= i < |bits| :: bits[i] == LowBit(b, |bits| - 1 - i)
    ensures Binary(bits) == b
    decreases |bits|
  {
    if bits != [] {
      var n := |bits| - 1;
      forall i | 0 <= i < n
        ensures bits[..n][i] == LowBit(b / 2, n - 1 - i)
      {
        assert bits[i] == LowBit(b, n - i);
      }
      assert bits[n] == LowBit(b, 0);
      BinaryDigits(b / 2, bits[..n]);
    }
  }

  /** The eight bits of a byte, in the order in which `bit` counts them, spell the byte from its most
      significant digit on. */
  lemma BitsOfByte(buffer: Bytes, k: nat)
    requires k < |buffer|
    ensures Binary(seq(8, j requires 0 <= j < 8 => Bit(buffer, 8 * k + j))) == buffer[k]
  {
    var bits := seq(8, j requires 0 <= j < 8 => Bit(buffer, 8 * k + j));
    forall j | 0 <= j < 8
      ensures bits[j] == LowBit(buffer[k], 7 - j)
    {
      var i: nat := 8 * k + j;
      assert i / 8 == k && i % 8 == j && bits[j] == Bit(buffer, i);
    }
    assert Pow2(8) == 256;
    BinaryDigits(buffer[k], bits);
  }

  /** The buffer `setbit` leaves behind. */
  function SetBit(buffer: Bytes, index: nat, value: bool): (r: Bytes)
    requires index < 8 * |buffer|
    ensures |r| == |buffer|
  {
    var b, n := buffer[index / 8], 7 - index % 8;
    WithLowBitFits(b, n, value, 8);
    assert Pow2(8) == 256;
    buffer[index / 8 := WithLowBit(b, n, value)]
  }

  /** Writing one bit changes that bit and no other. */
  lemma SetBitSets(buffer: Bytes, index: nat, value: bool, j: nat)
    requires index < 8 * |buffer| && j < 8 * |buffer|
    ensures Bit(SetBit(buffer, index, value), j) == if j == index then value else Bit(buffer, j)
  {
    WithLowBitSets(buffer[index / 8], 7 - index % 8, value, 7 - j % 8);
  }

  /** `setbit` on the caller's buffer. */
  method WriteBit(buffer: array<Byte>, index: nat, value: bool)
    requires index < 8 * buffer.Length
    modifies buffer
    ensures buffer[..] == SetBit(old(buffer[..]), index, value)
  {
    WithLowBitFits(buffer[index / 8], 7 - index % 8, value, 8);
    assert Pow2(8) == 256;
    buffer[index / 8] := WithLowBit(buffer[index / 8], 7 - index % 8, value);
  }

  /** The two buffers agree on their first `bits` bits. */
  ghost predicate SamePrefix(lho: Bytes, rho: Bytes, bits: int)
    requires bits <= 8 * |lho| && bits <= 8 * |rho|
  {
    forall i: nat | i < bits :: Bit(lho, i) == Bit(rho, i)
  }

  lemma ByteBits(lho: Bytes, rho: Bytes, k: nat)
    requires k < |lho| && k < |rho|
    ensures lho[k] == rho[k] <==> forall i: nat | 8 * k <= i < 8 * k + 8 :: Bit(lho, i) == Bit(rho, i)
  {
    assert Pow2(8) == 256;
    if forall i: nat | 8 * k <= i < 8 * k + 8 :: Bit(lho, i) == Bit(rho, i) {
      forall n: nat | n < 8
        ensures LowBit(lho[k], n) == LowBit(rho[k], n)
      {
        var i := 8 * k + (7 - n);
        assert i / 8 == k && i % 8 == 7 - n;
        assert Bit(lho, i) == Bit(rho, i);
      }
      LowBitsDetermine(lho[k], rho[k], 8);
    }
  }

  /** Two digests that agree bit by bit are equal. */
  lemma DigestFromBits(a: Digest, b: Digest)
    requires SamePrefix(a, b, BITS)
    ensures a == b
  {
    forall k: nat | k < 32
      ensures a[k] == b[k]
    {
      ByteBits(a, b, k);
    }
  }

  method EqualSlices(lho: Bytes, rho: Bytes) returns (same: bool)
    ensures same <==> lho == rho
  {
    if |lho| != |rho| {
      return false;
    }
    for index := 0 to |lho|
      invariant lho[..index] == rho[..index]
    {
      if lho[index] != rho[index] {
        return false;
      }
    }
    return true;
  }

  /** `match`: whole bytes while at least nine bits remain, single bits after that. */
  method Match(lho: Bytes, rho: Bytes, bits: int) returns (same: bool)
    requires bits <= 8 * |lho| && bits <= 8 * |rho|
    ensures same <==> SamePrefix(lho, rho, bits)
  {
    var index := 0;
    while index < bits
      invariant 0 <= index && (index <= bits || bits < 0)
      invariant index < bits - 8 ==> index % 8 == 0
      invariant bits >= 0 ==> SamePrefix(lho, rho, index)
    {
      if index < bits - 8 {
        ByteBits(lho, rho, index / 8);
        if lho[index / 8] != rho[index / 8] {
          return false;
        }
        index := index + 8;
      } else {
        if Bit(lho, index) != Bit(rho, index) {
          return false;
        }
        index := index + 1;
      }
    }
    return true;
  }
}
