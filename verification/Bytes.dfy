/** Bytes, little-endian integers and 32-byte values: the encodings both programs and the host share. */
module Bytes {

  type Byte = x: int | 0 <= x < 256

  /** A 32-byte value: a tree node, an identity commitment, an id. */
  type Hash = s: seq<Byte> | |s| == 32 witness seq(32, _ => 0)

  const ZERO: Hash := ToLE(0, 32)

  const U16_SIZE: nat := 0x1_0000
  const U64_MAX: nat := 0xFFFF_FFFF_FFFF_FFFF
  const U128_MAX: nat := 0xFFFF_FFFF_FFFF_FFFF_FFFF_FFFF_FFFF_FFFF

  type u32 = x: int | 0 <= x <= 0xFFFF_FFFF
  type u64 = x: int | 0 <= x <= U64_MAX
  type u128 = x: int | 0 <= x <= U128_MAX

  /** Rust's `saturating_add` and `saturating_sub` on u64, `saturating_mul` on u128. */
  function SatAdd(a: u64, b: u64): u64 {
    if a + b > U64_MAX then U64_MAX else a + b
  }

  function SatSub(a: u64, b: u64): u64 {
    if a < b then 0 else a - b
  }

  function SatMul(a: u128, b: u64): u128 {
    if a * b > U128_MAX then U128_MAX else assert a * b >= 0; a * b
  }

  function Pow2(n: nat): (r: nat)
    ensures r >= 1
  {
    if n == 0 then 1 else 2 * Pow2(n - 1)
  }

  lemma {:induction false} Pow2Monotone(a: nat, b: nat)
    requires a <= b
    ensures Pow2(a) <= Pow2(b)
  {
    if a < b {
      Pow2Monotone(a, b - 1);
    }
  }

  /** `as u16`: truncation. */
  function AsU16(n: nat): nat {
    n % U16_SIZE
  }

  function U16Bytes(n: nat): (s: seq<Byte>)
    requires n < U16_SIZE
  {
    [n % 256, n / 256]
  }

  function U16At(s: seq<Byte>, at: nat): (n: nat)
    requires at + 2 <= |s|
    ensures n < U16_SIZE
  {
    (s[at] as int) + 256 * (s[at + 1] as int)
  }

  /** The `k` low bytes of `n`, least significant first. */
  function ToLE(n: nat, k: nat): (s: seq<Byte>)
    ensures |s| == k
  {
    if k == 0 then [] else [n % 256] + ToLE(n / 256, k - 1)
  }

  function FromLE(s: seq<Byte>): nat {
    if s == [] then 0 else (s[0] as int) + 256 * FromLE(s[1..])
  }

  function Pow256(k: nat): (r: nat)
    ensures r >= 1
  {
    if k == 0 then 1 else 256 * Pow256(k - 1)
  }

  /** Reading back what was written: the integer survives when it fits its width. */
  lemma {:induction false} LittleEndianRoundTrip(n: nat, k: nat)
    requires n < Pow256(k)
    ensures FromLE(ToLE(n, k)) == n
  {
    if k > 0 {
      LittleEndianRoundTrip(n / 256, k - 1);
      assert ToLE(n, k)[1..] == ToLE(n / 256, k - 1);
    }
  }

  lemma Pow256Of8()
    ensures Pow256(8) == U64_MAX + 1
  {
    assert Pow256(2) == 0x1_0000;
    assert Pow256(4) == 0x1_0000_0000;
    assert Pow256(6) == 0x1_0000_0000_0000;
  }

  lemma U64RoundTrip(n: u64)
    ensures FromLE(ToLE(n, 8)) == n
  {
    Pow256Of8();
    LittleEndianRoundTrip(n, 8);
  }

  lemma {:induction false} ZeroBytes(k: nat, i: nat)
    requires i < k
    ensures ToLE(0, k)[i] == 0
  {
    if i > 0 {
      ZeroBytes(k - 1, i - 1);
    }
  }

  // ---- the bytes of a u64, written out ----

  lemma FourBytes(n: nat, k: nat)
    requires k >= 4
    ensures ToLE(n, k) == [n % 256, n / 256 % 256, n / 256 / 256 % 256, n / 256 / 256 / 256 % 256]
                          + ToLE(n / 256 / 256 / 256 / 256, k - 4)
  {
    assert ToLE(n, k) == [n % 256] + ToLE(n / 256, k - 1);
    assert ToLE(n / 256, k - 1) == [n / 256 % 256] + ToLE(n / 256 / 256, k - 2);
    assert ToLE(n / 256 / 256, k - 2) == [n / 256 / 256 % 256] + ToLE(n / 256 / 256 / 256, k - 3);
    assert ToLE(n / 256 / 256 / 256, k - 3) == [n / 256 / 256 / 256 % 256] + ToLE(n / 256 / 256 / 256 / 256, k - 4);
  }

  lemma Shifts(n: nat)
    ensures n / 256 / 256 == n / 0x1_0000 && n / 0x1_0000 / 256 == n / 0x100_0000
    ensures n / 0x100_0000 / 256 == n / 0x1_0000_0000
  {
  }

  lemma HighShifts(n: nat)
    ensures n / 0x1_0000_0000 / 256 == n / 0x100_0000_0000
    ensures n / 0x1_0000_0000 / 0x1_0000 == n / 0x1_0000_0000_0000
    ensures n / 0x1_0000_0000 / 0x100_0000 == n / 0x100_0000_0000_0000
  {
  }

  lemma EightBytes(n: nat)
    ensures ToLE(n, 8) == [n % 256, n / 0x100 % 256, n / 0x1_0000 % 256, n / 0x100_0000 % 256,
                           n / 0x1_0000_0000 % 256, n / 0x100_0000_0000 % 256,
                           n / 0x1_0000_0000_0000 % 256, n / 0x100_0000_0000_0000 % 256]
  {
    var high := n / 0x1_0000_0000;
    Shifts(n);
    Shifts(high);
    HighShifts(n);
    FourBytes(n, 8);
    FourBytes(high, 4);
    assert ToLE(high, 4) == [high % 256, high / 256 % 256, high / 0x1_0000 % 256, high / 0x100_0000 % 256];
  }
}
