/**
 * Fixed-width unsigned integers and their little-endian byte encoding,
 * as used by `u32::from_le_bytes`, `u64::from_le_bytes`, `u128::from_le_bytes`
 * and the little-endian integers bincode writes.
 */
module Bytes {

  type Byte = b: int | 0 <= b < 0x100
  type U16 = x: int | 0 <= x < 0x1_0000
  type U32 = x: int | 0 <= x < 0x1_0000_0000
  type U64 = x: int | 0 <= x < 0x1_0000_0000_0000_0000
  type U128 = x: int | 0 <= x < 0x1_0000_0000_0000_0000_0000_0000_0000_0000

  /** 256 to the power k: one more than the largest value k bytes can hold. */
  function Pow256(k: nat): (r: nat)
    ensures r >= 1
  {
    if k == 0 then 1 else 0x100 * Pow256(k - 1)
  }

  /** The unsigned integer whose little-endian bytes are `s` (least significant byte first). */
  function FromLE(s: seq<Byte>): (r: nat)
    ensures r < Pow256(|s|)
  {
    if |s| == 0 then 0 else s[0] + 0x100 * FromLE(s[1..])
  }

  /** The `width` little-endian bytes of `n`; `n` must fit in that many bytes. */
  function ToLE(n: nat, width: nat): (r: seq<Byte>)
    requires n < Pow256(width)
    ensures |r| == width
    ensures FromLE(r) == n
  {
    if width == 0 then [] else [n % 0x100] + ToLE(n / 0x100, width - 1)
  }

  /** Encoding a decoded byte string at its own width gives the string back. */
  lemma {:induction false} ToLEFromLE(s: seq<Byte>)
    ensures ToLE(FromLE(s), |s|) == s
  {
    if |s| > 0 {
      ToLEFromLE(s[1..]);
      DivModByte(FromLE(s), FromLE(s[1..]), s[0]);
      assert s == [s[0]] + s[1..];
    }
  }

  /** Splitting a value into its low byte and the rest. */
  lemma DivModByte(a: int, q: int, r: int)
    requires 0 <= r < 0x100 && a == r + 0x100 * q
    ensures a % 0x100 == r && a / 0x100 == q
  {
  }

  /** Zero is all zero bytes at every width. */
  lemma {:induction false} ToLEZero(k: nat)
    ensures ToLE(0, k) == seq(k, _ => 0)
  {
    if k > 0 {
      ToLEZero(k - 1);
    }
  }

  /** Two byte strings of the same width that decode to the same integer are equal. */
  lemma FromLEInjective(a: seq<Byte>, b: seq<Byte>)
    requires |a| == |b|
    requires FromLE(a) == FromLE(b)
    ensures a == b
  {
    ToLEFromLE(a);
    ToLEFromLE(b);
  }

  /** The widths the instruction format uses, written out. */
  lemma Pow256Widths()
    ensures Pow256(1) == 0x100
    ensures Pow256(4) == 0x1_0000_0000
    ensures Pow256(8) == 0x1_0000_0000_0000_0000
    ensures Pow256(16) == 0x1_0000_0000_0000_0000_0000_0000_0000_0000
  {
  }

  /** `u32::from_le_bytes`. */
  function U32FromLE(s: seq<Byte>): (r: U32)
    requires |s| == 4
    ensures r == FromLE(s)
  {
    Pow256Widths();
    FromLE(s)
  }

  /** `u64::from_le_bytes`. */
  function U64FromLE(s: seq<Byte>): (r: U64)
    requires |s| == 8
    ensures r == FromLE(s)
  {
    Pow256Widths();
    FromLE(s)
  }

  /** `u128::from_le_bytes`. */
  function U128FromLE(s: seq<Byte>): (r: U128)
    requires |s| == 16
    ensures r == FromLE(s)
  {
    Pow256Widths();
    FromLE(s)
  }
}
