/** Bytes, little-endian 32-bit integers, and overwriting part of a buffer. */
module ByteStrings {

  type byte = x: int | 0 <= x < 256
  type Bytes = seq<byte>

  const U32_LIMIT := 0x1_0000_0000

  type u32 = x: int | 0 <= x < U32_LIMIT

  const U64_LIMIT := 0x1_0000_0000_0000_0000

  type u64 = x: int | 0 <= x < U64_LIMIT

  type i64 = x: int | -0x8000_0000_0000_0000 <= x < 0x8000_0000_0000_0000

  /** The four bytes of `n`, least significant first (`u32::to_le_bytes`). */
  function LittleEndian(n: u32): (b: Bytes)
    ensures |b| == 4
  {
    [n % 0x100, n / 0x100 % 0x100, n / 0x1_0000 % 0x100, n / 0x100_0000]
  }

  /** The integer spelled by four bytes (`u32::from_le_bytes`). */
  function FromLittleEndian(b: Bytes): (n: u32)
    requires |b| == 4
  {
    b[0] as int + 0x100 * (b[1] as int) + 0x1_0000 * (b[2] as int) + 0x100_0000 * (b[3] as int)
  }

  lemma {:induction false} LittleEndianRoundTrip(n: u32)
    ensures FromLittleEndian(LittleEndian(n)) == n
  {
    var high := n / 0x100;
    assert n / 0x1_0000 == high / 0x100;
    assert n / 0x100_0000 == high / 0x100 / 0x100;
  }

  /** `b` with the bytes from `at` on replaced by `data`. */
  function Overwrite(b: Bytes, at: nat, data: Bytes): (r: Bytes)
    requires at + |data| <= |b|
    ensures |r| == |b|
    ensures r[at..at + |data|] == data
    ensures forall i :: 0 <= i < |b| && !(at <= i < at + |data|) ==> r[i] == b[i]
  {
    b[..at] + data + b[at + |data|..]
  }
}
