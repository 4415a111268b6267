/** Bytes, and the small things every module uses. */
module Bytes {
  type Byte = b: int | 0 <= b < 256

  /** The name of an object. */
  type ObjectId = s: seq<Byte> | |s| == 20 witness seq(20, _ => 0)

  datatype Option<+T> = None | Some(value: T)

  function ToBytes(s: string): seq<Byte>
    requires forall k :: 0 <= k < |s| ==> s[k] as int < 256
  {
    seq(|s|, k requires 0 <= k < |s| => s[k] as int)
  }

  predicate IsText(bytes: seq<Byte>, s: string) {
    |bytes| == |s| && forall k :: 0 <= k < |s| ==> bytes[k] == s[k] as int
  }

  /** Words are this many values wide: `u64`, and `usize` wherever it matters. */
  const WORD: nat := 0x1_0000_0000_0000_0000
  const WORD32: nat := 0x1_0000_0000

  const SLASH: Byte := '/' as int
  const DASH: Byte := '-' as int

  function Bit(b: bool): nat { if b then 1 else 0 }

  /** The value of a hexadecimal digit, of either case. */
  function HexValue(b: Byte): (r: Option<nat>)
    ensures r.Some? ==> r.value < 16
  {
    if '0' as int <= b <= '9' as int then Some(b - '0' as int)
    else if 'a' as int <= b <= 'f' as int then Some(b - 'a' as int + 10)
    else if 'A' as int <= b <= 'F' as int then Some(b - 'A' as int + 10)
    else None
  }

  function ToBE32(n: nat): seq<Byte>
    requires n < WORD32
  {
    [n / 0x100_0000, n / 0x1_0000 % 256, n / 256 % 256, n % 256]
  }

  function FromBE32(b: seq<Byte>): nat
    requires |b| == 4
  {
    (b[0] as int) * 0x100_0000 + (b[1] as int) * 0x1_0000 + (b[2] as int) * 256 + b[3]
  }

  lemma BE32Read(n: nat)
    requires n < WORD32
    ensures FromBE32(ToBE32(n)) == n
  {
    assert n / 0x1_0000 == n / 256 / 256 && n / 0x100_0000 == n / 256 / 256 / 256;
  }
}
