/** Bytes, little-endian fields and 8-byte padding. */
module Bytes {

  type Byte = b: int | 0 <= b < 256

  const TWO16: nat := 0x1_0000
  const TWO32: nat := 0x1_0000_0000

  type U16 = x: nat | x < TWO16
  type U32 = x: nat | x < TWO32

  function Zeros(n: nat): (z: seq<Byte>)
    ensures |z| == n
  {
    seq(n, _ => 0)
  }

  function Put16(x: U16): (b: seq<Byte>)
    ensures |b| == 2
  {
    [x % 256, x / 256]
  }

  function Put32(x: U32): (b: seq<Byte>)
    ensures |b| == 4
  {
    Put16(x % TWO16) + Put16(x / TWO16)
  }

  function At(s: seq<Byte>, i: nat): int
    requires i < |s|
  {
    s[i]
  }

  function Get16(s: seq<Byte>, at: nat): U16
    requires at + 2 <= |s|
  {
    At(s, at) + At(s, at + 1) * 256
  }

  function Get32(s: seq<Byte>, at: nat): U32
    requires at + 4 <= |s|
  {
    Get16(s, at) as int + Get16(s, at + 2) as int * TWO16
  }

  lemma Get16Put16(s: seq<Byte>, at: nat, x: U16)
    requires at + 2 <= |s| && s[at..at + 2] == Put16(x)
    ensures Get16(s, at) == x
  {
    assert s[at] == s[at..at + 2][0] && s[at + 1] == s[at..at + 2][1];
  }

  lemma Get32Put32(s: seq<Byte>, at: nat, x: U32)
    requires at + 4 <= |s| && s[at..at + 4] == Put32(x)
    ensures Get32(s, at) == x
  {
    assert s[at..at + 2] == s[at..at + 4][..2] && s[at + 2..at + 4] == s[at..at + 4][2..];
    Get16Put16(s, at, x % TWO16);
    Get16Put16(s, at + 2, x / TWO16);
  }

  /** Fields are read with the least significant byte first. */
  lemma LittleEndian(s: seq<Byte>, at: nat)
    requires at + 2 <= |s|
    ensures Get16(s, at) == s[at] as int + s[at + 1] as int * 0x100
    ensures at + 4 <= |s| ==>
      Get32(s, at) == s[at] as int + s[at + 1] as int * 0x100 + s[at + 2] as int * 0x1_0000 + s[at + 3] as int * 0x100_0000
  {
  }

  /** Fields of a message do not depend on what follows. */
  lemma GetInPrefix(head: seq<Byte>, tail: seq<Byte>, at: nat)
    requires at + 2 <= |head|
    ensures Get16(head + tail, at) == Get16(head, at)
    ensures at + 4 <= |head| ==> Get32(head + tail, at) == Get32(head, at)
  {
  }

  /** The next multiple of eight. */
  function PadTo8(n: nat): (r: nat)
    ensures r % 8 == 0 && n <= r < n + 8
  {
    if n % 8 != 0 then n + 8 - n % 8 else n
  }

  /** Overwrite a 32-bit field. */
  function PatchAt(buf: seq<Byte>, at: nat, x: U32): (r: seq<Byte>)
    requires at + 4 <= |buf|
    ensures |r| == |buf|
  {
    buf[..at] + Put32(x) + buf[at + 4..]
  }

  /** Overwrite a 16-bit field. */
  function Patch16At(buf: seq<Byte>, at: nat, x: U16): (r: seq<Byte>)
    requires at + 2 <= |buf|
    ensures |r| == |buf|
  {
    buf[..at] + Put16(x) + buf[at + 2..]
  }

  function Concat(parts: seq<seq<Byte>>): seq<Byte> {
    if parts == [] then [] else Concat(parts[..|parts| - 1]) + parts[|parts| - 1]
  }

  lemma {:induction false} ConcatFront(first: seq<Byte>, parts: seq<seq<Byte>>)
    ensures Concat([first] + parts) == first + Concat(parts)
  {
    if parts == [] {
      assert [first] + parts == [first] && [first][..0] == [];
      assert Concat([first]) == Concat([]) + first == first;
    } else {
      var all := [first] + parts;
      assert all[..|all| - 1] == [first] + parts[..|parts| - 1];
      ConcatFront(first, parts[..|parts| - 1]);
      assert first + Concat(parts[..|parts| - 1]) + parts[|parts| - 1] == first + Concat(parts);
    }
  }
}
