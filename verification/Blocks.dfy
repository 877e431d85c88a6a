/** Sixteen-byte blocks, exclusive or, and CBC chaining over an arbitrary block
    function. */
module Blocks {

  const BS: nat := 16

  /** A block function: sixteen bytes to sixteen bytes, nothing else assumed. */
  type Cipher = seq<bv8> -> seq<bv8>

  ghost predicate IsCipher(e: Cipher) { forall b :: |b| == BS ==> |e(b)| == BS }

  function Zero(n: nat): (z: seq<bv8>)
    ensures |z| == n
  {
    seq(n, _ => 0)
  }

  function Xor(a: seq<bv8>, b: seq<bv8>): (r: seq<bv8>)
    requires |a| == |b|
    ensures |r| == |a|
  {
    seq(|a|, i requires 0 <= i < |a| => a[i] ^ b[i])
  }

  lemma XorTwice(a: seq<bv8>, b: seq<bv8>)
    requires |a| == |b|
    ensures Xor(Xor(a, b), b) == a
  {
    forall i | 0 <= i < |a| ensures Xor(Xor(a, b), b)[i] == a[i] { }
  }

  lemma XorZero(a: seq<bv8>)
    ensures Xor(Zero(|a|), a) == a
  {
    forall i | 0 <= i < |a| ensures Xor(Zero(|a|), a)[i] == a[i] { }
  }

  /** A whole number of blocks. */
  predicate Whole(s: seq<bv8>) { |s| % BS == 0 }

  lemma WholeSum(a: seq<bv8>, b: seq<bv8>)
    requires Whole(a) && Whole(b)
    ensures Whole(a + b)
  {
  }

  lemma WholeLast(s: seq<bv8>)
    requires Whole(s) && s != []
    ensures |s| >= BS && Whole(s[..|s| - BS])
  {
  }

  /** The last chaining value of CBC encryption from iv. */
  function Chained(e: Cipher, iv: seq<bv8>, data: seq<bv8>): (x: seq<bv8>)
    requires IsCipher(e) && |iv| == BS && Whole(data)
    ensures |x| == BS
  {
    if data == [] then iv else e(Xor(Chained(e, iv, data[..|data| - BS]), data[|data| - BS..]))
  }

  /** The ciphertext of CBC encryption from iv. */
  function CbcText(e: Cipher, iv: seq<bv8>, data: seq<bv8>): (c: seq<bv8>)
    requires IsCipher(e) && |iv| == BS && Whole(data)
    ensures |c| == |data|
  {
    if data == [] then [] else CbcText(e, iv, data[..|data| - BS]) + Chained(e, iv, data)
  }

  lemma OneBlock(e: Cipher, iv: seq<bv8>, b: seq<bv8>)
    requires IsCipher(e) && |iv| == BS && |b| == BS
    ensures Whole(b) && Chained(e, iv, b) == e(Xor(iv, b))
  {
    assert b[..0] == [] && b[0..] == b;
  }

  /** Chaining in pieces is chaining in one go. */
  lemma {:induction false} ChainedInPieces(e: Cipher, iv: seq<bv8>, a: seq<bv8>, b: seq<bv8>)
    requires IsCipher(e) && |iv| == BS && Whole(a) && Whole(b)
    ensures Whole(a + b) && Chained(e, iv, a + b) == Chained(e, Chained(e, iv, a), b)
    decreases |b|
  {
    if b == [] {
      assert a + b == a;
    } else {
      WholeSum(a, b);
      WholeLast(b);
      hide Whole;
      var front, last := b[..|b| - BS], b[|b| - BS..];
      ChainedInPieces(e, iv, a, front);
      assert (a + b)[..|a + b| - BS] == a + front && (a + b)[|a + b| - BS..] == last;
    }
  }

  /** Zero bytes up to the next block boundary. */
  function Pad16(s: seq<bv8>): (p: seq<bv8>)
    ensures Whole(p) && |s| <= |p| < |s| + BS
  {
    s + Zero((BS - |s| % BS) % BS)
  }

  /** A number below 256 as a byte, bit by bit. */
  function ToByte(x: nat): bv8
    requires x < 256
  {
    if x == 0 then 0 else (ToByte(x / 2) << 1) | (if x % 2 == 1 then 1 else 0)
  }

  /** x in n bytes, most significant first. */
  function BigEndian(x: nat, n: nat): (s: seq<bv8>)
    ensures |s| == n
  {
    if n == 0 then [] else BigEndian(x / 256, n - 1) + [ToByte(x % 256)]
  }

  /** The number that bytes spell, most significant first. */
  function Number(s: seq<bv8>): nat {
    if s == [] then 0 else Number(s[..|s| - 1]) * 256 + s[|s| - 1] as int
  }

  function Power(n: nat): (p: nat)
    ensures p > 0
  {
    if n == 0 then 1 else Power(n - 1) * 256
  }

  lemma {:induction false} NumberBound(s: seq<bv8>)
    ensures Number(s) < Power(|s|)
  {
    if s != [] { NumberBound(s[..|s| - 1]); }
  }

  lemma NumberLast(s: seq<bv8>, last: bv8)
    ensures Number(s + [last]) == Number(s) * 256 + last as int
  {
    assert (s + [last])[..|s|] == s;
  }

  /** x in n bytes spells x, as far as n bytes go. */
  lemma {:induction false} BigEndianSpells(x: nat, n: nat)
    requires x < Power(n)
    ensures Number(BigEndian(x, n)) == x
  {
    if n > 0 {
      assert x / 256 < Power(n - 1);
      BigEndianSpells(x / 256, n - 1);
      NumberLast(BigEndian(x / 256, n - 1), ToByte(x % 256));
      ByteSpells(x % 256);
    }
  }

  lemma {:induction false} ByteSpells(x: nat)
    requires x < 256
    ensures ToByte(x) as int == x
  {
    if x > 0 {
      ByteSpells(x / 2);
      ShiftByte(ToByte(x / 2), if x % 2 == 1 then 1 else 0);
    }
  }

  /** Shifting a byte by one doubles it, with a carry in and a carry out. */
  lemma ShiftByte(b: bv8, carry: bv8)
    requires carry <= 1
    ensures b >> 7 <= 1 && (b & 0x80 != 0 <==> b >> 7 == 1)
    ensures (b >> 7) as int * 256 + ((b << 1) | carry) as int == b as int * 2 + carry as int
  {
  }

  lemma FourBytes()
    ensures Power(2) == 0x1_0000 && Power(4) == 0x1_0000_0000
  {
    assert Power(1) == 256;
    assert Power(2) == Power(1) * 256;
    assert Power(3) == Power(2) * 256;
  }

  method XorInto(mac: array<bv8>, block: seq<bv8>)
    requires mac.Length == BS == |block|
    modifies mac
    ensures mac[..] == Xor(old(mac[..]), block)
  {
    for i := 0 to BS
      invariant forall j :: 0 <= j < i ==> mac[j] == old(mac[j]) ^ block[j]
      invariant forall j :: i <= j < BS ==> mac[j] == old(mac[j])
    {
      mac[i] := mac[i] ^ block[i];
    }
  }

  method Put(dst: array<bv8>, at: nat, src: seq<bv8>)
    requires at + |src| <= dst.Length
    modifies dst
    ensures dst[..] == old(dst[..at]) + src + old(dst[at + |src|..])
  {
    for i := 0 to |src|
      invariant forall j :: 0 <= j < i ==> dst[at + j] == src[j]
      invariant forall j :: (0 <= j < at || at + i <= j < dst.Length) ==> dst[j] == old(dst[j])
    {
      dst[at + i] := src[i];
    }
  }

  /** One step of the chain, in place. */
  method Absorb(e: Cipher, mac: array<bv8>, block: seq<bv8>)
    requires IsCipher(e) && mac.Length == BS == |block|
    modifies mac
    ensures mac[..] == e(Xor(old(mac[..]), block))
  {
    XorInto(mac, block);
    Put(mac, 0, e(mac[..]));
    assert mac[..] == e(Xor(old(mac[..]), block));
  }

  /** CBC over the blocks of data one by one, the chaining value in place. */
  method AbsorbAll(e: Cipher, mac: array<bv8>, data: seq<bv8>)
    requires IsCipher(e) && mac.Length == BS && Whole(data)
    modifies mac
    ensures mac[..] == Chained(e, old(mac[..]), data)
  {
    var off := 0;
    NextBlock(data, 0);
    while off < |data|
      invariant 0 <= off <= |data| && Whole(data[..off])
      invariant off < |data| ==> off + BS <= |data|
      invariant mac[..] == Chained(e, old(mac[..]), data[..off])
    {
      hide Whole, Chained;
      ghost var before, block := mac[..], data[off..off + BS];
      NextBlock(data, off);
      Absorb(e, mac, data[off..off + BS]);
      OneBlock(e, before, block);
      ChainedInPieces(e, old(mac[..]), data[..off], block);
      NextBlock(data, off + BS);
      off := off + BS;
    }
    assert data[..off] == data;
  }

  lemma NextBlock(data: seq<bv8>, off: nat)
    requires Whole(data) && off <= |data| && Whole(data[..off])
    ensures off < |data| ==> off + BS <= |data| && data[..off] + data[off..off + BS] == data[..off + BS] && Whole(data[..off + BS])
  {
  }
}
