/** CMAC over an arbitrary block function: the chunked computation with one
    reused scratch buffer against the one-pass algorithm of RFC 4493. */
module Cmac {
  import opened Blocks

  const CHUNK: nat := 4096

  // ---- doubling, section 2.3 of RFC 4493 ----

  /** Shift left by one bit: the carry comes in at the right, and the bit pushed
      out at the left makes one more byte. */
  function Shifted(s: seq<bv8>, carry: bv8): (r: seq<bv8>)
    ensures |r| == |s| + 1
  {
    if s == [] then [carry] else Shifted(s[..|s| - 1], s[|s| - 1] >> 7) + [(s[|s| - 1] << 1) | carry]
  }

  lemma {:induction false} ShiftedDoubles(s: seq<bv8>, carry: bv8)
    requires carry <= 1
    ensures Number(Shifted(s, carry)) == Number(s) * 2 + carry as int
  {
    if s == [] {
      assert [carry][..0] == [];
    } else {
      var front, last := s[..|s| - 1], s[|s| - 1];
      ShiftByte(last, carry);
      ShiftedDoubles(front, last >> 7);
      assert Shifted(s, carry)[..|s|] == Shifted(front, last >> 7);
    }
  }

  lemma Distribute(t: nat, p: nat, n: nat, b: nat)
    ensures (t * p + n) * 256 + b == t * (p * 256) + (n * 256 + b)
  {
  }

  lemma {:induction false} NumberLead(top: bv8, s: seq<bv8>)
    ensures Number([top] + s) == top as int * Power(|s|) + Number(s)
  {
    if s == [] {
      NumberLast([], top);
      assert [top] + s == [] + [top];
    } else {
      var front, last := s[..|s| - 1], s[|s| - 1];
      NumberLead(top, front);
      assert [top] + s == ([top] + front) + [last] && s == front + [last];
      NumberLast([top] + front, last);
      NumberLast(front, last);
      assert Power(|s|) == Power(|front|) * 256;
      hide Number, Power;
      Distribute(top as int, Power(|front|), Number(front), last as int);
    }
  }

  /** Dropping the byte that was pushed out reduces modulo 2^128. */
  lemma LeadFallsOut(top: bv8, s: seq<bv8>)
    ensures Number([top] + s) % Power(|s|) == Number(s)
  {
    NumberLead(top, s);
    NumberBound(s);
    Remainder(top as int, Power(|s|), Number(s));
  }

  lemma Remainder(t: nat, p: nat, r: nat)
    requires r < p
    ensures (t * p + r) % p == r
  {
    assert t * p + r == p * t + r;
    var q := (t * p + r) / p;
    assert q == t by {
      if q < t { Below(q + 1, t, p); } else if q > t { Below(t + 1, q, p); }
    }
  }

  lemma Below(a: nat, b: nat, p: nat)
    requires a <= b
    ensures a * p <= b * p
  {
  }

  /** leftShift: from the last byte to the first, carrying one bit. The result is
      twice the input, modulo 2^128. */
  method LeftShift(input: seq<bv8>) returns (out: array<bv8>)
    requires |input| == BS
    ensures fresh(out) && out.Length == BS && out[..] == Shifted(input, 0)[1..]
    ensures Number(out[..]) == Number(input) * 2 % Power(BS)
  {
    hide Number, Power, Shifted;
    out := new bv8[BS](_ => 0);
    var overflow: bv8 := 0;
    assert input[..BS] == input && out[BS..] == [];
    for i := BS downto 0
      invariant overflow <= 1
      invariant Shifted(input[..i], overflow) + out[i..] == Shifted(input, 0)
    {
      ShiftByte(input[i], overflow);
      ghost var rest := out[i + 1..];
      out[i] := (input[i] << 1) | overflow;
      assert out[i + 1..] == rest;
      assert out[i..] == [out[i]] + out[i + 1..];
      ShiftStep(input, i, overflow, rest);
      overflow := if input[i] & 0x80 != 0 then 1 else 0;
    }
    assert input[..0] == [] && out[0..] == out[..];
    ghost var all := Shifted(input, 0);
    assert all[1..] == out[..] && all == [all[0]] + out[..];
    ShiftedDoubles(input, 0);
    LeadFallsOut(all[0], out[..]);
  }

  lemma ShiftStep(s: seq<bv8>, i: nat, carry: bv8, rest: seq<bv8>)
    requires i < |s|
    ensures Shifted(s[..i + 1], carry) + rest == Shifted(s[..i], s[i] >> 7) + ([(s[i] << 1) | carry] + rest)
  {
    assert s[..i + 1][..i] == s[..i];
  }

  // ---- the algorithm of sections 2.3 and 2.4 of RFC 4493 ----

  const RB: bv8 := 0x87

  function Double(x: seq<bv8>): (r: seq<bv8>)
    requires |x| == BS
    ensures |r| == BS
  {
    var shifted := Shifted(x, 0)[1..];
    if x[0] & 0x80 == 0 then shifted else Xor(shifted, Zero(BS - 1) + [RB])
  }

  function Subkeys(e: Cipher): (k: (seq<bv8>, seq<bv8>))
    requires IsCipher(e)
    ensures |k.0| == BS && |k.1| == BS
  {
    var k1 := Double(e(Zero(BS)));
    (k1, Double(k1))
  }

  /** A one bit and zeros to the end of the block. */
  function Filled(rest: seq<bv8>): (b: seq<bv8>)
    requires |rest| < BS
    ensures |b| == BS
  {
    rest + [0x80] + Zero(BS - 1 - |rest|)
  }

  /** The number of blocks; the empty message has one. */
  function BlockCount(length: nat): nat { if length == 0 then 1 else (length + BS - 1) / BS }

  lemma BlockCountFits(length: nat)
    ensures BlockCount(length) >= 1
    ensures var split := (BlockCount(length) - 1) * BS;
      split <= length && length - split <= BS && split % BS == 0
      && (length - split == BS <==> length > 0 && length % BS == 0)
  {
    if length > 0 {
      var n := (length + BS - 1) / BS;
      assert n * BS <= length + BS - 1 < n * BS + BS;
      var q := length / BS;
      assert q * BS <= length < q * BS + BS;
    }
  }

  function OnePass(e: Cipher, msg: seq<bv8>): (tag: seq<bv8>)
    requires IsCipher(e)
    ensures |tag| == BS
  {
    BlockCountFits(|msg|);
    var split := (BlockCount(|msg|) - 1) * BS;
    var last := msg[split..];
    var (k1, k2) := Subkeys(e);
    var masked := if |last| == BS then Xor(last, k1) else Xor(Filled(last), k2);
    e(Xor(masked, Chained(e, Zero(BS), msg[..split])))
  }

  // ---- the code ----

  method CmacSubkeys(e: Cipher) returns (k1: seq<bv8>, k2: seq<bv8>)
    requires IsCipher(e)
    ensures (k1, k2) == Subkeys(e)
  {
    var l := e(Zero(BS));
    k1 := DoubleBlock(l);
    k2 := DoubleBlock(k1);
  }

  method DoubleBlock(x: seq<bv8>) returns (r: seq<bv8>)
    requires |x| == BS
    ensures r == Double(x)
  {
    hide Number, Power, Shifted;
    var out := LeftShift(x);
    ghost var shifted := out[..];
    if x[0] & 0x80 != 0 {
      out[15] := out[15] ^ 0x87;
      LastByte(shifted);
      assert out[..] == shifted[..15] + [shifted[15] ^ RB];
    }
    return out[..];
  }

  lemma LastByte(x: seq<bv8>)
    requires |x| == BS
    ensures Xor(x, Zero(BS - 1) + [RB]) == x[..15] + [x[15] ^ RB]
  {
    var got, want := Xor(x, Zero(BS - 1) + [RB]), x[..15] + [x[15] ^ RB];
    forall i | 0 <= i < |got| ensures got[i] == want[i] { }
  }

  /** A CBC encrypter: it carries its chaining value from call to call. */
  class CbcEncrypter {
    const e: Cipher
    var iv: seq<bv8>

    constructor (e: Cipher)
      ensures this.e == e && iv == Zero(BS)
    {
      this.e := e;
      iv := Zero(BS);
    }

    method CryptBlocks(dst: array<bv8>, src: seq<bv8>)
      requires IsCipher(e) && |iv| == BS && Whole(src) && |src| <= dst.Length
      modifies this, dst
      ensures dst[..|src|] == CbcText(e, old(iv), src) && iv == Chained(e, old(iv), src)
    {
      Put(dst, 0, CbcText(e, iv, src));
      iv := Chained(e, iv, src);
    }
  }

  /** The last ciphertext block is the chaining value. */
  lemma CbcLast(e: Cipher, iv: seq<bv8>, data: seq<bv8>)
    requires IsCipher(e) && |iv| == BS && Whole(data) && data != []
    ensures |data| >= BS && CbcText(e, iv, data)[|data| - BS..] == Chained(e, iv, data)
  {
    WholeLast(data);
  }

  /** The prefix in pieces of at most CHUNK bytes through one scratch buffer. */
  method ChainPrefix(e: Cipher, prefix: seq<bv8>) returns (x: array<bv8>)
    requires IsCipher(e) && Whole(prefix)
    ensures fresh(x) && x.Length == BS && x[..] == Chained(e, Zero(BS), prefix)
  {
    x := new bv8[BS](_ => 0);
    assert x[..] == Zero(BS);
    var cbc := new CbcEncrypter(e);
    var scratch := new bv8[CHUNK](_ => 0);
    var off := 0;
    hide Whole, Chained, CbcText, Zero;
    ChunkStart(e);
    assert prefix[..0] == [];
    while off < |prefix|
      invariant 0 <= off <= |prefix| && Whole(prefix[..off])
      invariant cbc.e == e && |cbc.iv| == BS
      invariant x[..] == cbc.iv == Chained(e, Zero(BS), prefix[..off])
      modifies x, cbc, scratch
    {
      var end := if off + CHUNK > |prefix| then |prefix| else off + CHUNK;
      var piece := prefix[off..end];
      NextChunk(prefix, off, end);
      CbcLast(e, cbc.iv, piece);
      cbc.CryptBlocks(scratch, piece);
      assert scratch[..|piece|][|piece| - BS..] == scratch[|piece| - BS..|piece|];
      Put(x, 0, scratch[|piece| - BS..|piece|]);
      ChainedInPieces(e, Zero(BS), prefix[..off], piece);
      off := end;
    }
    assert prefix[..off] == prefix;
  }

  lemma ChunkStart(e: Cipher)
    requires IsCipher(e)
    ensures Whole([]) && Chained(e, Zero(BS), []) == Zero(BS)
  {
  }

  lemma NextChunk(prefix: seq<bv8>, off: nat, end: nat)
    requires Whole(prefix) && off < |prefix| && Whole(prefix[..off])
    requires end == if off + CHUNK > |prefix| then |prefix| else off + CHUNK
    ensures Whole(prefix[off..end]) && prefix[off..end] != []
    ensures prefix[..off] + prefix[off..end] == prefix[..end] && Whole(prefix[..end])
  {
  }

  /** CMAC: for every block function and every message length, including the
      empty message and whole blocks, the chunked form is the one-pass tag. */
  method ComputeCmac(e: Cipher, msg: seq<bv8>) returns (tag: seq<bv8>)
    requires IsCipher(e)
    ensures tag == OnePass(e, msg)
  {
    BlockCountFits(|msg|);
    ghost var split := (BlockCount(|msg|) - 1) * BS;
    hide Chained, Subkeys, Xor, BlockCount;
    var k1, k2 := CmacSubkeys(e);
    var complete := |msg| > 0 && |msg| % BS == 0;
    var prefixLen, last;
    if complete {
      prefixLen := |msg| - BS;
      last := Xor(msg[prefixLen..], k1);
    } else {
      prefixLen := |msg| / BS * BS;
      SameSplit(|msg|, split);
      var rem := msg[prefixLen..];
      var block := new bv8[BS](_ => 0);
      Put(block, 0, rem);
      block[|rem|] := 0x80;
      assert block[..] == Filled(rem);
      last := Xor(block[..], k2);
    }
    assert prefixLen == split;
    var x := ChainPrefix(e, msg[..prefixLen]);
    return e(Xor(last, x[..]));
  }

  lemma SameSplit(length: nat, split: nat)
    requires split <= length && length - split < BS && split % BS == 0
    ensures length / BS * BS == split && length - length / BS * BS < BS
  {
  }
}
