/** CCM as SMB3 uses it: an 11-byte nonce, a 16-byte tag and 4-byte lengths, over
    an arbitrary block function. The section numbers are those of NIST SP
    800-38C. */
module Ccm {
  import opened Seqs
  import opened Blocks

  const NONCE_SIZE: nat := 11
  const TAG_SIZE: nat := 16
  const TWO32: nat := 0x1_0000_0000
  const TWO16: nat := 0x1_0000

  // ---- the formatting of appendix A.2 ----

  /** A.2.1: the flags octet from the presence of associated data, the tag length
      and the size of the length field. */
  function Flags(hasAad: bool): bv8 { ((if hasAad then 64 else 0) + 8 * ((TAG_SIZE - 2) / 2) + (4 - 1)) as bv8 }

  function B0(nonce: seq<bv8>, hasAad: bool, length: nat): (b: seq<bv8>)
    requires |nonce| == NONCE_SIZE
    ensures |b| == BS && Whole(b)
  {
    [Flags(hasAad)] + nonce + BigEndian(length, 4)
  }

  /** A.2.2: how the length of the associated data is encoded. */
  function AadLength(a: nat): seq<bv8> {
    if a < 0xFF00 then BigEndian(a, 2)
    else if a < TWO32 then [0xFF, 0xFE] + BigEndian(a, 4)
    else [0xFF, 0xFF] + BigEndian(a, 8)
  }

  /** The blocks that the tag authenticates: section 6.1, step 1. */
  function Formatted(nonce: seq<bv8>, text: seq<bv8>, aad: seq<bv8>): (b: seq<bv8>)
    requires |nonce| == NONCE_SIZE && |text| < TWO32
    ensures Whole(b)
  {
    Joined(nonce, text, aad, if aad == [] then [] else Pad16(AadLength(|aad|) + aad))
  }

  function Joined(nonce: seq<bv8>, text: seq<bv8>, aad: seq<bv8>, aadBlocks: seq<bv8>): (b: seq<bv8>)
    requires |nonce| == NONCE_SIZE && Whole(aadBlocks)
    ensures Whole(b)
  {
    var first, text' := B0(nonce, aad != [], |text|), Pad16(text);
    WholeSum(first, aadBlocks);
    WholeSum(first + aadBlocks, text');
    first + aadBlocks + text'
  }

  // ---- what the code computes ----

  /** The code's own length octets, cut to the widths it writes. */
  function AadLengthBytes(a: nat): seq<bv8> {
    if a < 0xFF00 then BigEndian(a, 2) else [0xFF, 0xFE] + BigEndian(a, 4)
  }

  function AadBlocks(aad: seq<bv8>): (b: seq<bv8>)
    ensures Whole(b)
  {
    if aad == [] then [] else Pad16(AadLengthBytes(|aad|) + aad)
  }

  /** One CBC-MAC over the blocks the code forms. */
  function Mac(e: Cipher, nonce: seq<bv8>, text: seq<bv8>, aad: seq<bv8>): (t: seq<bv8>)
    requires IsCipher(e) && |nonce| == NONCE_SIZE
    ensures |t| == BS
  {
    Chained(e, Zero(BS), Joined(nonce, text, aad, AadBlocks(aad)))
  }

  /** Within the 4-byte length fields the tag is the CBC-MAC of section 6.1, steps
      2 to 4, over the formatted blocks. */
  lemma MacIsStandard(e: Cipher, nonce: seq<bv8>, text: seq<bv8>, aad: seq<bv8>)
    requires IsCipher(e) && |nonce| == NONCE_SIZE && |text| < TWO32 && |aad| < TWO32
    ensures Mac(e, nonce, text, aad) == Chained(e, Zero(BS), Formatted(nonce, text, aad))
  {
    AadLengthExactly(|aad|);
  }

  /** The code's encoding of the length is the standard one exactly below 2^32. */
  lemma AadLengthExactly(a: nat)
    ensures AadLengthBytes(a) == AadLength(a) <==> a < TWO32
  {
    if a >= TWO32 {
      assert AadLengthBytes(a)[1] == 0xFE && AadLength(a)[1] == 0xFF;
    }
  }

  method FirstBlock(nonce: seq<bv8>, hasAad: bool, length: nat) returns (b0: seq<bv8>)
    requires |nonce| == NONCE_SIZE
    ensures b0 == B0(nonce, hasAad, length)
  {
    var flags: bv8 := 0;
    if hasAad {
      flags := flags | 0x40;
    }
    flags := flags | (7 as bv8 << 3);
    flags := flags | 3;
    b0 := [flags] + nonce + BigEndian(length, 4);
  }

  /** The whole blocks of the text, then the rest filled with zeros. */
  method AbsorbText(e: Cipher, mac: array<bv8>, text: seq<bv8>)
    requires IsCipher(e) && mac.Length == BS
    modifies mac
    ensures mac[..] == Chained(e, old(mac[..]), Pad16(text))
  {
    hide Chained;
    var full := |text| / BS * BS;
    WholeText(text);
    AbsorbAll(e, mac, text[..full]);
    if |text| - full > 0 {
      var block := text[full..] + Zero(BS - (|text| - full));
      ghost var before := mac[..];
      Absorb(e, mac, block);
      OneBlock(e, before, block);
      ChainedInPieces(e, old(mac[..]), text[..full], block);
    } else {
      assert text[..full] + [] == text[..full];
    }
  }

  /** computeTag: the first block, the associated data and the text are absorbed
      by three separate loops, and the result is one CBC-MAC. */
  method ComputeTag(e: Cipher, nonce: seq<bv8>, text: seq<bv8>, aad: seq<bv8>) returns (mac: array<bv8>)
    requires IsCipher(e) && |nonce| == NONCE_SIZE
    ensures fresh(mac) && mac.Length == BS && mac[..] == Mac(e, nonce, text, aad)
  {
    hide Chained, Pad16, B0, Whole;
    var b0 := FirstBlock(nonce, |aad| > 0, |text|);
    mac := new bv8[BS](_ => 0);
    Put(mac, 0, e(b0));
    XorZero(b0);
    OneBlock(e, Zero(BS), b0);
    assert mac[..] == Chained(e, Zero(BS), b0);
    if |aad| > 0 {
      var stream := AadLengthBytes(|aad|) + aad;
      AbsorbAll(e, mac, Pad16(stream));
      ChainedInPieces(e, Zero(BS), b0, AadBlocks(aad));
    } else {
      assert b0 + AadBlocks(aad) == b0;
    }
    AbsorbText(e, mac, text);
    ChainedInPieces(e, Zero(BS), b0 + AadBlocks(aad), Pad16(text));
  }

  /** Whole blocks and a zero-filled rest are the padded text. */
  lemma WholeText(text: seq<bv8>)
    ensures var full := |text| / BS * BS;
      full <= |text| && |text| - full < BS && Whole(text[..full]) &&
      Pad16(text) == text[..full] + if |text| - full > 0 then text[full..] + Zero(BS - (|text| - full)) else []
  {
    var full := |text| / BS * BS;
    assert |text| - full == |text| % BS;
    assert text == text[..full] + text[full..];
  }

  // ---- counter mode, appendix A.3 ----

  function Counter(nonce: seq<bv8>, n: nat): (b: seq<bv8>)
    requires |nonce| == NONCE_SIZE
    ensures |b| == BS
  {
    [3] + nonce + BigEndian(n % TWO32, 4)
  }

  /** Byte i of the key stream that starts at counter one. */
  function KeyByte(e: Cipher, nonce: seq<bv8>, i: nat): bv8
    requires IsCipher(e) && |nonce| == NONCE_SIZE
  {
    e(Counter(nonce, i / BS + 1))[i % BS]
  }

  function KeyStream(e: Cipher, nonce: seq<bv8>, n: nat): (ks: seq<bv8>)
    requires IsCipher(e) && |nonce| == NONCE_SIZE
    ensures |ks| == n
  {
    seq(n, i requires 0 <= i < n => KeyByte(e, nonce, i))
  }

  /** Section 6.1, steps 5 to 8: the text under the stream from counter one, the
      tag under the block of counter zero. */
  function Seal(e: Cipher, nonce: seq<bv8>, text: seq<bv8>, aad: seq<bv8>): (sealed: seq<bv8>)
    requires IsCipher(e) && |nonce| == NONCE_SIZE
    ensures |sealed| == |text| + TAG_SIZE
  {
    Xor(text, KeyStream(e, nonce, |text|)) + Xor(Mac(e, nonce, text, aad), e(Counter(nonce, 0)))
  }

  /** Section 6.2. None stands for the rejection. */
  function Unseal(e: Cipher, nonce: seq<bv8>, sealed: seq<bv8>, aad: seq<bv8>): Option<seq<bv8>>
    requires IsCipher(e)
  {
    if |nonce| != NONCE_SIZE || |sealed| < TAG_SIZE then None
    else
      var n := |sealed| - TAG_SIZE;
      var text := Xor(sealed[..n], KeyStream(e, nonce, n));
      if sealed[n..] == Xor(Mac(e, nonce, text, aad), e(Counter(nonce, 0))) then Some(text) else None
  }

  /** Opening what was sealed gives the text back; and nothing else opens: bytes
      are accepted as a text exactly when they are that text, sealed. */
  lemma UnsealExactly(e: Cipher, nonce: seq<bv8>, sealed: seq<bv8>, text: seq<bv8>, aad: seq<bv8>)
    requires IsCipher(e) && |nonce| == NONCE_SIZE
    ensures Unseal(e, nonce, sealed, aad) == Some(text) <==> sealed == Seal(e, nonce, text, aad)
  {
    hide Mac, KeyStream, Counter;
    var n := |text|;
    var ks := KeyStream(e, nonce, n);
    if sealed == Seal(e, nonce, text, aad) {
      assert sealed[..n] == Xor(text, ks) && sealed[n..] == Xor(Mac(e, nonce, text, aad), e(Counter(nonce, 0)));
      XorTwice(text, ks);
    }
    if Unseal(e, nonce, sealed, aad) == Some(text) {
      XorTwice(sealed[..n], ks);
      assert sealed == sealed[..n] + sealed[n..];
    }
  }

  lemma UnsealSealed(e: Cipher, nonce: seq<bv8>, text: seq<bv8>, aad: seq<bv8>)
    requires IsCipher(e) && |nonce| == NONCE_SIZE
    ensures Unseal(e, nonce, Seal(e, nonce, text, aad), aad) == Some(text)
  {
    UnsealExactly(e, nonce, Seal(e, nonce, text, aad), text, aad);
  }

  // ---- what the octets say ----

  /** A.2.1: the flags 0x7B or 0x3B, the nonce, and the length of the text. */
  lemma FirstBlockSays(nonce: seq<bv8>, hasAad: bool, length: nat)
    requires |nonce| == 11 && length < 0x1_0000_0000
    ensures var b := B0(nonce, hasAad, length);
      b[0] == (if hasAad then 0x7B else 0x3B) && b[1..12] == nonce && Number(b[12..16]) == length
  {
    FourBytes();
    hide Power, Number, BigEndian;
    BigEndianSpells(length, 4);
    FlagsSay(hasAad);
    hide Flags;
    FieldsOf(Flags(hasAad), nonce, BigEndian(length, 4));
  }

  lemma FlagsSay(hasAad: bool)
    ensures Flags(hasAad) == if hasAad then 0x7B else 0x3B
  {
  }

  lemma FieldsOf(first: bv8, nonce: seq<bv8>, last: seq<bv8>)
    requires |nonce| == 11 && |last| == 4
    ensures var b := [first] + nonce + last; b[0] == first && b[1..12] == nonce && b[12..16] == last
  {
  }

  /** A.3: the flags 0x03, the nonce, and the counter. */
  lemma CounterSays(nonce: seq<bv8>, n: nat)
    requires |nonce| == 11 && n < 0x1_0000_0000
    ensures var b := Counter(nonce, n); b[0] == 0x03 && b[1..12] == nonce && Number(b[12..16]) == n
  {
    FourBytes();
    hide Power, Number, BigEndian;
    BigEndianSpells(n, 4);
    FieldsOf(3, nonce, BigEndian(n, 4));
  }

  /** No two counter blocks are the same, and none is a first block of a MAC. */
  lemma CountersDiffer(nonce: seq<bv8>, n: nat, nonce': seq<bv8>, m: nat, hasAad: bool, length: nat)
    requires |nonce| == 11 && |nonce'| == 11 && n < 0x1_0000_0000 && m < 0x1_0000_0000 && length < 0x1_0000_0000
    ensures Counter(nonce, n) == Counter(nonce', m) ==> nonce == nonce' && n == m
    ensures Counter(nonce, n) != B0(nonce', hasAad, length)
  {
    CounterSays(nonce, n);
    CounterSays(nonce', m);
    FirstBlockSays(nonce', hasAad, length);
  }

  /** A.2.2: two octets below 0xFF00, and above it 0xFF, 0xFE and four. */
  lemma AadLengthSays(a: nat)
    requires a < 0x1_0000_0000
    ensures var l := AadLength(a);
      if a < 0xFF00 then |l| == 2 && l[0] != 0xFF && Number(l) == a
      else |l| == 6 && l[0] == 0xFF && l[1] == 0xFE && Number(l[2..]) == a
  {
    FourBytes();
    if a < 0xFF00 {
      BigEndianSpells(a, 2);
      FirstOfTwo(a);
    } else {
      BigEndianSpells(a, 4);
      assert AadLength(a)[2..] == BigEndian(a, 4);
    }
  }

  lemma FirstOfTwo(a: nat)
    requires a < 0xFF00
    ensures BigEndian(a, 2)[0] != 0xFF
  {
    var one := BigEndian(a / 256, 1);
    assert BigEndian(a, 2) == one + [ToByte(a % 256)];
    assert one == BigEndian(a / 256 / 256, 0) + [ToByte(a / 256 % 256)];
    ByteSpells(a / 256 % 256);
  }

  lemma AadLengthInjective(a: nat, b: nat, s: seq<bv8>, t: seq<bv8>)
    requires a < 0x1_0000_0000 && b < 0x1_0000_0000 && AadLength(a) + s == AadLength(b) + t
    ensures a == b && s == t
  {
    AadLengthSays(a);
    AadLengthSays(b);
    var la, lb := AadLength(a), AadLength(b);
    assert (la + s)[0] == la[0] && (lb + t)[0] == lb[0];
    assert |la| == |lb|;
    assert la == (la + s)[..|la|] && lb == (lb + t)[..|lb|];
    assert s == (la + s)[|la|..] && t == (lb + t)[|lb|..];
  }

  lemma PadPrefix(s: seq<bv8>, t: seq<bv8>, rest: seq<bv8>, rest': seq<bv8>)
    requires Pad16(s) + rest == Pad16(t) + rest' && |s| == |t|
    ensures s == t && rest == rest'
  {
    var p, q := Pad16(s), Pad16(t);
    assert |p| == |q|;
    assert p == (p + rest)[..|p|] && q == (q + rest')[..|q|];
    assert rest == (p + rest)[|p|..] && rest' == (q + rest')[|q|..];
    assert s == p[..|s|] && t == q[..|t|];
  }

  lemma Regroup(a: seq<bv8>, b: seq<bv8>, c: seq<bv8>, d: seq<bv8>)
    ensures a + b + c + d == a + (b + (c + d))
  {
  }

  lemma PadIs(s: seq<bv8>)
    ensures Pad16(s) == s + Pad16(s)[|s|..]
  {
  }

  /** What follows the first block says the associated data and the text. */
  lemma BodyInjective(aad: seq<bv8>, text: seq<bv8>, aad': seq<bv8>, text': seq<bv8>)
    requires aad != [] && aad' != [] && |aad| < 0x1_0000_0000 && |aad'| < 0x1_0000_0000 && |text| == |text'|
    requires Pad16(AadLength(|aad|) + aad) + Pad16(text) == Pad16(AadLength(|aad'|) + aad') + Pad16(text')
    ensures aad == aad' && text == text'
  {
    hide Pad16, AadLength;
    var p, q := AadLength(|aad|) + aad, AadLength(|aad'|) + aad';
    var z, z' := Pad16(p)[|p|..], Pad16(q)[|q|..];
    PadIs(p);
    PadIs(q);
    Regroup(AadLength(|aad|), aad, z, Pad16(text));
    Regroup(AadLength(|aad'|), aad', z', Pad16(text'));
    AadLengthInjective(|aad|, |aad'|, aad + (z + Pad16(text)), aad' + (z' + Pad16(text')));
    PadPrefix(p, q, Pad16(text), Pad16(text'));
    LastPad(text, text');
    SameFront(AadLength(|aad|), aad, aad');
  }

  lemma SameFront(a: seq<bv8>, b: seq<bv8>, c: seq<bv8>)
    requires a + b == a + c
    ensures b == c
  {
    assert b == (a + b)[|a|..] && c == (a + c)[|a|..];
  }

  lemma LastPad(s: seq<bv8>, t: seq<bv8>)
    requires Pad16(s) == Pad16(t) && |s| == |t|
    ensures s == t
  {
    hide Pad16;
    assert Pad16(s) + [] == Pad16(t) + [];
    PadPrefix(s, t, [], []);
  }

  lemma FormattedParts(nonce: seq<bv8>, text: seq<bv8>, aad: seq<bv8>)
    requires |nonce| == 11 && |text| < 0x1_0000_0000
    ensures var f := Formatted(nonce, text, aad);
      && |f| >= 16 && f[..16] == B0(nonce, aad != [], |text|)
      && f[16..] == if aad == [] then Pad16(text) else Pad16(AadLength(|aad|) + aad) + Pad16(text)
  {
    hide Pad16, AadLength, BigEndian, Flags;
    var b, body, tail := B0(nonce, aad != [], |text|), if aad == [] then [] else Pad16(AadLength(|aad|) + aad), Pad16(text);
    assert (b + body + tail)[..16] == b;
    assert (b + body + tail)[16..] == body + tail;
  }

  /** Different messages are never authenticated as the same blocks: the formatting
      gives back nonce, associated data and text. */
  lemma FormattedInjective(nonce: seq<bv8>, text: seq<bv8>, aad: seq<bv8>, nonce': seq<bv8>, text': seq<bv8>, aad': seq<bv8>)
    requires |nonce| == 11 && |nonce'| == 11
    requires |text| < 0x1_0000_0000 && |text'| < 0x1_0000_0000 && |aad| < 0x1_0000_0000 && |aad'| < 0x1_0000_0000
    requires Formatted(nonce, text, aad) == Formatted(nonce', text', aad')
    ensures nonce == nonce' && text == text' && aad == aad'
  {
    hide Pad16, B0, AadLength, Formatted;
    FormattedParts(nonce, text, aad);
    FormattedParts(nonce', text', aad');
    FirstBlockSays(nonce, aad != [], |text|);
    FirstBlockSays(nonce', aad' != [], |text'|);
    if aad == [] {
      LastPad(text, text');
    } else {
      BodyInjective(aad, text, aad', text');
    }
  }

  lemma CounterIs(nonce: seq<bv8>, n: nat)
    requires |nonce| == 11 && n < 0x1_0000_0000
    ensures Counter(nonce, n) == [0x03] + nonce + BigEndian(n, 4)
  {
    hide BigEndian;
    assert n % TWO32 == n;
  }

  /** Section 6.1 octet by octet: byte i of the text is under byte i mod 16 of the
      block of counter i / 16 + 1. */
  lemma SealedText(e: Cipher, nonce: seq<bv8>, text: seq<bv8>, aad: seq<bv8>, i: nat)
    requires IsCipher(e) && |nonce| == 11 && i < |text| < 0x1_0000_0000
    ensures Seal(e, nonce, text, aad)[i] == text[i] ^ e([0x03] + nonce + BigEndian(i / 16 + 1, 4))[i % 16]
  {
    hide Mac, Counter, BigEndian;
    CounterIs(nonce, i / 16 + 1);
    var body := Xor(text, KeyStream(e, nonce, |text|));
    assert body[i] == text[i] ^ KeyByte(e, nonce, i);
    hide Xor, KeyByte, KeyStream;
    assert Seal(e, nonce, text, aad)[i] == body[i];
    KeyByteIs(e, nonce, i);
  }

  lemma KeyByteIs(e: Cipher, nonce: seq<bv8>, i: nat)
    requires IsCipher(e) && |nonce| == 11
    ensures |e(Counter(nonce, i / 16 + 1))| == 16 && KeyByte(e, nonce, i) == e(Counter(nonce, i / 16 + 1))[i % 16]
  {
    hide Counter, BigEndian;
  }

  /** The tag is under the block of counter zero. */
  lemma SealedTag(e: Cipher, nonce: seq<bv8>, text: seq<bv8>, aad: seq<bv8>)
    requires IsCipher(e) && |nonce| == 11
    ensures Seal(e, nonce, text, aad)[|text|..] == Xor(Mac(e, nonce, text, aad), e([0x03] + nonce + BigEndian(0, 4)))
  {
    hide Mac, Counter, BigEndian, Xor, KeyStream;
    CounterIs(nonce, 0);
  }

  // ---- the loops ----

  /** ctrXor: block after block of key stream, the last one cut short. */
  method CtrXor(e: Cipher, nonce: seq<bv8>, input: seq<bv8>, out: array<bv8>)
    requires IsCipher(e) && |nonce| == NONCE_SIZE && |input| <= out.Length
    modifies out
    ensures out[..|input|] == Xor(input, KeyStream(e, nonce, |input|))
    ensures out[|input|..] == old(out[|input|..])
  {
    hide BigEndian;
    var block := 0;
    while block * BS < |input|
      invariant forall j :: 0 <= j < block * BS && j < |input| ==> out[j] == input[j] ^ KeyByte(e, nonce, j)
      invariant forall j :: |input| <= j < out.Length ==> out[j] == old(out[j])
      decreases |input| - block * BS
    {
      var off := block * BS;
      var ks := e(Counter(nonce, block + 1));
      var end := if off + BS > |input| then |input| else off + BS;
      for i := off to end
        invariant forall j :: 0 <= j < i ==> out[j] == input[j] ^ KeyByte(e, nonce, j)
        invariant forall j :: |input| <= j < out.Length ==> out[j] == old(out[j])
      {
        InBlock(block, i);
        out[i] := input[i] ^ ks[i - off];
      }
      block := block + 1;
    }
  }

  lemma InBlock(block: nat, i: nat)
    requires block * BS <= i < block * BS + BS
    ensures i / BS == block && i % BS == i - block * BS
  {
  }

  method CtEq(a: seq<bv8>, b: seq<bv8>) returns (same: bool)
    ensures same <==> a == b
  {
    if |a| != |b| {
      return false;
    }
    var v: bv8 := 0;
    for i := 0 to |a|
      invariant v == 0 <==> a[..i] == b[..i]
    {
      OrXor(v, a[i], b[i]);
      v := v | (a[i] ^ b[i]);
      assert a[..i + 1] == a[..i] + [a[i]] && b[..i + 1] == b[..i] + [b[i]];
    }
    assert a[..|a|] == a && b[..|b|] == b;
    return v == 0;
  }

  lemma OrXor(v: bv8, x: bv8, y: bv8)
    ensures v | (x ^ y) == 0 <==> v == 0 && x == y
  {
  }

  method EncryptTag(e: Cipher, nonce: seq<bv8>, tag: seq<bv8>) returns (out: array<bv8>)
    requires IsCipher(e) && |nonce| == NONCE_SIZE && |tag| == TAG_SIZE
    ensures fresh(out) && out.Length == TAG_SIZE && out[..] == Xor(tag, e(Counter(nonce, 0)))
  {
    var ks := e(Counter(nonce, 0));
    out := new bv8[TAG_SIZE](_ => 0);
    for i := 0 to TAG_SIZE
      invariant forall j :: 0 <= j < i ==> out[j] == tag[j] ^ ks[j]
    {
      out[i] := tag[i] ^ ks[i];
    }
  }

  method SealMessage(e: Cipher, nonce: seq<bv8>, text: seq<bv8>, aad: seq<bv8>) returns (sealed: seq<bv8>)
    requires IsCipher(e) && |nonce| == NONCE_SIZE
    ensures sealed == Seal(e, nonce, text, aad)
  {
    hide Mac, KeyStream, Counter;
    var tag := ComputeTag(e, nonce, text, aad);
    var out := new bv8[|text| + TAG_SIZE](_ => 0);
    CtrXor(e, nonce, text, out);
    var encTag := EncryptTag(e, nonce, tag[..]);
    ghost var body := out[..|text|];
    Put(out, |text|, encTag[..]);
    assert out[..] == body + encTag[..];
    return out[..];
  }

  method OpenMessage(e: Cipher, nonce: seq<bv8>, sealed: seq<bv8>, aad: seq<bv8>) returns (text: Option<seq<bv8>>)
    requires IsCipher(e)
    ensures text == Unseal(e, nonce, sealed, aad)
  {
    hide Mac, KeyStream, Counter;
    if |nonce| != NONCE_SIZE || |sealed| < TAG_SIZE {
      return None;
    }
    var n := |sealed| - TAG_SIZE;
    var pt := new bv8[n](_ => 0);
    CtrXor(e, nonce, sealed[..n], pt);
    assert pt[..n] == pt[..];
    var tag := ComputeTag(e, nonce, pt[..], aad);
    var encTag := EncryptTag(e, nonce, tag[..]);
    var same := CtEq(sealed[n..], encTag[..]);
    if !same {
      return None;
    }
    return Some(pt[..]);
  }
}
