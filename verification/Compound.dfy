/** Compounded responses: the frames a chain's responses are grouped into, the
    layout of one frame, and the walk that takes a frame apart. */
module Compound {
  import opened Seqs
  import opened Bytes

  const FRAME_HEADER_SIZE: nat := 4
  const HEADER_SIZE: nat := 64
  const NEXT_COMMAND: nat := 20
  const SIGNATURE: nat := 48

  // ---- one message ----

  /** DecodeHeader accepts the message: protocol id and structure size. */
  predicate HeaderOk(m: seq<Byte>) {
    |m| >= HEADER_SIZE && m[..4] == [0xFE, 0x53, 0x4D, 0x42] && m[4..6] == [64, 0]
  }

  function NextCommand(m: seq<Byte>): U32
    requires |m| >= HEADER_SIZE
  {
    Get32(m, NEXT_COMMAND)
  }

  function WithNext(m: seq<Byte>, next: U32): (r: seq<Byte>)
    requires |m| >= HEADER_SIZE
    ensures |r| == |m|
  {
    m[..NEXT_COMMAND] + Put32(next) + m[NEXT_COMMAND + 4..]
  }

  function SetSigned(b: Byte): Byte { if b / 8 % 2 == 1 then b else b + 8 }

  /** Signing sets the flag 0x08 and keeps the other seven. */
  lemma SetSignedBits(v: bv8)
    ensures SetSigned(v as int) == (v | 0x08) as int
  {
    SignedByte(v);
  }

  lemma SignedByte(v: bv8)
    ensures v & 0x08 != 0 <==> v as int / 8 % 2 == 1
    ensures v & 0x08 == 0 ==> (v | 0x08) as int == v as int + 8
    ensures v & 0x08 != 0 ==> v | 0x08 == v
  {
  }

  /** A MAC gives 16 bytes for every message. */
  ghost predicate IsMac(mac: seq<Byte> -> seq<Byte>) { forall m :: |mac(m)| == 16 }

  /** The message as the MAC sees it: flagged as signed, signature zero. */
  function Cleared(m: seq<Byte>): (r: seq<Byte>)
    requires |m| >= HEADER_SIZE
    ensures |r| == |m|
  {
    m[..16] + [SetSigned(m[16])] + m[17..SIGNATURE] + Zeros(16) + m[HEADER_SIZE..]
  }

  function Signed(m: seq<Byte>, mac: seq<Byte> -> seq<Byte>): seq<Byte> {
    if |m| < HEADER_SIZE then m else Cleared(m)[..SIGNATURE] + mac(Cleared(m)) + m[HEADER_SIZE..]
  }

  /** Signing, when the session has a key. */
  function Sealed(m: seq<Byte>, key: Option<seq<Byte> -> seq<Byte>>): seq<Byte> {
    if key.Some? then Signed(m, key.value) else m
  }

  ghost predicate KeyOk(key: Option<seq<Byte> -> seq<Byte>>) { key.Some? ==> IsMac(key.value) }

  lemma SealedKeeps(m: seq<Byte>, key: Option<seq<Byte> -> seq<Byte>>)
    requires KeyOk(key)
    ensures |Sealed(m, key)| == |m|
    ensures |m| >= HEADER_SIZE ==>
      var r := Sealed(m, key);
      && r[..16] == m[..16] && r[17..SIGNATURE] == m[17..SIGNATURE] && r[HEADER_SIZE..] == m[HEADER_SIZE..]
      && NextCommand(r) == NextCommand(m) && (HeaderOk(m) ==> HeaderOk(r))
      && r[16] == (if key.Some? then SetSigned(m[16]) else m[16]) && (key.None? ==> r == m)
  {
    if |m| >= HEADER_SIZE {
      var r := Sealed(m, key);
      assert forall i :: (0 <= i < 16 || 17 <= i < SIGNATURE || HEADER_SIZE <= i < |m|) ==> r[i] == m[i];
      assert r[..16] == m[..16];
      assert r[..4] == r[..16][..4] && m[..4] == m[..16][..4] && r[4..6] == r[..16][4..6] && m[4..6] == m[..16][4..6];
    }
  }

  /** A signature over a member verifies: the MAC of the member with its
      signature cleared is the signature it carries. */
  lemma SignatureVerifies(m: seq<Byte>, mac: seq<Byte> -> seq<Byte>)
    requires IsMac(mac) && |m| >= HEADER_SIZE
    ensures |Signed(m, mac)| == |m|
    ensures Signed(m, mac)[SIGNATURE..HEADER_SIZE] == mac(Cleared(Signed(m, mac)))
  {
    var r := Signed(m, mac);
    assert |mac(Cleared(m))| == 16;
    assert SetSigned(SetSigned(m[16])) == SetSigned(m[16]);
    assert r[16] == SetSigned(m[16]);
    assert Cleared(r) == Cleared(m);
  }

  // ---- one frame ----

  function MemberLen(src: seq<Byte>, last: bool): nat { if last then |src| else PadTo8(|src|) }

  /** One member in place: padded, linked and signed. */
  function Member(src: seq<Byte>, last: bool, key: Option<seq<Byte> -> seq<Byte>>): seq<Byte>
    requires |src| >= HEADER_SIZE && MemberLen(src, last) < TWO32
  {
    var n := MemberLen(src, last);
    Sealed(WithNext(src + Zeros(n - |src|), if last then 0 else n), key)
  }

  predicate Fits(msgs: seq<seq<Byte>>) {
    forall i :: 0 <= i < |msgs| ==> HeaderOk(msgs[i]) && PadTo8(|msgs[i]|) < TWO32
  }

  function MemberAt(msgs: seq<seq<Byte>>, i: nat, key: Option<seq<Byte> -> seq<Byte>>): seq<Byte>
    requires i < |msgs| && Fits(msgs)
  {
    Member(msgs[i], i == |msgs| - 1, key)
  }

  /** The members from the i-th on, one after the other. */
  function Layout(msgs: seq<seq<Byte>>, i: nat, key: Option<seq<Byte> -> seq<Byte>>): seq<Byte>
    requires i <= |msgs| && Fits(msgs)
    decreases |msgs| - i
  {
    if i == |msgs| then [] else MemberAt(msgs, i, key) + Layout(msgs, i + 1, key)
  }

  /** What a receiver can rely on in a member of the frame: aligned and padded
      with fewer than eight zeros, or last and bare; linked at offset 20; the body
      as it was; of the header only flag byte, link and signature changed. */
  ghost predicate MemberOk(r: seq<Byte>, src: seq<Byte>, last: bool, signed: bool)
    requires |src| >= 64
  {
    && HeaderOk(r) && |src| <= |r| < |src| + 8
    && (if last then |r| == |src| && Get32(r, 20) == 0 else |r| % 8 == 0 && Get32(r, 20) == |r|)
    && r[16] == (if signed then SetSigned(src[16]) else src[16]) && (!signed ==> r[48..64] == src[48..64])
    && r[..16] == src[..16] && r[17..20] == src[17..20] && r[24..48] == src[24..48]
    && r[64..] == src[64..] + Zeros(|r| - |src|)
  }

  lemma WithNextKeeps(m: seq<Byte>, next: U32)
    requires HeaderOk(m)
    ensures var r := WithNext(m, next);
      && HeaderOk(r) && NextCommand(r) == next && r[..NEXT_COMMAND] == m[..NEXT_COMMAND] && r[NEXT_COMMAND + 4..] == m[NEXT_COMMAND + 4..]
  {
    var r := WithNext(m, next);
    assert r[..NEXT_COMMAND] == m[..NEXT_COMMAND];
    assert r[..4] == m[..NEXT_COMMAND][..4] && m[..4] == m[..NEXT_COMMAND][..4];
    assert r[4..6] == m[..NEXT_COMMAND][4..6] && m[4..6] == m[..NEXT_COMMAND][4..6];
    assert r[NEXT_COMMAND..NEXT_COMMAND + 4] == Put32(next);
    Get32Put32(r, NEXT_COMMAND, next);
  }

  lemma PaddedKeeps(src: seq<Byte>, z: nat)
    requires HeaderOk(src)
    ensures var p := src + Zeros(z);
      HeaderOk(p) && p[..NEXT_COMMAND] == src[..NEXT_COMMAND] && p[NEXT_COMMAND + 4..] == src[NEXT_COMMAND + 4..] + Zeros(z)
  {
    var p := src + Zeros(z);
    assert p[..4] == src[..4] && p[4..6] == src[4..6];
  }

  lemma MemberKeeps(src: seq<Byte>, last: bool, key: Option<seq<Byte> -> seq<Byte>>)
    requires HeaderOk(src) && PadTo8(|src|) < TWO32 && KeyOk(key)
    ensures |Member(src, last, key)| == MemberLen(src, last)
    ensures MemberOk(Member(src, last, key), src, last, key.Some?)
    ensures HeaderOk(Member(src, last, key)) && NextCommand(Member(src, last, key)) == if last then 0 else MemberLen(src, last)
  {
    assert |src| >= HEADER_SIZE;
    hide HeaderOk, NextCommand, WithNext, Sealed, Zeros, KeyOk;
    var n := MemberLen(src, last);
    var z := n - |src|;
    PaddedKeeps(src, z);
    var linked := WithNext(src + Zeros(z), if last then 0 else n);
    WithNextKeeps(src + Zeros(z), if last then 0 else n);
    SealedKeeps(linked, key);
    SlicesAgree(src, linked, Sealed(linked, key), z, key.Some?);
  }

  lemma SliceBeforePad(src: seq<Byte>, linked: seq<Byte>, z: nat)
    requires |src| >= 64 && |linked| == |src| + z && linked[24..] == src[24..] + Zeros(z)
    ensures linked[48..64] == src[48..64]
  {
    forall j | 48 <= j < 64 ensures linked[j] == src[j] {
      assert linked[j] == linked[24..][j - 24] == (src[24..] + Zeros(z))[j - 24] == src[24..][j - 24];
    }
  }

  lemma SlicesAgree(src: seq<Byte>, linked: seq<Byte>, r: seq<Byte>, z: nat, signed: bool)
    requires |src| >= HEADER_SIZE && |linked| == |r| == |src| + z
    requires linked[..NEXT_COMMAND] == src[..NEXT_COMMAND] && linked[NEXT_COMMAND + 4..] == src[NEXT_COMMAND + 4..] + Zeros(z)
    requires r[..16] == linked[..16] && r[17..SIGNATURE] == linked[17..SIGNATURE] && r[HEADER_SIZE..] == linked[HEADER_SIZE..]
    requires r[16] == (if signed then SetSigned(linked[16]) else linked[16]) && (!signed ==> r == linked)
    ensures r[..16] == src[..16] && r[17..NEXT_COMMAND] == src[17..NEXT_COMMAND]
    ensures r[NEXT_COMMAND + 4..SIGNATURE] == src[NEXT_COMMAND + 4..SIGNATURE]
    ensures r[HEADER_SIZE..] == src[HEADER_SIZE..] + Zeros(z)
    ensures r[16] == (if signed then SetSigned(src[16]) else src[16]) && (!signed ==> r[48..64] == src[48..64])
  {
    assert linked[16] == linked[..NEXT_COMMAND][16] == src[..NEXT_COMMAND][16] == src[16];
    SliceBeforePad(src, linked, z);
    assert r[..16] == linked[..NEXT_COMMAND][..16] == src[..16];
    assert r[17..NEXT_COMMAND] == r[17..SIGNATURE][..3] == linked[..NEXT_COMMAND][17..] == src[17..NEXT_COMMAND];
    assert r[NEXT_COMMAND + 4..SIGNATURE] == r[17..SIGNATURE][7..] == linked[NEXT_COMMAND + 4..][..24] == src[NEXT_COMMAND + 4..SIGNATURE];
    assert r[HEADER_SIZE..] == linked[NEXT_COMMAND + 4..][40..] == src[HEADER_SIZE..] + Zeros(z);
  }

  // ---- the walk ----

  /** The messages of a frame in order, and whether the walk got through. */
  function Walk(frame: seq<Byte>): (seq<seq<Byte>>, bool) {
    if frame == [] then ([], true)
    else if !HeaderOk(frame) then ([], false)
    else
      var next := NextCommand(frame);
      if next == 0 then ([frame], true)
      else if next < HEADER_SIZE || next > |frame| then ([], false)
      else
        var (rest, ok) := Walk(frame[next..]);
        ([frame[..next]] + rest, ok)
  }

  lemma WalkMember(m: seq<Byte>, rest: seq<Byte>)
    requires HeaderOk(m) && NextCommand(m) == |m|
    ensures Walk(m + rest) == ([m] + Walk(rest).0, Walk(rest).1)
  {
    var frame := m + rest;
    assert frame[..4] == m[..4] && frame[4..6] == m[4..6];
    assert NextCommand(frame) == |m|;
    assert frame[|m|..] == rest && frame[..|m|] == m;
  }

  lemma WalkLast(m: seq<Byte>)
    requires HeaderOk(m) && NextCommand(m) == 0
    ensures Walk(m) == ([m], true)
  {
  }

  function Members(msgs: seq<seq<Byte>>, key: Option<seq<Byte> -> seq<Byte>>): seq<seq<Byte>>
    requires Fits(msgs)
  {
    seq(|msgs|, i requires 0 <= i < |msgs| => MemberAt(msgs, i, key))
  }

  lemma {:induction false} WalkLayout(msgs: seq<seq<Byte>>, i: nat, key: Option<seq<Byte> -> seq<Byte>>)
    requires i <= |msgs| && Fits(msgs) && KeyOk(key)
    ensures Walk(Layout(msgs, i, key)) == (Members(msgs, key)[i..], true)
    decreases |msgs| - i
  {
    if i < |msgs| {
      hide MemberOk, Member, HeaderOk, NextCommand, Walk, KeyOk;
      var m := MemberAt(msgs, i, key);
      MemberKeeps(msgs[i], i == |msgs| - 1, key);
      WalkLayout(msgs, i + 1, key);
      assert Members(msgs, key)[i..] == [m] + Members(msgs, key)[i + 1..];
      if i == |msgs| - 1 {
        assert Layout(msgs, i + 1, key) == [] && Layout(msgs, i, key) == m;
        assert Members(msgs, key)[i..] == [m];
        WalkLast(m);
      } else {
        WalkMember(m, Layout(msgs, i + 1, key));
      }
    } else {
      assert Members(msgs, key)[i..] == [];
    }
  }

  /** The frame for one group: a lone message keeps its own NextCommand. */
  function Frame(msgs: seq<seq<Byte>>, key: Option<seq<Byte> -> seq<Byte>>): seq<Byte>
    requires msgs != [] && Fits(msgs)
  {
    if |msgs| == 1 then Sealed(msgs[0], key) else Layout(msgs, 0, key)
  }

  /** Walking a frame by NextCommand gives back exactly its members in order. */
  lemma WalkRecovers(msgs: seq<seq<Byte>>, key: Option<seq<Byte> -> seq<Byte>>)
    requires msgs != [] && Fits(msgs) && KeyOk(key) && (|msgs| == 1 ==> NextCommand(msgs[0]) == 0)
    ensures var (members, ok) := Walk(Frame(msgs, key));
      && ok && |members| == |msgs|
      && forall i :: 0 <= i < |msgs| ==> MemberOk(members[i], msgs[i], i == |msgs| - 1, key.Some?)
  {
    hide MemberOk, Member, Walk, KeyOk, Layout;
    if |msgs| == 1 {
      LoneMember(msgs[0], key);
      WalkLast(Sealed(msgs[0], key));
    } else {
      WalkLayout(msgs, 0, key);
      forall i | 0 <= i < |msgs| ensures MemberOk(MemberAt(msgs, i, key), msgs[i], i == |msgs| - 1, key.Some?) {
        MemberKeeps(msgs[i], i == |msgs| - 1, key);
      }
    }
  }

  lemma LoneMember(m: seq<Byte>, key: Option<seq<Byte> -> seq<Byte>>)
    requires HeaderOk(m) && KeyOk(key) && NextCommand(m) == 0
    ensures HeaderOk(Sealed(m, key)) && NextCommand(Sealed(m, key)) == 0 && MemberOk(Sealed(m, key), m, true, key.Some?)
  {
    SealedKeeps(m, key);
    var r := Sealed(m, key);
    assert r[17..NEXT_COMMAND] == r[17..SIGNATURE][..3] == m[17..NEXT_COMMAND];
    assert r[NEXT_COMMAND + 4..SIGNATURE] == r[17..SIGNATURE][7..] == m[NEXT_COMMAND + 4..SIGNATURE];
    assert m[HEADER_SIZE..] + Zeros(0) == m[HEADER_SIZE..];
  }

  // ---- the loops ----

  lemma HeaderOf(frame: seq<Byte>, off: nat)
    requires off + HEADER_SIZE <= |frame|
    ensures HeaderOk(frame[off..off + HEADER_SIZE]) <==> HeaderOk(frame[off..])
    ensures NextCommand(frame[off..off + HEADER_SIZE]) == NextCommand(frame[off..])
  {
    var a, b := frame[off..off + HEADER_SIZE], frame[off..];
    assert forall i :: 0 <= i < HEADER_SIZE ==> a[i] == b[i];
    assert a[..4] == b[..4];
    assert a[4..6] == b[4..6];
  }

  /** The walk has taken msgs and stands at off. */
  ghost predicate Walked(frame: seq<Byte>, msgs: seq<seq<Byte>>, off: nat) {
    off <= |frame| && Walk(frame) == (msgs + Walk(frame[off..]).0, Walk(frame[off..]).1)
  }

  predicate Undersized(frame: seq<Byte>, off: nat)
    requires off <= |frame|
  {
    |frame| - off < HEADER_SIZE || !HeaderOk(frame[off..off + HEADER_SIZE])
  }

  lemma WalkStarts(frame: seq<Byte>)
    ensures Walked(frame, [], 0)
  {
    assert frame[0..] == frame && [] + Walk(frame).0 == Walk(frame).0;
  }

  lemma WalkEnds(frame: seq<Byte>, msgs: seq<seq<Byte>>)
    requires Walked(frame, msgs, |frame|)
    ensures Walk(frame) == (msgs, true)
  {
    assert frame[|frame|..] == [] && msgs + [] == msgs;
  }

  lemma WalkFails(frame: seq<Byte>, msgs: seq<seq<Byte>>, off: nat)
    requires off < |frame| && Walked(frame, msgs, off)
    requires Undersized(frame, off)
      || (var next := NextCommand(frame[off..off + HEADER_SIZE]); next != 0 && (next < HEADER_SIZE || off + next > |frame|))
    ensures Walk(frame) == (msgs, false)
  {
    assert msgs + [] == msgs;
    if |frame| - off >= HEADER_SIZE { HeaderOf(frame, off); }
  }

  lemma WalkUnfolds(m: seq<Byte>)
    requires HeaderOk(m)
    ensures NextCommand(m) == 0 ==> Walk(m) == ([m], true)
    ensures var next := NextCommand(m);
      HEADER_SIZE <= next <= |m| ==> Walk(m) == ([m[..next]] + Walk(m[next..]).0, Walk(m[next..]).1)
  {
  }

  lemma WalkTakes(frame: seq<Byte>, msgs: seq<seq<Byte>>, off: nat)
    requires off < |frame| && Walked(frame, msgs, off) && !Undersized(frame, off)
    ensures var next := NextCommand(frame[off..off + HEADER_SIZE]);
      && (next == 0 ==> Walk(frame) == (msgs + [frame[off..]], true))
      && (HEADER_SIZE <= next <= |frame| - off ==> Walked(frame, msgs + [frame[off..off + next]], off + next))
  {
    hide HeaderOk, NextCommand, Walk;
    HeaderOf(frame, off);
    WalkUnfolds(frame[off..]);
    var next := NextCommand(frame[off..]);
    if HEADER_SIZE <= next <= |frame| - off {
      assert frame[off..][next..] == frame[off + next..] && frame[off..][..next] == frame[off..off + next];
      Regroup(msgs, frame[off..off + next], Walk(frame[off + next..]).0);
    }
  }

  lemma Regroup(msgs: seq<seq<Byte>>, m: seq<Byte>, rest: seq<seq<Byte>>)
    ensures msgs + ([m] + rest) == msgs + [m] + rest
  {
  }

  /** The messages up to the first one whose handler drops the connection. */
  function Until(msgs: seq<seq<Byte>>, ok: bool, serve: seq<Byte> -> bool): (seq<seq<Byte>>, bool) {
    if msgs == [] then ([], ok)
    else if !serve(msgs[0]) then ([msgs[0]], false)
    else
      var (rest, ok') := Until(msgs[1..], ok, serve);
      ([msgs[0]] + rest, ok')
  }

  lemma {:induction false} UntilStops(msgs: seq<seq<Byte>>, m: seq<Byte>, rest: seq<seq<Byte>>, ok: bool, serve: seq<Byte> -> bool)
    requires (forall x :: x in msgs ==> serve(x)) && !serve(m)
    ensures Until(msgs + ([m] + rest), ok, serve) == (msgs + [m], false)
  {
    if msgs == [] {
      assert msgs + ([m] + rest) == [m] + rest && ([m] + rest)[0] == m;
      assert msgs + [m] == [m];
    } else {
      UntilStops(msgs[1..], m, rest, ok, serve);
      assert (msgs + ([m] + rest))[1..] == msgs[1..] + ([m] + rest);
      assert [msgs[0]] + (msgs[1..] + [m]) == msgs + [m];
    }
  }

  lemma {:induction false} UntilAll(msgs: seq<seq<Byte>>, ok: bool, serve: seq<Byte> -> bool)
    requires forall x :: x in msgs ==> serve(x)
    ensures Until(msgs, ok, serve) == (msgs, ok)
  {
    if msgs != [] {
      UntilAll(msgs[1..], ok, serve);
      assert [msgs[0]] + msgs[1..] == msgs;
    }
  }

  /** The walk stops at the message whose handler drops the connection. */
  lemma WalkDropped(frame: seq<Byte>, msgs: seq<seq<Byte>>, off: nat, serve: seq<Byte> -> bool)
    requires off < |frame| && Walked(frame, msgs, off) && !Undersized(frame, off) && forall x :: x in msgs ==> serve(x)
    ensures var next := NextCommand(frame[off..off + HEADER_SIZE]);
      var end := if next == 0 then |frame| else off + next;
      (next == 0 || HEADER_SIZE <= next <= |frame| - off) && !serve(frame[off..end]) ==>
        Until(Walk(frame).0, Walk(frame).1, serve) == (msgs + [frame[off..end]], false)
  {
    hide HeaderOk, NextCommand, Walk, Until;
    HeaderOf(frame, off);
    WalkUnfolds(frame[off..]);
    var next := NextCommand(frame[off..]);
    if next == 0 {
      assert frame[off..|frame|] == frame[off..];
      if !serve(frame[off..]) {
        UntilStops(msgs, frame[off..], [], Walk(frame).1, serve);
        assert [frame[off..]] + [] == [frame[off..]];
      }
    } else if HEADER_SIZE <= next <= |frame| - off {
      assert frame[off..][next..] == frame[off + next..] && frame[off..][..next] == frame[off..off + next];
      if !serve(frame[off..off + next]) { UntilStops(msgs, frame[off..off + next], Walk(frame[off + next..]).0, Walk(frame).1, serve); }
    }
  }

  /** The chain walk, message by message, as long as the handlers keep the
      connection. */
  method WalkFrame(frame: seq<Byte>, serve: seq<Byte> -> bool) returns (msgs: seq<seq<Byte>>, ok: bool)
    ensures (msgs, ok) == Until(Walk(frame).0, Walk(frame).1, serve)
  {
    hide HeaderOk, NextCommand, Walk, Walked, Until;
    var off := 0;
    msgs := [];
    WalkStarts(frame);
    while off < |frame|
      invariant off <= |frame| && Walked(frame, msgs, off)
      invariant forall x :: x in msgs ==> serve(x)
    {
      if |frame| - off < HEADER_SIZE || !HeaderOk(frame[off..off + HEADER_SIZE]) {
        WalkFails(frame, msgs, off);
        UntilAll(msgs, false, serve);
        return msgs, false;
      }
      WalkTakes(frame, msgs, off);
      WalkDropped(frame, msgs, off, serve);
      var next, end := NextCommand(frame[off..off + HEADER_SIZE]), |frame|;
      if next != 0 {
        if next < HEADER_SIZE || off + next > |frame| {
          WalkFails(frame, msgs, off);
          UntilAll(msgs, false, serve);
          return msgs, false;
        }
        end := off + next;
      }
      if !serve(frame[off..end]) {
        return msgs + [frame[off..end]], false;
      }
      msgs := msgs + [frame[off..end]];
      if next == 0 {
        assert frame[off..end] == frame[off..];
        UntilAll(msgs, true, serve);
        return msgs, true;
      }
      off := end;
    }
    WalkEnds(frame, msgs);
    UntilAll(msgs, true, serve);
    return msgs, true;
  }

  function Splice(s: seq<Byte>, at: nat, src: seq<Byte>): (r: seq<Byte>)
    requires at + |src| <= |s|
    ensures |r| == |s|
  {
    s[..at] + src + s[at + |src|..]
  }

  /** A change inside a region is a change of that region alone. */
  lemma SpliceRegion(s: seq<Byte>, off: nat, n: nat, at: nat, src: seq<Byte>)
    requires at + |src| <= n && off + n <= |s|
    ensures var r := Splice(s, off + at, src);
      r[..off] == s[..off] && r[off..off + n] == Splice(s[off..off + n], at, src) && r[off + n..] == s[off + n..]
  {
  }

  /** Overwrite part of the buffer. */
  method Copy(out: array<Byte>, off: nat, src: seq<Byte>)
    requires off + |src| <= out.Length
    modifies out
    ensures out[..] == Splice(old(out[..]), off, src)
  {
    for i := 0 to |src|
      invariant forall j :: 0 <= j < i ==> out[off + j] == src[j]
      invariant forall j :: (0 <= j < off || off + i <= j < out.Length) ==> out[j] == old(out[j])
    {
      out[off + i] := src[i];
    }
    assert forall j :: 0 <= j < out.Length ==> out[..][j] == Splice(old(out[..]), off, src)[j];
  }

  /** Overwrite part of the n bytes at off. */
  method CopyWithin(out: array<Byte>, off: nat, n: nat, at: nat, src: seq<Byte>)
    requires at + |src| <= n && off + n <= out.Length
    modifies out
    ensures out[..off] == old(out[..off]) && out[off..off + n] == Splice(old(out[off..off + n]), at, src) && out[off + n..] == old(out[off + n..])
  {
    ghost var s := out[..];
    Copy(out, off + at, src);
    SpliceRegion(s, off, n, at, src);
    assert s[..off] == old(out[..off]) && s[off..off + n] == old(out[off..off + n]) && s[off + n..] == old(out[off + n..]);
    assert out[..off] == out[..][..off] && out[off..off + n] == out[..][off..off + n] && out[off + n..] == out[..][off + n..];
  }

  /** SignMessage on the n bytes at off. */
  method SignAt(out: array<Byte>, off: nat, n: nat, mac: seq<Byte> -> seq<Byte>)
    requires off + n <= out.Length && IsMac(mac)
    modifies out
    ensures out[..off] == old(out[..off]) && out[off..off + n] == Signed(old(out[off..off + n]), mac) && out[off + n..] == old(out[off + n..])
  {
    if n < HEADER_SIZE {
      return;
    }
    ghost var m := out[off..off + n];
    CopyWithin(out, off, n, SIGNATURE, Zeros(16));
    CopyWithin(out, off, n, 16, [SetSigned(out[off + 16])]);
    SignSteps(m, mac);
    var sig := mac(out[off..off + n]);
    CopyWithin(out, off, n, SIGNATURE, sig);
  }

  lemma SignSteps(m: seq<Byte>, mac: seq<Byte> -> seq<Byte>)
    requires |m| >= HEADER_SIZE && IsMac(mac)
    ensures Splice(m, SIGNATURE, Zeros(16))[16] == m[16]
    ensures Splice(Splice(m, SIGNATURE, Zeros(16)), 16, [SetSigned(m[16])]) == Cleared(m)
    ensures |mac(Cleared(m))| == 16 && Splice(Cleared(m), SIGNATURE, mac(Cleared(m))) == Signed(m, mac)
  {
    assert |mac(Cleared(m))| == 16;
    assert Cleared(m)[HEADER_SIZE..] == m[HEADER_SIZE..];
  }

  lemma PlaceSteps(src: seq<Byte>, n: nat, next: U32)
    requires HEADER_SIZE <= |src| <= n
    ensures Splice(Zeros(n), 0, src) == src + Zeros(n - |src|)
    ensures Splice(src + Zeros(n - |src|), NEXT_COMMAND, Put32(next)) == WithNext(src + Zeros(n - |src|), next)
  {
  }

  /** Put one member, padding included, into a region of zeros. */
  method PlaceMember(out: array<Byte>, off: nat, src: seq<Byte>, last: bool, key: Option<seq<Byte> -> seq<Byte>>)
    requires |src| >= HEADER_SIZE && PadTo8(|src|) < TWO32 && KeyOk(key)
    requires off + MemberLen(src, last) <= out.Length
    requires out[off..off + MemberLen(src, last)] == Zeros(MemberLen(src, last))
    modifies out
    ensures var n := MemberLen(src, last);
      out[..off] == old(out[..off]) && out[off..off + n] == Member(src, last, key) && out[off + n..] == old(out[off + n..])
  {
    hide Splice, WithNext, Signed, Zeros, Put32, PadTo8;
    var n := MemberLen(src, last);
    var next := if last then 0 else n;
    PlaceSteps(src, n, next);
    CopyWithin(out, off, n, 0, src);
    CopyWithin(out, off, n, NEXT_COMMAND, Put32(next));
    if key.Some? {
      SignAt(out, off, n, key.value);
    }
  }

  method SendOne(m: seq<Byte>, key: Option<seq<Byte> -> seq<Byte>>) returns (out: array<Byte>)
    requires KeyOk(key)
    ensures fresh(out) && out.Length >= FRAME_HEADER_SIZE && out[FRAME_HEADER_SIZE..] == Sealed(m, key)
  {
    out := new Byte[FRAME_HEADER_SIZE + |m|](_ => 0);
    Copy(out, FRAME_HEADER_SIZE, m);
    assert out[FRAME_HEADER_SIZE..] == out[..][FRAME_HEADER_SIZE..] == m;
    if key.Some? {
      SignOne(out, m, key);
    }
  }

  lemma LayoutStep(msgs: seq<seq<Byte>>, i: nat, key: Option<seq<Byte> -> seq<Byte>>)
    requires i < |msgs| && Fits(msgs) && KeyOk(key)
    ensures Layout(msgs, i, key) == MemberAt(msgs, i, key) + Layout(msgs, i + 1, key)
    ensures |MemberAt(msgs, i, key)| == MemberLen(msgs[i], i == |msgs| - 1)
    ensures |msgs[i]| >= HEADER_SIZE && PadTo8(|msgs[i]|) < TWO32
    ensures MemberAt(msgs, i, key) == Member(msgs[i], i == |msgs| - 1, key)
  {
    assert |msgs[i]| >= HEADER_SIZE;
    hide HeaderOk, KeyOk, Member, MemberOk;
    MemberKeeps(msgs[i], i == |msgs| - 1, key);
  }

  method TotalLen(msgs: seq<seq<Byte>>, ghost key: Option<seq<Byte> -> seq<Byte>>) returns (total: nat)
    requires Fits(msgs) && KeyOk(key)
    ensures total == |Layout(msgs, 0, key)|
  {
    hide KeyOk, MemberAt, Fits, Layout, MemberLen;
    total := 0;
    for i := 0 to |msgs|
      invariant total + |Layout(msgs, i, key)| == |Layout(msgs, 0, key)|
    {
      LayoutStep(msgs, i, key);
      total := total + MemberLen(msgs[i], i == |msgs| - 1);
    }
    LayoutEnds(msgs, key);
  }

  lemma LayoutEnds(msgs: seq<seq<Byte>>, key: Option<seq<Byte> -> seq<Byte>>)
    requires Fits(msgs)
    ensures Layout(msgs, |msgs|, key) == []
  {
  }

  const MAX_FRAME: nat := 0xFF_FFFF

  /** What the frame header says of the payload: type zero and a 24-bit length. */
  predicate HeaderSays(header: seq<Byte>, length: nat)
    requires |header| == FRAME_HEADER_SIZE
  {
    At(header, 0) == 0 && At(header, 1) * 0x1_0000 + At(header, 2) * 0x100 + At(header, 3) == length
  }

  /** PutFrameHeader refuses exactly a payload that 24 bits cannot count. */
  method PutFrameHeader(out: array<Byte>) returns (ok: bool)
    requires out.Length >= FRAME_HEADER_SIZE
    modifies out
    ensures ok <==> out.Length - FRAME_HEADER_SIZE <= MAX_FRAME
    ensures ok ==> HeaderSays(out[..FRAME_HEADER_SIZE], out.Length - FRAME_HEADER_SIZE)
    ensures out[FRAME_HEADER_SIZE..] == old(out[FRAME_HEADER_SIZE..])
  {
    var n := out.Length - FRAME_HEADER_SIZE;
    if n > MAX_FRAME {
      return false;
    }
    out[0] := 0;
    out[1] := n / 0x1_0000 % 256;
    out[2] := n / 0x100 % 256;
    out[3] := n % 256;
    return true;
  }

  /** sendCompound: the buffer behind its frame header is the group's frame, and
      the header counts it. */
  method SendCompound(msgs: seq<seq<Byte>>, key: Option<seq<Byte> -> seq<Byte>>) returns (out: array<Byte>, ok: bool)
    requires msgs != [] && Fits(msgs) && KeyOk(key)
    ensures out.Length >= FRAME_HEADER_SIZE && out[FRAME_HEADER_SIZE..] == Frame(msgs, key)
    ensures ok <==> |Frame(msgs, key)| <= MAX_FRAME
    ensures ok ==> HeaderSays(out[..FRAME_HEADER_SIZE], |Frame(msgs, key)|)
  {
    hide KeyOk, Layout, Sealed, HeaderSays;
    if |msgs| == 1 {
      out := SendOne(msgs[0], key);
    } else {
      var total := TotalLen(msgs, key);
      out := new Byte[FRAME_HEADER_SIZE + total](_ => 0);
      PlaceAll(out, msgs, key);
    }
    assert |out[FRAME_HEADER_SIZE..]| == out.Length - FRAME_HEADER_SIZE;
    ok := PutFrameHeader(out);
  }

  /** The members before the i-th are in place, and zeros up to the end. */
  ghost predicate Laid(buf: seq<Byte>, msgs: seq<seq<Byte>>, i: nat, off: nat, key: Option<seq<Byte> -> seq<Byte>>)
    requires i <= |msgs| && Fits(msgs)
  {
    && FRAME_HEADER_SIZE <= off && off + |Layout(msgs, i, key)| == |buf|
    && buf[FRAME_HEADER_SIZE..off] + Layout(msgs, i, key) == Layout(msgs, 0, key)
    && forall k :: off <= k < |buf| ==> buf[k] == 0
  }

  method PlaceNext(out: array<Byte>, msgs: seq<seq<Byte>>, i: nat, off: nat, key: Option<seq<Byte> -> seq<Byte>>) returns (next: nat)
    requires i < |msgs| && Fits(msgs) && KeyOk(key) && Laid(out[..], msgs, i, off, key)
    modifies out
    ensures Laid(out[..], msgs, i + 1, next, key)
  {
    hide HeaderOk, KeyOk, Member, Layout, PadTo8, Zeros, MemberLen, MemberAt, Fits;
    LayoutStep(msgs, i, key);
    var n := MemberLen(msgs[i], i == |msgs| - 1);
    ghost var before := out[..];
    ZeroRegion(before, off, n);
    assert out[off..off + n] == before[off..off + n];
    PlaceMember(out, off, msgs[i], i == |msgs| - 1, key);
    assert out[..][..off] == out[..off] && out[..][off + n..] == out[off + n..] && out[..][off..off + n] == out[off..off + n];
    PlacedNext(before, out[..], off, n, Layout(msgs, i + 1, key));
    next := off + n;
  }

  lemma LaidStarts(buf: seq<Byte>, msgs: seq<seq<Byte>>, key: Option<seq<Byte> -> seq<Byte>>)
    requires Fits(msgs) && |buf| == FRAME_HEADER_SIZE + |Layout(msgs, 0, key)| && forall k :: 0 <= k < |buf| ==> buf[k] == 0
    ensures Laid(buf, msgs, 0, FRAME_HEADER_SIZE, key)
  {
    hide Layout;
    assert buf[FRAME_HEADER_SIZE..FRAME_HEADER_SIZE] == [];
  }

  lemma LaidEnds(buf: seq<Byte>, msgs: seq<seq<Byte>>, off: nat, key: Option<seq<Byte> -> seq<Byte>>)
    requires Fits(msgs) && Laid(buf, msgs, |msgs|, off, key)
    ensures |buf| >= FRAME_HEADER_SIZE && buf[FRAME_HEADER_SIZE..] == Layout(msgs, 0, key)
  {
    LayoutEnds(msgs, key);
    hide Layout;
    assert buf[FRAME_HEADER_SIZE..off] == buf[FRAME_HEADER_SIZE..];
  }

  method PlaceAll(out: array<Byte>, msgs: seq<seq<Byte>>, key: Option<seq<Byte> -> seq<Byte>>)
    requires Fits(msgs) && KeyOk(key) && out.Length == FRAME_HEADER_SIZE + |Layout(msgs, 0, key)|
    requires forall k :: 0 <= k < out.Length ==> out[k] == 0
    modifies out
    ensures out[FRAME_HEADER_SIZE..] == Layout(msgs, 0, key)
  {
    hide KeyOk, Layout, Laid, Fits;
    LaidStarts(out[..], msgs, key);
    var off := FRAME_HEADER_SIZE;
    for i := 0 to |msgs|
      invariant Laid(out[..], msgs, i, off, key)
    {
      off := PlaceNext(out, msgs, i, off, key);
    }
    LaidEnds(out[..], msgs, off, key);
    assert out[FRAME_HEADER_SIZE..] == out[..][FRAME_HEADER_SIZE..];
  }

  lemma ZeroRegion(s: seq<Byte>, off: nat, n: nat)
    requires off + n <= |s| && forall k :: off <= k < |s| ==> s[k] == 0
    ensures s[off..off + n] == Zeros(n)
  {
  }

  method SignOne(out: array<Byte>, m: seq<Byte>, key: Option<seq<Byte> -> seq<Byte>>)
    requires key.Some? && KeyOk(key) && out.Length == FRAME_HEADER_SIZE + |m| && out[FRAME_HEADER_SIZE..] == m
    modifies out
    ensures out[FRAME_HEADER_SIZE..] == Sealed(m, key)
  {
    assert out[FRAME_HEADER_SIZE..FRAME_HEADER_SIZE + |m|] == out[FRAME_HEADER_SIZE..];
    SignAt(out, FRAME_HEADER_SIZE, |m|, key.value);
    assert out[FRAME_HEADER_SIZE..FRAME_HEADER_SIZE + |m|] == out[FRAME_HEADER_SIZE..];
  }

  lemma PlacedNext(before: seq<Byte>, after: seq<Byte>, off: nat, n: nat, rest: seq<Byte>)
    requires FRAME_HEADER_SIZE <= off && off + n <= |before| == |after|
    requires after[..off] == before[..off] && after[off + n..] == before[off + n..]
    requires forall k :: off <= k < |before| ==> before[k] == 0
    ensures after[FRAME_HEADER_SIZE..off + n] + rest == before[FRAME_HEADER_SIZE..off] + (after[off..off + n] + rest)
    ensures forall k :: off + n <= k < |after| ==> after[k] == 0
  {
    assert after[FRAME_HEADER_SIZE..off] == after[..off][FRAME_HEADER_SIZE..] == before[FRAME_HEADER_SIZE..off];
    assert forall k :: off + n <= k < |after| ==> after[k] == after[off + n..][k - off - n] == before[off + n..][k - off - n];
  }

  // ---- grouping ----

  /** One finished response, with what decides the frame it may share. */
  datatype Pending<!B> = Pending(body: B, session: nat, encrypt: bool)

  predicate Together<B>(a: Pending<B>, b: Pending<B>) { a.session == b.session && a.encrypt == b.encrypt }

  function Flatten<B>(groups: seq<seq<Pending<B>>>): seq<Pending<B>> {
    if groups == [] then [] else Flatten(groups[..|groups| - 1]) + groups[|groups| - 1]
  }

  ghost predicate Uniform<B(!new)>(group: seq<Pending<B>>) {
    group != [] && forall i :: 0 <= i < |group| ==> Together(group[i], group[0])
  }

  /** Neighbouring groups could not have been one. */
  ghost predicate Maximal<B(!new)>(groups: seq<seq<Pending<B>>>) {
    && (forall i :: 0 <= i < |groups| ==> Uniform(groups[i]))
    && (forall i :: 0 <= i < |groups| - 1 ==> !Together(groups[i + 1][0], groups[i][0]))
  }

  lemma FlattenAppend<B>(groups: seq<seq<Pending<B>>>, group: seq<Pending<B>>)
    ensures Flatten(groups + [group]) == Flatten(groups) + group
  {
    assert (groups + [group])[..|groups|] == groups;
  }

  lemma MaximalAppend<B(!new)>(groups: seq<seq<Pending<B>>>, group: seq<Pending<B>>)
    requires Maximal(groups) && Uniform(group) && (groups != [] ==> !Together(group[0], groups[|groups| - 1][0]))
    ensures Maximal(groups + [group])
  {
    var all := groups + [group];
    forall i | 0 <= i < |all| - 1 ensures !Together(all[i + 1][0], all[i][0]) {
      assert i < |groups| - 1 ==> !Together(groups[i + 1][0], groups[i][0]);
    }
  }

  lemma UniformAppend<B(!new)>(msgs: seq<Pending<B>>, n: nat)
    requires 0 < n < |msgs| && Uniform(msgs[..n]) && Together(msgs[n], msgs[0])
    ensures Uniform(msgs[..n + 1])
  {
    var group := msgs[..n + 1];
    forall i | 0 <= i < |group| ensures Together(group[i], group[0]) {
      assert i < n ==> msgs[..n][i] == group[i];
    }
  }

  /** flush sends the responses in order, in the longest runs that share a
      session and an encryption decision. */
  method Flush<B(!new)>(pending: seq<Pending<B>>) returns (groups: seq<seq<Pending<B>>>)
    ensures Flatten(groups) == pending && Maximal(groups)
  {
    hide Maximal, Flatten, Uniform;
    var msgs := pending;
    groups := [];
    NoGroups<B>();
    while |msgs| > 0
      invariant Flatten(groups) + msgs == pending
      invariant Maximal(groups) && (groups != [] ==> groups[|groups| - 1] != [])
      invariant groups != [] && msgs != [] ==> !Together(msgs[0], groups[|groups| - 1][0])
    {
      var n := 1;
      UniformOne(msgs);
      while n < |msgs| && msgs[n].session == msgs[0].session && msgs[n].encrypt == msgs[0].encrypt
        invariant 1 <= n <= |msgs|
        invariant Uniform(msgs[..n])
      {
        UniformAppend(msgs, n);
        n := n + 1;
      }
      FlattenAppend(groups, msgs[..n]);
      MaximalAppend(groups, msgs[..n]);
      assert msgs == msgs[..n] + msgs[n..];
      groups := groups + [msgs[..n]];
      msgs := msgs[n..];
    }
  }

  lemma NoGroups<B(!new)>()
    ensures Maximal<B>([]) && Flatten<B>([]) == []
  {
  }

  lemma UniformOne<B(!new)>(msgs: seq<Pending<B>>)
    requires msgs != []
    ensures Uniform(msgs[..1])
  {
  }
}
