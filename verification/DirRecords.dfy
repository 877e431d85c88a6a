/** One QUERY_DIRECTORY buffer: UTF-16 names, records of a fixed part and a name,
    and the NextEntryOffset chain through them. */
module DirRecords {
  import opened Seqs
  import opened Bytes

  /** A Unicode scalar value: no surrogate is one. */
  type Rune = r: nat | r < 0xD800 || 0xE000 <= r <= 0x10_FFFF
  type Name = seq<Rune>

  // ---- names ----

  function Unit(u: nat): (b: seq<Byte>)
    requires u < TWO16
    ensures |b| == 2
  {
    Put16(u)
  }

  /** A character as one UTF-16 unit, or as a surrogate pair. */
  function Units(r: Rune): (b: seq<Byte>)
    ensures |b| == if r <= 0xFFFF then 2 else 4
  {
    if r <= 0xFFFF then Unit(r) else Unit(0xD800 + (r - 0x1_0000) / 0x400) + Unit(0xDC00 + (r - 0x1_0000) % 0x400)
  }

  function NameBytes(name: Name): seq<Byte> {
    if name == [] then [] else NameBytes(name[..|name| - 1]) + Units(name[|name| - 1])
  }

  method Utf16Name(name: Name) returns (out: seq<Byte>)
    ensures out == NameBytes(name)
  {
    out := [];
    for i := 0 to |name|
      invariant out == NameBytes(name[..i])
    {
      assert name[..i + 1][..i] == name[..i];
      out := out + Units(name[i]);
    }
    assert name[..|name|] == name;
  }

  /** The length computed without encoding is the length of the encoding. */
  method Utf16Len(name: Name) returns (n: nat)
    ensures n == |NameBytes(name)|
  {
    n := 0;
    for i := 0 to |name|
      invariant n == |NameBytes(name[..i])|
    {
      assert name[..i + 1][..i] == name[..i];
      n := n + if name[i] <= 0xFFFF then 2 else 4;
    }
    assert name[..|name|] == name;
  }

  /** What a UTF-16 reader makes of bytes: units of two bytes, least significant
      first, and surrogates joined in pairs. */
  function ReadUtf16(b: seq<Byte>): seq<nat> {
    if |b| < 2 then []
    else
      var u := Get16(b, 0);
      if 0xD800 <= u < 0xDC00 && |b| >= 4 then
        [0x1_0000 + (u - 0xD800) * 0x400 + (Get16(b, 2) as int - 0xDC00) % 0x400] + ReadUtf16(b[4..])
      else [u] + ReadUtf16(b[2..])
  }

  lemma {:induction false} NameBytesFront(r: Rune, rest: Name)
    ensures NameBytes([r] + rest) == Units(r) + NameBytes(rest)
  {
    var name := [r] + rest;
    if rest == [] {
      assert name[..0] == [] && NameBytes([]) == [];
    } else {
      hide Units;
      assert name[..|name| - 1] == [r] + rest[..|rest| - 1];
      NameBytesFront(r, rest[..|rest| - 1]);
      Regroup(Units(r), NameBytes(rest[..|rest| - 1]), Units(rest[|rest| - 1]));
    }
  }

  lemma Regroup(a: seq<Byte>, b: seq<Byte>, c: seq<Byte>)
    ensures a + b + c == a + (b + c)
  {
  }

  lemma ReadUnits(r: Rune, rest: seq<Byte>)
    ensures ReadUtf16(Units(r) + rest) == [r] + ReadUtf16(rest)
  {
    var b := Units(r) + rest;
    if r <= 0xFFFF {
      assert b[0..2] == Put16(r);
      Get16Put16(b, 0, r);
      assert b[2..] == rest;
    } else {
      var hi, lo := 0xD800 + (r - 0x1_0000) / 0x400, 0xDC00 + (r - 0x1_0000) % 0x400;
      assert b[0..2] == Put16(hi) && b[2..4] == Put16(lo);
      Get16Put16(b, 0, hi);
      Get16Put16(b, 2, lo);
      assert b[4..] == rest;
    }
  }

  /** A UTF-16 reader gets the name back. */
  lemma {:induction false} NameReadBack(name: Name)
    ensures ReadUtf16(NameBytes(name)) == name
  {
    if name != [] {
      assert name == [name[0]] + name[1..];
      NameBytesFront(name[0], name[1..]);
      ReadUnits(name[0], NameBytes(name[1..]));
      NameReadBack(name[1..]);
    }
  }

  // ---- records ----

  const DIRECTORY: nat := 0x01
  const FULL: nat := 0x02
  const BOTH: nat := 0x03
  const NAMES: nat := 0x0C
  const ID_BOTH: nat := 0x25
  const ID_FULL: nat := 0x26

  function FixedSize(infoClass: nat): Option<nat> {
    if infoClass == DIRECTORY then Some(64)
    else if infoClass == FULL then Some(68)
    else if infoClass == NAMES then Some(12)
    else if infoClass == BOTH then Some(94)
    else if infoClass == ID_FULL then Some(80)
    else if infoClass == ID_BOTH then Some(104)
    else None
  }

  /** Where FileNameLength stands. */
  function LengthAt(infoClass: nat): nat { if infoClass == NAMES then 8 else 60 }

  /** The widths of the fields that records with a stat have in common, up to
      FileNameLength, which is the last of them. */
  const COMMON: seq<nat> := [4, 4] + [8, 8] + [8, 8] + [8, 8] + [4] + [4]

  /** The widths of the fields in front of the name, class by class. */
  function Widths(infoClass: nat): seq<nat> {
    if infoClass == 0x01 then COMMON
    else if infoClass == 0x02 then COMMON + [4]
    else if infoClass == 0x03 then COMMON + [4, 1] + [1, 24]
    else if infoClass == 0x0C then [4, 4] + [4]
    else if infoClass == 0x25 then COMMON + [4, 1] + [1, 24] + [2, 8]
    else if infoClass == 0x26 then COMMON + [4, 4] + [8]
    else []
  }

  function Sum(widths: seq<nat>): nat {
    if widths == [] then 0 else Sum(widths[..|widths| - 1]) + widths[|widths| - 1]
  }

  lemma SumOne(a: seq<nat>, x: nat)
    ensures Sum(a + [x]) == Sum(a) + x
  {
    assert (a + [x])[..|a|] == a;
  }

  lemma SumTwo(a: seq<nat>, x: nat, y: nat)
    ensures Sum(a + [x, y]) == Sum(a) + x + y
  {
    SumOne(a, x);
    SumOne(a + [x], y);
    assert a + [x] + [y] == a + [x, y];
  }

  lemma SumCommon()
    ensures Sum(COMMON) == 64 && Sum(COMMON[..9]) == 60
  {
    SumTwo([], 4, 4);
    assert [] + [4, 4] == [4, 4];
    SumTwo([4, 4], 8, 8);
    SumTwo([4, 4] + [8, 8], 8, 8);
    SumTwo([4, 4] + [8, 8] + [8, 8], 8, 8);
    SumOne([4, 4] + [8, 8] + [8, 8] + [8, 8], 4);
    SumOne([4, 4] + [8, 8] + [8, 8] + [8, 8] + [4], 4);
    assert COMMON[..9] == [4, 4] + [8, 8] + [8, 8] + [8, 8] + [4];
  }

  /** The fixed size is the sum of the fields, and FileNameLength stands behind
      the fields before it. */
  lemma LayoutsAddUp(infoClass: nat)
    ensures FixedSize(infoClass) == if Widths(infoClass) == [] then None else Some(Sum(Widths(infoClass)))
    ensures infoClass == 0x0C ==> LengthAt(infoClass) == Sum([4, 4])
    ensures infoClass != 0x0C ==> LengthAt(infoClass) == Sum(COMMON[..9])
  {
    hide Sum;
    SumCommon();
    SumEmpty();
    SumTwo([], 4, 4);
    assert [] + [4, 4] == [4, 4];
    SumOne([4, 4], 4);
    SumOne(COMMON, 4);
    SumTwo(COMMON, 4, 1);
    SumTwo(COMMON + [4, 1], 1, 24);
    SumTwo(COMMON + [4, 1] + [1, 24], 2, 8);
    SumTwo(COMMON, 4, 4);
    SumOne(COMMON + [4, 4], 8);
  }

  lemma SumEmpty()
    ensures Sum([]) == 0
  {
  }

  /** What the stat contributes: the fixed part without NextEntryOffset,
      FileIndex and FileNameLength. */
  predicate InfoFits(infoClass: nat, info: seq<Byte>) {
    FixedSize(infoClass).Some? && |info| == FixedSize(infoClass).value - 12
  }

  function Record(infoClass: nat, name: Name, info: seq<Byte>): (rec: seq<Byte>)
    requires InfoFits(infoClass, info) && |NameBytes(name)| < TWO32
    ensures |rec| == FixedSize(infoClass).value + |NameBytes(name)|
    ensures rec[..4] == Zeros(4)
  {
    var k := LengthAt(infoClass) - 8;
    Zeros(4) + Zeros(4) + info[..k] + Put32(|NameBytes(name)|) + info[k..] + NameBytes(name)
  }

  /** The name a client reads out of a record. */
  function NameIn(infoClass: nat, rec: seq<Byte>): Option<seq<nat>> {
    if FixedSize(infoClass).None? || |rec| < FixedSize(infoClass).value then None
    else
      var fixed, len := FixedSize(infoClass).value, Get32(rec, LengthAt(infoClass));
      if fixed + len > |rec| then None else Some(ReadUtf16(rec[fixed..fixed + len]))
  }

  function Padded(rec: seq<Byte>): seq<Byte> { rec + Zeros(PadTo8(|rec|) - |rec|) }

  predicate CanLink(rec: seq<Byte>) { |rec| >= 4 && PadTo8(|rec|) < TWO32 }

  /** The record in the buffer; linked when another one follows. */
  function Piece(rec: seq<Byte>, linked: bool): seq<Byte>
    requires CanLink(rec)
  {
    Put32(if linked then PadTo8(|rec|) else 0) + Padded(rec)[4..]
  }

  lemma RecordFields(infoClass: nat, name: Name, info: seq<Byte>)
    requires InfoFits(infoClass, info) && |NameBytes(name)| < TWO32
    ensures var rec, at, fixed := Record(infoClass, name, info), LengthAt(infoClass), FixedSize(infoClass).value;
      at + 4 <= fixed && rec[at..at + 4] == Put32(|NameBytes(name)|) && rec[fixed..] == NameBytes(name)
  {
    hide NameBytes, Put32, Zeros;
  }

  /** A client that follows the fields of a record finds its name, padded or not. */
  lemma PieceHas(infoClass: nat, name: Name, info: seq<Byte>, linked: bool)
    requires InfoFits(infoClass, info) && |NameBytes(name)| < TWO32 && CanLink(Record(infoClass, name, info))
    ensures NameIn(infoClass, Piece(Record(infoClass, name, info), linked)) == Some(name)
  {
    hide NameBytes, Put32, Zeros, Record, Piece, ReadUtf16, Get32, PadTo8;
    NameReadBack(name);
    var rec, len := Record(infoClass, name, info), |NameBytes(name)|;
    var piece, at, fixed := Piece(rec, linked), LengthAt(infoClass), FixedSize(infoClass).value;
    RecordFields(infoClass, name, info);
    PieceSame(rec, linked, at, at + 4);
    PieceSame(rec, linked, fixed, fixed + len);
    assert rec[fixed..fixed + len] == rec[fixed..];
    Get32Put32(piece, at, len);
  }

  /** Past NextEntryOffset the piece is the record. */
  lemma PieceSame(rec: seq<Byte>, linked: bool, i: nat, j: nat)
    requires CanLink(rec) && 4 <= i <= j <= |rec|
    ensures |Piece(rec, linked)| >= |rec| && Piece(rec, linked)[i..j] == rec[i..j]
  {
    assert forall k :: 4 <= k < |rec| ==> Piece(rec, linked)[k] == rec[k];
  }

  // ---- the chain ----

  predicate Linkable(recs: seq<seq<Byte>>) { forall i :: 0 <= i < |recs| ==> CanLink(recs[i]) }

  function Pieces(recs: seq<seq<Byte>>): seq<seq<Byte>>
    requires Linkable(recs)
  {
    seq(|recs|, i requires 0 <= i < |recs| => Piece(recs[i], i < |recs| - 1))
  }

  /** The buffer that carries these records. */
  function Chain(recs: seq<seq<Byte>>): seq<Byte>
    requires Linkable(recs)
  {
    Concat(Pieces(recs))
  }

  /** Follow NextEntryOffset from the head of the buffer. */
  function Follow(buf: seq<Byte>): seq<seq<Byte>> {
    if |buf| < 4 then []
    else
      var next := Get32(buf, 0);
      if next == 0 || next > |buf| then [buf] else [buf[..next]] + Follow(buf[next..])
  }

  lemma PieceLinks(rec: seq<Byte>, linked: bool)
    requires CanLink(rec)
    ensures |Piece(rec, linked)| == PadTo8(|rec|) && |rec| <= |Piece(rec, linked)|
    ensures Get32(Piece(rec, linked), 0) == if linked then PadTo8(|rec|) else 0
  {
    var p := Piece(rec, linked);
    assert p[0..4] == Put32(if linked then PadTo8(|rec|) else 0);
    Get32Put32(p, 0, if linked then PadTo8(|rec|) else 0);
  }

  lemma FollowFirst(piece: seq<Byte>, rest: seq<Byte>)
    requires |piece| >= 4 && Get32(piece, 0) == |piece|
    ensures Follow(piece + rest) == [piece] + Follow(rest)
  {
    var buf := piece + rest;
    assert Get32(buf, 0) == |piece|;
    assert buf[..|piece|] == piece && buf[|piece|..] == rest;
  }

  /** Following NextEntryOffset visits exactly the records, in order. */
  lemma {:induction false} FollowVisits(recs: seq<seq<Byte>>)
    requires Linkable(recs)
    ensures Follow(Chain(recs)) == Pieces(recs)
    decreases |recs|
  {
    if |recs| == 1 {
      PieceLinks(recs[0], false);
      var p := Piece(recs[0], false);
      assert Pieces(recs) == [p];
      ConcatFront(p, []);
      assert [p] + [] == [p] && p + [] == p;
    } else if |recs| > 1 {
      hide Piece, Concat, Get32;
      var p, rest := Piece(recs[0], true), recs[1..];
      PieceLinks(recs[0], true);
      FollowVisits(rest);
      assert Pieces(recs) == [p] + Pieces(rest);
      ConcatFront(p, Pieces(rest));
      FollowFirst(p, Chain(rest));
    }
  }

  // ---- appending one record ----

  lemma LastPiece(recs: seq<seq<Byte>>)
    requires Linkable(recs) && recs != []
    ensures Chain(recs) == Concat(Pieces(recs)[..|recs| - 1]) + Piece(recs[|recs| - 1], false)
  {
  }

  /** Linking the previous record and appending the next one extends the chain. */
  lemma ChainExtends(recs: seq<seq<Byte>>, rec: seq<Byte>)
    requires Linkable(recs) && CanLink(rec) && rec[..4] == Zeros(4)
    ensures Linkable(recs + [rec])
    ensures recs == [] ==> Chain(recs + [rec]) == Padded(rec)
    ensures recs != [] ==>
      var start := |Concat(Pieces(recs)[..|recs| - 1])|;
      && start + 4 <= |Chain(recs)| && |Chain(recs)| - start == PadTo8(|recs[|recs| - 1]|)
      && Chain(recs + [rec]) == PatchAt(Chain(recs), start, |Chain(recs)| - start) + Padded(rec)
    ensures |Concat(Pieces(recs + [rec])[..|recs|])| == |Chain(recs)|
  {
    var all := recs + [rec];
    BarePiece(rec);
    assert all[|all| - 1] == rec;
    LastPiece(all);
    if recs == [] {
      assert Pieces(all)[..0] == [];
    } else {
      var last := recs[|recs| - 1];
      var before := Pieces(recs)[..|recs| - 1];
      LastPiece(recs);
      PieceLinks(last, false);
      PieceLinks(last, true);
      assert Pieces(all)[..|recs|] == before + [Piece(last, true)];
      assert (before + [Piece(last, true)])[..|before|] == before;
      PatchedPiece(Concat(before), last);
    }
  }

  lemma BarePiece(rec: seq<Byte>)
    requires CanLink(rec) && rec[..4] == Zeros(4)
    ensures Piece(rec, false) == Padded(rec)
  {
    assert Put32(0) == Zeros(4);
    assert Padded(rec)[..4] == rec[..4];
    assert Padded(rec) == Padded(rec)[..4] + Padded(rec)[4..];
  }

  lemma PatchedPiece(before: seq<Byte>, rec: seq<Byte>)
    requires CanLink(rec)
    ensures |Piece(rec, false)| == PadTo8(|rec|)
    ensures PatchAt(before + Piece(rec, false), |before|, PadTo8(|rec|)) == before + Piece(rec, true)
  {
    var buf := before + Piece(rec, false);
    PieceLinks(rec, false);
    assert buf[..|before|] == before;
    assert buf[|before| + 4..] == Padded(rec)[4..];
  }
}
