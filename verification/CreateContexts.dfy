/** The list of create contexts in a CREATE message: encoding with back-patched
    offsets, and iteration over untrusted bytes. */
module CreateContexts {
  import opened Bytes

  const HEADER: nat := 16

  datatype Context = Context(name: seq<Byte>, data: seq<Byte>)

  // ---- encoding ----

  function DataOffset(c: Context): nat { PadTo8(HEADER + |c.name|) }

  function Header(c: Context, next: U32): (h: seq<Byte>)
    ensures |h| == HEADER
  {
    Put32(next) + (Put16(HEADER) + Put16(|c.name| % TWO16)) + (Zeros(2) + Put16(DataOffset(c) % TWO16)) + Put32(|c.data| % TWO32)
  }

  /** Header, name, data, each part aligned; without the trailing padding. */
  function Bare(c: Context, next: U32): (e: seq<Byte>)
    ensures |e| == DataOffset(c) + |c.data|
  {
    Header(c, next) + c.name + Zeros(DataOffset(c) - HEADER - |c.name|) + c.data
  }

  function EntryLen(c: Context, last: bool): nat {
    if last then DataOffset(c) + |c.data| else PadTo8(DataOffset(c) + |c.data|)
  }

  /** One entry of the list; every field is cut to its width. */
  function Entry(c: Context, last: bool): (e: seq<Byte>)
    ensures |e| == EntryLen(c, last)
  {
    Bare(c, if last then 0 else EntryLen(c, last) % TWO32) + Zeros(EntryLen(c, last) - DataOffset(c) - |c.data|)
  }

  function Entries(ctxs: seq<Context>): seq<seq<Byte>> {
    seq(|ctxs|, i requires 0 <= i < |ctxs| => Entry(ctxs[i], i == |ctxs| - 1))
  }

  function Encoded(ctxs: seq<Context>): seq<Byte> { Concat(Entries(ctxs)) }

  // ---- iterating ----

  function Slice(raw: seq<Byte>, at: nat, len: nat): seq<Byte> {
    if len > 0 && at + len <= |raw| then raw[at..at + len] else []
  }

  function ReadContext(raw: seq<Byte>): Context
    requires |raw| >= HEADER
  {
    Context(Slice(raw, Get16(raw, 4), Get16(raw, 6)), Slice(raw, Get16(raw, 10), Get32(raw, 12)))
  }

  /** The contexts visited in any byte string, until the callback says stop. */
  function Visited(raw: seq<Byte>, more: Context -> bool): seq<Context> {
    if |raw| < HEADER then []
    else
      var c, next := ReadContext(raw), Get32(raw, 0);
      if !more(c) || next == 0 || next >= |raw| then [c] else [c] + Visited(raw[next..], more)
  }

  // ---- round trip ----

  /** The fields of the entry hold the lengths and offsets they must. */
  predicate WithinWidths(c: Context, last: bool) {
    && |c.name| < TWO16 && |c.data| < TWO32
    && (c.data != [] ==> DataOffset(c) < TWO16)
    && (!last ==> EntryLen(c, false) < TWO32)
  }

  predicate AllWithin(ctxs: seq<Context>) {
    forall i :: 0 <= i < |ctxs| ==> WithinWidths(ctxs[i], i == |ctxs| - 1)
  }

  lemma HeaderFields(c: Context, next: U32)
    requires |c.name| < TWO16 && |c.data| < TWO32
    ensures var h := Header(c, next);
      && Get32(h, 0) == next && Get16(h, 4) == HEADER && Get16(h, 6) == |c.name|
      && Get16(h, 10) == DataOffset(c) % TWO16 && Get32(h, 12) == |c.data|
  {
    hide Put16, Put32, Get16, Get32, Zeros;
    var h := Header(c, next);
    assert h[0..4] == Put32(next);
    Get32Put32(h, 0, next);
    assert h[4..6] == Put16(HEADER);
    Get16Put16(h, 4, HEADER);
    assert h[6..8] == Put16(|c.name|);
    Get16Put16(h, 6, |c.name|);
    HeaderTail(c, next);
  }

  lemma HeaderTail(c: Context, next: U32)
    requires |c.data| < TWO32
    ensures Get16(Header(c, next), 10) == DataOffset(c) % TWO16 && Get32(Header(c, next), 12) == |c.data|
  {
    hide Put16, Put32, Get16, Get32, Zeros;
    var h := Header(c, next);
    assert h[10..12] == Put16(DataOffset(c) % TWO16);
    Get16Put16(h, 10, DataOffset(c) % TWO16);
    assert h[12..16] == Put32(|c.data|);
    Get32Put32(h, 12, |c.data|);
  }

  lemma EntryStarts(c: Context, last: bool, rest: seq<Byte>)
    requires WithinWidths(c, last)
    ensures var raw := Entry(c, last) + rest;
      |raw| >= HEADER && raw == Header(c, if last then 0 else EntryLen(c, last)) + raw[HEADER..]
  {
    hide Header, Zeros;
    var next := if last then 0 else EntryLen(c, last);
    assert next % TWO32 == next;
    assert Entry(c, last)[..HEADER] == Bare(c, next)[..HEADER] == Header(c, next);
  }

  lemma EntryFields(c: Context, last: bool, rest: seq<Byte>)
    requires WithinWidths(c, last)
    ensures var raw := Entry(c, last) + rest;
      && |raw| >= HEADER && Get32(raw, 0) == (if last then 0 else EntryLen(c, last))
      && Get16(raw, 4) == HEADER && Get16(raw, 6) == |c.name| && Get16(raw, 10) == DataOffset(c) % TWO16 && Get32(raw, 12) == |c.data|
  {
    var raw, next := Entry(c, last) + rest, if last then 0 else EntryLen(c, last);
    var h, tail := Header(c, next), raw[HEADER..];
    EntryStarts(c, last, rest);
    hide Entry, Bare, Header, Get16, Get32, Put16, Put32;
    HeaderFields(c, next);
    GetInPrefix(h, tail, 0);
    GetInPrefix(h, tail, 4);
    GetInPrefix(h, tail, 6);
    GetInPrefix(h, tail, 10);
    GetInPrefix(h, tail, 12);
  }

  lemma EntryParts(c: Context, last: bool, rest: seq<Byte>)
    ensures var raw := Entry(c, last) + rest;
      raw[HEADER..HEADER + |c.name|] == c.name && raw[DataOffset(c)..DataOffset(c) + |c.data|] == c.data
  {
    hide Put32, Put16, Zeros;
  }

  lemma ReadEntry(c: Context, last: bool, rest: seq<Byte>)
    requires WithinWidths(c, last)
    ensures |Entry(c, last) + rest| >= HEADER && ReadContext(Entry(c, last) + rest) == c
  {
    hide Entry, Get32, Get16;
    EntryFields(c, last, rest);
    EntryParts(c, last, rest);
  }

  lemma VisitFirst(c: Context, rest: seq<Byte>)
    requires WithinWidths(c, false) && rest != []
    ensures Visited(Entry(c, false) + rest, _ => true) == [c] + Visited(rest, _ => true)
  {
    hide Get32, ReadContext;
    var raw := Entry(c, false) + rest;
    EntryFields(c, false, rest);
    ReadEntry(c, false, rest);
    hide Entry;
    assert raw[EntryLen(c, false)..] == rest;
  }

  lemma VisitLast(c: Context)
    requires WithinWidths(c, true)
    ensures Visited(Entry(c, true), _ => true) == [c]
  {
    assert Entry(c, true) + [] == Entry(c, true);
    EntryFields(c, true, []);
    ReadEntry(c, true, []);
  }

  /** Iterating an encoded list yields its names and data, in order. */
  lemma {:induction false} IterateEncoded(ctxs: seq<Context>)
    requires AllWithin(ctxs)
    ensures Visited(Encoded(ctxs), _ => true) == ctxs
  {
    if |ctxs| == 1 {
      assert Entries(ctxs) == [Entry(ctxs[0], true)];
      ConcatOne(Entry(ctxs[0], true));
      VisitLast(ctxs[0]);
      assert ctxs == [ctxs[0]];
    } else if |ctxs| > 1 {
      hide Entry, Concat, Visited;
      var first, rest := ctxs[0], ctxs[1..];
      assert Entries(ctxs) == [Entry(first, false)] + Entries(rest);
      ConcatFront(Entry(first, false), Entries(rest));
      IterateEncoded(rest);
      SomeBytes(rest);
      VisitFirst(first, Encoded(rest));
      assert ctxs == [first] + rest;
    }
  }

  lemma ConcatOne(part: seq<Byte>)
    ensures Concat([part]) == part
  {
    assert [part][..0] == [];
  }

  lemma SomeBytes(ctxs: seq<Context>)
    requires ctxs != []
    ensures Encoded(ctxs) != []
  {
    assert |Entries(ctxs)[|ctxs| - 1]| >= HEADER;
  }

  /** Decoding a list, appending to it and encoding again extends it. */
  lemma AppendExtends(base: seq<Context>, more: seq<Context>)
    requires AllWithin(base) && AllWithin(base + more)
    ensures var again := Encoded(Visited(Encoded(base), _ => true) + more);
      again == Encoded(base + more) && Visited(again, _ => true) == base + more
  {
    IterateEncoded(base);
    IterateEncoded(base + more);
  }

  /** A name or data too long for its length field never survives. */
  lemma WidthsNeeded(c: Context, raw: seq<Byte>)
    requires |raw| >= HEADER && (|c.name| >= TWO16 || |c.data| >= TWO32)
    ensures ReadContext(raw) != c
  {
    var got := ReadContext(raw);
    assert |got.name| < TWO16 && |got.data| < TWO32;
  }

  // ---- the loops ----

  /** Iteration ends on every byte string: each turn moves on or stops. */
  method Iterate(raw: seq<Byte>, more: Context -> bool) returns (seen: seq<Context>)
    ensures seen == Visited(raw, more)
  {
    hide ReadContext, Get32;
    seen := [];
    var off := 0;
    assert raw[0..] == raw;
    while off < |raw|
      invariant 0 <= off <= |raw|
      invariant Visited(raw, more) == seen + Visited(raw[off..], more)
    {
      if |raw| - off < HEADER {
        return;
      }
      var rest := raw[off..];
      var c, next := ReadContext(rest), Get32(rest, 0);
      ghost var before := seen;
      seen := seen + [c];
      if !more(c) || next == 0 {
        return;
      }
      if off + next >= |raw| {
        return;
      }
      assert rest[next..] == raw[off + next..];
      Regroup(before, c, Visited(raw[off + next..], more));
      off := off + next;
    }
  }

  lemma Regroup(seen: seq<Context>, c: Context, rest: seq<Context>)
    ensures seen + ([c] + rest) == seen + [c] + rest
  {
  }

  method PadFrom(out: seq<Byte>, start: nat) returns (padded: seq<Byte>)
    requires start <= |out|
    ensures padded == out + Zeros(PadTo8(|out| - start) - (|out| - start))
  {
    padded := out;
    while (|padded| - start) % 8 != 0
      invariant start <= |padded| && |out| <= |padded| <= start + PadTo8(|out| - start)
      invariant padded == out + Zeros(|padded| - |out|)
      decreases start + PadTo8(|out| - start) - |padded|
    {
      padded := padded + [0];
    }
  }

  /** Append one entry: header first, then name and data, then the offsets. */
  method AppendEntry(out: seq<Byte>, c: Context, last: bool) returns (out': seq<Byte>)
    ensures out' == out + Entry(c, last)
  {
    var start := |out|;
    out' := out + (Zeros(4) + (Put16(HEADER) + Put16(|c.name| % TWO16)) + (Zeros(2) + Put16(0)) + Put32(|c.data| % TWO32));
    out' := out' + c.name;
    out' := PadFrom(out', start);
    var dataOff := (|out'| - start) % TWO16;
    out' := Patch16At(out', start + 10, dataOff);
    out' := out' + c.data;
    HeaderPatched(out, c, out');
    if !last {
      out' := PadFrom(out', start);
      NextPatched(out, c, out');
      out' := PatchAt(out', start, (|out'| - start) % TWO32);
    } else {
      assert Bare(c, 0) + Zeros(0) == Bare(c, 0);
    }
  }

  lemma HeaderPatched(out: seq<Byte>, c: Context, got: seq<Byte>)
    requires var h := Zeros(4) + (Put16(HEADER) + Put16(|c.name| % TWO16)) + (Zeros(2) + Put16(0)) + Put32(|c.data| % TWO32);
      var padded := out + h + c.name + Zeros(PadTo8(HEADER + |c.name|) - HEADER - |c.name|);
      got == Patch16At(padded, |out| + 10, DataOffset(c) % TWO16) + c.data
    ensures got == out + Bare(c, 0)
  {
    assert Put32(0) == Zeros(4);
    var h := Zeros(4) + (Put16(HEADER) + Put16(|c.name| % TWO16)) + (Zeros(2) + Put16(0)) + Put32(|c.data| % TWO32);
    assert Header(c, 0) == h[..10] + Put16(DataOffset(c) % TWO16) + h[12..];
  }

  lemma NextPatched(out: seq<Byte>, c: Context, got: seq<Byte>)
    requires got == out + Bare(c, 0) + Zeros(EntryLen(c, false) - DataOffset(c) - |c.data|)
    ensures PatchAt(got, |out|, EntryLen(c, false) % TWO32) == out + Entry(c, false)
  {
    var next := EntryLen(c, false) % TWO32;
    assert Bare(c, 0)[4..] == Bare(c, next)[4..];
    assert Bare(c, next) == Put32(next) + Bare(c, next)[4..];
  }

  method Encode(ctxs: seq<Context>) returns (out: seq<Byte>)
    ensures out == Encoded(ctxs)
  {
    hide Entry;
    out := [];
    for i := 0 to |ctxs|
      invariant out == Concat(Entries(ctxs)[..i])
    {
      out := AppendEntry(out, ctxs[i], i == |ctxs| - 1);
      assert Entries(ctxs)[..i + 1][..i] == Entries(ctxs)[..i];
    }
    assert Entries(ctxs)[..|ctxs|] == Entries(ctxs);
  }
}
