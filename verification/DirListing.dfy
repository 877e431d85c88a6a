/** A directory listing served over several QUERY_DIRECTORY calls: what each call
    packs into its buffer, and where it leaves the cursor. */
module DirListing {
  import opened Seqs
  import opened Bytes
  import opened DirRecords

  /** One call: buffer size, class, the single-entry flag, and what a stat of
      each entry would answer at that moment. */
  datatype Call = Call(maxBytes: U32, infoClass: nat, single: bool, probe: nat -> Option<seq<Byte>>)

  datatype Reply = InvalidInfoClass | NoSuchFile | NoMoreFiles | InfoLengthMismatch | Success(buffer: seq<Byte>)

  predicate Supported(c: Call) { FixedSize(c.infoClass).Some? }

  /** The names class needs no stat. */
  function InfoOf(c: Call, i: nat): Option<seq<Byte>> { if c.infoClass == NAMES then Some([]) else c.probe(i) }

  ghost predicate CallOk(c: Call) {
    Supported(c) ==> forall i: nat :: InfoOf(c, i).Some? ==> InfoFits(c.infoClass, InfoOf(c, i).value)
  }

  predicate Skips(c: Call, i: nat) { InfoOf(c, i).None? }

  /** What a record takes in the buffer, known from its name alone. */
  function Price(c: Call, name: Name): nat
    requires Supported(c)
  {
    PadTo8(FixedSize(c.infoClass).value + |NameBytes(name)|)
  }

  /** Where a call stops that stands at i, has used bytes and room for more
      records: at the end, at its limit, or before a record that does not fit. */
  function Scan(entries: seq<Name>, c: Call, i: nat, used: nat, room: nat): (end: nat)
    requires Supported(c) && i <= |entries|
    ensures i <= end <= |entries|
    decreases |entries| - i
  {
    if i == |entries| || room == 0 || used + Price(c, entries[i]) > c.maxBytes then i
    else if Skips(c, i) then Scan(entries, c, i + 1, used, room)
    else Scan(entries, c, i + 1, used + Price(c, entries[i]), room - 1)
  }

  /** The entries from a up to b whose stat succeeded. */
  function Picked(c: Call, a: nat, b: nat): seq<nat> {
    if b <= a then [] else Picked(c, a, b - 1) + if Skips(c, b - 1) then [] else [b - 1]
  }

  ghost predicate AllFit(entries: seq<Name>, c: Call, ids: seq<nat>) {
    Supported(c) && forall k :: 0 <= k < |ids| ==> Fits(entries, c, ids[k])
  }

  ghost predicate Fits(entries: seq<Name>, c: Call, i: nat)
    requires Supported(c)
  {
    i < |entries| && InfoOf(c, i).Some? && InfoFits(c.infoClass, InfoOf(c, i).value) && Price(c, entries[i]) <= c.maxBytes
  }

  function RecordOf(entries: seq<Name>, c: Call, i: nat): (rec: seq<Byte>)
    requires Supported(c) && Fits(entries, c, i)
    ensures CanLink(rec) && rec[..4] == Zeros(4) && PadTo8(|rec|) == Price(c, entries[i])
  {
    Record(c.infoClass, entries[i], InfoOf(c, i).value)
  }

  ghost function Records(entries: seq<Name>, c: Call, ids: seq<nat>): (recs: seq<seq<Byte>>)
    requires AllFit(entries, c, ids)
    ensures Linkable(recs)
  {
    seq(|ids|, k requires 0 <= k < |ids| => RecordOf(entries, c, ids[k]))
  }

  // ---- one call ----

  /** Where the last record of the chain starts. */
  ghost function LastStart(entries: seq<Name>, c: Call, ids: seq<nat>): nat
    requires AllFit(entries, c, ids)
  {
    if ids == [] then 0 else |Concat(Pieces(Records(entries, c, ids))[..|ids| - 1])|
  }

  /** The buffer holds exactly the records of ids. */
  ghost predicate Packed(entries: seq<Name>, c: Call, ids: seq<nat>, out: seq<Byte>) {
    AllFit(entries, c, ids) && out == Chain(Records(entries, c, ids))
  }

  ghost predicate EndsAt(entries: seq<Name>, c: Call, ids: seq<nat>, start: nat) {
    AllFit(entries, c, ids) && start == LastStart(entries, c, ids)
  }

  lemma Appends(entries: seq<Name>, c: Call, ids: seq<nat>, i: nat)
    requires AllFit(entries, c, ids) && Fits(entries, c, i)
    ensures AllFit(entries, c, ids + [i])
    ensures var out, start, rec := Chain(Records(entries, c, ids)), LastStart(entries, c, ids), RecordOf(entries, c, i);
      && LastStart(entries, c, ids + [i]) == |out|
      && (ids == [] ==> Chain(Records(entries, c, ids + [i])) == out + Padded(rec))
      && (ids != [] ==> start + 4 <= |out| && |out| - start < TWO32)
      && (ids != [] ==> Chain(Records(entries, c, ids + [i])) == PatchAt(out, start, |out| - start) + Padded(rec))
  {
    var recs, rec := Records(entries, c, ids), RecordOf(entries, c, i);
    assert Records(entries, c, ids + [i]) == recs + [rec];
    hide RecordOf, Chain, Concat, Pieces, Padded, PatchAt, Price;
    ChainExtends(recs, rec);
    NoRecords();
    assert [] + Padded(rec) == Padded(rec);
  }

  lemma NoRecords()
    ensures Chain([]) == []
  {
  }

  lemma PackedNothing(entries: seq<Name>, c: Call)
    requires Supported(c)
    ensures Packed(entries, c, [], []) && EndsAt(entries, c, [], 0)
  {
    NoRecords();
  }

  /** Append the record of entry i, linking the record before it. */
  method AppendRecord(entries: seq<Name>, c: Call, ghost ids: seq<nat>, i: nat, out: seq<Byte>, prevStart: nat, first: bool)
      returns (out': seq<Byte>)
    requires Packed(entries, c, ids, out) && EndsAt(entries, c, ids, prevStart) && Fits(entries, c, i) && first == (ids == [])
    ensures Packed(entries, c, ids + [i], out') && EndsAt(entries, c, ids + [i], |out|)
    ensures |out'| == |out| + Price(c, entries[i])
  {
    Appends(entries, c, ids, i);
    var rec := Record(c.infoClass, entries[i], InfoOf(c, i).value);
    assert rec == RecordOf(entries, c, i);
    hide Chain, Records, LastStart, AllFit, Record, PatchAt;
    out' := out;
    if !first {
      out' := PatchAt(out', prevStart, |out'| - prevStart);
    }
    out' := out' + Padded(rec);
  }

  lemma Next(entries: seq<Name>, c: Call, sent: nat, i: nat, used: nat, room: nat)
    requires CallOk(c) && Supported(c) && sent <= i < |entries| && room > 0 && used + Price(c, entries[i]) <= c.maxBytes
    ensures Skips(c, i) ==>
      Scan(entries, c, i, used, room) == Scan(entries, c, i + 1, used, room) && Picked(c, sent, i + 1) == Picked(c, sent, i)
    ensures !Skips(c, i) ==> Fits(entries, c, i) && Picked(c, sent, i + 1) == Picked(c, sent, i) + [i]
    ensures !Skips(c, i) ==>
      Scan(entries, c, i, used, room) == Scan(entries, c, i + 1, used + Price(c, entries[i]), room - 1)
  {
  }

  lemma Stops(entries: seq<Name>, c: Call, i: nat, used: nat, room: nat)
    requires Supported(c) && i <= |entries|
    requires i == |entries| || room == 0 || used + Price(c, entries[i]) > c.maxBytes
    ensures Scan(entries, c, i, used, room) == i
  {
  }

  /** The scan from sent stands at i with this buffer. */
  ghost predicate Scanned(entries: seq<Name>, sent: nat, c: Call, limit: nat, i: nat, ids: seq<nat>, out: seq<Byte>, start: nat) {
    && Supported(c) && sent <= i <= |entries| && |ids| <= limit && |out| <= c.maxBytes
    && ids == Picked(c, sent, i) && Packed(entries, c, ids, out) && EndsAt(entries, c, ids, start)
    && Scan(entries, c, sent, 0, limit) == Scan(entries, c, i, |out|, limit - |ids|)
  }

  lemma ScanStarts(entries: seq<Name>, sent: nat, c: Call, limit: nat)
    requires Supported(c) && sent <= |entries|
    ensures Scanned(entries, sent, c, limit, sent, [], [], 0)
  {
    PackedNothing(entries, c);
  }

  ghost predicate HasRoom(entries: seq<Name>, c: Call, limit: nat, i: nat, ids: seq<nat>, out: seq<Byte>) {
    Supported(c) && i < |entries| && |ids| < limit && |out| + Price(c, entries[i]) <= c.maxBytes
  }

  lemma ScanSkips(entries: seq<Name>, sent: nat, c: Call, limit: nat, i: nat, ids: seq<nat>, out: seq<Byte>, start: nat)
    requires Scanned(entries, sent, c, limit, i, ids, out, start) && HasRoom(entries, c, limit, i, ids, out) && CallOk(c) && Skips(c, i)
    ensures Scanned(entries, sent, c, limit, i + 1, ids, out, start)
  {
    hide Scan, Picked, Packed, EndsAt, CallOk, Skips, Price;
    Next(entries, c, sent, i, |out|, limit - |ids|);
  }

  /** The next entry has a stat and room: its record is appended. */
  method TakeEntry(entries: seq<Name>, ghost sent: nat, c: Call, ghost limit: nat, i: nat, ghost ids: seq<nat>, out: seq<Byte>, prevStart: nat, first: bool)
      returns (out': seq<Byte>)
    requires Scanned(entries, sent, c, limit, i, ids, out, prevStart) && HasRoom(entries, c, limit, i, ids, out)
    requires CallOk(c) && !Skips(c, i) && first == (ids == [])
    ensures Scanned(entries, sent, c, limit, i + 1, ids + [i], out', |out|)
  {
    hide Scan, Picked, Packed, EndsAt, CallOk, Skips, Price, Fits;
    Next(entries, c, sent, i, |out|, limit - |ids|);
    out' := AppendRecord(entries, c, ids, i, out, prevStart, first);
  }

  lemma ScanEnds(entries: seq<Name>, sent: nat, c: Call, limit: nat, i: nat, ids: seq<nat>, out: seq<Byte>, start: nat)
    requires Scanned(entries, sent, c, limit, i, ids, out, start) && !HasRoom(entries, c, limit, i, ids, out)
    ensures Scan(entries, c, sent, 0, limit) == i && ids == Picked(c, sent, i) && Packed(entries, c, ids, out) && |out| <= c.maxBytes
  {
    hide Picked, Packed, EndsAt, Price;
    Stops(entries, c, i, |out|, limit - |ids|);
  }

  /** A reply ends at the last entry, at its limit, or before a record for which
      the buffer has no room. */
  predicate Full(entries: seq<Name>, end: nat, c: Call, encoded: nat, limit: nat, used: nat)
    requires Supported(c) && end <= |entries|
  {
    end == |entries| || encoded == limit || used + PadTo8(FixedSize(c.infoClass).value + |NameBytes(entries[end])|) > c.maxBytes
  }

  /** encodeDirEntriesLimited. The loop prices each record before its stat, links
      it to the one before, and counts skipped entries as consumed. */
  method EncodeEntries(entries: seq<Name>, sent: nat, c: Call, limit: nat)
      returns (out: seq<Byte>, consumed: nat, encoded: nat, ok: bool)
    requires sent <= |entries| && CallOk(c)
    ensures ok == Supported(c)
    ensures ok ==> sent + consumed == Scan(entries, c, sent, 0, limit)
    ensures ok ==> Packed(entries, c, Picked(c, sent, sent + consumed), out)
    ensures ok ==> encoded == |Picked(c, sent, sent + consumed)| && |out| <= c.maxBytes && encoded <= limit
    ensures ok ==> Full(entries, sent + consumed, c, encoded, limit, |out|)
  {
    hide CallOk, Scan, Picked, Packed, Scanned, FixedSize;
    out, consumed, encoded := [], 0, 0;
    if !Supported(c) {
      return out, 0, 0, false;
    }
    var fixed := FixedSize(c.infoClass).value;
    var needStat := c.infoClass != NAMES;
    var prevStart: nat, i: nat := 0, sent;
    ghost var ids: seq<nat> := [];
    ScanStarts(entries, sent, c, limit);
    while i < |entries| && encoded < limit
      invariant sent <= i <= |entries| && consumed == i - sent && encoded == |ids| <= limit
      invariant Scanned(entries, sent, c, limit, i, ids, out, prevStart)
      decreases |entries| - i
    {
      var len := Utf16Len(entries[i]);
      if |out| + PadTo8(fixed + len) > c.maxBytes {
        break;
      }
      if needStat && c.probe(i).None? {
        ScanSkips(entries, sent, c, limit, i, ids, out, prevStart);
      } else {
        var out' := TakeEntry(entries, sent, c, limit, i, ids, out, prevStart, encoded == 0);
        prevStart, out, encoded, ids := |out|, out', encoded + 1, ids + [i];
      }
      i := i + 1;
      consumed := i - sent;
    }
    ScanEnds(entries, sent, c, limit, i, ids, out, prevStart);
    return out, consumed, encoded, true;
  }

  // ---- the handle and its cursor ----

  function Room(entries: seq<Name>, sent: nat, c: Call): nat
    requires sent <= |entries|
  {
    if c.single then 1 else |entries| - sent
  }

  /** Where a call leaves the cursor. */
  function Moved(entries: seq<Name>, sent: nat, c: Call): (sent': nat)
    requires sent <= |entries|
    ensures sent <= sent' <= |entries|
  {
    if Supported(c) then Scan(entries, c, sent, 0, Room(entries, sent, c)) else sent
  }

  /** The answer to a call: its status, and on success exactly the records of the
      entries it moved over whose stat succeeded. */
  ghost predicate Answers(entries: seq<Name>, sent: nat, c: Call, reply: Reply)
    requires sent <= |entries|
  {
    if !Supported(c) then reply == InvalidInfoClass
    else if entries == [] then reply == NoSuchFile
    else if sent == |entries| then reply == NoMoreFiles
    else
      var ids := Picked(c, sent, Moved(entries, sent, c));
      if ids == [] then reply == if Moved(entries, sent, c) == |entries| then NoMoreFiles else InfoLengthMismatch
      else
        && reply.Success? && |reply.buffer| <= c.maxBytes && Packed(entries, c, ids, reply.buffer)
        && Full(entries, Moved(entries, sent, c), c, |ids|, Room(entries, sent, c), |reply.buffer|)
  }

  /** The enumeration state of an open directory. */
  class DirHandle {
    var entries: seq<Name>
    var sent: nat

    constructor (matched: seq<Name>)
      ensures entries == matched && sent == 0
    {
      entries, sent := matched, 0;
    }

    method Query(c: Call) returns (reply: Reply)
      requires sent <= |entries| && CallOk(c)
      modifies this`sent
      ensures sent == Moved(entries, old(sent), c) && Answers(entries, old(sent), c, reply)
    {
      hide CallOk, Scan, Picked, Packed, FixedSize;
      if !Supported(c) {
        return InvalidInfoClass;
      }
      if |entries| == 0 {
        return NoSuchFile;
      }
      if sent >= |entries| {
        Stops(entries, c, sent, 0, Room(entries, sent, c));
        return NoMoreFiles;
      }
      var limit := |entries| - sent;
      if c.single {
        limit := 1;
      }
      var buf, consumed, encoded, ok := EncodeEntries(entries, sent, c, limit);
      sent := sent + consumed;
      if encoded == 0 {
        if sent >= |entries| {
          return NoMoreFiles;
        }
        return InfoLengthMismatch;
      }
      return Success(buf);
    }
  }

  // ---- any number of calls ----

  /** A run of calls on one enumeration, each with the reply it got. */
  type Exchange = (Call, Reply)

  function Sent(entries: seq<Name>, run: seq<Exchange>): (n: nat)
    ensures n <= |entries|
  {
    if run == [] then 0 else Moved(entries, Sent(entries, run[..|run| - 1]), run[|run| - 1].0)
  }

  ghost predicate Served(entries: seq<Name>, run: seq<Exchange>) {
    run == [] ||
    (&& Served(entries, run[..|run| - 1]) && CallOk(run[|run| - 1].0)
     && Answers(entries, Sent(entries, run[..|run| - 1]), run[|run| - 1].0, run[|run| - 1].1))
  }

  /** The names a client reads from a reply, by following NextEntryOffset. */
  function NamesIn(c: Call, reply: Reply): seq<Option<seq<nat>>> {
    if !reply.Success? then []
    else
      var pieces := Follow(reply.buffer);
      seq(|pieces|, k requires 0 <= k < |pieces| => NameIn(c.infoClass, pieces[k]))
  }

  function Received(run: seq<Exchange>): seq<Option<seq<nat>>> {
    if run == [] then [] else Received(run[..|run| - 1]) + NamesIn(run[|run| - 1].0, run[|run| - 1].1)
  }

  function Skipped(c: Call, a: nat, b: nat): set<nat> {
    if b <= a then {} else Skipped(c, a, b - 1) + if Skips(c, b - 1) then {b - 1} else {}
  }

  lemma {:induction false} SkippedMembers(c: Call, a: nat, b: nat, i: nat)
    ensures i in Skipped(c, a, b) <==> a <= i < b && Skips(c, i)
  {
    if a < b { SkippedMembers(c, a, b - 1, i); }
  }

  /** The entries whose stat failed in the call that moved past them. */
  function Lost(entries: seq<Name>, run: seq<Exchange>): set<nat> {
    if run == [] then {}
    else
      var before := run[..|run| - 1];
      Lost(entries, before) + Skipped(run[|run| - 1].0, Sent(entries, before), Sent(entries, run))
  }

  /** The first n entries in order, without those of lost. */
  function Listed(entries: seq<Name>, n: nat, lost: set<nat>): seq<Option<seq<nat>>>
    requires n <= |entries|
  {
    if n == 0 then [] else Listed(entries, n - 1, lost) + if n - 1 in lost then [] else [Some(entries[n - 1])]
  }

  function NamesOf(entries: seq<Name>, ids: seq<nat>): seq<Option<seq<nat>>>
    requires forall k :: 0 <= k < |ids| ==> ids[k] < |entries|
  {
    seq(|ids|, k requires 0 <= k < |ids| => Some(entries[ids[k]]))
  }

  lemma PackedNames(entries: seq<Name>, c: Call, ids: seq<nat>, out: seq<Byte>)
    requires Packed(entries, c, ids, out)
    ensures (forall k :: 0 <= k < |ids| ==> ids[k] < |entries|) && NamesIn(c, Success(out)) == NamesOf(entries, ids)
  {
    var recs := Records(entries, c, ids);
    FollowVisits(recs);
    forall k | 0 <= k < |ids| ensures ids[k] < |entries| && NameIn(c.infoClass, Pieces(recs)[k]) == Some(entries[ids[k]]) {
      PieceNamed(entries, c, ids, k);
    }
    hide NameIn, Follow, Chain, NameBytes, RecordOf;
  }

  lemma PieceNamed(entries: seq<Name>, c: Call, ids: seq<nat>, k: nat)
    requires AllFit(entries, c, ids) && k < |ids|
    ensures ids[k] < |entries| && NameIn(c.infoClass, Pieces(Records(entries, c, ids))[k]) == Some(entries[ids[k]])
  {
    assert Fits(entries, c, ids[k]);
    assert Pieces(Records(entries, c, ids))[k] == Piece(RecordOf(entries, c, ids[k]), k < |ids| - 1);
    hide NameIn, Piece, NameBytes, Record;
    PieceHas(c.infoClass, entries[ids[k]], InfoOf(c, ids[k]).value, k < |ids| - 1);
  }

  lemma {:induction false} PickedBounds(c: Call, a: nat, b: nat, k: nat)
    requires k < |Picked(c, a, b)|
    ensures a <= Picked(c, a, b)[k] < b
  {
    if k < |Picked(c, a, b - 1)| {
      PickedBounds(c, a, b - 1, k);
    }
  }

  lemma NamesAppend(entries: seq<Name>, ids: seq<nat>, i: nat)
    requires (forall k :: 0 <= k < |ids| ==> ids[k] < |entries|) && i < |entries|
    ensures NamesOf(entries, ids + [i]) == NamesOf(entries, ids) + [Some(entries[i])]
  {
  }

  lemma PickedInside(c: Call, a: nat, b: nat, n: nat)
    requires b <= n
    ensures forall k :: 0 <= k < |Picked(c, a, b)| ==> Picked(c, a, b)[k] < n
  {
    forall k | 0 <= k < |Picked(c, a, b)| ensures Picked(c, a, b)[k] < n { PickedBounds(c, a, b, k); }
  }

  /** One call's entries continue the list. */
  lemma {:induction false} ListedExtends(entries: seq<Name>, c: Call, a: nat, b: nat, lost: set<nat>, lost': set<nat>)
    requires a <= b <= |entries|
    requires forall i: nat :: i < a ==> (i in lost' <==> i in lost)
    requires forall i: nat :: a <= i < b ==> (i in lost' <==> Skips(c, i))
    ensures forall k :: 0 <= k < |Picked(c, a, b)| ==> Picked(c, a, b)[k] < |entries|
    ensures Listed(entries, b, lost') == Listed(entries, a, lost) + NamesOf(entries, Picked(c, a, b))
  {
    PickedInside(c, a, b, |entries|);
    if b == a {
      SameListed(entries, a, lost, lost');
    } else {
      PickedInside(c, a, b - 1, |entries|);
      hide NamesOf, Skips;
      ListedExtends(entries, c, a, b - 1, lost, lost');
      NamesAppend(entries, Picked(c, a, b - 1), b - 1);
    }
  }

  lemma {:induction false} SameListed(entries: seq<Name>, n: nat, lost: set<nat>, lost': set<nat>)
    requires n <= |entries| && forall i: nat :: i < n ==> (i in lost' <==> i in lost)
    ensures Listed(entries, n, lost') == Listed(entries, n, lost)
  {
    if n > 0 { SameListed(entries, n - 1, lost, lost'); }
  }

  lemma {:induction false} LostBounds(entries: seq<Name>, run: seq<Exchange>, i: nat)
    requires i in Lost(entries, run)
    ensures i < Sent(entries, run)
  {
    SkippedMembers(run[|run| - 1].0, Sent(entries, run[..|run| - 1]), Sent(entries, run), i);
    if i in Lost(entries, run[..|run| - 1]) { LostBounds(entries, run[..|run| - 1], i); }
  }

  lemma AnswerNames(entries: seq<Name>, sent: nat, c: Call, reply: Reply)
    requires sent <= |entries| && Answers(entries, sent, c, reply)
    ensures var ids := Picked(c, sent, Moved(entries, sent, c));
      (forall k :: 0 <= k < |ids| ==> ids[k] < |entries|) && NamesIn(c, reply) == NamesOf(entries, ids)
    ensures reply.Success? ==> |reply.buffer| <= c.maxBytes
  {
    hide Picked, Packed, Scan;
    var ids := Picked(c, sent, Moved(entries, sent, c));
    if reply.Success? {
      PackedNames(entries, c, ids, reply.buffer);
    } else {
      NothingPicked(c, sent, Moved(entries, sent, c), entries, reply);
    }
  }

  lemma NothingPicked(c: Call, sent: nat, b: nat, entries: seq<Name>, reply: Reply)
    requires sent <= |entries| && Answers(entries, sent, c, reply) && !reply.Success? && b == Moved(entries, sent, c)
    ensures Picked(c, sent, b) == []
  {
  }

  /** Whatever the buffer sizes and classes, the replies of a run put together
      are the matched entries in order up to the cursor, without exactly those
      whose stat failed when their turn came. */
  lemma {:induction false} RepliesListEntries(entries: seq<Name>, run: seq<Exchange>)
    requires Served(entries, run)
    ensures Received(run) == Listed(entries, Sent(entries, run), Lost(entries, run))
  {
    if run != [] {
      var before, last := run[..|run| - 1], run[|run| - 1];
      var a, b := Sent(entries, before), Sent(entries, run);
      RepliesListEntries(entries, before);
      forall i: nat ensures i in Lost(entries, run) <==> i in Lost(entries, before) || (a <= i < b && Skips(last.0, i)) {
        SkippedMembers(last.0, a, b, i);
      }
      forall i | i in Lost(entries, before) ensures i < a { LostBounds(entries, before, i); }
      hide Answers, CallOk, Moved, Listed, Picked;
      AnswerNames(entries, a, last.0, last.1);
      ListedExtends(entries, last.0, a, b, Lost(entries, before), Lost(entries, run));
    }
  }

  /** When the listing has reached the end and no stat failed, the client has
      every entry, once, in order. */
  lemma CompleteListing(entries: seq<Name>, run: seq<Exchange>, i: nat)
    requires Served(entries, run) && Sent(entries, run) == |entries| && Lost(entries, run) == {} && i < |entries|
    ensures |Received(run)| == |entries| && Received(run)[i] == Some(entries[i])
  {
    RepliesListEntries(entries, run);
    AllListed(entries, |entries|, i);
  }

  lemma {:induction false} AllListed(entries: seq<Name>, n: nat, i: nat)
    requires n <= |entries|
    ensures |Listed(entries, n, {})| == n
    ensures i < n ==> Listed(entries, n, {})[i] == Some(entries[i])
  {
    if n > 0 { AllListed(entries, n - 1, i); }
  }
}
