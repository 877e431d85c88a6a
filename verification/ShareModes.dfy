/** The process-wide deny-mode table: a conflict index by file, a reverse index
    by handle, and the CREATEs parked on each file. */
module ShareModes {
  import opened Handles
  import opened Seqs

  const SHARE_READ: bv32 := 0x1
  const SHARE_WRITE: bv32 := 0x2
  const SHARE_DELETE: bv32 := 0x4

  const READ_DATA: bv32 := 0x1
  const WRITE_DATA: bv32 := 0x2
  const APPEND_DATA: bv32 := 0x4
  const EXECUTE: bv32 := 0x20
  const READ_ATTRIBUTES: bv32 := 0x80
  const WRITE_ATTRIBUTES: bv32 := 0x100
  const DELETE: bv32 := 0x10000
  const SYNCHRONIZE: bv32 := 0x100000
  const GENERIC_ALL: bv32 := 0x1000_0000
  const GENERIC_EXECUTE: bv32 := 0x2000_0000
  const GENERIC_WRITE: bv32 := 0x4000_0000
  const GENERIC_READ: bv32 := 0x8000_0000

  const SHARING_READ: bv32 := READ_DATA | EXECUTE | GENERIC_READ | GENERIC_EXECUTE | GENERIC_ALL
  const SHARING_WRITE: bv32 := WRITE_DATA | APPEND_DATA | GENERIC_WRITE | GENERIC_ALL
  const SHARING_DELETE: bv32 := DELETE | GENERIC_ALL
  const SHARING_ATTR_ONLY: bv32 := READ_ATTRIBUTES | WRITE_ATTRIBUTES | SYNCHRONIZE

  /** What an open does to the file and what it lets others do. */
  datatype Mode = Mode(read: bool, write: bool, del: bool, attrOnly: bool, letRead: bool, letWrite: bool, letDelete: bool)

  datatype Entry = Entry(owner: Open, mode: Mode)

  type Waiter = nat

  datatype Table = Table(
    byFile: map<FileKey, seq<Entry>>,
    owners: map<Open, FileKey>,
    waiters: map<FileKey, seq<Waiter>>)

  const EMPTY: Table := Table(map[], map[], map[])

  function NewMode(desired: bv32, share: bv32): Mode {
    Mode(desired & SHARING_READ != 0, desired & SHARING_WRITE != 0, desired & SHARING_DELETE != 0,
         desired & !SHARING_ATTR_ONLY == 0, share & SHARE_READ != 0, share & SHARE_WRITE != 0, share & SHARE_DELETE != 0)
  }

  /** The two-way sharing check: each side must permit what the other does. */
  predicate Conflict(existing: Mode, incoming: Mode) {
    existing.attrOnly == incoming.attrOnly &&
    (|| (incoming.read && !existing.letRead)
     || (incoming.write && !existing.letWrite)
     || (incoming.del && !existing.letDelete)
     || (existing.read && !incoming.letRead)
     || (existing.write && !incoming.letWrite)
     || (existing.del && !incoming.letDelete))
  }

  // ---- the table operations as functions ----

  function OwnedIn(live: set<Open>): Entry -> bool { (e: Entry) => e.owner in live }

  function NotOwnedBy(o: Open): Entry -> bool { (e: Entry) => e.owner != o }

  function Slot(t: Table, key: FileKey): seq<Entry> {
    if key in t.byFile then t.byFile[key] else []
  }

  function Parked(t: Table, key: FileKey): seq<Waiter> {
    if key in t.waiters then t.waiters[key] else []
  }

  /** Write a file's list back, dropping the slot when it is empty. */
  function Store(byFile: map<FileKey, seq<Entry>>, key: FileKey, ents: seq<Entry>): map<FileKey, seq<Entry>> {
    if ents == [] then byFile - {key} else byFile[key := ents]
  }

  predicate Clashes(ents: seq<Entry>, mode: Mode) {
    exists i :: 0 <= i < |ents| && Conflict(ents[i].mode, mode)
  }

  function Owners(ents: seq<Entry>): set<Open> {
    set e | e in ents :: e.owner
  }

  /** Drop the entries of key whose owner no longer answers for it. */
  function Sweep(t: Table, key: FileKey, live: set<Open>): Table {
    t.(byFile := Store(t.byFile, key, Filter(Slot(t, key), OwnedIn(live))),
       owners := t.owners - (Owners(Slot(t, key)) - live))
  }

  /** Record a reservation at the end of its file's list. */
  function Insert(t: Table, key: FileKey, o: Open, mode: Mode): Table {
    t.(byFile := Store(t.byFile, key, Slot(t, key) + [Entry(o, mode)]), owners := t.owners[o := key])
  }

  function Acquire(t: Table, key: FileKey, o: Open, mode: Mode, live: set<Open>): (Table, bool) {
    if o in t.owners then (t, true)
    else
      var swept := Sweep(t, key, live);
      if Clashes(Slot(swept, key), mode) then (swept, false) else (Insert(swept, key, o, mode), true)
  }

  function Wake(t: Table, key: FileKey): Table {
    t.(waiters := t.waiters - {key})
  }

  function Release(t: Table, o: Open): Table {
    if o !in t.owners then t
    else
      var key := t.owners[o];
      Wake(t.(byFile := Store(t.byFile, key, Filter(Slot(t, key), NotOwnedBy(o))), owners := t.owners - {o}), key)
  }

  function Rename(ents: seq<Entry>, from: Open, to: Open): seq<Entry> {
    seq(|ents|, i requires 0 <= i < |ents| => if ents[i].owner == from then ents[i].(owner := to) else ents[i])
  }

  function Transfer(t: Table, from: Open, to: Open): Table {
    if from == to || from !in t.owners then t
    else
      var key := t.owners[from];
      t.(byFile := t.byFile[key := Rename(Slot(t, key), from, to)], owners := (t.owners - {from})[to := key])
  }

  function AddWaiter(t: Table, key: FileKey, w: Waiter): Table {
    t.(waiters := t.waiters[key := Parked(t, key) + [w]])
  }

  function Without(ws: seq<Waiter>, w: Waiter): seq<Waiter> {
    if ws == [] then []
    else if ws[0] == w then ws[1..]
    else [ws[0]] + Without(ws[1..], w)
  }

  lemma {:induction false} WithoutAt(ws: seq<Waiter>, w: Waiter, i: nat)
    requires i < |ws| && ws[i] == w && w !in ws[..i]
    ensures Without(ws, w) == ws[..i] + ws[i + 1..]
  {
    if i > 0 {
      assert ws[0] in ws[..i];
      assert ws[..i] == [ws[0]] + ws[1..][..i - 1];
      WithoutAt(ws[1..], w, i - 1);
      assert ws[1..][i..] == ws[i + 1..];
    }
  }

  function Unwait(t: Table, key: FileKey, w: Waiter): Table {
    if w !in Parked(t, key) then t
    else
      var ws := Without(Parked(t, key), w);
      t.(waiters := if ws == [] then t.waiters - {key} else t.waiters[key := ws])
  }

  // ---- what every operation keeps ----

  /** Two entries of one file: different handles, compatible modes. */
  function Together(): (Entry, Entry) -> bool {
    (a: Entry, b: Entry) => a.owner != b.owner && !Conflict(a.mode, b.mode)
  }

  /** One file's list: its entries get along, and they are exactly the handles
      the reverse index files under key. */
  ghost predicate SlotOk(ents: seq<Entry>, key: FileKey, owners: map<Open, FileKey>) {
    && Pairwise(ents, Together())
    && (forall e :: e in ents ==> e.owner in owners && owners[e.owner] == key)
    && (forall o :: o in owners && owners[o] == key ==> o in Owners(ents))
  }

  ghost predicate Valid(t: Table) {
    && (forall key :: key in t.byFile ==> t.byFile[key] != [])
    && (forall key :: SlotOk(Slot(t, key), key, t.owners))
  }

  /** The sharing check does not depend on who came first. */
  lemma ConflictSymmetric(a: Mode, b: Mode)
    ensures Conflict(a, b) == Conflict(b, a)
  {
  }

  /** An open that wants desired meets an open that shares only share: it wants
      to read, write or delete and the bit of that kind is missing. */
  predicate Denied(desired: bv32, share: bv32) {
    || (desired & 0xB000_0021 != 0 && share & 0x1 == 0)
    || (desired & 0x5000_0006 != 0 && share & 0x2 == 0)
    || (desired & 0x1001_0000 != 0 && share & 0x4 == 0)
  }

  /** The check on the masks as they come: two opens clash exactly when neither is
      for attributes alone and one of them is denied by the other. */
  lemma SharingExactly(d1: bv32, s1: bv32, d2: bv32, s2: bv32)
    ensures Conflict(NewMode(d1, s1), NewMode(d2, s2)) <==>
      d1 & 0xFFEF_FE7F != 0 && d2 & 0xFFEF_FE7F != 0 && (Denied(d1, s2) || Denied(d2, s1))
  {
  }

  /** What follows for the common cases: opens for attributes alone never clash,
      sharing everything never clashes, and denying everything clashes with every
      open that reads, writes or deletes. */
  lemma SharingRules(d1: bv32, s1: bv32, d2: bv32, s2: bv32)
    ensures d1 & 0xFFEF_FE7F == 0 || d2 & 0xFFEF_FE7F == 0 ==> !Conflict(NewMode(d1, s1), NewMode(d2, s2))
    ensures s1 & 7 == 7 && s2 & 7 == 7 ==> !Conflict(NewMode(d1, s1), NewMode(d2, s2))
    ensures s1 & 7 == 0 && d1 & 0xFFEF_FE7F != 0 && d2 & 0xF001_0027 != 0 ==> Conflict(NewMode(d1, s1), NewMode(d2, s2))
  {
    SharingExactly(d1, s1, d2, s2);
  }

  /** The table with one file's list and the reverse index replaced. */
  function Replace(t: Table, key: FileKey, ents: seq<Entry>, owners: map<Open, FileKey>): Table {
    t.(byFile := Store(t.byFile, key, ents), owners := owners)
  }

  lemma ReplaceValid(t: Table, key: FileKey, ents: seq<Entry>, owners: map<Open, FileKey>)
    requires Valid(t) && SlotOk(ents, key, owners)
    requires forall o :: o in owners && owners[o] != key ==> o in t.owners && t.owners[o] == owners[o]
    requires forall o :: o in t.owners && t.owners[o] != key ==> o in owners && t.owners[o] == owners[o]
    ensures Valid(Replace(t, key, ents, owners))
    ensures Slot(Replace(t, key, ents, owners), key) == ents
  {
    var t' := Replace(t, key, ents, owners);
    forall k ensures SlotOk(Slot(t', k), k, t'.owners) {
      assert SlotOk(Slot(t, k), k, t.owners);
      assert k != key ==> Slot(t', k) == Slot(t, k);
    }
  }

  lemma SweepValid(t: Table, key: FileKey, live: set<Open>)
    requires Valid(t)
    ensures Valid(Sweep(t, key, live))
    ensures Slot(Sweep(t, key, live), key) == Filter(Slot(t, key), OwnedIn(live))
    ensures forall o :: o in t.owners && (o in live || t.owners[o] != key) ==> o in Sweep(t, key, live).owners
  {
    var ents := Slot(t, key);
    var kept, owners := Filter(ents, OwnedIn(live)), t.owners - (Owners(ents) - live);
    assert SlotOk(ents, key, t.owners);
    FilterMembers(ents, OwnedIn(live));
    FilterPairwise(ents, OwnedIn(live), Together());
    ReplaceValid(t, key, kept, owners);
  }

  lemma InsertValid(t: Table, key: FileKey, o: Open, mode: Mode)
    requires Valid(t) && o !in t.owners && !Clashes(Slot(t, key), mode)
    ensures Valid(Insert(t, key, o, mode))
  {
    var ents, added := Slot(t, key), Entry(o, mode);
    assert SlotOk(ents, key, t.owners);
    PairwiseAppend(ents, added, Together());
    assert Owners(ents + [added]) == Owners(ents) + {o};
    ReplaceValid(t, key, ents + [added], t.owners[o := key]);
  }

  /** An open is admitted exactly when no live entry of the file conflicts with
      it; a refusal records nothing, and only dead entries are ever swept. */
  lemma AcquireOutcome(t: Table, key: FileKey, o: Open, mode: Mode, live: set<Open>)
    requires Valid(t)
    ensures var (t', ok) := Acquire(t, key, o, mode, live);
      && Valid(t')
      && t'.waiters == t.waiters
      && (ok <==> o in t.owners || forall e :: e in Slot(t, key) && e.owner in live ==> !Conflict(e.mode, mode))
      && (ok <==> o in t'.owners)
      && (!ok ==> t' == Sweep(t, key, live))
      && (forall p :: p in t'.owners && p != o ==> p in t.owners && t'.owners[p] == t.owners[p])
      && (forall p :: p in t.owners && (p in live || t.owners[p] != key) ==> p in t'.owners)
      && (o !in t.owners ==> forall p :: p in t.owners && t.owners[p] == key && p !in live ==> p !in t'.owners)
      && (o !in t.owners ==> forall e :: e in Slot(t', key) <==> (e in Slot(t, key) && e.owner in live) || (ok && e == Entry(o, mode)))
      && (forall k :: k != key ==> Slot(t', k) == Slot(t, k))
  {
    if o !in t.owners {
      assert SlotOk(Slot(t, key), key, t.owners);
      var swept := Sweep(t, key, live);
      SweepValid(t, key, live);
      FilterMembers(Slot(t, key), OwnedIn(live));
      if !Clashes(Slot(swept, key), mode) {
        InsertValid(swept, key, o, mode);
      }
    }
  }

  lemma ReleaseValid(t: Table, o: Open)
    requires Valid(t)
    ensures Valid(Release(t, o))
    ensures Release(t, o).owners == t.owners - {o}
    ensures forall k, e :: e in Slot(Release(t, o), k) <==> e in Slot(t, k) && e.owner != o
  {
    forall k, e | e in Slot(t, k) ensures e.owner in t.owners && t.owners[e.owner] == k { assert SlotOk(Slot(t, k), k, t.owners); }
    if o in t.owners {
      var key := t.owners[o];
      var ents := Slot(t, key);
      assert SlotOk(ents, key, t.owners);
      FilterMembers(ents, NotOwnedBy(o));
      FilterPairwise(ents, NotOwnedBy(o), Together());
      var kept := Filter(ents, NotOwnedBy(o));
      ReplaceValid(t, key, kept, t.owners - {o});
      var t', t0 := Release(t, o), Replace(t, key, kept, t.owners - {o});
      forall k ensures SlotOk(Slot(t', k), k, t'.owners) {
        assert Slot(t', k) == Slot(t0, k);
      }
    }
  }

  /** A transfer to a handle that holds nothing keeps the slot, its position and
      its mode. */
  lemma TransferValid(t: Table, from: Open, to: Open)
    requires Valid(t) && to !in t.owners
    ensures Valid(Transfer(t, from, to))
    ensures Transfer(t, from, to).waiters == t.waiters
    ensures from !in t.owners ==> Transfer(t, from, to) == t
    ensures from in t.owners ==> Transfer(t, from, to).owners == (t.owners - {from})[to := t.owners[from]]
    ensures from in t.owners ==> var key := t.owners[from];
      && |Slot(Transfer(t, from, to), key)| == |Slot(t, key)|
      && forall i :: 0 <= i < |Slot(t, key)| ==> Slot(Transfer(t, from, to), key)[i].mode == Slot(t, key)[i].mode
  {
    if from in t.owners {
      var key := t.owners[from];
      var ents := Slot(t, key);
      var renamed, owners := Rename(ents, from, to), (t.owners - {from})[to := key];
      assert SlotOk(ents, key, t.owners);
      RenameOk(ents, from, to, key, t.owners);
      ReplaceValid(t, key, renamed, owners);
      assert renamed != [];
      assert Transfer(t, from, to) == Replace(t, key, renamed, owners);
    }
  }

  lemma RenamedOwners(ents: seq<Entry>, from: Open, to: Open, o: Open)
    requires o in Owners(ents)
    ensures (if o == from then to else o) in Owners(Rename(ents, from, to))
  {
    var e :| e in ents && e.owner == o;
    var i :| 0 <= i < |ents| && ents[i] == e;
    assert Rename(ents, from, to)[i] in Rename(ents, from, to);
  }

  lemma RenamePairwise(ents: seq<Entry>, from: Open, to: Open)
    requires Pairwise(ents, Together()) && forall e :: e in ents ==> e.owner != to
    ensures Pairwise(Rename(ents, from, to), Together())
  {
    assert forall i :: 0 <= i < |ents| ==> ents[i] in ents;
  }

  lemma RenamedEntry(ents: seq<Entry>, from: Open, to: Open, e: Entry)
    requires e in Rename(ents, from, to)
    ensures e.owner == to || (e.owner != from && e.owner in Owners(ents))
  {
    var i :| 0 <= i < |ents| && Rename(ents, from, to)[i] == e;
    assert ents[i] in ents;
  }

  lemma RenameOk(ents: seq<Entry>, from: Open, to: Open, key: FileKey, owners: map<Open, FileKey>)
    requires SlotOk(ents, key, owners) && to !in owners && from in owners && owners[from] == key
    ensures Rename(ents, from, to) != []
    ensures SlotOk(Rename(ents, from, to), key, (owners - {from})[to := key])
  {
    var renamed, owners' := Rename(ents, from, to), (owners - {from})[to := key];
    RenamePairwise(ents, from, to);
    RenamedOwners(ents, from, to, from);
    forall e | e in renamed ensures e.owner in owners' && owners'[e.owner] == key { RenamedEntry(ents, from, to, e); }
    forall o | o in owners' && owners'[o] == key ensures o in Owners(renamed) {
      if o != to { RenamedOwners(ents, from, to, o); }
    }
    hide Pairwise, Rename;
  }

  /** No owner left means nothing left in the conflict index. */
  lemma NoOwnersNoEntries(t: Table)
    requires Valid(t) && t.owners == map[]
    ensures t.byFile == map[]
  {
    forall key ensures key !in t.byFile {
      assert SlotOk(Slot(t, key), key, t.owners);
      assert Slot(t, key) != [] ==> Slot(t, key)[0] in Slot(t, key);
    }
  }

  /** The mutex-guarded table. Each method is one locked region; the live set of
      an acquire says which owners' descriptors still answer for the file. */
  class ShareModeTable {
    var byFile: map<FileKey, seq<Entry>>
    var owners: map<Open, FileKey>
    var waiters: map<FileKey, seq<Waiter>>
    var woken: set<Waiter>
    var nextWaiter: Waiter

    function View(): Table
      reads this
    {
      Table(byFile, owners, waiters)
    }

    constructor ()
      ensures View() == EMPTY && Valid(View())
    {
      byFile, owners, waiters, woken, nextWaiter := map[], map[], map[], {}, 0;
    }

    method Put(key: FileKey, ents: seq<Entry>)
      modifies this`byFile
      ensures byFile == Store(old(byFile), key, ents)
    {
      if |ents| == 0 {
        byFile := byFile - {key};
      } else {
        byFile := byFile[key := ents];
      }
    }

    method Check(key: FileKey, desired: bv32, share: bv32, live: set<Open>) returns (ok: bool)
      ensures ok <==> forall e :: e in Slot(View(), key) && e.owner in live ==> !Conflict(e.mode, NewMode(desired, share))
    {
      var probe, ents := NewMode(desired, share), Slot(View(), key);
      for i := 0 to |ents|
        invariant forall e :: e in ents[..i] && e.owner in live ==> !Conflict(e.mode, probe)
      {
        if ents[i].owner in live && Conflict(ents[i].mode, probe) {
          return false;
        }
      }
      return true;
    }

    method AcquireLocked(key: FileKey, o: Open, desired: bv32, share: bv32, live: set<Open>) returns (ok: bool)
      modifies this`byFile, this`owners
      ensures (View(), ok) == Acquire(old(View()), key, o, NewMode(desired, share), live)
    {
      var incoming := Entry(o, NewMode(desired, share));
      if o in owners {
        return true;
      }
      var ents, kept := Slot(View(), key), [];
      for i := 0 to |ents|
        invariant kept == Filter(ents[..i], OwnedIn(live))
        invariant owners == old(owners) - (Owners(ents[..i]) - live)
        invariant byFile == old(byFile)
      {
        assert ents[..i + 1][..i] == ents[..i];
        assert ents[..i + 1] == ents[..i] + [ents[i]];
        if ents[i].owner in live {
          kept := kept + [ents[i]];
        } else {
          owners := owners - {ents[i].owner};
        }
      }
      assert ents[..|ents|] == ents;
      ghost var swept := Sweep(old(View()), key, live);
      assert Slot(swept, key) == kept;
      for i := 0 to |kept|
        invariant !Clashes(kept[..i], incoming.mode)
        invariant byFile == old(byFile) && owners == swept.owners
      {
        if Conflict(kept[i].mode, incoming.mode) {
          Put(key, kept);
          assert View() == swept;
          return false;
        }
      }
      assert kept[..|kept|] == kept;
      Put(key, kept + [incoming]);
      owners := owners[o := key];
      assert Store(swept.byFile, key, kept + [incoming]) == Store(old(byFile), key, kept + [incoming]);
      assert View() == Insert(swept, key, o, incoming.mode);
      return true;
    }

    method WakeLocked(key: FileKey)
      modifies this`waiters, this`woken
      ensures View() == Wake(old(View()), key)
      ensures woken == old(woken) + set w | w in Parked(old(View()), key)
    {
      var ws := Parked(View(), key);
      waiters := waiters - {key};
      for i := 0 to |ws|
        invariant woken == old(woken) + set w | w in ws[..i]
        invariant waiters == old(waiters) - {key}
      {
        woken := woken + {ws[i]};
        assert ws[..i + 1] == ws[..i] + [ws[i]];
      }
      assert ws[..|ws|] == ws;
    }

    method Drop(o: Open)
      modifies this`byFile, this`owners, this`waiters, this`woken
      ensures View() == Release(old(View()), o)
      ensures woken == old(woken) + if o in old(owners) then set w | w in Parked(old(View()), old(owners)[o]) else {}
    {
      if o !in owners {
        return;
      }
      var key := owners[o];
      owners := owners - {o};
      var ents, kept := Slot(View(), key), [];
      for i := 0 to |ents|
        invariant kept == Filter(ents[..i], NotOwnedBy(o))
      {
        assert ents[..i + 1][..i] == ents[..i];
        if ents[i].owner != o {
          kept := kept + [ents[i]];
        }
      }
      assert ents[..|ents|] == ents;
      Put(key, kept);
      WakeLocked(key);
    }

    method Move(from: Open, to: Open)
      requires Valid(View())
      modifies this`byFile, this`owners
      ensures View() == Transfer(old(View()), from, to)
    {
      if from == to || from !in owners {
        return;
      }
      var key := owners[from];
      assert SlotOk(Slot(View(), key), key, owners);
      owners := owners - {from};
      var ents, i := Slot(View(), key), 0;
      ghost var before := ents;
      while i < |ents|
        invariant 0 <= i <= |ents|
        invariant ents == before
        invariant forall j :: 0 <= j < i ==> ents[j].owner != from
      {
        if ents[i].owner == from {
          ents := ents[i := ents[i].(owner := to)];
          break;
        }
        i := i + 1;
      }
      assert ents == Rename(before, from, to);
      owners := owners[to := key];
      byFile := byFile[key := ents];
    }

    method AcquireOrWait(key: FileKey, o: Open, desired: bv32, share: bv32, live: set<Open>)
        returns (ok: bool, w: Option<Waiter>)
      modifies this`byFile, this`owners, this`waiters, this`nextWaiter
      ensures ok == Acquire(old(View()), key, o, NewMode(desired, share), live).1
      ensures var t := Acquire(old(View()), key, o, NewMode(desired, share), live).0;
        View() == if ok then t else AddWaiter(t, key, old(nextWaiter))
      ensures w == if ok then None else Some(old(nextWaiter))
      ensures nextWaiter == if ok then old(nextWaiter) else old(nextWaiter) + 1
    {
      ok := AcquireLocked(key, o, desired, share, live);
      if ok {
        return true, None;
      }
      w := Some(nextWaiter);
      waiters := waiters[key := Parked(View(), key) + [nextWaiter]];
      nextWaiter := nextWaiter + 1;
    }

    method StopWaiting(key: FileKey, w: Waiter)
      modifies this`waiters
      ensures View() == Unwait(old(View()), key, w)
    {
      var ws, i := Parked(View(), key), 0;
      while i < |ws|
        invariant 0 <= i <= |ws|
        invariant w !in ws[..i]
      {
        if ws[i] == w {
          WithoutAt(ws, w, i);
          var rest := ws[..i] + ws[i + 1..];
          if rest == [] {
            waiters := waiters - {key};
          } else {
            waiters := waiters[key := rest];
          }
          return;
        }
        assert ws[..i + 1] == ws[..i] + [ws[i]];
        i := i + 1;
      }
      assert ws[..i] == ws;
    }
  }
}
