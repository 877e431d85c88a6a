/** Byte-range locks: saturating range arithmetic, the table of ranges by file,
    its caps and its count. */
module RangeLocks {
  import opened Handles
  import opened Seqs
  import Sums

  const TWO64: nat := 0x1_0000_0000_0000_0000
  const MAX_INT64: nat := 0x7FFF_FFFF_FFFF_FFFF
  const MAX_PER_FILE: nat := 4096
  const MAX_PER_OWNER: nat := 1024

  type U64 = x: nat | x < TWO64

  datatype Kind = Unlock | Shared | Exclusive

  datatype Range = Range(owner: Open, start: U64, length: U64, exclusive: bool)

  datatype Verdict = Granted | Conflict | Limit

  type Locks = map<FileKey, seq<Range>>

  // ---- ranges ----

  /** start + length in 64-bit arithmetic, saturating where it would wrap. */
  function RangeEnd(start: U64, length: U64): U64 {
    var end := (start + length) % TWO64;
    if end < start then TWO64 - 1 else end
  }

  predicate Overlap(aStart: U64, aLen: U64, bStart: U64, bLen: U64) {
    aLen != 0 && bLen != 0 && aStart < RangeEnd(bStart, bLen) && bStart < RangeEnd(aStart, aLen)
  }

  /** The byte lies in [start, start + length), over the unbounded integers. */
  predicate Covers(start: int, length: int, byte: int) { start <= byte < start + length }

  lemma RangeEndSaturates(start: U64, length: U64)
    ensures RangeEnd(start, length) == if start + length < TWO64 then start + length else TWO64 - 1
  {
    if start + length >= TWO64 {
      assert (start + length) % TWO64 == start + length - TWO64;
    }
  }

  /** For every pair of 64-bit ranges the test is exact except for the very last
      byte, 2^64-1, which saturation leaves out. */
  lemma OverlapExactly(aStart: U64, aLen: U64, bStart: U64, bLen: U64)
    ensures Overlap(aStart, aLen, bStart, bLen) <==>
            exists byte :: byte < TWO64 - 1 && Covers(aStart, aLen, byte) && Covers(bStart, bLen, byte)
  {
    RangeEndSaturates(aStart, aLen);
    RangeEndSaturates(bStart, bLen);
    var byte := if aStart < bStart then bStart else aStart;
    assert Overlap(aStart, aLen, bStart, bLen) ==> Covers(aStart, aLen, byte) && Covers(bStart, bLen, byte);
  }

  /** For every start a LOCK request may carry, overlapping is sharing a byte. */
  lemma OverlapSharesByte(aStart: U64, aLen: U64, bStart: U64, bLen: U64)
    requires aStart <= MAX_INT64 && bStart <= MAX_INT64
    ensures Overlap(aStart, aLen, bStart, bLen) <==> exists byte :: Covers(aStart, aLen, byte) && Covers(bStart, bLen, byte)
  {
    OverlapExactly(aStart, aLen, bStart, bLen);
    if byte :| Covers(aStart, aLen, byte) && Covers(bStart, bLen, byte) {
      var least := if aStart < bStart then bStart else aStart;
      assert Covers(aStart, aLen, least) && Covers(bStart, bLen, least);
    }
  }

  /** The bound on starts is needed: two locks of the last byte do not clash. */
  lemma LastByteMissed()
    ensures !Overlap(TWO64 - 1, 1, TWO64 - 1, 1) && Covers(TWO64 - 1, 1, TWO64 - 1)
  {
  }

  // ---- one file's list ----

  predicate SameRange(r: Range, start: U64, length: U64) { r.start == start && r.length == length }

  /** A range of another handle that forbids this lock. */
  predicate Forbids(r: Range, o: Open, start: U64, length: U64, exclusive: bool) {
    r.owner != o && Overlap(start, length, r.start, r.length) && (exclusive || r.exclusive)
  }

  predicate Refused(rs: seq<Range>, o: Open, start: U64, length: U64, exclusive: bool) {
    exists i :: 0 <= i < |rs| && Forbids(rs[i], o, start, length, exclusive)
  }

  function OwnedBy(o: Open): Range -> bool { (r: Range) => r.owner == o }

  function NotOwnedBy(o: Open): Range -> bool { (r: Range) => r.owner != o }

  function Unmatched(o: Open, start: U64, length: U64): Range -> bool {
    (r: Range) => !(r.owner == o && SameRange(r, start, length))
  }

  predicate Full(rs: seq<Range>, o: Open) { |rs| >= MAX_PER_FILE || |Filter(rs, OwnedBy(o))| >= MAX_PER_OWNER }

  // ---- the table ----

  function Ranges(m: Locks, key: FileKey): seq<Range> { if key in m then m[key] else [] }

  function Store(m: Locks, key: FileKey, rs: seq<Range>): Locks {
    if rs == [] then m - {key} else m[key := rs]
  }

  function Drop(m: Locks, key: FileKey, keep: Range -> bool): Locks {
    Store(m, key, Filter(Ranges(m, key), keep))
  }

  function Lock(m: Locks, key: FileKey, r: Range): (Locks, Verdict) {
    var rs := Ranges(m, key);
    if r in rs then (m, Granted)
    else if Refused(rs, r.owner, r.start, r.length, r.exclusive) then (m, Conflict)
    else if Full(rs, r.owner) then (m, Limit)
    else (Store(m, key, rs + [r]), Granted)
  }

  function Apply(m: Locks, key: FileKey, o: Open, start: U64, length: U64, kind: Kind): (Locks, Verdict) {
    if length == 0 then (m, Granted)
    else if kind.Unlock? then (Drop(m, key, Unmatched(o, start, length)), Granted)
    else Lock(m, key, Range(o, start, length, kind.Exclusive?))
  }

  function ReleaseOwner(m: Locks, key: FileKey, o: Open): Locks { Drop(m, key, NotOwnedBy(o)) }

  /** Two entries of one list: not the same, and not both over one byte unless
      one handle owns them or both are shared. */
  function Fit(): (Range, Range) -> bool {
    (a: Range, b: Range) => a != b && !Forbids(a, b.owner, b.start, b.length, b.exclusive)
  }

  ghost predicate ListOk(rs: seq<Range>) {
    && Pairwise(rs, Fit())
    && (forall r :: r in rs ==> r.length > 0)
    && |rs| <= MAX_PER_FILE
    && (forall o :: |Filter(rs, OwnedBy(o))| <= MAX_PER_OWNER)
  }

  ghost predicate Valid(m: Locks) {
    (forall key :: key in m ==> m[key] != []) && forall key :: ListOk(Ranges(m, key))
  }

  // ---- the number of ranges ----

  function Length(rs: seq<Range>): nat { |rs| }

  ghost function Total(m: Locks): nat { Sums.Sum(m, Length) }

  lemma TotalWithout(m: Locks, key: FileKey)
    ensures Total(m) == |Ranges(m, key)| + Total(m - {key})
  {
    if key in m {
      Sums.SumWithout(m, Length, key);
    } else {
      assert m - {key} == m;
    }
  }

  lemma TotalStore(m: Locks, key: FileKey, rs: seq<Range>)
    ensures Total(Store(m, key, rs)) == Total(m) - |Ranges(m, key)| + |rs|
  {
    TotalWithout(m, key);
    TotalWithout(Store(m, key, rs), key);
    assert Store(m, key, rs) - {key} == m - {key};
  }

  /** The count is zero exactly when no file has a range, so a reader that sees
      zero may skip the scan. */
  lemma TotalZero(m: Locks)
    requires Valid(m)
    ensures Total(m) == 0 <==> m == map[]
  {
    if m != map[] {
      var key :| key in m;
      TotalWithout(m, key);
    }
  }

  // ---- what every operation keeps ----

  lemma StoreValid(m: Locks, key: FileKey, rs: seq<Range>)
    requires Valid(m) && ListOk(rs)
    ensures Valid(Store(m, key, rs)) && Ranges(Store(m, key, rs), key) == rs
    ensures forall k :: k != key ==> Ranges(Store(m, key, rs), k) == Ranges(m, k)
  {
    var m' := Store(m, key, rs);
    forall k ensures ListOk(Ranges(m', k)) { assert k != key ==> Ranges(m', k) == Ranges(m, k); }
  }

  lemma {:induction false} FilterTwice(rs: seq<Range>, p: Range -> bool, q: Range -> bool)
    ensures |Filter(Filter(rs, p), q)| <= |Filter(rs, q)|
  {
    if rs != [] {
      var front, last := rs[..|rs| - 1], rs[|rs| - 1];
      FilterTwice(front, p, q);
      if p(last) { FilterAppend(Filter(front, p), last, q); }
    }
  }

  lemma FilterAppend(rs: seq<Range>, r: Range, p: Range -> bool)
    ensures Filter(rs + [r], p) == Filter(rs, p) + if p(r) then [r] else []
  {
    assert (rs + [r])[..|rs|] == rs;
  }

  lemma DropValid(m: Locks, key: FileKey, keep: Range -> bool)
    requires Valid(m)
    ensures Valid(Drop(m, key, keep))
    ensures forall k :: k != key ==> Ranges(Drop(m, key, keep), k) == Ranges(m, k)
    ensures forall r :: r in Ranges(Drop(m, key, keep), key) <==> r in Ranges(m, key) && keep(r)
    ensures Total(Drop(m, key, keep)) <= Total(m)
    ensures Total(Drop(m, key, keep)) == Total(m) <==> Drop(m, key, keep) == m
  {
    var rs := Ranges(m, key);
    var kept := Filter(rs, keep);
    FilterMembers(rs, keep);
    FilterPairwise(rs, keep, Fit());
    FilterLength(rs, keep);
    assert ListOk(rs);
    forall o ensures |Filter(kept, OwnedBy(o))| <= MAX_PER_OWNER { FilterTwice(rs, keep, OwnedBy(o)); }
    StoreValid(m, key, kept);
    TotalStore(m, key, kept);
  }

  lemma LockValid(m: Locks, key: FileKey, r: Range)
    requires Valid(m) && r.length > 0
    ensures var (m', v) := Lock(m, key, r);
      && Valid(m')
      && (forall k :: k != key ==> Ranges(m', k) == Ranges(m, k))
      && (forall x :: x in Ranges(m', key) <==> x in Ranges(m, key) || (x == r && v == Granted))
      && (v != Granted ==> m' == m)
      && (v == Granted <==> r in Ranges(m', key))
      && Total(m') == Total(m) + if v == Granted && r !in Ranges(m, key) then 1 else 0
  {
    var rs := Ranges(m, key);
    assert ListOk(rs);
    if r !in rs && !Refused(rs, r.owner, r.start, r.length, r.exclusive) && !Full(rs, r.owner) {
      PairwiseAppend(rs, r, Fit());
      forall o ensures |Filter(rs + [r], OwnedBy(o))| <= MAX_PER_OWNER { FilterAppend(rs, r, OwnedBy(o)); }
      StoreValid(m, key, rs + [r]);
      TotalStore(m, key, rs + [r]);
    }
  }

  lemma ApplyValid(m: Locks, key: FileKey, o: Open, start: U64, length: U64, kind: Kind)
    requires Valid(m)
    ensures Valid(Apply(m, key, o, start, length, kind).0)
  {
    hide Valid;
    if length != 0 {
      if kind.Unlock? {
        DropValid(m, key, Unmatched(o, start, length));
      } else {
        LockValid(m, key, Range(o, start, length, kind.Exclusive?));
      }
    }
  }

  lemma ForbidsSymmetric(a: Range, b: Range)
    ensures Forbids(a, b.owner, b.start, b.length, b.exclusive) == Forbids(b, a.owner, a.start, a.length, a.exclusive)
  {
  }

  /** Both ranges cover a byte that a 64-bit range can lock. */
  ghost predicate ShareByte(aStart: int, aLen: int, bStart: int, bLen: int) {
    exists byte :: byte < 0xFFFF_FFFF_FFFF_FFFF && Covers(aStart, aLen, byte) && Covers(bStart, bLen, byte)
  }

  /** Another handle's range over a byte of this one, with either exclusive. */
  ghost predicate Blocks(x: Range, o: Open, start: U64, length: U64, exclusive: bool) {
    x.owner != o && (exclusive || x.exclusive) && ShareByte(start, length, x.start, x.length)
  }

  lemma ForbidsExactly(x: Range, o: Open, start: U64, length: U64, exclusive: bool)
    ensures Forbids(x, o, start, length, exclusive) <==> Blocks(x, o, start, length, exclusive)
  {
    OverlapExactly(start, length, x.start, x.length);
  }

  /** When a lock is granted and when not: a range the handle holds already is
      granted; another one meets a conflict exactly when another handle's range
      covers one of its bytes with either exclusive, and the limit exactly when
      there is no conflict and the file has 4096 ranges or the handle 1024. */
  lemma LockVerdict(m: Locks, key: FileKey, r: Range)
    ensures var rs, v := Ranges(m, key), Lock(m, key, r).1;
      && (v == Conflict <==> r !in rs && exists x :: x in rs && Blocks(x, r.owner, r.start, r.length, r.exclusive))
      && (v == Limit <==>
            && r !in rs && (forall x :: x in rs ==> !Blocks(x, r.owner, r.start, r.length, r.exclusive))
            && (|rs| >= 4096 || |Filter(rs, (x: Range) => x.owner == r.owner)| >= 1024))
      && (v == Granted || v == Conflict || v == Limit)
  {
    var rs := Ranges(m, key);
    forall x | x in rs ensures Forbids(x, r.owner, r.start, r.length, r.exclusive) <==> Blocks(x, r.owner, r.start, r.length, r.exclusive) {
      ForbidsExactly(x, r.owner, r.start, r.length, r.exclusive);
    }
    assert Refused(rs, r.owner, r.start, r.length, r.exclusive) <==> exists x :: x in rs && Forbids(x, r.owner, r.start, r.length, r.exclusive);
    FilterSame(rs, OwnedBy(r.owner), (x: Range) => x.owner == r.owner);
  }

  lemma {:induction false} FilterSame(rs: seq<Range>, p: Range -> bool, q: Range -> bool)
    requires forall x :: p(x) == q(x)
    ensures Filter(rs, p) == Filter(rs, q)
  {
    if rs != [] { FilterSame(rs[..|rs| - 1], p, q); }
  }

  /** For the starts a request may carry, no bound on the shared byte is needed. */
  lemma BlocksExactly(x: Range, o: Open, start: U64, length: U64, exclusive: bool)
    requires start <= MAX_INT64 && x.start <= MAX_INT64
    ensures Blocks(x, o, start, length, exclusive) <==>
      x.owner != o && (exclusive || x.exclusive) && exists byte :: Covers(start, length, byte) && Covers(x.start, x.length, byte)
  {
    ForbidsExactly(x, o, start, length, exclusive);
    OverlapSharesByte(start, length, x.start, x.length);
  }

  /** An unlock removes exactly the handle's ranges with that start and length,
      shared or exclusive. */
  lemma UnlockExactly(m: Locks, key: FileKey, o: Open, start: U64, length: U64, x: Range)
    requires Valid(m) && length > 0
    ensures var m' := Apply(m, key, o, start, length, Unlock).0;
      x in Ranges(m', key) <==> x in Ranges(m, key) && !(x.owner == o && x.start == start && x.length == length)
  {
    DropValid(m, key, Unmatched(o, start, length));
  }

  /** A release removes exactly the handle's ranges on the file. */
  lemma ReleaseExactly(m: Locks, key: FileKey, o: Open, x: Range)
    requires Valid(m)
    ensures x in Ranges(ReleaseOwner(m, key, o), key) <==> x in Ranges(m, key) && x.owner != o
  {
    DropValid(m, key, NotOwnedBy(o));
  }

  /** A range that is held is refused by nothing in its list. */
  lemma HeldNotRefused(rs: seq<Range>, r: Range)
    requires ListOk(rs) && r in rs
    ensures !Refused(rs, r.owner, r.start, r.length, r.exclusive)
  {
    var j :| 0 <= j < |rs| && rs[j] == r;
    forall i | 0 <= i < |rs| ensures !Forbids(rs[i], r.owner, r.start, r.length, r.exclusive) {
      if i < j {
        assert Fit()(rs[i], rs[j]);
      } else if j < i {
        assert Fit()(rs[j], rs[i]);
        ForbidsSymmetric(rs[i], r);
      }
    }
  }

  // ---- every reachable table ----

  datatype Op =
    | Applied(key: FileKey, o: Open, start: U64, length: U64, kind: Kind)
    | Released(key: FileKey, o: Open)

  function After(m: Locks, op: Op): Locks {
    match op
    case Applied(key, o, start, length, kind) => Apply(m, key, o, start, length, kind).0
    case Released(key, o) => ReleaseOwner(m, key, o)
  }

  function Reach(ops: seq<Op>): Locks {
    if ops == [] then map[] else After(Reach(ops[..|ops| - 1]), ops[|ops| - 1])
  }

  lemma {:induction false} ReachValid(ops: seq<Op>)
    ensures Valid(Reach(ops))
  {
    if ops != [] {
      hide Valid;
      var before, op := Reach(ops[..|ops| - 1]), ops[|ops| - 1];
      ReachValid(ops[..|ops| - 1]);
      match op
      case Applied(key, o, start, length, kind) => ApplyValid(before, key, o, start, length, kind);
      case Released(key, o) => DropValid(before, key, NotOwnedBy(o));
    }
  }

  /** In every reachable table two handles never hold one byte with either lock
      exclusive. */
  lemma NoConflictingLocks(ops: seq<Op>, key: FileKey, a: Range, b: Range, byte: int)
    requires a in Ranges(Reach(ops), key) && b in Ranges(Reach(ops), key) && a.owner != b.owner
    requires a.start <= MAX_INT64 && b.start <= MAX_INT64
    requires Covers(a.start, a.length, byte) && Covers(b.start, b.length, byte)
    ensures !a.exclusive && !b.exclusive
  {
    ReachValid(ops);
    var rs := Ranges(Reach(ops), key);
    assert ListOk(rs);
    hide Valid;
    HeldNotRefused(rs, b);
    var i :| 0 <= i < |rs| && rs[i] == a;
    assert !Forbids(rs[i], b.owner, b.start, b.length, b.exclusive);
    OverlapSharesByte(b.start, b.length, a.start, a.length);
  }

  type Chan = nat

  /** The mutex-guarded table. closed holds the channels that have been closed. */
  class LockTable {
    var locks: Locks
    var n: int
    var published: int
    var released: Option<Chan>
    var closed: set<Chan>
    var nextChan: Chan

    ghost predicate Ok()
      reads this
    {
      && Valid(locks) && n == Total(locks) && published == n
      && (forall c :: c in closed ==> c < nextChan)
      && (released.Some? ==> released.value < nextChan && released.value !in closed)
    }

    constructor ()
      ensures Ok() && locks == map[] && closed == {} && released == None
    {
      locks, n, published, released, closed, nextChan := map[], 0, 0, None, {}, 0;
    }

    /** Write one file's compacted list back and adjust the count. */
    method PutBack(key: FileKey, out: seq<Range>)
      requires n == Total(locks)
      modifies this`locks, this`n
      ensures locks == Store(old(locks), key, out) && n == Total(locks)
    {
      TotalStore(locks, key, out);
      n := n - (|Ranges(locks, key)| - |out|);
      if |out| == 0 {
        locks := locks - {key};
      } else {
        locks := locks[key := out];
      }
    }

    method ApplyUnlock(key: FileKey, o: Open, start: U64, length: U64)
      requires n == Total(locks)
      modifies this`locks, this`n
      ensures locks == Drop(old(locks), key, Unmatched(o, start, length)) && n == Total(locks)
    {
      var rs, out := Ranges(locks, key), [];
      for i := 0 to |rs|
        invariant out == Filter(rs[..i], Unmatched(o, start, length))
      {
        assert rs[..i + 1][..i] == rs[..i];
        if !(rs[i].owner == o && SameRange(rs[i], start, length)) {
          out := out + [rs[i]];
        }
      }
      assert rs[..|rs|] == rs;
      PutBack(key, out);
    }

    method ApplyLock(key: FileKey, r: Range) returns (v: Verdict)
      requires Valid(locks) && n == Total(locks)
      modifies this`locks, this`n
      ensures (locks, v) == Lock(old(locks), key, r) && n == Total(locks)
    {
      var rs, owned := Ranges(locks, key), 0;
      assert ListOk(rs);
      for i := 0 to |rs|
        invariant owned == |Filter(rs[..i], OwnedBy(r.owner))|
        invariant r !in rs[..i]
        invariant forall j :: 0 <= j < i ==> !Forbids(rs[j], r.owner, r.start, r.length, r.exclusive)
      {
        assert rs[..i + 1][..i] == rs[..i];
        assert rs[..i + 1] == rs[..i] + [rs[i]];
        if rs[i].owner == r.owner {
          owned := owned + 1;
          if SameRange(rs[i], r.start, r.length) && rs[i].exclusive == r.exclusive {
            assert rs[i] == r;
            return Granted;
          }
        } else if Overlap(r.start, r.length, rs[i].start, rs[i].length) && (r.exclusive || rs[i].exclusive) {
          if r in rs { HeldNotRefused(rs, r); }
          return Conflict;
        }
      }
      assert rs[..|rs|] == rs;
      if |rs| >= MAX_PER_FILE || owned >= MAX_PER_OWNER {
        return Limit;
      }
      TotalStore(locks, key, rs + [r]);
      locks := locks[key := rs + [r]];
      n := n + 1;
      return Granted;
    }

    /** Republish the count; close the channel if ranges disappeared. */
    method Publish(before: int)
      modifies this`published, this`released, this`closed
      ensures published == n
      ensures if n < before && old(released).Some?
        then released == None && closed == old(closed) + {old(released).value}
        else released == old(released) && closed == old(closed)
    {
      published := n;
      if n < before && released.Some? {
        closed := closed + {released.value};
        released := None;
      }
    }

    /** What a step that removed ranges, or none, does to the channel. */
    twostate predicate Signalled()
      reads this
    {
      if Total(locks) < Total(old(locks)) && old(released).Some?
      then released == None && closed == old(closed) + {old(released).value}
      else released == old(released) && closed == old(closed)
    }

    method ApplyRange(key: FileKey, o: Open, start: U64, length: U64, kind: Kind) returns (v: Verdict)
      requires Ok()
      modifies this
      ensures Ok() && (locks, v) == Apply(old(locks), key, o, start, length, kind)
      ensures Signalled() && nextChan == old(nextChan)
    {
      ApplyValid(locks, key, o, start, length, kind);
      var before := n;
      v := Granted;
      if length != 0 {
        match kind
        case Unlock => ApplyUnlock(key, o, start, length);
        case Shared => v := ApplyLock(key, Range(o, start, length, false));
        case Exclusive => v := ApplyLock(key, Range(o, start, length, true));
      }
      Publish(before);
    }

    method RemoveOwner(key: FileKey, o: Open)
      requires n == Total(locks)
      modifies this`locks, this`n
      ensures locks == ReleaseOwner(old(locks), key, o) && n == Total(locks)
    {
      var rs, out := Ranges(locks, key), [];
      for i := 0 to |rs|
        invariant out == Filter(rs[..i], NotOwnedBy(o))
      {
        assert rs[..i + 1][..i] == rs[..i];
        if rs[i].owner != o {
          out := out + [rs[i]];
        }
      }
      assert rs[..|rs|] == rs;
      PutBack(key, out);
    }

    method Release(key: FileKey, o: Open)
      requires Ok()
      modifies this
      ensures Ok() && locks == ReleaseOwner(old(locks), key, o)
      ensures Signalled() && nextChan == old(nextChan)
    {
      DropValid(locks, key, NotOwnedBy(o));
      var before := n;
      RemoveOwner(key, o);
      Publish(before);
    }

    /** An I/O is stopped exactly by another handle's range over one of its bytes
        that is exclusive or that it would write; the empty fast path agrees. */
    method ConflictsWith(key: FileKey, o: Open, start: U64, length: U64, write: bool) returns (stop: bool)
      requires Ok()
      ensures stop <==> exists r :: r in Ranges(locks, key) && Blocks(r, o, start, length, write)
    {
      forall r ensures Forbids(r, o, start, length, write) <==> Blocks(r, o, start, length, write) {
        ForbidsExactly(r, o, start, length, write);
      }
      if published == 0 {
        TotalZero(locks);
        return false;
      }
      if length == 0 {
        return false;
      }
      var rs := Ranges(locks, key);
      for i := 0 to |rs|
        invariant forall r :: r in rs[..i] ==> !Forbids(r, o, start, length, write)
      {
        if rs[i].owner != o && Overlap(start, length, rs[i].start, rs[i].length) && (write || rs[i].exclusive) {
          assert rs[i] in rs;
          return true;
        }
      }
      return false;
    }

    method Snapshot(key: FileKey, o: Open) returns (snap: seq<Range>)
      ensures snap == Filter(Ranges(locks, key), OwnedBy(o))
    {
      var rs := Ranges(locks, key);
      snap := [];
      for i := 0 to |rs|
        invariant snap == Filter(rs[..i], OwnedBy(o))
      {
        assert rs[..i + 1][..i] == rs[..i];
        if rs[i].owner == o {
          snap := snap + [rs[i]];
        }
      }
      assert rs[..|rs|] == rs;
    }

    /** The channel a request must take before its attempt. */
    method ReleaseSignal() returns (c: Chan)
      requires Ok()
      modifies this`released, this`nextChan
      ensures Ok() && released == Some(c)
      ensures if old(released).Some? then released == old(released) && nextChan == old(nextChan) else c == old(nextChan) && nextChan == c + 1
    {
      if released == None {
        released := Some(nextChan);
        nextChan := nextChan + 1;
      }
      c := released.value;
    }
  }
}
