/** LOCK requests of several elements: all of them apply, or the handle's ranges
    are put back as they were. */
module LockRequests {
  import opened Handles
  import opened Seqs
  import opened RangeLocks

  const FLAG_SHARED: bv32 := 0x1
  const FLAG_EXCLUSIVE: bv32 := 0x2
  const FLAG_UNLOCK: bv32 := 0x4
  const FLAG_FAIL_IMMEDIATELY: bv32 := 0x10

  datatype Element = Element(offset: U64, length: U64, flags: bv32)

  datatype LockOp = LockOp(el: Element, kind: Kind)

  predicate Blocking(op: LockOp) { op.kind != Unlock && op.el.flags & FLAG_FAIL_IMMEDIATELY == 0 }

  /** An element the server must reject. */
  predicate Malformed(el: Element) {
    el.flags & (FLAG_UNLOCK | FLAG_SHARED | FLAG_EXCLUSIVE) == 0 || el.offset > MAX_INT64
  }

  /** Classify every element; a request is refused exactly when one of its
      elements is malformed. */
  method DecodeLockOps(els: seq<Element>) returns (ops: Option<seq<LockOp>>)
    ensures ops.None? <==> exists i :: 0 <= i < |els| && Malformed(els[i])
    ensures ops.Some? ==> |ops.value| == |els| && forall i :: 0 <= i < |els| ==>
      && ops.value[i].el == els[i] && ops.value[i].el.offset <= MAX_INT64
      && (ops.value[i].kind == Unlock <==> els[i].flags & FLAG_UNLOCK != 0)
      && (ops.value[i].kind == Shared <==> els[i].flags & FLAG_UNLOCK == 0 && els[i].flags & FLAG_SHARED != 0)
  {
    var out: seq<LockOp> := [];
    for i := 0 to |els|
      invariant |out| == i
      invariant forall j :: 0 <= j < i ==>
        && !Malformed(els[j]) && out[j].el == els[j]
        && (out[j].kind == Unlock <==> els[j].flags & FLAG_UNLOCK != 0)
        && (out[j].kind == Shared <==> els[j].flags & FLAG_UNLOCK == 0 && els[j].flags & FLAG_SHARED != 0)
    {
      var kind;
      if els[i].flags & FLAG_UNLOCK != 0 {
        kind := Unlock;
      } else if els[i].flags & FLAG_SHARED != 0 {
        kind := Shared;
      } else if els[i].flags & FLAG_EXCLUSIVE != 0 {
        kind := Exclusive;
      } else {
        return None;
      }
      if els[i].offset > MAX_INT64 {
        return None;
      }
      out := out + [LockOp(els[i], kind)];
    }
    return Some(out);
  }

  // ---- the request as a function of the table ----

  datatype Failure = Failure(element: nat, verdict: Verdict)

  function Elementwise(m: Locks, key: FileKey, o: Open, op: LockOp): (Locks, Verdict) {
    Apply(m, key, o, op.el.offset, op.el.length, op.kind)
  }

  /** Apply the elements in order, up to the first failure. */
  function Applying(m: Locks, key: FileKey, o: Open, ops: seq<LockOp>): (Locks, Option<Failure>) {
    if ops == [] then (m, None)
    else
      var (m1, failed) := Applying(m, key, o, ops[..|ops| - 1]);
      if failed.Some? then (m1, failed)
      else
        var (m2, v) := Elementwise(m1, key, o, ops[|ops| - 1]);
        (m2, if v.Granted? then None else Some(Failure(|ops| - 1, v)))
  }

  predicate Alike(a: Range, b: Range) { SameRange(a, b.start, b.length) && a.exclusive == b.exclusive }

  function Unlike(rs: seq<Range>): Range -> bool { (r: Range) => forall x :: x in rs ==> !Alike(x, r) }

  /** rangesDiff: the entries of a with no counterpart in b. */
  function Diff(a: seq<Range>, b: seq<Range>): seq<Range> { Filter(a, Unlike(b)) }

  function Unlocking(m: Locks, key: FileKey, o: Open, rs: seq<Range>): Locks {
    if rs == [] then m
    else
      var r := rs[|rs| - 1];
      Apply(Unlocking(m, key, o, rs[..|rs| - 1]), key, o, r.start, r.length, Unlock).0
  }

  /** Lock each range again; also whether every one of them was granted. */
  function Relocking(m: Locks, key: FileKey, o: Open, rs: seq<Range>): (Locks, bool) {
    if rs == [] then (m, true)
    else
      var (m1, all) := Relocking(m, key, o, rs[..|rs| - 1]);
      var r := rs[|rs| - 1];
      var (m2, v) := Apply(m1, key, o, r.start, r.length, if r.exclusive then Exclusive else Shared);
      (m2, all && v.Granted?)
  }

  function Own(m: Locks, key: FileKey, o: Open): seq<Range> { Filter(Ranges(m, key), OwnedBy(o)) }

  function Others(m: Locks, key: FileKey, o: Open): seq<Range> { Filter(Ranges(m, key), NotOwnedBy(o)) }

  function Restoring(m: Locks, key: FileKey, o: Open, snap: seq<Range>): (Locks, bool) {
    Relocking(Unlocking(m, key, o, Diff(Own(m, key, o), snap)), key, o, snap)
  }

  function Request(m: Locks, key: FileKey, o: Open, ops: seq<LockOp>): (Locks, Option<Failure>) {
    var (m1, failed) := Applying(m, key, o, ops);
    (if failed.Some? && |ops| > 1 then Restoring(m1, key, o, Own(m, key, o)).0 else m1, failed)
  }

  // ---- lists without duplicates ----

  lemma {:induction false} FilterImplied(rs: seq<Range>, p: Range -> bool, q: Range -> bool)
    requires forall r :: q(r) ==> p(r)
    ensures Filter(Filter(rs, p), q) == Filter(rs, q)
  {
    if rs != [] {
      var front, last := rs[..|rs| - 1], rs[|rs| - 1];
      FilterImplied(front, p, q);
      if p(last) { FilterAppend(Filter(front, p), last, q); }
    }
  }

  lemma {:induction false} FilterSplit(rs: seq<Range>, o: Open)
    ensures |Filter(rs, OwnedBy(o))| + |Filter(rs, NotOwnedBy(o))| == |rs|
  {
    if rs != [] { FilterSplit(rs[..|rs| - 1], o); }
  }

  lemma {:induction false} FitCount(rs: seq<Range>, r: Range)
    requires Pairwise(rs, Fit())
    ensures multiset(rs)[r] == if r in rs then 1 else 0
  {
    if rs != [] {
      var front, last := rs[..|rs| - 1], rs[|rs| - 1];
      assert rs == front + [last];
      FitCount(front, r);
      forall i | 0 <= i < |front| ensures front[i] != last { assert Fit()(rs[i], rs[|rs| - 1]); }
    }
  }

  lemma SameElements(a: seq<Range>, b: seq<Range>)
    requires Pairwise(a, Fit()) && Pairwise(b, Fit()) && forall r :: r in a <==> r in b
    ensures multiset(a) == multiset(b) && |a| == |b|
  {
    forall r ensures multiset(a)[r] == multiset(b)[r] {
      FitCount(a, r);
      FitCount(b, r);
    }
    assert multiset(a) == multiset(b);
    assert |a| == |multiset(a)| && |b| == |multiset(b)|;
  }

  /** A list drawn from another, less at least one element, is shorter. */
  lemma {:induction false} Shorter(a: seq<Range>, b: seq<Range>, r: Range)
    requires Pairwise(a, Fit()) && r in b && forall x :: x in a ==> x in b && x != r
    ensures |a| < |b|
  {
    forall x ensures multiset(a + [r])[x] <= multiset(b)[x] {
      FitCount(a, x);
      assert x in b ==> multiset(b)[x] >= 1;
    }
    assert multiset(a + [r]) <= multiset(b);
    assert multiset(b) == multiset(a + [r]) + (multiset(b) - multiset(a + [r]));
    assert |multiset(a + [r])| == |a| + 1 && |multiset(b)| == |b|;
  }

  // ---- what the elements of one request touch ----

  ghost predicate OnlyOwn(m: Locks, m': Locks, key: FileKey, o: Open) {
    && Valid(m')
    && (forall k :: k != key ==> Ranges(m', k) == Ranges(m, k))
    && Others(m', key, o) == Others(m, key, o)
  }

  lemma ApplyOnlyOwn(m: Locks, key: FileKey, o: Open, start: U64, length: U64, kind: Kind)
    requires Valid(m)
    ensures OnlyOwn(m, Apply(m, key, o, start, length, kind).0, key, o)
    ensures Apply(m, key, o, start, length, kind).1 != Granted ==> Apply(m, key, o, start, length, kind).0 == m
  {
    hide Valid;
    var rs := Ranges(m, key);
    if length != 0 {
      if kind.Unlock? {
        DropValid(m, key, Unmatched(o, start, length));
        FilterImplied(rs, Unmatched(o, start, length), NotOwnedBy(o));
      } else {
        var r := Range(o, start, length, kind.Exclusive?);
        LockValid(m, key, r);
        FilterAppend(rs, r, NotOwnedBy(o));
      }
    }
  }

  lemma {:induction false} ApplyingOnlyOwn(m: Locks, key: FileKey, o: Open, ops: seq<LockOp>)
    requires Valid(m)
    ensures OnlyOwn(m, Applying(m, key, o, ops).0, key, o)
    ensures var failed := Applying(m, key, o, ops).1; failed.Some? ==> failed.value.element < |ops| && failed.value.verdict != Granted
    ensures |ops| == 1 && Applying(m, key, o, ops).1.Some? ==> Applying(m, key, o, ops).0 == m
  {
    if ops != [] {
      hide Valid;
      var op := ops[|ops| - 1];
      ApplyingOnlyOwn(m, key, o, ops[..|ops| - 1]);
      ApplyOnlyOwn(Applying(m, key, o, ops[..|ops| - 1]).0, key, o, op.el.offset, op.el.length, op.kind);
    }
  }

  predicate Matches(rs: seq<Range>, r: Range) { exists i :: 0 <= i < |rs| && SameRange(r, rs[i].start, rs[i].length) }

  lemma MatchesLast(rs: seq<Range>, r: Range)
    requires rs != []
    ensures Matches(rs, r) <==> Matches(rs[..|rs| - 1], r) || SameRange(r, rs[|rs| - 1].start, rs[|rs| - 1].length)
  {
    if Matches(rs, r) {
      var i :| 0 <= i < |rs| && SameRange(r, rs[i].start, rs[i].length);
      assert i < |rs| - 1 ==> rs[..|rs| - 1][i] == rs[i];
    }
  }

  lemma {:induction false} UnlockingOnlyOwn(m: Locks, key: FileKey, o: Open, rs: seq<Range>)
    requires Valid(m)
    ensures OnlyOwn(m, Unlocking(m, key, o, rs), key, o)
  {
    if rs != [] {
      hide Valid, Apply, Others;
      var last := rs[|rs| - 1];
      UnlockingOnlyOwn(m, key, o, rs[..|rs| - 1]);
      ApplyOnlyOwn(Unlocking(m, key, o, rs[..|rs| - 1]), key, o, last.start, last.length, Unlock);
    }
  }

  lemma {:induction false} UnlockingEffect(m: Locks, key: FileKey, o: Open, rs: seq<Range>, r: Range)
    requires Valid(m) && forall i :: 0 <= i < |rs| ==> rs[i].length > 0
    ensures r in Ranges(Unlocking(m, key, o, rs), key) <==> r in Ranges(m, key) && !(r.owner == o && Matches(rs, r))
  {
    if rs != [] {
      var front, last := rs[..|rs| - 1], rs[|rs| - 1];
      UnlockingOnlyOwn(m, key, o, front);
      hide Valid, Matches, Drop, Ranges, Others;
      UnlockingEffect(m, key, o, front, r);
      MatchesLast(rs, r);
      DropValid(Unlocking(m, key, o, front), key, Unmatched(o, last.start, last.length));
    }
  }

  // ---- the rollback ----

  /** Somewhere between the request's changes and the table before it: the other
      ranges are as before, and the handle's own are some of those it had. */
  ghost predicate Between(m0: Locks, m: Locks, key: FileKey, o: Open) {
    OnlyOwn(m0, m, key, o) && forall r :: r in Own(m, key, o) ==> r in Own(m0, key, o)
  }

  /** A range the handle had is granted again. */
  lemma RelockGranted(m0: Locks, m: Locks, key: FileKey, o: Open, r: Range)
    requires Valid(m0) && Between(m0, m, key, o) && r in Own(m0, key, o)
    ensures Lock(m, key, r).1 == Granted
  {
    var rs0, rs := Ranges(m0, key), Ranges(m, key);
    assert ListOk(rs0) && ListOk(rs);
    hide Valid;
    FilterMember(rs0, OwnedBy(o), r);
    if r !in rs {
      NoneRefuses(m0, m, key, o, r);
      FilterMembers(rs, OwnedBy(o));
      FilterPairwise(rs, OwnedBy(o), Fit());
      Shorter(Own(m, key, o), Own(m0, key, o), r);
      FilterSplit(rs0, o);
      FilterSplit(rs, o);
    }
  }

  lemma NoneRefuses(m0: Locks, m: Locks, key: FileKey, o: Open, r: Range)
    requires Valid(m0) && Between(m0, m, key, o) && r in Own(m0, key, o)
    ensures !Refused(Ranges(m, key), o, r.start, r.length, r.exclusive)
  {
    var rs0, rs := Ranges(m0, key), Ranges(m, key);
    assert ListOk(rs0);
    FilterMember(rs0, OwnedBy(o), r);
    HeldNotRefused(rs0, r);
    forall i | 0 <= i < |rs| ensures !Forbids(rs[i], o, r.start, r.length, r.exclusive) {
      if rs[i].owner != o {
        FilterMember(rs, NotOwnedBy(o), rs[i]);
        FilterMember(rs0, NotOwnedBy(o), rs[i]);
      }
    }
  }

  lemma RelockOne(m0: Locks, m: Locks, key: FileKey, o: Open, r: Range)
    requires Valid(m0) && Between(m0, m, key, o) && r in Own(m0, key, o)
    ensures var (m', v) := Apply(m, key, o, r.start, r.length, if r.exclusive then Exclusive else Shared);
      && v == Granted && Between(m0, m', key, o)
      && forall x :: x in Own(m', key, o) <==> x in Own(m, key, o) || x == r
  {
    var kind := if r.exclusive then Exclusive else Shared;
    var m' := Apply(m, key, o, r.start, r.length, kind).0;
    assert ListOk(Ranges(m0, key));
    hide Valid;
    FilterMember(Ranges(m0, key), OwnedBy(o), r);
    RelockGranted(m0, m, key, o, r);
    LockValid(m, key, r);
    ApplyOnlyOwn(m, key, o, r.start, r.length, kind);
    FilterMembers(Ranges(m, key), OwnedBy(o));
    FilterMembers(Ranges(m', key), OwnedBy(o));
  }

  /** The handle's ranges grew by exactly those of rs. */
  ghost predicate Regained(before: seq<Range>, after: seq<Range>, rs: seq<Range>) {
    forall x :: x in after <==> x in before || x in rs
  }

  lemma RegainedStep(before: seq<Range>, between: seq<Range>, after: seq<Range>, front: seq<Range>, last: Range)
    requires Regained(before, between, front) && forall x :: x in after <==> x in between || x == last
    ensures Regained(before, after, front + [last])
  {
  }

  lemma {:induction false} RelockingEffect(m0: Locks, m: Locks, key: FileKey, o: Open, rs: seq<Range>)
    requires Valid(m0) && Between(m0, m, key, o) && forall i :: 0 <= i < |rs| ==> rs[i] in Own(m0, key, o)
    ensures var (m', all) := Relocking(m, key, o, rs);
      all && Between(m0, m', key, o) && Regained(Own(m, key, o), Own(m', key, o), rs)
  {
    if rs != [] {
      hide Valid, Between, Own, Apply, Regained;
      var front, last := rs[..|rs| - 1], rs[|rs| - 1];
      assert rs == front + [last];
      RelockingEffect(m0, m, key, o, front);
      var m1 := Relocking(m, key, o, front).0;
      RelockOne(m0, m1, key, o, last);
      RegainedStep(Own(m, key, o), Own(m1, key, o), Own(Relocking(m, key, o, rs).0, key, o), front, last);
    }
  }

  lemma UnlockingBetween(m0: Locks, m: Locks, key: FileKey, o: Open)
    requires Valid(m0) && OnlyOwn(m0, m, key, o)
    ensures Between(m0, Unlocking(m, key, o, Diff(Own(m, key, o), Own(m0, key, o))), key, o)
  {
    var own, snap := Own(m, key, o), Own(m0, key, o);
    var extra := Diff(own, snap);
    var m' := Unlocking(m, key, o, extra);
    assert ListOk(Ranges(m, key));
    hide Valid;
    FilterMembers(Ranges(m, key), OwnedBy(o));
    FilterMembers(Ranges(m0, key), OwnedBy(o));
    FilterMembers(own, Unlike(snap));
    FilterMembers(Ranges(m', key), OwnedBy(o));
    UnlockingOnlyOwn(m, key, o, extra);
    forall r | r in Own(m', key, o) ensures r in snap {
      UnlockingEffect(m, key, o, extra, r);
      if r !in snap { StaysUnlike(own, snap, r, o); }
    }
  }

  lemma StaysUnlike(own: seq<Range>, snap: seq<Range>, r: Range, o: Open)
    requires r in own && r !in snap && r.owner == o && forall x :: x in snap ==> x.owner == o
    ensures Matches(Diff(own, snap), r)
  {
    FilterMember(own, Unlike(snap), r);
    assert Unlike(snap)(r);
    var i :| 0 <= i < |Diff(own, snap)| && Diff(own, snap)[i] == r;
  }

  lemma SameTotal(m0: Locks, m: Locks, key: FileKey)
    requires Valid(m0) && Valid(m) && |Ranges(m, key)| == |Ranges(m0, key)|
    requires forall k :: k != key ==> Ranges(m, k) == Ranges(m0, k)
    ensures Total(m) == Total(m0)
  {
    TotalWithout(m, key);
    TotalWithout(m0, key);
    forall k | k != key ensures (k in m <==> k in m0) && (k in m ==> m[k] == m0[k]) {
      assert Ranges(m, k) == Ranges(m0, k);
    }
    hide Valid, Total, Ranges;
    assert m - {key} == m0 - {key};
  }

  /** Whatever a request did, restoring grants every range again and brings back
      the same ranges, as a multiset, with the same count. */
  lemma RestoringUndoes(m0: Locks, m: Locks, key: FileKey, o: Open)
    requires Valid(m0) && OnlyOwn(m0, m, key, o)
    ensures var (m', all) := Restoring(m, key, o, Own(m0, key, o));
      && all && OnlyOwn(m0, m', key, o)
      && multiset(Ranges(m', key)) == multiset(Ranges(m0, key)) && Total(m') == Total(m0)
  {
    var m' := Restoring(m, key, o, Own(m0, key, o)).0;
    hide Valid, Unlocking, Relocking;
    UnlockingBetween(m0, m, key, o);
    RelockingEffect(m0, Unlocking(m, key, o, Diff(Own(m, key, o), Own(m0, key, o))), key, o, Own(m0, key, o));
    SameAgain(m0, m', key, o);
  }

  /** The i-th unlock of the rollback lowers the count, so it closes the release
      channel. */
  ghost predicate Signals(m: Locks, key: FileKey, o: Open, extra: seq<Range>, i: nat)
    requires i < |extra|
  {
    Total(Unlocking(m, key, o, extra[..i + 1])) < Total(Unlocking(m, key, o, extra[..i]))
  }

  /** A rollback signals a release exactly when the request had added a range. */
  lemma RollbackSignalsIff(m0: Locks, m: Locks, key: FileKey, o: Open)
    requires Valid(m0) && OnlyOwn(m0, m, key, o)
    ensures var extra := Diff(Own(m, key, o), Own(m0, key, o));
      (exists i :: 0 <= i < |extra| && Signals(m, key, o, extra, i)) <==>
      exists r :: r in Own(m, key, o) && r !in Own(m0, key, o)
  {
    var own, snap := Own(m, key, o), Own(m0, key, o);
    var extra := Diff(own, snap);
    FilterMembers(Ranges(m, key), OwnedBy(o));
    FilterMembers(Ranges(m0, key), OwnedBy(o));
    FilterMembers(own, Unlike(snap));
    if r :| r in own && r !in snap { StaysUnlike(own, snap, r, o); }
    if extra != [] {
      var r := extra[0];
      assert r in extra && Unlike(snap)(r) && Alike(r, r);
      FirstUnlock(m, key, o, extra);
      assert Signals(m, key, o, extra, 0);
    }
  }

  lemma FirstUnlock(m: Locks, key: FileKey, o: Open, extra: seq<Range>)
    requires Valid(m) && extra != [] && extra[0] in Ranges(m, key) && extra[0].owner == o
    ensures Total(Unlocking(m, key, o, extra[..1])) < Total(Unlocking(m, key, o, extra[..0]))
  {
    var r := extra[0];
    assert extra[..0] == [] && extra[..1][..0] == [] && extra[..1][0] == r;
    assert ListOk(Ranges(m, key));
    hide Valid;
    DropValid(m, key, Unmatched(o, r.start, r.length));
  }

  lemma SameAgain(m0: Locks, m: Locks, key: FileKey, o: Open)
    requires Valid(m0) && OnlyOwn(m0, m, key, o) && forall r :: r in Own(m, key, o) <==> r in Own(m0, key, o)
    ensures multiset(Ranges(m, key)) == multiset(Ranges(m0, key)) && Total(m) == Total(m0)
  {
    var rs0, rs := Ranges(m0, key), Ranges(m, key);
    assert ListOk(rs0) && ListOk(rs);
    hide Valid;
    forall r ensures r in rs <==> r in rs0 {
      var mine := if r.owner == o then OwnedBy(o) else NotOwnedBy(o);
      FilterMember(rs, mine, r);
      FilterMember(rs0, mine, r);
      assert r.owner == o ==> (r in Own(m, key, o) <==> r in Own(m0, key, o));
      assert mine(r);
    }
    SameElements(rs, rs0);
    SameTotal(m0, m, key);
  }

  /** A LOCK request is all or nothing. If an element fails, by conflict or cap,
      the table holds exactly the ranges it held before, for every handle and
      every file. */
  lemma RequestAllOrNothing(m: Locks, key: FileKey, o: Open, ops: seq<LockOp>)
    requires Valid(m)
    ensures var (m', failed) := Request(m, key, o, ops);
      && OnlyOwn(m, m', key, o)
      && (failed.Some? ==>
            && failed.value.element < |ops| && failed.value.verdict != Granted
            && multiset(Ranges(m', key)) == multiset(Ranges(m, key)) && Total(m') == Total(m))
  {
    hide Valid, Restoring;
    ApplyingOnlyOwn(m, key, o, ops);
    if |ops| > 1 { RestoringUndoes(m, Applying(m, key, o, ops).0, key, o); }
  }

  /** The failure a request reports is its first: every element before it was
      granted, and it was refused on the table they left. */
  lemma {:induction false} FailsAtFirst(m: Locks, key: FileKey, o: Open, ops: seq<LockOp>)
    requires Applying(m, key, o, ops).1.Some?
    ensures var f := Applying(m, key, o, ops).1.value;
      && f.element < |ops| && Applying(m, key, o, ops[..f.element]).1 == None
      && Elementwise(Applying(m, key, o, ops[..f.element]).0, key, o, ops[f.element]).1 == f.verdict != Granted
  {
    var n := |ops| - 1;
    if Applying(m, key, o, ops[..n]).1.Some? {
      FailsAtFirst(m, key, o, ops[..n]);
      var f := Applying(m, key, o, ops[..n]).1.value;
      assert ops[..n][..f.element] == ops[..f.element];
    }
  }

  // ---- a request that succeeds ----

  predicate Names(op: LockOp, r: Range) { SameRange(r, op.el.offset, op.el.length) }

  /** What one granted element does to any one range of the file. */
  lemma ElementEffect(m: Locks, key: FileKey, o: Open, op: LockOp, r: Range)
    requires Valid(m) && Elementwise(m, key, o, op).1 == Granted && op.el.length > 0
    ensures var m' := Elementwise(m, key, o, op).0;
      if r.owner != o || !Names(op, r) then r in Ranges(m', key) <==> r in Ranges(m, key)
      else if op.kind.Unlock? then r !in Ranges(m', key)
      else r in Ranges(m', key) <==> r in Ranges(m, key) || r.exclusive == op.kind.Exclusive?
  {
    hide Valid;
    if op.kind.Unlock? {
      DropValid(m, key, Unmatched(o, op.el.offset, op.el.length));
    } else {
      LockValid(m, key, Range(o, op.el.offset, op.el.length, op.kind.Exclusive?));
    }
  }

  /** After a request that succeeds, the last element that names a range decides:
      locked ranges are held, unlocked ones are not, and ranges no element names
      are as before. */
  lemma {:induction false} RequestGrants(m: Locks, key: FileKey, o: Open, ops: seq<LockOp>, r: Range)
    requires Valid(m) && Applying(m, key, o, ops).1 == None && r.owner == o && r.length > 0
    ensures (forall i :: 0 <= i < |ops| ==> !Names(ops[i], r)) ==>
      (r in Ranges(Applying(m, key, o, ops).0, key) <==> r in Ranges(m, key))
    ensures forall i :: 0 <= i < |ops| && Names(ops[i], r) && (forall j :: i < j < |ops| ==> !Names(ops[j], r)) ==>
      && (ops[i].kind.Unlock? ==> r !in Ranges(Applying(m, key, o, ops).0, key))
      && (!ops[i].kind.Unlock? && ops[i].kind.Exclusive? == r.exclusive ==> r in Ranges(Applying(m, key, o, ops).0, key))
  {
    if ops != [] {
      var front, last := ops[..|ops| - 1], ops[|ops| - 1];
      RequestGrants(m, key, o, front, r);
      ApplyingOnlyOwn(m, key, o, front);
      hide Valid, Apply;
      var m1 := Applying(m, key, o, front).0;
      if last.el.length > 0 { ElementEffect(m1, key, o, last, r); } else { ZeroIsNothing(m1, key, o, last); }
      assert forall i :: 0 <= i < |front| ==> front[i] == ops[i];
    }
  }

  lemma ZeroIsNothing(m: Locks, key: FileKey, o: Open, op: LockOp)
    requires op.el.length == 0
    ensures Elementwise(m, key, o, op) == (m, Granted)
  {
  }

  // ---- the loops ----

  method RangesDiff(a: seq<Range>, b: seq<Range>) returns (out: seq<Range>)
    ensures out == Diff(a, b)
  {
    out := [];
    for i := 0 to |a|
      invariant out == Diff(a[..i], b)
    {
      var found := false;
      for j := 0 to |b|
        invariant !found
        invariant forall x :: x in b[..j] ==> !Alike(x, a[i])
      {
        if Alike(b[j], a[i]) {
          found := true;
          assert b[j] in b;
          break;
        }
      }
      assert b[..|b|] == b;
      assert a[..i + 1][..i] == a[..i];
      if !found {
        out := out + [a[i]];
      }
    }
    assert a[..|a|] == a;
  }

  method UnlockEach(t: LockTable, key: FileKey, o: Open, rs: seq<Range>)
    requires t.Ok()
    modifies t
    ensures t.Ok() && t.locks == Unlocking(old(t.locks), key, o, rs)
  {
    hide Apply, Valid;
    for i := 0 to |rs|
      invariant t.Ok() && t.locks == Unlocking(old(t.locks), key, o, rs[..i])
    {
      assert rs[..i + 1][..i] == rs[..i];
      var _ := t.ApplyRange(key, o, rs[i].start, rs[i].length, Unlock);
    }
    assert rs[..|rs|] == rs;
  }

  method RelockEach(t: LockTable, key: FileKey, o: Open, rs: seq<Range>)
    requires t.Ok()
    modifies t
    ensures t.Ok() && t.locks == Relocking(old(t.locks), key, o, rs).0
  {
    hide Apply, Valid;
    for i := 0 to |rs|
      invariant t.Ok() && t.locks == Relocking(old(t.locks), key, o, rs[..i]).0
    {
      assert rs[..i + 1][..i] == rs[..i];
      var _ := t.ApplyRange(key, o, rs[i].start, rs[i].length, if rs[i].exclusive then Exclusive else Shared);
    }
    assert rs[..|rs|] == rs;
  }

  method RestoreLocks(t: LockTable, key: FileKey, o: Open, snap: seq<Range>)
    requires t.Ok()
    modifies t
    ensures t.Ok() && t.locks == Restoring(old(t.locks), key, o, snap).0
  {
    hide Unlocking, Relocking;
    var mine := t.Snapshot(key, o);
    var extra := RangesDiff(mine, snap);
    UnlockEach(t, key, o, extra);
    RelockEach(t, key, o, snap);
  }

  /** applyLockOps, with nobody else's step in between. */
  method ApplyLockOps(t: LockTable, key: FileKey, o: Open, ops: seq<LockOp>) returns (failed: Option<Failure>)
    requires t.Ok()
    modifies t
    ensures t.Ok() && (t.locks, failed) == Request(old(t.locks), key, o, ops)
  {
    hide Apply, Valid, Restoring, Filter;
    var snap := [];
    if |ops| > 1 {
      snap := t.Snapshot(key, o);
    }
    for i := 0 to |ops|
      invariant t.Ok() && (t.locks, None) == Applying(old(t.locks), key, o, ops[..i])
    {
      assert ops[..i + 1][..i] == ops[..i];
      var v := t.ApplyRange(key, o, ops[i].el.offset, ops[i].el.length, ops[i].kind);
      if v != Granted {
        FirstFailure(old(t.locks), key, o, ops, i + 1);
        if |ops| > 1 {
          RestoreLocks(t, key, o, snap);
        }
        return Some(Failure(i, v));
      }
    }
    assert ops[..|ops|] == ops;
    return None;
  }

  /** Elements after the first failure do not matter. */
  lemma {:induction false} FirstFailure(m: Locks, key: FileKey, o: Open, ops: seq<LockOp>, n: nat)
    requires n <= |ops| && Applying(m, key, o, ops[..n]).1.Some?
    ensures Applying(m, key, o, ops) == Applying(m, key, o, ops[..n])
  {
    if n < |ops| {
      assert ops[..|ops| - 1][..n] == ops[..n];
      FirstFailure(m, key, o, ops[..|ops| - 1], n);
    } else {
      assert ops[..n] == ops;
    }
  }
}
