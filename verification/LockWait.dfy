/** Blocking LOCK requests: each takes the release channel, tries its elements
    one table operation at a time, and parks until the channel is closed. Any
    other operation on the table may come between two steps. */
module LockWait {
  import opened Handles
  import opened Seqs
  import opened RangeLocks
  import opened LockRequests

  type ProcId = nat

  /** Where a parked request stands. The refusing range is kept for the proof. */
  datatype Stage =
    | Unsubscribed
    | Attempting(chan: Chan, element: nat)
    | Undoing(chan: Chan, op: LockOp, refusing: Range)
    | Parked(chan: Chan, op: LockOp, refusing: Range)
    | Finished

  datatype Wait = Wait(key: FileKey, o: Open, ops: seq<LockOp>, stage: Stage)

  datatype State = State(
    locks: Locks,
    released: Option<Chan>,
    next: Chan,
    closed: set<Chan>,
    waits: map<ProcId, Wait>)

  const INITIAL: State := State(map[], None, 0, {}, map[])

  datatype Action =
    | Start(p: ProcId, key: FileKey, o: Open, ops: seq<LockOp>)
    | Subscribe(p: ProcId)
    | TryElement(p: ProcId)
    | Park(p: ProcId)
    | Woken(p: ProcId)
    | Leave(p: ProcId)
    | Operate(op: Op)

  /** One operation on the table: when ranges disappear the channel is closed. */
  ghost function Publish(s: State, locks: Locks): State {
    if Total(locks) < Total(s.locks) && s.released.Some?
    then s.(locks := locks, closed := s.closed + {s.released.value}, released := None)
    else s.(locks := locks)
  }

  function At(s: State, p: ProcId, stage: Stage): State
    requires p in s.waits
  {
    s.(waits := s.waits[p := s.waits[p].(stage := stage)])
  }

  function DoSubscribe(s: State, p: ProcId): State
    requires p in s.waits
  {
    var s1 := if s.released.None? then s.(released := Some(s.next), next := s.next + 1) else s;
    At(s1, p, Attempting(s1.released.value, 0))
  }

  predicate Refuses(r: Range, o: Open, op: LockOp) {
    Forbids(r, o, op.el.offset, op.el.length, op.kind.Exclusive?)
  }

  /** The next element. A conflict on one that may wait leads to the rollback and
      the park; any other failure, and the last element's success, end it. */
  ghost function DoTry(s: State, p: ProcId): State
    requires p in s.waits && s.waits[p].stage.Attempting?
  {
    var q := s.waits[p];
    var ch, i := q.stage.chan, q.stage.element;
    if i >= |q.ops| then At(s, p, Finished)
    else
      var (locks, v) := Elementwise(s.locks, q.key, q.o, q.ops[i]);
      if v.Granted? then At(Publish(s, locks), p, Attempting(ch, i + 1))
      else if v.Conflict? && Blocking(q.ops[i]) then
        var rs := Ranges(s.locks, q.key);
        var j :| 0 <= j < |rs| && Refuses(rs[j], q.o, q.ops[i]);
        At(s, p, Undoing(ch, q.ops[i], rs[j]))
      else At(s, p, Finished)
  }

  ghost function Step(s: State, a: Action): State {
    match a
    case Start(p, key, o, ops) => if p !in s.waits then s.(waits := s.waits[p := Wait(key, o, ops, Unsubscribed)]) else s
    case Subscribe(p) => if p in s.waits && s.waits[p].stage.Unsubscribed? then DoSubscribe(s, p) else s
    case TryElement(p) => if p in s.waits && s.waits[p].stage.Attempting? then DoTry(s, p) else s
    case Park(p) =>
      if p in s.waits && s.waits[p].stage.Undoing?
      then At(s, p, Parked(s.waits[p].stage.chan, s.waits[p].stage.op, s.waits[p].stage.refusing)) else s
    case Woken(p) =>
      if p in s.waits && s.waits[p].stage.Parked? && s.waits[p].stage.chan in s.closed then At(s, p, Unsubscribed) else s
    case Leave(p) => if p in s.waits && s.waits[p].stage.Parked? then At(s, p, Finished) else s
    case Operate(op) => Publish(s, After(s.locks, op))
  }

  ghost function Reach(acts: seq<Action>): State {
    if acts == [] then INITIAL else Step(Reach(acts[..|acts| - 1]), acts[|acts| - 1])
  }

  // ---- the invariant ----

  predicate Subscribed(stage: Stage) { stage.Attempting? || stage.Undoing? || stage.Parked? }

  /** An open channel is the current one; the range that refused is still held. */
  predicate WaitOk(s: State, p: ProcId)
    requires p in s.waits
  {
    var q := s.waits[p];
    && (Subscribed(q.stage) ==> q.stage.chan in s.closed || s.released == Some(q.stage.chan))
    && (q.stage.Undoing? || q.stage.Parked? ==>
          && Refuses(q.stage.refusing, q.o, q.stage.op)
          && (q.stage.chan !in s.closed ==> q.stage.refusing in Ranges(s.locks, q.key)))
  }

  ghost predicate Inv(s: State) {
    && Valid(s.locks)
    && (forall c :: c in s.closed ==> c < s.next)
    && (s.released.Some? ==> s.released.value < s.next && s.released.value !in s.closed)
    && (forall p :: p in s.waits ==> WaitOk(s, p))
  }

  /** An operation that does not lower the count removes nothing. */
  ghost predicate OnlyShrinksLoudly(m: Locks, m': Locks) {
    Valid(m') && (Total(m') >= Total(m) ==> forall key, r :: r in Ranges(m, key) ==> r in Ranges(m', key))
  }

  lemma ApplyIsLoud(m: Locks, key: FileKey, o: Open, start: U64, length: U64, kind: Kind)
    requires Valid(m)
    ensures OnlyShrinksLoudly(m, Apply(m, key, o, start, length, kind).0)
  {
    hide Valid;
    var m' := Apply(m, key, o, start, length, kind).0;
    if length != 0 {
      if kind.Unlock? {
        DropValid(m, key, Unmatched(o, start, length));
      } else {
        LockValid(m, key, Range(o, start, length, kind.Exclusive?));
        forall k, r | r in Ranges(m, k) ensures r in Ranges(m', k) { assert k != key ==> Ranges(m', k) == Ranges(m, k); }
      }
    }
  }

  lemma AfterIsLoud(m: Locks, op: Op)
    requires Valid(m)
    ensures OnlyShrinksLoudly(m, After(m, op))
  {
    hide Valid, Apply;
    match op
    case Applied(key, o, start, length, kind) => ApplyIsLoud(m, key, o, start, length, kind);
    case Released(key, o) => DropValid(m, key, RangeLocks.NotOwnedBy(o));
  }

  lemma PublishKeeps(s: State, locks: Locks)
    requires Inv(s) && OnlyShrinksLoudly(s.locks, locks)
    ensures Inv(Publish(s, locks))
  {
    hide Valid, Total;
    var s' := Publish(s, locks);
    forall p | p in s'.waits ensures WaitOk(s', p) { assert WaitOk(s, p); }
  }

  lemma StageKeeps(s: State, p: ProcId, stage: Stage)
    requires Inv(s) && p in s.waits && WaitOk(At(s, p, stage), p)
    ensures Inv(At(s, p, stage))
  {
    hide Valid;
    var s' := At(s, p, stage);
    forall r | r in s'.waits ensures WaitOk(s', r) { assert WaitOk(s, r); }
  }

  lemma SubscribeKeeps(s: State, p: ProcId)
    requires Inv(s) && p in s.waits
    ensures Inv(DoSubscribe(s, p))
  {
    hide Valid;
    var s' := DoSubscribe(s, p);
    forall r | r in s'.waits ensures WaitOk(s', r) { assert WaitOk(s, r); }
  }

  lemma TryKeeps(s: State, p: ProcId)
    requires Inv(s) && p in s.waits && s.waits[p].stage.Attempting?
    ensures Inv(DoTry(s, p))
  {
    var q := s.waits[p];
    assert WaitOk(s, p);
    if q.stage.element < |q.ops| {
      var op := q.ops[q.stage.element];
      ApplyIsLoud(s.locks, q.key, q.o, op.el.offset, op.el.length, op.kind);
      var (locks, v) := Elementwise(s.locks, q.key, q.o, op);
      PublishKeeps(s, locks);
      hide Valid, Inv, Elementwise;
      if v.Granted? {
        StageKeeps(Publish(s, locks), p, DoTry(s, p).waits[p].stage);
      } else {
        StageKeeps(s, p, DoTry(s, p).waits[p].stage);
      }
    } else {
      hide Valid, Inv;
      StageKeeps(s, p, Finished);
    }
  }

  lemma StepKeeps(s: State, a: Action)
    requires Inv(s)
    ensures Inv(Step(s, a))
  {
    match a
    case Start(p, key, o, ops) =>
      forall r | r in Step(s, a).waits ensures WaitOk(Step(s, a), r) { assert r in s.waits ==> WaitOk(s, r); }
    case Subscribe(p) => if p in s.waits { SubscribeKeeps(s, p); }
    case TryElement(p) => if p in s.waits && s.waits[p].stage.Attempting? { TryKeeps(s, p); }
    case Operate(op) =>
      AfterIsLoud(s.locks, op);
      PublishKeeps(s, After(s.locks, op));
    case _ =>
      if a.p in s.waits && Step(s, a) != s {
        assert WaitOk(s, a.p);
        hide Valid, Inv;
        StageKeeps(s, a.p, Step(s, a).waits[a.p].stage);
      }
  }

  lemma {:induction false} RunKeeps(acts: seq<Action>)
    ensures Inv(Reach(acts))
  {
    if acts != [] {
      hide Inv, Step;
      RunKeeps(acts[..|acts| - 1]);
      StepKeeps(Reach(acts[..|acts| - 1]), acts[|acts| - 1]);
    }
  }

  /** No release is missed: while a parked request's channel is open, the range
      that refused its last attempt is still in the table and still forbids it. */
  lemma StillRefused(acts: seq<Action>, p: ProcId)
    requires p in Reach(acts).waits && Reach(acts).waits[p].stage.Parked?
    requires Reach(acts).waits[p].stage.chan !in Reach(acts).closed
    ensures var s := Reach(acts); var q := s.waits[p];
      && q.stage.refusing in Ranges(s.locks, q.key) && Refuses(q.stage.refusing, q.o, q.stage.op)
      && s.released == Some(q.stage.chan)
  {
    hide Step, Valid;
    RunKeeps(acts);
    assert WaitOk(Reach(acts), p);
  }

  /** After an attempt at an element the request goes on when it was granted,
      waits when it met a conflict and is neither an unlock nor told to fail at
      once, and ends otherwise. */
  lemma AttemptVerdict(s: State, p: ProcId)
    requires p in s.waits && s.waits[p].stage.Attempting? && s.waits[p].stage.element < |s.waits[p].ops|
    ensures var s', q := Step(s, TryElement(p)), s.waits[p];
      var op := q.ops[q.stage.element];
      var v := Elementwise(s.locks, q.key, q.o, op).1;
      && p in s'.waits
      && (if v == Granted then s'.waits[p].stage == Attempting(q.stage.chan, q.stage.element + 1)
          else if v == Conflict && op.kind != Unlock && op.el.flags & 0x10 == 0
          then s'.waits[p].stage.Undoing? && s'.waits[p].stage.chan == q.stage.chan && s'.waits[p].stage.op == op && s'.locks == s.locks
          else s'.waits[p].stage == Finished && s'.locks == s.locks)
  {
  }

  // ---- exactly when a parked request is awake already ----

  /** The i-th step of the run removed a range. */
  ghost predicate Lowers(acts: seq<Action>, i: nat)
    requires i < |acts|
  {
    Total(Reach(acts[..i + 1]).locks) < Total(Reach(acts[..i]).locks)
  }

  lemma ChannelStep(s: State, a: Action, ch: Chan)
    requires Inv(s)
    ensures ch in s.closed ==> ch in Step(s, a).closed
    ensures s.released == Some(ch) ==>
      if Total(Step(s, a).locks) < Total(s.locks) then ch in Step(s, a).closed
      else Step(s, a).released == Some(ch) && ch !in Step(s, a).closed
  {
    hide Valid, Elementwise, After;
  }

  /** A channel taken at start is closed exactly when a range disappeared since,
      by whoever's step: another handle's, or the request's own rollback, after
      which it parks on a channel that is closed already and tries again. */
  lemma {:induction false} ChannelClosedIff(acts: seq<Action>, start: nat, ch: Chan)
    requires start <= |acts| && Reach(acts[..start]).released == Some(ch)
    ensures ch in Reach(acts).closed <==> exists i :: start <= i < |acts| && Lowers(acts, i)
    ensures ch in Reach(acts).closed || Reach(acts).released == Some(ch)
    decreases |acts|
  {
    hide Step, Total, Lowers, Inv;
    RunKeeps(acts);
    if start == |acts| {
      assert acts[..start] == acts;
      CurrentIsOpen(Reach(acts));
    } else {
      var n := |acts| - 1;
      var before := acts[..n];
      assert before[..start] == acts[..start];
      ChannelClosedIff(before, start, ch);
      RunKeeps(before);
      ChannelStep(Reach(before), acts[n], ch);
      LowersLast(acts);
      forall i | 0 <= i < n ensures Lowers(before, i) <==> Lowers(acts, i) { LowersEarlier(acts, i); }
      if i :| start <= i < |acts| && Lowers(acts, i) { assert i < n ==> Lowers(before, i); }
      if i :| start <= i < n && Lowers(before, i) { assert Lowers(acts, i); }
    }
  }

  lemma CurrentIsOpen(s: State)
    requires Inv(s) && s.released.Some?
    ensures s.released.value !in s.closed
  {
  }

  lemma LowersLast(acts: seq<Action>)
    requires acts != []
    ensures Lowers(acts, |acts| - 1) <==> Total(Step(Reach(acts[..|acts| - 1]), acts[|acts| - 1]).locks) < Total(Reach(acts[..|acts| - 1]).locks)
  {
    hide Step, Total;
    assert acts[..|acts| - 1 + 1] == acts;
  }

  lemma LowersEarlier(acts: seq<Action>, i: nat)
    requires i + 1 < |acts|
    ensures Lowers(acts[..|acts| - 1], i) <==> Lowers(acts, i)
  {
    hide Step, Total;
    var before := acts[..|acts| - 1];
    assert before[..i + 1] == acts[..i + 1] && before[..i] == acts[..i];
  }
}
