/** CREATEs that wait out a sharing conflict: the retry loop of every request,
    the parking slots of every connection and the releases that wake them, as a
    machine of atomic steps over the share-mode table. */
module ShareWait {
  import opened Handles
  import opened Seqs
  import opened ShareModes

  type ProcId = nat
  type ConnId = nat

  const MAX_SHARING_WAITS: nat := 4

  /** Where a request stands. Those with a waiter have registered for a wake. */
  datatype Stage =
    | Trying
    | Refused(waiter: Waiter)
    | OverCap(waiter: Waiter)
    | Refusing(waiter: Waiter)
    | Waiting(waiter: Waiter)
    | Retrying
    | TimedOut(waiter: Waiter)
    | Leaving(granted: bool)
    | Done(granted: bool)

  datatype Proc = Proc(conn: ConnId, key: FileKey, open: Open, mode: Mode, stage: Stage)

  /** The waiters that were woken and the request each was made for are kept for
      good; slots is the counter each connection holds; closed are the handles
      whose descriptor is closed, as a reclaim does before it moves the
      reservation on. */
  datatype State = State(
    table: Table,
    procs: map<ProcId, Proc>,
    slots: map<ConnId, int>,
    next: Waiter,
    asked: map<Waiter, ProcId>,
    woken: set<Waiter>,
    closed: set<Open>)

  const INITIAL: State := State(EMPTY, map[], map[], 0, map[], {}, {})

  function WaiterOf(stage: Stage): Option<Waiter> {
    if stage.Refused? || stage.OverCap? || stage.Refusing? || stage.Waiting? || stage.TimedOut? then Some(stage.waiter) else None
  }

  /** The request holds one of its connection's parking slots. */
  predicate Parks(stage: Stage) { stage.Waiting? || stage.Retrying? || stage.TimedOut? || stage.Leaving? }

  /** The request is counted, in a slot or on its way back from the cap. */
  predicate Counted(stage: Stage) { Parks(stage) || stage.OverCap? }

  function SlotsOf(s: State, c: ConnId): int { if c in s.slots then s.slots[c] else 0 }

  function Bump(s: State, c: ConnId, n: int): State { s.(slots := s.slots[c := SlotsOf(s, c) + n]) }

  function At(s: State, p: ProcId, stage: Stage): State
    requires p in s.procs
  {
    s.(procs := s.procs[p := s.procs[p].(stage := stage)])
  }

  // ---- the steps ----

  datatype Action =
    | Start(p: ProcId, conn: ConnId, key: FileKey, open: Open, mode: Mode)
    | Try(p: ProcId)
    | Begin(p: ProcId)
    | Undo(p: ProcId)
    | Wakes(p: ProcId)
    | Timeout(p: ProcId)
    | GiveUp(p: ProcId)
    | End(p: ProcId)
    | Releases(o: Open)
    | Transfers(from: Open, to: Open)
    | Closes(o: Open)

  /** The owners whose descriptor still answers for their entry. */
  function Alive(s: State): set<Open> { s.table.owners.Keys - s.closed }

  /** acquireOrWait: the test, and on refusal the registration, in one region. */
  function DoTry(s: State, p: ProcId, live: set<Open>): State
    requires p in s.procs
  {
    var q := s.procs[p];
    var (t, ok) := Acquire(s.table, q.key, q.open, q.mode, live);
    if ok then At(s, p, if q.stage.Trying? then Done(true) else Leaving(true)).(table := t)
    else
      At(s, p, if q.stage.Trying? then Refused(s.next) else Waiting(s.next))
        .(table := AddWaiter(t, q.key, s.next), next := s.next + 1, asked := s.asked[s.next := p])
  }

  function DoBegin(s: State, p: ProcId): State
    requires p in s.procs && s.procs[p].stage.Refused?
  {
    var q := s.procs[p];
    var s1 := Bump(s, q.conn, 1);
    At(s1, p, if SlotsOf(s1, q.conn) > MAX_SHARING_WAITS then OverCap(q.stage.waiter) else Waiting(q.stage.waiter))
  }

  function DoGiveUp(s: State, p: ProcId): State
    requires p in s.procs && (s.procs[p].stage.TimedOut? || s.procs[p].stage.Refusing?)
  {
    var q := s.procs[p];
    At(s, p, if q.stage.TimedOut? then Leaving(false) else Done(false)).(table := Unwait(s.table, q.key, q.stage.waiter))
  }

  /** release drops the reservation and closes the channel of every waiter. */
  function DoRelease(s: State, o: Open): State {
    if o !in s.table.owners then s
    else s.(table := Release(s.table, o), woken := s.woken + set w | w in Parked(s.table, s.table.owners[o]))
  }

  ghost function Step(s: State, a: Action): State {
    match a
    case Start(p, conn, key, open, mode) =>
      if p !in s.procs then s.(procs := s.procs[p := Proc(conn, key, open, mode, Trying)]) else s
    case Try(p) => if p in s.procs && (s.procs[p].stage.Trying? || s.procs[p].stage.Retrying?) then DoTry(s, p, Alive(s)) else s
    case Begin(p) => if p in s.procs && s.procs[p].stage.Refused? then DoBegin(s, p) else s
    case Undo(p) =>
      if p in s.procs && s.procs[p].stage.OverCap? then At(Bump(s, s.procs[p].conn, -1), p, Refusing(s.procs[p].stage.waiter)) else s
    case Wakes(p) =>
      if p in s.procs && s.procs[p].stage.Waiting? && s.procs[p].stage.waiter in s.woken then At(s, p, Retrying) else s
    case Timeout(p) => if p in s.procs && s.procs[p].stage.Waiting? then At(s, p, TimedOut(s.procs[p].stage.waiter)) else s
    case GiveUp(p) => if p in s.procs && (s.procs[p].stage.TimedOut? || s.procs[p].stage.Refusing?) then DoGiveUp(s, p) else s
    case End(p) =>
      if p in s.procs && s.procs[p].stage.Leaving? then At(Bump(s, s.procs[p].conn, -1), p, Done(s.procs[p].stage.granted)) else s
    case Releases(o) => DoRelease(s, o)
    case Transfers(from, to) => if to !in s.table.owners then s.(table := Transfer(s.table, from, to)) else s
    case Closes(o) => s.(closed := s.closed + {o})
  }

  ghost function Reach(acts: seq<Action>): State {
    if acts == [] then INITIAL else Step(Reach(acts[..|acts| - 1]), acts[|acts| - 1])
  }

  // ---- the waiters in the table are the requests that wait ----

  predicate Distinct(ws: seq<Waiter>) { forall i, j :: 0 <= i < j < |ws| ==> ws[i] != ws[j] }

  /** A registered waiter belongs to a request that still waits with it. */
  predicate WaiterOk(s: State, key: FileKey, w: Waiter) {
    && w in s.asked && s.asked[w] in s.procs && w !in s.woken
    && s.procs[s.asked[w]].key == key && WaiterOf(s.procs[s.asked[w]].stage) == Some(w)
  }

  predicate ListOk(s: State, key: FileKey)
    requires key in s.table.waiters
  {
    s.table.waiters[key] != [] && Distinct(s.table.waiters[key]) && forall w :: w in s.table.waiters[key] ==> WaiterOk(s, key, w)
  }

  /** A request that waits is registered, or has been woken. */
  predicate ProcOk(s: State, p: ProcId)
    requires p in s.procs
  {
    var q := s.procs[p];
    WaiterOf(q.stage).Some? ==>
      var w := WaiterOf(q.stage).value;
      w in s.asked && s.asked[w] == p && (w in s.woken || w in Parked(s.table, q.key))
  }

  ghost predicate WaitersOk(s: State) {
    && (forall w :: w in s.asked ==> w < s.next)
    && (forall w :: w in s.woken ==> w in s.asked)
    && (forall key :: key in s.table.waiters ==> ListOk(s, key))
    && (forall p :: p in s.procs ==> ProcOk(s, p))
  }

  /** Every registered waiter is still refused by an entry of its file. */
  ghost predicate BlockedOk(s: State) {
    forall p :: p in s.procs ==> Blocked(s, p)
  }

  predicate Blocked(s: State, p: ProcId)
    requires p in s.procs
  {
    var q := s.procs[p];
    WaiterOf(q.stage).Some? && WaiterOf(q.stage).value !in s.woken ==> Clashes(Slot(s.table, q.key), q.mode)
  }

  // ---- the counter ----

  function Those(s: State, c: ConnId, want: Stage -> bool): set<ProcId> {
    set p | p in s.procs && s.procs[p].conn == c && want(s.procs[p].stage)
  }

  ghost predicate CountsOk(s: State) {
    forall c :: SlotsOf(s, c) == |Those(s, c, Counted)| && |Those(s, c, Parks)| <= MAX_SHARING_WAITS
  }

  function One(b: bool): int { if b then 1 else 0 }

  /** One request changes stage: its connection's count follows. */
  lemma CountMoves(s: State, p: ProcId, stage: Stage, c: ConnId, want: Stage -> bool)
    requires p in s.procs
    ensures |Those(At(s, p, stage), c, want)|
      == |Those(s, c, want)| + One(c == s.procs[p].conn && want(stage)) - One(c == s.procs[p].conn && want(s.procs[p].stage))
  {
    SameBut(Those(s, c, want), Those(At(s, p, stage), c, want), p);
  }

  lemma SameBut(a: set<ProcId>, b: set<ProcId>, p: ProcId)
    requires a - {p} == b - {p}
    ensures |b| == |a| + One(p in b) - One(p in a)
  {
    assert a == (a - {p}) + (if p in a then {p} else {});
    assert b == (b - {p}) + (if p in b then {p} else {});
  }

  lemma StartCounts(s: State, p: ProcId, q: Proc)
    requires CountsOk(s) && p !in s.procs && q.stage.Trying?
    ensures CountsOk(s.(procs := s.procs[p := q]))
  {
    var s' := s.(procs := s.procs[p := q]);
    forall c ensures SlotsOf(s', c) == |Those(s', c, Counted)| && |Those(s', c, Parks)| <= MAX_SHARING_WAITS {
      assert Those(s', c, Counted) == Those(s, c, Counted);
      assert Those(s', c, Parks) == Those(s, c, Parks);
    }
  }

  /** A request changes stage and the counter by what that stage is worth. */
  lemma MoveCounts(s: State, p: ProcId, stage: Stage, s': State)
    requires CountsOk(s) && p in s.procs && s'.procs == At(s, p, stage).procs
    requires forall c :: c != s.procs[p].conn ==> SlotsOf(s', c) == SlotsOf(s, c)
    requires var c := s.procs[p].conn; SlotsOf(s', c) == SlotsOf(s, c) + One(Counted(stage)) - One(Counted(s.procs[p].stage))
    requires Parks(stage) && !Parks(s.procs[p].stage) ==> SlotsOf(s', s.procs[p].conn) <= MAX_SHARING_WAITS
    ensures CountsOk(s')
  {
    forall c ensures SlotsOf(s', c) == |Those(s', c, Counted)| && |Those(s', c, Parks)| <= MAX_SHARING_WAITS {
      CountMoves(s, p, stage, c, Counted);
      CountMoves(s, p, stage, c, Parks);
      assert Those(s', c, Counted) == Those(At(s, p, stage), c, Counted);
      assert Those(s', c, Parks) == Those(At(s, p, stage), c, Parks);
      SubsetCount(Those(s', c, Parks), Those(s', c, Counted));
    }
  }

  lemma SubsetCount(a: set<ProcId>, b: set<ProcId>)
    requires a <= b
    ensures |a| <= |b|
  {
    assert |b| == |a| + |b - a| by { assert b == a + (b - a); }
  }

  lemma MoverCounts(s: State, a: Action)
    requires CountsOk(s) && !a.Start? && !a.Releases? && !a.Transfers? && !a.Closes?
    ensures CountsOk(Step(s, a))
  {
    hide CountsOk, Acquire, Unwait;
    var s' := Step(s, a);
    if s' != s {
      MoveCounts(s, a.p, s'.procs[a.p].stage, s');
    }
  }

  lemma StepCounts(s: State, a: Action)
    requires CountsOk(s)
    ensures CountsOk(Step(s, a))
  {
    hide Acquire, Unwait, Release, Transfer;
    var s' := Step(s, a);
    if a.Start? {
      if a.p !in s.procs { StartCounts(s, a.p, s'.procs[a.p]); }
    } else if a.Releases? || a.Transfers? || a.Closes? {
      assert s'.procs == s.procs && s'.slots == s.slots;
      assert forall c :: Those(s', c, Counted) == Those(s, c, Counted) && Those(s', c, Parks) == Those(s, c, Parks);
    } else {
      MoverCounts(s, a);
    }
  }

  // ---- waiters and wake-ups ----

  /** One request moves and the table stays: it keeps its waiter, or gives up
      one that was woken. */
  lemma StageWaits(s: State, p: ProcId, stage: Stage)
    requires WaitersOk(s) && p in s.procs
    requires WaiterOf(stage) == WaiterOf(s.procs[p].stage)
      || (WaiterOf(stage) == None && WaiterOf(s.procs[p].stage).Some? && WaiterOf(s.procs[p].stage).value in s.woken)
    ensures WaitersOk(At(s, p, stage)) && (BlockedOk(s) ==> BlockedOk(At(s, p, stage)))
  {
    var s' := At(s, p, stage);
    forall key | key in s'.table.waiters ensures ListOk(s', key) { assert ListOk(s, key); }
    forall r | r in s'.procs ensures ProcOk(s', r) && (BlockedOk(s) ==> Blocked(s', r)) { assert ProcOk(s, r) && (BlockedOk(s) ==> Blocked(s, r)); }
  }

  lemma SlotsAside(s: State, slots: map<ConnId, int>, closed: set<Open>)
    requires WaitersOk(s)
    ensures WaitersOk(s.(slots := slots, closed := closed)) && (BlockedOk(s) ==> BlockedOk(s.(slots := slots, closed := closed)))
  {
    var s' := s.(slots := slots, closed := closed);
    forall key | key in s'.table.waiters ensures ListOk(s', key) { assert ListOk(s, key); }
    forall r | r in s'.procs ensures ProcOk(s', r) && (BlockedOk(s) ==> Blocked(s', r)) { assert ProcOk(s, r) && (BlockedOk(s) ==> Blocked(s, r)); }
  }

  lemma StartWaits(s: State, p: ProcId, q: Proc)
    requires WaitersOk(s) && p !in s.procs && q.stage.Trying?
    ensures WaitersOk(s.(procs := s.procs[p := q])) && (BlockedOk(s) ==> BlockedOk(s.(procs := s.procs[p := q])))
  {
    var s' := s.(procs := s.procs[p := q]);
    forall key | key in s'.table.waiters ensures ListOk(s', key) { assert ListOk(s, key); }
    forall r | r in s'.procs ensures ProcOk(s', r) && (BlockedOk(s) ==> Blocked(s', r)) { assert r != p ==> ProcOk(s, r) && (BlockedOk(s) ==> Blocked(s, r)); }
  }

  /** The entries of every file still refuse whom they refused. */
  ghost predicate StillRefuses(t: Table, t': Table) {
    forall key, mode :: Clashes(Slot(t, key), mode) ==> Clashes(Slot(t', key), mode)
  }

  lemma TableWaits(s: State, t: Table)
    requires WaitersOk(s) && t.waiters == s.table.waiters
    ensures WaitersOk(s.(table := t)) && (BlockedOk(s) && StillRefuses(s.table, t) ==> BlockedOk(s.(table := t)))
  {
    var s' := s.(table := t);
    forall key | key in s'.table.waiters ensures ListOk(s', key) { assert ListOk(s, key); }
    forall r | r in s'.procs ensures ProcOk(s', r) && (BlockedOk(s) && StillRefuses(s.table, t) ==> Blocked(s', r)) {
      assert ProcOk(s, r) && (BlockedOk(s) ==> Blocked(s, r));
    }
  }

  lemma DistinctAppend(ws: seq<Waiter>, w: Waiter)
    requires Distinct(ws) && w !in ws
    ensures Distinct(ws + [w])
  {
  }

  /** A refused request registers with a waiter nobody has. */
  lemma RegisterWaits(s: State, p: ProcId, stage: Stage)
    requires WaitersOk(s) && p in s.procs && WaiterOf(s.procs[p].stage) == None
    requires WaiterOf(stage) == Some(s.next) && Clashes(Slot(s.table, s.procs[p].key), s.procs[p].mode)
    ensures var s' := At(s, p, stage).(table := AddWaiter(s.table, s.procs[p].key, s.next), next := s.next + 1, asked := s.asked[s.next := p]);
      WaitersOk(s') && (BlockedOk(s) ==> BlockedOk(s'))
  {
    var key := s.procs[p].key;
    var s' := At(s, p, stage).(table := AddWaiter(s.table, key, s.next), next := s.next + 1, asked := s.asked[s.next := p]);
    forall k | k in s'.table.waiters ensures ListOk(s', k) {
      assert k in s.table.waiters ==> ListOk(s, k);
      forall w | w in Parked(s.table, k) ensures w != s.next { assert WaiterOk(s, k, w); }
      DistinctAppend(Parked(s.table, k), s.next);
    }
    forall r | r in s'.procs ensures ProcOk(s', r) && (BlockedOk(s) ==> Blocked(s', r)) {
      assert ProcOk(s, r) && (BlockedOk(s) ==> Blocked(s, r));
      assert Slot(s'.table, s'.procs[r].key) == Slot(s.table, s.procs[r].key);
    }
  }

  lemma {:induction false} WithoutMembers(ws: seq<Waiter>, w: Waiter)
    requires Distinct(ws)
    ensures Distinct(Without(ws, w))
    ensures forall v :: v in Without(ws, w) <==> v in ws && v != w
  {
    if ws != [] {
      assert ws == [ws[0]] + ws[1..];
      assert ws[0] !in ws[1..];
      if ws[0] != w { WithoutMembers(ws[1..], w); }
    }
  }

  lemma GiveUpWaits(s: State, p: ProcId, stage: Stage)
    requires WaitersOk(s) && p in s.procs && WaiterOf(s.procs[p].stage).Some? && WaiterOf(stage) == None
    ensures var s' := At(s, p, stage).(table := Unwait(s.table, s.procs[p].key, WaiterOf(s.procs[p].stage).value));
      WaitersOk(s') && (BlockedOk(s) ==> BlockedOk(s'))
  {
    var key, w := s.procs[p].key, WaiterOf(s.procs[p].stage).value;
    var s' := At(s, p, stage).(table := Unwait(s.table, key, w));
    assert ProcOk(s, p);
    if key in s.table.waiters {
      assert ListOk(s, key);
      WithoutMembers(s.table.waiters[key], w);
    }
    forall k | k in s'.table.waiters ensures ListOk(s', k) {
      assert ListOk(s, k);
      forall v | v in s'.table.waiters[k] ensures WaiterOk(s', k, v) { assert WaiterOk(s, k, v); }
    }
    forall r | r in s'.procs ensures ProcOk(s', r) && (BlockedOk(s) ==> Blocked(s', r)) {
      assert ProcOk(s, r) && (BlockedOk(s) ==> Blocked(s, r));
      assert Slot(s'.table, s'.procs[r].key) == Slot(s.table, s.procs[r].key);
    }
  }

  lemma ReleaseWaits(s: State, o: Open)
    requires WaitersOk(s)
    ensures WaitersOk(DoRelease(s, o)) && (BlockedOk(s) ==> BlockedOk(DoRelease(s, o)))
  {
    if o in s.table.owners {
      var s', key := DoRelease(s, o), s.table.owners[o];
      forall w | w in s'.woken ensures w in s'.asked { assert key in s.table.waiters ==> ListOk(s, key); }
      forall k | k in s'.table.waiters ensures ListOk(s', k) {
        assert ListOk(s, k);
        forall v | v in s'.table.waiters[k] ensures WaiterOk(s', k, v) {
          assert WaiterOk(s, k, v);
          assert v in Parked(s.table, key) ==> WaiterOk(s, key, v);
        }
      }
      forall r | r in s'.procs ensures ProcOk(s', r) && (BlockedOk(s) ==> Blocked(s', r)) {
        assert ProcOk(s, r) && (BlockedOk(s) ==> Blocked(s, r));
        assert s.procs[r].key != key ==> Slot(s'.table, s.procs[r].key) == Slot(s.table, s.procs[r].key);
      }
    }
  }

  lemma TransferRefuses(t: Table, from: Open, to: Open)
    ensures StillRefuses(t, Transfer(t, from, to))
  {
    var t' := Transfer(t, from, to);
    forall key, mode | Clashes(Slot(t, key), mode) ensures Clashes(Slot(t', key), mode) {
      var i :| 0 <= i < |Slot(t, key)| && Conflict(Slot(t, key)[i].mode, mode);
      assert i < |Slot(t', key)| && Slot(t', key)[i].mode == Slot(t, key)[i].mode;
    }
  }

  /** No entry of the file is swept: every owner still answers for it. */
  predicate Unswept(t: Table, key: FileKey, live: set<Open>) { Owners(Slot(t, key)) <= live }

  lemma UnsweptSame(t: Table, key: FileKey, live: set<Open>)
    requires Valid(t) && Unswept(t, key, live)
    ensures Sweep(t, key, live) == t
  {
    var ents := Slot(t, key);
    forall e | e in ents ensures e.owner in live { assert e.owner in Owners(ents); }
    FilterAll(ents, OwnedIn(live));
    assert Owners(ents) - live == {};
    assert t.owners - {} == t.owners;
    assert Store(t.byFile, key, ents) == t.byFile;
  }

  lemma InsertRefuses(t: Table, key: FileKey, o: Open, mode: Mode)
    ensures StillRefuses(t, Insert(t, key, o, mode))
  {
    var t' := Insert(t, key, o, mode);
    forall k, m | Clashes(Slot(t, k), m) ensures Clashes(Slot(t', k), m) {
      var i :| 0 <= i < |Slot(t, k)| && Conflict(Slot(t, k)[i].mode, m);
      assert i < |Slot(t', k)| && Slot(t', k)[i] == Slot(t, k)[i];
    }
  }

  lemma UnsweptRefuses(t: Table, key: FileKey, o: Open, mode: Mode, live: set<Open>)
    requires Valid(t) && Unswept(t, key, live)
    ensures StillRefuses(t, Acquire(t, key, o, mode, live).0)
  {
    hide Valid, Sweep, Insert, Clashes;
    UnsweptSame(t, key, live);
    InsertRefuses(t, key, o, mode);
  }

  lemma RefusedClashes(t: Table, key: FileKey, o: Open, mode: Mode, live: set<Open>)
    ensures Acquire(t, key, o, mode, live).0.waiters == t.waiters
    ensures !Acquire(t, key, o, mode, live).1 ==> Clashes(Slot(Acquire(t, key, o, mode, live).0, key), mode)
  {
  }

  lemma TryWaits(s: State, p: ProcId, live: set<Open>)
    requires Valid(s.table) && WaitersOk(s) && p in s.procs
    requires s.procs[p].stage.Trying? || s.procs[p].stage.Retrying?
    ensures WaitersOk(DoTry(s, p, live))
    ensures BlockedOk(s) && Unswept(s.table, s.procs[p].key, live) ==> BlockedOk(DoTry(s, p, live))
  {
    hide Acquire, Valid, WaitersOk, BlockedOk, StillRefuses, Clashes;
    var q := s.procs[p];
    var (t, ok) := Acquire(s.table, q.key, q.open, q.mode, live);
    RefusedClashes(s.table, q.key, q.open, q.mode, live);
    if Unswept(s.table, q.key, live) { UnsweptRefuses(s.table, q.key, q.open, q.mode, live); }
    TableWaits(s, t);
    if ok {
      StageWaits(s.(table := t), p, if q.stage.Trying? then Done(true) else Leaving(true));
    } else {
      RegisterWaits(s.(table := t), p, if q.stage.Trying? then Refused(s.next) else Waiting(s.next));
    }
  }

  // ---- runs ----

  ghost predicate Inv(s: State) { Valid(s.table) && WaitersOk(s) && CountsOk(s) }

  /** The step sweeps no entry out of the table. */
  predicate Sweepless(s: State, a: Action) {
    a.Try? && a.p in s.procs ==> Unswept(s.table, s.procs[a.p].key, Alive(s))
  }

  ghost predicate Steady(acts: seq<Action>) {
    acts != [] ==> Steady(acts[..|acts| - 1]) && Sweepless(Reach(acts[..|acts| - 1]), acts[|acts| - 1])
  }

  lemma UnwaitValid(t: Table, waiters: map<FileKey, seq<Waiter>>)
    requires Valid(t)
    ensures Valid(t.(waiters := waiters))
  {
    var t' := t.(waiters := waiters);
    forall key ensures SlotOk(Slot(t', key), key, t'.owners) { assert Slot(t', key) == Slot(t, key); }
  }

  lemma StepValid(s: State, a: Action)
    requires Valid(s.table)
    ensures Valid(Step(s, a).table)
  {
    hide Valid, Acquire, Release, Transfer;
    match a
    case Try(p) =>
      if p in s.procs {
        var q, live := s.procs[p], Alive(s);
        AcquireOutcome(s.table, q.key, q.open, q.mode, live);
        UnwaitValid(Acquire(s.table, q.key, q.open, q.mode, live).0, Step(s, a).table.waiters);
      }
    case GiveUp(p) => UnwaitValid(s.table, Step(s, a).table.waiters);
    case Releases(o) => ReleaseValid(s.table, o);
    case Transfers(from, to) => if to !in s.table.owners { TransferValid(s.table, from, to); }
    case _ =>
  }

  lemma StepWaits(s: State, a: Action)
    requires Valid(s.table) && WaitersOk(s)
    ensures WaitersOk(Step(s, a))
    ensures BlockedOk(s) && Sweepless(s, a) ==> BlockedOk(Step(s, a))
  {
    hide Valid, WaitersOk, BlockedOk, Acquire, Release, Transfer, Unwait, StillRefuses;
    match a
    case Start(p, _, _, _, _) => if p !in s.procs { StartWaits(s, p, Step(s, a).procs[p]); }
    case Try(p) => if p in s.procs && (s.procs[p].stage.Trying? || s.procs[p].stage.Retrying?) { TryWaits(s, p, Alive(s)); }
    case GiveUp(p) => if Step(s, a) != s { GiveUpWaits(s, p, Step(s, a).procs[p].stage); }
    case Releases(o) => ReleaseWaits(s, o);
    case Transfers(from, to) => TransferMoves(s, from, to);
    case Closes(o) => SlotsAside(s, s.slots, s.closed + {o});
    case _ => if Step(s, a) != s { MoverWaits(s, a); }
  }

  lemma TransferMoves(s: State, from: Open, to: Open)
    requires WaitersOk(s)
    ensures var s' := s.(table := Transfer(s.table, from, to)); WaitersOk(s') && (BlockedOk(s) ==> BlockedOk(s'))
  {
    TransferRefuses(s.table, from, to);
    hide WaitersOk, BlockedOk, StillRefuses;
    TableWaits(s, Transfer(s.table, from, to));
  }

  lemma MoverWaits(s: State, a: Action)
    requires WaitersOk(s) && (a.Begin? || a.Undo? || a.Wakes? || a.Timeout? || a.End?) && Step(s, a) != s
    ensures WaitersOk(Step(s, a)) && (BlockedOk(s) ==> BlockedOk(Step(s, a)))
  {
    hide WaitersOk, BlockedOk;
    var s' := Step(s, a);
    StageWaits(s, a.p, s'.procs[a.p].stage);
    SlotsAside(At(s, a.p, s'.procs[a.p].stage), s'.slots, s.closed);
  }

  lemma {:induction false} RunKeeps(acts: seq<Action>)
    ensures Inv(Reach(acts)) && (Steady(acts) ==> BlockedOk(Reach(acts)))
  {
    if acts != [] {
      hide Step, Valid, WaitersOk, CountsOk, BlockedOk, Sweepless;
      var before, last := acts[..|acts| - 1], acts[|acts| - 1];
      RunKeeps(before);
      StepValid(Reach(before), last);
      StepWaits(Reach(before), last);
      StepCounts(Reach(before), last);
    }
  }

  /** No wake-up is lost: a request whose waiter has not been woken is in its
      file's list, and an entry of that file still refuses it. */
  lemma NoLostWakeUp(acts: seq<Action>, p: ProcId, w: Waiter)
    requires Steady(acts) && p in Reach(acts).procs && WaiterOf(Reach(acts).procs[p].stage) == Some(w) && w !in Reach(acts).woken
    ensures var s := Reach(acts); w in Parked(s.table, s.procs[p].key) && Clashes(Slot(s.table, s.procs[p].key), s.procs[p].mode)
  {
    hide Step, Valid;
    RunKeeps(acts);
    assert ProcOk(Reach(acts), p) && Blocked(Reach(acts), p);
  }

  /** No waiter survives its wait: each one in the table belongs to exactly one
      request, which has not returned and has not been woken. */
  lemma WaitersAreWaiting(acts: seq<Action>, key: FileKey, w: Waiter, p: ProcId)
    requires w in Parked(Reach(acts).table, key) && p in Reach(acts).procs
    ensures var s := Reach(acts);
      && w in s.asked && s.asked[w] in s.procs && w !in s.woken
      && WaiterOf(s.procs[s.asked[w]].stage) == Some(w) && s.procs[s.asked[w]].key == key
      && (WaiterOf(s.procs[p].stage) == Some(w) ==> p == s.asked[w])
  {
    hide Step, Valid;
    RunKeeps(acts);
    assert ListOk(Reach(acts), key) && ProcOk(Reach(acts), p);
  }

  /** Each connection's counter is the number of its requests that hold a slot or
      are backing out of the cap; at most four park at once. */
  lemma SlotsAreCounted(acts: seq<Action>, c: ConnId)
    ensures SlotsOf(Reach(acts), c) == |Those(Reach(acts), c, Counted)|
    ensures |Those(Reach(acts), c, Parks)| <= MAX_SHARING_WAITS
  {
    hide Step, Valid, WaitersOk;
    RunKeeps(acts);
  }

  /** A refused request parks exactly when fewer than four of its connection are
      counted; otherwise it is refused at once. */
  lemma ParksExactlyBelowTheCap(acts: seq<Action>, p: ProcId)
    requires p in Reach(acts).procs && Reach(acts).procs[p].stage.Refused?
    ensures var s := Reach(acts);
      var stage := Step(s, Begin(p)).procs[p].stage;
      && (stage.Waiting? <==> |Those(s, s.procs[p].conn, Counted)| < 4)
      && (stage.OverCap? <==> |Those(s, s.procs[p].conn, Counted)| >= 4)
  {
    SlotsAreCounted(acts, Reach(acts).procs[p].conn);
  }

  /** An attempt gets the reservation exactly when no entry of the file whose owner
      has its descriptor conflicts, or the handle has one already; a first refusal
      leads to the cap, a later one back to waiting. */
  lemma AttemptVerdict(acts: seq<Action>, p: ProcId)
    requires Ready(Reach(acts), p)
    ensures var s := Reach(acts);
      var s', q := Step(s, Try(p)), s.procs[p];
      && p in s'.procs
      && (q.open in s'.table.owners <==>
            || q.open in s.table.owners
            || forall e :: e in Slot(s.table, q.key) && e.owner !in s.closed ==> !Conflict(e.mode, q.mode))
      && (if q.open in s'.table.owners then s'.procs[p].stage == (if q.stage.Trying? then Done(true) else Leaving(true))
          else if q.stage.Trying? then s'.procs[p].stage.Refused? else s'.procs[p].stage.Waiting?)
  {
    RunKeeps(acts);
    var s := Reach(acts);
    hide WaitersOk, CountsOk, BlockedOk;
    AttemptOutcome(s, p);
  }

  lemma AttemptOutcome(s: State, p: ProcId)
    requires Valid(s.table) && Ready(s, p)
    ensures var s', q := Step(s, Try(p)), s.procs[p];
      && p in s'.procs
      && (q.open in s'.table.owners <==>
            || q.open in s.table.owners
            || forall e :: e in Slot(s.table, q.key) && e.owner !in s.closed ==> !Conflict(e.mode, q.mode))
      && (if q.open in s'.table.owners then s'.procs[p].stage == (if q.stage.Trying? then Done(true) else Leaving(true))
          else if q.stage.Trying? then s'.procs[p].stage.Refused? else s'.procs[p].stage.Waiting?)
  {
    var q := s.procs[p];
    assert SlotOk(Slot(s.table, q.key), q.key, s.table.owners);
    AcquireOutcome(s.table, q.key, q.open, q.mode, Alive(s));
    hide Acquire, Valid;
  }

  predicate GrantedStage(stage: Stage) { (stage.Leaving? || stage.Done?) && stage.granted }

  lemma GrantedStep(s: State, a: Action, p: ProcId)
    requires Valid(s.table) && p in Step(s, a).procs && GrantedStage(Step(s, a).procs[p].stage)
    ensures p in s.procs && Step(s, a).procs[p].open == s.procs[p].open
    ensures GrantedStage(s.procs[p].stage) || Step(s, a).procs[p].open in Step(s, a).table.owners
  {
    if a.Try? && a.p == p && p in s.procs {
      var q := s.procs[p];
      AcquireOutcome(s.table, q.key, q.open, q.mode, Alive(s));
    }
    hide Acquire, Valid, Release, Transfer, Unwait;
  }

  /** A request is answered as granted only if it had its reservation. */
  lemma {:induction false} GrantedHadReservation(acts: seq<Action>, p: ProcId)
    requires p in Reach(acts).procs && GrantedStage(Reach(acts).procs[p].stage)
    ensures exists i :: 0 <= i <= |acts| && Reach(acts).procs[p].open in Reach(acts[..i]).table.owners
  {
    assert acts[..|acts|] == acts;
    if acts != [] {
      var before, last := acts[..|acts| - 1], acts[|acts| - 1];
      RunKeeps(before);
      GrantedStep(Reach(before), last, p);
      if GrantedStage(Reach(before).procs[p].stage) {
        hide Step, Valid, WaitersOk, CountsOk, BlockedOk;
        GrantedHadReservation(before, p);
        var i :| 0 <= i <= |before| && Reach(before).procs[p].open in Reach(before[..i]).table.owners;
        assert acts[..i] == before[..i];
      }
    }
  }

  lemma ListIsWaiting(s: State, key: FileKey)
    requires WaitersOk(s) && key in s.table.waiters
    ensures exists p :: p in s.procs && WaiterOf(s.procs[p].stage).Some?
  {
    assert ListOk(s, key);
    assert WaiterOk(s, key, s.table.waiters[key][0]);
  }

  /** When every request has returned, every slot is free and no file has a
      waiter. */
  lemma NothingLeftWaiting(acts: seq<Action>, c: ConnId)
    requires forall p :: p in Reach(acts).procs ==> Reach(acts).procs[p].stage.Done?
    ensures SlotsOf(Reach(acts), c) == 0 && Reach(acts).table.waiters == map[]
  {
    hide Step, Valid;
    RunKeeps(acts);
    var s := Reach(acts);
    assert Those(s, c, Counted) == {};
    forall key ensures key !in s.table.waiters {
      if key in s.table.waiters { ListIsWaiting(s, key); }
    }
  }

  // ---- exactly when a sweep loses a wake-up ----

  ghost predicate Ready(s: State, p: ProcId) { p in s.procs && (s.procs[p].stage.Trying? || s.procs[p].stage.Retrying?) }

  /** The request is registered on key and has not been woken. */
  ghost predicate Asleep(s: State, r: ProcId, key: FileKey) {
    && r in s.procs && s.procs[r].key == key
    && WaiterOf(s.procs[r].stage).Some? && WaiterOf(s.procs[r].stage).value !in s.woken
  }

  predicate LiveClash(ents: seq<Entry>, live: set<Open>, mode: Mode) {
    exists i :: 0 <= i < |ents| && ents[i].owner in live && Conflict(ents[i].mode, mode)
  }

  lemma FilterClash(ents: seq<Entry>, live: set<Open>, mode: Mode)
    ensures Clashes(Filter(ents, OwnedIn(live)), mode) <==> LiveClash(ents, live, mode)
  {
    var kept := Filter(ents, OwnedIn(live));
    if Clashes(kept, mode) {
      var i :| 0 <= i < |kept| && Conflict(kept[i].mode, mode);
      FilterMember(ents, OwnedIn(live), kept[i]);
    }
    if LiveClash(ents, live, mode) {
      var i :| 0 <= i < |ents| && ents[i].owner in live && Conflict(ents[i].mode, mode);
      FilterMember(ents, OwnedIn(live), ents[i]);
    }
  }

  lemma AcquireClash(t: Table, key: FileKey, o: Open, mode: Mode, live: set<Open>, other: Mode)
    requires Valid(t) && o !in t.owners
    ensures var (t', ok) := Acquire(t, key, o, mode, live);
      && (Clashes(Slot(t', key), other) <==> LiveClash(Slot(t, key), live, other) || (ok && Conflict(mode, other)))
      && (ok <==> !LiveClash(Slot(t, key), live, mode))
      && forall k :: k != key ==> Slot(t', k) == Slot(t, k)
  {
    SweepValid(t, key, live);
    FilterClash(Slot(t, key), live, other);
    FilterClash(Slot(t, key), live, mode);
    var kept := Slot(Sweep(t, key, live), key);
    InsertClash(Sweep(t, key, live), key, o, mode, other);
  }

  lemma InsertClash(t: Table, key: FileKey, o: Open, mode: Mode, other: Mode)
    ensures Clashes(Slot(Insert(t, key, o, mode), key), other) <==> Clashes(Slot(t, key), other) || Conflict(mode, other)
  {
    var ents := Slot(t, key);
    var after := ents + [Entry(o, mode)];
    assert Slot(Insert(t, key, o, mode), key) == after;
    assert Conflict(mode, other) ==> Conflict(after[|ents|].mode, other);
    assert forall i :: 0 <= i < |ents| ==> after[i] == ents[i];
  }

  /** After the attempt an entry refuses r. */
  predicate RefusedStill(ents: seq<Entry>, live: set<Open>, mine: Mode, other: Mode) {
    LiveClash(ents, live, other) || (!LiveClash(ents, live, mine) && Conflict(mine, other))
  }

  lemma OneAfterTry(s: State, p: ProcId, live: set<Open>, r: ProcId)
    requires Valid(s.table) && WaitersOk(s) && BlockedOk(s) && Ready(s, p) && s.procs[p].open !in s.table.owners
    requires r in s.procs && r != p
    ensures r in DoTry(s, p, live).procs
    ensures Blocked(DoTry(s, p, live), r) <==>
      (Asleep(s, r, s.procs[p].key) ==> RefusedStill(Slot(s.table, s.procs[p].key), live, s.procs[p].mode, s.procs[r].mode))
  {
    var s', q := DoTry(s, p, live), s.procs[p];
    assert Blocked(s, r);
    hide Valid, Acquire, LiveClash, WaitersOk, BlockedOk, Clashes;
    AcquireClash(s.table, q.key, q.open, q.mode, live, s.procs[r].mode);
    assert s'.procs[r] == s.procs[r];
    assert Slot(s'.table, s.procs[r].key) == Slot(Acquire(s.table, q.key, q.open, q.mode, live).0, s.procs[r].key);
  }

  lemma SelfAfterTry(s: State, p: ProcId, live: set<Open>)
    requires Ready(s, p)
    ensures Blocked(DoTry(s, p, live), p)
  {
    hide Acquire, Clashes;
    var q := s.procs[p];
    RefusedClashes(s.table, q.key, q.open, q.mode, live);
    assert Slot(DoTry(s, p, live).table, q.key) == Slot(Acquire(s.table, q.key, q.open, q.mode, live).0, q.key);
  }

  lemma BlockedAfterTry(s: State, p: ProcId, live: set<Open>)
    requires Valid(s.table) && WaitersOk(s) && BlockedOk(s) && Ready(s, p) && s.procs[p].open !in s.table.owners
    ensures var q, ents := s.procs[p], Slot(s.table, s.procs[p].key);
      BlockedOk(DoTry(s, p, live)) <==> forall r :: Asleep(s, r, q.key) ==> RefusedStill(ents, live, q.mode, s.procs[r].mode)
  {
    var s', q, ents := DoTry(s, p, live), s.procs[p], Slot(s.table, s.procs[p].key);
    assert s'.procs.Keys == s.procs.Keys;
    forall r | r in s.procs && r != p
      ensures Blocked(s', r) <==> (Asleep(s, r, q.key) ==> RefusedStill(ents, live, q.mode, s.procs[r].mode))
    {
      OneAfterTry(s, p, live, r);
    }
    SelfAfterTry(s, p, live);
    hide Valid, Acquire, LiveClash, WaitersOk, Blocked, RefusedStill;
  }

  /** An attempt keeps every sleeping request refused if and only if each one on
      that file conflicts with an entry whose owner still has its descriptor, or
      with the reservation the attempt just made. */
  lemma WakeUpLostIff(acts: seq<Action>, p: ProcId)
    requires Steady(acts) && Ready(Reach(acts), p) && Reach(acts).procs[p].open !in Reach(acts).table.owners
    ensures var s := Reach(acts);
      var q, ents := s.procs[p], Slot(s.table, s.procs[p].key);
      BlockedOk(Step(s, Try(p))) <==> forall r :: Asleep(s, r, q.key) ==> RefusedStill(ents, Alive(s), q.mode, s.procs[r].mode)
  {
    RunKeeps(acts);
    hide Valid, WaitersOk, CountsOk, BlockedOk, Acquire, RefusedStill, Asleep;
    var s := Reach(acts);
    BlockedAfterTry(s, p, Alive(s));
    assert Step(s, Try(p)) == DoTry(s, p, Alive(s));
  }

  const FILE: FileKey := FileKey(1, 1)
  const ALONE: Mode := Mode(true, false, false, false, false, false, false)
  const LOOKING: Mode := Mode(false, false, false, true, false, false, false)
  const HOLDER: Open := Open(1, 1, 1, 1, FILE)
  const SECOND: Open := Open(2, 2, 1, 1, FILE)
  const THIRD: Open := Open(3, 3, 1, 1, FILE)
  const HELD: Table := Table(map[FILE := [Entry(HOLDER, ALONE)]], map[HOLDER := FILE], map[])

  lemma HolderGetsIn()
    ensures Acquire(EMPTY, FILE, HOLDER, ALONE, {}) == (HELD, true)
  {
    assert Sweep(EMPTY, FILE, {}) == EMPTY;
    assert Slot(EMPTY, FILE) + [Entry(HOLDER, ALONE)] == [Entry(HOLDER, ALONE)];
    assert Insert(EMPTY, FILE, HOLDER, ALONE) == HELD;
  }

  lemma HolderStays()
    ensures Sweep(HELD, FILE, {HOLDER}) == HELD
  {
    var ents := [Entry(HOLDER, ALONE)];
    FilterAll(ents, OwnedIn({HOLDER}));
    assert Owners(ents) == {HOLDER};
    assert HELD.owners - {} == HELD.owners;
  }

  lemma SecondIsRefused()
    ensures Acquire(HELD, FILE, SECOND, ALONE, {HOLDER}) == (HELD, false)
  {
    HolderStays();
    hide Sweep, Filter;
    assert Conflict(Slot(HELD, FILE)[0].mode, ALONE);
  }

  const FIRST_STEPS: seq<Action> := [Start(0, 0, FILE, HOLDER, ALONE), Try(0)]
  const ASLEEP: seq<Action> := FIRST_STEPS + [Start(1, 0, FILE, SECOND, ALONE), Try(1)]

  ghost const HOLDING: State := INITIAL.(table := HELD, procs := map[0 := Proc(0, FILE, HOLDER, ALONE, Done(true))])
  ghost const SLEEPING: State := State(AddWaiter(HELD, FILE, 0),
    map[0 := Proc(0, FILE, HOLDER, ALONE, Done(true)), 1 := Proc(0, FILE, SECOND, ALONE, Refused(0))], map[], 1, map[0 := 1], {}, {})

  lemma HolderHolds()
    ensures Reach(FIRST_STEPS) == HOLDING
  {
    hide Acquire;
    assert FIRST_STEPS[..1][..0] == [];
    var s1 := INITIAL.(procs := map[0 := Proc(0, FILE, HOLDER, ALONE, Trying)]);
    assert Reach(FIRST_STEPS[..1]) == s1;
    assert Alive(s1) == {};
    HolderGetsIn();
    assert DoTry(s1, 0, {}).procs == HOLDING.procs;
  }

  lemma SecondSleeps()
    ensures Reach(ASLEEP) == SLEEPING
  {
    hide Acquire;
    HolderHolds();
    assert ASLEEP[..3][..2] == FIRST_STEPS;
    var s1 := HOLDING.(procs := HOLDING.procs[1 := Proc(0, FILE, SECOND, ALONE, Trying)]);
    assert Reach(ASLEEP[..3]) == s1;
    assert Alive(s1) == {HOLDER};
    SecondIsRefused();
    assert DoTry(s1, 1, {HOLDER}).procs == SLEEPING.procs;
    assert DoTry(s1, 1, {HOLDER}).asked == SLEEPING.asked;
  }

  /** A sweep can lose a wake-up: while a reclaim has the holder's descriptor
      closed, a third open removes the entry that refused the second one, and
      nobody tells the second. */
  lemma SweepLosesWakeUp()
    ensures exists acts, r :: Asleep(Reach(acts), r, FILE) && !Clashes(Slot(Reach(acts).table, FILE), Reach(acts).procs[r].mode)
  {
    hide Acquire, Clashes;
    SecondSleeps();
    var acts := ASLEEP + [Closes(HOLDER), Start(2, 0, FILE, THIRD, LOOKING), Try(2)];
    assert acts[..5][..4] == ASLEEP;
    assert Reach(acts[..5]) == SLEEPING.(closed := {HOLDER});
    assert acts[..6][..5] == acts[..5];
    var s1 := SLEEPING.(closed := {HOLDER}, procs := SLEEPING.procs[2 := Proc(0, FILE, THIRD, LOOKING, Trying)]);
    assert Reach(acts[..6]) == s1;
    assert acts[..|acts| - 1] == acts[..6];
    assert Alive(s1) == {};
    assert Reach(acts) == DoTry(s1, 2, {});
    SweptAway(s1);
    assert Reach(acts).procs[1].mode == ALONE;
  }

  lemma SweptAway(s1: State)
    requires s1 == SLEEPING.(closed := {HOLDER}, procs := SLEEPING.procs[2 := Proc(0, FILE, THIRD, LOOKING, Trying)])
    ensures Asleep(DoTry(s1, 2, {}), 1, FILE) && !Clashes(Slot(DoTry(s1, 2, {}).table, FILE), ALONE)
  {
    var ents, swept := [Entry(HOLDER, ALONE)], Sweep(s1.table, FILE, {});
    FilterMember(ents, OwnedIn({}), ents[0]);
    FilterLength(ents, OwnedIn({}));
    assert Slot(swept, FILE) == [];
    InsertClash(swept, FILE, THIRD, LOOKING, ALONE);
  }
}
