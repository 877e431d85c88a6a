/** Where the guarantees of the handle machine end: concrete runs of a client
    that reconnects and reclaims its durable handle. */
module LifecycleLimits {
  import opened Handles
  import opened Seqs
  import ShareModes
  import opened Durable
  import Sessions
  import opened Lifecycle
  import opened LifecycleSteps
  import opened LifecycleRuns
  import G = LifecycleGuards

  /** Some run leads here in which no CLOSE does harm without the lock. */
  ghost predicate Reachable(s: State) { exists acts :: Reach(acts) == s && Guarded(DESCRIPTORS, acts) }

  lemma Onwards(s: State, a: Action)
    requires Reachable(s) && !a.TakeUnlocked?
    ensures Reachable(Step(s, a))
  {
    var acts :| Reach(acts) == s && Guarded(DESCRIPTORS, acts);
    assert (acts + [a])[..|acts|] == acts;
    assert Reach(acts + [a]) == Step(s, a) && Guarded(DESCRIPTORS, acts + [a]);
  }

  const KEY: DurableKey := DurableKey(1, 1)
  const FILE: FileKey := FileKey(1, 1)
  const FIRST: Open := Open(1, 5, 7, 0, FILE)
  const AGAIN: Open := Open(2, 5, 7, 1, FILE)
  const OTHER: Open := Open(3, 6, 7, 1, FILE)
  const ALONE: ShareModes.Mode := ShareModes.Mode(true, false, false, false, false, false, false)
  const READY: Sessions.State := Sessions.State(false, {7}, map[])
  const ATTACHED: DurableEntry := DurableEntry(FIRST, None, 10, "share", "user")

  function Held(o: Open): ShareModes.Table {
    ShareModes.Table(map[FILE := [ShareModes.Entry(o, ALONE)]], map[o := FILE], map[])
  }

  function Two(first: Sessions.State, second: Sessions.State): map<SessionId, Sessions.State> {
    map[0 := first, 1 := second]
  }

  lemma TwoSessions()
    ensures Reachable(State(map[], Two(READY, READY), map[], ShareModes.EMPTY, map[]))
  {
    assert Reachable(INITIAL) by { assert Reach([]) == INITIAL && Guarded(DESCRIPTORS, []); }
    hide Reachable;
    Onwards(INITIAL, StartSession(0));
    var s1 := Step(INITIAL, StartSession(0));
    Onwards(s1, AddTree(0, 7));
    var s2 := Step(s1, AddTree(0, 7));
    assert s2.sessions[0].trees == {7};
    Onwards(s2, StartSession(1));
    var s3 := Step(s2, StartSession(1));
    Onwards(s3, AddTree(1, 7));
    var s4 := Step(s3, AddTree(1, 7));
    assert s4.sessions[1].trees == {7};
    assert s4.sessions == Two(READY, READY);
  }

  /** One handle, FIRST, and nothing else but its deny-all reservation. */
  ghost function Only(c: Cell, first: Sessions.State, durables: Entries): State {
    State(map[FIRST := c], Two(first, READY), durables, Held(FIRST), map[])
  }

  function OnTask(t: TaskId, durable: Option<DurableKey>, a: Act): Cell {
    Cell(0, durable, None, map[t := a], map[], InFlight(t))
  }

  lemma FirstReserves()
    ensures Reachable(Only(OnTask(1, None, Reserved), READY, map[]))
  {
    hide Reachable;
    TwoSessions();
    var s0 := State(map[], Two(READY, READY), map[], ShareModes.EMPTY, map[]);
    Onwards(s0, Build(1, FIRST));
    var s1 := s0.(cells := map[FIRST := Built(1)]);
    assert s1 == Step(s0, Build(1, FIRST));
    Onwards(s1, Reserve(1, FIRST, ALONE, {}));
    var s2 := Step(s1, Reserve(1, FIRST, ALONE, {}));
    assert ShareModes.Acquire(ShareModes.EMPTY, FILE, FIRST, ALONE, {}) == (Held(FIRST), true) by {
      var swept := ShareModes.Sweep(ShareModes.EMPTY, FILE, {});
      assert swept == ShareModes.EMPTY;
      assert ShareModes.Slot(swept, FILE) + [ShareModes.Entry(FIRST, ALONE)] == [ShareModes.Entry(FIRST, ALONE)];
      assert ShareModes.Insert(swept, FILE, FIRST, ALONE) == Held(FIRST);
    }
    assert s2.cells[FIRST].acts == map[1 := Reserved];
    assert s2.cells == map[FIRST := OnTask(1, None, Reserved)];
  }

  const PUBLISHED: Sessions.State := READY.(opens := map[5 := FIRST])

  lemma FirstPublishes()
    ensures Reachable(Only(Cell(0, Some(KEY), None, map[], map[], InSession(0)), PUBLISHED, map[KEY := ATTACHED]))
  {
    hide Reachable;
    FirstReserves();
    var s2 := Only(OnTask(1, None, Reserved), READY, map[]);
    Onwards(s2, Publish(1, FIRST, Some(KEY)));
    var s3 := Only(Cell(0, None, None, map[], map[1 := Answering(Some(KEY))], InSession(0)), PUBLISHED, map[]);
    assert Step(s2, Publish(1, FIRST, Some(KEY))) == s3 by {
      assert DoPublish(s2, 1, FIRST, Some(KEY)).cells[FIRST] == s3.cells[FIRST];
      assert DoPublish(s2, 1, FIRST, Some(KEY)).sessions == s3.sessions;
    }
    FirstRegisters(s3);
  }

  lemma FirstRegisters(s3: State)
    requires s3 == Only(Cell(0, None, None, map[], map[1 := Answering(Some(KEY))], InSession(0)), PUBLISHED, map[])
    requires Reachable(s3)
    ensures Reachable(Only(Cell(0, Some(KEY), None, map[], map[], InSession(0)), PUBLISHED, map[KEY := ATTACHED]))
  {
    hide Reachable;
    var register := Action.Register(1, FIRST, 10, "share", "user");
    Onwards(s3, register);
    var s4 := Only(Cell(0, Some(KEY), None, map[], map[1 := Answering(None)], InSession(0)), PUBLISHED, map[KEY := ATTACHED]);
    assert Step(s3, register) == s4 by {
      assert CanRegister(s3, 1, FIRST, 10);
      assert DoRegister(s3, 1, FIRST, 10, "share", "user").cells[FIRST].uses == map[1 := Answering(None)];
      assert DoRegister(s3, 1, FIRST, 10, "share", "user").cells == s4.cells;
    }
    Onwards(s4, Answered(1, FIRST));
    assert DoForget(s4, 1, FIRST).cells[FIRST].uses == map[];
    assert DoForget(s4, 1, FIRST).cells == map[FIRST := Cell(0, Some(KEY), None, map[], map[], InSession(0))];
  }

  lemma FirstIsTaken()
    ensures Reachable(Only(OnTask(1, Some(KEY), Pending(true)), Sessions.EMPTIED, map[KEY := ATTACHED]))
  {
    hide Reachable;
    FirstPublishes();
    var s5 := Only(Cell(0, Some(KEY), None, map[], map[], InSession(0)), PUBLISHED, map[KEY := ATTACHED]);
    Onwards(s5, TakeAll(1, 0, true));
    var s6 := DoTakeAll(s5, 1, 0, true);
    assert s5.sessions[0].opens[5] == FIRST;
    assert FIRST in Sessions.Values(s5.sessions[0].opens);
    assert s6.cells[FIRST].acts == map[1 := Pending(true)];
    assert s6.cells == map[FIRST := OnTask(1, Some(KEY), Pending(true))];
    assert s6.sessions == Two(Sessions.EMPTIED, READY);
  }

  /** A deny-all durable handle whose connection dropped. */
  ghost function Dropped(): State {
    Only(Cell(0, Some(KEY), None, map[], map[], InTable(KEY)), Sessions.EMPTIED, map[KEY := ATTACHED.(deadline := Some(10))])
  }

  lemma FirstIsDropped()
    ensures Reachable(Dropped())
  {
    hide Reachable;
    FirstIsTaken();
    var s6 := Only(OnTask(1, Some(KEY), Pending(true)), Sessions.EMPTIED, map[KEY := ATTACHED]);
    Onwards(s6, LockPending(1, FIRST));
    var s7 := Only(OnTask(1, Some(KEY), Dropping), Sessions.EMPTIED, map[KEY := ATTACHED]);
    assert DoLockPending(s6, 1, FIRST).cells[FIRST].acts == map[1 := Dropping];
    assert DoLockPending(s6, 1, FIRST).cells == s7.cells;
    Onwards(s7, Probe(1, FIRST, 0));
    var s8 := Only(OnTask(1, Some(KEY), Leaving), Sessions.EMPTIED, map[KEY := ATTACHED]);
    assert DoProbe(s7, 1, FIRST, 0).cells[FIRST].acts == map[1 := Leaving];
    assert DoProbe(s7, 1, FIRST, 0).cells == s8.cells;
    FirstDetaches(s8);
  }

  lemma FirstDetaches(s8: State)
    requires s8 == Only(OnTask(1, Some(KEY), Leaving), Sessions.EMPTIED, map[KEY := ATTACHED]) && Reachable(s8)
    ensures Reachable(Dropped())
  {
    hide Reachable;
    Onwards(s8, Action.Detach(1, FIRST, 0));
    var s9 := DoDetach(s8, 1, FIRST, 0);
    assert s9.cells[FIRST].acts == map[];
    assert s9.cells == Dropped().cells;
    assert s9.durables == Dropped().durables;
  }

  const RECLAIM: Action := Reclaim(3, KEY, 1, "share", "user", 5)

  /** The reclaim has closed the saved descriptor and not yet moved its slot. */
  ghost function Reclaiming(missed: map<TaskId, (SessionId, FileId)>): State {
    Only(OnTask(3, Some(KEY), SavedClosed(KEY, 1)).(closes := 1), Sessions.EMPTIED, map[]).(missed := missed)
  }

  ghost function Saving(missed: map<TaskId, (SessionId, FileId)>): State {
    Only(OnTask(3, Some(KEY), Saved(KEY, 1)), Sessions.EMPTIED, map[]).(missed := missed)
  }

  lemma ReclaimTakes(missed: map<TaskId, (SessionId, FileId)>)
    requires Reachable(Dropped().(missed := missed))
    ensures Reachable(Saving(missed))
  {
    hide Reachable;
    var s := Dropped().(missed := missed);
    Onwards(s, RECLAIM);
    assert s.durables - {KEY} == map[];
    assert Taken(s.cells[FIRST], 3, Saved(KEY, 1)).acts == map[3 := Saved(KEY, 1)];
    assert DoReclaim(s, 3, KEY, 1, "share", "user", 5).cells == Saving(missed).cells;
    assert Step(s, RECLAIM) == Saving(missed);
  }

  lemma ReclaimStarts(missed: map<TaskId, (SessionId, FileId)>)
    requires Reachable(Dropped().(missed := missed))
    ensures Reachable(Reclaiming(missed))
  {
    hide Reachable, Reconnecting, ShareModes.Release;
    ReclaimTakes(missed);
    var s1 := Saving(missed);
    Onwards(s1, CloseSaved(3, FIRST));
    assert DoCloseSaved(s1, 3, FIRST).cells[FIRST].acts == map[3 := SavedClosed(KEY, 1)];
    assert DoCloseSaved(s1, 3, FIRST).cells == Reclaiming(missed).cells;
    assert Step(s1, CloseSaved(3, FIRST)) == Reclaiming(missed);
  }

  // ---- the reservation that a reclaim can lose ----

  ghost predicate LostSlot(s: State) {
    && AGAIN in s.cells && s.cells[AGAIN].place == InSession(1) && AGAIN !in s.shares.owners
    && OTHER in s.cells && s.cells[OTHER].place == InSession(1) && s.shares == Held(OTHER)
  }

  lemma SweptAway()
    ensures ShareModes.Acquire(Held(FIRST), FILE, OTHER, ALONE, {}) == (Held(OTHER), true)
  {
    var ents := [ShareModes.Entry(FIRST, ALONE)];
    var swept := ShareModes.Sweep(Held(FIRST), FILE, {});
    FilterMember(ents, ShareModes.OwnedIn({}), ents[0]);
    FilterLength(ents, ShareModes.OwnedIn({}));
    assert ents[0].owner in ShareModes.Owners(ents);
    assert swept.owners == map[] && swept.byFile == map[];
    assert ShareModes.Insert(swept, FILE, OTHER, ALONE).byFile[FILE] == [ShareModes.Entry(OTHER, ALONE)];
    assert ShareModes.Insert(swept, FILE, OTHER, ALONE) == Held(OTHER);
  }

  ghost function Beside(c: Cell, second: Sessions.State): State {
    State(map[FIRST := OnTask(3, Some(KEY), SavedClosed(KEY, 1)).(closes := 1), OTHER := c],
          Two(Sessions.EMPTIED, second), map[], Held(OTHER), map[])
  }

  lemma OtherReserves()
    ensures Reachable(Beside(OnTask(2, None, Reserved), READY))
  {
    hide Reachable;
    FirstIsDropped();
    ReclaimStarts(map[]);
    var s0 := Reclaiming(map[]);
    Onwards(s0, Build(2, OTHER));
    var s1 := DoBuild(s0, 2, OTHER);
    Onwards(s1, Reserve(2, OTHER, ALONE, {}));
    SweptAway();
    assert DoReserve(s1, 2, OTHER, ALONE, {}).cells[OTHER] == OnTask(2, None, Reserved);
    assert DoReserve(s1, 2, OTHER, ALONE, {}).cells == Beside(OnTask(2, None, Reserved), READY).cells;
  }

  lemma OtherPublishes()
    ensures Reachable(Beside(Cell(0, None, None, map[], map[2 := Answering(None)], InSession(1)), READY.(opens := map[6 := OTHER])))
  {
    hide Reachable;
    OtherReserves();
    var s2 := Beside(OnTask(2, None, Reserved), READY);
    Onwards(s2, Publish(2, OTHER, None));
    var s3 := Beside(Cell(0, None, None, map[], map[2 := Answering(None)], InSession(1)), READY.(opens := map[6 := OTHER]));
    assert DoPublish(s2, 2, OTHER, None).cells[OTHER] == s3.cells[OTHER];
    assert DoPublish(s2, 2, OTHER, None).sessions == s3.sessions;
    assert DoPublish(s2, 2, OTHER, None).cells == s3.cells;
  }

  lemma AgainLoses() returns (s5: State)
    ensures Reachable(s5) && LostSlot(s5)
  {
    hide Reachable;
    OtherPublishes();
    var s3 := Beside(Cell(0, None, None, map[], map[2 := Answering(None)], InSession(1)), READY.(opens := map[6 := OTHER]));
    Onwards(s3, Reopen(3, FIRST, AGAIN));
    var s4 := DoReopen(s3, 3, FIRST, AGAIN);
    assert Step(s3, Reopen(3, FIRST, AGAIN)) == s4 && s4.shares == Held(OTHER);
    Onwards(s4, Publish(3, AGAIN, Some(KEY)));
    s5 := DoPublish(s4, 3, AGAIN, Some(KEY));
    assert Step(s4, Publish(3, AGAIN, Some(KEY))) == s5;
  }

  /** The reservation of a handle being reclaimed can be lost: while its saved
      descriptor is closed, an open by another client sweeps the entry and takes
      a conflicting deny-all slot, and the reclaim still succeeds. */
  lemma ReclaimCanLoseItsSlot()
    ensures exists acts :: Guarded(DESCRIPTORS, acts) && LostSlot(Reach(acts))
  {
    var s := AgainLoses();
  }

  // ---- the message that runs without the lock ----

  const MISSED: map<TaskId, (SessionId, FileId)> := map[9 := (1, 5)]
  const BACK: Sessions.State := READY.(opens := map[5 := AGAIN])

  /** The reclaimed handle is back under its old FileID, and a CLOSE for that
      FileID is already past its dispatch lookup. */
  ghost function Returned(c: Cell, second: Sessions.State, durables: Entries): State {
    State(map[FIRST := OnTask(3, Some(KEY), SavedClosed(KEY, 1)).(closes := 1, acts := map[], place := Gone), AGAIN := c],
          Two(Sessions.EMPTIED, second), durables, Held(AGAIN), MISSED)
  }

  lemma CloseMisses()
    ensures Reachable(Reclaiming(MISSED))
  {
    FirstIsDropped();
    hide Reachable;
    Onwards(Dropped(), MissLookup(9, 1, 5));
    assert Step(Dropped(), MissLookup(9, 1, 5)) == Dropped().(missed := MISSED);
    ReclaimStarts(MISSED);
  }

  lemma SlotMoves()
    ensures ShareModes.Transfer(Held(FIRST), FIRST, AGAIN) == Held(AGAIN)
  {
    assert ShareModes.Rename([ShareModes.Entry(FIRST, ALONE)], FIRST, AGAIN) == [ShareModes.Entry(AGAIN, ALONE)];
  }

  lemma AgainReopens()
    ensures Reachable(Returned(Replacement(3, KEY), READY, map[]))
  {
    hide Reachable, ShareModes.Transfer, ShareModes.Release;
    CloseMisses();
    var s0 := Reclaiming(MISSED);
    Onwards(s0, Reopen(3, FIRST, AGAIN));
    SlotMoves();
    var s1 := Returned(Replacement(3, KEY), READY, map[]);
    assert DoReopen(s0, 3, FIRST, AGAIN).cells == s1.cells;
    assert Step(s0, Reopen(3, FIRST, AGAIN)) == s1;
  }

  /** A handle on a tree that its session does not have connected. */
  ghost predicate WithoutItsTree(s: State, sid: SessionId, f: FileId) {
    sid in s.sessions && f in s.sessions[sid].opens && s.sessions[sid].opens[f].tree !in s.sessions[sid].trees
  }

  lemma TreeGoesFirst()
    ensures Reachable(Returned(Replacement(3, KEY), READY.(trees := {}), map[]))
  {
    hide Reachable;
    AgainReopens();
    var s1, s2 := Returned(Replacement(3, KEY), READY, map[]), Returned(Replacement(3, KEY), READY.(trees := {}), map[]);
    Onwards(s1, TakeTree(5, 1, 7));
    assert Sessions.OnTree(READY, 7) == {} && READY.trees - {7} == {} && READY.opens - {} == map[];
    assert Sessions.TreeRemoved(READY, 7) == READY.(trees := {});
    assert DoTakeTree(s1, 5, 1, 7).cells == s2.cells;
    assert DoTakeTree(s1, 5, 1, 7).sessions == s2.sessions;
    assert Step(s1, TakeTree(5, 1, 7)) == s2;
  }

  /** A reclaim asks only whether the session lives: a TREE_DISCONNECT that comes
      before its publication leaves it on a tree that is gone. */
  lemma ReclaimOutlivesItsTree()
    ensures exists acts :: Guarded(DESCRIPTORS, acts) && WithoutItsTree(Reach(acts), 1, 5)
  {
    TreeGoesFirst();
    var s1 := Returned(Replacement(3, KEY), READY.(trees := {}), map[]);
    Onwards(s1, Publish(3, AGAIN, Some(KEY)));
    var s2 := Step(s1, Publish(3, AGAIN, Some(KEY)));
    hide Step;
    PublishesAnyway();
    assert WithoutItsTree(s2, 1, 5);
  }

  lemma PublishesAnyway()
    ensures WithoutItsTree(Step(Returned(Replacement(3, KEY), READY.(trees := {}), map[]), Publish(3, AGAIN, Some(KEY))), 1, 5)
  {
    var s1 := Returned(Replacement(3, KEY), READY.(trees := {}), map[]);
    assert CanPublish(s1, 3, AGAIN, Some(KEY)) && Admits(s1, 3, AGAIN);
  }

  /** Published, flagged durable, and not yet registered. */
  ghost function Unsettled(): State {
    Returned(Cell(0, Some(KEY), Some(3), map[], map[3 := Answering(Some(KEY))], InSession(1)), BACK, map[])
  }

  lemma AgainPublishes()
    ensures Reachable(Unsettled())
  {
    hide Reachable;
    AgainReopens();
    var s1 := Returned(Replacement(3, KEY), READY, map[]);
    Onwards(s1, Publish(3, AGAIN, Some(KEY)));
    assert DoPublish(s1, 3, AGAIN, Some(KEY)).cells[AGAIN] == Unsettled().cells[AGAIN];
    assert DoPublish(s1, 3, AGAIN, Some(KEY)).cells == Unsettled().cells;
    assert DoPublish(s1, 3, AGAIN, Some(KEY)).sessions == Unsettled().sessions;
    assert Step(s1, Publish(3, AGAIN, Some(KEY))) == Unsettled();
  }

  /** The state in which the returned handle is registered and used as uses say. */
  ghost function InUse(uses: map<TaskId, Use>): State {
    Returned(Cell(0, Some(KEY), None, map[], uses, InSession(1)), BACK, map[KEY := ATTACHED.(open := AGAIN)])
  }

  lemma AgainRegisters()
    ensures Reachable(InUse(map[3 := Answering(None)]))
  {
    hide Reachable, ShareModes.Release;
    AgainPublishes();
    var a := Action.Register(3, AGAIN, 10, "share", "user");
    Onwards(Unsettled(), a);
    var s1 := DoRegister(Unsettled(), 3, AGAIN, 10, "share", "user");
    assert s1.cells[AGAIN].uses == map[3 := Answering(None)];
    assert s1.cells == InUse(map[3 := Answering(None)]).cells;
    assert Step(Unsettled(), a) == InUse(map[3 := Answering(None)]);
  }

  lemma AgainAnswers()
    ensures Reachable(InUse(map[]))
  {
    hide Reachable;
    AgainRegisters();
    var s1 := InUse(map[3 := Answering(None)]);
    Onwards(s1, Answered(3, AGAIN));
    assert DoForget(s1, 3, AGAIN).cells[AGAIN].uses == map[];
    assert DoForget(s1, 3, AGAIN).cells == InUse(map[]).cells;
  }

  lemma ReadFinds()
    ensures Reachable(InUse(map[2 := Waiting(false)]))
  {
    hide Reachable;
    AgainAnswers();
    Onwards(InUse(map[]), Lookup(2, 1, 5, false));
    assert DoLookup(InUse(map[]), 2, 1, 5, false).cells == InUse(map[2 := Waiting(false)]).cells;
  }

  lemma ReadLocks()
    ensures Reachable(InUse(map[2 := Reading]))
  {
    hide Reachable;
    ReadFinds();
    var s3 := InUse(map[2 := Waiting(false)]);
    Onwards(s3, Lock(2, AGAIN, false));
    assert DoLock(s3, 2, AGAIN, false).cells[AGAIN].uses == map[2 := Reading];
    assert DoLock(s3, 2, AGAIN, false).cells == InUse(map[2 := Reading]).cells;
  }

  lemma ReadStarts()
    ensures Reachable(InUse(map[2 := Running(AGAIN)]))
  {
    hide Reachable;
    ReadLocks();
    var s4 := InUse(map[2 := Reading]);
    Onwards(s4, Resolve(2, AGAIN));
    assert DoResolve(s4, 2, AGAIN).cells[AGAIN].uses == map[2 := Running(AGAIN)];
    assert DoResolve(s4, 2, AGAIN).cells == InUse(map[2 := Running(AGAIN)]).cells;
  }

  ghost predicate RunningOnClosed(s: State, t: TaskId, h: Open) {
    Using(s, t, h) && UseOf(s, t, h) == Running(h) && s.cells[h].closes == 1
  }

  lemma {:induction false} RunsOn(acts: seq<Action>, more: seq<Action>)
    ensures Reach(acts + more) == G.Onwards(Reach(acts), more)
  {
    hide Step;
    if more == [] {
      assert acts + more == acts;
    } else {
      RunsOn(acts, more[..|more| - 1]);
      assert (acts + more)[..|acts + more| - 1] == acts + more[..|more| - 1];
    }
  }

  /** What an unlocked CLOSE leads to from a reachable state is a run as well. */
  lemma UnlockedRun(s: State, t: TaskId, s': State)
    requires Reachable(s) && G.Leads(Step(s, TakeUnlocked(t)), s')
    ensures exists acts :: Reach(acts) == s'
  {
    hide Step;
    var acts :| Reach(acts) == s;
    var more :| G.Locked(more) && G.Onwards(Step(s, TakeUnlocked(t)), more) == s';
    var taken := acts + [TakeUnlocked(t)];
    assert taken[..|taken| - 1] == acts;
    RunsOn(taken, more);
    assert Reach(taken + more) == s';
  }

  lemma ReachableKeeps(s: State)
    requires Reachable(s)
    ensures Inv(DESCRIPTORS, s) && Inv(ENTRIES, s)
  {
    hide Inv, Step;
    var acts :| Reach(acts) == s && Guarded(DESCRIPTORS, acts);
    RunKeeps(DESCRIPTORS, acts);
    GuardedWeaker(acts);
    RunKeeps(ENTRIES, acts);
  }

  lemma {:induction false} GuardedWeaker(acts: seq<Action>)
    requires Guarded(DESCRIPTORS, acts)
    ensures Guarded(ENTRIES, acts)
  {
    hide Step;
    if acts != [] { GuardedWeaker(acts[..|acts| - 1]); }
  }

  /** Descriptor safety needs its guard. A FileID that comes back by a reclaim can
      be named by a CLOSE before the handle is published; that CLOSE misses the
      dispatch lookup, holds no lock, and closes the descriptor under a READ. */
  lemma UnlockedCloseHitsARead()
    ensures exists acts :: RunningOnClosed(Reach(acts), 2, AGAIN)
  {
    ReadStarts();
    hide Reachable, Inv, Step, G.Leads;
    var s := InUse(map[2 := Running(AGAIN)]);
    ReachableKeeps(s);
    assert Named(s, 9) == Some(AGAIN);
    G.UnlockedTakes(DESCRIPTORS, s, 9);
    var s1 := Step(s, TakeUnlocked(9));
    G.LeadsNowhere(s1);
    var s2 := G.ClosingCloses(s1, s1, 9, AGAIN, DropShare);
    UnlockedRun(s, 9, s2);
    assert RunningOnClosed(s2, 2, AGAIN);
  }

  /** So do the durable entries. The CLOSE takes the handle while its reclaim is
      about to register it, and the registration then names a closed descriptor,
      attached for good. */
  lemma EntryNamesClosedHandle()
    ensures exists acts :: !EntriesOpen(Reach(acts))
  {
    AgainPublishes();
    hide Reachable, Inv, Step, G.Leads, EntriesOpen;
    ReachableKeeps(Unsettled());
    assert Named(Unsettled(), 9) == Some(AGAIN);
    var s' := G.LateRegistration(Unsettled(), 9, 3, KEY);
    UnlockedRun(Unsettled(), 9, s');
  }

  /** And so do the owners. The CLOSE sees a flag that the reclaim set before its
      registration and removes by the key what another handle has registered in
      the meantime; that handle, detached, is then nobody's and never closed. */
  lemma UnlockedCloseLosesAHandle()
    ensures exists acts :: !Accounted(Reach(acts))
  {
    AgainPublishes();
    hide Reachable, Inv, Step, G.Leads, Accounted;
    ReachableKeeps(Unsettled());
    assert Named(Unsettled(), 9) == Some(AGAIN);
    var s' := G.HandleLost(Unsettled(), 9);
    UnlockedRun(Unsettled(), 9, s');
  }
}
