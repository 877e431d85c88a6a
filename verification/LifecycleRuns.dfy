/** What holds in every run of the handle machine. */
module LifecycleRuns {
  import opened Handles
  import opened Seqs
  import ShareModes
  import opened Durable
  import Sessions
  import opened Lifecycle
  import opened LifecycleSteps

  lemma CreateKeeps(pr: Promise, s: State, a: Action)
    requires Inv(pr, s)
    requires a.StartSession? || a.AddTree? || a.Build? || a.Reserve? || a.ReserveNothing? || a.Refuse? || a.Publish? || a.Register? || a.Answered?
    ensures Inv(pr, Step(s, a))
  {
    hide Inv;
    match a
    case StartSession(sid) => if sid !in s.sessions { SessionKeeps(pr, s, sid, Sessions.FRESH); }
    case AddTree(sid, tree) =>
      if sid in s.sessions { SessionKeeps(pr, s, sid, s.sessions[sid].(trees := s.sessions[sid].trees + {tree})); }
    case Build(t, h) => if CanBuild(s, h) { BuildKeeps(pr, s, t, h); }
    case Reserve(t, h, mode, live) => if CanReserve(s, t, h) { ReserveKeeps(pr, s, t, h, mode, live); }
    case ReserveNothing(t, h) => if CanReserve(s, t, h) { ReserveNothingKeeps(pr, s, t, h); }
    case Refuse(t, h) => if CanReserve(s, t, h) { ShutKeeps(pr, s, t, h); }
    case Publish(t, h, want) => if CanPublish(s, t, h, want) { PublishKeeps(pr, s, t, h, want); }
    case Register(t, h, timeout, share, user) =>
      if CanRegister(s, t, h, timeout) { RegisterKeeps(pr, s, t, h, timeout, share, user); }
    case Answered(t, h) => if CanAnswer(s, t, h) { ForgetKeeps(pr, s, t, h); }
  }

  lemma MessageKeeps(pr: Promise, s: State, a: Action)
    requires Inv(pr, s)
    requires a.Lookup? || a.Lock? || a.Resolve? || a.Finish? || a.TakeOpen? || a.TakeTree? || a.TakeAll? || a.MissLookup?
    ensures Inv(pr, Step(s, a))
  {
    hide Inv;
    match a
    case Lookup(t, sid, f, closing) => if CanLookup(s, t, sid, f) { LookupKeeps(pr, s, t, sid, f, closing); }
    case Lock(t, h, closing) => if CanLock(s, t, h, closing) { LockKeeps(pr, s, t, h, closing); }
    case Resolve(t, h) => if CanResolve(s, t, h) { ResolveKeeps(pr, s, t, h); }
    case Finish(t, h) => if CanFinish(s, t, h) { ForgetKeeps(pr, s, t, h); }
    case TakeOpen(t, h) => if CanTakeOpen(s, t, h) { TakeOpenKeeps(pr, s, t, h); }
    case TakeTree(t, sid, tree) => if sid in s.sessions { TakeTreeKeeps(pr, s, t, sid, tree); }
    case TakeAll(t, sid, drop) => if sid in s.sessions { TakeAllKeeps(pr, s, t, sid, drop); }
    case MissLookup(t, sid, f) => MissKeeps(pr, s, s.missed[t := (sid, f)]);
  }

  lemma DisposalKeeps(pr: Promise, s: State, a: Action)
    requires Inv(pr, s)
    requires a.LockPending? || a.Probe? || a.Detach? || a.ReleaseShare? || a.CheckFlag? || a.CloseFile?
    ensures Inv(pr, Step(s, a))
  {
    hide Inv;
    match a
    case LockPending(t, h) => if CanLockPending(s, t, h) { LockPendingKeeps(pr, s, t, h); }
    case Probe(t, h, now) => if CanProbe(s, t, h) { ProbeKeeps(pr, s, t, h, now); }
    case Detach(t, h, now) => if CanDetach(s, t, h) { DetachKeeps(pr, s, t, h, now); }
    case ReleaseShare(t, h) => if CanDispose(s, t, h, DropShare) { ReleaseShareKeeps(pr, s, t, h); }
    case CheckFlag(t, h) => if CanDispose(s, t, h, ReadFlag) { CheckFlagKeeps(pr, s, t, h); }
    case CloseFile(t, h) => if CanDispose(s, t, h, ShutFile) { ShutKeeps(pr, s, t, h); }
  }

  lemma DurableKeeps(pr: Promise, s: State, a: Action)
    requires Inv(pr, s)
    requires a.Expire? || a.Reclaim? || a.CloseSaved? || a.ReclaimFails? || a.Reopen?
    ensures Inv(pr, Step(s, a))
  {
    hide Inv;
    match a
    case Expire(k, now) => if CanExpire(s, k, now) { EvictKeeps(pr, s, k); }
    case Reclaim(t, k, sid, share, user, now) =>
      if CanReclaim(s, k, sid) { ReclaimKeeps(pr, s, t, k, sid, share, user, now); }
    case CloseSaved(t, h) => if CanCloseSaved(s, t, h) { CloseSavedKeeps(pr, s, t, h); }
    case ReclaimFails(t, h) => if CanReclaimFail(s, t, h) { ReclaimFailKeeps(pr, s, t, h); }
    case Reopen(t, h, again) => if CanReopen(s, t, h, again) { ReopenKeeps(pr, s, t, h, again); }
  }

  lemma UnlockedKeeps(pr: Promise, s: State, t: TaskId)
    requires Inv(pr, s) && Allowed(pr, s, TakeUnlocked(t))
    ensures Inv(pr, Step(s, TakeUnlocked(t)))
  {
    hide Inv;
    if CanTakeUnlocked(s, t) { TakeUnlockedKeeps(pr, s, t); }
  }

  /** The step removes no other handle's entry. */
  predicate TidyStep(s: State, a: Action) {
    a.RemoveEntry? && CanRemoveEntry(s, a.task, a.h) ==> Tidy(s, a.task, a.h)
  }

  lemma RemovalKeeps(pr: Promise, s: State, t: TaskId, h: Open)
    requires Inv(pr, s) && (pr.owners || (!pr.entries && TidyStep(s, RemoveEntry(t, h))))
    ensures Inv(pr, Step(s, RemoveEntry(t, h)))
  {
    hide Inv;
    if CanRemoveEntry(s, t, h) {
      if pr.owners { RemovalTidy(pr, s, t, h); }
      RemoveEntryKeeps(pr, s, t, h);
    }
  }

  lemma StepKeeps(pr: Promise, s: State, a: Action)
    requires Inv(pr, s) && Allowed(pr, s, a) && (pr.owners || (!pr.entries && TidyStep(s, a)))
    ensures Inv(pr, Step(s, a))
  {
    hide Inv, Step;
    if a.TakeUnlocked? {
      UnlockedKeeps(pr, s, a.task);
    } else if a.RemoveEntry? {
      RemovalKeeps(pr, s, a.task, a.h);
    } else if a.Lookup? || a.Lock? || a.Resolve? || a.Finish? || a.TakeOpen? || a.TakeTree? || a.TakeAll? || a.MissLookup? {
      MessageKeeps(pr, s, a);
    } else if a.LockPending? || a.Probe? || a.Detach? || a.ReleaseShare? || a.CheckFlag? || a.CloseFile? {
      DisposalKeeps(pr, s, a);
    } else if a.Expire? || a.Reclaim? || a.CloseSaved? || a.ReclaimFails? || a.Reopen? {
      DurableKeeps(pr, s, a);
    } else {
      CreateKeeps(pr, s, a);
    }
  }

  lemma {:induction false} RunKeeps(pr: Promise, acts: seq<Action>)
    requires pr.owners && Guarded(pr, acts)
    ensures Inv(pr, Reach(acts))
  {
    if acts == [] {
      InitialOk(pr);
    } else {
      hide Inv, Step, Allowed;
      var before, last := acts[..|acts| - 1], acts[|acts| - 1];
      RunKeeps(pr, before);
      StepKeeps(pr, Reach(before), last);
    }
  }

  lemma InitialOk(pr: Promise)
    ensures Inv(pr, INITIAL)
  {
  }

  // ---- ownership ----

  /** Who can reach a handle, read off the shared maps and the goroutines. */
  ghost predicate Holds(s: State, who: Holder, h: Open) {
    match who
    case InSession(sid) => sid in s.sessions && exists f :: f in s.sessions[sid].opens && s.sessions[sid].opens[f] == h
    case InFlight(t) => Acting(s, t, h)
    case InTable(k) => k in s.durables && s.durables[k].open == h && !s.durables[k].Attached()
    case Gone => false
  }

  lemma HolderIsPlace(pr: Promise, s: State, who: Holder, h: Open)
    requires Inv(pr, s) && Holds(s, who, h)
    ensures h in s.cells && s.cells[h].place == who
  {
    hide Inv;
    match who
    case InSession(sid) => InvSession(pr, s, sid);
    case InFlight(t) => InvCell(pr, s, h);
    case InTable(k) => InvEntry(pr, s, k);
  }

  lemma PlaceHolds(pr: Promise, s: State, h: Open)
    requires Inv(pr, s) && h in s.cells && s.cells[h].place != Gone
    ensures Holds(s, s.cells[h].place, h)
  {
    hide Inv;
    InvCell(pr, s, h);
  }

  /** In every interleaving a handle has at most one owner: a session's map, a
      goroutine, or a detached durable entry. */
  lemma OneOwner(acts: seq<Action>, h: Open, a: Holder, b: Holder)
    requires Guarded(OWNERS, acts)
    requires Holds(Reach(acts), a, h) && Holds(Reach(acts), b, h)
    ensures a == b
  {
    hide Inv, Step;
    var s := Reach(acts);
    RunKeeps(OWNERS, acts);
    HolderIsPlace(OWNERS, s, a, h);
    HolderIsPlace(OWNERS, s, b, h);
  }

  /** Every handle that nobody holds has been closed, once. */
  ghost predicate Accounted(s: State) {
    forall h :: h in s.cells && (forall who :: !Holds(s, who, h)) ==> s.cells[h].closes == 1
  }

  lemma InvAccounted(pr: Promise, s: State)
    requires Inv(pr, s)
    ensures Accounted(s)
  {
    hide Inv;
    forall h | h in s.cells && (forall who :: !Holds(s, who, h)) ensures s.cells[h].closes == 1 {
      InvCell(pr, s, h);
      if s.cells[h].place != Gone { PlaceHolds(pr, s, h); }
    }
  }

  /** A descriptor is closed at most once, never while a session or the durable
      table holds the handle, and exactly once when nothing holds it any more. */
  lemma ClosedExactlyOnce(acts: seq<Action>, h: Open)
    requires Guarded(OWNERS, acts) && h in Reach(acts).cells
    ensures var s := Reach(acts);
      && Accounted(s) && s.cells[h].closes <= 1
      && (forall who :: Holds(s, who, h) && !who.InFlight? ==> s.cells[h].closes == 0)
  {
    hide Inv, Step;
    var s := Reach(acts);
    RunKeeps(OWNERS, acts);
    InvAccounted(OWNERS, s);
    InvCell(OWNERS, s, h);
    forall who | Holds(s, who, h) ensures s.cells[h].place == who { HolderIsPlace(OWNERS, s, who, h); }
  }

  // ---- durable entries ----

  /** Every durable entry names a handle whose descriptor is open. */
  ghost predicate EntriesOpen(s: State) {
    forall k :: k in s.durables ==> s.durables[k].open in s.cells && s.cells[s.durables[k].open].closes == 0
  }

  lemma InvEntriesOpen(s: State)
    requires Inv(ENTRIES, s)
    ensures EntriesOpen(s)
  {
    hide Inv;
    forall k | k in s.durables ensures s.durables[k].open in s.cells && s.cells[s.durables[k].open].closes == 0 {
      InvEntry(ENTRIES, s, k);
      InvCell(ENTRIES, s, s.durables[k].open);
    }
  }

  lemma EntriesNameOpenHandles(acts: seq<Action>)
    requires Guarded(ENTRIES, acts)
    ensures EntriesOpen(Reach(acts))
  {
    hide Inv, Step;
    RunKeeps(ENTRIES, acts);
    InvEntriesOpen(Reach(acts));
  }

  // ---- reservations ----

  /** Every reservation in the table belongs to a handle somebody still owns. */
  lemma NoOrphanReservation(acts: seq<Action>, h: Open)
    requires Guarded(OWNERS, acts) && h in Reach(acts).shares.owners
    ensures exists who :: Holds(Reach(acts), who, h)
  {
    hide Inv, Step, ShareModes.Valid;
    var s := Reach(acts);
    RunKeeps(OWNERS, acts);
    InvShares(OWNERS, s);
    PlaceHolds(OWNERS, s, h);
  }

  /** Once no session holds a handle, no goroutine is working on one and no
      detached entry is left, the deny-mode table is empty. */
  lemma NothingLeftReserved(acts: seq<Action>)
    requires Guarded(OWNERS, acts)
    requires forall who, h :: !Holds(Reach(acts), who, h)
    ensures Reach(acts).shares.owners == map[] && Reach(acts).shares.byFile == map[]
  {
    hide Inv, Step, ShareModes.Valid;
    var s := Reach(acts);
    RunKeeps(OWNERS, acts);
    InvShares(OWNERS, s);
    forall h ensures h !in s.shares.owners {
      if h in s.shares.owners {
        NoOrphanReservation(acts, h);
      }
    }
    assert s.shares.owners == map[];
    ShareModes.NoOwnersNoEntries(s.shares);
  }

  // ---- descriptor safety ----

  /** Whoever works with a descriptor works with an open one, the one it locked. */
  ghost predicate Safe(s: State) {
    forall t, h :: Using(s, t, h) ==>
      && (UseOf(s, t, h).Running? ==> UseOf(s, t, h).on == h && s.cells[h].closes == 0)
      && (UseOf(s, t, h).Answering? ==> s.cells[h].closes == 0)
  }

  lemma InvSafe(s: State)
    requires Inv(DESCRIPTORS, s)
    ensures Safe(s)
  {
    hide Inv;
    forall t, h | Using(s, t, h) ensures UseOk(DESCRIPTORS, h, s.cells[h], t) && CellOk(DESCRIPTORS, h, s.cells[h]) {
      InvCell(DESCRIPTORS, s, h);
    }
  }

  /** A READ or WRITE that resolved its handle under Open.mu runs on the handle
      it locked, and that handle's descriptor is open; so is the one behind a
      CREATE that is still building its response. */
  lemma DescriptorOpenWhileUsed(acts: seq<Action>)
    requires Guarded(DESCRIPTORS, acts)
    ensures Safe(Reach(acts))
  {
    hide Inv, Step;
    RunKeeps(DESCRIPTORS, acts);
    InvSafe(Reach(acts));
  }
}
