/** Reservations in the handle machine: what holds in every run whatever an
    unlocked CLOSE takes, and what becomes of a reservation while its handle is
    being reclaimed. */
module LifecycleReservations {
  import opened Handles
  import opened Seqs
  import ShareModes
  import opened Durable
  import Sessions
  import opened Lifecycle
  import opened LifecycleSteps
  import opened LifecycleRuns

  // ---- every run ----

  /** The table is in order, its owners are known handles, and a saved handle's
      descriptor is closed when the reclaim says so. */
  ghost predicate Sane(s: State) {
    && ShareModes.Valid(s.shares)
    && (forall h :: h in s.shares.owners ==> h in s.cells)
    && (forall h :: h in s.cells ==> SaneCell(s.cells[h]))
  }

  ghost predicate SaneCell(c: Cell) { forall t :: SavedBy(c, t) ==> c.closes >= 1 }

  predicate SavedBy(c: Cell, t: TaskId) { t in c.acts && c.acts[t].SavedClosed? }

  /** One handle's cell before and after a step: closes are never taken back, and
      a saved descriptor is marked closed only by closing it. */
  ghost predicate CellGrows(s: State, s': State, h: Open) {
    && (h in s.cells ==> h in s'.cells && s'.cells[h].closes >= s.cells[h].closes)
    && (h in s'.cells ==> forall t :: SavedBy(s'.cells[h], t) ==>
          h in s.cells && (SavedBy(s.cells[h], t) || s'.cells[h].closes > s.cells[h].closes))
  }

  lemma BuildGrows(s: State, a: Action, h: Open)
    requires a.StartSession? || a.AddTree? || a.Build?
    ensures CellGrows(s, Step(s, a), h)
  {
  }

  lemma ReserveGrows(s: State, a: Action, h: Open)
    requires a.Reserve? || a.ReserveNothing? || a.Refuse?
    ensures CellGrows(s, Step(s, a), h)
  {
    hide ShareModes.Acquire;
  }

  lemma PublishGrows(s: State, a: Action, h: Open)
    requires a.Publish? || a.Answered?
    ensures CellGrows(s, Step(s, a), h)
  {
  }

  lemma RegisterGrows(s: State, a: Action, h: Open)
    requires a.Register?
    ensures CellGrows(s, Step(s, a), h)
  {
    hide ShareModes.Release;
  }

  lemma LookupGrows(s: State, a: Action, h: Open)
    requires a.Lookup? || a.Lock? || a.MissLookup?
    ensures CellGrows(s, Step(s, a), h)
  {
  }

  lemma ResolveGrows(s: State, a: Action, h: Open)
    requires a.Resolve? || a.Finish?
    ensures CellGrows(s, Step(s, a), h)
  {
  }

  lemma TakeOpenGrows(s: State, a: Action, h: Open)
    requires a.TakeOpen?
    ensures CellGrows(s, Step(s, a), h)
  {
  }

  lemma UnlockedGrows(s: State, a: Action, h: Open)
    requires a.TakeUnlocked?
    ensures CellGrows(s, Step(s, a), h)
  {
  }

  lemma TakeGrows(s: State, a: Action, h: Open)
    requires a.TakeTree? || a.TakeAll?
    ensures CellGrows(s, Step(s, a), h)
  {
  }

  lemma PendingGrows(s: State, a: Action, h: Open)
    requires a.LockPending? || a.Probe? || a.Detach?
    ensures CellGrows(s, Step(s, a), h)
  {
    hide Detaching, Durable.Holding;
  }

  lemma ReleaseGrows(s: State, a: Action, h: Open)
    requires a.ReleaseShare? || a.CheckFlag?
    ensures CellGrows(s, Step(s, a), h)
  {
    hide ShareModes.Release;
  }

  lemma RemoveGrows(s: State, a: Action, h: Open)
    requires a.RemoveEntry? || a.CloseFile?
    ensures CellGrows(s, Step(s, a), h)
  {
  }

  lemma ReclaimGrows(s: State, a: Action, h: Open)
    requires a.Expire? || a.Reclaim?
    ensures CellGrows(s, Step(s, a), h)
  {
    hide ShareModes.Release;
  }

  lemma SavedGrows(s: State, a: Action, h: Open)
    requires a.CloseSaved? || a.ReclaimFails?
    ensures CellGrows(s, Step(s, a), h)
  {
    hide ShareModes.Release;
  }

  lemma ReopenGrows(s: State, a: Action, h: Open)
    requires a.Reopen?
    ensures CellGrows(s, Step(s, a), h)
  {
    hide ShareModes.Transfer;
  }

  lemma StepGrows(s: State, a: Action, h: Open)
    ensures CellGrows(s, Step(s, a), h)
  {
    hide Step, CellGrows;
    if a.StartSession? || a.AddTree? || a.Build? {
      BuildGrows(s, a, h);
    } else if a.Reserve? || a.ReserveNothing? || a.Refuse? {
      ReserveGrows(s, a, h);
    } else if a.Publish? || a.Answered? {
      PublishGrows(s, a, h);
    } else if a.Register? {
      RegisterGrows(s, a, h);
    } else if a.Lookup? || a.Lock? || a.MissLookup? {
      LookupGrows(s, a, h);
    } else if a.Resolve? || a.Finish? {
      ResolveGrows(s, a, h);
    } else if a.TakeOpen? {
      TakeOpenGrows(s, a, h);
    } else if a.TakeUnlocked? {
      UnlockedGrows(s, a, h);
    } else if a.TakeTree? || a.TakeAll? {
      TakeGrows(s, a, h);
    } else if a.LockPending? || a.Probe? || a.Detach? {
      PendingGrows(s, a, h);
    } else if a.ReleaseShare? || a.CheckFlag? {
      ReleaseGrows(s, a, h);
    } else if a.RemoveEntry? || a.CloseFile? {
      RemoveGrows(s, a, h);
    } else if a.Expire? || a.Reclaim? {
      ReclaimGrows(s, a, h);
    } else if a.CloseSaved? || a.ReclaimFails? {
      SavedGrows(s, a, h);
    } else {
      ReopenGrows(s, a, h);
    }
  }

  /** What a step may do to the share-mode table. */
  ghost predicate SharesStep(s: State, a: Action, shares: ShareModes.Table) {
    || shares == s.shares
    || (exists h :: h in s.cells && shares == ShareModes.Release(s.shares, h))
    || (a.Reserve? && a.h in s.cells && shares == ShareModes.Acquire(s.shares, a.h.file, a.h, a.mode, a.live).0)
    || (a.Reopen? && a.again !in s.cells && shares == ShareModes.Transfer(s.shares, a.h, a.again))
  }

  predicate Reserves(a: Action) {
    a.Reserve? || a.Register? || a.ReleaseShare? || a.Expire? || a.Reclaim? || a.ReclaimFails? || a.Reopen?
  }

  lemma OthersSpare(s: State, a: Action)
    requires !Reserves(a)
    ensures Step(s, a).shares == s.shares
  {
  }

  lemma ReserveShares(s: State, a: Action)
    requires a.Reserve? || a.Reopen?
    ensures SharesStep(s, a, Step(s, a).shares)
  {
    hide ShareModes.Acquire, ShareModes.Transfer;
  }

  lemma DiscardShares(s: State, a: Action)
    requires a.Register? || a.Expire? || a.Reclaim?
    ensures SharesStep(s, a, Step(s, a).shares)
  {
    hide ShareModes.Release;
  }

  lemma ReleaseShares(s: State, a: Action)
    requires a.ReleaseShare? || a.ReclaimFails?
    ensures SharesStep(s, a, Step(s, a).shares)
  {
    hide ShareModes.Release;
  }

  lemma StepShares(s: State, a: Action)
    ensures SharesStep(s, a, Step(s, a).shares)
  {
    if !Reserves(a) {
      OthersSpare(s, a);
    }
    hide Step;
    if a.Reserve? || a.Reopen? {
      ReserveShares(s, a);
    } else if a.Register? || a.Expire? || a.Reclaim? {
      DiscardShares(s, a);
    } else if a.ReleaseShare? || a.ReclaimFails? {
      ReleaseShares(s, a);
    }
  }

  lemma StepSane(s: State, a: Action)
    requires Sane(s)
    ensures Sane(Step(s, a))
  {
    hide Step;
    var s' := Step(s, a);
    forall h ensures (h in s.cells ==> h in s'.cells) && (h in s'.cells ==> SaneCell(s'.cells[h])) { StepGrows(s, a, h); }
    StepShares(s, a);
    SharesSane(s, a, s');
  }

  lemma SharesSane(s: State, a: Action, s': State)
    requires Sane(s) && SharesStep(s, a, s'.shares) && (forall h :: h in s.cells ==> h in s'.cells) && s' == Step(s, a)
    ensures ShareModes.Valid(s'.shares) && forall h :: h in s'.shares.owners ==> h in s'.cells
  {
    hide Step, ShareModes.Valid, ShareModes.Acquire, ShareModes.Release, ShareModes.Transfer;
    if s'.shares == s.shares {
    } else if h :| h in s.cells && s'.shares == ShareModes.Release(s.shares, h) {
      ShareModes.ReleaseValid(s.shares, h);
    } else if a.Reserve? {
      ShareModes.AcquireOutcome(s.shares, a.h.file, a.h, a.mode, a.live);
    } else {
      ShareModes.TransferValid(s.shares, a.h, a.again);
      AgainKnown(s, a);
    }
  }

  lemma AgainKnown(s: State, a: Action)
    requires a.Reopen? && Step(s, a).shares != s.shares
    ensures a.again in Step(s, a).cells
  {
    hide ShareModes.Transfer;
  }

  lemma {:induction false} RunSane(acts: seq<Action>)
    ensures Sane(Reach(acts))
  {
    if acts != [] {
      hide Step, Sane;
      RunSane(acts[..|acts| - 1]);
      StepSane(Reach(acts[..|acts| - 1]), acts[|acts| - 1]);
    }
  }

  /** On every file, in every run, the opens admitted get along. */
  lemma OpensGetAlong(acts: seq<Action>, key: FileKey, i: nat, j: nat)
    requires i < j < |ShareModes.Slot(Reach(acts).shares, key)|
    ensures var ents := ShareModes.Slot(Reach(acts).shares, key);
      !ShareModes.Conflict(ents[i].mode, ents[j].mode) && ents[i].owner != ents[j].owner
  {
    hide Step;
    RunSane(acts);
    var s := Reach(acts);
    assert ShareModes.SlotOk(ShareModes.Slot(s.shares, key), key, s.shares.owners);
  }

  /** The sweep spares every handle whose descriptor is open on the file it
      reserved. */
  ghost predicate Honest(s: State, a: Action) {
    a.Reserve? ==> forall o :: o in s.shares.owners && Anchored(s, o) ==> o in a.live
  }

  ghost predicate Anchored(s: State, h: Open) { Reserving(s, h) && s.cells[h].closes == 0 }

  ghost predicate Reserving(s: State, h: Open) { h in s.cells && h in s.shares.owners && s.shares.owners[h] == h.file }

  /** The handle is gone, or on its way out past the release of its reservation. */
  ghost predicate Ended(s: State, h: Open) {
    h in s.cells && (s.cells[h].place.Gone? || exists t :: t in s.cells[h].acts && s.cells[h].acts[t].Disposing? && !s.cells[h].acts[t].stage.DropShare?)
  }

  lemma DiscardFrees(s: State, g: Open, h: Open)
    requires Sane(s) && g in s.cells && Anchored(s, h)
    ensures if g == h then Ended(Discard(s, g), h) else Reserving(Discard(s, g), h)
  {
    hide ShareModes.Valid, ShareModes.Release;
    ShareModes.ReleaseValid(s.shares, g);
  }

  lemma ReserveSpares(s: State, a: Action, h: Open)
    requires Sane(s) && Anchored(s, h) && Honest(s, a) && a.Reserve?
    ensures Reserving(Step(s, a), h)
  {
    hide ShareModes.Valid;
    ShareModes.AcquireOutcome(s.shares, a.h.file, a.h, a.mode, a.live);
    assert a.h in s.shares.owners ==> ShareModes.Acquire(s.shares, a.h.file, a.h, a.mode, a.live).0 == s.shares;
    hide ShareModes.Acquire;
  }

  lemma RegisterSpares(s: State, a: Action, h: Open)
    requires Sane(s) && Anchored(s, h) && a.Register?
    ensures Ended(Step(s, a), h) || Reserving(Step(s, a), h)
  {
    hide ShareModes.Valid, ShareModes.Release;
    if CanRegister(s, a.task, a.h, a.timeout) {
      var k := UseOf(s, a.task, a.h).want.value;
      if k in s.durables { DiscardFrees(s, s.durables[k].open, h); }
    }
  }

  lemma ReleaseSpares(s: State, a: Action, h: Open)
    requires Sane(s) && Anchored(s, h) && a.ReleaseShare?
    ensures Ended(Step(s, a), h) || Reserving(Step(s, a), h)
  {
    hide ShareModes.Valid, ShareModes.Release;
    ShareModes.ReleaseValid(s.shares, a.h);
    if CanDispose(s, a.task, a.h, DropShare) {
      assert a.task in Step(s, a).cells[a.h].acts;
    }
  }

  lemma DurableSpares(s: State, a: Action, h: Open)
    requires Sane(s) && Anchored(s, h) && (a.Expire? || a.Reclaim?)
    ensures Ended(Step(s, a), h) || Reserving(Step(s, a), h)
  {
    hide ShareModes.Valid, ShareModes.Release;
    if a.key in s.durables && s.durables[a.key].open in s.cells {
      DiscardFrees(s, s.durables[a.key].open, h);
    }
  }

  lemma ReclaimSpares(s: State, a: Action, h: Open)
    requires Sane(s) && Anchored(s, h) && (a.ReclaimFails? || a.Reopen?)
    ensures Reserving(Step(s, a), h)
  {
    hide ShareModes.Valid, ShareModes.Release, ShareModes.Transfer;
    if a.h in s.cells {
      assert CanReclaimFail(s, a.task, a.h) ==> SavedBy(s.cells[a.h], a.task);
      ShareModes.ReleaseValid(s.shares, a.h);
      if a.Reopen? && CanReopen(s, a.task, a.h, a.again) {
        ShareModes.TransferValid(s.shares, a.h, a.again);
      }
    }
  }

  lemma OthersHold(s: State, a: Action, h: Open)
    requires Reserving(s, h) && !Reserves(a)
    ensures Reserving(Step(s, a), h)
  {
    OthersSpare(s, a);
    StepGrows(s, a, h);
    hide Step;
  }

  /** In every run a handle with an open descriptor loses its reservation only by
      its own disposal. */
  lemma ReservationKept(acts: seq<Action>, a: Action, h: Open)
    requires Honest(Reach(acts), a) && Anchored(Reach(acts), h)
    ensures Ended(Step(Reach(acts), a), h) || Reserving(Step(Reach(acts), a), h)
  {
    hide Sane, Step;
    var s := Reach(acts);
    RunSane(acts);
    if a.Reserve? {
      ReserveSpares(s, a, h);
    } else if a.Register? {
      RegisterSpares(s, a, h);
    } else if a.ReleaseShare? {
      ReleaseSpares(s, a, h);
    } else if a.Expire? || a.Reclaim? {
      DurableSpares(s, a, h);
    } else if a.ReclaimFails? || a.Reopen? {
      ReclaimSpares(s, a, h);
    } else {
      OthersHold(s, a, h);
    }
  }

  // ---- the reclaim window ----

  /** The saved descriptor is closed, and its reservation not yet moved. */
  ghost predicate InWindow(s: State, h: Open) { h in s.cells && Flying(s.cells[h]) && Current(s.cells[h]).SavedClosed? }

  /** An attempt on the reserved file whose sweep does not spare the handle. */
  ghost predicate Sweeps(s: State, a: Action, h: Open) {
    && a.Reserve? && CanReserve(s, a.task, a.h)
    && h in s.shares.owners && a.h.file == s.shares.owners[h] && h !in a.live
  }

  /** A handle in the window stays there until its reclaim ends it, for good. */
  lemma WindowStays(s: State, a: Action, h: Open)
    requires Inv(OWNERS, s) && Allowed(OWNERS, s, a) && h in s.cells && (InWindow(s, h) || s.cells[h].place.Gone?)
    ensures var s' := Step(s, a);
      h in s'.cells && (s'.cells[h].place.Gone? || (InWindow(s', h) && InWindow(s, h)))
  {
    hide Inv, Step;
    StepKeeps(OWNERS, s, a);
    StepGrows(s, a, h);
    InvCell(OWNERS, s, h);
    InvCell(OWNERS, Step(s, a), h);
    var c := Step(s, a).cells[h];
    assert !c.place.Gone? ==> SavedBy(c, c.place.task);
  }

  lemma WindowReserve(s: State, a: Action, h: Open)
    requires Inv(OWNERS, s) && InWindow(s, h) && a.Reserve?
    ensures h in Step(s, a).shares.owners <==> h in s.shares.owners && !Sweeps(s, a, h)
  {
    hide Inv, ShareModes.Valid, ShareModes.Acquire;
    InvShares(OWNERS, s);
    if CanReserve(s, a.task, a.h) {
      InvCell(OWNERS, s, a.h);
      ShareModes.AcquireOutcome(s.shares, a.h.file, a.h, a.mode, a.live);
    }
  }

  lemma WindowDiscard(s: State, a: Action, h: Open)
    requires Inv(OWNERS, s) && InWindow(s, h) && (a.Register? || a.Expire? || a.Reclaim?)
    ensures h in Step(s, a).shares.owners <==> h in s.shares.owners
  {
    hide Inv, ShareModes.Valid, ShareModes.Release;
    InvShares(OWNERS, s);
    var k := if a.Register? then (if CanRegister(s, a.task, a.h, a.timeout) then UseOf(s, a.task, a.h).want else None) else Some(a.key);
    if k.Some? && k.value in s.durables {
      InvEntry(OWNERS, s, k.value);
      ShareModes.ReleaseValid(s.shares, s.durables[k.value].open);
    }
  }

  lemma WindowRelease(s: State, a: Action, h: Open)
    requires Inv(OWNERS, s) && InWindow(s, h) && a.ReleaseShare?
    ensures h in Step(s, a).shares.owners <==> h in s.shares.owners
  {
    hide Inv, ShareModes.Valid, ShareModes.Release;
    InvShares(OWNERS, s);
    ShareModes.ReleaseValid(s.shares, a.h);
  }

  lemma WindowFails(s: State, a: Action, h: Open)
    requires Inv(OWNERS, s) && InWindow(s, h) && a.ReclaimFails? && InWindow(Step(s, a), h)
    ensures h in Step(s, a).shares.owners <==> h in s.shares.owners
  {
    hide Inv, ShareModes.Valid, ShareModes.Release;
    InvShares(OWNERS, s);
    ShareModes.ReleaseValid(s.shares, a.h);
  }

  lemma WindowReopen(s: State, a: Action, h: Open)
    requires Inv(OWNERS, s) && InWindow(s, h) && a.Reopen? && InWindow(Step(s, a), h)
    ensures h in Step(s, a).shares.owners <==> h in s.shares.owners
  {
    hide Inv, ShareModes.Valid, ShareModes.Transfer;
    InvShares(OWNERS, s);
    if CanReopen(s, a.task, a.h, a.again) { ShareModes.TransferValid(s.shares, a.h, a.again); }
  }

  /** In the window a step takes the reservation exactly when it is an attempt on
      the file that does not spare the handle, and nothing brings it back. */
  lemma WindowStep(s: State, a: Action, h: Open)
    requires Inv(OWNERS, s) && InWindow(s, h) && InWindow(Step(s, a), h)
    ensures h in Step(s, a).shares.owners <==> h in s.shares.owners && !Sweeps(s, a, h)
  {
    hide Inv, Step;
    if a.Reserve? {
      WindowReserve(s, a, h);
    } else if a.Register? || a.Expire? || a.Reclaim? {
      WindowDiscard(s, a, h);
    } else if a.ReleaseShare? {
      WindowRelease(s, a, h);
    } else if a.ReclaimFails? {
      WindowFails(s, a, h);
    } else if a.Reopen? {
      WindowReopen(s, a, h);
    } else {
      OthersSpare(s, a);
    }
  }

  lemma {:induction false} WindowRun(acts: seq<Action>, start: nat, h: Open)
    requires Guarded(OWNERS, acts) && start <= |acts| && InWindow(Reach(acts[..start]), h) && h in Reach(acts[..start]).shares.owners
    ensures h in Reach(acts).cells && (Reach(acts).cells[h].place.Gone? || InWindow(Reach(acts), h))
    ensures InWindow(Reach(acts), h) ==>
      (h in Reach(acts).shares.owners <==> forall i :: start <= i < |acts| ==> !Sweeps(Reach(acts[..i]), acts[i], h))
    decreases |acts|
  {
    hide Inv, Step, Allowed, InWindow, Sweeps;
    if start == |acts| {
      assert acts[..start] == acts;
      WindowCell(Reach(acts), h);
    } else {
      var before, a := acts[..|acts| - 1], acts[|acts| - 1];
      assert before[..start] == acts[..start];
      assert forall i :: start <= i <= |before| ==> before[..i] == acts[..i];
      WindowRun(before, start, h);
      RunKeeps(OWNERS, before);
      WindowStays(Reach(before), a, h);
      if InWindow(Reach(acts), h) {
        WindowCell(Reach(acts), h);
        WindowStep(Reach(before), a, h);
        assert forall i :: start <= i < |before| ==> before[i] == acts[i];
        assert acts[..|acts| - 1] == before;
      }
    }
  }

  lemma WindowCell(s: State, h: Open)
    requires InWindow(s, h)
    ensures h in s.cells && !s.cells[h].place.Gone?
  {
  }

  /** A reclaim hands its reservation on if and only if no attempt on the file
      swept it between the close of the saved descriptor and the reopen. */
  lemma ReclaimKeepsSlotIff(acts: seq<Action>, start: nat, t: TaskId, h: Open, again: Open)
    requires Guarded(OWNERS, acts) && start <= |acts|
    requires InWindow(Reach(acts[..start]), h) && h in Reach(acts[..start]).shares.owners
    requires CanReopen(Reach(acts), t, h, again)
    ensures again in Step(Reach(acts), Reopen(t, h, again)).shares.owners <==>
            forall i :: start <= i < |acts| ==> !Sweeps(Reach(acts[..i]), acts[i], h)
  {
    var s := Reach(acts);
    RunKeeps(OWNERS, acts);
    ReopenMoves(s, t, h, again);
    hide Inv, Step, Sweeps;
    InvCell(OWNERS, s, h);
    WindowRun(acts, start, h);
  }

  lemma ReopenMoves(s: State, t: TaskId, h: Open, again: Open)
    requires Inv(OWNERS, s) && CanReopen(s, t, h, again)
    ensures InWindow(s, h) && (again in Step(s, Reopen(t, h, again)).shares.owners <==> h in s.shares.owners)
  {
    hide Inv, ShareModes.Valid, ShareModes.Transfer;
    InvCell(OWNERS, s, h);
    InvShares(OWNERS, s);
    ShareModes.TransferValid(s.shares, h, again);
  }
}
