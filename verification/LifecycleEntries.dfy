/** Durable entries in the handle machine: what holds of them in every run,
    whatever an unlocked CLOSE takes. */
module LifecycleEntries {
  import opened Handles
  import opened Seqs
  import ShareModes
  import opened Durable
  import Sessions
  import opened Lifecycle

  predicate NewAct(a: Act) { a.Building? || a.Reserved? || a.Reopened? }

  /** A goroutine is on its way to publish the handle. */
  predicate Arriving(c: Cell, t: TaskId) { t in c.acts && NewAct(c.acts[t]) }

  /** It is a reclaim. */
  predicate Returning(c: Cell, t: TaskId) { t in c.acts && c.acts[t].Reopened? }

  /** A CREATE is building its response. */
  predicate Answers(c: Cell, t: TaskId) { t in c.uses && c.uses[t].Answering? }

  /** A handle is published once, by one CREATE. */
  ghost predicate Solo(c: Cell) {
    && (forall t, u :: Arriving(c, t) && Arriving(c, u) ==> t == u)
    && (forall t, u :: Answers(c, t) && Answers(c, u) ==> t == u)
    && (forall t, u :: !(Arriving(c, t) && Answers(c, u)))
  }

  /** No registration of the handle is to come. */
  ghost predicate Quiet(c: Cell) {
    (forall t :: !Arriving(c, t)) && forall t :: Answers(c, t) ==> c.uses[t].want == None
  }

  /** Nobody new comes to publish or register the handle, and its flag stays. */
  ghost predicate Descends(c: Cell, c': Cell) {
    && (forall t :: Arriving(c', t) ==> Arriving(c, t))
    && (forall t :: Returning(c', t) ==> Returning(c, t))
    && (forall t :: Answers(c', t) ==> Answers(c, t) && (c'.uses[t].want.Some? ==> c.uses[t].want.Some?))
    && c'.durable == c.durable
  }

  /** A handle that is new, with the goroutine that made it: a reclaim if the step
      was its reopen. */
  ghost predicate Begins(a: Action, h: Open, c: Cell) {
    && c.uses == map[] && (forall t, u :: t in c.acts && u in c.acts ==> t == u)
    && (forall t :: Returning(c, t) ==> a.Reopen? && a.again == h)
  }

  ghost predicate CellSteps(s: State, a: Action, h: Open) {
    var s' := Step(s, a);
    if h in s.cells then h in s'.cells && Descends(s.cells[h], s'.cells[h]) else h in s'.cells ==> Begins(a, h, s'.cells[h])
  }

  lemma BuildSteps(s: State, a: Action, h: Open)
    requires a.StartSession? || a.AddTree? || a.Build?
    ensures CellSteps(s, a, h)
  {
  }

  lemma ReserveSteps(s: State, a: Action, h: Open)
    requires a.Reserve? || a.ReserveNothing? || a.Refuse?
    ensures CellSteps(s, a, h)
  {
    hide ShareModes.Acquire;
  }

  lemma AnsweredSteps(s: State, a: Action, h: Open)
    requires a.Answered? || a.MissLookup?
    ensures CellSteps(s, a, h)
  {
  }

  lemma LookupSteps(s: State, a: Action, h: Open)
    requires a.Lookup? || a.Lock?
    ensures CellSteps(s, a, h)
  {
  }

  lemma ResolveSteps(s: State, a: Action, h: Open)
    requires a.Resolve?
    ensures CellSteps(s, a, h)
  {
  }

  lemma FinishSteps(s: State, a: Action, h: Open)
    requires a.Finish?
    ensures CellSteps(s, a, h)
  {
  }

  lemma TakeOpenCells(s: State, t: TaskId, g: Open, h: Open)
    requires CanTakeOpen(s, t, g) && h in s.cells
    ensures DoTakeOpen(s, t, g).cells.Keys == s.cells.Keys && Descends(s.cells[h], DoTakeOpen(s, t, g).cells[h])
  {
  }

  lemma TakeOpenSteps(s: State, a: Action, h: Open)
    requires a.TakeOpen?
    ensures CellSteps(s, a, h)
  {
    if CanTakeOpen(s, a.task, a.h) && h in s.cells { TakeOpenCells(s, a.task, a.h, h); }
    hide Descends, Taken, Unused;
  }

  lemma UnlockedSteps(s: State, a: Action, h: Open)
    requires a.TakeUnlocked?
    ensures CellSteps(s, a, h)
  {
  }

  lemma TakeSteps(s: State, a: Action, h: Open)
    requires a.TakeTree? || a.TakeAll?
    ensures CellSteps(s, a, h)
  {
  }

  lemma PendingSteps(s: State, a: Action, h: Open)
    requires a.LockPending?
    ensures CellSteps(s, a, h)
  {
  }

  lemma ProbeSteps(s: State, a: Action, h: Open)
    requires a.Probe?
    ensures CellSteps(s, a, h)
  {
    hide Durable.Holding;
  }

  lemma DetachSteps(s: State, a: Action, h: Open)
    requires a.Detach? || a.ReleaseShare?
    ensures CellSteps(s, a, h)
  {
    hide Detaching, ShareModes.Release;
  }

  lemma DropSteps(s: State, a: Action, h: Open)
    requires a.CheckFlag?
    ensures CellSteps(s, a, h)
  {
  }

  lemma RemoveSteps(s: State, a: Action, h: Open)
    requires a.RemoveEntry?
    ensures CellSteps(s, a, h)
  {
  }

  lemma CloseSteps(s: State, a: Action, h: Open)
    requires a.CloseFile?
    ensures CellSteps(s, a, h)
  {
  }

  lemma SavedSteps(s: State, a: Action, h: Open)
    requires a.CloseSaved?
    ensures CellSteps(s, a, h)
  {
  }

  lemma ReclaimSteps(s: State, a: Action, h: Open)
    requires a.Expire? || a.Reclaim?
    ensures CellSteps(s, a, h)
  {
    hide ShareModes.Release;
  }

  lemma ReopenSteps(s: State, a: Action, h: Open)
    requires a.Reopen?
    ensures CellSteps(s, a, h)
  {
    hide ShareModes.Transfer;
  }

  lemma FailSteps(s: State, a: Action, h: Open)
    requires a.ReclaimFails?
    ensures CellSteps(s, a, h)
  {
    hide ShareModes.Release;
  }

  lemma OrdinarySteps(s: State, a: Action, h: Open)
    requires !a.Publish? && !a.Register?
    ensures CellSteps(s, a, h)
  {
    hide Step, CellSteps;
    if a.StartSession? || a.AddTree? || a.Build? {
      BuildSteps(s, a, h);
    } else if a.Reserve? || a.ReserveNothing? || a.Refuse? {
      ReserveSteps(s, a, h);
    } else if a.Answered? || a.MissLookup? {
      AnsweredSteps(s, a, h);
    } else if a.Lookup? || a.Lock? {
      LookupSteps(s, a, h);
    } else if a.Resolve? {
      ResolveSteps(s, a, h);
    } else if a.Finish? {
      FinishSteps(s, a, h);
    } else if a.TakeOpen? {
      TakeOpenSteps(s, a, h);
    } else if a.TakeUnlocked? {
      UnlockedSteps(s, a, h);
    } else if a.TakeTree? || a.TakeAll? {
      TakeSteps(s, a, h);
    } else if a.LockPending? {
      PendingSteps(s, a, h);
    } else if a.Probe? {
      ProbeSteps(s, a, h);
    } else if a.Detach? || a.ReleaseShare? {
      DetachSteps(s, a, h);
    } else if a.CheckFlag? {
      DropSteps(s, a, h);
    } else if a.RemoveEntry? {
      RemoveSteps(s, a, h);
    } else if a.CloseFile? {
      CloseSteps(s, a, h);
    } else if a.CloseSaved? {
      SavedSteps(s, a, h);
    } else if a.Expire? || a.Reclaim? {
      ReclaimSteps(s, a, h);
    } else if a.Reopen? {
      ReopenSteps(s, a, h);
    } else {
      FailSteps(s, a, h);
    }
  }

  /** Publication turns the goroutine on its way into the CREATE that answers. */
  ghost predicate Publishes(c: Cell, c': Cell, t: TaskId) {
    && Arriving(c, t) && (forall u :: !Answers(c, u)) && c'.durable == c.durable
    && (forall u :: Arriving(c', u) ==> Arriving(c, u) && u != t)
    && (forall u :: Returning(c', u) ==> Returning(c, u))
    && (forall u :: Answers(c', u) ==> u == t)
  }

  lemma PublishSteps(s: State, a: Action, h: Open)
    requires a.Publish?
    ensures if h in s.cells then h in Step(s, a).cells && (Descends(s.cells[h], Step(s, a).cells[h]) || Publishes(s.cells[h], Step(s, a).cells[h], a.task))
            else h !in Step(s, a).cells
  {
    assert h in s.cells && Unheld(s.cells[h]) ==> forall u :: !Answers(s.cells[h], u);
  }

  /** Registration answers for good what the handle's flag is. */
  ghost predicate Registers(c: Cell, c': Cell, t: TaskId) {
    && Answers(c, t) && c.uses[t].want.Some? && Answers(c', t) && c'.uses[t].want == None
    && (forall u :: Arriving(c', u) ==> Arriving(c, u))
    && (forall u :: Returning(c', u) ==> Returning(c, u))
    && (forall u :: Answers(c', u) ==> Answers(c, u))
  }

  lemma RegisterSteps(s: State, a: Action, h: Open)
    requires a.Register?
    ensures if h in s.cells then h in Step(s, a).cells && (Descends(s.cells[h], Step(s, a).cells[h]) || Registers(s.cells[h], Step(s, a).cells[h], a.task))
            else h !in Step(s, a).cells
  {
    hide ShareModes.Release;
  }

  lemma StepSolo(s: State, a: Action, h: Open)
    requires h in Step(s, a).cells && (h in s.cells ==> Solo(s.cells[h]))
    ensures Solo(Step(s, a).cells[h])
  {
    hide Step;
    if a.Publish? {
      PublishSteps(s, a, h);
    } else if a.Register? {
      RegisterSteps(s, a, h);
    } else {
      OrdinarySteps(s, a, h);
    }
  }

  lemma StepQuiet(s: State, a: Action, h: Open)
    requires h in s.cells && Quiet(s.cells[h])
    ensures h in Step(s, a).cells && Quiet(Step(s, a).cells[h]) && Step(s, a).cells[h].durable == s.cells[h].durable
  {
    hide Step;
    if a.Publish? {
      PublishSteps(s, a, h);
    } else if a.Register? {
      RegisterSteps(s, a, h);
    } else {
      OrdinarySteps(s, a, h);
    }
  }

  /** Every entry names a handle that is flagged with its key and has no further
      registration to come. */
  ghost predicate EntryNamed(s: State, k: DurableKey)
    requires k in s.durables
  {
    var h := s.durables[k].open;
    h in s.cells && s.cells[h].durable == Some(k) && Quiet(s.cells[h])
  }

  ghost predicate Single(s: State) {
    (forall h :: h in s.cells ==> Solo(s.cells[h])) && forall k :: k in s.durables ==> EntryNamed(s, k)
  }

  lemma OldEntries(s: State, a: Action, k: DurableKey)
    requires !a.Register? && k in Step(s, a).durables
    ensures k in s.durables && s.durables[k].open == Step(s, a).durables[k].open
  {
    hide ShareModes.Release, ShareModes.Acquire, ShareModes.Transfer;
  }

  /** A registration adds at most the entry of its own handle. */
  lemma RegisterEntries(s: State, a: Action, k: DurableKey)
    requires a.Register? && k in Step(s, a).durables
    ensures var s' := Step(s, a);
      || (k in s.durables && s.durables[k].open == s'.durables[k].open)
      || (s'.durables[k].open == a.h && a.h in s.cells && a.h in s'.cells && s'.cells[a.h].durable == Some(k)
          && Registers(s.cells[a.h], s'.cells[a.h], a.task))
  {
    hide ShareModes.Release;
  }

  lemma StepSingle(s: State, a: Action)
    requires Single(s)
    ensures Single(Step(s, a))
  {
    hide Step;
    var s' := Step(s, a);
    forall h | h in s'.cells ensures Solo(s'.cells[h]) { StepSolo(s, a, h); }
    forall k | k in s'.durables ensures EntryNamed(s', k) {
      if a.Register? { RegisterEntries(s, a, k); } else { OldEntries(s, a, k); }
      if k in s.durables && s.durables[k].open == s'.durables[k].open {
        assert EntryNamed(s, k);
        StepQuiet(s, a, s.durables[k].open);
      } else {
        RegistersQuiet(s.cells[a.h], s'.cells[a.h], a.task);
      }
    }
  }

  lemma RegistersQuiet(c: Cell, c': Cell, t: TaskId)
    requires Solo(c) && Registers(c, c', t)
    ensures Quiet(c')
  {
    forall u ensures !Arriving(c', u) { assert Answers(c, t); }
    forall u | Answers(c', u) ensures c'.uses[u].want == None { assert Answers(c, u) && Answers(c, t); }
  }

  lemma {:induction false} RunSingle(acts: seq<Action>)
    ensures Single(Reach(acts))
  {
    if acts != [] {
      hide Step, Single;
      RunSingle(acts[..|acts| - 1]);
      StepSingle(Reach(acts[..|acts| - 1]), acts[|acts| - 1]);
    }
  }

  /** In every run no two durable entries name one handle. */
  lemma OneEntryEach(acts: seq<Action>, k: DurableKey, j: DurableKey)
    requires k in Reach(acts).durables && j in Reach(acts).durables && Reach(acts).durables[k].open == Reach(acts).durables[j].open
    ensures k == j
  {
    hide Step;
    RunSingle(acts);
    assert EntryNamed(Reach(acts), k) && EntryNamed(Reach(acts), j);
  }
}
