/** Exactly when a CLOSE without the lock is harmless: to the descriptors in use,
    to the durable entries, and to the count of closes. For each promise the
    condition on the handle it takes is necessary: where it fails, some
    continuation breaks the promise. */
module LifecycleGuards {
  import opened Handles
  import opened Seqs
  import ShareModes
  import opened Durable
  import Sessions
  import opened Lifecycle
  import opened LifecycleSteps
  import opened LifecycleRuns

  // ---- what can come after a state ----

  ghost function Onwards(s: State, more: seq<Action>): State {
    if more == [] then s else Step(Onwards(s, more[..|more| - 1]), more[|more| - 1])
  }

  predicate Locked(more: seq<Action>) { forall a :: a in more ==> !a.TakeUnlocked? }

  /** Some continuation without a further unlocked CLOSE leads there. */
  ghost predicate Leads(s: State, s': State) { exists more :: Locked(more) && Onwards(s, more) == s' }

  lemma LeadsNowhere(s: State)
    ensures Leads(s, s)
  {
    assert Onwards(s, []) == s && Locked([]);
  }

  lemma LeadsOn(s0: State, s: State, a: Action)
    requires Leads(s0, s) && !a.TakeUnlocked?
    ensures Leads(s0, Step(s, a))
  {
    hide Step;
    var more :| Locked(more) && Onwards(s0, more) == s;
    assert (more + [a])[..|more|] == more;
    assert Onwards(s0, more + [a]) == Step(s, a) && Locked(more + [a]);
  }

  lemma {:induction false} OnwardsKeeps(pr: Promise, s: State, more: seq<Action>)
    requires pr.owners && Inv(pr, s) && Locked(more)
    ensures Inv(pr, Onwards(s, more))
  {
    if more != [] {
      hide Inv, Step;
      assert more[|more| - 1] in more;
      OnwardsKeeps(pr, s, more[..|more| - 1]);
      StepKeeps(pr, Onwards(s, more[..|more| - 1]), more[|more| - 1]);
    }
  }

  lemma LeadsKeeps(pr: Promise, s: State, s': State)
    requires pr.owners && Inv(pr, s) && Leads(s, s')
    ensures Inv(pr, s')
  {
    hide Inv, Step;
    var more :| Locked(more) && Onwards(s, more) == s';
    OnwardsKeeps(pr, s, more);
  }

  // ---- an unlocked CLOSE on its way ----

  /** The unlocked CLOSE of t has the handle and has come to this stage. */
  ghost predicate Closing(s: State, t: TaskId, h: Open, stage: Stage) {
    Acting(s, t, h) && ActOf(s, t, h) == Disposing(stage, Bare) && s.cells[h].closes == 0
  }

  function NextOf(stage: Stage, t: TaskId, h: Open): Action {
    match stage
    case DropShare => ReleaseShare(t, h)
    case ReadFlag => CheckFlag(t, h)
    case DropEntry(_) => RemoveEntry(t, h)
    case ShutFile => Action.CloseFile(t, h)
  }

  function Rank(stage: Stage): nat {
    match stage case DropShare => 3 case ReadFlag => 2 case DropEntry(_) => 1 case ShutFile => 0
  }

  /** Only the handle's own cell changes, and entries are at most removed. */
  ghost predicate OnlyCloses(s: State, s': State, h: Open) {
    && h in s.cells && h in s'.cells && s'.cells == s.cells[h := s'.cells[h]] && s'.cells[h].uses == s.cells[h].uses
    && s'.cells[h].durable == s.cells[h].durable && s'.cells[h].claim == s.cells[h].claim
    && (forall k :: k in s'.durables ==> k in s.durables && s'.durables[k] == s.durables[k])
    && s'.sessions == s.sessions
  }

  lemma ClosingStep(s: State, t: TaskId, h: Open, stage: Stage)
    requires Closing(s, t, h, stage)
    ensures var s' := Step(s, NextOf(stage, t, h));
      && OnlyCloses(s, s', h)
      && (if stage.ShutFile? then s'.cells[h].closes == 1
          else Closing(s', t, h, s'.cells[h].acts[t].stage) && Rank(s'.cells[h].acts[t].stage) < Rank(stage))
  {
    hide ShareModes.Release;
  }

  lemma {:induction false} ClosingCloses(s0: State, s: State, t: TaskId, h: Open, stage: Stage) returns (s': State)
    requires Leads(s0, s) && Closing(s, t, h, stage)
    ensures Leads(s0, s') && OnlyCloses(s, s', h) && s'.cells[h].closes == 1
    decreases Rank(stage)
  {
    hide Step, Leads;
    ClosingStep(s, t, h, stage);
    LeadsOn(s0, s, NextOf(stage, t, h));
    s' := Step(s, NextOf(stage, t, h));
    if !stage.ShutFile? {
      s' := ClosingCloses(s0, s', t, h, s'.cells[h].acts[t].stage);
    }
  }

  lemma UnlockedTakes(pr: Promise, s: State, t: TaskId)
    requires Inv(pr, s) && CanTakeUnlocked(s, t)
    ensures var s', h := Step(s, TakeUnlocked(t)), Named(s, t).value;
      && Closing(s', t, h, DropShare) && Flying(s'.cells[h]) && Current(s'.cells[h]) == Disposing(DropShare, Bare)
      && s'.cells[h].uses == s.cells[h].uses && s'.cells[h].durable == s.cells[h].durable && s'.cells[h].claim == s.cells[h].claim
      && s.cells[h].place.InSession? && s'.durables == s.durables
      && forall g :: g != h ==> (g in s'.cells <==> g in s.cells) && (g in s.cells ==> s'.cells[g] == s.cells[g])
  {
    hide Inv;
    InvSession(pr, s, s.missed[t].0);
    InvCell(pr, s, Named(s, t).value);
  }

  // ---- descriptors ----

  /** A CLOSE that reaches a handle without its lock leaves every descriptor in
      use open, whatever follows, exactly when nobody works with the descriptor
      at that moment. */
  lemma DescriptorsSafeIff(acts: seq<Action>, t: TaskId)
    requires Guarded(DESCRIPTORS, acts) && CanTakeUnlocked(Reach(acts), t)
    ensures !Busy(Reach(acts).cells[Named(Reach(acts), t).value]) <==>
            forall s' :: Leads(Step(Reach(acts), TakeUnlocked(t)), s') ==> Safe(s')
  {
    hide Inv, Step, Leads;
    var s := Reach(acts);
    var s1, h := Step(s, TakeUnlocked(t)), Named(s, t).value;
    RunKeeps(DESCRIPTORS, acts);
    UnlockedTakes(DESCRIPTORS, s, t);
    if Busy(s.cells[h]) {
      LeadsNowhere(s1);
      var s2 := ClosingCloses(s1, s1, t, h, DropShare);
      var u :| u in s.cells[h].uses && (s.cells[h].uses[u].Running? || s.cells[h].uses[u].Answering?);
      assert Using(s2, u, h);
    } else {
      IdleMayBeTaken(s, h);
      StepKeeps(DESCRIPTORS, s, TakeUnlocked(t));
      forall s' | Leads(s1, s') ensures Safe(s') {
        LeadsKeeps(DESCRIPTORS, s1, s');
        InvSafe(s');
      }
    }
  }

  /** A published handle that nobody is about to register carries no claim. */
  lemma ClaimIsUnregistered(pr: Promise, s: State, h: Open)
    requires Inv(pr, s) && h in s.cells && s.cells[h].place.InSession? && !Unregistered(s.cells[h])
    ensures s.cells[h].claim == None
  {
    hide Inv;
    InvCell(pr, s, h);
  }

  lemma IdleMayBeTaken(s: State, h: Open)
    requires Inv(DESCRIPTORS, s) && h in s.cells && s.cells[h].place.InSession? && !Busy(s.cells[h])
    ensures MayTake(DESCRIPTORS, s.cells[h])
  {
    hide Inv;
    assert !Unregistered(s.cells[h]);
    ClaimIsUnregistered(DESCRIPTORS, s, h);
  }

  // ---- letting go of a durable key ----

  /** Nothing is promised; removals of other handles' entries are ruled out step
      by step. */
  const NOTHING: Promise := Promise(false, false, false)

  lemma Weaker(pr: Promise, s: State)
    requires Inv(pr, s)
    ensures Inv(NOTHING, s)
  {
    forall h | h in s.cells ensures CellOk(NOTHING, h, s.cells[h]) {
      assert CellOk(pr, h, s.cells[h]);
      assert forall t :: t in s.cells[h].uses ==> UseOk(pr, h, s.cells[h], t);
    }
    forall k | k in s.durables ensures EntryOk(NOTHING, s, k) { assert EntryOk(pr, s, k); }
  }

  /** On the way from s0, with h as the unlocked CLOSE took it and the key k
      attached to another handle g. */
  ghost predicate Driving(s0: State, s: State, k: DurableKey, g: Open, h: Open, c: Cell) {
    && Leads(s0, s) && Inv(NOTHING, s) && Spared(s, h, c) && g in s.cells && g != h
    && k in s.durables && s.durables[k].open == g && s.durables[k].Attached()
  }

  ghost predicate Spared(s: State, h: Open, c: Cell) { h in s.cells && s.cells[h] == c && Bared(c) }

  /** The key is free, or its entry detached. */
  ghost predicate Freed(s0: State, s: State, k: DurableKey, h: Open, c: Cell) {
    Leads(s0, s) && Inv(NOTHING, s) && Spared(s, h, c) && !(k in s.durables && s.durables[k].Attached())
  }

  /** One locked step. */
  lemma DriveStep(s0: State, s: State, a: Action)
    requires Leads(s0, s) && Inv(NOTHING, s) && !a.TakeUnlocked? && TidyStep(s, a)
    ensures Leads(s0, Step(s, a)) && Inv(NOTHING, Step(s, a))
  {
    hide Inv, Step, Leads;
    LeadsOn(s0, s, a);
    StepKeeps(NOTHING, s, a);
  }

  /** What the entry of an attached key says of its handle. */
  lemma DrivenCell(s0: State, s: State, k: DurableKey, g: Open, h: Open, c: Cell)
    requires Driving(s0, s, k, g, h, c)
    ensures CellOk(NOTHING, g, s.cells[g]) && Linked(s, g) && EntryOk(NOTHING, s, k)
    ensures s.cells[g].durable == Some(k) && s.cells[g].claim == None
    ensures forall u :: u in s.cells[g].uses && s.cells[g].uses[u].Answering? ==> s.cells[g].uses[u].want == None
  {
    hide Inv, Leads;
    InvCell(NOTHING, s, g);
    InvEntry(NOTHING, s, k);
  }

  /** The step touches the cell of g alone and no entry. */
  ghost predicate Touches(s: State, s': State, g: Open, c': Cell) {
    s'.cells == s.cells[g := c'] && s'.durables == s.durables
  }

  lemma DriveOn(s0: State, s: State, a: Action, k: DurableKey, g: Open, h: Open, c: Cell, c': Cell)
    requires Driving(s0, s, k, g, h, c) && !a.TakeUnlocked? && !a.RemoveEntry? && Touches(s, Step(s, a), g, c')
    ensures Driving(s0, Step(s, a), k, g, h, c) && Step(s, a).cells[g] == c'
  {
    hide Inv, Step, Leads;
    DriveStep(s0, s, a);
  }

  ghost predicate Doing(s: State, g: Open, a: Act) {
    g in s.cells && Flying(s.cells[g]) && Current(s.cells[g]) == a
  }

  /** A disposal that will remove its entry does so. */
  lemma DisposalFrees(s0: State, s: State, k: DurableKey, g: Open, h: Open, c: Cell, stage: Stage, why: Why) returns (s': State)
    requires Driving(s0, s, k, g, h, c) && Doing(s, g, Disposing(stage, why)) && !why.Abandon? && !why.Drop? && !stage.ShutFile?
    ensures Freed(s0, s', k, h, c)
    decreases Rank(stage)
  {
    hide Inv, Leads;
    DrivenCell(s0, s, k, g, h, c);
    var t := s.cells[g].place.task;
    if stage.DropEntry? {
      RemovalFrees(s0, s, k, g, h, c, stage, why);
      s' := Step(s, RemoveEntry(t, g));
    } else {
      DisposalSteps(s, k, g, stage, why);
      hide Step;
      var next := if stage.DropShare? then ReadFlag else DropEntry(k);
      DriveOn(s0, s, NextOf(stage, t, g), k, g, h, c, WithAct(s.cells[g], t, Disposing(next, why)));
      s' := DisposalFrees(s0, Step(s, NextOf(stage, t, g)), k, g, h, c, next, why);
    }
  }

  lemma DisposalSteps(s: State, k: DurableKey, g: Open, stage: Stage, why: Why)
    requires Doing(s, g, Disposing(stage, why)) && !why.Abandon? && !why.Drop? && (stage.DropShare? || stage.ReadFlag?)
    requires s.cells[g].durable == Some(k)
    ensures var t := s.cells[g].place.task;
      Touches(s, Step(s, NextOf(stage, t, g)), g,
              WithAct(s.cells[g], t, Disposing(if stage.DropShare? then ReadFlag else DropEntry(k), why)))
  {
    hide ShareModes.Release;
  }

  lemma RemovalFrees(s0: State, s: State, k: DurableKey, g: Open, h: Open, c: Cell, stage: Stage, why: Why)
    requires Driving(s0, s, k, g, h, c) && Doing(s, g, Disposing(stage, why)) && stage.DropEntry?
    ensures Freed(s0, Step(s, RemoveEntry(s.cells[g].place.task, g)), k, h, c)
  {
    hide Inv, Leads;
    DrivenCell(s0, s, k, g, h, c);
    DriveStep(s0, s, RemoveEntry(s.cells[g].place.task, g));
  }

  /** Teardown of a handle that is durable detaches its entry. */
  lemma LeavingDetaches(s0: State, s: State, k: DurableKey, g: Open, h: Open, c: Cell) returns (s': State)
    requires Driving(s0, s, k, g, h, c) && Doing(s, g, Leaving)
    ensures Freed(s0, s', k, h, c) && k in s'.durables && s'.durables[k].open == g
  {
    hide Inv, Leads;
    DrivenCell(s0, s, k, g, h, c);
    var a := Action.Detach(s.cells[g].place.task, g, 0);
    DriveStep(s0, s, a);
    s' := Step(s, a);
  }

  lemma DroppingDetaches(s0: State, s: State, k: DurableKey, g: Open, h: Open, c: Cell) returns (s': State)
    requires Driving(s0, s, k, g, h, c) && Doing(s, g, Dropping)
    ensures Freed(s0, s', k, h, c) && k in s'.durables && s'.durables[k].open == g
  {
    hide Inv, Leads;
    DrivenCell(s0, s, k, g, h, c);
    var t := s.cells[g].place.task;
    var a := Probe(t, g, 0);
    assert Touches(s, Step(s, a), g, WithAct(s.cells[g], t, Leaving));
    hide Step;
    DriveOn(s0, s, a, k, g, h, c, WithAct(s.cells[g], t, Leaving));
    s' := LeavingDetaches(s0, Step(s, a), k, g, h, c);
  }

  // Messages that still hold the lock of a handle that is out of its map.

  function Holders(c: Cell): set<TaskId> { set u | u in c.uses && LocksUse(c.uses[u]) }

  /** The step with which a message lets go of the handle. */
  function LetGo(c: Cell, u: TaskId, g: Open): Action
    requires u in Holders(c)
  {
    match c.uses[u]
    case Reading => Resolve(u, g)
    case Running(_) => Finish(u, g)
    case Closing => TakeOpen(u, g)
    case Answering(_) => Answered(u, g)
  }

  lemma LetGoForgets(s: State, g: Open, u: TaskId)
    requires g in s.cells && u in Holders(s.cells[g]) && s.cells[g].claim == None
    requires g.session in s.sessions && g.fileId !in s.sessions[g.session].opens
    ensures Touches(s, Step(s, LetGo(s.cells[g], u, g)), g, Unused(s.cells[g], u))
    ensures LetGo(s.cells[g], u, g).Resolve? || LetGo(s.cells[g], u, g).Finish? || LetGo(s.cells[g], u, g).TakeOpen? || LetGo(s.cells[g], u, g).Answered?
  {
  }

  lemma OutOfItsMap(s: State, g: Open)
    requires Inv(NOTHING, s) && g in s.cells && g.session in s.sessions && !s.cells[g].place.InSession?
    ensures g.fileId !in s.sessions[g.session].opens
  {
    hide Inv;
    if g.fileId in s.sessions[g.session].opens {
      LookupAgain(NOTHING, s, g);
      InvSession(NOTHING, s, g.session);
    }
  }

  lemma {:induction false} Drained(s0: State, s: State, k: DurableKey, g: Open, h: Open, c: Cell, drop: bool) returns (s': State)
    requires Driving(s0, s, k, g, h, c) && Doing(s, g, Pending(drop))
    ensures Driving(s0, s', k, g, h, c) && Doing(s', g, Pending(drop)) && Holders(s'.cells[g]) == {}
    decreases |Holders(s.cells[g])|
  {
    hide Inv, Leads, Step;
    s' := s;
    if Holders(s.cells[g]) != {} {
      var u :| u in Holders(s.cells[g]);
      DrivenCell(s0, s, k, g, h, c);
      OutOfItsMap(s, g);
      LetGoForgets(s, g, u);
      var a, c' := LetGo(s.cells[g], u, g), Unused(s.cells[g], u);
      DriveOn(s0, s, a, k, g, h, c, c');
      assert Holders(c') == Holders(s.cells[g]) - {u};
      s' := Drained(s0, Step(s, a), k, g, h, c, drop);
    }
  }

  lemma PendingLocks(s: State, g: Open, drop: bool)
    requires Doing(s, g, Pending(drop)) && Holders(s.cells[g]) == {}
    ensures var t := s.cells[g].place.task;
      Touches(s, Step(s, LockPending(t, g)), g, WithAct(s.cells[g], t, if drop then Dropping else Disposing(DropShare, Teardown)))
  {
    assert forall u :: u in s.cells[g].uses ==> u !in Holders(s.cells[g]);
  }

  lemma PendingFrees(s0: State, s: State, k: DurableKey, g: Open, h: Open, c: Cell, drop: bool) returns (s': State)
    requires Driving(s0, s, k, g, h, c) && Doing(s, g, Pending(drop))
    ensures Freed(s0, s', k, h, c) && (drop ==> k in s'.durables && s'.durables[k].open == g)
  {
    hide Inv, Leads, Step;
    var s1 := Drained(s0, s, k, g, h, c, drop);
    var t := s1.cells[g].place.task;
    PendingLocks(s1, g, drop);
    var c' := WithAct(s1.cells[g], t, if drop then Dropping else Disposing(DropShare, Teardown));
    DriveOn(s0, s1, LockPending(t, g), k, g, h, c, c');
    if drop {
      s' := DroppingDetaches(s0, Step(s1, LockPending(t, g)), k, g, h, c);
    } else {
      s' := DisposalFrees(s0, Step(s1, LockPending(t, g)), k, g, h, c, DropShare, Teardown);
    }
  }

  lemma SessionDrops(s0: State, s: State, k: DurableKey, g: Open, h: Open, c: Cell, sid: SessionId)
    requires Driving(s0, s, k, g, h, c) && s.cells[g].place == InSession(sid)
    ensures Driving(s0, Step(s, TakeAll(0, sid, true)), k, g, h, c)
    ensures Doing(Step(s, TakeAll(0, sid, true)), g, Pending(true))
  {
    hide Inv, Leads;
    DrivenCell(s0, s, k, g, h, c);
    InvSession(NOTHING, s, sid);
    assert g in Sessions.Values(s.sessions[sid].opens);
    assert h !in Sessions.Values(s.sessions[sid].opens);
    DriveStep(s0, s, TakeAll(0, sid, true));
  }

  /** The connection of the handle drops, and its entry is detached. */
  lemma SessionFrees(s0: State, s: State, k: DurableKey, g: Open, h: Open, c: Cell) returns (s': State)
    requires Driving(s0, s, k, g, h, c) && s.cells[g].place.InSession?
    ensures Freed(s0, s', k, h, c) && k in s'.durables && s'.durables[k].open == g
  {
    hide Inv, Leads, Step;
    var sid := s.cells[g].place.sid;
    SessionDrops(s0, s, k, g, h, c, sid);
    s' := PendingFrees(s0, Step(s, TakeAll(0, sid, true)), k, g, h, c, true);
  }

  /** Whoever holds a durable key can be brought to let it go. */
  lemma KeyFrees(s0: State, s: State, k: DurableKey, g: Open, h: Open, c: Cell) returns (s': State)
    requires Driving(s0, s, k, g, h, c) && EntryHeld(s.cells[g])
    ensures Freed(s0, s', k, h, c)
  {
    hide Inv, Leads, Step;
    if s.cells[g].place.InSession? {
      s' := SessionFrees(s0, s, k, g, h, c);
    } else {
      var a := Current(s.cells[g]);
      match a
      case Pending(drop) => s' := PendingFrees(s0, s, k, g, h, c, drop);
      case Dropping => s' := DroppingDetaches(s0, s, k, g, h, c);
      case Leaving => s' := LeavingDetaches(s0, s, k, g, h, c);
      case Disposing(stage, why) => s' := DisposalFrees(s0, s, k, g, h, c, stage, why);
    }
  }

  /** The state after an unlocked CLOSE took h: nothing else has changed, and no
      entry is stale. */
  lemma TakenThenFreed(s: State, t: TaskId, k: DurableKey) returns (s': State)
    requires Inv(ENTRIES, s) && CanTakeUnlocked(s, t)
    requires k in s.durables ==> s.durables[k].open != Named(s, t).value
    ensures var s1, h := Step(s, TakeUnlocked(t)), Named(s, t).value;
      h in s1.cells && Closing(s1, t, h, DropShare) && Freed(s1, s', k, h, s1.cells[h])
      && s1.cells[h].uses == s.cells[h].uses && s1.cells[h].durable == s.cells[h].durable && s1.cells[h].claim == s.cells[h].claim
  {
    hide Inv, Leads, Step;
    var s1, h := Step(s, TakeUnlocked(t)), Named(s, t).value;
    UnlockedTakes(ENTRIES, s, t);
    Weaker(ENTRIES, s);
    StepKeeps(NOTHING, s, TakeUnlocked(t));
    LeadsNowhere(s1);
    s' := s1;
    if k in s.durables && s.durables[k].Attached() {
      InvEntry(ENTRIES, s, k);
      s' := KeyFrees(s1, s1, k, s.durables[k].open, h, s1.cells[h]);
    }
  }

  // ---- durable entries ----

  lemma RegisterTakes(s: State, u: TaskId, h: Open, k: DurableKey)
    requires Using(s, u, h) && UseOf(s, u, h) == Answering(Some(k)) && s.cells[h].closes == 1
    requires k in s.durables ==> !s.durables[k].Attached() && s.durables[k].open in s.cells && s.durables[k].open != h
    ensures !EntriesOpen(Step(s, Action.Register(u, h, 1, "", "")))
  {
    hide ShareModes.Release;
    var s' := Step(s, Action.Register(u, h, 1, "", ""));
    assert k in s'.durables && s'.durables[k].open == h && s'.cells[h].closes == 1;
  }

  /** A CREATE that registers a handle closed in the meantime: its entry names a
      closed descriptor. */
  lemma LateRegistration(s: State, t: TaskId, u: TaskId, k: DurableKey) returns (s': State)
    requires Inv(ENTRIES, s) && CanTakeUnlocked(s, t)
    requires u in s.cells[Named(s, t).value].uses && s.cells[Named(s, t).value].uses[u] == Answering(Some(k))
    ensures Leads(Step(s, TakeUnlocked(t)), s') && !EntriesOpen(s')
  {
    hide Inv, Leads, Step, EntriesOpen;
    var s1, h := Step(s, TakeUnlocked(t)), Named(s, t).value;
    NotYetNamed(s, h, u, k);
    var s2 := TakenThenFreed(s, t, k);
    var s3 := ClosingCloses(s1, s2, t, h, DropShare);
    if k in s2.durables {
      InvEntry(NOTHING, s2, k);
      InvCell(NOTHING, s2, h);
    }
    RegisterTakes(s3, u, h, k);
    LeadsOn(s1, s3, Action.Register(u, h, 1, "", ""));
    s' := Step(s3, Action.Register(u, h, 1, "", ""));
  }

  lemma NotYetNamed(s: State, h: Open, u: TaskId, k: DurableKey)
    requires Inv(ENTRIES, s) && h in s.cells && u in s.cells[h].uses && s.cells[h].uses[u] == Answering(Some(k))
    ensures k in s.durables ==> s.durables[k].open != h
  {
    hide Inv;
    InvCell(ENTRIES, s, h);
    if k in s.durables { InvEntry(ENTRIES, s, k); }
  }

  /** A CLOSE that reaches a handle without its lock leaves every durable entry
      naming an open handle, whatever follows, exactly when the handle's CREATE
      is not about to register it. */
  lemma EntriesSafeIff(acts: seq<Action>, t: TaskId)
    requires Guarded(ENTRIES, acts) && CanTakeUnlocked(Reach(acts), t)
    ensures !Unregistered(Reach(acts).cells[Named(Reach(acts), t).value]) <==>
            forall s' :: Leads(Step(Reach(acts), TakeUnlocked(t)), s') ==> EntriesOpen(s')
  {
    hide Inv, Step, Leads, EntriesOpen;
    var s := Reach(acts);
    var s1, h := Step(s, TakeUnlocked(t)), Named(s, t).value;
    RunKeeps(ENTRIES, acts);
    UnlockedTakes(ENTRIES, s, t);
    if Unregistered(s.cells[h]) {
      var u :| u in s.cells[h].uses && s.cells[h].uses[u].Answering? && s.cells[h].uses[u].want.Some?;
      var s' := LateRegistration(s, t, u, s.cells[h].uses[u].want.value);
    } else {
      ClaimIsUnregistered(ENTRIES, s, h);
      StepKeeps(ENTRIES, s, TakeUnlocked(t));
      forall s' | Leads(s1, s') ensures EntriesOpen(s') {
        LeadsKeeps(ENTRIES, s1, s');
        InvEntriesOpen(s');
      }
    }
  }

  // ---- owners ----

  lemma {:induction false} Above(ns: set<nat>) returns (n: nat)
    ensures forall x :: x in ns ==> x < n
    decreases |ns|
  {
    n := 0;
    if ns != {} {
      var x :| x in ns;
      n := Above(ns - {x});
      n := if n <= x then x + 1 else n;
      assert forall y :: y in ns ==> y == x || y in ns - {x};
    }
  }

  /** A key that nobody holds, and a handle that an unlocked CLOSE has. */
  ghost predicate Free(s0: State, s: State, k: DurableKey, h: Open, c: Cell) {
    Leads(s0, s) && Inv(NOTHING, s) && Spared(s, h, c) && k !in s.durables
  }

  lemma SessionOpens(s0: State, s: State, k: DurableKey, h: Open, c: Cell) returns (s': State, sid: SessionId)
    requires Free(s0, s, k, h, c)
    ensures Free(s0, s', k, h, c) && sid in s'.sessions && s'.sessions[sid] == Sessions.State(false, {0}, map[])
  {
    hide Inv, Leads;
    var bound := Above(s.sessions.Keys);
    sid := bound;
    DriveStep(s0, s, StartSession(sid));
    var s1 := Step(s, StartSession(sid));
    assert s1.cells == s.cells && s1.durables == s.durables && s1.sessions[sid] == Sessions.FRESH;
    DriveStep(s0, s1, AddTree(sid, 0));
    s' := Step(s1, AddTree(sid, 0));
    assert s'.sessions[sid].trees == {0};
  }

  ghost predicate NewHandle(s: State, r: Open, sid: SessionId, a: Act) {
    && sid in s.sessions && s.sessions[sid] == Sessions.State(false, {0}, map[]) && r.session == sid && r.tree == 0
    && r in s.cells && s.cells[r] == Cell(0, None, None, map[0 := a], map[], InFlight(0))
  }

  lemma HandleBuilt(s0: State, s: State, k: DurableKey, h: Open, c: Cell, sid: SessionId) returns (s': State, r: Open)
    requires Free(s0, s, k, h, c) && sid in s.sessions && s.sessions[sid] == Sessions.State(false, {0}, map[])
    ensures Free(s0, s', k, h, c) && NewHandle(s', r, sid, Building) && r != h
  {
    hide Inv, Leads;
    var ids := set g | g in s.cells :: g.fileId;
    var f := Above(ids);
    r := Open(0, f, 0, sid, FileKey(0, 0));
    assert forall g :: g in s.cells ==> g.fileId in ids;
    DriveStep(s0, s, Build(0, r));
    s' := Step(s, Build(0, r));
  }

  lemma HandleReserved(s0: State, s: State, k: DurableKey, h: Open, c: Cell, sid: SessionId, r: Open) returns (s': State)
    requires Free(s0, s, k, h, c) && NewHandle(s, r, sid, Building) && r != h
    ensures Free(s0, s', k, h, c) && NewHandle(s', r, sid, Reserved)
  {
    hide Inv, Leads;
    DriveStep(s0, s, ReserveNothing(0, r));
    s' := Step(s, ReserveNothing(0, r));
    assert s'.cells[r].acts == map[0 := Reserved];
  }

  lemma HandlePublished(s0: State, s: State, k: DurableKey, h: Open, c: Cell, sid: SessionId, r: Open) returns (s': State)
    requires Free(s0, s, k, h, c) && NewHandle(s, r, sid, Reserved) && r != h
    ensures Free(s0, s', k, h, c) && Using(s', 0, r) && UseOf(s', 0, r) == Answering(Some(k)) && s'.cells[r].place == InSession(sid)
  {
    hide Inv, Leads;
    DriveStep(s0, s, Publish(0, r, Some(k)));
    s' := Step(s, Publish(0, r, Some(k)));
  }

  lemma HandleRegistered(s0: State, s: State, k: DurableKey, h: Open, c: Cell, r: Open) returns (s': State)
    requires Free(s0, s, k, h, c) && Using(s, 0, r) && UseOf(s, 0, r) == Answering(Some(k)) && s.cells[r].place.InSession? && r != h
    ensures Driving(s0, s', k, r, h, c) && s'.cells[r].place.InSession?
  {
    hide Inv, Leads;
    var a := Action.Register(0, r, 1, "", "");
    DriveStep(s0, s, a);
    s' := Step(s, a);
  }

  /** A new client registers the key and loses its connection. */
  lemma Racer(s0: State, s: State, k: DurableKey, h: Open, c: Cell) returns (s': State)
    requires Free(s0, s, k, h, c)
    ensures Freed(s0, s', k, h, c) && k in s'.durables
  {
    hide Inv, Leads, Step, Free, NewHandle, Driving, Freed;
    var s1, sid := SessionOpens(s0, s, k, h, c);
    var s2, r := HandleBuilt(s0, s1, k, h, c, sid);
    var s3 := HandleReserved(s0, s2, k, h, c, sid, r);
    var s4 := HandlePublished(s0, s3, k, h, c, sid, r);
    var s5 := HandleRegistered(s0, s4, k, h, c, r);
    s' := SessionFrees(s0, s5, k, r, h, c);
  }

  /** The unlocked CLOSE looks at a flag that was set before the registration. */
  lemma FlagSeen(s0: State, s: State, t: TaskId, k: DurableKey, h: Open) returns (s': State)
    requires Leads(s0, s) && Inv(NOTHING, s) && Closing(s, t, h, DropShare) && s.cells[h].durable == Some(k)
    ensures Leads(s0, s') && Inv(NOTHING, s') && Closing(s', t, h, DropEntry(k)) && s'.durables == s.durables && s'.cells[h].claim == s.cells[h].claim
  {
    hide Inv, Leads, ShareModes.Release;
    DriveStep(s0, s, ReleaseShare(t, h));
    var s1 := Step(s, ReleaseShare(t, h));
    assert Closing(s1, t, h, ReadFlag) && s1.durables == s.durables && s1.cells[h].durable == Some(k) && s1.cells[h].claim == s.cells[h].claim;
    FlagRead(s0, s1, t, k, h);
    s' := Step(s1, CheckFlag(t, h));
  }

  lemma FlagRead(s0: State, s: State, t: TaskId, k: DurableKey, h: Open)
    requires Leads(s0, s) && Inv(NOTHING, s) && Closing(s, t, h, ReadFlag) && s.cells[h].durable == Some(k)
    ensures var s' := Step(s, CheckFlag(t, h));
      Leads(s0, s') && Inv(NOTHING, s') && Closing(s', t, h, DropEntry(k)) && s'.durables == s.durables && s'.cells[h].claim == s.cells[h].claim
  {
    hide Inv, Leads;
    DriveStep(s0, s, CheckFlag(t, h));
  }

  /** It removes an entry by its key, and the handle behind it is lost. */
  lemma EntryLost(s: State, t: TaskId, k: DurableKey, h: Open)
    requires Inv(NOTHING, s) && Closing(s, t, h, DropEntry(k)) && s.cells[h].claim.Some?
    requires k in s.durables && !s.durables[k].Attached()
    ensures !Accounted(Step(s, RemoveEntry(t, h)))
  {
    hide Inv;
    var s', g := Step(s, RemoveEntry(t, h)), s.durables[k].open;
    InvEntry(NOTHING, s, k);
    InvCell(NOTHING, s, g);
    assert g != h && s'.cells[g] == s.cells[g] && s'.cells[g].closes == 0;
    forall who ensures !Holds(s', who, g) {
      if Holds(s', who, g) {
        assert Holds(s, who, g);
        HolderIsPlace(NOTHING, s, who, g);
      }
    }
  }

  /** Where the handle taken has a flag that its reclaim has not yet earned, some
      continuation loses another handle for good. */
  lemma HandleLost(s: State, t: TaskId) returns (s': State)
    requires Inv(ENTRIES, s) && CanTakeUnlocked(s, t) && s.cells[Named(s, t).value].claim.Some?
    ensures Leads(Step(s, TakeUnlocked(t)), s') && !Accounted(s')
  {
    hide Inv, Leads, Step, Accounted;
    var s1, h := Step(s, TakeUnlocked(t)), Named(s, t).value;
    InvCell(ENTRIES, s, h);
    var k := s.cells[h].durable.value;
    if k in s.durables { InvEntry(ENTRIES, s, k); }
    var s2 := TakenThenFreed(s, t, k);
    var c := s1.cells[h];
    if k !in s2.durables { s2 := Racer(s1, s2, k, h, c); }
    var s3 := FlagSeen(s1, s2, t, k, h);
    EntryLost(s3, t, k, h);
    LeadsOn(s1, s3, RemoveEntry(t, h));
    s' := Step(s3, RemoveEntry(t, h));
  }

  /** A CLOSE that reaches a handle without its lock leaves every handle accounted
      for, whatever follows, exactly when the handle's durable flag is not one
      that a reclaim set before its registration. */
  lemma OwnersSafeIff(acts: seq<Action>, t: TaskId)
    requires Guarded(ENTRIES, acts) && CanTakeUnlocked(Reach(acts), t)
    ensures Reach(acts).cells[Named(Reach(acts), t).value].claim == None <==>
            forall s' :: Leads(Step(Reach(acts), TakeUnlocked(t)), s') ==> Accounted(s')
  {
    hide Inv, Step, Leads, Accounted;
    var s := Reach(acts);
    var s1, h := Step(s, TakeUnlocked(t)), Named(s, t).value;
    RunKeeps(ENTRIES, acts);
    if s.cells[h].claim.Some? {
      var s' := HandleLost(s, t);
    } else {
      OwnersOnly(s);
      StepKeeps(OWNERS, s, TakeUnlocked(t));
      forall s' | Leads(s1, s') ensures Accounted(s') {
        LeadsKeeps(OWNERS, s1, s');
        InvAccounted(OWNERS, s');
      }
    }
  }

  lemma OwnersOnly(s: State)
    requires Inv(ENTRIES, s)
    ensures Inv(OWNERS, s)
  {
    forall h | h in s.cells ensures CellOk(OWNERS, h, s.cells[h]) {
      assert CellOk(ENTRIES, h, s.cells[h]);
      assert forall t :: t in s.cells[h].uses ==> UseOk(ENTRIES, h, s.cells[h], t);
    }
    forall k | k in s.durables ensures EntryOk(OWNERS, s, k) { assert EntryOk(ENTRIES, s, k); }
  }
}
