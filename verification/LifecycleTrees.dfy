/** Trees, files and arguments in the handle machine: which handles a session's
    map may name, where a reservation is filed, and what a durable entry records,
    in every run and whatever an unlocked CLOSE takes. */
module LifecycleTrees {
  import opened Handles
  import opened Seqs
  import ShareModes
  import opened Durable
  import Sessions
  import opened Lifecycle
  import opened LifecycleEntries

  // ---- one TREE_DISCONNECT ----

  /** TREE_DISCONNECT takes out exactly the session's handles on that tree, and
      leaves every other handle, tree and session where it was. */
  lemma TreeDisconnectExactly(s: State, t: TaskId, sid: SessionId, tree: TreeId)
    requires sid in s.sessions
    ensures var s' := Step(s, TakeTree(t, sid, tree));
      && s'.sessions.Keys == s.sessions.Keys
      && s'.sessions[sid].trees == s.sessions[sid].trees - {tree} && s'.sessions[sid].dead == s.sessions[sid].dead
      && (forall f :: f in s'.sessions[sid].opens <==> f in s.sessions[sid].opens && s.sessions[sid].opens[f].tree != tree)
      && (forall f :: f in s'.sessions[sid].opens ==> s'.sessions[sid].opens[f] == s.sessions[sid].opens[f])
      && (forall id :: id in s.sessions && id != sid ==> s'.sessions[id] == s.sessions[id])
  {
  }

  /** The handles it takes are the sweeper's to release, and no others. */
  lemma TreeDisconnectTakes(s: State, t: TaskId, sid: SessionId, tree: TreeId, h: Open)
    requires sid in s.sessions && h in s.cells
    ensures var s' := Step(s, TakeTree(t, sid, tree));
      && h in s'.cells
      && (if h.tree == tree && exists f :: f in s.sessions[sid].opens && s.sessions[sid].opens[f] == h
          then s'.cells[h].acts == s.cells[h].acts[t := Pending(false)] && s'.cells[h].place == InFlight(t)
          else s'.cells[h] == s.cells[h])
  {
    var sess := s.sessions[sid];
    assert h in (set f | f in Sessions.OnTree(sess, tree) :: sess.opens[f]) <==>
           h.tree == tree && exists f :: f in sess.opens && sess.opens[f] == h;
  }

  /** A handle enters a map exactly when its session lives and, unless a reclaim
      brings it back, its tree is connected. */
  lemma PublishedExactly(s: State, t: TaskId, h: Open, want: Option<DurableKey>)
    requires CanPublish(s, t, h, want)
    ensures var s' := Step(s, Publish(t, h, want));
      && s'.sessions.Keys == s.sessions.Keys
      && (if !s.sessions[h.session].dead && (s.cells[h].acts[t].Reopened? || h.tree in s.sessions[h.session].trees)
          then s'.sessions[h.session].opens == s.sessions[h.session].opens[h.fileId := h] && s'.sessions[h.session].trees == s.sessions[h.session].trees
          else s'.sessions == s.sessions)
      && (forall id :: id in s.sessions && id != h.session ==> s'.sessions[id] == s.sessions[id])
  {
  }

  // ---- every run ----

  /** The handles that reclaims of the run brought back. */
  function Reclaimed(acts: seq<Action>): set<Open> {
    if acts == [] then {}
    else Reclaimed(acts[..|acts| - 1]) + if acts[|acts| - 1].Reopen? then {acts[|acts| - 1].again} else {}
  }

  /** A published handle's tree is connected, and a reservation is filed under the
      handle's file; handles of back are excepted. */
  ghost predicate InPlace(s: State, back: set<Open>) {
    && (forall h, t :: h in s.cells && Returning(s.cells[h], t) ==> h in back)
    && (forall sid, f :: sid in s.sessions && f in s.sessions[sid].opens ==> TreeOk(s.sessions[sid], s.sessions[sid].opens[f], back))
    && (forall h :: h in s.shares.owners ==> s.shares.owners[h] == h.file || h in back)
  }

  predicate TreeOk(sess: Sessions.State, h: Open, back: set<Open>) { h.tree in sess.trees || h in back }

  function Joined(back: set<Open>, a: Action): set<Open> { back + if a.Reopen? then {a.again} else {} }

  lemma ReturningSteps(s: State, a: Action, h: Open, t: TaskId)
    requires h in Step(s, a).cells && Returning(Step(s, a).cells[h], t)
    ensures (h in s.cells && Returning(s.cells[h], t)) || (a.Reopen? && a.again == h)
  {
    hide Step;
    if a.Publish? {
      PublishSteps(s, a, h);
    } else if a.Register? {
      RegisterSteps(s, a, h);
    } else {
      OrdinarySteps(s, a, h);
    }
  }

  /** A session's map grows by publication alone, and its trees shrink with it. */
  ghost predicate MapSteps(s: State, a: Action, sid: SessionId, f: FileId) {
    var s' := Step(s, a);
    sid in s'.sessions && f in s'.sessions[sid].opens ==>
      var h := s'.sessions[sid].opens[f];
      || (&& sid in s.sessions && f in s.sessions[sid].opens && s.sessions[sid].opens[f] == h
          && (h.tree in s.sessions[sid].trees ==> h.tree in s'.sessions[sid].trees))
      || h.tree in s'.sessions[sid].trees
      || (a.Publish? && a.h == h && h in s.cells && Returning(s.cells[h], a.task))
  }

  predicate TouchesSessions(a: Action) {
    a.StartSession? || a.AddTree? || a.Publish? || a.TakeOpen? || a.TakeTree? || a.TakeAll? || a.TakeUnlocked?
  }

  lemma OtherMaps(s: State, a: Action)
    requires !TouchesSessions(a)
    ensures Step(s, a).sessions == s.sessions
  {
  }

  lemma SessionMaps(s: State, a: Action, sid: SessionId, f: FileId)
    requires a.StartSession? || a.AddTree? || a.Publish?
    ensures MapSteps(s, a, sid, f)
  {
  }

  lemma TakenMaps(s: State, a: Action, sid: SessionId, f: FileId)
    requires a.TakeOpen? || a.TakeTree? || a.TakeAll? || a.TakeUnlocked?
    ensures MapSteps(s, a, sid, f)
  {
  }

  lemma EveryMap(s: State, a: Action, sid: SessionId, f: FileId)
    ensures MapSteps(s, a, sid, f)
  {
    if !TouchesSessions(a) {
      OtherMaps(s, a);
      hide Step;
    } else if a.StartSession? || a.AddTree? || a.Publish? {
      hide Step, MapSteps;
      SessionMaps(s, a, sid, f);
    } else {
      hide Step, MapSteps;
      TakenMaps(s, a, sid, f);
    }
  }

  /** A reservation is made under its handle's file, moved to a reclaimed handle,
      or left alone. */
  ghost predicate OwnerSteps(s: State, a: Action, h: Open) {
    var s' := Step(s, a);
    h in s'.shares.owners ==>
      || (h in s.shares.owners && s'.shares.owners[h] == s.shares.owners[h])
      || s'.shares.owners[h] == h.file
      || (a.Reopen? && a.again == h)
  }

  predicate TouchesShares(a: Action) {
    a.Reserve? || a.Register? || a.ReleaseShare? || a.Expire? || a.Reclaim? || a.ReclaimFails? || a.Reopen?
  }

  lemma OtherOwners(s: State, a: Action)
    requires !TouchesShares(a)
    ensures Step(s, a).shares == s.shares
  {
  }

  lemma ReleasedOwners(t: ShareModes.Table, o: Open)
    ensures forall h :: h in ShareModes.Release(t, o).owners ==> h in t.owners && ShareModes.Release(t, o).owners[h] == t.owners[h]
  {
  }

  lemma AcquiredOwners(t: ShareModes.Table, key: FileKey, o: Open, mode: ShareModes.Mode, live: set<Open>)
    ensures var t' := ShareModes.Acquire(t, key, o, mode, live).0;
      forall h :: h in t'.owners ==> (h in t.owners && t'.owners[h] == t.owners[h]) || (h == o && t'.owners[h] == key)
  {
  }

  lemma ReserveOwners(s: State, a: Action, h: Open)
    requires a.Reserve?
    ensures OwnerSteps(s, a, h)
  {
    hide ShareModes.Acquire;
    AcquiredOwners(s.shares, a.h.file, a.h, a.mode, a.live);
  }

  lemma ReopenOwners(s: State, a: Action, h: Open)
    requires a.Reopen?
    ensures OwnerSteps(s, a, h)
  {
  }

  lemma DiscardOwners(s: State, a: Action, h: Open)
    requires a.Register? || a.Expire? || a.Reclaim?
    ensures OwnerSteps(s, a, h)
  {
    hide ShareModes.Release;
    var k := if a.Register? then (if CanRegister(s, a.task, a.h, a.timeout) then UseOf(s, a.task, a.h).want else None) else Some(a.key);
    if k.Some? && k.value in s.durables { ReleasedOwners(s.shares, s.durables[k.value].open); }
  }

  lemma ReleaseOwners(s: State, a: Action, h: Open)
    requires a.ReleaseShare? || a.ReclaimFails?
    ensures OwnerSteps(s, a, h)
  {
    hide ShareModes.Release;
    ReleasedOwners(s.shares, a.h);
  }

  lemma EveryOwner(s: State, a: Action, h: Open)
    ensures OwnerSteps(s, a, h)
  {
    if !TouchesShares(a) {
      OtherOwners(s, a);
      hide Step;
    } else {
      hide Step, OwnerSteps;
      if a.Reserve? {
        ReserveOwners(s, a, h);
      } else if a.Reopen? {
        ReopenOwners(s, a, h);
      } else if a.Register? || a.Expire? || a.Reclaim? {
        DiscardOwners(s, a, h);
      } else {
        ReleaseOwners(s, a, h);
      }
    }
  }

  lemma StepInPlace(s: State, a: Action, back: set<Open>)
    requires InPlace(s, back)
    ensures InPlace(Step(s, a), Joined(back, a))
  {
    hide Step;
    var s' := Step(s, a);
    forall h, t | h in s'.cells && Returning(s'.cells[h], t) ensures h in Joined(back, a) { ReturningSteps(s, a, h, t); }
    forall sid, f | sid in s'.sessions && f in s'.sessions[sid].opens
      ensures TreeOk(s'.sessions[sid], s'.sessions[sid].opens[f], Joined(back, a))
    {
      EveryMap(s, a, sid, f);
      assert sid in s.sessions && f in s.sessions[sid].opens ==> TreeOk(s.sessions[sid], s.sessions[sid].opens[f], back);
    }
    forall h | h in s'.shares.owners ensures s'.shares.owners[h] == h.file || h in Joined(back, a) { EveryOwner(s, a, h); }
  }

  lemma {:induction false} RunInPlace(acts: seq<Action>)
    ensures InPlace(Reach(acts), Reclaimed(acts))
  {
    if acts != [] {
      hide Step, InPlace;
      RunInPlace(acts[..|acts| - 1]);
      StepInPlace(Reach(acts[..|acts| - 1]), acts[|acts| - 1], Reclaimed(acts[..|acts| - 1]));
    } else {
      assert Reach(acts) == INITIAL;
    }
  }

  /** In every run a handle that a session's map names is on a tree that the
      session has connected, unless a reclaim brought it back. */
  lemma TreesHoldTheirHandles(acts: seq<Action>, sid: SessionId, f: FileId)
    requires sid in Reach(acts).sessions && f in Reach(acts).sessions[sid].opens
    ensures var sess := Reach(acts).sessions[sid]; sess.opens[f].tree in sess.trees || sess.opens[f] in Reclaimed(acts)
  {
    hide Step;
    RunInPlace(acts);
    assert TreeOk(Reach(acts).sessions[sid], Reach(acts).sessions[sid].opens[f], Reclaimed(acts));
  }

  /** In every run a reservation stands under the file of its handle, unless the
      handle inherited it. */
  lemma ReservedUnderItsFile(acts: seq<Action>, h: Open)
    requires h in Reach(acts).shares.owners
    ensures Reach(acts).shares.owners[h] == h.file || h in Reclaimed(acts)
  {
    hide Step;
    RunInPlace(acts);
  }

  // ---- what a durable entry records and when it goes ----

  /** A registration that is granted records its own arguments. */
  lemma RegistrationRecords(s: State, t: TaskId, h: Open, timeout: int, share: string, user: string)
    requires CanRegister(s, t, h, timeout)
    ensures var k, s' := s.cells[h].uses[t].want.value, Step(s, Action.Register(t, h, timeout, share, user));
      && h in s'.cells
      && (if k in s.durables && s.durables[k].deadline == None && s.durables[k].open != h
          then s'.durables == s.durables && s'.cells[h].durable == None
          else && k in s'.durables && s'.durables[k].open == h && s'.durables[k].deadline == None && s'.durables[k].timeout == timeout
               && s'.durables[k].share == share && s'.durables[k].user == user && s'.cells[h].durable == Some(k))
  {
    hide ShareModes.Release;
  }

  /** A reclaim becomes the owner of a saved handle exactly for the right user on
      the right share, after Detach and before the deadline. */
  lemma ReclaimTakesExactly(s: State, t: TaskId, k: DurableKey, sid: SessionId, share: string, user: string, now: int)
    requires CanReclaim(s, k, sid) && k in s.durables
    ensures var e, s' := s.durables[k], Step(s, Reclaim(t, k, sid, share, user, now));
      && e.open in s'.cells
      && (if e.deadline.Some? && now <= e.deadline.value && e.share == share && e.user == user
          then s'.durables == s.durables - {k} && s'.cells[e.open].acts == s.cells[e.open].acts[t := Saved(k, sid)]
          else if e.deadline.Some? && now > e.deadline.value
          then s'.durables == s.durables - {k} && s'.cells[e.open].place == Gone
          else s' == s)
  {
    hide ShareModes.Release;
  }

  /** A detached entry leaves the table only when its deadline has passed, for a
      reclaim of its user on its share, by a registration of its key, or by a
      removal of its key. */
  lemma DetachedEntryLeaves(s: State, a: Action, k: DurableKey)
    requires k in s.durables && s.durables[k].deadline.Some?
    requires !(k in Step(s, a).durables && Step(s, a).durables[k] == s.durables[k])
    ensures var e := s.durables[k];
      || (a.Expire? && a.key == k && a.now > e.deadline.value)
      || (a.Reclaim? && a.key == k && (a.now > e.deadline.value || (a.share == e.share && a.user == e.user)))
      || (a.Register? && CanRegister(s, a.task, a.h, a.timeout) && s.cells[a.h].uses[a.task].want == Some(k))
      || (a.RemoveEntry? && CanRemoveEntry(s, a.task, a.h) && s.cells[a.h].acts[a.task].stage.key == k)
  {
    hide ShareModes.Release, ShareModes.Acquire, ShareModes.Transfer;
  }

  /** An attached entry changes only by its owner's Detach, which starts the
      deadline, by a registration of the same handle, or by a removal of its key. */
  lemma AttachedEntryLeaves(s: State, a: Action, k: DurableKey)
    requires k in s.durables && s.durables[k].deadline == None
    requires !(k in Step(s, a).durables && Step(s, a).durables[k] == s.durables[k])
    ensures
      || (a.Detach? && CanDetach(s, a.task, a.h) && s.cells[a.h].durable == Some(k)
          && Step(s, a).durables[k] == s.durables[k].(deadline := Some(a.now + s.durables[k].timeout)))
      || (a.Register? && a.h == s.durables[k].open)
      || (a.RemoveEntry? && CanRemoveEntry(s, a.task, a.h) && s.cells[a.h].acts[a.task].stage.key == k)
  {
    hide ShareModes.Release, ShareModes.Acquire, ShareModes.Transfer;
  }

  /** Teardown leaves a handle to the durable table exactly when it is flagged and
      an entry of its key is there that has not expired; it closes every other. */
  lemma ProbeVerdict(s: State, t: TaskId, h: Open, now: int)
    requires CanProbe(s, t, h)
    ensures var s' := Step(s, Probe(t, h, now));
      var c := s.cells[h];
      s'.cells[h].acts[t] ==
        if c.durable.Some? && c.durable.value in s.durables
           && (s.durables[c.durable.value].deadline == None || now <= s.durables[c.durable.value].deadline.value)
        then Leaving else Disposing(DropShare, Drop)
  {
  }
}
