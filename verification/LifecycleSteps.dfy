/** The inductive invariant of the handle machine, and a proof for every step. */
module LifecycleSteps {
  import opened Handles
  import opened Seqs
  import ShareModes
  import opened Durable
  import Sessions
  import opened Lifecycle

  // ---- the invariant ----

  predicate EntryAct(a: Act) {
    a.Pending? || a.Dropping? || a.Leaving? || (a.Disposing? && !a.stage.ShutFile? && !a.why.Abandon? && !a.why.Drop?)
  }

  predicate SlotAct(a: Act) { !a.Building? && (a.Disposing? ==> a.stage.DropShare?) }

  predicate DeadAct(a: Act) {
    (a.Pending? && a.drop) || a.Dropping? || a.Leaving? || a.Saved? || a.SavedClosed?
  }

  /** The handle is not durable: it is new, or teardown found no entry. */
  predicate PlainAct(a: Act) { a.Building? || a.Reserved? || (a.Disposing? && a.why.Drop?) }

  /** A reclaim has the handle, and has not published it. */
  predicate UnpublishedAct(a: Act) { a.Reopened? || (a.Disposing? && a.why.Abandon?) }

  predicate BareAct(a: Act) { a.Disposing? && a.why.Bare? }

  predicate DropAct(a: Act) { a.Disposing? && a.stage.DropEntry? }

  predicate SavedAct(a: Act) { a.Saved? || a.SavedClosed? }

  predicate Flying(c: Cell) { c.place.InFlight? && c.acts.Keys == {c.place.task} }

  function Current(c: Cell): Act
    requires Flying(c)
  {
    c.acts[c.place.task]
  }

  /** The handle's durable entry, if it has one, is in the table and attached. */
  predicate EntryHeld(c: Cell) { c.place.InSession? || (Flying(c) && EntryAct(Current(c))) }

  /** The handle may hold a share-mode reservation. */
  predicate SlotDue(c: Cell) { c.place.InSession? || c.place.InTable? || (Flying(c) && SlotAct(Current(c))) }

  /** A message may be using the descriptor. */
  predicate Usable(c: Cell) { c.place.InSession? || (Flying(c) && Current(c).Pending?) }

  /** A CLOSE without the lock has the handle, or it is gone. */
  predicate Bared(c: Cell) { c.place.Gone? || (Flying(c) && BareAct(Current(c))) }

  /** Past the point where a disposal would remove its entry. */
  predicate Stale(c: Cell) { c.place.Gone? || (Flying(c) && BareAct(Current(c)) && Current(c).stage.ShutFile?) }

  predicate NeedsDead(c: Cell) { c.place.InTable? || (Flying(c) && DeadAct(Current(c))) }

  predicate UseOk(pr: Promise, h: Open, c: Cell, t: TaskId)
    requires t in c.uses
  {
    var u := c.uses[t];
    && (u.Running? ==> u.on == h && (Usable(c) || (Bared(c) && !pr.descriptors)))
    && (u.Answering? ==> Usable(c) || (Bared(c) && !pr.descriptors && (u.want.Some? ==> !pr.entries)))
    && (u.Answering? && u.want.Some? ==>
          if c.durable.None? then c.claim.None? && !(Flying(c) && DropAct(Current(c))) else c.claim == Some(t) && c.durable == u.want)
    && (LocksUse(u) && Flying(c) ==> !LocksAct(Current(c)))
  }

  predicate LocksOk(uses: map<TaskId, Use>) {
    forall t, u :: t in uses && u in uses && t != u && LocksExclusive(uses[t]) ==> !LocksUse(uses[u])
  }

  /** A flag set before its registration belongs to a reclaim on its way there. */
  predicate ClaimOk(pr: Promise, c: Cell) {
    c.claim.Some? ==>
      && c.durable.Some?
      && (|| c.place.Gone? || (Flying(c) && UnpublishedAct(Current(c)))
          || (c.claim.value in c.uses && c.uses[c.claim.value] == Answering(c.durable)))
      && (pr.owners && Flying(c) ==> !BareAct(Current(c)))
  }

  predicate CellOk(pr: Promise, h: Open, c: Cell) {
    && (if c.place.InFlight? then Flying(c) else c.acts == map[])
    && c.closes == (if c.place.Gone? || (Flying(c) && Current(c).SavedClosed?) then 1 else 0)
    && (Flying(c) && PlainAct(Current(c)) ==> c.durable == None)
    && (Flying(c) && Current(c).Reopened? ==> c.durable == Some(Current(c).key) && c.claim == Some(c.place.task))
    && (Flying(c) && DropAct(Current(c)) ==>
          c.durable == Some(Current(c).stage.key) || (c.durable == None && BareAct(Current(c)) && !pr.owners))
    && (Flying(c) && Current(c).Disposing? && (Current(c).stage.ReadFlag? || Current(c).stage.DropEntry?) ==>
          !Current(c).why.Abandon? && !Current(c).why.Drop?)
    && (c.place.InSession? ==> c.place.sid == h.session)
    && (c.place.InTable? ==> c.durable == Some(c.place.key) && c.claim == None)
    && ClaimOk(pr, c)
    && (forall t :: t in c.uses ==> UseOk(pr, h, c, t))
    && LocksOk(c.uses)
  }

  predicate SessionDead(s: State, sid: SessionId) { sid in s.sessions && s.sessions[sid].dead }

  /** A session's map names handles that are its own; a dead one names none. */
  predicate SessionOk(s: State, sid: SessionId)
    requires sid in s.sessions
  {
    && (s.sessions[sid].dead ==> s.sessions[sid].opens == map[])
    && forall f :: f in s.sessions[sid].opens ==>
      var h := s.sessions[sid].opens[f];
      h.fileId == f && h in s.cells && s.cells[h].place == InSession(sid)
  }

  predicate EntryOk(pr: Promise, s: State, k: DurableKey)
    requires k in s.durables
  {
    var h := s.durables[k].open;
    && h in s.cells && s.cells[h].durable == Some(k) && s.cells[h].claim == None
    && (if s.durables[k].Attached() then EntryHeld(s.cells[h]) || (Stale(s.cells[h]) && !pr.entries) else s.cells[h].place == InTable(k))
  }

  /** What a handle's cell says is what the shared maps say. */
  predicate Linked(s: State, h: Open)
    requires h in s.cells
  {
    var c := s.cells[h];
    && (c.place.InSession? ==>
          && c.place.sid in s.sessions && h.fileId in s.sessions[c.place.sid].opens
          && s.sessions[c.place.sid].opens[h.fileId] == h)
    && (c.durable.Some? && c.claim.None? && (EntryHeld(c) || c.place.InTable?) ==>
          && c.durable.value in s.durables && s.durables[c.durable.value].open == h
          && s.durables[c.durable.value].Attached() == EntryHeld(c))
    && (NeedsDead(c) ==> SessionDead(s, h.session))
    && h.session in s.sessions
    && (Flying(c) && SavedAct(Current(c)) ==> Current(c).sid in s.sessions)
  }

  ghost predicate IdsOk(s: State) {
    forall g, h :: g in s.cells && h in s.cells && g != h && g.fileId == h.fileId && s.cells[h].place != Gone ==>
      s.cells[g].place == Gone && SessionDead(s, g.session)
  }

  ghost predicate SharesOk(s: State) {
    && ShareModes.Valid(s.shares)
    && forall h :: h in s.shares.owners ==> h in s.cells && SlotDue(s.cells[h])
  }

  ghost predicate Inv(pr: Promise, s: State) {
    && (forall h :: h in s.cells ==> CellOk(pr, h, s.cells[h]))
    && (forall h :: h in s.cells ==> Linked(s, h))
    && (forall sid :: sid in s.sessions ==> SessionOk(s, sid))
    && (forall k :: k in s.durables ==> EntryOk(pr, s, k))
    && SharesOk(s)
    && IdsOk(s)
  }

  // ---- one step at a time: what changes, and what is left alone ----

  ghost predicate CellsFrame(pr: Promise, s: State, s': State, hs: set<Open>) {
    && (forall g :: g in s.cells ==> g in s'.cells)
    && (forall g :: g in s'.cells && g !in hs ==> g in s.cells && s'.cells[g] == s.cells[g])
    && (forall h :: h in s'.cells && h in hs ==> CellOk(pr, h, s'.cells[h]) && Linked(s', h))
  }

  predicate SessionFrame(s: State, s': State, hs: set<Open>, sid: SessionId)
    requires sid in s'.sessions
  {
    var opens := s'.sessions[sid].opens;
    && (s'.sessions[sid].dead ==> opens == map[])
    && (sid in s.sessions && s.sessions[sid].dead ==> s'.sessions[sid].dead)
    && (forall f :: f in opens ==>
          if opens[f] in hs then opens[f].fileId == f && opens[f] in s'.cells && s'.cells[opens[f]].place == InSession(sid)
          else sid in s.sessions && f in s.sessions[sid].opens && s.sessions[sid].opens[f] == opens[f])
    && (forall f :: sid in s.sessions && f in s.sessions[sid].opens && s.sessions[sid].opens[f] !in hs ==>
          f in opens && opens[f] == s.sessions[sid].opens[f])
  }

  ghost predicate SessionsFrame(s: State, s': State, hs: set<Open>) {
    && (forall sid :: sid in s.sessions ==> sid in s'.sessions)
    && (forall sid :: sid in s'.sessions ==> SessionFrame(s, s', hs, sid))
  }

  ghost predicate EntriesFrame(pr: Promise, s: State, s': State, hs: set<Open>) {
    && (forall k :: k in s'.durables ==>
          if s'.durables[k].open in hs then EntryOk(pr, s', k) else k in s.durables && s.durables[k] == s'.durables[k])
    && (forall k :: k in s.durables && s.durables[k].open !in hs ==> k in s'.durables && s'.durables[k] == s.durables[k])
  }

  ghost predicate SharesFrame(s: State, s': State, hs: set<Open>) {
    && ShareModes.Valid(s'.shares)
    && forall h :: h in s'.shares.owners ==> if h in hs then h in s'.cells && SlotDue(s'.cells[h]) else h in s.shares.owners
  }

  /** Only a handle that is new, or whose FileID a reclaim hands on, can start to
      matter to another handle's identity. */
  ghost predicate IdsFrame(s: State, s': State, hs: set<Open>) {
    forall g, h :: g in s'.cells && h in s'.cells && (g in hs || h in hs) && g != h && g.fileId == h.fileId && s'.cells[h].place != Gone ==>
      s'.cells[g].place == Gone && SessionDead(s', g.session)
  }

  ghost predicate Changes(pr: Promise, s: State, s': State, hs: set<Open>) {
    && CellsFrame(pr, s, s', hs)
    && SessionsFrame(s, s', hs)
    && EntriesFrame(pr, s, s', hs)
    && SharesFrame(s, s', hs)
    && IdsFrame(s, s', hs)
  }

  lemma ChangesKeepLinks(pr: Promise, s: State, s': State, hs: set<Open>, h: Open)
    requires Inv(pr, s) && Changes(pr, s, s', hs) && h in s'.cells
    ensures Linked(s', h)
  {
    if h !in hs {
      assert Linked(s, h);
      assert h.session in s.sessions ==> SessionFrame(s, s', hs, h.session);
    }
  }

  lemma ChangesKeepSessions(pr: Promise, s: State, s': State, hs: set<Open>, sid: SessionId)
    requires Inv(pr, s) && Changes(pr, s, s', hs) && sid in s'.sessions
    ensures SessionOk(s', sid)
  {
    assert SessionFrame(s, s', hs, sid);
    assert sid in s.sessions ==> SessionOk(s, sid);
  }

  lemma ChangesKeepEntries(pr: Promise, s: State, s': State, hs: set<Open>, k: DurableKey)
    requires Inv(pr, s) && Changes(pr, s, s', hs) && k in s'.durables
    ensures EntryOk(pr, s', k)
  {
    assert k in s.durables ==> EntryOk(pr, s, k);
  }

  lemma ChangesKeepIds(pr: Promise, s: State, s': State, hs: set<Open>)
    requires Inv(pr, s) && Changes(pr, s, s', hs)
    ensures IdsOk(s')
  {
    forall g, h | g in s'.cells && h in s'.cells && g != h && g.fileId == h.fileId && s'.cells[h].place != Gone
      ensures s'.cells[g].place == Gone && SessionDead(s', g.session)
    {
      if g !in hs && h !in hs {
        assert s'.cells[g] == s.cells[g] && s'.cells[h] == s.cells[h];
        assert SessionFrame(s, s', hs, g.session);
      }
    }
  }

  /** If the changed handles are in order and everything else is left alone, the
      invariant holds of the new state. */
  lemma ChangesKeep(pr: Promise, s: State, s': State, hs: set<Open>)
    requires Inv(pr, s) && Changes(pr, s, s', hs)
    ensures Inv(pr, s')
  {
    forall h | h in s'.cells ensures Linked(s', h) { ChangesKeepLinks(pr, s, s', hs, h); }
    forall sid | sid in s'.sessions ensures SessionOk(s', sid) { ChangesKeepSessions(pr, s, s', hs, sid); }
    forall k | k in s'.durables ensures EntryOk(pr, s', k) { ChangesKeepEntries(pr, s, s', hs, k); }
    ChangesKeepIds(pr, s, s', hs);
  }

  // What the invariant says of one thing at a time.

  lemma InvCell(pr: Promise, s: State, h: Open)
    requires Inv(pr, s) && h in s.cells
    ensures CellOk(pr, h, s.cells[h]) && Linked(s, h)
  {
  }

  lemma InvSession(pr: Promise, s: State, sid: SessionId)
    requires Inv(pr, s) && sid in s.sessions
    ensures SessionOk(s, sid)
  {
  }

  lemma InvEntry(pr: Promise, s: State, k: DurableKey)
    requires Inv(pr, s) && k in s.durables
    ensures EntryOk(pr, s, k)
  {
  }

  /** Two handles with one FileID: the other one is gone, with its session. */
  lemma InvIds(pr: Promise, s: State, g: Open, h: Open)
    requires Inv(pr, s) && g in s.cells && h in s.cells && g != h && g.fileId == h.fileId && s.cells[h].place != Gone
    ensures s.cells[g].place == Gone && SessionDead(s, g.session)
  {
  }

  lemma InvShares(pr: Promise, s: State)
    requires Inv(pr, s)
    ensures SharesOk(s)
  {
  }

  // Frames for the tables a step on one handle does not touch.

  ghost predicate OneCell(s: State, s': State, h: Open) {
    h in s.cells && h in s'.cells && s'.cells == s.cells[h := s'.cells[h]]
  }

  lemma SameSessions(pr: Promise, s: State, s': State, h: Open)
    requires Inv(pr, s) && OneCell(s, s', h) && s'.sessions == s.sessions
    requires s.cells[h].place.InSession? ==> s'.cells[h].place == s.cells[h].place
    ensures SessionsFrame(s, s', {h})
  {
    forall sid | sid in s'.sessions ensures SessionFrame(s, s', {h}, sid) { InvSession(pr, s, sid); }
  }

  /** An entry that names the handle is still as it should be. */
  predicate EntryKept(c: Cell, c': Cell) {
    c.durable.Some? && c.claim.None? ==>
      && c'.durable == c.durable && c'.claim.None?
      && (EntryHeld(c) ==> EntryHeld(c')) && (Stale(c) ==> Stale(c'))
      && (c.place.InTable? ==> c'.place == c.place)
  }

  lemma SameEntries(pr: Promise, s: State, s': State, h: Open)
    requires Inv(pr, s) && OneCell(s, s', h) && s'.durables == s.durables
    requires EntryKept(s.cells[h], s'.cells[h])
    ensures EntriesFrame(pr, s, s', {h})
  {
    forall k | k in s'.durables && s'.durables[k].open == h ensures EntryOk(pr, s', k) { InvEntry(pr, s, k); }
  }

  lemma SameShares(pr: Promise, s: State, s': State, h: Open)
    requires Inv(pr, s) && OneCell(s, s', h) && s'.shares == s.shares
    requires SlotDue(s.cells[h]) ==> SlotDue(s'.cells[h])
    ensures SharesFrame(s, s', {h})
  {
    hide Inv, ShareModes.Valid;
    InvShares(pr, s);
  }

  lemma ReleasedShares(pr: Promise, s: State, s': State, h: Open)
    requires Inv(pr, s) && OneCell(s, s', h) && s'.shares == ShareModes.Release(s.shares, h)
    ensures SharesFrame(s, s', {h})
  {
    hide Inv, ShareModes.Valid;
    InvShares(pr, s);
    ShareModes.ReleaseValid(s.shares, h);
  }

  lemma KnownIds(pr: Promise, s: State, s': State, h: Open)
    requires Inv(pr, s) && OneCell(s, s', h) && SessionsFrame(s, s', {h})
    requires s.cells[h].place.Gone? ==> s'.cells[h].place.Gone?
    ensures IdsFrame(s, s', {h})
  {
    hide Inv;
    forall x, y | x in s'.cells && y in s'.cells && x != y && x.fileId == y.fileId && s'.cells[y].place != Gone
      ensures s'.cells[x].place == Gone && SessionDead(s', x.session)
    {
      InvIds(pr, s, x, y);
      assert SessionFrame(s, s', {h}, x.session);
    }
  }

  lemma OneCellKeeps(pr: Promise, s: State, s': State, h: Open)
    requires Inv(pr, s) && OneCell(s, s', h) && CellOk(pr, h, s'.cells[h]) && Linked(s', h)
    requires SessionsFrame(s, s', {h}) && EntriesFrame(pr, s, s', {h}) && SharesFrame(s, s', {h})
    requires s.cells[h].place.Gone? ==> s'.cells[h].place.Gone?
    ensures Inv(pr, s')
  {
    hide Inv, SessionsFrame, EntriesFrame, SharesFrame, IdsFrame;
    KnownIds(pr, s, s', h);
    ChangesKeep(pr, s, s', {h});
  }

  /** A step that touches one cell and no table. */
  lemma CellStep(pr: Promise, s: State, h: Open, c: Cell)
    requires Inv(pr, s) && h in s.cells && CellOk(pr, h, c)
    requires c.durable == s.cells[h].durable && c.claim == s.cells[h].claim && c.place == s.cells[h].place
    requires c.durable.Some? && c.claim.None? ==> EntryHeld(c) == EntryHeld(s.cells[h])
    requires Stale(s.cells[h]) ==> Stale(c)
    requires Flying(c) && SavedAct(Current(c)) ==> SavedAct(Current(s.cells[h])) && Current(c).sid == Current(s.cells[h]).sid
    requires SlotDue(s.cells[h]) ==> SlotDue(c)
    requires NeedsDead(c) ==> NeedsDead(s.cells[h])
    ensures Inv(pr, Set(s, h, c))
  {
    hide Inv, SessionsFrame, EntriesFrame, SharesFrame;
    var s' := Set(s, h, c);
    InvCell(pr, s, h);
    SameSessions(pr, s, s', h);
    SameEntries(pr, s, s', h);
    SameShares(pr, s, s', h);
    OneCellKeeps(pr, s, s', h);
  }

  // ---- every step keeps the invariant ----

  lemma SessionKeeps(pr: Promise, s: State, sid: SessionId, sess: Sessions.State)
    requires Inv(pr, s)
    requires if sid in s.sessions then sess == s.sessions[sid].(trees := sess.trees) else sess == Sessions.FRESH
    ensures Inv(pr, s.(sessions := s.sessions[sid := sess]))
  {
    var s' := s.(sessions := s.sessions[sid := sess]);
    forall id | id in s'.sessions ensures SessionFrame(s, s', {}, id) { assert id in s.sessions ==> SessionOk(s, id); }
    ChangesKeep(pr, s, s', {});
  }

  lemma BuildFrames(pr: Promise, s: State, t: TaskId, h: Open)
    requires Inv(pr, s) && CanBuild(s, h)
    ensures SessionsFrame(s, DoBuild(s, t, h), {h})
    ensures EntriesFrame(pr, s, DoBuild(s, t, h), {h})
    ensures SharesFrame(s, DoBuild(s, t, h), {h})
  {
    hide Inv, ShareModes.Valid;
    var s' := DoBuild(s, t, h);
    forall sid | sid in s'.sessions ensures SessionFrame(s, s', {h}, sid) { InvSession(pr, s, sid); }
    forall k | k in s.durables ensures EntryOk(pr, s, k) { InvEntry(pr, s, k); }
    InvShares(pr, s);
  }

  lemma BuildKeeps(pr: Promise, s: State, t: TaskId, h: Open)
    requires Inv(pr, s) && CanBuild(s, h)
    ensures Inv(pr, DoBuild(s, t, h))
  {
    hide Inv, SessionsFrame, EntriesFrame, SharesFrame;
    BuildFrames(pr, s, t, h);
    ChangesKeep(pr, s, DoBuild(s, t, h), {h});
  }

  lemma ReserveKeeps(pr: Promise, s: State, t: TaskId, h: Open, mode: ShareModes.Mode, live: set<Open>)
    requires Inv(pr, s) && CanReserve(s, t, h)
    ensures Inv(pr, DoReserve(s, t, h, mode, live))
  {
    hide Inv, SessionsFrame, EntriesFrame, ShareModes.Valid, ShareModes.Acquire;
    var s' := DoReserve(s, t, h, mode, live);
    InvCell(pr, s, h);
    InvShares(pr, s);
    ShareModes.AcquireOutcome(s.shares, h.file, h, mode, live);
    SameSessions(pr, s, s', h);
    SameEntries(pr, s, s', h);
    OneCellKeeps(pr, s, s', h);
  }

  lemma ReserveNothingKeeps(pr: Promise, s: State, t: TaskId, h: Open)
    requires Inv(pr, s) && CanReserve(s, t, h)
    ensures Inv(pr, DoReserveNothing(s, t, h))
  {
    hide Inv;
    InvCell(pr, s, h);
    CellStep(pr, s, h, WithAct(s.cells[h], t, Reserved));
  }

  /** The end of a handle that has nothing left but its descriptor. */
  lemma ShutKeeps(pr: Promise, s: State, t: TaskId, h: Open)
    requires Inv(pr, s) && Acting(s, t, h)
    requires ActOf(s, t, h).Building? || (ActOf(s, t, h).Disposing? && ActOf(s, t, h).stage.ShutFile?)
    ensures Inv(pr, Set(s, h, Shut(s.cells[h])))
  {
    hide Inv, SessionsFrame, EntriesFrame, SharesFrame;
    var s' := Set(s, h, Shut(s.cells[h]));
    InvCell(pr, s, h);
    SameSessions(pr, s, s', h);
    SameEntries(pr, s, s', h);
    SameShares(pr, s, s', h);
    OneCellKeeps(pr, s, s', h);
  }

  lemma PublishSessions(pr: Promise, s: State, h: Open, s': State)
    requires Inv(pr, s) && OneCell(s, s', h) && h.session in s.sessions && !s.sessions[h.session].dead
    requires s.cells[h].place.InFlight? && s'.cells[h].place == InSession(h.session)
    requires s'.sessions == s.sessions[h.session := Sessions.WithOpen(s.sessions[h.session], h)]
    ensures SessionsFrame(s, s', {h})
  {
    hide Inv;
    InvSession(pr, s, h.session);
    if h.fileId in s.sessions[h.session].opens {
      InvIds(pr, s, s.sessions[h.session].opens[h.fileId], h);
      assert false;
    }
    forall id | id in s'.sessions ensures SessionFrame(s, s', {h}, id) { InvSession(pr, s, id); }
  }

  lemma PublishKeeps(pr: Promise, s: State, t: TaskId, h: Open, want: Option<DurableKey>)
    requires Inv(pr, s) && CanPublish(s, t, h, want)
    ensures Inv(pr, DoPublish(s, t, h, want))
  {
    hide Inv, SessionsFrame, EntriesFrame, SharesFrame;
    var s' := DoPublish(s, t, h, want);
    InvCell(pr, s, h);
    if !Admits(s, t, h) {
      CellStep(pr, s, h, WithAct(s.cells[h], t, Disposing(DropShare, Abandon)));
    } else {
      PublishSessions(pr, s, h, s');
      SameEntries(pr, s, s', h);
      SameShares(pr, s, s', h);
      OneCellKeeps(pr, s, s', h);
    }
  }

  lemma ForgetKeeps(pr: Promise, s: State, t: TaskId, h: Open)
    requires Inv(pr, s) && Using(s, t, h) && (UseOf(s, t, h).Answering? ==> s.cells[h].claim != Some(t))
    ensures Inv(pr, DoForget(s, t, h))
  {
    hide Inv;
    InvCell(pr, s, h);
    CellStep(pr, s, h, Unused(s.cells[h], t));
  }

  lemma LookupKeeps(pr: Promise, s: State, t: TaskId, sid: SessionId, f: FileId, closing: bool)
    requires Inv(pr, s) && CanLookup(s, t, sid, f)
    ensures Inv(pr, DoLookup(s, t, sid, f, closing))
  {
    hide Inv;
    var h := s.sessions[sid].opens[f];
    InvCell(pr, s, h);
    CellStep(pr, s, h, WithUse(s.cells[h], t, Waiting(closing)));
  }

  lemma LockKeeps(pr: Promise, s: State, t: TaskId, h: Open, closing: bool)
    requires Inv(pr, s) && CanLock(s, t, h, closing)
    ensures Inv(pr, DoLock(s, t, h, closing))
  {
    hide Inv;
    InvCell(pr, s, h);
    CellStep(pr, s, h, WithUse(s.cells[h], t, if closing then Closing else Reading));
  }

  /** The second lookup of a FileID finds the handle the dispatcher locked, or
      none: no other handle of that FileID can be in the same session. */
  lemma LookupAgain(pr: Promise, s: State, h: Open)
    requires Inv(pr, s) && h in s.cells && h.session in s.sessions && h.fileId in s.sessions[h.session].opens
    ensures s.sessions[h.session].opens[h.fileId] == h
  {
    var g := s.sessions[h.session].opens[h.fileId];
    InvSession(pr, s, h.session);
    if g != h {
      InvIds(pr, s, h, g);
    }
  }

  lemma ResolveKeeps(pr: Promise, s: State, t: TaskId, h: Open)
    requires Inv(pr, s) && CanResolve(s, t, h)
    ensures Inv(pr, DoResolve(s, t, h))
  {
    hide Inv;
    if h.fileId in s.sessions[h.session].opens {
      LookupAgain(pr, s, h);
      InvSession(pr, s, h.session);
      InvCell(pr, s, h);
      CellStep(pr, s, h, WithUse(s.cells[h], t, Running(h)));
    } else {
      ForgetKeeps(pr, s, t, h);
    }
  }

  lemma TakeOpenKeeps(pr: Promise, s: State, t: TaskId, h: Open)
    requires Inv(pr, s) && CanTakeOpen(s, t, h)
    ensures Inv(pr, DoTakeOpen(s, t, h))
  {
    hide Inv, SessionsFrame, EntriesFrame, SharesFrame;
    var s' := DoTakeOpen(s, t, h);
    if h.fileId !in s.sessions[h.session].opens {
      ForgetKeeps(pr, s, t, h);
    } else {
      LookupAgain(pr, s, h);
      InvSession(pr, s, h.session);
      InvCell(pr, s, h);
      var c := Taken(Unused(s.cells[h], t), t, Disposing(DropShare, Close));
      assert s'.cells == s.cells[h := c];
      TakeOpenSessions(pr, s, h, s');
      SameEntries(pr, s, s', h);
      SameShares(pr, s, s', h);
      OneCellKeeps(pr, s, s', h);
    }
  }

  lemma TakeOpenSessions(pr: Promise, s: State, h: Open, s': State)
    requires Inv(pr, s) && OneCell(s, s', h) && h.session in s.sessions
    requires h.fileId in s.sessions[h.session].opens && s.sessions[h.session].opens[h.fileId] == h
    requires s'.sessions == s.sessions[h.session := Sessions.Removed(s.sessions[h.session], h.fileId)]
    ensures SessionsFrame(s, s', {h})
  {
    hide Inv;
    InvSession(pr, s, h.session);
    forall id | id in s'.sessions ensures SessionFrame(s, s', {h}, id) { InvSession(pr, s, id); }
  }

  /** What a CLOSE without the lock may take, for each promise: a message that has
      yet to resolve the FileID will not find the handle any more. */
  lemma TakeUnlockedKeeps(pr: Promise, s: State, t: TaskId)
    requires Inv(pr, s) && CanTakeUnlocked(s, t) && MayTake(pr, s.cells[Named(s, t).value])
    ensures Inv(pr, DoTakeUnlocked(s, t))
  {
    hide Inv, SessionsFrame, EntriesFrame, SharesFrame;
    var s', h := DoTakeUnlocked(s, t), Named(s, t).value;
    InvSession(pr, s, s.missed[t].0);
    InvCell(pr, s, h);
    TakeOpenSessions(pr, s, h, s');
    SameEntries(pr, s, s', h);
    SameShares(pr, s, s', h);
    OneCellKeeps(pr, s, s', h);
  }

  lemma LockPendingKeeps(pr: Promise, s: State, t: TaskId, h: Open)
    requires Inv(pr, s) && CanLockPending(s, t, h)
    ensures Inv(pr, DoLockPending(s, t, h))
  {
    hide Inv;
    InvCell(pr, s, h);
    CellStep(pr, s, h, DoLockPending(s, t, h).cells[h]);
  }

  /** A durable handle reaches teardown with its entry in the table, so Has
      answers true whatever the clock says. */
  lemma ProbeKeeps(pr: Promise, s: State, t: TaskId, h: Open, now: int)
    requires Inv(pr, s) && CanProbe(s, t, h)
    ensures Inv(pr, DoProbe(s, t, h, now))
    ensures s.cells[h].durable.Some? ==> DoProbe(s, t, h, now).cells[h].acts[t].Leaving?
  {
    hide Inv;
    InvCell(pr, s, h);
    CellStep(pr, s, h, DoProbe(s, t, h, now).cells[h]);
  }

  lemma DetachKeeps(pr: Promise, s: State, t: TaskId, h: Open, now: int)
    requires Inv(pr, s) && CanDetach(s, t, h)
    ensures Inv(pr, DoDetach(s, t, h, now))
  {
    hide Inv, SessionsFrame, EntriesFrame, SharesFrame;
    var s' := DoDetach(s, t, h, now);
    InvCell(pr, s, h);
    SameSessions(pr, s, s', h);
    SameShares(pr, s, s', h);
    EntryFrame(pr, s, s', h, s.cells[h].durable.value);
    OneCellKeeps(pr, s, s', h);
  }

  /** Only the handle's own entry changes, or goes. */
  lemma EntryFrame(pr: Promise, s: State, s': State, h: Open, k: DurableKey)
    requires Inv(pr, s) && OneCell(s, s', h) && k in s.durables && s.durables[k].open == h
    requires s'.durables == s.durables - {k} || (k in s'.durables && s'.durables == s.durables[k := s'.durables[k]] && s'.durables[k].open == h && EntryOk(pr, s', k))
    ensures EntriesFrame(pr, s, s', {h})
  {
    hide Inv;
    InvEntry(pr, s, k);
    forall j | j in s.durables && s.durables[j].open == h ensures j == k { InvEntry(pr, s, j); }
  }

  lemma ReleaseShareKeeps(pr: Promise, s: State, t: TaskId, h: Open)
    requires Inv(pr, s) && CanDispose(s, t, h, DropShare)
    ensures Inv(pr, DoReleaseShare(s, t, h))
  {
    hide Inv, SessionsFrame, EntriesFrame, SharesFrame;
    var s' := DoReleaseShare(s, t, h);
    InvCell(pr, s, h);
    SameSessions(pr, s, s', h);
    SameEntries(pr, s, s', h);
    ReleasedShares(pr, s, s', h);
    OneCellKeeps(pr, s, s', h);
  }

  lemma CheckFlagKeeps(pr: Promise, s: State, t: TaskId, h: Open)
    requires Inv(pr, s) && CanDispose(s, t, h, ReadFlag)
    ensures Inv(pr, DoCheckFlag(s, t, h))
  {
    hide Inv;
    InvCell(pr, s, h);
    CellStep(pr, s, h, DoCheckFlag(s, t, h).cells[h]);
  }

  /** The removal takes out no other handle's entry. */
  predicate Tidy(s: State, t: TaskId, h: Open)
    requires CanRemoveEntry(s, t, h)
  {
    var k := ActOf(s, t, h).stage.key;
    k in s.durables ==> s.durables[k].open == h
  }

  /** Where the owners are promised, every removal is tidy. */
  lemma RemovalTidy(pr: Promise, s: State, t: TaskId, h: Open)
    requires Inv(pr, s) && CanRemoveEntry(s, t, h) && pr.owners
    ensures Tidy(s, t, h)
  {
    hide Inv;
    InvCell(pr, s, h);
  }

  lemma RemoveEntryKeeps(pr: Promise, s: State, t: TaskId, h: Open)
    requires Inv(pr, s) && CanRemoveEntry(s, t, h) && Tidy(s, t, h) && (pr.entries ==> pr.owners)
    ensures Inv(pr, DoRemoveEntry(s, t, h))
  {
    hide Inv, SessionsFrame, EntriesFrame, SharesFrame;
    var s', k := DoRemoveEntry(s, t, h), ActOf(s, t, h).stage.key;
    InvCell(pr, s, h);
    SameSessions(pr, s, s', h);
    SameShares(pr, s, s', h);
    if k in s.durables {
      EntryFrame(pr, s, s', h, k);
    } else {
      assert s'.durables == s.durables;
      KeptStale(pr, s, s', h);
    }
    OneCellKeeps(pr, s, s', h);
  }

  /** The table is as it was, and the handle is past the removal of its entry. */
  lemma KeptStale(pr: Promise, s: State, s': State, h: Open)
    requires Inv(pr, s) && OneCell(s, s', h) && s'.durables == s.durables && !s.cells[h].place.InTable?
    requires s'.cells[h].durable == s.cells[h].durable && s'.cells[h].claim == s.cells[h].claim
    requires s.cells[h].durable.Some? && s.cells[h].claim.None? ==> Stale(s'.cells[h]) && !pr.entries
    ensures EntriesFrame(pr, s, s', {h})
  {
    forall k | k in s'.durables && s'.durables[k].open == h ensures EntryOk(pr, s', k) { InvEntry(pr, s, k); }
  }

  /** Expiry, eviction and a superseding registration: a detached handle is
      released and its entry leaves the table. */
  lemma EvictKeeps(pr: Promise, s: State, k: DurableKey)
    requires Inv(pr, s) && k in s.durables && !s.durables[k].Attached() && s.durables[k].open in s.cells
    ensures Inv(pr, Discard(s, s.durables[k].open).(durables := s.durables - {k}))
  {
    hide Inv, SessionsFrame, EntriesFrame, SharesFrame;
    var h := s.durables[k].open;
    var s' := Discard(s, h).(durables := s.durables - {k});
    InvEntry(pr, s, k);
    InvCell(pr, s, h);
    SameSessions(pr, s, s', h);
    EntryFrame(pr, s, s', h, k);
    ReleasedShares(pr, s, s', h);
    OneCellKeeps(pr, s, s', h);
  }

  lemma RegisterFresh(pr: Promise, s: State, t: TaskId, h: Open, k: DurableKey, e: DurableEntry)
    requires Inv(pr, s) && Using(s, t, h) && UseOf(s, t, h) == Answering(Some(k))
    requires k !in s.durables && e.open == h && e.Attached()
    ensures Inv(pr, Set(s, h, Settled(s.cells[h], t, Some(k))).(durables := s.durables[k := e]))
  {
    hide Inv, SessionsFrame, EntriesFrame, SharesFrame;
    var s' := Set(s, h, Settled(s.cells[h], t, Some(k))).(durables := s.durables[k := e]);
    InvCell(pr, s, h);
    SameSessions(pr, s, s', h);
    SameShares(pr, s, s', h);
    NewEntryFrame(pr, s, s', h, k);
    OneCellKeeps(pr, s, s', h);
  }

  /** A refused registration leaves a handle that is not durable. */
  lemma RegisterRefused(pr: Promise, s: State, t: TaskId, h: Open)
    requires Inv(pr, s) && Using(s, t, h) && UseOf(s, t, h).Answering? && UseOf(s, t, h).want.Some?
    ensures Inv(pr, Set(s, h, Settled(s.cells[h], t, None)))
  {
    hide Inv, SessionsFrame, EntriesFrame, SharesFrame;
    var s' := Set(s, h, Settled(s.cells[h], t, None));
    InvCell(pr, s, h);
    SameSessions(pr, s, s', h);
    SameEntries(pr, s, s', h);
    SameShares(pr, s, s', h);
    OneCellKeeps(pr, s, s', h);
  }

  lemma NewEntryFrame(pr: Promise, s: State, s': State, h: Open, k: DurableKey)
    requires Inv(pr, s) && OneCell(s, s', h) && k !in s.durables && (s.cells[h].durable == None || s.cells[h].claim != None)
    requires k in s'.durables && s'.durables == s.durables[k := s'.durables[k]] && s'.durables[k].open == h && EntryOk(pr, s', k)
    ensures EntriesFrame(pr, s, s', {h})
  {
    hide Inv;
    forall j | j in s.durables ensures s.durables[j].open != h { InvEntry(pr, s, j); }
  }

  lemma RegisterKeeps(pr: Promise, s: State, t: TaskId, h: Open, timeout: int, share: string, user: string)
    requires Inv(pr, s) && CanRegister(s, t, h, timeout)
    ensures Inv(pr, DoRegister(s, t, h, timeout, share, user))
  {
    hide Inv;
    var k := UseOf(s, t, h).want.value;
    InvCell(pr, s, h);
    if k !in s.durables {
      RegisterFresh(pr, s, t, h, k, DurableEntry(h, None, timeout, share, user));
    } else {
      InvEntry(pr, s, k);
      var g := s.durables[k].open;
      assert g != h;
      if s.durables[k].Attached() {
        RegisterRefused(pr, s, t, h);
        assert DoRegister(s, t, h, timeout, share, user) == Set(s, h, Settled(s.cells[h], t, None));
      } else {
        EvictKeeps(pr, s, k);
        var s1 := Discard(s, g).(durables := s.durables - {k});
        var e := DurableEntry(h, None, timeout, share, user);
        RegisterFresh(pr, s1, t, h, k, e);
        assert s1.durables[k := e] == s.durables[k := e];
        assert DoRegister(s, t, h, timeout, share, user)
            == Set(s1, h, Settled(s1.cells[h], t, Some(k))).(durables := s1.durables[k := e]);
      }
    }
  }

  lemma ReclaimKeeps(pr: Promise, s: State, t: TaskId, k: DurableKey, sid: SessionId, share: string, user: string, now: int)
    requires Inv(pr, s) && CanReclaim(s, k, sid)
    ensures Inv(pr, DoReclaim(s, t, k, sid, share, user, now))
  {
    hide Inv, SessionsFrame, EntriesFrame, SharesFrame;
    var s' := DoReclaim(s, t, k, sid, share, user, now);
    var out := Reconnecting(s.durables, k, share, user, now);
    if out.taken.Some? {
      var h := s.durables[k].open;
      InvEntry(pr, s, k);
      InvCell(pr, s, h);
      SameSessions(pr, s, s', h);
      SameShares(pr, s, s', h);
      EntryFrame(pr, s, s', h, k);
      OneCellKeeps(pr, s, s', h);
    } else if out.released != {} {
      EvictKeeps(pr, s, k);
    } else {
      assert s' == s;
    }
  }

  lemma CloseSavedKeeps(pr: Promise, s: State, t: TaskId, h: Open)
    requires Inv(pr, s) && CanCloseSaved(s, t, h)
    ensures Inv(pr, DoCloseSaved(s, t, h))
  {
    hide Inv;
    InvCell(pr, s, h);
    CellStep(pr, s, h, DoCloseSaved(s, t, h).cells[h]);
  }

  lemma ReclaimFailKeeps(pr: Promise, s: State, t: TaskId, h: Open)
    requires Inv(pr, s) && CanReclaimFail(s, t, h)
    ensures Inv(pr, DoReclaimFail(s, t, h))
  {
    hide Inv, SessionsFrame, EntriesFrame, SharesFrame;
    var s' := DoReclaimFail(s, t, h);
    InvCell(pr, s, h);
    SameSessions(pr, s, s', h);
    SameEntries(pr, s, s', h);
    ReleasedShares(pr, s, s', h);
    OneCellKeeps(pr, s, s', h);
  }

  lemma ReopenFrames(pr: Promise, s: State, t: TaskId, h: Open, again: Open)
    requires Inv(pr, s) && CanReopen(s, t, h, again)
    ensures SessionsFrame(s, DoReopen(s, t, h, again), {h, again})
    ensures EntriesFrame(pr, s, DoReopen(s, t, h, again), {h, again})
  {
    hide Inv;
    var s' := DoReopen(s, t, h, again);
    InvCell(pr, s, h);
    forall sid | sid in s'.sessions ensures SessionFrame(s, s', {h, again}, sid) { InvSession(pr, s, sid); }
    forall k | k in s.durables ensures s.durables[k].open !in {h, again} { InvEntry(pr, s, k); }
  }

  lemma ReopenShares(pr: Promise, s: State, t: TaskId, h: Open, again: Open)
    requires Inv(pr, s) && CanReopen(s, t, h, again)
    ensures SharesFrame(s, DoReopen(s, t, h, again), {h, again})
  {
    hide Inv, ShareModes.Valid;
    InvShares(pr, s);
    ShareModes.TransferValid(s.shares, h, again);
  }

  lemma ReopenIds(pr: Promise, s: State, t: TaskId, h: Open, again: Open)
    requires Inv(pr, s) && CanReopen(s, t, h, again)
    ensures IdsFrame(s, DoReopen(s, t, h, again), {h, again})
  {
    hide Inv;
    var s' := DoReopen(s, t, h, again);
    InvCell(pr, s, h);
    forall x, y | x in s'.cells && y in s'.cells && x != y && x.fileId == y.fileId && s'.cells[y].place != Gone && (x in {h, again} || y in {h, again})
      ensures s'.cells[x].place == Gone && SessionDead(s', x.session)
    {
      if y == again {
        if x != h {
          InvIds(pr, s, x, h);
        }
      } else {
        assert y != h;
        InvIds(pr, s, h, y);
        assert false;
      }
    }
  }

  lemma ReopenCells(pr: Promise, s: State, t: TaskId, h: Open, again: Open)
    requires Inv(pr, s) && CanReopen(s, t, h, again)
    ensures CellsFrame(pr, s, DoReopen(s, t, h, again), {h, again})
  {
    hide Inv, ShareModes.Transfer;
    var s' := DoReopen(s, t, h, again);
    InvCell(pr, s, h);
    assert CellOk(pr, h, s'.cells[h]) && Linked(s', h);
    assert CellOk(pr, again, s'.cells[again]) && Linked(s', again);
    hide CellOk, Linked;
  }

  lemma ReopenKeeps(pr: Promise, s: State, t: TaskId, h: Open, again: Open)
    requires Inv(pr, s) && CanReopen(s, t, h, again)
    ensures Inv(pr, DoReopen(s, t, h, again))
  {
    hide Inv, CellsFrame, SessionsFrame, EntriesFrame, SharesFrame, IdsFrame;
    ReopenCells(pr, s, t, h, again);
    ReopenFrames(pr, s, t, h, again);
    ReopenShares(pr, s, t, h, again);
    ReopenIds(pr, s, t, h, again);
    ChangesKeep(pr, s, DoReopen(s, t, h, again), {h, again});
  }

  /** A sweep of a session's map: exactly the handles of hs leave it. */
  ghost predicate Swept(s: State, sid: SessionId, hs: set<Open>, drop: bool, sess: Sessions.State) {
    && sid in s.sessions
    && var opens := s.sessions[sid].opens;
    && (forall h :: h in hs ==> h.fileId in opens && opens[h.fileId] == h)
    && (forall f :: f in sess.opens ==> f in opens && opens[f] == sess.opens[f] && opens[f] !in hs)
    && (forall f :: f in opens && opens[f] !in hs ==> f in sess.opens)
    && (drop || s.sessions[sid].dead ==> sess.dead)
    && (sess.dead ==> sess.opens == map[])
  }

  lemma SweepCells(pr: Promise, s: State, t: TaskId, sid: SessionId, hs: set<Open>, drop: bool, sess: Sessions.State, h: Open)
    requires Inv(pr, s) && Swept(s, sid, hs, drop, sess) && h in hs
    ensures h in s.cells && s.cells[h].place == InSession(sid)
    ensures var s' := TakeSet(s, t, hs, drop).(sessions := s.sessions[sid := sess]);
      && CellOk(pr, h, s'.cells[h]) && Linked(s', h)
      && Flying(s'.cells[h]) && Current(s'.cells[h]) == Pending(drop) && s'.cells[h].durable == s.cells[h].durable
  {
    hide Inv;
    InvSession(pr, s, sid);
    InvCell(pr, s, h);
  }

  lemma SweepFrames(pr: Promise, s: State, t: TaskId, sid: SessionId, hs: set<Open>, drop: bool, sess: Sessions.State)
    requires Inv(pr, s) && Swept(s, sid, hs, drop, sess)
    ensures var s' := TakeSet(s, t, hs, drop).(sessions := s.sessions[sid := sess]);
      SessionsFrame(s, s', hs) && EntriesFrame(pr, s, s', hs)
  {
    hide Inv, CellOk, Linked;
    var s' := TakeSet(s, t, hs, drop).(sessions := s.sessions[sid := sess]);
    forall h | h in hs
      ensures h in s.cells && s.cells[h].place == InSession(sid)
      ensures Flying(s'.cells[h]) && Current(s'.cells[h]) == Pending(drop) && s'.cells[h].durable == s.cells[h].durable
    { SweepCells(pr, s, t, sid, hs, drop, sess, h); }
    forall id | id in s'.sessions ensures SessionFrame(s, s', hs, id) { InvSession(pr, s, id); }
    forall k | k in s'.durables && s'.durables[k].open in hs ensures EntryOk(pr, s', k) { InvEntry(pr, s, k); }
  }

  lemma SweepIds(pr: Promise, s: State, t: TaskId, sid: SessionId, hs: set<Open>, drop: bool, sess: Sessions.State)
    requires Inv(pr, s) && Swept(s, sid, hs, drop, sess)
    ensures var s' := TakeSet(s, t, hs, drop).(sessions := s.sessions[sid := sess]);
      SharesFrame(s, s', hs) && IdsFrame(s, s', hs)
  {
    hide Inv, CellOk, Linked, ShareModes.Valid;
    var s' := TakeSet(s, t, hs, drop).(sessions := s.sessions[sid := sess]);
    forall h | h in hs
      ensures h in s.cells && s.cells[h].place == InSession(sid)
      ensures Flying(s'.cells[h]) && Current(s'.cells[h]) == Pending(drop) && s'.cells[h].durable == s.cells[h].durable
    { SweepCells(pr, s, t, sid, hs, drop, sess, h); }
    InvShares(pr, s);
    forall x, y | x in s'.cells && y in s'.cells && x != y && x.fileId == y.fileId && s'.cells[y].place != Gone
      ensures s'.cells[x].place == Gone && SessionDead(s', x.session)
    {
      InvIds(pr, s, x, y);
    }
  }

  lemma SweepKeeps(pr: Promise, s: State, t: TaskId, sid: SessionId, hs: set<Open>, drop: bool, sess: Sessions.State)
    requires Inv(pr, s) && Swept(s, sid, hs, drop, sess)
    ensures Inv(pr, TakeSet(s, t, hs, drop).(sessions := s.sessions[sid := sess]))
  {
    hide Inv, SessionsFrame, EntriesFrame, SharesFrame, IdsFrame, CellOk, Linked, Swept;
    var s' := TakeSet(s, t, hs, drop).(sessions := s.sessions[sid := sess]);
    forall h | h in hs ensures h in s.cells && CellOk(pr, h, s'.cells[h]) && Linked(s', h) { SweepCells(pr, s, t, sid, hs, drop, sess, h); }
    SweepFrames(pr, s, t, sid, hs, drop, sess);
    SweepIds(pr, s, t, sid, hs, drop, sess);
    ChangesKeep(pr, s, s', hs);
  }

  lemma TakeTreeKeeps(pr: Promise, s: State, t: TaskId, sid: SessionId, tree: TreeId)
    requires Inv(pr, s) && sid in s.sessions
    ensures Inv(pr, DoTakeTree(s, t, sid, tree))
  {
    hide Inv;
    var sess := s.sessions[sid];
    InvSession(pr, s, sid);
    SweepKeeps(pr, s, t, sid, set f | f in Sessions.OnTree(sess, tree) :: sess.opens[f], false, Sessions.TreeRemoved(sess, tree));
  }

  lemma TakeAllKeeps(pr: Promise, s: State, t: TaskId, sid: SessionId, drop: bool)
    requires Inv(pr, s) && sid in s.sessions
    ensures Inv(pr, DoTakeAll(s, t, sid, drop))
  {
    hide Inv;
    InvSession(pr, s, sid);
    SweepKeeps(pr, s, t, sid, Sessions.Values(s.sessions[sid].opens), drop, Sessions.EMPTIED);
  }

  lemma MissKeeps(pr: Promise, s: State, missed: map<TaskId, (SessionId, FileId)>)
    requires Inv(pr, s)
    ensures Inv(pr, s.(missed := missed))
  {
    var s' := s.(missed := missed);
    assert forall h :: h in s'.cells ==> Linked(s, h);
    assert forall sid :: sid in s'.sessions ==> SessionOk(s, sid);
    assert forall k :: k in s'.durables ==> EntryOk(pr, s, k);
  }
}
