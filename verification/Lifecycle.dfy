/** The life of a file handle across connections, sessions and the durable
    table, as a machine of atomic steps. Every step is one locked region of the
    server, or a local action of one goroutine joined to its next locked region.

    A goroutine that took several handles out of a session releases them one by
    one; here each of them proceeds on its own, which allows every order the
    server can produce and more. */
module Lifecycle {
  import opened Handles
  import opened Seqs
  import ShareModes
  import opened Durable
  import Sessions

  /** Who may reach a handle. A cell records its place for the proof; no step
      reads it. */
  datatype Holder = InSession(sid: SessionId) | InFlight(task: TaskId) | InTable(key: DurableKey) | Gone

  /** Why a handle is disposed of; Bare is a CLOSE that holds no lock. */
  datatype Why = Abandon | Close | Teardown | Drop | Bare

  /** How far a disposal has come: the reservation, a look at IsDurable, the
      durable entry of the key that was seen, the descriptor. */
  datatype Stage = DropShare | ReadFlag | DropEntry(key: DurableKey) | ShutFile

  /** What a goroutine that owns a handle outside any map is doing with it. */
  datatype Act =
    | Building
    | Reserved
    | Pending(drop: bool)
    | Dropping
    | Leaving
    | Disposing(stage: Stage, why: Why)
    | Saved(key: DurableKey, sid: SessionId)
    | SavedClosed(key: DurableKey, sid: SessionId)
    | Reopened(key: DurableKey)

  /** What a message that names a published handle is doing with it. */
  datatype Use =
    | Waiting(closing: bool)
    | Reading
    | Running(on: Open)
    | Closing
    | Answering(want: Option<DurableKey>)

  /** One Open: how often its descriptor was closed, its IsDurable flag with the
      key, the reclaim that set the flag and has yet to register the handle, and
      the goroutines that own it or use it. */
  datatype Cell = Cell(
    closes: nat,
    durable: Option<DurableKey>,
    claim: Option<TaskId>,
    acts: map<TaskId, Act>,
    uses: map<TaskId, Use>,
    place: Holder)

  datatype State = State(
    cells: map<Open, Cell>,
    sessions: map<SessionId, Sessions.State>,
    durables: Entries,
    shares: ShareModes.Table,
    missed: map<TaskId, (SessionId, FileId)>)

  const INITIAL: State := State(map[], map[], map[], ShareModes.EMPTY, map[])

  // ---- Open.mu, read off the goroutines that hold it ----

  predicate LocksAct(a: Act) { a.Dropping? || a.Leaving? || (a.Disposing? && !a.why.Bare?) }

  predicate LocksExclusive(u: Use) { u.Closing? || u.Answering? }

  predicate LocksUse(u: Use) { LocksExclusive(u) || u.Reading? || u.Running? }

  predicate NoActLock(c: Cell) { forall t :: t in c.acts ==> !LocksAct(c.acts[t]) }

  predicate Unheld(c: Cell) { NoActLock(c) && forall t :: t in c.uses ==> !LocksUse(c.uses[t]) }

  predicate NoWriter(c: Cell) { NoActLock(c) && forall t :: t in c.uses ==> !LocksExclusive(c.uses[t]) }

  // ---- the steps ----

  function WithAct(c: Cell, t: TaskId, a: Act): Cell { c.(acts := c.acts[t := a]) }

  function WithUse(c: Cell, t: TaskId, u: Use): Cell { c.(uses := c.uses[t := u]) }

  function Unused(c: Cell, t: TaskId): Cell { c.(uses := c.uses - {t}) }

  function Set(s: State, h: Open, c: Cell): State { s.(cells := s.cells[h := c]) }

  predicate Acting(s: State, t: TaskId, h: Open) { h in s.cells && t in s.cells[h].acts }

  predicate Using(s: State, t: TaskId, h: Open) { h in s.cells && t in s.cells[h].uses }

  function ActOf(s: State, t: TaskId, h: Open): Act
    requires Acting(s, t, h)
  {
    s.cells[h].acts[t]
  }

  function UseOf(s: State, t: TaskId, h: Open): Use
    requires Using(s, t, h)
  {
    s.cells[h].uses[t]
  }

  /** CREATE has a descriptor and a FileID nobody else has. */
  function Built(t: TaskId): Cell { Cell(0, None, None, map[t := Building], map[], InFlight(t)) }

  ghost predicate CanBuild(s: State, h: Open) {
    h !in s.cells && h.session in s.sessions && forall g :: g in s.cells ==> g.fileId != h.fileId
  }

  function DoBuild(s: State, t: TaskId, h: Open): State { Set(s, h, Built(t)) }

  predicate CanReserve(s: State, t: TaskId, h: Open) { Acting(s, t, h) && ActOf(s, t, h).Building? }

  function DoReserve(s: State, t: TaskId, h: Open, mode: ShareModes.Mode, live: set<Open>): State
    requires CanReserve(s, t, h)
  {
    var (shares, ok) := ShareModes.Acquire(s.shares, h.file, h, mode, live);
    (if ok then Set(s, h, WithAct(s.cells[h], t, Reserved)) else s).(shares := shares)
  }

  /** The file's identity could not be read, so no deny mode is reserved. */
  function DoReserveNothing(s: State, t: TaskId, h: Open): State
    requires CanReserve(s, t, h)
  {
    Set(s, h, WithAct(s.cells[h], t, Reserved))
  }

  /** The last Close, after which the goroutine forgets the handle. */
  function Shut(c: Cell): Cell { c.(closes := c.closes + 1, acts := map[], place := Gone) }

  function DoRefuse(s: State, t: TaskId, h: Open): State
    requires CanReserve(s, t, h)
  {
    Set(s, h, Shut(s.cells[h]))
  }

  predicate CanPublish(s: State, t: TaskId, h: Open, want: Option<DurableKey>) {
    && Acting(s, t, h) && (ActOf(s, t, h).Reserved? || ActOf(s, t, h).Reopened?)
    && (ActOf(s, t, h).Reopened? ==> want == Some(ActOf(s, t, h).key))
    && h.session in s.sessions && Unheld(s.cells[h])
  }

  /** AddOpen for a reclaimed handle, AddOpenToTree for a new one. */
  predicate Admits(s: State, t: TaskId, h: Open)
    requires Acting(s, t, h) && h.session in s.sessions
  {
    var sess := s.sessions[h.session];
    if ActOf(s, t, h).Reopened? then Sessions.CanAdd(sess) else Sessions.CanAddToTree(sess, h.tree)
  }

  function Published(c: Cell, t: TaskId, sid: SessionId, want: Option<DurableKey>): Cell {
    c.(acts := c.acts - {t}, uses := c.uses[t := Answering(want)], place := InSession(sid))
  }

  /** Open.mu is taken before AddOpen and kept until the response is built. */
  function DoPublish(s: State, t: TaskId, h: Open, want: Option<DurableKey>): State
    requires CanPublish(s, t, h, want)
  {
    var sess := s.sessions[h.session];
    if Admits(s, t, h) then
      Set(s, h, Published(s.cells[h], t, h.session, want)).(sessions := s.sessions[h.session := Sessions.WithOpen(sess, h)])
    else
      Set(s, h, WithAct(s.cells[h], t, Disposing(DropShare, Abandon)))
  }

  /** releaseOpen: the reservation and then the descriptor. */
  function Discard(s: State, h: Open): State
    requires h in s.cells
  {
    Set(s, h, Shut(s.cells[h])).(shares := ShareModes.Release(s.shares, h))
  }

  /** The registration is decided, and so is the flag. */
  function Settled(c: Cell, t: TaskId, durable: Option<DurableKey>): Cell {
    WithUse(c, t, Answering(None)).(durable := durable, claim := None)
  }

  predicate CanRegister(s: State, t: TaskId, h: Open, timeout: int) {
    && Using(s, t, h) && UseOf(s, t, h).Answering? && UseOf(s, t, h).want.Some? && timeout > 0
    && var k := UseOf(s, t, h).want.value; k in s.durables ==> s.durables[k].open in s.cells
  }

  function DoRegister(s: State, t: TaskId, h: Open, timeout: int, share: string, user: string): State
    requires CanRegister(s, t, h, timeout)
  {
    var k := UseOf(s, t, h).want.value;
    var out := Registering(s.durables, k, h, timeout, share, user);
    var s1 := if out.released == {} then s else Discard(s, s.durables[k].open);
    Set(s1, h, Settled(s1.cells[h], t, if out.ok then Some(k) else None)).(durables := out.entries)
  }

  /** A reclaim registers before it answers. */
  predicate CanAnswer(s: State, t: TaskId, h: Open) {
    Using(s, t, h) && UseOf(s, t, h).Answering? && s.cells[h].claim != Some(t)
  }

  /** A message is over, or found nothing to do: it lets go of the handle. */
  function DoForget(s: State, t: TaskId, h: Open): State
    requires Using(s, t, h)
  {
    Set(s, h, Unused(s.cells[h], t))
  }

  predicate CanLookup(s: State, t: TaskId, sid: SessionId, f: FileId) {
    && sid in s.sessions && f in s.sessions[sid].opens
    && s.sessions[sid].opens[f] in s.cells && t !in s.cells[s.sessions[sid].opens[f]].uses
  }

  /** The dispatcher finds the handle a message names and waits for its lock. */
  function DoLookup(s: State, t: TaskId, sid: SessionId, f: FileId, closing: bool): State
    requires CanLookup(s, t, sid, f)
  {
    var h := s.sessions[sid].opens[f];
    Set(s, h, WithUse(s.cells[h], t, Waiting(closing)))
  }

  predicate CanLock(s: State, t: TaskId, h: Open, closing: bool) {
    && Using(s, t, h) && UseOf(s, t, h) == Waiting(closing)
    && (if closing then Unheld(s.cells[h]) else NoWriter(s.cells[h]))
  }

  function DoLock(s: State, t: TaskId, h: Open, closing: bool): State
    requires CanLock(s, t, h, closing)
  {
    Set(s, h, WithUse(s.cells[h], t, if closing then Closing else Reading))
  }

  predicate CanResolve(s: State, t: TaskId, h: Open) {
    Using(s, t, h) && UseOf(s, t, h).Reading? && h.session in s.sessions
  }

  /** The handler looks the FileID up again, in the same session, under the lock. */
  function DoResolve(s: State, t: TaskId, h: Open): State
    requires CanResolve(s, t, h)
  {
    var opens := s.sessions[h.session].opens;
    if h.fileId in opens then Set(s, h, WithUse(s.cells[h], t, Running(opens[h.fileId]))) else DoForget(s, t, h)
  }

  predicate CanFinish(s: State, t: TaskId, h: Open) { Using(s, t, h) && UseOf(s, t, h).Running? }

  function Taken(c: Cell, t: TaskId, a: Act): Cell { c.(acts := c.acts[t := a], place := InFlight(t)) }

  predicate CanTakeOpen(s: State, t: TaskId, h: Open) {
    && Using(s, t, h) && UseOf(s, t, h).Closing? && h.session in s.sessions
    && var opens := s.sessions[h.session].opens; h.fileId in opens ==> opens[h.fileId] in s.cells
  }

  /** CLOSE removes the handle from the map and so becomes its owner. */
  function DoTakeOpen(s: State, t: TaskId, h: Open): State
    requires CanTakeOpen(s, t, h)
  {
    var sess := s.sessions[h.session];
    var s1 := DoForget(s, t, h);
    if h.fileId in sess.opens then
      var g := sess.opens[h.fileId];
      Set(s1, g, Taken(s1.cells[g], t, Disposing(DropShare, Close)))
        .(sessions := s.sessions[h.session := Sessions.Removed(sess, h.fileId)])
    else s1
  }

  /** Handles swept out of a session's map become the sweeper's to release. */
  function TakeSet(s: State, t: TaskId, hs: set<Open>, drop: bool): State {
    s.(cells := map h | h in s.cells :: if h in hs then Taken(s.cells[h], t, Pending(drop)) else s.cells[h])
  }

  function DoTakeTree(s: State, t: TaskId, sid: SessionId, tree: TreeId): State
    requires sid in s.sessions
  {
    var sess := s.sessions[sid];
    TakeSet(s, t, set f | f in Sessions.OnTree(sess, tree) :: sess.opens[f], false)
      .(sessions := s.sessions[sid := Sessions.TreeRemoved(sess, tree)])
  }

  /** LOGOFF and a superseding reconnect release; connection teardown drops. */
  function DoTakeAll(s: State, t: TaskId, sid: SessionId, drop: bool): State
    requires sid in s.sessions
  {
    TakeSet(s, t, Sessions.Values(s.sessions[sid].opens), drop).(sessions := s.sessions[sid := Sessions.EMPTIED])
  }

  predicate CanLockPending(s: State, t: TaskId, h: Open) {
    Acting(s, t, h) && ActOf(s, t, h).Pending? && Unheld(s.cells[h])
  }

  function DoLockPending(s: State, t: TaskId, h: Open): State
    requires CanLockPending(s, t, h)
  {
    Set(s, h, WithAct(s.cells[h], t, if ActOf(s, t, h).drop then Dropping else Disposing(DropShare, Teardown)))
  }

  predicate CanProbe(s: State, t: TaskId, h: Open) { Acting(s, t, h) && ActOf(s, t, h).Dropping? }

  function DoProbe(s: State, t: TaskId, h: Open, now: int): State
    requires CanProbe(s, t, h)
  {
    var held := s.cells[h].durable.Some? && Holding(s.durables, s.cells[h].durable.value, now);
    Set(s, h, WithAct(s.cells[h], t, if held then Leaving else Disposing(DropShare, Drop)))
  }

  predicate CanDetach(s: State, t: TaskId, h: Open) {
    Acting(s, t, h) && ActOf(s, t, h).Leaving? && s.cells[h].durable.Some?
  }

  function DoDetach(s: State, t: TaskId, h: Open, now: int): State
    requires CanDetach(s, t, h)
  {
    var k := s.cells[h].durable.value;
    Set(s, h, s.cells[h].(acts := s.cells[h].acts - {t}, place := InTable(k))).(durables := Detaching(s.durables, k, now))
  }

  predicate CanDispose(s: State, t: TaskId, h: Open, stage: Stage) {
    Acting(s, t, h) && ActOf(s, t, h).Disposing? && ActOf(s, t, h).stage == stage
  }

  function DoReleaseShare(s: State, t: TaskId, h: Open): State
    requires CanDispose(s, t, h, DropShare)
  {
    var why := ActOf(s, t, h).why;
    Set(s, h, WithAct(s.cells[h], t, Disposing(if why.Abandon? || why.Drop? then ShutFile else ReadFlag, why)))
      .(shares := ShareModes.Release(s.shares, h))
  }

  function DoCheckFlag(s: State, t: TaskId, h: Open): State
    requires CanDispose(s, t, h, ReadFlag)
  {
    var c := s.cells[h];
    Set(s, h, WithAct(c, t, Disposing(if c.durable.Some? then DropEntry(c.durable.value) else ShutFile, ActOf(s, t, h).why)))
  }

  predicate CanRemoveEntry(s: State, t: TaskId, h: Open) {
    Acting(s, t, h) && ActOf(s, t, h).Disposing? && ActOf(s, t, h).stage.DropEntry?
  }

  /** Remove goes by the key alone. */
  function DoRemoveEntry(s: State, t: TaskId, h: Open): State
    requires CanRemoveEntry(s, t, h)
  {
    Set(s, h, WithAct(s.cells[h], t, Disposing(ShutFile, ActOf(s, t, h).why)))
      .(durables := s.durables - {ActOf(s, t, h).stage.key})
  }

  function DoCloseFile(s: State, t: TaskId, h: Open): State
    requires CanDispose(s, t, h, ShutFile)
  {
    Set(s, h, Shut(s.cells[h]))
  }

  predicate CanExpire(s: State, k: DurableKey, now: int) {
    k in s.durables && s.durables[k].Expired(now) && s.durables[k].open in s.cells
  }

  function DoExpire(s: State, k: DurableKey, now: int): State
    requires CanExpire(s, k, now)
  {
    Discard(s, s.durables[k].open).(durables := s.durables - {k})
  }

  predicate CanReclaim(s: State, k: DurableKey, sid: SessionId) {
    sid in s.sessions && (k in s.durables ==> s.durables[k].open in s.cells)
  }

  function DoReclaim(s: State, t: TaskId, k: DurableKey, sid: SessionId, share: string, user: string, now: int): State
    requires CanReclaim(s, k, sid)
  {
    var out := Reconnecting(s.durables, k, share, user, now);
    (if out.taken.Some? then Set(s, out.taken.value, Taken(s.cells[out.taken.value], t, Saved(k, sid)))
     else if out.released != {} then Discard(s, s.durables[k].open)
     else s).(durables := out.entries)
  }

  predicate CanCloseSaved(s: State, t: TaskId, h: Open) { Acting(s, t, h) && ActOf(s, t, h).Saved? }

  function DoCloseSaved(s: State, t: TaskId, h: Open): State
    requires CanCloseSaved(s, t, h)
  {
    var a := ActOf(s, t, h);
    Set(s, h, WithAct(s.cells[h], t, SavedClosed(a.key, a.sid)).(closes := s.cells[h].closes + 1))
  }

  predicate CanReclaimFail(s: State, t: TaskId, h: Open) { Acting(s, t, h) && ActOf(s, t, h).SavedClosed? }

  function Forgotten(c: Cell): Cell { c.(acts := map[], place := Gone) }

  function DoReclaimFail(s: State, t: TaskId, h: Open): State
    requires CanReclaimFail(s, t, h)
  {
    Set(s, h, Forgotten(s.cells[h])).(shares := ShareModes.Release(s.shares, h))
  }

  function Replacement(t: TaskId, key: DurableKey): Cell {
    Cell(0, Some(key), Some(t), map[t := Reopened(key)], map[], InFlight(t))
  }

  predicate CanReopen(s: State, t: TaskId, h: Open, again: Open) {
    && Acting(s, t, h) && ActOf(s, t, h).SavedClosed?
    && again !in s.cells && again.fileId == h.fileId && again.session == ActOf(s, t, h).sid
  }

  /** The file is open again: a new Open under the old FileID, on whatever file
      the path names now, inherits the reservation. It is flagged durable before
      it is registered. */
  function DoReopen(s: State, t: TaskId, h: Open, again: Open): State
    requires CanReopen(s, t, h, again)
  {
    Set(Set(s, h, Forgotten(s.cells[h])), again, Replacement(t, ActOf(s, t, h).key))
      .(shares := ShareModes.Transfer(s.shares, h, again))
  }

  /** The handle that a FileID names by the time its CLOSE looks again. */
  function Named(s: State, t: TaskId): Option<Open> {
    if t in s.missed && s.missed[t].0 in s.sessions && s.missed[t].1 in s.sessions[s.missed[t].0].opens
    then Some(s.sessions[s.missed[t].0].opens[s.missed[t].1])
    else None
  }

  predicate CanTakeUnlocked(s: State, t: TaskId) { Named(s, t).Some? && Named(s, t).value in s.cells }

  /** A CLOSE whose dispatch lookup found no handle reaches RemoveOpen without
      holding Open.mu, and finds one that was published in between. */
  function DoTakeUnlocked(s: State, t: TaskId): State
    requires CanTakeUnlocked(s, t)
  {
    var (sid, f) := s.missed[t];
    var g := Named(s, t).value;
    Set(s, g, Taken(s.cells[g], t, Disposing(DropShare, Bare)))
      .(sessions := s.sessions[sid := Sessions.Removed(s.sessions[sid], f)], missed := s.missed - {t})
  }

  // ---- runs ----

  datatype Action =
    | StartSession(sid: SessionId)
    | AddTree(sid: SessionId, tree: TreeId)
    | Build(task: TaskId, h: Open)
    | Reserve(task: TaskId, h: Open, mode: ShareModes.Mode, live: set<Open>)
    | ReserveNothing(task: TaskId, h: Open)
    | Refuse(task: TaskId, h: Open)
    | Publish(task: TaskId, h: Open, want: Option<DurableKey>)
    | Register(task: TaskId, h: Open, timeout: int, share: string, user: string)
    | Answered(task: TaskId, h: Open)
    | Lookup(task: TaskId, sid: SessionId, f: FileId, closing: bool)
    | Lock(task: TaskId, h: Open, closing: bool)
    | Resolve(task: TaskId, h: Open)
    | Finish(task: TaskId, h: Open)
    | TakeOpen(task: TaskId, h: Open)
    | TakeTree(task: TaskId, sid: SessionId, tree: TreeId)
    | TakeAll(task: TaskId, sid: SessionId, drop: bool)
    | LockPending(task: TaskId, h: Open)
    | Probe(task: TaskId, h: Open, now: int)
    | Detach(task: TaskId, h: Open, now: int)
    | ReleaseShare(task: TaskId, h: Open)
    | CheckFlag(task: TaskId, h: Open)
    | RemoveEntry(task: TaskId, h: Open)
    | CloseFile(task: TaskId, h: Open)
    | Expire(key: DurableKey, now: int)
    | Reclaim(task: TaskId, key: DurableKey, sid: SessionId, share: string, user: string, now: int)
    | CloseSaved(task: TaskId, h: Open)
    | ReclaimFails(task: TaskId, h: Open)
    | Reopen(task: TaskId, h: Open, again: Open)
    | MissLookup(task: TaskId, sid: SessionId, f: FileId)
    | TakeUnlocked(task: TaskId)

  /** The state after an action; an action that is not possible changes nothing. */
  ghost function Step(s: State, a: Action): State {
    match a
    case StartSession(sid) => if sid !in s.sessions then s.(sessions := s.sessions[sid := Sessions.FRESH]) else s
    case AddTree(sid, tree) =>
      if sid in s.sessions then s.(sessions := s.sessions[sid := s.sessions[sid].(trees := s.sessions[sid].trees + {tree})]) else s
    case Build(t, h) => if CanBuild(s, h) then DoBuild(s, t, h) else s
    case Reserve(t, h, mode, live) => if CanReserve(s, t, h) then DoReserve(s, t, h, mode, live) else s
    case ReserveNothing(t, h) => if CanReserve(s, t, h) then DoReserveNothing(s, t, h) else s
    case Refuse(t, h) => if CanReserve(s, t, h) then DoRefuse(s, t, h) else s
    case Publish(t, h, want) => if CanPublish(s, t, h, want) then DoPublish(s, t, h, want) else s
    case Register(t, h, timeout, share, user) =>
      if CanRegister(s, t, h, timeout) then DoRegister(s, t, h, timeout, share, user) else s
    case Answered(t, h) => if CanAnswer(s, t, h) then DoForget(s, t, h) else s
    case Lookup(t, sid, f, closing) => if CanLookup(s, t, sid, f) then DoLookup(s, t, sid, f, closing) else s
    case Lock(t, h, closing) => if CanLock(s, t, h, closing) then DoLock(s, t, h, closing) else s
    case Resolve(t, h) => if CanResolve(s, t, h) then DoResolve(s, t, h) else s
    case Finish(t, h) => if CanFinish(s, t, h) then DoForget(s, t, h) else s
    case TakeOpen(t, h) => if CanTakeOpen(s, t, h) then DoTakeOpen(s, t, h) else s
    case TakeTree(t, sid, tree) => if sid in s.sessions then DoTakeTree(s, t, sid, tree) else s
    case TakeAll(t, sid, drop) => if sid in s.sessions then DoTakeAll(s, t, sid, drop) else s
    case LockPending(t, h) => if CanLockPending(s, t, h) then DoLockPending(s, t, h) else s
    case Probe(t, h, now) => if CanProbe(s, t, h) then DoProbe(s, t, h, now) else s
    case Detach(t, h, now) => if CanDetach(s, t, h) then DoDetach(s, t, h, now) else s
    case ReleaseShare(t, h) => if CanDispose(s, t, h, DropShare) then DoReleaseShare(s, t, h) else s
    case CheckFlag(t, h) => if CanDispose(s, t, h, ReadFlag) then DoCheckFlag(s, t, h) else s
    case RemoveEntry(t, h) => if CanRemoveEntry(s, t, h) then DoRemoveEntry(s, t, h) else s
    case CloseFile(t, h) => if CanDispose(s, t, h, ShutFile) then DoCloseFile(s, t, h) else s
    case Expire(k, now) => if CanExpire(s, k, now) then DoExpire(s, k, now) else s
    case Reclaim(t, k, sid, share, user, now) =>
      if CanReclaim(s, k, sid) then DoReclaim(s, t, k, sid, share, user, now) else s
    case CloseSaved(t, h) => if CanCloseSaved(s, t, h) then DoCloseSaved(s, t, h) else s
    case ReclaimFails(t, h) => if CanReclaimFail(s, t, h) then DoReclaimFail(s, t, h) else s
    case Reopen(t, h, again) => if CanReopen(s, t, h, again) then DoReopen(s, t, h, again) else s
    case MissLookup(t, sid, f) =>
      if sid in s.sessions && f !in s.sessions[sid].opens && t !in s.missed then s.(missed := s.missed[t := (sid, f)]) else s
    case TakeUnlocked(t) => if CanTakeUnlocked(s, t) then DoTakeUnlocked(s, t) else s
  }

  /** The state a run of the server reaches. */
  ghost function Reach(acts: seq<Action>): State {
    if acts == [] then INITIAL else Step(Reach(acts[..|acts| - 1]), acts[|acts| - 1])
  }

  // ---- what an unlocked CLOSE may take ----

  /** Somebody is working with the descriptor. */
  predicate Busy(c: Cell) { exists t :: t in c.uses && (c.uses[t].Running? || c.uses[t].Answering?) }

  /** The CREATE behind the handle has yet to register it as durable. */
  predicate Unregistered(c: Cell) { exists t :: t in c.uses && c.uses[t].Answering? && c.uses[t].want.Some? }

  /** What is to be relied on: owners and closes, the durable entries, or also
      every descriptor in use. */
  datatype Promise = Promise(owners: bool, entries: bool, descriptors: bool)

  const OWNERS: Promise := Promise(true, false, false)
  const ENTRIES: Promise := Promise(true, true, false)
  const DESCRIPTORS: Promise := Promise(true, true, true)

  /** A CLOSE without the lock may take this handle. */
  predicate MayTake(pr: Promise, c: Cell) {
    (pr.owners ==> c.claim == None) && (pr.entries ==> !Unregistered(c)) && (pr.descriptors ==> !Busy(c))
  }

  predicate Allowed(pr: Promise, s: State, a: Action) {
    a.TakeUnlocked? && CanTakeUnlocked(s, a.task) ==> MayTake(pr, s.cells[Named(s, a.task).value])
  }

  ghost predicate Guarded(pr: Promise, acts: seq<Action>) {
    acts != [] ==> Guarded(pr, acts[..|acts| - 1]) && Allowed(pr, Reach(acts[..|acts| - 1]), acts[|acts| - 1])
  }
}
