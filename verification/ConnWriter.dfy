/** The outbound queue of a connection: any number of producers, the one writer
    goroutine and shutdown, as a machine whose steps are single operations on
    the channel, the atomic counter and the flags. */
module ConnWriter {
  import Sums

  type TaskId = nat

  const QUEUE_DEPTH: nat := 1024
  const QUEUE_BYTES: nat := 64 * 1024 * 1024

  /** One frame; each call of send has its own. */
  datatype Frame = Frame(task: TaskId, size: nat)

  datatype Outcome = Sent | WriterClosed | QueueFull

  /** Where a send stands. */
  datatype Stage =
    | Checked(frame: Frame)
    | Over(frame: Frame)
    | Reserved(frame: Frame)
    | Undoing(frame: Frame, full: bool)
    | Stalling
    | Closing
    | Returned(outcome: Outcome)

  datatype Writer =
    | Idle
    | Flushing
    | Polling
    | Taken(frame: Frame, flushing: bool)
    | Writing(frame: Frame, flushing: bool)
    | Broken
    | Stopped

  /** enqueued and handed record what went into the channel and to the socket. */
  datatype State = State(
    queue: seq<Frame>,
    queued: int,
    closed: bool,
    discard: bool,
    sends: map<TaskId, Stage>,
    writer: Writer,
    enqueued: seq<Frame>,
    handed: seq<Frame>)

  const INITIAL: State := State([], 0, false, false, map[], Idle, [], [])

  datatype Action =
    | Begin(t: TaskId, size: nat)
    | Reserve(t: TaskId)
    | Enqueue(t: TaskId)
    | SeeClosed(t: TaskId)
    | SeeFull(t: TaskId)
    | Undo(t: TaskId)
    | Discard(t: TaskId)
    | Shut(t: TaskId)
    | Dequeue
    | StartFlush
    | CheckDiscard
    | Poll
    | Subtract
    | WriteOk
    | WriteFails
    | ShutBroken
    | Close
    | DrainTimeout

  function At(s: State, t: TaskId, stage: Stage): State { s.(sends := s.sends[t := stage]) }

  predicate In(s: State, t: TaskId) { t in s.sends }

  /** Add the frame to the counter, and look at the sum. */
  function DoReserve(s: State, t: TaskId): State
    requires In(s, t) && s.sends[t].Checked?
  {
    var f := s.sends[t].frame;
    At(s.(queued := s.queued + f.size), t, if s.queued + f.size > QUEUE_BYTES then Over(f) else Reserved(f))
  }

  function DoEnqueue(s: State, t: TaskId): State
    requires In(s, t) && s.sends[t].Reserved?
  {
    var f := s.sends[t].frame;
    At(s.(queue := s.queue + [f], enqueued := s.enqueued + [f]), t, Returned(Sent))
  }

  function DoUndo(s: State, t: TaskId): State
    requires In(s, t) && (s.sends[t].Over? || s.sends[t].Undoing?)
  {
    var stage := s.sends[t];
    At(s.(queued := s.queued - stage.frame.size), t, if stage.Over? || stage.full then Stalling else Returned(WriterClosed))
  }

  function Step(s: State, a: Action): State {
    match a
    case Begin(t, size) =>
      if t in s.sends then s
      else if size == 0 then At(s, t, Returned(Sent))
      else if s.closed then At(s, t, Returned(WriterClosed))
      else At(s, t, Checked(Frame(t, size)))
    case Reserve(t) => if In(s, t) && s.sends[t].Checked? then DoReserve(s, t) else s
    case Enqueue(t) => if In(s, t) && s.sends[t].Reserved? && |s.queue| < QUEUE_DEPTH then DoEnqueue(s, t) else s
    case SeeClosed(t) => if In(s, t) && s.sends[t].Reserved? && s.closed then At(s, t, Undoing(s.sends[t].frame, false)) else s
    case SeeFull(t) =>
      if In(s, t) && s.sends[t].Reserved? && !s.closed && |s.queue| >= QUEUE_DEPTH then At(s, t, Undoing(s.sends[t].frame, true)) else s
    case Undo(t) => if In(s, t) && (s.sends[t].Over? || s.sends[t].Undoing?) then DoUndo(s, t) else s
    case Discard(t) => if In(s, t) && s.sends[t].Stalling? then At(s.(discard := true), t, Closing) else s
    case Shut(t) => if In(s, t) && s.sends[t].Closing? then At(s.(closed := true), t, Returned(QueueFull)) else s
    case Dequeue => if s.writer.Idle? && s.queue != [] then s.(writer := Taken(s.queue[0], false), queue := s.queue[1..]) else s
    case StartFlush => if s.writer.Idle? && s.closed then s.(writer := Flushing) else s
    case CheckDiscard => if s.writer.Flushing? then s.(writer := if s.discard then Stopped else Polling) else s
    case Poll =>
      if !s.writer.Polling? then s
      else if s.queue != [] then s.(writer := Taken(s.queue[0], true), queue := s.queue[1..])
      else s.(writer := Stopped)
    case Subtract =>
      if s.writer.Taken? then s.(writer := Writing(s.writer.frame, s.writer.flushing), queued := s.queued - s.writer.frame.size) else s
    case WriteOk =>
      if s.writer.Writing?
      then s.(handed := s.handed + [s.writer.frame], writer := if s.writer.flushing then Flushing else Idle) else s
    case WriteFails => if s.writer.Writing? then s.(handed := s.handed + [s.writer.frame], discard := true, writer := Broken) else s
    case ShutBroken => if s.writer.Broken? then s.(closed := true, writer := Stopped) else s
    case Close => s.(closed := true)
    case DrainTimeout => if s.closed then s.(discard := true) else s
  }

  function Reach(acts: seq<Action>): State {
    if acts == [] then INITIAL else Step(Reach(acts[..|acts| - 1]), acts[|acts| - 1])
  }

  // ---- order ----

  /** The frame the writer has taken and not yet handed over. */
  function InHand(w: Writer): seq<Frame> { if w.Taken? || w.Writing? then [w.frame] else [] }

  ghost predicate OrderOk(s: State) { s.enqueued == s.handed + InHand(s.writer) + s.queue }

  lemma OrderStep(s: State, a: Action)
    requires OrderOk(s)
    ensures OrderOk(Step(s, a))
  {
  }

  /** A send has put its frame into the channel exactly when it returned so. */
  predicate StageOk(s: State, t: TaskId)
    requires t in s.sends
  {
    (s.sends[t].Checked? || s.sends[t].Over? || s.sends[t].Reserved? || s.sends[t].Undoing? ==> s.sends[t].frame.task == t)
  }

  ghost predicate OnceOk(s: State) {
    && (forall t :: t in s.sends ==> StageOk(s, t))
    && (forall i :: 0 <= i < |s.enqueued| ==> s.enqueued[i].task in s.sends && s.sends[s.enqueued[i].task] == Returned(Sent))
    && (forall i, j :: 0 <= i < j < |s.enqueued| ==> s.enqueued[i].task != s.enqueued[j].task)
  }

  lemma OnceStep(s: State, a: Action)
    requires OnceOk(s)
    ensures OnceOk(Step(s, a))
  {
    var s' := Step(s, a);
    forall t | t in s'.sends ensures StageOk(s', t) { assert t in s.sends ==> StageOk(s, t); }
  }

  // ---- bytes ----

  function Bytes(fs: seq<Frame>): nat { if fs == [] then 0 else Bytes(fs[..|fs| - 1]) + fs[|fs| - 1].size }

  /** What a send has added to the counter and neither enqueued nor taken back. */
  function Owed(stage: Stage): nat { if stage.Over? || stage.Reserved? || stage.Undoing? then stage.frame.size else 0 }

  /** What a send has had accepted and not yet enqueued. */
  function Accepted(stage: Stage): nat { if stage.Reserved? then stage.frame.size else 0 }

  function Unsubtracted(w: Writer): nat { if w.Taken? then w.frame.size else 0 }

  ghost predicate BytesOk(s: State) {
    && s.queued == Bytes(s.queue) + Sums.Sum(s.sends, Owed) + Unsubtracted(s.writer)
    && Bytes(s.queue) + Sums.Sum(s.sends, Accepted) <= QUEUE_BYTES
    && |s.queue| <= QUEUE_DEPTH
  }

  lemma BytesAppend(fs: seq<Frame>, f: Frame)
    ensures Bytes(fs + [f]) == Bytes(fs) + f.size
  {
    assert (fs + [f])[..|fs|] == fs;
  }

  lemma {:induction false} BytesTail(fs: seq<Frame>)
    requires fs != []
    ensures Bytes(fs) == fs[0].size + Bytes(fs[1..])
  {
    if |fs| > 1 {
      BytesTail(fs[..|fs| - 1]);
      assert fs[..|fs| - 1][1..] == fs[1..][..|fs| - 2];
    }
  }

  lemma {:induction false} AcceptedOwed(sends: map<TaskId, Stage>)
    ensures Sums.Sum(sends, Accepted) <= Sums.Sum(sends, Owed)
    decreases |sends|
  {
    if sends != map[] {
      var t :| t in sends;
      Sums.SumWithout(sends, Accepted, t);
      Sums.SumWithout(sends, Owed, t);
      AcceptedOwed(sends - {t});
    }
  }

  lemma SendBytes(s: State, a: Action)
    requires BytesOk(s) && (a.Begin? || a.Reserve? || a.Enqueue? || a.SeeClosed? || a.SeeFull? || a.Undo? || a.Discard? || a.Shut?)
    ensures BytesOk(Step(s, a))
  {
    var s' := Step(s, a);
    if s' != s {
      Sums.SumUpdate(s.sends, Owed, a.t, s'.sends[a.t]);
      Sums.SumUpdate(s.sends, Accepted, a.t, s'.sends[a.t]);
      AcceptedOwed(s'.sends);
      if a.Enqueue? { BytesAppend(s.queue, s.sends[a.t].frame); }
    }
  }

  lemma WriterBytes(s: State, a: Action)
    requires BytesOk(s) && !(a.Begin? || a.Reserve? || a.Enqueue? || a.SeeClosed? || a.SeeFull? || a.Undo? || a.Discard? || a.Shut?)
    ensures BytesOk(Step(s, a))
  {
    if s.queue != [] { BytesTail(s.queue); }
  }

  // ---- every run ----

  lemma {:induction false} RunKeeps(acts: seq<Action>)
    ensures OrderOk(Reach(acts)) && OnceOk(Reach(acts)) && BytesOk(Reach(acts))
  {
    if acts != [] {
      hide Step, OrderOk, OnceOk, BytesOk;
      var s, a := Reach(acts[..|acts| - 1]), acts[|acts| - 1];
      RunKeeps(acts[..|acts| - 1]);
      OrderStep(s, a);
      OnceStep(s, a);
      if a.Begin? || a.Reserve? || a.Enqueue? || a.SeeClosed? || a.SeeFull? || a.Undo? || a.Discard? || a.Shut? {
        SendBytes(s, a);
      } else {
        WriterBytes(s, a);
      }
    }
  }

  /** The frames handed to the socket are a prefix of the order in which they
      were enqueued, and no frame is handed over twice. */
  lemma HandedInOrder(acts: seq<Action>)
    ensures var s := Reach(acts);
      && |s.handed| <= |s.enqueued| && s.handed == s.enqueued[..|s.handed|]
      && forall i, j :: 0 <= i < j < |s.handed| ==> s.handed[i] != s.handed[j]
  {
    hide Step;
    RunKeeps(acts);
    var s := Reach(acts);
    assert forall i :: 0 <= i < |s.handed| ==> s.handed[i] == s.enqueued[i];
  }

  /** The counter is the bytes in the queue, those of sends still under way and
      those of the frame just taken; what was accepted never exceeds the budget. */
  lemma CounterExact(acts: seq<Action>)
    ensures var s := Reach(acts);
      && s.queued == Bytes(s.queue) + Sums.Sum(s.sends, Owed) + Unsubtracted(s.writer)
      && Bytes(s.queue) + Sums.Sum(s.sends, Accepted) <= 67_108_864 && |s.queue| <= 1024
  {
    hide Step;
    RunKeeps(acts);
  }

  lemma {:induction false} NothingOwed(sends: map<TaskId, Stage>)
    requires forall t :: t in sends ==> sends[t].Returned?
    ensures Sums.Sum(sends, Owed) == 0
    decreases |sends|
  {
    if sends != map[] {
      var t :| t in sends;
      Sums.SumWithout(sends, Owed, t);
      NothingOwed(sends - {t});
    }
  }

  /** At rest the counter is the bytes in the queue, and nothing leaks: every
      frame whose send succeeded was handed over or is still queued. */
  lemma NothingLeaks(acts: seq<Action>)
    requires forall t :: t in Reach(acts).sends ==> Reach(acts).sends[t].Returned?
    requires Reach(acts).writer.Idle? || Reach(acts).writer.Stopped?
    ensures var s := Reach(acts); s.queued == Bytes(s.queue) && s.enqueued == s.handed + s.queue
  {
    hide Step;
    RunKeeps(acts);
    var s := Reach(acts);
    NothingOwed(s.sends);
    assert s.handed + [] == s.handed;
  }

  // ---- an orderly end ----

  /** A broken socket is marked before the writer stops for it. */
  ghost predicate BrokenOk(s: State) { s.writer.Broken? ==> s.discard }

  lemma {:induction false} RunBroken(acts: seq<Action>)
    ensures BrokenOk(Reach(acts))
  {
    if acts != [] { RunBroken(acts[..|acts| - 1]); }
  }

  /** The writer stops only when the connection is closed or its socket broken,
      and unless the backlog is to be discarded it has by then handed over every
      frame that was enqueued. */
  lemma StopsDrained(acts: seq<Action>, a: Action)
    requires !Reach(acts).writer.Stopped? && Step(Reach(acts), a).writer.Stopped?
    ensures var s := Reach(acts);
      && Step(s, a).closed
      && (s.discard || (s.queue == [] && s.handed == s.enqueued))
  {
    RunBroken(acts);
    RunKeeps(acts);
    FlushesWhenClosed(acts);
    var s := Reach(acts);
    assert s.handed + [] == s.handed;
  }

  lemma {:induction false} FlushesWhenClosed(acts: seq<Action>)
    ensures var s := Reach(acts); Flushes(s.writer) ==> s.closed
  {
    if acts != [] { FlushesWhenClosed(acts[..|acts| - 1]); }
  }

  predicate Flushes(w: Writer) { w.Flushing? || w.Polling? || ((w.Taken? || w.Writing?) && w.flushing) }

  /** A send is taken up exactly while the connection is open, accepted exactly
      when it fits the budget, and refused otherwise. */
  lemma SendVerdict(s: State, t: TaskId, size: nat)
    requires t !in s.sends && size > 0
    ensures Step(s, Begin(t, size)).sends[t] == if s.closed then Returned(WriterClosed) else Checked(Frame(t, size))
    ensures var s1 := Step(Step(s, Begin(t, size)), Reserve(t));
      !s.closed ==> s1.sends[t] == if s.queued + size <= 67_108_864 then Reserved(Frame(t, size)) else Over(Frame(t, size))
  {
  }
}
