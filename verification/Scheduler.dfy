/**
 The per-session command scheduler: submitters, posted drain tasks, inline drains and
 shutdown as threads that take one atomic step at a time over `pending_count_`,
 `drain_scheduled_`, `accepting_` and the two mailboxes. The executor is the number of
 drain tasks it has accepted and not started; a Post may fail at any time.
 */
module Scheduler {
  import opened MailboxSpec

  const MAX_COMMANDS_PER_DRAIN := 64
  const HEAD_PUBLICATION_RETRIES := 16

  datatype Box = Normal | Priority

  /** Where a thread is; the steps below say what it does next. */
  datatype Pc<C> =
    | Idle
    // TrySubmit, TrySubmitPriority
    | Announced(box: Box, command: C)
    | Admitted(box: Box, command: C)
    | Reserved(box: Box, pos: nat)
    | Refused
    // ScheduleDrainIfRequired
    | Scheduling
    | Claimed
    // DrainBatch
    | PopPriority(processed: nat, retries: nat)
    | PopNormal(processed: nat, retries: nat)
    | CheckPending(processed: nat, retries: nat)
    | Handling(box: Box, command: C, processed: nat)
    | Finishing(processed: nat)
    | Ending
    | Rechecking
    // CloseAdmission, then WaitIdle
    | AwaitPending
    | AwaitDrain
    | TornDown

  /** A mailbox, with every command it ever took (`log`) and those handed to the handler. */
  datatype Mail<C> = Mail(cells: Queue<C>, popped: nat, log: seq<C>, handled: seq<C>, capacity: nat)

  datatype State<C> = State(
    threads: seq<Pc<C>>, pending: nat, drainScheduled: bool, accepting: bool,
    normal: Mail<C>, priority: Mail<C>, tasks: nat)

  datatype Step<C> =
    | Submit(t: nat, box: Box, command: C)
    | CheckAdmission(t: nat)
    | PushFails(t: nat)
    | PushReserves(t: nat)
    | PushPublishes(t: nat)
    | ReleaseRefused(t: nat)
    | Exchange(t: nat)
    | PostSucceeds(t: nat)
    | PostFails(t: nat)
    | StartTask(t: nat)
    | TryPop(t: nat)
    | LoadPending(t: nat)
    | Handle(t: nat)
    | ReleaseHandled(t: nat)
    | EndDrain(t: nat)
    | Recheck(t: nat)
    | Close(t: nat)
    | SeeNoPending(t: nat)
    | SeeNoDrain(t: nat)

  function MailOf<C>(s: State<C>, box: Box): Mail<C> {
    if box.Normal? then s.normal else s.priority
  }

  function WithMail<C>(s: State<C>, box: Box, m: Mail<C>): State<C> {
    if box.Normal? then s.(normal := m) else s.(priority := m)
  }

  function At<C>(s: State<C>, t: nat, pc: Pc<C>): State<C>
    requires t < |s.threads|
  {
    s.(threads := s.threads[t := pc])
  }

  /** A refused push has seen all slots taken; that of the command last popped may not be free yet. */
  ghost predicate Full<C>(s: State<C>, box: Box) {
    |MailOf(s, box).cells| + Sum(s.threads, Hands(box)) >= MailOf(s, box).capacity
  }

  ghost predicate Enabled<C>(s: State<C>, e: Step<C>) {
    && e.t < |s.threads|
    && var pc := s.threads[e.t];
       match e
       case Submit(_, _, _) => pc.Idle?
       case CheckAdmission(_) => pc.Announced?
       case PushFails(_) => pc.Admitted? && Full(s, pc.box)
       case PushReserves(_) => pc.Admitted? && |MailOf(s, pc.box).cells| < MailOf(s, pc.box).capacity
       case PushPublishes(_) => pc.Reserved? && CanPublish(s, pc.box, pc.pos)
       case ReleaseRefused(_) => pc.Refused? && s.pending > 0
       case Exchange(_) => pc.Scheduling?
       case PostSucceeds(_) => pc.Claimed?
       case PostFails(_) => pc.Claimed?
       case StartTask(_) => pc.Idle? && s.tasks > 0
       case TryPop(_) => pc.PopPriority? || pc.PopNormal?
       case LoadPending(_) => pc.CheckPending?
       case Handle(_) => pc.Handling?
       case ReleaseHandled(_) => pc.Finishing? && s.pending > 0
       case EndDrain(_) => pc.Ending?
       case Recheck(_) => pc.Rechecking?
       case Close(_) => pc.Idle?
       case SeeNoPending(_) => pc.AwaitPending? && s.pending == 0
       case SeeNoDrain(_) => pc.AwaitDrain? && !s.drainScheduled
  }

  predicate Open<C>(m: Mail<C>, pos: nat) {
    m.popped <= pos < m.popped + |m.cells| && !m.cells[pos - m.popped].published
  }

  predicate CanPublish<C>(s: State<C>, box: Box, pos: nat) {
    Open(MailOf(s, box), pos)
  }

  function DoReserve<C>(s: State<C>, t: nat, box: Box, c: C): (r: State<C>)
    requires t < |s.threads|
    ensures |r.threads| == |s.threads| && r.threads == s.threads[t := r.threads[t]]
  {
    var m := MailOf(s, box);
    At(WithMail(s, box, m.(cells := Reserve(m.cells, c), log := m.log + [c])), t, Reserved(box, m.popped + |m.cells|))
  }

  function DoPublish<C>(s: State<C>, t: nat, box: Box, pos: nat): (r: State<C>)
    requires t < |s.threads| && CanPublish(s, box, pos)
    ensures |r.threads| == |s.threads| && r.threads == s.threads[t := r.threads[t]]
  {
    var m := MailOf(s, box);
    At(WithMail(s, box, m.(cells := Publish(m.cells, pos - m.popped))), t, Scheduling)
  }

  /** The priority mailbox is tried before every normal command. */
  function DoPop<C>(s: State<C>, t: nat, box: Box, processed: nat, retries: nat): (r: State<C>)
    requires t < |s.threads|
    ensures |r.threads| == |s.threads| && r.threads == s.threads[t := r.threads[t]]
  {
    var m := MailOf(s, box);
    if m.cells != [] && m.cells[0].published
    then At(WithMail(s, box, m.(cells := m.cells[1..], popped := m.popped + 1)), t,
            Handling(box, m.cells[0].value, processed))
    else At(s, t, if box.Priority? then PopNormal(processed, retries) else CheckPending(processed, retries))
  }

  function AfterCommand<C>(processed: nat): Pc<C> {
    if processed < MAX_COMMANDS_PER_DRAIN then PopPriority(processed, 0) else Ending
  }

  ghost function Next<C>(s: State<C>, e: Step<C>): State<C>
    requires Enabled(s, e)
  {
    var t, pc := e.t, s.threads[e.t];
    match e
    case Submit(_, box, c) => At(s.(pending := s.pending + 1), t, Announced(box, c))
    case CheckAdmission(_) => At(s, t, if s.accepting then Admitted(pc.box, pc.command) else Refused)
    case PushFails(_) => At(s, t, Refused)
    case PushReserves(_) => DoReserve(s, t, pc.box, pc.command)
    case PushPublishes(_) => DoPublish(s, t, pc.box, pc.pos)
    case ReleaseRefused(_) => At(s.(pending := s.pending - 1), t, Idle)
    case Exchange(_) => At(s.(drainScheduled := true), t, if s.drainScheduled then Idle else Claimed)
    case PostSucceeds(_) => At(s.(tasks := s.tasks + 1), t, Idle)
    case PostFails(_) => At(s, t, PopPriority(0, 0))
    case StartTask(_) => At(s.(tasks := s.tasks - 1), t, PopPriority(0, 0))
    case TryPop(_) => DoPop(s, t, if pc.PopPriority? then Priority else Normal, pc.processed, pc.retries)
    case LoadPending(_) =>
      At(s, t, if s.pending == 0 || pc.retries + 1 > HEAD_PUBLICATION_RETRIES then Ending
               else PopPriority(pc.processed, pc.retries + 1))
    case Handle(_) =>
      var m := MailOf(s, pc.box);
      At(WithMail(s, pc.box, m.(handled := m.handled + [pc.command])), t, Finishing(pc.processed + 1))
    case ReleaseHandled(_) => At(s.(pending := s.pending - 1), t, AfterCommand(pc.processed))
    case EndDrain(_) => At(s.(drainScheduled := false), t, Rechecking)
    case Recheck(_) => At(s, t, if s.pending > 0 then Scheduling else Idle)
    case Close(_) => At(s.(accepting := false), t, AwaitPending)
    case SeeNoPending(_) => At(s, t, AwaitDrain)
    case SeeNoDrain(_) => At(s, t, TornDown)
  }

  ghost predicate Initial<C>(s: State<C>) {
    && (forall t | 0 <= t < |s.threads| :: s.threads[t].Idle?)
    && s.pending == 0 && !s.drainScheduled && s.accepting && s.tasks == 0
    && s.normal == Mail([], 0, [], [], s.normal.capacity) && s.priority == Mail([], 0, [], [], s.priority.capacity)
    && s.normal.capacity > 0 && s.priority.capacity > 0
  }

  // ------------------------------------------------------------------
  // Counting threads
  // ------------------------------------------------------------------

  function Sum<C>(ts: seq<Pc<C>>, weight: Pc<C> -> nat): nat {
    if ts == [] then 0 else weight(ts[0]) + Sum(ts[1..], weight)
  }

  lemma {:induction false} SumUpdate<C>(ts: seq<Pc<C>>, t: nat, pc: Pc<C>, weight: Pc<C> -> nat)
    requires t < |ts|
    ensures Sum(ts[t := pc], weight) + weight(ts[t]) == Sum(ts, weight) + weight(pc)
    ensures weight(ts[t]) <= Sum(ts, weight)
    decreases |ts|
  {
    if t == 0 {
      assert ts[t := pc][1..] == ts[1..];
    } else {
      assert ts[t := pc][1..] == ts[1..][t - 1 := pc];
      SumUpdate(ts[1..], t - 1, pc, weight);
    }
  }

  lemma {:induction false} SumZero<C>(ts: seq<Pc<C>>, weight: Pc<C> -> nat)
    requires forall t | 0 <= t < |ts| :: weight(ts[t]) == 0
    ensures Sum(ts, weight) == 0
    decreases |ts|
  {
    if ts != [] {
      SumZero(ts[1..], weight);
    }
  }

  /** At most one thread has a weight if the sum is at most one. */
  lemma {:induction false} SumOne<C>(ts: seq<Pc<C>>, a: nat, b: nat, weight: Pc<C> -> nat)
    requires a < b < |ts| && weight(ts[a]) > 0 && weight(ts[b]) > 0
    ensures Sum(ts, weight) >= 2
    decreases |ts|
  {
    if a == 0 {
      SumUpdate(ts[1..], b - 1, ts[b], weight);
    } else {
      SumOne(ts[1..], a - 1, b - 1, weight);
    }
  }

  /** Submissions that are announced and not in a mailbox, or popped and not yet released. */
  function Unsettled<C>(pc: Pc<C>): nat {
    if pc.Announced? || pc.Admitted? || pc.Refused? || pc.Handling? || pc.Finishing? then 1 else 0
  }

  /** The drain token: just claimed, or a batch before its final store. */
  function Token<C>(pc: Pc<C>): nat {
    if pc.Claimed? || pc.PopPriority? || pc.PopNormal? || pc.CheckPending? || pc.Handling? || pc.Finishing?
      || pc.Ending?
    then 1 else 0
  }

  /** Threads that will look for a drain to schedule. */
  function Waker<C>(pc: Pc<C>): nat {
    if pc.Reserved? || pc.Scheduling? || pc.Rechecking? then 1 else 0
  }

  /** Threads whose command can still reach the handler. */
  function Busy<C>(pc: Pc<C>): nat {
    if pc.Admitted? || pc.Reserved? || pc.Handling? || pc.Finishing? then 1 else 0
  }

  /** Threads for which shutdown has seen no pending command. */
  function Shut<C>(pc: Pc<C>): nat {
    if pc.AwaitDrain? || pc.TornDown? then 1 else 0
  }

  function Closer<C>(pc: Pc<C>): nat {
    if pc.AwaitPending? || pc.AwaitDrain? || pc.TornDown? then 1 else 0
  }

  function Hands<C>(box: Box): Pc<C> -> nat {
    (pc: Pc<C>) => if pc.Handling? && pc.box == box then 1 else 0
  }

  // ------------------------------------------------------------------
  // Invariants
  // ------------------------------------------------------------------

  /** `pending_count_` counts every announced submission that is not settled yet. */
  ghost predicate CountInv<C>(s: State<C>) {
    s.pending == Sum(s.threads, Unsettled) + |s.normal.cells| + |s.priority.cells|
  }

  /** `drain_scheduled_` is set exactly while one drain token exists. */
  ghost predicate TokenInv<C>(s: State<C>) {
    Sum(s.threads, Token) + s.tasks == if s.drainScheduled then 1 else 0
  }

  /** Queued work has a drain, or a thread that will schedule one. */
  ghost predicate WakeInv<C>(s: State<C>) {
    s.normal.cells != [] || s.priority.cells != [] ==> s.drainScheduled || Sum(s.threads, Waker) > 0
  }

  /** Commands are handled in the order of their positions, each once. */
  ghost predicate Logged<C>(m: Mail<C>) {
    && |m.log| == m.popped + |m.cells|
    && (forall j | 0 <= j < |m.cells| :: m.cells[j].value == m.log[m.popped + j])
    && m.handled <= m.log
  }

  /** What was popped and not handled is in the hands of one thread. */
  ghost predicate InHands<C>(m: Mail<C>, threads: seq<Pc<C>>, box: Box) {
    && |m.handled| + Sum(threads, Hands(box)) == m.popped
    && (forall t | 0 <= t < |threads| && threads[t].Handling? && threads[t].box == box ::
          |m.handled| < |m.log| && m.log[|m.handled|] == threads[t].command)
  }

  ghost predicate MailInv<C>(s: State<C>, box: Box) {
    Logged(MailOf(s, box)) && InHands(MailOf(s, box), s.threads, box)
  }

  /** A reserved position is unpublished, in its mailbox, and belongs to one thread. */
  ghost predicate Holds<C>(m: Mail<C>, threads: seq<Pc<C>>, box: Box) {
    && (forall t | 0 <= t < |threads| && threads[t].Reserved? && threads[t].box == box :: Open(m, threads[t].pos))
    && (forall t, u | 0 <= t < u < |threads| && threads[t].Reserved? && threads[u].Reserved? && threads[t].box == box ::
          threads[t] != threads[u])
  }

  ghost predicate ReservedInv<C>(s: State<C>) {
    Holds(s.normal, s.threads, Normal) && Holds(s.priority, s.threads, Priority)
  }

  ghost predicate ShutInv<C>(s: State<C>) {
    && (Sum(s.threads, Closer) > 0 ==> !s.accepting)
    && (Sum(s.threads, Shut) > 0 ==>
          s.normal.cells == [] && s.priority.cells == [] && Sum(s.threads, Busy) == 0 && Sum(s.threads, Closer) > 0)
  }

  /** A batch stays within its bounds. */
  ghost predicate Within<C>(pc: Pc<C>) {
    && (pc.PopPriority? || pc.PopNormal? || pc.CheckPending? ==>
          pc.processed < MAX_COMMANDS_PER_DRAIN && pc.retries <= HEAD_PUBLICATION_RETRIES)
    && (pc.Handling? ==> pc.processed < MAX_COMMANDS_PER_DRAIN)
    && (pc.Finishing? ==> pc.processed <= MAX_COMMANDS_PER_DRAIN)
  }

  ghost predicate BatchInv<C>(s: State<C>) {
    forall t | 0 <= t < |s.threads| :: Within(s.threads[t])
  }

  ghost predicate Inv<C>(s: State<C>) {
    && CountInv(s) && TokenInv(s) && WakeInv(s) && MailInv(s, Normal) && MailInv(s, Priority)
    && ReservedInv(s) && ShutInv(s) && BatchInv(s)
  }

  // ------------------------------------------------------------------
  // Every step
  // ------------------------------------------------------------------

  /** The thread that took the step is the only one that moved. */
  lemma Moves<C>(s: State<C>, e: Step<C>)
    requires Enabled(s, e)
    ensures |Next(s, e).threads| == |s.threads|
    ensures Next(s, e).threads == s.threads[e.t := Next(s, e).threads[e.t]]
  {
    if !e.PushReserves? && !e.PushPublishes? && !e.TryPop? && !e.Handle? {
      OtherMoves(s, e);
    }
  }

  lemma OtherMoves<C>(s: State<C>, e: Step<C>)
    requires Enabled(s, e) && !e.PushReserves? && !e.PushPublishes? && !e.TryPop? && !e.Handle?
    ensures |Next(s, e).threads| == |s.threads|
    ensures Next(s, e).threads == s.threads[e.t := Next(s, e).threads[e.t]]
  {
  }

  function Queued<C>(s: State<C>): nat {
    |s.normal.cells| + |s.priority.cells|
  }

  /** What moves between counter, thread and mailboxes cancels out. */
  ghost predicate CountEffect<C>(s: State<C>, pc: Pc<C>, s': State<C>, pc': Pc<C>) {
    s'.pending + Unsettled(pc) + Queued(s) == s.pending + Unsettled(pc') + Queued(s')
  }

  function Flag<C>(s: State<C>): nat {
    if s.drainScheduled then 1 else 0
  }

  /** Drains that are queued, running or just claimed, against the flag. */
  ghost predicate TokenEffect<C>(s: State<C>, pc: Pc<C>, s': State<C>, pc': Pc<C>) {
    || Token(pc') + s'.tasks + Flag(s) == Token(pc) + s.tasks + Flag(s')
    || (pc.Ending? && Token(pc') == 0 && s'.tasks == s.tasks && !s'.drainScheduled)
  }

  /** A step that adds work leaves its thread a waker; a waker stops only with the flag set or nothing pending. */
  ghost predicate WakeEffect<C>(s: State<C>, pc: Pc<C>, s': State<C>, pc': Pc<C>) {
    || Waker(pc') == 1
    || s'.drainScheduled
    || (Queued(s') == Queued(s) && Waker(pc) == 0 && !s.drainScheduled)
    || s.pending == 0 == s'.pending
    || (Token(pc) == 1 && !s.drainScheduled)
  }

  /** Only an admitted thread brings work, only an open gate admits one, and no gate opens again. */
  ghost predicate ShutEffect<C>(s: State<C>, pc: Pc<C>, s': State<C>, pc': Pc<C>) {
    && (Queued(s') > Queued(s) ==> Busy(pc) == 1)
    && (Shut(pc') > Shut(pc) ==> s.pending == 0 && Queued(s') == Queued(s) && Busy(pc) == Busy(pc'))
    && (Busy(pc') > Busy(pc) ==> s.accepting || Queued(s) > 0)
    && (s'.accepting ==> s.accepting) && (Closer(pc') > Closer(pc) ==> !s'.accepting)
    && Closer(pc) <= Closer(pc') && Shut(pc') <= Closer(pc')
  }

  ghost predicate Effect<C>(s: State<C>, pc: Pc<C>, s': State<C>, pc': Pc<C>) {
    && CountEffect(s, pc, s', pc') && TokenEffect(s, pc, s', pc') && WakeEffect(s, pc, s', pc')
    && ShutEffect(s, pc, s', pc') && (Within(pc) ==> Within(pc'))
  }

  predicate SubmitStep<C>(e: Step<C>) {
    e.Submit? || e.CheckAdmission? || e.PushFails? || e.ReleaseRefused? || e.Exchange?
  }

  predicate PostStep<C>(e: Step<C>) {
    e.PostSucceeds? || e.PostFails? || e.StartTask?
  }

  predicate DrainStep<C>(e: Step<C>) {
    e.LoadPending? || e.ReleaseHandled? || e.EndDrain? || e.Recheck?
  }

  predicate PushStep<C>(e: Step<C>) {
    e.PushReserves? || e.PushPublishes?
  }

  predicate MailStep<C>(e: Step<C>) {
    PushStep(e) || e.TryPop? || e.Handle?
  }

  predicate ShutdownStep<C>(e: Step<C>) {
    e.Close? || e.SeeNoPending? || e.SeeNoDrain?
  }

  lemma SubmitEffect<C>(s: State<C>, e: Step<C>)
    requires Enabled(s, e) && SubmitStep(e)
    ensures Effect(s, s.threads[e.t], Next(s, e), Next(s, e).threads[e.t])
  {
  }

  lemma PostEffect<C>(s: State<C>, e: Step<C>)
    requires Enabled(s, e) && PostStep(e)
    ensures Effect(s, s.threads[e.t], Next(s, e), Next(s, e).threads[e.t])
  {
  }

  lemma DrainEffect<C>(s: State<C>, e: Step<C>)
    requires Enabled(s, e) && DrainStep(e)
    ensures Effect(s, s.threads[e.t], Next(s, e), Next(s, e).threads[e.t])
  {
  }

  lemma PushEffect<C>(s: State<C>, e: Step<C>)
    requires Enabled(s, e) && PushStep(e)
    ensures Effect(s, s.threads[e.t], Next(s, e), Next(s, e).threads[e.t])
  {
  }

  lemma PopEffect<C>(s: State<C>, e: Step<C>)
    requires Enabled(s, e) && e.TryPop?
    ensures Effect(s, s.threads[e.t], Next(s, e), Next(s, e).threads[e.t])
  {
  }

  lemma HandleEffect<C>(s: State<C>, e: Step<C>)
    requires Enabled(s, e) && e.Handle?
    ensures Effect(s, s.threads[e.t], Next(s, e), Next(s, e).threads[e.t])
  {
  }

  lemma ShutdownEffect<C>(s: State<C>, e: Step<C>)
    requires Enabled(s, e) && ShutdownStep(e)
    ensures Effect(s, s.threads[e.t], Next(s, e), Next(s, e).threads[e.t])
  {
  }

  lemma StepEffect<C>(s: State<C>, e: Step<C>)
    requires Enabled(s, e)
    ensures |Next(s, e).threads| == |s.threads| && Next(s, e).threads == s.threads[e.t := Next(s, e).threads[e.t]]
    ensures Effect(s, s.threads[e.t], Next(s, e), Next(s, e).threads[e.t])
  {
    Moves(s, e);
    if SubmitStep(e) {
      SubmitEffect(s, e);
    } else if PostStep(e) {
      PostEffect(s, e);
    } else if DrainStep(e) {
      DrainEffect(s, e);
    } else if PushStep(e) {
      PushEffect(s, e);
    } else if e.TryPop? {
      PopEffect(s, e);
    } else if e.Handle? {
      HandleEffect(s, e);
    } else {
      ShutdownEffect(s, e);
    }
  }

  /** Thread `t` moves from `pc` to `pc'` and nobody else does. */
  ghost predicate Moved<C>(s: State<C>, t: nat, pc: Pc<C>, s': State<C>, pc': Pc<C>) {
    t < |s.threads| && pc == s.threads[t] && s'.threads == s.threads[t := pc']
  }

  lemma CountKept<C>(s: State<C>, t: nat, pc: Pc<C>, s': State<C>, pc': Pc<C>)
    requires Moved(s, t, pc, s', pc') && CountEffect(s, pc, s', pc') && CountInv(s)
    ensures CountInv(s')
  {
    SumUpdate(s.threads, t, pc', Unsettled);
  }

  lemma TokenKept<C>(s: State<C>, t: nat, pc: Pc<C>, s': State<C>, pc': Pc<C>)
    requires Moved(s, t, pc, s', pc') && TokenEffect(s, pc, s', pc') && TokenInv(s)
    ensures TokenInv(s')
  {
    SumUpdate(s.threads, t, pc', Token);
  }

  lemma WakeKept<C>(s: State<C>, t: nat, pc: Pc<C>, s': State<C>, pc': Pc<C>)
    requires Moved(s, t, pc, s', pc') && WakeEffect(s, pc, s', pc') && CountInv(s') && TokenInv(s) && WakeInv(s)
    ensures WakeInv(s')
  {
    SumUpdate(s.threads, t, pc', Waker);
    SumUpdate(s.threads, t, pc', Token);
  }

  lemma BatchKept<C>(s: State<C>, t: nat, pc: Pc<C>, s': State<C>, pc': Pc<C>)
    requires Moved(s, t, pc, s', pc') && BatchInv(s) && (Within(pc) ==> Within(pc'))
    ensures BatchInv(s')
  {
  }

  lemma ShutKept<C>(s: State<C>, t: nat, pc: Pc<C>, s': State<C>, pc': Pc<C>)
    requires Moved(s, t, pc, s', pc') && ShutEffect(s, pc, s', pc')
    requires CountInv(s) && ReservedInv(s) && ShutInv(s)
    ensures ShutInv(s')
  {
    SumUpdate(s.threads, t, pc', Busy);
    SumUpdate(s.threads, t, pc', Shut);
    SumUpdate(s.threads, t, pc', Closer);
    if s.pending == 0 {
      NothingBusy(s);
    }
  }

  /** With nothing pending no thread has a command that could reach the handler. */
  lemma NothingBusy<C>(s: State<C>)
    requires CountInv(s) && ReservedInv(s) && s.pending == 0
    ensures Sum(s.threads, Busy) == 0
  {
    forall t | 0 <= t < |s.threads| ensures Busy(s.threads[t]) == 0 {
      SumUpdate(s.threads, t, s.threads[t], Unsettled);
    }
    SumZero(s.threads, Busy);
  }

  /** Other steps leave both mailboxes alone and reserve nothing. */
  lemma NoMailStep<C>(s: State<C>, e: Step<C>)
    requires Enabled(s, e) && !MailStep(e)
    ensures Next(s, e).normal == s.normal && Next(s, e).priority == s.priority
    ensures !Next(s, e).threads[e.t].Reserved? && !Next(s, e).threads[e.t].Handling?
    ensures !s.threads[e.t].Handling?
  {
    NoMailMoved(s, e);
  }

  lemma NoMailMoved<C>(s: State<C>, e: Step<C>)
    requires Enabled(s, e) && !MailStep(e)
    ensures Next(s, e).normal == s.normal && Next(s, e).priority == s.priority
  {
  }

  /** The mailbox a mail step works on. */
  ghost function Touched<C>(s: State<C>, e: Step<C>): Box
    requires Enabled(s, e) && MailStep(e)
  {
    if e.TryPop? then if s.threads[e.t].PopPriority? then Priority else Normal else s.threads[e.t].box
  }

  ghost predicate Works<C>(s: State<C>, e: Step<C>, box: Box)
    requires Enabled(s, e)
  {
    MailStep(e) && box == Touched(s, e)
  }

  /** A step on one mailbox leaves the other alone. */
  lemma OtherBox<C>(s: State<C>, e: Step<C>, box: Box)
    requires Enabled(s, e) && MailStep(e) && box != Touched(s, e)
    ensures MailOf(Next(s, e), box) == MailOf(s, box)
    ensures var pc := Next(s, e).threads[e.t]; !((pc.Reserved? || pc.Handling?) && pc.box == box)
    ensures var pc := s.threads[e.t]; !(pc.Handling? && pc.box == box)
  {
  }

  /** A mailbox the step does not work on. */
  lemma Untouched<C>(s: State<C>, e: Step<C>, box: Box)
    requires Enabled(s, e) && !Works(s, e, box)
    ensures MailOf(Next(s, e), box) == MailOf(s, box)
    ensures var pc := Next(s, e).threads[e.t]; !((pc.Reserved? || pc.Handling?) && pc.box == box)
    ensures var pc := s.threads[e.t]; !(pc.Handling? && pc.box == box)
  {
    if MailStep(e) {
      OtherBox(s, e, box);
    } else {
      NoMailStep(s, e);
    }
  }

  /** Threads and cells of one mailbox after one thread moved to `pc`. */
  lemma HoldsUntouched<C>(m: Mail<C>, threads: seq<Pc<C>>, t: nat, pc: Pc<C>, box: Box)
    requires Holds(m, threads, box) && t < |threads| && !(pc.Reserved? && pc.box == box)
    ensures Holds(m, threads[t := pc], box)
  {
  }

  lemma HoldsReserved<C>(m: Mail<C>, m': Mail<C>, c: C, threads: seq<Pc<C>>, t: nat, box: Box)
    requires Holds(m, threads, box) && t < |threads|
    requires m'.cells == Reserve(m.cells, c) && m'.popped == m.popped
    ensures Holds(m', threads[t := Reserved(box, m.popped + |m.cells|)], box)
  {
  }

  lemma HoldsPublished<C>(m: Mail<C>, m': Mail<C>, threads: seq<Pc<C>>, t: nat, box: Box)
    requires Holds(m, threads, box) && t < |threads| && threads[t].Reserved? && threads[t].box == box
    requires Open(m, threads[t].pos) && m'.cells == Publish(m.cells, threads[t].pos - m.popped) && m'.popped == m.popped
    ensures Holds(m', threads[t := Scheduling], box)
  {
  }

  lemma HoldsPopped<C>(m: Mail<C>, m': Mail<C>, threads: seq<Pc<C>>, t: nat, pc: Pc<C>, box: Box)
    requires Holds(m, threads, box) && t < |threads| && m.cells != [] && m.cells[0].published && !pc.Reserved?
    requires m'.cells == m.cells[1..] && m'.popped == m.popped + 1
    ensures Holds(m', threads[t := pc], box)
  {
  }

  lemma HoldsPushed<C>(s: State<C>, e: Step<C>, box: Box)
    requires Enabled(s, e) && PushStep(e) && box == Touched(s, e) && Holds(MailOf(s, box), s.threads, box)
    ensures Holds(MailOf(Next(s, e), box), Next(s, e).threads, box)
  {
    var m, m', pc := MailOf(s, box), MailOf(Next(s, e), box), s.threads[e.t];
    if e.PushReserves? {
      HoldsReserved(m, m', pc.command, s.threads, e.t, box);
    } else {
      HoldsPublished(m, m', s.threads, e.t, box);
    }
  }

  lemma HoldsTaken<C>(s: State<C>, e: Step<C>, box: Box)
    requires Enabled(s, e) && (e.TryPop? || e.Handle?) && box == Touched(s, e) && Holds(MailOf(s, box), s.threads, box)
    ensures Holds(MailOf(Next(s, e), box), Next(s, e).threads, box)
  {
    var m, m', pc' := MailOf(s, box), MailOf(Next(s, e), box), Next(s, e).threads[e.t];
    if pc'.Handling? {
      HoldsPopped(m, m', s.threads, e.t, pc', box);
    } else {
      HoldsSame(m, m', s.threads, e.t, pc', box);
    }
  }

  lemma HoldsSame<C>(m: Mail<C>, m': Mail<C>, threads: seq<Pc<C>>, t: nat, pc: Pc<C>, box: Box)
    requires Holds(m, threads, box) && t < |threads| && !(pc.Reserved? && pc.box == box)
    requires m'.cells == m.cells && m'.popped == m.popped
    ensures Holds(m', threads[t := pc], box)
  {
  }

  lemma HoldsKept<C>(s: State<C>, e: Step<C>, box: Box)
    requires Enabled(s, e) && Holds(MailOf(s, box), s.threads, box)
    ensures Holds(MailOf(Next(s, e), box), Next(s, e).threads, box)
  {
    if Works(s, e, box) {
      if PushStep(e) {
        HoldsPushed(s, e, box);
      } else {
        HoldsTaken(s, e, box);
      }
    } else {
      Moves(s, e);
      Untouched(s, e, box);
      HoldsUntouched(MailOf(s, box), s.threads, e.t, Next(s, e).threads[e.t], box);
    }
  }

  lemma InHandsUntouched<C>(m: Mail<C>, m': Mail<C>, threads: seq<Pc<C>>, t: nat, pc: Pc<C>, box: Box)
    requires InHands(m, threads, box) && t < |threads| && Hands(box)(threads[t]) == 0 == Hands(box)(pc)
    requires m'.popped == m.popped && m'.handled == m.handled && m.log <= m'.log
    ensures InHands(m', threads[t := pc], box)
  {
    SumUpdate(threads, t, pc, Hands(box));
  }

  lemma InHandsPopped<C>(m: Mail<C>, m': Mail<C>, threads: seq<Pc<C>>, t: nat, pc: Pc<C>, box: Box)
    requires Logged(m) && InHands(m, threads, box) && t < |threads| && m.cells != [] && pc.Handling? && pc.box == box
    requires Sum(threads, Hands(box)) == 0 && (forall u | 0 <= u < |threads| :: !threads[u].Handling?)
    requires m' == m.(cells := m.cells[1..], popped := m.popped + 1) && pc.command == m.cells[0].value
    ensures Logged(m') && InHands(m', threads[t := pc], box)
  {
    SumUpdate(threads, t, pc, Hands(box));
  }

  lemma InHandsHandled<C>(m: Mail<C>, m': Mail<C>, threads: seq<Pc<C>>, t: nat, pc: Pc<C>, box: Box)
    requires Logged(m) && InHands(m, threads, box) && t < |threads| && threads[t].Handling? && threads[t].box == box
    requires (forall u | 0 <= u < |threads| && u != t :: !threads[u].Handling?) && !pc.Handling?
    requires m' == m.(handled := m.handled + [threads[t].command])
    ensures Logged(m') && InHands(m', threads[t := pc], box)
  {
    SumUpdate(threads, t, pc, Hands(box));
  }

  /** A token holder outside the handler: no command is in anyone's hands. */
  lemma NoHands<C>(s: State<C>, t: nat, box: Box)
    requires TokenInv(s) && t < |s.threads| && Token(s.threads[t]) == 1 && !s.threads[t].Handling?
    ensures Sum(s.threads, Hands(box)) == 0
    ensures forall u | 0 <= u < |s.threads| :: !s.threads[u].Handling?
  {
    OneHolder(s, t);
    forall u | 0 <= u < |s.threads| ensures !s.threads[u].Handling? {
      assert u != t ==> Token(s.threads[u]) == 0;
    }
    SumZero(s.threads, Hands(box));
  }

  lemma MailPopped<C>(s: State<C>, e: Step<C>, box: Box)
    requires MailInv(s, box) && TokenInv(s) && Enabled(s, e) && e.TryPop? && box == Touched(s, e)
    ensures MailInv(Next(s, e), box)
  {
    Moves(s, e);
    NoHands(s, e.t, box);
    var m, pc' := MailOf(s, box), Next(s, e).threads[e.t];
    if pc'.Handling? {
      InHandsPopped(m, MailOf(Next(s, e), box), s.threads, e.t, pc', box);
    } else {
      InHandsUntouched(m, m, s.threads, e.t, pc', box);
    }
  }

  lemma MailHandled<C>(s: State<C>, e: Step<C>, box: Box)
    requires MailInv(s, box) && TokenInv(s) && Enabled(s, e) && e.Handle? && box == Touched(s, e)
    ensures MailInv(Next(s, e), box)
  {
    Moves(s, e);
    OneHolder(s, e.t);
    forall u | 0 <= u < |s.threads| && u != e.t ensures !s.threads[u].Handling? {
      assert Token(s.threads[u]) == 0;
    }
    InHandsHandled(MailOf(s, box), MailOf(Next(s, e), box), s.threads, e.t, Next(s, e).threads[e.t], box);
  }

  lemma MailPushed<C>(s: State<C>, e: Step<C>, box: Box)
    requires MailInv(s, box) && Enabled(s, e) && PushStep(e) && box == Touched(s, e)
    ensures MailInv(Next(s, e), box)
  {
    Moves(s, e);
    InHandsUntouched(MailOf(s, box), MailOf(Next(s, e), box), s.threads, e.t, Next(s, e).threads[e.t], box);
  }

  lemma MailKept<C>(s: State<C>, e: Step<C>, box: Box)
    requires MailInv(s, box) && TokenInv(s) && Enabled(s, e)
    ensures MailInv(Next(s, e), box)
  {
    if !Works(s, e, box) {
      Moves(s, e);
      Untouched(s, e, box);
      InHandsUntouched(MailOf(s, box), MailOf(s, box), s.threads, e.t, Next(s, e).threads[e.t], box);
    } else if e.TryPop? {
      MailPopped(s, e, box);
    } else if e.Handle? {
      MailHandled(s, e, box);
    } else {
      MailPushed(s, e, box);
    }
  }

  /** Whoever holds the token is alone with it. */
  lemma OneHolder<C>(s: State<C>, t: nat)
    requires TokenInv(s) && t < |s.threads| && Token(s.threads[t]) == 1
    ensures s.drainScheduled && s.tasks == 0
    ensures forall u | 0 <= u < |s.threads| && u != t :: Token(s.threads[u]) == 0
  {
    SumUpdate(s.threads, t, s.threads[t], Token);
    forall u | 0 <= u < |s.threads| && u != t ensures Token(s.threads[u]) == 0 {
      if Token(s.threads[u]) > 0 {
        SumOne(s.threads, if t < u then t else u, if t < u then u else t, Token);
      }
    }
  }

  lemma StepKeepsInv<C>(s: State<C>, e: Step<C>)
    requires Inv(s) && Enabled(s, e)
    ensures Inv(Next(s, e))
  {
    var pc, s' := s.threads[e.t], Next(s, e);
    StepEffect(s, e);
    CountKept(s, e.t, pc, s', s'.threads[e.t]);
    TokenKept(s, e.t, pc, s', s'.threads[e.t]);
    WakeKept(s, e.t, pc, s', s'.threads[e.t]);
    MailKept(s, e, Normal);
    MailKept(s, e, Priority);
    HoldsKept(s, e, Normal);
    HoldsKept(s, e, Priority);
    ShutKept(s, e.t, pc, s', s'.threads[e.t]);
    BatchKept(s, e.t, pc, s', s'.threads[e.t]);
  }

  lemma InitialInv<C>(s: State<C>)
    requires Initial(s)
    ensures Inv(s)
  {
    SumZero(s.threads, Unsettled);
    SumZero(s.threads, Token);
    SumZero(s.threads, Shut);
    SumZero(s.threads, Closer);
    SumZero(s.threads, Hands(Normal));
    SumZero(s.threads, Hands(Priority));
  }

  // ------------------------------------------------------------------
  // The mailboxes of the scheduler are those the mailbox module provides
  // ------------------------------------------------------------------

  /** The commands popped from a mailbox so far. */
  function PoppedOf<C>(m: Mail<C>): seq<C>
    requires m.popped <= |m.log|
  {
    m.log[..m.popped]
  }

  lemma PopIsSpec<C(!new)>(m: Mail<C>, m': Mail<C>)
    requires Logged(m) && m.cells != [] && m.cells[0].published
    requires m' == m.(cells := m.cells[1..], popped := m.popped + 1)
    ensures SpecStep(m.cells, m'.cells, PoppedOf(m), PoppedOf(m'))
  {
    assert m.log[..m.popped + 1] == m.log[..m.popped] + [m.cells[0].value];
  }

  lemma PushIsSpec<C(!new)>(s: State<C>, e: Step<C>, box: Box)
    requires Logged(MailOf(s, box)) && Enabled(s, e) && PushStep(e) && box == Touched(s, e)
    requires Logged(MailOf(Next(s, e), box))
    ensures var m, m' := MailOf(s, box), MailOf(Next(s, e), box);
            SpecStep(m.cells, m'.cells, PoppedOf(m), PoppedOf(m'))
  {
    var m, m' := MailOf(s, box), MailOf(Next(s, e), box);
    assert PoppedOf(m') == PoppedOf(m);
    if e.PushReserves? {
      assert m'.cells == Reserve(m.cells, s.threads[e.t].command);
    } else {
      var k := s.threads[e.t].pos - m.popped;
      assert !m.cells[k].published && m'.cells == Publish(m.cells, k);
    }
  }

  /** Each step does to each mailbox what a step of the lock-free mailbox does to its contents, or nothing. */
  lemma StepUsesMailbox<C(!new)>(s: State<C>, e: Step<C>, box: Box)
    requires Inv(s) && Enabled(s, e)
    ensures Logged(MailOf(s, box)) && Logged(MailOf(Next(s, e), box))
    ensures var m, m' := MailOf(s, box), MailOf(Next(s, e), box);
            SpecStep(m.cells, m'.cells, PoppedOf(m), PoppedOf(m'))
  {
    assert MailInv(s, box);
    MailKept(s, e, box);
    if !Works(s, e, box) {
      Untouched(s, e, box);
    } else if PushStep(e) {
      PushIsSpec(s, e, box);
    } else if e.TryPop? && Next(s, e).threads[e.t].Handling? {
      Moves(s, e);
      PopIsSpec(MailOf(s, box), MailOf(Next(s, e), box));
    }
  }

  // ------------------------------------------------------------------
  // Every run
  // ------------------------------------------------------------------

  ghost predicate Takes<C>(s: State<C>, e: Step<C>, s': State<C>) {
    Enabled(s, e) && s' == Next(s, e)
  }

  ghost predicate StepAt<C>(ss: seq<State<C>>, es: seq<Step<C>>, n: nat)
    requires |ss| == |es| + 1 && n < |es|
  {
    Takes(ss[n], es[n], ss[n + 1])
  }

  ghost predicate IsRun<C>(ss: seq<State<C>>, es: seq<Step<C>>) {
    && |ss| == |es| + 1 && Initial(ss[0])
    && forall n | 0 <= n < |es| :: StepAt(ss, es, n)
  }

  lemma {:induction false} RunKeepsInv<C>(ss: seq<State<C>>, es: seq<Step<C>>, n: nat)
    requires IsRun(ss, es) && n < |ss|
    ensures Inv(ss[n])
  {
    if n == 0 {
      InitialInv(ss[0]);
    } else {
      RunKeepsInv(ss, es, n - 1);
      assert StepAt(ss, es, n - 1);
      StepKeepsInv(ss[n - 1], es[n - 1]);
    }
  }

  /** No thread is inside the scheduler and the executor has no drain left to start. */
  ghost predicate Quiescent<C>(s: State<C>) {
    s.tasks == 0 && forall t | 0 <= t < |s.threads| :: s.threads[t].Idle? || s.threads[t].TornDown?
  }

  /** No stranded work: at quiescence everything accepted was handled, once and in order. */
  lemma NothingStranded<C>(ss: seq<State<C>>, es: seq<Step<C>>, n: nat)
    requires IsRun(ss, es) && n < |ss| && Quiescent(ss[n])
    ensures ss[n].pending == 0 && !ss[n].drainScheduled
    ensures ss[n].normal.cells == [] && ss[n].priority.cells == []
    ensures ss[n].normal.handled == ss[n].normal.log && ss[n].priority.handled == ss[n].priority.log
  {
    RunKeepsInv(ss, es, n);
    var s := ss[n];
    SumZero(s.threads, Unsettled);
    SumZero(s.threads, Token);
    SumZero(s.threads, Waker);
    SumZero(s.threads, Hands(Normal));
    SumZero(s.threads, Hands(Priority));
  }

  /** At any time the handler has seen a prefix of what each mailbox took: nothing twice, nothing out of order. */
  lemma HandledInOrder<C>(ss: seq<State<C>>, es: seq<Step<C>>, n: nat, box: Box)
    requires IsRun(ss, es) && n < |ss|
    ensures MailOf(ss[n], box).handled <= MailOf(ss[n], box).log
  {
    RunKeepsInv(ss, es, n);
    assert MailInv(ss[n], box);
  }

  /** One drain at a time: two threads never pop or handle concurrently, and none does while a drain is queued. */
  lemma DrainsExclude<C>(ss: seq<State<C>>, es: seq<Step<C>>, n: nat, t: nat)
    requires IsRun(ss, es) && n < |ss| && t < |ss[n].threads| && Token(ss[n].threads[t]) == 1
    ensures ss[n].drainScheduled && ss[n].tasks == 0
    ensures forall u | 0 <= u < |ss[n].threads| && u != t :: Token(ss[n].threads[u]) == 0
  {
    RunKeepsInv(ss, es, n);
    OneHolder(ss[n], t);
  }

  /** `drain_scheduled_` is never left set without a drain. */
  lemma {:induction false} TokenExists<C>(ss: seq<State<C>>, es: seq<Step<C>>, n: nat)
    requires IsRun(ss, es) && n < |ss| && ss[n].drainScheduled
    ensures ss[n].tasks == 1 || exists t :: 0 <= t < |ss[n].threads| && Token(ss[n].threads[t]) == 1
  {
    RunKeepsInv(ss, es, n);
    if forall t | 0 <= t < |ss[n].threads| :: Token(ss[n].threads[t]) == 0 {
      SumZero(ss[n].threads, Token);
    }
  }

  ghost predicate Closed<C>(s: State<C>, t: nat) {
    && t < |s.threads| && s.threads[t].TornDown?
    && forall u | 0 <= u < |s.threads| :: !s.threads[u].Handling?
  }

  /** Both mailboxes are as they were, and `t` has shut the scheduler down. */
  ghost predicate QuietSince<C>(s: State<C>, s': State<C>, t: nat) {
    Closed(s', t) && s'.normal == s.normal && s'.priority == s.priority
  }

  /** After CloseAdmission and WaitIdle returned in some thread the handler never runs again. */
  lemma {:induction false} NoHandlerAfterShutdown<C>(ss: seq<State<C>>, es: seq<Step<C>>, n: nat, m: nat, t: nat)
    requires IsRun(ss, es) && n <= m < |ss| && t < |ss[n].threads| && ss[n].threads[t].TornDown?
    ensures QuietSince(ss[n], ss[m], t)
    decreases m
  {
    if n < m {
      NoHandlerAfterShutdown(ss, es, n, m - 1, t);
      RunShut(ss, es, m - 1, t);
    } else {
      RunClosed(ss, es, m, t);
    }
  }

  lemma RunClosed<C>(ss: seq<State<C>>, es: seq<Step<C>>, n: nat, t: nat)
    requires IsRun(ss, es) && n < |ss| && t < |ss[n].threads| && ss[n].threads[t].TornDown?
    ensures Closed(ss[n], t)
  {
    RunKeepsInv(ss, es, n);
    ShutIsQuiet(ss[n], t);
  }

  lemma RunShut<C>(ss: seq<State<C>>, es: seq<Step<C>>, n: nat, t: nat)
    requires IsRun(ss, es) && n < |es| && t < |ss[n].threads| && ss[n].threads[t].TornDown?
    ensures QuietSince(ss[n], ss[n + 1], t)
  {
    assert StepAt(ss, es, n);
    RunKeepsInv(ss, es, n);
    ShutStays(ss[n], es[n], t);
    RunClosed(ss, es, n + 1, t);
  }

  lemma ShutIsQuiet<C>(s: State<C>, t: nat)
    requires Inv(s) && t < |s.threads| && s.threads[t].TornDown?
    ensures !s.accepting && s.normal.cells == [] && s.priority.cells == []
    ensures forall u | 0 <= u < |s.threads| :: Busy(s.threads[u]) == 0
    ensures Closed(s, t)
  {
    SumUpdate(s.threads, t, s.threads[t], Shut);
    forall u | 0 <= u < |s.threads| ensures Busy(s.threads[u]) == 0 {
      SumUpdate(s.threads, u, s.threads[u], Busy);
    }
  }

  lemma ShutStays<C>(s: State<C>, e: Step<C>, t: nat)
    requires Inv(s) && Enabled(s, e) && t < |s.threads| && s.threads[t].TornDown?
    ensures |Next(s, e).threads| == |s.threads| && Next(s, e).threads[t].TornDown?
    ensures Next(s, e).normal == s.normal && Next(s, e).priority == s.priority
  {
    ShutIsQuiet(s, t);
    Moves(s, e);
    assert Busy(s.threads[e.t]) == 0;
  }

  /** A drain gives way: it handles at most 64 commands and looks at most 17 times in a row for an unpublished one. */
  lemma BatchBounded<C>(ss: seq<State<C>>, es: seq<Step<C>>, n: nat, t: nat)
    requires IsRun(ss, es) && n < |ss| && t < |ss[n].threads|
    ensures var pc := ss[n].threads[t];
            && (pc.Handling? ==> pc.processed < 64)
            && (pc.PopPriority? || pc.PopNormal? || pc.CheckPending? ==> pc.processed < 64 && pc.retries <= 16)
  {
    RunKeepsInv(ss, es, n);
  }

  /** Threads are never stuck: the counter covers every release, the cell of every reservation can be published. */
  lemma NeverStuck<C>(ss: seq<State<C>>, es: seq<Step<C>>, n: nat, t: nat)
    requires IsRun(ss, es) && n < |ss| && t < |ss[n].threads|
    ensures ss[n].threads[t].Refused? || ss[n].threads[t].Finishing? ==> ss[n].pending > 0
    ensures ss[n].threads[t].Reserved? ==> CanPublish(ss[n], ss[n].threads[t].box, ss[n].threads[t].pos)
  {
    RunKeepsInv(ss, es, n);
    SumUpdate(ss[n].threads, t, ss[n].threads[t], Unsettled);
  }

  // ------------------------------------------------------------------
  // WaitIdle cannot deadlock
  // ------------------------------------------------------------------

  /** A step that brings no new work. */
  predicate GoesOn<C>(e: Step<C>) {
    !e.Submit? && !e.Close?
  }

  predicate Waits<C>(pc: Pc<C>) {
    pc.AwaitPending? || pc.AwaitDrain?
  }

  lemma SumPositive<C>(ts: seq<Pc<C>>, weight: Pc<C> -> nat) returns (t: nat)
    requires Sum(ts, weight) > 0
    ensures t < |ts| && weight(ts[t]) > 0
  {
    if forall u | 0 <= u < |ts| :: weight(ts[u]) == 0 {
      SumZero(ts, weight);
    }
    t :| t < |ts| && weight(ts[t]) > 0;
  }

  /** A thread inside the scheduler can take its next step. */
  lemma ThreadGoesOn<C>(s: State<C>, t: nat) returns (e: Step<C>)
    requires Inv(s) && t < |s.threads|
    requires var pc := s.threads[t]; Unsettled(pc) > 0 || Token(pc) > 0 || Waker(pc) > 0
    ensures Enabled(s, e) && GoesOn(e) && e.t == t
  {
    SumUpdate(s.threads, t, s.threads[t], Unsettled);
    match s.threads[t]
    case Announced(_, _) => e := CheckAdmission(t);
    case Admitted(box, _) =>
      e := if |MailOf(s, box).cells| < MailOf(s, box).capacity then PushReserves(t) else PushFails(t);
    case Reserved(_, _) => e := PushPublishes(t);
    case Refused => e := ReleaseRefused(t);
    case Scheduling => e := Exchange(t);
    case Claimed => e := PostSucceeds(t);
    case PopPriority(_, _) => e := TryPop(t);
    case PopNormal(_, _) => e := TryPop(t);
    case CheckPending(_, _) => e := LoadPending(t);
    case Handling(_, _, _) => e := Handle(t);
    case Finishing(_) => e := ReleaseHandled(t);
    case Ending => e := EndDrain(t);
    case Rechecking => e := Recheck(t);
  }

  /** A set flag has someone to clear it. */
  lemma DrainGoesOn<C>(s: State<C>, idle: nat) returns (e: Step<C>)
    requires Inv(s) && s.drainScheduled && (s.tasks > 0 ==> idle < |s.threads| && s.threads[idle].Idle?)
    ensures Enabled(s, e) && GoesOn(e)
  {
    if s.tasks > 0 {
      e := StartTask(idle);
    } else {
      var u := SumPositive(s.threads, Token);
      e := ThreadGoesOn(s, u);
    }
  }

  lemma PendingGoesOn<C>(s: State<C>, idle: nat) returns (e: Step<C>)
    requires Inv(s) && s.pending > 0 && (s.tasks > 0 ==> idle < |s.threads| && s.threads[idle].Idle?)
    ensures Enabled(s, e) && GoesOn(e)
  {
    if Sum(s.threads, Unsettled) > 0 {
      var u := SumPositive(s.threads, Unsettled);
      e := ThreadGoesOn(s, u);
    } else if s.drainScheduled {
      e := DrainGoesOn(s, idle);
    } else {
      var u := SumPositive(s.threads, Waker);
      e := ThreadGoesOn(s, u);
    }
  }

  /**
   WaitIdle cannot deadlock: while a thread is inside it, it can leave its loop, or another
   thread can take a step that brings no new work; a posted drain needs an idle thread.
   */
  lemma WaitIdleGoesOn<C>(ss: seq<State<C>>, es: seq<Step<C>>, n: nat, t: nat, idle: nat) returns (e: Step<C>)
    requires IsRun(ss, es) && n < |ss| && t < |ss[n].threads| && Waits(ss[n].threads[t])
    requires ss[n].tasks > 0 ==> idle < |ss[n].threads| && ss[n].threads[idle].Idle?
    ensures Enabled(ss[n], e) && GoesOn(e)
    ensures e.t != t || e.SeeNoPending? || e.SeeNoDrain?
  {
    RunKeepsInv(ss, es, n);
    var s := ss[n];
    if s.threads[t].AwaitPending? {
      if s.pending == 0 {
        e := SeeNoPending(t);
      } else {
        e := PendingGoesOn(s, idle);
      }
    } else if s.drainScheduled {
      e := DrainGoesOn(s, idle);
    } else {
      e := SeeNoDrain(t);
    }
  }
}
