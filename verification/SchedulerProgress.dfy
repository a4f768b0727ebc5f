/**
 What the scheduler must do: take commands while it is open, refuse only for a reason, and
 be able to bring every command it took to the handler.
 */
module SchedulerProgress {
  import opened MailboxSpec
  import opened Scheduler

  // ------------------------------------------------------------------
  // Runs that go on
  // ------------------------------------------------------------------

  ghost predicate Leads<C>(s: State<C>, es: seq<Step<C>>, s': State<C>)
    decreases |es|
  {
    if es == [] then s == s' else Enabled(s, es[0]) && Leads(Next(s, es[0]), es[1..], s')
  }

  lemma Prepend<C>(s: State<C>, e: Step<C>, s1: State<C>, es: seq<Step<C>>, s': State<C>)
    requires Enabled(s, e) && Next(s, e) == s1 && Leads(s1, es, s')
    ensures Leads(s, [e] + es, s')
  {
    assert ([e] + es)[1..] == es;
  }

  lemma {:induction false} LeadsOn<C>(s: State<C>, a: seq<Step<C>>, s1: State<C>, b: seq<Step<C>>, s2: State<C>)
    requires Leads(s, a, s1) && Leads(s1, b, s2)
    ensures Leads(s, a + b, s2)
    decreases |a|
  {
    if a == [] {
      assert a + b == b;
    } else {
      LeadsOn(Next(s, a[0]), a[1..], s1, b, s2);
      assert (a + b)[1..] == a[1..] + b;
    }
  }

  /** Steps that bring no new work. */
  predicate AllGoOn<C>(es: seq<Step<C>>) {
    forall i | 0 <= i < |es| :: GoesOn(es[i])
  }

  // ------------------------------------------------------------------
  // Every unpublished cell has a producer
  // ------------------------------------------------------------------

  ghost predicate HeldBy<C>(threads: seq<Pc<C>>, t: nat, box: Box, pos: nat) {
    t < |threads| && threads[t].Reserved? && threads[t].box == box && threads[t].pos == pos
  }

  ghost predicate HasHolder<C>(threads: seq<Pc<C>>, box: Box, pos: nat) {
    exists t :: HeldBy(threads, t, box, pos)
  }

  ghost predicate HeldIn<C>(m: Mail<C>, threads: seq<Pc<C>>, box: Box) {
    forall j: nat | j < |m.cells| && !m.cells[j].published :: HasHolder(threads, box, m.popped + j)
  }

  ghost predicate HeldInv<C>(s: State<C>) {
    HeldIn(s.normal, s.threads, Normal) && HeldIn(s.priority, s.threads, Priority)
  }

  /** A thread that holds nothing moves, or one that goes on holding. */
  lemma HeldElsewhere<C>(m: Mail<C>, threads: seq<Pc<C>>, t: nat, pc: Pc<C>, box: Box)
    requires HeldIn(m, threads, box) && t < |threads| && !(threads[t].Reserved? && threads[t].box == box)
    ensures HeldIn(m, threads[t := pc], box)
  {
    forall j: nat | j < |m.cells| && !m.cells[j].published
      ensures HasHolder(threads[t := pc], box, m.popped + j)
    {
      assert HasHolder(threads, box, m.popped + j);
      var u :| HeldBy(threads, u, box, m.popped + j);
      assert HeldBy(threads[t := pc], u, box, m.popped + j);
    }
  }

  lemma HeldReserve<C>(m: Mail<C>, threads: seq<Pc<C>>, t: nat, box: Box, c: C)
    requires HeldIn(m, threads, box) && t < |threads| && !threads[t].Reserved?
    ensures HeldIn(m.(cells := Reserve(m.cells, c), log := m.log + [c]),
                   threads[t := Reserved(box, m.popped + |m.cells|)], box)
  {
    var m' := m.(cells := Reserve(m.cells, c), log := m.log + [c]);
    var ts := threads[t := Reserved(box, m.popped + |m.cells|)];
    HeldElsewhere(m, threads, t, ts[t], box);
    forall j: nat | j < |m'.cells| && !m'.cells[j].published ensures HasHolder(ts, box, m'.popped + j) {
      if j == |m.cells| {
        assert HeldBy(ts, t, box, m'.popped + j);
      } else {
        assert m'.cells[j] == m.cells[j] && HasHolder(ts, box, m.popped + j);
      }
    }
  }

  lemma HeldPublish<C>(m: Mail<C>, threads: seq<Pc<C>>, t: nat, box: Box, pc: Pc<C>)
    requires HeldIn(m, threads, box) && t < |threads| && threads[t].Reserved? && threads[t].box == box
    requires Open(m, threads[t].pos)
    ensures HeldIn(m.(cells := Publish(m.cells, threads[t].pos - m.popped)), threads[t := pc], box)
  {
    var m', ts := m.(cells := Publish(m.cells, threads[t].pos - m.popped)), threads[t := pc];
    forall j: nat | j < |m'.cells| && !m'.cells[j].published ensures HasHolder(ts, box, m'.popped + j) {
      assert !m.cells[j].published && HasHolder(threads, box, m.popped + j);
      var u :| HeldBy(threads, u, box, m.popped + j);
      assert HeldBy(ts, u, box, m'.popped + j);
    }
  }

  lemma HeldPop<C>(m: Mail<C>, threads: seq<Pc<C>>, box: Box)
    requires HeldIn(m, threads, box) && m.cells != []
    ensures HeldIn(m.(cells := m.cells[1..], popped := m.popped + 1), threads, box)
  {
    var m' := m.(cells := m.cells[1..], popped := m.popped + 1);
    forall j: nat | j < |m'.cells| && !m'.cells[j].published
      ensures HasHolder(threads, box, m'.popped + j)
    {
      assert !m.cells[j + 1].published && HasHolder(threads, box, m.popped + (j + 1));
    }
  }

  lemma HeldHandle<C>(m: Mail<C>, m': Mail<C>, threads: seq<Pc<C>>, box: Box)
    requires HeldIn(m, threads, box) && m'.cells == m.cells && m'.popped == m.popped
    ensures HeldIn(m', threads, box)
  {
  }

  lemma StepKeepsHeld<C>(s: State<C>, e: Step<C>, box: Box)
    requires Enabled(s, e) && HeldIn(MailOf(s, box), s.threads, box)
    ensures HeldIn(MailOf(Next(s, e), box), Next(s, e).threads, box)
  {
    var m, m', s', t := MailOf(s, box), MailOf(Next(s, e), box), Next(s, e), e.t;
    Moves(s, e);
    if e.PushReserves? && s.threads[t].box == box {
      HeldReserve(m, s.threads, t, box, s.threads[t].command);
    } else if e.PushPublishes? && s.threads[t].box == box {
      HeldPublish(m, s.threads, t, box, s'.threads[t]);
    } else {
      HeldElsewhere(m, s.threads, t, s'.threads[t], box);
      if e.TryPop? && s'.threads[t].Handling? && s'.threads[t].box == box {
        HeldPop(m, s'.threads, box);
      } else {
        HeldHandle(m, m', s'.threads, box);
      }
    }
  }

  lemma {:induction false} RunKeepsHeld<C>(ss: seq<State<C>>, es: seq<Step<C>>, n: nat)
    requires IsRun(ss, es) && n < |ss|
    ensures HeldInv(ss[n])
  {
    if n > 0 {
      RunKeepsHeld(ss, es, n - 1);
      assert StepAt(ss, es, n - 1);
      StepKeepsHeld(ss[n - 1], es[n - 1], Normal);
      StepKeepsHeld(ss[n - 1], es[n - 1], Priority);
    }
  }

  // ------------------------------------------------------------------
  // Reachable states
  // ------------------------------------------------------------------

  /** The last state of some run. */
  ghost predicate Reachable<C(!new)>(s: State<C>) {
    exists ss: seq<State<C>>, es: seq<Step<C>> :: IsRun(ss, es) && ss[|es|] == s
  }

  lemma ReachableInv<C(!new)>(s: State<C>)
    requires Reachable(s)
    ensures Inv(s) && HeldInv(s)
  {
    var ss: seq<State<C>>, es: seq<Step<C>> :| IsRun(ss, es) && ss[|es|] == s;
    RunKeepsInv(ss, es, |es|);
    RunKeepsHeld(ss, es, |es|);
  }

  lemma RunOneMore<C>(ss: seq<State<C>>, es: seq<Step<C>>, e: Step<C>)
    requires IsRun(ss, es) && Enabled(ss[|es|], e)
    ensures IsRun(ss + [Next(ss[|es|], e)], es + [e])
  {
    var ss', es' := ss + [Next(ss[|es|], e)], es + [e];
    forall n | 0 <= n < |es'| ensures StepAt(ss', es', n) {
      assert n < |es| ==> StepAt(ss, es, n);
    }
  }

  lemma ReachableNext<C(!new)>(s: State<C>, e: Step<C>)
    requires Reachable(s) && Enabled(s, e)
    ensures Reachable(Next(s, e))
  {
    var ss: seq<State<C>>, es: seq<Step<C>> :| IsRun(ss, es) && ss[|es|] == s;
    RunOneMore(ss, es, e);
    assert (ss + [Next(s, e)])[|es + [e]|] == Next(s, e);
  }

  lemma RunReaches<C(!new)>(ss: seq<State<C>>, es: seq<Step<C>>, n: nat)
    requires IsRun(ss, es) && n < |ss|
    ensures Reachable(ss[n])
  {
    var ss', es' := ss[..n + 1], es[..n];
    forall m | 0 <= m < |es'| ensures StepAt(ss', es', m) {
      assert StepAt(ss, es, m);
    }
    assert IsRun(ss', es') && ss'[|es'|] == ss[n];
  }

  /** A run goes on from `s` to `s'` without new work. */
  ghost predicate GoesTo<C(!new)>(s: State<C>, es: seq<Step<C>>, s': State<C>) {
    Leads(s, es, s') && AllGoOn(es) && Reachable(s')
  }

  lemma GoesNowhere<C(!new)>(s: State<C>)
    requires Reachable(s)
    ensures GoesTo(s, [], s)
  {
  }

  lemma GoesFirst<C(!new)>(s: State<C>, e: Step<C>, es: seq<Step<C>>, s': State<C>)
    requires Enabled(s, e) && GoesOn(e) && GoesTo(Next(s, e), es, s')
    ensures GoesTo(s, [e] + es, s')
  {
    Prepend(s, e, Next(s, e), es, s');
  }

  lemma GoesTwice<C(!new)>(s: State<C>, a: seq<Step<C>>, s1: State<C>, b: seq<Step<C>>, s2: State<C>)
    requires GoesTo(s, a, s1) && GoesTo(s1, b, s2)
    ensures GoesTo(s, a + b, s2)
  {
    LeadsOn(s, a, s1, b, s2);
  }

  // ------------------------------------------------------------------
  // First, everyone publishes
  // ------------------------------------------------------------------

  ghost predicate NoneReserved<C>(threads: seq<Pc<C>>, k: nat) {
    forall t | 0 <= t < |threads| && t < k :: !threads[t].Reserved?
  }

  /** The same commands, threads and capacities. */
  ghost predicate SameWork<C>(s: State<C>, s': State<C>) {
    && |s'.threads| == |s.threads| && s'.normal.log == s.normal.log && s'.priority.log == s.priority.log
  }

  ghost predicate OnlyPublished<C>(s: State<C>, s': State<C>) {
    && SameWork(s, s') && s'.tasks == s.tasks
    && forall t | 0 <= t < |s.threads| && s.threads[t].Idle? :: s'.threads[t].Idle?
  }

  lemma CanPublishOwn<C(!new)>(s: State<C>, t: nat)
    requires Reachable(s) && t < |s.threads| && s.threads[t].Reserved?
    ensures Enabled(s, PushPublishes(t))
  {
    ReachableInv(s);
  }

  lemma Publishes<C>(s: State<C>, t: nat)
    requires t < |s.threads| && Enabled(s, PushPublishes(t))
    ensures var s1 := Next(s, PushPublishes(t));
            OnlyPublished(s, s1) && s1.threads == s.threads[t := Scheduling]
  {
  }

  lemma {:induction false} PublishFrom<C(!new)>(s: State<C>, k: nat) returns (es: seq<Step<C>>, s': State<C>)
    requires Reachable(s) && k <= |s.threads| && NoneReserved(s.threads, k)
    ensures GoesTo(s, es, s') && OnlyPublished(s, s') && NoneReserved(s'.threads, |s'.threads|)
    decreases |s.threads| - k
  {
    if k == |s.threads| {
      es, s' := [], s;
      GoesNowhere(s);
    } else if !s.threads[k].Reserved? {
      es, s' := PublishFrom(s, k + 1);
    } else {
      CanPublishOwn(s, k);
      Publishes(s, k);
      ReachableNext(s, PushPublishes(k));
      es, s' := PublishFrom(Next(s, PushPublishes(k)), k + 1);
      GoesFirst(s, PushPublishes(k), es, s');
      es := [PushPublishes(k)] + es;
    }
  }

  // ------------------------------------------------------------------
  // Then, one thread drains
  // ------------------------------------------------------------------

  ghost predicate Published<C>(m: Mail<C>) {
    forall j: nat | j < |m.cells| :: m.cells[j].published
  }

  ghost predicate AllPublished<C>(s: State<C>) {
    Published(s.normal) && Published(s.priority)
  }

  lemma NobodyHolds<C(!new)>(s: State<C>)
    requires Reachable(s) && NoneReserved(s.threads, |s.threads|)
    ensures AllPublished(s)
  {
    ReachableInv(s);
    HeldPublished(s.normal, s.threads, Normal);
    HeldPublished(s.priority, s.threads, Priority);
  }

  lemma NoHolder<C>(threads: seq<Pc<C>>, box: Box)
    requires NoneReserved(threads, |threads|)
    ensures forall pos: nat :: !HasHolder(threads, box, pos)
  {
  }

  lemma HeldPublished<C>(m: Mail<C>, threads: seq<Pc<C>>, box: Box)
    requires HeldIn(m, threads, box) && NoneReserved(threads, |threads|)
    ensures Published(m)
  {
    NoHolder(threads, box);
  }

  /** Thread `u` has the drain, or is about to claim it. */
  ghost predicate Drives<C>(s: State<C>, u: nat) {
    u < |s.threads| && (Token(s.threads[u]) > 0
                        || ((s.threads[u].Rechecking? || s.threads[u].Scheduling?) && !s.drainScheduled))
  }

  /** How far `u` is from its next pop. */
  function Rank<C>(s: State<C>, pc: Pc<C>): nat {
    match pc
    case PopNormal(_, _) => if s.normal.cells == [] then 9 else 0
    case PopPriority(_, _) => 1
    case Claimed => 2
    case Scheduling => 3
    case Rechecking => 4
    case Ending => 5
    case CheckPending(_, _) => 6
    case Finishing(_) => 7
    case _ => 8
  }

  function DriverStep<C>(pc: Pc<C>, u: nat): Step<C> {
    match pc
    case PopNormal(_, _) => TryPop(u)
    case PopPriority(_, _) => TryPop(u)
    case Claimed => PostFails(u)
    case Scheduling => Exchange(u)
    case Rechecking => Recheck(u)
    case Ending => EndDrain(u)
    case CheckPending(_, _) => LoadPending(u)
    case Finishing(_) => ReleaseHandled(u)
    case _ => Handle(u)
  }

  /** Closer to an empty queue, with the same thread at work. */
  ghost predicate Nearer<C>(s: State<C>, u: nat, s1: State<C>) {
    && AllPublished(s1) && Drives(s, u) && Drives(s1, u) && SameWork(s, s1)
    && (Queued(s1) < Queued(s) || (Queued(s1) == Queued(s) && Rank(s1, s1.threads[u]) < Rank(s, s.threads[u])))
  }

  lemma PopNearer<C>(s: State<C>, u: nat)
    requires AllPublished(s) && Drives(s, u) && Queued(s) > 0
    requires s.threads[u].PopNormal? || s.threads[u].PopPriority?
    ensures Nearer(s, u, Next(s, TryPop(u)))
  {
  }

  lemma HandleNearer<C>(s: State<C>, u: nat)
    requires AllPublished(s) && Drives(s, u) && s.threads[u].Handling?
    ensures Nearer(s, u, Next(s, Handle(u)))
  {
  }

  lemma OtherNearer<C>(s: State<C>, u: nat)
    requires AllPublished(s) && Drives(s, u) && Queued(s) > 0 && s.pending > 0
    requires !s.threads[u].PopNormal? && !s.threads[u].PopPriority? && !s.threads[u].Handling?
    ensures Enabled(s, DriverStep(s.threads[u], u)) && Nearer(s, u, Next(s, DriverStep(s.threads[u], u)))
  {
  }

  lemma QueuedIsPending<C(!new)>(s: State<C>)
    requires Reachable(s) && Queued(s) > 0
    ensures s.pending > 0
  {
    ReachableInv(s);
  }

  lemma DriveStep<C(!new)>(s: State<C>, u: nat) returns (e: Step<C>)
    requires Reachable(s) && AllPublished(s) && Drives(s, u) && Queued(s) > 0
    ensures Enabled(s, e) && GoesOn(e) && Reachable(Next(s, e)) && Nearer(s, u, Next(s, e))
  {
    e := DriverStep(s.threads[u], u);
    QueuedIsPending(s);
    if e.TryPop? {
      PopNearer(s, u);
    } else if e.Handle? {
      HandleNearer(s, u);
    } else {
      OtherNearer(s, u);
    }
    ReachableNext(s, e);
  }

  lemma {:induction false} Drive<C(!new)>(s: State<C>, u: nat) returns (es: seq<Step<C>>, s': State<C>)
    requires Reachable(s) && AllPublished(s) && Drives(s, u)
    ensures GoesTo(s, es, s') && Drives(s', u) && SameWork(s, s') && Queued(s') == 0
    decreases Queued(s), Rank(s, s.threads[u])
  {
    if Queued(s) == 0 {
      es, s' := [], s;
      GoesNowhere(s);
    } else {
      var e := DriveStep(s, u);
      es, s' := Drive(Next(s, e), u);
      GoesFirst(s, e, es, s');
      es := [e] + es;
    }
  }

  /** Only who drains has a command in hand. */
  lemma OthersHandleNothing<C(!new)>(s: State<C>, u: nat)
    requires Reachable(s) && Drives(s, u)
    ensures NoneHandles(s, u)
  {
    ReachableInv(s);
    if Token(s.threads[u]) > 0 {
      OneHolder(s, u);
    } else {
      forall t | 0 <= t < |s.threads| ensures Token(s.threads[t]) == 0 {
        SumUpdate(s.threads, t, s.threads[t], Token);
      }
    }
  }

  /** No thread but `u` has a command in hand. */
  ghost predicate NoneHandles<C>(s: State<C>, u: nat) {
    forall t | 0 <= t < |s.threads| && t != u :: !s.threads[t].Handling?
  }

  ghost predicate Handled<C>(s: State<C>) {
    && s.normal.cells == [] && s.priority.cells == []
    && s.normal.handled == s.normal.log && s.priority.handled == s.priority.log
  }

  /** Nothing is queued and nothing is in hand: all was handled. */
  lemma AllWasHandled<C(!new)>(s: State<C>)
    requires Reachable(s) && Queued(s) == 0 && NoneHandles(s, |s.threads|)
    ensures Handled(s)
  {
    ReachableInv(s);
    SumZero(s.threads, Hands(Normal));
    SumZero(s.threads, Hands(Priority));
    assert MailInv(s, Normal) && MailInv(s, Priority);
  }

  lemma HandlesLast<C>(s: State<C>, u: nat)
    requires u < |s.threads| && s.threads[u].Handling? && NoneHandles(s, u)
    ensures var s1 := Next(s, Handle(u));
            SameWork(s, s1) && Queued(s1) == Queued(s) && NoneHandles(s1, |s1.threads|)
  {
  }

  /** The last command is in hand. */
  lemma FinishLast<C(!new)>(s: State<C>, u: nat) returns (es: seq<Step<C>>, s': State<C>)
    requires Reachable(s) && u < |s.threads| && Queued(s) == 0 && NoneHandles(s, u)
    ensures GoesTo(s, es, s') && SameWork(s, s') && Handled(s')
  {
    GoesNowhere(s);
    es, s' := [], s;
    if s.threads[u].Handling? {
      HandlesLast(s, u);
      ReachableNext(s, Handle(u));
      s' := Next(s, Handle(u));
      GoesNowhere(s');
      GoesFirst(s, Handle(u), [], s');
      es := [Handle(u)] + [];
    }
    AllWasHandled(s');
  }

  /** Someone to drain: the holder of the token, a thread about to claim it, or `idle`, who takes the posted task. */
  lemma FindDriver<C(!new)>(s: State<C>) returns (u: nat)
    requires Reachable(s) && NoneReserved(s.threads, |s.threads|) && Queued(s) > 0 && s.tasks == 0
    ensures Drives(s, u)
  {
    ReachableInv(s);
    if s.drainScheduled {
      u := SumPositive(s.threads, Token);
    } else {
      u := SumPositive(s.threads, Waker);
    }
  }

  lemma StartsDrain<C>(s: State<C>, idle: nat)
    requires s.tasks > 0 && idle < |s.threads| && s.threads[idle].Idle?
    ensures var s1 := Next(s, StartTask(idle));
            && Drives(s1, idle) && SameWork(s, s1) && s1.normal == s.normal && s1.priority == s.priority
  {
  }

  lemma DrainAll<C(!new)>(s: State<C>, u: nat) returns (es: seq<Step<C>>, s': State<C>)
    requires Reachable(s) && AllPublished(s) && Drives(s, u)
    ensures GoesTo(s, es, s') && SameWork(s, s') && Handled(s')
  {
    var a, s1 := Drive(s, u);
    OthersHandleNothing(s1, u);
    var b: seq<Step<C>>;
    b, s' := FinishLast(s1, u);
    GoesTwice(s, a, s1, b, s');
    es := a + b;
  }

  /** Someone may have the last command in hand. */
  lemma DrainNone<C(!new)>(s: State<C>) returns (es: seq<Step<C>>, s': State<C>)
    requires Reachable(s) && Queued(s) == 0
    ensures GoesTo(s, es, s') && SameWork(s, s') && Handled(s')
  {
    if u: nat :| u < |s.threads| && s.threads[u].Handling? {
      OthersHandleNothing(s, u);
      es, s' := FinishLast(s, u);
    } else {
      GoesNowhere(s);
      es, s' := [], s;
      AllWasHandled(s);
    }
  }

  /** With everything published. */
  lemma HandlePublished<C(!new)>(s: State<C>, idle: nat) returns (es: seq<Step<C>>, s': State<C>)
    requires Reachable(s) && AllPublished(s) && NoneReserved(s.threads, |s.threads|)
    requires s.tasks > 0 ==> idle < |s.threads| && s.threads[idle].Idle?
    ensures GoesTo(s, es, s') && SameWork(s, s') && Handled(s')
  {
    if Queued(s) == 0 {
      es, s' := DrainNone(s);
    } else if s.tasks == 0 {
      var u := FindDriver(s);
      es, s' := DrainAll(s, u);
    } else {
      StartsDrain(s, idle);
      ReachableNext(s, StartTask(idle));
      es, s' := DrainAll(Next(s, StartTask(idle)), idle);
      GoesFirst(s, StartTask(idle), es, s');
      es := [StartTask(idle)] + es;
    }
  }

  lemma HandleAll<C(!new)>(s: State<C>, idle: nat) returns (es: seq<Step<C>>, s': State<C>)
    requires Reachable(s) && (s.tasks > 0 ==> idle < |s.threads| && s.threads[idle].Idle?)
    ensures GoesTo(s, es, s') && SameWork(s, s') && Handled(s')
  {
    var a, s1 := PublishFrom(s, 0);
    NobodyHolds(s1);
    var b: seq<Step<C>>;
    b, s' := HandlePublished(s1, idle);
    GoesTwice(s, a, s1, b, s');
    es := a + b;
  }

  /**
   No state of a run is a dead end: whatever was taken by then can still be brought to the
   handler without any new submission, given an idle thread for a posted drain.
   */
  lemma EverythingCanBeHandled<C(!new)>(ss: seq<State<C>>, es: seq<Step<C>>, n: nat, idle: nat)
    returns (more: seq<Step<C>>, s': State<C>)
    requires IsRun(ss, es) && n < |ss|
    requires ss[n].tasks > 0 ==> idle < |ss[n].threads| && ss[n].threads[idle].Idle?
    ensures Leads(ss[n], more, s') && AllGoOn(more) && Handled(s')
    ensures s'.normal.log == ss[n].normal.log && s'.priority.log == ss[n].priority.log
  {
    RunReaches(ss, es, n);
    more, s' := HandleAll(ss[n], idle);
  }

  // ------------------------------------------------------------------
  // Admission
  // ------------------------------------------------------------------

  /**
   A submission is refused only after the gate was found closed, or by a mailbox whose slots
   are all taken, by queued commands and at most the one the drain has in hand.
   */
  lemma RefusedExactly<C>(ss: seq<State<C>>, es: seq<Step<C>>, n: nat, t: nat)
    requires IsRun(ss, es) && n < |es| && t < |ss[n].threads| && t < |ss[n + 1].threads|
    requires !ss[n].threads[t].Refused? && ss[n + 1].threads[t].Refused?
    ensures var s, pc := ss[n], ss[n].threads[t];
            || (pc.Announced? && !s.accepting)
            || (pc.Admitted? && |MailOf(s, pc.box).cells| + Sum(s.threads, Hands(pc.box)) >= MailOf(s, pc.box).capacity)
  {
    assert StepAt(ss, es, n);
    Moves(ss[n], es[n]);
  }

  /** At most `capacity` commands are queued, and at most one of a mailbox is in hand. */
  lemma {:induction false} QueuesBounded<C>(ss: seq<State<C>>, es: seq<Step<C>>, n: nat, box: Box)
    requires IsRun(ss, es) && n < |ss|
    ensures |MailOf(ss[n], box).cells| <= MailOf(ss[n], box).capacity == MailOf(ss[0], box).capacity
    ensures Sum(ss[n].threads, Hands(box)) <= 1
  {
    OneInHand(ss, es, n, box);
    if n > 0 {
      QueuesBounded(ss, es, n - 1, box);
      assert StepAt(ss, es, n - 1);
      StepBounded(ss[n - 1], es[n - 1], box);
    }
  }

  lemma StepBounded<C>(s: State<C>, e: Step<C>, box: Box)
    requires Enabled(s, e) && |MailOf(s, box).cells| <= MailOf(s, box).capacity
    ensures |MailOf(Next(s, e), box).cells| <= MailOf(Next(s, e), box).capacity == MailOf(s, box).capacity
  {
  }

  lemma {:induction false} SumBelow<C>(ts: seq<Pc<C>>, w: Pc<C> -> nat, v: Pc<C> -> nat)
    requires forall i | 0 <= i < |ts| :: w(ts[i]) <= v(ts[i])
    ensures Sum(ts, w) <= Sum(ts, v)
    decreases |ts|
  {
    if ts != [] {
      SumBelow(ts[1..], w, v);
    }
  }

  lemma OneInHand<C>(ss: seq<State<C>>, es: seq<Step<C>>, n: nat, box: Box)
    requires IsRun(ss, es) && n < |ss|
    ensures Sum(ss[n].threads, Hands(box)) <= 1
  {
    RunKeepsInv(ss, es, n);
    SumBelow(ss[n].threads, Hands(box), Token);
  }

  /** The mailbox of `box` took `c`, and nothing else happened to the commands. */
  ghost predicate Took<C>(s: State<C>, box: Box, c: C, s': State<C>) {
    && MailOf(s', box).log == MailOf(s, box).log + [c]
    && (forall b: Box | b != box :: MailOf(s', b).log == MailOf(s, b).log)
  }

  lemma Admits<C>(s: State<C>, t: nat, box: Box, c: C) returns (s': State<C>)
    requires s.accepting && t < |s.threads| && s.threads[t].Idle?
    ensures Leads(s, [Submit(t, box, c)] + ([CheckAdmission(t)] + []), s')
    ensures s' == s.(threads := s.threads[t := Admitted(box, c)], pending := s.pending + 1)
  {
    var s1 := Next(s, Submit(t, box, c));
    s' := Next(s1, CheckAdmission(t));
    Prepend(s1, CheckAdmission(t), s', [], s');
    Prepend(s, Submit(t, box, c), s1, [CheckAdmission(t)] + [], s');
  }

  lemma Reserves<C>(s: State<C>, t: nat, box: Box, c: C)
    requires t < |s.threads| && s.threads[t] == Admitted(box, c) && |MailOf(s, box).cells| < MailOf(s, box).capacity
    ensures var s1 := Next(s, PushReserves(t));
            && Took(s, box, c, s1) && |s1.threads| == |s.threads| && s1.threads[t].Reserved?
            && s1.threads == s.threads[t := s1.threads[t]] && Enabled(s1, PushPublishes(t))
  {
  }

  /** Reserved and published. */
  lemma RoomTakes<C>(s: State<C>, t: nat, box: Box, c: C) returns (s': State<C>)
    requires t < |s.threads| && s.threads[t] == Admitted(box, c) && |MailOf(s, box).cells| < MailOf(s, box).capacity
    ensures Leads(s, [PushReserves(t)] + ([PushPublishes(t)] + []), s')
    ensures Took(s, box, c, s') && s'.threads == s.threads[t := Scheduling]
  {
    Reserves(s, t, box, c);
    var s1 := Next(s, PushReserves(t));
    Publishes(s1, t);
    s' := Next(s1, PushPublishes(t));
    Prepend(s1, PushPublishes(t), s', [], s');
    Prepend(s, PushReserves(t), s1, [PushPublishes(t)] + [], s');
  }

  /** An open scheduler with room takes what an idle thread submits. */
  lemma OpenTakes<C>(s: State<C>, t: nat, box: Box, c: C) returns (s': State<C>)
    requires s.accepting && t < |s.threads| && s.threads[t].Idle? && |MailOf(s, box).cells| < MailOf(s, box).capacity
    ensures Leads(s, [Submit(t, box, c), CheckAdmission(t), PushReserves(t), PushPublishes(t)], s')
    ensures Took(s, box, c, s') && s'.threads == s.threads[t := Scheduling]
  {
    var s2 := Admits(s, t, box, c);
    s' := RoomTakes(s2, t, box, c);
    var a, b := [Submit(t, box, c)] + ([CheckAdmission(t)] + []), [PushReserves(t)] + ([PushPublishes(t)] + []);
    LeadsOn(s, a, s2, b, s');
    assert a + b == [Submit(t, box, c), CheckAdmission(t), PushReserves(t), PushPublishes(t)];
  }

  lemma {:induction false} LeadsReachable<C(!new)>(s: State<C>, es: seq<Step<C>>, s': State<C>)
    requires Reachable(s) && Leads(s, es, s')
    ensures Reachable(s')
    decreases |es|
  {
    if es != [] {
      ReachableNext(s, es[0]);
      LeadsReachable(Next(s, es[0]), es[1..], s');
    }
  }

  /** A thread that has published either leaves the drain to others and is idle, or gets it. */
  lemma AfterPublishing<C(!new)>(s: State<C>, t: nat)
    requires Reachable(s) && t < |s.threads| && s.threads[t].Scheduling?
    ensures var s' := Next(s, Exchange(t));
            Reachable(s') && SameWork(s, s') && (s'.tasks > 0 ==> t < |s'.threads| && s'.threads[t].Idle?)
  {
    ReachableNext(s, Exchange(t));
    ClaimedIsAlone(Next(s, Exchange(t)), t);
  }

  lemma ClaimedIsAlone<C(!new)>(s: State<C>, t: nat)
    requires Reachable(s) && t < |s.threads|
    ensures s.threads[t].Claimed? ==> s.tasks == 0
  {
    ReachableInv(s);
    if s.threads[t].Claimed? {
      OneHolder(s, t);
    }
  }

  /**
   In every state of a run in which the scheduler is open and the mailbox has room, an idle
   thread can submit a command: it is taken after everything taken before, and can then be
   handled without any new submission.
   */
  lemma AcceptedIsHandled<C(!new)>(ss: seq<State<C>>, es: seq<Step<C>>, n: nat, t: nat, box: Box, c: C)
    returns (more: seq<Step<C>>, s1: State<C>, s': State<C>)
    requires IsRun(ss, es) && n < |ss| && ss[n].accepting && t < |ss[n].threads| && ss[n].threads[t].Idle?
    requires |MailOf(ss[n], box).cells| < MailOf(ss[n], box).capacity
    ensures Leads(ss[n], [Submit(t, box, c), CheckAdmission(t), PushReserves(t), PushPublishes(t)], s1)
    ensures Took(ss[n], box, c, s1) && Leads(s1, more, s') && AllGoOn(more)
    ensures Handled(s') && MailOf(s', box).handled == MailOf(ss[n], box).log + [c]
  {
    RunReaches(ss, es, n);
    s1 := OpenTakes(ss[n], t, box, c);
    LeadsReachable(ss[n], [Submit(t, box, c), CheckAdmission(t), PushReserves(t), PushPublishes(t)], s1);
    AfterPublishing(s1, t);
    more, s' := HandleAll(Next(s1, Exchange(t)), t);
    GoesFirst(s1, Exchange(t), more, s');
    more := [Exchange(t)] + more;
  }

  // ------------------------------------------------------------------
  // Corrections first
  // ------------------------------------------------------------------

  /** `t` looked for a priority command at step `m`, found none published, and did nothing since. */
  ghost predicate LookedFirst<C>(ss: seq<State<C>>, es: seq<Step<C>>, m: nat, n: nat, t: nat) {
    && m < n < |ss| && n <= |es| && es[m] == TryPop(t) && t < |ss[n].threads| && t < |ss[m].threads|
    && ss[m].threads[t].PopPriority?
    && (ss[m].priority.cells == [] || !ss[m].priority.cells[0].published)
    && forall j | m < j <= n :: t < |ss[j].threads| && ss[j].threads[t] == ss[n].threads[t]
  }

  lemma NormalAfterPriority<C>(s: State<C>, e: Step<C>, t: nat)
    requires Enabled(s, e) && t < |s.threads| && t < |Next(s, e).threads| && Next(s, e).threads[t].PopNormal?
    ensures Next(s, e).threads[t] == s.threads[t]
         || (&& e == TryPop(t) && s.threads[t].PopPriority?
             && (s.priority.cells == [] || !s.priority.cells[0].published))
  {
    Moves(s, e);
  }

  /** A thread tries for a normal command only after it found no published priority command in the same iteration. */
  lemma {:induction false} PriorityFirst<C>(ss: seq<State<C>>, es: seq<Step<C>>, n: nat, t: nat) returns (m: nat)
    requires IsRun(ss, es) && n < |ss| && t < |ss[n].threads| && ss[n].threads[t].PopNormal?
    ensures LookedFirst(ss, es, m, n, t)
    decreases n
  {
    if n > 0 {
      m := n - 1;
      assert StepAt(ss, es, m);
      Moves(ss[m], es[m]);
      NormalAfterPriority(ss[m], es[m], t);
      if ss[m].threads[t] == ss[n].threads[t] {
        m := PriorityFirst(ss, es, n - 1, t);
      }
    }
  }

  // ------------------------------------------------------------------
  // Batches
  // ------------------------------------------------------------------

  /** A thread ends its batch only after 64 commands, with nothing pending, or after the last retry. */
  lemma EndsExactly<C>(ss: seq<State<C>>, es: seq<Step<C>>, n: nat, t: nat)
    requires IsRun(ss, es) && n < |es| && t < |ss[n].threads| && t < |ss[n + 1].threads|
    requires !ss[n].threads[t].Ending? && ss[n + 1].threads[t].Ending?
    ensures var pc := ss[n].threads[t];
            || (pc.Finishing? && pc.processed == 64)
            || (pc.CheckPending? && (ss[n].pending == 0 || pc.retries == 16))
  {
    RunKeepsInv(ss, es, n);
    assert StepAt(ss, es, n);
    Moves(ss[n], es[n]);
  }

  /** After a command that is not its last the batch starts over: at the priority mailbox, with all its retries. */
  lemma StartsOver<C>(ss: seq<State<C>>, es: seq<Step<C>>, n: nat, t: nat)
    requires IsRun(ss, es) && n < |es| && t < |ss[n].threads| && t < |ss[n + 1].threads|
    requires ss[n].threads[t].Finishing? && ss[n].threads[t].processed < 64 && es[n] == ReleaseHandled(t)
    ensures ss[n + 1].threads[t] == PopPriority(ss[n].threads[t].processed, 0)
    ensures ss[n + 1].pending == ss[n].pending - 1
  {
    assert StepAt(ss, es, n);
    Moves(ss[n], es[n]);
  }

  /** Only the drain that popped a command hands it to the handler, right after. */
  lemma HandsOn<C>(ss: seq<State<C>>, es: seq<Step<C>>, n: nat, box: Box) returns (t: nat)
    requires IsRun(ss, es) && n < |es| && MailOf(ss[n + 1], box).handled != MailOf(ss[n], box).handled
    ensures HandsOver(ss[n], ss[n + 1], t, box)
  {
    assert StepAt(ss, es, n);
    Moves(ss[n], es[n]);
    t := es[n].t;
  }

  ghost predicate HandsOver<C>(s: State<C>, s': State<C>, t: nat, box: Box) {
    && t < |s.threads| && s.threads[t].Handling? && s.threads[t].box == box
    && MailOf(s', box).handled == MailOf(s, box).handled + [s.threads[t].command]
  }
}
