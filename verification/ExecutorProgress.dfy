/** What the executor must do: accept tasks until it is stopped, be able to run all of them, and then to stop. */
module ExecutorProgress {
  import opened Executor

  ghost predicate Leads<T>(s: State<T>, es: seq<Step<T>>, s': State<T>)
    decreases |es|
  {
    if es == [] then s == s' else Enabled(s, es[0]) && Leads(Next(s, es[0]), es[1..], s')
  }

  /** No new task, no Stop and no wake-up without a notification. */
  predicate GoesOn<T>(e: Step<T>) {
    !e.Post? && !e.Stop? && !e.WakeUp?
  }

  predicate AllGoOn<T>(es: seq<Step<T>>) {
    forall i | 0 <= i < |es| :: GoesOn(es[i])
  }

  lemma {:induction false} LeadsOn<T>(s: State<T>, a: seq<Step<T>>, s1: State<T>, b: seq<Step<T>>, s2: State<T>)
    requires Leads(s, a, s1) && Leads(s1, b, s2)
    ensures Leads(s, a + b, s2)
    decreases |a|
  {
    if a == [] {
      assert a + b == b;
    } else {
      LeadsOn(Next(s, a[0]), a[1..], s1, b, s2);
      assert (a + b)[1..] == a[1..] + b;
    }
  }

  /** The last state of some run. */
  ghost predicate Reachable<T(!new)>(s: State<T>) {
    exists ss: seq<State<T>>, es: seq<Step<T>> :: IsRun(ss, es) && ss[|es|] == s
  }

  lemma ReachableInv<T(!new)>(s: State<T>)
    requires Reachable(s)
    ensures Inv(s)
  {
    var ss: seq<State<T>>, es: seq<Step<T>> :| IsRun(ss, es) && ss[|es|] == s;
    RunKeepsInv(ss, es, |es|);
  }

  lemma RunOneMore<T>(ss: seq<State<T>>, es: seq<Step<T>>, e: Step<T>)
    requires IsRun(ss, es) && Enabled(ss[|es|], e)
    ensures IsRun(ss + [Next(ss[|es|], e)], es + [e])
  {
    var ss', es' := ss + [Next(ss[|es|], e)], es + [e];
    forall n | 0 <= n < |es'| ensures StepAt(ss', es', n) {
      assert n < |es| ==> StepAt(ss, es, n);
    }
  }

  lemma ReachableNext<T(!new)>(s: State<T>, e: Step<T>)
    requires Reachable(s) && Enabled(s, e)
    ensures Reachable(Next(s, e))
  {
    var ss: seq<State<T>>, es: seq<Step<T>> :| IsRun(ss, es) && ss[|es|] == s;
    RunOneMore(ss, es, e);
    assert (ss + [Next(s, e)])[|es + [e]|] == Next(s, e);
  }

  lemma RunReaches<T(!new)>(ss: seq<State<T>>, es: seq<Step<T>>, n: nat)
    requires IsRun(ss, es) && n < |ss|
    ensures Reachable(ss[n])
  {
    var ss', es' := ss[..n + 1], es[..n];
    forall m | 0 <= m < |es'| ensures StepAt(ss', es', m) {
      assert StepAt(ss, es, m);
    }
    assert IsRun(ss', es') && ss'[|es'|] == ss[n];
  }

  /** A run goes on from `s` to `s'`, with the same tasks accepted. */
  ghost predicate GoesTo<T(!new)>(s: State<T>, es: seq<Step<T>>, s': State<T>) {
    && Leads(s, es, s') && AllGoOn(es) && Reachable(s') && s'.accepted == s.accepted && s'.stopping == s.stopping
    && |s'.workers| == |s.workers|
  }

  lemma GoesFirst<T(!new)>(s: State<T>, e: Step<T>, es: seq<Step<T>>, s': State<T>)
    requires Enabled(s, e) && GoesOn(e) && GoesTo(Next(s, e), es, s')
    ensures GoesTo(s, [e] + es, s')
  {
    assert ([e] + es)[1..] == es;
  }

  lemma GoesTwice<T(!new)>(s: State<T>, a: seq<Step<T>>, s1: State<T>, b: seq<Step<T>>, s2: State<T>)
    requires GoesTo(s, a, s1) && GoesTo(s1, b, s2)
    ensures GoesTo(s, a + b, s2)
  {
    LeadsOn(s, a, s1, b, s2);
  }

  // ------------------------------------------------------------------
  // All tasks can run
  // ------------------------------------------------------------------

  function NotLooking<T>(ws: seq<Worker<T>>): nat {
    if ws == [] then 0 else (if ws[0].Looking? then 0 else 1) + NotLooking(ws[1..])
  }

  lemma {:induction false} OneLooks<T>(ws: seq<Worker<T>>, w: nat)
    requires w < |ws| && !ws[w].Looking?
    ensures NotLooking(ws[w := Looking]) < NotLooking(ws)
    decreases |ws|
  {
    if w == 0 {
      assert ws[w := Looking][1..] == ws[1..];
    } else {
      assert ws[w := Looking][1..] == ws[1..][w - 1 := Looking];
      OneLooks(ws[1..], w - 1);
    }
  }

  ghost predicate NoneRunning<T>(ws: seq<Worker<T>>) {
    forall w | 0 <= w < |ws| :: !ws[w].Running?
  }

  /** With a task queued and no worker running, one looks, or one sleeps and a notification is on its way. */
  lemma SomeoneComes<T(!new)>(s: State<T>) returns (w: nat)
    requires Reachable(s) && s.tasks != [] && NoneRunning(s.workers)
    ensures w < |s.workers| && (s.workers[w].Looking? || (s.workers[w].Asleep? && s.notifies > 0))
  {
    ReachableInv(s);
    if u: nat :| u < |s.workers| && s.workers[u].Looking? {
      w := u;
    } else {
      w := 0;
      assert !Awake(s.workers);
      assert !s.workers[0].Exited? && !s.workers[0].Running? && !s.workers[0].Looking?;
    }
  }

  lemma {:induction false} RunAll<T(!new)>(s: State<T>) returns (es: seq<Step<T>>, s': State<T>)
    requires Reachable(s)
    ensures GoesTo(s, es, s') && s'.tasks == [] && NoneRunning(s'.workers)
    decreases |s.tasks|, NotLooking(s.workers)
  {
    if u: nat :| u < |s.workers| && s.workers[u].Running? {
      OneLooks(s.workers, u);
      es, s' := RunAfter(s, Finish(u));
    } else if s.tasks != [] {
      var w := SomeoneComes(s);
      if s.workers[w].Looking? {
        es, s' := RunAfter(s, Look(w));
      } else {
        OneLooks(s.workers, w);
        es, s' := RunAfter(s, NotifyOne(w));
      }
    } else {
      es, s' := [], s;
    }
  }

  lemma {:induction false} RunAfter<T(!new)>(s: State<T>, e: Step<T>) returns (es: seq<Step<T>>, s': State<T>)
    requires Reachable(s) && Enabled(s, e) && (e.Finish? || e.Look? || e.NotifyOne?)
    requires |Next(s, e).tasks| < |s.tasks|
             || (Next(s, e).tasks == s.tasks && NotLooking(Next(s, e).workers) < NotLooking(s.workers))
    ensures GoesTo(s, es, s') && s'.tasks == [] && NoneRunning(s'.workers)
    decreases |s.tasks|, NotLooking(s.workers), 0
  {
    ReachableNext(s, e);
    es, s' := RunAll(Next(s, e));
    GoesFirst(s, e, es, s');
    es := [e] + es;
  }

  lemma AllFinished<T(!new)>(s: State<T>)
    requires Reachable(s) && s.tasks == [] && NoneRunning(s.workers)
    ensures s.finished == multiset(s.accepted)
  {
    ReachableInv(s);
    NoneHeld(s.workers);
    assert s.accepted[..s.taken] == s.accepted;
  }

  /** In every state of a run, stopped or not, all accepted tasks can still be run to their end. */
  lemma AllCanRun<T(!new)>(ss: seq<State<T>>, es: seq<Step<T>>, n: nat) returns (more: seq<Step<T>>, s': State<T>)
    requires IsRun(ss, es) && n < |ss|
    ensures Leads(ss[n], more, s') && AllGoOn(more) && s'.tasks == [] && s'.accepted == ss[n].accepted
    ensures s'.finished == multiset(ss[n].accepted)
  {
    RunReaches(ss, es, n);
    more, s' := RunAll(ss[n]);
    AllFinished(s');
  }

  // ------------------------------------------------------------------
  // Post and Stop
  // ------------------------------------------------------------------

  lemma {:induction false} StopBefore<T>(ss: seq<State<T>>, es: seq<Step<T>>, n: nat) returns (m: nat)
    requires IsRun(ss, es) && n < |ss| && ss[n].stopping
    ensures m < n && es[m].Stop?
    decreases n
  {
    if n > 0 {
      assert StepAt(ss, es, n - 1);
      m := n - 1;
      if ss[n - 1].stopping {
        m := StopBefore(ss, es, n - 1);
      }
    }
  }

  /** Post takes every task, at the end, unless Stop was called before. */
  lemma PostTakes<T>(ss: seq<State<T>>, es: seq<Step<T>>, n: nat)
    requires IsRun(ss, es) && n < |es| && es[n].Post? && forall m | 0 <= m < n :: !es[m].Stop?
    ensures ss[n + 1].accepted == ss[n].accepted + [es[n].task] && ss[n + 1].tasks == ss[n].tasks + [es[n].task]
  {
    assert StepAt(ss, es, n);
    if ss[n].stopping {
      var m := StopBefore(ss, es, n);
    }
  }

  /** Nothing is accepted after Stop. */
  lemma {:induction false} StopCloses<T>(ss: seq<State<T>>, es: seq<Step<T>>, n: nat, m: nat)
    requires IsRun(ss, es) && n < m < |ss| && es[n].Stop?
    ensures ss[m].stopping && ss[m].accepted == ss[n].accepted
    decreases m
  {
    assert StepAt(ss, es, m - 1);
    if n < m - 1 {
      StopCloses(ss, es, n, m - 1);
    }
  }

  /** Worker `w` and those after it may still look. */
  ghost predicate ExitedBefore<T>(ws: seq<Worker<T>>, k: nat) {
    && (forall w | 0 <= w < |ws| && w < k :: ws[w].Exited?)
    && forall w | 0 <= w < |ws| && k <= w :: ws[w].Looking? || ws[w].Exited?
  }

  lemma {:induction false} AllExit<T(!new)>(s: State<T>, k: nat) returns (es: seq<Step<T>>, s': State<T>)
    requires Reachable(s) && s.stopping && s.tasks == [] && k <= |s.workers| && ExitedBefore(s.workers, k)
    ensures GoesTo(s, es, s') && forall w | 0 <= w < |s'.workers| :: s'.workers[w].Exited?
    decreases |s.workers| - k
  {
    if k == |s.workers| {
      es, s' := [], s;
    } else if s.workers[k].Exited? {
      es, s' := AllExit(s, k + 1);
    } else {
      ReachableNext(s, Look(k));
      es, s' := AllExit(Next(s, Look(k)), k + 1);
      GoesFirst(s, Look(k), es, s');
      es := [Look(k)] + es;
    }
  }

  lemma WakesAll<T(!new)>(s: State<T>) returns (es: seq<Step<T>>, s': State<T>)
    requires Reachable(s) && s.stopping && s.tasks == [] && NoneRunning(s.workers)
    ensures GoesTo(s, es, s') && s'.tasks == [] && ExitedBefore(s'.workers, 0)
  {
    ReachableInv(s);
    es, s' := [], s;
    if s.notifyAll {
      ReachableNext(s, NotifyAll);
      s' := Next(s, NotifyAll);
      GoesFirst(s, NotifyAll, [], s');
      es := [NotifyAll] + [];
    }
  }

  /** A stopped executor can always run what it accepted and then end every worker, so Stop returns. */
  lemma StopCanEnd<T(!new)>(ss: seq<State<T>>, es: seq<Step<T>>, n: nat) returns (more: seq<Step<T>>, s': State<T>)
    requires IsRun(ss, es) && n < |ss| && ss[n].stopping
    ensures Leads(ss[n], more, s') && AllGoOn(more) && (forall w | 0 <= w < |s'.workers| :: s'.workers[w].Exited?)
    ensures s'.tasks == [] && s'.finished == multiset(ss[n].accepted)
  {
    RunReaches(ss, es, n);
    var a, s1 := RunAll(ss[n]);
    var b, s2 := WakesAll(s1);
    var c: seq<Step<T>>;
    c, s' := AllExit(s2, 0);
    GoesTwice(ss[n], a, s1, b, s2);
    GoesTwice(ss[n], a + b, s2, c, s');
    more := a + b + c;
    ExitedFinished(s');
  }

  lemma ExitedFinished<T(!new)>(s: State<T>)
    requires Reachable(s) && forall w | 0 <= w < |s.workers| :: s.workers[w].Exited?
    ensures s.tasks == [] && s.finished == multiset(s.accepted)
  {
    ReachableInv(s);
    NoneHeld(s.workers);
    assert s.workers[0].Exited?;
    assert s.accepted[..s.taken] == s.accepted;
  }
}
