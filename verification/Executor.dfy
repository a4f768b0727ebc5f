/**
 The worker executor: tasks in a deque under a mutex, workers that sleep on a condition
 variable. A step is one critical section, one notification, or the end of a task.
 Workers may also wake up without a notification.
 */
module Executor {

  datatype Worker<T> = Looking | Asleep | Running(task: T) | Exited

  /**
   `notifies` and `notifyAll` are notifications between a caller's unlock and its call.
   `accepted`, `taken` and `finished` record every task.
   */
  datatype State<T> = State(
    tasks: seq<T>, stopping: bool, workers: seq<Worker<T>>, notifies: nat, notifyAll: bool, accepted: seq<T>,
    taken: nat, finished: multiset<T>)

  datatype Step<T> =
    | Post(task: T)
    | NotifyNobody
    | NotifyOne(w: nat)
    | Stop
    | NotifyAll
    | WakeUp(w: nat)
    | Look(w: nat)
    | Finish(w: nat)

  ghost predicate Enabled<T>(s: State<T>, e: Step<T>) {
    match e
    case Post(_) => true
    case NotifyNobody => s.notifies > 0 && forall w | 0 <= w < |s.workers| :: !s.workers[w].Asleep?
    case NotifyOne(w) => s.notifies > 0 && w < |s.workers| && s.workers[w].Asleep?
    case Stop => true
    case NotifyAll => s.notifyAll
    case WakeUp(w) => w < |s.workers| && s.workers[w].Asleep?
    case Look(w) => w < |s.workers| && s.workers[w].Looking?
    case Finish(w) => w < |s.workers| && s.workers[w].Running?
  }

  function Woken<T>(ws: seq<Worker<T>>): seq<Worker<T>> {
    seq(|ws|, i requires 0 <= i < |ws| => if ws[i].Asleep? then Looking else ws[i])
  }

  ghost function Next<T>(s: State<T>, e: Step<T>): State<T>
    requires Enabled(s, e)
  {
    match e
    case Post(t) =>
      if s.stopping then s
      else s.(tasks := s.tasks + [t], accepted := s.accepted + [t], notifies := s.notifies + 1)
    case NotifyNobody => s.(notifies := s.notifies - 1)
    case NotifyOne(w) => s.(notifies := s.notifies - 1, workers := s.workers[w := Looking])
    case Stop => if s.stopping then s else s.(stopping := true, notifyAll := true)
    case NotifyAll => s.(notifyAll := false, workers := Woken(s.workers))
    case WakeUp(w) => s.(workers := s.workers[w := Looking])
    case Look(w) =>
      if s.tasks != []
      then s.(tasks := s.tasks[1..], taken := s.taken + 1, workers := s.workers[w := Running(s.tasks[0])])
      else s.(workers := s.workers[w := if s.stopping then Exited else Asleep])
    case Finish(w) => s.(finished := s.finished + multiset{s.workers[w].task}, workers := s.workers[w := Looking])
  }

  ghost predicate Initial<T>(s: State<T>) {
    && s.workers != [] && (forall w | 0 <= w < |s.workers| :: s.workers[w].Looking?)
    && s.tasks == [] && !s.stopping && s.notifies == 0 && !s.notifyAll && s.accepted == [] && s.taken == 0
    && s.finished == multiset{}
  }

  // ------------------------------------------------------------------
  // Invariant
  // ------------------------------------------------------------------

  function Held<T>(ws: seq<Worker<T>>): multiset<T> {
    if ws == [] then multiset{} else Hold(ws[0]) + Held(ws[1..])
  }

  function Hold<T>(w: Worker<T>): multiset<T> {
    if w.Running? then multiset{w.task} else multiset{}
  }

  ghost predicate Awake<T>(ws: seq<Worker<T>>) {
    exists w :: 0 <= w < |ws| && (ws[w].Looking? || ws[w].Running?)
  }

  ghost predicate NoneAsleep<T>(ws: seq<Worker<T>>) {
    forall w | 0 <= w < |ws| :: !ws[w].Asleep?
  }

  ghost predicate NoneExited<T>(ws: seq<Worker<T>>) {
    forall w | 0 <= w < |ws| :: !ws[w].Exited?
  }

  /** Tasks are taken in order, and each taken task is held by one worker or finished. */
  ghost predicate Balanced<T>(accepted: seq<T>, taken: nat, tasks: seq<T>, held: multiset<T>, finished: multiset<T>) {
    taken <= |accepted| && tasks == accepted[taken..] && multiset(accepted[..taken]) == held + finished
  }

  ghost predicate TasksInv<T>(s: State<T>) {
    Balanced(s.accepted, s.taken, s.tasks, Held(s.workers), s.finished)
  }

  /** No wake-up is lost. */
  ghost predicate WakeInv<T>(s: State<T>) {
    && s.workers != []
    && (s.tasks != [] ==> NoneExited(s.workers) && (s.notifies > 0 || Awake(s.workers)))
    && (s.stopping ==> s.notifyAll || NoneAsleep(s.workers))
    && (!s.stopping ==> NoneExited(s.workers))
  }

  ghost predicate Inv<T>(s: State<T>) {
    TasksInv(s) && WakeInv(s)
  }

  /** Taking the same away on both sides of a sum. */
  lemma Exchange<T>(a: multiset<T>, b: multiset<T>, b': multiset<T>, x: multiset<T>, y: multiset<T>)
    requires b' + x == b + y
    ensures (a + b') + x == (a + b) + y
  {
    assert (a + b') + x == a + (b' + x);
    assert (a + b) + y == a + (b + y);
  }

  lemma {:induction false} HeldUpdate<T>(ws: seq<Worker<T>>, w: nat, x: Worker<T>)
    requires w < |ws|
    ensures Held(ws[w := x]) + Hold(ws[w]) == Held(ws) + Hold(x)
    decreases |ws|
  {
    if w == 0 {
      assert ws[w := x][1..] == ws[1..];
    } else {
      assert ws[w := x][1..] == ws[1..][w - 1 := x];
      HeldUpdate(ws[1..], w - 1, x);
      Exchange(Hold(ws[0]), Held(ws[1..]), Held(ws[1..][w - 1 := x]), Hold(ws[w]), Hold(x));
    }
  }

  lemma HeldFinish<T>(ws: seq<Worker<T>>, w: nat)
    requires w < |ws|
    ensures Held(ws[w := Looking]) + Hold(ws[w]) == Held(ws)
  {
    HeldUpdate(ws, w, Looking);
    assert Held(ws) + Hold(Looking) == Held(ws);
  }

  lemma HeldTake<T>(ws: seq<Worker<T>>, w: nat, t: T)
    requires w < |ws| && !ws[w].Running?
    ensures Held(ws[w := Running(t)]) == Held(ws) + multiset{t}
  {
    HeldUpdate(ws, w, Running(t));
    assert Held(ws[w := Running(t)]) + Hold(ws[w]) == Held(ws[w := Running(t)]);
  }

  lemma {:induction false} HeldSame<T>(ws: seq<Worker<T>>, vs: seq<Worker<T>>)
    requires |ws| == |vs| && forall w | 0 <= w < |ws| :: Hold(ws[w]) == Hold(vs[w])
    ensures Held(ws) == Held(vs)
    decreases |ws|
  {
    if ws != [] {
      assert Hold(ws[0]) == Hold(vs[0]);
      HeldSame(ws[1..], vs[1..]);
    }
  }

  lemma TakeKept<T>(
    accepted: seq<T>, taken: nat, tasks: seq<T>, held: multiset<T>, held': multiset<T>, finished: multiset<T>)
    requires Balanced(accepted, taken, tasks, held, finished) && tasks != [] && held' == held + multiset{tasks[0]}
    ensures Balanced(accepted, taken + 1, tasks[1..], held', finished)
  {
    assert accepted[..taken + 1] == accepted[..taken] + [tasks[0]];
    assert (held + finished) + multiset{tasks[0]} == held' + finished;
  }

  lemma RestKept<T>(ws: seq<Worker<T>>, w: nat, x: Worker<T>)
    requires w < |ws| && !ws[w].Running? && !x.Running?
    ensures Held(ws[w := x]) == Held(ws)
  {
    HeldSame(ws[w := x], ws);
  }

  lemma LookKept<T>(s: State<T>, w: nat)
    requires TasksInv(s) && Enabled(s, Look(w))
    ensures TasksInv(Next(s, Look(w)))
  {
    var s' := Next(s, Look(w));
    if s.tasks == [] {
      RestKept(s.workers, w, s'.workers[w]);
      assert s'.workers == s.workers[w := s'.workers[w]];
    } else {
      TakenKept(s, w);
    }
  }

  lemma TakenKept<T>(s: State<T>, w: nat)
    requires TasksInv(s) && Enabled(s, Look(w)) && s.tasks != []
    ensures TasksInv(Next(s, Look(w)))
  {
    TakenBalanced(s.accepted, s.taken, s.tasks, s.workers, w, s.finished);
  }

  lemma TakenBalanced<T>(accepted: seq<T>, taken: nat, tasks: seq<T>, ws: seq<Worker<T>>, w: nat, finished: multiset<T>)
    requires Balanced(accepted, taken, tasks, Held(ws), finished) && tasks != [] && w < |ws| && !ws[w].Running?
    ensures Balanced(accepted, taken + 1, tasks[1..], Held(ws[w := Running(tasks[0])]), finished)
  {
    HeldTake(ws, w, tasks[0]);
    TakeKept(accepted, taken, tasks, Held(ws), Held(ws[w := Running(tasks[0])]), finished);
  }

  lemma PostKept<T>(accepted: seq<T>, taken: nat, tasks: seq<T>, held: multiset<T>, finished: multiset<T>, t: T)
    requires Balanced(accepted, taken, tasks, held, finished)
    ensures Balanced(accepted + [t], taken, tasks + [t], held, finished)
  {
    assert (accepted + [t])[..taken] == accepted[..taken];
  }

  lemma ReleaseKept<T>(
    accepted: seq<T>, taken: nat, tasks: seq<T>, held: multiset<T>, t: multiset<T>, finished: multiset<T>)
    requires Balanced(accepted, taken, tasks, held + t, finished)
    ensures Balanced(accepted, taken, tasks, held, finished + t)
  {
    assert (held + t) + finished == held + (finished + t);
  }

  lemma FinishKept<T>(s: State<T>, w: nat)
    requires TasksInv(s) && Enabled(s, Finish(w))
    ensures TasksInv(Next(s, Finish(w)))
  {
    HeldFinish(s.workers, w);
    ReleaseKept(s.accepted, s.taken, s.tasks, Held(s.workers[w := Looking]), Hold(s.workers[w]), s.finished);
  }

  lemma TasksKept<T>(s: State<T>, e: Step<T>)
    requires Inv(s) && Enabled(s, e)
    ensures TasksInv(Next(s, e))
  {
    var s' := Next(s, e);
    if e.Post? {
      PostKept(s.accepted, s.taken, s.tasks, Held(s.workers), s.finished, e.task);
    } else if e.NotifyOne? || e.WakeUp? || e.NotifyAll? {
      HeldSame(s.workers, s'.workers);
    } else if e.Look? {
      LookKept(s, e.w);
    } else if e.Finish? {
      FinishKept(s, e.w);
    }
  }

  /** The worker `w` is awake afterwards. */
  lemma WorkerAwake<T>(ws: seq<Worker<T>>, w: nat, x: Worker<T>)
    requires w < |ws| && (x.Looking? || x.Running?)
    ensures Awake(ws[w := x]) && (NoneExited(ws) ==> NoneExited(ws[w := x]))
            && (NoneAsleep(ws) ==> NoneAsleep(ws[w := x]))
  {
    assert ws[w := x][w] == x;
  }

  lemma WorkerRests<T>(ws: seq<Worker<T>>, w: nat, x: Worker<T>)
    requires w < |ws| && (x.Asleep? || x.Exited?)
    ensures x.Asleep? && NoneExited(ws) ==> NoneExited(ws[w := x])
    ensures x.Exited? && NoneAsleep(ws) ==> NoneAsleep(ws[w := x])
  {
  }

  lemma LookWakes<T>(s: State<T>, w: nat)
    requires WakeInv(s) && Enabled(s, Look(w))
    ensures WakeInv(Next(s, Look(w)))
  {
    if s.tasks != [] {
      WorkerAwake(s.workers, w, Running(s.tasks[0]));
    } else {
      WorkerRests(s.workers, w, if s.stopping then Exited else Asleep);
    }
  }

  lemma WakeKept<T>(s: State<T>, e: Step<T>)
    requires Inv(s) && Enabled(s, e)
    ensures WakeInv(Next(s, e))
  {
    if e.NotifyOne? || e.WakeUp? || e.Finish? {
      WorkerAwake(s.workers, e.w, Looking);
    } else if e.Look? {
      LookWakes(s, e.w);
    } else if e.NotifyNobody? {
      assert s.workers[0].Looking? || s.workers[0].Running? || s.workers[0].Exited?;
    } else if e.NotifyAll? {
      AllAwake(s.workers);
    }
  }

  lemma AllAwake<T>(ws: seq<Worker<T>>)
    requires ws != []
    ensures NoneAsleep(Woken(ws)) && (NoneExited(ws) ==> NoneExited(Woken(ws)) && Awake(Woken(ws)))
  {
    var vs := Woken(ws);
    if NoneExited(ws) {
      assert vs[0].Looking? || vs[0].Running?;
    }
  }

  lemma InitialInv<T>(s: State<T>)
    requires Initial(s)
    ensures Inv(s)
  {
    NoneHeld(s.workers);
  }

  lemma {:induction false} NoneHeld<T>(ws: seq<Worker<T>>)
    requires forall w | 0 <= w < |ws| :: !ws[w].Running?
    ensures Held(ws) == multiset{}
    decreases |ws|
  {
    if ws != [] {
      NoneHeld(ws[1..]);
    }
  }

  ghost predicate Takes<T>(s: State<T>, e: Step<T>, s': State<T>) {
    Enabled(s, e) && s' == Next(s, e)
  }

  ghost predicate StepAt<T>(ss: seq<State<T>>, es: seq<Step<T>>, n: nat)
    requires |ss| == |es| + 1 && n < |es|
  {
    Takes(ss[n], es[n], ss[n + 1])
  }

  ghost predicate IsRun<T>(ss: seq<State<T>>, es: seq<Step<T>>) {
    |ss| == |es| + 1 && Initial(ss[0]) && forall n | 0 <= n < |es| :: StepAt(ss, es, n)
  }

  lemma {:induction false} RunKeepsInv<T>(ss: seq<State<T>>, es: seq<Step<T>>, n: nat)
    requires IsRun(ss, es) && n < |ss|
    ensures Inv(ss[n])
  {
    if n == 0 {
      InitialInv(ss[0]);
    } else {
      RunKeepsInv(ss, es, n - 1);
      assert StepAt(ss, es, n - 1);
      TasksKept(ss[n - 1], es[n - 1]);
      WakeKept(ss[n - 1], es[n - 1]);
    }
  }

  /** Stop has joined every worker: each accepted task ran exactly once. */
  lemma StoppedRanAll<T>(ss: seq<State<T>>, es: seq<Step<T>>, n: nat)
    requires IsRun(ss, es) && n < |ss| && (forall w | 0 <= w < |ss[n].workers| :: ss[n].workers[w].Exited?)
    ensures ss[n].tasks == [] && ss[n].finished == multiset(ss[n].accepted)
  {
    RunKeepsInv(ss, es, n);
    var s := ss[n];
    NoneHeld(s.workers);
    assert s.workers[0].Exited?;
    assert s.accepted[..s.taken] == s.accepted;
  }

  /** Nothing is left to do, except that a sleeper may wake up for nothing. */
  ghost predicate Settled<T>(s: State<T>) {
    s.notifies == 0 && !s.notifyAll && forall w | 0 <= w < |s.workers| :: s.workers[w].Asleep? || s.workers[w].Exited?
  }

  /**
   No wake-up is lost: when nothing moves any more all accepted tasks ran, and a stopped executor has
   no worker left.
   */
  lemma NoLostWakeUp<T>(ss: seq<State<T>>, es: seq<Step<T>>, n: nat)
    requires IsRun(ss, es) && n < |ss| && Settled(ss[n])
    ensures ss[n].tasks == [] && ss[n].finished == multiset(ss[n].accepted)
    ensures ss[n].stopping ==> forall w | 0 <= w < |ss[n].workers| :: ss[n].workers[w].Exited?
  {
    RunKeepsInv(ss, es, n);
    var s := ss[n];
    NoneHeld(s.workers);
    assert !Awake(s.workers);
    assert s.accepted[..s.taken] == s.accepted;
  }
}
