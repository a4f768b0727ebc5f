/**
 What the protocol must do: from any state of a run it can come to rest, with every request
 answered and every correction sent that was due.
 */
module ProtocolProgress {
  import opened Versions
  import opened Protocol
  import opened Transforms
  import opened ProtocolInvariants
  import opened Convergence
  import opened ProtocolTheorems
  import opened ProtocolRuns

  /** Steps that bring no new work and lose nothing: no client acts but by reading, nothing is refused or dropped. */
  predicate GoesOn(s: Step) {
    || s.Receive? || s.Accept? || s.MarkCorrection? || s.PushCorrection? || s.PopCorrection? || s.ClearMark?
    || s.Corrected? || s.Transformed? || s.SceneEdited? || s.Joined? || s.Reloaded?
  }

  predicate AllGoOn(steps: seq<Step>) {
    forall i | 0 <= i < |steps| :: GoesOn(steps[i])
  }

  /** The last state of some run. */
  ghost predicate Reachable(w: World) {
    exists ws: seq<World>, steps: seq<Step> :: IsRun(ws, steps) && ws[|steps|] == w
  }

  lemma ReachableInv(w: World)
    requires Reachable(w)
    ensures Inv(w)
  {
    var ws: seq<World>, steps: seq<Step> :| IsRun(ws, steps) && ws[|steps|] == w;
    RunKeepsInv(ws, steps, |steps|);
  }

  lemma RunOneMore(ws: seq<World>, steps: seq<Step>, s: Step)
    requires IsRun(ws, steps) && Enabled(ws[|steps|], s)
    ensures IsRun(ws + [Next(ws[|steps|], s)], steps + [s])
  {
    var ws', steps' := ws + [Next(ws[|steps|], s)], steps + [s];
    forall n | 0 <= n < |steps'| ensures StepAt(ws', steps', n) {
      assert n < |steps| ==> StepAt(ws, steps, n);
    }
  }

  lemma ReachableNext(w: World, s: Step)
    requires Reachable(w) && Possible(w, s) && GoesOn(s)
    ensures Reachable(Next(w, s))
  {
    var ws: seq<World>, steps: seq<Step> :| IsRun(ws, steps) && ws[|steps|] == w;
    RunOneMore(ws, steps, s);
    assert (ws + [Next(w, s)])[|steps + [s]|] == Next(w, s);
  }

  lemma RunReaches(ws: seq<World>, steps: seq<Step>, n: nat)
    requires IsRun(ws, steps) && n < |ws|
    ensures Reachable(ws[n])
  {
    var ws', steps' := ws[..n + 1], steps[..n];
    forall m | 0 <= m < |steps'| ensures StepAt(ws', steps', m) {
      assert StepAt(ws, steps, m);
    }
    assert IsRun(ws', steps') && ws'[|steps'|] == ws[n];
  }

  /** A run goes on from `w` to `w'`. */
  ghost predicate GoesTo(w: World, steps: seq<Step>, w': World) {
    Leads(w, steps, w') && AllGoOn(steps) && Reachable(w') && w'.clients.Keys == w.clients.Keys
  }

  lemma GoesNowhere(w: World)
    requires Reachable(w)
    ensures GoesTo(w, [], w)
  {
  }

  lemma GoesFirst(w: World, s: Step, steps: seq<Step>, w': World)
    requires Possible(w, s) && GoesOn(s) && GoesTo(Next(w, s), steps, w') && Next(w, s).clients.Keys == w.clients.Keys
    ensures GoesTo(w, [s] + steps, w')
  {
    Prepend(w, s, Next(w, s), steps, w');
  }

  lemma GoesOnce(w: World, s: Step)
    requires Reachable(w) && Possible(w, s) && GoesOn(s) && Next(w, s).clients.Keys == w.clients.Keys
    ensures GoesTo(w, [s], Next(w, s))
  {
    ReachableNext(w, s);
    GoesNowhere(Next(w, s));
    GoesFirst(w, s, [], Next(w, s));
    assert [s] + [] == [s];
  }

  lemma GoesTwice(w: World, a: seq<Step>, w1: World, b: seq<Step>, w2: World)
    requires GoesTo(w, a, w1) && GoesTo(w1, b, w2)
    ensures GoesTo(w, a + b, w2)
  {
    LeadsOn(w, a, w1, b, w2);
  }

  // ------------------------------------------------------------------
  // The io threads
  // ------------------------------------------------------------------

  /** Connections with nothing to submit. */
  ghost predicate Listen(w: World, ids: set<ConnectionId>) {
    forall c | c in ids && c in w.clients :: w.clients[c].io.Listening?
  }

  /** Connections whose requests are all in the queue. */
  ghost predicate Drained(w: World, ids: set<ConnectionId>) {
    forall c | c in ids && c in w.clients :: w.clients[c].out == []
  }

  /** Only connection `c` moved. */
  ghost predicate OnlyAt(w: World, c: ConnectionId, w': World) {
    && w'.clients.Keys == w.clients.Keys && w'.consumer == w.consumer
    && forall d | d in w.clients && d != c :: w'.clients[d] == w.clients[d]
  }

  lemma PushOf(w: World, c: ConnectionId) returns (steps: seq<Step>, w': World)
    requires Reachable(w) && c in w.clients && !w.clients[c].io.Rejected?
    ensures GoesTo(w, steps, w') && OnlyAt(w, c, w') && w'.clients[c].io.Listening?
    ensures w'.clients[c].out == w.clients[c].out
  {
    if w.clients[c].io.Submitting? {
      steps, w' := [PushCorrection(c)], Next(w, PushCorrection(c));
      GoesOnce(w, PushCorrection(c));
    } else {
      steps, w' := [], w;
      GoesNowhere(w);
    }
  }

  lemma ListenOf(w: World, c: ConnectionId) returns (steps: seq<Step>, w': World)
    requires Reachable(w) && c in w.clients
    ensures GoesTo(w, steps, w') && OnlyAt(w, c, w') && w'.clients[c].io.Listening?
    ensures w'.clients[c].out == w.clients[c].out
  {
    if w.clients[c].io.Rejected? {
      var w1 := Next(w, MarkCorrection(c));
      ReachableNext(w, MarkCorrection(c));
      steps, w' := PushOf(w1, c);
      GoesFirst(w, MarkCorrection(c), steps, w');
      steps := [MarkCorrection(c)] + steps;
    } else {
      steps, w' := PushOf(w, c);
    }
  }

  lemma AcceptOf(w: World, c: ConnectionId) returns (steps: seq<Step>, w': World)
    requires Reachable(w) && c in w.clients && w.clients[c].io.Listening?
    ensures GoesTo(w, steps, w') && OnlyAt(w, c, w') && w'.clients[c].io.Listening? && w'.clients[c].out == []
    decreases if c in w.clients then |w.clients[c].out| else 0
  {
    if w.clients[c].out == [] {
      steps, w' := [], w;
      GoesNowhere(w);
    } else {
      var w1 := Next(w, Accept(c));
      ReachableNext(w, Accept(c));
      steps, w' := AcceptOf(w1, c);
      GoesFirst(w, Accept(c), steps, w');
      steps := [Accept(c)] + steps;
    }
  }

  /** Every io thread has done its work. */
  lemma {:induction false} IoDone(w: World, todo: set<ConnectionId>) returns (steps: seq<Step>, w': World)
    requires Reachable(w) && todo <= w.clients.Keys
    requires Listen(w, w.clients.Keys - todo) && Drained(w, w.clients.Keys - todo)
    ensures GoesTo(w, steps, w') && w'.consumer == w.consumer
    ensures Listen(w', w'.clients.Keys) && Drained(w', w'.clients.Keys)
    decreases |todo|
  {
    if todo == {} {
      steps, w' := [], w;
      GoesNowhere(w);
    } else {
      var c :| c in todo;
      var a, w1 := ListenOf(w, c);
      var b, w2 := AcceptOf(w1, c);
      var d: seq<Step>;
      d, w' := IoDone(w2, todo - {c});
      GoesTwice(w, a, w1, b, w2);
      GoesTwice(w, a + b, w2, d, w');
      steps := a + b + d;
    }
  }

  // ------------------------------------------------------------------
  // The consumer
  // ------------------------------------------------------------------

  /** The io threads are where they were. */
  ghost predicate IoSame(w: World, w': World) {
    && w'.clients.Keys == w.clients.Keys
    && forall c | c in w.clients :: w'.clients[c].io == w.clients[c].io && w'.clients[c].out == w.clients[c].out
  }

  lemma CorrectedSame(w: World)
    requires w.consumer.Cleared?
    ensures var w' := Next(w, Corrected);
            IoSame(w, w') && w'.consumer.Idle? && w'.queue == w.queue && w'.priority == w.priority
  {
  }

  lemma ClearedSame(w: World)
    requires w.consumer.Popped?
    ensures var w' := Next(w, ClearMark);
            IoSame(w, w') && w'.consumer.Cleared? && w'.queue == w.queue && w'.priority == w.priority
  {
  }

  /** The correction at hand is finished. */
  lemma Finished(w: World) returns (steps: seq<Step>, w': World)
    requires Reachable(w)
    ensures GoesTo(w, steps, w') && IoSame(w, w') && w'.consumer.Idle?
    ensures w'.queue == w.queue && w'.priority == w.priority
  {
    if w.consumer.Idle? {
      steps, w' := [], w;
      GoesNowhere(w);
    } else if w.consumer.Cleared? {
      steps, w' := [Corrected], Next(w, Corrected);
      CorrectedSame(w);
      GoesOnce(w, Corrected);
    } else {
      var w1 := Next(w, ClearMark);
      ClearedSame(w);
      CorrectedSame(w1);
      GoesOnce(w, ClearMark);
      GoesOnce(w1, Corrected);
      w' := Next(w1, Corrected);
      GoesTwice(w, [ClearMark], w1, [Corrected], w');
      steps := [ClearMark] + [Corrected];
    }
  }

  /** What the consumer does with the oldest command: an update it can apply is applied. */
  ghost function HeadStep(w: World): Step
    requires w.queue != []
  {
    match w.queue[0]
    case EditCommand(_, Update(p, _, _, _)) => Transformed(Readable(w, p))
    case EditCommand(_, SceneEdit(_, _, _)) => SceneEdited("", NoChange(false))
    case JoinCommand(_) => Joined
    case ReloadCommand => Reloaded(w.root, w.inactive, [])
  }

  /** Only frames were sent, and layers and book moved. */
  ghost predicate RestSame(w: World, w': World) {
    IoSame(w, w') && w'.consumer == w.consumer && w'.queue == w.queue && w'.priority == w.priority
  }

  lemma AckSame(w: World, a: ConnectionId, id: nat, ok: bool)
    ensures RestSame(w, SendAck(w, a, id, ok))
  {
  }

  lemma BroadcastSame(w: World, p: PrimPath, o: ConnectionId)
    ensures RestSame(w, BroadcastChange(w, p, o))
  {
  }

  lemma CorrectionSame(w: World, a: ConnectionId, p: PrimPath)
    ensures RestSame(w, SendCorrection(w, a, p))
  {
  }

  lemma UpdateSame(w: World, o: ConnectionId, u: Update, ok: bool)
    requires u.Update? && (ok ==> Readable(w, u.prim))
    ensures RestSame(w, HandleTransform(w, o, u, ok))
  {
    if Check(w.book, o, u.prim, u.base) == Current && ok {
      var w1 := Settle(Author(w, u), o, u);
      AppliedIs(w, o, u);
      BroadcastSame(w1, u.prim, o);
      AckSame(BroadcastChange(w1, u.prim, o), o, u.requestId, true);
    } else {
      AckSame(w, o, u.requestId, false);
      CorrectionSame(SendAck(w, o, u.requestId, false), o, u.prim);
    }
  }

  lemma HeadSame(w: World)
    requires w.queue != [] && w.consumer.Idle?
    ensures Possible(w, HeadStep(w)) && GoesOn(HeadStep(w))
    ensures RestSame(Pop(w), Next(w, HeadStep(w)))
  {
    var s := HeadStep(w);
    if s.Transformed? {
      UpdateSame(Pop(w), w.queue[0].origin, w.queue[0].update, s.ok);
    } else if s.SceneEdited? {
      AckSame(Pop(w), w.queue[0].origin, w.queue[0].update.requestId, false);
    }
  }

  lemma {:induction false} QueueDone(w: World) returns (steps: seq<Step>, w': World)
    requires Reachable(w) && w.consumer.Idle?
    ensures GoesTo(w, steps, w') && IoSame(w, w') && w'.consumer.Idle? && w'.queue == []
    decreases |w.queue|
  {
    if w.queue == [] {
      steps, w' := [], w;
      GoesNowhere(w);
    } else {
      HeadSame(w);
      ReachableNext(w, HeadStep(w));
      steps, w' := QueueDone(Next(w, HeadStep(w)));
      GoesFirst(w, HeadStep(w), steps, w');
      steps := [HeadStep(w)] + steps;
    }
  }

  lemma {:induction false} PriorityDone(w: World) returns (steps: seq<Step>, w': World)
    requires Reachable(w) && w.consumer.Idle? && w.queue == []
    ensures GoesTo(w, steps, w') && IoSame(w, w') && w'.consumer.Idle? && w'.queue == [] && w'.priority == []
    decreases |w.priority|
  {
    if w.priority == [] {
      steps, w' := [], w;
      GoesNowhere(w);
    } else {
      var w1 := Next(w, PopCorrection);
      GoesOnce(w, PopCorrection);
      var b, w2 := Finished(w1);
      var c: seq<Step>;
      c, w' := PriorityDone(w2);
      GoesTwice(w, [PopCorrection], w1, b, w2);
      GoesTwice(w, [PopCorrection] + b, w2, c, w');
      steps := [PopCorrection] + b + c;
    }
  }

  // ------------------------------------------------------------------
  // Rest
  // ------------------------------------------------------------------

  lemma NothingLeft(w: World)
    requires Reachable(w) && w.consumer.Idle? && w.queue == [] && w.priority == []
    requires Listen(w, w.clients.Keys) && Drained(w, w.clients.Keys)
    ensures Calm(w)
  {
    ReachableInv(w);
    forall c | c in w.clients ensures w.clients[c].received <= |w.clients[c].hist| {
      assert ConnectionInv(w, c, "");
    }
  }

  lemma {:induction false} ReadsReach(w: World, c: ConnectionId) returns (steps: seq<Step>, w': World)
    requires Reachable(w) && c in w.clients && w.clients[c].received <= |w.clients[c].hist|
    ensures GoesTo(w, steps, w') && c in w'.clients && w' == w.(clients := w.clients[c := w'.clients[c]])
    ensures w'.clients[c].received == |w'.clients[c].hist|
    ensures w'.clients[c].io == w.clients[c].io && w'.clients[c].out == w.clients[c].out
    decreases if c in w.clients then |w.clients[c].hist| - w.clients[c].received else 0
  {
    if w.clients[c].received == |w.clients[c].hist| {
      steps, w' := [], w;
      GoesNowhere(w);
    } else {
      ReachableNext(w, Receive(c));
      steps, w' := ReadsReach(Next(w, Receive(c)), c);
      GoesFirst(w, Receive(c), steps, w');
      steps := [Receive(c)] + steps;
    }
  }

  lemma StillCalm(w: World, c: ConnectionId, w1: World)
    requires Calm(w) && c in w.clients && c in w1.clients && w1 == w.(clients := w.clients[c := w1.clients[c]])
    requires w1.clients[c].received == |w1.clients[c].hist|
    requires w1.clients[c].io == w.clients[c].io && w1.clients[c].out == w.clients[c].out
    ensures Calm(w1)
  {
  }

  lemma {:induction false} AllReadsReach(w: World, todo: set<ConnectionId>) returns (steps: seq<Step>, w': World)
    requires Reachable(w) && Calm(w) && todo <= w.clients.Keys
    requires forall c | c in w.clients && c !in todo :: w.clients[c].received == |w.clients[c].hist|
    ensures GoesTo(w, steps, w') && Quiescent(w')
    decreases |todo|
  {
    if todo == {} {
      steps, w' := [], w;
      GoesNowhere(w);
    } else {
      var c :| c in todo;
      var a, w1 := ReadsReach(w, c);
      StillCalm(w, c, w1);
      var b: seq<Step>;
      b, w' := AllReadsReach(w1, todo - {c});
      GoesTwice(w, a, w1, b, w');
      steps := a + b;
    }
  }

  lemma Settles(w: World) returns (steps: seq<Step>, w': World)
    requires Reachable(w)
    ensures GoesTo(w, steps, w') && Quiescent(w')
  {
    var a, w1 := IoDone(w, w.clients.Keys);
    var b, w2 := Finished(w1);
    var c, w3 := QueueDone(w2);
    var d, w4 := PriorityDone(w3);
    NothingLeft(w4);
    var e: seq<Step>;
    e, w' := AllReadsReach(w4, w4.clients.Keys);
    GoesTwice(w, a, w1, b, w2);
    GoesTwice(w, a + b, w2, c, w3);
    GoesTwice(w, a + b + c, w3, d, w4);
    GoesTwice(w, a + b + c + d, w4, e, w');
    steps := a + b + c + d + e;
  }

  /**
   From every state of a run the protocol can come to rest without anyone doing anything
   new, refusing a request or dropping a correction.
   */
  lemma CanComeToRest(ws: seq<World>, steps: seq<Step>, k: nat) returns (more: seq<Step>, w': World)
    requires IsRun(ws, steps) && k < |ws|
    ensures Leads(ws[k], more, w') && AllGoOn(more) && Quiescent(w') && w'.clients.Keys == ws[k].clients.Keys
  {
    RunReaches(ws, steps, k);
    more, w' := Settles(ws[k]);
  }

  /** The run with its continuation. */
  lemma {:induction false} RunOn(ws: seq<World>, steps: seq<Step>, more: seq<Step>, w': World)
    returns (ws': seq<World>)
    requires IsRun(ws, steps) && Leads(ws[|steps|], more, w') && AllGoOn(more)
    ensures IsRun(ws', steps + more) && ws'[|steps + more|] == w' && ws' == ws + ws'[|ws|..]
    ensures forall i | |steps| <= i < |ws'| :: ws'[i].clients.Keys == ws[|steps|].clients.Keys
    decreases |more|
  {
    if more == [] {
      ws' := ws;
      assert steps + more == steps;
    } else {
      var w1 := Next(ws[|steps|], more[0]);
      RunOneMore(ws, steps, more[0]);
      assert AllGoOn(more[1..]);
      ws' := RunOn(ws + [w1], steps + [more[0]], more[1..], w');
      assert (steps + [more[0]]) + more[1..] == steps + more;
      KeysStay(ws[|steps|], more[0]);
    }
  }

  lemma KeysStay(w: World, s: Step)
    requires Possible(w, s) && GoesOn(s)
    ensures Next(w, s).clients.Keys == w.clients.Keys
  {
  }

  /** Every correction that is due can be sent, unless its prim cannot be read when its turn comes. */
  lemma DebtCanBePaid(ws: seq<World>, steps: seq<Step>, c: ConnectionId, p: PrimPath)
    returns (ws': seq<World>, more: seq<Step>, k: nat)
    requires IsRun(ws, steps) && c in ws[|steps|].clients && Due(ws[|steps|], c, p)
    ensures IsRun(ws', steps + more) && AllGoOn(more) && |steps| <= k < |steps + more|
    ensures Corrects(ws'[k], (steps + more)[k], c, p) || Misses(ws'[k], (steps + more)[k], c, p)
  {
    var w': World;
    more, w' := CanComeToRest(ws, steps, |steps|);
    ws' := RunOn(ws, steps, more, w');
    assert ws'[|steps|] == ws[|steps|];
    k := CorrectionFollows(ws', steps + more, |steps|, |steps + more|, c, p);
    assert GoesOn((steps + more)[k]);
  }
}
