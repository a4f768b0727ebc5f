/**
 Frames that share one version. A reload notice broadcasts all its prims under one
 server_seq, and a base is stale only if it is strictly smaller: an update sent between
 two frames of such a group passes as current. `HalfReadGroupDiverges` is a run in which
 that goes wrong, `GroupRuleExact` says exactly when it does, and
 `SingleFrameGroupsSuffice` that it cannot if every version covers one prim.
 */
module ProtocolGroups {
  import opened Versions
  import opened Protocol
  import opened Transforms
  import opened ProtocolInvariants
  import opened Convergence
  import opened ProtocolTheorems
  import opened Agreement
  import opened ProtocolRuns

  /** Like `IsRun`, but clients may send in the middle of a group. */
  ghost predicate IsPossibleRun(ws: seq<World>, steps: seq<Step>) {
    && |ws| == |steps| + 1 && Initial(ws[0])
    && forall i | 0 <= i < |steps| :: Possible(ws[i], steps[i]) && ws[i + 1] == Next(ws[i], steps[i])
  }

  /** A reload that leads to `w` tells the clients about `p`. */
  predicate Shown(w: World, p: PrimPath) {
    p !in w.session && Readable(w, p)
  }

  ghost predicate OneShown(w: World, affected: seq<PrimPath>) {
    forall p, q | p in affected && q in affected && Shown(w, p) && Shown(w, q) :: p == q
  }

  /** A reload shows at most one prim to the clients. */
  ghost predicate SingleFrame(w: World, s: Step) {
    s.Reloaded? ==> OneShown(Replaced(w, s.newRoot, s.inactive), s.affected)
  }

  predicate IsState(f: Frame) {
    f.Xform? || f.CreateFrame?
  }

  /** Every state frame has a version of its own, and the base is the version of a received frame. */
  ghost predicate StrictInv(cl: Client) {
    && cl.received <= |cl.hist|
    && (forall i, j | 0 <= i < j < |cl.hist| && IsState(cl.hist[j]) :: cl.hist[i].seq_ < cl.hist[j].seq_)
    && (forall j | 0 <= j < |cl.hist| && IsState(cl.hist[j]) :: 0 < cl.hist[j].seq_)
    && (cl.lastSeq == 0 || exists k :: 0 <= k < cl.received && cl.hist[k].seq_ == cl.lastSeq)
  }

  ghost predicate AllStrict(w: World) {
    forall c | c in w.clients :: StrictInv(w.clients[c])
  }

  lemma StrictIsRead(cl: Client, p: PrimPath)
    requires StrictInv(cl)
    ensures GroupRead(cl, p)
  {
  }

  lemma StrictDelivered(cl: Client, f: Frame)
    requires StrictInv(cl)
    requires IsState(f) ==> 0 < f.seq_ && forall i | 0 <= i < |cl.hist| :: cl.hist[i].seq_ < f.seq_
    ensures StrictInv(Deliver(cl, f))
  {
    var h := Deliver(cl, f).hist;
    assert forall i | 0 <= i < |cl.hist| :: h[i] == cl.hist[i];
    if cl.lastSeq != 0 {
      var k :| 0 <= k < cl.received && cl.hist[k].seq_ == cl.lastSeq;
      assert h[k].seq_ == cl.lastSeq;
    }
  }

  lemma StrictReceived(cl: Client)
    requires StrictInv(cl) && cl.received < |cl.hist|
    ensures StrictInv(ReceiveFrame(cl))
  {
    var cl' := ReceiveFrame(cl);
    if cl'.lastSeq == cl.lastSeq != 0 {
      var k :| 0 <= k < cl.received && cl.hist[k].seq_ == cl.lastSeq;
      assert k < cl'.received && cl'.hist[k].seq_ == cl'.lastSeq;
    } else if cl'.lastSeq != 0 {
      assert cl'.hist[cl.received].seq_ == cl'.lastSeq;
    }
  }

  /** All versions sent so far are below `s`. */
  ghost predicate Below(w: World, s: nat) {
    forall c, i | c in w.clients && 0 <= i < |w.clients[c].hist| :: w.clients[c].hist[i].seq_ < s
  }

  lemma BroadcastStrict(w: World, p: PrimPath, origin: ConnectionId)
    requires AllStrict(w) && (Readable(w, p) ==> Below(w, w.serverSeq) && w.serverSeq > 0)
    ensures AllStrict(BroadcastChange(w, p, origin))
  {
    var f := Xform(w.serverSeq, p, ReadBack(w, p));
    forall c | c in w.clients ensures StrictInv(BroadcastChange(w, p, origin).clients[c]) {
      assert StrictInv(w.clients[c]);
      if c != origin && Readable(w, p) {
        StrictDelivered(w.clients[c], f);
      }
    }
  }

  lemma AckStrict(w: World, c: ConnectionId, id: nat, ok: bool)
    requires AllStrict(w)
    ensures AllStrict(SendAck(w, c, id, ok))
  {
    if c in w.clients {
      StrictDelivered(w.clients[c], Ack(w.serverSeq, id, ok));
    }
  }

  lemma CorrectionStrict(w: World, c: ConnectionId, p: PrimPath)
    requires AllStrict(w) && Below(w, w.serverSeq + 1)
    ensures AllStrict(SendCorrection(w, c, p))
  {
    if c in w.clients && Readable(w, p) {
      StrictDelivered(w.clients[c], CorrectionOf(w, p));
    }
  }

  lemma AckBelow(w: World, c: ConnectionId, id: nat, ok: bool)
    requires Below(w, w.serverSeq + 1)
    ensures Below(SendAck(w, c, id, ok), w.serverSeq + 1)
  {
  }

  lemma TransformStrict(w: World, o: ConnectionId, u: Update, ok: bool)
    requires AllStrict(w) && Below(w, w.serverSeq + 1) && u.Update? && (ok ==> Readable(w, u.prim))
    ensures AllStrict(HandleTransform(w, o, u, ok))
  {
    if Check(w.book, o, u.prim, u.base) == Current && ok {
      var w1 := Settle(Author(w, u), o, u);
      AppliedIs(w, o, u);
      BroadcastStrict(w1, u.prim, o);
      AckStrict(BroadcastChange(w1, u.prim, o), o, u.requestId, true);
    } else {
      AckStrict(w, o, u.requestId, false);
      AckBelow(w, o, u.requestId, false);
      if Check(w.book, o, u.prim, u.base) == Current {
        CorrectionStrict(SendAck(w, o, u.requestId, false), o, u.prim);
      }
    }
  }

  lemma EveryoneStrict(w: World, f: Frame, o: ConnectionId)
    requires AllStrict(w) && Below(w, f.seq_) && (f.CreateFrame? || f.ActiveFrame?) && f.seq_ > 0
    ensures AllStrict(ToEveryone(w, f, o))
  {
    forall c | c in w.clients ensures StrictInv(ToEveryone(w, f, o).clients[c]) {
      StrictDelivered(w.clients[c], f);
    }
  }

  lemma SameStrict(w: World, w': World)
    requires AllStrict(w) && w' == w.(created := w'.created, inactive := w'.inactive, astray := w'.astray)
    ensures AllStrict(w')
  {
  }

  lemma SceneToAll(w: World, q: PrimPath, o: ConnectionId, e: SceneEffect)
    requires AllStrict(w) && Below(w, w.serverSeq + 1)
    ensures AllStrict(BroadcastScene(w, q, o, e))
  {
    if e.Created? {
      EveryoneStrict(w, CreateFrame(w.serverSeq + 1, q), o);
      SameStrict(ToEveryone(w, CreateFrame(w.serverSeq + 1, q), o), BroadcastCreate(w, q, o));
    } else {
      EveryoneStrict(w, ActiveFrame(w.serverSeq + 1, q, e.Activated?), o);
      SameStrict(ToEveryone(w, ActiveFrame(w.serverSeq + 1, q, e.Activated?), o),
                 BroadcastActive(w, q, o, e.Activated?));
    }
  }

  lemma SceneStrict(w: World, o: ConnectionId, u: Update, q: PrimPath, e: SceneEffect)
    requires AllStrict(w) && Below(w, w.serverSeq + 1)
    ensures AllStrict(HandleScene(w, o, u, q, e))
  {
    if e.NoChange? {
      AckStrict(w, o, u.requestId, e.ok);
    } else {
      SceneToAll(w, q, o, e);
      AckStrict(BroadcastScene(w, q, o, e), o, u.requestId, true);
    }
  }

  /** `unused`: the version of the reload has not been used yet. */
  lemma {:induction false} ReloadStrict(w: World, affected: seq<PrimPath>, unused: bool)
    requires AllStrict(w) && w.serverSeq > 0
    requires if unused then Below(w, w.serverSeq) else forall p | p in affected :: !Shown(w, p)
    requires OneShown(w, affected)
    requires forall i, j | 0 <= i < j < |affected| :: affected[i] != affected[j]
    ensures AllStrict(ReloadLoop(w, affected))
    decreases |affected|
  {
    if affected != [] {
      var q, rest := affected[0], affected[1..];
      assert q in affected && forall p | p in rest :: p in affected && p != q;
      ReloadShows(w, q);
      if Shown(w, q) {
        BroadcastStrict(w, q, 0);
        ReloadStrict(BroadcastChange(w, q, 0), rest, false);
      } else {
        ReloadHidden(w, q, unused);
        ReloadStrict(ReloadOne(w, q), rest, unused);
      }
    }
  }

  lemma ReloadShows(w: World, q: PrimPath)
    ensures forall p :: Shown(ReloadOne(w, q), p) == Shown(w, p)
  {
  }

  lemma ReloadHidden(w: World, q: PrimPath, unused: bool)
    requires AllStrict(w) && !Shown(w, q)
    ensures ReloadOne(w, q).clients == w.clients && ReloadOne(w, q).session == w.session && AllStrict(ReloadOne(w, q))
    ensures unused && Below(w, w.serverSeq) ==> Below(ReloadOne(w, q), w.serverSeq)
  {
  }

  lemma SentBelow(w: World)
    requires Inv(w)
    ensures Below(w, w.serverSeq + 1)
  {
    forall c, i | c in w.clients && 0 <= i < |w.clients[c].hist|
      ensures w.clients[c].hist[i].seq_ < w.serverSeq + 1
    {
      assert ConnectionInv(w, c, "");
    }
  }

  lemma JoinStrict(w: World, j: ConnectionId)
    requires AllStrict(w)
    ensures AllStrict(HandleJoin(w, j))
  {
    if j in w.clients {
      StrictDelivered(w.clients[j], Snapshot(w.serverSeq, SnapshotValues(w)));
    }
  }

  lemma ReloadedStrict(w: World, newRoot: Poses, inactive: set<PrimPath>, affected: seq<PrimPath>)
    requires AllStrict(w) && Below(w, w.serverSeq + 1) && OneShown(Replaced(w, newRoot, inactive), affected)
    requires forall i, j | 0 <= i < j < |affected| :: affected[i] != affected[j]
    ensures AllStrict(HandleReload(w, newRoot, inactive, affected))
  {
    var w1 := Replaced(w, newRoot, inactive);
    if affected != [] {
      assert forall p :: Shown(Numbered(w1, affected), p) == Shown(w1, p);
      ReloadStrict(Numbered(w1, affected), affected, true);
    }
  }

  lemma SinglePopped(w: World, s: Step)
    requires SingleFrame(w, s) && w.queue != []
    ensures SingleFrame(Pop(w), s)
  {
    if s.Reloaded? {
      var r, r1 := Replaced(w, s.newRoot, s.inactive), Replaced(Pop(w), s.newRoot, s.inactive);
      assert forall p :: Shown(r1, p) == Shown(r, p);
    }
  }

  lemma ConsumerStrict(w: World, s: Step)
    requires AllStrict(w) && Below(w, w.serverSeq + 1) && Possible(w, s) && SingleFrame(w, s) && ConsumerStep(s)
    ensures AllStrict(Next(w, s))
  {
    if s.Corrected? {
      CorrectionStrict(w.(consumer := Idle), w.consumer.connection, w.consumer.prim);
    } else {
      var w1 := Pop(w);
      assert w1.clients == w.clients && w1.serverSeq == w.serverSeq;
      SinglePopped(w, s);
      QueuedStrict(w, s, w1);
    }
  }

  lemma QueuedStrict(w: World, s: Step, w1: World)
    requires Possible(w, s) && SingleFrame(w1, s) && ConsumerStep(s) && !s.Corrected? && w1 == Pop(w)
    requires AllStrict(w1) && Below(w1, w1.serverSeq + 1)
    ensures AllStrict(Next(w, s))
  {
    match s
    case Transformed(ok) => TransformStrict(w1, w.queue[0].origin, w.queue[0].update, ok);
    case SceneEdited(q, e) => SceneStrict(w1, w.queue[0].origin, w.queue[0].update, q, e);
    case Joined => JoinStrict(w1, w.queue[0].connection);
    case Reloaded(newRoot, inactive, affected) => ReloadedStrict(w1, newRoot, inactive, affected);
  }

  lemma StrictSame(cl: Client, cl': Client)
    requires StrictInv(cl) && cl'.hist == cl.hist && cl'.received == cl.received && cl'.lastSeq == cl.lastSeq
    ensures StrictInv(cl')
  {
  }

  lemma OneStrict(w: World, w': World, c: ConnectionId)
    requires AllStrict(w) && c in w'.clients && w'.clients == w.clients[c := w'.clients[c]]
    requires StrictInv(w'.clients[c])
    ensures AllStrict(w')
  {
  }

  lemma OtherStrict(w: World, s: Step)
    requires AllStrict(w) && Possible(w, s) && !ConsumerStep(s)
    ensures AllStrict(Next(w, s))
  {
    var w' := Next(w, s);
    if s.Attach? {
      OneStrict(w, w', w.nextConnection);
    } else if s.ClearMark? && w.consumer.connection in w.clients {
      StrictSame(w.clients[w.consumer.connection], w'.clients[w.consumer.connection]);
      OneStrict(w, w', w.consumer.connection);
    } else if !s.Detach? && !s.SubmitReload? && !s.PopCorrection? && !s.ClearMark? {
      ClientStrict(w, s, s.c);
      OneStrict(w, w', s.c);
    }
  }

  lemma ClientStrict(w: World, s: Step, c: ConnectionId)
    requires Possible(w, s) && c in w.clients && StrictInv(w.clients[c])
    requires !ConsumerStep(s) && !s.Attach? && !s.Detach? && !s.SubmitReload? && !s.PopCorrection? && !s.ClearMark?
    requires c == s.c
    ensures c in Next(w, s).clients && StrictInv(Next(w, s).clients[c])
    ensures Next(w, s).clients == w.clients[c := Next(w, s).clients[c]]
  {
    var cl := w.clients[c];
    if s.Receive? {
      StrictReceived(cl);
    } else if s.Reject? {
      StrictDelivered(cl, Ack(0, cl.out[0].requestId, false));
      StrictSame(Deliver(cl, Ack(0, cl.out[0].requestId, false)), Next(w, s).clients[c]);
    } else {
      StrictSame(cl, Next(w, s).clients[c]);
    }
  }

  /**
   If every reload shows at most one prim, a client never is in the middle of a group:
   then any run of the code is a run in the sense of the convergence theorem.
   */
  lemma {:induction false} SingleFrameGroupsSuffice(ws: seq<World>, steps: seq<Step>)
    requires IsPossibleRun(ws, steps) && forall i | 0 <= i < |steps| :: SingleFrame(ws[i], steps[i])
    ensures IsRun(ws, steps)
  {
    StrictPrefix(ws, steps, |steps|);
    forall i | 0 <= i < |steps| ensures StepAt(ws, steps, i) {
    }
  }

  lemma {:induction false} StrictPrefix(ws: seq<World>, steps: seq<Step>, k: nat)
    requires IsPossibleRun(ws, steps) && forall i | 0 <= i < |steps| :: SingleFrame(ws[i], steps[i])
    requires k <= |steps|
    ensures Inv(ws[k]) && AllStrict(ws[k])
    ensures forall i | 0 <= i < k :: Enabled(ws[i], steps[i])
  {
    if k == 0 {
      InitialInv(ws[0]);
    } else {
      StrictPrefix(ws, steps, k - 1);
      StrictStep(ws[k - 1], steps[k - 1]);
    }
  }

  lemma StrictStep(w: World, s: Step)
    requires Inv(w) && AllStrict(w) && Possible(w, s) && SingleFrame(w, s)
    ensures Enabled(w, s) && Inv(Next(w, s)) && AllStrict(Next(w, s))
  {
    if s.Send? {
      StrictIsRead(w.clients[s.c], s.prim);
    }
    StepKeepsInv(w, s);
    SentBelow(w);
    if ConsumerStep(s) {
      ConsumerStrict(w, s);
    } else {
      OtherStrict(w, s);
    }
  }

  // ------------------------------------------------------------------
  // When an update sent in the middle of a group goes wrong
  // ------------------------------------------------------------------

  /** The client does not know yet that the prim was created. */
  predicate CreationUnread(cl: Client, p: PrimPath) {
    exists i :: 0 <= i < |cl.hist| && cl.received <= i && cl.hist[i].CreateFrame? && cl.hist[i].prim == p
  }

  /** A client whose next update passes as current ends with it exactly if it has read its group. */
  lemma SentView(l: Local, p: PrimPath, v: Transform, id: nat)
    requires OrderInv(l) && FramesInv(l, p) && l.cl.joined && l.notice <= l.cl.lastSeq
    ensures View(SendUpdate(l.cl, p, v, id), p)
         == if GroupRead(l.cl, p) && !CreationUnread(l.cl, p) then v else View(l.cl, p)
  {
    var cl := l.cl;
    var rest := cl.hist[cl.received..];
    if GroupRead(cl, p) && !CreationUnread(cl, p) {
      forall f | f in rest ensures !Touches(f, p) {
        var k :| 0 <= k < |rest| && rest[k] == f;
        assert f == cl.hist[cl.received + k];
      }
      AfterUntouched(rest, p, v);
    } else {
      var i :| cl.received <= i < |cl.hist| && Touches(cl.hist[i], p);
      assert rest[i - cl.received] == cl.hist[i];
      AfterTouched(rest, p, Cur(cl, p), v);
    }
  }

  /** The client's view does not depend on Acks and on what it has sent. */
  lemma AckView(cl: Client, cl': Client, f: Frame, p: PrimPath)
    requires f.Ack? && cl.received <= |cl.hist| && cl' == Deliver(cl, f).(out := cl'.out)
    ensures cl'.received <= |cl'.hist| && View(cl', p) == View(cl, p)
  {
    ViewDelivered(cl, f, p);
    assert View(cl', p) == View(Deliver(cl, f), p);
  }

  /**
   The rule is exact: let a client whose requests were all answered send an update while
   nothing is queued. If it is judged current and applied, the client is on the way to the
   server's state if and only if it had read its group, or an unread frame happens to bring
   the same.
   */
  lemma GroupRuleExact(w: World, c: ConnectionId, p: PrimPath, v: Transform, id: nat) returns (w': World)
    requires Inv(w) && CanSend(w, c) && Readable(w, p) && Check(w.book, c, p, w.clients[c].lastSeq) == Current
    ensures Leads(w, [Send(c, p, v, id), Accept(c), Transformed(true)], w')
    ensures w.clients[c].received <= |w.clients[c].hist|
    ensures Agrees(w', c, p)
       <==> || (GroupRead(w.clients[c], p) && !CreationUnread(w.clients[c], p))
            || w.narrow(View(w.clients[c], p)) == w.narrow(v)
  {
    assert ConnectionInv(w, c, p);
    SentView(LocalOf(w, c, p), p, v, id);
    w' := SentAndApplied(w, c, p, v, id);
    AppliedAgrees(w, c, p, v, id, w');
  }

  lemma AppliedAgrees(w: World, c: ConnectionId, p: PrimPath, v: Transform, id: nat, w': World)
    requires c in w.clients && w.clients[c].received <= |w.clients[c].hist| && Idempotent(w.narrow)
    requires Applied(w, c, SendUpdate(w.clients[c], p, v, id).(out := []), p, v, id, w')
    ensures Agrees(w', c, p) <==> w.narrow(View(SendUpdate(w.clients[c], p, v, id), p)) == w.narrow(v)
  {
    AckView(SendUpdate(w.clients[c], p, v, id), w'.clients[c], Ack(w.serverSeq + 1, id, true), p);
    assert p in w'.clients[c].shown;
    assert w.narrow(w.narrow(v)) == w.narrow(v);
  }

  // ------------------------------------------------------------------
  // The run that goes wrong
  // ------------------------------------------------------------------

  const OLD := Matrix([0.0])
  const RELOADED := Matrix([1.0])
  const DRAGGED := Matrix([2.0])

  function TwoPrims(t: Transform): Poses {
    map["/A" := t, "/B" := t]
  }

  /** Both prims were reloaded under version 1, and nothing of it was read. */
  ghost predicate BothReloaded(w: World, w': World)
    requires 1 in w.clients
  {
    && w' == w.(root := TwoPrims(RELOADED), serverSeq := 1, clients := w'.clients, book := w'.book, astray := w'.astray)
    && MaxSent(w'.book, 1) == 1 && Notice(w'.book, 1, "/B") == 1 && w'.clients.Keys == {1}
    && w'.clients[1]
       == w.clients[1].(hist := w.clients[1].hist + [Xform(1, "/A", RELOADED)] + [Xform(1, "/B", RELOADED)])
  }

  /** Client 1 has read the frame of /A only. */
  ghost predicate HalfRead(w: World) {
    && w.narrow == Start(map[]).narrow && w.root == TwoPrims(RELOADED) && w.inactive == {} && w.session == map[]
    && w.serverSeq == 1 && Calm(w) && CanSend(w, 1) && MaxSent(w.book, 1) == 1 && Notice(w.book, 1, "/B") == 1
    && |w.clients[1].hist| == w.clients[1].received + 1 && w.clients[1].lastSeq == 1
    && w.clients[1].hist[w.clients[1].received] == Xform(1, "/B", RELOADED)
  }

  lemma ReloadedBoth(w: World) returns (w': World)
    requires HasJoined(w, TwoPrims(OLD))
    ensures w' == HandleReload(w, TwoPrims(RELOADED), {}, ["/A", "/B"]) && BothReloaded(w, w')
  {
    var r := Numbered(Replaced(w, TwoPrims(RELOADED), {}), ["/A", "/B"]);
    var rA := BroadcastChange(r, "/A", 0);
    w' := BroadcastChange(rA, "/B", 0);
    assert ["/A", "/B"][1..] == ["/B"] && ["/B"][1..] == [];
    assert ReloadLoop(rA, ["/B"]) == ReloadLoop(w', []) == w';
    assert Readable(r, "/A") && Readable(rA, "/B");
    BroadcastLocal(r, "/A", 0, 1, "/B");
    BroadcastLocal(rA, "/B", 0, 1, "/B");
  }

  lemma QueueUndone(w: World, w1: World)
    requires w.queue == [] && w1 == w.(queue := [ReloadCommand])
    ensures Pop(w1) == w
  {
    assert w1.queue[1..] == [];
  }

  lemma BothNamed(w: World, s: Step)
    requires w.consumer.Idle? && w.queue == [ReloadCommand] && s == Reloaded(TwoPrims(RELOADED), {}, ["/A", "/B"])
    ensures Possible(w, s) && Next(w, s) == HandleReload(Pop(w), TwoPrims(RELOADED), {}, ["/A", "/B"])
  {
  }

  lemma ReloadTaken(w: World, w1: World) returns (s: Step, w2: World)
    requires HasJoined(w, TwoPrims(OLD)) && w1 == w.(queue := [ReloadCommand])
    ensures s == Reloaded(TwoPrims(RELOADED), {}, ["/A", "/B"]) && Possible(w1, s) && Next(w1, s) == w2
    ensures BothReloaded(w, w2)
  {
    s := Reloaded(TwoPrims(RELOADED), {}, ["/A", "/B"]);
    w2 := ReloadedBoth(w);
    QueueUndone(w, w1);
    BothNamed(w1, s);
  }

  lemma HalfOfReload(w: World, w2: World) returns (w': World)
    requires HasJoined(w, TwoPrims(OLD)) && BothReloaded(w, w2)
    ensures Possible(w2, Receive(1)) && Next(w2, Receive(1)) == w' && HalfRead(w')
  {
    w' := DoReceive(w2, 1);
  }

  lemma ReloadSubmitted(w: World)
    requires w.queue == []
    ensures Possible(w, SubmitReload) && Next(w, SubmitReload) == w.(queue := [ReloadCommand])
  {
  }

  lemma ReloadRun(w: World) returns (steps: seq<Step>, w': World)
    requires HasJoined(w, TwoPrims(OLD))
    ensures Leads(w, steps, w') && HalfRead(w')
  {
    var w1 := w.(queue := [ReloadCommand]);
    var s, w2 := ReloadTaken(w, w1);
    w' := HalfOfReload(w, w2);
    ReloadSubmitted(w);
    Leads3(w, SubmitReload, w1, s, w2, Receive(1), w');
    steps := [SubmitReload, s, Receive(1)];
  }

  /** The client drags /B before it has read the frame of /B. */
  lemma DraggedApart(w: World) returns (w': World)
    requires HalfRead(w)
    ensures Leads(w, [Send(1, "/B", DRAGGED, 7), Accept(1), Transformed(true)], w')
    ensures Calm(w') && 1 in w'.clients && Joining(w'.clients[1]) && Readable(w', "/B")
    ensures Known(LocalOf(w', 1, "/B"), "/B") && !Agrees(w', 1, "/B")
  {
    w' := SentAndApplied(w, 1, "/B", DRAGGED, 7);
    var cl, f := SendUpdate(w.clients[1], "/B", DRAGGED, 7), Ack(2, 7, true);
    AckView(cl, w'.clients[1], f, "/B");
    var rest := cl.hist[cl.received..];
    assert rest == [Xform(1, "/B", RELOADED)] && rest[1..] == [];
    assert After(rest, "/B", DRAGGED) == After(rest[1..], "/B", RELOADED);
    assert View(cl, "/B") == RELOADED;
    assert Resolved(w', "/B") == DRAGGED;
  }

  /**
   The code can diverge: a client that sends its update between the two frames of one
   reload ends with a value of the prim that the server does not have.
   */
  lemma HalfReadGroupDiverges() returns (w0: World, steps: seq<Step>, w: World)
    ensures Initial(w0) && Leads(w0, steps, w) && Diverged(w, 1, "/B")
  {
    w0 := Start(TwoPrims(OLD));
    var a, w1 := OneJoins(TwoPrims(OLD));
    var b, w2 := ReloadRun(w1);
    var w3 := DraggedApart(w2);
    var d: seq<Step>;
    d, w := Diverges(w3, 1, "/B");
    var sent := [Send(1, "/B", DRAGGED, 7), Accept(1), Transformed(true)];
    LeadsOn(w0, a, w1, b, w2);
    LeadsOn(w0, a + b, w2, sent, w3);
    LeadsOn(w0, a + b + sent, w3, d, w);
    steps := a + b + sent + d;
  }
}
