/** Building blocks for runs: what a few steps in a row lead to. */
module ProtocolRuns {
  import opened Versions
  import opened Protocol
  import opened Transforms
  import opened ProtocolInvariants
  import opened Convergence
  import opened Agreement

  /** `steps` lead from `w` to `w'`. */
  ghost predicate Leads(w: World, steps: seq<Step>, w': World)
    decreases |steps|
  {
    if steps == [] then w == w' else Possible(w, steps[0]) && Leads(Next(w, steps[0]), steps[1..], w')
  }

  lemma Prepend(w: World, s: Step, w1: World, steps: seq<Step>, w': World)
    requires Possible(w, s) && Next(w, s) == w1 && Leads(w1, steps, w')
    ensures Leads(w, [s] + steps, w')
  {
    assert ([s] + steps)[1..] == steps;
  }

  lemma {:induction false} LeadsOn(w: World, a: seq<Step>, w1: World, b: seq<Step>, w2: World)
    requires Leads(w, a, w1) && Leads(w1, b, w2)
    ensures Leads(w, a + b, w2)
    decreases |a|
  {
    if a == [] {
      assert a + b == b;
    } else {
      LeadsOn(Next(w, a[0]), a[1..], w1, b, w2);
      assert (a + b)[1..] == a[1..] + b;
    }
  }

  lemma Leads3(w: World, s1: Step, w1: World, s2: Step, w2: World, s3: Step, w3: World)
    requires Possible(w, s1) && Next(w, s1) == w1 && Possible(w1, s2) && Next(w1, s2) == w2
    requires Possible(w2, s3) && Next(w2, s3) == w3
    ensures Leads(w, [s1, s2, s3], w3)
  {
    Prepend(w2, s3, w3, [], w3);
    Prepend(w1, s2, w2, [s3], w3);
    Prepend(w, s1, w1, [s2] + [s3], w3);
    assert [s1] + ([s2] + [s3]) == [s1, s2, s3];
  }

  // ------------------------------------------------------------------
  // Coming to rest
  // ------------------------------------------------------------------

  /** Only frames are on their way. */
  ghost predicate Calm(w: World) {
    && w.queue == [] && w.priority == [] && w.consumer.Idle? && w.nextConnection > 0
    && (forall c | c in w.clients :: 0 < c < w.nextConnection)
    && forall c | c in w.clients ::
         w.clients[c].received <= |w.clients[c].hist| && w.clients[c].out == [] && w.clients[c].io.Listening?
  }

  function Highest(frames: seq<Frame>, cur: nat): nat {
    if frames == [] then cur else Highest(frames[1..], Max(cur, frames[0].seq_))
  }

  /** The client has read everything. */
  ghost predicate ReadOut(cl: Client, cl': Client) {
    && cl.received <= |cl.hist|
    && cl' == cl.(received := |cl.hist|, shown := cl'.shown, lastSeq := cl'.lastSeq, joined := cl'.joined,
                  unacked := cl'.unacked, regressions := cl'.regressions, unknownAcks := cl'.unknownAcks)
    && (cl'.joined <==> cl.joined || exists i :: cl.received <= i < |cl.hist| && cl.hist[i].Snapshot?)
    && cl'.lastSeq == Highest(cl.hist[cl.received..], cl.lastSeq)
    && (forall p :: Cur(cl', p) == View(cl, p))
    && (forall p :: p in cl'.shown <==>
          p in cl.shown || exists i :: cl.received <= i < |cl.hist| && Touches(cl.hist[i], p))
  }

  lemma ReadNothing(cl: Client)
    requires cl.received == |cl.hist|
    ensures ReadOut(cl, cl)
  {
    assert cl.hist[cl.received..] == [];
  }

  lemma ReadOne(cl: Client, cl': Client)
    requires cl.received < |cl.hist| && ReadOut(ReceiveFrame(cl), cl')
    ensures ReadOut(cl, cl')
  {
    var cl1 := ReceiveFrame(cl);
    assert cl.hist[cl.received..][1..] == cl1.hist[cl1.received..];
    forall p ensures Cur(cl', p) == View(cl, p) {
      ReceivedView(cl, p);
    }
    forall p ensures p in cl'.shown <==>
        p in cl.shown || exists i :: cl.received <= i < |cl.hist| && Touches(cl.hist[i], p) {
      assert p in cl1.shown <==> p in cl.shown || Touches(cl.hist[cl.received], p);
    }
  }

  lemma {:induction false} ReadEverything(w: World, c: ConnectionId) returns (steps: seq<Step>, w': World)
    requires c in w.clients && w.clients[c].received <= |w.clients[c].hist|
    ensures Leads(w, steps, w') && c in w'.clients && w' == w.(clients := w.clients[c := w'.clients[c]])
    ensures ReadOut(w.clients[c], w'.clients[c])
    decreases |w.clients[c].hist| - w.clients[c].received
  {
    if w.clients[c].received == |w.clients[c].hist| {
      steps, w' := [], w;
      ReadNothing(w.clients[c]);
    } else {
      var w1 := DoReceive(w, c);
      var rest: seq<Step>;
      rest, w' := ReadEverything(w1, c);
      ReadOne(w.clients[c], w'.clients[c]);
      Prepend(w, Receive(c), w1, rest, w');
      steps := [Receive(c)] + rest;
    }
  }

  /** The clients in `todo` have read everything, the others nothing. */
  ghost predicate AllRead(w: World, todo: set<ConnectionId>, w': World) {
    && w'.clients.Keys == w.clients.Keys && w' == w.(clients := w'.clients)
    && forall c | c in w.clients ::
         if c in todo then ReadOut(w.clients[c], w'.clients[c]) else w'.clients[c] == w.clients[c]
  }

  lemma AllReadOneMore(w: World, c: ConnectionId, w1: World, todo: set<ConnectionId>, w': World)
    requires c in w.clients && c in w1.clients && c in todo && w1 == w.(clients := w.clients[c := w1.clients[c]])
    requires ReadOut(w.clients[c], w1.clients[c]) && AllRead(w1, todo - {c}, w')
    ensures AllRead(w, todo, w')
  {
    forall d | d in w.clients
      ensures if d in todo then ReadOut(w.clients[d], w'.clients[d]) else w'.clients[d] == w.clients[d]
    {
      assert d in w1.clients;
    }
  }

  /** Every client reads everything. */
  lemma {:induction false} Rest(w: World, todo: set<ConnectionId>) returns (steps: seq<Step>, w': World)
    requires todo <= w.clients.Keys && forall c | c in todo :: w.clients[c].received <= |w.clients[c].hist|
    ensures Leads(w, steps, w') && AllRead(w, todo, w')
    decreases |todo|
  {
    if todo == {} {
      steps, w' := [], w;
    } else {
      var c :| c in todo;
      var a, w1 := ReadEverything(w, c);
      var b: seq<Step>;
      b, w' := Rest(w1, todo - {c});
      LeadsOn(w, a, w1, b, w');
      AllReadOneMore(w, c, w1, todo, w');
      steps := a + b;
    }
  }

  lemma ComesToRest(w: World) returns (steps: seq<Step>, w': World)
    requires Calm(w)
    ensures Leads(w, steps, w') && w'.clients.Keys == w.clients.Keys && w' == w.(clients := w'.clients)
    ensures Calm(w') && Quiescent(w')
    ensures forall c | c in w.clients :: ReadOut(w.clients[c], w'.clients[c])
  {
    steps, w' := Rest(w, w.clients.Keys);
  }

  /** At rest, client `c` has joined and shows another `p` than the server. */
  ghost predicate Diverged(w: World, c: ConnectionId, p: PrimPath) {
    && Quiescent(w) && c in w.clients && w.clients[c].joined && Readable(w, p) && p in w.clients[c].shown
    && w.narrow(w.clients[c].shown[p]) != w.narrow(Resolved(w, p))
  }

  /** The client has joined, or its snapshot is on its way. */
  ghost predicate Joining(cl: Client) {
    cl.joined || exists i :: cl.received <= i < |cl.hist| && cl.hist[i].Snapshot?
  }

  lemma Diverges(w: World, c: ConnectionId, p: PrimPath) returns (steps: seq<Step>, w': World)
    requires Calm(w) && c in w.clients && Joining(w.clients[c]) && Readable(w, p)
    requires Known(LocalOf(w, c, p), p) && !Agrees(w, c, p)
    ensures Leads(w, steps, w') && Diverged(w', c, p) && w' == w.(clients := w'.clients)
  {
    steps, w' := ComesToRest(w);
    assert ReadOut(w.clients[c], w'.clients[c]);
    assert Cur(w'.clients[c], p) == View(w.clients[c], p);
  }

  // ------------------------------------------------------------------
  // Joining
  // ------------------------------------------------------------------

  function Joiner(w: World): Client {
    Client([Snapshot(w.serverSeq, SnapshotValues(w))], 0, [], SnapshotSent, Listening, {}, w.root, 0, false,
           multiset{}, 0, 0)
  }

  /** One more client attaches and gets its snapshot. */
  lemma Joins(w: World) returns (steps: seq<Step>, w': World)
    requires Calm(w)
    ensures Leads(w, steps, w') && Calm(w')
    ensures w' == w.(clients := w.clients[w.nextConnection := Joiner(w)], nextConnection := w.nextConnection + 1,
                     book := Record(w.book, Sent(w.nextConnection, w.serverSeq)), astray := w'.astray)
  {
    var n := w.nextConnection;
    var w1 := DoAttach(w);
    var w2 := DoSubmitJoin(w1, n);
    w' := HandleJoin(Pop(w2), n);
    steps := [Attach, SubmitJoin(n), Joined];
    assert w2.queue == [JoinCommand(n)];
    assert SnapshotValues(Pop(w2)) == SnapshotValues(w);
    assert w'.clients[n].hist == [Snapshot(w.serverSeq, SnapshotValues(w))];
    assert w'.clients[n] == Joiner(w);
    assert w'.clients == w.clients[n := Joiner(w)];
    Leads3(w, Attach, w1, SubmitJoin(n), w2, Joined, w');
  }

  // ------------------------------------------------------------------
  // One request, sent and handled
  // ------------------------------------------------------------------

  /** The request the client sends now is the next one to be judged. */
  ghost predicate CanSend(w: World, c: ConnectionId) {
    && c in w.clients && w.clients[c].joined && w.clients[c].out == [] && w.clients[c].io.Listening?
    && w.queue == [] && w.consumer.Idle?
  }

  lemma Accepted(w: World, c: ConnectionId, u: Update)
    requires c in w.clients && w.clients[c].out == [u] && w.queue == []
    ensures var w2 := DoAccept(w, c);
            && w2.queue == [EditCommand(c, u)]
            && w2 == w.(clients := w.clients[c := w.clients[c].(out := [])], queue := w2.queue)
            && Pop(w2) == w.(clients := w.clients[c := w.clients[c].(out := [])])
  {
    assert w.clients[c].out[1..] == [];
    assert DoAccept(w, c).queue[1..] == [];
  }

  /** An update is sent and accepted. */
  lemma SendsUpdate(w: World, c: ConnectionId, p: PrimPath, v: Transform, id: nat) returns (w1: World, w2: World)
    requires CanSend(w, c)
    ensures w1 == DoSend(w, c, p, v, id) && w2 == DoAccept(w1, c)
    ensures Possible(w1, Accept(c)) && w2.consumer.Idle?
    ensures w2.queue == [EditCommand(c, Update(p, v, w.clients[c].lastSeq, id))]
    ensures Pop(w2) == w.(clients := w.clients[c := SendUpdate(w.clients[c], p, v, id).(out := [])],
                          astray := w2.astray)
    ensures Readable(w2, p) == Readable(Pop(w2), p) == Readable(w, p)
  {
    var u := Update(p, v, w.clients[c].lastSeq, id);
    w1 := DoSend(w, c, p, v, id);
    w2 := DoAccept(w1, c);
    Accepted(w1, c, u);
  }

  /** `w'` is `w` after an update of `c`, of which `cl` is the client that sent it, was applied. */
  ghost predicate Applied(w: World, c: ConnectionId, cl: Client, p: PrimPath, v: Transform, id: nat, w': World)
    requires c in w.clients
  {
    && w' == w.(session := w.session[p := w.narrow(v)], announced := w.announced[p := Announced(w, p, w.narrow(v))],
                serverSeq := w.serverSeq + 1, clients := w'.clients, book := w'.book, astray := w'.astray)
    && w'.clients.Keys == w.clients.Keys
    && w'.clients[c] == Deliver(cl, Ack(w.serverSeq + 1, id, true))
    && (forall d | d in w.clients && d != c ::
          w'.clients[d] == Deliver(w.clients[d], Xform(w.serverSeq + 1, p, w.narrow(w.narrow(v)))))
    && w'.book == Record(SentToAll(Record(w.book, Change(p, w.serverSeq + 1, c)), w.clients.Keys - {c},
                                   w.serverSeq + 1), Sent(c, w.serverSeq + 1))
  }

  lemma AppliedAlone(w: World, c: ConnectionId, u: Update)
    requires c in w.clients && u.Update? && Readable(w, u.prim) && Check(w.book, c, u.prim, u.base) == Current
    ensures Applied(w, c, w.clients[c], u.prim, u.value, u.requestId, HandleTransform(w, c, u, true))
  {
    AppliedIs(w, c, u);
    assert Readable(Settle(Author(w, u), c, u), u.prim);
  }

  lemma AppliedSince(
    w: World, w1: World, c: ConnectionId, cl: Client, p: PrimPath, v: Transform, id: nat, w': World)
    requires c in w.clients && w1 == w.(clients := w.clients[c := cl], astray := w1.astray)
    requires Applied(w1, c, cl, p, v, id, w')
    ensures Applied(w, c, cl, p, v, id, w')
  {
    assert w1.clients.Keys == w.clients.Keys;
  }

  /** An update, sent and applied. */
  lemma SentAndApplied(w: World, c: ConnectionId, p: PrimPath, v: Transform, id: nat) returns (w': World)
    requires CanSend(w, c) && Readable(w, p) && Check(w.book, c, p, w.clients[c].lastSeq) == Current
    ensures Leads(w, [Send(c, p, v, id), Accept(c), Transformed(true)], w')
    ensures Applied(w, c, SendUpdate(w.clients[c], p, v, id).(out := []), p, v, id, w')
  {
    var w1, w2 := SendsUpdate(w, c, p, v, id);
    var u := Update(p, v, w.clients[c].lastSeq, id);
    w' := HandleTransform(Pop(w2), c, u, true);
    AppliedAlone(Pop(w2), c, u);
    AppliedSince(w, Pop(w2), c, Pop(w2).clients[c], p, v, id, w');
    Leads3(w, Send(c, p, v, id), w1, Accept(c), w2, Transformed(true), w');
  }

  /** Nobody else changed anything so far: what `c` sends is current. */
  ghost predicate Alone(w: World, c: ConnectionId) {
    && CanSend(w, c) && c != 0 && w.clients[c].lastSeq <= MaxSent(w.book, c) <= w.serverSeq
    && forall p :: Notice(w.book, c, p) == 0
  }

  /** The dispatcher cannot read the prim. */
  lemma SentAndFailed(w: World, c: ConnectionId, p: PrimPath, v: Transform, id: nat) returns (w': World)
    requires Alone(w, c) && !Readable(w, p)
    ensures Leads(w, [Send(c, p, v, id), Accept(c), Transformed(false)], w')
    ensures w' == w.(clients := w'.clients, book := w'.book, astray := w'.astray)
    ensures w'.clients == w.clients[c :=
              Deliver(SendUpdate(w.clients[c], p, v, id), Ack(w.serverSeq, id, false)).(out := [])]
    ensures Alone(w', c)
  {
    var w1, w2 := SendsUpdate(w, c, p, v, id);
    var u := Update(p, v, w.clients[c].lastSeq, id);
    w' := HandleTransform(Pop(w2), c, u, false);
    FailedAlone(Pop(w2), c, u);
    assert forall q :: Notice(w'.book, c, q) == Notice(w.book, c, q);
    Leads3(w, Send(c, p, v, id), w1, Accept(c), w2, Transformed(false), w');
  }

  lemma FailedAlone(w: World, c: ConnectionId, u: Update)
    requires c in w.clients && u.Update? && !Readable(w, u.prim) && Check(w.book, c, u.prim, u.base) == Current
    ensures var w' := HandleTransform(w, c, u, false);
            w' == w.(clients := w.clients[c := Deliver(w.clients[c], Ack(w.serverSeq, u.requestId, false))],
                     book := Record(w.book, Sent(c, w.serverSeq)), astray := w'.astray)
  {
    var w1 := SendAck(w, c, u.requestId, false);
    assert !Readable(w1, u.prim);
  }

  lemma SendsEdit(w: World, c: ConnectionId, q: PrimPath, id: nat) returns (w1: World, w2: World)
    requires CanSend(w, c)
    ensures w1 == DoSendEdit(w, c, q, id) && w2 == DoAccept(w1, c)
    ensures Possible(w1, Accept(c)) && w2.consumer.Idle?
    ensures w2.queue == [EditCommand(c, SceneEdit(q, w.clients[c].lastSeq, id))]
    ensures Pop(w2) == w.(clients := w.clients[c := RequestEdit(w.clients[c], q, id).(out := [])])
  {
    w1 := DoSendEdit(w, c, q, id);
    w2 := DoAccept(w1, c);
    Accepted(w1, c, SceneEdit(q, w.clients[c].lastSeq, id));
  }

  /** `w'` is `w` after `c` changed the active state of `q`, the other clients' frames included. */
  ghost predicate Edited(w: World, c: ConnectionId, cl: Client, q: PrimPath, e: SceneEffect, id: nat, w': World)
    requires c in w.clients
  {
    var f := ActiveFrame(w.serverSeq + 1, q, e.Activated?);
    && w' == w.(inactive := if e.Activated? then w.inactive - {q} else w.inactive + {q},
                serverSeq := w.serverSeq + 1, clients := w'.clients, book := w'.book, astray := w'.astray)
    && w'.clients.Keys == w.clients.Keys
    && w'.clients[c] == Deliver(Deliver(cl, f), Ack(w.serverSeq + 1, id, true))
    && (forall d | d in w.clients && d != c :: w'.clients[d] == Deliver(w.clients[d], f))
    && w'.book == Record(SentToAll(Record(w.book, Change(q, w.serverSeq + 1, c)), w.clients.Keys, w.serverSeq + 1),
                         Sent(c, w.serverSeq + 1))
  }

  /** A request for an active state, sent and granted. */
  lemma Edits(w: World, c: ConnectionId, q: PrimPath, e: SceneEffect, id: nat) returns (steps: seq<Step>, w': World)
    requires CanSend(w, c) && (e.Activated? || e.Deactivated?)
    ensures Leads(w, steps, w') && Edited(w, c, RequestEdit(w.clients[c], q, id).(out := []), q, e, id, w')
  {
    var u := SceneEdit(q, w.clients[c].lastSeq, id);
    var w1, w2 := SendsEdit(w, c, q, id);
    w' := HandleScene(Pop(w2), c, u, q, e);
    EditedAlone(Pop(w2), c, u, q, e);
    EditedSince(w, Pop(w2), c, q, e, id, w');
    steps := [SendEdit(c, q, id), Accept(c), SceneEdited(q, e)];
    Leads3(w, SendEdit(c, q, id), w1, Accept(c), w2, SceneEdited(q, e), w');
  }

  lemma EditedSince(w: World, w1: World, c: ConnectionId, q: PrimPath, e: SceneEffect, id: nat, w': World)
    requires c in w.clients && w1 == w.(clients := w.clients[c := RequestEdit(w.clients[c], q, id).(out := [])])
    requires Edited(w1, c, w1.clients[c], q, e, id, w')
    ensures Edited(w, c, w1.clients[c], q, e, id, w')
  {
    assert w1.clients.Keys == w.clients.Keys;
  }

  lemma EditedAlone(w: World, c: ConnectionId, u: Update, q: PrimPath, e: SceneEffect)
    requires c in w.clients && (e.Activated? || e.Deactivated?)
    ensures Edited(w, c, w.clients[c], q, e, u.requestId, HandleScene(w, c, u, q, e))
  {
    var w1 := BroadcastActive(w, q, c, e.Activated?);
    ActiveSent(w, c, q, e.Activated?);
    assert HandleScene(w, c, u, q, e) == SendAck(w1, c, u.requestId, true);
  }

  lemma ActiveSent(w: World, c: ConnectionId, q: PrimPath, active: bool)
    ensures var f, w' := ActiveFrame(w.serverSeq + 1, q, active), BroadcastActive(w, q, c, active);
            && w' == w.(inactive := if active then w.inactive - {q} else w.inactive + {q},
                        serverSeq := w.serverSeq + 1, clients := w'.clients, book := w'.book, astray := w'.astray)
            && w'.clients.Keys == w.clients.Keys
            && (forall d | d in w.clients :: w'.clients[d] == Deliver(w.clients[d], f))
            && w'.book == SentToAll(Record(w.book, Change(q, w.serverSeq + 1, c)), w.clients.Keys, w.serverSeq + 1)
  {
  }

  /** Own changes leave a client alone. */
  lemma StillAlone(b: Book, q: PrimPath, s: nat, c: ConnectionId, ids: set<ConnectionId>)
    requires c != 0 && MaxSent(b, c) <= s && forall p :: Notice(b, c, p) == 0
    ensures var b' := Record(SentToAll(Record(b, Change(q, s, c)), ids, s), Sent(c, s));
            MaxSent(b', c) == s && forall p :: Notice(b', c, p) == 0
  {
    var b1 := SentToAll(Record(b, Change(q, s, c)), ids, s);
    forall p ensures Notice(Record(b1, Sent(c, s)), c, p) == 0 {
      BroadcastNotice(b, q, s, c, ids, c, p);
      assert Notice(Record(b1, Sent(c, s)), c, p) == Notice(b1, c, p);
    }
    BroadcastNotice(b, q, s, c, ids, c, "");
  }

  lemma AppliesAlone(w: World, c: ConnectionId, p: PrimPath, v: Transform, id: nat, w': World)
    requires Calm(w) && Alone(w, c) && Applied(w, c, SendUpdate(w.clients[c], p, v, id).(out := []), p, v, id, w')
    ensures Calm(w') && Alone(w', c)
  {
    StillAlone(w.book, p, w.serverSeq + 1, c, w.clients.Keys - {c});
  }

  lemma EditsAlone(w: World, c: ConnectionId, q: PrimPath, e: SceneEffect, id: nat, w': World)
    requires Calm(w) && Alone(w, c) && Edited(w, c, RequestEdit(w.clients[c], q, id).(out := []), q, e, id, w')
    ensures Calm(w') && Alone(w', c)
  {
    StillAlone(w.book, q, w.serverSeq + 1, c, w.clients.Keys);
  }

  // ------------------------------------------------------------------
  // The beginning of a run
  // ------------------------------------------------------------------

  /** A session on a file, nothing in its session layer. */
  function Start(root: Poses): World {
    World(t => t, root, {}, map[], map[], {}, 0, EMPTY_BOOK, map[], [], [], Idle, 1, {})
  }

  /** Client 1 has joined and received everything. */
  ghost predicate HasJoined(w: World, root: Poses) {
    && w == Start(root).(clients := w.clients, book := w.book, nextConnection := 2, astray := w.astray)
    && w.clients.Keys == {1} && Alone(w, 1) && Calm(w)
    && w.clients[1].received == |w.clients[1].hist| && w.clients[1].lastSeq == 0
    && w.clients[1].shown.Keys == root.Keys
  }

  lemma OneJoins(root: Poses) returns (steps: seq<Step>, w: World)
    ensures Initial(Start(root)) && Leads(Start(root), steps, w) && HasJoined(w, root)
  {
    var w0 := Start(root);
    var a, w1 := Joins(w0);
    var b: seq<Step>;
    b, w := ComesToRest(w1);
    LeadsOn(w0, a, w1, b, w);
    steps := a + b;
    StartJoined(root, w1, w);
  }

  lemma StartJoined(root: Poses, w1: World, w: World)
    requires w1 == Start(root).(clients := map[1 := Joiner(Start(root))], nextConnection := 2,
                                book := Record(EMPTY_BOOK, Sent(1, 0)), astray := w1.astray)
    requires w == w1.(clients := w.clients) && w.clients.Keys == {1} && Calm(w)
    requires ReadOut(w1.clients[1], w.clients[1])
    ensures HasJoined(w, root)
  {
    JoinerRead(Start(root), w.clients[1]);
    assert SnapshotValues(Start(root)) == map[];
    assert forall p :: Notice(w.book, 1, p) == 0;
  }

  lemma JoinerRead(w: World, cl: Client)
    requires ReadOut(Joiner(w), cl)
    ensures cl.joined && cl.lastSeq == w.serverSeq && cl.received == |cl.hist|
    ensures cl.shown.Keys == w.root.Keys + SnapshotValues(w).Keys
  {
    var j := Joiner(w);
    assert j.hist[0].Snapshot?;
    assert j.hist[j.received..] == j.hist;
    assert j.hist[1..] == [];
    assert Highest(j.hist, 0) == Highest(j.hist[1..], Max(0, w.serverSeq));
    forall p ensures p in cl.shown <==> p in w.root || p in SnapshotValues(w) {
      assert Touches(j.hist[0], p) <==> p in SnapshotValues(w);
    }
  }
}
