/**
 Runs in which a client and the server end at rest with different transforms of a prim:
 one for each of the ways `Agreement` gives the exact condition of.
 */
module Divergence {
  import opened Versions
  import opened Protocol
  import opened Transforms
  import opened ProtocolInvariants
  import opened Convergence
  import opened Agreement
  import opened ProtocolRuns

  const PLACED := Matrix([0.0])
  const MOVED := Matrix([1.0])

  /** Nothing about the transform of `p` is unread, and the client shows `v`. */
  ghost predicate Holds(cl: Client, p: PrimPath, v: Transform) {
    && cl.received <= |cl.hist| && (forall i | cl.received <= i < |cl.hist| :: !Touches(cl.hist[i], p))
    && p in cl.shown && cl.shown[p] == v
  }

  /** At rest it will show something else than the server has. */
  lemma HoldsApart(w: World, c: ConnectionId, p: PrimPath, v: Transform)
    requires c in w.clients && Holds(w.clients[c], p, v) && w.narrow(v) != w.narrow(Resolved(w, p))
    ensures Known(LocalOf(w, c, p), p) && !Agrees(w, c, p)
  {
    ViewIsCur(w.clients[c], p);
  }

  lemma StillHolds(cl: Client, cl': Client, f: Frame, p: PrimPath, v: Transform)
    requires Holds(cl, p, v) && !Touches(f, p) && cl'.hist == cl.hist + [f]
    requires cl'.received == cl.received && cl'.shown == cl.shown
    ensures Holds(cl', p, v)
  {
  }

  // ------------------------------------------------------------------
  // Below a prim that is not active
  // ------------------------------------------------------------------

  function Nested(): Poses {
    map["/A" := PLACED, "/A/B" := PLACED]
  }

  /** The only client of a session on `Nested` shows `v` for /A/B. */
  ghost predicate Single(w: World, v: Transform) {
    && w.narrow == Start(map[]).narrow && w.root == Nested() && w.session == map[] && w.clients.Keys == {1}
    && Calm(w) && Alone(w, 1) && Holds(w.clients[1], "/A/B", v)
  }

  lemma EditHolds(w: World, v: Transform, e: SceneEffect, id: nat, w': World)
    requires 1 in w.clients && Holds(w.clients[1], "/A/B", v)
    requires Edited(w, 1, RequestEdit(w.clients[1], "/A", id).(out := []), "/A", e, id, w')
    ensures Holds(w'.clients[1], "/A/B", v)
  {
    var cl := Deliver(w.clients[1], ActiveFrame(w.serverSeq + 1, "/A", e.Activated?));
    StillHolds(w.clients[1], cl, ActiveFrame(w.serverSeq + 1, "/A", e.Activated?), "/A/B", v);
    StillHolds(cl, w'.clients[1], Ack(w.serverSeq + 1, id, true), "/A/B", v);
  }

  lemma SingleEdits(w: World, v: Transform, e: SceneEffect, id: nat) returns (steps: seq<Step>, w': World)
    requires Single(w, v) && (e.Activated? || e.Deactivated?)
    ensures Leads(w, steps, w') && Single(w', v)
    ensures w'.inactive == if e.Activated? then w.inactive - {"/A"} else w.inactive + {"/A"}
  {
    steps, w' := Edits(w, 1, "/A", e, id);
    EditsAlone(w, 1, "/A", e, id, w');
    EditHolds(w, v, e, id, w');
  }

  lemma SingleFails(w: World, v: Transform) returns (steps: seq<Step>, w': World)
    requires Single(w, v) && "/A" in w.inactive
    ensures Leads(w, steps, w') && Single(w', MOVED) && w'.inactive == w.inactive
  {
    assert Above("/A", "/A/B");
    w' := SentAndFailed(w, 1, "/A/B", MOVED, 1);
    steps := [Send(1, "/A/B", MOVED, 1), Accept(1), Transformed(false)];
    var cl := SendUpdate(w.clients[1], "/A/B", MOVED, 1);
    StillHolds(cl, w'.clients[1], Ack(w.serverSeq, 1, false), "/A/B", MOVED);
  }

  lemma JoinedSingle(w: World) returns (v: Transform)
    requires HasJoined(w, Nested())
    ensures Single(w, v) && w.inactive == {}
  {
    v := w.clients[1].shown["/A/B"];
  }

  /**
   /A is deactivated, an update of /A/B fails without a correction, /A is restored: the client
   goes on showing what it sent.
   */
  lemma BelowInactiveDiverges() returns (w0: World, steps: seq<Step>, w: World)
    ensures Initial(w0) && Leads(w0, steps, w) && Diverged(w, 1, "/A/B") && w.inactive == {}
  {
    w0 := Start(Nested());
    var a, w1 := OneJoins(Nested());
    var b, w4 := DeactivatedRun(w1);
    HoldsApart(w4, 1, "/A/B", MOVED);
    var d: seq<Step>;
    d, w := Diverges(w4, 1, "/A/B");
    LeadsOn(w0, a, w1, b, w4);
    LeadsOn(w0, a + b, w4, d, w);
    steps := a + b + d;
  }

  lemma DeactivatedRun(w1: World) returns (steps: seq<Step>, w4: World)
    requires HasJoined(w1, Nested())
    ensures Leads(w1, steps, w4) && Single(w4, MOVED) && w4.inactive == {}
  {
    var v := JoinedSingle(w1);
    var a, w2 := SingleEdits(w1, v, Deactivated, 0);
    var b, w3 := SingleFails(w2, v);
    var c: seq<Step>;
    c, w4 := SingleEdits(w3, MOVED, Activated, 2);
    LeadsOn(w1, a, w2, b, w3);
    LeadsOn(w1, a + b, w3, c, w4);
    steps := a + b + c;
  }

  // ------------------------------------------------------------------
  // A matrix, then components, then a join
  // ------------------------------------------------------------------

  function Flat(): Poses {
    map["/A" := PLACED]
  }

  ghost predicate Sole(w: World, session: Poses, announced: Poses) {
    && w == Start(Flat()).(clients := w.clients, book := w.book, nextConnection := 2, astray := w.astray,
                           session := session, announced := announced, serverSeq := w.serverSeq)
    && Calm(w) && Alone(w, 1) && w.clients.Keys == {1}
  }

  lemma Applies(w: World, session: Poses, announced: Poses, v: Transform, id: nat) returns (w': World)
    requires Sole(w, session, announced)
    ensures Leads(w, [Send(1, "/A", v, id), Accept(1), Transformed(true)], w')
    ensures Sole(w', session["/A" := v], announced["/A" := Announced(w, "/A", v)])
  {
    w' := SentAndApplied(w, 1, "/A", v, id);
    AppliesAlone(w, 1, "/A", v, id, w');
  }

  lemma AppliedBothShapes(w: World) returns (steps: seq<Step>, w': World)
    requires HasJoined(w, Flat())
    ensures Leads(w, steps, w') && Sole(w', map["/A" := IDENTITY], map["/A" := MOVED])
  {
    var w1 := Applies(w, map[], map[], MOVED, 0);
    w' := Applies(w1, map["/A" := MOVED], map["/A" := MOVED], IDENTITY, 1);
    var a, b := [Send(1, "/A", MOVED, 0), Accept(1), Transformed(true)],
                [Send(1, "/A", IDENTITY, 1), Accept(1), Transformed(true)];
    LeadsOn(w, a, w1, b, w');
    steps := a + b;
  }

  lemma JoinsApart(w: World) returns (steps: seq<Step>, w': World)
    requires Sole(w, map["/A" := IDENTITY], map["/A" := MOVED])
    ensures Leads(w, steps, w') && Calm(w') && 2 in w'.clients && Joining(w'.clients[2]) && Readable(w', "/A")
    ensures Known(LocalOf(w', 2, "/A"), "/A") && !Agrees(w', 2, "/A")
  {
    steps, w' := Joins(w);
    var cl := w'.clients[2];
    assert SnapshotValues(w) == map["/A" := MOVED];
    assert cl.hist[0] == Snapshot(w.serverSeq, SnapshotValues(w)) && Touches(cl.hist[0], "/A");
    assert cl.hist[cl.received..] == cl.hist && cl.hist[1..] == [];
    assert View(cl, "/A") == After(cl.hist[1..], "/A", MOVED) == MOVED;
    assert Resolved(w', "/A") == IDENTITY;
  }

  /** The session layer has a matrix and newer components: the next client to join is given the matrix. */
  lemma MixedJoinDiverges() returns (w0: World, steps: seq<Step>, w: World)
    ensures Initial(w0) && Leads(w0, steps, w) && Diverged(w, 2, "/A")
  {
    w0 := Start(Flat());
    var a, w1 := OneJoins(Flat());
    var b, w2 := AppliedBothShapes(w1);
    var c, w3 := JoinsApart(w2);
    var d: seq<Step>;
    d, w := Diverges(w3, 2, "/A");
    LeadsOn(w0, a, w1, b, w2);
    LeadsOn(w0, a + b, w2, c, w3);
    LeadsOn(w0, a + b + c, w3, d, w);
    steps := a + b + c + d;
  }

  // ------------------------------------------------------------------
  // An update that crosses a change of the active state
  // ------------------------------------------------------------------

  predicate HasRead(cl: Client) {
    cl.joined && cl.received == |cl.hist| && cl.out == [] && cl.io.Listening?
  }

  /** Clients 1 and 2 have joined and received everything. */
  ghost predicate TwoJoined(w: World) {
    && w == Start(Flat()).(clients := w.clients, book := w.book, nextConnection := 3, astray := w.astray)
    && w.clients.Keys == {1, 2} && HasRead(w.clients[1]) && HasRead(w.clients[2]) && w.clients[1].lastSeq == 0
    && MaxSent(w.book, 1) == 0 && Notice(w.book, 1, "/A") == 0
  }

  lemma SecondJoins(w: World) returns (steps: seq<Step>, w': World)
    requires HasJoined(w, Flat())
    ensures Leads(w, steps, w') && TwoJoined(w')
  {
    var a, w1 := Joins(w);
    var b: seq<Step>;
    b, w' := ComesToRest(w1);
    LeadsOn(w, a, w1, b, w');
    steps := a + b;
    JoinerRead(w, w'.clients[2]);
    assert w.clients[1].hist[w.clients[1].received..] == [];
    assert Notice(w'.book, 1, "/A") == Notice(w.book, 1, "/A");
  }

  /** Client 1 has sent an update of /A that nobody has seen when /A is deactivated. */
  ghost predicate Crossed(w: World, u: Update) {
    && w.narrow == Start(map[]).narrow && w.root == Flat() && w.created == {} && w.session == map[]
    && w.queue == [] && w.priority == [] && w.consumer.Idle? && w.nextConnection == 3 && w.clients.Keys == {1, 2}
    && w.clients[1].out == [u] && w.clients[2].out == [] && w.clients[1].io.Listening? && w.clients[2].io.Listening?
    && w.clients[2].received <= |w.clients[2].hist| && w.clients[1].joined && Holds(w.clients[1], "/A", MOVED)
    && w.inactive == {"/A"} && Notice(w.book, 1, "/A") == 1 && u == Update("/A", MOVED, 0, 0)
  }

  lemma Crosses(w: World) returns (steps: seq<Step>, w': World)
    requires TwoJoined(w)
    ensures Leads(w, steps, w') && Crossed(w', Update("/A", MOVED, 0, 0))
  {
    var w1 := DoSend(w, 1, "/A", MOVED, 0);
    Prepend(w, Send(1, "/A", MOVED, 0), w1, [], w1);
    var a: seq<Step>;
    a, w' := Edits(w1, 2, "/A", Deactivated, 0);
    LeadsOn(w, [Send(1, "/A", MOVED, 0)] + [], w1, a, w');
    steps := [Send(1, "/A", MOVED, 0)] + [] + a;
    CrossedState(w, w1, w');
  }

  lemma CrossedHolds(cl: Client, cl1: Client, cl': Client)
    requires cl.received == |cl.hist| && cl.out == [] && cl.lastSeq == 0 && cl1 == SendUpdate(cl, "/A", MOVED, 0)
    requires cl' == Deliver(cl1, ActiveFrame(1, "/A", false))
    ensures Holds(cl', "/A", MOVED) && cl'.out == [Update("/A", MOVED, 0, 0)]
  {
    assert Holds(cl1, "/A", MOVED);
    StillHolds(cl1, cl', ActiveFrame(1, "/A", false), "/A", MOVED);
  }

  lemma CrossedState(w: World, w1: World, w': World)
    requires TwoJoined(w) && w1 == DoSend(w, 1, "/A", MOVED, 0)
    requires Edited(w1, 2, RequestEdit(w1.clients[2], "/A", 0).(out := []), "/A", Deactivated, 0, w')
    ensures Crossed(w', Update("/A", MOVED, 0, 0))
  {
    CrossedHolds(w.clients[1], w1.clients[1], w'.clients[1]);
    CrossedNotice(w.book, w1.clients.Keys);
  }

  lemma CrossedNotice(b: Book, ids: set<ConnectionId>)
    requires MaxSent(b, 1) == 0 && Notice(b, 1, "/A") == 0
    ensures Notice(Record(SentToAll(Record(b, Change("/A", 1, 2)), ids, 1), Sent(2, 1)), 1, "/A") == 1
  {
    BroadcastNotice(b, "/A", 1, 2, ids, 1, "/A");
  }

  lemma CrossedIsStale(w: World, u: Update) returns (steps: seq<Step>, w': World)
    requires Crossed(w, u)
    ensures Leads(w, steps, w') && Calm(w') && w'.clients.Keys == {1, 2} && w'.clients[1].joined
    ensures Holds(w'.clients[1], "/A", MOVED) && w' == w.(clients := w'.clients, book := w'.book)
  {
    var w1 := DoAccept(w, 1);
    Accepted(w, 1, u);
    w' := HandleTransform(Pop(w1), 1, u, false);
    assert w' == SendAck(Pop(w1), 1, 0, false);
    Prepend(w1, Transformed(false), w', [], w');
    Prepend(w, Accept(1), w1, [Transformed(false)] + [], w');
    steps := [Accept(1)] + ([Transformed(false)] + []);
    StillHolds(w.clients[1], w'.clients[1], Ack(w.serverSeq, 0, false), "/A", MOVED);
  }

  /** Its update is stale, and the frame that outdated it carries no transform. */
  lemma CrossedEditDiverges() returns (w0: World, steps: seq<Step>, w: World)
    ensures Initial(w0) && Leads(w0, steps, w) && Diverged(w, 1, "/A")
  {
    w0 := Start(Flat());
    var a, w1 := OneJoins(Flat());
    var b, w2 := SecondJoins(w1);
    var c, w3 := Crosses(w2);
    var d, w4 := CrossedIsStale(w3, Update("/A", MOVED, 0, 0));
    HoldsApart(w4, 1, "/A", MOVED);
    var e: seq<Step>;
    e, w := Diverges(w4, 1, "/A");
    LeadsOn(w0, a, w1, b, w2);
    LeadsOn(w0, a + b, w2, c, w3);
    LeadsOn(w0, a + b + c, w3, d, w4);
    LeadsOn(w0, a + b + c + d, w4, e, w);
    steps := a + b + c + d + e;
  }
}
