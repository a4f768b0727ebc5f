/** Every step of the update protocol keeps the invariants, for every connection and every prim. */
module Convergence {
  import opened Versions
  import opened Protocol
  import opened Transforms
  import opened ProtocolInvariants

  /** A correction of `p` for `c` is on its way. */
  predicate Due(w: World, c: ConnectionId, p: PrimPath) {
    || (c in w.clients && !w.clients[c].io.Listening? && w.clients[c].io.prim == p)
    || (c, p) in w.priority
    || (!w.consumer.Idle? && w.consumer.connection == c && w.consumer.prim == p)
  }

  function LocalOf(w: World, c: ConnectionId, p: PrimPath): Local
    requires c in w.clients
  {
    Local(w.clients[c], InFlight(w, c), Notice(w.book, c, p), MaxSent(w.book, c), w.serverSeq,
          Resolved(w, p), p in w.session || p in w.created, Exists(w, p), Due(w, c, p), (c, p) in w.astray)
  }

  lemma {:induction false} OwnQueuedAppend(q: seq<Command>, cmd: Command, c: ConnectionId)
    ensures OwnQueued(q + [cmd], c)
         == OwnQueued(q, c) + (if cmd.EditCommand? && cmd.origin == c then [cmd.update] else [])
    decreases |q|
  {
    if q == [] {
      assert q + [cmd] == [cmd];
      assert [cmd][1..] == [];
      assert OwnQueued([cmd], c)
          == (if cmd.EditCommand? && cmd.origin == c then [cmd.update] else []) + OwnQueued([cmd][1..], c);
    } else {
      assert (q + [cmd])[1..] == q[1..] + [cmd];
      OwnQueuedAppend(q[1..], cmd, c);
    }
  }

  lemma {:induction false} OwnQueuedNone(q: seq<Command>, c: ConnectionId)
    requires forall i | 0 <= i < |q| && q[i].EditCommand? :: q[i].origin != c
    ensures OwnQueued(q, c) == []
    decreases |q|
  {
    if q != [] {
      OwnQueuedNone(q[1..], c);
    }
  }

  // ------------------------------------------------------------------
  // Structure: queues, joins, correction marks
  // ------------------------------------------------------------------

  /** The mark of (c, p) is set exactly while one correction is being submitted, queued or just popped. */
  ghost predicate MarkInv(w: World, c: ConnectionId, p: PrimPath)
    requires c in w.clients
  {
    var submitting := w.clients[c].io == Submitting(p);
    var queued := (c, p) in w.priority;
    var popped := w.consumer == Popped(c, p);
    && (p in w.clients[c].queued <==> submitting || queued || popped)
    && !(submitting && queued) && !(submitting && popped) && !(queued && popped)
  }

  /** Marks and debts of one connection. */
  ghost predicate DebtInv(w: World, c: ConnectionId, p: PrimPath)
    requires c in w.clients
  {
    MarkInv(w, c, p) && (w.clients[c].joined || !Due(w, c, p))
  }

  ghost predicate QueueInv(w: World) {
    && (forall i | 0 <= i < |w.queue| ::
          match w.queue[i]
          case EditCommand(c, _) => 0 < c < w.nextConnection
          case JoinCommand(c) => c < w.nextConnection && (c in w.clients ==> w.clients[c].phase.JoinQueued?)
          case ReloadCommand => true)
    && (forall i, j | 0 <= i < j < |w.queue| && w.queue[i].JoinCommand? :: w.queue[i] != w.queue[j])
  }

  ghost predicate CorrectionInv(w: World) {
    && (forall i | 0 <= i < |w.priority| :: w.priority[i].0 < w.nextConnection)
    && (forall i, j | 0 <= i < j < |w.priority| :: w.priority[i] != w.priority[j])
    && (!w.consumer.Idle? ==> w.consumer.connection < w.nextConnection)
    && (forall c, p | c in w.clients :: DebtInv(w, c, p))
  }

  /** What the layers hold fits together. */
  ghost predicate StageInv(w: World) {
    w.session.Keys == w.announced.Keys
  }

  ghost predicate SceneInv(w: World) {
    && Idempotent(w.narrow) && StageInv(w) && w.nextConnection > 0
    && (forall c | c in w.clients :: 0 < c < w.nextConnection)
  }

  ghost predicate BookInv(b: Book, s: nat) {
    && (forall c, p | c != 0 :: Notice(b, c, p) <= s)
    && (forall c :: MaxSent(b, c) <= s)
  }

  ghost predicate StructureInv(w: World) {
    SceneInv(w) && QueueInv(w) && CorrectionInv(w) && BookInv(w.book, w.serverSeq)
  }

  ghost predicate ConnectionInv(w: World, c: ConnectionId, p: PrimPath)
    requires c in w.clients
  {
    ClientInv(LocalOf(w, c, p)) && PairInv(LocalOf(w, c, p), p, w.narrow)
  }

  ghost predicate AllConnections(w: World) {
    forall c, p | c in w.clients :: ConnectionInv(w, c, p)
  }

  ghost predicate Inv(w: World) {
    StructureInv(w) && AllConnections(w)
  }

  // ------------------------------------------------------------------
  // Steps of clients and io threads
  // ------------------------------------------------------------------

  lemma SameKeeps(w: World, w': World, c: ConnectionId, p: PrimPath)
    requires c in w.clients && c in w'.clients && ConnectionInv(w, c, p) && w'.narrow == w.narrow
    requires SameFor(LocalOf(w, c, p), LocalOf(w', c, p))
    ensures ConnectionInv(w', c, p)
  {
    SameKeepsClient(LocalOf(w, c, p), LocalOf(w', c, p));
    SameKeepsPair(LocalOf(w, c, p), LocalOf(w', c, p), p, w.narrow);
  }

  lemma AttachFresh(w: World, p: PrimPath)
    requires forall i | 0 <= i < |w.queue| && w.queue[i].EditCommand? :: w.queue[i].origin < w.nextConnection
    requires Notice(w.book, w.nextConnection, p) <= w.serverSeq && MaxSent(w.book, w.nextConnection) <= w.serverSeq
    ensures ConnectionInv(DoAttach(w), w.nextConnection, p)
  {
    OwnQueuedNone(w.queue, w.nextConnection);
    FreshClient(LocalOf(DoAttach(w), w.nextConnection, p), p, w.narrow);
  }

  lemma AttachLocal(w: World, c: ConnectionId, p: PrimPath)
    requires c in w.clients && c != w.nextConnection
    ensures c in DoAttach(w).clients && LocalOf(DoAttach(w), c, p) == LocalOf(w, c, p)
  {
  }

  lemma AttachKeeps(w: World, c: ConnectionId, p: PrimPath)
    requires c in DoAttach(w).clients
    requires c in w.clients ==> c != w.nextConnection && ConnectionInv(w, c, p)
    requires forall i | 0 <= i < |w.queue| && w.queue[i].EditCommand? :: w.queue[i].origin < w.nextConnection
    requires Notice(w.book, w.nextConnection, p) <= w.serverSeq && MaxSent(w.book, w.nextConnection) <= w.serverSeq
    ensures ConnectionInv(DoAttach(w), c, p)
  {
    if c == w.nextConnection {
      AttachFresh(w, p);
    } else {
      AttachLocal(w, c, p);
    }
  }

  lemma ReceiveLocal(w: World, r: ConnectionId, c: ConnectionId, p: PrimPath)
    requires r in w.clients && w.clients[r].received < |w.clients[r].hist| && c in w.clients
    ensures var l, l' := LocalOf(w, c, p), LocalOf(DoReceive(w, r), c, p);
            if c == r then l' == l.(cl := ReceiveFrame(l.cl)) else SameFor(l, l')
  {
  }

  lemma ReceiveKeeps(w: World, r: ConnectionId, c: ConnectionId, p: PrimPath)
    requires r in w.clients && w.clients[r].received < |w.clients[r].hist|
    requires c in w.clients && ConnectionInv(w, c, p)
    ensures ConnectionInv(DoReceive(w, r), c, p)
  {
    ReceiveLocal(w, r, c, p);
    if c == r {
      ReceivedClient(LocalOf(w, c, p), LocalOf(DoReceive(w, r), c, p));
      ReceivedPair(LocalOf(w, c, p), LocalOf(DoReceive(w, r), c, p), p, w.narrow);
    } else {
      SameKeeps(w, DoReceive(w, r), c, p);
    }
  }

  lemma SendLocal(w: World, r: ConnectionId, q: PrimPath, v: Transform, id: nat, c: ConnectionId, p: PrimPath)
    requires r in w.clients && c in w.clients
    ensures var l, l' := LocalOf(w, c, p), LocalOf(DoSend(w, r, q, v, id), c, p);
            if c == r
            then UpdateSent(l, q, v, id, l') && l'.astray == (l.astray || (p == q && Unaware(l.cl, q)))
            else SameFor(l, l')
  {
    if c == r {
      var w' := DoSend(w, r, q, v, id);
      assert InFlight(w', c) == InFlight(w, c) + [Update(q, v, w.clients[c].lastSeq, id)];
    }
  }

  lemma SendKeeps(w: World, r: ConnectionId, q: PrimPath, v: Transform, id: nat, c: ConnectionId, p: PrimPath)
    requires r in w.clients && w.clients[r].joined && GroupRead(w.clients[r], q)
    requires c in w.clients && ConnectionInv(w, c, p)
    ensures ConnectionInv(DoSend(w, r, q, v, id), c, p)
  {
    SendLocal(w, r, q, v, id, c, p);
    if c == r {
      var l, l' := LocalOf(w, c, p), LocalOf(DoSend(w, r, q, v, id), c, p);
      SentClient(l, Update(q, v, l.cl.lastSeq, id), l');
      SentPair(l, l', q, v, id, p, w.narrow);
    } else {
      SameKeeps(w, DoSend(w, r, q, v, id), c, p);
    }
  }

  lemma EditLocal(w: World, r: ConnectionId, q: PrimPath, id: nat, c: ConnectionId, p: PrimPath)
    requires r in w.clients && c in w.clients
    ensures var l, l' := LocalOf(w, c, p), LocalOf(DoSendEdit(w, r, q, id), c, p);
            if c == r then EditSent(l, q, id, l') else SameFor(l, l')
  {
    if c == r {
      var w' := DoSendEdit(w, r, q, id);
      assert InFlight(w', c) == InFlight(w, c) + [SceneEdit(q, w.clients[c].lastSeq, id)];
    }
  }

  lemma EditKeeps(w: World, r: ConnectionId, q: PrimPath, id: nat, c: ConnectionId, p: PrimPath)
    requires r in w.clients && w.clients[r].joined && c in w.clients && ConnectionInv(w, c, p)
    ensures ConnectionInv(DoSendEdit(w, r, q, id), c, p)
  {
    EditLocal(w, r, q, id, c, p);
    if c == r {
      var l, l' := LocalOf(w, c, p), LocalOf(DoSendEdit(w, r, q, id), c, p);
      SentClient(l, SceneEdit(q, l.cl.lastSeq, id), l');
      EditPair(l, l', q, id, p, w.narrow);
    } else {
      SameKeeps(w, DoSendEdit(w, r, q, id), c, p);
    }
  }

  lemma AcceptLocal(w: World, r: ConnectionId, c: ConnectionId, p: PrimPath)
    requires r in w.clients && w.clients[r].out != [] && c in w.clients
    ensures SameFor(LocalOf(w, c, p), LocalOf(DoAccept(w, r), c, p))
  {
    var w' := DoAccept(w, r);
    var u := w.clients[r].out[0];
    OwnQueuedAppend(w.queue, EditCommand(r, u), c);
    if c == r {
      HeadMoves(OwnQueued(w.queue, c), w.clients[c].out);
    }
    assert InFlight(w', c) == InFlight(w, c);
  }

  lemma HeadMoves(a: seq<Update>, b: seq<Update>)
    requires b != []
    ensures (a + [b[0]]) + b[1..] == a + b
  {
  }

  lemma AcceptKeeps(w: World, r: ConnectionId, c: ConnectionId, p: PrimPath)
    requires r in w.clients && w.clients[r].out != []
    requires c in w.clients && ConnectionInv(w, c, p)
    ensures ConnectionInv(DoAccept(w, r), c, p)
  {
    AcceptLocal(w, r, c, p);
    SameKeeps(w, DoAccept(w, r), c, p);
  }

  lemma RejectLocal(w: World, r: ConnectionId, c: ConnectionId, p: PrimPath)
    requires r in w.clients && w.clients[r].out != [] && w.clients[r].io.Listening? && c in w.clients
    ensures var l, l' := LocalOf(w, c, p), LocalOf(DoReject(w, r), c, p);
            var k := |OwnQueued(w.queue, c)|;
            if c != r then SameFor(l, l')
            else RejectedOf(l, l', k) && (if Moves(l.inFlight[k], p) then l'.due else l'.due == l.due)
  {
    if c == r {
      var k := |OwnQueued(w.queue, c)|;
      assert InFlight(DoReject(w, r), c) == InFlight(w, c)[..k] + InFlight(w, c)[k + 1..];
    }
  }

  lemma RejectKeeps(w: World, r: ConnectionId, c: ConnectionId, p: PrimPath)
    requires r in w.clients && w.clients[r].out != [] && w.clients[r].io.Listening?
    requires c in w.clients && ConnectionInv(w, c, p)
    ensures ConnectionInv(DoReject(w, r), c, p)
  {
    RejectLocal(w, r, c, p);
    if c != r {
      SameKeeps(w, DoReject(w, r), c, p);
    } else {
      var k := |OwnQueued(w.queue, c)|;
      RejectedClient(LocalOf(w, c, p), LocalOf(DoReject(w, r), c, p), k);
      RejectedPair(LocalOf(w, c, p), LocalOf(DoReject(w, r), c, p), k, p, w.narrow);
    }
  }

  /** Steps that move neither frames nor updates. */
  lemma QuietLocal(w: World, w': World, submitted: seq<Command>, c: ConnectionId, p: PrimPath)
    requires c in w.clients && c in w'.clients
    requires w' == w.(queue := w'.queue, priority := w'.priority, consumer := w'.consumer, astray := w'.astray,
                      clients := w'.clients)
    requires w'.clients[c].(io := w.clients[c].io, queued := w.clients[c].queued, phase := w.clients[c].phase)
             == w.clients[c]
    requires w'.clients[c].phase.SnapshotSent? == w.clients[c].phase.SnapshotSent?
    requires w'.queue == w.queue + submitted
    requires |submitted| <= 1 && (submitted != [] ==> !submitted[0].EditCommand?)
    ensures var l, l' := LocalOf(w, c, p), LocalOf(w', c, p);
            SameFor(l, l'.(due := l.due, astray := l.astray))
  {
    if submitted == [] {
      assert w.queue + submitted == w.queue;
    } else {
      assert submitted == [submitted[0]];
      OwnQueuedAppend(w.queue, submitted[0], c);
    }
  }

  lemma CorrectionStepLocal(w: World, s: Step, c: ConnectionId, p: PrimPath)
    requires Possible(w, s) && CorrectionStep(s) && c in w.clients
    ensures c in Next(w, s).clients
    ensures var l, l' := LocalOf(w, c, p), LocalOf(Next(w, s), c, p);
            SameFor(l, l'.(due := l.due, astray := l.astray))
    ensures (s.DropCorrection? && s.c == c && w.clients[c].io.prim == p)
         || ((c, p) in Next(w, s).astray <==> (c, p) in w.astray)
  {
    assert w.queue + [] == w.queue;
    QuietLocal(w, Next(w, s), [], c, p);
  }

  // ------------------------------------------------------------------
  // Steps of the consumer
  // ------------------------------------------------------------------

  /** `w` after the oldest command was taken from the queue; updates of `c` in it are still to be answered. */
  lemma PoppedLocal(w: World, c: ConnectionId, p: PrimPath)
    requires w.queue != [] && c in w.clients
    ensures var cmd, w1 := w.queue[0], w.(queue := w.queue[1..]);
            var l, l1 := LocalOf(w, c, p), LocalOf(w1, c, p);
            if cmd.EditCommand? && cmd.origin == c
            then l.inFlight == [cmd.update] + l1.inFlight && l1 == l.(inFlight := l.inFlight[1..])
            else l1 == l
  {
    var w1 := w.(queue := w.queue[1..]);
    if w.queue[0].EditCommand? && w.queue[0].origin == c {
      assert InFlight(w, c) == [w.queue[0].update] + InFlight(w1, c);
    } else {
      assert InFlight(w, c) == InFlight(w1, c);
    }
  }

  lemma JoinLocal(w: World, j: ConnectionId, c: ConnectionId, p: PrimPath)
    requires c in w.clients && MaxSent(w.book, c) <= w.serverSeq
    ensures var l, l' := LocalOf(w, c, p), LocalOf(HandleJoin(w, j), c, p);
            if c != j then l' == l
            else
              && l' == l.(cl := l'.cl, maxSent := w.serverSeq,
                          astray := if p in SnapshotValues(w) then Misannounced(w, p) else l.astray)
              && l'.cl == Deliver(l.cl, Snapshot(w.serverSeq, SnapshotValues(w))).(phase := SnapshotSent)
  {
  }

  lemma JoinKeeps(w: World, j: ConnectionId, c: ConnectionId, p: PrimPath)
    requires c in w.clients && ConnectionInv(w, c, p) && MaxSent(w.book, c) <= w.serverSeq && StageInv(w)
    requires c == j ==> !w.clients[c].phase.SnapshotSent? && !Due(w, c, p)
    ensures ConnectionInv(HandleJoin(w, j), c, p)
  {
    JoinLocal(w, j, c, p);
    if c == j {
      JoinerKeeps(LocalOf(w, c, p), LocalOf(HandleJoin(w, j), c, p), w, p);
    }
  }

  lemma JoinerKeeps(l: Local, l': Local, w: World, p: PrimPath)
    requires ClientInv(l) && PairInv(l, p, w.narrow) && StageInv(w) && !l.cl.phase.SnapshotSent? && !l.due
    requires l.serverSeq == w.serverSeq && l.value == Resolved(w, p)
    requires l.carried == (p in w.session || p in w.created) && l.present == Exists(w, p)
    requires l' == l.(cl := l'.cl, maxSent := w.serverSeq,
                      astray := if p in SnapshotValues(w) then Misannounced(w, p) else l.astray)
    requires l'.cl == Deliver(l.cl, Snapshot(w.serverSeq, SnapshotValues(w))).(phase := SnapshotSent)
    ensures ClientInv(l') && PairInv(l', p, w.narrow)
  {
    var f := Snapshot(w.serverSeq, SnapshotValues(w));
    DeliveredClient(l, f, l');
    DeliveredSnapshot(l, f, l', p, w.narrow);
  }

  lemma AckLocal(w: World, a: ConnectionId, id: nat, ok: bool, c: ConnectionId, p: PrimPath)
    requires c in w.clients && MaxSent(w.book, c) <= w.serverSeq
    ensures var l, l' := LocalOf(w, c, p), LocalOf(SendAck(w, a, id, ok), c, p);
            if c != a then l' == l
            else l' == l.(cl := Deliver(l.cl, Ack(w.serverSeq, id, ok)), maxSent := w.serverSeq)
  {
  }

  lemma CorrectionNotice(b: Book, a: ConnectionId, q: PrimPath, s: nat, c: ConnectionId, p: PrimPath)
    requires MaxSent(b, c) <= s && Notice(b, c, p) <= s
    ensures var b' := Record(b, Correction(a, q, s));
            && Notice(b', c, p) == (if c == a && q == p then s else Notice(b, c, p))
            && MaxSent(b', c) == (if c == a then s else MaxSent(b, c))
  {
  }

  /** For everyone else only the version moves. */
  lemma CorrectionElsewhere(w: World, a: ConnectionId, q: PrimPath, c: ConnectionId, p: PrimPath)
    requires c in w.clients && c != a && MaxSent(w.book, c) <= w.serverSeq && Notice(w.book, c, p) <= w.serverSeq
    ensures var l, l' := LocalOf(w, c, p), LocalOf(SendCorrection(w, a, q), c, p);
            l' == l.(serverSeq := l'.serverSeq) && w.serverSeq <= l'.serverSeq
  {
    if a in w.clients && Readable(w, q) {
      CorrectionNotice(w.book, a, q, w.serverSeq + 1, c, p);
    }
  }

  lemma CorrectionSent(w: World, c: ConnectionId, q: PrimPath, p: PrimPath)
    requires c in w.clients && Readable(w, q)
    requires MaxSent(w.book, c) <= w.serverSeq && Notice(w.book, c, p) <= w.serverSeq
    ensures var l, l' := LocalOf(w, c, p), LocalOf(SendCorrection(w, c, q), c, p);
            l' == l.(cl := Deliver(l.cl, CorrectionOf(w, q)), maxSent := w.serverSeq + 1,
                     serverSeq := w.serverSeq + 1, notice := if q == p then w.serverSeq + 1 else l.notice,
                     astray := if q == p then q in w.inactive else l.astray)
  {
    CorrectionNotice(w.book, c, q, w.serverSeq + 1, c, p);
  }

  lemma CorrectionUnsent(w: World, c: ConnectionId, q: PrimPath, p: PrimPath)
    requires c in w.clients && !Readable(w, q)
    ensures var l := LocalOf(w, c, p); LocalOf(SendCorrection(w, c, q), c, p) == l.(astray := l.astray || q == p)
  {
  }

  /** The book after a change was recorded and sent to `ids`. */
  lemma BroadcastNotice(
    b: Book, q: PrimPath, s: nat, origin: ConnectionId, ids: set<ConnectionId>, c: ConnectionId, p: PrimPath)
    requires c != 0 && MaxSent(b, c) <= s && Notice(b, c, p) <= s
    ensures var b' := SentToAll(Record(b, Change(q, s, origin)), ids, s);
            && Notice(b', c, p) == (if q == p && c != origin then s else Notice(b, c, p))
            && MaxSent(b', c) == (if c in ids then s else MaxSent(b, c))
  {
    var b1 := Record(b, Change(q, s, origin));
    if c == origin {
      OwnChangeKeepsNotice(b, q, s, c);
    }
    assert Notice(SentToAll(b1, ids, s), c, p) == Notice(b1, c, p);
  }

  lemma BroadcastLocal(w: World, q: PrimPath, origin: ConnectionId, c: ConnectionId, p: PrimPath)
    requires c in w.clients && Readable(w, q) && c != 0
    requires MaxSent(w.book, c) <= w.serverSeq && Notice(w.book, c, p) <= w.serverSeq
    ensures var l, l' := LocalOf(w, c, p), LocalOf(BroadcastChange(w, q, origin), c, p);
            if c == origin then l' == l
            else l' == l.(cl := Deliver(l.cl, Xform(w.serverSeq, q, ReadBack(w, q))), maxSent := w.serverSeq,
                          notice := if q == p then w.serverSeq else l.notice, astray := l.astray && q != p)
  {
    BroadcastNotice(w.book, q, w.serverSeq, origin, w.clients.Keys - {origin}, c, p);
  }

  /** A change of a prim that cannot be read is recorded and not sent. */
  lemma UnsentLocal(w: World, q: PrimPath, c: ConnectionId, p: PrimPath)
    requires c in w.clients && !Readable(w, q) && c != 0 && Notice(w.book, c, p) <= w.serverSeq
    ensures var l, l' := LocalOf(w, c, p), LocalOf(BroadcastChange(w, q, 0), c, p);
            l' == l.(notice := if q == p then w.serverSeq else l.notice, astray := l.astray || q == p)
  {
  }

  lemma CorrectionPasses(w: World, a: ConnectionId, q: PrimPath, c: ConnectionId, p: PrimPath)
    requires c in w.clients && c != a && MaxSent(w.book, c) <= w.serverSeq && Notice(w.book, c, p) <= w.serverSeq
    requires ConnectionInv(w, c, p)
    ensures ConnectionInv(SendCorrection(w, a, q), c, p)
  {
    CorrectionElsewhere(w, a, q, c, p);
    SameKeeps(w, SendCorrection(w, a, q), c, p);
  }

  /** A correction reaches `a`; for everyone else only the version moves. */
  lemma CorrectionKeeps(w: World, a: ConnectionId, q: PrimPath, c: ConnectionId, p: PrimPath)
    requires c in w.clients && Idempotent(w.narrow)
    requires MaxSent(w.book, c) <= w.serverSeq && Notice(w.book, c, p) <= w.serverSeq
    requires ClientInv(LocalOf(w, c, p))
    requires if c == a && p == q then FramesInv(LocalOf(w, c, p), p) else PairInv(LocalOf(w, c, p), p, w.narrow)
    ensures ConnectionInv(SendCorrection(w, a, q), c, p)
  {
    if c != a {
      CorrectionPasses(w, a, q, c, p);
    } else if !Readable(w, q) {
      CorrectionUnsent(w, c, q, p);
      CorrectionUnread(LocalOf(w, c, p), LocalOf(SendCorrection(w, a, q), c, p), p == q, p, w.narrow);
    } else {
      CorrectionSent(w, c, q, p);
      CorrectionReaches(LocalOf(w, c, p), LocalOf(SendCorrection(w, a, q), c, p), w, q, p);
    }
  }

  lemma CorrectionUnread(l: Local, l': Local, here: bool, p: PrimPath, narrow: Narrowing)
    requires ClientInv(l) && l' == l.(astray := l.astray || here)
    requires if here then FramesInv(l, p) else PairInv(l, p, narrow)
    ensures ClientInv(l') && PairInv(l', p, narrow)
  {
    ClientIgnores(l, l');
    if here {
      FramesIgnore(l, l', p);
    } else {
      assert l' == l;
    }
  }

  lemma CorrectionReaches(l: Local, l': Local, w: World, q: PrimPath, p: PrimPath)
    requires Idempotent(w.narrow) && ClientInv(l)
    requires l.serverSeq == w.serverSeq && (q == p ==> l.value == Resolved(w, p))
    requires l' == l.(cl := Deliver(l.cl, CorrectionOf(w, q)), maxSent := w.serverSeq + 1, serverSeq := w.serverSeq + 1,
                      notice := if q == p then w.serverSeq + 1 else l.notice,
                      astray := if q == p then q in w.inactive else l.astray)
    requires if p == q then FramesInv(l, p) else PairInv(l, p, w.narrow)
    ensures ClientInv(l') && PairInv(l', p, w.narrow)
  {
    var f := CorrectionOf(w, q);
    if q !in w.inactive {
      XformReaches(l, f, l', p, w.narrow);
    } else {
      DeliveredClient(l, f, l');
      if p == q {
        DeliveredFrames(l, f, l', p);
      } else {
        DeliveredOther(l, f, l', p, w.narrow);
      }
    }
  }

  /** The oldest command is the request `u` of `o`. */
  predicate NextUpdate(w: World, o: ConnectionId, u: Update) {
    w.queue != [] && w.queue[0] == EditCommand(o, u)
  }

  function Pop(w: World): World
    requires w.queue != []
  {
    w.(queue := w.queue[1..])
  }

  lemma UnappliedLocal(w: World, o: ConnectionId, u: Update, ok: bool, c: ConnectionId, p: PrimPath)
    requires c in w.clients && NextUpdate(w, o, u) && MaxSent(w.book, c) <= w.serverSeq
    ensures var l, l' := LocalOf(w, c, p), LocalOf(SendAck(Pop(w), o, u.requestId, ok), c, p);
            if c != o then l' == l
            else
              && l.inFlight != [] && l.inFlight[0] == u
              && l' == l.(inFlight := l.inFlight[1..], maxSent := w.serverSeq,
                          cl := Deliver(l.cl, Ack(w.serverSeq, u.requestId, ok)))
  {
    PoppedLocal(w, c, p);
    AckLocal(Pop(w), o, u.requestId, ok, c, p);
  }

  /** A request that changed nothing is answered. */
  lemma AnswerKeeps(w: World, o: ConnectionId, u: Update, ok: bool, c: ConnectionId, p: PrimPath)
    requires c in w.clients && ConnectionInv(w, c, p) && NextUpdate(w, o, u) && MaxSent(w.book, c) <= w.serverSeq
    requires c == o && Moves(u, p) ==> u.base < Notice(w.book, c, p)
    ensures ConnectionInv(SendAck(Pop(w), o, u.requestId, ok), c, p)
  {
    UnappliedLocal(w, o, u, ok, c, p);
    if c == o {
      var l, l' := LocalOf(w, c, p), LocalOf(SendAck(Pop(w), o, u.requestId, ok), c, p);
      AnsweredClient(l, Ack(w.serverSeq, u.requestId, ok), l');
      AnsweredUnapplied(l, Ack(w.serverSeq, u.requestId, ok), l', p, w.narrow);
    }
  }

  lemma StaleKeeps(w: World, o: ConnectionId, u: Update, c: ConnectionId, p: PrimPath)
    requires c in w.clients && ConnectionInv(w, c, p) && NextUpdate(w, o, u)
    requires MaxSent(w.book, c) <= w.serverSeq && Check(w.book, o, u.prim, u.base) != Current
    ensures ConnectionInv(SendAck(Pop(w), o, u.requestId, false), c, p)
  {
    if c == o {
      UnappliedLocal(w, o, u, false, c, p);
      assert Moves(u, p) ==> u.base < Notice(w.book, c, p);
    }
    AnswerKeeps(w, o, u, false, c, p);
  }

  // Creations and active states

  lemma AsideLocal(w: World, w': World, c: ConnectionId, p: PrimPath)
    requires c in w.clients && w' == w.(created := w'.created, inactive := w'.inactive, astray := w'.astray)
    ensures LocalOf(w', c, p) == LocalOf(w, c, p).(carried := p in w.session || p in w'.created,
                                                   present := p in w.root || p in w'.created,
                                                   astray := (c, p) in w'.astray)
  {
  }

  lemma EveryoneLocal(w: World, f: Frame, o: ConnectionId, c: ConnectionId, p: PrimPath)
    requires c in w.clients && c != 0 && (f.CreateFrame? || f.ActiveFrame?) && w.serverSeq <= f.seq_
    requires MaxSent(w.book, c) <= w.serverSeq && Notice(w.book, c, p) <= w.serverSeq
    ensures var l, l' := LocalOf(w, c, p), LocalOf(ToEveryone(w, f, o), c, p);
            l' == l.(cl := Deliver(l.cl, f), maxSent := f.seq_, serverSeq := f.seq_,
                     notice := if f.prim == p && c != o then f.seq_ else l.notice)
  {
    BroadcastNotice(w.book, f.prim, f.seq_, o, w.clients.Keys, c, p);
  }

  lemma EveryoneAside(w: World, f: Frame, o: ConnectionId, w': World, c: ConnectionId, p: PrimPath)
    requires c in w.clients && c != 0 && (f.CreateFrame? || f.ActiveFrame?) && w.serverSeq <= f.seq_
    requires MaxSent(w.book, c) <= w.serverSeq && Notice(w.book, c, p) <= w.serverSeq
    requires w' == ToEveryone(w, f, o).(created := w'.created, inactive := w'.inactive, astray := w'.astray)
    ensures var l, l' := LocalOf(w, c, p), LocalOf(w', c, p);
            l' == l.(cl := Deliver(l.cl, f), maxSent := f.seq_, serverSeq := f.seq_,
                     notice := if f.prim == p && c != o then f.seq_ else l.notice,
                     carried := p in w.session || p in w'.created, present := p in w.root || p in w'.created,
                     astray := (c, p) in w'.astray)
  {
    EveryoneLocal(w, f, o, c, p);
    AsideLocal(ToEveryone(w, f, o), w', c, p);
  }

  lemma CreateMember(w: World, q: PrimPath, o: ConnectionId, c: ConnectionId, p: PrimPath)
    requires c in w.clients
    ensures (c, p) in BroadcastCreate(w, q, o).astray <==>
              if p == q then c == o && LastOf(InFlight(w, c), p) != [] else (c, p) in w.astray
  {
  }

  lemma CreateLocal(w: World, q: PrimPath, o: ConnectionId, c: ConnectionId, p: PrimPath)
    requires c in w.clients && c != 0 && !Exists(w, q) && q !in w.session
    requires MaxSent(w.book, c) <= w.serverSeq && Notice(w.book, c, p) <= w.serverSeq
    ensures var l, l' := LocalOf(w, c, p), LocalOf(BroadcastCreate(w, q, o), c, p);
            l' == l.(cl := Deliver(l.cl, CreateFrame(w.serverSeq + 1, q)), maxSent := w.serverSeq + 1,
                     serverSeq := w.serverSeq + 1, notice := if q == p && c != o then w.serverSeq + 1 else l.notice,
                     carried := l.carried || q == p, present := l.present || q == p,
                     astray := if q == p then c == o && LastOf(l.inFlight, p) != [] else l.astray)
  {
    CreateMember(w, q, o, c, p);
    EveryoneAside(w, CreateFrame(w.serverSeq + 1, q), o, BroadcastCreate(w, q, o), c, p);
  }

  lemma CreateReaches(l: Local, l': Local, w: World, q: PrimPath, own: bool, p: PrimPath)
    requires Idempotent(w.narrow) && ClientInv(l) && PairInv(l, p, w.narrow)
    requires l.serverSeq == w.serverSeq && (q == p ==> l.value == IDENTITY)
    requires l' == l.(cl := Deliver(l.cl, CreateFrame(w.serverSeq + 1, q)), maxSent := w.serverSeq + 1,
                      serverSeq := w.serverSeq + 1, notice := if q == p && !own then w.serverSeq + 1 else l.notice,
                      carried := l.carried || q == p, present := l.present || q == p,
                      astray := if q == p then own && LastOf(l.inFlight, p) != [] else l.astray)
    ensures ClientInv(l') && PairInv(l', p, w.narrow)
  {
    var f := CreateFrame(w.serverSeq + 1, q);
    DeliveredClient(l, f, l');
    if p != q {
      DeliveredOther(l, f, l', p, w.narrow);
    } else if own {
      DeliveredOwnCreate(l, f, l', p, w.narrow);
    } else {
      DeliveredState(l, f, l', p, w.narrow);
    }
  }

  lemma MovingMember(w: World, q: PrimPath, o: ConnectionId, c: ConnectionId, p: PrimPath)
    requires c in w.clients
    ensures (c, p) in Moving(w, q, o) <==> q == p && c != o && LastOf(InFlight(w, c), p) != []
  {
  }

  lemma ActiveLocal(w: World, q: PrimPath, o: ConnectionId, active: bool, c: ConnectionId, p: PrimPath)
    requires c in w.clients && c != 0
    requires MaxSent(w.book, c) <= w.serverSeq && Notice(w.book, c, p) <= w.serverSeq
    ensures var l, l' := LocalOf(w, c, p), LocalOf(BroadcastActive(w, q, o, active), c, p);
            l' == l.(cl := Deliver(l.cl, ActiveFrame(w.serverSeq + 1, q, active)), maxSent := w.serverSeq + 1,
                     serverSeq := w.serverSeq + 1, notice := if q == p && c != o then w.serverSeq + 1 else l.notice,
                     astray := l.astray || (q == p && c != o && LastOf(l.inFlight, p) != []))
  {
    ActiveIs(w, q, o, active);
    ActiveAside(w, q, o, active, BroadcastActive(w, q, o, active), c, p);
  }

  lemma ActiveIs(w: World, q: PrimPath, o: ConnectionId, active: bool)
    ensures var w' := BroadcastActive(w, q, o, active);
            && w' == ToEveryone(w, ActiveFrame(w.serverSeq + 1, q, active), o).(
                 inactive := w'.inactive, astray := w'.astray)
            && w'.astray == w.astray + Moving(w, q, o)
  {
  }

  lemma ActiveAside(
    w: World, q: PrimPath, o: ConnectionId, active: bool, w': World, c: ConnectionId, p: PrimPath)
    requires c in w.clients && c != 0
    requires MaxSent(w.book, c) <= w.serverSeq && Notice(w.book, c, p) <= w.serverSeq
    requires w' == ToEveryone(w, ActiveFrame(w.serverSeq + 1, q, active), o).(
                     inactive := w'.inactive, astray := w'.astray)
    requires w'.astray == w.astray + Moving(w, q, o)
    ensures var l, l' := LocalOf(w, c, p), LocalOf(w', c, p);
            l' == l.(cl := Deliver(l.cl, ActiveFrame(w.serverSeq + 1, q, active)), maxSent := w.serverSeq + 1,
                     serverSeq := w.serverSeq + 1, notice := if q == p && c != o then w.serverSeq + 1 else l.notice,
                     astray := l.astray || (q == p && c != o && LastOf(l.inFlight, p) != []))
  {
    MovingMember(w, q, o, c, p);
    EveryoneAside(w, ActiveFrame(w.serverSeq + 1, q, active), o, w', c, p);
  }

  lemma ActiveReaches(l: Local, l': Local, w: World, q: PrimPath, active: bool, own: bool, p: PrimPath)
    requires ClientInv(l) && PairInv(l, p, w.narrow) && l.serverSeq == w.serverSeq
    requires l' == l.(cl := Deliver(l.cl, ActiveFrame(w.serverSeq + 1, q, active)), maxSent := w.serverSeq + 1,
                      serverSeq := w.serverSeq + 1, notice := if q == p && !own then w.serverSeq + 1 else l.notice,
                      astray := l.astray || (q == p && !own && LastOf(l.inFlight, p) != []))
    ensures ClientInv(l') && PairInv(l', p, w.narrow)
  {
    var f := ActiveFrame(w.serverSeq + 1, q, active);
    DeliveredClient(l, f, l');
    if p == q && !own {
      DeliveredActive(l, f, l', p, w.narrow);
    } else {
      DeliveredOther(l, f, l', p, w.narrow);
    }
  }

  lemma SceneKeeps(w: World, q: PrimPath, o: ConnectionId, e: SceneEffect, c: ConnectionId, p: PrimPath)
    requires c in w.clients && c != 0 && ConnectionInv(w, c, p) && Idempotent(w.narrow)
    requires !e.NoChange? && (e.Created? ==> !Exists(w, q) && q !in w.session)
    requires MaxSent(w.book, c) <= w.serverSeq && Notice(w.book, c, p) <= w.serverSeq
    ensures ConnectionInv(BroadcastScene(w, q, o, e), c, p)
    ensures MaxSent(BroadcastScene(w, q, o, e).book, c) <= w.serverSeq + 1
  {
    if e.Created? {
      CreateLocal(w, q, o, c, p);
      CreateReaches(LocalOf(w, c, p), LocalOf(BroadcastCreate(w, q, o), c, p), w, q, c == o, p);
    } else {
      ActiveLocal(w, q, o, e.Activated?, c, p);
      ActiveReaches(LocalOf(w, c, p), LocalOf(BroadcastActive(w, q, o, e.Activated?), c, p), w, q, e.Activated?, c == o,
                    p);
    }
  }

  /** Taking a request that moves nothing from the queue changes nothing about who moves what. */
  lemma EditPops(w: World, o: ConnectionId, u: Update, c: ConnectionId, q: PrimPath)
    requires c in w.clients && NextUpdate(w, o, u) && u.SceneEdit?
    ensures LastOf(InFlight(Pop(w), c), q) == LastOf(InFlight(w, c), q)
  {
    PoppedLocal(w, c, q);
    if c == o {
      LastOfTail(InFlight(w, c), q);
    }
  }

  lemma CreateCommutes(w: World, o: ConnectionId, u: Update, q: PrimPath)
    requires NextUpdate(w, o, u) && u.SceneEdit?
    ensures Pop(BroadcastCreate(w, q, o)) == BroadcastCreate(Pop(w), q, o)
  {
    if o in w.clients {
      EditPops(w, o, u, o, q);
    }
  }

  lemma MovingPops(w: World, o: ConnectionId, u: Update, q: PrimPath)
    requires NextUpdate(w, o, u) && u.SceneEdit?
    ensures Moving(Pop(w), q, o) == Moving(w, q, o)
  {
    forall c | c in w.clients ensures LastOf(InFlight(Pop(w), c), q) == LastOf(InFlight(w, c), q) {
      EditPops(w, o, u, c, q);
    }
  }

  lemma SceneCommutes(w: World, o: ConnectionId, u: Update, q: PrimPath, e: SceneEffect)
    requires NextUpdate(w, o, u) && u.SceneEdit?
    ensures BroadcastScene(w, q, o, e).queue == w.queue
    ensures Pop(BroadcastScene(w, q, o, e)) == BroadcastScene(Pop(w), q, o, e)
    ensures BroadcastScene(w, q, o, e).serverSeq == w.serverSeq + 1
  {
    if e.Created? {
      CreateCommutes(w, o, u, q);
    } else {
      MovingPops(w, o, u, q);
    }
  }

  lemma EditAnswered(w: World, o: ConnectionId, u: Update, ok: bool, c: ConnectionId, p: PrimPath)
    requires c in w.clients && ConnectionInv(w, c, p) && NextUpdate(w, o, u) && u.SceneEdit?
    requires MaxSent(w.book, c) <= w.serverSeq
    ensures ConnectionInv(SendAck(Pop(w), o, u.requestId, ok), c, p)
  {
    AnswerKeeps(w, o, u, ok, c, p);
  }

  lemma SceneConnection(w: World, o: ConnectionId, u: Update, q: PrimPath, e: SceneEffect, c: ConnectionId, p: PrimPath)
    requires c in w.clients && c != 0 && ConnectionInv(w, c, p) && NextUpdate(w, o, u) && u.SceneEdit?
    requires Idempotent(w.narrow) && (e.Created? ==> !Exists(w, q) && q !in w.session)
    requires MaxSent(w.book, c) <= w.serverSeq && Notice(w.book, c, p) <= w.serverSeq
    ensures ConnectionInv(HandleScene(Pop(w), o, u, q, e), c, p)
  {
    if e.NoChange? {
      EditAnswered(w, o, u, e.ok, c, p);
    } else {
      SceneKeeps(w, q, o, e, c, p);
      SceneCommutes(w, o, u, q, e);
      EditAnswered(BroadcastScene(w, q, o, e), o, u, true, c, p);
    }
  }

  // Transforms

  /** One connection after the broadcast and before the Ack. */
  ghost predicate BroadcastTo(l: Local, own: bool, u: Update, p: PrimPath, l': Local, narrow: Narrowing)
    requires u.Update?
  {
    var s, v := l.serverSeq + 1, narrow(u.value);
    var l1 := l.(serverSeq := s, value := if p == u.prim then v else l.value,
                 carried := p == u.prim || l.carried);
    if own
    then && l.inFlight != [] && l.inFlight[0] == u
         && l' == l1.(inFlight := l.inFlight[1..],
                      astray := l.astray && !(p == u.prim && Ends(l.(inFlight := l.inFlight[1..]), u)))
    else l' == l1.(cl := Deliver(l.cl, Xform(s, u.prim, narrow(v))), maxSent := s,
                   notice := if u.prim == p then s else l.notice, astray := l.astray && u.prim != p)
  }

  /** The layer has the update, and the version is new. */
  lemma AuthoredLocal(w: World, o: ConnectionId, u: Update, c: ConnectionId, p: PrimPath)
    requires c in w.clients && NextUpdate(w, o, u) && u.Update?
    ensures var l, l' := LocalOf(w, c, p), LocalOf(Author(Pop(w), u), c, p);
            && (c == o ==> l.inFlight != [] && l.inFlight[0] == u)
            && l' == l.(inFlight := if c == o then l.inFlight[1..] else l.inFlight, serverSeq := w.serverSeq + 1,
                        value := if p == u.prim then w.narrow(u.value) else l.value,
                        carried := p == u.prim || l.carried)
    ensures ReadBack(Author(Pop(w), u), u.prim) == w.narrow(w.narrow(u.value))
  {
    PoppedLocal(w, c, p);
  }

  lemma SettledLocal(w: World, o: ConnectionId, u: Update, c: ConnectionId, p: PrimPath)
    requires c in w.clients && u.Update?
    ensures var l, l' := LocalOf(w, c, p), LocalOf(Settle(w, o, u), c, p);
            l' == l.(astray := l.astray && !(c == o && p == u.prim && Ends(l, u)))
  {
  }

  lemma AppliedBroadcast(w: World, o: ConnectionId, u: Update, c: ConnectionId, p: PrimPath)
    requires c in w.clients && c != 0 && NextUpdate(w, o, u) && u.Update? && Readable(w, u.prim)
    requires MaxSent(w.book, c) <= w.serverSeq && Notice(w.book, c, p) <= w.serverSeq
    ensures BroadcastTo(LocalOf(w, c, p), c == o, u, p,
                        LocalOf(BroadcastChange(Settle(Author(Pop(w), u), o, u), u.prim, o), c, p), w.narrow)
  {
    var w1 := Author(Pop(w), u);
    AuthoredLocal(w, o, u, c, p);
    SettledLocal(w1, o, u, c, p);
    BroadcastLocal(Settle(w1, o, u), u.prim, o, c, p);
    if c == o && p == u.prim {
      EndsIgnores(LocalOf(w1, c, p), LocalOf(w, c, p).(inFlight := LocalOf(w1, c, p).inFlight), u);
    }
  }

  lemma EndsIgnores(l: Local, l': Local, u: Update)
    requires u.Update? && l'.inFlight == l.inFlight && l'.cl == l.cl
    ensures Ends(l, u) == Ends(l', u)
  {
  }

  lemma BroadcastThenAck(l: Local, own: bool, u: Update, p: PrimPath, l1: Local, l': Local, narrow: Narrowing)
    requires u.Update? && BroadcastTo(l, own, u, p, l1, narrow)
    requires if !own then l' == l1
             else l' == l1.(cl := Deliver(l1.cl, Ack(l.serverSeq + 1, u.requestId, true)), maxSent := l.serverSeq + 1)
    ensures AppliedTo(l, own, u, p, l', narrow)
  {
  }

  lemma AppliedIs(w: World, o: ConnectionId, u: Update)
    requires u.Update? && Readable(w, u.prim) && Check(w.book, o, u.prim, u.base) == Current
    ensures HandleTransform(w, o, u, true)
         == SendAck(BroadcastChange(Settle(Author(w, u), o, u), u.prim, o), o, u.requestId, true)
    ensures BroadcastChange(Settle(Author(w, u), o, u), u.prim, o).serverSeq == w.serverSeq + 1
  {
  }

  lemma AppliedLocal(w: World, o: ConnectionId, u: Update, c: ConnectionId, p: PrimPath)
    requires c in w.clients && c != 0 && NextUpdate(w, o, u) && Check(w.book, o, u.prim, u.base) == Current
    requires u.Update? && Readable(w, u.prim)
    requires MaxSent(w.book, c) <= w.serverSeq && Notice(w.book, c, p) <= w.serverSeq
    ensures AppliedTo(LocalOf(w, c, p), c == o, u, p, LocalOf(HandleTransform(Pop(w), o, u, true), c, p), w.narrow)
  {
    AppliedIs(Pop(w), o, u);
    AppliedBroadcast(w, o, u, c, p);
    AckedLocal(w, BroadcastChange(Settle(Author(Pop(w), u), o, u), u.prim, o), o, u, c, p);
  }

  lemma AckedLocal(w: World, w1: World, o: ConnectionId, u: Update, c: ConnectionId, p: PrimPath)
    requires c in w.clients && c in w1.clients && u.Update? && MaxSent(w.book, c) <= w.serverSeq
    requires w1.serverSeq == w.serverSeq + 1
    requires BroadcastTo(LocalOf(w, c, p), c == o, u, p, LocalOf(w1, c, p), w.narrow)
    ensures AppliedTo(LocalOf(w, c, p), c == o, u, p, LocalOf(SendAck(w1, o, u.requestId, true), c, p), w.narrow)
  {
    AckLocal(w1, o, u.requestId, true, c, p);
    BroadcastThenAck(LocalOf(w, c, p), c == o, u, p, LocalOf(w1, c, p),
                     LocalOf(SendAck(w1, o, u.requestId, true), c, p), w.narrow);
  }

  lemma AppliedKeeps(w: World, o: ConnectionId, u: Update, c: ConnectionId, p: PrimPath)
    requires c in w.clients && c != 0 && ConnectionInv(w, c, p) && NextUpdate(w, o, u)
    requires Idempotent(w.narrow) && Check(w.book, o, u.prim, u.base) == Current && u.Update? && Readable(w, u.prim)
    requires MaxSent(w.book, c) <= w.serverSeq && Notice(w.book, c, p) <= w.serverSeq
    ensures ConnectionInv(HandleTransform(Pop(w), o, u, true), c, p)
  {
    AppliedLocal(w, o, u, c, p);
    assert c == o && p == u.prim ==> LocalOf(w, c, p).notice <= u.base && LocalOf(w, c, p).present;
    AppliedMoves(LocalOf(w, c, p), c == o, u, p, LocalOf(HandleTransform(Pop(w), o, u, true), c, p), w.narrow);
  }

  lemma FailedKeeps(w: World, o: ConnectionId, u: Update, c: ConnectionId, p: PrimPath)
    requires c in w.clients && c != 0 && ConnectionInv(w, c, p) && NextUpdate(w, o, u)
    requires Idempotent(w.narrow) && Check(w.book, o, u.prim, u.base) == Current && u.Update?
    requires MaxSent(w.book, c) <= w.serverSeq && Notice(w.book, c, p) <= w.serverSeq
    ensures ConnectionInv(HandleTransform(Pop(w), o, u, false), c, p)
  {
    var w2 := SendAck(Pop(w), o, u.requestId, false);
    UnappliedLocal(w, o, u, false, c, p);
    if c == o {
      FailedAnswer(LocalOf(w, c, p), LocalOf(w2, c, p), u, p, w.narrow);
    }
    CorrectionKeeps(w2, o, u.prim, c, p);
  }

  lemma FailedAnswer(l: Local, l2: Local, u: Update, p: PrimPath, narrow: Narrowing)
    requires ClientInv(l) && PairInv(l, p, narrow) && l.inFlight != [] && l.inFlight[0] == u && l.maxSent <= l.serverSeq
    requires l2 == l.(inFlight := l.inFlight[1..], maxSent := l.serverSeq,
                      cl := Deliver(l.cl, Ack(l.serverSeq, u.requestId, false)))
    ensures ClientInv(l2) && if p == u.prim then FramesInv(l2, p) else PairInv(l2, p, narrow)
  {
    var f := Ack(l.serverSeq, u.requestId, false);
    AnsweredClient(l, f, l2);
    if p == u.prim {
      AnsweredFrames(l, f, l2, p);
    } else {
      AnsweredUnapplied(l, f, l2, p, narrow);
    }
  }

  // Reloads

  lemma ClientIgnores(l: Local, l': Local)
    requires ClientInv(l)
    requires l' == l.(notice := l'.notice, value := l'.value, present := l'.present, due := l'.due,
                      astray := l'.astray)
    ensures ClientInv(l')
  {
  }

  lemma ReplacedLocal(w: World, newRoot: Poses, inactive: set<PrimPath>, c: ConnectionId, p: PrimPath)
    requires c in w.clients
    ensures var l, l' := LocalOf(w, c, p), LocalOf(Replaced(w, newRoot, inactive), c, p);
            && l' == l.(value := l'.value, present := l'.present, astray := l'.astray)
            && (!l'.astray ==> !l.astray && (l'.present ==> l.present && l'.value == l.value))
  {
  }

  lemma ReplacedKeeps(w: World, newRoot: Poses, inactive: set<PrimPath>, c: ConnectionId, p: PrimPath)
    requires c in w.clients && ConnectionInv(w, c, p)
    ensures var w' := Replaced(w, newRoot, inactive);
            c in w'.clients && w'.book == w.book && w'.serverSeq == w.serverSeq && w'.narrow == w.narrow
    ensures ConnectionInv(Replaced(w, newRoot, inactive), c, p)
  {
    ReplacedLocal(w, newRoot, inactive, c, p);
    var l, l' := LocalOf(w, c, p), LocalOf(Replaced(w, newRoot, inactive), c, p);
    ClientIgnores(l, l');
    LessPromised(l, l', p, w.narrow);
  }

  /** Inside a reload: the client knows nothing of the new version yet. */
  ghost predicate Reloading(w: World, c: ConnectionId, p: PrimPath)
    requires c in w.clients
  {
    && Idempotent(w.narrow) && w.clients[c].lastSeq < w.serverSeq && ConnectionInv(w, c, p)
    && Notice(w.book, c, p) <= w.serverSeq && MaxSent(w.book, c) <= w.serverSeq
  }

  lemma ReloadSends(w: World, q: PrimPath, c: ConnectionId, p: PrimPath)
    requires c in w.clients && c != 0 && Reloading(w, c, p) && Readable(w, q)
    ensures ConnectionInv(BroadcastChange(w, q, 0), c, p)
  {
    BroadcastLocal(w, q, 0, c, p);
    XformReaches(LocalOf(w, c, p), Xform(w.serverSeq, q, ReadBack(w, q)), LocalOf(BroadcastChange(w, q, 0), c, p), p,
                 w.narrow);
  }

  lemma ReloadRecords(w: World, q: PrimPath, c: ConnectionId, p: PrimPath)
    requires c in w.clients && c != 0 && Reloading(w, c, p) && !Readable(w, q)
    ensures ConnectionInv(BroadcastChange(w, q, 0), c, p)
  {
    UnsentLocal(w, q, c, p);
    UnsentKeeps(LocalOf(w, c, p), LocalOf(BroadcastChange(w, q, 0), c, p), q, p, w.narrow);
  }

  lemma ReloadBounds(w: World, q: PrimPath, c: ConnectionId, p: PrimPath)
    requires c in w.clients && c != 0 && Notice(w.book, c, p) <= w.serverSeq && MaxSent(w.book, c) <= w.serverSeq
    ensures var w' := BroadcastChange(w, q, 0);
            && Notice(w'.book, c, p) <= w'.serverSeq && MaxSent(w'.book, c) <= w'.serverSeq
            && w'.serverSeq == w.serverSeq && w'.narrow == w.narrow && w'.clients[c].lastSeq == w.clients[c].lastSeq
  {
    BroadcastNotice(w.book, q, w.serverSeq, 0, w.clients.Keys - {0}, c, p);
  }

  lemma ReloadOneKeeps(w: World, q: PrimPath, c: ConnectionId, p: PrimPath)
    requires c in w.clients && c != 0 && Reloading(w, c, p)
    ensures Reloading(ReloadOne(w, q), c, p)
  {
    if q !in w.session {
      ReloadBounds(w, q, c, p);
      if Readable(w, q) {
        ReloadSends(w, q, c, p);
      } else {
        ReloadRecords(w, q, c, p);
      }
    }
  }

  lemma UnsentKeeps(l: Local, l': Local, q: PrimPath, p: PrimPath, narrow: Narrowing)
    requires ClientInv(l) && PairInv(l, p, narrow)
    requires l' == l.(notice := if q == p then l.serverSeq else l.notice, astray := l.astray || q == p)
    ensures ClientInv(l') && PairInv(l', p, narrow)
  {
    ClientIgnores(l, l');
    if q == p {
      NoticeRises(l, l', p);
    }
  }

  lemma NoticeRises(l: Local, l': Local, p: PrimPath)
    requires OrderInv(l) && FramesInv(l, p) && l' == l.(notice := l.serverSeq, astray := true)
    ensures FramesInv(l', p)
  {
  }

  lemma {:induction false} ReloadLoopKeeps(w: World, affected: seq<PrimPath>, c: ConnectionId, p: PrimPath)
    requires c in w.clients && c != 0 && ConnectionInv(w, c, p) && (affected != [] ==> Reloading(w, c, p))
    ensures ConnectionInv(ReloadLoop(w, affected), c, p)
    decreases |affected|
  {
    if affected != [] {
      ReloadOneKeeps(w, affected[0], c, p);
      ReloadLoopKeeps(ReloadOne(w, affected[0]), affected[1..], c, p);
    }
  }

  lemma NumberedKeeps(w: World, affected: seq<PrimPath>, c: ConnectionId, p: PrimPath)
    requires c in w.clients && ConnectionInv(w, c, p) && Idempotent(w.narrow)
    requires Notice(w.book, c, p) <= w.serverSeq && MaxSent(w.book, c) <= w.serverSeq
    ensures ConnectionInv(Numbered(w, affected), c, p) && (affected != [] ==> Reloading(Numbered(w, affected), c, p))
  {
    SameKeeps(w, Numbered(w, affected), c, p);
  }

  lemma ReloadKeeps(
    w: World, newRoot: Poses, inactive: set<PrimPath>, affected: seq<PrimPath>, c: ConnectionId, p: PrimPath)
    requires c in w.clients && c != 0 && ConnectionInv(w, c, p) && Idempotent(w.narrow)
    requires Notice(w.book, c, p) <= w.serverSeq && MaxSent(w.book, c) <= w.serverSeq
    ensures ConnectionInv(HandleReload(w, newRoot, inactive, affected), c, p)
  {
    ReplacedKeeps(w, newRoot, inactive, c, p);
    NumberedKeeps(Replaced(w, newRoot, inactive), affected, c, p);
    ReloadLoopKeeps(Numbered(Replaced(w, newRoot, inactive), affected), affected, c, p);
  }

  // ------------------------------------------------------------------
  // Structure is kept
  // ------------------------------------------------------------------

  lemma ChangeBook(b: Book, p: PrimPath, s: nat, origin: ConnectionId)
    requires BookInv(b, s)
    ensures BookInv(Record(b, Change(p, s, origin)), s)
  {
    var b' := Record(b, Change(p, s, origin));
    forall c, q | c != 0 ensures Notice(b', c, q) <= s {
      assert Notice(b, c, q) <= s;
      if c == origin {
        OwnChangeKeepsNotice(b, p, s, c);
      }
    }
    forall c ensures MaxSent(b', c) <= s {
      assert MaxSent(b, c) <= s;
    }
  }

  lemma SentBook(b: Book, ids: set<ConnectionId>, s: nat)
    requires BookInv(b, s)
    ensures BookInv(SentToAll(b, ids, s), s)
  {
    var b' := SentToAll(b, ids, s);
    forall c, q | c != 0 ensures Notice(b', c, q) <= s {
      assert Notice(b, c, q) <= s && Notice(b', c, q) == Notice(b, c, q);
    }
    forall c ensures MaxSent(b', c) <= s {
      assert MaxSent(b, c) <= s;
    }
  }

  lemma BroadcastBook(w: World, q: PrimPath, origin: ConnectionId)
    requires BookInv(w.book, w.serverSeq)
    ensures BookInv(BroadcastChange(w, q, origin).book, w.serverSeq)
  {
    ChangeBook(w.book, q, w.serverSeq, origin);
    SentBook(Record(w.book, Change(q, w.serverSeq, origin)), w.clients.Keys - {origin}, w.serverSeq);
  }

  lemma AckBook(w: World, a: ConnectionId, id: nat, ok: bool)
    requires BookInv(w.book, w.serverSeq)
    ensures BookInv(SendAck(w, a, id, ok).book, w.serverSeq)
  {
    var b' := SendAck(w, a, id, ok).book;
    forall c, q | c != 0 ensures Notice(b', c, q) <= w.serverSeq {
      assert Notice(w.book, c, q) <= w.serverSeq && Notice(b', c, q) == Notice(w.book, c, q);
    }
    forall c ensures MaxSent(b', c) <= w.serverSeq {
      assert MaxSent(w.book, c) <= w.serverSeq;
    }
  }

  lemma CorrectionBook(w: World, a: ConnectionId, p: PrimPath)
    requires BookInv(w.book, w.serverSeq)
    ensures BookInv(SendCorrection(w, a, p).book, SendCorrection(w, a, p).serverSeq)
  {
    var w' := SendCorrection(w, a, p);
    forall c, q | c != 0 ensures Notice(w'.book, c, q) <= w'.serverSeq {
      assert Notice(w.book, c, q) <= w.serverSeq;
    }
    forall c ensures MaxSent(w'.book, c) <= w'.serverSeq {
      assert MaxSent(w.book, c) <= w.serverSeq;
    }
  }

  /** The server only adds frames and advances its own state. */
  ghost predicate OnlyFrames(w: World, w': World) {
    && w' == w.(root := w'.root, created := w'.created, session := w'.session, announced := w'.announced,
                inactive := w'.inactive, serverSeq := w'.serverSeq, book := w'.book, clients := w'.clients,
                astray := w'.astray)
    && StageInv(w') && w.serverSeq <= w'.serverSeq && w'.clients.Keys == w.clients.Keys
    && forall c | c in w.clients :: w'.clients[c] == w.clients[c].(hist := w'.clients[c].hist)
  }

  lemma OnlyFramesKeeps(w: World, w': World)
    requires SceneInv(w) && QueueInv(w) && CorrectionInv(w) && OnlyFrames(w, w')
    ensures SceneInv(w') && QueueInv(w') && CorrectionInv(w')
  {
    forall c, p | c in w'.clients ensures DebtInv(w', c, p) {
      assert DebtInv(w, c, p);
      assert Due(w', c, p) == Due(w, c, p);
    }
  }

  lemma OnlyFramesTwice(w: World, w1: World, w2: World)
    requires OnlyFrames(w, w1) && OnlyFrames(w1, w2)
    ensures OnlyFrames(w, w2)
  {
  }

  lemma ReloadOneFrame(w: World, q: PrimPath)
    requires StageInv(w)
    ensures OnlyFrames(w, ReloadOne(w, q))
  {
  }

  lemma {:induction false} ReloadLoopFrame(w: World, affected: seq<PrimPath>)
    requires StageInv(w) && BookInv(w.book, w.serverSeq)
    ensures OnlyFrames(w, ReloadLoop(w, affected))
    ensures BookInv(ReloadLoop(w, affected).book, ReloadLoop(w, affected).serverSeq)
    decreases |affected|
  {
    if affected != [] {
      var w1 := ReloadOne(w, affected[0]);
      BroadcastBook(w, affected[0], 0);
      ReloadOneFrame(w, affected[0]);
      ReloadLoopFrame(w1, affected[1..]);
      OnlyFramesTwice(w, w1, ReloadLoop(w1, affected[1..]));
    }
  }

  lemma AckFrame(w: World, a: ConnectionId, id: nat, ok: bool)
    requires StageInv(w)
    ensures OnlyFrames(w, SendAck(w, a, id, ok))
  {
  }

  lemma CorrectionFrame(w: World, a: ConnectionId, p: PrimPath)
    requires StageInv(w)
    ensures OnlyFrames(w, SendCorrection(w, a, p))
  {
  }

  lemma AppliedFrame(w: World, o: ConnectionId, u: Update)
    requires u.Update? && Readable(w, u.prim) && StageInv(w)
    ensures OnlyFrames(w, BroadcastChange(Settle(Author(w, u), o, u), u.prim, o))
  {
  }

  lemma TransformFrame(w: World, o: ConnectionId, u: Update, ok: bool)
    requires u.Update? && (ok ==> Readable(w, u.prim)) && BookInv(w.book, w.serverSeq) && StageInv(w)
    ensures var w' := HandleTransform(w, o, u, ok); OnlyFrames(w, w') && BookInv(w'.book, w'.serverSeq)
  {
    if Check(w.book, o, u.prim, u.base) == Current && ok {
      AppliedFrames(w, o, u);
    } else {
      var w1 := SendAck(w, o, u.requestId, false);
      AckBook(w, o, u.requestId, false);
      AckFrame(w, o, u.requestId, false);
      if Check(w.book, o, u.prim, u.base) == Current {
        CorrectionBook(w1, o, u.prim);
        CorrectionFrame(w1, o, u.prim);
        OnlyFramesTwice(w, w1, SendCorrection(w1, o, u.prim));
      }
    }
  }

  lemma AppliedFrames(w: World, o: ConnectionId, u: Update)
    requires u.Update? && Readable(w, u.prim) && BookInv(w.book, w.serverSeq) && StageInv(w)
    requires Check(w.book, o, u.prim, u.base) == Current
    ensures var w' := HandleTransform(w, o, u, true); OnlyFrames(w, w') && BookInv(w'.book, w'.serverSeq)
  {
    var w0 := Settle(Author(w, u), o, u);
    var w1 := BroadcastChange(w0, u.prim, o);
    BookGrows(w.book, w.serverSeq, w.serverSeq + 1);
    BroadcastBook(w0, u.prim, o);
    AckBook(w1, o, u.requestId, true);
    AppliedFrame(w, o, u);
    AckFrame(w1, o, u.requestId, true);
    AppliedIs(w, o, u);
    OnlyFramesTwice(w, w1, SendAck(w1, o, u.requestId, true));
  }

  lemma SceneFrame(w: World, o: ConnectionId, q: PrimPath, e: SceneEffect)
    requires StageInv(w) && (e.Created? ==> !Exists(w, q))
    ensures OnlyFrames(w, BroadcastScene(w, q, o, e))
  {
  }

  lemma SceneBook(w: World, o: ConnectionId, q: PrimPath, e: SceneEffect)
    requires BookInv(w.book, w.serverSeq)
    ensures BookInv(BroadcastScene(w, q, o, e).book, w.serverSeq + 1)
    ensures BroadcastScene(w, q, o, e).serverSeq == w.serverSeq + 1
  {
    var s := w.serverSeq + 1;
    BookGrows(w.book, w.serverSeq, s);
    ChangeBook(w.book, q, s, o);
    SentBook(Record(w.book, Change(q, s, o)), w.clients.Keys, s);
  }

  lemma SceneFrames(w: World, o: ConnectionId, u: Update, q: PrimPath, e: SceneEffect)
    requires BookInv(w.book, w.serverSeq) && StageInv(w) && (e.Created? ==> !Exists(w, q))
    ensures var w' := HandleScene(w, o, u, q, e); OnlyFrames(w, w') && BookInv(w'.book, w'.serverSeq)
  {
    if e.NoChange? {
      AckBook(w, o, u.requestId, e.ok);
      AckFrame(w, o, u.requestId, e.ok);
    } else {
      var w1 := BroadcastScene(w, q, o, e);
      SceneBook(w, o, q, e);
      SceneFrame(w, o, q, e);
      AckBook(w1, o, u.requestId, true);
      AckFrame(w1, o, u.requestId, true);
      OnlyFramesTwice(w, w1, SendAck(w1, o, u.requestId, true));
    }
  }

  lemma BookGrows(b: Book, s: nat, s': nat)
    requires BookInv(b, s) && s <= s'
    ensures BookInv(b, s')
  {
    forall c, p | c != 0 ensures Notice(b, c, p) <= s' {
      assert Notice(b, c, p) <= s;
    }
    forall c ensures MaxSent(b, c) <= s' {
      assert MaxSent(b, c) <= s;
    }
  }

  lemma AttachStructure(w: World)
    requires SceneInv(w) && QueueInv(w) && CorrectionInv(w)
    ensures var w' := DoAttach(w); SceneInv(w') && QueueInv(w') && CorrectionInv(w')
  {
    var w' := DoAttach(w);
    forall c, p | c in w'.clients ensures DebtInv(w', c, p) {
      if c != w.nextConnection {
        assert DebtInv(w, c, p);
        assert Due(w', c, p) == Due(w, c, p);
      }
    }
  }

  lemma SubmitJoinStructure(w: World, r: ConnectionId)
    requires SceneInv(w) && QueueInv(w) && CorrectionInv(w)
    requires r in w.clients && w.clients[r].phase.Attached?
    ensures var w' := DoSubmitJoin(w, r); SceneInv(w') && QueueInv(w') && CorrectionInv(w')
  {
    var w' := DoSubmitJoin(w, r);
    forall c, p | c in w'.clients ensures DebtInv(w', c, p) {
      assert DebtInv(w, c, p);
      assert Due(w', c, p) == Due(w, c, p);
    }
  }

  lemma DetachStructure(w: World, r: ConnectionId)
    requires SceneInv(w) && QueueInv(w) && CorrectionInv(w)
    ensures var w' := w.(clients := w.clients - {r}); SceneInv(w') && QueueInv(w') && CorrectionInv(w')
  {
    var w' := w.(clients := w.clients - {r});
    forall c, p | c in w'.clients ensures DebtInv(w', c, p) {
      assert DebtInv(w, c, p);
      assert Due(w', c, p) == Due(w, c, p);
    }
  }

  /** One client changes in fields that queues and marks do not depend on. */
  lemma ClientStructure(w: World, w': World, r: ConnectionId)
    requires SceneInv(w) && QueueInv(w) && CorrectionInv(w) && r in w.clients
    requires r in w'.clients
    requires w' == w.(clients := w.clients[r := w'.clients[r]], queue := w'.queue, astray := w'.astray)
    requires w'.clients[r].phase == w.clients[r].phase && w'.clients[r].queued == w.clients[r].queued
    requires w.clients[r].joined ==> w'.clients[r].joined
    requires w'.clients[r].io == w.clients[r].io
             || (w.clients[r].io.Listening? && w'.clients[r].io.Rejected? && w'.clients[r].joined)
    requires w'.queue == w.queue || (|w'.queue| == |w.queue| + 1 && w'.queue[..|w.queue|] == w.queue
                                     && w'.queue[|w.queue|].EditCommand? && w'.queue[|w.queue|].origin == r)
    ensures SceneInv(w') && QueueInv(w') && CorrectionInv(w')
  {
    assert forall i | 0 <= i < |w.queue| :: w'.queue[i] == w.queue[i];
    forall c, p | c in w'.clients ensures DebtInv(w', c, p) {
      assert DebtInv(w, c, p);
      if c != r {
        assert Due(w', c, p) == Due(w, c, p);
      }
    }
  }

  lemma MarkStructure(w: World, r: ConnectionId)
    requires SceneInv(w) && QueueInv(w) && CorrectionInv(w)
    requires r in w.clients && w.clients[r].io.Rejected?
    ensures var w' := DoMark(w, r); SceneInv(w') && QueueInv(w') && CorrectionInv(w')
    ensures forall c, p | c in w.clients :: Due(DoMark(w, r), c, p) == Due(w, c, p)
  {
    var w' := DoMark(w, r);
    forall c, p | c in w'.clients ensures DebtInv(w', c, p) && Due(w', c, p) == Due(w, c, p) {
      assert DebtInv(w, c, p);
    }
  }

  lemma PushStructure(w: World, r: ConnectionId)
    requires SceneInv(w) && QueueInv(w) && CorrectionInv(w)
    requires r in w.clients && w.clients[r].io.Submitting?
    ensures var w' := DoPush(w, r); SceneInv(w') && QueueInv(w') && CorrectionInv(w')
    ensures forall c, p | c in w.clients :: Due(DoPush(w, r), c, p) == Due(w, c, p)
  {
    var w' := DoPush(w, r);
    var q := w.clients[r].io.prim;
    assert DebtInv(w, r, q);
    assert forall x :: x in w'.priority <==> x in w.priority || x == (r, q);
    forall c, p | c in w'.clients ensures DebtInv(w', c, p) && Due(w', c, p) == Due(w, c, p) {
      assert DebtInv(w, c, p);
    }
  }

  lemma DropStructure(w: World, r: ConnectionId)
    requires SceneInv(w) && QueueInv(w) && CorrectionInv(w)
    requires r in w.clients && w.clients[r].io.Submitting?
    ensures var w' := DoDrop(w, r); SceneInv(w') && QueueInv(w') && CorrectionInv(w')
    ensures forall c, p | c in w.clients && (c, p) != (r, w.clients[r].io.prim) ::
              Due(DoDrop(w, r), c, p) == Due(w, c, p)
  {
    var w' := DoDrop(w, r);
    forall c, p | c in w'.clients ensures DebtInv(w', c, p)
        && ((c, p) != (r, w.clients[r].io.prim) ==> Due(w', c, p) == Due(w, c, p)) {
      assert DebtInv(w, c, p);
    }
  }

  lemma PopStructure(w: World)
    requires SceneInv(w) && QueueInv(w) && CorrectionInv(w) && w.priority != [] && w.consumer.Idle?
    ensures var w' := DoPop(w); SceneInv(w') && QueueInv(w') && CorrectionInv(w')
    ensures forall c, p | c in w.clients :: Due(DoPop(w), c, p) == Due(w, c, p)
  {
    var w', head := DoPop(w), w.priority[0];
    assert w.priority == [head] + w'.priority;
    assert forall x :: x in w.priority <==> x in w'.priority || x == head;
    assert head !in w'.priority;
    forall c, p | c in w'.clients ensures DebtInv(w', c, p) && Due(w', c, p) == Due(w, c, p) {
      assert DebtInv(w, c, p);
    }
  }

  lemma ClearStructure(w: World)
    requires SceneInv(w) && QueueInv(w) && CorrectionInv(w) && w.consumer.Popped?
    ensures var w' := DoClear(w); SceneInv(w') && QueueInv(w') && CorrectionInv(w')
    ensures forall c, p | c in w.clients :: Due(DoClear(w), c, p) == Due(w, c, p)
  {
    var w' := DoClear(w);
    forall c, p | c in w'.clients ensures DebtInv(w', c, p) && Due(w', c, p) == Due(w, c, p) {
      assert DebtInv(w, c, p);
    }
  }

  /** Taking the oldest command, or finishing a correction, leaves the rest in shape. */
  lemma TakenStructure(w: World, w': World)
    requires SceneInv(w) && QueueInv(w) && CorrectionInv(w)
    requires (w.queue != [] && w' == Pop(w)) || (w.consumer.Cleared? && w' == w.(consumer := Idle))
    ensures SceneInv(w') && QueueInv(w') && CorrectionInv(w')
  {
    assert w.queue != [] && w' == Pop(w) ==> forall i | 0 <= i < |w'.queue| :: w'.queue[i] == w.queue[i + 1];
    forall c, p | c in w'.clients ensures DebtInv(w', c, p) {
      assert DebtInv(w, c, p);
    }
  }

  lemma JoinStructure(w: World, j: ConnectionId)
    requires SceneInv(w) && QueueInv(w) && CorrectionInv(w)
    requires forall i | 0 <= i < |w.queue| :: w.queue[i] != JoinCommand(j)
    ensures var w' := HandleJoin(w, j); SceneInv(w') && QueueInv(w') && CorrectionInv(w')
  {
    var w' := HandleJoin(w, j);
    forall c, p | c in w'.clients ensures DebtInv(w', c, p) {
      assert DebtInv(w, c, p);
      assert Due(w', c, p) == Due(w, c, p);
    }
  }

  lemma SubmitReloadStructure(w: World)
    requires SceneInv(w) && QueueInv(w) && CorrectionInv(w)
    ensures var w' := w.(queue := w.queue + [ReloadCommand]); SceneInv(w') && QueueInv(w') && CorrectionInv(w')
  {
    var w' := w.(queue := w.queue + [ReloadCommand]);
    forall c, p | c in w'.clients ensures DebtInv(w', c, p) {
      assert DebtInv(w, c, p);
      assert Due(w', c, p) == Due(w, c, p);
    }
  }

  // ------------------------------------------------------------------
  // Every step, every run
  // ------------------------------------------------------------------

  predicate ConsumerStep(s: Step) {
    s.Transformed? || s.SceneEdited? || s.Joined? || s.Reloaded? || s.Corrected?
  }

  predicate CorrectionStep(s: Step) {
    s.MarkCorrection? || s.PushCorrection? || s.DropCorrection? || s.PopCorrection? || s.ClearMark?
  }

  lemma TransformedStructure(w: World, o: ConnectionId, u: Update, ok: bool)
    requires StructureInv(w) && NextUpdate(w, o, u) && u.Update? && (ok ==> Readable(w, u.prim))
    ensures StructureInv(HandleTransform(Pop(w), o, u, ok))
  {
    TakenStructure(w, Pop(w));
    TransformFrame(Pop(w), o, u, ok);
    OnlyFramesKeeps(Pop(w), HandleTransform(Pop(w), o, u, ok));
  }

  lemma SceneStructure(w: World, o: ConnectionId, u: Update, q: PrimPath, e: SceneEffect)
    requires StructureInv(w) && NextUpdate(w, o, u) && (e.Created? ==> !Exists(w, q))
    ensures StructureInv(HandleScene(Pop(w), o, u, q, e))
  {
    TakenStructure(w, Pop(w));
    SceneFrames(Pop(w), o, u, q, e);
    OnlyFramesKeeps(Pop(w), HandleScene(Pop(w), o, u, q, e));
  }

  lemma ReloadedStructure(w: World, newRoot: Poses, inactive: set<PrimPath>, affected: seq<PrimPath>)
    requires StructureInv(w) && w.queue != []
    ensures StructureInv(HandleReload(Pop(w), newRoot, inactive, affected))
  {
    var w1, w2 := Pop(w), Replaced(Pop(w), newRoot, inactive);
    TakenStructure(w, w1);
    OnlyFramesKeeps(w1, w2);
    var w3 := Numbered(w2, affected);
    BookGrows(w.book, w.serverSeq, w3.serverSeq);
    OnlyFramesKeeps(w2, w3);
    ReloadLoopFrame(w3, affected);
    OnlyFramesKeeps(w3, ReloadLoop(w3, affected));
  }

  lemma JoinedStructure(w: World)
    requires StructureInv(w) && w.queue != [] && w.queue[0].JoinCommand?
    ensures StructureInv(HandleJoin(Pop(w), w.queue[0].connection))
  {
    var w1, j := Pop(w), w.queue[0].connection;
    TakenStructure(w, w1);
    JoinStructure(w1, j);
    AckBook(w1, j, 0, true);
  }

  lemma CorrectedStructure(w: World)
    requires StructureInv(w) && w.consumer.Cleared?
    ensures StructureInv(SendCorrection(w.(consumer := Idle), w.consumer.connection, w.consumer.prim))
  {
    var w1 := w.(consumer := Idle);
    TakenStructure(w, w1);
    CorrectionBook(w1, w.consumer.connection, w.consumer.prim);
    OnlyFramesKeeps(w1, SendCorrection(w1, w.consumer.connection, w.consumer.prim));
  }

  lemma ConsumerStructure(w: World, s: Step)
    requires StructureInv(w) && Possible(w, s) && ConsumerStep(s)
    ensures StructureInv(Next(w, s))
  {
    match s
    case Transformed(ok) => TransformedStructure(w, w.queue[0].origin, w.queue[0].update, ok);
    case SceneEdited(q, e) => SceneStructure(w, w.queue[0].origin, w.queue[0].update, q, e);
    case Joined => JoinedStructure(w);
    case Reloaded(newRoot, inactive, affected) => ReloadedStructure(w, newRoot, inactive, affected);
    case Corrected => CorrectedStructure(w);
  }

  lemma CorrectionStructure(w: World, s: Step)
    requires StructureInv(w) && Possible(w, s) && CorrectionStep(s)
    ensures StructureInv(Next(w, s))
    ensures forall c, p | c in w.clients && !(s.DropCorrection? && s.c == c && w.clients[c].io.prim == p) ::
              Due(Next(w, s), c, p) == Due(w, c, p)
  {
    match s
    case MarkCorrection(c) => MarkStructure(w, c);
    case PushCorrection(c) => PushStructure(w, c);
    case DropCorrection(c) => DropStructure(w, c);
    case PopCorrection => PopStructure(w);
    case ClearMark => ClearStructure(w);
  }

  lemma ConnectionStructure(w: World, s: Step)
    requires Inv(w) && Possible(w, s) && !ConsumerStep(s) && !CorrectionStep(s)
    ensures StructureInv(Next(w, s))
  {
    match s
    case Attach => AttachStructure(w);
    case SubmitJoin(c) => SubmitJoinStructure(w, c);
    case Detach(c) => DetachStructure(w, c);
    case Receive(c) => ClientStructure(w, DoReceive(w, c), c);
    case Send(c, p, v, id) => ClientStructure(w, DoSend(w, c, p, v, id), c);
    case SendEdit(c, p, id) => ClientStructure(w, DoSendEdit(w, c, p, id), c);
    case Accept(c) => ClientStructure(w, DoAccept(w, c), c);
    case Reject(c) =>
      SenderJoined(w, c);
      ClientStructure(w, DoReject(w, c), c);
    case SubmitReload => SubmitReloadStructure(w);
  }

  lemma SenderJoined(w: World, c: ConnectionId)
    requires c in w.clients && ConnectionInv(w, c, "") && w.clients[c].out != []
    ensures w.clients[c].joined
  {
    assert LocalOf(w, c, "").inFlight != [];
  }

  lemma ConsumerConnection(w: World, s: Step, c: ConnectionId, p: PrimPath)
    requires Possible(w, s) && ConsumerStep(s) && c in w.clients && c != 0 && ConnectionInv(w, c, p)
    requires Idempotent(w.narrow) && BookInv(w.book, w.serverSeq) && DebtInv(w, c, p) && StageInv(w)
    requires s.Joined? && w.queue[0].connection == c ==> w.clients[c].phase.JoinQueued?
    ensures c in Next(w, s).clients && ConnectionInv(Next(w, s), c, p)
  {
    assert Notice(w.book, c, p) <= w.serverSeq && MaxSent(w.book, c) <= w.serverSeq;
    match s
    case Transformed(ok) => TransformedConnection(w, w.queue[0].origin, w.queue[0].update, ok, c, p);
    case SceneEdited(q, e) => SceneConnection(w, w.queue[0].origin, w.queue[0].update, q, e, c, p);
    case Joined => JoinedConnection(w, c, p);
    case Reloaded(newRoot, inactive, affected) =>
      PoppedConnection(w, c, p);
      ReloadKeeps(Pop(w), newRoot, inactive, affected, c, p);
    case Corrected => CorrectedConnection(w, c, p);
  }

  lemma TransformedConnection(w: World, o: ConnectionId, u: Update, ok: bool, c: ConnectionId, p: PrimPath)
    requires c in w.clients && c != 0 && ConnectionInv(w, c, p) && NextUpdate(w, o, u) && Idempotent(w.narrow)
    requires u.Update? && (ok ==> Readable(w, u.prim))
    requires MaxSent(w.book, c) <= w.serverSeq && Notice(w.book, c, p) <= w.serverSeq
    ensures ConnectionInv(HandleTransform(Pop(w), o, u, ok), c, p)
  {
    if Check(w.book, o, u.prim, u.base) != Current {
      StaleKeeps(w, o, u, c, p);
    } else if ok {
      AppliedKeeps(w, o, u, c, p);
    } else {
      FailedKeeps(w, o, u, c, p);
    }
  }

  lemma JoinedConnection(w: World, c: ConnectionId, p: PrimPath)
    requires c in w.clients && ConnectionInv(w, c, p) && w.queue != [] && w.queue[0].JoinCommand?
    requires MaxSent(w.book, c) <= w.serverSeq && DebtInv(w, c, p) && StageInv(w)
    requires c == w.queue[0].connection ==> w.clients[c].phase.JoinQueued?
    ensures ConnectionInv(HandleJoin(Pop(w), w.queue[0].connection), c, p)
  {
    PoppedLocal(w, c, p);
    assert OrderInv(LocalOf(w, c, p));
    JoinKeeps(Pop(w), w.queue[0].connection, c, p);
  }

  lemma PoppedConnection(w: World, c: ConnectionId, p: PrimPath)
    requires c in w.clients && ConnectionInv(w, c, p) && w.queue != [] && !w.queue[0].EditCommand?
    ensures ConnectionInv(Pop(w), c, p)
  {
    PoppedLocal(w, c, p);
  }

  lemma CorrectedConnection(w: World, c: ConnectionId, p: PrimPath)
    requires c in w.clients && ConnectionInv(w, c, p) && w.consumer.Cleared?
    requires MaxSent(w.book, c) <= w.serverSeq && Notice(w.book, c, p) <= w.serverSeq && Idempotent(w.narrow)
    ensures ConnectionInv(SendCorrection(w.(consumer := Idle), w.consumer.connection, w.consumer.prim), c, p)
  {
    ClearedLocal(w, c, p);
    CorrectionKeeps(w.(consumer := Idle), w.consumer.connection, w.consumer.prim, c, p);
  }

  lemma ClearedLocal(w: World, c: ConnectionId, p: PrimPath)
    requires c in w.clients && w.consumer.Cleared? && ConnectionInv(w, c, p)
    ensures var w1 := w.(consumer := Idle);
            && ClientInv(LocalOf(w1, c, p))
            && if c == w.consumer.connection && p == w.consumer.prim then FramesInv(LocalOf(w1, c, p), p)
               else PairInv(LocalOf(w1, c, p), p, w.narrow)
  {
    var l, l1 := LocalOf(w, c, p), LocalOf(w.(consumer := Idle), c, p);
    assert l1 == l.(due := l1.due);
    ClientIgnores(l, l1);
    if c == w.consumer.connection && p == w.consumer.prim {
      FramesIgnore(l, l1, p);
    } else {
      assert l1 == l;
    }
  }

  lemma FramesIgnore(l: Local, l': Local, p: PrimPath)
    requires FramesInv(l, p) && l' == l.(due := l'.due, astray := l'.astray)
    ensures FramesInv(l', p)
  {
  }

  lemma RegistryConnection(w: World, s: Step, c: ConnectionId, p: PrimPath)
    requires StructureInv(w) && Possible(w, s) && c in Next(w, s).clients
    requires s.Attach? || s.SubmitJoin? || s.Detach? || s.SubmitReload?
    requires c in w.clients ==> ConnectionInv(w, c, p)
    ensures ConnectionInv(Next(w, s), c, p)
  {
    if s.Attach? {
      assert Notice(w.book, w.nextConnection, p) <= w.serverSeq && MaxSent(w.book, w.nextConnection) <= w.serverSeq;
      AttachKeeps(w, c, p);
    } else {
      RegistryLocal(w, s, c, p);
      SameKeeps(w, Next(w, s), c, p);
    }
  }

  lemma RegistryLocal(w: World, s: Step, c: ConnectionId, p: PrimPath)
    requires Possible(w, s) && c in w.clients && c in Next(w, s).clients
    requires s.SubmitJoin? || s.Detach? || s.SubmitReload?
    ensures SameFor(LocalOf(w, c, p), LocalOf(Next(w, s), c, p))
  {
    assert w.queue + [] == w.queue;
    QuietLocal(w, Next(w, s),
               match s case SubmitJoin(j) => [JoinCommand(j)] case SubmitReload => [ReloadCommand] case _ => [], c, p);
  }

  lemma ClientConnection(w: World, s: Step, c: ConnectionId, p: PrimPath)
    requires Enabled(w, s) && c in w.clients && ConnectionInv(w, c, p)
    requires s.Receive? || s.Send? || s.SendEdit? || s.Accept? || s.Reject?
    ensures ConnectionInv(Next(w, s), c, p)
  {
    match s
    case Receive(r) => ReceiveKeeps(w, r, c, p);
    case Send(r, q, v, id) => SendKeeps(w, r, q, v, id, c, p);
    case SendEdit(r, q, id) => EditKeeps(w, r, q, id, c, p);
    case Accept(r) => AcceptKeeps(w, r, c, p);
    case Reject(r) => RejectKeeps(w, r, c, p);
  }

  lemma CorrectionConnection(w: World, s: Step, c: ConnectionId, p: PrimPath)
    requires Possible(w, s) && CorrectionStep(s) && c in w.clients && ConnectionInv(w, c, p)
    requires !(s.DropCorrection? && s.c == c && w.clients[c].io.prim == p) ==> Due(Next(w, s), c, p) == Due(w, c, p)
    ensures c in Next(w, s).clients && ConnectionInv(Next(w, s), c, p)
  {
    CorrectionStepLocal(w, s, c, p);
    var l, l' := LocalOf(w, c, p), LocalOf(Next(w, s), c, p);
    QuietKeeps(l, l', p, w.narrow);
  }

  /** Nothing moved but what the pair is owed. */
  lemma QuietKeeps(l: Local, l': Local, p: PrimPath, narrow: Narrowing)
    requires ClientInv(l) && PairInv(l, p, narrow) && SameFor(l, l'.(due := l.due, astray := l.astray))
    requires !l'.astray ==> !l.astray && l'.due == l.due
    ensures ClientInv(l') && PairInv(l', p, narrow)
  {
    var mid := l'.(due := l.due, astray := l.astray);
    SameKeepsClient(l, mid);
    SameKeepsPair(l, mid, p, narrow);
    ClientIgnores(mid, l');
    LessPromised(mid, l', p, narrow);
  }

  lemma ConsumerKeeps(w: World, s: Step)
    requires Inv(w) && Possible(w, s) && ConsumerStep(s)
    ensures AllConnections(Next(w, s))
  {
    ConsumerKeys(w, s);
    forall c, p | c in Next(w, s).clients ensures ConnectionInv(Next(w, s), c, p) {
      assert ConnectionInv(w, c, p) && DebtInv(w, c, p);
      ConsumerConnection(w, s, c, p);
    }
  }

  lemma CorrectionsKeep(w: World, s: Step)
    requires Inv(w) && Possible(w, s) && CorrectionStep(s)
    ensures AllConnections(Next(w, s))
  {
    CorrectionStructure(w, s);
    forall c, p | c in Next(w, s).clients ensures ConnectionInv(Next(w, s), c, p) {
      assert ConnectionInv(w, c, p);
      CorrectionConnection(w, s, c, p);
    }
  }

  lemma ConnectionsKeep(w: World, s: Step)
    requires Inv(w) && Enabled(w, s) && !ConsumerStep(s) && !CorrectionStep(s)
    ensures AllConnections(Next(w, s))
  {
    forall c, p | c in Next(w, s).clients ensures ConnectionInv(Next(w, s), c, p) {
      assert c in w.clients ==> ConnectionInv(w, c, p);
      if s.Attach? || s.SubmitJoin? || s.Detach? || s.SubmitReload? {
        RegistryConnection(w, s, c, p);
      } else {
        ClientConnection(w, s, c, p);
      }
    }
  }

  /** Every step of every participant keeps the invariant. */
  lemma StepKeepsInv(w: World, s: Step)
    requires Inv(w) && Enabled(w, s)
    ensures Inv(Next(w, s))
  {
    if ConsumerStep(s) {
      ConsumerStructure(w, s);
      ConsumerKeeps(w, s);
    } else if CorrectionStep(s) {
      CorrectionStructure(w, s);
      CorrectionsKeep(w, s);
    } else {
      ConnectionStructure(w, s);
      ConnectionsKeep(w, s);
    }
  }

  lemma ConsumerKeys(w: World, s: Step)
    requires Possible(w, s) && ConsumerStep(s)
    ensures Next(w, s).clients.Keys == w.clients.Keys
  {
  }
}
