/**
 When clients and server agree: `Converges` over whole runs, and for the operations that
 break the agreement, exactly when they do.
 */
module Agreement {
  import opened Versions
  import opened Protocol
  import opened Transforms
  import opened ProtocolInvariants
  import opened Convergence
  import opened ProtocolTheorems

  // ------------------------------------------------------------------
  // What leads a client astray, and what puts it right
  // ------------------------------------------------------------------

  /** A correction of `p` would bring its transform. */
  predicate Correctable(w: World, p: PrimPath) {
    Readable(w, p) && p !in w.inactive
  }

  /** A reload names `p` and cannot send it, or changes it and does not name it. */
  predicate Unsent(w: World, newRoot: Poses, inactive: set<PrimPath>, affected: seq<PrimPath>, p: PrimPath) {
    if p in affected && p !in w.session then !Readable(Replaced(w, newRoot, inactive), p) else Changes(w, newRoot, p)
  }

  /** The steps that leave `c` with something else than the transform of `p`. */
  ghost predicate Strays(w: World, s: Step, c: ConnectionId, p: PrimPath) {
    Possible(w, s) &&
    match s
    case DropCorrection(d) => d == c && w.clients[d].io.prim == p
    case Corrected => w.consumer == Cleared(c, p) && !Correctable(w, p)
    case Transformed(ok) =>
      var u := w.queue[0].update;
      w.queue[0].origin == c && u.prim == p && !ok && Check(w.book, c, p, u.base) == Current && !Correctable(w, p)
    case Send(d, q, _, _) => d == c && q == p && Unaware(w.clients[d], q)
    case SceneEdited(q, e) =>
      && q == p && !e.NoChange? && c in w.clients && LastOf(InFlight(w, c), p) != []
      && (e.Created? <==> w.queue[0].origin == c)
    case Joined => w.queue[0].connection == c && Misannounced(w, p)
    case Reloaded(newRoot, inactive, affected) => Unsent(w, newRoot, inactive, affected, p)
    case _ => false
  }

  /** A frame with a state of `p` is sent to `c`. */
  ghost predicate StateSent(w: World, w': World, c: ConnectionId, p: PrimPath) {
    && c in w.clients && c in w'.clients
    && exists i :: |w.clients[c].hist| <= i < |w'.clients[c].hist| && Touches(w'.clients[c].hist[i], p)
  }

  /** The last update `c` sent of `p` is applied, and `c` shows it. */
  ghost predicate LastApplied(w: World, s: Step, c: ConnectionId, p: PrimPath) {
    && Possible(w, s) && s == Transformed(true) && w.queue[0].origin == c && w.queue[0].update.prim == p
    && Check(w.book, c, p, w.queue[0].update.base) == Current && EndsWith(Pop(w), c, w.queue[0].update)
  }

  ghost predicate Informs(w: World, s: Step, c: ConnectionId, p: PrimPath) {
    Possible(w, s) && (StateSent(w, Next(w, s), c, p) || LastApplied(w, s, c, p))
  }

  // Reloads

  lemma ReloadOneStage(w: World, q: PrimPath, c: ConnectionId, p: PrimPath)
    ensures var w1 := ReloadOne(w, q);
            && Readable(w1, p) == Readable(w, p) && w1.session == w.session && w1.clients.Keys == w.clients.Keys
            && ((c, p) in w1.astray <==>
                  if c in w.clients && c != 0 && p == q && p !in w.session then !Readable(w, p) else (c, p) in w.astray)
  {
  }

  lemma {:induction false} ReloadAstray(w: World, affected: seq<PrimPath>, c: ConnectionId, p: PrimPath)
    ensures (c, p) in ReloadLoop(w, affected).astray <==>
              if c in w.clients && c != 0 && p in affected && p !in w.session
              then !Readable(w, p) else (c, p) in w.astray
    decreases |affected|
  {
    if affected != [] {
      var q, rest := affected[0], affected[1..];
      ReloadOneStage(w, q, c, p);
      ReloadAstray(ReloadOne(w, q), rest, c, p);
      assert p in affected <==> p == q || p in rest;
    }
  }

  lemma ReplacedAstray(w: World, newRoot: Poses, inactive: set<PrimPath>, c: ConnectionId, p: PrimPath)
    ensures var w1 := Replaced(w, newRoot, inactive);
            (c, p) in w1.astray <==> (c, p) in w.astray || (c in w.clients && Changes(w, newRoot, p))
  {
  }

  lemma ReloadStrays(w: World, s: Step, c: ConnectionId, p: PrimPath)
    requires Possible(w, s) && s.Reloaded? && (c in w.clients ==> c != 0)
    requires (c, p) in Next(w, s).astray
    ensures (c, p) in w.astray || Strays(w, s, c, p)
  {
    var w0, w1 := Pop(w), Replaced(Pop(w), s.newRoot, s.inactive);
    ReplacedAstray(w0, s.newRoot, s.inactive, c, p);
    ReloadAstray(Numbered(w1, s.affected), s.affected, c, p);
    assert Readable(Numbered(w1, s.affected), p) == Readable(w1, p);
    assert Readable(Replaced(w, s.newRoot, s.inactive), p) == Readable(w1, p);
  }

  lemma ActiveStrays(w: World, o: ConnectionId, q: PrimPath, active: bool, c: ConnectionId, p: PrimPath)
    requires c in w.clients
    ensures (c, p) in BroadcastActive(w, q, o, active).astray <==>
              (c, p) in w.astray || (p == q && c != o && LastOf(InFlight(w, c), p) != [])
  {
    MovingMember(w, q, o, c, p);
  }

  lemma AckAstray(w: World, a: ConnectionId, id: nat, ok: bool)
    ensures SendAck(w, a, id, ok).astray == w.astray
  {
  }

  lemma SceneAstray(w: World, o: ConnectionId, u: Update, q: PrimPath, e: SceneEffect, c: ConnectionId, p: PrimPath)
    requires c in w.clients && NextUpdate(w, o, u) && u.SceneEdit? && !e.NoChange?
    ensures (c, p) in HandleScene(Pop(w), o, u, q, e).astray <==>
              if p == q && LastOf(InFlight(w, c), p) != [] && (e.Created? <==> c == o) then true
              else (c, p) in w.astray && !(p == q && e.Created?)
  {
    EditPops(w, o, u, c, p);
    AckAstray(BroadcastScene(Pop(w), q, o, e), o, u.requestId, true);
    if e.Created? {
      CreateMember(Pop(w), q, o, c, p);
    } else {
      ActiveStrays(Pop(w), o, q, e.Activated?, c, p);
    }
  }

  lemma OthersAstray(w: World, o: ConnectionId, u: Update, q: PrimPath, e: SceneEffect, c: ConnectionId, p: PrimPath)
    requires c !in w.clients
    ensures (c, p) in HandleScene(w, o, u, q, e).astray ==> (c, p) in w.astray
  {
  }

  lemma SceneStrays(w: World, s: Step, c: ConnectionId, p: PrimPath)
    requires Possible(w, s) && s.SceneEdited? && (c, p) !in w.astray && (c, p) in Next(w, s).astray
    ensures Strays(w, s, c, p)
  {
    var o, u := w.queue[0].origin, w.queue[0].update;
    if c !in w.clients {
      OthersAstray(Pop(w), o, u, s.prim, s.effect, c, p);
    } else if s.effect.NoChange? {
      AckAstray(Pop(w), o, u.requestId, s.effect.ok);
    } else {
      SceneAstray(w, o, u, s.prim, s.effect, c, p);
    }
  }

  lemma CorrectionStrays(w: World, a: ConnectionId, q: PrimPath, c: ConnectionId, p: PrimPath)
    requires (c, p) !in w.astray && (c, p) in SendCorrection(w, a, q).astray
    ensures a == c && q == p && !Correctable(w, p)
  {
  }

  lemma TransformStrays(w: World, o: ConnectionId, u: Update, ok: bool, c: ConnectionId, p: PrimPath)
    requires u.Update? && (ok ==> Readable(w, u.prim))
    requires (c, p) !in w.astray && (c, p) in HandleTransform(w, o, u, ok).astray
    ensures o == c && u.prim == p && !ok && Check(w.book, o, u.prim, u.base) == Current && !Correctable(w, p)
  {
    if Check(w.book, o, u.prim, u.base) == Current && ok {
      AppliedAstray(w, o, u);
    } else {
      var w1 := SendAck(w, o, u.requestId, false);
      AckAstray(w, o, u.requestId, false);
      if Check(w.book, o, u.prim, u.base) == Current {
        CorrectionStrays(w1, o, u.prim, c, p);
        assert Correctable(w1, p) == Correctable(w, p);
      }
    }
  }

  /** An applied update leads nobody astray. */
  lemma AppliedAstray(w: World, o: ConnectionId, u: Update)
    requires u.Update? && Readable(w, u.prim) && Check(w.book, o, u.prim, u.base) == Current
    ensures HandleTransform(w, o, u, true).astray
         == Settle(Author(w, u), o, u).astray - Others(w, u.prim, o)
  {
    var w1 := Settle(Author(w, u), o, u);
    AppliedIs(w, o, u);
    assert Readable(w1, u.prim) && Others(w1, u.prim, o) == Others(w, u.prim, o);
    AckAstray(BroadcastChange(w1, u.prim, o), o, u.requestId, true);
  }

  /** Nothing else does. */
  lemma OnlyStrays(w: World, s: Step, c: ConnectionId, p: PrimPath)
    requires Possible(w, s) && (c in w.clients ==> c != 0) && (c, p) !in w.astray && (c, p) in Next(w, s).astray
    ensures Strays(w, s, c, p)
  {
    match s
    case Reloaded(_, _, _) => ReloadStrays(w, s, c, p);
    case SceneEdited(_, _) => SceneStrays(w, s, c, p);
    case Transformed(ok) => TransformStrays(Pop(w), w.queue[0].origin, w.queue[0].update, ok, c, p);
    case Corrected => CorrectionStrays(w.(consumer := Idle), w.consumer.connection, w.consumer.prim, c, p);
    case _ =>
  }

  // ------------------------------------------------------------------
  // What puts it right
  // ------------------------------------------------------------------

  /** Frames sent in two steps. */
  lemma StateSplit(w0: World, w1: World, w2: World, c: ConnectionId, p: PrimPath)
    requires StateSent(w0, w2, c, p) && c in w1.clients && w1.clients[c].hist <= w2.clients[c].hist
    ensures StateSent(w0, w1, c, p) || StateSent(w1, w2, c, p)
  {
    var i :| |w0.clients[c].hist| <= i < |w2.clients[c].hist| && Touches(w2.clients[c].hist[i], p);
    if i < |w1.clients[c].hist| {
      assert w1.clients[c].hist[i] == w2.clients[c].hist[i];
    }
  }

  lemma AckIsNoState(w: World, a: ConnectionId, id: nat, ok: bool, c: ConnectionId, p: PrimPath)
    ensures !StateSent(w, SendAck(w, a, id, ok), c, p)
  {
  }

  lemma BroadcastStates(w: World, q: PrimPath, o: ConnectionId, c: ConnectionId, p: PrimPath)
    requires StateSent(w, BroadcastChange(w, q, o), c, p)
    ensures q == p && c != o && Readable(w, p) && c in w.clients
  {
  }

  lemma CorrectionStates(w: World, a: ConnectionId, q: PrimPath, c: ConnectionId, p: PrimPath)
    requires StateSent(w, SendCorrection(w, a, q), c, p)
    ensures (c, p) !in SendCorrection(w, a, q).astray
  {
  }

  lemma TransformInforms(w: World, o: ConnectionId, u: Update, ok: bool, c: ConnectionId, p: PrimPath)
    requires u.Update? && (ok ==> Readable(w, u.prim)) && StateSent(w, HandleTransform(w, o, u, ok), c, p)
    ensures (c, p) !in HandleTransform(w, o, u, ok).astray
  {
    if Check(w.book, o, u.prim, u.base) == Current && ok {
      var w1 := Settle(Author(w, u), o, u);
      var w2 := BroadcastChange(w1, u.prim, o);
      AppliedIs(w, o, u);
      AckIsNoState(w2, o, u.requestId, true, c, p);
      StateSplit(w, w2, SendAck(w2, o, u.requestId, true), c, p);
      assert StateSent(w1, w2, c, p);
      BroadcastStates(w1, u.prim, o, c, p);
      AppliedAstray(w, o, u);
    } else {
      var w1 := SendAck(w, o, u.requestId, false);
      AckIsNoState(w, o, u.requestId, false, c, p);
      StateSplit(w, w1, HandleTransform(w, o, u, ok), c, p);
      CorrectionStates(w1, o, u.prim, c, p);
    }
  }

  lemma {:induction false} ReloadStates(w: World, affected: seq<PrimPath>, c: ConnectionId, p: PrimPath)
    requires c in w.clients
    ensures w.clients[c].hist <= ReloadLoop(w, affected).clients[c].hist
    ensures StateSent(w, ReloadLoop(w, affected), c, p) ==> p in affected && c != 0 && p !in w.session && Readable(w, p)
    decreases |affected|
  {
    if affected != [] {
      var q, w1 := affected[0], ReloadOne(w, affected[0]);
      ReloadOneStage(w, q, c, p);
      ReloadStates(w1, affected[1..], c, p);
      if StateSent(w, ReloadLoop(w, affected), c, p) {
        StateSplit(w, w1, ReloadLoop(w1, affected[1..]), c, p);
        if StateSent(w, w1, c, p) {
          BroadcastStates(w, q, 0, c, p);
        }
      }
    }
  }

  lemma ReloadInforms(w: World, newRoot: Poses, inactive: set<PrimPath>, affected: seq<PrimPath>, c: ConnectionId,
                      p: PrimPath)
    requires StateSent(w, HandleReload(w, newRoot, inactive, affected), c, p)
    ensures (c, p) !in HandleReload(w, newRoot, inactive, affected).astray
  {
    var w1 := Numbered(Replaced(w, newRoot, inactive), affected);
    assert StateSent(w1, ReloadLoop(w1, affected), c, p);
    ReloadStates(w1, affected, c, p);
    ReloadAstray(w1, affected, c, p);
  }

  lemma SceneStates(w: World, q: PrimPath, o: ConnectionId, e: SceneEffect, c: ConnectionId, p: PrimPath)
    requires StateSent(w, BroadcastScene(w, q, o, e), c, p)
    ensures e.Created? && p == q
  {
  }

  lemma HandledStates(w: World, o: ConnectionId, u: Update, q: PrimPath, e: SceneEffect, c: ConnectionId, p: PrimPath)
    requires StateSent(w, HandleScene(w, o, u, q, e), c, p)
    ensures e.Created? && p == q
  {
    if e.NoChange? {
      AckIsNoState(w, o, u.requestId, e.ok, c, p);
    } else {
      var w1 := BroadcastScene(w, q, o, e);
      AckIsNoState(w1, o, u.requestId, true, c, p);
      StateSplit(w, w1, SendAck(w1, o, u.requestId, true), c, p);
      SceneStates(w, q, o, e, c, p);
    }
  }

  lemma SceneInforms(w: World, s: Step, c: ConnectionId, p: PrimPath)
    requires Possible(w, s) && s.SceneEdited? && StateSent(Pop(w), Next(w, s), c, p) && !Strays(w, s, c, p)
    ensures (c, p) !in Next(w, s).astray
  {
    HandledStates(Pop(w), w.queue[0].origin, w.queue[0].update, s.prim, s.effect, c, p);
    SceneAstray(w, w.queue[0].origin, w.queue[0].update, s.prim, s.effect, c, p);
  }

  lemma JoinInforms(w: World, j: ConnectionId, c: ConnectionId, p: PrimPath)
    requires StateSent(w, HandleJoin(w, j), c, p) && !(j == c && Misannounced(w, p))
    ensures (c, p) !in HandleJoin(w, j).astray
  {
  }

  lemma LastSettles(w: World, s: Step, c: ConnectionId, p: PrimPath)
    requires Possible(w, s) && LastApplied(w, s, c, p)
    ensures (c, p) !in Next(w, s).astray
  {
    var w0, u := Pop(w), w.queue[0].update;
    AppliedAstray(w0, c, u);
    assert EndsWith(Author(w0, u), c, u) == EndsWith(w0, c, u);
  }

  /** A client that is informed of a prim is not astray. */
  lemma InformedIsRight(w: World, s: Step, c: ConnectionId, p: PrimPath)
    requires Possible(w, s) && Informs(w, s, c, p) && !Strays(w, s, c, p)
    ensures (c, p) !in Next(w, s).astray
  {
    if LastApplied(w, s, c, p) {
      LastSettles(w, s, c, p);
    } else {
      StateIsRight(w, s, c, p);
    }
  }

  lemma StateIsRight(w: World, s: Step, c: ConnectionId, p: PrimPath)
    requires Possible(w, s) && StateSent(w, Next(w, s), c, p) && !Strays(w, s, c, p)
    ensures (c, p) !in Next(w, s).astray
  {
    match s
    case Transformed(ok) =>
      assert StateSent(Pop(w), Next(w, s), c, p);
      TransformInforms(Pop(w), w.queue[0].origin, w.queue[0].update, ok, c, p);
    case SceneEdited(_, _) =>
      assert StateSent(Pop(w), Next(w, s), c, p);
      SceneInforms(w, s, c, p);
    case Joined =>
      assert StateSent(Pop(w), Next(w, s), c, p);
      JoinInforms(Pop(w), w.queue[0].connection, c, p);
    case Reloaded(newRoot, inactive, affected) =>
      assert StateSent(Pop(w), Next(w, s), c, p);
      ReloadInforms(Pop(w), newRoot, inactive, affected, c, p);
    case Corrected =>
      var w1 := w.(consumer := Idle);
      assert StateSent(w1, Next(w, s), c, p);
      CorrectionStates(w1, w.consumer.connection, w.consumer.prim, c, p);
    case _ => assert false;
  }

  // ------------------------------------------------------------------
  // Convergence
  // ------------------------------------------------------------------

  ghost predicate StraysAt(ws: seq<World>, steps: seq<Step>, i: nat, c: ConnectionId, p: PrimPath)
    requires |ws| == |steps| + 1 && i < |steps|
  {
    Strays(ws[i], steps[i], c, p)
  }

  /** Between the states `j` and `k`, nothing leads `c` astray about `p`. */
  ghost predicate NoneStrays(ws: seq<World>, steps: seq<Step>, j: nat, k: nat, c: ConnectionId, p: PrimPath)
    requires |ws| == |steps| + 1 && j <= k < |ws|
  {
    forall i | j <= i < k :: !StraysAt(ws, steps, i, c, p)
  }

  /** State `j` is the first one, or the step before it informed `c` of `p`. */
  ghost predicate Informed(ws: seq<World>, steps: seq<Step>, j: nat, c: ConnectionId, p: PrimPath)
    requires |ws| == |steps| + 1 && j < |ws|
  {
    j == 0 || (Informs(ws[j - 1], steps[j - 1], c, p) && !StraysAt(ws, steps, j - 1, c, p))
  }

  lemma StartsRight(ws: seq<World>, steps: seq<Step>, j: nat, c: ConnectionId, p: PrimPath)
    requires IsRun(ws, steps) && j < |ws| && Informed(ws, steps, j, c, p)
    ensures (c, p) !in ws[j].astray
  {
    if j > 0 {
      assert StepAt(ws, steps, j - 1);
      InformedIsRight(ws[j - 1], steps[j - 1], c, p);
    }
  }

  lemma StaysNotAstray(ws: seq<World>, steps: seq<Step>, k: nat, c: ConnectionId, p: PrimPath)
    requires IsRun(ws, steps) && k < |steps| && (c, p) !in ws[k].astray && !StraysAt(ws, steps, k, c, p)
    ensures (c, p) !in ws[k + 1].astray
  {
    RunKeepsInv(ws, steps, k);
    assert StepAt(ws, steps, k);
    if (c, p) in Next(ws[k], steps[k]).astray {
      OnlyStrays(ws[k], steps[k], c, p);
    }
  }

  lemma {:induction false} NotAstray(ws: seq<World>, steps: seq<Step>, j: nat, k: nat, c: ConnectionId, p: PrimPath)
    requires IsRun(ws, steps) && j <= k < |ws| && (c, p) !in ws[j].astray && NoneStrays(ws, steps, j, k, c, p)
    ensures (c, p) !in ws[k].astray
    decreases k
  {
    if k > j {
      NotAstray(ws, steps, j, k - 1, c, p);
      assert !StraysAt(ws, steps, k - 1, c, p);
      StaysNotAstray(ws, steps, k - 1, c, p);
    }
  }

  /**
   Convergence: whenever nothing is queued or in flight, every client that got its snapshot
   shows the server's transform of every prim that exists, if none of the steps listed in
   `Strays` concerned the two since the start or since the client was last informed of the
   prim: by a frame with its state, or because the last update it sent was applied.
   */
  lemma Converges(ws: seq<World>, steps: seq<Step>, j: nat, k: nat, c: ConnectionId, p: PrimPath)
    requires IsRun(ws, steps) && j <= k < |ws| && Informed(ws, steps, j, c, p) && NoneStrays(ws, steps, j, k, c, p)
    requires Quiescent(ws[k]) && c in ws[k].clients && ws[k].clients[c].joined && Exists(ws[k], p)
    ensures p in ws[k].clients[c].shown
    ensures ws[k].narrow(ws[k].clients[c].shown[p]) == ws[k].narrow(Resolved(ws[k], p))
  {
    StartsRight(ws, steps, j, c, p);
    NotAstray(ws, steps, j, k, c, p);
    RunKeepsInv(ws, steps, k);
    assert ConnectionInv(ws[k], c, p);
    QuietlyShown(ws[k], c, p);
  }

  /**
   A `stale` verdict is backed, under the same conditions: a frame with a newer version of
   the prim was sent to that client, and if this was its last update of a prim that exists,
   the frames sent lead to the server's state.
   */
  lemma StaleIsBacked(ws: seq<World>, steps: seq<Step>, j: nat, k: nat, c: ConnectionId, u: Update)
    requires IsRun(ws, steps) && j <= k < |ws| && Informed(ws, steps, j, c, u.prim)
    requires NoneStrays(ws, steps, j, k, c, u.prim) && Judged(ws[k], c, u)
    requires u.Update? && Check(ws[k].book, c, u.prim, u.base) == Stale
    ensures exists i :: 0 <= i < |ws[k].clients[c].hist| && NewerState(ws[k].clients[c].hist[i], u)
    ensures LastOf(InFlight(ws[k], c), u.prim) == [u] && !Due(ws[k], c, u.prim) && Exists(ws[k], u.prim) ==>
              && ws[k].clients[c].received <= |ws[k].clients[c].hist| && Known(LocalOf(ws[k], c, u.prim), u.prim)
              && ws[k].narrow(View(ws[k].clients[c], u.prim)) == ws[k].narrow(Resolved(ws[k], u.prim))
  {
    StartsRight(ws, steps, j, c, u.prim);
    NotAstray(ws, steps, j, k, c, u.prim);
    RunKeepsInv(ws, steps, k);
    assert ConnectionInv(ws[k], c, u.prim);
    JudgedInFlight(ws[k], c, u);
    StaleCarried(LocalOf(ws[k], c, u.prim), u, ws[k].narrow);
  }

  ghost predicate NewerState(f: Frame, u: Update) {
    (f.Xform? || f.CreateFrame? || f.ActiveFrame?) && f.prim == u.prim && f.seq_ > u.base
  }

  lemma StaleCarried(l: Local, u: Update, narrow: Narrowing)
    requires ClientInv(l) && PairInv(l, u.prim, narrow) && l.inFlight != [] && l.inFlight[0] == u
    requires Moves(u, u.prim) && u.base < l.notice && !l.astray
    ensures exists i :: 0 <= i < |l.cl.hist| && NewerState(l.cl.hist[i], u)
  {
    var i :| 0 <= i < |l.cl.hist| && Carries(l.cl.hist[i], u.prim, l.notice);
    assert NewerState(l.cl.hist[i], u);
  }

  // ------------------------------------------------------------------
  // Exactly when single operations keep the agreement
  // ------------------------------------------------------------------

  /** Once the client has read what was sent to it, it shows the prim as the server has it. */
  ghost predicate Agrees(w: World, c: ConnectionId, p: PrimPath) {
    && c in w.clients && w.clients[c].received <= |w.clients[c].hist| && Known(LocalOf(w, c, p), p)
    && w.narrow(View(w.clients[c], p)) == w.narrow(Resolved(w, p))
  }

  /** One more frame that says nothing about the prim's transform. */
  lemma AgreesOn(w: World, w': World, c: ConnectionId, p: PrimPath, f: Frame)
    requires c in w.clients && w.clients[c].received <= |w.clients[c].hist| && !Touches(f, p)
    requires c in w'.clients && w'.clients[c] == Deliver(w.clients[c], f)
    requires w'.narrow == w.narrow && Resolved(w', p) == Resolved(w, p)
    ensures Agrees(w', c, p) == Agrees(w, c, p)
  {
    ViewDelivered(w.clients[c], f, p);
    KnownOn(LocalOf(w, c, p), LocalOf(w', c, p), p, f);
  }

  lemma KnownOn(l: Local, l': Local, p: PrimPath, f: Frame)
    requires l.cl.received <= |l.cl.hist| && l'.cl == Deliver(l.cl, f)
    ensures Known(l', p) == (Known(l, p) || Touches(f, p))
  {
    var h, h' := l.cl.hist, l'.cl.hist;
    assert forall i | 0 <= i < |h| :: h'[i] == h[i];
    assert h'[|h|] == f && |h'| == |h| + 1;
  }

  /** A correction makes the client agree exactly if it carries the transform, or the client agrees anyway. */
  lemma CorrectionExact(w: World, c: ConnectionId, p: PrimPath)
    requires Idempotent(w.narrow) && c in w.clients && w.clients[c].received <= |w.clients[c].hist|
    ensures Agrees(SendCorrection(w, c, p), c, p) <==> Correctable(w, p) || Agrees(w, c, p)
  {
    var w' := SendCorrection(w, c, p);
    if !Readable(w, p) {
      assert w' == w.(astray := w'.astray);
    } else if p in w.inactive {
      AgreesOn(w, w', c, p, CorrectionOf(w, p));
    } else {
      ViewDelivered(w.clients[c], CorrectionOf(w, p), p);
      KnownOn(LocalOf(w, c, p), LocalOf(w', c, p), p, CorrectionOf(w, p));
    }
  }

  /** What a client shows that has sent an update which is still current. */
  lemma ShowsOwn(l: Local, u: Update, p: PrimPath, narrow: Narrowing)
    requires OrderInv(l) && UpdatesInv(l) && PairInv(l, p, narrow) && !l.astray && !l.due && Concerned(l)
    requires LastOf(l.inFlight, p) == [u] && l.notice <= u.base
    ensures View(l.cl, p) == u.value && Known(l, p)
  {
    NothingUnread(l, u, p);
    ViewIsCur(l.cl, p);
  }

  /**
   The dispatcher fails on the last update of a client: the client agrees in the end exactly
   if the correction carries the transform, or the update had asked for what the server has.
   */
  lemma FailureExact(w: World, c: ConnectionId, u: Update)
    requires Inv(w) && c in w.clients && NextUpdate(w, c, u) && u.Update? && Check(w.book, c, u.prim, u.base) == Current
    requires LastOf(InFlight(w, c), u.prim) == [u] && !Due(w, c, u.prim) && (c, u.prim) !in w.astray
    requires Exists(w, u.prim)
    ensures Agrees(HandleTransform(Pop(w), c, u, false), c, u.prim)
       <==> Correctable(w, u.prim) || w.narrow(u.value) == w.narrow(Resolved(w, u.prim))
  {
    assert ConnectionInv(w, c, u.prim);
    LastShown(w, c, u);
    FailureAnswered(Pop(w), c, u);
  }

  lemma LastShown(w: World, c: ConnectionId, u: Update)
    requires c in w.clients && NextUpdate(w, c, u) && u.Update? && ConnectionInv(w, c, u.prim)
    requires LastOf(InFlight(w, c), u.prim) == [u] && Notice(w.book, c, u.prim) <= u.base
    requires !Due(w, c, u.prim) && (c, u.prim) !in w.astray && Exists(w, u.prim)
    ensures w.clients[c].received <= |w.clients[c].hist|
    ensures Agrees(Pop(w), c, u.prim) <==> w.narrow(u.value) == w.narrow(Resolved(w, u.prim))
  {
    PoppedLocal(w, c, u.prim);
    ShowsOwn(LocalOf(w, c, u.prim), u, u.prim, w.narrow);
  }

  lemma FailureAnswered(w: World, c: ConnectionId, u: Update)
    requires Idempotent(w.narrow) && c in w.clients && w.clients[c].received <= |w.clients[c].hist|
    requires u.Update? && Check(w.book, c, u.prim, u.base) == Current
    ensures Agrees(HandleTransform(w, c, u, false), c, u.prim) <==> Correctable(w, u.prim) || Agrees(w, c, u.prim)
  {
    var w1 := SendAck(w, c, u.requestId, false);
    AgreesOn(w, w1, c, u.prim, Ack(w.serverSeq, u.requestId, false));
    CorrectionExact(w1, c, u.prim);
    assert Correctable(w1, u.prim) == Correctable(w, u.prim);
  }

  /**
   Someone else changes the active state of a prim that `c` is moving: every update of the
   prim in flight is outdated by that, no transform is sent, and `c` agrees exactly if what
   it asked for last is what the server has.
   */
  lemma ActiveExact(w: World, q: PrimPath, o: ConnectionId, active: bool, c: ConnectionId, u: Update)
    requires Inv(w) && c in w.clients && c != o && LastOf(InFlight(w, c), q) == [u]
    requires Notice(w.book, c, q) <= u.base && !Due(w, c, q) && (c, q) !in w.astray && Exists(w, q)
    ensures var w' := BroadcastActive(w, q, o, active);
            && (Agrees(w', c, q) <==> w.narrow(u.value) == w.narrow(Resolved(w, q)))
            && forall x | x in InFlight(w', c) && Moves(x, q) :: x.base < Notice(w'.book, c, q)
  {
    var w' := BroadcastActive(w, q, o, active);
    assert ConnectionInv(w, c, q);
    assert Notice(w.book, c, q) <= w.serverSeq && MaxSent(w.book, c) <= w.serverSeq;
    ShowsOwn(LocalOf(w, c, q), u, q, w.narrow);
    ActiveLocal(w, q, o, active, c, q);
    ActiveAgrees(w, q, o, active, c);
    Outdated(LocalOf(w, c, q), q);
  }

  lemma ActiveAgrees(w: World, q: PrimPath, o: ConnectionId, active: bool, c: ConnectionId)
    requires c in w.clients && w.clients[c].received <= |w.clients[c].hist|
    ensures Agrees(BroadcastActive(w, q, o, active), c, q) == Agrees(w, c, q)
  {
    AgreesOn(w, BroadcastActive(w, q, o, active), c, q, ActiveFrame(w.serverSeq + 1, q, active));
  }

  lemma Outdated(l: Local, p: PrimPath)
    requires OrderInv(l) && UpdatesInv(l)
    ensures forall x | x in l.inFlight :: x.base <= l.serverSeq
  {
    forall x | x in l.inFlight ensures x.base <= l.serverSeq {
      var j :| 0 <= j < |l.inFlight| && l.inFlight[j] == x;
    }
  }

  /** A joiner agrees on a prim of its snapshot exactly if the layer announces what the prim has. */
  lemma JoinerExact(w: World, c: ConnectionId, p: PrimPath)
    requires c in w.clients && w.clients[c].received <= |w.clients[c].hist|
    ensures Agrees(HandleJoin(w, c), c, p) <==> if p in SnapshotValues(w) then !Misannounced(w, p) else Agrees(w, c, p)
  {
    var w', f := HandleJoin(w, c), Snapshot(w.serverSeq, SnapshotValues(w));
    ViewDelivered(w.clients[c], f, p);
    assert View(w'.clients[c], p) == View(Deliver(w.clients[c], f), p);
    var l, l' := LocalOf(w, c, p), LocalOf(w', c, p).(cl := Deliver(w.clients[c], f));
    KnownOn(l, l', p, f);
    assert Known(LocalOf(w', c, p), p) == Known(l', p);
  }

  // What the layer announces

  /** Reading the layer finds the prim's transform, except for a matrix with components authored later. */
  ghost predicate Announces(w: World) {
    && w.session.Keys == w.announced.Keys
    && forall p | p in w.session ::
         w.announced[p] == w.session[p] || (w.announced[p].Matrix? && w.session[p].Separate?)
  }

  lemma StepAnnounces(w: World, s: Step)
    requires Announces(w) && Possible(w, s)
    ensures Announces(Next(w, s))
  {
    if s.Transformed? {
      TransformLayers(Pop(w), w.queue[0].origin, w.queue[0].update, s.ok);
    } else {
      OtherLayers(w, s);
    }
  }

  lemma OtherLayers(w: World, s: Step)
    requires Possible(w, s) && !s.Transformed?
    ensures Next(w, s).session == w.session && Next(w, s).announced == w.announced
  {
    if s.Reloaded? {
      ReloadLayers(Numbered(Replaced(Pop(w), s.newRoot, s.inactive), s.affected), s.affected);
    }
  }

  lemma TransformLayers(w: World, o: ConnectionId, u: Update, ok: bool)
    requires u.Update? && (ok ==> Readable(w, u.prim)) && Announces(w)
    ensures Announces(HandleTransform(w, o, u, ok))
  {
    if Check(w.book, o, u.prim, u.base) == Current && ok {
      AppliedIs(w, o, u);
    }
  }

  lemma {:induction false} ReloadLayers(w: World, affected: seq<PrimPath>)
    ensures SameTransforms(w, ReloadLoop(w, affected))
    decreases |affected|
  {
    if affected != [] {
      ReloadLayers(ReloadOne(w, affected[0]), affected[1..]);
    }
  }

  /**
   In a run over a layer that announced what it had, a joiner gets the transform of every
   prim the session moved, unless its last update had components and an earlier one a matrix
   that narrows to something else.
   */
  lemma JoinerSees(ws: seq<World>, steps: seq<Step>, k: nat, c: ConnectionId, p: PrimPath)
    requires IsRun(ws, steps) && k < |ws| && (forall q | q in ws[0].session :: ws[0].announced[q] == ws[0].session[q])
    requires c in ws[k].clients && p in ws[k].session
    ensures var w := ws[k];
            && p in w.announced
            && (Agrees(HandleJoin(w, c), c, p) <==>
                  !(&& w.announced[p].Matrix? && w.session[p].Separate?
                    && w.narrow(w.announced[p]) != w.narrow(w.session[p])))
  {
    RunKeepsInv(ws, steps, k);
    assert ConnectionInv(ws[k], c, p);
    RunAnnounces(ws, steps, k);
    JoinerExact(ws[k], c, p);
  }

  lemma {:induction false} RunAnnounces(ws: seq<World>, steps: seq<Step>, k: nat)
    requires IsRun(ws, steps) && k < |ws| && (forall q | q in ws[0].session :: ws[0].announced[q] == ws[0].session[q])
    ensures Announces(ws[k])
  {
    if k > 0 {
      RunAnnounces(ws, steps, k - 1);
      assert StepAt(ws, steps, k - 1);
      StepAnnounces(ws[k - 1], steps[k - 1]);
    }
  }
}
