/** What the update protocol guarantees over every run. */
module ProtocolTheorems {
  import opened Versions
  import opened Protocol
  import opened ProtocolInvariants
  import opened Convergence

  lemma InitialInv(w: World)
    requires Initial(w)
    ensures Inv(w)
  {
    assert forall c, p :: Notice(w.book, c, p) == 0;
    assert forall c :: MaxSent(w.book, c) == 0;
  }

  lemma {:induction false} RunKeepsInv(ws: seq<World>, steps: seq<Step>, k: nat)
    requires IsRun(ws, steps) && k < |ws|
    ensures Inv(ws[k])
  {
    if k == 0 {
      InitialInv(ws[0]);
    } else {
      RunKeepsInv(ws, steps, k - 1);
      assert StepAt(ws, steps, k - 1);
      StepKeepsInv(ws[k - 1], steps[k - 1]);
    }
  }

  /** At rest, a client that is not astray shows what the server has. */
  lemma QuietlyShown(w: World, c: ConnectionId, p: PrimPath)
    requires Quiescent(w) && c in w.clients && ConnectionInv(w, c, p) && Exists(w, p)
    requires w.clients[c].joined && (c, p) !in w.astray
    ensures p in w.clients[c].shown && w.narrow(w.clients[c].shown[p]) == w.narrow(Resolved(w, p))
  {
    var l := LocalOf(w, c, p);
    assert OwnQueued([], c) == [] && l.inFlight == [] && !l.due;
    assert l.cl.hist[l.cl.received..] == [];
    assert View(l.cl, p) == Cur(l.cl, p);
  }

  /**
   Exactly one Ack: at any time the unanswered requests of a client are its updates in
   flight plus the Acks in flight, one for one; no Ack answers anything else.
   */
  lemma OneAckPerUpdate(ws: seq<World>, steps: seq<Step>, k: nat, c: ConnectionId)
    requires IsRun(ws, steps) && k < |ws| && c in ws[k].clients
    ensures var cl := ws[k].clients[c];
            && cl.received <= |cl.hist| && cl.unknownAcks == 0
            && cl.unacked == Ids(InFlight(ws[k], c)) + AckIds(cl.hist[cl.received..])
    ensures Quiescent(ws[k]) ==> ws[k].clients[c].unacked == multiset{}
  {
    RunKeepsInv(ws, steps, k);
    assert ConnectionInv(ws[k], c, "");
    var cl := ws[k].clients[c];
    if Quiescent(ws[k]) {
      assert cl.hist[cl.received..] == [] && OwnQueued([], c) == [] && InFlight(ws[k], c) == [];
    }
  }

  /**
   An applied update is one version for everyone: each other client gets the new state, the
   sender its Ack, which therefore covers everything the update caused.
   */
  lemma AppliedReachesAll(ws: seq<World>, steps: seq<Step>, k: nat, c: ConnectionId, u: Update, d: ConnectionId)
    requires IsRun(ws, steps) && k < |steps| && Judged(ws[k], c, u) && steps[k] == Transformed(true) && u.Update?
    requires Check(ws[k].book, c, u.prim, u.base) == Current && d in ws[k].clients
    ensures d in ws[k + 1].clients && ws[k + 1].serverSeq == ws[k].serverSeq + 1
    ensures var f := if d == c then Ack(ws[k + 1].serverSeq, u.requestId, true)
                     else Xform(ws[k + 1].serverSeq, u.prim, ws[k].narrow(u.value));
            ws[k + 1].clients[d].hist == ws[k].clients[d].hist + [f]
    ensures ws[k].narrow(Resolved(ws[k + 1], u.prim)) == ws[k].narrow(u.value)
  {
    RunKeepsInv(ws, steps, k);
    assert StepAt(ws, steps, k);
    assert Notice(ws[k].book, d, u.prim) <= ws[k].serverSeq && MaxSent(ws[k].book, d) <= ws[k].serverSeq;
    AppliedReaches(ws[k], c, u, d);
  }

  lemma AppliedReaches(w: World, c: ConnectionId, u: Update, d: ConnectionId)
    requires NextUpdate(w, c, u) && u.Update? && Readable(w, u.prim) && Check(w.book, c, u.prim, u.base) == Current
    requires d in w.clients && d != 0 && Idempotent(w.narrow)
    requires Notice(w.book, d, u.prim) <= w.serverSeq && MaxSent(w.book, d) <= w.serverSeq
    ensures var w', s := HandleTransform(Pop(w), c, u, true), w.serverSeq + 1;
            && w'.serverSeq == s && w.narrow(Resolved(w', u.prim)) == w.narrow(u.value)
            && w'.clients[d].hist == w.clients[d].hist
               + [if d == c then Ack(s, u.requestId, true) else Xform(s, u.prim, w.narrow(u.value))]
  {
    AppliedLocal(w, c, u, d, u.prim);
    assert w.narrow(w.narrow(u.value)) == w.narrow(u.value);
  }

  /** The versions sent to one connection never go down (0 marks frames without a version). */
  lemma VersionsNeverGoDown(ws: seq<World>, steps: seq<Step>, k: nat, c: ConnectionId, i: nat, j: nat)
    requires IsRun(ws, steps) && k < |ws| && c in ws[k].clients
    requires i < j < |ws[k].clients[c].hist| && ws[k].clients[c].hist[j].seq_ != 0
    ensures ws[k].clients[c].hist[i].seq_ <= ws[k].clients[c].hist[j].seq_ <= ws[k].serverSeq
    ensures ws[k].clients[c].regressions == 0
  {
    RunKeepsInv(ws, steps, k);
    assert ConnectionInv(ws[k], c, "");
  }

  /** The oldest queued command is the request `u` of the attached client `c`. */
  ghost predicate Judged(w: World, c: ConnectionId, u: Update) {
    c in w.clients && NextUpdate(w, c, u)
  }

  lemma JudgedInFlight(w: World, c: ConnectionId, u: Update)
    requires Judged(w, c, u)
    ensures InFlight(w, c) != [] && InFlight(w, c)[0] == u
  {
    PoppedLocal(w, c, u.prim);
  }

  /** A client that sends the highest version it received as base is never told `invalid_base`. */
  lemma NeverInvalidBase(ws: seq<World>, steps: seq<Step>, k: nat, c: ConnectionId, u: Update)
    requires IsRun(ws, steps) && k < |ws| && Judged(ws[k], c, u)
    ensures Check(ws[k].book, c, u.prim, u.base) != InvalidBase
  {
    RunKeepsInv(ws, steps, k);
    assert ConnectionInv(ws[k], c, u.prim);
    JudgedInFlight(ws[k], c, u);
  }

  // ------------------------------------------------------------------
  // Corrections
  // ------------------------------------------------------------------

  /** At most one correction per (connection, prim) is queued, and none is queued beside a marked one. */
  lemma CorrectionsCoalesced(ws: seq<World>, steps: seq<Step>, k: nat, i: nat, j: nat)
    requires IsRun(ws, steps) && k < |ws| && i < |ws[k].priority| && j < |ws[k].priority|
    ensures ws[k].priority[i] == ws[k].priority[j] ==> i == j
    ensures var (c, p) := ws[k].priority[i];
            c in ws[k].clients ==> p in ws[k].clients[c].queued && ws[k].consumer != Popped(c, p)
  {
    RunKeepsInv(ws, steps, k);
    var (c, p) := ws[k].priority[i];
    if c in ws[k].clients {
      assert DebtInv(ws[k], c, p);
    }
  }

  // The notice of a pair only grows

  lemma ReloadOneNotice(w: World, q: PrimPath, c: ConnectionId, p: PrimPath)
    requires c in w.clients && c != 0 && MaxSent(w.book, c) <= w.serverSeq && Notice(w.book, c, p) <= w.serverSeq
    ensures var w' := ReloadOne(w, q);
            Notice(w.book, c, p) <= Notice(w'.book, c, p) <= w.serverSeq && MaxSent(w'.book, c) <= w.serverSeq
  {
    if q !in w.session {
      ReloadBounds(w, q, c, p);
      BroadcastNotice(w.book, q, w.serverSeq, 0, w.clients.Keys - {0}, c, p);
    }
  }

  lemma {:induction false} ReloadLoopNotice(w: World, affected: seq<PrimPath>, c: ConnectionId, p: PrimPath)
    requires c in w.clients && c != 0 && MaxSent(w.book, c) <= w.serverSeq && Notice(w.book, c, p) <= w.serverSeq
    ensures Notice(ReloadLoop(w, affected).book, c, p) >= Notice(w.book, c, p)
    decreases |affected|
  {
    if affected != [] {
      ReloadOneNotice(w, affected[0], c, p);
      ReloadLoopNotice(ReloadOne(w, affected[0]), affected[1..], c, p);
    }
  }

  lemma CorrectionRaises(w: World, a: ConnectionId, q: PrimPath, c: ConnectionId, p: PrimPath)
    requires c in w.clients && MaxSent(w.book, c) <= w.serverSeq && Notice(w.book, c, p) <= w.serverSeq
    ensures var w' := SendCorrection(w, a, q);
            Notice(w'.book, c, p) >= Notice(w.book, c, p) && w'.serverSeq >= w.serverSeq
  {
    if a in w.clients && Readable(w, q) {
      CorrectionNotice(w.book, a, q, w.serverSeq + 1, c, p);
    }
  }

  lemma TransformNotice(w: World, o: ConnectionId, u: Update, ok: bool, c: ConnectionId, p: PrimPath)
    requires c in w.clients && c != 0 && NextUpdate(w, o, u) && u.Update? && (ok ==> Readable(w, u.prim))
    requires MaxSent(w.book, c) <= w.serverSeq && Notice(w.book, c, p) <= w.serverSeq
    ensures var w' := HandleTransform(Pop(w), o, u, ok);
            Notice(w'.book, c, p) >= Notice(w.book, c, p) && w'.serverSeq >= w.serverSeq
  {
    if Check(w.book, o, u.prim, u.base) == Current && ok {
      AppliedLocal(w, o, u, c, p);
    } else {
      UnappliedLocal(w, o, u, false, c, p);
      CorrectionRaises(SendAck(Pop(w), o, u.requestId, false), o, u.prim, c, p);
    }
  }

  lemma AckNotice(w: World, a: ConnectionId, id: nat, ok: bool, c: ConnectionId, p: PrimPath)
    ensures Notice(SendAck(w, a, id, ok).book, c, p) == Notice(w.book, c, p)
    ensures SendAck(w, a, id, ok).serverSeq == w.serverSeq
  {
  }

  lemma SceneBookIs(w: World, o: ConnectionId, q: PrimPath, e: SceneEffect)
    ensures var w', s := BroadcastScene(w, q, o, e), w.serverSeq + 1;
            w'.book == SentToAll(Record(w.book, Change(q, s, o)), w.clients.Keys, s) && w'.serverSeq == s
  {
  }

  lemma SceneNotice(w: World, o: ConnectionId, u: Update, q: PrimPath, e: SceneEffect, c: ConnectionId, p: PrimPath)
    requires c in w.clients && c != 0 && MaxSent(w.book, c) <= w.serverSeq && Notice(w.book, c, p) <= w.serverSeq
    ensures var w' := HandleScene(w, o, u, q, e);
            Notice(w'.book, c, p) >= Notice(w.book, c, p) && w'.serverSeq >= w.serverSeq
  {
    if e.NoChange? {
      AckNotice(w, o, u.requestId, e.ok, c, p);
    } else {
      SceneBookIs(w, o, q, e);
      BroadcastNotice(w.book, q, w.serverSeq + 1, o, w.clients.Keys, c, p);
      AckNotice(BroadcastScene(w, q, o, e), o, u.requestId, true, c, p);
    }
  }

  lemma StepNotice(w: World, s: Step, c: ConnectionId, p: PrimPath)
    requires Possible(w, s) && c in w.clients && c != 0 && BookInv(w.book, w.serverSeq)
    ensures Notice(Next(w, s).book, c, p) >= Notice(w.book, c, p) && Next(w, s).serverSeq >= w.serverSeq
  {
    assert Notice(w.book, c, p) <= w.serverSeq && MaxSent(w.book, c) <= w.serverSeq;
    match s
    case Transformed(ok) => TransformNotice(w, w.queue[0].origin, w.queue[0].update, ok, c, p);
    case SceneEdited(q, e) => SceneNotice(Pop(w), w.queue[0].origin, w.queue[0].update, q, e, c, p);
    case Joined => JoinLocal(Pop(w), w.queue[0].connection, c, p);
    case Reloaded(newRoot, inactive, affected) =>
      ReloadLoopNotice(Numbered(Replaced(Pop(w), newRoot, inactive), affected), affected, c, p);
    case Corrected => CorrectionRaises(w.(consumer := Idle), w.consumer.connection, w.consumer.prim, c, p);
    case _ =>
  }

  // What ends a debt

  /** The consumer reads the prim and sends its state of that moment to the client. */
  ghost predicate Corrects(w: World, s: Step, c: ConnectionId, p: PrimPath) {
    && Possible(w, s) && s.Corrected? && w.consumer == Cleared(c, p) && Readable(w, p)
    && c in w.clients && c in Next(w, s).clients && Next(w, s).serverSeq == w.serverSeq + 1
    && Next(w, s).clients[c].hist == w.clients[c].hist + [CorrectionOf(w, p)]
    && Notice(Next(w, s).book, c, p) == w.serverSeq + 1
  }

  /** The priority queue is full and the correction is given up. */
  predicate Drops(w: World, s: Step, c: ConnectionId, p: PrimPath) {
    s == DropCorrection(c) && c in w.clients && w.clients[c].io == Submitting(p)
  }

  /** The consumer finds that the prim cannot be read: nothing is sent. */
  ghost predicate Misses(w: World, s: Step, c: ConnectionId, p: PrimPath) {
    && Possible(w, s) && s.Corrected? && w.consumer == Cleared(c, p) && !Readable(w, p)
    && Next(w, s).clients == w.clients && Next(w, s).book == w.book && Next(w, s).serverSeq == w.serverSeq
  }

  ghost predicate EndsDebt(w: World, s: Step, c: ConnectionId, p: PrimPath) {
    Corrects(w, s, c, p) || Drops(w, s, c, p) || Misses(w, s, c, p)
  }

  lemma CorrectedPays(w: World, s: Step, c: ConnectionId, p: PrimPath)
    requires Possible(w, s) && s.Corrected? && w.consumer == Cleared(c, p) && c in w.clients
    requires BookInv(w.book, w.serverSeq) && c != 0
    ensures if Readable(w, p) then Corrects(w, s, c, p) else Misses(w, s, c, p)
  {
    assert Notice(w.book, c, p) <= w.serverSeq && MaxSent(w.book, c) <= w.serverSeq;
    if Readable(w, p) {
      CorrectionNotice(w.book, c, p, w.serverSeq + 1, c, p);
    }
  }

  lemma ConsumerDue(w: World, s: Step, c: ConnectionId, p: PrimPath)
    requires StructureInv(w) && Possible(w, s) && c in w.clients
    requires s.Transformed? || s.SceneEdited? || s.Joined? || s.Reloaded?
    ensures Due(w, c, p) ==> Due(Next(w, s), c, p)
  {
    match s
    case Transformed(ok) => TransformFrame(Pop(w), w.queue[0].origin, w.queue[0].update, ok);
    case SceneEdited(q, e) => SceneFrames(Pop(w), w.queue[0].origin, w.queue[0].update, q, e);
    case Joined =>
    case Reloaded(newRoot, inactive, affected) =>
      BookGrows(w.book, w.serverSeq, w.serverSeq + 1);
      ReloadLoopFrame(Numbered(Replaced(Pop(w), newRoot, inactive), affected), affected);
  }

  lemma OtherDue(w: World, s: Step, c: ConnectionId, p: PrimPath)
    requires Possible(w, s) && !ConsumerStep(s) && !CorrectionStep(s) && c in w.clients && c in Next(w, s).clients
    requires c != w.nextConnection
    ensures Due(w, c, p) ==> Due(Next(w, s), c, p)
  {
  }

  /**
   A debt ends with a correction of the state at that moment, where the correction is dropped,
   or where the prim cannot be read.
   */
  lemma DebtPaid(w: World, s: Step, c: ConnectionId, p: PrimPath)
    requires StructureInv(w) && Possible(w, s) && c in w.clients && c in Next(w, s).clients
    requires Due(w, c, p) && !Due(Next(w, s), c, p)
    ensures EndsDebt(w, s, c, p)
  {
    assert 0 < c < w.nextConnection;
    if CorrectionStep(s) {
      CorrectionStructure(w, s);
    } else if s.Corrected? {
      if w.consumer == Cleared(c, p) {
        CorrectedPays(w, s, c, p);
      }
    } else if ConsumerStep(s) {
      ConsumerDue(w, s, c, p);
    } else {
      OtherDue(w, s, c, p);
    }
  }

  ghost predicate StaysAttached(ws: seq<World>, i: nat, j: nat, c: ConnectionId)
    requires i <= j < |ws|
  {
    forall k | i <= k <= j :: c in ws[k].clients
  }

  /** A refused base stays refused. */
  lemma {:induction false} NoticeStays(ws: seq<World>, steps: seq<Step>, i: nat, j: nat, c: ConnectionId, p: PrimPath)
    requires IsRun(ws, steps) && i <= j < |ws| && StaysAttached(ws, i, j, c)
    ensures Notice(ws[i].book, c, p) <= Notice(ws[j].book, c, p) && ws[i].serverSeq <= ws[j].serverSeq
    decreases j
  {
    if i < j {
      NoticeStays(ws, steps, i, j - 1, c, p);
      RunKeepsInv(ws, steps, j - 1);
      assert StepAt(ws, steps, j - 1);
      StepNotice(ws[j - 1], steps[j - 1], c, p);
    }
  }

  lemma LastDue(ws: seq<World>, steps: seq<Step>, k: nat, c: ConnectionId, p: PrimPath)
    requires IsRun(ws, steps) && k < |steps| && c in ws[k].clients && c in ws[k + 1].clients
    requires Due(ws[k], c, p) && !Due(ws[k + 1], c, p)
    ensures EndsDebt(ws[k], steps[k], c, p)
  {
    RunKeepsInv(ws, steps, k);
    assert StepAt(ws, steps, k);
    DebtPaid(ws[k], steps[k], c, p);
  }

  /**
   Between a state in which (c, p) is due a correction and one in which it is not, there is
   a step that sends it, with the state of that moment, one that drops it, or one that finds
   the prim unreadable.
   */
  lemma {:induction false} CorrectionFollows(
    ws: seq<World>, steps: seq<Step>, i: nat, j: nat, c: ConnectionId, p: PrimPath) returns (k: nat)
    requires IsRun(ws, steps) && i <= j < |ws| && StaysAttached(ws, i, j, c)
    requires Due(ws[i], c, p) && !Due(ws[j], c, p)
    ensures i <= k < j && EndsDebt(ws[k], steps[k], c, p)
    decreases j
  {
    k := j - 1;
    if Due(ws[k], c, p) {
      LastDue(ws, steps, k, c, p);
    } else {
      k := CorrectionFollows(ws, steps, i, j - 1, c, p);
    }
  }

  /** What was sent before a correction is refused after it. */
  lemma CorrectionRefuses(
    ws: seq<World>, steps: seq<Step>, i: nat, k: nat, j: nat, c: ConnectionId, p: PrimPath, base: nat)
    requires IsRun(ws, steps) && i <= k < j < |ws| && StaysAttached(ws, i, j, c)
    requires Corrects(ws[k], steps[k], c, p) && base <= ws[i].serverSeq
    ensures Check(ws[j].book, c, p, base) != Current
  {
    assert StepAt(ws, steps, k);
    NoticeStays(ws, steps, i, k, c, p);
    NoticeStays(ws, steps, k + 1, j, c, p);
  }

  /**
   No rejection goes uncorrected: a client whose update was answered queue_full, and that
   stays attached until nothing is in flight any more, was sent the state of the prim as it
   was after the rejection, unless a full priority queue dropped the correction or the prim
   could not be read at that moment. Once it was sent, every update of the prim the client
   sent before the rejection is refused.
   */
  lemma CorrectionNeverMissed(ws: seq<World>, steps: seq<Step>, i: nat, j: nat, c: ConnectionId, p: PrimPath, base: nat)
    returns (k: nat)
    requires IsRun(ws, steps) && i < j < |ws| && StaysAttached(ws, i, j, c) && Quiescent(ws[j])
    requires Rejects(ws[i], steps[i], c, p)
    ensures i < k < j && EndsDebt(ws[k], steps[k], c, p)
    ensures Corrects(ws[k], steps[k], c, p) && base <= ws[i].serverSeq ==> Check(ws[j].book, c, p, base) != Current
  {
    assert StepAt(ws, steps, i);
    RejectionOwes(ws[i], c);
    assert Due(ws[i + 1], c, p) && !Due(ws[j], c, p);
    k := CorrectionFollows(ws, steps, i + 1, j, c, p);
    if Corrects(ws[k], steps[k], c, p) && base <= ws[i].serverSeq {
      CorrectionRefuses(ws, steps, i, k, j, c, p, base);
    }
  }

  /** The command queue is full and an update of `p` is answered queue_full. */
  predicate Rejects(w: World, s: Step, c: ConnectionId, p: PrimPath) {
    s == Reject(c) && c in w.clients && w.clients[c].out != [] && Moves(w.clients[c].out[0], p)
  }

  /** A queue_full answer to an update makes the connection due a correction of that prim. */
  lemma RejectionOwes(w: World, c: ConnectionId)
    requires Possible(w, Reject(c)) && w.clients[c].out[0].Update?
    ensures Due(Next(w, Reject(c)), c, w.clients[c].out[0].prim)
  {
  }
}
