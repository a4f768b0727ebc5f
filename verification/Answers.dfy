/**
 What the frames of the server tell: each request gets one Ack, which says whether it took
 effect, and every other frame carries what the server has at that moment.
 */
module Answers {
  import opened Versions
  import opened Protocol
  import opened Transforms
  import opened ProtocolInvariants
  import opened Convergence
  import opened ProtocolTheorems
  import opened Agreement

  function AcksOf(fs: seq<Frame>): seq<Frame> {
    if fs == [] then [] else (if fs[0].Ack? then [fs[0]] else []) + AcksOf(fs[1..])
  }

  lemma {:induction false} NoAcks(fs: seq<Frame>)
    requires forall f | f in fs :: !f.Ack?
    ensures AcksOf(fs) == []
    decreases |fs|
  {
    if fs != [] {
      assert fs[0] in fs && forall f | f in fs[1..] :: f in fs;
      NoAcks(fs[1..]);
    }
  }

  /** The frames a step sends to `c`. */
  function Sends(w: World, w': World, c: ConnectionId): seq<Frame> {
    if c in w.clients && c in w'.clients && |w.clients[c].hist| <= |w'.clients[c].hist|
    then w'.clients[c].hist[|w.clients[c].hist|..] else []
  }

  /** The channel of `c` is extended by `fs`. */
  ghost predicate Extends(w: World, w': World, c: ConnectionId, fs: seq<Frame>) {
    c in w.clients && c in w'.clients && w'.clients[c].hist == w.clients[c].hist + fs
  }

  lemma ExtendsSends(w: World, w': World, c: ConnectionId, fs: seq<Frame>)
    requires Extends(w, w', c, fs)
    ensures Sends(w, w', c) == fs
  {
  }

  lemma ExtendsTwice(w: World, w1: World, w2: World, c: ConnectionId, fs: seq<Frame>, gs: seq<Frame>)
    requires Extends(w, w1, c, fs) && Extends(w1, w2, c, gs)
    ensures Extends(w, w2, c, fs + gs)
  {
  }

  /** The request of `c` that a step answers, if any. */
  function Asked(w: World, s: Step, c: ConnectionId): (us: seq<Update>)
    ensures |us| <= 1
  {
    match s
    case Transformed(_) => HeadOf(w, c)
    case SceneEdited(_, _) => HeadOf(w, c)
    case Reject(d) => if d == c && c in w.clients && w.clients[c].out != [] then [w.clients[c].out[0]] else []
    case _ => []
  }

  function HeadOf(w: World, c: ConnectionId): (us: seq<Update>)
    ensures |us| <= 1
  {
    if w.queue != [] && w.queue[0].EditCommand? && w.queue[0].origin == c then [w.queue[0].update] else []
  }

  /** A change of `p` was recorded under a version of its own. */
  ghost predicate NewVersion(w: World, w': World, p: PrimPath) {
    w'.serverSeq == w.serverSeq + 1 && PrimEntry(w'.book, p).lastChangeSeq == w'.serverSeq
  }

  /** The update is in the session layer, under a new version. */
  ghost predicate Published(w: World, w': World, u: Update)
    requires u.Update?
  {
    w'.session == w.session[u.prim := w.narrow(u.value)] && NewVersion(w, w', u.prim)
  }

  /** The prim was created, or has another active state, under a new version. */
  ghost predicate Edited(w: World, w': World, p: PrimPath) {
    && NewVersion(w, w', p)
    && ((p !in w.created && w'.created == w.created + {p} && w'.inactive == w.inactive)
        || (w'.created == w.created && (w'.inactive == w.inactive + {p} || w'.inactive == w.inactive - {p})))
  }

  /** No layer and no recorded version changed. */
  ghost predicate Untouched(w: World, w': World) {
    SameTransforms(w, w') && w'.created == w.created && w'.inactive == w.inactive && w'.book.prims == w.book.prims
  }

  /** The Ack `a` says of the request `u` what became of it. */
  ghost predicate Tells(w: World, s: Step, w': World, u: Update, a: Frame) {
    && a.Ack? && a.requestId == u.requestId && (!a.ok ==> Untouched(w, w')) && (a.ok ==> a.seq_ == w'.serverSeq)
    && (u.Update? ==> (a.ok <==> Published(w, w', u)))
    && (u.SceneEdit? && s.SceneEdited? ==> (a.ok <==> s.effect == NoChange(true) || Edited(w, w', s.prim)))
    && (u.SceneEdit? && s.Reject? ==> !a.ok)
  }

  // The frames of the server's operations

  lemma AckExtends(w: World, a: ConnectionId, id: nat, ok: bool, c: ConnectionId)
    requires c in w.clients
    ensures Extends(w, SendAck(w, a, id, ok), c, if c == a then [Ack(w.serverSeq, id, ok)] else [])
  {
  }

  lemma BroadcastExtends(w: World, p: PrimPath, o: ConnectionId, c: ConnectionId)
    requires c in w.clients
    ensures Extends(w, BroadcastChange(w, p, o), c,
                    if c != o && Readable(w, p) then [Xform(w.serverSeq, p, ReadBack(w, p))] else [])
  {
  }

  lemma CorrectionExtends(w: World, a: ConnectionId, p: PrimPath, c: ConnectionId)
    requires c in w.clients
    ensures Extends(w, SendCorrection(w, a, p), c, if c == a && Readable(w, p) then [CorrectionOf(w, p)] else [])
  {
  }

  lemma EveryoneExtends(w: World, f: Frame, o: ConnectionId, c: ConnectionId)
    requires c in w.clients && (f.CreateFrame? || f.ActiveFrame?)
    ensures Extends(w, ToEveryone(w, f, o), c, [f])
  {
  }

  function SceneFrame(w: World, q: PrimPath, e: SceneEffect): Frame {
    if e.Created? then CreateFrame(w.serverSeq + 1, q) else ActiveFrame(w.serverSeq + 1, q, e.Activated?)
  }

  lemma SceneExtends(w: World, q: PrimPath, o: ConnectionId, e: SceneEffect, c: ConnectionId)
    requires c in w.clients
    ensures Extends(w, BroadcastScene(w, q, o, e), c, [SceneFrame(w, q, e)])
  {
    EveryoneExtends(w, SceneFrame(w, q, e), o, c);
  }

  lemma SameExtends(w: World, w1: World, w': World, c: ConnectionId, fs: seq<Frame>)
    requires Extends(w1, w', c, fs) && w1.clients == w.clients
    ensures Extends(w, w', c, fs)
  {
  }

  lemma AppliedExtends(w: World, o: ConnectionId, u: Update, c: ConnectionId)
    requires u.Update? && Readable(w, u.prim) && Check(w.book, o, u.prim, u.base) == Current && c in w.clients
    ensures Extends(w, HandleTransform(w, o, u, true), c,
                    if c == o then [Ack(w.serverSeq + 1, u.requestId, true)]
                    else [Xform(w.serverSeq + 1, u.prim, w.narrow(w.narrow(u.value)))])
  {
    var w1 := Settle(Author(w, u), o, u);
    var w2 := BroadcastChange(w1, u.prim, o);
    AppliedIs(w, o, u);
    assert Readable(w1, u.prim) && ReadBack(w1, u.prim) == w.narrow(w.narrow(u.value));
    BroadcastExtends(w1, u.prim, o, c);
    AckExtends(w2, o, u.requestId, true, c);
    ExtendsTwice(w1, w2, SendAck(w2, o, u.requestId, true), c,
                 if c != o then [Xform(w1.serverSeq, u.prim, ReadBack(w1, u.prim))] else [],
                 if c == o then [Ack(w2.serverSeq, u.requestId, true)] else []);
  }

  lemma FailedExtends(w: World, o: ConnectionId, u: Update, c: ConnectionId)
    requires u.Update? && Check(w.book, o, u.prim, u.base) == Current && c in w.clients
    ensures Extends(w, HandleTransform(w, o, u, false), c,
                    if c != o then []
                    else [Ack(w.serverSeq, u.requestId, false)]
                         + (if Readable(w, u.prim) then [CorrectionOf(w, u.prim)] else []))
  {
    var w1 := SendAck(w, o, u.requestId, false);
    AckExtends(w, o, u.requestId, false, c);
    CorrectionExtends(w1, o, u.prim, c);
    assert Readable(w1, u.prim) == Readable(w, u.prim) && CorrectionOf(w1, u.prim) == CorrectionOf(w, u.prim);
    ExtendsTwice(w, w1, SendCorrection(w1, o, u.prim), c, if c == o then [Ack(w.serverSeq, u.requestId, false)] else [],
                 if c == o && Readable(w, u.prim) then [CorrectionOf(w, u.prim)] else []);
  }

  lemma EditedExtends(w: World, o: ConnectionId, u: Update, q: PrimPath, e: SceneEffect, c: ConnectionId)
    requires c in w.clients && !e.NoChange?
    ensures Extends(w, HandleScene(w, o, u, q, e), c,
                    [SceneFrame(w, q, e)] + if c == o then [Ack(w.serverSeq + 1, u.requestId, true)] else [])
  {
    var w1 := BroadcastScene(w, q, o, e);
    SceneExtends(w, q, o, e, c);
    AckExtends(w1, o, u.requestId, true, c);
    assert w1.serverSeq == w.serverSeq + 1;
    ExtendsTwice(w, w1, SendAck(w1, o, u.requestId, true), c, [SceneFrame(w, q, e)],
                 if c == o then [Ack(w1.serverSeq, u.requestId, true)] else []);
  }

  /** Frames that hold no Ack. */
  ghost predicate Silent(fs: seq<Frame>) {
    forall f | f in fs :: !f.Ack?
  }

  lemma {:induction false} ReloadExtends(w: World, affected: seq<PrimPath>, c: ConnectionId)
    requires c in w.clients
    ensures Extends(w, ReloadLoop(w, affected), c, Sends(w, ReloadLoop(w, affected), c))
    ensures Silent(Sends(w, ReloadLoop(w, affected), c))
    decreases |affected|
  {
    if affected == [] {
      ExtendsSends(w, w, c, []);
    } else {
      var w1 := ReloadOne(w, affected[0]);
      var w2 := ReloadLoop(w1, affected[1..]);
      ReloadSends(w, affected[0], c);
      ReloadExtends(w1, affected[1..], c);
      ExtendsTwice(w, w1, w2, c, Sends(w, w1, c), Sends(w1, w2, c));
      ExtendsSends(w, w2, c, Sends(w, w1, c) + Sends(w1, w2, c));
    }
  }

  lemma ReloadSends(w: World, q: PrimPath, c: ConnectionId)
    requires c in w.clients
    ensures Extends(w, ReloadOne(w, q), c, Sends(w, ReloadOne(w, q), c)) && Silent(Sends(w, ReloadOne(w, q), c))
  {
    BroadcastExtends(w, q, 0, c);
  }

  // ------------------------------------------------------------------
  // Every step tells the truth about the request it answers
  // ------------------------------------------------------------------

  /** What a step that leads from `w` to `w'` sends to `c`: one Ack if it answers a request of `c`. */
  ghost predicate TellsAll(w: World, s: Step, w': World, c: ConnectionId) {
    && Extends(w, w', c, Sends(w, w', c))
    && var us, acks := Asked(w, s, c), AcksOf(Sends(w, w', c));
       |acks| == |us| && (us != [] ==> Tells(w, s, w', us[0], acks[0]))
  }

  lemma TellsNothing(w: World, s: Step, w': World, c: ConnectionId, fs: seq<Frame>)
    requires Extends(w, w', c, fs) && Silent(fs) && Asked(w, s, c) == []
    ensures TellsAll(w, s, w', c)
  {
    ExtendsSends(w, w', c, fs);
    NoAcks(fs);
  }

  lemma TellsOne(
    w: World, s: Step, w': World, c: ConnectionId, before: seq<Frame>, a: Frame, after: seq<Frame>, u: Update)
    requires Extends(w, w', c, before + [a] + after) && Silent(before) && Silent(after)
    requires Asked(w, s, c) == [u] && Tells(w, s, w', u, a)
    ensures TellsAll(w, s, w', c)
  {
    ExtendsSends(w, w', c, before + [a] + after);
    AcksAround(before, a, after);
  }

  lemma {:induction false} AcksAround(before: seq<Frame>, a: Frame, after: seq<Frame>)
    requires Silent(before) && Silent(after) && a.Ack?
    ensures AcksOf(before + [a] + after) == [a]
    decreases |before|
  {
    var fs := before + [a] + after;
    if before == [] {
      assert fs[0] == a && fs[1..] == after;
      NoAcks(after);
    } else {
      assert fs[0] == before[0] && fs[1..] == before[1..] + [a] + after;
      assert before[0] in before && forall f | f in before[1..] :: f in before;
      AcksAround(before[1..], a, after);
    }
  }

  lemma ChangeBounded(b: Book, s: nat, p: PrimPath)
    requires BookInv(b, s)
    ensures PrimEntry(b, p).lastChangeSeq <= s
  {
    var c := PrimEntry(b, p).lastWriter + 1;
    assert Notice(b, c, p) <= s;
  }

  lemma AppliedTells(w: World, o: ConnectionId, u: Update)
    requires u.Update? && Readable(w, u.prim) && Check(w.book, o, u.prim, u.base) == Current
    ensures Published(w, HandleTransform(w, o, u, true), u)
    ensures HandleTransform(w, o, u, true).serverSeq == w.serverSeq + 1
  {
    AppliedIs(w, o, u);
  }

  lemma RefusedTells(w: World, o: ConnectionId, u: Update)
    requires u.Update? && Check(w.book, o, u.prim, u.base) != Current
    ensures var w' := HandleTransform(w, o, u, false); Untouched(w, w') && w'.serverSeq == w.serverSeq
    ensures HandleTransform(w, o, u, false) == SendAck(w, o, u.requestId, false)
  {
  }

  lemma FailedTells(w: World, o: ConnectionId, u: Update)
    requires u.Update? && Check(w.book, o, u.prim, u.base) == Current && BookInv(w.book, w.serverSeq)
    ensures var w' := HandleTransform(w, o, u, false); Untouched(w, w') && !NewVersion(w, w', u.prim)
  {
    ChangeBounded(w.book, w.serverSeq, u.prim);
  }

  lemma EditTells(w: World, o: ConnectionId, u: Update, q: PrimPath, e: SceneEffect)
    requires !e.NoChange? && (e.Created? ==> !Exists(w, q))
    ensures Edited(w, HandleScene(w, o, u, q, e), q)
  {
  }

  lemma TransformTells(w: World, s: Step, c: ConnectionId)
    requires Possible(w, s) && s.Transformed? && c in w.clients && BookInv(w.book, w.serverSeq)
    ensures TellsAll(w, s, Next(w, s), c)
  {
    var w1, o, u := Pop(w), w.queue[0].origin, w.queue[0].update;
    if Check(w.book, o, u.prim, u.base) != Current {
      var a := Ack(w.serverSeq, u.requestId, false);
      RefusedTells(w1, o, u);
      AckExtends(w1, o, u.requestId, false, c);
      assert [] + [a] + [] == [a];
      SentTold(w, s, w1, HandleTransform(w1, o, u, s.ok), c, [], a, [], []);
    } else if s.ok {
      AppliedSent(w, s, c);
    } else {
      FailedSent(w, s, c);
    }
  }

  lemma AppliedSent(w: World, s: Step, c: ConnectionId)
    requires Possible(w, s) && s == Transformed(true) && c in w.clients
    requires Check(w.book, w.queue[0].origin, w.queue[0].update.prim, w.queue[0].update.base) == Current
    ensures TellsAll(w, s, HandleTransform(Pop(w), w.queue[0].origin, w.queue[0].update, true), c)
  {
    var w1, o, u := Pop(w), w.queue[0].origin, w.queue[0].update;
    AppliedTells(w1, o, u);
    AppliedExtends(w1, o, u, c);
    var a := Ack(w.serverSeq + 1, u.requestId, true);
    assert [] + [a] + [] == [a];
    SentTold(w, s, w1, HandleTransform(w1, o, u, true), c, [], a, [],
             [Xform(w.serverSeq + 1, u.prim, w.narrow(w.narrow(u.value)))]);
  }

  lemma FailedSent(w: World, s: Step, c: ConnectionId)
    requires Possible(w, s) && s == Transformed(false) && c in w.clients && BookInv(w.book, w.serverSeq)
    requires Check(w.book, w.queue[0].origin, w.queue[0].update.prim, w.queue[0].update.base) == Current
    ensures TellsAll(w, s, HandleTransform(Pop(w), w.queue[0].origin, w.queue[0].update, false), c)
  {
    var w1, o, u := Pop(w), w.queue[0].origin, w.queue[0].update;
    FailedTells(w1, o, u);
    FailedExtends(w1, o, u, c);
    var a := Ack(w.serverSeq, u.requestId, false);
    var more := if Readable(w1, u.prim) then [CorrectionOf(w1, u.prim)] else [];
    assert [] + [a] + more == [a] + more;
    SentTold(w, s, w1, HandleTransform(w1, o, u, false), c, [], a, more, []);
  }

  /** The origin of the oldest command gets `a` between other frames, another client gets `news`. */
  lemma SentTold(
    w: World, s: Step, w1: World, w': World, c: ConnectionId, before: seq<Frame>, a: Frame, after: seq<Frame>,
    news: seq<Frame>)
    requires w.queue != [] && w.queue[0].EditCommand? && (s.Transformed? || s.SceneEdited?)
    requires w1 == w.(queue := w1.queue) && Silent(before) && Silent(after) && Silent(news)
    requires Extends(w1, w', c, if c == w.queue[0].origin then before + [a] + after else news)
    requires Tells(w, s, w', w.queue[0].update, a)
    ensures TellsAll(w, s, w', c)
  {
    if c == w.queue[0].origin {
      TellsOne(w, s, w', c, before, a, after, w.queue[0].update);
    } else {
      TellsNothing(w, s, w', c, news);
    }
  }

  lemma UnchangedTells(w: World, s: Step, c: ConnectionId)
    requires Possible(w, s) && s.SceneEdited? && s.effect.NoChange? && c in w.clients
    ensures TellsAll(w, s, Next(w, s), c)
  {
    var w1, o, u := Pop(w), w.queue[0].origin, w.queue[0].update;
    var a := Ack(w.serverSeq, u.requestId, s.effect.ok);
    AckExtends(w1, o, u.requestId, s.effect.ok, c);
    assert [] + [a] + [] == [a];
    SentTold(w, s, w1, SendAck(w1, o, u.requestId, s.effect.ok), c, [], a, [], []);
  }

  lemma EditedTold(w: World, s: Step, a: Frame)
    requires Possible(w, s) && s.SceneEdited? && !s.effect.NoChange?
    requires a == Ack(w.serverSeq + 1, w.queue[0].update.requestId, true)
    ensures Tells(w, s, HandleScene(Pop(w), w.queue[0].origin, w.queue[0].update, s.prim, s.effect),
                  w.queue[0].update, a)
  {
    EditTells(Pop(w), w.queue[0].origin, w.queue[0].update, s.prim, s.effect);
  }

  lemma SceneTells(w: World, s: Step, c: ConnectionId)
    requires Possible(w, s) && s.SceneEdited? && !s.effect.NoChange? && c in w.clients
    ensures TellsAll(w, s, HandleScene(Pop(w), w.queue[0].origin, w.queue[0].update, s.prim, s.effect), c)
  {
    var w1, o, u := Pop(w), w.queue[0].origin, w.queue[0].update;
    var f, a := SceneFrame(w1, s.prim, s.effect), Ack(w.serverSeq + 1, u.requestId, true);
    EditedTold(w, s, a);
    EditedExtends(w1, o, u, s.prim, s.effect, c);
    assert [f] + [a] + [] == [f] + [a] && [f] + [] == [f];
    SentTold(w, s, w1, HandleScene(w1, o, u, s.prim, s.effect), c, [f], a, [], [f]);
  }

  lemma RejectTells(w: World, s: Step, c: ConnectionId)
    requires Possible(w, s) && s.Reject? && c in w.clients
    ensures TellsAll(w, s, Next(w, s), c)
  {
    if c == s.c {
      var u := w.clients[c].out[0];
      var a := Ack(0, u.requestId, false);
      assert [] + [a] + [] == [a];
      TellsOne(w, s, Next(w, s), c, [], a, [], u);
    } else {
      TellsNothing(w, s, Next(w, s), c, []);
    }
  }

  lemma JoinTells(w: World, s: Step, c: ConnectionId)
    requires Possible(w, s) && s.Joined? && c in w.clients
    ensures TellsAll(w, s, Next(w, s), c)
  {
    TellsNothing(w, s, Next(w, s), c,
                 if c == w.queue[0].connection then [Snapshot(w.serverSeq, SnapshotValues(Pop(w)))] else []);
  }

  lemma ReloadTells(w: World, s: Step, c: ConnectionId)
    requires Possible(w, s) && s.Reloaded? && c in w.clients
    ensures TellsAll(w, s, Next(w, s), c)
  {
    var w1 := Numbered(Replaced(Pop(w), s.newRoot, s.inactive), s.affected);
    ReloadExtends(w1, s.affected, c);
    SameExtends(w, w1, Next(w, s), c, Sends(w1, Next(w, s), c));
    TellsNothing(w, s, Next(w, s), c, Sends(w1, Next(w, s), c));
  }

  lemma CorrectedTells(w: World, s: Step, c: ConnectionId)
    requires Possible(w, s) && s.Corrected? && c in w.clients
    ensures TellsAll(w, s, Next(w, s), c)
  {
    var w1, a, p := w.(consumer := Idle), w.consumer.connection, w.consumer.prim;
    CorrectionExtends(w1, a, p, c);
    TellsNothing(w, s, Next(w, s), c, if c == a && Readable(w1, p) then [CorrectionOf(w1, p)] else []);
  }

  lemma QuietExtends(w: World, s: Step, c: ConnectionId)
    requires Possible(w, s) && !ConsumerStep(s) && !s.Reject?
    requires c in w.clients && c in Next(w, s).clients && c != w.nextConnection
    ensures Next(w, s).clients[c].hist == w.clients[c].hist
  {
  }

  lemma QuietTells(w: World, s: Step, c: ConnectionId)
    requires Possible(w, s) && !ConsumerStep(s) && !s.Reject?
    requires c in w.clients && c in Next(w, s).clients && c != w.nextConnection
    ensures TellsAll(w, s, Next(w, s), c)
  {
    QuietExtends(w, s, c);
    TellsNothing(w, s, Next(w, s), c, []);
  }

  /**
   Each step sends one Ack for each request it answers and no other, and the Ack says what
   became of the request: ok for an update exactly if it is in the session layer under a new
   version, ok for an edit exactly if the scene was edited or was as requested; after
   anything else nothing has changed.
   */
  lemma StepTells(w: World, s: Step, c: ConnectionId)
    requires StructureInv(w) && Possible(w, s) && c in w.clients && c in Next(w, s).clients
    ensures TellsAll(w, s, Next(w, s), c)
  {
    assert 0 < c < w.nextConnection;
    if s.Transformed? {
      TransformTells(w, s, c);
    } else if s.SceneEdited? && s.effect.NoChange? {
      UnchangedTells(w, s, c);
    } else if s.SceneEdited? {
      SceneTells(w, s, c);
    } else if s.Reject? {
      RejectTells(w, s, c);
    } else if s.Joined? {
      JoinTells(w, s, c);
    } else if s.Reloaded? {
      ReloadTells(w, s, c);
    } else if s.Corrected? {
      CorrectedTells(w, s, c);
    } else {
      QuietTells(w, s, c);
    }
  }

  lemma {:induction false} AckFound(fs: seq<Frame>, f: Frame)
    requires f in fs && f.Ack?
    ensures f in AcksOf(fs)
    decreases |fs|
  {
    if fs[0] != f {
      AckFound(fs[1..], f);
    }
  }

  /** Frame `i` in the channel of `c` was sent at step `m`. */
  ghost predicate SentAt(ws: seq<World>, steps: seq<Step>, m: nat, c: ConnectionId, i: nat)
    requires |ws| == |steps| + 1
  {
    && m < |steps| && c in ws[m].clients && c in ws[m + 1].clients
    && |ws[m].clients[c].hist| <= i < |ws[m + 1].clients[c].hist|
  }

  /** Every Ack in any channel answers one request of that client, and tells what became of it. */
  lemma {:induction false} AckTells(ws: seq<World>, steps: seq<Step>, k: nat, c: ConnectionId, i: nat)
    returns (m: nat, u: Update)
    requires IsRun(ws, steps) && k < |ws| && c in ws[k].clients
    requires i < |ws[k].clients[c].hist| && ws[k].clients[c].hist[i].Ack?
    ensures m < k && SentAt(ws, steps, m, c, i) && Asked(ws[m], steps[m], c) == [u]
    ensures Tells(ws[m], steps[m], ws[m + 1], u, ws[k].clients[c].hist[i])
    decreases k
  {
    m := k - 1;
    AttachedBefore(ws, steps, k, c);
    RunTells(ws, steps, m, c);
    if i < |ws[m].clients[c].hist| {
      m, u := AckTells(ws, steps, k - 1, c, i);
    } else {
      AckFound(Sends(ws[m], ws[k], c), ws[k].clients[c].hist[i]);
      u := Asked(ws[m], steps[m], c)[0];
    }
  }

  lemma RunTells(ws: seq<World>, steps: seq<Step>, k: nat, c: ConnectionId)
    requires IsRun(ws, steps) && k < |steps| && c in ws[k].clients && c in ws[k + 1].clients
    ensures TellsAll(ws[k], steps[k], ws[k + 1], c)
  {
    RunKeepsInv(ws, steps, k);
    assert StepAt(ws, steps, k);
    StepTells(ws[k], steps[k], c);
  }

  /** Who has been sent something was there before. */
  lemma AttachedBefore(ws: seq<World>, steps: seq<Step>, k: nat, c: ConnectionId)
    requires IsRun(ws, steps) && k < |ws| && c in ws[k].clients && ws[k].clients[c].hist != []
    ensures k > 0 && c in ws[k - 1].clients
  {
    if k > 0 && c !in ws[k - 1].clients {
      assert StepAt(ws, steps, k - 1);
      AttachedEmpty(ws[k - 1], steps[k - 1], c);
    }
  }

  lemma AttachedEmpty(w: World, s: Step, c: ConnectionId)
    requires Possible(w, s) && c !in w.clients && c in Next(w, s).clients
    ensures Next(w, s).clients[c].hist == []
  {
  }

  // ------------------------------------------------------------------
  // Every frame tells the truth
  // ------------------------------------------------------------------

  /** The frame carries what the server has in `w`, under its version. */
  ghost predicate Truthful(w: World, f: Frame) {
    match f
    case Xform(s, p, v) => s == w.serverSeq && Readable(w, p) && v == w.narrow(Resolved(w, p))
    case CreateFrame(s, p) => s == w.serverSeq && p in w.created && Resolved(w, p) == IDENTITY
    case ActiveFrame(s, p, active) => s == w.serverSeq && (active <==> p !in w.inactive)
    case Snapshot(s, values) =>
      && s == w.serverSeq && values.Keys == w.announced.Keys + w.created
      && forall p | p in values :: values[p] == if p in w.announced then w.announced[p] else IDENTITY
    case Ack(s, _, _) => s <= w.serverSeq
  }

  ghost predicate AllTruthful(w: World, fs: seq<Frame>) {
    forall f | f in fs :: Truthful(w, f)
  }

  /** What frames are about is the same. */
  lemma TruthfulSame(w: World, w': World, fs: seq<Frame>)
    requires AllTruthful(w, fs)
    requires w' == w.(clients := w'.clients, book := w'.book, queue := w'.queue, consumer := w'.consumer,
                      astray := w'.astray)
    ensures AllTruthful(w', fs)
  {
    forall f | f in fs ensures Truthful(w', f) {
      assert Truthful(w, f);
      assert f.Xform? ==> Readable(w', f.prim) == Readable(w, f.prim);
    }
  }

  lemma {:induction false} ReloadTruthful(w: World, affected: seq<PrimPath>, c: ConnectionId)
    requires c in w.clients
    ensures AllTruthful(ReloadLoop(w, affected), Sends(w, ReloadLoop(w, affected), c))
    ensures var w' := ReloadLoop(w, affected); w' == w.(clients := w'.clients, book := w'.book, astray := w'.astray)
    decreases |affected|
  {
    if affected != [] {
      var w1 := ReloadOne(w, affected[0]);
      var w2 := ReloadLoop(w1, affected[1..]);
      ReloadSends(w, affected[0], c);
      OneTruthful(w, affected[0], c);
      ReloadTruthful(w1, affected[1..], c);
      TruthfulSame(w1, w2, Sends(w, w1, c));
      ReloadExtends(w1, affected[1..], c);
      ExtendsTwice(w, w1, w2, c, Sends(w, w1, c), Sends(w1, w2, c));
      ExtendsSends(w, w2, c, Sends(w, w1, c) + Sends(w1, w2, c));
    } else {
      ExtendsSends(w, w, c, []);
    }
  }

  lemma OneTruthful(w: World, q: PrimPath, c: ConnectionId)
    requires c in w.clients
    ensures AllTruthful(ReloadOne(w, q), Sends(w, ReloadOne(w, q), c))
    ensures var w' := ReloadOne(w, q); w' == w.(clients := w'.clients, book := w'.book, astray := w'.astray)
  {
    BroadcastExtends(w, q, 0, c);
    var w1 := ReloadOne(w, q);
    assert Readable(w1, q) == Readable(w, q);
  }

  lemma AppliedTruthful(w: World, o: ConnectionId, u: Update, c: ConnectionId)
    requires u.Update? && Readable(w, u.prim) && Check(w.book, o, u.prim, u.base) == Current && c in w.clients
    ensures var w' := HandleTransform(w, o, u, true); AllTruthful(w', Sends(w, w', c))
  {
    AppliedExtends(w, o, u, c);
    AppliedTells(w, o, u);
    AppliedReadable(w, o, u);
  }

  lemma AppliedReadable(w: World, o: ConnectionId, u: Update)
    requires u.Update? && Readable(w, u.prim) && Check(w.book, o, u.prim, u.base) == Current
    ensures Readable(HandleTransform(w, o, u, true), u.prim) && HandleTransform(w, o, u, true).narrow == w.narrow
  {
    AppliedIs(w, o, u);
  }

  lemma CorrectionTruthful(w: World, a: ConnectionId, p: PrimPath, c: ConnectionId)
    requires c in w.clients
    ensures var w' := SendCorrection(w, a, p); AllTruthful(w', Sends(w, w', c))
  {
    CorrectionExtends(w, a, p, c);
    if c == a && Readable(w, p) {
      CorrectionIsTrue(w, a, p);
    }
  }

  lemma CorrectionIsTrue(w: World, a: ConnectionId, p: PrimPath)
    requires a in w.clients && Readable(w, p)
    ensures Truthful(SendCorrection(w, a, p), CorrectionOf(w, p))
  {
    assert Readable(SendCorrection(w, a, p), p);
  }

  lemma UnappliedTruthful(w: World, o: ConnectionId, u: Update, c: ConnectionId)
    requires u.Update? && c in w.clients
    requires Check(w.book, o, u.prim, u.base) != Current
    ensures var w' := HandleTransform(w, o, u, false); AllTruthful(w', Sends(w, w', c))
  {
    RefusedTells(w, o, u);
    AckExtends(w, o, u.requestId, false, c);
  }

  lemma FailedTruthful(w: World, o: ConnectionId, u: Update, c: ConnectionId)
    requires u.Update? && c in w.clients && Check(w.book, o, u.prim, u.base) == Current
    ensures var w' := HandleTransform(w, o, u, false); AllTruthful(w', Sends(w, w', c))
  {
    var w1 := SendAck(w, o, u.requestId, false);
    FailedExtends(w, o, u, c);
    SameCorrection(w, o, u.requestId, u.prim);
    if c == o && Readable(w, u.prim) {
      CorrectionIsTrue(w1, o, u.prim);
    }
  }

  lemma SameCorrection(w: World, o: ConnectionId, id: nat, p: PrimPath)
    ensures var w1 := SendAck(w, o, id, false);
            && Readable(w1, p) == Readable(w, p) && CorrectionOf(w1, p) == CorrectionOf(w, p)
            && w1.serverSeq == w.serverSeq && w1.clients.Keys == w.clients.Keys
            && SendCorrection(w1, o, p).serverSeq >= w.serverSeq
  {
  }

  lemma SceneTruthful(w: World, q: PrimPath, o: ConnectionId, e: SceneEffect, c: ConnectionId)
    requires c in w.clients && (e.Created? ==> !Exists(w, q) && q !in w.session)
    ensures Truthful(BroadcastScene(w, q, o, e), SceneFrame(w, q, e))
  {
  }

  lemma EditTruthful(w: World, o: ConnectionId, u: Update, q: PrimPath, e: SceneEffect, c: ConnectionId)
    requires c in w.clients && !e.NoChange? && (e.Created? ==> !Exists(w, q) && q !in w.session)
    ensures var w' := HandleScene(w, o, u, q, e); AllTruthful(w', Sends(w, w', c))
  {
    SceneTruthful(w, q, o, e, c);
    EditedExtends(w, o, u, q, e, c);
    var w1 := BroadcastScene(w, q, o, e);
    AckKeepsTruth(w1, o, u.requestId, true, [SceneFrame(w, q, e)]);
    assert HandleScene(w, o, u, q, e) == SendAck(w1, o, u.requestId, true);
  }

  lemma AckKeepsTruth(w: World, a: ConnectionId, id: nat, ok: bool, fs: seq<Frame>)
    requires AllTruthful(w, fs)
    ensures AllTruthful(SendAck(w, a, id, ok), fs) && SendAck(w, a, id, ok).serverSeq == w.serverSeq
  {
    TruthfulSame(w, SendAck(w, a, id, ok), fs);
  }

  lemma SameSends(w: World, w1: World, w': World, c: ConnectionId)
    requires w1.clients == w.clients
    ensures Sends(w, w', c) == Sends(w1, w', c)
  {
  }

  lemma QueuedTruthful(w: World, s: Step, c: ConnectionId)
    requires Possible(w, s) && (s.Transformed? || s.SceneEdited?) && c in w.clients
    ensures AllTruthful(Next(w, s), Sends(w, Next(w, s), c))
  {
    var w1, o, u := Pop(w), w.queue[0].origin, w.queue[0].update;
    SameSends(w, w1, Next(w, s), c);
    if s.SceneEdited? {
      if s.effect.NoChange? {
        AckExtends(w1, o, u.requestId, s.effect.ok, c);
      } else {
        EditTruthful(w1, o, u, s.prim, s.effect, c);
      }
    } else if Check(w.book, o, u.prim, u.base) != Current {
      UnappliedTruthful(w1, o, u, c);
    } else if s.ok {
      AppliedTruthful(w1, o, u, c);
    } else {
      FailedTruthful(w1, o, u, c);
    }
  }

  /** Whatever a step sends is what the server has after it, under the version it has then. */
  lemma FramesTell(w: World, s: Step, c: ConnectionId)
    requires StructureInv(w) && Possible(w, s) && c in w.clients && c in Next(w, s).clients
    ensures AllTruthful(Next(w, s), Sends(w, Next(w, s), c))
  {
    assert 0 < c < w.nextConnection;
    if s.Transformed? || s.SceneEdited? {
      QueuedTruthful(w, s, c);
    } else if s.Joined? {
      JoinTruthful(w, s, c);
    } else if s.Reloaded? {
      ReloadedTruthful(w, s, c);
    } else if s.Corrected? {
      CorrectedTruthful(w, s, c);
    } else if s.Reject? {
      RejectTruthful(w, s, c);
    } else {
      QuietTruthful(w, s, c);
    }
  }

  lemma QuietTruthful(w: World, s: Step, c: ConnectionId)
    requires Possible(w, s) && !ConsumerStep(s) && !s.Reject?
    requires c in w.clients && c in Next(w, s).clients && c != w.nextConnection
    ensures Sends(w, Next(w, s), c) == []
  {
    QuietExtends(w, s, c);
  }

  lemma ReloadedTruthful(w: World, s: Step, c: ConnectionId)
    requires Possible(w, s) && s.Reloaded? && c in w.clients
    ensures AllTruthful(Next(w, s), Sends(w, Next(w, s), c))
  {
    var w1 := Numbered(Replaced(Pop(w), s.newRoot, s.inactive), s.affected);
    SameSends(w, w1, Next(w, s), c);
    ReloadTruthful(w1, s.affected, c);
  }

  lemma CorrectedTruthful(w: World, s: Step, c: ConnectionId)
    requires Possible(w, s) && s.Corrected? && c in w.clients
    ensures AllTruthful(Next(w, s), Sends(w, Next(w, s), c))
  {
    var w1 := w.(consumer := Idle);
    SameSends(w, w1, Next(w, s), c);
    CorrectionTruthful(w1, w.consumer.connection, w.consumer.prim, c);
  }

  lemma JoinTruthful(w: World, s: Step, c: ConnectionId)
    requires Possible(w, s) && s.Joined? && c in w.clients
    ensures AllTruthful(Next(w, s), Sends(w, Next(w, s), c))
  {
    JoinTells(w, s, c);
    ExtendsSends(w, Next(w, s), c,
                 if c == w.queue[0].connection then [Snapshot(w.serverSeq, SnapshotValues(Pop(w)))] else []);
  }

  lemma RejectTruthful(w: World, s: Step, c: ConnectionId)
    requires Possible(w, s) && s.Reject? && c in w.clients
    ensures AllTruthful(Next(w, s), Sends(w, Next(w, s), c))
  {
    ExtendsSends(w, Next(w, s), c, if c == s.c then [Ack(0, w.clients[c].out[0].requestId, false)] else []);
  }

  // ------------------------------------------------------------------
  // What a reload tells
  // ------------------------------------------------------------------

  /** Frames sent in the first part were sent. */
  lemma StateEarlier(w0: World, w1: World, w2: World, c: ConnectionId, p: PrimPath)
    requires c in w2.clients && StateSent(w0, w1, c, p) && w1.clients[c].hist <= w2.clients[c].hist
    ensures StateSent(w0, w2, c, p)
  {
    var i :| |w0.clients[c].hist| <= i < |w1.clients[c].hist| && Touches(w1.clients[c].hist[i], p);
    assert w2.clients[c].hist[i] == w1.clients[c].hist[i];
  }

  lemma StateLater(w0: World, w1: World, w2: World, c: ConnectionId, p: PrimPath)
    requires c in w0.clients && StateSent(w1, w2, c, p) && w0.clients[c].hist <= w1.clients[c].hist
    ensures StateSent(w0, w2, c, p)
  {
  }

  lemma OneSent(w: World, q: PrimPath, c: ConnectionId, p: PrimPath)
    requires c in w.clients && c != 0 && MaxSent(w.book, c) <= w.serverSeq && Notice(w.book, c, p) <= w.serverSeq
    ensures var w1 := ReloadOne(w, q);
            && (q == p && p !in w.session && Readable(w, p) ==> StateSent(w, w1, c, p))
            && Notice(w1.book, c, p) == (if q == p && p !in w.session then w.serverSeq else Notice(w.book, c, p))
            && MaxSent(w1.book, c) <= w.serverSeq && w1.serverSeq == w.serverSeq
            && w.clients[c].hist <= w1.clients[c].hist
  {
    if q !in w.session {
      BroadcastExtends(w, q, 0, c);
      BroadcastNotice(w.book, q, w.serverSeq, 0, w.clients.Keys - {0}, c, p);
      if Readable(w, q) {
        SentHere(w, q, c);
      }
    }
  }

  lemma SentHere(w: World, q: PrimPath, c: ConnectionId)
    requires c in w.clients && c != 0 && Readable(w, q)
    ensures StateSent(w, BroadcastChange(w, q, 0), c, q)
  {
    BroadcastExtends(w, q, 0, c);
    var w1 := BroadcastChange(w, q, 0);
    assert Touches(w1.clients[c].hist[|w.clients[c].hist|], q);
  }

  lemma {:induction false} LoopSent(w: World, affected: seq<PrimPath>, c: ConnectionId, p: PrimPath)
    requires c in w.clients && c != 0 && MaxSent(w.book, c) <= w.serverSeq && Notice(w.book, c, p) <= w.serverSeq
    ensures var w', here := ReloadLoop(w, affected), p in affected && p !in w.session;
            && (StateSent(w, w', c, p) <==> here && Readable(w, p))
            && Notice(w'.book, c, p) == if here then w.serverSeq else Notice(w.book, c, p)
    decreases |affected|
  {
    ReloadStates(w, affected, c, p);
    if affected != [] {
      var q, rest, w1 := affected[0], affected[1..], ReloadOne(w, affected[0]);
      OneSent(w, q, c, p);
      ReloadOneStage(w, q, c, p);
      LoopSent(w1, rest, c, p);
      ReloadStates(w1, rest, c, p);
      assert p in affected <==> p == q || p in rest;
      if StateSent(w, w1, c, p) {
        StateEarlier(w, w1, ReloadLoop(w1, rest), c, p);
      }
      if StateSent(w1, ReloadLoop(w1, rest), c, p) {
        StateLater(w, w1, ReloadLoop(w1, rest), c, p);
      }
    }
  }

  /**
   A reload takes one version if its notice names any prim. It sends a client the state of
   exactly the named prims that the session does not override and that can be read, and
   outdates the client's updates of exactly the named prims that the session does not override.
   */
  lemma ReloadExactly(w: World, s: Step, c: ConnectionId, p: PrimPath)
    requires StructureInv(w) && Possible(w, s) && s.Reloaded? && c in w.clients
    ensures var w', here := Next(w, s), p in s.affected && p !in w.session;
            && w'.serverSeq == w.serverSeq + (if s.affected == [] then 0 else 1)
            && (StateSent(w, w', c, p) <==> here && Readable(Replaced(w, s.newRoot, s.inactive), p))
            && Notice(w'.book, c, p) == if here then w'.serverSeq else Notice(w.book, c, p)
  {
    var w1 := Numbered(Replaced(Pop(w), s.newRoot, s.inactive), s.affected);
    assert 0 < c && Notice(w.book, c, p) <= w.serverSeq && MaxSent(w.book, c) <= w.serverSeq;
    LoopSent(w1, s.affected, c, p);
    SentSince(w, w1, Next(w, s), c, p);
    assert Readable(w1, p) == Readable(Replaced(w, s.newRoot, s.inactive), p);
  }

  lemma SentSince(w: World, w1: World, w': World, c: ConnectionId, p: PrimPath)
    requires w1.clients == w.clients
    ensures StateSent(w, w', c, p) == StateSent(w1, w', c, p)
  {
  }
}
