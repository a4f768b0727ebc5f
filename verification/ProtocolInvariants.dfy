/**
 What every step of the update protocol keeps, seen from one connection and one prim.
 `Local` is the part of the world that concerns them; each lemma is one way it can move.
 */
module ProtocolInvariants {
  import opened Versions
  import opened Protocol
  import opened Transforms

  /**
   `inFlight`: updates sent and not yet answered, oldest first. `notice`: the seq below
   which a base is stale. `value`, `carried`, `present`: the prim on the server, whether a
   join snapshot carries it, whether it exists at all. `due`: a correction is on its way.
   */
  datatype Local = Local(
    cl: Client, inFlight: seq<Update>, notice: nat, maxSent: nat, serverSeq: nat, value: Transform,
    carried: bool, present: bool, due: bool, astray: bool)

  /** What the client will show for `p` once it has processed `frames`. */
  function After(frames: seq<Frame>, p: PrimPath, cur: Transform): Transform {
    if frames == [] then cur else After(frames[1..], p, ShowFrame(frames[0], p, cur))
  }

  function Cur(cl: Client, p: PrimPath): Transform {
    if p in cl.shown then cl.shown[p] else IDENTITY
  }

  function View(cl: Client, p: PrimPath): Transform
    requires cl.received <= |cl.hist|
  {
    After(cl.hist[cl.received..], p, Cur(cl, p))
  }

  lemma {:induction false} AfterAppend(frames: seq<Frame>, f: Frame, p: PrimPath, cur: Transform)
    ensures After(frames + [f], p, cur) == ShowFrame(f, p, After(frames, p, cur))
    decreases |frames|
  {
    if frames == [] {
      assert frames + [f] == [f];
      assert After([f], p, cur) == After([f][1..], p, ShowFrame(f, p, cur));
    } else {
      assert (frames + [f])[1..] == frames[1..] + [f];
      AfterAppend(frames[1..], f, p, ShowFrame(frames[0], p, cur));
    }
  }

  lemma {:induction false} AfterUntouched(frames: seq<Frame>, p: PrimPath, cur: Transform)
    requires forall f | f in frames :: !Touches(f, p)
    ensures After(frames, p, cur) == cur
    decreases |frames|
  {
    if frames != [] {
      assert frames[0] in frames;
      AfterUntouched(frames[1..], p, cur);
    }
  }

  lemma {:induction false} AfterTouched(frames: seq<Frame>, p: PrimPath, a: Transform, b: Transform)
    requires exists f :: f in frames && Touches(f, p)
    ensures After(frames, p, a) == After(frames, p, b)
    decreases |frames|
  {
    if !Touches(frames[0], p) {
      AfterTouched(frames[1..], p, ShowFrame(frames[0], p, a), ShowFrame(frames[0], p, b));
    }
  }

  lemma ViewDelivered(cl: Client, f: Frame, p: PrimPath)
    requires cl.received <= |cl.hist|
    ensures View(Deliver(cl, f), p) == ShowFrame(f, p, View(cl, p))
  {
    assert (cl.hist + [f])[cl.received..] == cl.hist[cl.received..] + [f];
    AfterAppend(cl.hist[cl.received..], f, p, Cur(cl, p));
  }

  /** Nothing unread about the prim: the client goes on showing what it shows. */
  lemma ViewIsCur(cl: Client, p: PrimPath)
    requires cl.received <= |cl.hist|
    requires forall i | cl.received <= i < |cl.hist| :: !Touches(cl.hist[i], p)
    ensures View(cl, p) == Cur(cl, p)
  {
    var rest := cl.hist[cl.received..];
    forall f | f in rest ensures !Touches(f, p) {
      var k :| 0 <= k < |rest| && rest[k] == f;
      assert f == cl.hist[cl.received + k];
    }
    AfterUntouched(rest, p, Cur(cl, p));
  }

  lemma {:induction false} LastOfTail(us: seq<Update>, p: PrimPath)
    requires us != []
    ensures LastOf(us[1..], p) != [] ==> LastOf(us, p) == LastOf(us[1..], p)
    ensures LastOf(us[1..], p) == [] ==> LastOf(us, p) == if Moves(us[0], p) then [us[0]] else []
  {
    if |us| > 1 && !Moves(us[|us| - 1], p) {
      assert us[1..][..|us| - 2] == us[..|us| - 1][1..];
      LastOfTail(us[..|us| - 1], p);
    }
  }

  // ------------------------------------------------------------------
  // Invariants
  // ------------------------------------------------------------------

  ghost predicate OrderInv(l: Local) {
    var cl := l.cl;
    && cl.received <= |cl.hist|
    && cl.lastSeq <= l.maxSent <= l.serverSeq && cl.regressions == 0
    && (forall i, j | 0 <= i < j < |cl.hist| && cl.hist[j].seq_ != 0 :: cl.hist[i].seq_ <= cl.hist[j].seq_)
    && (forall i | 0 <= i < |cl.hist| :: cl.hist[i].seq_ <= l.maxSent)
    && (forall i | 0 <= i < cl.received :: cl.hist[i].seq_ <= cl.lastSeq)
    && (forall i | cl.received <= i < |cl.hist| :: cl.hist[i].seq_ == 0 || cl.lastSeq <= cl.hist[i].seq_)
    && (cl.joined ==> cl.phase.SnapshotSent?)
    && (forall i | 0 <= i < |cl.hist| && cl.hist[i].Snapshot? ::
          cl.phase.SnapshotSent? && (cl.joined ==> i < cl.received))
    && (forall i, j | 0 <= i < j < |cl.hist| :: !(cl.hist[i].Snapshot? && cl.hist[j].Snapshot?))
  }

  ghost predicate UpdatesInv(l: Local) {
    && (l.inFlight != [] ==> l.cl.joined)
    && (forall j | 0 <= j < |l.inFlight| :: l.inFlight[j].base <= l.cl.lastSeq)
    && (forall j, k | 0 <= j < k < |l.inFlight| :: l.inFlight[j].base <= l.inFlight[k].base)
    && (forall i, j | 0 <= i < |l.cl.hist| && 0 <= j < |l.inFlight| && l.cl.hist[i].Snapshot? ::
          l.cl.hist[i].seq_ <= l.inFlight[j].base)
  }

  function Ids(us: seq<Update>): multiset<nat> {
    if us == [] then multiset{} else multiset{us[0].requestId} + Ids(us[1..])
  }

  function AckIds(fs: seq<Frame>): multiset<nat> {
    if fs == [] then multiset{}
    else (if fs[0].Ack? then multiset{fs[0].requestId} else multiset{}) + AckIds(fs[1..])
  }

  /** Every unanswered update is in flight, or its one Ack is. */
  ghost predicate AckInv(l: Local) {
    && l.cl.received <= |l.cl.hist| && l.cl.unknownAcks == 0
    && l.cl.unacked == Ids(l.inFlight) + AckIds(l.cl.hist[l.cl.received..])
  }

  ghost predicate ClientInv(l: Local) {
    OrderInv(l) && UpdatesInv(l) && AckInv(l)
  }

  /** The frames about `p`: no transform is newer than `notice`, none in flight is older than an update in flight. */
  ghost predicate FramesInv(l: Local, p: PrimPath) {
    var cl := l.cl;
    && cl.received <= |cl.hist| && l.notice <= l.serverSeq
    && (forall i | 0 <= i < |cl.hist| && cl.hist[i].Xform? && cl.hist[i].prim == p :: cl.hist[i].seq_ <= l.notice)
    && (forall i, u | cl.received <= i < |cl.hist| && !cl.hist[i].Snapshot? && Touches(cl.hist[i], p)
                      && u in l.inFlight && Moves(u, p) ::
          u.base < cl.hist[i].seq_)
  }

  /** A frame that brings the client to version `notice` of `p`. */
  ghost predicate Carries(f: Frame, p: PrimPath, notice: nat) {
    (f.Snapshot? || ((f.Xform? || f.CreateFrame? || f.ActiveFrame?) && f.prim == p)) && notice <= f.seq_
  }

  /** The client, or an update it sent, has not reached the notice. */
  ghost predicate Behind(l: Local, p: PrimPath) {
    l.cl.lastSeq < l.notice || exists u :: u in l.inFlight && Moves(u, p) && u.base < l.notice
  }

  /** Who is behind was sent what it is behind of. */
  ghost predicate Backed(l: Local, p: PrimPath) {
    l.cl.phase.SnapshotSent? && Behind(l, p) ==> exists i :: 0 <= i < |l.cl.hist| && Carries(l.cl.hist[i], p, l.notice)
  }

  /** A client that moves a prim has read that it was created. */
  ghost predicate Aware(l: Local, p: PrimPath) {
    forall i | l.cl.received <= i < |l.cl.hist| && l.cl.hist[i].CreateFrame? && l.cl.hist[i].prim == p
               && l.notice < l.cl.hist[i].seq_ ::
      LastOf(l.inFlight, p) == []
  }

  /** The client has the prim, or a frame that gives it is in flight. */
  ghost predicate Known(l: Local, p: PrimPath) {
    p in l.cl.shown || exists i :: l.cl.received <= i < |l.cl.hist| && Touches(l.cl.hist[i], p)
  }

  ghost predicate Shows(l: Local, p: PrimPath, narrow: Narrowing)
    requires l.cl.received <= |l.cl.hist|
  {
    narrow(View(l.cl, p)) == narrow(l.value)
  }

  /**
   Without an update of `p` in flight, or with one that will be found stale, the frames in
   flight lead to the server's value; otherwise the client shows the update it sent last.
   */
  ghost predicate Converging(l: Local, p: PrimPath, narrow: Narrowing)
    requires l.cl.received <= |l.cl.hist|
  {
    var last := LastOf(l.inFlight, p);
    if last == [] || last[0].base < l.notice then Shows(l, p, narrow) else Cur(l.cl, p) == last[0].value
  }

  /** Before its snapshot a client knows the file and nothing else. */
  ghost predicate Concerned(l: Local) {
    l.present && (l.cl.phase.SnapshotSent? || !l.carried)
  }

  ghost predicate PairInv(l: Local, p: PrimPath, narrow: Narrowing) {
    && FramesInv(l, p)
    && (!l.astray ==>
          && Backed(l, p) && Aware(l, p)
          && (Concerned(l) && !l.due ==> Known(l, p) && Converging(l, p, narrow)))
  }

  // ------------------------------------------------------------------
  // Moves of one connection
  // ------------------------------------------------------------------

  /** The server sends `f`, stamped 0 or with its current (possibly just advanced) version. */
  ghost predicate Delivered(l: Local, f: Frame, l': Local) {
    && l'.cl == Deliver(l.cl, f).(phase := l'.cl.phase, out := l'.cl.out, io := l'.cl.io)
    && l.serverSeq <= l'.serverSeq && l.maxSent <= l'.maxSent <= l'.serverSeq
    && (f.seq_ == 0 || f.seq_ == l'.serverSeq == l'.maxSent)
    && (if f.Snapshot?
        then l.inFlight == [] && !l.cl.phase.SnapshotSent? && l'.cl.phase == SnapshotSent && f.seq_ == l'.serverSeq
        else l'.cl.phase == l.cl.phase)
  }

  /** The prim itself is as before. */
  ghost predicate SamePrim(l: Local, l': Local) {
    && l'.value == l.value && l'.carried == l.carried && l'.present == l.present
    && l'.due == l.due && l'.astray == l.astray
  }

  lemma DeliveredOrder(l: Local, f: Frame, l': Local)
    requires OrderInv(l) && Delivered(l, f, l')
    ensures OrderInv(l')
  {
    var h, h' := l.cl.hist, l'.cl.hist;
    assert forall i | 0 <= i < |h| :: h'[i] == h[i];
    assert h'[|h|] == f && |h'| == |h| + 1;
  }

  lemma DeliveredUpdates(l: Local, f: Frame, l': Local)
    requires UpdatesInv(l) && Delivered(l, f, l') && l'.inFlight == l.inFlight
    ensures UpdatesInv(l')
  {
  }

  lemma {:induction false} AckIdsAppend(fs: seq<Frame>, f: Frame)
    ensures AckIds(fs + [f]) == AckIds(fs) + AckIds([f])
    decreases |fs|
  {
    if fs == [] {
      assert fs + [f] == [f];
    } else {
      assert (fs + [f])[1..] == fs[1..] + [f];
      AckIdsAppend(fs[1..], f);
    }
  }

  lemma {:induction false} IdsConcat(a: seq<Update>, b: seq<Update>)
    ensures Ids(a + b) == Ids(a) + Ids(b)
    decreases |a|
  {
    if a == [] {
      assert a + b == b;
    } else {
      assert (a + b)[1..] == a[1..] + b;
      IdsConcat(a[1..], b);
    }
  }

  /** A frame that is not an Ack, or the Ack of an update that leaves flight with it. */
  lemma DeliveredAcks(l: Local, f: Frame, l': Local)
    requires AckInv(l) && Delivered(l, f, l')
    requires Ids(l.inFlight) == Ids(l'.inFlight) + AckIds([f])
    ensures AckInv(l')
  {
    assert l'.cl.hist[l'.cl.received..] == l.cl.hist[l.cl.received..] + [f];
    AckIdsAppend(l.cl.hist[l.cl.received..], f);
  }

  lemma DeliveredClient(l: Local, f: Frame, l': Local)
    requires ClientInv(l) && !f.Ack? && Delivered(l, f, l') && l'.inFlight == l.inFlight
    ensures ClientInv(l')
  {
    DeliveredOrder(l, f, l');
    DeliveredUpdates(l, f, l');
    assert AckIds([f]) == AckIds([]);
    DeliveredAcks(l, f, l');
  }

  // What a delivered frame does to a pair

  /** The frames stay in order, whatever was delivered. */
  lemma DeliveredFrames(l: Local, f: Frame, l': Local, p: PrimPath)
    requires UpdatesInv(l) && FramesInv(l, p) && Delivered(l, f, l')
    requires l.notice <= l'.notice <= l'.serverSeq && (f.Xform? && f.prim == p ==> f.seq_ <= l'.notice)
    requires !f.Snapshot? && Touches(f, p) ==> l.cl.lastSeq < f.seq_
    requires forall u | u in l'.inFlight :: u in l.inFlight
    ensures FramesInv(l', p)
  {
    var h, h' := l.cl.hist, l'.cl.hist;
    assert forall i | 0 <= i < |h| :: h'[i] == h[i];
    assert h'[|h|] == f && |h'| == |h| + 1;
    forall u | u in l.inFlight ensures u.base <= l.cl.lastSeq {
      var j :| 0 <= j < |l.inFlight| && l.inFlight[j] == u;
    }
  }

  /** A frame that carries the notice backs whoever is behind. */
  lemma CarrierBacks(l: Local, p: PrimPath, i: nat)
    requires i < |l.cl.hist| && Carries(l.cl.hist[i], p, l.notice)
    ensures Backed(l, p)
  {
  }

  lemma BackedStays(l: Local, l': Local, p: PrimPath)
    requires Backed(l, p) && l.cl.hist <= l'.cl.hist && l'.notice == l.notice && l'.cl.lastSeq >= l.cl.lastSeq
    requires l'.cl.phase.SnapshotSent? ==> l.cl.phase.SnapshotSent?
    requires forall u | u in l'.inFlight && Moves(u, p) :: u in l.inFlight || u.base >= l.cl.lastSeq
    ensures Backed(l', p)
  {
    if l'.cl.phase.SnapshotSent? && Behind(l', p) {
      assert Behind(l, p);
      var i :| 0 <= i < |l.cl.hist| && Carries(l.cl.hist[i], p, l.notice);
      assert l'.cl.hist[i] == l.cl.hist[i];
    }
  }

  /** A frame that shows nothing about the prim. */
  lemma AwareStays(l: Local, f: Frame, l': Local, p: PrimPath)
    requires Aware(l, p) && Delivered(l, f, l') && !(f.CreateFrame? && f.prim == p)
    requires l.notice <= l'.notice && (LastOf(l.inFlight, p) == [] ==> LastOf(l'.inFlight, p) == [])
    ensures Aware(l', p)
  {
    assert forall i | 0 <= i < |l.cl.hist| :: l'.cl.hist[i] == l.cl.hist[i];
  }

  lemma KnownStays(l: Local, f: Frame, l': Local, p: PrimPath)
    requires Known(l, p) && Delivered(l, f, l')
    ensures Known(l', p)
  {
    if p !in l.cl.shown {
      var i :| l.cl.received <= i < |l.cl.hist| && Touches(l.cl.hist[i], p);
      assert l'.cl.hist[i] == l.cl.hist[i];
    }
  }

  lemma ViewKept(l: Local, f: Frame, l': Local, p: PrimPath)
    requires l.cl.received <= |l.cl.hist| && Delivered(l, f, l') && !Touches(f, p)
    ensures View(l'.cl, p) == View(l.cl, p) && Cur(l'.cl, p) == Cur(l.cl, p)
  {
    ViewDelivered(l.cl, f, p);
    assert View(l'.cl, p) == View(Deliver(l.cl, f), p);
  }

  /** A frame about something else leaves the pair alone. */
  lemma DeliveredOther(l: Local, f: Frame, l': Local, p: PrimPath, narrow: Narrowing)
    requires UpdatesInv(l) && PairInv(l, p, narrow) && Delivered(l, f, l') && !f.Snapshot? && !Touches(f, p)
    requires l'.inFlight == l.inFlight && l'.notice == l.notice && SamePrim(l, l')
    ensures PairInv(l', p, narrow)
  {
    DeliveredFrames(l, f, l', p);
    if !l.astray {
      BackedStays(l, l', p);
      AwareStays(l, f, l', p);
      ViewKept(l, f, l', p);
      if Concerned(l) && !l.due {
        KnownStays(l, f, l', p);
      }
    }
  }

  /** What `f` gives `p` is what the server has. */
  ghost predicate Gives(f: Frame, p: PrimPath, value: Transform, narrow: Narrowing) {
    && (f.Xform? || f.CreateFrame?) && f.prim == p
    && (if f.Xform? then f.value == narrow(value) else value == IDENTITY)
  }

  /** A new state of `p`, by a change someone else made or by a correction. */
  lemma DeliveredState(l: Local, f: Frame, l': Local, p: PrimPath, narrow: Narrowing)
    requires Idempotent(narrow) && OrderInv(l) && UpdatesInv(l) && FramesInv(l, p) && Delivered(l, f, l')
    requires Gives(f, p, l'.value, narrow) && f.seq_ == l'.notice == l'.serverSeq
    requires l.cl.lastSeq < f.seq_ && l.notice <= f.seq_ && l'.inFlight == l.inFlight
    ensures PairInv(l', p, narrow)
  {
    DeliveredFrames(l, f, l', p);
    assert l'.cl.hist[|l.cl.hist|] == f;
    CarrierBacks(l', p, |l.cl.hist|);
    StateAware(l, f, l', p);
    StateShown(l, f, l', p, narrow);
  }

  /** No frame is newer than the notice. */
  lemma StateAware(l: Local, f: Frame, l': Local, p: PrimPath)
    requires OrderInv(l) && Delivered(l, f, l') && l'.notice == l'.serverSeq
    ensures Aware(l', p)
  {
    DeliveredOrder(l, f, l');
  }

  lemma StateShown(l: Local, f: Frame, l': Local, p: PrimPath, narrow: Narrowing)
    requires Idempotent(narrow) && UpdatesInv(l) && l.cl.received <= |l.cl.hist| && Delivered(l, f, l')
    requires Gives(f, p, l'.value, narrow) && f.seq_ == l'.notice
    requires l.cl.lastSeq < f.seq_ && l'.inFlight == l.inFlight
    ensures Known(l', p) && Converging(l', p, narrow)
  {
    assert Touches(l'.cl.hist[|l.cl.hist|], p);
    ViewDelivered(l.cl, f, p);
    assert View(l'.cl, p) == View(Deliver(l.cl, f), p);
    var last := LastOf(l.inFlight, p);
    if last != [] {
      var j :| 0 <= j < |l.inFlight| && l.inFlight[j] == last[0];
    }
  }

  /** The creator's own creation: it does not outdate the creator's updates. */
  lemma DeliveredOwnCreate(l: Local, f: Frame, l': Local, p: PrimPath, narrow: Narrowing)
    requires UpdatesInv(l) && FramesInv(l, p) && Delivered(l, f, l') && f.CreateFrame? && f.prim == p
    requires f.seq_ == l'.serverSeq && l.cl.lastSeq < f.seq_ && l'.inFlight == l.inFlight && l'.notice == l.notice
    requires l'.value == IDENTITY && (!l'.astray ==> LastOf(l.inFlight, p) == [])
    ensures PairInv(l', p, narrow)
  {
    DeliveredFrames(l, f, l', p);
    assert l'.cl.hist[|l.cl.hist|] == f && Touches(f, p);
    CarrierBacks(l', p, |l.cl.hist|);
    ViewDelivered(l.cl, f, p);
    assert View(l'.cl, p) == View(Deliver(l.cl, f), p);
  }

  /** Someone else changed the active state: a client that does not move the prim is not concerned. */
  lemma DeliveredActive(l: Local, f: Frame, l': Local, p: PrimPath, narrow: Narrowing)
    requires UpdatesInv(l) && PairInv(l, p, narrow) && Delivered(l, f, l') && f.ActiveFrame? && f.prim == p
    requires f.seq_ == l'.serverSeq == l'.notice && l'.inFlight == l.inFlight
    requires SamePrim(l, l'.(astray := l.astray)) && l'.astray == (l.astray || LastOf(l.inFlight, p) != [])
    ensures PairInv(l', p, narrow)
  {
    DeliveredFrames(l, f, l', p);
    assert l'.cl.hist[|l.cl.hist|] == f;
    CarrierBacks(l', p, |l.cl.hist|);
    if !l'.astray {
      AwareStays(l, f, l', p);
      ViewKept(l, f, l', p);
      if Concerned(l) && !l.due {
        KnownStays(l, f, l', p);
      }
    }
  }

  /** The join snapshot: it gives what the layer announces. */
  lemma DeliveredSnapshot(l: Local, f: Frame, l': Local, p: PrimPath, narrow: Narrowing)
    requires UpdatesInv(l) && PairInv(l, p, narrow) && Delivered(l, f, l') && f.Snapshot? && !l.due
    requires l'.inFlight == l.inFlight && l'.notice == l.notice && SamePrim(l, l'.(astray := l.astray))
    requires p in f.values ==> l'.astray == (narrow(f.values[p]) != narrow(l.value))
    requires p !in f.values ==> l'.astray == l.astray && !l.carried
    ensures PairInv(l', p, narrow)
  {
    DeliveredFrames(l, f, l', p);
    assert l'.cl.hist[|l.cl.hist|] == f;
    CarrierBacks(l', p, |l.cl.hist|);
    ViewDelivered(l.cl, f, p);
    assert View(l'.cl, p) == View(Deliver(l.cl, f), p);
    if p in f.values {
      assert Touches(l'.cl.hist[|l.cl.hist|], p);
    } else if !l.astray && Concerned(l) {
      KnownStays(l, f, l', p);
    }
  }

  /** Only fields that the invariants do not read, and the server's version, differ. */
  ghost predicate SameFor(l: Local, l': Local) {
    && l'.cl.(io := l.cl.io, queued := l.cl.queued, out := l.cl.out, phase := l.cl.phase) == l.cl
    && l'.cl.phase.SnapshotSent? == l.cl.phase.SnapshotSent?
    && l'.(cl := l.cl, serverSeq := l.serverSeq) == l && l.serverSeq <= l'.serverSeq
  }

  lemma SameKeepsClient(l: Local, l': Local)
    requires ClientInv(l) && SameFor(l, l')
    ensures ClientInv(l')
  {
    assert l'.cl.hist == l.cl.hist && l'.cl.received == l.cl.received;
  }

  lemma SameKeepsPair(l: Local, l': Local, p: PrimPath, narrow: Narrowing)
    requires PairInv(l, p, narrow) && SameFor(l, l')
    ensures PairInv(l', p, narrow)
  {
    assert View(l'.cl, p) == View(l.cl, p);
    if !l.astray {
      BackedStays(l, l', p);
    }
  }

  /** A pair that goes astray, or is no longer due, or whose prim is gone, is promised less. */
  lemma LessPromised(l: Local, l': Local, p: PrimPath, narrow: Narrowing)
    requires PairInv(l, p, narrow) && l'.(astray := l.astray, present := l.present, value := l.value, due := l.due) == l
    requires !l'.astray ==> !l.astray && (l'.present ==> l.present && l'.value == l.value)
    requires !l'.astray && !l'.due ==> !l.due
    ensures PairInv(l', p, narrow)
  {
    if !l'.astray {
      BackedStays(l, l', p);
    }
  }

  /** A connection that just attached and shows the root layer. */
  lemma FreshClient(l: Local, p: PrimPath, narrow: Narrowing)
    requires l.cl.hist == [] && l.cl.received == 0 && l.inFlight == [] && l.cl.lastSeq == 0 && !l.cl.joined
    requires l.cl.unacked == multiset{} && l.cl.regressions == 0 && l.cl.unknownAcks == 0 && l.cl.phase.Attached?
    requires l.maxSent <= l.serverSeq && l.notice <= l.serverSeq
    requires l.present && !l.carried ==> p in l.cl.shown && l.cl.shown[p] == l.value
    ensures ClientInv(l) && PairInv(l, p, narrow)
  {
    assert l.cl.hist[l.cl.received..] == [];
  }

  // Receiving

  lemma ReceivedOrder(l: Local, l': Local)
    requires OrderInv(l) && l.cl.received < |l.cl.hist| && l' == l.(cl := ReceiveFrame(l.cl))
    ensures OrderInv(l')
  {
  }

  lemma ReceivedAcks(l: Local, l': Local)
    requires AckInv(l) && l.cl.received < |l.cl.hist| && l' == l.(cl := ReceiveFrame(l.cl))
    ensures AckInv(l')
  {
    var rest := l.cl.hist[l.cl.received..];
    assert rest[1..] == l'.cl.hist[l'.cl.received..] && rest[0] == l.cl.hist[l.cl.received];
    assert rest[0].Ack? ==> rest[0].requestId in AckIds(rest);
  }

  lemma ReceivedClient(l: Local, l': Local)
    requires ClientInv(l) && l.cl.received < |l.cl.hist| && l' == l.(cl := ReceiveFrame(l.cl))
    ensures ClientInv(l')
  {
    ReceivedOrder(l, l');
    ReceivedAcks(l, l');
  }

  lemma ReceivedFrames(l: Local, l': Local, p: PrimPath)
    requires FramesInv(l, p) && l.cl.received < |l.cl.hist| && l' == l.(cl := ReceiveFrame(l.cl))
    ensures FramesInv(l', p) && (Aware(l, p) ==> Aware(l', p))
  {
  }

  lemma ReceivedPair(l: Local, l': Local, p: PrimPath, narrow: Narrowing)
    requires ClientInv(l) && PairInv(l, p, narrow)
    requires l.cl.received < |l.cl.hist| && l' == l.(cl := ReceiveFrame(l.cl))
    ensures PairInv(l', p, narrow)
  {
    ReceivedFrames(l, l', p);
    if !l.astray {
      BackedStays(l, l', p);
      if Concerned(l) && !l.due {
        ReceivedKnown(l, l', p);
        ReceivedConverges(l, l', p, narrow);
      }
    }
  }

  lemma ReceivedKnown(l: Local, l': Local, p: PrimPath)
    requires Known(l, p) && l.cl.received < |l.cl.hist| && l' == l.(cl := ReceiveFrame(l.cl))
    ensures Known(l', p)
  {
    if p !in l.cl.shown {
      var i :| l.cl.received <= i < |l.cl.hist| && Touches(l.cl.hist[i], p);
      assert i == l.cl.received || l'.cl.received <= i;
    }
  }

  lemma ReceivedConverges(l: Local, l': Local, p: PrimPath, narrow: Narrowing)
    requires OrderInv(l) && UpdatesInv(l) && FramesInv(l, p) && Aware(l, p) && Converging(l, p, narrow)
    requires l.cl.received < |l.cl.hist| && l' == l.(cl := ReceiveFrame(l.cl))
    ensures Converging(l', p, narrow)
  {
    ReceivedView(l.cl, p);
    var f := l.cl.hist[l.cl.received];
    var last := LastOf(l.inFlight, p);
    if last != [] {
      assert last[0] in l.inFlight && l.cl.joined && !f.Snapshot?;
    }
  }

  lemma ReceivedView(cl: Client, p: PrimPath)
    requires cl.received < |cl.hist|
    ensures View(ReceiveFrame(cl), p) == View(cl, p)
    ensures !Touches(cl.hist[cl.received], p) ==> Cur(ReceiveFrame(cl), p) == Cur(cl, p)
  {
    var rest := cl.hist[cl.received..];
    assert rest[1..] == cl.hist[cl.received + 1..] && rest[0] == cl.hist[cl.received];
    assert Cur(ReceiveFrame(cl), p) == ShowFrame(rest[0], p, Cur(cl, p));
  }

  // Sending

  /** A transform update. */
  ghost predicate UpdateSent(l: Local, q: PrimPath, v: Transform, id: nat, l': Local) {
    && l'.cl == SendUpdate(l.cl, q, v, id)
    && l' == l.(cl := l'.cl, inFlight := l.inFlight + [Update(q, v, l.cl.lastSeq, id)], astray := l'.astray)
  }

  /** Any other request: nothing about any prim moves. */
  ghost predicate EditSent(l: Local, q: PrimPath, id: nat, l': Local) {
    && l'.cl == RequestEdit(l.cl, q, id)
    && l' == l.(cl := l'.cl, inFlight := l.inFlight + [SceneEdit(q, l.cl.lastSeq, id)])
  }

  /** A request `u` leaves the client. */
  ghost predicate RequestSent(l: Local, u: Update, l': Local) {
    && l'.inFlight == l.inFlight + [u] && u.base == l.cl.lastSeq
    && l'.cl == l.cl.(out := l'.cl.out, shown := l'.cl.shown, unacked := l.cl.unacked + multiset{u.requestId})
    && l'.maxSent == l.maxSent && l'.serverSeq == l.serverSeq
  }

  lemma SentClient(l: Local, u: Update, l': Local)
    requires ClientInv(l) && l.cl.joined && RequestSent(l, u, l')
    ensures ClientInv(l')
  {
    SentAcks(l, u, l');
    SentUpdates(l, u, l');
  }

  lemma SentAcks(l: Local, u: Update, l': Local)
    requires AckInv(l) && RequestSent(l, u, l')
    ensures AckInv(l')
  {
    IdsConcat(l.inFlight, [u]);
    assert Ids([u]) == multiset{u.requestId} + Ids([]);
  }

  lemma SentUpdates(l: Local, u: Update, l': Local)
    requires OrderInv(l) && UpdatesInv(l) && l.cl.joined && RequestSent(l, u, l')
    ensures OrderInv(l') && UpdatesInv(l')
  {
  }

  lemma SentPair(l: Local, l': Local, q: PrimPath, v: Transform, id: nat, p: PrimPath, narrow: Narrowing)
    requires ClientInv(l) && PairInv(l, p, narrow) && l.cl.joined && GroupRead(l.cl, q) && UpdateSent(l, q, v, id, l')
    requires l'.astray == (l.astray || (p == q && Unaware(l.cl, q)))
    ensures PairInv(l', p, narrow)
  {
    SentFrames(l, l', q, v, id, p);
    if !l'.astray {
      BackedStays(l, l', p);
      LastOfSent(l.inFlight, Update(q, v, l.cl.lastSeq, id), p);
      SentAware(l, l', q, v, id, p);
      if Concerned(l) && !l.due {
        SentConverges(l, l', q, v, id, p, narrow);
      }
    }
  }

  lemma LastOfSent(us: seq<Update>, u: Update, p: PrimPath)
    ensures LastOf(us + [u], p) == if Moves(u, p) then [u] else LastOf(us, p)
  {
    assert (us + [u])[..|us|] == us;
  }

  lemma SentFrames(l: Local, l': Local, q: PrimPath, v: Transform, id: nat, p: PrimPath)
    requires FramesInv(l, p) && GroupRead(l.cl, q) && UpdateSent(l, q, v, id, l')
    ensures FramesInv(l', p)
  {
    assert forall u | u in l'.inFlight :: u in l.inFlight || u == Update(q, v, l.cl.lastSeq, id);
  }

  lemma SentAware(l: Local, l': Local, q: PrimPath, v: Transform, id: nat, p: PrimPath)
    requires l.cl.received <= |l.cl.hist| && Aware(l, p) && UpdateSent(l, q, v, id, l')
    requires p == q ==> !Unaware(l.cl, q)
    requires p != q ==> LastOf(l'.inFlight, p) == LastOf(l.inFlight, p)
    ensures Aware(l', p)
  {
  }

  lemma SentConverges(l: Local, l': Local, q: PrimPath, v: Transform, id: nat, p: PrimPath, narrow: Narrowing)
    requires OrderInv(l) && UpdatesInv(l) && Backed(l, p) && l.cl.joined && Converging(l, p, narrow)
    requires UpdateSent(l, q, v, id, l') && (p == q ==> !Unaware(l.cl, q))
    requires LastOf(l'.inFlight, p)
          == if p == q then [Update(q, v, l.cl.lastSeq, id)] else LastOf(l.inFlight, p)
    requires Known(l, p)
    ensures Converging(l', p, narrow) && Known(l', p)
  {
    if p != q {
      assert View(l'.cl, p) == View(l.cl, p) && Cur(l'.cl, p) == Cur(l.cl, p);
    } else if l.cl.lastSeq < l.notice {
      SentUnderNotice(l, p, v);
      assert Cur(l'.cl, p) == v && l'.cl.hist == l.cl.hist && l'.cl.received == l.cl.received;
      LastIsBehind(l, p, narrow);
    }
  }

  /** Whatever a client sent before it learned of the notice will be found stale. */
  lemma LastIsBehind(l: Local, p: PrimPath, narrow: Narrowing)
    requires UpdatesInv(l) && l.cl.received <= |l.cl.hist| && l.cl.lastSeq < l.notice && Converging(l, p, narrow)
    ensures Shows(l, p, narrow)
  {
    var last := LastOf(l.inFlight, p);
    if last != [] {
      var j :| 0 <= j < |l.inFlight| && l.inFlight[j] == last[0];
    }
  }

  /** A client that lags behind the notice has a frame about `p` in flight, so its own change will not last. */
  lemma SentUnderNotice(l: Local, p: PrimPath, v: Transform)
    requires OrderInv(l) && Backed(l, p) && l.cl.joined && l.cl.lastSeq < l.notice && !Unaware(l.cl, p)
    ensures View(l.cl, p) == After(l.cl.hist[l.cl.received..], p, v)
  {
    var i :| 0 <= i < |l.cl.hist| && Carries(l.cl.hist[i], p, l.notice);
    assert i >= l.cl.received;
    assert Touches(l.cl.hist[i], p);
    assert l.cl.hist[i] in l.cl.hist[l.cl.received..];
    AfterTouched(l.cl.hist[l.cl.received..], p, Cur(l.cl, p), v);
  }

  lemma EditPair(l: Local, l': Local, q: PrimPath, id: nat, p: PrimPath, narrow: Narrowing)
    requires PairInv(l, p, narrow) && EditSent(l, q, id, l')
    ensures PairInv(l', p, narrow)
  {
    LastOfSent(l.inFlight, SceneEdit(q, l.cl.lastSeq, id), p);
    assert forall u | u in l'.inFlight && Moves(u, p) :: u in l.inFlight;
    assert View(l'.cl, p) == View(l.cl, p);
    if !l.astray {
      BackedStays(l, l', p);
    }
  }

  // Answering the oldest update in flight

  lemma {:induction false} AnsweredUpdates(l: Local, l': Local)
    requires OrderInv(l) && UpdatesInv(l) && l.inFlight != []
    requires l'.cl.hist == l.cl.hist && l'.cl.joined == l.cl.joined && l'.cl.lastSeq == l.cl.lastSeq
    requires l'.inFlight == l.inFlight[1..]
    ensures UpdatesInv(l')
  {
  }

  lemma TailMember(us: seq<Update>)
    requires us != []
    ensures forall u | u in us[1..] :: u in us
    ensures us == [us[0]] + us[1..]
  {
  }

  /** A stale update leaves flight: the state it lost against is on its way already. */
  lemma StaleAnswered(l: Local, l': Local, p: PrimPath, narrow: Narrowing)
    requires PairInv(l, p, narrow) && l.inFlight != []
    requires Moves(l.inFlight[0], p) ==> l.inFlight[0].base < l.notice
    requires l' == l.(inFlight := l.inFlight[1..])
    ensures PairInv(l', p, narrow)
  {
    LastOfTail(l.inFlight, p);
    TailMember(l.inFlight);
    if !l.astray {
      BackedStays(l, l', p);
    }
  }

  /** Nothing about the prim of an update that is current is unread. */
  lemma NothingUnread(l: Local, u: Update, p: PrimPath)
    requires OrderInv(l) && UpdatesInv(l) && FramesInv(l, p) && Aware(l, p)
    requires u in l.inFlight && Moves(u, p) && l.notice <= u.base
    ensures forall i | l.cl.received <= i < |l.cl.hist| :: !Touches(l.cl.hist[i], p)
  {
    assert l.cl.joined && LastOf(l.inFlight, p) != [];
    assert forall i | l.cl.received <= i < |l.cl.hist| && !l.cl.hist[i].Snapshot? && Touches(l.cl.hist[i], p) ::
        u.base < l.cl.hist[i].seq_;
  }

  /** A current update is applied: the client shows it. */
  lemma AppliedOwn(l: Local, l': Local, p: PrimPath, narrow: Narrowing)
    requires Idempotent(narrow) && OrderInv(l) && UpdatesInv(l) && PairInv(l, p, narrow) && l.inFlight != []
    requires Moves(l.inFlight[0], p) && l.notice <= l.inFlight[0].base && !l.astray && l.present
    requires l' == l.(inFlight := l.inFlight[1..], value := narrow(l.inFlight[0].value), carried := true,
                      serverSeq := l'.serverSeq)
    requires l.serverSeq <= l'.serverSeq
    ensures PairInv(l', p, narrow)
  {
    NothingUnread(l, l.inFlight[0], p);
    ViewIsCur(l.cl, p);
    LastOfTail(l.inFlight, p);
    TailMember(l.inFlight);
    BackedStays(l, l', p);
    assert l.cl.joined;
    if !l.due {
      OwnShown(l, l', p, narrow);
    }
  }

  lemma OwnShown(l: Local, l': Local, p: PrimPath, narrow: Narrowing)
    requires Idempotent(narrow) && UpdatesInv(l) && l.inFlight != [] && l.cl.received <= |l.cl.hist|
    requires Moves(l.inFlight[0], p) && l.notice <= l.inFlight[0].base
    requires l'.inFlight == l.inFlight[1..] && l'.cl == l.cl && l'.notice == l.notice
    requires l'.value == narrow(l.inFlight[0].value)
    requires Converging(l, p, narrow) && View(l.cl, p) == Cur(l.cl, p)
    ensures Converging(l', p, narrow)
  {
    LastOfTail(l.inFlight, p);
    var last := LastOf(l'.inFlight, p);
    if last != [] {
      var k :| 0 <= k < |l'.inFlight| && l'.inFlight[k] == last[0];
      assert l.inFlight[k + 1] == last[0];
    }
  }

  /** The client shows what was applied last and expects nothing else. */
  ghost predicate Ends(l: Local, u: Update)
    requires u.Update?
  {
    && LastOf(l.inFlight, u.prim) == [] && u.prim in l.cl.shown && l.cl.shown[u.prim] == u.value
    && forall i | 0 <= i < |l.cl.hist| && l.cl.received <= i :: !Touches(l.cl.hist[i], u.prim)
  }

  /** A client that was astray is not any more, with its last update applied. */
  lemma OwnSettles(l: Local, l': Local, u: Update, narrow: Narrowing)
    requires Idempotent(narrow) && OrderInv(l) && UpdatesInv(l) && FramesInv(l, u.prim) && l.inFlight != []
    requires u.Update? && l.inFlight[0] == u && l.notice <= u.base && Ends(l', u)
    requires l' == l.(inFlight := l.inFlight[1..], value := narrow(u.value), carried := true,
                      serverSeq := l'.serverSeq, astray := false)
    requires l.serverSeq <= l'.serverSeq
    ensures PairInv(l', u.prim, narrow)
  {
    TailMember(l.inFlight);
    ViewIsCur(l'.cl, u.prim);
    assert u.base <= l.cl.lastSeq;
    assert forall x | x in l'.inFlight :: !Moves(x, u.prim);
  }

  /** An update is refused at the queue: it leaves flight. */
  lemma RejectedUpdates(l: Local, l': Local, k: nat)
    requires UpdatesInv(l) && k < |l.inFlight|
    requires l'.cl.hist == l.cl.hist && l'.cl.joined == l.cl.joined && l'.cl.lastSeq == l.cl.lastSeq
    requires l'.inFlight == l.inFlight[..k] + l.inFlight[k + 1..]
    ensures UpdatesInv(l')
  {
    assert forall j | 0 <= j < |l'.inFlight| :: l'.inFlight[j] == l.inFlight[if j < k then j else j + 1];
  }

  lemma {:induction false} RejectedIds(us: seq<Update>, k: nat)
    requires k < |us|
    ensures Ids(us) == Ids(us[..k] + us[k + 1..]) + multiset{us[k].requestId}
    decreases k
  {
    var rest := us[..k] + us[k + 1..];
    if k == 0 {
      assert rest == us[1..];
    } else {
      assert rest[1..] == us[1..][..k - 1] + us[1..][k..];
      RejectedIds(us[1..], k - 1);
    }
  }

  lemma {:induction false} LastOfRemove(us: seq<Update>, k: nat, p: PrimPath)
    requires k < |us| && !Moves(us[k], p)
    ensures LastOf(us[..k] + us[k + 1..], p) == LastOf(us, p)
    decreases |us|
  {
    var us' := us[..k] + us[k + 1..];
    var n := |us|;
    if k == n - 1 {
      assert us' == us[..n - 1];
    } else {
      assert us'[|us'| - 1] == us[n - 1];
      assert us'[..|us'| - 1] == us[..n - 1][..k] + us[..n - 1][k + 1..];
      LastOfRemove(us[..n - 1], k, p);
    }
  }

  ghost predicate RejectedOf(l: Local, l': Local, k: nat) {
    && k < |l.inFlight| && l'.inFlight == l.inFlight[..k] + l.inFlight[k + 1..]
    && l' == l.(cl := l'.cl, inFlight := l'.inFlight, due := l'.due)
    && l'.cl == Deliver(l.cl, Ack(0, l.inFlight[k].requestId, false)).(out := l'.cl.out, io := l'.cl.io)
  }

  lemma RejectedClient(l: Local, l': Local, k: nat)
    requires ClientInv(l) && RejectedOf(l, l', k)
    ensures ClientInv(l')
  {
    var f := Ack(0, l.inFlight[k].requestId, false);
    var mid := l.(inFlight := l'.inFlight);
    RejectedUpdates(l, mid, k);
    RejectedIds(l.inFlight, k);
    assert AckIds([f]) == multiset{f.requestId} + AckIds([]);
    DeliveredOrder(l, f, l');
    DeliveredUpdates(mid, f, l');
    DeliveredAcks(l, f, l');
  }

  lemma RemovedMembers(us: seq<Update>, k: nat)
    requires k < |us|
    ensures forall u | u in us[..k] + us[k + 1..] :: u in us
  {
  }

  /** One update less in flight. */
  lemma RemovedPair(l: Local, l': Local, k: nat, p: PrimPath, narrow: Narrowing)
    requires PairInv(l, p, narrow) && k < |l.inFlight|
    requires l' == l.(inFlight := l.inFlight[..k] + l.inFlight[k + 1..], due := l'.due)
    requires if Moves(l.inFlight[k], p) then l'.due else l'.due == l.due
    ensures PairInv(l', p, narrow)
  {
    RemovedMembers(l.inFlight, k);
    if !Moves(l.inFlight[k], p) {
      LastOfRemove(l.inFlight, k, p);
    } else {
      assert l.inFlight[k] in l.inFlight;
    }
    if !l.astray {
      BackedStays(l, l', p);
    }
  }

  lemma RejectedPair(l: Local, l': Local, k: nat, p: PrimPath, narrow: Narrowing)
    requires PairInv(l, p, narrow) && RejectedOf(l, l', k)
    requires if Moves(l.inFlight[k], p) then l'.due else l'.due == l.due
    requires OrderInv(l) && UpdatesInv(l)
    ensures PairInv(l', p, narrow)
  {
    var f := Ack(0, l.inFlight[k].requestId, false);
    var mid := l.(inFlight := l'.inFlight, due := l'.due);
    RemovedPair(l, mid, k, p, narrow);
    RejectedUpdates(l, mid, k);
    DeliveredOther(mid, f, l', p, narrow);
  }

  /** The Ack of the oldest update in flight. */
  ghost predicate Answered(l: Local, f: Frame, l': Local) {
    && l.inFlight != [] && f.Ack? && f.requestId == l.inFlight[0].requestId && Delivered(l, f, l')
    && l'.inFlight == l.inFlight[1..] && l'.notice == l.notice && l'.due == l.due
  }

  lemma AnsweredClient(l: Local, f: Frame, l': Local)
    requires ClientInv(l) && Answered(l, f, l')
    ensures ClientInv(l')
  {
    var mid := l.(inFlight := l'.inFlight);
    AnsweredUpdates(l, mid);
    DeliveredOrder(l, f, l');
    DeliveredUpdates(mid, f, l');
    assert AckIds([f]) == multiset{f.requestId} + AckIds([]);
    DeliveredAcks(l, f, l');
  }

  lemma AnsweredUnapplied(l: Local, f: Frame, l': Local, p: PrimPath, narrow: Narrowing)
    requires OrderInv(l) && UpdatesInv(l) && PairInv(l, p, narrow) && Answered(l, f, l') && SamePrim(l, l')
    requires Moves(l.inFlight[0], p) ==> l.inFlight[0].base < l.notice
    ensures PairInv(l', p, narrow)
  {
    var mid := l.(inFlight := l'.inFlight);
    AnsweredUpdates(l, mid);
    StaleAnswered(l, mid, p, narrow);
    DeliveredOther(mid, f, l', p, narrow);
  }

  lemma AnsweredFrames(l: Local, f: Frame, l': Local, p: PrimPath)
    requires UpdatesInv(l) && FramesInv(l, p) && Answered(l, f, l')
    ensures FramesInv(l', p)
  {
    TailMember(l.inFlight);
    DeliveredFrames(l, f, l', p);
  }

  // Applying an update

  /** What the application of `u` does to one connection, its sender's (`own`) or another. */
  ghost predicate AppliedTo(l: Local, own: bool, u: Update, p: PrimPath, l': Local, narrow: Narrowing)
    requires u.Update?
  {
    var s, v := l.serverSeq + 1, narrow(u.value);
    var l1 := l.(serverSeq := s, maxSent := s, value := if p == u.prim then v else l.value,
                 carried := p == u.prim || l.carried);
    if own
    then && l.inFlight != [] && l.inFlight[0] == u
         && l' == l1.(inFlight := l.inFlight[1..], cl := Deliver(l.cl, Ack(s, u.requestId, true)),
                      astray := l.astray && !(p == u.prim && Ends(l.(inFlight := l.inFlight[1..]), u)))
    else l' == l1.(cl := Deliver(l.cl, Xform(s, u.prim, narrow(v))), notice := if u.prim == p then s else l.notice,
                   astray := l.astray && u.prim != p)
  }

  lemma AppliedOwnPair(l: Local, mid: Local, u: Update, narrow: Narrowing)
    requires Idempotent(narrow) && OrderInv(l) && UpdatesInv(l) && PairInv(l, u.prim, narrow) && l.inFlight != []
    requires u.Update? && l.inFlight[0] == u && l.notice <= u.base && l.present
    requires mid == l.(inFlight := l.inFlight[1..], value := narrow(u.value), carried := true,
                       serverSeq := mid.serverSeq, astray := mid.astray)
    requires l.serverSeq <= mid.serverSeq && mid.astray == (l.astray && !Ends(l.(inFlight := l.inFlight[1..]), u))
    ensures PairInv(mid, u.prim, narrow)
  {
    TailMember(l.inFlight);
    if !l.astray {
      AppliedOwn(l, mid, u.prim, narrow);
    } else if !mid.astray {
      OwnSettles(l, mid, u, narrow);
    }
  }

  lemma AppliedAnswered(l: Local, u: Update, p: PrimPath, l': Local, narrow: Narrowing)
    requires Idempotent(narrow) && ClientInv(l) && PairInv(l, p, narrow) && u.Update?
    requires AppliedTo(l, true, u, p, l', narrow) && (p == u.prim ==> l.notice <= u.base && l.present)
    ensures ClientInv(l') && PairInv(l', p, narrow)
  {
    AnsweredClient(l, Ack(l.serverSeq + 1, u.requestId, true), l');
    if p == u.prim {
      AppliedHere(l, u, l', narrow);
    } else {
      AnsweredUnapplied(l, Ack(l.serverSeq + 1, u.requestId, true), l', p, narrow);
    }
  }

  lemma AppliedHere(l: Local, u: Update, l': Local, narrow: Narrowing)
    requires Idempotent(narrow) && OrderInv(l) && UpdatesInv(l) && PairInv(l, u.prim, narrow) && u.Update?
    requires AppliedTo(l, true, u, u.prim, l', narrow) && l.notice <= u.base && l.present
    ensures PairInv(l', u.prim, narrow)
  {
    var mid := l.(inFlight := l'.inFlight, value := l'.value, carried := true, astray := l'.astray);
    AppliedOwnPair(l, mid, u, narrow);
    AnsweredUpdates(l, mid);
    DeliveredOther(mid, Ack(l.serverSeq + 1, u.requestId, true), l', u.prim, narrow);
  }

  /** A broadcast or correction of some prim, under a version newer than anything the client knows. */
  lemma XformReaches(l: Local, f: Frame, l': Local, p: PrimPath, narrow: Narrowing)
    requires Idempotent(narrow) && ClientInv(l) && f.Xform? && Delivered(l, f, l') && l'.inFlight == l.inFlight
    requires l.cl.lastSeq < f.seq_ && f.seq_ == l'.serverSeq && FramesInv(l, p)
    requires if f.prim == p then l'.notice == f.seq_ && f.value == narrow(l'.value)
             else PairInv(l, p, narrow) && l'.notice == l.notice && SamePrim(l, l')
    ensures ClientInv(l') && PairInv(l', p, narrow)
  {
    DeliveredClient(l, f, l');
    if f.prim == p {
      DeliveredState(l, f, l', p, narrow);
    } else {
      DeliveredOther(l, f, l', p, narrow);
    }
  }

  lemma AppliedMoves(l: Local, own: bool, u: Update, p: PrimPath, l': Local, narrow: Narrowing)
    requires Idempotent(narrow) && ClientInv(l) && PairInv(l, p, narrow) && u.Update?
    requires AppliedTo(l, own, u, p, l', narrow) && (own && p == u.prim ==> l.notice <= u.base && l.present)
    ensures ClientInv(l') && PairInv(l', p, narrow)
  {
    if own {
      AppliedAnswered(l, u, p, l', narrow);
    } else {
      XformReaches(l, Xform(l.serverSeq + 1, u.prim, narrow(narrow(u.value))), l', p, narrow);
    }
  }
}
