/**
 The update protocol between one session and its websocket clients, as a step system:
 any number of clients, FIFO channels both ways, the normal and the priority command
 queue, one consumer. A step is one action of a client, of a connection's io thread or
 of the consumer.
 */
module Protocol {
  import opened Versions
  import opened Transforms

  /** The transforms one layer has an opinion about, or those a client shows. */
  type Poses = map<PrimPath, Transform>

  type Narrowing = Transform -> Transform

  /** Rounding to the precision of the authored ops: rounding twice is rounding once. */
  ghost predicate Idempotent(f: Narrowing) {
    forall t :: f(f(t)) == f(t)
  }

  /** What a client asks for: a transform, or a creation or active state (`SceneEdit`). */
  datatype Update =
    | Update(prim: PrimPath, value: Transform, base: nat, requestId: nat)
    | SceneEdit(prim: PrimPath, base: nat, requestId: nat)

  /** What the server makes of a SceneEdit. */
  datatype SceneEffect = NoChange(ok: bool) | Created | Deactivated | Activated

  /** A frame to a client. All frames of one join snapshot and its SnapshotComplete are one `Snapshot`. */
  datatype Frame =
    | Xform(seq_: nat, prim: PrimPath, value: Transform)
    | CreateFrame(seq_: nat, prim: PrimPath)
    | ActiveFrame(seq_: nat, prim: PrimPath, active: bool)
    | Ack(seq_: nat, requestId: nat, ok: bool)
    | Snapshot(seq_: nat, values: Poses)

  /** How far the join of a connection got. */
  datatype Phase = Attached | JoinQueued | SnapshotSent

  /** The io thread between answering queue_full and having queued the correction. */
  datatype IoState = Listening | Rejected(prim: PrimPath) | Submitting(prim: PrimPath)

  /**
   One connection. `hist` holds every frame ever sent to it, of which the client has
   processed the first `received`; the rest is in flight. `queued` are the prims whose
   PendingCorrection is marked.
   */
  datatype Client = Client(
    hist: seq<Frame>, received: nat, out: seq<Update>, phase: Phase, io: IoState, queued: set<PrimPath>,
    shown: Poses, lastSeq: nat, joined: bool, unacked: multiset<nat>, regressions: nat, unknownAcks: nat)

  datatype Command =
    | EditCommand(origin: ConnectionId, update: Update)
    | JoinCommand(connection: ConnectionId)
    | ReloadCommand

  /** The consumer inside a CorrectionCommand: popped, or its mark cleared and the state not yet read. */
  datatype Consumer =
    | Idle
    | Popped(connection: ConnectionId, prim: PrimPath)
    | Cleared(connection: ConnectionId, prim: PrimPath)

  /**
   The layers: `root` is the file, `created` the prims this session made, `session` the
   session's transforms (the stronger opinion), `announced` what reading the session layer
   without composing it yields for them, `inactive` the prims that are not active.

   `astray` is bookkeeping: the pairs of a client and a prim for which the server left the
   client with something else than the prim's transform, and did not make up for it yet.
   Every operation below says when a pair gets in and when it gets out.
   */
  datatype World = World(
    narrow: Narrowing, root: Poses, created: set<PrimPath>, session: Poses, announced: Poses, inactive: set<PrimPath>,
    serverSeq: nat, book: Book, clients: map<ConnectionId, Client>, queue: seq<Command>,
    priority: seq<(ConnectionId, PrimPath)>, consumer: Consumer, nextConnection: nat,
    astray: set<(ConnectionId, PrimPath)>)

  // ------------------------------------------------------------------
  // The stage
  // ------------------------------------------------------------------

  /** `q` is a proper ancestor of `p`. */
  predicate Above(q: PrimPath, p: PrimPath) {
    |q| < |p| && p[..|q|] == q && p[|q|] == '/'
  }

  predicate Exists(w: World, p: PrimPath) {
    p in w.root || p in w.created
  }

  /** Prims below an inactive one are not on the stage; the inactive one itself is. */
  predicate Readable(w: World, p: PrimPath) {
    Exists(w, p) && forall q | q in w.inactive :: !Above(q, p)
  }

  function Resolved(w: World, p: PrimPath): Transform {
    if p in w.session then w.session[p] else if p in w.root then w.root[p] else IDENTITY
  }

  /** What a broadcast of `p` carries. */
  function ReadBack(w: World, p: PrimPath): Transform {
    w.narrow(Resolved(w, p))
  }

  // ------------------------------------------------------------------
  // Updates on their way
  // ------------------------------------------------------------------

  function OwnQueued(q: seq<Command>, c: ConnectionId): seq<Update> {
    if q == [] then []
    else (if q[0].EditCommand? && q[0].origin == c then [q[0].update] else []) + OwnQueued(q[1..], c)
  }

  /** Sent and not yet answered, oldest first. */
  function InFlight(w: World, c: ConnectionId): seq<Update>
    requires c in w.clients
  {
    OwnQueued(w.queue, c) + w.clients[c].out
  }

  /** A transform update of `p`. */
  predicate Moves(u: Update, p: PrimPath) {
    u.Update? && u.prim == p
  }

  function LastOf(us: seq<Update>, p: PrimPath): (r: seq<Update>)
    ensures |r| <= 1 && (r != [] ==> r[0] in us && Moves(r[0], p))
    ensures r == [] ==> forall u | u in us :: !Moves(u, p)
  {
    if us == [] then []
    else
      var u := us[|us| - 1];
      if Moves(u, p) then [u] else LastOf(us[..|us| - 1], p)
  }

  /** A frame after which the client shows something for `p` whatever it showed before. */
  predicate Touches(f: Frame, p: PrimPath) {
    ((f.Xform? || f.CreateFrame?) && f.prim == p) || (f.Snapshot? && p in f.values)
  }

  // ------------------------------------------------------------------
  // The server's operations
  // ------------------------------------------------------------------

  /** No layer has another transform. */
  predicate SameTransforms(w: World, w': World) {
    w'.root == w.root && w'.session == w.session && w'.announced == w.announced
  }

  function Deliver(cl: Client, f: Frame): Client {
    cl.(hist := cl.hist + [f])
  }

  function SentToAll(b: Book, ids: set<ConnectionId>, s: nat): Book {
    b.(connections := map c | c in b.connections.Keys + ids ::
      var cv := ConnectionEntry(b, c);
      if c in ids then cv.(maxSentSeq := Max(cv.maxSentSeq, s)) else cv)
  }

  function Others(w: World, p: PrimPath, origin: ConnectionId): set<(ConnectionId, PrimPath)> {
    set c | c in w.clients && c != origin :: (c, p)
  }

  /**
   RecordChange, then one frame to every client but `origin`. A prim that cannot be read is
   recorded and not sent.
   */
  function BroadcastChange(w: World, p: PrimPath, origin: ConnectionId): (r: World)
    ensures r.clients.Keys == w.clients.Keys && r.root == w.root
  {
    var b := Record(w.book, Change(p, w.serverSeq, origin));
    if !Readable(w, p) then w.(book := b, astray := w.astray + Others(w, p, origin))
    else
      var f := Xform(w.serverSeq, p, ReadBack(w, p));
      w.(book := SentToAll(b, w.clients.Keys - {origin}, w.serverSeq),
         clients := map c | c in w.clients :: if c == origin then w.clients[c] else Deliver(w.clients[c], f),
         astray := w.astray - Others(w, p, origin))
  }

  function SendAck(w: World, c: ConnectionId, requestId: nat, ok: bool): (r: World)
    ensures r.clients.Keys == w.clients.Keys && r.root == w.root
  {
    if c !in w.clients then w
    else w.(clients := w.clients[c := Deliver(w.clients[c], Ack(w.serverSeq, requestId, ok))],
            book := Record(w.book, Sent(c, w.serverSeq)))
  }

  /** What a correction of a readable prim carries: its state, or that it is inactive. */
  function CorrectionOf(w: World, p: PrimPath): Frame {
    if p in w.inactive then ActiveFrame(w.serverSeq + 1, p, false) else Xform(w.serverSeq + 1, p, ReadBack(w, p))
  }

  /** Nothing is sent for a prim that cannot be read, and no transform for an inactive one. */
  function SendCorrection(w: World, c: ConnectionId, p: PrimPath): (r: World)
    ensures r.clients.Keys == w.clients.Keys && SameTransforms(w, r)
  {
    if c !in w.clients then w
    else if !Readable(w, p) then w.(astray := w.astray + {(c, p)})
    else
      w.(serverSeq := w.serverSeq + 1, clients := w.clients[c := Deliver(w.clients[c], CorrectionOf(w, p))],
         book := Record(w.book, Correction(c, p, w.serverSeq + 1)),
         astray := if p in w.inactive then w.astray + {(c, p)} else w.astray - {(c, p)})
  }

  /** A matrix once authored is what reading the layer finds, until there is another matrix. */
  function Announced(w: World, p: PrimPath, v: Transform): Transform {
    if p in w.announced && w.announced[p].Matrix? && v.Separate? then w.announced[p] else v
  }

  /** The dispatcher writes the session layer; the notice it fires advances the version. */
  function Author(w: World, u: Update): World
    requires u.Update?
  {
    var v := w.narrow(u.value);
    w.(session := w.session[u.prim := v], announced := w.announced[u.prim := Announced(w, u.prim, v)],
       serverSeq := w.serverSeq + 1)
  }

  /** `u` was the last the client did to the prim, it shows it, and nothing about the prim is unread. */
  predicate EndsWith(w: World, c: ConnectionId, u: Update)
    requires u.Update?
  {
    && c in w.clients && LastOf(InFlight(w, c), u.prim) == []
    && u.prim in w.clients[c].shown && w.clients[c].shown[u.prim] == u.value
    && forall i | 0 <= i < |w.clients[c].hist| && w.clients[c].received <= i :: !Touches(w.clients[c].hist[i], u.prim)
  }

  /** The author shows what it sent: with its last update applied it is not astray. */
  function Settle(w: World, c: ConnectionId, u: Update): (r: World)
    requires u.Update?
    ensures r == w.(astray := r.astray)
  {
    if EndsWith(w, c, u) then w.(astray := w.astray - {(c, u.prim)}) else w
  }

  /** The consumer on one TransformUpdate; `ok` is what the dispatcher returns. */
  function HandleTransform(w: World, c: ConnectionId, u: Update, ok: bool): (r: World)
    requires u.Update? && (ok ==> Readable(w, u.prim))
    ensures r.clients.Keys == w.clients.Keys && r.root == w.root
  {
    if Check(w.book, c, u.prim, u.base) != Current then SendAck(w, c, u.requestId, false)
    else if ok then SendAck(BroadcastChange(Settle(Author(w, u), c, u), u.prim, c), c, u.requestId, true)
    else SendCorrection(SendAck(w, c, u.requestId, false), c, u.prim)
  }

  /** One version for a change of the scene, recorded and sent to every client. */
  function ToEveryone(w: World, f: Frame, origin: ConnectionId): (r: World)
    requires f.CreateFrame? || f.ActiveFrame?
    ensures r.clients.Keys == w.clients.Keys && SameTransforms(w, r)
  {
    w.(serverSeq := f.seq_, book := SentToAll(Record(w.book, Change(f.prim, f.seq_, origin)), w.clients.Keys, f.seq_),
       clients := map c | c in w.clients :: Deliver(w.clients[c], f))
  }

  predicate IsMoving(w: World, c: ConnectionId, p: PrimPath) {
    c in w.clients && LastOf(InFlight(w, c), p) != []
  }

  /** Those that move `p` without knowing of the change, except `origin`. */
  function Moving(w: World, p: PrimPath, origin: ConnectionId): set<(ConnectionId, PrimPath)> {
    set d | d in Others(w, p, origin) && IsMoving(w, d.0, p)
  }

  /** A new prim, at the identity. */
  function BroadcastCreate(w: World, q: PrimPath, origin: ConnectionId): (r: World)
    ensures r.clients.Keys == w.clients.Keys && SameTransforms(w, r)
  {
    var own := if IsMoving(w, origin, q) then {(origin, q)} else {};
    ToEveryone(w, CreateFrame(w.serverSeq + 1, q), origin).(
      created := w.created + {q}, astray := (w.astray - (set c | c in w.clients :: (c, q))) + own)
  }

  /** A new active state: it makes the updates of others stale and sends no transform. */
  function BroadcastActive(w: World, q: PrimPath, origin: ConnectionId, active: bool): (r: World)
    ensures r.clients.Keys == w.clients.Keys && SameTransforms(w, r)
  {
    ToEveryone(w, ActiveFrame(w.serverSeq + 1, q, active), origin).(
      inactive := if active then w.inactive - {q} else w.inactive + {q}, astray := w.astray + Moving(w, q, origin))
  }

  function BroadcastScene(w: World, q: PrimPath, origin: ConnectionId, e: SceneEffect): (r: World)
    ensures r.clients.Keys == w.clients.Keys && SameTransforms(w, r)
  {
    if e.Created? then BroadcastCreate(w, q, origin) else BroadcastActive(w, q, origin, e.Activated?)
  }

  /** The consumer on one SceneEdit; `q` is the prim it created or changed. */
  function HandleScene(w: World, c: ConnectionId, u: Update, q: PrimPath, e: SceneEffect): (r: World)
    ensures r.clients.Keys == w.clients.Keys && SameTransforms(w, r)
  {
    if e.NoChange? then SendAck(w, c, u.requestId, e.ok)
    else SendAck(BroadcastScene(w, q, c, e), c, u.requestId, true)
  }

  /** The join snapshot is read from the session layer: creations, then what it announces. */
  function SnapshotValues(w: World): Poses {
    map p | p in w.announced.Keys + w.created :: if p in w.announced then w.announced[p] else IDENTITY
  }

  /** What is announced is not what the prim has. */
  predicate Misannounced(w: World, p: PrimPath) {
    p in SnapshotValues(w) && w.narrow(SnapshotValues(w)[p]) != w.narrow(Resolved(w, p))
  }

  function HandleJoin(w: World, c: ConnectionId): (r: World)
    ensures r.clients.Keys == w.clients.Keys && SameTransforms(w, r)
  {
    if c !in w.clients then w
    else
      var values := SnapshotValues(w);
      w.(clients := w.clients[c := Deliver(w.clients[c], Snapshot(w.serverSeq, values)).(phase := SnapshotSent)],
         book := Record(w.book, Sent(c, w.serverSeq)),
         astray := (set d | d in w.astray && (d.0 != c || d.1 !in values))
                   + (set p | p in values && Misannounced(w, p) :: (c, p)))
  }

  /** The listener's loop over the prims of a reload notice: prims the session overrides are skipped. */
  function ReloadLoop(w: World, affected: seq<PrimPath>): (r: World)
    ensures r.clients.Keys == w.clients.Keys && r.serverSeq == w.serverSeq && r.root == w.root
    decreases |affected|
  {
    if affected == [] then w else ReloadLoop(ReloadOne(w, affected[0]), affected[1..])
  }

  function ReloadOne(w: World, p: PrimPath): (r: World)
    ensures r.clients.Keys == w.clients.Keys && r.serverSeq == w.serverSeq && r.root == w.root
  {
    if p in w.session then w else BroadcastChange(w, p, 0)
  }

  /** With the new file the prim exists and did not, or has another transform. */
  predicate Changes(w: World, newRoot: Poses, p: PrimPath) {
    var w1 := w.(root := newRoot);
    Exists(w1, p) && (!Exists(w, p) || Resolved(w1, p) != Resolved(w, p))
  }

  /** The new root layer is in place and nobody was told. */
  function Replaced(w: World, newRoot: Poses, inactive: set<PrimPath>): (r: World)
    ensures r.clients.Keys == w.clients.Keys && r.root == newRoot
  {
    w.(root := newRoot, inactive := inactive,
       astray := w.astray
                 + (set c, p | c in w.clients && p in newRoot.Keys + w.created && Changes(w, newRoot, p) :: (c, p)))
  }

  /** The notice advances the version if it concerns any prim. */
  function Numbered(w: World, affected: seq<PrimPath>): (r: World)
    ensures r == w.(serverSeq := r.serverSeq)
  {
    if affected == [] then w else w.(serverSeq := w.serverSeq + 1)
  }

  /** One version covers the whole reload. */
  function HandleReload(w: World, newRoot: Poses, inactive: set<PrimPath>, affected: seq<PrimPath>): (r: World)
    ensures r.clients.Keys == w.clients.Keys && r.root == newRoot
  {
    ReloadLoop(Numbered(Replaced(w, newRoot, inactive), affected), affected)
  }

  // ------------------------------------------------------------------
  // The client
  // ------------------------------------------------------------------

  /** What the client shows for `p` after frame `f`, if it showed `cur` before. */
  function ShowFrame(f: Frame, p: PrimPath, cur: Transform): Transform {
    match f
    case Xform(_, q, v) => if q == p then v else cur
    case Snapshot(_, values) => if p in values then values[p] else cur
    case CreateFrame(_, q) => if q == p then IDENTITY else cur
    case ActiveFrame(_, _, _) => cur
    case Ack(_, _, _) => cur
  }

  function ReceiveFrame(cl: Client): Client
    requires cl.received < |cl.hist|
  {
    var f := cl.hist[cl.received];
    var known := f.Ack? && f.requestId in cl.unacked;
    cl.(received := cl.received + 1,
        regressions := cl.regressions + (if f.seq_ != 0 && f.seq_ < cl.lastSeq then 1 else 0),
        lastSeq := Max(cl.lastSeq, f.seq_),
        joined := cl.joined || f.Snapshot?,
        unacked := if known then cl.unacked - multiset{f.requestId} else cl.unacked,
        unknownAcks := cl.unknownAcks + (if f.Ack? && !known then 1 else 0),
        shown := match f
                 case Xform(_, p, v) => cl.shown[p := v]
                 case Snapshot(_, values) => cl.shown + values
                 case CreateFrame(_, p) => cl.shown[p := IDENTITY]
                 case ActiveFrame(_, _, _) => cl.shown
                 case Ack(_, _, _) => cl.shown)
  }

  function SendUpdate(cl: Client, p: PrimPath, v: Transform, requestId: nat): Client {
    cl.(out := cl.out + [Update(p, v, cl.lastSeq, requestId)],
        shown := cl.shown[p := v],
        unacked := cl.unacked + multiset{requestId})
  }

  /** The client waits for the broadcast before it shows anything. */
  function RequestEdit(cl: Client, p: PrimPath, requestId: nat): Client {
    cl.(out := cl.out + [SceneEdit(p, cl.lastSeq, requestId)], unacked := cl.unacked + multiset{requestId})
  }

  /** No frame of the group the client is reading (frames of one seq) still carries `p`. */
  predicate GroupRead(cl: Client, p: PrimPath) {
    forall i | 0 <= i < |cl.hist| && cl.received <= i && !cl.hist[i].Snapshot? && Touches(cl.hist[i], p) ::
      cl.lastSeq < cl.hist[i].seq_
  }

  /** The client has not read yet that `p` was created, deactivated or activated. */
  predicate Unaware(cl: Client, p: PrimPath) {
    exists i :: 0 <= i < |cl.hist| && cl.received <= i
                && (cl.hist[i].CreateFrame? || cl.hist[i].ActiveFrame?) && cl.hist[i].prim == p
  }

  // ------------------------------------------------------------------
  // Steps
  // ------------------------------------------------------------------

  datatype Step =
    | Attach
    | SubmitJoin(c: ConnectionId)
    | Detach(c: ConnectionId)
    | Receive(c: ConnectionId)
    | Send(c: ConnectionId, prim: PrimPath, value: Transform, requestId: nat)
    | SendEdit(c: ConnectionId, prim: PrimPath, requestId: nat)
    | Accept(c: ConnectionId)
    | Reject(c: ConnectionId)
    | MarkCorrection(c: ConnectionId)
    | PushCorrection(c: ConnectionId)
    | DropCorrection(c: ConnectionId)
    | SubmitReload
    | Transformed(ok: bool)
    | SceneEdited(prim: PrimPath, effect: SceneEffect)
    | Joined
    | Reloaded(newRoot: Poses, inactive: set<PrimPath>, affected: seq<PrimPath>)
    | PopCorrection
    | ClearMark
    | Corrected

  /**
   A step the code can take. New names are names of no prim. A reload brings any root layer
   and any active states, and its notice names any prims, each once.
   */
  ghost predicate Possible(w: World, s: Step) {
    match s
    case Attach => true
    case SubmitJoin(c) => c in w.clients && w.clients[c].phase.Attached?
    case Detach(c) => c in w.clients
    case Receive(c) => c in w.clients && w.clients[c].received < |w.clients[c].hist|
    case Send(c, _, _, _) => c in w.clients && w.clients[c].joined
    case SendEdit(c, _, _) => c in w.clients && w.clients[c].joined
    case Accept(c) => c in w.clients && w.clients[c].out != [] && w.clients[c].io.Listening?
    case Reject(c) => c in w.clients && w.clients[c].out != [] && w.clients[c].io.Listening?
    case MarkCorrection(c) => c in w.clients && w.clients[c].io.Rejected?
    case PushCorrection(c) => c in w.clients && w.clients[c].io.Submitting?
    case DropCorrection(c) => c in w.clients && w.clients[c].io.Submitting?
    case SubmitReload => true
    case Transformed(ok) => w.consumer.Idle? && w.queue != [] && w.queue[0].EditCommand?
                            && w.queue[0].update.Update? && (ok ==> Readable(w, w.queue[0].update.prim))
    case SceneEdited(q, e) => w.consumer.Idle? && w.queue != [] && w.queue[0].EditCommand?
                              && w.queue[0].update.SceneEdit?
                              && (e.Created? ==> !Exists(w, q) && q !in w.session)
                              && (e.Deactivated? || e.Activated? ==> q == w.queue[0].update.prim)
    case Joined => w.consumer.Idle? && w.queue != [] && w.queue[0].JoinCommand?
    case Reloaded(newRoot, inactive, affected) =>
      && w.consumer.Idle? && w.queue != [] && w.queue[0].ReloadCommand?
      && (forall i, j | 0 <= i < j < |affected| :: affected[i] != affected[j])
    case PopCorrection => w.consumer.Idle? && w.priority != []
    case ClearMark => w.consumer.Popped?
    case Corrected => w.consumer.Cleared?
  }

  /** A possible step in which a sending client has read all frames of its base for that prim. */
  ghost predicate Enabled(w: World, s: Step) {
    Possible(w, s) && (s.Send? ==> GroupRead(w.clients[s.c], s.prim))
  }

  function DoAttach(w: World): World {
    var cl := Client([], 0, [], Attached, Listening, {}, w.root, 0, false, multiset{}, 0, 0);
    w.(clients := w.clients[w.nextConnection := cl], nextConnection := w.nextConnection + 1)
  }

  function DoSubmitJoin(w: World, c: ConnectionId): World
    requires c in w.clients
  {
    w.(clients := w.clients[c := w.clients[c].(phase := JoinQueued)], queue := w.queue + [JoinCommand(c)])
  }

  function DoSend(w: World, c: ConnectionId, p: PrimPath, v: Transform, id: nat): World
    requires c in w.clients
  {
    w.(clients := w.clients[c := SendUpdate(w.clients[c], p, v, id)],
       astray := if Unaware(w.clients[c], p) then w.astray + {(c, p)} else w.astray)
  }

  function DoReceive(w: World, c: ConnectionId): World
    requires c in w.clients && w.clients[c].received < |w.clients[c].hist|
  {
    w.(clients := w.clients[c := ReceiveFrame(w.clients[c])])
  }

  function DoSendEdit(w: World, c: ConnectionId, p: PrimPath, id: nat): World
    requires c in w.clients
  {
    w.(clients := w.clients[c := RequestEdit(w.clients[c], p, id)])
  }

  /** The command queue takes the request. */
  function DoAccept(w: World, c: ConnectionId): World
    requires c in w.clients && w.clients[c].out != []
  {
    var cl := w.clients[c];
    w.(clients := w.clients[c := cl.(out := cl.out[1..])], queue := w.queue + [EditCommand(c, cl.out[0])])
  }

  /** The command queue is full: the io thread answers itself, with seq 0; an update is owed a correction. */
  function DoReject(w: World, c: ConnectionId): World
    requires c in w.clients && w.clients[c].out != []
  {
    var cl := w.clients[c];
    w.(clients := w.clients[c :=
      Deliver(cl, Ack(0, cl.out[0].requestId, false)).(out := cl.out[1..],
        io := if cl.out[0].Update? then Rejected(cl.out[0].prim) else cl.io)])
  }

  /** queued.exchange(true): if the mark was set already, that correction will do. */
  function DoMark(w: World, c: ConnectionId): World
    requires c in w.clients && w.clients[c].io.Rejected?
  {
    var cl := w.clients[c];
    w.(clients := w.clients[c :=
      if cl.io.prim in cl.queued then cl.(io := Listening)
      else cl.(queued := cl.queued + {cl.io.prim}, io := Submitting(cl.io.prim))])
  }

  function DoPush(w: World, c: ConnectionId): World
    requires c in w.clients && w.clients[c].io.Submitting?
  {
    var cl := w.clients[c];
    w.(clients := w.clients[c := cl.(io := Listening)], priority := w.priority + [(c, cl.io.prim)])
  }

  /** The priority queue is full: the correction is dropped. */
  function DoDrop(w: World, c: ConnectionId): World
    requires c in w.clients && w.clients[c].io.Submitting?
  {
    var cl := w.clients[c];
    w.(clients := w.clients[c := cl.(queued := cl.queued - {cl.io.prim}, io := Listening)],
       astray := w.astray + {(c, cl.io.prim)})
  }

  function DoPop(w: World): World
    requires w.priority != []
  {
    w.(priority := w.priority[1..], consumer := Popped(w.priority[0].0, w.priority[0].1))
  }

  function DoClear(w: World): World
    requires w.consumer.Popped?
  {
    var c, p := w.consumer.connection, w.consumer.prim;
    w.(consumer := Cleared(c, p),
       clients := if c in w.clients
                  then w.clients[c := w.clients[c].(queued := w.clients[c].queued - {p})] else w.clients)
  }

  ghost function Next(w: World, s: Step): World
    requires Possible(w, s)
  {
    match s
    case Attach => DoAttach(w)
    case SubmitJoin(c) => DoSubmitJoin(w, c)
    case Detach(c) => w.(clients := w.clients - {c})
    case Receive(c) => DoReceive(w, c)
    case Send(c, p, v, id) => DoSend(w, c, p, v, id)
    case SendEdit(c, p, id) => DoSendEdit(w, c, p, id)
    case Accept(c) => DoAccept(w, c)
    case Reject(c) => DoReject(w, c)
    case MarkCorrection(c) => DoMark(w, c)
    case PushCorrection(c) => DoPush(w, c)
    case DropCorrection(c) => DoDrop(w, c)
    case SubmitReload => w.(queue := w.queue + [ReloadCommand])
    case Transformed(ok) => HandleTransform(w.(queue := w.queue[1..]), w.queue[0].origin, w.queue[0].update, ok)
    case SceneEdited(q, e) => HandleScene(w.(queue := w.queue[1..]), w.queue[0].origin, w.queue[0].update, q, e)
    case Joined => HandleJoin(w.(queue := w.queue[1..]), w.queue[0].connection)
    case Reloaded(newRoot, inactive, affected) => HandleReload(w.(queue := w.queue[1..]), newRoot, inactive, affected)
    case PopCorrection => DoPop(w)
    case ClearMark => DoClear(w)
    case Corrected => SendCorrection(w.(consumer := Idle), w.consumer.connection, w.consumer.prim)
  }

  ghost predicate Initial(w: World) {
    && Idempotent(w.narrow) && w.session.Keys == w.announced.Keys
    && w.serverSeq == 0 && w.book == EMPTY_BOOK && w.clients == map[] && w.queue == [] && w.priority == []
    && w.consumer == Idle && w.nextConnection == 1 && w.astray == {}
  }

  ghost predicate StepAt(ws: seq<World>, steps: seq<Step>, i: nat)
    requires |ws| == |steps| + 1 && i < |steps|
  {
    Enabled(ws[i], steps[i]) && ws[i + 1] == Next(ws[i], steps[i])
  }

  /** `ws` are the states of a run from an initial state that takes `steps`. */
  ghost predicate IsRun(ws: seq<World>, steps: seq<Step>) {
    && |ws| == |steps| + 1 && Initial(ws[0])
    && forall i | 0 <= i < |steps| :: StepAt(ws, steps, i)
  }

  /** Nothing is queued, in flight or half done. */
  ghost predicate Quiescent(w: World) {
    && w.queue == [] && w.priority == [] && w.consumer.Idle?
    && forall c | c in w.clients ::
         w.clients[c].received == |w.clients[c].hist| && w.clients[c].out == [] && w.clients[c].io.Listening?
  }
}
