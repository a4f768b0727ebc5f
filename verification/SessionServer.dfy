/** The session as the object its consumer works on: the handlers, step by step. */
module SessionServer {
  import opened Versions
  import opened Protocol
  import opened Transforms

  /** Recording one more connection. */
  lemma SentToOneMore(b: Book, ids: set<ConnectionId>, c: ConnectionId, s: nat)
    requires c !in ids
    ensures Record(SentToAll(b, ids, s), Sent(c, s)) == SentToAll(b, ids + {c}, s)
  {
    var r, t := Record(SentToAll(b, ids, s), Sent(c, s)), SentToAll(b, ids + {c}, s);
    assert r.connections.Keys == t.connections.Keys;
    assert forall d | d in t.connections :: r.connections[d] == t.connections[d];
  }

  lemma SentToNobody(b: Book, s: nat)
    ensures SentToAll(b, {}, s) == b
  {
    assert SentToAll(b, {}, s).connections == b.connections;
  }

  function Delivered(clients: map<ConnectionId, Client>, ids: set<ConnectionId>, f: Frame): map<ConnectionId, Client> {
    map c | c in clients :: if c in ids then Deliver(clients[c], f) else clients[c]
  }

  lemma DeliveredOneMore(clients: map<ConnectionId, Client>, ids: set<ConnectionId>, c: ConnectionId, f: Frame)
    requires c in clients && c !in ids
    ensures Delivered(clients, ids + {c}, f) == Delivered(clients, ids, f)[c := Deliver(clients[c], f)]
  {
  }

  lemma DeliveredNobody(clients: map<ConnectionId, Client>, f: Frame)
    ensures Delivered(clients, {}, f) == clients
  {
  }

  lemma ToEverybody(clients: map<ConnectionId, Client>, f: Frame)
    ensures clients.Keys - {} == clients.Keys
    ensures Delivered(clients, clients.Keys - {}, f) == map c | c in clients :: Deliver(clients[c], f)
  {
  }

  lemma ToAllBut(clients: map<ConnectionId, Client>, origin: ConnectionId, f: Frame)
    ensures Delivered(clients, clients.Keys - {origin}, f)
         == map c | c in clients :: if c == origin then clients[c] else Deliver(clients[c], f)
  {
  }

  /** `done` have the frame, `todo` come next, `skip` get none. */
  ghost predicate Parted(
    ids: set<ConnectionId>, done: set<ConnectionId>, todo: set<ConnectionId>, skip: set<ConnectionId>)
  {
    todo <= ids && done == ids - todo - skip
  }

  lemma NextOne(
    ids: set<ConnectionId>, done: set<ConnectionId>, todo: set<ConnectionId>, skip: set<ConnectionId>, c: ConnectionId)
    requires Parted(ids, done, todo, skip) && c in todo
    ensures c in ids && c !in done && Parted(ids, if c in skip then done else done + {c}, todo - {c}, skip)
  {
  }

  class Session {
    const narrow: Narrowing
    const versions: SessionVersions
    var root: Poses
    var created: set<PrimPath>
    var session: Poses
    var announced: Poses
    var inactive: set<PrimPath>
    var serverSeq: nat
    var clients: map<ConnectionId, Client>
    var queue: seq<Command>
    var priority: seq<(ConnectionId, PrimPath)>
    var consumer: Consumer
    var nextConnection: nat
    ghost var astray: set<(ConnectionId, PrimPath)>

    ghost predicate Valid()
      reads this, versions
    {
      versions.Valid()
    }

    ghost function Value(): World
      reads this, versions
    {
      World(narrow, root, created, session, announced, inactive, serverSeq, versions.State(), clients, queue, priority,
            consumer, nextConnection, astray)
    }

    /** The session layer may come from a file: what it announces need not be what it has. */
    constructor (
      narrow: Narrowing, root: Poses, created: set<PrimPath>, session: Poses, announced: Poses, inactive: set<PrimPath>)
      requires Idempotent(narrow) && session.Keys == announced.Keys
      ensures Valid() && fresh(versions) && Initial(Value()) && Value().root == root && Value().created == created
      ensures Value().session == session && Value().announced == announced && Value().inactive == inactive
    {
      this.narrow := narrow;
      versions := new SessionVersions();
      this.root, this.created, this.session, this.announced := root, created, session, announced;
      this.inactive, serverSeq, clients, queue, priority := inactive, 0, map[], [], [];
      consumer, nextConnection, astray := Idle, 1, {};
    }

    /** A prim is found on the stage if nothing above it is inactive. */
    method FindPrim(p: PrimPath) returns (found: bool)
      requires Valid()
      ensures found == Readable(Value(), p)
    {
      found := p in root || p in created;
      var todo := inactive;
      while found && todo != {}
        invariant todo <= inactive
        invariant found == (Exists(Value(), p) && forall q | q in inactive && q !in todo :: !Above(q, p))
        decreases |todo|
      {
        var q :| q in todo;
        found := !Above(q, p);
        todo := todo - {q};
      }
    }

    /** The composed transform: the session layer is the stronger one. */
    method ReadTransform(p: PrimPath) returns (value: Transform)
      ensures value == ReadBack(Value(), p)
    {
      value := narrow(if p in session then session[p] else if p in root then root[p] else IDENTITY);
    }

    method SendTo(c: ConnectionId, f: Frame) returns (sent: bool)
      modifies this`clients
      ensures sent <==> c in old(clients)
      ensures clients == if sent then old(clients)[c := Deliver(old(clients)[c], f)] else old(clients)
    {
      if c !in clients {
        return false;
      }
      clients := clients[c := Deliver(clients[c], f)];
      return true;
    }

    method SendAck(c: ConnectionId, requestId: nat, ok: bool)
      requires Valid()
      modifies this`clients, versions
      ensures Valid() && Value() == Protocol.SendAck(old(Value()), c, requestId, ok)
    {
      var sent := SendTo(c, Ack(serverSeq, requestId, ok));
      if sent {
        versions.RecordSent(c, serverSeq);
      }
    }

    /** Nothing for a prim that cannot be read, "inactive" for one that is, its state for any other. */
    method SendCorrection(c: ConnectionId, p: PrimPath)
      requires Valid()
      modifies this`clients, this`serverSeq, this`astray, versions
      ensures Valid() && Value() == Protocol.SendCorrection(old(Value()), c, p)
    {
      if c !in clients {
        return;
      }
      var found := FindPrim(p);
      if !found {
        astray := astray + {(c, p)};
        return;
      }
      if p in inactive {
        SendCorrected(c, p, ActiveFrame(serverSeq + 1, p, false));
        astray := astray + {(c, p)};
      } else {
        var value := ReadTransform(p);
        SendCorrected(c, p, Xform(serverSeq + 1, p, value));
        astray := astray - {(c, p)};
      }
    }

    method SendCorrected(c: ConnectionId, p: PrimPath, frame: Frame)
      requires Valid() && c in clients
      modifies this`clients, this`serverSeq, versions
      ensures Valid() && serverSeq == old(serverSeq) + 1
      ensures clients == old(clients)[c := Deliver(old(clients)[c], frame)]
      ensures versions.State() == Record(old(versions.State()), Correction(c, p, serverSeq))
    {
      serverSeq := serverSeq + 1;
      clients := clients[c := Deliver(clients[c], frame)];
      versions.RecordCorrection(c, p, serverSeq);
    }

    /** `done` are the clients that have the frame already. */
    method SendOne(
      c: ConnectionId, frame: Frame, s: nat, ghost book: Book, ghost was: map<ConnectionId, Client>,
      ghost done: set<ConnectionId>)
      requires Valid() && c in was && c !in done
      requires clients == Delivered(was, done, frame) && versions.State() == SentToAll(book, done, s)
      modifies this`clients, versions
      ensures Valid() && clients == Delivered(was, done + {c}, frame)
              && versions.State() == SentToAll(book, done + {c}, s)
    {
      SentToOneMore(book, done, c, s);
      DeliveredOneMore(was, done, c, frame);
      clients := clients[c := Deliver(clients[c], frame)];
      versions.RecordSent(c, s);
    }

    /** One frame to every client not in `skip`. */
    method SendToOthers(frame: Frame, skip: set<ConnectionId>, s: nat)
      requires Valid()
      modifies this`clients, versions
      ensures Valid() && clients == Delivered(old(clients), old(clients).Keys - skip, frame)
      ensures versions.State() == SentToAll(old(versions.State()), old(clients).Keys - skip, s)
    {
      var todo := clients.Keys;
      ghost var book, was, done := versions.State(), clients, {};
      SentToNobody(book, s);
      DeliveredNobody(was, frame);
      while todo != {}
        invariant Valid() && Parted(was.Keys, done, todo, skip)
        invariant clients == Delivered(was, done, frame) && versions.State() == SentToAll(book, done, s)
        decreases |todo|
      {
        var c :| c in todo;
        NextOne(was.Keys, done, todo, skip, c);
        if c !in skip {
          SendOne(c, frame, s, book, was, done);
          done := done + {c};
        }
        todo := todo - {c};
      }
      assert done == was.Keys - skip;
    }

    /** One changed prim of a notice: recorded, then sent to every client but `origin` if it can be read. */
    method Broadcast(p: PrimPath, origin: ConnectionId)
      requires Valid()
      modifies this`clients, this`astray, versions
      ensures Valid() && Value() == BroadcastChange(old(Value()), p, origin)
    {
      versions.RecordChange(p, serverSeq, origin);
      var found := FindPrim(p);
      ghost var others := Others(Value(), p, origin);
      if !found {
        astray := astray + others;
        return;
      }
      var value := ReadTransform(p);
      SendToOthers(Xform(serverSeq, p, value), {origin}, serverSeq);
      ToAllBut(old(clients), origin, Xform(serverSeq, p, value));
      astray := astray - others;
    }

    /** `applies` is whether the dispatcher can author the update. */
    method HandleTransform(c: ConnectionId, u: Update, applies: bool)
      requires Valid() && u.Update? && (applies ==> Readable(Value(), u.prim))
      modifies this`session, this`announced, this`clients, this`serverSeq, this`astray, versions
      ensures Valid() && Value() == Protocol.HandleTransform(old(Value()), c, u, applies)
    {
      var status := versions.CheckUpdate(c, u.prim, u.base);
      if status != Current {
        SendAck(c, u.requestId, false);
        return;
      }
      if applies {
        Apply(u, c);
      }
      SendAck(c, u.requestId, applies);
      if !applies {
        SendCorrection(c, u.prim);
      }
    }

    /** The dispatcher authors the update, and the notice it fires is broadcast. */
    method Apply(u: Update, c: ConnectionId)
      requires Valid() && u.Update? && Readable(Value(), u.prim)
      modifies this`session, this`announced, this`clients, this`serverSeq, this`astray, versions
      ensures Valid() && Value() == BroadcastChange(Settle(Protocol.Author(old(Value()), u), c, u), u.prim, c)
    {
      Author(u);
      astray := Settle(Value(), c, u).astray;
      Broadcast(u.prim, c);
    }

    /** Components are authored beside a matrix, which stays where it is. */
    method Author(u: Update)
      requires Valid() && u.Update?
      modifies this`session, this`announced, this`serverSeq
      ensures Valid() && Value() == Protocol.Author(old(Value()), u)
    {
      var v := narrow(u.value);
      session := session[u.prim := v];
      if v.Matrix? || u.prim !in announced || announced[u.prim].Separate? {
        announced := announced[u.prim := v];
      }
      serverSeq := serverSeq + 1;
    }

    /** A creation or an active state; `q` is the prim and `e` what the dispatcher made of it. */
    method HandleScene(c: ConnectionId, u: Update, q: PrimPath, e: SceneEffect)
      requires Valid()
      modifies this`created, this`inactive, this`clients, this`serverSeq, this`astray, versions
      ensures Valid() && Value() == Protocol.HandleScene(old(Value()), c, u, q, e)
    {
      if e.NoChange? {
        SendAck(c, u.requestId, e.ok);
        return;
      }
      if e.Created? {
        BroadcastCreated(q, c);
      } else {
        BroadcastActiveState(q, c, e.Activated?);
      }
      SendAck(c, u.requestId, true);
    }

    method BroadcastCreated(q: PrimPath, origin: ConnectionId)
      requires Valid()
      modifies this`created, this`clients, this`serverSeq, this`astray, versions
      ensures Valid() && Value() == BroadcastCreate(old(Value()), q, origin)
    {
      BroadcastToAll(CreateFrame(serverSeq + 1, q), origin);
      created := created + {q};
      astray := BroadcastCreate(old(Value()), q, origin).astray;
    }

    method BroadcastActiveState(q: PrimPath, origin: ConnectionId, active: bool)
      requires Valid()
      modifies this`inactive, this`clients, this`serverSeq, this`astray, versions
      ensures Valid() && Value() == BroadcastActive(old(Value()), q, origin, active)
    {
      BroadcastToAll(ActiveFrame(serverSeq + 1, q, active), origin);
      if active {
        inactive := inactive - {q};
      } else {
        inactive := inactive + {q};
      }
      astray := BroadcastActive(old(Value()), q, origin, active).astray;
    }

    /** One version, recorded as a change and sent to every client. */
    method BroadcastToAll(frame: Frame, origin: ConnectionId)
      requires Valid() && (frame.CreateFrame? || frame.ActiveFrame?) && frame.seq_ == serverSeq + 1
      modifies this`clients, this`serverSeq, versions
      ensures Valid() && Value() == ToEveryone(old(Value()), frame, origin)
    {
      serverSeq := serverSeq + 1;
      versions.RecordChange(frame.prim, serverSeq, origin);
      SendToOthers(frame, {}, serverSeq);
      ToEverybody(old(clients), frame);
    }

    /** The snapshot is read from the session layer without composing it. */
    method HandleJoin(c: ConnectionId)
      requires Valid()
      modifies this`clients, this`astray, versions
      ensures Valid() && Value() == Protocol.HandleJoin(old(Value()), c)
    {
      if c !in clients {
        return;
      }
      ghost var w := Value();
      var values := map p | p in announced.Keys + created :: if p in announced then announced[p] else IDENTITY;
      clients := clients[c := Deliver(clients[c], Snapshot(serverSeq, values)).(phase := SnapshotSent)];
      versions.RecordSent(c, serverSeq);
      astray := Protocol.HandleJoin(w, c).astray;
    }

    /** The reload and its notice: one version for all prims of it. */
    method HandleReload(newRoot: Poses, newInactive: set<PrimPath>, affected: seq<PrimPath>)
      requires Valid()
      modifies this`root, this`inactive, this`clients, this`serverSeq, this`astray, versions
      ensures Valid() && Value() == Protocol.HandleReload(old(Value()), newRoot, newInactive, affected)
    {
      ReplaceRoot(newRoot, newInactive);
      if affected != [] {
        serverSeq := serverSeq + 1;
      }
      BroadcastReload(affected);
    }

    method ReplaceRoot(newRoot: Poses, newInactive: set<PrimPath>)
      requires Valid()
      modifies this`root, this`inactive, this`astray
      ensures Valid() && Value() == Replaced(old(Value()), newRoot, newInactive)
    {
      astray := Replaced(Value(), newRoot, newInactive).astray;
      root, inactive := newRoot, newInactive;
    }

    /** The prims that the session overrides are skipped. */
    method BroadcastReload(affected: seq<PrimPath>)
      requires Valid()
      modifies this`clients, this`astray, versions
      ensures Valid() && Value() == ReloadLoop(old(Value()), affected)
    {
      ghost var end := ReloadLoop(Value(), affected);
      assert affected[0..] == affected;
      for i := 0 to |affected|
        invariant Valid() && ReloadLoop(Value(), affected[i..]) == end
      {
        assert affected[i..][1..] == affected[i + 1..];
        if affected[i] !in session {
          Broadcast(affected[i], 0);
        }
      }
    }
  }
}
