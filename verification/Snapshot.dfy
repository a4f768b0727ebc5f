/**
 What clients see of the scene: the broadcasts of a run, and the frames a late joiner
 gets instead. Both are replayed on the scene of the root file.
 */
module Snapshot {
  import opened Wrappers
  import opened Transforms
  import opened Scene

  datatype Node = Node(kind: Kind, transform: Transform, active: bool)

  type View = map<Path, Node>

  datatype Frame =
    | CreateFrame(parent: Path, name: string, prim: PrimType)
    | XformFrame(path: Path, transform: Transform)
    | ActiveFrame(path: Path, active: bool)

  function NodeAt(s: Stage, p: Path): Node {
    Node(KindOf(s, p), ResolvedTransform(s, p), IsActive(s, p))
  }

  /** Every prim of the two layers, also below inactive ones. */
  function Composed(s: Stage): View {
    map p | p in s.root.Keys + s.session.Keys :: NodeAt(s, p)
  }

  // ------------------------------------------------------------------
  // The client
  // ------------------------------------------------------------------

  /** A frame is applicable if its prim (for a creation: its parent) exists. */
  function ApplyFrame(v: View, f: Frame): Option<View> {
    match f
    case CreateFrame(parent, name, prim) =>
      if (parent == [] || parent in v) && parent + [name] !in v
      then Some(v[parent + [name] := Node(CreatedKind(prim), IDENTITY, true)]) else None
    case XformFrame(p, t) => if p in v then Some(v[p := v[p].(transform := t)]) else None
    case ActiveFrame(p, a) => if p in v then Some(v[p := v[p].(active := a)]) else None
  }

  function Replay(v: View, fs: seq<Frame>): Option<View>
    decreases |fs|
  {
    if fs == [] then Some(v)
    else var before := Replay(v, fs[..|fs| - 1]);
         if before.Some? then ApplyFrame(before.value, fs[|fs| - 1]) else None
  }

  lemma {:induction false} ReplayOn(v: View, fs: seq<Frame>, gs: seq<Frame>)
    requires Replay(v, fs).Some?
    ensures Replay(v, fs + gs) == Replay(Replay(v, fs).value, gs)
    decreases |gs|
  {
    if gs == [] {
      assert fs + gs == fs;
    } else {
      assert (fs + gs)[..|fs + gs| - 1] == fs + gs[..|gs| - 1];
      ReplayOn(v, fs, gs[..|gs| - 1]);
    }
  }

  lemma ReplayThrough(v: View, fs: seq<Frame>, u: View, gs: seq<Frame>, w: View)
    requires Replay(v, fs) == Some(u) && Replay(u, gs) == Some(w)
    ensures Replay(v, fs + gs) == Some(w)
  {
    ReplayOn(v, fs, gs);
  }

  lemma ReplayOne(v: View, f: Frame)
    ensures Replay(v, [f]) == ApplyFrame(v, f)
  {
    assert [f][..0] == [];
  }

  // ------------------------------------------------------------------
  // Clients that were there
  // ------------------------------------------------------------------

  /** The broadcast of a command in state `s`. */
  function Broadcast(s: Stage, c: Command): seq<Frame> {
    if StatusOf(s, c) != Done then []
    else match c
      case Create(_, prim, _) => var p := Target(s, c); [CreateFrame(Parent(p), p[|p| - 1], prim.value)]
      case Apply(path, _) => [XformFrame(path.value, ResolvedTransform(Execute(s, c), path.value))]
      case SetActive(path, active, _) => [ActiveFrame(path.value, active)]
  }

  function Broadcasts(s: Stage, cs: seq<Command>): seq<Frame>
    decreases |cs|
  {
    if cs == [] then []
    else Broadcasts(s, cs[..|cs| - 1]) + Broadcast(Run(s, cs[..|cs| - 1]), cs[|cs| - 1])
  }

  ghost predicate SameBut(s: Stage, s': Stage, p: Path) {
    forall q | q != p :: HasPrim(s', q) == HasPrim(s, q) && NodeAt(s', q) == NodeAt(s, q)
  }

  lemma OneNode(s: Stage, s': Stage, p: Path)
    requires SameBut(s, s', p) && HasPrim(s', p)
    ensures Composed(s') == Composed(s)[p := NodeAt(s', p)]
  {
    assert forall q :: q in Composed(s') <==> HasPrim(s', q);
    assert forall q :: q in Composed(s) <==> HasPrim(s, q);
  }

  /** A command changes one node. */
  lemma ComposedAfter(s: Stage, c: Command)
    requires Inv(s) && StatusOf(s, c) == Done
    ensures Composed(Execute(s, c)) == Composed(s)[Target(s, c) := NodeAt(Execute(s, c), Target(s, c))]
  {
    var s', p := Execute(s, c), Target(s, c);
    TargetOk(s, c);
    assert SameBut(s, s', p) by {
      forall q | q != p ensures HasPrim(s', q) == HasPrim(s, q) && NodeAt(s', q) == NodeAt(s, q) {
        AuthorElsewhere(s, p, NewSpec(s, c), q);
      }
    }
    OneNode(s, s', p);
  }

  /** A command and its broadcast do the same. */
  lemma BroadcastTracks(s: Stage, c: Command)
    requires Inv(s)
    ensures Replay(Composed(s), Broadcast(s, c)) == Some(Composed(Execute(s, c)))
  {
    if StatusOf(s, c) == Done {
      var p := Target(s, c);
      ReplayOne(Composed(s), Broadcast(s, c)[0]);
      TargetOk(s, c);
      TargetNode(s, c);
      ComposedAfter(s, c);
      assert c.Create? ==> Parent(p) + [p[|p| - 1]] == p;
      assert HasPrim(s, p) ==> p in Composed(s);
    }
  }

  lemma TargetNode(s: Stage, c: Command)
    requires Inv(s) && StatusOf(s, c) == Done
    ensures var s', p := Execute(s, c), Target(s, c);
            NodeAt(s', p) == match c
                             case Create(_, prim, _) => Node(CreatedKind(prim.value), IDENTITY, true)
                             case Apply(_, t) => NodeAt(s, p).(transform := t.value)
                             case SetActive(_, active, _) => NodeAt(s, p).(active := active)
  {
    TargetOk(s, c);
  }

  /** A client that was there from the start shows the server's scene after every run. */
  lemma {:induction false} LiveReplay(root: map<Path, RootPrim>, cs: seq<Command>)
    requires RootOk(root)
    ensures Replay(Composed(Stage(root, map[])), Broadcasts(Stage(root, map[]), cs))
            == Some(Composed(Run(Stage(root, map[]), cs)))
    decreases |cs|
  {
    if cs != [] {
      var s0, before := Stage(root, map[]), cs[..|cs| - 1];
      LiveReplay(root, before);
      RunKeepsInv(root, before);
      BroadcastTracks(Run(s0, before), cs[|cs| - 1]);
      ReplayOn(Composed(s0), Broadcasts(s0, before), Broadcast(Run(s0, before), cs[|cs| - 1]));
    }
  }
}
