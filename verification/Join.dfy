/**
 The join snapshot: creations ordered by depth, then transforms, then deletions, read
 from the session layer alone.
 */
module Join {
  import opened Wrappers
  import opened Transforms
  import opened Scene
  import opened Snapshot
  import opened StableSort

  /** `ps` enumerates the specs of the layer in some order. */
  ghost predicate Lists(ps: seq<Path>, layer: Layer) {
    Distinct(ps) && forall p :: p in ps <==> p in layer
  }

  /** `GetPathElementCount`. */
  function Depth(p: Path): nat {
    |p|
  }

  // ------------------------------------------------------------------
  // The frames
  // ------------------------------------------------------------------

  /** What the late joiner is told about a transform: a matrix that was once authored wins. */
  function Authored(spec: Spec): Option<Transform> {
    if spec.matrix.Some? then spec.matrix else spec.separate
  }

  /** A `def` of a type the protocol can name. */
  predicate IsCreation(spec: Spec) {
    spec.prim.Some? && TypeFromName(TypeName(spec.prim.value)).Some?
  }

  function Creations(layer: Layer, ps: seq<Path>): seq<Path>
    requires forall p | p in ps :: p in layer
    decreases |ps|
  {
    if ps == [] then []
    else var p := ps[|ps| - 1];
         Creations(layer, ps[..|ps| - 1]) + if IsCreation(layer[p]) then [p] else []
  }

  ghost predicate AreCreations(layer: Layer, ps: seq<Path>) {
    forall i | 0 <= i < |ps| :: ps[i] in layer && ps[i] != [] && layer[ps[i]].prim.Some?
  }

  function CreateFrames(layer: Layer, ps: seq<Path>): seq<Frame>
    requires AreCreations(layer, ps)
    decreases |ps|
  {
    if ps == [] then []
    else var p := ps[|ps| - 1];
         CreateFrames(layer, ps[..|ps| - 1]) + [CreateOf(layer, p)]
  }

  function CreateOf(layer: Layer, p: Path): Frame
    requires p in layer && p != [] && layer[p].prim.Some?
  {
    CreateFrame(Parent(p), p[|p| - 1], layer[p].prim.value)
  }

  function XformOf(layer: Layer, p: Path): seq<Frame>
    requires p in layer
  {
    var t := Authored(layer[p]);
    if t.Some? then [XformFrame(p, t.value)] else []
  }

  function DeleteOf(layer: Layer, p: Path): seq<Frame>
    requires p in layer
  {
    if layer[p].active == Some(false) then [ActiveFrame(p, false)] else []
  }

  function XformFrames(layer: Layer, ps: seq<Path>): seq<Frame>
    requires forall p | p in ps :: p in layer
    decreases |ps|
  {
    if ps == [] then []
    else XformFrames(layer, ps[..|ps| - 1]) + XformOf(layer, ps[|ps| - 1])
  }

  function DeleteFrames(layer: Layer, ps: seq<Path>): seq<Frame>
    requires forall p | p in ps :: p in layer
    decreases |ps|
  {
    if ps == [] then []
    else DeleteFrames(layer, ps[..|ps| - 1]) + DeleteOf(layer, ps[|ps| - 1])
  }

  lemma {:induction false} CreationsAre(layer: Layer, ps: seq<Path>)
    requires forall p | p in ps :: p in layer
    ensures forall p :: p in Creations(layer, ps) <==> p in ps && IsCreation(layer[p])
    ensures Distinct(ps) ==> Distinct(Creations(layer, ps))
    decreases |ps|
  {
    if ps != [] {
      var init, last := ps[..|ps| - 1], ps[|ps| - 1];
      CreationsAre(layer, init);
      assert ps == init + [last];
    }
  }

  /** Every `def` a command authors has such a type. */
  lemma DefsAreCreations(layer: Layer, p: Path)
    requires p in layer
    ensures IsCreation(layer[p]) <==> layer[p].prim.Some?
  {
    if layer[p].prim.Some? {
      TypeNames(layer[p].prim.value, TypeName(layer[p].prim.value));
    }
  }

  lemma SortedCreations(layer: Layer, ps: seq<Path>)
    requires Lists(ps, layer)
    ensures var cs := Sort(Depth, Creations(layer, ps));
            Distinct(cs) && Sorted(Depth, cs) && forall p :: p in cs <==> p in layer && layer[p].prim.Some?
  {
    var cs := Sort(Depth, Creations(layer, ps));
    CreationsAre(layer, ps);
    SortCorrect(Depth, Creations(layer, ps));
    forall p ensures p in cs <==> p in layer && layer[p].prim.Some? {
      if p in layer {
        DefsAreCreations(layer, p);
      }
    }
  }

  lemma CreationsInLayer(layer: Layer, cs: seq<Path>)
    requires Closed(layer.Keys) && forall p :: p in cs <==> p in layer && layer[p].prim.Some?
    ensures AreCreations(layer, cs)
  {
    forall i | 0 <= i < |cs| ensures cs[i] in layer && cs[i] != [] && layer[cs[i]].prim.Some? {
      assert cs[i] in cs;
    }
  }

  ghost function JoinFrames(layer: Layer, ps: seq<Path>): seq<Frame>
    requires Lists(ps, layer) && Closed(layer.Keys)
  {
    SortedCreations(layer, ps);
    CreationsInLayer(layer, Sort(Depth, Creations(layer, ps)));
    CreateFrames(layer, Sort(Depth, Creations(layer, ps))) + XformFrames(layer, ps) + DeleteFrames(layer, ps)
  }

  // ------------------------------------------------------------------
  // The replay
  // ------------------------------------------------------------------

  function BaseActive(s: Stage, p: Path): bool {
    p in s.root ==> s.root[p].active
  }

  function JoinedTransform(s: Stage, p: Path): Transform {
    var t := Authored(SpecAt(s.session, p));
    if t.Some? then t.value else BaseTransform(s, p)
  }

  predicate JoinedActive(s: Stage, p: Path) {
    SpecAt(s.session, p).active != Some(false) && BaseActive(s, p)
  }

  /** The view after the creations of `cs`. */
  function CreatedView(s: Stage, cs: seq<Path>): View {
    map p | p in s.root.Keys + (set p | p in cs) :: Node(KindOf(s, p), BaseTransform(s, p), BaseActive(s, p))
  }

  /** All prims, with the transforms of `xs` and the deletions of `ds`. */
  function JoinedView(s: Stage, xs: seq<Path>, ds: seq<Path>): View {
    map p | p in s.root.Keys + s.session.Keys ::
      Node(KindOf(s, p), if p in xs then JoinedTransform(s, p) else BaseTransform(s, p),
           if p in ds then JoinedActive(s, p) else BaseActive(s, p))
  }

  ghost predicate ParentsFirst(s: Stage, cs: seq<Path>) {
    forall i | 0 <= i < |cs| :: cs[i] != []
      && (Parent(cs[i]) == [] || Parent(cs[i]) in s.root || Parent(cs[i]) in cs[..i])
  }

  /** A `def` is no prim of the root layer, an `over` is. */
  ghost predicate DefsApart(s: Stage) {
    forall p | p in s.session :: s.session[p].prim.Some? <==> p !in s.root
  }

  lemma ParentEarlier(cs: seq<Path>, i: nat, q: Path)
    requires Sorted(Depth, cs) && i < |cs| && q in cs && |q| < |cs[i]|
    ensures q in cs[..i]
  {
    var j :| 0 <= j < |cs| && cs[j] == q;
    assert Depth(cs[j]) < Depth(cs[i]);
    assert cs[..i][j] == q;
  }

  lemma DepthOrder(s: Stage, cs: seq<Path>)
    requires DefsApart(s) && Closed(s.session.Keys) && Sorted(Depth, cs) && AreCreations(s.session, cs)
    requires forall p :: p in cs <==> p in s.session && s.session[p].prim.Some?
    ensures ParentsFirst(s, cs)
  {
    forall i | 0 <= i < |cs|
      ensures cs[i] != [] && (Parent(cs[i]) == [] || Parent(cs[i]) in s.root || Parent(cs[i]) in cs[..i])
    {
      var q := Parent(cs[i]);
      if q != [] && q !in s.root {
        assert q in s.session;
        ParentEarlier(cs, i, q);
      }
    }
  }

  /** The same, path by path. */
  ghost predicate Creating(s: Stage, cs: seq<Path>)
    decreases |cs|
  {
    cs != [] ==>
      var init, p := cs[..|cs| - 1], cs[|cs| - 1];
      && Creating(s, init) && p !in init && p != [] && p in s.session && s.session[p].prim.Some?
      && (Parent(p) == [] || Parent(p) in s.root || Parent(p) in init)
  }

  lemma {:induction false} AllCreating(s: Stage, cs: seq<Path>)
    requires Distinct(cs) && ParentsFirst(s, cs) && AreCreations(s.session, cs)
    ensures Creating(s, cs)
    decreases |cs|
  {
    if cs != [] {
      var init := cs[..|cs| - 1];
      forall i | 0 <= i < |init| ensures init[i] == cs[i] && init[..i] == cs[..i] {
      }
      AllCreating(s, init);
    }
  }

  /** The views as values: what the last frame adds. */
  lemma CreateLast(s: Stage, cs: seq<Path>, v: View, u: View, w: View)
    requires cs != [] && AreCreations(s.session, cs)
    requires Replay(v, CreateFrames(s.session, cs[..|cs| - 1])) == Some(u)
    requires Replay(u, [CreateOf(s.session, cs[|cs| - 1])]) == Some(w)
    ensures Replay(v, CreateFrames(s.session, cs)) == Some(w)
  {
    ReplayThrough(v, CreateFrames(s.session, cs[..|cs| - 1]), u, [CreateOf(s.session, cs[|cs| - 1])], w);
  }

  lemma {:induction false} CreatesReplay(s: Stage, cs: seq<Path>)
    requires DefsApart(s) && Creating(s, cs) && AreCreations(s.session, cs)
    ensures Replay(CreatedView(s, []), CreateFrames(s.session, cs)) == Some(CreatedView(s, cs))
    decreases |cs|
  {
    if cs != [] {
      var init, p := cs[..|cs| - 1], cs[|cs| - 1];
      assert cs == init + [p];
      CreatesReplay(s, init);
      CreateReplays(s, init, p);
      CreateLast(s, cs, CreatedView(s, []), CreatedView(s, init), CreatedView(s, cs));
    }
  }

  lemma RootView(s: Stage)
    requires DefsApart(s)
    ensures Composed(Stage(s.root, map[])) == CreatedView(s, [])
  {
  }

  lemma CreatedStep(s: Stage, cs: seq<Path>, p: Path)
    requires DefsApart(s) && p in s.session && s.session[p].prim.Some? && p !in cs
    ensures p !in CreatedView(s, cs)
    ensures CreatedView(s, cs + [p])
            == CreatedView(s, cs)[p := Node(CreatedKind(s.session[p].prim.value), IDENTITY, true)]
  {
    assert forall q :: q in cs + [p] <==> q in cs || q == p;
  }

  lemma CreateReplays(s: Stage, cs: seq<Path>, p: Path)
    requires DefsApart(s) && p != [] && p in s.session && s.session[p].prim.Some? && p !in cs
    requires Parent(p) == [] || Parent(p) in s.root || Parent(p) in cs
    ensures Replay(CreatedView(s, cs), [CreateOf(s.session, p)]) == Some(CreatedView(s, cs + [p]))
  {
    ReplayOne(CreatedView(s, cs), CreateOf(s.session, p));
    assert Parent(p) + [p[|p| - 1]] == p;
    CreatedStep(s, cs, p);
    assert Parent(p) in s.root || Parent(p) in cs ==> Parent(p) in CreatedView(s, cs);
  }

  lemma AllCreated(s: Stage, cs: seq<Path>)
    requires DefsApart(s) && (forall p :: p in cs <==> p in s.session && s.session[p].prim.Some?)
    ensures CreatedView(s, cs) == JoinedView(s, [], [])
  {
  }

  lemma XformStep(s: Stage, xs: seq<Path>, p: Path)
    requires p in s.session && p !in xs
    ensures Replay(JoinedView(s, xs, []), XformOf(s.session, p)) == Some(JoinedView(s, xs + [p], []))
  {
    var v, v', t := JoinedView(s, xs, []), JoinedView(s, xs + [p], []), Authored(s.session[p]);
    assert forall q :: q in xs + [p] <==> q in xs || q == p;
    assert v' == if t.Some? then v[p := v[p].(transform := t.value)] else v;
    if t.Some? {
      ReplayOne(v, XformFrame(p, t.value));
    }
  }

  lemma {:induction false} XformsReplay(s: Stage, ps: seq<Path>)
    requires Distinct(ps) && (forall p | p in ps :: p in s.session)
    ensures Replay(JoinedView(s, [], []), XformFrames(s.session, ps)) == Some(JoinedView(s, ps, []))
    decreases |ps|
  {
    if ps != [] {
      var init, p := ps[..|ps| - 1], ps[|ps| - 1];
      XformsReplay(s, init);
      XformStep(s, init, p);
      ReplayOn(JoinedView(s, [], []), XformFrames(s.session, init), XformOf(s.session, p));
      assert ps == init + [p];
    }
  }

  lemma DeleteStep(s: Stage, xs: seq<Path>, ds: seq<Path>, p: Path)
    requires p in s.session && p !in ds
    ensures Replay(JoinedView(s, xs, ds), DeleteOf(s.session, p)) == Some(JoinedView(s, xs, ds + [p]))
  {
    var v, v' := JoinedView(s, xs, ds), JoinedView(s, xs, ds + [p]);
    assert forall q :: q in ds + [p] <==> q in ds || q == p;
    assert v' == if s.session[p].active == Some(false) then v[p := v[p].(active := false)] else v;
    if s.session[p].active == Some(false) {
      ReplayOne(v, ActiveFrame(p, false));
    }
  }

  lemma {:induction false} DeletesReplay(s: Stage, xs: seq<Path>, ps: seq<Path>)
    requires Distinct(ps) && (forall p | p in ps :: p in s.session)
    ensures Replay(JoinedView(s, xs, []), DeleteFrames(s.session, ps)) == Some(JoinedView(s, xs, ps))
    decreases |ps|
  {
    if ps != [] {
      var init, p := ps[..|ps| - 1], ps[|ps| - 1];
      DeletesReplay(s, xs, init);
      DeleteStep(s, xs, init, p);
      ReplayOn(JoinedView(s, xs, []), DeleteFrames(s.session, init), DeleteOf(s.session, p));
      assert ps == init + [p];
    }
  }

  /** Every frame of the snapshot applies, parents before children, and this is what the joiner then shows. */
  lemma JoinReplay(s: Stage, ps: seq<Path>)
    requires Inv(s) && Lists(ps, s.session)
    ensures Replay(Composed(Stage(s.root, map[])), JoinFrames(s.session, ps)) == Some(JoinedView(s, ps, ps))
  {
    var v := Composed(Stage(s.root, map[]));
    SortedCreations(s.session, ps);
    var cs := Sort(Depth, Creations(s.session, ps));
    CreationsInLayer(s.session, cs);
    assert DefsApart(s) by {
      assert forall p | p in s.session :: SpecOk(s, p, s.session[p]);
    }
    DepthOrder(s, cs);
    AllCreating(s, cs);
    RootView(s);
    CreatesReplay(s, cs);
    AllCreated(s, cs);
    XformsReplay(s, ps);
    DeletesReplay(s, ps, ps);
    var a, b, c := CreateFrames(s.session, cs), XformFrames(s.session, ps), DeleteFrames(s.session, ps);
    ReplayOn(v, a, b);
    ReplayOn(v, a + b, c);
  }

  // ------------------------------------------------------------------
  // When the joiner shows the server's scene
  // ------------------------------------------------------------------

  /** The prim got a matrix once and separate components later. */
  predicate ShapesMixed(spec: Spec) {
    spec.matrix.Some? && spec.order == Some(SeparateShape)
  }

  /** The file ships the prim inactive and the session activated it. */
  predicate Revived(s: Stage, p: Path) {
    p in s.root && !s.root[p].active && SpecAt(s.session, p).active == Some(true)
  }

  lemma NodeExact(s: Stage, p: Path)
    requires Inv(s) && HasPrim(s, p)
    ensures JoinedTransform(s, p) == ResolvedTransform(s, p) <==> !ShapesMixed(SpecAt(s.session, p))
    ensures JoinedActive(s, p) == IsActive(s, p) <==> !Revived(s, p)
  {
    var spec := SpecAt(s.session, p);
    assert p in s.session ==> SpecOk(s, p, spec);
    match spec.order
    case None =>
    case Some(SeparateShape) =>
    case Some(MatrixShape) =>
  }

  /** The joiner shows the server's scene exactly if no prim has mixed shapes or was revived. */
  lemma JoinExact(s: Stage, ps: seq<Path>)
    requires Inv(s) && Lists(ps, s.session)
    ensures Replay(Composed(Stage(s.root, map[])), JoinFrames(s.session, ps)) == Some(Composed(s))
       <==> forall p | p in s.session :: !ShapesMixed(s.session[p]) && !Revived(s, p)
  {
    JoinReplay(s, ps);
    ViewsAgree(s, ps);
    assert forall p | p in s.session :: ExactAt(s, p) <==> !ShapesMixed(s.session[p]) && !Revived(s, p);
  }

  ghost predicate ExactAt(s: Stage, p: Path) {
    p in s.session ==> !ShapesMixed(s.session[p]) && !Revived(s, p)
  }

  lemma NodeAgrees(s: Stage, ps: seq<Path>, p: Path)
    requires Inv(s) && Lists(ps, s.session) && HasPrim(s, p)
    ensures JoinedView(s, ps, ps)[p] == Composed(s)[p] <==> ExactAt(s, p)
  {
    NodeExact(s, p);
    JoinedNode(s, ps, p);
  }

  lemma SameView(v: View, v': View)
    requires v.Keys == v'.Keys && forall p | p in v :: v[p] == v'[p]
    ensures v == v'
  {
  }

  lemma ViewsAgree(s: Stage, ps: seq<Path>)
    requires Inv(s) && Lists(ps, s.session)
    ensures JoinedView(s, ps, ps) == Composed(s) <==> forall p | p in s.session :: ExactAt(s, p)
  {
    if p :| p in s.session && !ExactAt(s, p) {
      NodeAgrees(s, ps, p);
    } else {
      forall p | HasPrim(s, p) ensures JoinedView(s, ps, ps)[p] == Composed(s)[p] {
        NodeAgrees(s, ps, p);
      }
      SameView(JoinedView(s, ps, ps), Composed(s));
    }
  }

  lemma JoinedNode(s: Stage, ps: seq<Path>, p: Path)
    requires Lists(ps, s.session) && HasPrim(s, p)
    ensures JoinedView(s, ps, ps)[p] == Node(KindOf(s, p), JoinedTransform(s, p), JoinedActive(s, p))
  {
  }

  // ------------------------------------------------------------------
  // Runs
  // ------------------------------------------------------------------

  /** All updates of a prim have the shape `shapes` gives it. */
  ghost predicate OneShape(cs: seq<Command>, shapes: Path -> Shape) {
    forall i | 0 <= i < |cs| && cs[i].Apply? && cs[i].path.Some? && cs[i].transform.Some? ::
      ShapeOf(cs[i].transform.value) == shapes(cs[i].path.value)
  }

  ghost predicate SpecUnmixed(spec: Spec, shape: Shape) {
    (spec.matrix.Some? ==> shape == MatrixShape) && (spec.order.Some? ==> spec.order.value == shape)
  }

  ghost predicate Unmixed(s: Stage, shapes: Path -> Shape) {
    forall p | p in s.session :: SpecUnmixed(s.session[p], shapes(p))
  }

  lemma {:induction false} RunUnmixed(root: map<Path, RootPrim>, cs: seq<Command>, shapes: Path -> Shape)
    requires RootOk(root) && OneShape(cs, shapes)
    ensures Unmixed(Run(Stage(root, map[]), cs), shapes)
    decreases |cs|
  {
    if cs != [] {
      var before, c := cs[..|cs| - 1], cs[|cs| - 1];
      RunUnmixed(root, before, shapes);
      ExecuteUnmixed(Run(Stage(root, map[]), before), c, shapes);
    }
  }

  lemma NewSpecUnmixed(s: Stage, c: Command, shape: Shape)
    requires StatusOf(s, c) == Done && SpecUnmixed(SpecAt(s.session, Target(s, c)), shape)
    requires c.Apply? ==> ShapeOf(c.transform.value) == shape
    ensures SpecUnmixed(NewSpec(s, c), shape)
  {
  }

  lemma ExecuteUnmixed(s: Stage, c: Command, shapes: Path -> Shape)
    requires Unmixed(s, shapes)
    requires c.Apply? && c.path.Some? && c.transform.Some? ==> ShapeOf(c.transform.value) == shapes(c.path.value)
    ensures Unmixed(Execute(s, c), shapes)
  {
    if StatusOf(s, c) == Done {
      var p := Target(s, c);
      NewSpecUnmixed(s, c, shapes(p));
      AuthorUnmixed(s, p, NewSpec(s, c), shapes);
    }
  }

  lemma AuthorUnmixed(s: Stage, p: Path, spec: Spec, shapes: Path -> Shape)
    requires Unmixed(s, shapes) && p != [] && SpecUnmixed(spec, shapes(p))
    ensures Unmixed(s.(session := Author(s.session, p, spec)), shapes)
  {
  }

  /**
   Snapshot replay: whatever was created, moved, deleted and restored before, a client
   that joins late shows what a client shows that was there all the time.
   */
  lemma SnapshotReplay(root: map<Path, RootPrim>, cs: seq<Command>, shapes: Path -> Shape, ps: seq<Path>)
    requires RootOk(root) && (forall p | p in root :: root[p].active) && OneShape(cs, shapes)
    requires Lists(ps, Run(Stage(root, map[]), cs).session)
    ensures var s := Run(Stage(root, map[]), cs);
            && Inv(s)
            && Replay(Composed(Stage(root, map[])), JoinFrames(s.session, ps)) == Some(Composed(s))
            && Replay(Composed(Stage(root, map[])), JoinFrames(s.session, ps))
            == Replay(Composed(Stage(root, map[])), Broadcasts(Stage(root, map[]), cs))
  {
    var s := Run(Stage(root, map[]), cs);
    RunKeepsInv(root, cs);
    RunUnmixed(root, cs, shapes);
    JoinExact(s, ps);
    LiveReplay(root, cs);
  }

  // ------------------------------------------------------------------
  // Runs after which it is wrong
  // ------------------------------------------------------------------

  function OnePrim(active: bool): map<Path, RootPrim> {
    map[["A"] := RootPrim(Kind("Xform", false), IDENTITY, active, true, {SeparateShape, MatrixShape})]
  }

  const A := Some(["A"])

  lemma MatrixThenSeparate(m: seq<real>) returns (s: Stage)
    ensures s == Run(Stage(OnePrim(true), map[]), [Apply(A, Some(Matrix(m))), Apply(A, Some(IDENTITY))])
    ensures s.session.Keys == {["A"]} && ShapesMixed(s.session[["A"]])
  {
    var s0 := Stage(OnePrim(true), map[]);
    var c1, c2 := Apply(A, Some(Matrix(m))), Apply(A, Some(IDENTITY));
    var s1 := Execute(s0, c1);
    s := Execute(s1, c2);
    assert [c1, c2][..1] == [c1] && [c1][..0] == [];
    assert Run(s0, [c1]) == s1;
    assert WithAncestors(map[], ["A"]) == map[["A"] := OVER];
    assert s1.session == map[["A"] := WithTransform(OVER, Matrix(m))];
  }

  /** A matrix and then separate components: the joiner gets the matrix. */
  lemma MixedShapesWrong(m: seq<real>)
    ensures var s := Run(Stage(OnePrim(true), map[]), [Apply(A, Some(Matrix(m))), Apply(A, Some(IDENTITY))]);
            && Inv(s) && Lists([["A"]], s.session)
            && Replay(Composed(Stage(s.root, map[])), JoinFrames(s.session, [["A"]])) != Some(Composed(s))
  {
    var s := MatrixThenSeparate(m);
    RunKeepsInv(OnePrim(true), [Apply(A, Some(Matrix(m))), Apply(A, Some(IDENTITY))]);
    JoinExact(s, [["A"]]);
  }

  /** A prim the file ships inactive and the session activates: the joiner still shows it inactive. */
  lemma RevivedWrong()
    ensures var s := Run(Stage(OnePrim(false), map[]), [SetActive(A, true, true)]);
            && Inv(s) && Lists([["A"]], s.session)
            && Replay(Composed(Stage(s.root, map[])), JoinFrames(s.session, [["A"]])) != Some(Composed(s))
  {
    var s0, c := Stage(OnePrim(false), map[]), SetActive(A, true, true);
    var s1 := Execute(s0, c);
    assert [c][..0] == [];
    assert Run(s0, [c]) == s1;
    RunKeepsInv(OnePrim(false), [c]);
    assert WithAncestors(map[], ["A"]) == map[["A"] := OVER];
    assert s1.session.Keys == {["A"]};
    assert Revived(s1, ["A"]);
    JoinExact(s1, [["A"]]);
  }
}
