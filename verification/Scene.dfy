/**
 The scene of a session: a root layer that the session never edits and a session layer
 of opinions over it. Paths are sequences of names; [] is the pseudo-root. Create,
 Apply and SetActive are the three authoring commands.
 */
module Scene {
  import opened Wrappers
  import opened Transforms
  import opened Names

  type Path = seq<string>

  // ------------------------------------------------------------------
  // Types
  // ------------------------------------------------------------------

  datatype PrimType = Cube | Sphere | Cone | Cylinder | Capsule | Xform

  function TypeName(t: PrimType): string {
    match t
    case Cube => "Cube"
    case Sphere => "Sphere"
    case Cone => "Cone"
    case Cylinder => "Cylinder"
    case Capsule => "Capsule"
    case Xform => "Xform"
  }

  function TypeFromName(name: string): Option<PrimType> {
    if name == "Cube" then Some(Cube)
    else if name == "Sphere" then Some(Sphere)
    else if name == "Cone" then Some(Cone)
    else if name == "Cylinder" then Some(Cylinder)
    else if name == "Capsule" then Some(Capsule)
    else if name == "Xform" then Some(Xform)
    else None
  }

  /** The two mappings are inverse to each other. */
  lemma TypeNames(t: PrimType, name: string)
    ensures TypeFromName(name) == Some(t) <==> name == TypeName(t)
  {
  }

  datatype Kind = Kind(typeName: string, gprim: bool)

  function CreatedKind(t: PrimType): Kind {
    Kind(TypeName(t), !t.Xform?)
  }

  // ------------------------------------------------------------------
  // Layers
  // ------------------------------------------------------------------

  datatype Shape = SeparateShape | MatrixShape

  function ShapeOf(t: Transform): Shape {
    if t.Separate? then SeparateShape else MatrixShape
  }

  /**
   A prim of the file. `local`: no opinion on it comes from a sublayer, reference or
   payload. `shapes`: the transform shapes whose ops can be added (none if it is not
   xformable, not those that clash with an attribute of another precision).
   */
  datatype RootPrim = RootPrim(kind: Kind, transform: Transform, active: bool, local: bool, shapes: set<Shape>)

  /** A session-layer spec: a `def` if it has a type, else an `over`. Both op attributes stay once authored. */
  datatype Spec = Spec(
    prim: Option<PrimType>, order: Option<Shape>, separate: Option<Transform>, matrix: Option<Transform>,
    active: Option<bool>)

  const OVER := Spec(None, None, None, None, None)

  type Layer = map<Path, Spec>

  datatype Stage = Stage(root: map<Path, RootPrim>, session: Layer)

  function Parent(p: Path): Path
    requires p != []
  {
    p[..|p| - 1]
  }

  function SpecAt(layer: Layer, p: Path): Spec {
    if p in layer then layer[p] else OVER
  }

  /** A spec below others: the missing ancestors become overs. */
  function WithAncestors(layer: Layer, p: Path): (r: Layer)
    ensures forall q | q in r :: q in layer || (q != [] && q <= p)
    ensures forall q | q in layer :: q in r
    ensures p != [] ==> p in r
    ensures forall q | q in r :: r[q] == SpecAt(layer, q)
    decreases |p|
  {
    if p == [] then layer
    else var above := WithAncestors(layer, Parent(p)); above[p := SpecAt(layer, p)]
  }

  function Author(layer: Layer, p: Path, spec: Spec): Layer
    requires p != []
  {
    WithAncestors(layer, p)[p := spec]
  }

  // ------------------------------------------------------------------
  // Composition
  // ------------------------------------------------------------------

  predicate HasPrim(s: Stage, p: Path) {
    p in s.root || p in s.session
  }

  function KindOf(s: Stage, p: Path): Kind {
    if SpecAt(s.session, p).prim.Some? then CreatedKind(s.session[p].prim.value)
    else if p in s.root then s.root[p].kind
    else Kind("", false)
  }

  /** The flag of the prim itself, whether its ancestors are active or not. */
  predicate IsActive(s: Stage, p: Path) {
    if SpecAt(s.session, p).active.Some? then s.session[p].active.value
    else p in s.root ==> s.root[p].active
  }

  function BaseTransform(s: Stage, p: Path): Transform {
    if p in s.root then s.root[p].transform else IDENTITY
  }

  /** The op order decides which of the authored attributes count. */
  function ResolvedTransform(s: Stage, p: Path): Transform {
    var spec := SpecAt(s.session, p);
    if spec.order == Some(SeparateShape) && spec.separate.Some? then spec.separate.value
    else if spec.order == Some(MatrixShape) && spec.matrix.Some? then spec.matrix.value
    else BaseTransform(s, p)
  }

  /** Inactive prims are on the stage, prims below them are not. */
  predicate OnStage(s: Stage, p: Path) {
    (p == [] || HasPrim(s, p)) && forall k | 0 < k < |p| :: IsActive(s, p[..k])
  }

  predicate GprimAt(s: Stage, p: Path) {
    p != [] && HasPrim(s, p) && KindOf(s, p).gprim
  }

  /** `p` or one of its ancestors is a gprim. */
  predicate UnderGprim(s: Stage, p: Path) {
    exists k :: 0 < k <= |p| && GprimAt(s, p[..k])
  }

  function ChildNames(s: Stage, parent: Path): set<string> {
    set p | p in s.root.Keys + s.session.Keys && p != [] && Parent(p) == parent :: p[|p| - 1]
  }

  // ------------------------------------------------------------------
  // Commands
  // ------------------------------------------------------------------

  /** `None` is a path or type the request could not name. `authors`: the layer takes the edit. */
  datatype Command =
    | Create(parent: Option<Path>, prim: Option<PrimType>, authors: bool)
    | Apply(path: Option<Path>, transform: Option<Transform>)
    | SetActive(path: Option<Path>, active: bool, authors: bool)

  datatype Status = Done | Rejected | InvalidPath | NotFound | NotDeletable | AlreadyInState | Failed

  predicate CanCreate(s: Stage, parent: Option<Path>, prim: Option<PrimType>) {
    && prim.Some? && parent.Some?
    && OnStage(s, parent.value) && IsActive(s, parent.value)
    && !(CreatedKind(prim.value).gprim && UnderGprim(s, parent.value))
  }

  function NewPath(s: Stage, parent: Path, prim: PrimType): Path {
    parent + [FreshName(ChildNames(s, parent), TypeName(prim))]
  }

  predicate CanApply(s: Stage, path: Option<Path>, transform: Option<Transform>) {
    && path.Some? && path.value != [] && OnStage(s, path.value) && transform.Some?
    && (path.value in s.root ==> ShapeOf(transform.value) in s.root[path.value].shapes)
  }

  function WithTransform(spec: Spec, t: Transform): Spec {
    if t.Separate? then spec.(order := Some(SeparateShape), separate := Some(t))
    else spec.(order := Some(MatrixShape), matrix := Some(t))
  }

  function ActiveStatus(s: Stage, path: Option<Path>, active: bool, authors: bool): Status {
    if path.None? || path.value == [] then InvalidPath
    else if !OnStage(s, path.value) then NotFound
    else if IsActive(s, path.value) == active then AlreadyInState
    else if !active && path.value in s.root && !s.root[path.value].local then NotDeletable
    else if !authors then Failed
    else Done
  }

  function StatusOf(s: Stage, c: Command): Status {
    match c
    case Create(parent, prim, authors) => if CanCreate(s, parent, prim) && authors then Done else Rejected
    case Apply(path, t) => if CanApply(s, path, t) then Done else Rejected
    case SetActive(path, active, authors) => ActiveStatus(s, path, active, authors)
  }

  /** The prim a command that is done authors, and what it authors there. */
  function Target(s: Stage, c: Command): (p: Path)
    requires StatusOf(s, c) == Done
    ensures p != []
  {
    if c.Create? then NewPath(s, c.parent.value, c.prim.value) else c.path.value
  }

  function NewSpec(s: Stage, c: Command): Spec
    requires StatusOf(s, c) == Done
  {
    match c
    case Create(_, prim, _) => OVER.(prim := prim)
    case Apply(path, t) => WithTransform(SpecAt(s.session, path.value), t.value)
    case SetActive(path, active, _) => SpecAt(s.session, path.value).(active := Some(active))
  }

  function Execute(s: Stage, c: Command): Stage {
    if StatusOf(s, c) == Done then s.(session := Author(s.session, Target(s, c), NewSpec(s, c))) else s
  }

  function Run(s: Stage, cs: seq<Command>): Stage
    decreases |cs|
  {
    if cs == [] then s else Execute(Run(s, cs[..|cs| - 1]), cs[|cs| - 1])
  }

  // ------------------------------------------------------------------
  // Invariants
  // ------------------------------------------------------------------

  ghost predicate Closed(paths: set<Path>) {
    forall p | p in paths :: p != [] && (|p| > 1 ==> Parent(p) in paths)
  }

  ghost predicate RootOk(root: map<Path, RootPrim>) {
    Closed(root.Keys)
  }

  ghost predicate SpecOk(s: Stage, p: Path, spec: Spec) {
    && (spec.prim.Some? <==> p !in s.root)
    && (spec.separate.Some? ==> spec.separate.value.Separate?)
    && (spec.matrix.Some? ==> spec.matrix.value.Matrix?)
    && (spec.order == Some(SeparateShape) ==> spec.separate.Some?)
    && (spec.order == Some(MatrixShape) ==> spec.matrix.Some?)
    && (spec.order == None ==> spec.separate.None? && spec.matrix.None?)
  }

  /** No created gprim lies below a gprim. */
  ghost predicate GprimsFlat(s: Stage) {
    forall p | p in s.session && p != [] && s.session[p].prim.Some? && KindOf(s, p).gprim :: !UnderGprim(s, Parent(p))
  }

  ghost predicate LayerOk(s: Stage) {
    Closed(s.session.Keys) && forall p | p in s.session :: SpecOk(s, p, s.session[p])
  }

  ghost predicate Inv(s: Stage) {
    RootOk(s.root) && LayerOk(s) && GprimsFlat(s)
  }

  lemma {:induction false} ClosedPrefix(paths: set<Path>, p: Path, k: nat)
    requires Closed(paths) && p in paths && 0 < k <= |p|
    ensures p[..k] in paths
    decreases |p|
  {
    if k < |p| {
      ClosedPrefix(paths, Parent(p), k);
      assert Parent(p)[..k] == p[..k];
    } else {
      assert p[..k] == p;
    }
  }

  lemma PrefixHasPrim(s: Stage, p: Path, k: nat)
    requires RootOk(s.root) && LayerOk(s) && HasPrim(s, p) && 0 < k <= |p|
    ensures HasPrim(s, p[..k])
  {
    if p in s.root {
      ClosedPrefix(s.root.Keys, p, k);
    } else {
      ClosedPrefix(s.session.Keys, p, k);
    }
  }

  lemma NothingBelow(s: Stage, p: Path, q: Path)
    requires RootOk(s.root) && LayerOk(s) && p != [] && !HasPrim(s, p) && HasPrim(s, q)
    ensures !(p <= q)
  {
    assert p <= q ==> q[..|p|] == p;
    if p <= q {
      PrefixHasPrim(s, q, |p|);
    }
  }

  lemma {:induction false} AncestorsClosed(layer: Layer, p: Path)
    requires Closed(layer.Keys)
    ensures Closed(WithAncestors(layer, p).Keys)
    decreases |p|
  {
    if p != [] {
      AncestorsClosed(layer, Parent(p));
      if |p| > 1 {
        assert Parent(p) in WithAncestors(layer, Parent(p));
      }
    }
  }

  /** A new prim, or a prim that is there, under a parent that is there. */
  ghost predicate CanAuthor(s: Stage, p: Path, spec: Spec) {
    && p != [] && (|p| > 1 ==> HasPrim(s, Parent(p))) && SpecOk(s, p, spec)
    && (HasPrim(s, p) ==> spec.prim == SpecAt(s.session, p).prim)
  }

  lemma TargetOk(s: Stage, c: Command)
    requires Inv(s) && StatusOf(s, c) == Done
    ensures CanAuthor(s, Target(s, c), NewSpec(s, c))
    ensures c.Create? <==> !HasPrim(s, Target(s, c))
  {
    var p := Target(s, c);
    if c.Create? {
      var name, taken := p[|p| - 1], ChildNames(s, c.parent.value);
      assert Parent(p) == c.parent.value;
      assert HasPrim(s, p) ==> name in taken;
    } else if |p| > 1 {
      PrefixHasPrim(s, p, |p| - 1);
    }
  }

  /** The ancestors that get an over are prims of the root layer. */
  lemma OversOk(s: Stage, p: Path, q: Path)
    requires RootOk(s.root) && LayerOk(s) && p != [] && (|p| > 1 ==> HasPrim(s, Parent(p)))
    requires q != [] && q <= p && q != p && q !in s.session
    ensures q in s.root
  {
    PrefixHasPrim(s, Parent(p), |q|);
    assert Parent(p)[..|q|] == q;
  }

  lemma AuthorLayerOk(s: Stage, p: Path, spec: Spec)
    requires RootOk(s.root) && LayerOk(s) && CanAuthor(s, p, spec)
    ensures LayerOk(s.(session := Author(s.session, p, spec)))
  {
    AncestorsClosed(s.session, p);
    assert Author(s.session, p, spec).Keys == WithAncestors(s.session, p).Keys;
    forall q | q in Author(s.session, p, spec) && q != p && q !in s.session ensures q in s.root {
      OversOk(s, p, q);
    }
  }

  /** Authoring changes nothing about any other prim. */
  lemma AuthorElsewhere(s: Stage, p: Path, spec: Spec, q: Path)
    requires RootOk(s.root) && LayerOk(s) && CanAuthor(s, p, spec) && q != p
    ensures var s' := s.(session := Author(s.session, p, spec));
            && HasPrim(s', q) == HasPrim(s, q) && KindOf(s', q) == KindOf(s, q) && IsActive(s', q) == IsActive(s, q)
            && ResolvedTransform(s', q) == ResolvedTransform(s, q) && SpecAt(s'.session, q) == SpecAt(s.session, q)
  {
    if q in Author(s.session, p, spec) && q !in s.session {
      OversOk(s, p, q);
    }
  }

  lemma SameKinds(s: Stage, p: Path, spec: Spec, q: Path)
    requires RootOk(s.root) && LayerOk(s) && CanAuthor(s, p, spec) && (HasPrim(s, p) || !(p <= q))
    ensures UnderGprim(s.(session := Author(s.session, p, spec)), q) == UnderGprim(s, q)
  {
    var s' := s.(session := Author(s.session, p, spec));
    forall k | 0 < k <= |q| ensures GprimAt(s', q[..k]) == GprimAt(s, q[..k]) {
      if q[..k] != p {
        AuthorElsewhere(s, p, spec, q[..k]);
      }
    }
  }

  lemma TargetFlat(s: Stage, c: Command)
    requires Inv(s) && StatusOf(s, c) == Done && LayerOk(Execute(s, c))
    requires var s', p := Execute(s, c), Target(s, c);
             p in s'.session && s'.session[p].prim.Some? && KindOf(s', p).gprim
    ensures !UnderGprim(Execute(s, c), Parent(Target(s, c)))
  {
    var p := Target(s, c);
    TargetOk(s, c);
    assert !(p <= Parent(p));
    SameKinds(s, p, NewSpec(s, c), Parent(p));
    if c.Create? {
      assert Parent(p) == c.parent.value;
    }
  }

  lemma ExecuteGprims(s: Stage, c: Command, q: Path)
    requires Inv(s) && StatusOf(s, c) == Done && LayerOk(Execute(s, c))
    requires var s' := Execute(s, c); q != [] && q in s'.session && s'.session[q].prim.Some? && KindOf(s', q).gprim
    ensures !UnderGprim(Execute(s, c), Parent(q))
  {
    var p, spec := Target(s, c), NewSpec(s, c);
    if q == p {
      TargetFlat(s, c);
    } else {
      TargetOk(s, c);
      AuthorElsewhere(s, p, spec, q);
      assert p <= Parent(q) ==> p <= q;
      if !HasPrim(s, p) {
        NothingBelow(s, p, q);
      }
      SameKinds(s, p, spec, Parent(q));
    }
  }

  lemma ExecuteKeepsInv(s: Stage, c: Command)
    requires Inv(s)
    ensures Inv(Execute(s, c))
  {
    if StatusOf(s, c) == Done {
      TargetOk(s, c);
      AuthorLayerOk(s, Target(s, c), NewSpec(s, c));
      var s' := Execute(s, c);
      forall q | q in s'.session && q != [] && s'.session[q].prim.Some? && KindOf(s', q).gprim
        ensures !UnderGprim(s', Parent(q))
      {
        ExecuteGprims(s, c, q);
      }
    }
  }

  lemma {:induction false} RunKeepsInv(root: map<Path, RootPrim>, cs: seq<Command>)
    requires RootOk(root)
    ensures Inv(Run(Stage(root, map[]), cs)) && Run(Stage(root, map[]), cs).root == root
    decreases |cs|
  {
    if cs != [] {
      RunKeepsInv(root, cs[..|cs| - 1]);
      ExecuteKeepsInv(Run(Stage(root, map[]), cs[..|cs| - 1]), cs[|cs| - 1]);
    }
  }

  /** A created prim is on the stage: its parent is, and is active. */
  lemma CreatedOnStage(s: Stage, parent: Option<Path>, prim: Option<PrimType>)
    requires Inv(s) && StatusOf(s, Create(parent, prim, true)) == Done
    ensures var c := Create(parent, prim, true);
            !HasPrim(s, Target(s, c)) && OnStage(Execute(s, c), Target(s, c))
  {
    var c := Create(parent, prim, true);
    var s', p := Execute(s, c), Target(s, c);
    TargetOk(s, c);
    forall k | 0 < k < |p| ensures IsActive(s', p[..k]) {
      AboveNew(s, parent.value, p[|p| - 1], k);
      AuthorElsewhere(s, p, NewSpec(s, c), p[..k]);
    }
  }

  lemma AboveNew(s: Stage, parent: Path, name: string, k: nat)
    requires OnStage(s, parent) && IsActive(s, parent) && 0 < k <= |parent|
    ensures IsActive(s, (parent + [name])[..k])
  {
    if k < |parent| {
      assert (parent + [name])[..k] == parent[..k];
    } else {
      assert (parent + [name])[..k] == parent;
    }
  }
}
