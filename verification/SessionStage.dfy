/** The stage of a session as the object its command handlers work on. */
module SessionStage {
  import opened Wrappers
  import opened Transforms
  import opened Names
  import opened Scene
  import opened Snapshot
  import opened StableSort
  import opened Join

  class LiveStage {
    const root: map<Path, RootPrim>
    var session: Layer

    ghost function Value(): Stage
      reads this
    {
      Stage(root, session)
    }

    constructor (root: map<Path, RootPrim>)
      requires RootOk(root)
      ensures Value() == Stage(root, map[]) && Inv(Value())
    {
      this.root := root;
      session := map[];
    }

    /** Walks up from `p` to the pseudo-root. */
    method HasGprimAncestor(p: Path) returns (found: bool)
      ensures found <==> UnderGprim(Value(), p)
    {
      var q := p;
      while q != []
        invariant q <= p
        invariant forall k | |q| < k <= |p| :: !GprimAt(Value(), p[..k])
      {
        assert q == p[..|q|];
        if GprimAt(Stage(root, session), q) {
          return true;
        }
        q := Parent(q);
      }
      return false;
    }

    /** `authors` is what DefinePrim answers. */
    method CreatePrim(parent: Option<Path>, prim: Option<PrimType>, authors: bool) returns (path: Option<Path>)
      requires Inv(Value())
      modifies this
      ensures Inv(Value()) && Value() == Execute(old(Value()), Create(parent, prim, authors))
      ensures path.Some? <==> StatusOf(old(Value()), Create(parent, prim, authors)) == Done
      ensures path.Some? ==> path.value == Target(old(Value()), Create(parent, prim, authors))
      ensures path.Some? ==> !HasPrim(old(Value()), path.value) && OnStage(Value(), path.value)
    {
      ExecuteKeepsInv(Value(), Create(parent, prim, authors));
      if prim.None? || parent.None? {
        return None;
      }
      var s := Stage(root, session);
      if !OnStage(s, parent.value) || !IsActive(s, parent.value) {
        return None;
      }
      if CreatedKind(prim.value).gprim {
        var nested := HasGprimAncestor(parent.value);
        if nested {
          return None;
        }
      }
      var name, _ := UniqueChildName(ChildNames(s, parent.value), TypeName(prim.value));
      var child := parent.value + [name];
      if !authors {
        return None;
      }
      CreatedOnStage(Value(), parent, prim);
      session := Author(session, child, OVER.(prim := prim));
      return Some(child);
    }

    method ApplyTransform(path: Option<Path>, transform: Option<Transform>) returns (ok: bool)
      requires Inv(Value())
      modifies this
      ensures Inv(Value()) && Value() == Execute(old(Value()), Apply(path, transform))
      ensures ok <==> StatusOf(old(Value()), Apply(path, transform)) == Done
      ensures ok ==> ResolvedTransform(Value(), path.value) == transform.value
    {
      ExecuteKeepsInv(Value(), Apply(path, transform));
      if path.None? || transform.None? {
        return false;
      }
      var s, p := Stage(root, session), path.value;
      if p == [] || !OnStage(s, p) {
        return false;
      }
      if p in root && ShapeOf(transform.value) !in root[p].shapes {
        return false;
      }
      session := Author(session, p, WithTransform(SpecAt(session, p), transform.value));
      return true;
    }

    /** `authors` is what the layer answers to the new flag. */
    method SetPrimActive(path: Option<Path>, active: bool, authors: bool) returns (status: Status)
      requires Inv(Value())
      modifies this
      ensures Inv(Value()) && Value() == Execute(old(Value()), SetActive(path, active, authors))
      ensures status == StatusOf(old(Value()), SetActive(path, active, authors))
      ensures status == Done || status == AlreadyInState ==> IsActive(Value(), path.value) == active
    {
      ExecuteKeepsInv(Value(), SetActive(path, active, authors));
      if path.None? || path.value == [] {
        return InvalidPath;
      }
      var s, p := Stage(root, session), path.value;
      if !OnStage(s, p) {
        return NotFound;
      }
      if IsActive(s, p) == active {
        return AlreadyInState;
      }
      if !active && p in root && !root[p].local {
        return NotDeletable;
      }
      if !authors {
        return Failed;
      }
      session := Author(session, p, SpecAt(session, p).(active := Some(active)));
      return Done;
    }

    /** One pass over the specs: what to create, in the order of `ps`, and the deletions. */
    method Gather(ps: seq<Path>) returns (created: seq<Path>, deleted: seq<Frame>)
      requires forall p | p in ps :: p in session
      ensures created == Creations(session, ps) && deleted == DeleteFrames(session, ps)
    {
      created, deleted := [], [];
      for i := 0 to |ps|
        invariant created == Creations(session, ps[..i])
        invariant deleted == DeleteFrames(session, ps[..i])
      {
        var p := ps[i];
        assert ps[..i + 1][..i] == ps[..i];
        if session[p].active == Some(false) {
          deleted := deleted + [ActiveFrame(p, false)];
        }
        if session[p].prim.Some? && TypeFromName(TypeName(session[p].prim.value)).Some? {
          created := created + [p];
        }
      }
      assert ps[..|ps|] == ps;
    }

    method Announce(cs: seq<Path>) returns (frames: seq<Frame>)
      requires AreCreations(session, cs)
      ensures frames == CreateFrames(session, cs)
    {
      frames := [];
      for i := 0 to |cs|
        invariant frames == CreateFrames(session, cs[..i])
      {
        var p := cs[i];
        assert cs[..i + 1][..i] == cs[..i];
        frames := frames + [CreateFrame(Parent(p), p[|p| - 1], session[p].prim.value)];
      }
      assert cs[..|cs|] == cs;
    }

    method Place(ps: seq<Path>) returns (frames: seq<Frame>)
      requires forall p | p in ps :: p in session
      ensures frames == XformFrames(session, ps)
    {
      frames := [];
      for i := 0 to |ps|
        invariant frames == XformFrames(session, ps[..i])
      {
        assert ps[..i + 1][..i] == ps[..i];
        var t := Authored(session[ps[i]]);
        if t.Some? {
          frames := frames + [XformFrame(ps[i], t.value)];
        }
      }
      assert ps[..|ps|] == ps;
    }

    /** The frames of a join, from any enumeration of the session layer. */
    method JoinSnapshot(ps: seq<Path>) returns (frames: seq<Frame>)
      requires Inv(Value()) && Lists(ps, session)
      ensures frames == JoinFrames(session, ps)
      ensures Replay(Composed(Stage(root, map[])), frames) == Some(JoinedView(Value(), ps, ps))
    {
      var created, deleted := Gather(ps);
      SortedCreations(session, ps);
      var sorted := Sort(Depth, created);
      CreationsInLayer(session, sorted);
      var creates := Announce(sorted);
      var xforms := Place(ps);
      frames := creates + xforms + deleted;
      JoinReplay(Value(), ps);
    }
  }
}
