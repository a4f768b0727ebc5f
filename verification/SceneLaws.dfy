/** What the authoring commands must take, must refuse, and can undo, in any scene a session reaches. */
module SceneLaws {
  import opened Wrappers
  import opened Transforms
  import opened Names
  import opened Scene
  import opened Snapshot

  /** The scene after the commands `cs` over an empty session layer. */
  function Reached(root: map<Path, RootPrim>, cs: seq<Command>): Stage {
    Run(Stage(root, map[]), cs)
  }

  /** Nothing about any prim but `p` changed. */
  ghost predicate OnlyAt(s: Stage, s': Stage, p: Path) {
    s'.root == s.root && forall q | q != p :: HasPrim(s', q) == HasPrim(s, q) && NodeAt(s', q) == NodeAt(s, q)
  }

  lemma ExecuteOnlyAt(s: Stage, c: Command)
    requires Inv(s) && StatusOf(s, c) == Done
    ensures OnlyAt(s, Execute(s, c), Target(s, c)) && Inv(Execute(s, c))
  {
    var p := Target(s, c);
    TargetOk(s, c);
    ExecuteKeepsInv(s, c);
    forall q | q != p ensures HasPrim(Execute(s, c), q) == HasPrim(s, q) && NodeAt(Execute(s, c), q) == NodeAt(s, q) {
      AuthorElsewhere(s, p, NewSpec(s, c), q);
    }
  }

  // ------------------------------------------------------------------
  // Deleting
  // ------------------------------------------------------------------

  lemma ExecuteKeepsForeign(s: Stage, c: Command, p: Path)
    requires Inv(s) && p in s.root && !s.root[p].local && SpecAt(s.session, p).active != Some(false)
    ensures SpecAt(Execute(s, c).session, p).active != Some(false)
  {
    if StatusOf(s, c) == Done && Target(s, c) != p {
      TargetOk(s, c);
      AuthorElsewhere(s, Target(s, c), NewSpec(s, c), p);
    }
  }

  /**
   Prims with an opinion from a sublayer, a reference or a payload are never deleted: the
   session never authors them inactive, and one the file ships active stays active.
   */
  lemma {:induction false} ForeignKept(root: map<Path, RootPrim>, cs: seq<Command>, p: Path)
    requires RootOk(root) && p in root && !root[p].local
    ensures SpecAt(Reached(root, cs).session, p).active != Some(false)
    ensures root[p].active ==> IsActive(Reached(root, cs), p)
    decreases |cs|
  {
    RunKeepsInv(root, cs);
    if cs != [] {
      var before := cs[..|cs| - 1];
      RunKeepsInv(root, before);
      ForeignKept(root, before, p);
      ExecuteKeepsForeign(Reached(root, before), cs[|cs| - 1], p);
    }
  }

  /** `p` is off, and with it everything below is off the stage; nothing else changed. */
  ghost predicate Deleted(s: Stage, s': Stage, p: Path) {
    && OnlyAt(s, s', p) && HasPrim(s', p) && NodeAt(s', p) == NodeAt(s, p).(active := false)
    && (forall q: Path | p < q :: !OnStage(s', q))
    && (forall q: Path | !(p < q) :: OnStage(s', q) == OnStage(s, q))
  }

  lemma StageElsewhere(s: Stage, s': Stage, p: Path, q: Path)
    requires OnlyAt(s, s', p) && HasPrim(s', p) == HasPrim(s, p) && !(p < q)
    ensures OnStage(s', q) == OnStage(s, q)
  {
    forall k | 0 < k < |q| ensures IsActive(s', q[..k]) == IsActive(s, q[..k]) {
      assert q[..k] < q;
      assert NodeAt(s', q[..k]) == NodeAt(s, q[..k]);
    }
  }

  lemma BelowIsOff(s: Stage, p: Path, q: Path)
    requires p != [] && p < q && !IsActive(s, p)
    ensures !OnStage(s, q)
  {
    assert q[..|p|] == p;
  }

  lemma SwitchedOff(s: Stage, p: Path)
    requires Inv(s) && StatusOf(s, SetActive(Some(p), false, true)) == Done
    ensures Deleted(s, Execute(s, SetActive(Some(p), false, true)), p)
  {
    var c := SetActive(Some(p), false, true);
    ExecuteOnlyAt(s, c);
    NowOff(s, p);
    OffTheStage(s, Execute(s, c), p);
  }

  lemma NowOff(s: Stage, p: Path)
    requires Inv(s) && StatusOf(s, SetActive(Some(p), false, true)) == Done
    ensures var s' := Execute(s, SetActive(Some(p), false, true));
            p != [] && HasPrim(s, p) && HasPrim(s', p) && NodeAt(s', p) == NodeAt(s, p).(active := false)
  {
  }

  lemma OffTheStage(s: Stage, s': Stage, p: Path)
    requires p != [] && OnlyAt(s, s', p) && HasPrim(s, p) && HasPrim(s', p)
    requires NodeAt(s', p) == NodeAt(s, p).(active := false)
    ensures Deleted(s, s', p)
  {
    forall q: Path ensures (p < q ==> !OnStage(s', q)) && (!(p < q) ==> OnStage(s', q) == OnStage(s, q)) {
      if p < q {
        BelowIsOff(s', p, q);
      } else {
        StageElsewhere(s, s', p, q);
      }
    }
  }

  /**
   Delete and undo: any active prim on the stage that the session created or that is the
   file's own can be deleted; that hides it and what is below, and undoing it restores the
   scene.
   */
  lemma DeleteUndo(root: map<Path, RootPrim>, cs: seq<Command>, p: Path)
    requires RootOk(root) && p != [] && OnStage(Reached(root, cs), p) && IsActive(Reached(root, cs), p)
    requires p in root ==> root[p].local
    ensures var s, off, on := Reached(root, cs), SetActive(Some(p), false, true), SetActive(Some(p), true, true);
            && StatusOf(s, off) == Done && Deleted(s, Execute(s, off), p)
            && StatusOf(Execute(s, off), on) == Done && Composed(Execute(Execute(s, off), on)) == Composed(s)
  {
    RunKeepsInv(root, cs);
    var s, off, on := Reached(root, cs), SetActive(Some(p), false, true), SetActive(Some(p), true, true);
    SwitchedOff(s, p);
    ExecuteKeepsInv(s, off);
    SwitchedOn(s, Execute(s, off), p);
  }

  lemma SwitchedOn(s: Stage, s1: Stage, p: Path)
    requires Inv(s1) && p != [] && OnStage(s, p) && IsActive(s, p) && Deleted(s, s1, p)
    ensures var on := SetActive(Some(p), true, true);
            StatusOf(s1, on) == Done && Composed(Execute(s1, on)) == Composed(s)
  {
    var on := SetActive(Some(p), true, true);
    assert !IsActive(s1, p) && OnStage(s1, p);
    ExecuteOnlyAt(s1, on);
    OnAgain(s1, p);
    SameComposed(s, s1, Execute(s1, on), p);
  }

  lemma OnAgain(s: Stage, p: Path)
    requires Inv(s) && StatusOf(s, SetActive(Some(p), true, true)) == Done
    ensures var s' := Execute(s, SetActive(Some(p), true, true));
            HasPrim(s', p) && NodeAt(s', p) == NodeAt(s, p).(active := true)
  {
  }

  lemma SameComposed(s: Stage, s1: Stage, s2: Stage, p: Path)
    requires OnlyAt(s, s1, p) && OnlyAt(s1, s2, p) && HasPrim(s, p) && HasPrim(s2, p) && NodeAt(s2, p) == NodeAt(s, p)
    ensures Composed(s2) == Composed(s)
  {
    assert forall q :: HasPrim(s2, q) == HasPrim(s1, q) || q == p;
    assert forall q :: HasPrim(s1, q) == HasPrim(s, q) || q == p;
    assert forall q | q != p :: NodeAt(s1, q) == NodeAt(s, q);
    assert forall q | q != p :: NodeAt(s2, q) == NodeAt(s1, q);
    assert Composed(s2).Keys == Composed(s).Keys;
  }

  /** A prim with an opinion from elsewhere is not deleted: the answer is NotDeletable and nothing changes. */
  lemma ForeignRefused(root: map<Path, RootPrim>, cs: seq<Command>, p: Path, authors: bool)
    requires RootOk(root) && p in root && !root[p].local
    requires OnStage(Reached(root, cs), p) && IsActive(Reached(root, cs), p)
    ensures var s, off := Reached(root, cs), SetActive(Some(p), false, authors);
            StatusOf(s, off) == NotDeletable && Execute(s, off) == s
  {
    RunKeepsInv(root, cs);
  }

  /** An inactive prim on the stage can be activated, wherever its opinions come from. */
  lemma ActivationTaken(root: map<Path, RootPrim>, cs: seq<Command>, p: Path)
    requires RootOk(root) && p != [] && OnStage(Reached(root, cs), p) && !IsActive(Reached(root, cs), p)
    ensures var s, on := Reached(root, cs), SetActive(Some(p), true, true);
            && StatusOf(s, on) == Done && OnlyAt(s, Execute(s, on), p)
            && NodeAt(Execute(s, on), p) == NodeAt(s, p).(active := true)
  {
    RunKeepsInv(root, cs);
    ExecuteOnlyAt(Reached(root, cs), SetActive(Some(p), true, true));
    OnAgain(Reached(root, cs), p);
  }

  /** Asking for the active state a prim on the stage has changes nothing, so asking twice is asking once. */
  lemma AskedTwice(root: map<Path, RootPrim>, cs: seq<Command>, p: Path, active: bool, authors: bool)
    requires RootOk(root) && p != [] && OnStage(Reached(root, cs), p)
    ensures var s, c := Reached(root, cs), SetActive(Some(p), active, authors);
            && (StatusOf(s, c) == AlreadyInState <==> IsActive(s, p) == active)
            && (StatusOf(s, c) != Done ==> Execute(s, c) == s)
            && (StatusOf(s, c) == Done ==>
                  && StatusOf(Execute(s, c), c) == AlreadyInState
                  && Execute(Execute(s, c), c) == Execute(s, c))
  {
    RunKeepsInv(root, cs);
    var s, c := Reached(root, cs), SetActive(Some(p), active, authors);
    if StatusOf(s, c) == Done {
      ExecuteOnlyAt(s, c);
      StageElsewhere(s, Execute(s, c), p, p);
      assert IsActive(Execute(s, c), p) == active;
    }
  }

  // ------------------------------------------------------------------
  // Creating
  // ------------------------------------------------------------------

  /** A prim at `p` or above is a shape. */
  ghost predicate ShapeAtOrAbove(s: Stage, p: Path) {
    exists k :: 0 < k <= |p| && HasPrim(s, p[..k]) && KindOf(s, p[..k]).gprim
  }

  /** Nothing but a new prim of type `t` below `parent`, on the stage, active and at the identity. */
  ghost predicate CreatedIn(s: Stage, s': Stage, parent: Path, t: PrimType, p: Path) {
    && p != [] && Parent(p) == parent && !HasPrim(s, p) && HasPrim(s', p) && OnStage(s', p) && OnlyAt(s, s', p)
    && NodeAt(s', p) == Node(Kind(TypeName(t), t != Xform), IDENTITY, true)
  }

  /**
   A creation is taken exactly if its parent is on the stage and active and, for a shape, no
   shape is at the parent or above it: an Xform goes under any active prim.
   */
  lemma CreateTaken(root: map<Path, RootPrim>, cs: seq<Command>, parent: Path, t: PrimType)
    requires RootOk(root)
    ensures var s, c := Reached(root, cs), Create(Some(parent), Some(t), true);
            && (StatusOf(s, c) == Done <==>
                  OnStage(s, parent) && IsActive(s, parent) && (t == Xform || !ShapeAtOrAbove(s, parent)))
            && (StatusOf(s, c) == Done ==> CreatedIn(s, Execute(s, c), parent, t, Target(s, c)))
            && (StatusOf(s, c) != Done ==> Execute(s, c) == s)
  {
    RunKeepsInv(root, cs);
    var s, c := Reached(root, cs), Create(Some(parent), Some(t), true);
    SameShapes(s, parent);
    if StatusOf(s, c) == Done {
      TargetOk(s, c);
      ExecuteOnlyAt(s, c);
      CreatedOnStage(s, Some(parent), Some(t));
      NewNode(s, parent, t);
    }
  }

  lemma SameShapes(s: Stage, p: Path)
    ensures ShapeAtOrAbove(s, p) == UnderGprim(s, p)
  {
    assert forall k | 0 < k <= |p| :: GprimAt(s, p[..k]) <==> HasPrim(s, p[..k]) && KindOf(s, p[..k]).gprim;
  }

  lemma NewNode(s: Stage, parent: Path, t: PrimType)
    requires Inv(s) && StatusOf(s, Create(Some(parent), Some(t), true)) == Done
    requires !HasPrim(s, Target(s, Create(Some(parent), Some(t), true)))
    ensures var c := Create(Some(parent), Some(t), true);
            && Parent(Target(s, c)) == parent && HasPrim(Execute(s, c), Target(s, c))
            && NodeAt(Execute(s, c), Target(s, c)) == Node(Kind(TypeName(t), t != Xform), IDENTITY, true)
  {
  }

  // ------------------------------------------------------------------
  // Moving
  // ------------------------------------------------------------------

  /**
   A transform is taken exactly if the prim is on the stage and, for a prim of the file, its
   attributes allow the shape: a created prim takes both. Then the prim has it, and nothing
   else changed.
   */
  lemma ApplyTaken(root: map<Path, RootPrim>, cs: seq<Command>, p: Path, t: Transform)
    requires RootOk(root) && p != []
    ensures var s, c := Reached(root, cs), Apply(Some(p), Some(t));
            && (StatusOf(s, c) == Done <==> OnStage(s, p) && (p in root ==> ShapeOf(t) in root[p].shapes))
            && (StatusOf(s, c) == Done ==>
                  && OnlyAt(s, Execute(s, c), p)
                  && NodeAt(Execute(s, c), p) == NodeAt(s, p).(transform := t))
            && (StatusOf(s, c) != Done ==> Execute(s, c) == s)
  {
    RunKeepsInv(root, cs);
    var s, c := Reached(root, cs), Apply(Some(p), Some(t));
    if StatusOf(s, c) == Done {
      ExecuteOnlyAt(s, c);
    }
  }

  // ------------------------------------------------------------------
  // The file
  // ------------------------------------------------------------------

  /** No command of `cs` that is done has `p` as its target. */
  ghost predicate Spared(root: map<Path, RootPrim>, cs: seq<Command>, p: Path) {
    forall i | 0 <= i < |cs| && StatusOf(Reached(root, cs[..i]), cs[i]) == Done ::
      Target(Reached(root, cs[..i]), cs[i]) != p
  }

  /** A prim of the file that no command targets is as the file has it. */
  lemma {:induction false} AsInTheFile(root: map<Path, RootPrim>, cs: seq<Command>, p: Path)
    requires RootOk(root) && p in root && Spared(root, cs, p)
    ensures HasPrim(Reached(root, cs), p)
    ensures NodeAt(Reached(root, cs), p) == Node(root[p].kind, root[p].transform, root[p].active)
    decreases |cs|
  {
    if cs != [] {
      var before, c := cs[..|cs| - 1], cs[|cs| - 1];
      assert forall i | 0 <= i < |before| :: before[..i] == cs[..i];
      RunKeepsInv(root, before);
      AsInTheFile(root, before, p);
      if StatusOf(Reached(root, before), c) == Done {
        ExecuteOnlyAt(Reached(root, before), c);
      }
    }
  }

  /** What is in the scene is from the file or was created. */
  lemma {:induction false} NothingElse(root: map<Path, RootPrim>, cs: seq<Command>, p: Path)
    requires RootOk(root) && HasPrim(Reached(root, cs), p)
    ensures p in root || exists i :: CreatedBy(root, cs, i, p)
    decreases |cs|
  {
    if cs != [] && p !in root {
      var before := cs[..|cs| - 1];
      if HasPrim(Reached(root, before), p) {
        NothingElse(root, before, p);
        var i :| CreatedBy(root, before, i, p);
        StillCreated(root, cs, i, p);
      } else {
        JustCreated(root, cs, p);
      }
    }
  }

  lemma StillCreated(root: map<Path, RootPrim>, cs: seq<Command>, i: int, p: Path)
    requires cs != [] && CreatedBy(root, cs[..|cs| - 1], i, p)
    ensures CreatedBy(root, cs, i, p)
  {
    assert cs[..|cs| - 1][..i] == cs[..i];
  }

  lemma JustCreated(root: map<Path, RootPrim>, cs: seq<Command>, p: Path)
    requires RootOk(root) && cs != [] && HasPrim(Reached(root, cs), p) && !HasPrim(Reached(root, cs[..|cs| - 1]), p)
    ensures CreatedBy(root, cs, |cs| - 1, p)
  {
    RunKeepsInv(root, cs[..|cs| - 1]);
    NewByCreation(Reached(root, cs[..|cs| - 1]), cs[|cs| - 1], p);
  }

  lemma NewByCreation(s: Stage, c: Command, p: Path)
    requires Inv(s) && !HasPrim(s, p) && HasPrim(Execute(s, c), p)
    ensures c.Create? && StatusOf(s, c) == Done && Target(s, c) == p
  {
    if StatusOf(s, c) == Done {
      ExecuteOnlyAt(s, c);
      TargetOk(s, c);
    }
  }

  /** Command `i` created `p`. */
  ghost predicate CreatedBy(root: map<Path, RootPrim>, cs: seq<Command>, i: int, p: Path) {
    && 0 <= i < |cs| && cs[i].Create? && StatusOf(Reached(root, cs[..i]), cs[i]) == Done
    && Target(Reached(root, cs[..i]), cs[i]) == p
  }
}
