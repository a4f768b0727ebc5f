/**
 The commit: the composed scene becomes the new root file, without the prims the session
 deleted.
 */
module Commit {
  import opened Wrappers
  import opened Scene
  import opened Snapshot

  predicate Deletes(layer: Layer, p: Path) {
    p in layer && layer[p].active == Some(false)
  }

  /** RemoveNameChild takes the whole subtree along. */
  function RemoveSubtree(v: View, p: Path): View {
    map q | q in v && !(p <= q) :: v[q]
  }

  /** Neither `q` nor an ancestor of it is in the list. */
  predicate Survives(deleted: seq<Path>, q: Path) {
    forall i | 0 <= i < |deleted| :: !(deleted[i] <= q)
  }

  /** What the merged layer keeps. */
  function Kept(v: View, deleted: seq<Path>): View {
    map q | q in v && Survives(deleted, q) :: v[q]
  }

  lemma SurvivesOne(deleted: seq<Path>, p: Path, q: Path)
    ensures Survives(deleted + [p], q) <==> Survives(deleted, q) && !(p <= q)
  {
    if Survives(deleted + [p], q) {
      forall i | 0 <= i < |deleted| ensures !(deleted[i] <= q) {
        assert (deleted + [p])[i] == deleted[i];
      }
      assert (deleted + [p])[|deleted|] == p;
    }
  }

  lemma KeptOne(v: View, deleted: seq<Path>, p: Path)
    ensures Kept(v, deleted + [p]) == RemoveSubtree(Kept(v, deleted), p)
  {
    forall q | q in v ensures Survives(deleted + [p], q) <==> Survives(deleted, q) && !(p <= q) {
      SurvivesOne(deleted, p, q);
    }
  }

  lemma KeptNone(v: View)
    ensures Kept(v, []) == v
  {
  }

  /** Nothing below a missing prim is left to remove. */
  lemma NothingToRemove(v: View, p: Path)
    requires Closed(v.Keys) && p != [] && p !in v
    ensures RemoveSubtree(v, p) == v
  {
    forall q | q in v ensures !(p <= q) {
      assert p <= q ==> q[..|p|] == p;
      if p <= q {
        ClosedPrefix(v.Keys, q, |p|);
      }
    }
  }

  /** The tree stays a tree. */
  lemma RemovalCloses(v: View, p: Path)
    requires Closed(v.Keys)
    ensures Closed(RemoveSubtree(v, p).Keys)
  {
    forall q | q in RemoveSubtree(v, p) && |q| > 1 ensures Parent(q) in RemoveSubtree(v, p) {
      assert p <= Parent(q) ==> p <= q;
    }
  }

  /** The removal loop, for a list in any order. */
  method RemoveSoftDeletedPrims(v: View, deleted: seq<Path>) returns (r: View)
    requires Closed(v.Keys) && (forall i | 0 <= i < |deleted| :: deleted[i] != [])
    ensures r == Kept(v, deleted) && Closed(r.Keys)
  {
    r := v;
    KeptNone(v);
    for i := 0 to |deleted|
      invariant r == Kept(v, deleted[..i]) && Closed(r.Keys)
    {
      var p := deleted[i];
      assert deleted[..i + 1] == deleted[..i] + [p];
      KeptOne(v, deleted[..i], p);
      RemovalCloses(r, p);
      if p in r {
        if Parent(p) == [] || Parent(p) in r {
          r := RemoveSubtree(r, p);
        }
      } else {
        NothingToRemove(r, p);
      }
    }
    assert deleted[..|deleted|] == deleted;
  }

  /** `deleted` is what Traverse collects. */
  ghost predicate Collects(deleted: seq<Path>, layer: Layer) {
    forall p :: p in deleted <==> Deletes(layer, p)
  }

  /** `p` and everything above it is active. */
  predicate Visible(v: View, p: Path) {
    p in v && forall k | 0 < k <= |p| :: p[..k] in v && v[p[..k]].active
  }

  ghost predicate DeletedAbove(layer: Layer, p: Path) {
    exists k :: 0 <= k <= |p| && Deletes(layer, p[..k])
  }

  lemma SurvivesMeans(deleted: seq<Path>, layer: Layer, q: Path)
    requires Collects(deleted, layer)
    ensures Survives(deleted, q) <==> !DeletedAbove(layer, q)
  {
    if !Survives(deleted, q) {
      var i :| 0 <= i < |deleted| && deleted[i] <= q;
      assert q[..|deleted[i]|] == deleted[i];
      assert deleted[i] in deleted;
    }
  }

  lemma ComposedClosed(s: Stage)
    requires Inv(s)
    ensures Closed(Composed(s).Keys)
  {
    assert Composed(s).Keys == s.root.Keys + s.session.Keys;
  }

  /** The committed file: every prim of the scene with no deleted prim at or above it, unchanged, and no other. */
  lemma CommitFolds(s: Stage, deleted: seq<Path>, p: Path)
    requires Inv(s) && Collects(deleted, s.session)
    ensures var file := Kept(Composed(s), deleted);
            && (p in file <==> HasPrim(s, p) && !DeletedAbove(s.session, p))
            && (p in file ==> file[p] == NodeAt(s, p))
            && (p in file && |p| > 1 ==> Parent(p) in file)
  {
    SurvivesMeans(deleted, s.session, p);
    ComposedClosed(s);
  }

  /** The order of the list does not matter. */
  lemma OrderIndependent(v: View, layer: Layer, xs: seq<Path>, ys: seq<Path>)
    requires Collects(xs, layer) && Collects(ys, layer)
    ensures Kept(v, xs) == Kept(v, ys)
  {
    forall q | q in v ensures Survives(xs, q) <==> Survives(ys, q) {
      SurvivesMeans(xs, layer, q);
      SurvivesMeans(ys, layer, q);
    }
  }

  /** A prim only the file ships inactive is kept, still inactive. */
  lemma ShippedInactiveKept(s: Stage, deleted: seq<Path>, p: Path)
    requires Inv(s) && Collects(deleted, s.session) && p in s.root && !s.root[p].active
    requires forall k | 0 <= k <= |p| :: SpecAt(s.session, p[..k]).active.None?
    ensures p in Kept(Composed(s), deleted) && !Kept(Composed(s), deleted)[p].active
  {
    assert p[..|p|] == p;
    CommitFolds(s, deleted, p);
  }

  /** A commit changes nothing anyone can see: the same prims are visible before and after. */
  lemma CommitKeepsVisible(s: Stage, deleted: seq<Path>, p: Path)
    requires Inv(s) && Collects(deleted, s.session)
    ensures Visible(Kept(Composed(s), deleted), p) <==> Visible(Composed(s), p)
  {
    if Visible(Composed(s), p) {
      forall k | 0 <= k <= |p| ensures !DeletedAbove(s.session, p[..k]) {
        VisibleNotDeleted(s, p, k);
      }
      assert p[..|p|] == p;
      CommitFolds(s, deleted, p);
      var file := Kept(Composed(s), deleted);
      forall k | 0 < k <= |p| ensures p[..k] in file && file[p[..k]].active {
        CommitFolds(s, deleted, p[..k]);
      }
    }
  }

  lemma VisibleNotDeleted(s: Stage, p: Path, k: nat)
    requires Inv(s) && Visible(Composed(s), p) && k <= |p|
    ensures !DeletedAbove(s.session, p[..k])
  {
    forall j | 0 <= j <= k ensures !Deletes(s.session, p[..k][..j]) {
      assert p[..k][..j] == p[..j];
      if j > 0 {
        assert Composed(s)[p[..j]].active;
      }
    }
  }
}
