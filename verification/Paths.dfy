/**
 Paths as the protocol carries them, strings, and as the scene has them, sequences of
 names: which prim is above which, and which prims can be read.
 */
module Paths {
  import opened Protocol
  import Scene

  type Path = Scene.Path

  /** No name holds a '/'. */
  predicate Plain(p: Path) {
    forall i | 0 <= i < |p| :: '/' !in p[i]
  }

  function PathString(p: Path): (r: string)
    ensures p == [] <==> r == ""
    ensures r != "" ==> r[0] == '/'
  {
    if p == [] then "" else "/" + p[0] + PathString(p[1..])
  }

  /** The first names differ: neither path is above the other, and they are not the same. */
  lemma FirstNamesDiffer(a: string, ra: string, b: string, rb: string)
    requires '/' !in a && '/' !in b && a != b
    requires (ra != "" ==> ra[0] == '/') && (rb != "" ==> rb[0] == '/')
    ensures !Above("/" + a + ra, "/" + b + rb) && "/" + a + ra != "/" + b + rb
  {
    var x, y := "/" + a + ra, "/" + b + rb;
    assert forall i | 0 <= i < |a| :: x[1 + i] == a[i];
    assert forall i | 0 <= i < |b| :: y[1 + i] == b[i];
    if |a| < |b| {
      assert y[1 + |a|] == b[|a|];
      assert |x| > 1 + |a| ==> x[1 + |a|] == ra[0];
    } else if |b| < |a| {
      assert x[1 + |b|] == a[|b|];
      assert |y| > 1 + |b| ==> y[1 + |b|] == rb[0];
    } else {
      var i :| 0 <= i < |a| && a[i] != b[i];
      assert x[1 + i] != y[1 + i];
    }
  }

  lemma SameFirstName(n: string, ra: string, rb: string)
    ensures Above("/" + n + ra, "/" + n + rb) <==> Above(ra, rb)
    ensures "/" + n + ra == "/" + n + rb <==> ra == rb
  {
    var h := "/" + n;
    var x, y := h + ra, h + rb;
    assert x[|h|..] == ra && y[|h|..] == rb;
    if |ra| < |rb| {
      assert y[|x|] == rb[|ra|] && y[..|x|] == h + rb[..|ra|];
      assert y[..|x|][|h|..] == rb[..|ra|];
    }
  }

  /** A path is above another exactly if its names are a proper prefix of the other's. */
  lemma {:induction false} AboveIsPrefix(a: Path, b: Path)
    requires Plain(a) && Plain(b)
    ensures Above(PathString(a), PathString(b)) <==> a < b
    ensures PathString(a) == PathString(b) <==> a == b
    decreases |a|
  {
    if a != [] && b != [] {
      assert '/' !in a[0] && '/' !in b[0];
      assert a == [a[0]] + a[1..] && b == [b[0]] + b[1..];
      if a[0] == b[0] {
        SameFirstName(a[0], PathString(a[1..]), PathString(b[1..]));
        AboveIsPrefix(a[1..], b[1..]);
        assert a < b <==> a[1..] < b[1..];
      } else {
        FirstNamesDiffer(a[0], PathString(a[1..]), b[0], PathString(b[1..]));
      }
    }
  }

  // ------------------------------------------------------------------
  // What can be read
  // ------------------------------------------------------------------

  /** The path of a prim. */
  ghost predicate Named(p: Path) {
    p != [] && Plain(p)
  }

  /** The protocol's state is about the scene `s`. */
  ghost predicate Depicts(w: World, s: Scene.Stage) {
    && (forall p: Path | Named(p) :: Exists(w, PathString(p)) <==> Scene.HasPrim(s, p))
    && (forall p: Path | Named(p) :: PathString(p) in w.inactive <==> !Scene.IsActive(s, p))
    && (forall q | q in w.inactive :: IsPath(q))
  }

  ghost predicate IsPath(q: string) {
    exists p: Path :: Named(p) && PathString(p) == q
  }

  /** A prim is readable exactly if it is on the stage: it exists and all its proper ancestors are active. */
  lemma ReadableIsOnStage(w: World, s: Scene.Stage, p: Path)
    requires Depicts(w, s) && Named(p)
    ensures Readable(w, PathString(p)) <==> Scene.OnStage(s, p)
  {
    forall k | 0 < k < |p| ensures PathString(p[..k]) in w.inactive ==> !Readable(w, PathString(p)) {
      assert Named(p[..k]) && p[..k] < p;
      AboveIsPrefix(p[..k], p);
    }
    forall q | q in w.inactive && Above(q, PathString(p)) ensures !Scene.OnStage(s, p) {
      assert IsPath(q);
      var a: Path :| Named(a) && PathString(a) == q;
      AboveIsPrefix(a, p);
      assert a == p[..|a|];
    }
    assert forall k | 0 < k < |p| :: Named(p[..k]);
  }

  /** A new active state of `q` matters to the prims below `q` and to no other, siblings with a longer name included. */
  lemma ActiveStateIsLocal(w: World, q: Path, o: nat, active: bool, p: Path)
    requires Named(p) && Named(q)
    ensures var w' := BroadcastActive(w, PathString(q), o, active);
            && (!(q < p) ==> Readable(w', PathString(p)) == Readable(w, PathString(p)))
            && (!active && q < p ==> !Readable(w', PathString(p)))
            && (active && Readable(w, PathString(p)) ==> Readable(w', PathString(p)))
  {
    AboveIsPrefix(q, p);
    var w' := BroadcastActive(w, PathString(q), o, active);
    assert Exists(w', PathString(p)) == Exists(w, PathString(p));
    assert forall x | x in w'.inactive :: x in w.inactive || x == PathString(q);
    assert forall x | x in w.inactive :: x in w'.inactive || x == PathString(q);
    assert !active ==> PathString(q) in w'.inactive;
  }
}
