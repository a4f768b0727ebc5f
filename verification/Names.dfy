/**
 Names for created prims: the base name of the type, then base_1, base_2, ... until no
 sibling has that name.
 */
module Names {

  // ------------------------------------------------------------------
  // Decimal numerals
  // ------------------------------------------------------------------

  function Digit(d: nat): char
    requires d < 10
  {
    '0' + d as char
  }

  /** `n` in decimal, without leading zeros. */
  function Decimal(n: nat): (r: string)
    ensures r != []
    ensures n > 0 ==> r[0] != '0'
    ensures forall i | 0 <= i < |r| :: '0' <= r[i] <= '9'
  {
    if n < 10 then [Digit(n)] else Decimal(n / 10) + [Digit(n % 10)]
  }

  function Value(s: string): nat
    requires forall i | 0 <= i < |s| :: '0' <= s[i] <= '9'
  {
    if s == [] then 0 else 10 * Value(s[..|s| - 1]) + (s[|s| - 1] - '0') as nat
  }

  lemma {:induction false} DecimalRoundTrip(n: nat)
    ensures Value(Decimal(n)) == n
  {
    if n < 10 {
      assert Decimal(n)[..0] == [];
    } else {
      DecimalRoundTrip(n / 10);
      assert Decimal(n)[..|Decimal(n)| - 1] == Decimal(n / 10);
    }
  }

  // ------------------------------------------------------------------
  // Candidates
  // ------------------------------------------------------------------

  function Candidate(base: string, n: nat): string {
    if n == 0 then base else base + "_" + Decimal(n)
  }

  /** Different tries give different names. */
  lemma CandidatesDiffer(base: string, m: nat, n: nat)
    requires m < n
    ensures Candidate(base, m) != Candidate(base, n)
  {
    if m == 0 {
      assert |Candidate(base, m)| < |Candidate(base, n)|;
    } else if Candidate(base, m) == Candidate(base, n) {
      assert Candidate(base, m)[|base| + 1..] == Decimal(m);
      assert Candidate(base, n)[|base| + 1..] == Decimal(n);
      DecimalRoundTrip(m);
      DecimalRoundTrip(n);
    }
  }

  ghost predicate AllTaken(taken: set<string>, base: string, n: nat) {
    forall m: nat | m < n :: Candidate(base, m) in taken
  }

  /** If the first n candidates are all taken there are at least n names taken. */
  lemma {:induction false} Pigeonhole(taken: set<string>, base: string, n: nat)
    requires AllTaken(taken, base, n)
    ensures n <= |taken|
    decreases n
  {
    if n > 0 {
      var last := Candidate(base, n - 1);
      var rest := taken - {last};
      forall m: nat | m < n - 1 ensures Candidate(base, m) in rest {
        CandidatesDiffer(base, m, n - 1);
      }
      Pigeonhole(rest, base, n - 1);
      assert |taken| == |rest| + 1;
    }
  }

  ghost predicate FirstFree(taken: set<string>, base: string, n: nat) {
    Candidate(base, n) !in taken && AllTaken(taken, base, n)
  }

  /** The number of the first candidate nobody has, looking from `n` on. */
  function FreeIndex(taken: set<string>, base: string, n: nat): (r: nat)
    requires AllTaken(taken, base, n)
    ensures FirstFree(taken, base, r) && n <= r <= |taken|
    decreases |taken| + 1 - n
  {
    Pigeonhole(taken, base, n);
    if Candidate(base, n) !in taken then n else FreeIndex(taken, base, n + 1)
  }

  function FreshName(taken: set<string>, base: string): (r: string)
    ensures r !in taken
  {
    Candidate(base, FreeIndex(taken, base, 0))
  }

  /** There is one first free candidate. */
  lemma FirstFreeUnique(taken: set<string>, base: string, m: nat, n: nat)
    requires FirstFree(taken, base, m) && FirstFree(taken, base, n)
    ensures m == n
  {
    assert m < n ==> Candidate(base, m) in taken;
    assert n < m ==> Candidate(base, n) in taken;
  }

  /** The loop of UniqueChildPath; `tries` counts its look-ups. */
  method UniqueChildName(taken: set<string>, base: string) returns (name: string, tries: nat)
    ensures name == FreshName(taken, base) && name !in taken
    ensures 1 <= tries <= |taken| + 1 && name == Candidate(base, tries - 1)
    ensures forall k: nat | k < tries - 1 :: Candidate(base, k) in taken
  {
    name := base;
    var n := 1;
    while name in taken
      invariant n >= 1 && name == Candidate(base, n - 1) && AllTaken(taken, base, n - 1)
      decreases |taken| + 2 - n
    {
      assert AllTaken(taken, base, n);
      Pigeonhole(taken, base, n);
      name := base + "_" + Decimal(n);
      n := n + 1;
    }
    tries := n;
    Pigeonhole(taken, base, n - 1);
    FirstFreeUnique(taken, base, n - 1, FreeIndex(taken, base, 0));
  }
}
