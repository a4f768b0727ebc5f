/** Shift registers in general: words with an exclusive or, a step, and steps that take input. */
module ShiftRegisters {

  function Iterate<W>(f: W -> W, c: W, n: nat): W {
    if n == 0 then c else Iterate(f, f(c), n - 1)
  }

  /** `n` times: feed from `d`, then shift `d`. */
  function FeedFrom<W>(feed: (W, W) -> W, shift: W -> W, c: W, d: W, n: nat): W {
    if n == 0 then c else FeedFrom(feed, shift, feed(c, d), shift(d), n - 1)
  }

  function Fold<W, D>(op: (W, D) -> W, c: W, data: seq<D>): W
    decreases |data|
  {
    if data == [] then c else op(Fold(op, c, data[..|data| - 1]), data[|data| - 1])
  }

  lemma FoldNext<W, D>(op: (W, D) -> W, c: W, data: seq<D>, i: nat)
    requires i < |data|
    ensures Fold(op, c, data[..i + 1]) == op(Fold(op, c, data[..i]), data[i])
  {
    assert data[..i + 1][..i] == data[..i];
  }

  lemma Fold4<W, D>(op: (W, D) -> W, c: W, d0: D, d1: D, d2: D, d3: D)
    ensures Fold(op, c, [d0, d1, d2, d3]) == op(op(op(op(c, d0), d1), d2), d3)
  {
    var d := [d0, d1, d2, d3];
    assert d[..3] == [d0, d1, d2] && [d0, d1, d2][..2] == [d0, d1] && [d0, d1][..1] == [d0] && [d0][..0] == [];
    assert Fold(op, c, [d0]) == op(c, d0);
    assert Fold(op, c, [d0, d1]) == op(Fold(op, c, [d0]), d1);
    assert Fold(op, c, [d0, d1, d2]) == op(Fold(op, c, [d0, d1]), d2);
  }

  lemma {:induction false} FoldSame<W(!new), D(!new)>(op: (W, D) -> W, op': (W, D) -> W, c: W, data: seq<D>)
    requires forall x, d :: op(x, d) == op'(x, d)
    ensures Fold(op, c, data) == Fold(op', c, data)
    decreases |data|
  {
    if data != [] {
      FoldSame(op, op', c, data[..|data| - 1]);
    }
  }

  ghost predicate Linear<W(!new)>(f: W -> W, xor: (W, W) -> W) {
    forall x, y :: f(xor(x, y)) == xor(f(x), f(y))
  }

  lemma {:induction false} IterateLinear<W(!new)>(f: W -> W, xor: (W, W) -> W, x: W, y: W, n: nat)
    requires Linear(f, xor)
    ensures Iterate(f, xor(x, y), n) == xor(Iterate(f, x, n), Iterate(f, y, n))
    decreases n
  {
    if n > 0 {
      IterateLinear(f, xor, f(x), f(y), n - 1);
    }
  }

  /** A step on register and input together feeds one part of the input and keeps the rest. */
  ghost predicate Feeds<W(!new)>(f: W -> W, xor: (W, W) -> W, feed: (W, W) -> W, shift: W -> W) {
    forall c, d :: f(xor(c, d)) == xor(feed(c, d), shift(d))
  }

  lemma {:induction false} FeedIsIterate<W(!new)>(
    f: W -> W, xor: (W, W) -> W, feed: (W, W) -> W, shift: W -> W, c: W, d: W, n: nat)
    requires Feeds(f, xor, feed, shift)
    ensures Iterate(f, xor(c, d), n) == xor(FeedFrom(feed, shift, c, d, n), Iterate(shift, d, n))
    decreases n
  {
    if n > 0 {
      FeedIsIterate(f, xor, feed, shift, feed(c, d), shift(d), n - 1);
    }
  }

  lemma {:induction false} Eight<W>(f: W -> W, c: W)
    ensures Iterate(f, c, 8) == f(f(f(f(f(f(f(f(c))))))))
  {
    var c4 := f(f(f(f(c))));
    assert Iterate(f, c, 8) == Iterate(f, f(f(c)), 6) == Iterate(f, c4, 4) == Iterate(f, f(f(c4)), 2) == f(f(f(f(c4))));
  }

  /**
   A register that is stepped `n` times after the input was mixed in, with the steps split
   into those of its low part and those of its high part, which only drop the low part.
   */
  lemma TableDriven<W(!new)>(
    f: W -> W, xor: (W, W) -> W, feed: (W, W) -> W, shift: W -> W, low: W -> W, high: W -> W, drop: W -> W,
    c: W, d: W, n: nat, zero: W)
    requires Linear(f, xor) && Feeds(f, xor, feed, shift)
    requires Iterate(shift, d, n) == zero && (forall x :: xor(x, zero) == x)
    requires forall x :: x == xor(low(x), high(x)) && Iterate(f, high(x), n) == drop(x)
    requires drop(xor(c, d)) == drop(c)
    ensures FeedFrom(feed, shift, c, d, n) == xor(Iterate(f, low(xor(c, d)), n), drop(c))
  {
    FeedIsIterate(f, xor, feed, shift, c, d, n);
    IterateLinear(f, xor, low(xor(c, d)), high(xor(c, d)), n);
  }
}

/** The two checksums of a PNG file, the loops that compute them and what they are. */
module Checksums {
  import opened ShiftRegisters

  type byte = x: nat | x < 256

  /** A byte as the low end of a 32-bit word. */
  function Widen(d: byte): bv32 {
    (d as bv8) as bv32
  }

  // ------------------------------------------------------------------
  // CRC-32, as section 3.4 of RFC 2083 defines it: a shift register fed bit by bit
  // ------------------------------------------------------------------

  const POLYNOMIAL: bv32 := 0xEDB88320
  const ONES: bv32 := 0xFFFFFFFF

  /** The lowest bit of `d` is the input; bytes go in from their lowest bit up. */
  function Feed(c: bv32, d: bv32): bv32 {
    if (c & 1 == 1) != (d & 1 == 1) then POLYNOMIAL ^ (c >> 1) else c >> 1
  }

  function Shift(d: bv32): bv32 {
    d >> 1
  }

  function FeedByte(c: bv32, d: byte): bv32 {
    FeedFrom(Feed, Shift, c, Widen(d), 8)
  }

  function Crc(data: seq<byte>): bv32 {
    Fold(FeedByte, ONES, data) ^ ONES
  }

  // ------------------------------------------------------------------
  // The table
  // ------------------------------------------------------------------

  /** A step without input. */
  function Step(c: bv32): bv32 {
    if c & 1 == 1 then POLYNOMIAL ^ (c >> 1) else c >> 1
  }

  function Xor(a: bv32, b: bv32): bv32 {
    a ^ b
  }

  lemma XorShift(a: bv32, b: bv32)
    ensures (a ^ b) >> 1 == (a >> 1) ^ (b >> 1)
  {
  }

  lemma XorBit(a: bv32, b: bv32)
    ensures (a ^ b) & 1 == 1 <==> (a & 1 == 1) != (b & 1 == 1)
  {
  }

  lemma XorCancel(p: bv32, a: bv32, b: bv32)
    ensures (p ^ a) ^ (p ^ b) == a ^ b
  {
  }

  lemma XorMove(p: bv32, a: bv32, b: bv32)
    ensures p ^ (a ^ b) == (p ^ a) ^ b == a ^ (p ^ b)
  {
  }

  lemma StepLinear(a: bv32, b: bv32)
    ensures Step(a ^ b) == Step(a) ^ Step(b)
  {
    XorShift(a, b);
    XorBit(a, b);
    XorCancel(POLYNOMIAL, a >> 1, b >> 1);
    XorMove(POLYNOMIAL, a >> 1, b >> 1);
  }

  lemma StepIsLinear()
    ensures Linear(Step, Xor)
  {
    forall x, y ensures Step(Xor(x, y)) == Xor(Step(x), Step(y)) {
      StepLinear(x, y);
    }
  }

  /** Mixing the input in before a step is feeding it. */
  lemma FeedIsStep(c: bv32, d: bv32)
    ensures Step(c ^ d) == Feed(c, d) ^ (d >> 1)
  {
    XorShift(c, d);
    XorBit(c, d);
    XorMove(POLYNOMIAL, c >> 1, d >> 1);
  }

  lemma StepFeeds()
    ensures Feeds(Step, Xor, Feed, Shift)
  {
    forall c, d ensures Step(Xor(c, d)) == Xor(Feed(c, d), Shift(d)) {
      FeedIsStep(c, d);
    }
  }

  /** The entry of the table for `x`. */
  function Entry(x: bv32): bv32 {
    Iterate(Step, x, 8)
  }

  function Low(x: bv32): bv32 {
    x & 0xFF
  }

  function High(x: bv32): bv32 {
    x & 0xFFFFFF00
  }

  function Drop(x: bv32): bv32 {
    x >> 8
  }

  /** One look-up for the low byte of the register. */
  function LookUp(c: bv32, d: byte): bv32 {
    Xor(Entry(Low(Xor(c, Widen(d)))), Drop(c))
  }

  lemma ShiftEight(d: bv32)
    ensures Shift(Shift(Shift(Shift(Shift(Shift(Shift(Shift(d)))))))) == d >> 8
  {
  }

  /** Zeros at the low end are only shifted out. */
  lemma ZeroByte(c: bv32)
    requires c & 0xFF == 0
    ensures Step(Step(Step(Step(Step(Step(Step(Step(c)))))))) == c >> 8
  {
  }

  lemma SplitXor(x: bv32)
    ensures x == Xor(Low(x), High(x))
  {
  }

  lemma SplitDrop(x: bv32)
    ensures (x & 0xFFFFFF00) >> 8 == x >> 8
  {
  }

  lemma SplitZero(x: bv32)
    ensures (x & 0xFFFFFF00) & 0xFF == 0
  {
  }

  lemma HighDrops(x: bv32)
    ensures Iterate(Step, High(x), 8) == Drop(x)
  {
    SplitDrop(x);
    SplitZero(x);
    Eight(Step, High(x));
    ZeroByte(High(x));
  }

  lemma XorDrop(c: bv32, d: bv32)
    ensures (c ^ d) >> 8 == (c >> 8) ^ (d >> 8)
  {
  }

  lemma ByteInput(c: bv32, d: byte)
    ensures Widen(d) >> 8 == 0 && Drop(Xor(c, Widen(d))) == Drop(c)
  {
    XorDrop(c, Widen(d));
    XorZero(c >> 8);
  }

  lemma XorZero(c: bv32)
    ensures Xor(c, 0) == c
  {
  }

  lemma UsedUp(d: byte)
    ensures Iterate(Shift, Widen(d), 8) == 0
  {
    Eight(Shift, Widen(d));
    ShiftEight(Widen(d));
    ByteInput(0, d);
  }

  /** Eight one-bit steps are one look-up and a shift. */
  lemma TableFeeds(c: bv32, d: byte)
    ensures FeedByte(c, d) == LookUp(c, d)
  {
    StepIsLinear();
    StepFeeds();
    UsedUp(d);
    ByteInput(c, d);
    forall x ensures Xor(x, 0) == x {
      XorZero(x);
    }
    forall x ensures x == Xor(Low(x), High(x)) && Iterate(Step, High(x), 8) == Drop(x) {
      SplitXor(x);
      HighDrops(x);
    }
    TableDriven(Step, Xor, Feed, Shift, Low, High, Drop, c, Widen(d), 8, 0);
  }

  /** `bits` steps from each index; the table is for 8. */
  ghost predicate IsTable(table: seq<bv32>, bits: nat) {
    |table| == 256 && forall n | 0 <= n < 256 :: table[n] == Iterate(Step, n as bv32, bits)
  }

  method CrcTable(bits: nat) returns (table: array<bv32>)
    ensures fresh(table) && IsTable(table[..], bits)
  {
    table := new bv32[256];
    for n := 0 to 256
      invariant forall m | 0 <= m < n :: table[m] == Iterate(Step, m as bv32, bits)
    {
      var c := n as bv32;
      for k := 0 to bits
        invariant Iterate(Step, c, bits - k) == Iterate(Step, n as bv32, bits)
      {
        c := if c & 1 == 1 then POLYNOMIAL ^ (c >> 1) else c >> 1;
      }
      table[n] := c;
    }
  }

  lemma LowIndex(x: bv32)
    ensures (Low(x) as nat) < 256 && (Low(x) as nat) as bv32 == Low(x)
  {
  }

  function At(table: seq<bv32>, x: bv32): bv32 {
    if x as nat < |table| then table[x as nat] else 0
  }

  /** One look-up in `table`. */
  function LookUpIn(table: seq<bv32>): (bv32, byte) -> bv32 {
    (c: bv32, d: byte) => Xor(At(table, Low(Xor(c, Widen(d)))), Drop(c))
  }

  lemma InTable(table: seq<bv32>, c: bv32, d: byte)
    requires IsTable(table, 8)
    ensures LookUpIn(table)(c, d) == FeedByte(c, d)
  {
    LowIndex(Xor(c, Widen(d)));
    TableFeeds(c, d);
  }

  lemma TableCrc(table: seq<bv32>, data: seq<byte>)
    requires IsTable(table, 8)
    ensures Fold(LookUpIn(table), ONES, data) == Fold(FeedByte, ONES, data)
  {
    forall c, d ensures LookUpIn(table)(c, d) == FeedByte(c, d) {
      InTable(table, c, d);
    }
    FoldSame(LookUpIn(table), FeedByte, ONES, data);
  }

  method Scan(table: array<bv32>, data: seq<byte>) returns (c: bv32)
    requires table.Length == 256
    ensures c == Fold(LookUpIn(table[..]), ONES, data)
  {
    c := ONES;
    for i := 0 to |data|
      invariant c == Fold(LookUpIn(table[..]), ONES, data[..i])
    {
      FoldNext(LookUpIn(table[..]), ONES, data, i);
      var low := Low(Xor(c, Widen(data[i])));
      LowIndex(Xor(c, Widen(data[i])));
      c := Xor(table[low as nat], Drop(c));
    }
    assert data[..|data|] == data;
  }

  /** The table-driven loop computes the CRC of every byte string. */
  method Crc32(data: seq<byte>) returns (crc: bv32)
    ensures crc == Crc(data)
  {
    var table := CrcTable(8);
    var c := Scan(table, data);
    TableCrc(table[..], data);
    crc := c ^ ONES;
  }

  /** The register `c` after the byte `d`, of which `x` is the index and `e` the entry of the table. */
  lemma FedByte(c: bv32, d: byte, w: bv32, x: bv32, e: bv32)
    requires Widen(d) == w && Low(Xor(c, w)) == x
    requires Step(Step(Step(Step(Step(Step(Step(Step(x)))))))) == e
    ensures FeedByte(c, d) == Xor(e, Drop(c))
  {
    TableFeeds(c, d);
    Eight(Step, x);
  }

  lemma FirstSteps()
    ensures Step(Step(Step(Step(Step(Step(Step(Step(0xB6)))))))) == 0x220216B9
    ensures Step(Step(Step(Step(Step(Step(Step(Step(0x03)))))))) == 0x990951BA
  {
  }

  lemma LastSteps()
    ensures Step(Step(Step(Step(Step(Step(Step(Step(0x1D)))))))) == 0x63066CD9
    ensures Step(Step(Step(Step(Step(Step(Step(Step(0x31)))))))) == 0x51DE003A
  {
  }

  lemma Widened()
    ensures Widen(0x49) == 0x49 && Widen(0x45) == 0x45 && Widen(0x4E) == 0x4E && Widen(0x44) == 0x44
  {
  }

  lemma FirstBytes()
    ensures FeedByte(ONES, 0x49) == 0x22FDE946 && FeedByte(0x22FDE946, 0x45) == 0x992BAC53
  {
    Widened();
    FirstSteps();
    FedByte(ONES, 0x49, 0x49, 0xB6, 0x220216B9);
    FedByte(0x22FDE946, 0x45, 0x45, 0x03, 0x990951BA);
  }

  lemma LastBytes()
    ensures FeedByte(0x992BAC53, 0x4E) == 0x639F4775 && FeedByte(0x639F4775, 0x44) == 0x51BD9F7D
  {
    Widened();
    LastSteps();
    FedByte(0x992BAC53, 0x4E, 0x4E, 0x1D, 0x63066CD9);
    FedByte(0x639F4775, 0x44, 0x44, 0x31, 0x51DE003A);
  }

  /** The CRC every PNG file ends with, that of the four letters "IEND". */
  lemma IendCrc()
    ensures Crc([0x49, 0x45, 0x4E, 0x44]) == 0xAE426082
  {
    FirstBytes();
    LastBytes();
    Fold4(FeedByte, ONES, 0x49, 0x45, 0x4E, 0x44);
  }

  // ------------------------------------------------------------------
  // Adler-32, as section 2.2 of RFC 1950 defines it
  // ------------------------------------------------------------------

  const MOD := 65521

  /** One more than the sum of the bytes. */
  function SumA(data: seq<byte>): nat
    decreases |data|
  {
    if data == [] then 1 else SumA(data[..|data| - 1]) + data[|data| - 1]
  }

  /** The sum of SumA over all prefixes but the empty one. */
  function SumB(data: seq<byte>): nat
    decreases |data|
  {
    if data == [] then 0 else SumB(data[..|data| - 1]) + SumA(data)
  }

  function Adler(data: seq<byte>): (r: nat)
    ensures r < 0x1_0000_0000
  {
    SumB(data) % MOD * 65536 + SumA(data) % MOD
  }

  lemma ModAdd(x: nat, y: nat)
    ensures (x % MOD + y) % MOD == (x + y) % MOD
  {
    var q := x / MOD;
    assert x + y == (x % MOD + y) + q * MOD;
    ModMultiple(x % MOD + y, q);
  }

  lemma {:induction false} ModMultiple(x: nat, q: nat)
    ensures (x + q * MOD) % MOD == x % MOD
  {
    if q > 0 {
      ModMultiple(x, q - 1);
      assert x + q * MOD == (x + (q - 1) * MOD) + MOD;
    }
  }

  /** Reducing after every byte gives the checksum; no 32-bit sum overflows on the way. */
  method Adler32(data: seq<byte>) returns (adler: nat)
    ensures adler == Adler(data)
  {
    var a: nat, b: nat := 1, 0;
    for i := 0 to |data|
      invariant a == SumA(data[..i]) % MOD && b == SumB(data[..i]) % MOD
    {
      assert data[..i + 1][..i] == data[..i];
      ModAdd(SumA(data[..i]), data[i]);
      assert a + data[i] < 0x1_0000_0000;
      a := (a + data[i]) % MOD;
      ModAdd(SumB(data[..i]), a);
      ModAdd(SumA(data[..i + 1]), SumB(data[..i]));
      assert b + a < 0x1_0000_0000;
      b := (b + a) % MOD;
    }
    assert data[..|data|] == data;
    adler := b * 65536 + a;
  }

  function Ones(n: nat): seq<byte> {
    seq(n, _ => 255)
  }

  lemma {:induction false} SumsOfOnes(n: nat)
    ensures SumA(Ones(n)) == 1 + 255 * n && 2 * SumB(Ones(n)) == 2 * n + 255 * n * (n + 1)
  {
    if n > 0 {
      SumsOfOnes(n - 1);
      assert Ones(n)[..n - 1] == Ones(n - 1);
    }
  }

  /** 23 bytes of 255 are the fewest whose sum is reduced. */
  lemma OnesAdler()
    ensures Adler(Ones(23)) == 4882 * 65536 + 5866
  {
    SumsOfOnes(23);
  }
}
