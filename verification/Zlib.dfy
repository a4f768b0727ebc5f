/**
 The zlib container of section 2.2 of RFC 1950 with the stored blocks of section 3.2.4
 of RFC 1951: what ZlibWrapStored writes, and a reader for it.
 */
module Zlib {
  import opened Wrappers
  import opened Checksums

  type bytes = seq<byte>

  function BE32(n: nat): (r: bytes)
    requires n < 0x1_0000_0000
    ensures |r| == 4 && FromBE32(r) == n
  {
    [n / 0x100_0000, n / 0x1_0000 % 256, n / 256 % 256, n % 256]
  }

  function FromBE32(b: bytes): nat
    requires |b| == 4
  {
    0x100_0000 * b[0] as nat + 0x1_0000 * b[1] as nat + 256 * b[2] as nat + b[3] as nat
  }

  function LE16(n: nat): (r: bytes)
    requires n < 0x1_0000
    ensures |r| == 2 && FromLE16(r) == n
  {
    [n % 256, n / 256]
  }

  function FromLE16(b: bytes): nat
    requires |b| == 2
  {
    b[0] as nat + 256 * b[1] as nat
  }

  // ------------------------------------------------------------------
  // Writing
  // ------------------------------------------------------------------

  const MAX_BLOCK := 65535

  /** Header with BFINAL, LEN, its complement NLEN, LEN bytes. */
  function Block(last: bool, payload: bytes): (r: bytes)
    requires |payload| <= MAX_BLOCK
    ensures |r| == 5 + |payload|
  {
    [if last then 1 else 0] + LE16(|payload|) + LE16(0xFFFF - |payload|) + payload
  }

  /** As many blocks as needed, full but for the last; one empty block for no data. */
  function Blocks(raw: bytes): (r: bytes)
    ensures |r| >= |raw|
    decreases |raw|
  {
    if |raw| <= MAX_BLOCK then Block(true, raw)
    else Block(false, raw[..MAX_BLOCK]) + Blocks(raw[MAX_BLOCK..])
  }

  const HEADER: bytes := [0x78, 0x01]

  function Wrap(raw: bytes): (r: bytes)
    ensures |r| >= |raw| + 6
  {
    HEADER + Blocks(raw) + BE32(Adler(raw))
  }

  lemma NextBlock(raw: bytes, offset: nat, chunk: nat)
    requires offset + chunk <= |raw| && chunk <= MAX_BLOCK && (chunk < MAX_BLOCK ==> offset + chunk == |raw|)
    ensures var last, payload := offset + chunk == |raw|, raw[offset..offset + chunk];
            Blocks(raw[offset..]) == Block(last, payload) + if last then [] else Blocks(raw[offset + chunk..])
  {
    var left := raw[offset..];
    assert raw[offset..offset + chunk] == left[..chunk] && raw[offset + chunk..] == left[chunk..];
    if offset + chunk == |raw| {
      assert left[..chunk] == left;
    }
  }

  method ZlibWrapStored(raw: bytes) returns (z: bytes)
    ensures z == Wrap(raw)
  {
    z := HEADER;
    var offset, last := 0, false;
    while !last
      invariant 0 <= offset <= |raw|
      invariant !last ==> z + Blocks(raw[offset..]) == HEADER + Blocks(raw)
      invariant last ==> z == HEADER + Blocks(raw)
      decreases !last, |raw| - offset
    {
      var remaining := |raw| - offset;
      var chunk := if remaining > MAX_BLOCK then MAX_BLOCK else remaining;
      last := offset + chunk == |raw|;
      NextBlock(raw, offset, chunk);
      z := z + Block(last, raw[offset..offset + chunk]);
      offset := offset + chunk;
    }
    var adler := Adler32(raw);
    z := z + BE32(adler);
  }

  // ------------------------------------------------------------------
  // Reading
  // ------------------------------------------------------------------

  /** The payload of stored blocks up to the final one, and what follows it. */
  function Inflate(z: bytes): Option<(bytes, bytes)>
    decreases |z|
  {
    if |z| < 5 then None else
    var len, nlen := FromLE16(z[1..3]), FromLE16(z[3..5]);
    if z[0] / 2 % 4 != 0 || len + nlen != 0xFFFF || |z| < 5 + len then None
    else if z[0] % 2 == 1 then Some((z[5..5 + len], z[5 + len..]))
    else var more := Inflate(z[5 + len..]);
         if more.None? then None else Some((z[5..5 + len] + more.value.0, more.value.1))
  }

  /** Method 8, window at most 32K, no dictionary, check bits. */
  predicate HeaderOk(cmf: byte, flg: byte) {
    cmf % 16 == 8 && cmf / 16 <= 7 && flg / 32 % 2 == 0 && (256 * cmf as nat + flg as nat) % 31 == 0
  }

  function Unwrap(z: bytes): Option<bytes> {
    if |z| < 2 || !HeaderOk(z[0], z[1]) then None else
    var data := Inflate(z[2..]);
    if data.None? || |data.value.1| != 4 || FromBE32(data.value.1) != Adler(data.value.0) then None
    else Some(data.value.0)
  }

  lemma BlockFields(last: bool, payload: bytes, rest: bytes)
    requires |payload| <= MAX_BLOCK
    ensures var z := Block(last, payload) + rest;
            && z[0] == (if last then 1 else 0) && FromLE16(z[1..3]) == |payload|
            && FromLE16(z[3..5]) == 0xFFFF - |payload|
            && z[5..5 + |payload|] == payload && z[5 + |payload|..] == rest
  {
    var z := Block(last, payload) + rest;
    assert z[1..3] == LE16(|payload|);
    assert z[3..5] == LE16(0xFFFF - |payload|);
  }

  lemma InflateLast(payload: bytes, rest: bytes)
    requires |payload| <= MAX_BLOCK
    ensures Inflate(Block(true, payload) + rest) == Some((payload, rest))
  {
    BlockFields(true, payload, rest);
  }

  lemma InflateFirst(payload: bytes, tail: bytes)
    requires |payload| <= MAX_BLOCK && Inflate(tail).Some?
    ensures Inflate(Block(false, payload) + tail) == Some((payload + Inflate(tail).value.0, Inflate(tail).value.1))
  {
    BlockFields(false, payload, tail);
  }

  /** Every block boundary is found again. */
  lemma {:induction false} InflateBlocks(raw: bytes, rest: bytes)
    ensures Inflate(Blocks(raw) + rest) == Some((raw, rest))
    decreases |raw|
  {
    if |raw| <= MAX_BLOCK {
      InflateLast(raw, rest);
    } else {
      var first, tail := raw[..MAX_BLOCK], Blocks(raw[MAX_BLOCK..]) + rest;
      InflateBlocks(raw[MAX_BLOCK..], rest);
      InflateFirst(first, tail);
      assert Blocks(raw) + rest == Block(false, first) + tail;
      assert raw == first + raw[MAX_BLOCK..];
    }
  }

  lemma HeaderFirst(b: bytes, check: bytes)
    ensures var z := HEADER + b + check; |z| >= 2 && z[0] == 0x78 && z[1] == 0x01 && z[2..] == b + check
  {
  }

  lemma UnwrapWith(b: bytes, raw: bytes, check: bytes)
    requires Inflate(b + check) == Some((raw, check))
    requires |check| == 4 && FromBE32(check) == Adler(raw)
    ensures Unwrap(HEADER + b + check) == Some(raw)
  {
    HeaderFirst(b, check);
  }

  lemma UnwrapWrap(raw: bytes)
    ensures Unwrap(Wrap(raw)) == Some(raw)
  {
    var b, check := Blocks(raw), BE32(Adler(raw));
    InflateBlocks(raw, check);
    UnwrapWith(b, raw, check);
  }

  // ------------------------------------------------------------------
  // No reader gets the data from less
  // ------------------------------------------------------------------

  /** The size of the blocks for `n` bytes. */
  function BlockBytes(n: nat): nat {
    if n <= MAX_BLOCK then n + 5 else MAX_BLOCK + 5 + BlockBytes(n - MAX_BLOCK)
  }

  lemma {:induction false} BlocksLength(raw: bytes)
    ensures |Blocks(raw)| == BlockBytes(|raw|)
    decreases |raw|
  {
    if |raw| > MAX_BLOCK {
      BlocksLength(raw[MAX_BLOCK..]);
    }
  }

  lemma WrapLength(raw: bytes)
    ensures |Wrap(raw)| == 6 + BlockBytes(|raw|)
  {
    BlocksLength(raw);
  }

  /** A block in front never saves space. */
  lemma {:induction false} BlockBytesFront(a: nat, b: nat)
    requires a <= MAX_BLOCK
    ensures BlockBytes(a + b) <= a + 5 + BlockBytes(b)
    decreases b
  {
    if b > MAX_BLOCK {
      BlockBytesFront(a, b - MAX_BLOCK);
    }
  }

  lemma {:induction false} BlockBytesMonotone(m: nat, n: nat)
    requires m <= n
    ensures BlockBytes(m) <= BlockBytes(n)
    decreases n
  {
    if m > MAX_BLOCK {
      BlockBytesMonotone(m - MAX_BLOCK, n - MAX_BLOCK);
    } else if n > MAX_BLOCK {
      BlockBytesLeast(n - MAX_BLOCK);
    }
  }

  lemma {:induction false} BlockBytesLeast(n: nat)
    ensures n + 5 <= BlockBytes(n) <= n + 5 * (n / MAX_BLOCK + 1)
    decreases n
  {
    if n > MAX_BLOCK {
      BlockBytesLeast(n - MAX_BLOCK);
      assert n / MAX_BLOCK == (n - MAX_BLOCK) / MAX_BLOCK + 1;
    }
  }

  lemma {:induction false} InflateLength(z: bytes)
    requires Inflate(z).Some?
    ensures |z| >= BlockBytes(|Inflate(z).value.0|) + |Inflate(z).value.1|
    decreases |z|
  {
    var len := FromLE16(z[1..3]);
    if z[0] % 2 == 0 {
      var more := Inflate(z[5 + len..]);
      InflateLength(z[5 + len..]);
      BlockBytesFront(len, |more.value.0|);
    }
  }

  /** Whatever a reader accepts for `raw` is at least as long as what the writer produces. */
  lemma UnwrapLength(z: bytes)
    requires Unwrap(z).Some?
    ensures |z| >= 6 + BlockBytes(|Unwrap(z).value|)
  {
    InflateLength(z[2..]);
  }
}
