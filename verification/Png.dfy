/**
 The chunks of section 3.2 of RFC 2083: length, name, data and a checksum of name and
 data. The checksum is a parameter here.
 */
module Chunks {
  import opened Wrappers
  import opened Zlib

  const WORD32 := 0x1_0000_0000
  const MAX_LENGTH := 0x7FFF_FFFF

  type word = x: nat | x < WORD32

  type Checksum = bytes -> word

  /** The length field holds 32 bits, whatever the size. */
  function Chunk(sum: Checksum, name: bytes, data: bytes): bytes {
    BE32(|data| % WORD32) + name + data + BE32(sum(name + data))
  }

  datatype Parsed = Parsed(name: bytes, data: bytes, rest: bytes)

  function ReadChunk(sum: Checksum, b: bytes): (r: Option<Parsed>)
    ensures r.Some? ==> |b| == 12 + |r.value.data| + |r.value.rest| && |r.value.data| <= MAX_LENGTH
    ensures r.Some? ==> r.value.name == b[4..8] && |r.value.data| == FromBE32(b[..4])
  {
    if |b| < 12 then None else
    var n := FromBE32(b[..4]);
    if n > MAX_LENGTH || |b| < 12 + n || FromBE32(b[8 + n..12 + n]) != sum(b[4..8 + n]) then None
    else Some(Parsed(b[4..8], b[8..8 + n], b[12 + n..]))
  }

  lemma ReadFields(length: bytes, name: bytes, data: bytes, check: bytes, rest: bytes)
    requires |length| == 4 == |name| && |check| == 4
    ensures var b, n := length + name + data + check + rest, |data|;
            && |b| >= 12 + n && b[..4] == length && b[4..8] == name && b[8..8 + n] == data && b[4..8 + n] == name + data
            && b[8 + n..12 + n] == check && b[12 + n..] == rest
  {
  }

  lemma ReadFrom(sum: Checksum, b: bytes, n: nat)
    requires |b| >= 12 + n && FromBE32(b[..4]) == n
    requires n <= MAX_LENGTH ==> FromBE32(b[8 + n..12 + n]) == sum(b[4..8 + n])
    ensures ReadChunk(sum, b) == if n <= MAX_LENGTH then Some(Parsed(b[4..8], b[8..8 + n], b[12 + n..])) else None
  {
  }

  lemma ReadParts(sum: Checksum, length: bytes, name: bytes, data: bytes, check: bytes, rest: bytes)
    requires |length| == 4 == |name| && |check| == 4 && FromBE32(length) == |data|
             && FromBE32(check) == sum(name + data)
    ensures ReadChunk(sum, length + name + data + check + rest)
         == if |data| <= MAX_LENGTH then Some(Parsed(name, data, rest)) else None
  {
    ReadFields(length, name, data, check, rest);
    ReadFrom(sum, length + name + data + check + rest, |data|);
  }

  /** A written chunk is read back exactly if its length fits the format. */
  lemma ReadWritten(sum: Checksum, name: bytes, data: bytes, rest: bytes)
    requires |name| == 4
    ensures ReadChunk(sum, Chunk(sum, name, data) + rest) == Some(Parsed(name, data, rest)) <==> |data| <= MAX_LENGTH
    ensures MAX_LENGTH < |data| < WORD32 ==> ReadChunk(sum, Chunk(sum, name, data) + rest).None?
  {
    if |data| < WORD32 {
      ChunkOf(sum, name, data);
      ReadParts(sum, BE32(|data|), name, data, BE32(sum(name + data)), rest);
    }
  }

  lemma ChunkOf(sum: Checksum, name: bytes, data: bytes)
    requires |data| < WORD32
    ensures Chunk(sum, name, data) == BE32(|data|) + name + data + BE32(sum(name + data))
  {
    assert |data| % WORD32 == |data|;
  }

  /** The data of all chunks called `name` up to an empty chunk called `end` at the end. */
  function ReadData(sum: Checksum, name: bytes, end: bytes, b: bytes): Option<bytes>
    decreases |b|
  {
    var c := ReadChunk(sum, b);
    if c.None? then None
    else if c.value.name == end then if c.value.data == [] && c.value.rest == [] then Some([]) else None
    else if c.value.name != name then None
    else var more := ReadData(sum, name, end, c.value.rest);
         if more.None? then None else Some(c.value.data + more.value)
  }

  lemma ReadEnd(sum: Checksum, name: bytes, end: bytes)
    requires |end| == 4
    ensures ReadData(sum, name, end, Chunk(sum, end, [])) == Some([])
  {
    ReadWritten(sum, end, [], []);
    assert Chunk(sum, end, []) + [] == Chunk(sum, end, []);
  }

  /** All of the input is consumed, 12 bytes of it by each chunk. */
  lemma {:induction false} ReadDataLength(sum: Checksum, name: bytes, end: bytes, b: bytes)
    requires ReadData(sum, name, end, b).Some?
    ensures |b| == 12 || |ReadData(sum, name, end, b).value| + 24 <= |b|
    ensures |b| == 12 ==> ReadData(sum, name, end, b).value == []
    decreases |b|
  {
    var c := ReadChunk(sum, b);
    if c.value.name != end {
      ReadDataLength(sum, name, end, c.value.rest);
    }
  }

  lemma ChunkFields(sum: Checksum, name: bytes, data: bytes, rest: bytes)
    requires |name| == 4
    ensures var b := Chunk(sum, name, data) + rest;
            |b| == 12 + |data| + |rest| && b[4..8] == name && FromBE32(b[..4]) == |data| % WORD32
  {
    ReadFields(BE32(|data| % WORD32), name, data, BE32(sum(name + data)), rest);
  }

  /** With a wrapped length the reader loses at least one chunk's worth. */
  lemma WrappedData(sum: Checksum, name: bytes, end: bytes, data: bytes)
    requires |name| == 4 == |end| && name != end && |data| >= WORD32
    requires ReadData(sum, name, end, Chunk(sum, name, data) + Chunk(sum, end, [])).Some?
    ensures |ReadData(sum, name, end, Chunk(sum, name, data) + Chunk(sum, end, [])).value| + 12 <= |data|
  {
    var b := Chunk(sum, name, data) + Chunk(sum, end, []);
    ChunkFields(sum, name, data, Chunk(sum, end, []));
    ChunkFields(sum, end, [], []);
    assert Chunk(sum, end, []) + [] == Chunk(sum, end, []);
    var c := ReadChunk(sum, b);
    ReadDataLength(sum, name, end, c.value.rest);
  }

  lemma ReadWrittenData(sum: Checksum, name: bytes, end: bytes, data: bytes)
    requires |name| == 4 == |end| && name != end && |data| < WORD32
    ensures ReadData(sum, name, end, Chunk(sum, name, data) + Chunk(sum, end, []))
         == if |data| <= MAX_LENGTH then Some(data) else None
  {
    ReadWritten(sum, name, data, Chunk(sum, end, []));
    ReadEnd(sum, name, end);
    assert data + [] == data;
  }
}

/** Scanlines: each row after a filter byte 0 (None). */
module Scanlines {
  import opened Wrappers
  import opened Zlib

  lemma Times(h: nat, s: nat)
    requires h > 0
    ensures h * s == s + (h - 1) * s
  {
  }

  /** `height` rows of `row` bytes, taken from a buffer with `stride` bytes for each. */
  function Filtered(rgb: bytes, stride: nat, row: nat, height: nat): bytes
    requires row <= stride && |rgb| == height * stride
    decreases height
  {
    if height == 0 then []
    else
      Times(height, stride);
      [0] + rgb[..row] + Filtered(rgb[stride..], stride, row, height - 1)
  }

  lemma {:induction false} FilteredLength(rgb: bytes, stride: nat, row: nat, height: nat)
    requires row <= stride && |rgb| == height * stride
    ensures |Filtered(rgb, stride, row, height)| == height * (1 + row)
    decreases height
  {
    if height > 0 {
      Times(height, stride);
      FilteredLength(rgb[stride..], stride, row, height - 1);
      Times(height, 1 + row);
    }
  }

  /** `height` unfiltered rows of `row` bytes, and nothing else. */
  function Unfilter(raw: bytes, row: nat, height: nat): Option<bytes>
    decreases height
  {
    if height == 0 then if raw == [] then Some([]) else None
    else if |raw| < 1 + row || raw[0] != 0 then None
    else var more := Unfilter(raw[1 + row..], row, height - 1);
         if more.None? then None else Some(raw[1..1 + row] + more.value)
  }

  lemma {:induction false} UnfilterLength(raw: bytes, row: nat, height: nat)
    requires Unfilter(raw, row, height).Some?
    ensures |raw| == height * (1 + row)
    decreases height
  {
    if height > 0 {
      UnfilterLength(raw[1 + row..], row, height - 1);
      Times(height, 1 + row);
    }
  }

  lemma UnfilterRow(line: bytes, more: bytes, height: nat)
    requires height > 0 && Unfilter(more, |line|, height - 1).Some?
    ensures Unfilter([0] + line + more, |line|, height) == Some(line + Unfilter(more, |line|, height - 1).value)
  {
    var raw := [0] + line + more;
    assert raw[1..1 + |line|] == line && raw[1 + |line|..] == more;
  }

  lemma {:induction false} UnfilterFiltered(rgb: bytes, row: nat, height: nat)
    requires |rgb| == height * row
    ensures Unfilter(Filtered(rgb, row, row, height), row, height) == Some(rgb)
    decreases height
  {
    if height > 0 {
      Times(height, row);
      var line, below := rgb[..row], rgb[row..];
      UnfilterFiltered(below, row, height - 1);
      UnfilterRow(line, Filtered(below, row, row, height - 1), height);
      assert rgb == line + below;
    }
  }

  /** Where row `y` starts and ends. */
  lemma RowBounds(stride: nat, height: nat, y: nat)
    requires y < height
    ensures (y + 1) * stride == y * stride + stride
    ensures height * stride == y * stride + (height - y) * stride
    ensures (height - y) * stride == stride + (height - y - 1) * stride
    ensures 0 <= y * stride && y * stride + stride <= height * stride
  {
    Times(y + 1, stride);
    Times(height - y, stride);
    Splits(y, height - y, stride);
    Natural(y, stride);
    Natural(height - y - 1, stride);
  }

  lemma Natural(a: nat, b: nat)
    ensures 0 <= a * b
  {
  }

  lemma Splits(a: nat, b: nat, s: nat)
    ensures (a + b) * s == a * s + b * s
  {
  }

  /** The rows from `offset` on. */
  lemma RowAt(rgb: bytes, stride: nat, row: nat, left: nat, offset: nat)
    requires row <= stride && left > 0 && offset + left * stride == |rgb|
    ensures offset + stride <= |rgb| && |rgb[offset + stride..]| == (left - 1) * stride
    ensures Filtered(rgb[offset..], stride, row, left)
         == [0] + rgb[offset..offset + row] + Filtered(rgb[offset + stride..], stride, row, left - 1)
  {
    Times(left, stride);
    var below := rgb[offset..];
    assert below[..row] == rgb[offset..offset + row] && below[stride..] == rgb[offset + stride..];
  }

  // ------------------------------------------------------------------
  // 64-bit sizes
  // ------------------------------------------------------------------

  const SIZE := 0x1_0000_0000_0000_0000

  /** The bytes of row `y`, at the offset computed in 64 bits, are in a buffer of `length` bytes. */
  predicate RowInside(length: nat, stride: nat, row: nat, y: nat) {
    y * stride % SIZE + row <= length
  }

  lemma SmallRemainder(x: nat, m: nat)
    requires x < m
    ensures x % m == x
  {
  }

  /** Buffers of the right size hold every row. */
  lemma RowsInside(length: nat, stride: nat, row: nat, height: nat, y: nat)
    requires row <= stride && length == height * stride < SIZE && y < height
    ensures RowInside(length, stride, row, y) && y * stride % SIZE == y * stride
  {
    RowBounds(stride, height, y);
    Inside(length, y * stride, row);
  }

  lemma Inside(length: nat, offset: nat, row: nat)
    requires offset + row <= length < SIZE
    ensures offset % SIZE == offset
  {
  }

  /** If the size wraps, some row starts beyond what any vector holds. */
  lemma RowOutside(stride: nat, height: nat) returns (y: nat)
    requires 0 < stride < SIZE / 4 && height * stride >= SIZE
    ensures y < height && SIZE / 2 <= y * stride < SIZE
  {
    y := 0;
    while y * stride < SIZE / 2
      invariant y <= height && 0 <= y * stride < SIZE / 2 + stride
      decreases height - y
    {
      Times(y + 1, stride);
      assert y == height ==> y * stride == height * stride;
      y := y + 1;
    }
    assert y == height ==> y * stride == height * stride;
  }

  /** A buffer that passed the size check holds every row exactly if the size did not wrap. */
  lemma RowsInsideExactly(length: nat, stride: nat, row: nat, height: nat)
    requires 0 < stride < SIZE / 4 && row <= stride && length == height * stride % SIZE && length < SIZE / 2
    ensures (forall y | 0 <= y < height :: RowInside(length, stride, row, y)) <==> height * stride < SIZE
  {
    if height * stride < SIZE {
      SmallRemainder(height * stride, SIZE);
      forall y | 0 <= y < height ensures RowInside(length, stride, row, y) {
        RowsInside(length, stride, row, height, y);
      }
    } else {
      var y := RowOutside(stride, height);
      SmallRemainder(y * stride, SIZE);
      assert !RowInside(length, stride, row, y);
    }
  }

  /** The buffer has the size of the rows. */
  predicate Fits(rgb: bytes, stride: nat, height: nat) {
    |rgb| == height * stride < SIZE
  }

  /** The rows with their filter bytes, or None where the loop would read outside the buffer. */
  method FilterRows(rgb: bytes, stride: nat, row: nat, height: nat) returns (raw: Option<bytes>)
    requires row <= stride
    ensures raw.Some? <==> forall y | 0 <= y < height :: RowInside(|rgb|, stride, row, y)
    ensures Fits(rgb, stride, height) ==> raw == Some(Filtered(rgb, stride, row, height))
  {
    var lines: bytes := [];
    WrittenNone(rgb, stride, row, height);
    for y := 0 to height
      invariant forall k | 0 <= k < y :: RowInside(|rgb|, stride, row, k)
      invariant Fits(rgb, stride, height) ==> Written(rgb, stride, row, height, y, lines)
    {
      WrittenNext(rgb, stride, row, height, y, lines);
      var offset := y * stride % SIZE;
      if offset + row > |rgb| {
        assert !RowInside(|rgb|, stride, row, y);
        return None;
      }
      lines := lines + [0] + rgb[offset..offset + row];
    }
    WrittenAll(rgb, stride, row, height, lines);
    return Some(lines);
  }

  /** `lines` are the first `y` rows. */
  ghost predicate Written(rgb: bytes, stride: nat, row: nat, height: nat, y: nat, lines: bytes)
    requires row <= stride && Fits(rgb, stride, height) && y <= height
  {
    && y * stride + (height - y) * stride == |rgb| && 0 <= y * stride <= |rgb|
    && lines + Filtered(rgb[y * stride..], stride, row, height - y) == Filtered(rgb, stride, row, height)
  }

  lemma WrittenNone(rgb: bytes, stride: nat, row: nat, height: nat)
    requires row <= stride
    ensures Fits(rgb, stride, height) ==> Written(rgb, stride, row, height, 0, [])
  {
    assert rgb[0..] == rgb;
  }

  lemma WrittenAll(rgb: bytes, stride: nat, row: nat, height: nat, lines: bytes)
    requires row <= stride && (Fits(rgb, stride, height) ==> Written(rgb, stride, row, height, height, lines))
    ensures Fits(rgb, stride, height) ==> lines == Filtered(rgb, stride, row, height)
  {
  }

  lemma WrittenNext(rgb: bytes, stride: nat, row: nat, height: nat, y: nat, lines: bytes)
    requires row <= stride && y < height
    requires Fits(rgb, stride, height) ==> Written(rgb, stride, row, height, y, lines)
    ensures var offset := y * stride % SIZE;
            Fits(rgb, stride, height) ==>
              && offset + row <= |rgb| && RowInside(|rgb|, stride, row, y)
              && Written(rgb, stride, row, height, y + 1, lines + [0] + rgb[offset..offset + row])
  {
    if Fits(rgb, stride, height) {
      RowsInside(|rgb|, stride, row, height, y);
      RowBounds(stride, height, y);
      RowAt(rgb, stride, row, height - y, y * stride);
    }
  }
}

/** The PNG writer, and a reader for 8-bit RGB images without interlacing whose scanlines are unfiltered. */
module Png {
  import opened Wrappers
  import opened Checksums
  import opened Zlib
  import opened Chunks
  import opened Scanlines

  datatype Image = Image(width: nat, height: nat, rgb: bytes)

  /** `Overrun`: the code reads outside the pixel buffer. */
  datatype Result = Ok(file: bytes) | Err(error: string) | Overrun

  const SIGNATURE: bytes := [0x89, 0x50, 0x4E, 0x47, 0x0D, 0x0A, 0x1A, 0x0A]
  const IHDR: bytes := [0x49, 0x48, 0x44, 0x52]
  const IDAT: bytes := [0x49, 0x44, 0x41, 0x54]
  const IEND: bytes := [0x49, 0x45, 0x4E, 0x44]

  function CrcOf(data: bytes): word {
    Crc(data) as nat
  }

  // ------------------------------------------------------------------
  // Writing
  // ------------------------------------------------------------------

  lemma Suffix(out: bytes, length: bytes, name: bytes, data: bytes, check: bytes)
    ensures (out + length + name + data)[|out + length|..] == name + data
    ensures out + length + name + data + check == out + (length + name + data + check)
  {
  }

  method WriteChunk(out: bytes, name: bytes, data: bytes) returns (r: bytes)
    ensures r == out + Chunk(CrcOf, name, data)
  {
    var length := BE32(|data| % WORD32);
    r := out + length;
    var start := |r|;
    r := r + name + data;
    Suffix(out, length, name, data, BE32(CrcOf(name + data)));
    var crc := Crc32(r[start..]);
    r := r + BE32(crc as nat);
  }

  /** The bytes of a row as the writer computes them, in 32-bit arithmetic. */
  function RowBytes(width: nat): nat {
    3 * width % WORD32
  }

  function Header(width: nat, height: nat): (r: bytes)
    requires width < WORD32 && height < WORD32
    ensures |r| == 13
  {
    BE32(width) + BE32(height) + [8, 2, 0, 0, 0]
  }

  predicate Sized(width: nat, height: nat, rgb: bytes) {
    0 < width < WORD32 && 0 < height < WORD32 && |rgb| == height * (3 * width)
  }

  function Stream(width: nat, height: nat, rgb: bytes): bytes
    requires Sized(width, height, rgb)
  {
    Wrap(Filtered(rgb, 3 * width, RowBytes(width), height))
  }

  function Assemble(sum: Checksum, header: bytes, stream: bytes): bytes {
    SIGNATURE + Chunk(sum, IHDR, header) + Chunk(sum, IDAT, stream) + Chunk(sum, IEND, [])
  }

  function Encode(width: nat, height: nat, rgb: bytes): bytes
    requires Sized(width, height, rgb)
  {
    Assemble(CrcOf, Header(width, height), Stream(width, height, rgb))
  }

  /** The size check works modulo 2^64; a vector holds fewer than 2^63 bytes. */
  method Write(width: nat, height: nat, rgb: bytes) returns (r: Result)
    requires width < WORD32 && height < WORD32 && |rgb| < SIZE / 2
    ensures width == 0 || height == 0 ==> r == Err("invalid image dimensions")
    ensures width > 0 && height > 0 && |rgb| != height * (3 * width) % SIZE ==>
              r == Err("pixel buffer size does not match dimensions")
    ensures Sized(width, height, rgb) ==> r == Ok(Encode(width, height, rgb))
    ensures width > 0 && height > 0 && |rgb| == height * (3 * width) % SIZE != height * (3 * width) ==> r == Overrun
  {
    if width == 0 || height == 0 {
      return Err("invalid image dimensions");
    }
    if |rgb| != height * (3 * width) % SIZE {
      SizeWraps(height * (3 * width));
      return Err("pixel buffer size does not match dimensions");
    }
    RowExact(width);
    RowsInsideExactly(|rgb|, 3 * width, RowBytes(width), height);
    SizeWraps(height * (3 * width));
    var raw := FilterRows(rgb, 3 * width, RowBytes(width), height);
    if raw.None? {
      return Overrun;
    }
    var stream := ZlibWrapStored(raw.value);
    var file := WriteFile(BE32(width) + BE32(height) + [8, 2, 0, 0, 0], stream);
    return Ok(file);
  }

  lemma SizeWraps(n: nat)
    ensures n % SIZE == n <==> n < SIZE
  {
  }

  method WriteFile(header: bytes, stream: bytes) returns (file: bytes)
    ensures file == Assemble(CrcOf, header, stream)
  {
    file := WriteChunk(SIGNATURE, IHDR, header);
    file := WriteChunk(file, IDAT, stream);
    file := WriteChunk(file, IEND, []);
  }

  // ------------------------------------------------------------------
  // Reading
  // ------------------------------------------------------------------

  function Pixels(stream: bytes, width: nat, height: nat): Option<Image> {
    var raw := Unwrap(stream);
    if raw.None? then None else
    var rgb := Unfilter(raw.value, 3 * width, height);
    if rgb.None? then None else Some(Image(width, height, rgb.value))
  }

  /** Width and height of an 8-bit RGB image without interlacing. */
  function ReadHeader(name: bytes, data: bytes): Option<(nat, nat)> {
    if name != IHDR || |data| != 13 || data[8..] != [8, 2, 0, 0, 0] then None else
    var width, height := FromBE32(data[..4]), FromBE32(data[4..8]);
    if 0 < width <= MAX_LENGTH && 0 < height <= MAX_LENGTH then Some((width, height)) else None
  }

  function Body(size: Option<(nat, nat)>, stream: Option<bytes>): Option<Image> {
    if size.None? || stream.None? then None else Pixels(stream.value, size.value.0, size.value.1)
  }

  function Parse(sum: Checksum, file: bytes): Option<Image> {
    if |file| < 8 || file[..8] != SIGNATURE then None else
    var c := ReadChunk(sum, file[8..]);
    if c.None? then None
    else Body(ReadHeader(c.value.name, c.value.data), ReadData(sum, IDAT, IEND, c.value.rest))
  }

  function Decode(file: bytes): Option<Image> {
    Parse(CrcOf, file)
  }

  // ------------------------------------------------------------------
  // The round trip
  // ------------------------------------------------------------------

  lemma HeaderFields(w: bytes, h: bytes, tail: bytes)
    requires |w| == 4 == |h| && |tail| == 5
    ensures var d := w + h + tail; |d| == 13 && d[..4] == w && d[4..8] == h && d[8..] == tail
  {
  }

  lemma ReadWrittenHeader(width: nat, height: nat)
    requires 0 < width < WORD32 && 0 < height < WORD32
    ensures ReadHeader(IHDR, Header(width, height))
         == if width <= MAX_LENGTH && height <= MAX_LENGTH then Some((width, height)) else None
  {
    HeaderFields(BE32(width), BE32(height), [8, 2, 0, 0, 0]);
  }

  lemma SplitFile(a: bytes, b: bytes, c: bytes, d: bytes)
    ensures (a + b + c + d)[..|a|] == a && (a + b + c + d)[|a|..] == b + (c + d)
  {
  }

  lemma ParseAssembled(sum: Checksum, header: bytes, stream: bytes)
    requires |header| <= MAX_LENGTH
    ensures Parse(sum, Assemble(sum, header, stream))
         == Body(ReadHeader(IHDR, header), ReadData(sum, IDAT, IEND, Chunk(sum, IDAT, stream) + Chunk(sum, IEND, [])))
  {
    var b, c, d := Chunk(sum, IHDR, header), Chunk(sum, IDAT, stream), Chunk(sum, IEND, []);
    SplitFile(SIGNATURE, b, c, d);
    ReadWritten(sum, IHDR, header, c + d);
  }

  lemma LessTimes(h: nat, a: nat, b: nat)
    requires h > 0 && a < b
    ensures h * a < h * b
  {
  }

  lemma BothBelow(h: nat, w: nat)
    requires h > 0
    ensures h * (1 + 3 * w) >= h && h * (1 + 3 * w) >= w
  {
    Times(h, 1 + 3 * w);
  }

  lemma WrapLonger(raw: bytes)
    ensures |Wrap(raw)| >= |raw|
  {
  }

  /** The stream holds every row, so a stream that fits bounds both dimensions. */
  lemma Bounded(width: nat, height: nat, rgb: bytes)
    requires Sized(width, height, rgb) && 3 * width < WORD32 && |Stream(width, height, rgb)| <= MAX_LENGTH
    ensures width <= MAX_LENGTH && height <= MAX_LENGTH
  {
    var raw := Filtered(rgb, 3 * width, RowBytes(width), height);
    FilteredLength(rgb, 3 * width, RowBytes(width), height);
    BothBelow(height, width);
    WrapLonger(raw);
  }

  lemma PixelsOf(raw: bytes, width: nat, height: nat)
    ensures var rgb := Unfilter(raw, 3 * width, height);
            Pixels(Wrap(raw), width, height) == if rgb.Some? then Some(Image(width, height, rgb.value)) else None
  {
    UnwrapWrap(raw);
  }

  lemma TooShort(raw: bytes, row: nat, height: nat, short: nat)
    requires height > 0 && short < row && |raw| == height * (1 + short)
    ensures Unfilter(raw, row, height).None?
  {
    LessTimes(height, 1 + short, 1 + row);
    if Unfilter(raw, row, height).Some? {
      UnfilterLength(raw, row, height);
    }
  }

  /** Shortened rows do not make up an image. */
  lemma RowsBack(rgb: bytes, stride: nat, row: nat, height: nat)
    requires height > 0 && row <= stride && |rgb| == height * stride
    ensures Unfilter(Filtered(rgb, stride, row, height), stride, height) == if row == stride then Some(rgb) else None
  {
    if row == stride {
      UnfilterFiltered(rgb, stride, height);
    } else {
      FilteredLength(rgb, stride, row, height);
      TooShort(Filtered(rgb, stride, row, height), stride, height, row);
    }
  }

  lemma RowExact(width: nat)
    ensures RowBytes(width) <= 3 * width && (RowBytes(width) == 3 * width <==> 3 * width < WORD32)
  {
  }

  lemma PixelsBack(width: nat, height: nat, rgb: bytes)
    requires Sized(width, height, rgb)
    ensures Pixels(Stream(width, height, rgb), width, height)
         == if 3 * width < WORD32 then Some(Image(width, height, rgb)) else None
  {
    RowExact(width);
    PixelsOf(Filtered(rgb, 3 * width, RowBytes(width), height), width, height);
    RowsBack(rgb, 3 * width, RowBytes(width), height);
  }

  /** Up to 4 GB of image data a file that is not the image is no image at all. */
  lemma ShortRoundTrip(width: nat, height: nat, rgb: bytes)
    requires Sized(width, height, rgb) && |Stream(width, height, rgb)| < WORD32
    ensures Decode(Encode(width, height, rgb))
         == if 3 * width < WORD32 && |Stream(width, height, rgb)| <= MAX_LENGTH
            then Some(Image(width, height, rgb)) else None
  {
    ParseAssembled(CrcOf, Header(width, height), Stream(width, height, rgb));
    assert IDAT[1] != IEND[1];
    ReadWrittenData(CrcOf, IDAT, IEND, Stream(width, height, rgb));
    ReadWrittenHeader(width, height);
    PixelsBack(width, height, rgb);
    if 3 * width < WORD32 && |Stream(width, height, rgb)| <= MAX_LENGTH {
      Bounded(width, height, rgb);
    }
  }

  /** A stream that holds `height` rows is at least as long as the writer's for as many bytes. */
  lemma StreamNeeds(stream: bytes, row: nat, height: nat, raw: bytes)
    requires Unwrap(stream).Some? && Unfilter(Unwrap(stream).value, row, height).Some?
    requires |raw| <= height * (1 + row)
    ensures |stream| >= |Wrap(raw)|
  {
    var read := Unwrap(stream).value;
    UnwrapLength(stream);
    UnfilterLength(read, row, height);
    BlockBytesMonotone(|raw|, |read|);
    WrapLength(raw);
  }

  /** A stream from which a reader gets the image is at least as long as the writer's. */
  lemma PixelsNeed(stream: bytes, width: nat, height: nat, rgb: bytes)
    requires Sized(width, height, rgb) && Pixels(stream, width, height).Some?
    ensures |stream| >= |Stream(width, height, rgb)|
  {
    RowExact(width);
    FilteredLength(rgb, 3 * width, RowBytes(width), height);
    TimesMonotone(height, 1 + RowBytes(width), 1 + 3 * width);
    StreamNeeds(stream, 3 * width, height, Filtered(rgb, 3 * width, RowBytes(width), height));
  }

  lemma TimesMonotone(h: nat, a: nat, b: nat)
    requires a <= b
    ensures h * a <= h * b
  {
  }

  /** Beyond 4 GB the length field wraps, and no reader gets the image back. */
  lemma LongRoundTrip(width: nat, height: nat, rgb: bytes)
    requires Sized(width, height, rgb) && |Stream(width, height, rgb)| >= WORD32
    ensures Decode(Encode(width, height, rgb)) != Some(Image(width, height, rgb))
  {
    var stream := Stream(width, height, rgb);
    ParseAssembled(CrcOf, Header(width, height), stream);
    var data := ReadData(CrcOf, IDAT, IEND, Chunk(CrcOf, IDAT, stream) + Chunk(CrcOf, IEND, []));
    assert IDAT[1] != IEND[1];
    if data.Some? && Pixels(data.value, width, height).Some? {
      WrappedData(CrcOf, IDAT, IEND, stream);
      PixelsNeed(data.value, width, height, rgb);
    }
  }

  /**
   Round trip, exactly: the written file decodes to the image if and only if the compressed
   stream fits the format's 31-bit length and a row fits 32 bits.
   */
  lemma RoundTrip(width: nat, height: nat, rgb: bytes)
    requires Sized(width, height, rgb)
    ensures Decode(Encode(width, height, rgb)) == Some(Image(width, height, rgb))
       <==> 3 * width < WORD32 && |Stream(width, height, rgb)| <= MAX_LENGTH
  {
    if |Stream(width, height, rgb)| < WORD32 {
      ShortRoundTrip(width, height, rgb);
    } else {
      LongRoundTrip(width, height, rgb);
    }
  }

  // ------------------------------------------------------------------
  // The fixed bytes
  // ------------------------------------------------------------------

  /** The most significant byte first. */
  predicate IsWord(b: bytes, value: nat) {
    |b| == 4 && (b[0] as int) * 0x100_0000 + (b[1] as int) * 0x1_0000 + (b[2] as int) * 0x100 + b[3] as int == value
  }

  lemma WordBytes(value: nat)
    requires value < WORD32
    ensures IsWord(BE32(value), value)
  {
  }

  /**
   What sections 3.1, 4.1.1 and 4.1.4 of RFC 2083 fix: the signature, a header chunk of 13
   bytes with width and height and 8-bit RGB without interlacing, then the data, and at the
   end an empty chunk with a known CRC.
   */
  lemma FixedBytes(width: nat, height: nat, rgb: bytes)
    requires Sized(width, height, rgb)
    ensures var f := Encode(width, height, rgb);
            && |f| >= 57 && f[..16] == [137, 80, 78, 71, 13, 10, 26, 10, 0, 0, 0, 13, 73, 72, 68, 82]
            && IsWord(f[16..20], width) && IsWord(f[20..24], height) && f[24..29] == [8, 2, 0, 0, 0]
            && f[37..41] == [73, 68, 65, 84]
            && f[|f| - 12..] == [0, 0, 0, 0, 73, 69, 78, 68, 0xAE, 0x42, 0x60, 0x82]
  {
    var header, stream := Header(width, height), Stream(width, height, rgb);
    WordBytes(width);
    WordBytes(height);
    FirstBytes();
    LastChunk();
    EncodePieces(width, height, rgb);
    FilePieces(BE32(width), BE32(height), BE32(CrcOf(IHDR + header)), BE32(|stream| % WORD32), stream,
               BE32(CrcOf(IDAT + stream)), Chunk(CrcOf, IEND, []));
  }

  lemma EncodePieces(width: nat, height: nat, rgb: bytes)
    requires Sized(width, height, rgb)
    ensures Encode(width, height, rgb)
         == SIGNATURE
            + (BE32(13) + IHDR + (BE32(width) + BE32(height) + [8, 2, 0, 0, 0])
               + BE32(CrcOf(IHDR + Header(width, height))))
            + (BE32(|Stream(width, height, rgb)| % WORD32) + IDAT + Stream(width, height, rgb)
               + BE32(CrcOf(IDAT + Stream(width, height, rgb))))
            + Chunk(CrcOf, IEND, [])
  {
  }

  lemma LastChunk()
    ensures Chunk(CrcOf, IEND, []) == [0, 0, 0, 0, 73, 69, 78, 68, 0xAE, 0x42, 0x60, 0x82]
  {
    ChunkOf(CrcOf, IEND, []);
    IendCrcOf();
    LastWords();
    LastPieces([0, 0, 0, 0], IEND, [0xAE, 0x42, 0x60, 0x82]);
  }

  lemma FirstBytes()
    ensures SIGNATURE + BE32(13) + IHDR == [137, 80, 78, 71, 13, 10, 26, 10, 0, 0, 0, 13, 73, 72, 68, 82]
  {
    assert BE32(13) == [0, 0, 0, 13];
  }

  lemma LastWords()
    ensures BE32(0) == [0, 0, 0, 0] && BE32(0xAE426082) == [0xAE, 0x42, 0x60, 0x82]
  {
  }

  lemma IendCrcOf()
    ensures CrcOf(IEND + []) == 0xAE426082
  {
    IendCrc();
    assert IEND + [] == IEND;
  }

  lemma LastPieces(n: bytes, name: bytes, crc: bytes)
    requires |n| == |name| == |crc| == 4
    ensures n + name + [] + crc
         == [n[0], n[1], n[2], n[3], name[0], name[1], name[2], name[3], crc[0], crc[1], crc[2], crc[3]]
  {
  }

  lemma FilePieces(w: bytes, h: bytes, crc: bytes, n: bytes, stream: bytes, crc2: bytes, last: bytes)
    requires |w| == |h| == |crc| == |n| == |crc2| == 4 && |last| == 12
    ensures var header := BE32(13) + IHDR + (w + h + [8, 2, 0, 0, 0]) + crc;
            var f := SIGNATURE + header + (n + IDAT + stream + crc2) + last;
            && |f| >= 57 && f[..16] == SIGNATURE + BE32(13) + IHDR && f[16..20] == w && f[20..24] == h
            && f[24..29] == [8, 2, 0, 0, 0] && f[37..41] == IDAT && f[|f| - 12..] == last
  {
  }

  // ------------------------------------------------------------------
  // Images that are not written
  // ------------------------------------------------------------------

  /** One row of 0x55555556 pixels: three times the width is 2 in 32 bits. */
  lemma WideRowWrong(rgb: bytes)
    requires |rgb| == 0x1_0000_0002
    ensures Sized(0x5555_5556, 1, rgb) && Decode(Encode(0x5555_5556, 1, rgb)) == None
  {
    FilteredLength(rgb, 0x1_0000_0002, 2, 1);
    WrapLength(Filtered(rgb, 0x1_0000_0002, 2, 1));
    ShortRoundTrip(0x5555_5556, 1, rgb);
  }

  /** From 2^29 rows of one pixel on: with the filter bytes 2^31 bytes, one more than a chunk can hold. */
  lemma LongStreamWrong(height: nat, rgb: bytes)
    requires 0x2000_0000 <= height < 0x3000_0000 && |rgb| == height * 3
    ensures Sized(1, height, rgb) && Decode(Encode(1, height, rgb)) == None
  {
    FilteredLength(rgb, 3, 3, height);
    WrapLength(Filtered(rgb, 3, 3, height));
    BlockBytesLeast(height * 4);
    ShortRoundTrip(1, height, rgb);
  }

  /** 0xAAAAAAAB by 2^31 pixels: a 2 GB buffer passes the size check, and the second row lies outside it. */
  lemma WrappedSizeWrong()
    ensures var width, height, length := 0xAAAA_AAAB, 0x8000_0000, 0x8000_0000;
            && length == height * (3 * width) % SIZE != height * (3 * width)
            && !RowInside(length, 3 * width, RowBytes(width), 1)
  {
  }
}
