/**
 `write_png` of `frontend/scripts/generate-pwa-icons.py` and a reader of the chunk layout
 (section 5.3 of the W3C PNG specification) with filter type 0 (section 9.2). zlib is
 an inverse pair and the CRC a function; both are parameters.
 */
module Png {
  import opened Options
  import opened Canvas

  const FIELD_LIMIT: int := 0x1_0000_0000

  datatype Zlib = Zlib(
    compress: seq<byte> -> seq<byte>, decompress: seq<byte> -> Option<seq<byte>>, crc: seq<byte> -> nat)

  ghost predicate Inverse(z: Zlib) {
    forall data :: z.decompress(z.compress(data)) == Some(data)
  }

  datatype Image = Image(width: nat, height: nat, pixels: seq<byte>)

  const SIGNATURE: seq<byte> := [0x89, 0x50, 0x4E, 0x47, 0x0D, 0x0A, 0x1A, 0x0A]
  const IHDR: seq<byte> := [0x49, 0x48, 0x44, 0x52]
  const IDAT: seq<byte> := [0x49, 0x44, 0x41, 0x54]
  const IEND: seq<byte> := [0x49, 0x45, 0x4E, 0x44]

  /** 8 bits a sample, RGBA, deflate, adaptive filtering, no interlace. */
  const FORMAT: seq<byte> := [8, 6, 0, 0, 0]

  // ---------------------------------------------------------------------------
  // Writing
  // ---------------------------------------------------------------------------

  /** A 4-byte big-endian field. */
  function Packed(n: nat): seq<byte>
    requires n < FIELD_LIMIT
  {
    var high, middle, low := n / 256 / 256 / 256, n / 256 / 256, n / 256;
    [high as byte, (middle % 256) as byte, (low % 256) as byte, (n % 256) as byte]
  }

  function Chunk(tag: seq<byte>, data: seq<byte>, z: Zlib): seq<byte>
    requires |data| < FIELD_LIMIT
  {
    Packed(|data|) + tag + data + Packed(z.crc(tag + data) % FIELD_LIMIT)
  }

  /** A slice that stops at the end of the data. */
  function Slice(data: seq<byte>, from: nat, to: nat): seq<byte>
    requires from <= to
  {
    if |data| <= from then [] else if |data| <= to then data[from..] else data[from..to]
  }

  /** The row of `stride` bytes starting at `from`, behind its zero filter byte. */
  function Row(pixels: seq<byte>, stride: nat, from: nat): seq<byte> {
    [0] + Slice(pixels, from, from + stride)
  }

  /** The filtered rows of the buffer, starting at `from`. */
  function Filtered(pixels: seq<byte>, stride: nat, from: nat, rows: nat): seq<byte>
    decreases rows
  {
    if rows == 0 then [] else Row(pixels, stride, from) + Filtered(pixels, stride, from + stride, rows - 1)
  }

  /** The file, or None when a length does not fit its 4-byte field. */
  function Encoded(image: Image, z: Zlib): Option<seq<byte>> {
    var idat := z.compress(Filtered(image.pixels, image.width * 4, 0, image.height));
    if image.width >= FIELD_LIMIT || image.height >= FIELD_LIMIT || |idat| >= FIELD_LIMIT then None
    else
      var ihdr := Packed(image.width) + Packed(image.height) + FORMAT;
      Some(SIGNATURE + (Chunk(IHDR, ihdr, z) + (Chunk(IDAT, idat, z) + Chunk(IEND, [], z))))
  }

  lemma {:induction false} OneRowLess(stride: nat, rows: nat)
    requires rows > 0
    ensures stride * rows == stride + stride * (rows - 1) >= stride
  {}

  lemma {:induction false} FilteredSnoc(pixels: seq<byte>, stride: nat, from: nat, rows: nat, end: nat)
    requires end == from + stride * rows
    ensures Filtered(pixels, stride, from, rows + 1) == Filtered(pixels, stride, from, rows) + Row(pixels, stride, end)
    decreases rows
  {
    if rows == 0 {
      assert Filtered(pixels, stride, from, 1) == Row(pixels, stride, from) + [];
      assert from == end;
    } else {
      OneRowLess(stride, rows);
      FilteredSnoc(pixels, stride, from + stride, rows - 1, end);
      var middle := Filtered(pixels, stride, from + stride, rows - 1);
      Reassociate(Row(pixels, stride, from), middle, Row(pixels, stride, end));
    }
  }

  lemma {:induction false} Reassociate(a: seq<byte>, b: seq<byte>, c: seq<byte>)
    ensures a + (b + c) == a + b + c
  {}

  /** `write_png`, with the bytes it would write as the result. */
  method WritePng(image: Image, z: Zlib) returns (file: Option<seq<byte>>)
    ensures file == Encoded(image, z)
  {
    var raw: seq<byte> := [];
    var stride := image.width * 4;
    for y := 0 to image.height
      invariant raw == Filtered(image.pixels, stride, 0, y)
    {
      FilteredSnoc(image.pixels, stride, 0, y, y * stride);
      raw := raw + Row(image.pixels, stride, y * stride);
    }
    var idat := z.compress(raw);
    if image.width >= FIELD_LIMIT || image.height >= FIELD_LIMIT || |idat| >= FIELD_LIMIT {
      return None;
    }
    var ihdr := Packed(image.width) + Packed(image.height) + FORMAT;
    return Some(SIGNATURE + (Chunk(IHDR, ihdr, z) + (Chunk(IDAT, idat, z) + Chunk(IEND, [], z))));
  }

  // ---------------------------------------------------------------------------
  // Reading
  // ---------------------------------------------------------------------------

  function Unpacked(b: seq<byte>): nat
    requires |b| == 4
  {
    b[0] as nat * 0x100_0000 + b[1] as nat * 0x1_0000 + b[2] as nat * 0x100 + b[3] as nat
  }

  datatype Parsed = Parsed(data: seq<byte>, rest: seq<byte>)

  /** One chunk of the given type, its CRC checked. */
  function ReadChunk(file: seq<byte>, tag: seq<byte>, z: Zlib): Option<Parsed>
    requires |tag| == 4
  {
    if |file| < 12 || file[4..8] != tag then None
    else
      var n := Unpacked(file[..4]);
      if |file| < n + 12 then None
      else
        var data := file[8..n + 8];
        if Unpacked(file[n + 8..n + 12]) != z.crc(tag + data) % FIELD_LIMIT then None
        else Some(Parsed(data, file[n + 12..]))
  }

  /** The rows without their filter bytes; any filter but None is refused. */
  function Unfiltered(raw: seq<byte>, stride: nat, rows: nat): Option<seq<byte>> {
    if rows == 0 then (if raw == [] then Some([]) else None)
    else if |raw| < 1 + stride || raw[0] != 0 then None
    else
      var rest := Unfiltered(raw[1 + stride..], stride, rows - 1);
      if rest.None? then None else Some(raw[1..1 + stride] + rest.value)
  }

  function ReadPng(file: seq<byte>, z: Zlib): Option<Image> {
    if |file| < 8 || file[..8] != SIGNATURE then None
    else
      var ihdr := ReadChunk(file[8..], IHDR, z);
      if ihdr.None? || |ihdr.value.data| != 13 || ihdr.value.data[8..] != FORMAT then None
      else
        var idat := ReadChunk(ihdr.value.rest, IDAT, z);
        if idat.None? then None
        else
          var iend := ReadChunk(idat.value.rest, IEND, z);
          if iend != Some(Parsed([], [])) then None
          else
            var raw := z.decompress(idat.value.data);
            if raw.None? then None
            else
              var width, height := Unpacked(ihdr.value.data[..4]), Unpacked(ihdr.value.data[4..8]);
              var pixels := Unfiltered(raw.value, width * 4, height);
              if pixels.None? then None else Some(Image(width, height, pixels.value))
  }

  // ---------------------------------------------------------------------------
  // Round trip
  // ---------------------------------------------------------------------------

  lemma {:induction false} UnpackedPacked(n: nat)
    requires n < FIELD_LIMIT
    ensures Unpacked(Packed(n)) == n
  {}

  lemma {:induction false} ReadChunkBack(tag: seq<byte>, data: seq<byte>, rest: seq<byte>, z: Zlib)
    requires |tag| == 4 && |data| < FIELD_LIMIT
    ensures ReadChunk(Chunk(tag, data, z) + rest, tag, z) == Some(Parsed(data, rest))
  {
    var file := Chunk(tag, data, z) + rest;
    var n, crc := |data|, z.crc(tag + data) % FIELD_LIMIT;
    UnpackedPacked(n);
    UnpackedPacked(crc);
    assert file[..4] == Packed(n) && file[4..8] == tag && file[8..n + 8] == data;
    assert file[n + 8..n + 12] == Packed(crc) && file[n + 12..] == rest;
  }

  lemma {:induction false} UnfilteredRow(row: seq<byte>, rest: seq<byte>, stride: nat, rows: nat)
    requires |row| == stride
    ensures var more := Unfiltered(rest, stride, rows);
            Unfiltered([0] + row + rest, stride, rows + 1) == if more.None? then None else Some(row + more.value)
  {
    var raw := [0] + row + rest;
    assert raw[1..1 + stride] == row && raw[1 + stride..] == rest;
  }

  lemma {:induction false} SliceInside(data: seq<byte>, from: nat, n: nat)
    requires from + n <= |data|
    ensures |Slice(data, from, from + n)| == n
    ensures Slice(data, from, from + n) + data[from + n..] == data[from..]
  {}

  lemma {:induction false} UnfilteredBack(pixels: seq<byte>, stride: nat, from: nat, rows: nat)
    requires |pixels| == from + stride * rows
    ensures from <= |pixels| && Unfiltered(Filtered(pixels, stride, from, rows), stride, rows) == Some(pixels[from..])
    decreases rows
  {
    if rows == 0 {
      assert pixels[from..] == [];
    } else {
      OneRowLess(stride, rows);
      UnfilteredBack(pixels, stride, from + stride, rows - 1);
      SliceInside(pixels, from, stride);
      var rest := Filtered(pixels, stride, from + stride, rows - 1);
      UnfilteredRow(Slice(pixels, from, from + stride), rest, stride, rows - 1);
    }
  }

  lemma {:induction false} UnfilteredLength(raw: seq<byte>, stride: nat, rows: nat)
    ensures Unfiltered(raw, stride, rows).Some? ==> |Unfiltered(raw, stride, rows).value| == stride * rows
    decreases rows
  {
    if rows == 0 || |raw| < 1 + stride {
    } else {
      UnfilteredLength(raw[1 + stride..], stride, rows - 1);
      OneRowLess(stride, rows);
    }
  }

  lemma {:induction false} HeaderBack(width: nat, height: nat)
    requires width < FIELD_LIMIT && height < FIELD_LIMIT
    ensures var ihdr := Packed(width) + Packed(height) + FORMAT;
            |ihdr| == 13 && ihdr[8..] == FORMAT && Unpacked(ihdr[..4]) == width && Unpacked(ihdr[4..8]) == height
  {
    var ihdr := Packed(width) + Packed(height) + FORMAT;
    UnpackedPacked(width);
    UnpackedPacked(height);
    assert ihdr[..4] == Packed(width) && ihdr[4..8] == Packed(height) && ihdr[8..] == FORMAT;
  }

  /** What the reader makes of a written file: the dimensions, and the rows unfiltered. */
  lemma {:induction false} ReadBack(image: Image, z: Zlib)
    requires Inverse(z) && Encoded(image, z).Some?
    ensures var stride := image.width * 4;
            var pixels := Unfiltered(Filtered(image.pixels, stride, 0, image.height), stride, image.height);
            ReadPng(Encoded(image, z).value, z) ==
              if pixels.None? then None else Some(Image(image.width, image.height, pixels.value))
  {
    var idat := z.compress(Filtered(image.pixels, image.width * 4, 0, image.height));
    var ihdr := Packed(image.width) + Packed(image.height) + FORMAT;
    HeaderBack(image.width, image.height);
    var last := Chunk(IEND, [], z);
    var tail := Chunk(IDAT, idat, z) + last;
    Behind(SIGNATURE, Chunk(IHDR, ihdr, z) + tail);
    ReadChunkBack(IHDR, ihdr, tail, z);
    ReadChunkBack(IDAT, idat, last, z);
    ReadChunkBack(IEND, [], [], z);
    assert last + [] == last;
  }

  lemma {:induction false} Behind(a: seq<byte>, b: seq<byte>)
    ensures (a + b)[..|a|] == a && (a + b)[|a|..] == b
  {}

  /** A written file reads back as its image exactly when the buffer holds width x height pixels. */
  lemma {:induction false} PngRoundTrip(image: Image, z: Zlib)
    requires Inverse(z) && Encoded(image, z).Some?
    ensures ReadPng(Encoded(image, z).value, z) == Some(image) <==> |image.pixels| == image.width * 4 * image.height
  {
    ReadBack(image, z);
    UnfilteredLength(Filtered(image.pixels, image.width * 4, 0, image.height), image.width * 4, image.height);
    if |image.pixels| == image.width * 4 * image.height {
      UnfilteredBack(image.pixels, image.width * 4, 0, image.height);
      assert image.pixels[0..] == image.pixels;
    }
  }

  lemma {:induction false} SameSize(width: nat, height: nat)
    ensures width * 4 * height == width * height * 4
  {
    assert width * 4 * height == 4 * (width * height);
  }

  /** Every canvas buffer has that size, so the file of a canvas shows its pixels. */
  lemma {:induction false} CanvasIsReadBack(view: seq<byte>, width: nat, height: nat, z: Zlib)
    requires |view| == width * height * 4
    requires Inverse(z) && Encoded(Image(width, height, view), z).Some?
    ensures ReadPng(Encoded(Image(width, height, view), z).value, z) == Some(Image(width, height, view))
  {
    SameSize(width, height);
    PngRoundTrip(Image(width, height, view), z);
  }
}
