/** The mock PNG writer and the header reader of image_provider.py, in the format of the PNG
    Specification (Second Edition), sections 5.3 and 11.2.2. */
module Png {
  import opened Text

  const LIMIT := 0x1_0000_0000

  /** zlib: a running CRC over two pieces, and a compressor. */
  datatype Zlib = Zlib(crc32: (Bytes, Bytes) -> nat, compress: Bytes -> Bytes)

  const SIGNATURE: Bytes := [137, 80, 78, 71, 13, 10, 26, 10]
  const IHDR: Bytes := [73, 72, 68, 82]
  const IDAT: Bytes := [73, 68, 65, 84]
  const IEND: Bytes := [73, 69, 78, 68]

  /** struct.pack(">I", n) for a number that fits. */
  function Pack32(n: nat): (b: Bytes)
    requires n < LIMIT
    ensures |b| == 4
  {
    [n / 0x100_0000, n / 0x1_0000 % 0x100, n / 0x100 % 0x100, n % 0x100]
  }

  /** struct.unpack(">I", b). */
  function Unpack32(b: Bytes): (n: nat)
    requires |b| == 4
    ensures n < LIMIT
  {
    var b0: int, b1: int, b2: int, b3: int := b[0], b[1], b[2], b[3];
    0x100_0000 * b0 + 0x1_0000 * b1 + 0x100 * b2 + b3
  }

  lemma {:induction false} UnpackPack(n: nat)
    requires n < LIMIT
    ensures Unpack32(Pack32(n)) == n
  {
    var a, b := n / 0x100, n / 0x1_0000;
    assert n == a * 0x100 + n % 0x100;
    assert a / 0x100 == b && a == b * 0x100 + a % 0x100;
    assert b / 0x100 == n / 0x100_0000 && b == b / 0x100 * 0x100 + b % 0x100;
  }

  lemma {:induction false} PushByte(q: nat, r: nat)
    requires r < 0x100
    ensures (q * 0x100 + r) / 0x100 == q && (q * 0x100 + r) % 0x100 == r
  {
  }

  lemma {:induction false} PackUnpack(b: Bytes)
    requires |b| == 4
    ensures Pack32(Unpack32(b)) == b
  {
    var b0: int, b1: int, b2: int, b3: int := b[0], b[1], b[2], b[3];
    var q1 := b0 * 0x100 + b1;
    var q2 := q1 * 0x100 + b2;
    var n := q2 * 0x100 + b3;
    PushByte(b0, b1);
    PushByte(q1, b2);
    PushByte(q2, b3);
    assert n == Unpack32(b);
    assert n / 0x1_0000 == n / 0x100 / 0x100 && n / 0x100_0000 == n / 0x1_0000 / 0x100;
  }

  /** _png_chunk; None is the struct.error of a payload too long to frame. */
  function PngChunk(zlib: Zlib, kind: Bytes, payload: Bytes): Option<Bytes> {
    if |payload| >= LIMIT then None
    else Some(Pack32(|payload|) + kind + payload + Pack32(zlib.crc32(kind, payload) % LIMIT))
  }

  function Repeat(b: Bytes, n: nat): Bytes {
    if n == 0 then [] else b + Repeat(b, n - 1)
  }

  /** The raw scanlines: each starts with filter type 0. */
  function Pixels(width: nat, height: nat, color: Bytes): Bytes {
    Repeat([0] + Repeat(color, width), height)
  }

  function Header(width: nat, height: nat): Bytes
    requires width < LIMIT && height < LIMIT
  {
    Pack32(width) + Pack32(height) + [8, 2, 0, 0, 0]
  }

  /** _solid_png; None is the ValueError or the struct.error. */
  function SolidPng(zlib: Zlib, width: int, height: int, color: Bytes): Option<Bytes> {
    if width <= 0 || height <= 0 || |color| != 3 || width >= LIMIT || height >= LIMIT then None
    else
      match (PngChunk(zlib, IHDR, Header(width, height)),
             PngChunk(zlib, IDAT, zlib.compress(Pixels(width, height, color))),
             PngChunk(zlib, IEND, []))
      case (Some(header), Some(data), Some(end)) => Some(SIGNATURE + header + data + end)
      case _ => None
  }

  /** _png_dimensions. */
  function PngDimensions(data: Bytes): Option<(nat, nat)> {
    if |data| < 24 || data[..8] != SIGNATURE || data[12..16] != IHDR then None
    else Some((Unpack32(data[16..20]), Unpack32(data[20..24])))
  }

  /** The writer succeeds exactly on positive sizes that fit four bytes, a three-byte colour, and
      compressed data that fits one chunk; the reader then returns the size. */
  lemma {:induction false} DimensionsRoundTrip(zlib: Zlib, width: int, height: int, color: Bytes)
    ensures var png := SolidPng(zlib, width, height, color);
            && (png.Some? <==>
                  && 1 <= width < LIMIT && 1 <= height < LIMIT && |color| == 3
                  && |zlib.compress(Pixels(width, height, color))| < LIMIT)
            && (png.Some? ==> PngDimensions(png.value) == Some((width, height)))
  {
    var png := SolidPng(zlib, width, height, color);
    if png.Some? {
      var header := PngChunk(zlib, IHDR, Header(width, height)).value;
      var file := png.value;
      assert header[4..8] == IHDR && header[8..12] == Pack32(width) && header[12..16] == Pack32(height);
      assert file[..8] == SIGNATURE;
      assert file[12..16] == header[4..8];
      assert file[16..20] == header[8..12];
      assert file[20..24] == header[12..16];
      UnpackPack(width);
      UnpackPack(height);
    }
  }

  // ----- Chunks -----

  datatype Chunk = Chunk(kind: Bytes, payload: Bytes, crc: nat)

  /** A reader of length-framed chunks that must use the data up; None when it does not. */
  function ReadChunks(data: Bytes): Option<seq<Chunk>> {
    if data == [] then Some([])
    else if |data| < 12 then None
    else
      var n := Unpack32(data[..4]);
      if |data| < 12 + n then None
      else
        match ReadChunks(data[12 + n..])
        case None => None
        case Some(rest) => Some([Chunk(data[4..8], data[8..8 + n], Unpack32(data[8 + n..12 + n]))] + rest)
  }

  lemma {:induction false} ReadOneChunk(zlib: Zlib, kind: Bytes, payload: Bytes, rest: Bytes)
    requires |kind| == 4 && PngChunk(zlib, kind, payload).Some?
    ensures var chunks := ReadChunks(PngChunk(zlib, kind, payload).value + rest);
            match ReadChunks(rest)
            case None => chunks == None
            case Some(more) => chunks == Some([Chunk(kind, payload, zlib.crc32(kind, payload) % LIMIT)] + more)
  {
    var crc := Pack32(zlib.crc32(kind, payload) % LIMIT);
    var n := |payload|;
    var data := Pack32(n) + kind + payload + crc + rest;
    assert data == PngChunk(zlib, kind, payload).value + rest;
    assert data[..4] == Pack32(n) && data[4..8] == kind && data[8..8 + n] == payload;
    assert data[8 + n..12 + n] == crc && data[12 + n..] == rest;
    UnpackPack(n);
    UnpackPack(zlib.crc32(kind, payload) % LIMIT);
  }

  /** A written file is the signature and exactly the three chunks of a minimal PNG, in order, with
      their checksums, and they account for every byte. */
  lemma {:induction false} SolidPngIsThreeChunks(zlib: Zlib, width: int, height: int, color: Bytes)
    requires SolidPng(zlib, width, height, color).Some?
    ensures var file, data := SolidPng(zlib, width, height, color).value, zlib.compress(Pixels(width, height, color));
            && file[..8] == SIGNATURE
            && ReadChunks(file[8..]) == Some([
                 Chunk(IHDR, Header(width, height), zlib.crc32(IHDR, Header(width, height)) % LIMIT),
                 Chunk(IDAT, data, zlib.crc32(IDAT, data) % LIMIT),
                 Chunk(IEND, [], zlib.crc32(IEND, []) % LIMIT)])
  {
    var file, data := SolidPng(zlib, width, height, color).value, zlib.compress(Pixels(width, height, color));
    var header, body, end := PngChunk(zlib, IHDR, Header(width, height)).value, PngChunk(zlib, IDAT, data).value,
      PngChunk(zlib, IEND, []).value;
    AfterSignature(SIGNATURE, header, body, end);
    ReadThreeChunks(zlib, IHDR, Header(width, height), IDAT, data, IEND, []);
  }

  lemma {:induction false} ReadThreeChunks(zlib: Zlib, k1: Bytes, p1: Bytes, k2: Bytes, p2: Bytes, k3: Bytes, p3: Bytes)
    requires |k1| == |k2| == |k3| == 4
    requires PngChunk(zlib, k1, p1).Some? && PngChunk(zlib, k2, p2).Some? && PngChunk(zlib, k3, p3).Some?
    ensures ReadChunks(PngChunk(zlib, k1, p1).value + (PngChunk(zlib, k2, p2).value + PngChunk(zlib, k3, p3).value)) ==
            Some([Chunk(k1, p1, zlib.crc32(k1, p1) % LIMIT),
                  Chunk(k2, p2, zlib.crc32(k2, p2) % LIMIT),
                  Chunk(k3, p3, zlib.crc32(k3, p3) % LIMIT)])
  {
    hide PngChunk;
    var b, c := PngChunk(zlib, k2, p2).value, PngChunk(zlib, k3, p3).value;
    ReadNothing();
    hide ReadChunks;
    var c1, c2 := Chunk(k1, p1, zlib.crc32(k1, p1) % LIMIT), Chunk(k2, p2, zlib.crc32(k2, p2) % LIMIT);
    var c3 := Chunk(k3, p3, zlib.crc32(k3, p3) % LIMIT);
    ReadOneChunk(zlib, k3, p3, []);
    assert c + [] == c && [c3] + [] == [c3];
    ReadOneChunk(zlib, k2, p2, c);
    assert [c2] + [c3] == [c2, c3];
    ReadOneChunk(zlib, k1, p1, b + c);
    assert [c1] + [c2, c3] == [c1, c2, c3];
  }

  lemma {:induction false} ReadNothing()
    ensures ReadChunks([]) == Some([])
  {
  }

  lemma {:induction false} AfterSignature(signature: Bytes, a: Bytes, b: Bytes, c: Bytes)
    requires |signature| == 8
    ensures (signature + a + b + c)[..8] == signature
    ensures (signature + a + b + c)[8..] == a + (b + c)
  {
  }

  lemma {:induction false} RepeatAt(b: Bytes, n: nat, k: nat, i: nat)
    requires k < n && i < |b|
    ensures |Repeat(b, n)| == n * |b|
    ensures k * |b| + i < n * |b| && Repeat(b, n)[k * |b| + i] == b[i]
  {
    RepeatLength(b, n);
    RepeatLength(b, n - 1);
    if k > 0 {
      RepeatAt(b, n - 1, k - 1, i);
      assert k * |b| == |b| + (k - 1) * |b|;
    } else {
      assert n * |b| == |b| + (n - 1) * |b|;
    }
  }

  lemma {:induction false} RepeatLength(b: Bytes, n: nat)
    ensures |Repeat(b, n)| == n * |b|
  {
    if n > 0 {
      RepeatLength(b, n - 1);
    }
  }

  /** Every scanline carries filter type 0 and then the colour at every pixel, and there is nothing
      else. */
  lemma {:induction false} PixelsAreSolid(width: nat, height: nat, color: Bytes, x: nat, y: nat, c: nat)
    requires |color| == 3 && x < width && y < height && c < 3
    ensures var stride := 1 + width * 3;
            && |Pixels(width, height, color)| == height * stride
            && y * stride + 1 + x * 3 + c < height * stride
            && Pixels(width, height, color)[y * stride] == 0
            && Pixels(width, height, color)[y * stride + 1 + x * 3 + c] == color[c]
  {
    var row := [0] + Repeat(color, width);
    RepeatAt(color, width, x, c);
    RepeatAt(row, height, y, 0);
    RepeatAt(row, height, y, 1 + x * 3 + c);
  }

  /** How many samples a pixel of this colour type has (section 11.2.2 of the PNG specification). */
  function SamplesOf(colorType: int): nat {
    match colorType
    case 0 => 1
    case 2 => 3
    case 3 => 1
    case 4 => 2
    case 6 => 4
    case _ => 0
  }

  /** The header tells a reader what follows: as many scanlines as it says, each of one filter byte and of pixels of
      the depth and colour type it names; and the compression, filter and interlace methods are the plain ones. */
  lemma {:induction false} HeaderDescribesPixels(width: nat, height: nat, color: Bytes)
    requires 1 <= width < LIMIT && 1 <= height < LIMIT && |color| == 3
    ensures var h := Header(width, height);
            && |h| == 13 && Unpack32(h[..4]) == width && Unpack32(h[4..8]) == height
            && h[8] == 8
            && |Pixels(width, height, color)| == height * (1 + width * SamplesOf(h[9]))
            && h[10..] == [0, 0, 0]
  {
    hide Pack32, Unpack32, Repeat;
    var h, row := Header(width, height), [0] + Repeat(color, width);
    assert h[..4] == Pack32(width) && h[4..8] == Pack32(height) && h[10..] == [0, 0, 0];
    UnpackPack(width);
    UnpackPack(height);
    RepeatLength(color, width);
    RepeatLength(row, height);
    assert |row| == 1 + width * SamplesOf(h[9]);
  }
}
