/** The dependency-free PNG writer behind screenshots, with an independent decoder
    (PNG chunks, zlib stream, stored deflate blocks, unfiltered rows) that inverts it. */
module Png {
  import opened Bytes
  import opened Checksum
  import opened Division
  import opened Wrappers

  datatype Pixel = Pixel(r: Byte, g: Byte, b: Byte, a: Byte)

  datatype Image = Image(width: nat, height: nat, pixels: seq<Pixel>)

  // What the image type of the source guarantees, for images with content.
  predicate WellFormed(img: Image) {
    img.width > 0 && img.height > 0 && |img.pixels| == img.width * img.height
  }

  // ---------- Splitting and joining ----------

  // Consecutive pieces of the given size; the last one may be shorter.
  function Chunks<T>(s: seq<T>, size: nat): (r: seq<seq<T>>)
    requires size > 0
    ensures Flatten(r) == s
    ensures forall i | 0 <= i < |r| :: 0 < |r[i]| <= size
    decreases |s|
  {
    if |s| == 0 then []
    else if |s| <= size then
      FlattenOne(s);
      [s]
    else
      var rest := Chunks(s[size..], size);
      FlattenCons(s[..size], rest);
      [s[..size]] + rest
  }

  // As few pieces as the size allows, all but the last one full.
  lemma {:induction false} ChunkCount<T>(s: seq<T>, size: nat)
    requires size > 0
    ensures |Chunks(s, size)| == CeilDiv(|s|, size)
    ensures forall i | 0 <= i < |Chunks(s, size)| - 1 :: |Chunks(s, size)[i]| == size
    decreases |s|
  {
    CeilDivStep(|s|, size);
    if |s| <= size {
    } else {
      ChunkCount(s[size..], size);
      hide CeilDiv;
      var rest := Chunks(s[size..], size);
      assert Chunks(s, size) == [s[..size]] + rest;
      assert rest != [] by {
        FlattenEmpty(rest);
      }
    }
  }

  lemma FlattenEmpty<T>(parts: seq<seq<T>>)
    ensures parts == [] ==> Flatten(parts) == []
  {}

  function Flatten<T>(parts: seq<seq<T>>): seq<T> {
    if parts == [] then [] else parts[0] + Flatten(parts[1..])
  }

  function CeilDiv(n: nat, d: nat): nat
    requires d > 0
  {
    (n + d - 1) / d
  }

  lemma CeilDivStep(n: nat, d: nat)
    requires d > 0
    ensures 0 < n <= d ==> CeilDiv(n, d) == 1
    ensures n > d ==> CeilDiv(n, d) == 1 + CeilDiv(n - d, d)
    ensures n == 0 ==> CeilDiv(n, d) == 0
  {
    if 0 < n <= d {
      assert n + d - 1 == 1 * d + (n - 1);
      DivUnique(n + d - 1, d, 1, n - 1);
    } else if n > d {
      var m := n - d + d - 1;
      DivUnique(m + d, d, 1 + m / d, m % d);
    } else {
      DivUnique(d - 1, d, 0, d - 1);
    }
  }

  lemma DivUnique(n: nat, d: nat, q: nat, r: nat)
    requires d > 0 && r < d && n == q * d + r
    ensures n / d == q
  {
    assert n == (n / d) * d + n % d;
    SmallMultiple(n / d - q, d, r - n % d);
  }

  lemma SmallMultiple(k: int, d: int, y: int)
    requires k * d == y && -d < y < d
    ensures k == 0
  {}

  lemma FlattenOne<T>(s: seq<T>)
    ensures Flatten([s]) == s
  {
    assert [s][1..] == [];
  }

  lemma FlattenCons<T>(s: seq<T>, rest: seq<seq<T>>)
    ensures Flatten([s] + rest) == s + Flatten(rest)
  {
    assert ([s] + rest)[1..] == rest;
  }

  // ---------- Fixed-width numbers ----------

  function BigEndian(n: U32): (s: seq<Byte>)
    ensures |s| == 4
  {
    [n / 0x100_0000, n / 0x1_0000 % 256, n / 256 % 256, n % 256]
  }

  function FromBigEndian(s: seq<Byte>): U32
    requires |s| == 4
  {
    (s[0] as int) * 0x100_0000 + (s[1] as int) * 0x1_0000 + (s[2] as int) * 256 + (s[3] as int)
  }

  lemma BigEndianRoundTrip(n: U32)
    ensures FromBigEndian(BigEndian(n)) == n
  {
    var top, upper := n / 0x100_0000, n / 0x1_0000;
    assert upper / 256 == top;
    assert n / 256 / 256 == upper;
  }

  // The source's `as u32` drops everything above 32 bits.
  function AsU32(n: nat): U32 {
    n % 0x1_0000_0000
  }

  // ---------- zlib stream of stored blocks ----------

  const MAX_BLOCK: nat := 65535

  function StoredBlock(block: seq<Byte>, isFinal: bool): seq<Byte>
    requires |block| <= MAX_BLOCK
  {
    var len := |block|;
    var complement := 0xFFFF - len;
    [if isFinal then 1 else 0, len % 256, len / 256, complement % 256, complement / 256] + block
  }

  function StoredBlocks(blocks: seq<seq<Byte>>, index: nat, blockCount: nat): seq<Byte>
    requires forall i | 0 <= i < |blocks| :: |blocks[i]| <= MAX_BLOCK
  {
    if blocks == [] then []
    else StoredBlock(blocks[0], index + 1 == blockCount) + StoredBlocks(blocks[1..], index + 1, blockCount)
  }

  function Min(a: nat, b: nat): nat {
    if a < b then a else b
  }

  function Max(a: nat, b: nat): nat {
    if a < b then b else a
  }

  function ZlibStored(raw: seq<Byte>): seq<Byte> {
    var blockCount := Max(CeilDiv(|raw|, MAX_BLOCK), 1);
    var blocks := Chunks(raw, Max(Min(MAX_BLOCK, |raw|), 1));
    [0x78, 0x01] + StoredBlocks(blocks, 0, blockCount) + BigEndian(Adler32(raw))
  }

  // One decoded block: its final mark and its bytes.
  datatype Block = Block(isFinal: bool, bytes: seq<Byte>)

  function LittleEndian(low: Byte, high: Byte): nat {
    (low as int) + 256 * (high as int)
  }

  // Reads stored blocks up to and including the first final one (section 3.2.4 of RFC 1951).
  // The result is the blocks and the bytes that follow them.
  function ReadBlocks(s: seq<Byte>): (r: Option<(seq<Block>, seq<Byte>)>)
    decreases |s|
  {
    if |s| < 5 || s[0] / 2 % 4 != 0 then None
    else
      var len: nat := LittleEndian(s[1], s[2]);
      var complement := LittleEndian(s[3], s[4]);
      if len + complement != 0xFFFF || |s| < 5 + len then None
      else
        var block := Block(s[0] % 2 == 1, s[5..5 + len]);
        var rest := s[5 + len..];
        if block.isFinal then Some(([block], rest))
        else
          match ReadBlocks(rest)
          case None => None
          case Some((blocks, tail)) => Some(([block] + blocks, tail))
  }

  function BlockBytes(blocks: seq<Block>): seq<Byte> {
    if blocks == [] then [] else blocks[0].bytes + BlockBytes(blocks[1..])
  }

  // A zlib stream of stored blocks (section 2.2 of RFC 1950), consumed completely.
  function Inflate(s: seq<Byte>): Option<seq<Byte>> {
    if |s| < 2 || s[0] % 16 != 8 || s[0] / 16 > 7 || LittleEndian(s[1], s[0]) % 31 != 0 || s[1] / 32 % 2 != 0 then None
    else
      match ReadBlocks(s[2..])
      case None => None
      case Some((blocks, tail)) =>
        var raw := BlockBytes(blocks);
        if |tail| == 4 && FromBigEndian(tail) == AdlerOf(raw) then Some(raw) else None
  }

  // The blocks a decoder should find: the chunks in order, only the last one final.
  function Marked(blocks: seq<seq<Byte>>, index: nat, blockCount: nat): (r: seq<Block>)
    ensures |r| == |blocks|
    ensures forall i | 0 <= i < |r| :: r[i] == Block(index + i + 1 == blockCount, blocks[i])
  {
    if blocks == [] then []
    else [Block(index + 1 == blockCount, blocks[0])] + Marked(blocks[1..], index + 1, blockCount)
  }

  lemma {:induction false} MarkedBytes(blocks: seq<seq<Byte>>, index: nat, blockCount: nat)
    ensures BlockBytes(Marked(blocks, index, blockCount)) == Flatten(blocks)
  {
    if blocks == [] {
    } else {
      MarkedBytes(blocks[1..], index + 1, blockCount);
      var m := Marked(blocks, index, blockCount);
      assert m[1..] == Marked(blocks[1..], index + 1, blockCount);
    }
  }

  lemma ReadOneBlock(block: seq<Byte>, isFinal: bool, rest: seq<Byte>)
    requires |block| <= MAX_BLOCK
    ensures var s := StoredBlock(block, isFinal) + rest;
            && |s| >= 5 + |block| && s[0] / 2 % 4 == 0
            && LittleEndian(s[1], s[2]) == |block|
            && LittleEndian(s[3], s[4]) == 0xFFFF - |block|
            && (s[0] % 2 == 1 <==> isFinal)
            && s[5..5 + |block|] == block && s[5 + |block|..] == rest
  {}

  lemma {:induction false} ReadStoredBlocks(blocks: seq<seq<Byte>>, index: nat, blockCount: nat, tail: seq<Byte>)
    requires forall i | 0 <= i < |blocks| :: |blocks[i]| <= MAX_BLOCK
    requires |blocks| > 0 && index + |blocks| == blockCount
    ensures ReadBlocks(StoredBlocks(blocks, index, blockCount) + tail)
         == Some((Marked(blocks, index, blockCount), tail))
    decreases |blocks|
  {
    var isFinal := index + 1 == blockCount;
    var more := StoredBlocks(blocks[1..], index + 1, blockCount);
    assert StoredBlocks(blocks, index, blockCount) + tail == StoredBlock(blocks[0], isFinal) + (more + tail);
    ReadOneBlock(blocks[0], isFinal, more + tail);
    if isFinal {
      assert more + tail == tail;
      assert Marked(blocks, index, blockCount) == [Block(true, blocks[0])];
    } else {
      ReadStoredBlocks(blocks[1..], index + 1, blockCount, tail);
    }
  }

  lemma {:induction false} StoredBlocksSize(blocks: seq<seq<Byte>>, index: nat, blockCount: nat)
    requires forall i | 0 <= i < |blocks| :: |blocks[i]| <= MAX_BLOCK
    ensures |StoredBlocks(blocks, index, blockCount)| == |Flatten(blocks)| + 5 * |blocks|
  {
    if blocks == [] {
    } else {
      StoredBlocksSize(blocks[1..], index + 1, blockCount);
    }
  }

  // For nonempty data the writer's two block counts agree.
  lemma BlockCounts(raw: seq<Byte>)
    requires raw != []
    ensures var blocks := Chunks(raw, Max(Min(MAX_BLOCK, |raw|), 1));
            && |blocks| == CeilDiv(|raw|, MAX_BLOCK) >= 1
            && forall i | 0 <= i < |blocks| :: |blocks[i]| <= MAX_BLOCK
  {
    ChunkCount(raw, Max(Min(MAX_BLOCK, |raw|), 1));
    CeilDivStep(|raw|, MAX_BLOCK);
    CeilDivStep(|raw|, Max(Min(MAX_BLOCK, |raw|), 1));
  }

  // The blocks, the marks and the size of the stream of nonempty data.
  lemma ZlibBlocks(raw: seq<Byte>)
    requires raw != []
    ensures var n := CeilDiv(|raw|, 65535);
            && |ZlibStored(raw)| == |raw| + 5 * n + 6
            && ReadBlocks(ZlibStored(raw)[2..]).Some?
            && var (blocks, tail) := ReadBlocks(ZlibStored(raw)[2..]).value;
               && |blocks| == n && BlockBytes(blocks) == raw
               && (forall i | 0 <= i < n :: blocks[i].isFinal <==> i == n - 1)
               && tail == BigEndian(Adler32(raw))
  {
    hide ZlibStored, StoredBlocks, ReadBlocks, Chunks, Flatten, CeilDiv, Adler32, BigEndian, BlockBytes;
    var blocks := Chunks(raw, Max(Min(MAX_BLOCK, |raw|), 1));
    BlockCounts(raw);
    var n := |blocks|;
    var tail := BigEndian(Adler32(raw));
    ZlibShape(raw);
    StoredBlocksSize(blocks, 0, n);
    ReadStoredBlocks(blocks, 0, n, tail);
    MarkedBytes(blocks, 0, n);
    assert ZlibStored(raw)[2..] == StoredBlocks(blocks, 0, n) + tail;
  }

  lemma ZlibShape(raw: seq<Byte>)
    requires raw != []
    ensures var blocks := Chunks(raw, Max(Min(MAX_BLOCK, |raw|), 1));
            && (forall i | 0 <= i < |blocks| :: |blocks[i]| <= MAX_BLOCK)
            && ZlibStored(raw) == [0x78, 0x01] + StoredBlocks(blocks, 0, |blocks|) + BigEndian(Adler32(raw))
  {
    hide StoredBlocks, Chunks, Flatten, CeilDiv, Adler32, BigEndian;
    BlockCounts(raw);
  }

  // The writer's two header bytes are accepted.
  lemma InflateAfterHeader(body: seq<Byte>)
    ensures Inflate([0x78, 0x01] + body) ==
      match ReadBlocks(body)
      case None => None
      case Some((blocks, tail)) =>
        if |tail| == 4 && FromBigEndian(tail) == AdlerOf(BlockBytes(blocks)) then Some(BlockBytes(blocks)) else None
  {
    hide ReadBlocks, BlockBytes, AdlerOf, FromBigEndian;
    var s := [0x78, 0x01] + body;
    assert s[2..] == body;
    assert LittleEndian(s[1], s[0]) == 31 * 991;
  }

  // The inflater undoes the writer exactly for nonempty data: empty data gets no block at all.
  lemma ZlibRoundTrip(raw: seq<Byte>)
    ensures Inflate(ZlibStored(raw)) == Some(raw) <==> raw != []
    ensures raw == [] ==> Inflate(ZlibStored(raw)) == None
  {
    var body := ZlibStored(raw)[2..];
    assert ZlibStored(raw) == [0x78, 0x01] + body;
    InflateAfterHeader(body);
    AdlerClosedForm(raw);
    BigEndianRoundTrip(Adler32(raw));
    if raw == [] {
      assert body == BigEndian(Adler32(raw));
    } else {
      hide ZlibStored, ReadBlocks, Adler32, AdlerOf, BigEndian, FromBigEndian, Inflate;
      ZlibBlocks(raw);
    }
  }

  // ---------- PNG chunks ----------

  function Chunk(kind: seq<Byte>, data: seq<Byte>): seq<Byte> {
    BigEndian(AsU32(|data|)) + (kind + data) + BigEndian(Crc32(kind + data))
  }

  datatype ReadChunkResult = ReadChunkResult(kind: seq<Byte>, data: seq<Byte>, rest: seq<Byte>)

  // Length, type, data and checksum of one chunk (section 3.2 of RFC 2083).
  function ReadChunk(s: seq<Byte>): (r: Option<ReadChunkResult>)
    ensures r.Some? ==> |s| == 12 + |r.value.data| + |r.value.rest|
    ensures r.Some? ==> |r.value.data| == FromBigEndian(s[..4])
  {
    if |s| < 12 then None
    else
      var len := FromBigEndian(s[..4]);
      if |s| < 12 + len then None
      else
        var body := s[4..8 + len];
        if FromBigEndian(s[8 + len..12 + len]) != CrcOf(body) then None
        else Some(ReadChunkResult(body[..4], body[4..], s[12 + len..]))
  }

  lemma ReadChunkFields(len: U32, body: seq<Byte>, crc: seq<Byte>, rest: seq<Byte>)
    requires |body| == 4 + len && |crc| == 4
    ensures ReadChunk(BigEndian(len) + body + crc + rest) ==
            if FromBigEndian(crc) == CrcOf(body) then Some(ReadChunkResult(body[..4], body[4..], rest)) else None
  {
    var s := BigEndian(len) + body + crc + rest;
    BigEndianRoundTrip(len);
    hide CrcOf;
    assert s[..4] == BigEndian(len);
    assert s[4..8 + len] == body;
    assert s[8 + len..12 + len] == crc;
    assert s[12 + len..] == rest;
  }

  lemma ReadChunkRoundTrip(kind: seq<Byte>, data: seq<Byte>, rest: seq<Byte>)
    requires |kind| == 4 && |data| < 0x1_0000_0000
    ensures ReadChunk(Chunk(kind, data) + rest) == Some(ReadChunkResult(kind, data, rest))
  {
    hide BigEndian, FromBigEndian, Crc32, CrcOf, ReadChunk;
    ReadChunkFields(|data|, kind + data, BigEndian(Crc32(kind + data)), rest);
    BigEndianRoundTrip(Crc32(kind + data));
    CrcByDivision(kind + data);
    assert (kind + data)[..4] == kind && (kind + data)[4..] == data;
  }

  // Damage to at most four consecutive bytes of a chunk's type or data is always noticed.
  lemma DamagedChunkRejected(kind: seq<Byte>, data: seq<Byte>, damaged: seq<Byte>, rest: seq<Byte>, at: nat, width: nat)
    requires |kind| == 4 && |data| < 0x1_0000_0000
    requires |damaged| == 4 + |data| && damaged != kind + data
    requires width <= 4 && at + width <= |damaged|
    requires forall i | 0 <= i < |damaged| && !(at <= i < at + width) :: damaged[i] == (kind + data)[i]
    ensures ReadChunk(BigEndian(|data|) + damaged + BigEndian(Crc32(kind + data)) + rest) == None
  {
    hide BigEndian, FromBigEndian, Crc32, CrcOf, ReadChunk;
    var intact := Crc32(kind + data);
    ReadChunkFields(|data|, damaged, BigEndian(intact), rest);
    BurstDetected(kind + data, damaged, at, width);
    BigEndianRoundTrip(intact);
    CrcByDivision(damaged);
  }

  // ---------- Rows ----------

  function PixelBytes(pixels: seq<Pixel>): (s: seq<Byte>)
    ensures |s| == 4 * |pixels|
  {
    if pixels == [] then []
    else var p := pixels[0]; [p.r, p.g, p.b, p.a] + PixelBytes(pixels[1..])
  }

  function BytePixels(s: seq<Byte>): (pixels: seq<Pixel>)
    requires |s| % 4 == 0
    ensures |s| == 4 * |pixels|
  {
    if s == [] then [] else [Pixel(s[0], s[1], s[2], s[3])] + BytePixels(s[4..])
  }

  lemma {:induction false} PixelsRoundTrip(pixels: seq<Pixel>)
    ensures BytePixels(PixelBytes(pixels)) == pixels
  {
    if pixels == [] {
    } else {
      PixelsRoundTrip(pixels[1..]);
      assert PixelBytes(pixels)[4..] == PixelBytes(pixels[1..]);
    }
  }

  // Every row starts with the byte of filter type None.
  function RawRows(rows: seq<seq<Pixel>>): seq<Byte> {
    if rows == [] then [] else [0] + PixelBytes(rows[0]) + RawRows(rows[1..])
  }

  // The rows of an image of the given width; only filter type None is understood.
  function Unfilter(raw: seq<Byte>, width: nat): Option<seq<Pixel>>
    decreases |raw|
  {
    if raw == [] then Some([])
    else if raw[0] != 0 || |raw| < 1 + 4 * width then None
    else
      match Unfilter(raw[1 + 4 * width..], width)
      case None => None
      case Some(more) => Some(BytePixels(raw[1..1 + 4 * width]) + more)
  }

  lemma {:induction false} UnfilterRows(rows: seq<seq<Pixel>>, width: nat)
    requires forall i | 0 <= i < |rows| :: |rows[i]| == width
    ensures Unfilter(RawRows(rows), width) == Some(Flatten(rows))
  {
    if rows == [] {
    } else {
      UnfilterRows(rows[1..], width);
      PixelsRoundTrip(rows[0]);
      var raw := RawRows(rows);
      assert raw == [0] + PixelBytes(rows[0]) + RawRows(rows[1..]);
      assert Flatten(rows) == rows[0] + Flatten(rows[1..]);
      hide RawRows, PixelBytes, BytePixels, Flatten;
      assert raw[1..1 + 4 * width] == PixelBytes(rows[0]);
      assert raw[1 + 4 * width..] == RawRows(rows[1..]);
    }
  }

  lemma {:induction false} RowsSize(rows: seq<seq<Pixel>>, width: nat)
    requires forall i | 0 <= i < |rows| :: |rows[i]| == width
    ensures |RawRows(rows)| == |rows| * (1 + 4 * width)
  {
    if rows == [] {
    } else {
      RowsSize(rows[1..], width);
      RowMore(|rows|, 1 + 4 * width);
    }
  }

  lemma RowMore(n: nat, size: nat)
    requires n > 0
    ensures n * size == size + (n - 1) * size
  {}

  lemma RowLess(width: nat, height: nat)
    requires width > 0 && height > 0
    ensures width * height == width + width * (height - 1)
    ensures height == 1 ==> width * height == width
    ensures height > 1 ==> width * (height - 1) >= width
  {}

  // An image whose pixel count is a multiple of its width splits into full rows.
  lemma {:induction false} FullRows(pixels: seq<Pixel>, width: nat, height: nat)
    requires width > 0 && |pixels| == width * height
    ensures var rows := Chunks(pixels, width);
            |rows| == height && forall i | 0 <= i < height :: |rows[i]| == width
    decreases height
  {
    if height == 0 {
    } else {
      RowLess(width, height);
      if height > 1 {
        FullRows(pixels[width..], width, height - 1);
        assert Chunks(pixels, width) == [pixels[..width]] + Chunks(pixels[width..], width);
      } else {
        assert Chunks(pixels, width) == [pixels];
      }
    }
  }

  // ---------- The file ----------

  const SIGNATURE: seq<Byte> := [0x89, 0x50, 0x4E, 0x47, 0x0D, 0x0A, 0x1A, 0x0A]
  const IHDR: seq<Byte> := [0x49, 0x48, 0x44, 0x52]
  const IDAT: seq<Byte> := [0x49, 0x44, 0x41, 0x54]
  const IEND: seq<Byte> := [0x49, 0x45, 0x4E, 0x44]

  // 8 bits, RGBA, deflate, no filter method, no interlace.
  const FORMAT: seq<Byte> := [8, 6, 0, 0, 0]

  function Raw(img: Image): seq<Byte>
    requires img.width > 0
  {
    RawRows(Chunks(img.pixels, img.width))
  }

  function Header(img: Image): seq<Byte> {
    BigEndian(AsU32(img.width)) + BigEndian(AsU32(img.height)) + FORMAT
  }

  // The bytes the writer saves. A width of zero panics in the source's row iterator.
  function SavePng(img: Image): seq<Byte>
    requires img.width > 0
  {
    SIGNATURE + Chunk(IHDR, Header(img)) + Chunk(IDAT, ZlibStored(Raw(img))) + Chunk(IEND, [])
  }

  // A strict reader of three-chunk RGBA images, with the signature, the letters of the chunk types
  // and the format bytes as sections 3.1, 4.1 and 4.1.1 of RFC 2083 give them.
  function Decode(file: seq<Byte>): Option<Image> {
    if |file| < 8 || file[..8] != [137, 80, 78, 71, 13, 10, 26, 10] then None
    else DecodeChunks(file[8..])
  }

  function Letters(name: string): seq<Byte>
    requires forall i | 0 <= i < |name| :: 'A' <= name[i] <= 'Z'
  {
    seq(|name|, i requires 0 <= i < |name| => name[i] as int)
  }

  lemma ChunkNames()
    ensures Letters("IHDR") == IHDR && Letters("IDAT") == IDAT && Letters("IEND") == IEND
  {}

  function DecodeChunks(s: seq<Byte>): Option<Image> {
    match ReadChunk(s)
    case None => None
    case Some(header) =>
      if header.kind != Letters("IHDR") || |header.data| != 13 || header.data[8..] != [8, 6, 0, 0, 0] then None
      else
        var width, height := FromBigEndian(header.data[..4]), FromBigEndian(header.data[4..8]);
        match ReadChunk(header.rest)
        case None => None
        case Some(data) =>
          match ReadChunk(data.rest)
          case None => None
          case Some(end) =>
            if data.kind != Letters("IDAT") || end != ReadChunkResult(Letters("IEND"), [], []) then None
            else DecodePixels(width, height, data.data)
  }

  function DecodePixels(width: nat, height: nat, stream: seq<Byte>): Option<Image> {
    match Inflate(stream)
    case None => None
    case Some(raw) =>
      match Unfilter(raw, width)
      case None => None
      case Some(pixels) => if |pixels| == width * height then Some(Image(width, height, pixels)) else None
  }

  // Both dimensions and the length of the image data fit their 32-bit fields.
  predicate Fits(img: Image) {
    var raw := img.height * (1 + 4 * img.width);
    && img.width < 0x1_0000_0000
    && img.height < 0x1_0000_0000
    && raw + 5 * CeilDiv(raw, 65535) + 6 < 0x1_0000_0000
  }

  lemma RawFacts(img: Image)
    requires WellFormed(img)
    ensures Raw(img) != []
    ensures |Raw(img)| == img.height * (1 + 4 * img.width)
    ensures Unfilter(Raw(img), img.width) == Some(img.pixels)
    ensures Inflate(ZlibStored(Raw(img))) == Some(Raw(img))
    ensures |ZlibStored(Raw(img))| == |Raw(img)| + 5 * CeilDiv(|Raw(img)|, 65535) + 6
  {
    var rows := Chunks(img.pixels, img.width);
    FullRows(img.pixels, img.width, img.height);
    UnfilterRows(rows, img.width);
    RowsSize(rows, img.width);
    assert |Raw(img)| == img.height * (1 + 4 * img.width);
    assert img.height * (1 + 4 * img.width) > 0;
    ZlibBlocks(Raw(img));
    ZlibRoundTrip(Raw(img));
  }

  lemma HeaderFields(img: Image)
    ensures |Header(img)| == 13 && Header(img)[8..] == FORMAT
    ensures FromBigEndian(Header(img)[..4]) == AsU32(img.width)
    ensures FromBigEndian(Header(img)[4..8]) == AsU32(img.height)
  {
    assert Header(img)[..4] == BigEndian(AsU32(img.width));
    assert Header(img)[4..8] == BigEndian(AsU32(img.height));
    assert Header(img)[8..] == FORMAT;
    BigEndianRoundTrip(AsU32(img.width));
    BigEndianRoundTrip(AsU32(img.height));
  }

  // What the reader sees after the signature and the header chunk.
  lemma DecodeAfterHeader(img: Image, rest: seq<Byte>)
    ensures DecodeChunks(Chunk(IHDR, Header(img)) + rest) ==
      match ReadChunk(rest)
      case None => None
      case Some(data) =>
        match ReadChunk(data.rest)
        case None => None
        case Some(end) =>
          if data.kind != IDAT || end != ReadChunkResult(IEND, [], []) then None
          else DecodePixels(AsU32(img.width), AsU32(img.height), data.data)
  {
    HeaderFields(img);
    ReadChunkRoundTrip(IHDR, Header(img), rest);
    ChunkNames();
    hide Letters, Header, Chunk, ReadChunk, FromBigEndian, DecodePixels;
  }

  lemma ReadChunkLength(s: seq<Byte>, len: U32, rest: seq<Byte>)
    requires s == BigEndian(len) + rest
    ensures ReadChunk(s).Some? ==> |s| == 12 + len + |ReadChunk(s).value.rest|
  {
    assert s[..4] == BigEndian(len);
    BigEndianRoundTrip(len);
  }

  // With a truncated length field the data chunk cannot be followed by just the end chunk.
  lemma TruncatedLength(stream: seq<Byte>, end: seq<Byte>)
    requires |stream| >= 0x1_0000_0000
    ensures var data := ReadChunk(Chunk(IDAT, stream) + end);
            data.Some? ==> ReadChunk(data.value.rest) != Some(ReadChunkResult(IEND, [], []))
  {
    hide BigEndian, Crc32, ReadChunk;
    var len := AsU32(|stream|);
    var more := IDAT + stream + BigEndian(Crc32(IDAT + stream)) + end;
    var s := Chunk(IDAT, stream) + end;
    assert s == BigEndian(len) + more;
    ReadChunkLength(s, len, more);
  }

  // What the reader makes of the data chunk and the end chunk the writer appends.
  lemma ReadDataAndEnd(stream: seq<Byte>)
    requires |stream| < 0x1_0000_0000
    ensures var rest := Chunk(IDAT, stream) + Chunk(IEND, []);
            && ReadChunk(rest) == Some(ReadChunkResult(IDAT, stream, Chunk(IEND, [])))
            && ReadChunk(Chunk(IEND, [])) == Some(ReadChunkResult(IEND, [], []))
  {
    ReadChunkRoundTrip(IDAT, stream, Chunk(IEND, []));
    ReadChunkRoundTrip(IEND, [], []);
    assert Chunk(IEND, []) + [] == Chunk(IEND, []);
  }

  // Decoding a saved image gives it back exactly when every length fits its field:
  // otherwise a truncated length makes the file decode to something else or to nothing.
  lemma SavePngRoundTrip(img: Image)
    requires WellFormed(img)
    ensures Decode(SavePng(img)) == Some(img) <==> Fits(img)
  {
    hide Chunk, ReadChunk, ZlibStored, Inflate, Raw, Unfilter, SavePng, Decode, DecodeChunks, Header;
    var stream := ZlibStored(Raw(img));
    var rest := Chunk(IDAT, stream) + Chunk(IEND, []);
    RawFacts(img);
    SavePngParts(img);
    DecodeAfterHeader(img, rest);
    if |stream| < 0x1_0000_0000 {
      ReadDataAndEnd(stream);
      assert DecodeChunks(Chunk(IHDR, Header(img)) + rest)
          == DecodePixels(AsU32(img.width), AsU32(img.height), stream);
    } else {
      TruncatedLength(stream, Chunk(IEND, []));
    }
  }

  // An image without rows is saved as a file no decoder accepts: its stream has no block.
  lemma NoRowsNotDecodable(img: Image)
    requires img.width > 0 && img.pixels == []
    ensures Decode(SavePng(img)) == None
  {
    hide Chunk, ReadChunk, Inflate, Unfilter, SavePng, Decode, DecodeChunks, Header;
    assert Raw(img) == [];
    ZlibRoundTrip([]);
    var stream := ZlibStored([]);
    assert |stream| < 0x1_0000_0000;
    hide ZlibStored, Raw;
    SavePngParts(img);
    DecodeAfterHeader(img, Chunk(IDAT, stream) + Chunk(IEND, []));
    ReadDataAndEnd(stream);
  }

  lemma SavePngParts(img: Image)
    requires img.width > 0
    ensures var rest := Chunk(IDAT, ZlibStored(Raw(img))) + Chunk(IEND, []);
            Decode(SavePng(img)) == DecodeChunks(Chunk(IHDR, Header(img)) + rest)
  {
    hide Chunk, ZlibStored, Raw, Header, DecodeChunks;
    var header, data, end := Chunk(IHDR, Header(img)), Chunk(IDAT, ZlibStored(Raw(img))), Chunk(IEND, []);
    assert SavePng(img) == SIGNATURE + header + data + end;
    hide SavePng;
    AfterSignature(SavePng(img), SIGNATURE, header, data, end);
  }

  lemma AfterSignature(file: seq<Byte>, signature: seq<Byte>, header: seq<Byte>, data: seq<Byte>, end: seq<Byte>)
    requires |signature| == 8 && file == signature + header + data + end
    ensures file[..8] == signature && file[8..] == header + (data + end)
  {}
}
