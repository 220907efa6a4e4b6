/** The icon generator's PNG file: chunks of length, type, data and CRC
    (RFC 2083, section 3.2), the IHDR header (section 4.1.1) and the file of
    signature, IHDR, IDAT and IEND (sections 3.1 and 4.1.4). The CRC is
    `PngCrc`, the raw data `PngRaster`; the deflate compressor is a
    parameter. */
module PngIcon {
  import opened PngCrc
  import opened PngRaster
  import opened BigEndian

  /** The PNG modules stand apart from the panel model, so the parser's
      optional result has its own `Option`. */
  datatype Option<T> = None | Some(value: T)

  const SIGNATURE: seq<bv8> := [137, 80, 78, 71, 13, 10, 26, 10]

  /** The three chunk types the icon uses. */
  const IHDR: string := "IHDR"
  const IDAT: string := "IDAT"
  const IEND: string := "IEND"

  // ---------------------------------------------------------------------
  // Buffers

  /** `buf.writeUInt32BE(value, offset)`: the four bytes of `value` replace
      those at `offset`, and nothing else changes. */
  method WriteUInt32BE(buf: array<bv8>, value: nat, offset: nat)
    requires value < TWO_TO_32 && offset + 4 <= buf.Length
    modifies buf
    ensures buf[..] == Splice(old(buf[..]), offset, BE32(value))
  {
    var bytes := BE32(value);
    SpliceFour(buf[..], offset, bytes);
    buf[offset] := bytes[0];
    buf[offset + 1] := bytes[1];
    buf[offset + 2] := bytes[2];
    buf[offset + 3] := bytes[3];
  }

  /** `Buffer.alloc(4)` followed by `writeUInt32BE(value)`: a new buffer
      holding the four bytes of `value`. */
  method NewWord(value: nat) returns (buf: array<bv8>)
    requires value < TWO_TO_32
    ensures fresh(buf) && buf[..] == BE32(value)
  {
    buf := new bv8[4](_ => 0);
    SpliceWhole(buf[..], BE32(value));
    WriteUInt32BE(buf, value, 0);
  }

  // ---------------------------------------------------------------------
  // Chunks

  /** `Buffer.from(type, 'ascii')`: the low byte of each character. */
  function Ascii(s: string): (r: seq<bv8>)
    ensures |r| == |s|
  {
    seq(|s|, i requires 0 <= i < |s| => ((s[i] as int) % 256) as bv8)
  }

  /** The bytes of a chunk: length of the data, type, data, CRC of type and data. */
  function ChunkBytes(kind: string, data: seq<bv8>): (r: seq<bv8>)
    requires |data| < TWO_TO_32
  {
    BE32(|data|) + Ascii(kind) + data + BE32(Crc(Ascii(kind) + data) as int)
  }

  /** `chunk(type, data)` */
  method Chunk(table: array<bv32>, kind: string, data: seq<bv8>) returns (r: seq<bv8>)
    requires IsCrcTable(table) && |data| < TWO_TO_32
    ensures r == ChunkBytes(kind, data)
  {
    var len := NewWord(|data|);
    var typeB := Ascii(kind);
    var crcData := typeB + data;
    var c := Crc32(table, crcData);
    var crc := NewWord(c as int);
    r := len[..] + typeB + data + crc[..];
  }

  /** A chunk as a reader takes it apart. */
  datatype Parsed = Parsed(kind: seq<bv8>, data: seq<bv8>, rest: seq<bv8>)

  /** Reads one chunk off the front of `bytes`: its length, type, data and
      CRC. Fails when the bytes run out or the CRC does not match. */
  function ParseChunk(bytes: seq<bv8>): Option<Parsed> {
    if |bytes| < 12 then None
    else
      var len := ReadBE32(bytes[..4]);
      if |bytes| < 12 + len then None
      else
        var kind, data := bytes[4..8], bytes[8..8 + len];
        if ReadBE32(bytes[8 + len..12 + len]) != Crc(kind + data) as int then None
        else Some(Parsed(kind, data, bytes[12 + len..]))
  }

  /** Where the four fields of a chunk sit. */
  lemma ChunkLayout(len: seq<bv8>, kind: seq<bv8>, data: seq<bv8>, crc: seq<bv8>, rest: seq<bv8>)
    requires |len| == 4 && |kind| == 4 && |crc| == 4
    ensures var b := len + kind + data + crc + rest;
      && b[..4] == len && b[4..8] == kind && b[8..8 + |data|] == data
      && b[8 + |data|..12 + |data|] == crc && b[12 + |data|..] == rest
  {
  }

  /** The same, for a chunk with nothing after it. */
  lemma ChunkFields(len: seq<bv8>, kind: seq<bv8>, data: seq<bv8>, crc: seq<bv8>)
    requires |len| == 4 && |kind| == 4 && |crc| == 4
    ensures var b := len + kind + data + crc;
      && b[..4] == len && b[4..8] == kind && b[8..8 + |data|] == data && b[8 + |data|..] == crc
  {
  }

  /** A chunk is 12 bytes longer than its data, and a reader gets its type and
      data back, with the CRC matching. */
  lemma ChunkParses(kind: string, data: seq<bv8>, rest: seq<bv8>)
    requires |kind| == 4 && |data| < TWO_TO_32
    ensures |ChunkBytes(kind, data)| == |data| + 12
    ensures ParseChunk(ChunkBytes(kind, data) + rest) == Some(Parsed(Ascii(kind), data, rest))
  {
    ChunkWords(Ascii(kind), data, Crc(Ascii(kind) + data) as int, rest);
  }

  /** The fields of a chunk with CRC word `crc`, read back as a reader does. */
  lemma ChunkWords(kind: seq<bv8>, data: seq<bv8>, crc: nat, rest: seq<bv8>)
    requires |kind| == 4 && |data| < TWO_TO_32 && crc < TWO_TO_32
    ensures var b := BE32(|data|) + kind + data + BE32(crc) + rest;
      && |b| == |data| + 12 + |rest|
      && ReadBE32(b[..4]) == |data| && b[4..8] == kind && b[8..8 + |data|] == data
      && ReadBE32(b[8 + |data|..12 + |data|]) == crc && b[12 + |data|..] == rest
  {
    ChunkLayout(BE32(|data|), kind, data, BE32(crc), rest);
    BE32RoundTrip(|data|);
    BE32RoundTrip(crc);
  }

  /** The type `IEND` in bytes. */
  lemma IendType()
    ensures Ascii(IEND) == [73, 69, 78, 68]
  {
  }

  /** The IEND chunk is 12 bytes: length 0, the type `IEND`, and the CRC
      0xAE426082. */
  lemma IendBytes(kind: string, data: seq<bv8>)
    requires kind == IEND && data == []
    ensures |ChunkBytes(kind, data)| == 12
    ensures ChunkBytes(kind, data)[..4] == [0, 0, 0, 0]
    ensures ChunkBytes(kind, data)[4..8] == [73, 69, 78, 68]
    ensures ReadBE32(ChunkBytes(kind, data)[8..]) == 0xAE42_6082
  {
    IendHead(kind, data);
    IendTail(kind, data);
  }

  /** The length and type fields of the IEND chunk. */
  lemma IendHead(kind: string, data: seq<bv8>)
    requires kind == IEND && data == []
    ensures |ChunkBytes(kind, data)| == 12
    ensures ChunkBytes(kind, data)[..4] == [0, 0, 0, 0]
    ensures ChunkBytes(kind, data)[4..8] == [73, 69, 78, 68]
  {
    var crc := BE32(Crc(Ascii(kind) + data) as int);
    IendType();
    IendLength(|data|);
    ChunkFields(BE32(|data|), Ascii(kind), data, crc);
  }

  /** The CRC field of the IEND chunk. */
  lemma IendTail(kind: string, data: seq<bv8>)
    requires kind == IEND && data == []
    ensures ReadBE32(ChunkBytes(kind, data)[8..]) == 0xAE42_6082
  {
    IendCrc(kind, data);
    ChunkCrcField(kind, data);
    assert 8 + |data| == 8;
  }

  /** The CRC of `IEND` as a number. */
  lemma IendCrc(kind: string, data: seq<bv8>)
    requires kind == IEND && data == []
    ensures Crc(Ascii(kind) + data) as int == 0xAE42_6082
  {
    var d := Ascii(kind) + data;
    IendType();
    assert d == [73, 69, 78, 68];
    CrcOfIend(d);
  }

  /** The last four bytes of a chunk read back as the CRC of its type and data. */
  lemma ChunkCrcField(kind: string, data: seq<bv8>)
    requires |kind| == 4 && |data| < TWO_TO_32
    ensures ReadBE32(ChunkBytes(kind, data)[8 + |data|..]) == Crc(Ascii(kind) + data) as int
  {
    LastWord(BE32(|data|) + Ascii(kind) + data, Crc(Ascii(kind) + data) as int);
  }

  /** The word at the end of `front + BE32(n)` reads back as `n`. */
  lemma LastWord(front: seq<bv8>, n: nat)
    requires n < TWO_TO_32
    ensures ReadBE32((front + BE32(n))[|front|..]) == n
  {
    assert (front + BE32(n))[|front|..] == BE32(n);
    BE32RoundTrip(n);
  }

  /** The length word of an empty chunk. */
  lemma IendLength(len: nat)
    requires len == 0
    ensures BE32(len) == [0, 0, 0, 0]
  {
  }

  // ---------------------------------------------------------------------
  // IHDR

  /** Width, height, bit depth 8, colour type 6 (RGBA), then compression,
      filter and interlace methods 0. */
  function IhdrBytes(size: nat): seq<bv8>
    requires size < TWO_TO_32
  {
    BE32(size) + BE32(size) + [8, 6, 0, 0, 0]
  }

  /** The five single-byte fields after two words written into thirteen bytes. */
  lemma IhdrTail(s: seq<bv8>, w: seq<bv8>)
    requires |s| == 13 && |w| == 4
    ensures Splice(Splice(s, 0, w), 4, w)[8 := 8][9 := 6][10 := 0][11 := 0][12 := 0] == w + w + [8, 6, 0, 0, 0]
  {
    SpliceTwice(s, 0, w, w);
  }

  /** The IHDR buffer of `createPNG`. */
  method Ihdr(size: nat) returns (ihdr: array<bv8>)
    requires size < TWO_TO_32
    ensures fresh(ihdr) && ihdr[..] == IhdrBytes(size)
  {
    ihdr := new bv8[13](_ => 0);
    IhdrTail(ihdr[..], BE32(size));
    WriteUInt32BE(ihdr, size, 0);
    WriteUInt32BE(ihdr, size, 4);
    ihdr[8] := 8;
    ihdr[9] := 6;
    ihdr[10] := 0;
    ihdr[11] := 0;
    ihdr[12] := 0;
  }

  /** The header is 13 bytes, reads back as a square of `size`, 8-bit RGBA,
      not interlaced. */
  lemma IhdrFields(size: nat)
    requires size < TWO_TO_32
    ensures |IhdrBytes(size)| == 13
    ensures ReadBE32(IhdrBytes(size)[..4]) == size
    ensures ReadBE32(IhdrBytes(size)[4..8]) == size
    ensures IhdrBytes(size)[8..] == [8, 6, 0, 0, 0]
  {
    var w := BE32(size);
    ChunkLayout(w, w, [], [8, 6, 0, 0], [0]);
    assert IhdrBytes(size) == w + w + [] + [8, 6, 0, 0] + [0];
    BE32RoundTrip(size);
  }

  // ---------------------------------------------------------------------
  // The file

  /** Signature, IHDR, IDAT holding the compressed data, IEND. */
  function PngFile(size: nat, compressed: seq<bv8>): seq<bv8>
    requires size < TWO_TO_32 && |compressed| < TWO_TO_32
  {
    SIGNATURE + ChunkBytes(IHDR, IhdrBytes(size)) + ChunkBytes(IDAT, compressed) + ChunkBytes(IEND, [])
  }

  /** `createPNG(size)`, with the diamond colouring given as `colour` and
      `deflateSync` as `compress`. */
  method CreatePng(size: nat, colour: Colouring, compress: seq<bv8> -> seq<bv8>) returns (png: seq<bv8>)
    requires size < TWO_TO_32 && |compress(Raw(colour, size))| < TWO_TO_32
    ensures png == PngFile(size, compress(Raw(colour, size)))
  {
    var raw := RawBuffer(colour, size);
    var compressed := compress(raw[..]);
    var table := MakeCrcTable();
    var ihdr := Ihdr(size);
    var ihdrChunk := Chunk(table, IHDR, ihdr[..]);
    var idatChunk := Chunk(table, IDAT, compressed);
    var iendChunk := Chunk(table, IEND, []);
    png := SIGNATURE + ihdrChunk + idatChunk + iendChunk;
  }

  /** The file is the signature followed by three chunks a reader takes apart
      as IHDR with the header, IDAT with the compressed data and the empty
      IEND, with nothing after it; its length is 57 bytes plus the data. */
  lemma FileParses(size: nat, compressed: seq<bv8>)
    requires size < TWO_TO_32 && |compressed| < TWO_TO_32
    ensures |PngFile(size, compressed)| == 57 + |compressed|
    ensures PngFile(size, compressed)[..8] == SIGNATURE
    ensures var afterIdat := ChunkBytes(IEND, []);
      var afterIhdr := ChunkBytes(IDAT, compressed) + afterIdat;
      && ParseChunk(PngFile(size, compressed)[8..]) == Some(Parsed(Ascii(IHDR), IhdrBytes(size), afterIhdr))
      && ParseChunk(afterIhdr) == Some(Parsed(Ascii(IDAT), compressed, afterIdat))
      && ParseChunk(afterIdat) == Some(Parsed(Ascii(IEND), [], []))
  {
    var ihdr := ChunkBytes(IHDR, IhdrBytes(size));
    var idat := ChunkBytes(IDAT, compressed);
    var iend := ChunkBytes(IEND, []);
    AfterSignature(SIGNATURE, ihdr, idat, iend);
    ChunkParses(IHDR, IhdrBytes(size), idat + iend);
    ChunkParses(IDAT, compressed, iend);
    ChunkParses(IEND, [], []);
    assert iend + [] == iend;
  }

  /** What follows the signature in `sig + a + b + c` is `a + (b + c)`. */
  lemma AfterSignature(sig: seq<bv8>, a: seq<bv8>, b: seq<bv8>, c: seq<bv8>)
    ensures |sig + a + b + c| == |sig| + |a| + |b| + |c|
    ensures (sig + a + b + c)[..|sig|] == sig
    ensures (sig + a + b + c)[|sig|..] == a + (b + c)
  {
    assert sig + a + b + c == sig + (a + (b + c));
  }

  /** The file ends with the fixed IEND chunk: length 0, the type `IEND` and
      the CRC 0xAE426082. */
  lemma FileEndsWithIend(size: nat, compressed: seq<bv8>)
    requires size < TWO_TO_32 && |compressed| < TWO_TO_32
    ensures var f := PngFile(size, compressed);
      && |f| >= 12
      && f[|f| - 12..|f| - 8] == [0, 0, 0, 0]
      && f[|f| - 8..|f| - 4] == [73, 69, 78, 68]
      && ReadBE32(f[|f| - 4..]) == 0xAE42_6082
  {
    var front := SIGNATURE + ChunkBytes(IHDR, IhdrBytes(size)) + ChunkBytes(IDAT, compressed);
    IendBytes(IEND, []);
    EndFields(front, ChunkBytes(IEND, []));
  }

  /** The last twelve bytes of `a + t` are the three four-byte fields of `t`. */
  lemma EndFields(a: seq<bv8>, t: seq<bv8>)
    requires |t| == 12
    ensures var f := a + t;
      && f[|f| - 12..|f| - 8] == t[..4]
      && f[|f| - 8..|f| - 4] == t[4..8]
      && f[|f| - 4..] == t[8..]
  {
  }
}
