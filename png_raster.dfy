/** The raw image data of the icon generator: `size` scanlines, each a
    filter byte 0 followed by four bytes (red, green, blue, alpha) per
    pixel. The colour of each pixel is a parameter. */
module PngRaster {
  /** The colour of one pixel. */
  datatype Rgb = Rgb(r: bv8, g: bv8, b: bv8)

  /** The colour `createPNG` gives each pixel `(x, y)`. */
  type Colouring = (nat, nat) -> Rgb

  /** The four bytes of pixel `(x, y)`: its colour, then alpha 255 whichever
      colour it gets. */
  function Pixel(colour: Colouring, x: nat, y: nat): (r: seq<bv8>)
    ensures |r| == 4 && r[3] == 255
  {
    var c := colour(x, y);
    [c.r, c.g, c.b, 255]
  }

  /** The first `n` pixels of row `y`. */
  function Pixels(colour: Colouring, y: nat, n: nat): (r: seq<bv8>)
    ensures |r| == 4 * n
  {
    if n == 0 then [] else Pixels(colour, y, n - 1) + Pixel(colour, n - 1, y)
  }

  /** A scanline: filter type 0, then the row's pixels. */
  function Row(colour: Colouring, size: nat, y: nat): (r: seq<bv8>)
    ensures |r| == 1 + 4 * size
  {
    [0] + Pixels(colour, y, size)
  }

  /** The first `n` scanlines. */
  function Rows(colour: Colouring, size: nat, n: nat): seq<bv8> {
    if n == 0 then [] else Rows(colour, size, n - 1) + Row(colour, size, n - 1)
  }

  /** The raw image data `createPNG` compresses. */
  function Raw(colour: Colouring, size: nat): seq<bv8> {
    Rows(colour, size, size)
  }

  // ---------------------------------------------------------------------
  // The raw buffer

  /** `s` with the bytes from `at` on replaced by `t`; `s` itself when `t`
      does not fit. */
  function Splice(s: seq<bv8>, at: nat, t: seq<bv8>): seq<bv8> {
    if at + |t| <= |s| then s[..at] + t + s[at + |t|..] else s
  }

  /** Writing `t` and then `u` right after it is writing `t + u`. */
  lemma SpliceTwice(s: seq<bv8>, at: nat, t: seq<bv8>, u: seq<bv8>)
    requires at + |t| + |u| <= |s|
    ensures Splice(Splice(s, at, t), at + |t|, u) == Splice(s, at, t + u)
  {
    var r := Splice(Splice(s, at, t), at + |t|, u);
    assert r[..at] == s[..at];
    assert r[at..at + |t| + |u|] == t + u;
    assert r[at + |t| + |u|..] == s[at + |t| + |u|..];
    assert r == r[..at] + r[at..at + |t| + |u|] + r[at + |t| + |u|..];
  }

  /** Writing pixel `x` right after the filter byte and the first `x` pixels
      of a row gives the filter byte and the first `x + 1` pixels. */
  lemma PixelStep(s: seq<bv8>, rowOff: nat, colour: Colouring, size: nat, y: nat, x: nat)
    requires x < size && rowOff + 1 + 4 * size <= |s|
    ensures rowOff + 1 + 4 * x + 4 <= |s|
    ensures Splice(Splice(s, rowOff, [0] + Pixels(colour, y, x)), rowOff + 1 + 4 * x, Pixel(colour, x, y))
      == Splice(s, rowOff, [0] + Pixels(colour, y, x + 1))
  {
    SpliceTwice(s, rowOff, [0] + Pixels(colour, y, x), Pixel(colour, x, y));
    assert [0] + Pixels(colour, y, x + 1) == [0] + Pixels(colour, y, x) + Pixel(colour, x, y);
  }

  /** Splicing in four bytes is updating four places. */
  lemma SpliceFour(s: seq<bv8>, at: nat, q: seq<bv8>)
    requires |q| == 4 && at + 4 <= |s|
    ensures Splice(s, at, q) == s[at := q[0]][at + 1 := q[1]][at + 2 := q[2]][at + 3 := q[3]]
  {
  }

  /** Writes pixel `(x, y)` at `px`: its colour bytes, then alpha 255. */
  method WritePixel(raw: array<bv8>, px: nat, colour: Colouring, x: nat, y: nat)
    requires px + 4 <= raw.Length
    modifies raw
    ensures raw[..] == Splice(old(raw[..]), px, Pixel(colour, x, y))
  {
    var c := colour(x, y);
    SpliceFour(raw[..], px, Pixel(colour, x, y));
    raw[px] := c.r;
    raw[px + 1] := c.g;
    raw[px + 2] := c.b;
    raw[px + 3] := 255;
  }

  /** Writes scanline `y` at `rowOff`: the filter byte, then each pixel. */
  method WriteRow(raw: array<bv8>, rowOff: nat, colour: Colouring, size: nat, y: nat)
    requires rowOff + 1 + 4 * size <= raw.Length
    modifies raw
    ensures raw[..] == Splice(old(raw[..]), rowOff, Row(colour, size, y))
  {
    raw[rowOff] := 0;
    for x := 0 to size
      invariant raw[..] == Splice(old(raw[..]), rowOff, [0] + Pixels(colour, y, x))
    {
      PixelStep(old(raw[..]), rowOff, colour, size, y, x);
      WritePixel(raw, rowOff + 1 + 4 * x, colour, x, y);
    }
  }

  /** Where row `y` starts when rows are `rb` bytes long: `y * rb`, built up
      one row at a time. */
  function Offset(y: nat, rb: nat): nat {
    if y == 0 then 0 else Offset(y - 1, rb) + rb
  }

  lemma {:induction false} OffsetIsProduct(y: nat, rb: nat)
    ensures Offset(y, rb) == y * rb
  {
    if y > 0 {
      OffsetIsProduct(y - 1, rb);
    }
  }

  /** Row `y` ends by where row `n` starts, when `y < n`. */
  lemma {:induction false} OffsetFits(y: nat, n: nat, rb: nat)
    requires y < n
    ensures Offset(y, rb) + rb <= Offset(n, rb)
  {
    if y < n - 1 {
      OffsetFits(y, n - 1, rb);
    }
  }

  /** Writing row `y` after the first `y` rows gives the first `y + 1` rows. */
  lemma RowsStep(zeros: seq<bv8>, colour: Colouring, size: nat, y: nat)
    requires y < size && |zeros| == Offset(size, 1 + 4 * size)
    ensures Offset(y, 1 + 4 * size) + 1 + 4 * size <= |zeros|
    ensures Splice(Splice(zeros, 0, Rows(colour, size, y)), Offset(y, 1 + 4 * size), Row(colour, size, y))
      == Splice(zeros, 0, Rows(colour, size, y + 1))
  {
    OffsetFits(y, size, 1 + 4 * size);
    RowsLength(colour, size, y);
    SpliceTwice(zeros, 0, Rows(colour, size, y), Row(colour, size, y));
  }

  /** The scanline loops of `createPNG`: `size` rows of `1 + 4 * size` bytes. */
  method RawBuffer(colour: Colouring, size: nat) returns (raw: array<bv8>)
    ensures fresh(raw) && raw[..] == Raw(colour, size)
  {
    var rowBytes := 1 + 4 * size;
    OffsetIsProduct(size, rowBytes);
    raw := new bv8[size * rowBytes](_ => 0);
    ghost var zeros := raw[..];
    for y := 0 to size
      invariant |zeros| == raw.Length == Offset(size, rowBytes)
      invariant raw[..] == Splice(zeros, 0, Rows(colour, size, y))
    {
      var rowOff := y * rowBytes;
      OffsetIsProduct(y, rowBytes);
      RowsStep(zeros, colour, size, y);
      WriteRow(raw, rowOff, colour, size, y);
    }
    RowsLength(colour, size, size);
    SpliceWhole(zeros, Rows(colour, size, size));
  }

  /** Splicing in a whole sequence's worth replaces it. */
  lemma SpliceWhole(s: seq<bv8>, t: seq<bv8>)
    requires |t| == |s|
    ensures Splice(s, 0, t) == t
  {
    assert s[..0] + t + s[|t|..] == t;
  }

  // ---------------------------------------------------------------------
  // Layout of the raw data

  lemma {:induction false} RowsLength(colour: Colouring, size: nat, n: nat)
    ensures |Rows(colour, size, n)| == Offset(n, 1 + 4 * size)
  {
    if n > 0 {
      RowsLength(colour, size, n - 1);
    }
  }

  /** A slice of the front part of a concatenation. */
  lemma SliceOfFront(a: seq<bv8>, b: seq<bv8>, i: nat, m: nat, r: seq<bv8>)
    requires i + m <= |a| && a[i..i + m] == r
    ensures (a + b)[i..i + m] == r
  {
  }

  /** The back part of a concatenation. */
  lemma SliceOfBack(a: seq<bv8>, b: seq<bv8>)
    ensures (a + b)[|a|..|a| + |b|] == b
  {
  }

  /** Scanline `y` sits at offset `y * (1 + 4 * size)`. */
  lemma {:induction false} RowAt(colour: Colouring, size: nat, n: nat, y: nat)
    requires y < n
    ensures Offset(y, 1 + 4 * size) + (1 + 4 * size) <= |Rows(colour, size, n)|
    ensures Rows(colour, size, n)[Offset(y, 1 + 4 * size)..Offset(y, 1 + 4 * size) + (1 + 4 * size)] == Row(colour, size, y)
  {
    if y < n - 1 {
      RowAt(colour, size, n - 1, y);
      RowAtEarlier(colour, size, n, y);
    } else {
      RowAtLast(colour, size, n);
    }
  }

  lemma RowAtLast(colour: Colouring, size: nat, n: nat)
    requires 0 < n
    ensures Offset(n - 1, 1 + 4 * size) + (1 + 4 * size) <= |Rows(colour, size, n)|
    ensures Rows(colour, size, n)[Offset(n - 1, 1 + 4 * size)..Offset(n - 1, 1 + 4 * size) + (1 + 4 * size)] == Row(colour, size, n - 1)
  {
    RowsLength(colour, size, n - 1);
    SliceOfBack(Rows(colour, size, n - 1), Row(colour, size, n - 1));
  }

  lemma RowAtEarlier(colour: Colouring, size: nat, n: nat, y: nat)
    requires y < n - 1
    requires Offset(y, 1 + 4 * size) + (1 + 4 * size) <= |Rows(colour, size, n - 1)|
    requires Rows(colour, size, n - 1)[Offset(y, 1 + 4 * size)..Offset(y, 1 + 4 * size) + (1 + 4 * size)] == Row(colour, size, y)
    ensures Offset(y, 1 + 4 * size) + (1 + 4 * size) <= |Rows(colour, size, n)|
    ensures Rows(colour, size, n)[Offset(y, 1 + 4 * size)..Offset(y, 1 + 4 * size) + (1 + 4 * size)] == Row(colour, size, y)
  {
    SliceOfFront(Rows(colour, size, n - 1), Row(colour, size, n - 1), Offset(y, 1 + 4 * size), 1 + 4 * size, Row(colour, size, y));
  }

  /** Pixel `x` sits at offset `4 * x` of the row's pixels. */
  lemma {:induction false} PixelAt(colour: Colouring, y: nat, n: nat, x: nat)
    requires x < n
    ensures Pixels(colour, y, n)[4 * x..4 * x + 4] == Pixel(colour, x, y)
  {
    if x < n - 1 {
      PixelAt(colour, y, n - 1, x);
      assert Pixels(colour, y, n)[..4 * (n - 1)] == Pixels(colour, y, n - 1);
    }
  }

  /** A slice inside a slice. */
  lemma SubSlice(s: seq<bv8>, a: nat, n: nat, t: seq<bv8>, i: nat, m: nat)
    requires a + n <= |s| && s[a..a + n] == t && i + m <= n
    ensures s[a + i..a + i + m] == t[i..i + m]
  {
    forall k | a + i <= k < a + i + m
      ensures s[k] == t[k - a]
    {
      assert s[k] == s[a..a + n][k - a];
    }
    assert s[a + i..a + i + m] == t[i..i + m];
  }

  /** Inside one scanline: the filter byte, then pixel `x` at `1 + 4 * x`. */
  lemma RowLayout(raw: seq<bv8>, rowOff: nat, colour: Colouring, size: nat, y: nat, x: nat)
    requires x < size && rowOff + 1 + 4 * size <= |raw|
    requires raw[rowOff..rowOff + 1 + 4 * size] == Row(colour, size, y)
    ensures raw[rowOff] == 0
    ensures raw[rowOff + 1 + 4 * x..rowOff + 1 + 4 * x + 4] == Pixel(colour, x, y)
    ensures raw[rowOff + 1 + 4 * x + 3] == 255
  {
    var rb := 1 + 4 * size;
    var row := Row(colour, size, y);
    assert raw[rowOff] == raw[rowOff..rowOff + rb][0];
    SubSlice(raw, rowOff, rb, row, 1 + 4 * x, 4);
    PixelAt(colour, y, size, x);
    SubSlice(row, 1, 4 * size, Pixels(colour, y, size), 4 * x, 4);
    var p := raw[rowOff + 1 + 4 * x..rowOff + 1 + 4 * x + 4];
    assert raw[rowOff + 1 + 4 * x + 3] == p[3];
  }

  /** The raw buffer holds `size` scanlines of `1 + 4 * size` bytes; each
      begins with filter byte 0 and holds its pixels left to right, every
      alpha byte 255. */
  lemma RawLayout(colour: Colouring, size: nat, y: nat, x: nat)
    requires y < size && x < size
    ensures |Raw(colour, size)| == size * (1 + 4 * size)
    ensures var rowOff := y * (1 + 4 * size);
      && rowOff + 1 + 4 * size <= |Raw(colour, size)|
      && Raw(colour, size)[rowOff] == 0
      && Raw(colour, size)[rowOff + 1 + 4 * x..rowOff + 1 + 4 * x + 4] == Pixel(colour, x, y)
      && Raw(colour, size)[rowOff + 1 + 4 * x + 3] == 255
  {
    RowsLength(colour, size, size);
    OffsetIsProduct(size, 1 + 4 * size);
    OffsetIsProduct(y, 1 + 4 * size);
    RowAt(colour, size, size, y);
    RowLayout(Raw(colour, size), y * (1 + 4 * size), colour, size, y, x);
  }
}
