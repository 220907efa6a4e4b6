/** The CRC-32 of the PNG standard (RFC 2083, section 3.4) as the icon
    generator computes it: a 256-entry table filled by eight bit steps per
    byte value, then one table lookup per data byte. The register is a
    `bv32`: the JavaScript `>>>`, `^` and `&` on 32-bit values, stored
    through a `Uint32Array`, are exactly these bit-vector operations. */
module PngCrc {
  const POLY: bv32 := 0xEDB8_8320
  const BYTE_BITS: nat := 8

  /** One bit of the reflected CRC: shift right, folding in the polynomial
      when the bit shifted out is set. */
  function Shift(c: bv32): bv32 {
    if c & 1 == 1 then POLY ^ (c >> 1) else c >> 1
  }

  /** `k` bit steps. */
  function Shifts(c: bv32, k: nat): bv32
    decreases k
  {
    if k == 0 then c else Shifts(Shift(c), k - 1)
  }

  /** The bit-at-a-time CRC register after the first `n` bytes of `data`, starting from all ones:
      each byte is XORed into the low end and shifted out bit by bit. */
  function Register(data: seq<bv8>, n: nat): bv32
    requires n <= |data|
  {
    if n == 0 then 0xFFFF_FFFF
    else ByteStep(Register(data, n - 1), data[n - 1])
  }

  /** One data byte: XORed into the low end, then eight bit steps. */
  function ByteStep(c: bv32, b: bv8): bv32 {
    Shifts(c ^ b as bv32, BYTE_BITS)
  }

  /** The CRC of the PNG standard: the register after the data, inverted. */
  function Crc(data: seq<bv8>): bv32 {
    Register(data, |data|) ^ 0xFFFF_FFFF
  }

  /** Entry `n` of the table: the byte `n` shifted through eight bit steps. */
  function TableEntry(n: bv32): bv32 {
    Shifts(n, BYTE_BITS)
  }

  ghost predicate IsCrcTable(table: array<bv32>)
    reads table
  {
    table.Length == 256 && forall n: bv8 :: table[n] == TableEntry(n as bv32)
  }

  /** The loop that fills `crcTable`. */
  method MakeCrcTable() returns (table: array<bv32>)
    ensures fresh(table) && IsCrcTable(table)
  {
    table := new bv32[256];
    for n := 0 to 256
      invariant forall m: bv8 :: m as int < n ==> table[m] == TableEntry(m as bv32)
    {
      var c: bv32 := n as bv32;
      for k := 0 to 8
        invariant Shifts(c, BYTE_BITS - k) == TableEntry(n as bv32)
      {
        c := if c & 1 == 1 then POLY ^ (c >> 1) else c >> 1;
      }
      table[n] := c;
      forall m: bv8 | m as int == n
        ensures table[m] == TableEntry(m as bv32)
      {
        ByteAsInt(m);
      }
    }
  }

  /** A byte converted to an integer and then to a word is the byte widened. */
  lemma ByteAsInt(m: bv8)
    ensures (m as int) as bv32 == m as bv32
  {
    assert (m as bv32) as int == m as int;
    WordAsInt(m as bv32);
  }

  /** A word converted to an integer and back is itself. */
  lemma WordAsInt(w: bv32)
    ensures (w as int) as bv32 == w
  {
  }

  // The table step rests on one fact about bit steps: a step commutes with
  // XORing in a word whose low bit is clear, which it halves. The induction
  // over the eight steps is done once for abstract operations, so that the
  // solver never unfolds the bit-vector arithmetic inside it.

  /** `f` applied `k` times. */
  function Iter<T>(f: T -> T, c: T, k: nat): T
    decreases k
  {
    if k == 0 then c else Iter(f, f(c), k - 1)
  }

  /** `p` holds of `v` and of its first `j - 1` images under `h`. */
  predicate AllSteps<T>(p: T -> bool, h: T -> T, v: T, j: nat)
    decreases j
  {
    j == 0 || (p(v) && AllSteps(p, h, h(v), j - 1))
  }

  /** `f` passes through `g` on a right operand satisfying `p`, turning it into `h` of it. */
  ghost predicate Commutes<T(!new)>(f: T -> T, g: (T, T) -> T, h: T -> T, p: T -> bool) {
    forall w: T, y: T {:trigger f(g(w, y))} :: p(y) ==> f(g(w, y)) == g(f(w), h(y))
  }

  lemma {:induction false} IterCommutes<T(!new)>(f: T -> T, g: (T, T) -> T, h: T -> T, p: T -> bool, u: T, v: T, j: nat)
    requires Commutes(f, g, h, p) && AllSteps(p, h, v, j)
    ensures Iter(f, g(u, v), j) == g(Iter(f, u, j), Iter(h, v, j))
    decreases j
  {
    if j > 0 {
      IterCommutes(f, g, h, p, f(u), h(v), j - 1);
    }
  }

  lemma {:induction false} ShiftsIter(c: bv32, k: nat)
    ensures Shifts(c, k) == Iter(Shift, c, k)
    decreases k
  {
    if k > 0 {
      ShiftsIter(Shift(c), k - 1);
    }
  }

  function Xor(a: bv32, b: bv32): bv32 { a ^ b }
  function Half(v: bv32): bv32 { v >> 1 }
  predicate Even(v: bv32) { v & 1 == 0 }

  /** The low bit of a register is 0 or 1. */
  lemma LowBit(c: bv32)
    ensures c & 1 == 0 || c & 1 == 1
  {
  }

  lemma PassOdd(u: bv32, v: bv32)
    requires u & 1 == 1 && v & 1 == 0
    ensures Shift(u ^ v) == Shift(u) ^ (v >> 1)
  {
    assert (u ^ v) & 1 == 1;
    assert (u ^ v) >> 1 == (u >> 1) ^ (v >> 1);
  }

  lemma PassEven(u: bv32, v: bv32)
    requires u & 1 == 0 && v & 1 == 0
    ensures Shift(u ^ v) == Shift(u) ^ (v >> 1)
  {
    assert (u ^ v) & 1 == 0;
    assert (u ^ v) >> 1 == (u >> 1) ^ (v >> 1);
  }

  /** XORing in a word with a clear low bit before a bit step is XORing in
      half of it after the step. */
  lemma ShiftPasses(u: bv32, v: bv32)
    requires v & 1 == 0
    ensures Shift(u ^ v) == Shift(u) ^ (v >> 1)
  {
    LowBit(u);
    if u & 1 == 1 {
      PassOdd(u, v);
    } else {
      PassEven(u, v);
    }
  }

  lemma ShiftCommutes()
    ensures Commutes(Shift, Xor, Half, Even)
  {
    forall w: bv32, y: bv32 | Even(y)
      ensures Shift(Xor(w, y)) == Xor(Shift(w), Half(y))
    {
      ShiftPasses(w, y);
    }
  }

  /** A word with a clear low byte stays even through seven halvings and
      ends up shifted right by eight. */
  lemma HalvesHigh(hi: bv32)
    requires hi & 0xFF == 0
    ensures AllSteps(Even, Half, hi, 8) && Iter(Half, hi, 8) == hi >> 8
  {
    assert Iter(Half, hi >> 7, 1) == hi >> 8;
    assert Iter(Half, hi >> 6, 2) == hi >> 8;
    assert Iter(Half, hi >> 5, 3) == hi >> 8;
    assert Iter(Half, hi >> 4, 4) == hi >> 8;
    assert Iter(Half, hi >> 3, 5) == hi >> 8;
    assert Iter(Half, hi >> 2, 6) == hi >> 8;
    assert Iter(Half, hi >> 1, 7) == hi >> 8;
    assert AllSteps(Even, Half, hi >> 7, 1);
    assert AllSteps(Even, Half, hi >> 6, 2);
    assert AllSteps(Even, Half, hi >> 5, 3);
    assert AllSteps(Even, Half, hi >> 4, 4);
    assert AllSteps(Even, Half, hi >> 3, 5);
    assert AllSteps(Even, Half, hi >> 2, 6);
    assert AllSteps(Even, Half, hi >> 1, 7);
  }

  /** Eight bit steps of a low byte and a high part: the high part only
      shifts down by eight. */
  lemma IterSplit(lo: bv32, hi: bv32)
    requires hi & 0xFF == 0
    ensures Iter(Shift, Xor(lo, hi), 8) == Xor(Iter(Shift, lo, 8), hi >> 8)
  {
    HalvesHigh(hi);
    ShiftCommutes();
    IterCommutes(Shift, Xor, Half, Even, lo, hi, 8);
  }

  lemma MixBytes(c: bv32, b: bv8)
    ensures Xor((c ^ b as bv32) & 0xFF, (c ^ b as bv32) & 0xFFFF_FF00) == c ^ b as bv32
    ensures (c ^ b as bv32) & 0xFFFF_FF00 & 0xFF == 0
    ensures ((c ^ b as bv32) & 0xFFFF_FF00) >> 8 == c >> 8
  {
  }

  /** One iteration of `crc32` is eight bit steps of the register. */
  lemma TableStep(c: bv32, b: bv8)
    ensures TableEntry((c ^ b as bv32) & 0xFF) ^ (c >> 8) == ByteStep(c, b)
  {
    EightBits((c ^ b as bv32) & 0xFF);
    EightBits(c ^ b as bv32);
    EightStepsSplit(c, b);
  }

  /** The same, with the eight steps written out as a number. */
  lemma EightStepsSplit(c: bv32, b: bv8)
    ensures Shifts((c ^ b as bv32) & 0xFF, 8) ^ (c >> 8) == Shifts(c ^ b as bv32, 8)
  {
    MixBytes(c, b);
    IterSplit((c ^ b as bv32) & 0xFF, (c ^ b as bv32) & 0xFFFF_FF00);
    ShiftsIter(c ^ b as bv32, 8);
    ShiftsIter((c ^ b as bv32) & 0xFF, 8);
  }

  /** The table index of byte `b` against register `c`: the low byte of
      their XOR. */
  function Index(c: bv32, b: bv8): bv8 {
    ((c ^ b as bv32) & 0xFF) as bv8
  }

  /** A table lookup does one byte's eight bit steps. */
  lemma Lookup(table: array<bv32>, c: bv32, b: bv8, entry: bv32)
    requires IsCrcTable(table) && entry == table[Index(c, b)]
    ensures entry ^ (c >> 8) == ByteStep(c, b)
  {
    assert entry == TableEntry((c ^ b as bv32) & 0xFF);
    TableStep(c, b);
  }

  lemma EightBits(c: bv32)
    ensures Shifts(c, BYTE_BITS) == Shifts(c, 8)
  {
  }

  /** `crc32(buf)`, the table-driven loop. */
  method Crc32(table: array<bv32>, buf: seq<bv8>) returns (crc: bv32)
    requires IsCrcTable(table)
    ensures crc == Crc(buf)
  {
    crc := 0xFFFF_FFFF;
    for i := 0 to |buf|
      invariant crc == Register(buf, i)
    {
      var entry := table[Index(crc, buf[i])];
      Lookup(table, crc, buf[i], entry);
      crc := entry ^ (crc >> 8);
    }
    crc := crc ^ 0xFFFF_FFFF;
  }

  /** The CRC of no bytes is zero. */
  lemma CrcEmpty()
    ensures Crc([]) == 0
  {
  }

  /** The CRC of the IEND type is 0xAE426082. */
  lemma CrcOfIend(d: seq<bv8>)
    requires d == [73, 69, 78, 68]
    ensures Crc(d) == 0xAE42_6082
  {
    IendByte(0xFFFF_FFFF, 73, 0x22FD_E946);
    RegisterStep(d, 0, 0xFFFF_FFFF, 0x22FD_E946);
    IendByte(0x22FD_E946, 69, 0x992B_AC53);
    RegisterStep(d, 1, 0x22FD_E946, 0x992B_AC53);
    IendByte(0x992B_AC53, 78, 0x639F_4775);
    RegisterStep(d, 2, 0x992B_AC53, 0x639F_4775);
    IendByte(0x639F_4775, 68, 0x51BD_9F7D);
    RegisterStep(d, 3, 0x639F_4775, 0x51BD_9F7D);
  }

  /** One more byte through the register. */
  lemma RegisterStep(d: seq<bv8>, n: nat, c: bv32, r: bv32)
    requires n < |d| && Register(d, n) == c && ByteStep(c, d[n]) == r
    ensures Register(d, n + 1) == r
  {
  }

  /** The register after each byte of `IEND`. */
  lemma IendByte(c: bv32, b: bv8, r: bv32)
    requires (c, b, r) in {(0xFFFF_FFFF, 73, 0x22FD_E946), (0x22FD_E946, 69, 0x992B_AC53),
                           (0x992B_AC53, 78, 0x639F_4775), (0x639F_4775, 68, 0x51BD_9F7D)}
    ensures ByteStep(c, b) == r
  {
    assert Shifts(c ^ b as bv32, BYTE_BITS) == Shifts(c ^ b as bv32, 8);
  }
}
