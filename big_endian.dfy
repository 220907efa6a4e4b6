/** Unsigned 32-bit words as four big-endian bytes, the layout of every
    number in a PNG file (RFC 2083, section 2.1). */
module BigEndian {
  const TWO_TO_32: int := 0x1_0000_0000

  /** The four bytes `writeUInt32BE` stores for `n`, most significant first. */
  function BE32(n: nat): (r: seq<bv8>)
    requires n < TWO_TO_32
    ensures |r| == 4
  {
    [(n / 0x100_0000) as bv8, (n / 0x1_0000 % 0x100) as bv8, (n / 0x100 % 0x100) as bv8, (n % 0x100) as bv8]
  }

  /** The number four big-endian bytes stand for. */
  function ReadBE32(b: seq<bv8>): nat
    requires |b| == 4
  {
    ((b[0] as int * 0x100 + b[1] as int) * 0x100 + b[2] as int) * 0x100 + b[3] as int
  }

  /** A byte value survives the trip through `bv8`. */
  lemma ByteValue(k: nat)
    requires k < 0x100
    ensures (k as bv8) as int == k
  {
    assert k % 0x100 == k;
  }

  /** A word is its four base-256 digits. */
  lemma Digits(n: nat)
    requires n < TWO_TO_32
    ensures n == ((n / 0x100_0000 * 0x100 + n / 0x1_0000 % 0x100) * 0x100 + n / 0x100 % 0x100) * 0x100 + n % 0x100
  {
  }

  /** Reading back the bytes written for `n` gives `n`. */
  lemma BE32RoundTrip(n: nat)
    requires n < TWO_TO_32
    ensures ReadBE32(BE32(n)) == n
  {
    Digits(n);
    ByteValue(n / 0x100_0000);
    ByteValue(n / 0x1_0000 % 0x100);
    ByteValue(n / 0x100 % 0x100);
    ByteValue(n % 0x100);
  }
}
