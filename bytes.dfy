/** Fixed-width unsigned integers and their little-endian byte encodings, as the
    placement-record file stores them. */
module Bytes {

  type byte = x: int | 0 <= x < 0x100
  type u16 = x: int | 0 <= x < 0x1_0000
  type u32 = x: int | 0 <= x < 0x1_0000_0000

  const TWO_32: nat := 0x1_0000_0000

  function Min(a: nat, b: nat): (m: nat)
    ensures m <= a && m <= b && (m == a || m == b)
  {
    if a <= b then a else b
  }

  function U16Bytes(x: u16): (b: seq<byte>)
    ensures |b| == 2
  {
    [x % 0x100, x / 0x100]
  }

  function U16Of(b: seq<byte>): (x: u16)
    requires |b| == 2
  {
    (b[0] as int) + 0x100 * (b[1] as int)
  }

  function U32Bytes(x: u32): (b: seq<byte>)
    ensures |b| == 4
  {
    [x % 0x100, (x / 0x100) % 0x100, (x / 0x1_0000) % 0x100, x / 0x100_0000]
  }

  function U32Of(b: seq<byte>): (x: u32)
    requires |b| == 4
  {
    (b[0] as int) + 0x100 * (b[1] as int) + 0x1_0000 * (b[2] as int) + 0x100_0000 * (b[3] as int)
  }

  lemma U16RoundTrip(x: u16)
    ensures U16Of(U16Bytes(x)) == x
  {
  }

  lemma U16BytesOf(b: seq<byte>)
    requires |b| == 2
    ensures U16Bytes(U16Of(b)) == b
  {
  }

  lemma U32RoundTrip(x: u32)
    ensures U32Of(U32Bytes(x)) == x
  {
    var b := U32Bytes(x);
    var q1 := x / 0x100;
    var q2 := q1 / 0x100;
    assert x == b[0] + 0x100 * q1;
    assert q1 == b[1] + 0x100 * q2;
    assert q2 == x / 0x1_0000;
    assert q2 == (b[2] as int) + 0x100 * (b[3] as int);
  }

  lemma U32BytesOf(b: seq<byte>)
    requires |b| == 4
    ensures U32Bytes(U32Of(b)) == b
  {
    var x := U32Of(b);
    var lo, hi := (b[0] as int) + 0x100 * (b[1] as int), (b[2] as int) + 0x100 * (b[3] as int);
    assert x == lo + 0x1_0000 * hi;
    DigitSplit(b[0], (b[1] as int) + 0x100 * hi, 0x100);
    DigitSplit(lo, hi, 0x1_0000);
    DigitSplit((b[0] as int) + 0x100 * (b[1] as int) + 0x1_0000 * (b[2] as int), b[3], 0x100_0000);
    DigitSplit(b[1], hi, 0x100);
    DigitSplit(b[2], b[3], 0x100);
  }

  /** Dividing `d + base * q` by `base` leaves the digit `d` and the quotient `q`. */
  lemma DigitSplit(d: int, q: int, base: int)
    requires 0 <= d < base
    ensures (d + base * q) / base == q && (d + base * q) % base == d
  {
    var n := d + base * q;
    var k := n / base - q;
    assert base * k == d - n % base by {
      assert n == base * (n / base) + n % base;
      assert base * (n / base) - base * q == base * k;
    }
  }
}
