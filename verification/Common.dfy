/** Bytes, and numbers in BCD (libpcsxcore/cdrom.h:36-37). */
module Common {
  type Byte = b: int | 0 <= b < 0x100

  /** The value of a BCD byte. */
  function Btoi(b: Byte): Byte { b / 16 * 10 + b % 16 }

  /** The BCD byte of a value; beyond 159 it is cut to eight bits. */
  function Itob(i: Byte): Byte { (i / 10 * 16 + i % 10) % 0x100 }

  lemma BcdRoundTrip(i: Byte)
    requires i < 160
    ensures Btoi(Itob(i)) == i
  {
    var q, r := i / 10, i % 10;
    Digits(16 * q + r, q, r);
    assert Itob(i) == 16 * q + r;
  }

  lemma Digits(x: int, q: int, r: int)
    requires x == 16 * q + r && 0 <= r < 16
    ensures x / 16 == q && x % 16 == r
  {
  }

  /** Quotient and remainder are unique. */
  lemma Quotient(x: nat, d: nat, q: nat, r: nat)
    requires x == d * q + r && r < d
    ensures x / d == q && x % d == r
  {
    var a, b := x / d, x % d;
    assert x == d * a + b;
    if a > q {
      Exceeds(d, a, q);
    } else if a < q {
      Exceeds(d, q, a);
    }
  }

  lemma Exceeds(d: nat, a: nat, q: nat)
    requires a > q
    ensures d * a >= d * q + d
  {
    assert d * a == d * q + d * (a - q) && d * (a - q) == d + d * (a - q - 1);
  }
}
