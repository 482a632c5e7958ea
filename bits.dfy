/** Integer bit arithmetic as the Python tools use it.

    Python integers are unbounded two's-complement values, so for any int x
    (negative ones included) `x >> s` is floor(x / 2^s) and `x & (2^w - 1)`
    is the non-negative remainder of x modulo 2^w. Dafny's `/` and `%` with a
    positive divisor are exactly floor division and that remainder, so the
    definitions below are exact for every int, not only for 32-bit values. */
module Bits {

  type byte = x: int | 0 <= x < 0x100

  function Pow2(n: nat): (r: nat)
    ensures r > 0
  {
    if n == 0 then 1 else 2 * Pow2(n - 1)
  }

  /** Python's `(x >> shift) & (2^width - 1)`: the width-bit field of x at shift. */
  function Field(x: int, shift: nat, width: nat): (r: nat)
    ensures r < Pow2(width)
  {
    (x / Pow2(shift)) % Pow2(width)
  }

  /** x with its width-bit field at shift replaced by f: how a register value
      with the given field contents is composed. */
  function Put(x: int, shift: nat, width: nat, f: int): int
  {
    x / Pow2(shift + width) * Pow2(shift + width) + f * Pow2(shift) + x % Pow2(shift)
  }

  /** The number whose binary digits, least significant first, are bits. */
  function FromBits(bits: seq<int>): int
  {
    if bits == [] then 0 else bits[0] + 2 * FromBits(bits[1..])
  }

  /** The n bytes of x, least significant first: struct.pack's '<' byte order
      for an x that fits in n bytes. */
  function LittleEndian(x: int, n: nat): (r: seq<byte>)
    ensures |r| == n
    decreases n
  {
    if n == 0 then [] else [x % 0x100] + LittleEndian(x / 0x100, n - 1)
  }

  function FromLittleEndian(bs: seq<byte>): nat
  {
    if bs == [] then 0 else bs[0] + 0x100 * FromLittleEndian(bs[1..])
  }

  // ---------------------------------------------------------------------
  // Properties used by the register codecs

  /** Reading back a field just written gives what was written. */
  lemma FieldPutSame(x: int, s: nat, w: nat, f: int)
    requires 0 <= f < Pow2(w)
    ensures Field(Put(x, s, w, f), s, w) == f
  {
    FieldOfSplit(x / Pow2(s + w), f, x % Pow2(s), s, w);
  }

  /** Reading back a field and reading below a written field, for all
      arguments at once: a value composed by writing fields in increasing bit
      order reads back field by field. */
  lemma PutFacts()
    ensures forall x: int, s: nat, w: nat, f: int {:trigger Field(Put(x, s, w, f), s, w)} ::
      0 <= f < Pow2(w) ==> Field(Put(x, s, w, f), s, w) == f
    ensures forall x: int, s: nat, w: nat, f: int, s2: nat, w2: nat {:trigger Field(Put(x, s, w, f), s2, w2)} ::
      s2 + w2 <= s ==> Field(Put(x, s, w, f), s2, w2) == Field(x, s2, w2)
  {
    forall x: int, s: nat, w: nat, f: int | 0 <= f < Pow2(w)
      ensures Field(Put(x, s, w, f), s, w) == f
    {
      FieldPutSame(x, s, w, f);
    }
    forall x: int, s: nat, w: nat, f: int, s2: nat, w2: nat | s2 + w2 <= s
      ensures Field(Put(x, s, w, f), s2, w2) == Field(x, s2, w2)
    {
      FieldPutBelow(x, s, w, f, s2, w2);
    }
  }

  /** Four fields written in turn. */
  function Put4(x: int, s1: nat, w1: nat, f1: int, s2: nat, w2: nat, f2: int,
                s3: nat, w3: nat, f3: int, s4: nat, w4: nat, f4: int): int
  {
    Put(Put(Put(Put(x, s1, w1, f1), s2, w2, f2), s3, w3, f3), s4, w4, f4)
  }

  /** Four fields that fit, written in increasing bit order, each read back;
      the bits below the lowest are those of x. */
  lemma Put4Fields(x: int, s1: nat, w1: nat, f1: int, s2: nat, w2: nat, f2: int,
                   s3: nat, w3: nat, f3: int, s4: nat, w4: nat, f4: int)
    requires s1 + w1 <= s2 && s2 + w2 <= s3 && s3 + w3 <= s4
    requires 0 <= f1 < Pow2(w1) && 0 <= f2 < Pow2(w2) && 0 <= f3 < Pow2(w3) && 0 <= f4 < Pow2(w4)
    ensures var v := Put4(x, s1, w1, f1, s2, w2, f2, s3, w3, f3, s4, w4, f4);
      Field(v, s1, w1) == f1 && Field(v, s2, w2) == f2 && Field(v, s3, w3) == f3 && Field(v, s4, w4) == f4
    ensures forall s: nat, w: nat {:trigger Field(Put4(x, s1, w1, f1, s2, w2, f2, s3, w3, f3, s4, w4, f4), s, w)} ::
      s + w <= s1 ==> Field(Put4(x, s1, w1, f1, s2, w2, f2, s3, w3, f3, s4, w4, f4), s, w) == Field(x, s, w)
  {
    PutFacts();
  }

  lemma FieldZero(s: nat, w: nat)
    ensures Field(0, s, w) == 0
  {
    DivModUnique(0, Pow2(s), 0, 0);
    DivModUnique(0, Pow2(w), 0, 0);
  }

  /** A field of width a + b is its low a bits followed by the next b bits. */
  lemma FieldConcat(x: int, s: nat, a: nat, b: nat)
    ensures Field(x, s, a + b) == Field(x, s, a) + Pow2(a) * Field(x, s + a, b)
  {
    Pow2Add(s, a);
    Pow2Add(a, b);
    var p, q := Pow2(a), Pow2(b);
    var y := x / Pow2(s);
    DivDiv(x, Pow2(s), p);
    var z := y / p;
    DivModIdentity(y, p);
    DivModIdentity(z, q);
    assert y == z / q * (p * q) + (z % q * p + y % p) by {
      MulDistrib(z / q * q, z % q, p);
      Reassociate(z / q, 1, p, q);
    }
    DigitBelow(z % q, y % p, p, q);
    DivModUnique(y, p * q, z / q, z % q * p + y % p);
    MulComm(p, z % q);
  }

  /** The low a bits of a wider field. */
  lemma FieldPrefix(x: int, s: nat, a: nat, b: nat)
    ensures Field(x, s, a) == Field(x, s, a + b) % Pow2(a)
  {
    FieldConcat(x, s, a, b);
    DivModUnique(Field(x, s, a + b), Pow2(a), Field(x, s + a, b), Field(x, s, a));
  }

  /** A sequence of single bits read from x, starting at bit s, spells out
      the field of x at s of that many bits. */
  lemma {:induction false} FromBitsOfField(x: int, s: nat, bits: seq<int>)
    requires forall i :: 0 <= i < |bits| ==> bits[i] == Field(x, s + i, 1)
    ensures FromBits(bits) == Field(x, s, |bits|)
    decreases bits
  {
    if bits != [] {
      FromBitsOfField(x, s + 1, bits[1..]);
      FieldConcat(x, s, 1, |bits| - 1);
    }
  }

  /** A value below 2^s has no bits set at or above s. */
  lemma FieldAbove(x: int, s: nat, w: nat)
    requires 0 <= x < Pow2(s)
    ensures Field(x, s, w) == 0
  {
    DivModUnique(x, Pow2(s), 0, x);
    FieldZero(0, w);
  }

  lemma {:induction false} LittleEndianRoundTrip(x: int, n: nat)
    requires 0 <= x < Pow2(8 * n)
    ensures FromLittleEndian(LittleEndian(x, n)) == x
  {
    if n > 0 {
      Pow2Add(8, 8 * (n - 1));
      Pow2Table();
      LittleEndianRoundTrip(x / 0x100, n - 1);
      assert LittleEndian(x, n)[1..] == LittleEndian(x / 0x100, n - 1);
    }
  }

  /** Bytes read back as a number and written out again are the same bytes. */
  lemma {:induction false} LittleEndianOfFrom(bs: seq<byte>)
    ensures LittleEndian(FromLittleEndian(bs), |bs|) == bs
  {
    if bs != [] {
      var v := FromLittleEndian(bs);
      DivAddMultiple(FromLittleEndian(bs[1..]), bs[0], 0x100);
      LittleEndianOfFrom(bs[1..]);
      assert v % 0x100 == bs[0] && v / 0x100 == FromLittleEndian(bs[1..]);
      assert bs == [bs[0]] + bs[1..];
    }
  }

  // ---------------------------------------------------------------------
  // Arithmetic helpers

  lemma Pow2Table()
    ensures Pow2(1) == 2 && Pow2(2) == 4 && Pow2(3) == 8 && Pow2(4) == 16
    ensures Pow2(8) == 0x100 && Pow2(10) == 0x400 && Pow2(16) == 0x1_0000
    ensures Pow2(32) == 0x1_0000_0000
  {
    assert Pow2(4) == 16;
    Pow2Add(4, 4);
    Pow2Add(8, 2);
    Pow2Add(8, 8);
    Pow2Add(16, 16);
  }

  lemma {:induction false} Pow2Add(a: nat, b: nat)
    ensures Pow2(a + b) == Pow2(a) * Pow2(b)
  {
    if a > 0 {
      Pow2Add(a - 1, b);
      assert Pow2(a + b) == 2 * Pow2(a - 1 + b);
    }
  }

  lemma DivModUnique(x: int, d: int, q: int, r: int)
    requires d > 0 && x == q * d + r && 0 <= r < d
    ensures x / d == q && x % d == r
  {
    var q', r' := x / d, x % d;
    assert x == q' * d + r';
    assert (q - q') * d == r' - r;
    if q > q' {
      assert (q - q') * d >= d by { MulAtLeast(q - q', d); }
    } else if q < q' {
      assert (q' - q) * d >= d by { MulAtLeast(q' - q, d); }
    }
  }

  lemma DivModIdentity(x: int, d: int)
    requires d > 0
    ensures x == x / d * d + x % d
  {
  }

  lemma DivDiv(x: int, a: int, b: int)
    requires a > 0 && b > 0
    ensures x / (a * b) == (x / a) / b && x % (a * b) == (x / a % b) * a + x % a
  {
    var q1, r1 := x / a, x % a;
    var q2, r2 := q1 / b, q1 % b;
    assert x == q2 * (a * b) + (r2 * a + r1) by {
      assert x == q1 * a + r1;
      assert q1 == q2 * b + r2;
    }
    assert r2 * a + r1 < a * b by { MulAtLeast(b - r2, a); }
    DivModUnique(x, a * b, q2, r2 * a + r1);
  }

  lemma DivAddMultiple(k: int, y: int, d: int)
    requires d > 0
    ensures (k * d + y) / d == k + y / d && (k * d + y) % d == y % d
  {
    var q, r := y / d, y % d;
    assert y == q * d + r;
    MulDistrib(k, q, d);
    DivModUnique(k * d + y, d, k + q, r);
  }

  /** A digit f < q in place p, plus anything below p, stays below p * q. */
  lemma DigitBelow(f: int, lo: int, p: int, q: int)
    requires 0 <= f < q && 0 <= lo < p
    ensures f * p + lo < p * q
  {
    MulAtLeast(q - f, p);
    MulDistrib(q, -f, p);
  }

  lemma MulAtLeast(k: int, d: int)
    requires k >= 1 && d > 0
    ensures k * d >= d
  {
  }

  lemma Reassociate(a: int, p: int, q: int, r: int)
    ensures a * (p * (q * r)) == (a * r * q) * p
  {
  }

  lemma MulAssoc(a: int, b: int, c: int)
    ensures a * (b * c) == (a * b) * c
  {
  }

  lemma MulComm(a: int, b: int)
    ensures a * b == b * a
  {
  }

  lemma MulDistrib(a: int, b: int, c: int)
    ensures (a + b) * c == a * c + b * c
  {
  }

  lemma FieldOfSplit(hi: int, f: int, lo: int, s: nat, w: nat)
    requires 0 <= f < Pow2(w) && 0 <= lo < Pow2(s)
    ensures Field(hi * Pow2(s + w) + f * Pow2(s) + lo, s, w) == f
  {
    Pow2Add(s, w);
    var p, q := Pow2(s), Pow2(w);
    var x := hi * Pow2(s + w) + f * p + lo;
    assert x == (hi * q + f) * p + lo by {
      MulAssoc(hi, q, p);
      MulComm(q, p);
      MulDistrib(hi * q, f, p);
    }
    DivModUnique(x, p, hi * q + f, lo);
    DivModUnique(hi * q + f, q, hi, f);
  }

  /** Bits of `a * 2^t + lo` below position t are those of lo. */
  lemma FieldLow(a: int, lo: int, t: nat, s: nat, w: nat)
    requires s + w <= t
    ensures Field(a * Pow2(t) + lo, s, w) == Field(lo, s, w)
  {
    var p, q, rest := Pow2(s), Pow2(w), Pow2(t - s - w);
    Pow2Add(s, t - s);
    Pow2Add(w, t - s - w);
    var m := a * rest * q;
    assert Pow2(t) == p * (q * rest);
    Reassociate(a, p, q, rest);
    DivAddMultiple(m, lo, p);
    DivAddMultiple(a * rest, lo / p, q);
  }

  /** Bits of `h * 2^t + z`, with z below 2^t, at or above position t are those of h. */
  lemma FieldHigh(h: int, z: int, t: nat, s: nat, w: nat)
    requires 0 <= z < Pow2(t) && t <= s
    ensures Field(h * Pow2(t) + z, s, w) == Field(h, s - t, w)
  {
    Pow2Add(t, s - t);
    DivDiv(h * Pow2(t) + z, Pow2(t), Pow2(s - t));
    DivModUnique(h * Pow2(t) + z, Pow2(t), h, z);
  }

  lemma FieldPutBelow(x: int, s: nat, w: nat, f: int, s2: nat, w2: nat)
    requires s2 + w2 <= s
    ensures Field(Put(x, s, w, f), s2, w2) == Field(x, s2, w2)
  {
    Pow2Add(s, w);
    var p, q := Pow2(s), Pow2(w);
    var lo := x % p;
    var a := x / (p * q) * q + f;
    assert Put(x, s, w, f) == a * p + lo by {
      MulAssoc(x / (p * q), q, p);
      MulComm(q, p);
      MulDistrib(x / (p * q) * q, f, p);
    }
    FieldLow(a, lo, s, s2, w2);
    DivModIdentity(x, p);
    FieldLow(x / p, lo, s, s2, w2);
  }

  lemma FieldAboveSplit(x: int, t: nat, s: nat, w: nat)
    requires t <= s
    ensures Field(x, s, w) == Field(x / Pow2(t), s - t, w)
  {
    DivModIdentity(x, Pow2(t));
    FieldHigh(x / Pow2(t), x % Pow2(t), t, s, w);
  }
}
