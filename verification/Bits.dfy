/** Numbers and octets as sequences of bits, most significant first. */
module Bits {
  import opened Tlv
  import opened Integers

  function Pow2(k: nat): (p: nat)
    ensures p >= 1
  {
    if k == 0 then 1 else 2 * Pow2(k - 1)
  }

  lemma Quotient(n: nat, p: nat)
    requires p >= 1
    ensures n == n / p * p + n % p && n % p < p && n / p >= 0
  {}

  /** `n >> k` */
  function Shr(n: nat, k: nat): (r: nat)
    ensures n == r * Pow2(k) + n % Pow2(k)
  {
    Quotient(n, Pow2(k));
    n / Pow2(k)
  }

  /** The low `k` bits of `n`. */
  function ToBits(n: nat, k: nat): (b: seq<bool>)
    ensures |b| == k
    decreases k
  {
    if k == 0 then [] else ToBits(n / 2, k - 1) + [n % 2 == 1]
  }

  function Number(b: seq<bool>): (n: nat) {
    if b == [] then 0 else Number(b[..|b| - 1]) * 2 + if b[|b| - 1] then 1 else 0
  }

  function BytesBits(s: Bytes): (b: seq<bool>)
    ensures |b| == 8 * |s|
  {
    if s == [] then [] else BytesBits(s[..|s| - 1]) + ToBits(s[|s| - 1], 8)
  }

  // ----- numbers

  lemma {:induction false} NumberOfBits(n: nat, k: nat)
    ensures Number(ToBits(n, k)) == n % Pow2(k)
    decreases k
  {
    if k > 0 {
      var b := ToBits(n, k);
      NumberOfBits(n / 2, k - 1);
      assert b[..k - 1] == ToBits(n / 2, k - 1);
      HalfMod(n, Pow2(k - 1));
    }
  }

  lemma HalfMod(n: nat, p: nat)
    requires p >= 1
    ensures n % (2 * p) == (n / 2 % p) * 2 + n % 2
  {
    var q, r := n / 2 / p, n / 2 % p;
    assert n / 2 == q * p + r;
    assert n == 2 * (q * p + r) + n % 2;
    var x := 2 * r + n % 2;
    assert 0 <= x < 2 * p;
    assert n == q * (2 * p) + x by {
      assert 2 * (q * p) == q * (2 * p);
    }
    DivModUnique(n, 2 * p, q, x);
  }

  lemma DivModUnique(n: nat, p: nat, q: nat, x: nat)
    requires p >= 1 && n == q * p + x && x < p
    ensures n % p == x && n / p == q
  {
    var q', x' := n / p, n % p;
    assert n == q' * p + x';
    if q < q' {
      Steps(q + 1, q', p);
    } else if q' < q {
      Steps(q' + 1, q, p);
    }
  }

  lemma Steps(a: nat, b: nat, p: nat)
    requires a <= b
    ensures a * p <= b * p
  {}

  lemma {:induction false} BitsOfNumber(b: seq<bool>)
    ensures ToBits(Number(b), |b|) == b
  {
    if b != [] {
      BitsOfNumber(b[..|b| - 1]);
    }
  }

  /** Concatenated numbers are concatenated bits. */
  lemma {:induction false} BitsSplit(a: nat, c: nat, i: nat, j: nat)
    requires c < Pow2(j)
    ensures ToBits(a * Pow2(j) + c, i + j) == ToBits(a, i) + ToBits(c, j)
    decreases j
  {
    if j == 0 {
      assert a * 1 + 0 == a;
    } else {
      var n := a * Pow2(j) + c;
      Halves(a, c, Pow2(j - 1));
      BitsSplit(a, c / 2, i, j - 1);
      assert ToBits(n, i + j) == ToBits(n / 2, i + j - 1) + [n % 2 == 1];
    }
  }

  lemma Halves(a: nat, c: nat, p: nat)
    requires c < 2 * p
    ensures (a * (2 * p) + c) / 2 == a * p + c / 2 && (a * (2 * p) + c) % 2 == c % 2 && c / 2 < p
  {}

  lemma BitsOfLow(n: nat, k: nat)
    ensures ToBits(n, k) == ToBits(n % Pow2(k), k)
  {
    hide Pow2, ToBits;
    var q, r := Shr(n, k), n % Pow2(k);
    Quotient(n, Pow2(k));
    BitsSplit(q, r, 0, k);
  }

  /** Bits in the middle of a number: drop `low` bits, keep `k`. */
  lemma MiddleBits(n: nat, high: nat, k: nat, low: nat)
    ensures ToBits(n, high + k + low)[high..high + k] == ToBits(Shr(n, low) % Pow2(k), k)
  {
    hide ToBits, Pow2;
    var a, c := Shr(n, low), n % Pow2(low);
    Quotient(n, Pow2(low));
    BitsSplit(a, c, high + k, low);
    var d, v := Shr(a, k), a % Pow2(k);
    Quotient(a, Pow2(k));
    BitsSplit(d, v, high, k);
    Middle(ToBits(d, high), ToBits(v, k), ToBits(c, low));
  }

  lemma Middle(a: seq<bool>, b: seq<bool>, c: seq<bool>)
    ensures (a + b + c)[|a|..|a| + |b|] == b
  {}

  lemma {:induction false} Pow2Sum(i: nat, j: nat)
    ensures Pow2(i + j) == Pow2(i) * Pow2(j)
    decreases j
  {
    if j > 0 {
      Pow2Sum(i, j - 1);
      Twice(Pow2(i), Pow2(j - 1));
    }
  }

  lemma Twice(a: nat, b: nat)
    ensures 2 * (a * b) == a * (2 * b)
  {}

  // ----- octets

  lemma {:induction false} BytesBitsConcat(s: Bytes, t: Bytes)
    ensures BytesBits(s + t) == BytesBits(s) + BytesBits(t)
    decreases |t|
  {
    hide ToBits;
    if t == [] {
      assert s + t == s;
    } else {
      var n := |t| - 1;
      BytesBitsConcat(s, t[..n]);
      assert (s + t)[..|s + t| - 1] == s + t[..n];
      Group(BytesBits(s), BytesBits(t[..n]), ToBits(t[n], 8));
    }
  }

  lemma Group(a: seq<bool>, b: seq<bool>, c: seq<bool>)
    ensures a + b + c == a + (b + c)
  {}

  lemma NoBits(n: nat)
    ensures ToBits(n, 0) == []
  {}

  lemma Pow2Eight()
    ensures Pow2(8) == 256
  {}

  /** The bits of an octet string are those of its big-endian number. */
  lemma {:induction false} BytesAsNumber(s: Bytes)
    ensures BytesBits(s) == ToBits(Unsigned(s), 8 * |s|)
  {
    hide ToBits, Pow2;
    if s == [] {
      NoBits(Unsigned(s));
    } else {
      var n := |s| - 1;
      BytesAsNumber(s[..n]);
      Pow2Eight();
      BitsSplit(Unsigned(s[..n]), s[n], 8 * n, 8);
    }
  }

  lemma {:induction false} OctetsAsNumber(w: nat, k: nat)
    ensures BytesBits(LowOctets(w, k)) == ToBits(w, 8 * k)
    decreases k
  {
    hide ToBits, Pow2;
    if k == 0 {
      NoBits(w);
    } else {
      OctetsAsNumber(w / 256, k - 1);
      Pow2Eight();
      BitsSplit(w / 256, w % 256, 8 * (k - 1), 8);
      assert LowOctets(w, k)[..k - 1] == LowOctets(w / 256, k - 1);
    }
  }

  lemma OneByte(x: Byte)
    ensures BytesBits([x]) == ToBits(x, 8)
  {}
}
