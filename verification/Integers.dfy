/** INTEGER contents: src/rspro/INTEGER.c and src/rspro/NativeInteger.c, with a 64-bit `long`. */
module Integers {
  import opened Tlv

  const LONG_SIZE: int := 8
  const LONG_MIN: int := -0x8000_0000_0000_0000
  const LONG_MAX: int := 0x7fff_ffff_ffff_ffff
  const WORD: int := 0x1_0000_0000_0000_0000

  datatype Conversion = OutOfRange | Long(value: int)

  function Unsigned(b: Bytes): (n: nat) {
    if b == [] then 0 else Unsigned(b[..|b| - 1]) * 256 + b[|b| - 1]
  }

  /** Section 8.3.3 of X.690: the contents octets are a two's complement number. */
  function Value(b: Bytes): (n: int) {
    if b != [] && b[0] >= 128 then Unsigned(b) - Pow256(|b|) else Unsigned(b)
  }

  /** Section 8.3.2 of X.690: the first nine bits are all ones or all zero. */
  predicate Redundant(b: Bytes) {
    |b| >= 2 && ((b[0] == 0 && b[1] < 128) || (b[0] == 0xff && b[1] >= 128))
  }

  function Canon(b: Bytes): (r: Bytes)
    ensures !Redundant(r)
    ensures |r| <= |b| && r == b[|b| - |r|..]
    ensures b != [] ==> r != []
  {
    if Redundant(b) then Canon(b[1..]) else b
  }

  // ----- values

  lemma {:induction false} UnsignedRange(b: Bytes)
    ensures Unsigned(b) < Pow256(|b|)
  {
    if b != [] {
      UnsignedRange(b[..|b| - 1]);
    }
  }

  lemma {:induction false} UnsignedHead(b: Bytes)
    requires b != []
    ensures Unsigned(b) == b[0] * Pow256(|b| - 1) + Unsigned(b[1..])
  {
    var n := |b| - 1;
    if n > 0 {
      var h := b[..n];
      UnsignedHead(h);
      assert h[1..] == b[1..][..n - 1];
      ScaleHead(b[0], Pow256(n - 1), Unsigned(h[1..]));
    }
  }

  lemma ScaleHead(x: int, p: int, u: int)
    ensures (x * p + u) * 256 == x * (256 * p) + u * 256
  {}

  lemma SignedRange(b: Bytes)
    requires b != []
    ensures -128 * Pow256(|b| - 1) <= Value(b) < 128 * Pow256(|b| - 1)
    ensures Value(b) < 0 <==> b[0] >= 128
  {
    UnsignedHead(b);
    UnsignedRange(b[1..]);
    var p := Pow256(|b| - 1);
    if b[0] >= 128 {
      ProductAtLeast(b[0], 128, p);
      ProductAtLeast(255, b[0], p);
    } else {
      ProductAtLeast(127, b[0], p);
      ProductAtLeast(b[0], 0, p);
    }
  }

  lemma ProductAtLeast(x: int, y: int, p: nat)
    requires x >= y
    ensures x * p >= y * p
  {}

  lemma StripKeepsValue(b: Bytes)
    requires Redundant(b)
    ensures Value(b[1..]) == Value(b)
  {
    UnsignedHead(b);
  }

  /** Canonicalisation keeps the value. */
  lemma {:induction false} CanonKeepsValue(b: Bytes)
    ensures Value(Canon(b)) == Value(b)
    decreases |b|
  {
    if Redundant(b) {
      StripKeepsValue(b);
      CanonKeepsValue(b[1..]);
    }
  }

  lemma CanonIdempotent(b: Bytes)
    ensures Canon(Canon(b)) == Canon(b)
  {}

  lemma {:induction false} PowMonotone(i: nat, j: nat)
    requires i <= j
    ensures Pow256(i) <= Pow256(j)
  {
    if i < j {
      PowMonotone(i, j - 1);
    }
  }

  /** A value in canonical form does not fit one octet less. */
  lemma CanonicalIsWide(b: Bytes)
    requires |b| >= 2 && !Redundant(b)
    ensures Value(b) < -128 * Pow256(|b| - 2) || Value(b) >= 128 * Pow256(|b| - 2)
  {
    var q := Pow256(|b| - 2);
    var t := b[1..];
    UnsignedHead(b);
    UnsignedHead(t);
    UnsignedRange(t[1..]);
    UnsignedRange(t);
    assert Pow256(|b| - 1) == 256 * q;
    WideArithmetic(b[0], b[1], q, Unsigned(t[1..]), Unsigned(t));
  }

  lemma WideArithmetic(x: Byte, y: Byte, q: nat, u: nat, v: nat)
    requires v == y * q + u && u < q && v < 256 * q
    ensures x == 0 && y >= 128 ==> x * (256 * q) + v >= 128 * q
    ensures 1 <= x ==> x * (256 * q) + v >= 128 * q
    ensures x == 255 && y < 128 ==> x * (256 * q) + v - 256 * (256 * q) < -128 * q
    ensures x < 255 ==> x * (256 * q) + v - 256 * (256 * q) < -128 * q
  {
    if y >= 128 {
      ProductAtLeast(y, 128, q);
    } else {
      ProductAtLeast(127, y, q);
    }
    if x >= 1 {
      ProductAtLeast(256 * x, 256, q);
    }
    if x < 255 {
      ProductAtLeast(256 * 254, 256 * x, q);
    }
    assert x * (256 * q) == (256 * x) * q;
  }

  lemma {:induction false} UnsignedInjective(c: Bytes, d: Bytes)
    requires |c| == |d| && Unsigned(c) == Unsigned(d)
    ensures c == d
    decreases |c|
  {
    if c != [] {
      var n := |c| - 1;
      assert c[n] == d[n] && Unsigned(c[..n]) == Unsigned(d[..n]);
      UnsignedInjective(c[..n], d[..n]);
      assert c == c[..n] + [c[n]] && d == d[..n] + [d[n]];
    }
  }

  /** The value fits `k + 1` octets. */
  predicate Narrow(v: int, k: nat) {
    -128 * Pow256(k) <= v < 128 * Pow256(k)
  }

  lemma FitsItsOctets(b: Bytes)
    requires b != []
    ensures Narrow(Value(b), |b| - 1) && (Value(b) < 0 <==> b[0] >= 128)
  {
    hide Value, Pow256;
    SignedRange(b);
  }

  lemma NoOctetLess(b: Bytes)
    requires |b| >= 2 && !Redundant(b)
    ensures !Narrow(Value(b), |b| - 2)
  {
    hide Value, Pow256;
    CanonicalIsWide(b);
  }

  lemma NarrowMonotone(v: int, i: nat, j: nat)
    requires i <= j && Narrow(v, i)
    ensures Narrow(v, j)
  {
    hide Pow256;
    PowMonotone(i, j);
  }

  lemma ValueInjective(c: Bytes, d: Bytes)
    requires c != [] && |c| == |d| && Value(c) == Value(d)
    ensures c == d
  {
    FitsItsOctets(c);
    FitsItsOctets(d);
    hide Pow256, Unsigned;
    UnsignedInjective(c, d);
  }

  /** Section 8.3.2 of X.690: the canonical form is the one shortest form of its value. */
  lemma CanonIsShortest(b: Bytes, c: Bytes)
    requires b != [] && c != [] && Value(c) == Value(b)
    ensures |Canon(b)| <= |c|
    ensures |Canon(b)| == |c| ==> c == Canon(b)
  {
    hide Canon, Value, Narrow, Redundant;
    var d := Canon(b);
    CanonKeepsValue(b);
    FitsItsOctets(c);
    if |c| < |d| {
      NoOctetLess(d);
      NarrowMonotone(Value(c), |c| - 1, |d| - 2);
    } else if |c| == |d| {
      ValueInjective(c, d);
    }
  }

  // ----- conversion to long

  predicate FitsLong(n: int) {
    LONG_MIN <= n <= LONG_MAX
  }

  /** `asn_INTEGER2long` */
  function ToLong(b: Bytes): (r: Conversion) {
    var c := if |b| > LONG_SIZE then Canon(b) else b;
    if |c| > LONG_SIZE then OutOfRange else Long(Value(c))
  }

  lemma LongIsNarrow(v: int)
    ensures FitsLong(v) <==> Narrow(v, 7)
  {
    Pow256Seven();
  }

  /** The conversion succeeds exactly when the value fits, and then yields it. */
  lemma ToLongExact(b: Bytes)
    ensures ToLong(b) == if FitsLong(Value(b)) then Long(Value(b)) else OutOfRange
  {
    hide Canon, Value, Narrow, FitsLong, Redundant;
    var c := if |b| > LONG_SIZE then Canon(b) else b;
    CanonKeepsValue(b);
    LongIsNarrow(Value(c));
    if c == [] {
      EmptyIsZero();
      ZeroFits();
    } else if |c| > LONG_SIZE {
      NoOctetLess(c);
      if Narrow(Value(c), 7) {
        NarrowMonotone(Value(c), 7, |c| - 2);
      }
    } else {
      FitsItsOctets(c);
      NarrowMonotone(Value(c), |c| - 1, 7);
    }
  }

  lemma ZeroFits()
    ensures FitsLong(0)
  {}

  lemma EmptyIsZero()
    ensures Value([]) == 0
  {}

  lemma Pow256Seven()
    ensures Pow256(7) == 0x100_0000_0000_0000
  {}

  // ----- conversion from long

  /** The `k` low octets of `n`, most significant first. */
  function LowOctets(n: int, k: nat): (b: Bytes)
    ensures |b| == k
    decreases k
  {
    if k == 0 then [] else LowOctets(n / 256, k - 1) + [n % 256]
  }

  lemma {:induction false} LowOctetsUnsigned(n: nat, k: nat)
    requires n < Pow256(k)
    ensures Unsigned(LowOctets(n, k)) == n
    decreases k
  {
    if k > 0 {
      LowOctetsUnsigned(n / 256, k - 1);
      assert LowOctets(n, k)[..k - 1] == LowOctets(n / 256, k - 1);
    }
  }

  /** The object representation of a long, as an unsigned word. */
  function AsWord(n: int): (w: nat)
    requires FitsLong(n)
    ensures w < WORD
  {
    if n < 0 then n + WORD else n
  }

  /** `NativeInteger_encode_der` and `asn_long2INTEGER`: the word's octets, canonicalised. */
  function FromLong(n: int): (b: Bytes)
    requires FitsLong(n)
    ensures 1 <= |b| <= LONG_SIZE
  {
    Canon(LowOctets(AsWord(n), LONG_SIZE))
  }

  lemma WordValue(n: int)
    requires FitsLong(n)
    ensures Value(LowOctets(AsWord(n), LONG_SIZE)) == n
  {
    hide LowOctets, Unsigned;
    var b := LowOctets(AsWord(n), LONG_SIZE);
    Pow256Seven();
    assert Pow256(8) == 256 * Pow256(7);
    LowOctetsUnsigned(AsWord(n), LONG_SIZE);
    UnsignedHead(b);
    UnsignedRange(b[1..]);
    TopBit(b[0], Pow256(7), Unsigned(b[1..]), AsWord(n));
  }

  lemma TopBit(x: Byte, p: nat, u: nat, w: nat)
    requires w == x * p + u && u < p
    ensures x >= 128 <==> w >= 128 * p
  {}

  /** The encoders write the shortest form of the number and `asn_INTEGER2long` reads it back. */
  lemma LongRoundTrip(n: int)
    requires FitsLong(n)
    ensures Value(FromLong(n)) == n
    ensures ToLong(FromLong(n)) == Long(n)
    ensures !Redundant(FromLong(n))
  {
    WordValue(n);
    CanonKeepsValue(LowOctets(AsWord(n), LONG_SIZE));
    ToLongExact(FromLong(n));
  }

  // ----- the loops of the source

  lemma EmptyCanon()
    ensures Canon([]) == []
  {}

  lemma CanonStep(b: Bytes, k: nat)
    requires k < |b|
    ensures Redundant(b[k..]) ==> Canon(b[k..]) == Canon(b[k + 1..])
  {}

  /** How many leading octets are superfluous. */
  method CountSuperfluous(b: Bytes) returns (shift: nat)
    requires b != []
    ensures shift < |b| && b[shift..] == Canon(b)
  {
    shift := 0;
    while shift < |b| - 1
      invariant 0 <= shift < |b|
      invariant Canon(b) == Canon(b[shift..])
    {
      CanonStep(b, shift);
      if b[shift] == 0 && b[shift + 1] < 128 {
        shift := shift + 1;
      } else if b[shift] == 0xff && b[shift + 1] >= 128 {
        shift := shift + 1;
      } else {
        break;
      }
    }
  }

  /** The canonicalisation of `INTEGER_encode_der`, in place; an absent buffer is `size` 0. */
  method Canonicalise(buf: array<Byte>, size: nat) returns (newSize: nat)
    requires size <= buf.Length
    modifies buf
    ensures newSize <= size && buf[..newSize] == Canon(old(buf[..size]))
    ensures buf[newSize..] == old(buf[newSize..])
  {
    hide Canon, Redundant;
    if size == 0 {
      EmptyCanon();
      assert buf[..0] == [] && buf[..size] == [];
      return 0;
    }
    var shift := CountSuperfluous(buf[..size]);
    ghost var was := buf[..];
    newSize := size - shift;
    var i := 0;
    while i < newSize
      invariant 0 <= i <= newSize
      invariant forall k :: 0 <= k < i ==> buf[k] == was[k + shift]
      invariant forall k :: i <= k < buf.Length ==> buf[k] == was[k]
    {
      buf[i] := buf[i + shift];
      i := i + 1;
    }
    assert buf[..newSize] == was[..size][shift..];
  }

  /** Where the conversion loop starts: all ones or all zero. */
  function Sign(b: Bytes): (l: int)
    requires b != []
  {
    if b[0] >= 128 then -1 else 0
  }

  lemma UnsignedSnoc(b: Bytes, k: nat)
    requires k < |b|
    ensures Unsigned(b[..k + 1]) == Unsigned(b[..k]) * 256 + b[k]
  {
    assert b[..k + 1][..k] == b[..k];
  }

  lemma PowSnoc(k: nat)
    ensures Pow256(k + 1) == 256 * Pow256(k)
  {}

  lemma ValuePrefix(b: Bytes, k: nat)
    requires k < |b|
    ensures Value(b[..k + 1]) == (if k == 0 then Sign(b) else Value(b[..k])) * 256 + b[k]
  {
    UnsignedSnoc(b, k);
    PowSnoc(k);
    NoneIsZero(b);
    hide Unsigned, Pow256;
  }

  lemma NoneIsZero(b: Bytes)
    ensures Unsigned(b[..0]) == 0 && Pow256(0) == 1
  {}

  /** The accumulating loop of `asn_INTEGER2long`. */
  method Accumulate(c: Bytes) returns (l: int)
    requires c != []
    ensures l == Value(c)
  {
    hide Value;
    l := Sign(c);
    var i := 0;
    while i < |c|
      invariant 0 <= i <= |c|
      invariant l == if i == 0 then Sign(c) else Value(c[..i])
    {
      ValuePrefix(c, i);
      l, i := l * 256 + c[i], i + 1;
    }
    assert c[..|c|] == c;
  }

  /** `asn_INTEGER2long` */
  method IntegerToLong(b: Bytes) returns (r: Conversion)
    ensures r == ToLong(b)
    ensures r.Long? <==> FitsLong(Value(b))
    ensures r.Long? ==> r.value == Value(b)
  {
    hide Canon, Value, FitsLong;
    ToLongExact(b);
    EmptyIsZero();
    var i := 0;
    if |b| > LONG_SIZE {
      i := CountSuperfluous(b);
      if |b| - i > LONG_SIZE {
        return OutOfRange;
      }
    }
    if i == |b| {
      return Long(0);
    }
    var l := Accumulate(b[i..]);
    return Long(l);
  }

  lemma LowOctetsShift(w: nat, k: nat)
    requires k > 0
    ensures LowOctets(w, k) == LowOctets(w / 256, k - 1) + [w % 256]
  {}

  /** The loop of `NativeInteger_encode_der` that lays the word out, low octet last. */
  method WordOctets(native: int) returns (b: Bytes)
    requires FitsLong(native)
    ensures b == LowOctets(AsWord(native), LONG_SIZE) && Value(b) == native
  {
    hide LowOctets, Value, AsWord;
    WordValue(native);
    LowOctetsNone(AsWord(native));
    var buf := new Byte[LONG_SIZE];
    assert LowOctets(AsWord(native), LONG_SIZE) == LowOctets(AsWord(native), LONG_SIZE) + buf[LONG_SIZE..];
    var w := AsWord(native);
    var p := LONG_SIZE;
    while p > 0
      invariant 0 <= p <= LONG_SIZE && w >= 0
      invariant LowOctets(AsWord(native), LONG_SIZE) == LowOctets(w, p) + buf[p..]
      decreases p
    {
      LowOctetsShift(w, p);
      ghost var tail := buf[p..];
      p := p - 1;
      buf[p] := w % 256;
      assert buf[p..] == [w % 256] + tail;
      w := w / 256;
    }
    LowOctetsNone(w);
    b := buf[..];
    assert buf[0..] == b && [] + b == b;
  }

  lemma LowOctetsNone(w: nat)
    ensures LowOctets(w, 0) == []
  {}

  /** `asn_long2INTEGER` */
  method LongToInteger(value: int) returns (b: Bytes)
    requires FitsLong(value)
    ensures b == FromLong(value) && Value(b) == value
  {
    hide Canon, Unsigned, Value, LowOctets, Redundant;
    LongRoundTrip(value);
    var octets := WordOctets(value);
    var shift := CountSuperfluous(octets);
    var body := new Byte[LONG_SIZE - shift];
    var i := 0;
    while i < body.Length
      invariant 0 <= i <= body.Length
      invariant forall k :: 0 <= k < i ==> body[k] == octets[shift + k]
    {
      body[i] := octets[shift + i];
      i := i + 1;
    }
    b := body[..];
    assert b == octets[shift..];
  }

  /** The contents `NativeInteger_encode_der` hands on: the word, canonicalised in place. */
  method NativeContents(native: int) returns (b: Bytes)
    requires FitsLong(native)
    ensures b == FromLong(native) && Value(b) == native && !Redundant(b)
  {
    hide Canon, Unsigned, Value, LowOctets, Redundant;
    LongRoundTrip(native);
    var octets := WordOctets(native);
    var buf := new Byte[LONG_SIZE](i requires 0 <= i < LONG_SIZE => octets[i]);
    assert buf[..LONG_SIZE] == octets;
    var size := Canonicalise(buf, LONG_SIZE);
    b := buf[..size];
  }
}
