/** Tags and lengths on every octet string, minimal or not: what is read is the number the octets
    spell, and it is refused exactly when it is too large. */
module TlvLaws {
  import opened Tlv
  import opened Integers

  /** The number spelt by `d` behind octets that have spelt `len` already. */
  function Spelt(len: nat, d: Bytes): (n: nat) {
    Scaled(len, Pow256(|d|));
    len * Pow256(|d|) + Unsigned(d)
  }

  lemma Scaled(a: nat, p: nat)
    ensures a * p >= 0
  {}

  lemma SpeltNothing(len: nat)
    ensures Spelt(len, []) == len
  {}

  lemma SpeltFresh(d: Bytes)
    ensures Spelt(0, d) == Unsigned(d)
  {}

  lemma SpeltHead(len: nat, d: Bytes)
    requires d != []
    ensures Spelt(len, d) == Spelt(len * 256 + d[0], d[1..])
    ensures len * 256 + d[0] >= LEN_LIMIT || (len * 256 + d[0] >= 0x100_0000_0000_0000 && |d| > 1) ==> Spelt(len, d) > MAX_LENGTH
  {
    hide Unsigned, Pow256;
    var t := d[1..];
    UnsignedHead(d);
    PowSnoc(|t|);
    Grouped(len, d[0], Pow256(|t|), Unsigned(t));
    TooLarge(len * 256 + d[0], |t|, Unsigned(t));
  }

  lemma {:induction false} LongLengthReads(d: Bytes, x: Bytes, used: nat, len: nat)
    requires len < LEN_LIMIT
    ensures FetchLongLength(d + x, used, |d|, len) ==
            if Spelt(len, d) <= MAX_LENGTH then Got(used + |d|, Spelt(len, d)) else Bad
    decreases |d|
  {
    hide Spelt, FetchLongLength;
    if d == [] {
      assert d + x == x;
      SpeltNothing(len);
      LongDone(x, used, len);
    } else {
      var t, len' := d[1..], len * 256 + d[0];
      assert (d + x)[1..] == t + x && (d + x)[0] == d[0];
      SpeltHead(len, d);
      LongStep(d + x, used, |d|, len);
      if !(len' >= LEN_LIMIT || (len' >= 0x100_0000_0000_0000 && |d| > 1)) {
        LongLengthReads(t, x, used + 1, len');
      }
    }
  }

  lemma LongDone(b: Bytes, used: nat, len: nat)
    requires len < LEN_LIMIT
    ensures FetchLongLength(b, used, 0, len) == if len <= MAX_LENGTH then Got(used, len) else Bad
  {}

  lemma LongStep(b: Bytes, used: nat, octets: nat, len: nat)
    requires len < LEN_LIMIT && octets > 0 && b != []
    ensures var len' := len * 256 + b[0];
            FetchLongLength(b, used, octets, len) ==
              if len' >= LEN_LIMIT || (len' >= 0x100_0000_0000_0000 && octets > 1) then Bad
              else FetchLongLength(b[1..], used + 1, octets - 1, len')
  {}

  lemma Grouped(len: nat, h: nat, p: nat, u: nat)
    ensures len * (256 * p) + (h * p + u) == (len * 256 + h) * p + u
  {}

  lemma TooLarge(len: nat, k: nat, u: nat)
    ensures len >= LEN_LIMIT ==> len * Pow256(k) + u > MAX_LENGTH
    ensures len >= 0x100_0000_0000_0000 && k >= 1 ==> len * Pow256(k) + u > MAX_LENGTH
  {
    hide Pow256;
    PowMonotone(0, k);
    NoneIsZero([]);
    ProductGrows(Pow256(k), 1, len);
    if k >= 1 {
      PowMonotone(1, k);
      PowSnoc(0);
      ProductGrows(Pow256(k), 256, len);
    }
  }

  lemma ProductGrows(x: int, y: int, p: nat)
    requires x >= y
    ensures p * x >= p * y
  {}

  lemma LongForm(constructed: bool, first: Byte, rest: Bytes)
    requires 128 <= first < 255 && !(constructed && first == 128)
    ensures FetchLength(constructed, [first] + rest) == FetchLongLength(rest, 1, first - 128, 0)
  {
    hide FetchLongLength;
    assert ([first] + rest)[1..] == rest;
  }

  /** The long form of a length, with any number of octets. */
  lemma LongLengthMeans(constructed: bool, d: Bytes, x: Bytes)
    requires |d| <= 126 && (d == [] ==> !constructed)
    ensures FetchLength(constructed, [128 + |d|] + (d + x)) ==
            if Unsigned(d) <= MAX_LENGTH then Got(1 + |d|, Unsigned(d)) else Bad
  {
    hide Unsigned, FetchLongLength, FetchLength, Spelt;
    LongForm(constructed, 128 + |d|, d + x);
    LongLengthReads(d, x, 1, 0);
    SpeltFresh(d);
  }

  /** All other first octets: the short form, the indefinite form, the reserved value. */
  lemma OtherLengthMeans(constructed: bool, first: Byte, x: Bytes)
    ensures first < 128 ==> FetchLength(constructed, [first] + x) == Got(1, first)
    ensures constructed && first == 0x80 ==> FetchLength(constructed, [first] + x) == Got(1, INDEFINITE)
    ensures first == 0xff ==> FetchLength(constructed, [first] + x) == Bad
    ensures FetchLength(constructed, []) == More
  {}

  // ----- tags

  /** The number that groups of seven bits spell. */
  function Base128(g: Bytes): (n: nat) {
    if g == [] then 0 else Base128(g[..|g| - 1]) * 128 + g[|g| - 1] % 128
  }

  function Pow128(k: nat): (p: nat)
    ensures p >= 1
  {
    if k == 0 then 1 else 128 * Pow128(k - 1)
  }

  lemma Base128Last(g: Bytes)
    requires g != []
    ensures Base128(g) == Base128(g[..|g| - 1]) * 128 + g[|g| - 1] % 128
    ensures Base128([]) == 0 && Pow128(0) == 1
  {}

  lemma Scale128(x: nat, p: nat, u: nat, z: nat)
    ensures (x * p + u) * 128 + z == x * (128 * p) + (u * 128 + z)
  {}

  lemma {:induction false} Base128Head(g: Bytes)
    requires g != []
    ensures Base128(g) == g[0] % 128 * Pow128(|g| - 1) + Base128(g[1..])
    decreases |g|
  {
    hide Base128, Pow128;
    var n := |g| - 1;
    Base128Last(g);
    if n == 0 {
      assert g[..0] == [] && g[1..] == [];
    } else {
      var h, t := g[..n], g[1..];
      Base128Head(h);
      Base128Last(t);
      assert h[1..] == t[..n - 1] && t[n - 1] == g[n] && h[0] == g[0];
      Pow128Step(n - 1);
      Scale128(g[0] % 128, Pow128(n - 1), Base128(h[1..]), g[n] % 128);
    }
  }

  /** Octets with the continuation bit. */
  predicate Continued(g: Bytes) {
    forall i :: 0 <= i < |g| ==> g[i] >= 128
  }

  function SpeltTag(acc: nat, g: Bytes): (n: nat) {
    Scaled(acc, Pow128(|g|));
    acc * Pow128(|g|) + Base128(g)
  }

  lemma SpeltTagNothing(acc: nat)
    ensures SpeltTag(acc, []) == acc
  {}

  lemma SpeltTagFresh(g: Bytes)
    ensures SpeltTag(0, g) == Base128(g)
  {}

  lemma SpeltTagHead(acc: nat, g: Bytes)
    requires g != [] && g[0] >= 128
    ensures SpeltTag(acc, g) == SpeltTag(acc * 128 + (g[0] - 128), g[1..]) >= acc * 128 + (g[0] - 128)
  {
    hide Base128, Pow128;
    var t := g[1..];
    Base128Head(g);
    Pow128Step(|t|);
    Grouped128(acc, g[0] - 128, Pow128(|t|), Base128(t));
    ProductGrows(Pow128(|t|), 1, acc * 128 + (g[0] - 128));
  }

  lemma {:induction false} LongTagReads(g: Bytes, last: Byte, x: Bytes, used: nat, acc: nat, cls: nat)
    requires Continued(g) && last < 128 && acc < 0x80_0000 && cls < 4
    ensures var n := SpeltTag(acc, g);
            FetchLongTag(g + ([last] + x), used, acc, cls) ==
            if n < 0x80_0000 then Got(used + |g| + 1, (n * 128 + last) * 4 + cls) else Bad
    decreases |g|
  {
    hide SpeltTag, FetchLongTag;
    var y: Bytes := [last] + x;
    if g == [] {
      assert g + y == y;
      SpeltTagNothing(acc);
      TagDone(y, used, acc, cls);
    } else {
      var t, acc' := g[1..], acc * 128 + (g[0] - 128);
      assert (g + y)[1..] == t + y && (g + y)[0] == g[0];
      SpeltTagHead(acc, g);
      TagStep(g + y, used, acc, cls);
      if acc' < 0x80_0000 {
        LongTagReads(t, last, x, used + 1, acc', cls);
      }
    }
  }

  lemma TagDone(b: Bytes, used: nat, acc: nat, cls: nat)
    requires acc < 0x80_0000 && cls < 4 && b != [] && b[0] < 128
    ensures FetchLongTag(b, used, acc, cls) == Got(used + 1, (acc * 128 + b[0]) * 4 + cls)
  {}

  lemma Pow128Step(k: nat)
    ensures Pow128(k + 1) == 128 * Pow128(k) && Pow128(k) >= 1
  {}

  lemma Grouped128(acc: nat, h: nat, p: nat, u: nat)
    ensures acc * (128 * p) + (h * p + u) == (acc * 128 + h) * p + u
  {}

  lemma TagStep(b: Bytes, used: nat, acc: nat, cls: nat)
    requires acc < 0x80_0000 && cls < 4 && b != [] && b[0] >= 128
    ensures var acc' := acc * 128 + (b[0] - 128);
            FetchLongTag(b, used, acc, cls) == if acc' >= 0x80_0000 then Bad else FetchLongTag(b[1..], used + 1, acc', cls)
  {}

  /** A tag in the long form, with any number of groups: its class and the number they spell, refused
      exactly when the number does not fit the 30 bits there are. */
  lemma LongTagMeans(first: Byte, g: Bytes, last: Byte, x: Bytes)
    requires first % 32 == 31 && Continued(g) && last < 128
    ensures var n := Base128(g) * 128 + last;
            FetchTag([first] + (g + ([last] + x))) ==
            if n < 0x4000_0000 then Got(2 + |g|, n * 4 + first / 64) else Bad
  {
    hide Base128, FetchLongTag, SpeltTag;
    LongTagReads(g, last, x, 1, 0, first / 64);
    SpeltTagFresh(g);
    assert ([first] + (g + ([last] + x)))[1..] == g + ([last] + x);
  }

  lemma ShortTagMeans(first: Byte, x: Bytes)
    requires first % 32 != 31
    ensures FetchTag([first] + x) == Got(1, first % 32 * 4 + first / 64)
    ensures FetchTag([]) == More
  {}

  // ----- the encoder's tags and lengths are the shortest

  lemma {:induction false} BigEndianSize(n: nat)
    ensures var k := |BigEndian(n)|; k == 1 || n >= Pow256(k - 1)
    decreases n
  {
    if n >= 256 {
      BigEndianSize(n / 256);
      var k := |BigEndian(n / 256)|;
      if k > 1 {
        PowSnoc(k - 2);
        assert n >= 256 * (n / 256);
      }
    }
  }

  /** Section 10.1 of X.690: no other octets that read as this length are fewer. */
  lemma ShortestLength(constructed: bool, n: nat, e: Bytes)
    requires n <= MAX_LENGTH && FetchLength(constructed, e) == Got(|e|, n)
    ensures |SerializeLength(n)| <= |e|
  {
    if n > 127 {
      SerializedLength(n);
      var d := e[1..];
      LongFormOnly(constructed, n, e);
      hide FetchLength, SerializeLength, BigEndian, Unsigned, Pow256;
      assert e == [128 + |d|] + (d + []);
      LongLengthMeans(constructed, d, []);
      UnsignedRange(d);
      BigEndianSize(n);
      if |d| < |BigEndian(n)| {
        PowMonotone(|d|, |BigEndian(n)| - 1);
      }
    }
  }

  lemma LongFormOnly(constructed: bool, n: nat, e: Bytes)
    requires 127 < n && FetchLength(constructed, e) == Got(|e|, n)
    ensures |e| >= 2 && 128 < e[0] < 255 && e[0] - 128 == |e| - 1
  {
    if e[0] >= 128 {
      LongUsed(e[1..], 1, e[0] - 128, 0);
    }
  }

  lemma {:induction false} LongUsed(b: Bytes, used: nat, octets: nat, len: nat)
    requires len < LEN_LIMIT
    ensures FetchLongLength(b, used, octets, len).Got? ==> FetchLongLength(b, used, octets, len).used == used + octets
    decreases octets
  {
    if octets > 0 && b != [] && len * 256 + b[0] < LEN_LIMIT {
      LongUsed(b[1..], used + 1, octets - 1, len * 256 + b[0]);
    }
  }

  lemma {:induction false} Base128Range(g: Bytes)
    ensures Base128(g) < Pow128(|g|)
  {
    if g != [] {
      Base128Range(g[..|g| - 1]);
    }
  }

  lemma {:induction false} GroupsSize(v: nat)
    ensures var k := |HighGroups(v)|; k == 0 || v >= Pow128(k - 1)
    decreases v
  {
    if v > 0 {
      GroupsSize(v / 128);
      var k := |HighGroups(v / 128)|;
      if k > 0 {
        Pow128Step(k - 1);
        assert v >= 128 * (v / 128);
      }
    }
  }

  lemma {:induction false} Pow128Monotone(i: nat, j: nat)
    requires i <= j
    ensures Pow128(i) <= Pow128(j)
    decreases j
  {
    if i < j {
      Pow128Monotone(i, j - 1);
    }
  }

  /** A tag in the long form that uses all its octets is groups and a last octet. */
  lemma {:induction false} LongTagShape(b: Bytes, used: nat, acc: nat, cls: nat)
    requires acc < 0x80_0000 && cls < 4
    requires FetchLongTag(b, used, acc, cls).Got? && FetchLongTag(b, used, acc, cls).used == used + |b|
    ensures b != [] && Continued(b[..|b| - 1]) && b[|b| - 1] < 128
    decreases |b|
  {
    if b[0] >= 128 {
      var t := b[1..];
      LongTagShape(t, used + 1, acc * 128 + (b[0] - 128), cls);
      assert b[..|b| - 1] == [b[0]] + t[..|t| - 1];
    }
  }

  /** Section 8.1.2 of X.690: no other octets that read as this tag are fewer. */
  lemma ShortestTag(tag: Tag, e: Bytes)
    requires FetchTag(e) == Got(|e|, tag)
    ensures |SerializeTag(tag)| <= |e|
  {
    SerializedTag(tag);
    var n := TagNumber(tag);
    if n > 30 {
      LongTagOnly(tag, e);
      var b := e[1..];
      var g, last := b[..|b| - 1], b[|b| - 1];
      hide FetchTag, SerializeTag, HighGroups, Base128, Pow128;
      assert e == [e[0]] + (g + ([last] + []));
      LongTagMeans(e[0], g, last, []);
      HighPart(tag, Base128(g), last, e[0]);
      Base128Range(g);
      GroupsSize(n / 128);
      if |g| < |HighGroups(n / 128)| {
        Pow128Monotone(|g|, |HighGroups(n / 128)| - 1);
      }
    }
  }

  lemma HighPart(tag: Tag, v: nat, last: Byte, first: Byte)
    requires last < 128 && (v * 128 + last) * 4 + first / 64 == tag
    ensures TagNumber(tag) / 128 == v
  {}

  lemma LongTagOnly(tag: Tag, e: Bytes)
    requires FetchTag(e) == Got(|e|, tag) && TagNumber(tag) > 30
    ensures |e| >= 2 && e[0] % 32 == 31 && Continued(e[1..][..|e| - 2]) && e[|e| - 1] < 128
  {
    if e[0] % 32 == 31 {
      LongTagShape(e[1..], 1, 0, e[0] / 64);
    }
  }
}
