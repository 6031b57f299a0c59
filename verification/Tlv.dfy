/** Tags and lengths of BER TLVs: src/rspro/ber_tlv_tag.c and src/rspro/ber_tlv_length.c.

    `FetchTag` and `FetchLength` give the three verdicts of the C code (more data wanted,
    malformed, so many octets used); `SerializeTag` and `SerializeLength` give the DER octets.
    The loops of the source are the methods at the end, proved equal to these functions. */
module Tlv {
  type Byte = x: int | 0 <= x < 256
  type Bytes = seq<Byte>

  /** `ber_tlv_tag_t`: 32 bits, the tag class in the two low bits and the number above them. */
  type Tag = x: int | 0 <= x < 0x1_0000_0000

  /** `ber_tlv_len_t` is a 64-bit ssize_t; lengths within 1024 of its maximum are refused. */
  const LEN_LIMIT: int := 0x8000_0000_0000_0000
  const MAX_LENGTH: int := LEN_LIMIT - 1025

  const INDEFINITE: int := -1

  function TagClass(tag: Tag): (c: int)
    ensures 0 <= c < 4
  {
    tag % 4
  }

  function TagNumber(tag: Tag): (n: int)
    ensures 0 <= n < 0x4000_0000
  {
    tag / 4
  }

  /** The C convention 0 / -1 / >0 of the fetching functions. */
  datatype Fetch = More | Bad | Got(used: nat, value: int)

  /** The 0x20 bit of the identifier octet. */
  predicate Constructed(first: Byte) {
    (first / 32) % 2 == 1
  }

  function SetConstructed(first: Byte): (b: Byte)
    ensures Constructed(b)
  {
    if Constructed(first) then first else first + 32
  }

  // ----- tags

  /** Base-128 groups of `v`, most significant first, all with the continuation bit. */
  function HighGroups(v: nat): (b: Bytes) {
    if v == 0 then [] else HighGroups(v / 128) + [128 + v % 128]
  }

  function SerializeTag(tag: Tag): (b: Bytes)
    ensures |b| >= 1
    ensures !Constructed(b[0])
  {
    var c, n := TagClass(tag), TagNumber(tag);
    if n <= 30 then [c * 64 + n]
    else [c * 64 + 31] + HighGroups(n / 128) + [n % 128]
  }

  /** The octets `b` follow `used` octets already read. */
  function FetchLongTag(b: Bytes, used: nat, acc: nat, cls: nat): (r: Fetch)
    requires acc < 0x80_0000 && cls < 4
    ensures r.Got? ==> used < r.used <= used + |b| && 0 <= r.value < 0x1_0000_0000
    decreases |b|
  {
    if b == [] then More
    else if b[0] >= 128 then
      var acc' := acc * 128 + (b[0] - 128);
      if acc' >= 0x80_0000 then Bad else FetchLongTag(b[1..], used + 1, acc', cls)
    else Got(used + 1, (acc * 128 + b[0]) * 4 + cls)
  }

  /** `ber_fetch_tag`; the constructed bit of the first octet is ignored. */
  function FetchTag(b: Bytes): (r: Fetch)
    ensures r.Got? ==> 0 < r.used <= |b| && 0 <= r.value < 0x1_0000_0000
  {
    if b == [] then More
    else if b[0] % 32 != 31 then Got(1, (b[0] % 32) * 4 + b[0] / 64)
    else FetchLongTag(b[1..], 1, 0, b[0] / 64)
  }

  lemma {:induction false} LongTagStable(b: Bytes, x: Bytes, used: nat, acc: nat, cls: nat)
    requires acc < 0x80_0000 && cls < 4
    requires FetchLongTag(b, used, acc, cls) != More
    ensures FetchLongTag(b + x, used, acc, cls) == FetchLongTag(b, used, acc, cls)
    decreases |b|
  {
    if b[0] >= 128 && acc * 128 + (b[0] - 128) < 0x80_0000 {
      LongTagStable(b[1..], x, used + 1, acc * 128 + (b[0] - 128), cls);
      assert (b + x)[1..] == b[1..] + x;
    }
  }

  /** A verdict on a prefix never changes when octets are appended. */
  lemma FetchTagStable(b: Bytes, x: Bytes)
    requires FetchTag(b) != More
    ensures FetchTag(b + x) == FetchTag(b)
  {
    if b[0] % 32 == 31 {
      LongTagStable(b[1..], x, 1, 0, b[0] / 64);
      assert (b + x)[1..] == b[1..] + x;
    }
  }

  lemma {:induction false} LongTagGroups(v: nat, x: Bytes, used: nat, cls: nat)
    requires v < 0x80_0000 && cls < 4
    ensures FetchLongTag(HighGroups(v) + x, used, 0, cls)
         == FetchLongTag(x, used + |HighGroups(v)|, v, cls)
    decreases v
  {
    if v == 0 {
      assert HighGroups(v) + x == x;
    } else {
      var y: Bytes := [128 + v % 128] + x;
      LongTagGroups(v / 128, y, used, cls);
      assert HighGroups(v) + x == HighGroups(v / 128) + y;
      assert y[1..] == x;
    }
  }

  lemma LongTagRoundTrip(first: Byte, n: nat, x: Bytes)
    requires first % 32 == 31 && n < 0x4000_0000
    ensures FetchTag([first] + (HighGroups(n / 128) + ([n % 128] + x)))
         == Got(2 + |HighGroups(n / 128)|, n * 4 + first / 64)
  {
    var y: Bytes := [n % 128] + x;
    var w := HighGroups(n / 128) + y;
    LongTagGroups(n / 128, y, 1, first / 64);
    assert ([first] + w)[1..] == w;
  }

  /** Fetching inverts serialisation, with or without the constructed bit, whatever follows. */
  lemma FetchTagRoundTrip(tag: Tag, constructed: bool, x: Bytes)
    ensures FetchTag(Identifier(tag, constructed) + x) == Got(|Identifier(tag, constructed)|, tag)
  {
    hide FetchTag, FetchLongTag, Identifier, HighGroups, TagClass, TagNumber;
    var n, t := TagNumber(tag), Identifier(tag, constructed);
    IdentifierFirst(tag, constructed);
    TagParts(tag);
    if n > 30 {
      LongTagRoundTrip(t[0], n, x);
      FirstAndRest(t, HighGroups(n / 128), n % 128, x);
    } else {
      ShortTagRoundTrip(t[0], t + x);
    }
  }

  lemma FirstAndRest(t: Bytes, h: Bytes, m: Byte, x: Bytes)
    requires t != [] && t[1..] == h + [m]
    ensures t + x == [t[0]] + (h + ([m] + x)) && |t| == 2 + |h|
  {
    assert t == [t[0]] + t[1..];
  }

  lemma TagParts(tag: Tag)
    ensures TagNumber(tag) * 4 + TagClass(tag) == tag && TagNumber(tag) < 0x4000_0000
  {}

  lemma ShortTagRoundTrip(first: Byte, b: Bytes)
    requires first % 32 != 31 && b != [] && b[0] == first
    ensures FetchTag(b) == Got(1, first % 32 * 4 + first / 64)
  {}

  /** The identifier octets `der_write_TL` emits: the tag, with 0x20 set for constructed. */
  function Identifier(tag: Tag, constructed: bool): (b: Bytes)
    ensures |b| == |SerializeTag(tag)| >= 1
    ensures Constructed(b[0]) == constructed
  {
    var s := SerializeTag(tag);
    if constructed then [SetConstructed(s[0])] + s[1..] else s
  }

  lemma IdentifierFirst(tag: Tag, constructed: bool)
    ensures var t, n := Identifier(tag, constructed), TagNumber(tag);
            && t[0] / 64 == TagClass(tag)
            && t[0] % 32 == (if n <= 30 then n else 31)
            && t[1..] == (if n <= 30 then [] else HighGroups(n / 128) + [n % 128])
  {
    var s := SerializeTag(tag);
    if TagNumber(tag) > 30 {
      assert s[1..] == HighGroups(TagNumber(tag) / 128) + [TagNumber(tag) % 128];
    }
  }

  // ----- lengths

  /** Big-endian base-256 digits, at least one. */
  function BigEndian(n: nat): (b: Bytes)
    ensures |b| >= 1
  {
    if n < 256 then [n] else BigEndian(n / 256) + [n % 256]
  }

  /** From LEN_LIMIT on, the signed length is negative and takes the short form. */
  function SerializeLength(n: nat): (b: Bytes)
    ensures |b| >= 1
  {
    if n <= 127 || n >= LEN_LIMIT then [n % 256]
    else EightDigits(n); [128 + |BigEndian(n)|] + BigEndian(n)
  }

  function FetchLongLength(b: Bytes, used: nat, octets: nat, len: nat): (r: Fetch)
    requires len < LEN_LIMIT
    ensures r.Got? ==> used <= r.used <= used + |b| && 0 <= r.value <= MAX_LENGTH
    decreases octets
  {
    if octets == 0 then (if len > MAX_LENGTH then Bad else Got(used, len))
    else if b == [] then More
    else
      var len' := len * 256 + b[0];
      if len' >= LEN_LIMIT || (len' >= 0x100_0000_0000_0000 && octets > 1) then Bad
      else FetchLongLength(b[1..], used + 1, octets - 1, len')
  }

  /** `ber_fetch_length`. As in the source, a primitive 0x80 reads as length zero. */
  function FetchLength(constructed: bool, b: Bytes): (r: Fetch)
    ensures r.Got? ==> 0 < r.used <= |b|
    ensures r.Got? ==> r.value == INDEFINITE || 0 <= r.value <= MAX_LENGTH
    ensures r.Got? && r.value == INDEFINITE ==> r.used == 1 && b[0] == 0x80 && constructed
  {
    if b == [] then More
    else if b[0] < 128 then Got(1, b[0])
    else if constructed && b[0] == 0x80 then Got(1, INDEFINITE)
    else if b[0] == 0xff then Bad
    else FetchLongLength(b[1..], 1, b[0] - 128, 0)
  }

  lemma {:induction false} LongLengthStable(b: Bytes, x: Bytes, used: nat, octets: nat, len: nat)
    requires len < LEN_LIMIT
    requires FetchLongLength(b, used, octets, len) != More
    ensures FetchLongLength(b + x, used, octets, len) == FetchLongLength(b, used, octets, len)
    decreases octets
  {
    if octets != 0 {
      var len' := len * 256 + b[0];
      if !(len' >= LEN_LIMIT || (len' >= 0x100_0000_0000_0000 && octets > 1)) {
        LongLengthStable(b[1..], x, used + 1, octets - 1, len');
        assert (b + x)[1..] == b[1..] + x;
      }
    }
  }

  lemma FetchLengthStable(constructed: bool, b: Bytes, x: Bytes)
    requires FetchLength(constructed, b) != More
    ensures FetchLength(constructed, b + x) == FetchLength(constructed, b)
  {
    if b[0] >= 128 && b[0] != 0xff && !(constructed && b[0] == 0x80) {
      LongLengthStable(b[1..], x, 1, b[0] - 128, 0);
      assert (b + x)[1..] == b[1..] + x;
    }
  }

  function Pow256(k: nat): (p: nat)
    ensures p >= 1
  {
    if k == 0 then 1 else 256 * Pow256(k - 1)
  }

  lemma {:induction false} BigEndianSize(n: nat, k: nat)
    requires k >= 1 && n < Pow256(k)
    ensures |BigEndian(n)| <= k
  {
    if n >= 256 {
      assert Pow256(k) == 256 * Pow256(k - 1);
      if k > 1 {
        BigEndianSize(n / 256, k - 1);
      }
    }
  }

  lemma {:induction false} BigEndianBound(n: nat, k: nat)
    requires |BigEndian(n)| <= k
    ensures n < Pow256(k)
  {
    if n >= 256 {
      BigEndianBound(n / 256, k - 1);
    }
  }

  lemma EightDigits(n: nat)
    requires n < LEN_LIMIT
    ensures |BigEndian(n)| <= 8
  {
    BigEndianSize(n, 8);
  }

  lemma SevenDigits(v: nat, extra: nat)
    requires |BigEndian(v)| + extra <= 8
    ensures extra > 0 ==> v < 0x100_0000_0000_0000
  {
    if extra > 0 {
      BigEndianBound(v, 7);
    }
  }

  lemma LongLengthStep(b: Bytes, k: nat, used: nat, extra: nat, len: nat, v: nat)
    requires k < |b| && v == len * 256 + b[k] && v < LEN_LIMIT
    requires extra > 0 ==> v < 0x100_0000_0000_0000
    ensures FetchLongLength(b[k..], used, extra + 1, len) == FetchLongLength(b[k + 1..], used + 1, extra, v)
  {
    assert b[k..][1..] == b[k + 1..];
  }

  lemma {:induction false} LongLengthDigits(b: Bytes, v: nat, extra: nat, used: nat)
    requires BigEndian(v) <= b
    requires |BigEndian(v)| + extra <= 8
    requires v < LEN_LIMIT
    ensures FetchLongLength(b, used, |BigEndian(v)| + extra, 0)
         == FetchLongLength(b[|BigEndian(v)|..], used + |BigEndian(v)|, extra, v)
    decreases v
  {
    hide FetchLongLength;
    SevenDigits(v, extra);
    var k := |BigEndian(v)| - 1;
    assert b[k] == BigEndian(v)[k] == v % 256;
    if v < 256 {
      LongLengthStep(b, 0, used, extra, 0, v);
      assert b[0..] == b;
    } else {
      LongLengthDigits(b, v / 256, extra + 1, used);
      LongLengthStep(b, k, used + k, extra, v / 256, v);
    }
  }

  lemma FetchLengthRoundTrip(constructed: bool, n: nat, x: Bytes)
    requires n <= MAX_LENGTH
    ensures FetchLength(constructed, SerializeLength(n) + x) == Got(|SerializeLength(n)|, n)
  {
    if n > 127 {
      EightDigits(n);
      var b := (SerializeLength(n) + x)[1..];
      assert b == BigEndian(n) + x;
      LongLengthDigits(b, n, 0, 1);
    }
  }

  // ----- a proper prefix of an encoding asks for more data

  lemma TagPrefixWantsMore(tag: Tag, constructed: bool, p: Bytes)
    requires p < Identifier(tag, constructed)
    ensures FetchTag(p) == More
  {
    var t := Identifier(tag, constructed);
    FetchTagRoundTrip(tag, constructed, []);
    assert t + [] == t;
    assert p + t[|p|..] == t;
    if FetchTag(p) != More {
      FetchTagStable(p, t[|p|..]);
    }
  }

  lemma LengthPrefixWantsMore(constructed: bool, n: nat, p: Bytes)
    requires n <= MAX_LENGTH
    requires p < SerializeLength(n)
    ensures FetchLength(constructed, p) == More
  {
    var t := SerializeLength(n);
    FetchLengthRoundTrip(constructed, n, []);
    assert t + [] == t;
    assert p + t[|p|..] == t;
    if FetchLength(constructed, p) != More {
      FetchLengthStable(constructed, p, t[|p|..]);
    }
  }

  // ----- the loops of the source

  /** `ber_fetch_tag`. */
  method BerFetchTag(b: Bytes) returns (r: Fetch)
    ensures r == FetchTag(b)
  {
    if |b| == 0 {
      return More;
    }
    var cls := b[0] / 64;
    var val: int := b[0] % 32;
    if val != 31 {
      return Got(1, val * 4 + cls);
    }
    val := 0;
    var skipped := 2;
    while skipped <= |b|
      invariant 2 <= skipped <= |b| + 1
      invariant 0 <= val < 0x80_0000
      invariant FetchTag(b) == FetchLongTag(b[skipped - 1..], skipped - 1, val, cls)
    {
      var oct := b[skipped - 1];
      if oct >= 128 {
        val := val * 128 + oct % 128;
        if val >= 0x80_0000 {
          return Bad;
        }
      } else {
        return Got(skipped, (val * 128 + oct) * 4 + cls);
      }
      skipped := skipped + 1;
    }
    return More;
  }

  /** `ber_fetch_length`. */
  method BerFetchLength(constructed: bool, b: Bytes) returns (r: Fetch)
    ensures r == FetchLength(constructed, b)
  {
    if |b| == 0 {
      return More;
    }
    var oct := b[0];
    if oct < 128 {
      return Got(1, oct);
    }
    if constructed && oct == 0x80 {
      return Got(1, INDEFINITE);
    }
    if oct == 0xff {
      return Bad;
    }
    oct := oct % 128;
    var len, skipped := 0, 1;
    while oct != 0 && skipped < |b|
      invariant 0 <= oct < 128 && 1 <= skipped <= |b|
      invariant 0 <= len < LEN_LIMIT
      invariant FetchLength(constructed, b) == FetchLongLength(b[skipped..], skipped, oct, len)
      decreases oct
    {
      len := len * 256 + b[skipped];
      if len >= LEN_LIMIT || (len / 0x100_0000_0000_0000 != 0 && oct > 1) {
        return Bad;
      }
      skipped, oct := skipped + 1, oct - 1;
    }
    if oct == 0 {
      if len + 1024 >= LEN_LIMIT {
        return Bad;
      }
      return Got(skipped, len);
    }
    return More;
  }

  /** `v >> (7 * k)` and `v >> (8 * k)`. */
  function Shift7(v: nat, k: nat): nat {
    if k == 0 then v else Shift7(v / 128, k - 1)
  }

  function Shift8(v: nat, k: nat): nat {
    if k == 0 then v else Shift8(v / 256, k - 1)
  }

  lemma {:induction false} Shift7Next(v: nat, k: nat)
    ensures Shift7(v, k + 1) == Shift7(v, k) / 128
  {
    if k > 0 { Shift7Next(v / 128, k - 1); }
  }

  lemma {:induction false} Shift8Next(v: nat, k: nat)
    ensures Shift8(v, k + 1) == Shift8(v, k) / 256
  {
    if k > 0 { Shift8Next(v / 256, k - 1); }
  }

  lemma {:induction false} GroupsShift(v: nat, k: nat)
    requires k < |HighGroups(v)|
    ensures HighGroups(v)[|HighGroups(v)| - 1 - k] == 128 + Shift7(v, k) % 128
  {
    if k > 0 { GroupsShift(v / 128, k - 1); }
  }

  lemma {:induction false} DigitsShift(v: nat, k: nat)
    requires k < |BigEndian(v)|
    ensures BigEndian(v)[|BigEndian(v)| - 1 - k] == Shift8(v, k) % 256
  {
    if k > 0 { DigitsShift(v / 256, k - 1); }
  }

  lemma {:induction false} GroupsCount(v: nat, k: nat)
    ensures |HighGroups(v)| <= k <==> Shift7(v, k) == 0
  {
    if k > 0 { GroupsCount(v / 128, k - 1); }
  }

  lemma {:induction false} DigitsCount(v: nat, k: nat)
    requires k >= 1
    ensures |BigEndian(v)| <= k <==> Shift8(v, k) == 0
  {
    if k > 1 { DigitsCount(v / 256, k - 1); }
  }

  lemma SerializedTag(tag: Tag)
    ensures var c, n := TagClass(tag), TagNumber(tag);
            && c * 64 + 31 < 256
            && SerializeTag(tag) == if n <= 30 then [c * 64 + n] else [c * 64 + 31] + HighGroups(n / 128) + [n % 128]
  {}

  /** `ber_tlv_tag_serialize`: the octet count is returned even when `size` is too small. */
  method BerTlvTagSerialize(tag: Tag, buf: array<Byte>, off: nat, size: nat) returns (required: nat)
    requires off + size <= buf.Length
    modifies buf
    ensures required == |SerializeTag(tag)|
    ensures size >= required ==> buf[off..off + required] == SerializeTag(tag)
    ensures forall j :: 0 <= j < buf.Length && !(off <= j < off + size) ==> buf[j] == old(buf[j])
  {
    hide SerializeTag, HighGroups;
    SerializedTag(tag);
    var cls, val := TagClass(tag), TagNumber(tag);
    if val <= 30 {
      if size != 0 {
        buf[off] := cls * 64 + val;
      }
      return 1;
    }
    if size != 0 {
      buf[off] := cls * 64 + 31;
    }
    var v := val / 128;
    var n := 1;   // octets after the first one; the source's shift count is 7 * n
    while n < 5 && Shift7(v, n - 1) != 0
      invariant 1 <= n <= 5
      invariant n == 1 || Shift7(v, n - 2) != 0
    {
      n := n + 1;
    }
    TagOctets(val, n);
    if size < 1 + n {
      return n + 1;
    }
    PutGroups(v, n - 1, buf, off + 1);
    buf[off + n] := val % 128;
    assert buf[off..off + n + 1] == [cls * 64 + 31] + HighGroups(v) + [val % 128];
    return n + 1;
  }

  /** The filling loop: the groups from the highest shift down. */
  method PutGroups(v: nat, n: nat, buf: array<Byte>, off: nat)
    requires n == |HighGroups(v)| && off + n <= buf.Length
    modifies buf
    ensures buf[off..off + n] == HighGroups(v)
    ensures forall j :: 0 <= j < buf.Length && !(off <= j < off + n) ==> buf[j] == old(buf[j])
  {
    var i := n;
    while i > 0
      invariant 0 <= i <= n
      invariant forall j :: 0 <= j < n - i ==> buf[off + j] == HighGroups(v)[j]
      invariant forall j :: 0 <= j < buf.Length && !(off <= j < off + n) ==> buf[j] == old(buf[j])
    {
      GroupsShift(v, i - 1);
      i := i - 1;
      buf[off + n - 1 - i] := 128 + Shift7(v, i) % 128;
    }
  }

  lemma TagOctets(val: nat, n: nat)
    requires val < 0x4000_0000 && 1 <= n <= 5
    requires n == 5 || Shift7(val / 128, n - 1) == 0
    requires n == 1 || Shift7(val / 128, n - 2) != 0
    ensures |HighGroups(val / 128)| == n - 1
  {
    var v := val / 128;
    GroupsCount(v, n - 1);
    if n >= 2 { GroupsCount(v, n - 2); }
    if n == 5 {
      Shift7Next(v, 0); Shift7Next(v, 1); Shift7Next(v, 2); Shift7Next(v, 3);
    }
  }

  lemma SerializedLength(len: nat)
    ensures len <= 127 || len >= LEN_LIMIT ==> SerializeLength(len) == [len % 256]
    ensures 127 < len < LEN_LIMIT ==> |BigEndian(len)| <= 8 && SerializeLength(len) == [128 + |BigEndian(len)|] + BigEndian(len)
  {
    if 127 < len < LEN_LIMIT {
      EightDigits(len);
    }
  }

  /** `der_tlv_length_serialize`. */
  method DerTlvLengthSerialize(len: nat, buf: array<Byte>, off: nat, size: nat) returns (required: nat)
    requires off + size <= buf.Length
    modifies buf
    ensures required == |SerializeLength(len)|
    ensures size >= required ==> buf[off..off + required] == SerializeLength(len)
    ensures forall j :: 0 <= j < buf.Length && !(off <= j < off + size) ==> buf[j] == old(buf[j])
  {
    hide SerializeLength, BigEndian;
    SerializedLength(len);
    if len <= 127 || len >= LEN_LIMIT {   // the signed length would be negative
      if size != 0 {
        buf[off] := len % 256;
      }
      return 1;
    }
    var n := 1;   // the source's shift count is 8 * n
    while n < 8 && Shift8(len, n) != 0
      invariant 1 <= n <= 8
      invariant n == 1 || Shift8(len, n - 1) != 0
    {
      n := n + 1;
    }
    LengthOctets(len, n);
    if size <= n {
      return n + 1;
    }
    buf[off] := 128 + n;
    PutDigits(len, n, buf, off + 1);
    assert buf[off..off + n + 1] == [128 + n] + BigEndian(len);
    return n + 1;
  }

  /** The filling loop: the octets from the highest shift down. */
  method PutDigits(v: nat, n: nat, buf: array<Byte>, off: nat)
    requires n == |BigEndian(v)| && off + n <= buf.Length
    modifies buf
    ensures buf[off..off + n] == BigEndian(v)
    ensures forall j :: 0 <= j < buf.Length && !(off <= j < off + n) ==> buf[j] == old(buf[j])
  {
    var i := n;
    while i > 0
      invariant 0 <= i <= n
      invariant forall j :: 0 <= j < n - i ==> buf[off + j] == BigEndian(v)[j]
      invariant forall j :: 0 <= j < buf.Length && !(off <= j < off + n) ==> buf[j] == old(buf[j])
    {
      DigitsShift(v, i - 1);
      i := i - 1;
      buf[off + n - 1 - i] := Shift8(v, i) % 256;
    }
  }

  lemma LengthOctets(len: nat, n: nat)
    requires len < LEN_LIMIT && 1 <= n <= 8
    requires n == 8 || Shift8(len, n) == 0
    requires n == 1 || Shift8(len, n - 1) != 0
    ensures |BigEndian(len)| == n
  {
    if n == 8 { EightDigits(len); } else { DigitsCount(len, n); }
    if n > 1 { DigitsCount(len, n - 1); }
  }
}
