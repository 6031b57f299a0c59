/** The PER bit sink and bit source of src/rspro/per_support.c: octets filled and read across octet
    boundaries and buffer flushes, and whole numbers wider than 31 bits (section 11.3 of X.691). */
module PerBits {
  import opened Tlv
  import opened Integers
  import opened Bits

  const TMPSPACE: nat := 32

  // ----- putting: arithmetic

  /** The octets that take `v` behind the first `nboff` bits of `first`: the kept high bits with the
      high octet of the shifted value, then its other octets. */
  function Spread(keep: nat, sh: nat, n: nat): (b: seq<int>)
    requires 1 <= n <= 4
    ensures |b| == n
  {
    if n == 1 then [keep + sh]
    else if n == 2 then [keep + sh / 0x100, sh % 0x100]
    else if n == 3 then [keep + sh / 0x1_0000, sh / 0x100 % 0x100, sh % 0x100]
    else [keep + sh / 0x100_0000, sh / 0x1_0000 % 0x100, sh / 0x100 % 0x100, sh % 0x100]
  }

  lemma OctetsUnfold(w: nat, k: nat)
    requires k > 0
    ensures LowOctets(w, k) == LowOctets(w / 256, k - 1) + [w % 256]
  {}

  lemma SpreadTail(keep: nat, sh: nat, n: nat)
    requires 2 <= n <= 4
    ensures Spread(keep, sh, n) == Spread(keep, sh / 256, n - 1) + [sh % 256]
  {}

  lemma WordStep(keep: nat, sh: nat, q: nat)
    ensures (keep * (256 * q) + sh) % 256 == sh % 256 && (keep * (256 * q) + sh) / 256 == keep * q + sh / 256
  {
    assert keep * (256 * q) == 256 * (keep * q);
  }

  lemma DivStep(sh: nat, q: nat)
    requires q >= 1
    ensures sh / (256 * q) == sh / 256 / q
  {
    var a, r := sh / 256 / q, sh / 256 % q;
    Quotient(sh / 256, q);
    var x := 256 * r + sh % 256;
    assert sh == 256 * (a * q + r) + sh % 256;
    assert 256 * (a * q) == a * (256 * q);
    DivModUnique(sh, 256 * q, a, x);
  }

  lemma {:induction false} SpreadIsOctets(keep: nat, sh: nat, n: nat)
    requires 1 <= n <= 4 && keep + sh / Pow256(n - 1) < 256
    ensures Spread(keep, sh, n) == LowOctets(keep * Pow256(n - 1) + sh, n)
    decreases n
  {
    hide LowOctets;
    var w := keep * Pow256(n - 1) + sh;
    OctetsUnfold(w, n);
    if n == 1 {
      NoOctets(w / 256);
    } else {
      hide Spread;
      var q := Pow256(n - 2);
      assert Pow256(n - 1) == 256 * q;
      hide Pow256;
      SpreadTail(keep, sh, n);
      WordStep(keep, sh, q);
      DivStep(sh, q);
      SpreadIsOctets(keep, sh / 256, n - 1);
    }
  }

  lemma NoOctets(w: nat)
    ensures LowOctets(w, 0) == []
  {}

  function Keep(first: Byte, nboff: nat): (k: nat)
    requires nboff < 8
  {
    Shr(first, 8 - nboff) * Pow2(8 - nboff)
  }

  lemma {:induction false} Pow256IsPow2(k: nat)
    ensures Pow256(k) == Pow2(8 * k)
  {
    if k > 0 {
      Pow256IsPow2(k - 1);
      Pow2Sum(8 * (k - 1), 8);
      Pow2Eight();
    }
  }

  /** The high bits of the first octet. */
  lemma HighBits(first: Byte, nboff: nat)
    requires nboff <= 8
    ensures ToBits(first, 8)[..nboff] == ToBits(Shr(first, 8 - nboff), nboff)
  {
    hide ToBits, Pow2;
    MiddleBits(first, 0, nboff, 8 - nboff);
    BitsOfLow(Shr(first, 8 - nboff), nboff);
  }

  lemma ScaledBits(v: nat, i: nat, j: nat)
    ensures ToBits(v * Pow2(j), i + j) == ToBits(v, i) + ToBits(0, j)
  {
    BitsSplit(v, 0, i, j);
  }

  lemma ScaledBound(v: nat, i: nat, j: nat)
    requires v < Pow2(i)
    ensures v * Pow2(j) < Pow2(i + j)
  {
    hide Pow2;
    Pow2Sum(i, j);
    Below(v, Pow2(i), Pow2(j));
  }

  lemma Below(v: nat, p: nat, q: nat)
    requires v < p && q >= 1
    ensures v * q < p * q
  {}

  /** The written octets hold the kept bits followed by the bits put. */
  lemma PutOctets(first: Byte, nboff: nat, v: nat, obits: nat, n: nat)
    requires nboff < 8 && 1 <= n <= 4 && 8 * (n - 1) < nboff + obits <= 8 * n && v < Pow2(obits)
    ensures var sh := v * Pow2(8 * n - nboff - obits);
            var b := Spread(Keep(first, nboff), sh, n);
            && (forall i :: 0 <= i < n ==> 0 <= b[i] < 256)
            && BytesBits(b)[..nboff + obits] == ToBits(first, 8)[..nboff] + ToBits(v, obits)
  {
    hide ToBits, Pow2, Spread, BytesBits, LowOctets;
    var pad := 8 * n - nboff - obits;
    var sh, top := v * Pow2(pad), Shr(first, 8 - nboff);
    ScaledBound(v, obits, pad);
    SplitWord(first, nboff, sh, n);
    SpreadIsOctets(Keep(first, nboff), sh, n);
    InRange(LowOctets(top * Pow2(8 * n - nboff) + sh, n));
    OctetsAsNumber(top * Pow2(8 * n - nboff) + sh, n);
    BitsSplit(top, sh, nboff, 8 * n - nboff);
    ScaledBits(v, obits, pad);
    HighBits(first, nboff);
    FirstTwo(ToBits(top, nboff), ToBits(v, obits), ToBits(0, pad));
  }

  lemma InRange(b: Bytes)
    ensures forall i :: 0 <= i < |b| ==> 0 <= b[i] < 256
  {}

  lemma FirstTwo(a: seq<bool>, b: seq<bool>, c: seq<bool>)
    ensures (a + (b + c))[..|a| + |b|] == a + b
  {}

  lemma SplitWord(first: Byte, nboff: nat, sh: nat, n: nat)
    requires nboff < 8 && 1 <= n <= 4 && sh < Pow2(8 * n - nboff)
    ensures Keep(first, nboff) * Pow256(n - 1) + sh == Shr(first, 8 - nboff) * Pow2(8 * n - nboff) + sh
    ensures Keep(first, nboff) + sh / Pow256(n - 1) < 256
  {
    hide Pow2, Pow256;
    var top, p, q := Shr(first, 8 - nboff), Pow2(8 - nboff), Pow256(n - 1);
    Pow256IsPow2(n - 1);
    Pow2Sum(8 - nboff, 8 * (n - 1));
    Regroup(top, p, q);
    HighOctet(first, p, sh, q, nboff);
  }

  lemma Regroup(a: nat, p: nat, q: nat)
    ensures a * p * q == a * (p * q)
  {}

  lemma HighOctet(first: Byte, p: nat, sh: nat, q: nat, nboff: nat)
    requires p >= 1 && q >= 1 && sh < p * q && nboff <= 8 && p == Pow2(8 - nboff)
    ensures first / p * p + sh / q < 256
  {
    hide Pow2;
    DivBelow(sh, p, q);
    Pow2Sum(nboff, 8 - nboff);
    Pow2Eight();
    MultipleBelow(first, p, Pow2(nboff));
  }

  lemma DivBelow(sh: nat, p: nat, q: nat)
    requires q >= 1 && sh < p * q
    ensures sh / q < p
  {}

  /** The largest multiple of p below 256 leaves room for p - 1. */
  lemma MultipleBelow(first: Byte, p: nat, r: nat)
    requires p >= 1 && r * p == 256
    ensures first / p * p + p <= 256
  {
    Quotient(first, p);
    var a := first / p;
    if a >= r {
      Steps(r, a, p);
    } else {
      Steps(a + 1, r, p);
      assert (a + 1) * p == a * p + p;
    }
  }

  // ----- the bit sink

  /** All bits put so far: those flushed and those in the buffer. */
  function OutBits(flushed: Bytes, tmp: Bytes, pos: nat, nboff: nat): (b: seq<bool>)
    requires 8 * pos + nboff <= 8 * |tmp|
  {
    BytesBits(flushed) + BytesBits(tmp)[..8 * pos + nboff]
  }

  lemma PrefixBits(tmp: Bytes, pos: nat, k: nat)
    requires pos < |tmp| && k <= 8
    ensures BytesBits(tmp)[..8 * pos + k] == BytesBits(tmp[..pos]) + ToBits(tmp[pos], 8)[..k]
  {
    hide ToBits, BytesBits;
    var h, m, t := tmp[..pos], [tmp[pos]], tmp[pos + 1..];
    ThreeParts(tmp, pos);
    BytesBitsConcat(h + m, t);
    BytesBitsConcat(h, m);
    OneByte(tmp[pos]);
    CutInside(BytesBits(h), ToBits(tmp[pos], 8), BytesBits(t), k);
  }

  lemma ThreeParts(tmp: Bytes, pos: nat)
    requires pos < |tmp|
    ensures tmp == tmp[..pos] + [tmp[pos]] + tmp[pos + 1..]
  {}

  lemma CutInside(a: seq<bool>, b: seq<bool>, c: seq<bool>, k: nat)
    requires k <= |b|
    ensures (a + b + c)[..|a| + k] == a + b[..k]
  {}

  lemma WholeBits(tmp: Bytes, pos: nat)
    requires pos <= |tmp|
    ensures BytesBits(tmp)[..8 * pos] == BytesBits(tmp[..pos])
  {
    hide BytesBits;
    assert tmp == tmp[..pos] + tmp[pos..];
    BytesBitsConcat(tmp[..pos], tmp[pos..]);
  }

  /** Flushing the complete octets and moving the partial one to the front loses nothing. */
  lemma FlushKeeps(flushed: Bytes, tmp: Bytes, tmp': Bytes, pos: nat, nboff: nat)
    requires |tmp| == |tmp'| == TMPSPACE && pos <= TMPSPACE && nboff < 8
    requires nboff > 0 ==> pos < TMPSPACE && tmp'[0] == tmp[pos]
    ensures 8 * pos + nboff <= 8 * TMPSPACE
    ensures OutBits(flushed + tmp[..pos], tmp', 0, nboff) == OutBits(flushed, tmp, pos, nboff)
  {
    hide BytesBits, ToBits;
    BytesBitsConcat(flushed, tmp[..pos]);
    if nboff == 0 {
      WholeBits(tmp, pos);
      assert BytesBits(tmp')[..0] == [];
    } else {
      PrefixBits(tmp, pos, nboff);
      PrefixBits(tmp', 0, nboff);
      EmptyFirst(tmp');
      Group(BytesBits(flushed), BytesBits(tmp[..pos]), ToBits(tmp[pos], 8)[..nboff]);
    }
  }

  lemma EmptyFirst(s: Bytes)
    ensures BytesBits(s[..0]) == []
  {}

  /** Storing the octets of a put appends its bits. */
  lemma StoreAppends(flushed: Bytes, tmp: Bytes, tmp': Bytes, pos: nat, nboff: nat, v: nat, obits: nat, n: nat)
    requires |tmp| == |tmp'| == TMPSPACE && pos + n <= TMPSPACE
    requires nboff < 8 && 1 <= n <= 4 && 8 * (n - 1) < nboff + obits <= 8 * n && v < Pow2(obits)
    requires tmp'[..pos] == tmp[..pos]
    requires tmp'[pos..pos + n] == Spread(Keep(tmp[pos], nboff), v * Pow2(8 * n - nboff - obits), n)
    ensures OutBits(flushed, tmp', pos, nboff + obits) == OutBits(flushed, tmp, pos, nboff) + ToBits(v, obits)
  {
    hide BytesBits, ToBits, Pow2, Spread, Keep;
    var b := tmp'[pos..pos + n];
    PutOctets(tmp[pos], nboff, v, obits, n);
    PrefixBits(tmp, pos, nboff);
    assert tmp' == tmp'[..pos] + b + tmp'[pos + n..];
    BytesBitsConcat(tmp'[..pos] + b, tmp'[pos + n..]);
    BytesBitsConcat(tmp'[..pos], b);
    CutInside(BytesBits(tmp[..pos]), BytesBits(b), BytesBits(tmp'[pos + n..]), nboff + obits);
    Nested(BytesBits(flushed), BytesBits(tmp[..pos]), ToBits(tmp[pos], 8)[..nboff], ToBits(v, obits));
  }

  lemma Nested(a: seq<bool>, b: seq<bool>, c: seq<bool>, d: seq<bool>)
    ensures a + (b + (c + d)) == a + (b + c) + d
  {}

  /** Two puts that split a number are one put of it. */
  lemma PutInTwo(v: nat, k: nat, low: nat)
    ensures ToBits(Shr(v, low), k) + ToBits(v, low) == ToBits(v, k + low)
  {
    hide ToBits, Pow2;
    Quotient(v, Pow2(low));
    BitsSplit(Shr(v, low), v % Pow2(low), k, low);
    BitsOfLow(v, low);
  }

  /** `asn_per_outp_t`; `nbits` are the bits from `pos` to the end of the buffer. */
  class BitSink {
    var flushed: Bytes
    const tmp: array<Byte>
    var pos: nat
    var nboff: nat
    var nbits: nat

    ghost predicate Valid()
      reads this
    {
      tmp.Length == TMPSPACE && pos <= TMPSPACE && nbits == 8 * (TMPSPACE - pos) && nboff <= nbits
    }

    ghost function Bits(): (b: seq<bool>)
      requires Valid()
      reads this, tmp
    {
      OutBits(flushed, tmp[..], pos, nboff)
    }

    constructor ()
      ensures Valid() && Bits() == [] && fresh(tmp)
    {
      tmp := new Byte[TMPSPACE];
      flushed, pos, nboff, nbits := [], 0, 0, 8 * TMPSPACE;
    }

    /** The position indicator in normal form, and whole octets flushed when the bits do not fit. */
    method MakeRoom(obits: nat)
      requires Valid() && obits < 32
      modifies this, tmp
      ensures Valid() && nboff < 8 && nboff + obits <= nbits && Bits() == old(Bits())
    {
      hide BytesBits;
      if nboff >= 8 {
        var whole := nboff / 8;
        pos := pos + whole;
        nbits := nbits - 8 * whole;
        nboff := nboff % 8;
      }
      assert Bits() == old(Bits());
      if nboff + obits > nbits {
        ghost var t, f, p := tmp[..], flushed, pos;
        flushed := flushed + tmp[..pos];
        if nboff > 0 {
          tmp[0] := tmp[pos];
        }
        pos := 0;
        nbits := 8 * TMPSPACE;
        FlushKeeps(f, t, tmp[..], p, nboff);
      }
    }

    /** The octets of one put. */
    method Store(sh: nat, n: nat, ghost v: nat, ghost obits: nat)
      requires Valid() && nboff < 8 && 1 <= n <= 4 && pos + n <= TMPSPACE
      requires v < Pow2(obits) && 8 * (n - 1) < nboff + obits <= 8 * n && sh == v * Pow2(8 * n - nboff - obits)
      modifies tmp
      ensures tmp[..pos] == old(tmp[..pos])
      ensures tmp[pos..pos + n] == Spread(Keep(old(tmp[pos]), nboff), sh, n)
    {
      hide Pow2, Keep, Spread, BytesBits, ToBits;
      PutOctets(tmp[pos], nboff, v, obits, n);
      var b := Spread(Keep(tmp[pos], nboff), sh, n);
      var i := 0;
      while i < n
        invariant 0 <= i <= n
        invariant tmp[..pos] == old(tmp[..pos])
        invariant forall k :: 0 <= k < i ==> tmp[pos + k] == b[k]
      {
        tmp[pos + i] := b[i];
        i := i + 1;
      }
      assert tmp[pos..pos + n] == b;
    }

    /** `per_put_few_bits`: the low `obits` bits of `bits` are appended; more than 31 are refused. */
    method PutFew(bits: nat, obits: int) returns (rc: int)
      requires Valid()
      modifies this, tmp
      ensures Valid()
      ensures rc == if obits <= 0 || obits >= 32 then (if obits == 0 then 0 else -1) else 0
      ensures Bits() == old(Bits()) + if 0 < obits < 32 then ToBits(bits, obits) else []
      decreases obits
    {
      hide BytesBits, ToBits, Pow2, Spread, Keep, OutBits;
      if obits <= 0 || obits >= 32 {
        assert Bits() + [] == Bits();
        return if obits == 0 then 0 else -1;
      }
      MakeRoom(obits);
      var v := bits % Pow2(obits);
      Quotient(bits, Pow2(obits));
      BitsOfLow(bits, obits);
      var off := nboff + obits;
      if off <= 31 {
        var n := (off + 7) / 8;
        ghost var t := tmp[..];
        Store(v * Pow2(8 * n - off), n, v, obits);
        StoreAppends(flushed, t, tmp[..], pos, nboff, v, obits, n);
        nboff := off;
        return 0;
      }
      PutInTwo(v, 24, obits - 24);
      ghost var before := Bits();
      var low := obits - 24;
      rc := PutFew(Shr(v, low), 24);
      rc := PutFew(v, low);
      Group(before, ToBits(Shr(v, low), 24), ToBits(v, low));
    }

    /** `per_put_many_bits`: the first `nbits` bits of `src`, 24 at a time. */
    method PutMany(src: Bytes, nbits: nat) returns (rc: int)
      requires Valid() && nbits <= 8 * |src|
      modifies this, tmp
      ensures Valid() && rc == 0
      ensures Bits() == old(Bits()) + BytesBits(src)[..nbits]
    {
      hide BytesBits, ToBits, Pow2, OutBits, Unsigned;
      ghost var before := Bits();
      var i, left := 0, nbits;
      assert before + BytesBits(src)[..0] == before;
      while left >= 24
        invariant Valid() && 0 <= i && 8 * i + left == nbits
        invariant Bits() == before + BytesBits(src)[..8 * i]
        decreases left
      {
        var three := src[i..i + 3];
        ChunkBits(src, i, 24);
        rc := PutFew(Unsigned(three), 24);
        Group(before, BytesBits(src)[..8 * i], ToBits(Unsigned(three), 24));
        i, left := i + 3, left - 24;
      }
      if left > 0 {
        var m := (left + 7) / 8;
        ChunkBits(src, i, left);
        var value := Shr(Unsigned(src[i..i + m]), 8 * m - left);
        rc := PutFew(value, left);
        Group(before, BytesBits(src)[..8 * i], ToBits(value, left));
      }
      return 0;
    }

    /** The last flush: the octets of the whole encoding, the last one filled up with zero bits. */
    method Flush() returns (o: Bytes)
      requires Valid()
      ensures BytesBits(o) == Aligned(Bits(), false)
    {
      hide BytesBits, ToBits, Pow2, OutBits, Keep, Aligned;
      FlushedOctets(flushed, tmp[..], pos, nboff);
      var p := pos + nboff / 8;
      o := flushed + tmp[..p];
      if nboff % 8 != 0 {
        MaskedBits(tmp[p], nboff % 8);
        o := o + [Keep(tmp[p], nboff % 8)];
      } else {
        assert o + [] == o;
      }
    }

    /** `uper_put_constrained_whole_number_u`: the higher portion first, the lower 31 bits last. */
    method PutWhole(v: nat, nbits: nat) returns (rc: int)
      requires Valid()
      modifies this, tmp
      ensures Valid() && rc == 0
      ensures Bits() == old(Bits()) + ToBits(v, nbits)
      decreases nbits
    {
      hide BytesBits, ToBits, Pow2, OutBits;
      ghost var before := Bits();
      NoBits(v);
      if nbits <= 31 {
        rc := PutFew(v, nbits);
      } else {
        PutInTwo(v, nbits - 31, 31);
        rc := PutWhole(Shr(v, 31), nbits - 31);
        rc := PutFew(v, 31);
        Group(before, ToBits(Shr(v, 31), nbits - 31), ToBits(v, 31));
      }
    }
  }

  /** The mask that clears the bits of the last octet that were not put. */
  lemma MaskedBits(x: Byte, k: nat)
    requires k < 8
    ensures 0 <= Keep(x, k) < 256 && ToBits(Keep(x, k), 8) == ToBits(x, 8)[..k] + ToBits(0, 8 - k)
  {
    hide ToBits, Pow2;
    ScaledBits(Shr(x, 8 - k), k, 8 - k);
    HighBits(x, k);
  }

  lemma FlushedOctets(flushed: Bytes, tmp: Bytes, pos: nat, nboff: nat)
    requires 8 * pos + nboff <= 8 * |tmp|
    ensures var p, k := pos + nboff / 8, nboff % 8;
            && (k > 0 ==> p < |tmp| && 0 <= Keep(tmp[p], k) < 256)
            && BytesBits(flushed + tmp[..p] + (if k == 0 then [] else [Keep(tmp[p], k)]))
               == Aligned(OutBits(flushed, tmp, pos, nboff), false)
  {
    hide BytesBits, ToBits, Pow2, Keep, Aligned;
    var p, k := pos + nboff / 8, nboff % 8;
    BytesBitsConcat(flushed, tmp[..p]);
    var bits := OutBits(flushed, tmp, pos, nboff);
    if k == 0 {
      WholePrefix(tmp, p);
      AlignedWhole(bits);
      assert flushed + tmp[..p] + [] == flushed + tmp[..p];
    } else {
      var last := Keep(tmp[p], k);
      MaskedBits(tmp[p], k);
      OneByte(last);
      PrefixBits(tmp, p, k);
      BytesBitsConcat(flushed + tmp[..p], [last]);
      AlignedPart(BytesBits(flushed), BytesBits(tmp[..p]), ToBits(tmp[p], 8)[..k], k);
    }
  }

  lemma WholePrefix(tmp: Bytes, p: nat)
    requires p <= |tmp|
    ensures BytesBits(tmp)[..8 * p] == BytesBits(tmp[..p])
  {
    hide BytesBits;
    BytesBitsConcat(tmp[..p], tmp[p..]);
    assert tmp == tmp[..p] + tmp[p..];
  }

  lemma AlignedPart(a: seq<bool>, b: seq<bool>, c: seq<bool>, k: nat)
    requires |a| % 8 == 0 && |b| % 8 == 0 && |c| == k && 0 < k < 8
    ensures Aligned(a + (b + c), false) == a + b + (c + ToBits(0, 8 - k))
  {
    hide ToBits;
    assert |a + (b + c)| % 8 == k;
    assert a + (b + c) + ToBits(0, 8 - k) == a + b + (c + ToBits(0, 8 - k));
  }

  /** `k` bits of an octet string from octet `i` on, as the number that is put. */
  lemma ChunkBits(src: Bytes, i: nat, k: nat)
    requires 0 < k <= 24 && 8 * i + k <= 8 * |src|
    ensures var m := (k + 7) / 8;
            && i + m <= |src|
            && BytesBits(src)[..8 * i + k] == BytesBits(src)[..8 * i] + ToBits(Shr(Unsigned(src[i..i + m]), 8 * m - k), k)
    ensures k == 24 ==> BytesBits(src)[..8 * (i + 3)] == BytesBits(src)[..8 * i] + ToBits(Unsigned(src[i..i + 3]), 24)
  {
    hide BytesBits, ToBits, Pow2, Unsigned;
    var m := (k + 7) / 8;
    var b, low := src[i..i + m], 8 * m - k;
    assert src == src[..i] + b + src[i + m..];
    BytesBitsConcat(src[..i] + b, src[i + m..]);
    BytesBitsConcat(src[..i], b);
    WholeBits(src, i);
    CutInside(BytesBits(src[..i]), BytesBits(b), BytesBits(src[i + m..]), k);
    FirstBits(b, k);
    PowZero();
  }

  lemma PowZero()
    ensures Pow2(0) == 1
  {}

  lemma FirstBits(b: Bytes, k: nat)
    requires k <= 8 * |b|
    ensures BytesBits(b)[..k] == ToBits(Shr(Unsigned(b), 8 * |b| - k), k)
  {
    hide BytesBits, ToBits, Pow2, Unsigned;
    var low := 8 * |b| - k;
    BytesAsNumber(b);
    MiddleBits(Unsigned(b), 0, k, low);
    BitsOfLow(Shr(Unsigned(b), low), k);
  }

  // ----- the bit source

  /** The bits not read yet. */
  function InBits(data: Bytes, base: nat, nboff: nat, nbits: nat): (b: seq<bool>)
    requires base <= |data| && nboff <= nbits <= 8 * (|data| - base)
  {
    BytesBits(data[base..])[nboff..nbits]
  }

  lemma Normalised(data: Bytes, base: nat, nboff: nat, nbits: nat)
    requires base <= |data| && nboff <= nbits <= 8 * (|data| - base)
    ensures var whole := nboff / 8;
            InBits(data, base + whole, nboff % 8, nbits - 8 * whole) == InBits(data, base, nboff, nbits)
  {
    hide BytesBits;
    var whole := nboff / 8;
    var d := data[base..];
    assert d == d[..whole] + d[whole..];
    assert d[whole..] == data[base + whole..];
    BytesBitsConcat(d[..whole], d[whole..]);
    Shifted(BytesBits(d[..whole]), BytesBits(d[whole..]), nboff % 8, nbits - 8 * whole);
  }

  lemma Shifted(a: seq<bool>, b: seq<bool>, i: nat, j: nat)
    requires i <= j <= |b|
    ensures (a + b)[|a| + i..|a| + j] == b[i..j]
  {}

  /** The value the source computes from the `m` octets that hold the bits. */
  function Extract(s: Bytes, nboff: nat, n: nat): (v: nat)
    requires nboff + n <= 8 * |s|
    ensures v < Pow2(n)
  {
    Quotient(Shr(Unsigned(s), 8 * |s| - nboff - n), Pow2(n));
    Shr(Unsigned(s), 8 * |s| - nboff - n) % Pow2(n)
  }

  lemma GetOctets(data: Bytes, base: nat, nboff: nat, nbits: nat, n: nat, m: nat)
    requires base + m <= |data| && nboff + n <= nbits <= 8 * (|data| - base) && nboff + n <= 8 * m
    ensures var value := Extract(data[base..base + m], nboff, n);
            && value == Number(InBits(data, base, nboff, nbits)[..n])
            && InBits(data, base, nboff, nbits)[n..] == InBits(data, base, nboff + n, nbits)
  {
    hide BytesBits, ToBits, Pow2, Unsigned, Number;
    var s, d, low := data[base..base + m], data[base..], 8 * m - nboff - n;
    assert d == s + d[m..];
    BytesBitsConcat(s, d[m..]);
    BytesAsNumber(s);
    MiddleBits(Unsigned(s), nboff, n, low);
    var value := Shr(Unsigned(s), low) % Pow2(n);
    Quotient(Shr(Unsigned(s), low), Pow2(n));
    NumberOfBits(value, n);
    SmallMod(value, Pow2(n));
    Windows(BytesBits(s), BytesBits(d[m..]), nboff, n, nbits);
  }

  lemma SmallMod(x: nat, p: nat)
    requires x < p
    ensures x % p == x
  {}

  lemma Windows(a: seq<bool>, b: seq<bool>, i: nat, n: nat, j: nat)
    requires i + n <= |a| && i + n <= j <= |a| + |b|
    ensures (a + b)[i..j][..n] == a[i..i + n]
    ensures (a + b)[i..j][n..] == (a + b)[i + n..j]
  {}

  lemma NumberInTwo(b: seq<bool>, k: nat)
    requires k <= |b|
    ensures Number(b) == Number(b[..k]) * Pow2(|b| - k) + Number(b[k..])
    ensures Number(b[k..]) < Pow2(|b| - k)
  {
    hide Pow2, ToBits, Number;
    var h, t := b[..k], b[k..];
    BitsOfNumber(h);
    BitsOfNumber(t);
    BitsOfNumber(b);
    NumberOfBits(Number(t), |t|);
    NumberBelow(t);
    BitsSplit(Number(h), Number(t), k, |t|);
    assert b == h + t;
    NumberOfBits(Number(h) * Pow2(|t|) + Number(t), |b|);
    ScaledBelow(Number(h), k, Number(t), |t|);
    NumberBelow(h);
    SmallMod(Number(h) * Pow2(|t|) + Number(t), Pow2(|b|));
  }

  lemma {:induction false} NumberBelow(b: seq<bool>)
    ensures Number(b) < Pow2(|b|)
  {
    if b != [] {
      NumberBelow(b[..|b| - 1]);
    }
  }

  lemma ScaledBelow(h: nat, i: nat, t: nat, j: nat)
    requires t < Pow2(j)
    ensures h < Pow2(i) ==> h * Pow2(j) + t < Pow2(i + j)
  {
    hide Pow2;
    Pow2Sum(i, j);
    if h < Pow2(i) {
      Steps(h + 1, Pow2(i), Pow2(j));
      assert (h + 1) * Pow2(j) == h * Pow2(j) + Pow2(j);
    }
  }

  /** `asn_per_data_t` without a refill callback. */
  class BitSource {
    const data: Bytes
    var base: nat
    var nboff: nat
    var nbits: nat
    var moved: nat

    ghost predicate Valid()
      reads this
    {
      base <= |data| && nboff <= nbits <= 8 * (|data| - base)
    }

    ghost function Rest(): (b: seq<bool>)
      requires Valid()
      reads this
    {
      InBits(data, base, nboff, nbits)
    }

    constructor (data: Bytes, base: nat, nboff: nat, nbits: nat)
      requires base <= |data| && nboff <= nbits <= 8 * (|data| - base)
      ensures Valid() && Rest() == InBits(data, base, nboff, nbits)
    {
      this.data, this.base, this.nboff, this.nbits, moved := data, base, nboff, nbits, 0;
    }

    /** The position indicator in normal form. */
    method Normalise()
      requires Valid()
      modifies this
      ensures Valid() && nboff < 8 && Rest() == old(Rest()) && moved == old(moved) && nbits - nboff == old(nbits - nboff)
    {
      hide BytesBits, InBits;
      Normalised(data, base, nboff, nbits);
      if nboff >= 8 {
        var whole := nboff / 8;
        base := base + whole;
        nbits := nbits - 8 * whole;
        nboff := nboff % 8;
      }
    }

    /** The bits at the position as a number, from the octets that hold them; where there are more
        than 31 with the offset, from a copy in two parts. */
    method Peek(n: nat) returns (r: nat)
      requires Valid() && nboff < 8 && n <= nbits - nboff && n <= 31
      ensures n <= |Rest()| && r == Number(Rest()[..n])
      decreases n, 0
    {
      hide BytesBits, ToBits, Pow2, Unsigned, Number, InBits, Extract, Shr;
      RestSize(data, base, nboff, nbits);
      var off := nboff + n;
      if off <= 31 {
        var m := (off + 7) / 8;
        GetOctets(data, base, nboff, nbits, n, m);
        return Extract(data[base..base + m], nboff, n);
      }
      var tpd := new BitSource(data, base, nboff, nbits);
      TwoReads(Rest(), n - 24, 24);
      var high := tpd.GetFew(n - 24);
      var low := tpd.GetFew(24);
      Scaled(high, Pow2(24));
      return high * Pow2(24) + low;
    }

    /** `per_get_few_bits`: up to 31 bits as a number, or -1 when there are not so many. */
    method GetFew(n: int) returns (r: int)
      requires Valid()
      modifies this
      ensures Valid()
      ensures r == -1 <==> n < 0 || n > 31 || n > |old(Rest())|
      ensures r == -1 ==> Rest() == old(Rest()) && moved == old(moved)
      ensures r != -1 ==> r == Number(old(Rest())[..n]) && Rest() == old(Rest())[n..] && moved == old(moved) + n
      decreases n, 1
    {
      hide BytesBits, Pow2, Number, InBits;
      RestSize(data, base, nboff, nbits);
      if n < 0 || n > nbits - nboff {
        return -1;
      }
      Normalise();
      if n > 31 {
        return -1;
      }
      r := Peek(n);
      GetRest(data, base, nboff, nbits, n);
      nboff := nboff + n;
      moved := moved + n;
    }

    /** The loop of `per_get_many_bits`: octets with the bits at the left. */
    method GetLeft(n: nat) returns (rc: int, dst: Bytes)
      requires Valid()
      modifies this
      ensures Valid() && rc in {0, -1} && (rc == 0 <==> n <= |old(Rest())|)
      ensures rc == 0 ==> Rest() == old(Rest())[n..] && BytesBits(dst) == Aligned(old(Rest())[..n], false)
    {
      hide BytesBits, ToBits, Pow2, Number, InBits, LowOctets, Aligned;
      ghost var b := Rest();
      var left: nat := n;
      dst := [];
      NoBytes();
      assert b[..0] == [] && b[0..] == b;
      while left >= 24
        invariant Valid() && left <= n && n - left <= |b| && Rest() == b[n - left..] && left % 8 == n % 8
        invariant BytesBits(dst) == b[..n - left]
        decreases left
      {
        var value := GetFew(24);
        if value == -1 {
          return -1, dst;
        }
        NextOctets(b, n - left, 24, 3);
        BytesBitsConcat(dst, LowOctets(value, 3));
        dst := dst + LowOctets(value, 3);
        SamePad(24, left);
        left := left - 24;
      }
      WholeBefore(n, left);
      if left == 0 {
        AlignedWhole(b[..n]);
        return 0, dst;
      }
      var tail: Bytes;
      rc, tail := GetLast(left);
      if rc == 0 {
        AlignedTail(b, n - left, n);
        BytesBitsConcat(dst, tail);
        dst := dst + tail;
      }
    }

    /** The last, short chunk of that loop. */
    method GetLast(n: nat) returns (rc: int, dst: Bytes)
      requires Valid() && 0 < n < 24
      modifies this
      ensures Valid() && rc in {0, -1} && (rc == 0 <==> n <= |old(Rest())|)
      ensures rc == 0 ==> Rest() == old(Rest())[n..] && BytesBits(dst) == Aligned(old(Rest())[..n], false)
    {
      hide BytesBits, ToBits, Pow2, Number, InBits, LowOctets;
      ghost var b := Rest();
      var value := GetFew(n);
      if value == -1 {
        return -1, [];
      }
      var pad := (8 - n % 8) % 8;
      var m := (n + pad) / 8;
      assert b[0..] == b;
      LastOctets(b, 0, n, pad, m);
      Scaled(value, Pow2(pad));
      return 0, LowOctets(value * Pow2(pad), m);
    }

    /** `per_get_many_bits`: zeros fill the last octet, or the first one with `alright`. */
    method GetMany(n: nat, alright: bool) returns (rc: int, dst: Bytes)
      requires Valid()
      modifies this
      ensures Valid() && rc in {0, -1} && (rc == 0 <==> n <= |old(Rest())|)
      ensures rc == 0 ==> Rest() == old(Rest())[n..] && BytesBits(dst) == Aligned(old(Rest())[..n], alright)
    {
      hide BytesBits, ToBits, Pow2, Number, InBits;
      ghost var b := Rest();
      var k := n % 8;
      NoBits(0);
      if !alright || k == 0 {
        rc, dst := GetLeft(n);
        assert rc == 0 ==> b[..n] + [] == [] + b[..n];
        return;
      }
      var value := GetFew(k);
      if value == -1 {
        return -1, [];
      }
      ByteBound(b[..k]);
      SmallByte(b[..k]);
      rc, dst := GetLeft(n - k);
      if rc == 0 {
        BytesBitsConcat([value], dst);
        RightAligned(b, k, n);
        dst := [value] + dst;
      }
    }

    /** `uper_get_constrained_whole_number`: the first 31 bits, then the rest; at most 64 bits. */
    method GetWhole(n: nat) returns (r: int)
      requires Valid()
      modifies this
      ensures Valid()
      ensures r == -1 <==> n > 64 || n > |old(Rest())|
      ensures r != -1 ==> r == Number(old(Rest())[..n]) && Rest() == old(Rest())[n..]
      decreases n
    {
      hide BytesBits, ToBits, Pow2, Unsigned, Number, InBits;
      if n <= 31 {
        r := GetFew(n);
        return;
      }
      if n > 64 {
        return -1;
      }
      ghost var b := Rest();
      var half := GetFew(31);
      if half == -1 {
        return -1;
      }
      var lower := GetWhole(n - 31);
      if lower == -1 {
        return -1;
      }
      TwoReads(b, 31, n - 31);
      return half * Pow2(n - 31) + lower;
    }
  }

  /** Bits with zeros to the next octet boundary, behind them or in front. */
  function Aligned(b: seq<bool>, alright: bool): (r: seq<bool>) {
    var pad := (8 - |b| % 8) % 8;
    if alright then ToBits(0, pad) + b else b + ToBits(0, pad)
  }

  lemma AlignedWhole(b: seq<bool>)
    requires |b| % 8 == 0
    ensures Aligned(b, false) == b
  {}

  lemma AlignedTail(b: seq<bool>, i: nat, n: nat)
    requires i <= n <= |b| && i % 8 == 0
    ensures b[..i] + Aligned(b[i..][..n - i], false) == Aligned(b[..n], false)
    ensures b[i..][n - i..] == b[n..]
  {
    hide ToBits;
    SamePad(i, n);
    Pieces(b, i, n);
    Group(b[..i], b[i..][..n - i], ToBits(0, (8 - n % 8) % 8));
  }

  lemma SamePad(i: nat, n: nat)
    requires i <= n && i % 8 == 0
    ensures (n - i) % 8 == n % 8
  {
    DivModUnique(n - i, 8, n / 8 - i / 8, n % 8);
  }

  lemma Pieces(b: seq<bool>, i: nat, n: nat)
    requires i <= n <= |b|
    ensures b[..i] + b[i..][..n - i] == b[..n] && b[i..][n - i..] == b[n..] && |b[i..][..n - i]| == n - i
  {}

  lemma NoBytes()
    ensures BytesBits([]) == []
  {}

  lemma ByteBound(b: seq<bool>)
    requires |b| <= 8
    ensures Number(b) < 256
  {
    hide Number, Pow2;
    NumberBelow(b);
    Pow2Sum(|b|, 8 - |b|);
    Pow2Eight();
    Steps(1, Pow2(8 - |b|), Pow2(|b|));
  }

  lemma SmallByte(b: seq<bool>)
    requires 0 < |b| < 8 && Number(b) < 256
    ensures BytesBits([Number(b)]) == ToBits(0, 8 - |b|) + b
  {
    hide Number, Pow2, ToBits, BytesBits;
    OneByte(Number(b));
    NumberBelow(b);
    BitsSplit(0, Number(b), 8 - |b|, |b|);
    BitsOfNumber(b);
  }

  lemma NextOctets(b: seq<bool>, i: nat, k: nat, m: nat)
    requires i + k <= |b| && k == 8 * m
    ensures BytesBits(LowOctets(Number(b[i..][..k]), m)) == ToBits(Number(b[i..][..k]), k) == b[i..][..k]
    ensures b[..i] + b[i..][..k] == b[..i + k] && b[i..][k..] == b[i + k..]
  {
    hide Number, Pow2, ToBits, BytesBits, LowOctets;
    OctetsAsNumber(Number(b[i..][..k]), m);
    BitsOfNumber(b[i..][..k]);
  }

  lemma LastOctets(b: seq<bool>, i: nat, k: nat, pad: nat, m: nat)
    requires i + k <= |b| && k + pad == 8 * m
    ensures BytesBits(LowOctets(Number(b[i..][..k]) * Pow2(pad), m)) == b[i..][..k] + ToBits(0, pad)
    ensures b[..i] + b[i..][..k] == b[..i + k] && b[i..][k..] == b[i + k..]
  {
    hide Number, Pow2, ToBits, BytesBits, LowOctets;
    var v := Number(b[i..][..k]);
    OctetsAsNumber(v * Pow2(pad), m);
    ScaledBits(v, k, pad);
    BitsOfNumber(b[i..][..k]);
  }

  lemma WholeBefore(n: nat, left: nat)
    requires left <= n && left % 8 == n % 8
    ensures (n - left) % 8 == 0
  {
    DivModUnique(n - left, 8, n / 8 - left / 8, 0);
  }

  lemma WholeOctetsLeft(n: nat, k: nat)
    requires k == n % 8
    ensures (n - k) % 8 == 0
  {
    DivModUnique(n - k, 8, n / 8, 0);
  }

  lemma AlignedRight(b: seq<bool>, k: nat)
    requires 0 < k == |b| % 8
    ensures Aligned(b, true) == ToBits(0, 8 - k) + b
  {}

  lemma RightAligned(b: seq<bool>, k: nat, n: nat)
    requires 0 < k == n % 8 && n <= |b|
    ensures ToBits(0, 8 - k) + b[..k] + Aligned(b[k..][..n - k], false) == Aligned(b[..n], true)
    ensures b[k..][n - k..] == b[n..]
  {
    hide ToBits, Aligned;
    WholeOctetsLeft(n, k);
    AlignedWhole(b[k..][..n - k]);
    AlignedRight(b[..n], k);
    assert b[..k] + b[k..][..n - k] == b[..n];
    Group(ToBits(0, 8 - k), b[..k], b[k..][..n - k]);
  }

  lemma Scaled(x: nat, p: nat)
    ensures x * p >= 0
  {}

  lemma RestSize(data: Bytes, base: nat, nboff: nat, nbits: nat)
    requires base <= |data| && nboff <= nbits <= 8 * (|data| - base)
    ensures |InBits(data, base, nboff, nbits)| == nbits - nboff
  {}

  lemma GetRest(data: Bytes, base: nat, nboff: nat, nbits: nat, n: nat)
    requires base <= |data| && nboff + n <= nbits <= 8 * (|data| - base)
    ensures |InBits(data, base, nboff, nbits)| >= n
    ensures InBits(data, base, nboff, nbits)[n..] == InBits(data, base, nboff + n, nbits)
  {}

  /** Reading a number in two parts. */
  lemma TwoReads(b: seq<bool>, i: nat, j: nat)
    requires i + j <= |b|
    ensures Number(b[..i + j]) == Number(b[..i]) * Pow2(j) + Number(b[i..][..j])
    ensures b[i..][j..] == b[i + j..]
  {
    hide Pow2, Number;
    NumberInTwo(b[..i + j], i);
    assert b[..i + j][..i] == b[..i] && b[..i + j][i..] == b[i..][..j];
  }

  // ----- any sequence of puts, read back

  datatype Piece = Piece(v: nat, width: nat)

  function PutAll(ps: seq<Piece>): (b: seq<bool>) {
    if ps == [] then [] else ToBits(ps[0].v, ps[0].width) + PutAll(ps[1..])
  }

  lemma PutNext(ps: seq<Piece>, i: nat)
    requires i < |ps|
    ensures PutAll(ps[i..]) == ToBits(ps[i].v, ps[i].width) + PutAll(ps[i + 1..])
  {
    hide ToBits;
    assert ps[i..][1..] == ps[i + 1..];
  }

  lemma PutNone(ps: seq<Piece>)
    ensures PutAll(ps[|ps|..]) == [] && ps[0..] == ps
  {}

  /** All pieces into a sink, one after the other. */
  method PutPieces(sink: BitSink, ps: seq<Piece>)
    requires sink.Valid()
    modifies sink, sink.tmp
    ensures sink.Valid() && sink.Bits() == old(sink.Bits()) + PutAll(ps)
  {
    hide ToBits, PutAll, OutBits;
    ghost var before := sink.Bits();
    PutNone(ps);
    assert before + PutAll(ps) == before + PutAll(ps[0..]);
    var i := 0;
    while i < |ps|
      invariant 0 <= i <= |ps| && sink.Valid()
      invariant sink.Bits() + PutAll(ps[i..]) == before + PutAll(ps)
    {
      PutNext(ps, i);
      Group(sink.Bits(), ToBits(ps[i].v, ps[i].width), PutAll(ps[i + 1..]));
      var rc := sink.PutWhole(ps[i].v, ps[i].width);
      i := i + 1;
    }
    assert sink.Bits() + [] == sink.Bits();
  }

  lemma GetNext(ps: seq<Piece>, i: nat, pad: seq<bool>, rest: seq<bool>)
    requires i < |ps| && rest == PutAll(ps[i..]) + pad
    ensures var w := ps[i].width;
            w <= |rest| && Number(rest[..w]) == ps[i].v % Pow2(w) && rest[w..] == PutAll(ps[i + 1..]) + pad
  {
    hide ToBits, Number, Pow2, PutAll;
    PutNext(ps, i);
    var h, t := ToBits(ps[i].v, ps[i].width), PutAll(ps[i + 1..]);
    assert h + t + pad == h + (t + pad);
    assert (h + (t + pad))[..|h|] == h && (h + (t + pad))[|h|..] == t + pad;
    NumberOfBits(ps[i].v, ps[i].width);
  }

  predicate ReadBack(vs: seq<int>, ps: seq<Piece>) {
    |vs| <= |ps| && forall i :: 0 <= i < |vs| ==> vs[i] == ps[i].v % Pow2(ps[i].width)
  }

  lemma ReadOneMore(vs: seq<int>, ps: seq<Piece>, r: int)
    requires ReadBack(vs, ps) && |vs| < |ps| && r == ps[|vs|].v % Pow2(ps[|vs|].width)
    ensures ReadBack(vs + [r], ps)
  {
    hide Pow2;
  }

  /** Whole numbers of up to 64 bits, put into a sink, flushed, and read from a source of the octets
      that came out: each is read back as the low bits that were put. */
  method Transfer(ps: seq<Piece>) returns (vs: seq<int>)
    requires forall i :: 0 <= i < |ps| ==> ps[i].width <= 64
    ensures |vs| == |ps| && ReadBack(vs, ps)
  {
    hide ToBits, Number, Pow2, PutAll, BytesBits, OutBits, InBits, Aligned, ReadBack;
    var sink := new BitSink();
    PutPieces(sink, ps);
    assert [] + PutAll(ps) == PutAll(ps);
    var o := sink.Flush();
    ghost var pad := PadOf(PutAll(ps));
    AlignedIs(PutAll(ps));
    AllBits(o);
    var source := new BitSource(o, 0, 0, 8 * |o|);
    PutNone(ps);
    vs := [];
    NothingRead(ps);
    var i := 0;
    while i < |ps|
      invariant 0 <= i <= |ps| && |vs| == i && ReadBack(vs, ps) && source.Valid()
      invariant source.Rest() == PutAll(ps[i..]) + pad
    {
      GetNext(ps, i, pad, source.Rest());
      var r := source.GetWhole(ps[i].width);
      ReadOneMore(vs, ps, r);
      vs := vs + [r];
      i := i + 1;
    }
  }

  function PadOf(b: seq<bool>): (pad: seq<bool>) {
    ToBits(0, (8 - |b| % 8) % 8)
  }

  lemma AlignedIs(b: seq<bool>)
    ensures Aligned(b, false) == b + PadOf(b)
  {}

  lemma AllBits(o: Bytes)
    ensures InBits(o, 0, 0, 8 * |o|) == BytesBits(o)
  {
    hide BytesBits;
    assert o[0..] == o;
  }

  lemma NothingRead(ps: seq<Piece>)
    ensures ReadBack([], ps)
  {}
}
