/** The decoders as the source writes them: loops over the cursor, `step` and `left`, and the
    binary search over the tag table, each proved to compute the functions of BerDecoder. */
module DecoderLoops {
  import opened Tlv
  import opened TagChain
  import opened SkipLength
  import opened Integers
  import opened Descriptors
  import opened BerDecoder
  import OctetString

  // ----- the tag table

  predicate TagBefore(x: Tag, y: Tag) {
    TagClass(x) < TagClass(y) || (TagClass(x) == TagClass(y) && TagNumber(x) < TagNumber(y))
  }

  /** `_t2e_cmp` of the key (tag, el) with a row; equal tags and el below the row's count as equal. */
  function Compare(tag: Tag, el: nat, r: Row): (c: int) {
    if tag == r.tag then (if el > r.el then 1 else 0)
    else if TagBefore(tag, r.tag) then -1 else 1
  }

  predicate RowBefore(a: Row, b: Row) {
    TagBefore(a.tag, b.tag) || (a.tag == b.tag && a.el <= b.el)
  }

  /** The rows are sorted, and the offsets in a row span the rows with its tag. */
  predicate ValidRows(rows: seq<Row>, count: nat) {
    && (forall i, j :: 0 <= i < j < |rows| ==> RowBefore(rows[i], rows[j]))
    && (forall i :: 0 <= i < |rows| ==>
          rows[i].el < count && 0 <= i + rows[i].first <= i <= i + rows[i].last < |rows|)
    && (forall i, j :: 0 <= i < |rows| && 0 <= j < |rows| ==>
          (rows[j].tag == rows[i].tag <==> i + rows[i].first <= j <= i + rows[i].last))
  }

  lemma CompareFalls(tag: Tag, el: nat, a: Row, b: Row)
    requires RowBefore(a, b)
    ensures Compare(tag, el, a) >= Compare(tag, el, b)
  {}

  /** `bsearch` with `_t2e_cmp`: a row with this tag for member `el` or a later one. */
  method Bsearch(rows: seq<Row>, count: nat, tag: Tag, el: nat) returns (r: Index)
    requires ValidRows(rows, count)
    ensures r.Here? ==> r.el < |rows| && rows[r.el].tag == tag && rows[r.el].el >= el
    ensures r.Nowhere? ==> forall i :: 0 <= i < |rows| && rows[i].tag == tag ==> rows[i].el < el
  {
    var lo, hi := 0, |rows|;
    while lo < hi
      invariant 0 <= lo <= hi <= |rows|
      invariant forall i :: 0 <= i < lo ==> Compare(tag, el, rows[i]) > 0
      invariant forall i :: hi <= i < |rows| ==> Compare(tag, el, rows[i]) < 0
    {
      var mid := (lo + hi) / 2;
      var c := Compare(tag, el, rows[mid]);
      if c == 0 {
        return Here(mid);
      } else if c < 0 {
        forall i | mid < i < |rows| ensures Compare(tag, el, rows[i]) < 0 {
          CompareFalls(tag, el, rows[mid], rows[i]);
        }
        hi := mid;
      } else {
        forall i | 0 <= i < mid ensures Compare(tag, el, rows[i]) > 0 {
          CompareFalls(tag, el, rows[i], rows[mid]);
        }
        lo := mid + 1;
      }
    }
    return Nowhere;
  }

  lemma LookupStep(rows: seq<Row>, tag: Tag, lo: nat, hi: nat, j: nat)
    requires j < |rows|
    ensures Lookup(rows[..j + 1], tag, lo, hi) ==
            if rows[j].tag == tag && lo <= rows[j].el <= hi then Here(rows[j].el) else Lookup(rows[..j], tag, lo, hi)
  {
    assert rows[..j + 1][..j] == rows[..j];
  }

  lemma {:induction false} LookupStops(rows: seq<Row>, tag: Tag, lo: nat, hi: nat, j: nat, n: nat)
    requires j <= n <= |rows|
    requires forall i :: j <= i < n && rows[i].tag == tag ==> !(lo <= rows[i].el <= hi)
    ensures Lookup(rows[..n], tag, lo, hi) == Lookup(rows[..j], tag, lo, hi)
    decreases n - j
  {
    if j < n {
      LookupStep(rows, tag, lo, hi, n - 1);
      LookupStops(rows, tag, lo, hi, j, n - 1);
    }
  }

  lemma LookupNothing(rows: seq<Row>, tag: Tag, lo: nat, hi: nat, j: nat)
    requires j <= |rows|
    requires forall i :: 0 <= i < j && rows[i].tag == tag ==> !(lo <= rows[i].el <= hi)
    ensures Lookup(rows[..j], tag, lo, hi) == Nowhere
  {}

  lemma LookupAll(rows: seq<Row>, tag: Tag, lo: nat, hi: nat, j: nat)
    requires j <= |rows|
    requires forall i :: j <= i < |rows| && rows[i].tag == tag ==> !(lo <= rows[i].el <= hi)
    ensures Lookup(rows, tag, lo, hi) == Lookup(rows[..j], tag, lo, hi)
  {
    LookupStops(rows, tag, lo, hi, j, |rows|);
    assert rows[..|rows|] == rows;
  }

  lemma SpanOfTagAll(rows: seq<Row>, count: nat, k: nat)
    requires ValidRows(rows, count) && k < |rows|
    ensures 0 <= k + rows[k].first <= k <= k + rows[k].last < |rows|
    ensures forall j :: 0 <= j < |rows| ==> (rows[j].tag == rows[k].tag <==> k + rows[k].first <= j <= k + rows[k].last)
  {}

  lemma LaterRows(rows: seq<Row>, count: nat, tag: Tag, j: nat, hi: nat)
    requires ValidRows(rows, count) && j < |rows| && rows[j].tag == tag && rows[j].el > hi
    ensures forall i :: j <= i < |rows| && rows[i].tag == tag ==> rows[i].el > hi
  {}

  /** The search of the table: `bsearch`, back to the first row of the tag, then the last row not
      beyond `hi`. It finds what the linear definition `Lookup` finds. */
  method SearchTable(rows: seq<Row>, count: nat, tag: Tag, lo: nat, hi: nat) returns (r: Index)
    requires ValidRows(rows, count)
    ensures r == Lookup(rows, tag, lo, hi)
  {
    hide Lookup, ValidRows;
    var k := Bsearch(rows, count, tag, lo);
    if k.Nowhere? {
      LookupNothing(rows, tag, lo, hi, |rows|);
      assert rows[..|rows|] == rows;
      return Nowhere;
    }
    SpanOfTagAll(rows, count, k.el);
    var j, last := k.el + rows[k.el].first, k.el + rows[k.el].last;
    var best := Nowhere;
    LookupNothing(rows, tag, lo, hi, j);
    while j <= last
      invariant k.el + rows[k.el].first <= j <= last + 1
      invariant best == Lookup(rows[..j], tag, lo, hi)
    {
      if rows[j].el > hi {
        LaterRows(rows, count, tag, j, hi);
        break;
      }
      LookupStep(rows, tag, lo, hi, j);
      if rows[j].el >= lo {
        best := Here(rows[j].el);
      }
      j := j + 1;
    }
    LookupAll(rows, tag, lo, hi, j);
    return best;
  }

  /** The search for the member with this tag, from `edx`. */
  method FindByTag(ms: seq<Member>, rows: seq<Row>, edx: nat, tag: Tag) returns (r: Index)
    requires edx < |ms| && ValidRows(rows, |ms|)
    ensures r == Find(ms, rows, edx, tag)
  {
    hide Lookup, ValidRows;
    var search := false;
    var end := edx + ms[edx].optional + 1;
    if end > |ms| {
      end := |ms|;
    } else if end - edx > 8 {
      end, search := edx + 8, true;
    }
    var n := edx;
    ghost var wide := search;
    while n < end
      invariant edx <= n <= end && search == wide
      invariant Linear(ms, tag, edx, end, wide) == Linear(ms, tag, n, end, wide)
    {
      if ms[n].tag == tag {
        return Here(n);
      } else if ms[n].tag == NO_TAG {
        search := true;
        break;
      }
      n := n + 1;
    }
    if search {
      r := SearchTable(rows, |ms|, tag, edx, edx + ms[edx].optional);
    } else {
      r := Nowhere;
    }
  }

  // ----- the decoders

  /** The tables of a descriptor are in order, all the way down. */
  predicate ValidTables(t: Type)
    decreases t
  {
    t.Sequence? || t.Choice? ==>
      && ValidRows(t.rows, |t.members|)
      && forall i :: 0 <= i < |t.members| ==> t.members[i].mode in {-1, 0, 1} && ValidTables(t.members[i].ty)
  }

  lemma MemberTables(t: Type, i: nat)
    requires ValidTables(t) && (t.Sequence? || t.Choice?) && i < |t.members|
    ensures ValidRows(t.rows, |t.members|) && t.members[i].mode in {-1, 0, 1} && ValidTables(t.members[i].ty)
  {}

  method IntegerDecodeBer(tags: seq<Tag>, mode: int, st: St, b: Bytes) returns (d: Dec)
    requires mode in {-1, 0, 1}
    ensures d == DecodeInteger(tags, mode, st, b)
  {
    hide CheckTags, ToLong, FitsLong, Integers.Value;
    var k := BerCheckTags(tags, false, 0, b, mode, 0);
    if k.code != OK { return Dec(k.code, k.consumed, st); }
    if k.length < 0 { return Dec(FAIL, 0, st); }
    if k.length > |b| - k.consumed { return Dec(WMORE, 0, st); }
    var l := IntegerToLong(b[k.consumed..k.consumed + k.length]);
    if l.OutOfRange? { return Dec(FAIL, 0, st); }
    return Dec(OK, k.consumed + k.length, SInt(l.value));
  }

  method BooleanDecodeBer(tags: seq<Tag>, mode: int, st: St, b: Bytes) returns (d: Dec)
    requires mode in {-1, 0, 1}
    ensures d == DecodeBoolean(tags, mode, st, b)
  {
    hide CheckTags;
    var k := BerCheckTags(tags, false, 0, b, mode, 0);
    if k.code != OK { return Dec(k.code, k.consumed, st); }
    if k.length < 0 { return Dec(FAIL, 0, st); }
    if k.length > |b| - k.consumed { return Dec(WMORE, 0, st); }
    var c := b[k.consumed..k.consumed + k.length];
    var x, i := 0, 0;
    while i < |c| && x == 0
      invariant 0 <= i <= |c| && 0 <= x < 256
      invariant FirstTruth(c) == if x != 0 then x else FirstTruth(c[i..])
    {
      x := c[i];
      i := i + 1;
    }
    return Dec(OK, k.consumed + k.length, SBool(x));
  }

  /** Microphase 1 of the SEQUENCE loop. */
  method LocateMember(t: Type, edx: nat, left: int, b: Bytes) returns (r: Loc)
    requires t.Sequence? && edx < |t.members| && ValidRows(t.rows, |t.members|)
    ensures r == Locate(t, edx, left, b)
  {
    hide FetchTag, Find, Skip, Constructed, ValidRows;
    if left == 0 && MayEnd(t, edx) {
      return Loc.End;
    }
    var w := Visible(left, b);
    var f := BerFetchTag(w);
    if f.More? { return Halt(Starved(left, b)); }
    if f.Bad? { return Halt(FAIL); }
    if left < 0 && w[0] == 0 {
      if |w| < 2 {
        return Halt(WMORE);
      } else if w[1] == 0 && MayEnd(t, edx) {
        return Tail;
      }
    }
    var n := FindByTag(t.members, t.rows, edx, f.value);
    if n.Here? {
      return Found(n.el);
    }
    if !InExtension(t, edx + t.members[edx].optional) {
      return Halt(FAIL);
    }
    var skip := BerSkipLength(Constructed(w[0]), w[f.used..]);
    if skip.More? { return Halt(Starved(left, b)); }
    if skip.Bad? { return Halt(FAIL); }
    return Skipped(f.used + skip.used);
  }

  /** Phases 3 and 4 of a SEQUENCE. */
  method SkipToEnd(t: Type, phase0: nat, left0: int, b0: Bytes, used0: nat) returns (r: Ending)
    requires t.Sequence?
    ensures r == SkipTail(t, phase0, left0, b0, used0)
  {
    hide FetchTag, Skip, Constructed, Visible, Less, Starved;
    var phase: nat, left: int, b, used: nat := phase0, left0, b0, used0;
    while left != 0
      invariant SkipTail(t, phase0, left0, b0, used0) == SkipTail(t, phase, left, b, used)
      decreases |b|
    {
      var w := Visible(left, b);
      var f := BerFetchTag(w);
      if f.More? { return Ending(Starved(left, b), used, phase, left); }
      if f.Bad? { return Ending(FAIL, used, phase, left); }
      if left < 0 && w[0] == 0 && |w| < 2 {
        return Ending(WMORE, used, phase, left);
      }
      if left < 0 && w[0] == 0 && w[1] == 0 {
        b, used, left, phase := b[2..], used + 2, left + 1, 4;
      } else {
        if !InExtension(t, |t.members|) || phase == 4 {
          return Ending(FAIL, used, phase, left);
        }
        var skip := BerSkipLength(Constructed(w[0]), w[f.used..]);
        if skip.More? { return Ending(Starved(left, b), used, phase, left); }
        if skip.Bad? { return Ending(FAIL, used, phase, left); }
        var n := f.used + skip.used;
        b, used, left := b[n..], used + n, Less(left, n);
      }
    }
    return Ending(OK, used, 10, 0);
  }

  /** Phase 1 of a SEQUENCE. A found member is remembered in `step` before it is decoded. */
  method DecodeAllMembers(t: Type, edx0: nat, step0: nat, left0: int, fields0: seq<St>, b0: Bytes, used0: nat)
      returns (d: Dec)
    requires t.Sequence? && |fields0| == |t.members| && ValidTables(t)
    ensures d == DecodeMembers(t, edx0, step0, left0, fields0, b0, used0)
    decreases t, 0
  {
    hide DecodeMembers, DecodeOne, Locate, Decode, ValidTables, ValidRows, Visible, Less, Violation, SkipTail;
    var edx: nat, step: nat, used: nat := edx0, step0, used0;
    var left, fields, b := left0, fields0, b0;
    while edx < |t.members|
      invariant |fields| == |t.members|
      invariant DecodeMembers(t, edx0, step0, left0, fields0, b0, used0)
             == DecodeMembers(t, edx, step, left, fields, b, used)
      decreases |b|, Remaining(t, edx), 2 - step % 2
    {
      MemberTables(t, edx);
      MembersStep(t, edx, step, left, fields, b, used);
      if step % 2 == 0 {
        var loc := LocateMember(t, edx, left, b);
        match loc
        case End => return Dec(OK, used, SSeq(Ctx(10, step, left), fields));
        case Halt(code) => return Dec(code, used, SSeq(Ctx(1, step, left), fields));
        case Tail =>
          break;
        case Found(n) =>
          edx, step := n, 1 + 2 * n;
        case Skipped(k) =>
          edx, left, b, used := edx + t.members[edx].optional, Less(left, k), b[k..], used + k;
      } else {
        OneStep(t, edx, step, left, fields, b, used);
        var m := t.members[edx];
        var r := DecodeBer(m.ty, m.mode, fields[edx], Visible(left, b));
        fields := fields[edx := r.st];
        match r.code
        case OK =>
          edx, step, left := edx + 1, step - step % 2 + 2, Less(left, r.consumed);
          b, used := b[r.consumed..], used + r.consumed;
        case WMORE =>
          if Violation(left, b) {
            return Dec(FAIL, used, SSeq(Ctx(1, step, left), fields));
          }
          return Dec(WMORE, used + r.consumed, SSeq(Ctx(1, step, Less(left, r.consumed)), fields));
        case _ =>
          return Dec(r.code, used, SSeq(Ctx(1, step, left), fields));
      }
    }
    if edx >= |t.members| {
      MembersExhausted(t, edx, step, left, fields, b, used);
    }
    var e := SkipToEnd(t, 3, left, b, used);
    return Dec(e.code, e.consumed, SSeq(Ctx(e.phase, step, e.left), fields));
  }

  /** `SEQUENCE_decode_ber` */
  method SequenceDecodeBer(t: Type, mode: int, st: St, b: Bytes) returns (d: Dec)
    requires t.Sequence? && ValidTables(t) && mode in {-1, 0, 1}
    ensures d == DecodeSequence(t, mode, st, b)
    decreases t, 1
  {
    hide CheckTags, DecodeMembers, SkipTail, ValidTables;
    var s := SequenceContext(t, st);
    var c := s.sc;
    if c.phase == 0 {
      var k := BerCheckTags(t.tags, true, c.step, b, mode, 1);
      if k.code != OK {
        return Dec(k.code, k.consumed, SSeq(c.(step := k.step), s.fields));
      }
      d := DecodeAllMembers(t, 0, 0, k.length, s.fields, b[k.consumed..], k.consumed);
    } else if c.phase == 1 {
      d := DecodeAllMembers(t, c.step / 2, c.step, c.left, s.fields, b, 0);
    } else if c.phase == 3 || c.phase == 4 {
      var e := SkipToEnd(t, c.phase, c.left, b, 0);
      d := Dec(e.code, e.consumed, SSeq(Ctx(e.phase, c.step, e.left), s.fields));
    } else {
      d := Dec(OK, 0, s);
    }
  }

  /** The loop over end-of-contents octets in phase 3 of a CHOICE. A turn that changes nothing stands
      for the loop that never ends. */
  method ReadEocs(left0: int, b0: Bytes, used0: nat) returns (r: Ending)
    ensures r == SkipEocs(left0, b0, used0)
  {
    hide FetchTag;
    var left: int, b, used: nat := left0, b0, used0;
    while left < 0
      invariant SkipEocs(left0, b0, used0) == SkipEocs(left, b, used)
      decreases |b|
    {
      var f := BerFetchTag(b);
      if f.More? { return Ending(WMORE, used, 3, left); }
      if f.Bad? || b[0] != 0 { return Ending(FAIL, used, 3, left); }
      if |b| < 2 { return Ending(WMORE, used, 3, left); }
      if b[1] != 0 { return Ending(STUCK, used, 3, left); }
      left, b, used := left + 1, b[2..], used + 2;
    }
    return Ending(OK, used, 4, left);
  }

  method FinishChoiceBer(t: Type, mode: int, left: int, present: nat, member: St, b: Bytes, used: nat) returns (d: Dec)
    requires t.Choice?
    ensures d == FinishChoice(t, mode, left, present, member, b, used)
  {
    hide SkipEocs;
    if left > 0 {
      return Dec(FAIL, used, SCho(Ctx(3, 0, left), present, member));
    }
    if left == -1 && mode == 0 && t.tags == [] {
      return Dec(OK, used, SCho(Ctx(4, 0, left), present, member));
    }
    var r := ReadEocs(left, b, used);
    return Dec(r.code, r.consumed, SCho(Ctx(r.phase, 0, r.left), present, member));
  }

  method DecodeChosenBer(t: Type, mode: int, el: nat, left: int, member: St, b: Bytes, used: nat) returns (d: Dec)
    requires t.Choice? && ValidTables(t)
    ensures d == DecodeChosen(t, mode, el, left, member, b, used)
    decreases t, 0
  {
    hide Decode, ValidTables, FinishChoice, Visible, Less, Violation;
    if el >= |t.members| {
      return Dec(FAIL, used, SCho(Ctx(2, el, left), 0, member));
    }
    MemberTables(t, el);
    var m := t.members[el];
    var r := DecodeBer(m.ty, m.mode, member, Visible(left, b));
    match r.code
    case OK =>
      d := FinishChoiceBer(t, mode, Less(left, r.consumed), el + 1, r.st, b[r.consumed..], used + r.consumed);
    case WMORE =>
      if Violation(left, b) {
        return Dec(FAIL, used, SCho(Ctx(2, el, left), el + 1, r.st));
      }
      return Dec(WMORE, used + r.consumed, SCho(Ctx(2, el, Less(left, r.consumed)), el + 1, r.st));
    case _ =>
      return Dec(r.code, used, SCho(Ctx(2, el, left), el + 1, r.st));
  }

  method ChooseAlternativeBer(t: Type, mode: int, left: int, present: nat, member: St, b: Bytes, used: nat)
      returns (d: Dec)
    requires t.Choice? && ValidTables(t)
    ensures d == ChooseAlternative(t, mode, left, present, member, b, used)
    decreases t, 1
  {
    hide FetchTag, Skip, Constructed, DecodeChosen, Lookup, ValidRows, Visible, Less, Starved;
    var w := Visible(left, b);
    var here := SCho(Ctx(1, 0, left), present, member);
    var f := BerFetchTag(w);
    if f.More? { return Dec(Starved(left, b), used, here); }
    if f.Bad? { return Dec(FAIL, used, here); }
    var n := Nowhere;
    if |t.members| > 0 {
      n := SearchTable(t.rows, |t.members|, f.value, 0, |t.members| - 1);
    }
    if n.Here? {
      d := DecodeChosenBer(t, mode, n.el, left, member, b, used);
      return;
    }
    if t.extStart == -1 { return Dec(FAIL, used, here); }
    var skip := BerSkipLength(Constructed(w[0]), w[f.used..]);
    if skip.More? { return Dec(Starved(left, b), used, here); }
    if skip.Bad? { return Dec(FAIL, used, here); }
    var k := f.used + skip.used;
    return Dec(OK, used + k, SCho(Ctx(1, 0, Less(left, k)), present, member));
  }

  /** `CHOICE_decode_ber` */
  method ChoiceDecodeBer(t: Type, mode: int, st: St, b: Bytes) returns (d: Dec)
    requires t.Choice? && ValidTables(t) && mode in {-1, 0, 1}
    ensures d == DecodeChoice(t, mode, st, b)
    decreases t, 2
  {
    hide CheckTags, ChooseAlternative, DecodeChosen, FinishChoice, ValidTables;
    var s := if st.SCho? then st else SCho(START, 0, Absent);
    var c := s.cc;
    if c.phase == 0 && mode == 0 && t.tags == [] {
      d := ChooseAlternativeBer(t, mode, -1, s.present, s.member, b, 0);
    } else if c.phase == 0 {
      var k := BerCheckTags(t.tags, true, c.step, b, mode, -1);
      if k.code != OK {
        return Dec(k.code, k.consumed, SCho(c.(step := k.step), s.present, s.member));
      }
      d := ChooseAlternativeBer(t, mode, k.length, s.present, s.member, b[k.consumed..], k.consumed);
    } else if c.phase == 1 {
      d := ChooseAlternativeBer(t, mode, c.left, s.present, s.member, b, 0);
    } else if c.phase == 2 {
      d := DecodeChosenBer(t, mode, c.step, c.left, s.member, b, 0);
    } else if c.phase == 3 {
      d := FinishChoiceBer(t, mode, c.left, s.present, s.member, b, 0);
    } else {
      d := Dec(OK, 0, s);
    }
  }

  /** The `ber_decoder` of a type. */
  method DecodeBer(t: Type, mode: int, st: St, b: Bytes) returns (d: Dec)
    requires ValidTables(t) && mode in {-1, 0, 1}
    ensures d == Decode(t, mode, st, b)
    decreases t, 3
  {
    hide DecodeInteger, DecodeBoolean, OctetString.Decode, DecodeSequence, DecodeChoice, ValidTables;
    match t
    case Integer(tags) => d := IntegerDecodeBer(tags, mode, st, b);
    case Boolean(tags) => d := BooleanDecodeBer(tags, mode, st, b);
    case String(tags, allTags) =>
      var r := OctetString.StringDecodeBer(tags, allTags, if st.SStr? then st.os else OctetString.FRESH, b, mode);
      d := Dec(r.code, r.consumed, SStr(r.ctx));
    case Sequence(_, _, _, _, _) => d := SequenceDecodeBer(t, mode, st, b);
    case Choice(_, _, _, _) => d := ChoiceDecodeBer(t, mode, st, b);
  }
}
