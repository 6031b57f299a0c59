/** Restartable decoding: a DER encoding fed to the decoders in any pieces, the octets not consumed
    being presented again, wants more until it is complete and then gives back the value. */
module Restart {
  import opened Tlv
  import opened TagChain
  import opened Integers
  import opened Descriptors
  import opened BerDecoder
  import OctetString

  /** The structure holds the value; a BOOLEAN is equal up to truth, 0xff standing for true. */
  predicate Holds(t: Type, v: Value, st: St)
    requires HasType(t, v)
    decreases v
  {
    match t
    case Integer(_) => st == SInt(v.n)
    case Boolean(_) => st == SBool(if v.truth != 0 then 0xff else 0)
    case String(_, _) => st.SStr? && st.os.phase == 4 && st.os.buf == v.octets
    case Sequence(_, ms, _, _, _) =>
      && st.SSeq? && st.sc.phase == 10 && |st.fields| == |ms|
      && forall i :: 0 <= i < |ms| ==>
           if v.fields[i].None? then st.fields[i] == Absent else Holds(ms[i].ty, v.fields[i].v, st.fields[i])
    case Choice(_, ms, _, _) =>
      && st.SCho? && st.cc.phase == 4 && st.present == v.index + 1
      && Holds(ms[v.index].ty, v.chosen, st.member)
  }

  /** The first `k` members are in place. */
  predicate DoneBelow(t: Type, v: Value, fields: seq<St>, k: nat)
    requires t.Sequence? && HasType(t, v) && |fields| == |t.members| && k <= |t.members|
  {
    forall i :: 0 <= i < k ==>
      if v.fields[i].None? then fields[i] == Absent else Holds(t.members[i].ty, v.fields[i].v, fields[i])
  }

  predicate AbsentFrom(fields: seq<St>, k: nat) {
    forall i :: k <= i < |fields| ==> fields[i] == Absent
  }

  /** A CHOICE without tags of its own, whose length is not known. */
  predicate Untagged(t: Type, mode: int) {
    mode == 0 && t.tags == []
  }

  predicate LeftIs(t: Type, mode: int, left: int, suf: Bytes) {
    left == if Untagged(t, mode) then -1 else |suf|
  }

  /** The decoder, left in `st`, still has to read exactly `suf` of the encoding of `v`. */
  predicate At(t: Type, mode: int, tag: Tag, v: Value, st: St, suf: Bytes)
    requires HasType(t, v)
    decreases v, 2
  {
    match t
    case Integer(_) => suf == Encode(t, mode, tag, v)
    case Boolean(_) => suf == Encode(t, mode, tag, v)
    case String(tags, _) =>
      OctetString.At(tags, v.octets, mode, tag, if st.SStr? then st.os else OctetString.FRESH, suf)
    case Sequence(tags, _, _, _, _) =>
      var s := SequenceContext(t, st);
      || (&& s.sc.phase == 0 && s.sc.step < |TagsToWrite(tags, mode, tag)| && AbsentFrom(s.fields, 0)
          && suf == ChainFrom(tags, mode, tag, s.sc.step, |Body(t, v, 0)|, true) + Body(t, v, 0))
      || (s.sc.phase == 1 && AtMembers(t, v, s.sc, s.fields, suf))
    case Choice(_, _, _, _) => AtChoice(t, mode, tag, v, if st.SCho? then st else SCho(START, 0, Absent), suf)
  }

  /** Between two members, or inside one. */
  predicate AtMembers(t: Type, v: Value, c: Ctx, fields: seq<St>, suf: Bytes)
    requires t.Sequence? && HasType(t, v) && |fields| == |t.members|
    decreases v, 1
  {
    var e := c.step / 2;
    && c.left == |suf|
    && e <= |t.members|
    && DoneBelow(t, v, fields, e)
    && if c.step % 2 == 0 then AbsentFrom(fields, e) && suf == Body(t, v, e)
       else
         && e < |t.members| && v.fields[e].Some? && AbsentFrom(fields, e + 1)
         && InMember(t, v, e, fields[e], suf)
  }

  /** `suf` is what is left of member `e` and the members after it. */
  predicate InMember(t: Type, v: Value, e: nat, st: St, suf: Bytes)
    requires t.Sequence? && HasType(t, v) && e < |t.members| && v.fields[e].Some?
    decreases v, 0
  {
    var m, rest := t.members[e], Body(t, v, e + 1);
    && |rest| <= |suf| && suf[|suf| - |rest|..] == rest
    && At(m.ty, m.mode, m.tag, v.fields[e].v, st, suf[..|suf| - |rest|])
  }

  predicate AtChoice(t: Type, mode: int, tag: Tag, v: Value, s: St, suf: Bytes)
    requires t.Choice? && HasType(t, v) && s.SCho?
    decreases v, 1
  {
    var m := t.members[v.index];
    var enc := EncodeMember(m, v.chosen);
    match s.cc.phase
    case 0 =>
      && s.member == Absent && s.present == 0
      && if Untagged(t, mode) then suf == enc
         else
           && s.cc.step < |TagsToWrite(t.tags, mode, tag)|
           && suf == ChainFrom(t.tags, mode, tag, s.cc.step, |enc|, true) + enc
    case 1 => s.member == Absent && s.present == 0 && suf == enc && LeftIs(t, mode, s.cc.left, suf)
    case 2 =>
      && s.cc.step == v.index && LeftIs(t, mode, s.cc.left, suf)
      && At(m.ty, m.mode, m.tag, v.chosen, s.member, suf)
    case _ => false
  }

  /** One call on a buffer that agrees with what is to come. */
  predicate Resumed(t: Type, mode: int, tag: Tag, v: Value, suf: Bytes, b: Bytes, d: Dec)
    requires HasType(t, v)
  {
    if suf <= b then d.code == OK && d.consumed == |suf| && Holds(t, v, d.st)
    else
      && d.code == WMORE && d.consumed <= |b| && d.consumed <= |suf|
      && At(t, mode, tag, v, d.st, suf[d.consumed..])
  }

  // ----- the start

  lemma WholeChain(tags: seq<Tag>, mode: int, tag: Tag, len: nat, form: bool)
    ensures ChainFrom(tags, mode, tag, 0, len, form) == WriteChain(TagsToWrite(tags, mode, tag), len, form)
  {}

  lemma TagsWritten(t: Type, mode: int, tag: Tag)
    requires ValidType(t) && ValidMode(t, mode) && !(t.Choice? && Untagged(t, mode))
    ensures OwnTags(t, mode, tag) == TagsToWrite(t.tags, mode, tag) != []
  {}

  lemma StartsAt(t: Type, mode: int, tag: Tag, v: Value)
    requires ValidType(t) && ValidMode(t, mode) && HasType(t, v) && Storable(v)
    ensures At(t, mode, tag, v, Absent, Encode(t, mode, tag, v))
  {
    hide WriteChain, TagsToWrite, ChainFrom, OwnTags, EncodeMember, Body, AtMembers;
    if t.Choice? && Untagged(t, mode) {
      UntaggedEncoding(t, mode, tag, v);
    } else {
      TagsWritten(t, mode, tag);
      WholeChain(t.tags, mode, tag, |Contents(t, v)|, IsConstructedType(t));
      if t.String? {
        OctetString.StartsAt(t.tags, v.octets, mode, tag);
      }
    }
  }

  lemma UntaggedEncoding(t: Type, mode: int, tag: Tag, v: Value)
    requires t.Choice? && Untagged(t, mode) && HasType(t, v)
    ensures Encode(t, mode, tag, v) == EncodeMember(t.members[v.index], v.chosen)
  {}

  lemma StorableField(v: Value, i: nat)
    requires v.VSeq? && i < |v.fields| && v.fields[i].Some? && Storable(v)
    ensures Storable(v.fields[i].v)
  {}

  lemma StorableChosen(v: Value)
    requires v.VCho? && Storable(v)
    ensures Storable(v.chosen)
  {}

  // ----- primitive types

  lemma PrefixContents(chain: Bytes, body: Bytes, b: Bytes)
    requires chain + body <= b
    ensures b[|chain|..|chain| + |body|] == body
  {}

  lemma IntegerResume(t: Type, mode: int, tag: Tag, v: Value, st: St, suf: Bytes, b: Bytes)
    requires t.Integer? && ValidType(t) && ValidMode(t, mode) && HasType(t, v) && Storable(v)
    requires suf == Encode(t, mode, tag, v) && Comparable(suf, b) && |suf| <= MAX_LENGTH
    ensures Resumed(t, mode, tag, v, suf, b, DecodeInteger(t.tags, mode, st, b))
  {
    hide WriteChain, TagsToWrite, ChainFrom, OwnTags, CheckTags, ToLong, FromLong;
    var c := Contents(t, v);
    TagsWritten(t, mode, tag);
    WholeChain(t.tags, mode, tag, |c|, false);
    ChainThenBody(t.tags, mode, tag, 0, false, c, false, 0, b);
    LongRoundTrip(v.n);
    if suf <= b {
      PrefixContents(ChainFrom(t.tags, mode, tag, 0, |c|, false), c, b);
    } else {
      assert suf[0..] == suf;
    }
  }

  lemma OneTruth(x: Byte)
    ensures FirstTruth([x]) == x
  {}

  lemma BooleanResume(t: Type, mode: int, tag: Tag, v: Value, st: St, suf: Bytes, b: Bytes)
    requires t.Boolean? && ValidType(t) && ValidMode(t, mode) && HasType(t, v) && Storable(v)
    requires suf == Encode(t, mode, tag, v) && Comparable(suf, b) && |suf| <= MAX_LENGTH
    ensures Resumed(t, mode, tag, v, suf, b, DecodeBoolean(t.tags, mode, st, b))
  {
    hide WriteChain, TagsToWrite, ChainFrom, OwnTags, CheckTags;
    var c := Contents(t, v);
    OneTruth(c[0]);
    TagsWritten(t, mode, tag);
    WholeChain(t.tags, mode, tag, |c|, false);
    ChainThenBody(t.tags, mode, tag, 0, false, c, false, 0, b);
    if suf <= b {
      PrefixContents(ChainFrom(t.tags, mode, tag, 0, |c|, false), c, b);
    } else {
      assert suf[0..] == suf;
    }
  }

  // ----- what the decoder sees of a value

  lemma VisiblePart(suf: Bytes, left: int, b: Bytes)
    requires Comparable(suf, b) && left == |suf|
    ensures Visible(left, b) <= suf
    ensures suf <= b ==> Visible(left, b) == suf
    ensures !(suf <= b) ==> Visible(left, b) == b && !Violation(left, b)
  {}

  lemma FetchPrefix(x: Tag, c: bool, suf: Bytes, w: Bytes)
    requires Identifier(x, c) <= suf && w <= suf
    ensures FetchTag(w) == if |Identifier(x, c)| <= |w| then Got(|Identifier(x, c)|, x) else More
  {
    hide FetchTag, Identifier;
    var id := Identifier(x, c);
    if |id| <= |w| {
      assert w == id + w[|id|..];
      FetchTagRoundTrip(x, c, w[|id|..]);
    } else {
      assert w == id[..|w|];
      TagPrefixWantsMore(x, c, w);
    }
  }

  // ----- SEQUENCE

  predicate MembersResumed(t: Type, v: Value, suf: Bytes, b: Bytes, used: nat, d: Dec)
    requires t.Sequence? && HasType(t, v)
  {
    if suf <= b then d.code == OK && d.consumed == used + |suf| && Holds(t, v, d.st)
    else
      && d.code == WMORE && used <= d.consumed <= used + |b| && d.consumed <= used + |suf|
      && d.st.SSeq? && d.st.sc.phase == 1 && |d.st.fields| == |t.members|
      && AtMembers(t, v, d.st.sc, d.st.fields, suf[d.consumed - used..])
  }

  function NextPresent(fs: seq<Field>, k: nat): (n: nat)
    requires k <= |fs|
    ensures k <= n <= |fs|
    ensures n < |fs| ==> fs[n].Some?
    ensures forall i :: k <= i < n ==> fs[i].None?
    decreases |fs| - k
  {
    if k == |fs| || fs[k].Some? then k else NextPresent(fs, k + 1)
  }

  lemma BodyUnfold(t: Type, v: Value, k: nat)
    requires t.Sequence? && HasType(t, v) && k < |t.members|
    ensures Body(t, v, k) ==
            (if v.fields[k].None? then [] else EncodeMember(t.members[k], v.fields[k].v)) + Body(t, v, k + 1)
  {}

  lemma BodyEnd(t: Type, v: Value)
    requires t.Sequence? && HasType(t, v)
    ensures Body(t, v, |t.members|) == []
  {}

  lemma {:induction false} BodyFromNext(t: Type, v: Value, k: nat)
    requires t.Sequence? && HasType(t, v) && k <= |t.members|
    ensures Body(t, v, k) == Body(t, v, NextPresent(v.fields, k))
    decreases |t.members| - k
  {
    hide HasType, Body;
    FieldCount(t, v);
    if k < |t.members| && v.fields[k].None? {
      BodyUnfold(t, v, k);
      BodyFromNext(t, v, k + 1);
    }
  }

  lemma FieldCount(t: Type, v: Value)
    requires t.Sequence? && HasType(t, v)
    ensures v.VSeq? && |v.fields| == |t.members|
  {}

  lemma FieldTyped(t: Type, v: Value, i: nat)
    requires t.Sequence? && HasType(t, v) && i < |t.members|
    ensures if v.fields[i].None? then t.members[i].optional > 0 else HasType(t.members[i].ty, v.fields[i].v)
  {}

  lemma MemberValid(t: Type, i: nat)
    requires (t.Sequence? || t.Choice?) && ValidType(t) && i < |t.members|
    ensures ValidMember(t.members[i]) && ValidMode(t.members[i].ty, t.members[i].mode) && ValidType(t.members[i].ty)
  {}

  lemma SequenceValid(t: Type)
    requires t.Sequence? && ValidType(t)
    ensures MembersValid(t.members) && RunCounts(t.members) && RunsDistinct(t.members) && RowsMatch(t.members, t.rows)
  {}

  /** A run of members that may be missing is counted out to its end. */
  lemma {:induction false} RunCovers(ms: seq<Member>, e: nat, n: nat)
    requires RunCounts(ms) && e < |ms| && e <= n <= |ms|
    requires forall i :: e <= i < n ==> ms[i].optional > 0
    ensures n <= e + ms[e].optional
    ensures n == |ms| ==> e + ms[e].optional == |ms|
    decreases n - e
  {
    if e < n {
      assert RunCount(ms, e);
      if e + 1 < |ms| {
        RunCovers(ms, e + 1, n);
      }
    }
  }

  lemma AbsentRun(t: Type, v: Value, e: nat)
    requires t.Sequence? && ValidType(t) && HasType(t, v) && Storable(v) && e < |t.members|
    ensures |v.fields| == |t.members|
    ensures NextPresent(v.fields, e) <= e + t.members[e].optional
    ensures NextPresent(v.fields, e) == |t.members| ==> MayEnd(t, e)
  {
    hide ValidType, HasType, NextPresent, RunCounts, RunsDistinct, RowsMatch, InExtension;
    SequenceValid(t);
    FieldCount(t, v);
    var n := NextPresent(v.fields, e);
    forall i | e <= i < n ensures t.members[i].optional > 0 {
      FieldTyped(t, v, i);
    }
    RunCovers(t.members, e, n);
  }

  lemma LocateEnd(t: Type, e: nat, b: Bytes)
    requires t.Sequence? && e < |t.members| && MayEnd(t, e)
    ensures Locate(t, e, 0, b) == Loc.End
  {}

  lemma LocateFound(t: Type, e: nat, left: int, b: Bytes, tl: nat, x: Tag, n: nat)
    requires t.Sequence? && e < |t.members| && left > 0
    requires FetchTag(Visible(left, b)) == Got(tl, x) && Find(t.members, t.rows, e, x) == Here(n)
    ensures Locate(t, e, left, b) == Found(n)
  {}

  lemma LocateStarved(t: Type, e: nat, left: int, b: Bytes)
    requires t.Sequence? && e < |t.members| && left > 0
    requires FetchTag(Visible(left, b)) == More && !Violation(left, b)
    ensures Locate(t, e, left, b) == Halt(WMORE)
  {}

  lemma MembersUnfold(t: Type, e: nat, left: int, fields: seq<St>, b: Bytes, used: nat)
    requires t.Sequence? && |fields| == |t.members| && e < |t.members|
    ensures var d := DecodeMembers(t, e, 2 * e, left, fields, b, used);
            match Locate(t, e, left, b)
            case End => d == Dec(OK, used, SSeq(Ctx(10, 2 * e, left), fields))
            case Halt(code) => d == Dec(code, used, SSeq(Ctx(1, 2 * e, left), fields))
            case Found(n) => d == DecodeMembers(t, n, 1 + 2 * n, left, fields, b, used)
            case Tail => true
            case Skipped(_) => true
  {
    hide Locate, DecodeOne, DecodeTail;
  }

  lemma MembersEnd(t: Type, step: nat, fields: seq<St>, b: Bytes, used: nat)
    requires t.Sequence? && |fields| == |t.members|
    ensures DecodeMembers(t, |t.members|, step, 0, fields, b, used) == Dec(OK, used, SSeq(Ctx(10, step, 0), fields))
  {
    hide Locate, DecodeOne;
  }

  lemma MembersInside(t: Type, e: nat, left: int, fields: seq<St>, b: Bytes, used: nat)
    requires t.Sequence? && |fields| == |t.members| && e < |t.members|
    ensures DecodeMembers(t, e, 1 + 2 * e, left, fields, b, used) == DecodeOne(t, e, 1 + 2 * e, left, fields, b, used)
  {
    hide Locate, DecodeOne, DecodeTail;
  }

  lemma DoneToNext(t: Type, v: Value, fields: seq<St>, e: nat)
    requires t.Sequence? && HasType(t, v) && |fields| == |t.members| && e <= |t.members|
    requires DoneBelow(t, v, fields, e) && AbsentFrom(fields, e)
    ensures DoneBelow(t, v, fields, NextPresent(v.fields, e))
    ensures AbsentFrom(fields, NextPresent(v.fields, e))
  {}

  lemma DoneOneMore(t: Type, v: Value, fields: seq<St>, e: nat, st: St)
    requires t.Sequence? && HasType(t, v) && |fields| == |t.members| && e < |t.members|
    requires DoneBelow(t, v, fields, e) && AbsentFrom(fields, e + 1) && v.fields[e].Some?
    requires Holds(t.members[e].ty, v.fields[e].v, st)
    ensures DoneBelow(t, v, fields[e := st], e + 1) && AbsentFrom(fields[e := st], e + 1)
  {}

  lemma DoneElsewhere(t: Type, v: Value, fields: seq<St>, e: nat, st: St)
    requires t.Sequence? && HasType(t, v) && |fields| == |t.members| && e < |t.members|
    requires DoneBelow(t, v, fields, e) && AbsentFrom(fields, e + 1)
    ensures DoneBelow(t, v, fields[e := st], e) && AbsentFrom(fields[e := st], e + 1)
  {}

  lemma MembersStarved(t: Type, v: Value, e: nat, fields: seq<St>, suf: Bytes, b: Bytes, used: nat)
    requires t.Sequence? && HasType(t, v) && |fields| == |t.members| && e < |t.members|
    requires DoneBelow(t, v, fields, e) && AbsentFrom(fields, e) && suf == Body(t, v, e) && !(suf <= b)
    ensures MembersResumed(t, v, suf, b, used, Dec(WMORE, used, SSeq(Ctx(1, 2 * e, |suf|), fields)))
  {
    hide HasType, Body, DoneBelow, AbsentFrom, InMember, AtMembers;
    assert suf[0..] == suf;
    AtEven(t, v, e, fields, suf);
  }

  lemma AtEven(t: Type, v: Value, e: nat, fields: seq<St>, suf: Bytes)
    requires t.Sequence? && HasType(t, v) && |fields| == |t.members| && e <= |t.members|
    requires DoneBelow(t, v, fields, e) && AbsentFrom(fields, e) && suf == Body(t, v, e)
    ensures AtMembers(t, v, Ctx(1, 2 * e, |suf|), fields, suf)
  {}

  lemma AtOdd(t: Type, v: Value, e: nat, fields: seq<St>, suf: Bytes)
    requires t.Sequence? && HasType(t, v) && |fields| == |t.members| && e < |t.members| && v.fields[e].Some?
    requires DoneBelow(t, v, fields, e) && AbsentFrom(fields, e + 1) && InMember(t, v, e, fields[e], suf)
    ensures AtMembers(t, v, Ctx(1, 1 + 2 * e, |suf|), fields, suf)
  {
    hide HasType, DoneBelow, AbsentFrom, InMember;
    HalfOdd(e);
  }

  lemma HalfOdd(e: nat)
    ensures (1 + 2 * e) / 2 == e && (1 + 2 * e) % 2 == 1
  {}

  lemma MembersFinished(t: Type, v: Value, e: nat, step: nat, left: int, fields: seq<St>, b: Bytes, used: nat)
    requires t.Sequence? && HasType(t, v) && |fields| == |t.members| && e <= |t.members|
    requires DoneBelow(t, v, fields, e) && AbsentFrom(fields, e) && NextPresent(v.fields, e) == |t.members|
    ensures MembersResumed(t, v, [], b, used, Dec(OK, used, SSeq(Ctx(10, step, left), fields)))
  {}

  /** Between members: the tag that comes next leads to the next member present. */
  lemma {:induction false} MembersResume(t: Type, v: Value, e: nat, fields: seq<St>, b: Bytes, used: nat)
    requires t.Sequence? && ValidType(t) && HasType(t, v) && Storable(v)
    requires |fields| == |t.members| && e <= |t.members|
    requires DoneBelow(t, v, fields, e) && AbsentFrom(fields, e)
    requires Comparable(Body(t, v, e), b) && |Body(t, v, e)| <= MAX_LENGTH
    ensures MembersResumed(t, v, Body(t, v, e), b, used,
                           DecodeMembers(t, e, 2 * e, |Body(t, v, e)|, fields, b, used))
    decreases v, |t.members| - e, 1
  {
    hide *;
    FieldCount(t, v);
    var suf := Body(t, v, e);
    BodyFromNext(t, v, e);
    var n := NextPresent(v.fields, e);
    if n == |t.members| {
      BodyEnd(t, v);
      MembersFinished(t, v, e, 2 * e, 0, fields, b, used);
      if e == |t.members| {
        MembersEnd(t, 2 * e, fields, b, used);
      } else {
        AbsentRun(t, v, e);
        LocateEnd(t, e, b);
        MembersUnfold(t, e, 0, fields, b, used);
      }
    } else {
      NextFound(t, v, e, fields, b, used);
      if Locate(t, e, |suf|, b) == Found(n) {
        MembersUnfold(t, e, |suf|, fields, b, used);
        DoneToNext(t, v, fields, e);
        EntersMember(t, v, n, fields);
        OneResume(t, v, n, fields, suf, b, used);
        MembersInside(t, n, |suf|, fields, b, used);
      } else {
        MembersUnfold(t, e, |suf|, fields, b, used);
        MembersStarved(t, v, e, fields, suf, b, used);
      }
    }
  }

  lemma EntersMember(t: Type, v: Value, n: nat, fields: seq<St>)
    requires t.Sequence? && ValidType(t) && HasType(t, v) && Storable(v) && |fields| == |t.members| && n < |t.members|
    requires v.fields[n].Some? && AbsentFrom(fields, n)
    ensures InMember(t, v, n, fields[n], Body(t, v, n)) && AbsentFrom(fields, n + 1)
  {
    hide ValidType, HasType, At, Body;
    FieldCount(t, v);
    BodyUnfold(t, v, n);
    FieldTyped(t, v, n);
    MemberValid(t, n);
    var m := t.members[n];
    var enc, rest := EncodeMember(m, v.fields[n].v), Body(t, v, n + 1);
    assert (enc + rest)[..|enc|] == enc && (enc + rest)[|enc|..] == rest;
    StorableField(v, n);
    StartsAt(m.ty, m.mode, m.tag, v.fields[n].v);
  }

  /** Either the identifier of the next member is there and leads to it, or more is wanted. */
  lemma NextFound(t: Type, v: Value, e: nat, fields: seq<St>, b: Bytes, used: nat)
    requires t.Sequence? && ValidType(t) && HasType(t, v) && Storable(v) && e < |t.members|
    requires |v.fields| == |t.members|
    requires NextPresent(v.fields, e) < |t.members|
    requires Comparable(Body(t, v, e), b)
    ensures Locate(t, e, |Body(t, v, e)|, b) == Found(NextPresent(v.fields, e)) ||
            (Locate(t, e, |Body(t, v, e)|, b) == Halt(WMORE) && !(Body(t, v, e) <= b))
  {
    hide *;
    FieldCount(t, v);
    var n, suf := NextPresent(v.fields, e), Body(t, v, e);
    var m := t.members[n];
    BodyFromNext(t, v, e);
    FieldTyped(t, v, n);
    MemberValid(t, n);
    var x := FirstTag(m.ty, m.mode, m.tag, v.fields[n].v);
    var c := FirstForm(m.ty, m.mode, m.tag, v.fields[n].v);
    MemberFirst(t, v, n);
    VisiblePart(suf, |suf|, b);
    var w := Visible(|suf|, b);
    FetchPrefix(x, c, suf, w);
    if |Identifier(x, c)| <= |w| {
      AbsentRun(t, v, e);
      SequenceValid(t);
      FindMember(t.members, t.rows, e, n, x);
      LocateFound(t, e, |suf|, b, |Identifier(x, c)|, x, n);
    } else {
      LocateStarved(t, e, |suf|, b);
    }
  }

  lemma MemberFirst(t: Type, v: Value, n: nat)
    requires t.Sequence? && ValidType(t) && HasType(t, v) && Storable(v) && n < |t.members| && v.fields[n].Some?
    requires HasType(t.members[n].ty, v.fields[n].v) && ValidType(t.members[n].ty)
    requires ValidMode(t.members[n].ty, t.members[n].mode)
    ensures var m, w := t.members[n], v.fields[n].v;
            && FirstTag(m.ty, m.mode, m.tag, w) in MemberTags(m)
            && Identifier(FirstTag(m.ty, m.mode, m.tag, w), FirstForm(m.ty, m.mode, m.tag, w)) <= Body(t, v, n)
            && |Body(t, v, n)| > 0
  {
    hide ValidType, HasType, Body, Identifier, FirstTag, FirstForm, FirstTags, Encode;
    FieldCount(t, v);
    var m, w := t.members[n], v.fields[n].v;
    BodyUnfold(t, v, n);
    FirstTagListed(m.ty, m.mode, m.tag, w);
    EncodeBegins(m.ty, m.mode, m.tag, w);
    EncodeNonEmpty(m.ty, m.mode, m.tag, w);
  }

  lemma OneUnfold(t: Type, e: nat, left: int, fields: seq<St>, b: Bytes, used: nat)
    requires t.Sequence? && |fields| == |t.members| && e < |t.members|
    ensures var m := t.members[e];
            var r := Decode(m.ty, m.mode, fields[e], Visible(left, b));
            var d := DecodeOne(t, e, 1 + 2 * e, left, fields, b, used);
            && r.consumed <= |b|
            && (r.code == OK ==>
                  d == DecodeMembers(t, e + 1, 2 * (e + 1), Less(left, r.consumed), fields[e := r.st],
                                     b[r.consumed..], used + r.consumed))
            && (r.code == WMORE && !Violation(left, b) ==>
                  d == Dec(WMORE, used + r.consumed, SSeq(Ctx(1, 1 + 2 * e, Less(left, r.consumed)), fields[e := r.st])))
  {
    hide Decode, DecodeMembers, Visible, Less, Violation;
  }

  lemma Inside(t: Type, v: Value, e: nat, st: St, suf: Bytes) returns (sm: Bytes)
    requires t.Sequence? && HasType(t, v) && e < |t.members| && v.fields[e].Some?
    requires InMember(t, v, e, st, suf)
    ensures suf == sm + Body(t, v, e + 1)
    ensures HasType(t.members[e].ty, v.fields[e].v)
    ensures At(t.members[e].ty, t.members[e].mode, t.members[e].tag, v.fields[e].v, st, sm)
  {
    hide At, Body;
    sm := suf[..|suf| - |Body(t, v, e + 1)|];
  }

  lemma StillInside(t: Type, v: Value, e: nat, st: St, sm: Bytes, n: nat)
    requires t.Sequence? && HasType(t, v) && e < |t.members| && v.fields[e].Some?
    requires HasType(t.members[e].ty, v.fields[e].v) && n <= |sm|
    requires At(t.members[e].ty, t.members[e].mode, t.members[e].tag, v.fields[e].v, st, sm[n..])
    ensures InMember(t, v, e, st, (sm + Body(t, v, e + 1))[n..])
  {
    hide At, Body, HasType;
    var rest := Body(t, v, e + 1);
    var suf := (sm + rest)[n..];
    assert suf[..|suf| - |rest|] == sm[n..];
    assert suf[|suf| - |rest|..] == rest;
  }

  lemma PrefixSplit(sm: Bytes, rest: Bytes, w: Bytes)
    requires w <= sm + rest
    ensures Comparable(sm, w)
    ensures !(sm <= w) ==> |w| < |sm|
  {}

  lemma OneStarved(t: Type, v: Value, e: nat, fields: seq<St>, st: St, sm: Bytes, b: Bytes, n: nat, used: nat)
    requires t.Sequence? && HasType(t, v) && |fields| == |t.members| && e < |t.members| && v.fields[e].Some?
    requires DoneBelow(t, v, fields, e) && AbsentFrom(fields, e + 1)
    requires HasType(t.members[e].ty, v.fields[e].v) && n <= |sm| && n <= |b|
    requires At(t.members[e].ty, t.members[e].mode, t.members[e].tag, v.fields[e].v, st, sm[n..])
    requires !(sm + Body(t, v, e + 1) <= b)
    ensures var suf := sm + Body(t, v, e + 1);
            MembersResumed(t, v, suf, b, used, Dec(WMORE, used + n, SSeq(Ctx(1, 1 + 2 * e, |suf| - n), fields[e := st])))
  {
    hide At, Body, HasType, DoneBelow, AbsentFrom, InMember, AtMembers;
    StillInside(t, v, e, st, sm, n);
    DoneElsewhere(t, v, fields, e, st);
    AtOdd(t, v, e, fields[e := st], (sm + Body(t, v, e + 1))[n..]);
  }

  lemma OneCompose(t: Type, v: Value, sm: Bytes, rest: Bytes, b: Bytes, used: nat, d: Dec)
    requires t.Sequence? && HasType(t, v) && sm <= b && Comparable(sm + rest, b)
    requires MembersResumed(t, v, rest, b[|sm|..], used + |sm|, d)
    ensures MembersResumed(t, v, sm + rest, b, used, d)
  {
    hide HasType, AtMembers, Holds, Comparable;
    TwoParts(sm, rest, b);
    if !(sm + rest <= b) {
      OctetString.BodyRest(sm, rest, d.consumed - used);
    }
  }

  /** Inside a member: its decoder sees no more than the SEQUENCE has left. */
  lemma {:induction false} OneResume(t: Type, v: Value, e: nat, fields: seq<St>, suf: Bytes, b: Bytes, used: nat)
    requires t.Sequence? && ValidType(t) && HasType(t, v) && Storable(v)
    requires |fields| == |t.members| && e < |t.members| && v.fields[e].Some?
    requires DoneBelow(t, v, fields, e) && AbsentFrom(fields, e + 1)
    requires InMember(t, v, e, fields[e], suf)
    requires Comparable(suf, b) && |suf| <= MAX_LENGTH
    ensures MembersResumed(t, v, suf, b, used, DecodeOne(t, e, 1 + 2 * e, |suf|, fields, b, used))
    decreases v, |t.members| - e, 0
  {
    hide *;
    FieldCount(t, v);
    var m, w := t.members[e], Visible(|suf|, b);
    var rest := Body(t, v, e + 1);
    var sm := Inside(t, v, e, fields[e], suf);
    MemberValid(t, e);
    VisiblePart(suf, |suf|, b);
    PrefixSplit(sm, rest, w);
    StorableField(v, e);
    Resume(m.ty, m.mode, m.tag, v.fields[e].v, fields[e], sm, w);
    var r := Decode(m.ty, m.mode, fields[e], w);
    OneUnfold(t, e, |suf|, fields, b, used);
    ResumedParts(m.ty, m.mode, m.tag, v.fields[e].v, sm, w, r);
    LessLeft(|suf|, r.consumed);
    if sm <= w {
      TwoParts(sm, rest, b);
      DoneOneMore(t, v, fields, e, r.st);
      MembersResume(t, v, e + 1, fields[e := r.st], b[|sm|..], used + |sm|);
      OneCompose(t, v, sm, rest, b, used, DecodeOne(t, e, 1 + 2 * e, |suf|, fields, b, used));
    } else {
      OneStarved(t, v, e, fields, r.st, sm, b, r.consumed, used);
    }
  }

  lemma LessLeft(left: nat, n: nat)
    ensures Less(left, n) == left - n
  {}

  lemma ResumedParts(t: Type, mode: int, tag: Tag, v: Value, suf: Bytes, b: Bytes, d: Dec)
    requires HasType(t, v) && Resumed(t, mode, tag, v, suf, b, d)
    ensures suf <= b ==> d.code == OK && d.consumed == |suf| && Holds(t, v, d.st)
    ensures !(suf <= b) ==> d.code == WMORE && d.consumed <= |b| && d.consumed <= |suf|
    ensures !(suf <= b) ==> At(t, mode, tag, v, d.st, suf[d.consumed..])
  {}

  // ----- CHOICE

  predicate ChoiceResumed(t: Type, mode: int, tag: Tag, v: Value, suf: Bytes, b: Bytes, used: nat, d: Dec)
    requires t.Choice? && HasType(t, v)
  {
    if suf <= b then d.code == OK && d.consumed == used + |suf| && Holds(t, v, d.st)
    else
      && d.code == WMORE && used <= d.consumed <= used + |b| && d.consumed <= used + |suf|
      && d.st.SCho? && AtChoice(t, mode, tag, v, d.st, suf[d.consumed - used..])
  }

  lemma VisibleChoice(t: Type, mode: int, suf: Bytes, left: int, b: Bytes)
    requires Comparable(suf, b) && LeftIs(t, mode, left, suf)
    ensures Comparable(suf, Visible(left, b))
    ensures suf <= b <==> suf <= Visible(left, b)
    ensures !(suf <= b) ==> !Violation(left, b)
  {}

  lemma ChosenUnfold(t: Type, mode: int, el: nat, left: int, member: St, b: Bytes, used: nat)
    requires t.Choice? && el < |t.members|
    ensures var m := t.members[el];
            var r := Decode(m.ty, m.mode, member, Visible(left, b));
            var d := DecodeChosen(t, mode, el, left, member, b, used);
            && r.consumed <= |b|
            && (r.code == OK ==>
                  d == FinishChoice(t, mode, Less(left, r.consumed), el + 1, r.st, b[r.consumed..], used + r.consumed))
            && (r.code == WMORE && !Violation(left, b) ==>
                  d == Dec(WMORE, used + r.consumed, SCho(Ctx(2, el, Less(left, r.consumed)), el + 1, r.st)))
  {
    hide Decode, Visible, Less, Violation, FinishChoice;
  }

  lemma ChoiceFinishes(t: Type, mode: int, suf: Bytes, left: int, present: nat, member: St, b: Bytes, used: nat)
    requires t.Choice? && LeftIs(t, mode, left, suf)
    ensures var d := FinishChoice(t, mode, Less(left, |suf|), present, member, b, used);
            && d.code == OK && d.consumed == used
            && d.st.SCho? && d.st.cc.phase == 4 && d.st.present == present && d.st.member == member
  {}

  lemma ChosenTyped(t: Type, v: Value)
    requires t.Choice? && HasType(t, v)
    ensures v.VCho? && v.index < |t.members| && HasType(t.members[v.index].ty, v.chosen)
  {}

  lemma HoldsChosen(t: Type, v: Value, st: St)
    requires t.Choice? && HasType(t, v) && st.SCho? && st.cc.phase == 4 && st.present == v.index + 1
    requires HasType(t.members[v.index].ty, v.chosen) && Holds(t.members[v.index].ty, v.chosen, st.member)
    ensures Holds(t, v, st)
  {}

  lemma ChosenStarved(t: Type, mode: int, tag: Tag, v: Value, left: int, suf: Bytes, n: nat, member: St)
    requires t.Choice? && HasType(t, v) && LeftIs(t, mode, left, suf) && n <= |suf|
    requires HasType(t.members[v.index].ty, v.chosen)
    requires At(t.members[v.index].ty, t.members[v.index].mode, t.members[v.index].tag, v.chosen, member, suf[n..])
    ensures AtChoice(t, mode, tag, v, SCho(Ctx(2, v.index, Less(left, n)), v.index + 1, member), suf[n..])
  {}

  /** Inside the alternative. */
  lemma {:induction false} ChosenResume(t: Type, mode: int, tag: Tag, v: Value, left: int, member: St, suf: Bytes,
                                        b: Bytes, used: nat)
    requires t.Choice? && ValidType(t) && HasType(t, v) && Storable(v)
    requires HasType(t.members[v.index].ty, v.chosen)
    requires At(t.members[v.index].ty, t.members[v.index].mode, t.members[v.index].tag, v.chosen, member, suf)
    requires LeftIs(t, mode, left, suf) && Comparable(suf, b) && |suf| <= MAX_LENGTH
    ensures ChoiceResumed(t, mode, tag, v, suf, b, used, DecodeChosen(t, mode, v.index, left, member, b, used))
    decreases v, 0, 0
  {
    hide *;
    ChosenTyped(t, v);
    var m, w := t.members[v.index], Visible(left, b);
    MemberValid(t, v.index);
    VisibleChoice(t, mode, suf, left, b);
    StorableChosen(v);
    Resume(m.ty, m.mode, m.tag, v.chosen, member, suf, w);
    var r := Decode(m.ty, m.mode, member, w);
    ResumedParts(m.ty, m.mode, m.tag, v.chosen, suf, w, r);
    ChosenUnfold(t, mode, v.index, left, member, b, used);
    var d := DecodeChosen(t, mode, v.index, left, member, b, used);
    if suf <= b {
      ChoiceFinishes(t, mode, suf, left, v.index + 1, r.st, b[|suf|..], used + |suf|);
      HoldsChosen(t, v, d.st);
    } else {
      ChosenStarved(t, mode, tag, v, left, suf, r.consumed, r.st);
    }
    ChoiceResumedIntro(t, mode, tag, v, suf, b, used, d);
  }

  lemma ChoiceResumedIntro(t: Type, mode: int, tag: Tag, v: Value, suf: Bytes, b: Bytes, used: nat, d: Dec)
    requires t.Choice? && HasType(t, v)
    requires suf <= b ==> d.code == OK && d.consumed == used + |suf| && Holds(t, v, d.st)
    requires !(suf <= b) ==> d.code == WMORE && used <= d.consumed <= used + |b| && d.consumed <= used + |suf|
    requires !(suf <= b) ==> d.st.SCho? && AtChoice(t, mode, tag, v, d.st, suf[d.consumed - used..])
    ensures ChoiceResumed(t, mode, tag, v, suf, b, used, d)
  {}

  lemma ChooseUnfold(t: Type, mode: int, left: int, member: St, b: Bytes, used: nat)
    requires t.Choice?
    ensures var d := ChooseAlternative(t, mode, left, 0, member, b, used);
            match FetchTag(Visible(left, b))
            case More => d == Dec(Starved(left, b), used, SCho(Ctx(1, 0, left), 0, member))
            case Got(_, x) =>
              (match Alternative(t.members, t.rows, x)
               case Here(n) => d == DecodeChosen(t, mode, n, left, member, b, used)
               case Nowhere => true)
            case Bad => true
  {
    hide FetchTag, Visible, Starved, DecodeChosen, Alternative;
  }

  lemma ChosenFirst(t: Type, v: Value)
    requires t.Choice? && ValidType(t) && HasType(t, v) && Storable(v)
    ensures HasType(t.members[v.index].ty, v.chosen) && ValidType(t.members[v.index].ty)
    ensures ValidMode(t.members[v.index].ty, t.members[v.index].mode)
    ensures var m, w := t.members[v.index], v.chosen;
            && FirstTag(m.ty, m.mode, m.tag, w) in MemberTags(m)
            && Identifier(FirstTag(m.ty, m.mode, m.tag, w), FirstForm(m.ty, m.mode, m.tag, w)) <= EncodeMember(m, w)
            && Alternative(t.members, t.rows, FirstTag(m.ty, m.mode, m.tag, w)) == Here(v.index)
  {
    ChosenTyped(t, v);
    MemberValid(t, v.index);
    ChoiceValid(t);
    hide ValidType, HasType, Identifier, FirstTag, FirstForm, FirstTags, Encode, Disjoint, RowsMatch;
    var m, w := t.members[v.index], v.chosen;
    FirstTagListed(m.ty, m.mode, m.tag, w);
    EncodeBegins(m.ty, m.mode, m.tag, w);
    AlternativeFound(t.members, t.rows, v.index, FirstTag(m.ty, m.mode, m.tag, w));
  }

  lemma ChoiceValid(t: Type)
    requires t.Choice? && ValidType(t)
    ensures forall i, j :: 0 <= i < j < |t.members| ==> Disjoint(t.members[i], t.members[j])
    ensures RowsMatch(t.members, t.rows)
  {}

  lemma ChooseStarved(t: Type, mode: int, tag: Tag, v: Value, left: int, suf: Bytes)
    requires t.Choice? && HasType(t, v) && LeftIs(t, mode, left, suf)
    requires HasType(t.members[v.index].ty, v.chosen) && suf == EncodeMember(t.members[v.index], v.chosen)
    ensures AtChoice(t, mode, tag, v, SCho(Ctx(1, 0, left), 0, Absent), suf[0..])
  {}

  /** Before the alternative is known. */
  lemma {:induction false} ChooseResume(t: Type, mode: int, tag: Tag, v: Value, left: int, suf: Bytes, b: Bytes, used: nat)
    requires t.Choice? && ValidType(t) && HasType(t, v) && Storable(v)
    requires HasType(t.members[v.index].ty, v.chosen) && suf == EncodeMember(t.members[v.index], v.chosen)
    requires LeftIs(t, mode, left, suf) && Comparable(suf, b) && |suf| <= MAX_LENGTH
    ensures ChoiceResumed(t, mode, tag, v, suf, b, used, ChooseAlternative(t, mode, left, 0, Absent, b, used))
    decreases v, 1, 0
  {
    hide *;
    ChosenTyped(t, v);
    ChosenFirst(t, v);
    var m, w := t.members[v.index], Visible(left, b);
    var x, c := FirstTag(m.ty, m.mode, m.tag, v.chosen), FirstForm(m.ty, m.mode, m.tag, v.chosen);
    VisibleChoice(t, mode, suf, left, b);
    ChooseUnfold(t, mode, left, Absent, b, used);
    FetchCompared(x, c, suf, w);
    var d := ChooseAlternative(t, mode, left, 0, Absent, b, used);
    if FetchTag(w) == More {
      StarvedCode(left, b);
      ChooseStarved(t, mode, tag, v, left, suf);
      ChoiceResumedIntro(t, mode, tag, v, suf, b, used, d);
    } else {
      StorableChosen(v);
      MemberStarts(m, v.chosen);
      ChosenResume(t, mode, tag, v, left, Absent, suf, b, used);
    }
  }

  lemma MemberStarts(m: Member, v: Value)
    requires ValidType(m.ty) && ValidMode(m.ty, m.mode) && HasType(m.ty, v) && Storable(v)
    ensures At(m.ty, m.mode, m.tag, v, Absent, EncodeMember(m, v))
  {
    hide At, ValidType, HasType, Encode, ValidMode;
    StartsAt(m.ty, m.mode, m.tag, v);
  }

  lemma StarvedCode(left: int, b: Bytes)
    ensures !Violation(left, b) ==> Starved(left, b) == WMORE
  {}

  lemma FetchCompared(x: Tag, c: bool, suf: Bytes, w: Bytes)
    requires Identifier(x, c) <= suf && Comparable(suf, w)
    ensures FetchTag(w) == Got(|Identifier(x, c)|, x) || (FetchTag(w) == More && !(suf <= w))
  {
    hide FetchTag, Identifier;
    var id := Identifier(x, c);
    if suf <= w {
      assert id == suf[..|id|] == w[..|id|];
      FetchPrefix(x, c, w, w);
    } else {
      FetchPrefix(x, c, suf, w);
    }
  }

  // ----- the theorem

  lemma SequenceResume(t: Type, mode: int, tag: Tag, v: Value, st: St, suf: Bytes, b: Bytes)
    requires t.Sequence? && ValidType(t) && ValidMode(t, mode) && HasType(t, v) && Storable(v)
    requires At(t, mode, tag, v, st, suf) && Comparable(suf, b) && |suf| <= MAX_LENGTH
    ensures Resumed(t, mode, tag, v, suf, b, DecodeSequence(t, mode, st, b))
    decreases v, |t.members| + 1, 0
  {
    hide *;
    FieldCount(t, v);
    var s := SequenceContext(t, st);
    SequenceAt(t, mode, tag, v, st, suf);
    SequenceUnfold(t, mode, st, b);
    var d := DecodeSequence(t, mode, st, b);
    if s.sc.phase == 0 {
      var body := Body(t, v, 0);
      var chain := ChainFrom(t.tags, mode, tag, s.sc.step, |body|, true);
      var k := CheckTags(t.tags, true, s.sc.step, b, mode, 1);
      ModeFacts(t, mode);
      ChainThenBody(t.tags, mode, tag, 1, true, body, true, s.sc.step, b);
      ChainCheckedParts(k, t.tags, mode, tag, true, body, s.sc.step, b);
      if chain <= b {
        NothingDone(t, v, s.fields);
        MembersResume(t, v, 0, s.fields, b[|chain|..], |chain|);
        SequenceCompose(t, mode, tag, v, chain, body, b, d);
      } else {
        SequenceWaits(t, mode, tag, v, s, chain, body, k);
        SequenceResumedIntro(t, mode, tag, v, suf, b, d);
      }
    } else {
      AtMembersParts(t, v, s.sc, s.fields, suf);
      var e := s.sc.step / 2;
      if s.sc.step % 2 == 0 {
        MembersResume(t, v, e, s.fields, b, 0);
      } else {
        MembersInside(t, e, |suf|, s.fields, b, 0);
        OneResume(t, v, e, s.fields, suf, b, 0);
      }
      SequenceFromMembers(t, mode, tag, v, suf, b, d);
    }
  }

  lemma ModeFacts(t: Type, mode: int)
    requires ValidMode(t, mode)
    ensures mode in {-1, 0, 1} && (mode == -1 ==> t.tags != [])
  {}

  lemma SequenceAt(t: Type, mode: int, tag: Tag, v: Value, st: St, suf: Bytes)
    requires t.Sequence? && HasType(t, v) && At(t, mode, tag, v, st, suf)
    ensures var s := SequenceContext(t, st);
            || (&& s.sc.phase == 0 && s.sc.step < |TagsToWrite(t.tags, mode, tag)| && AbsentFrom(s.fields, 0)
                && suf == ChainFrom(t.tags, mode, tag, s.sc.step, |Body(t, v, 0)|, true) + Body(t, v, 0))
            || (s.sc.phase == 1 && AtMembers(t, v, s.sc, s.fields, suf))
  {}

  lemma SequenceUnfold(t: Type, mode: int, st: St, b: Bytes)
    requires t.Sequence?
    ensures var s := SequenceContext(t, st);
            var d := DecodeSequence(t, mode, st, b);
            && (s.sc.phase == 0 ==>
                  var k := CheckTags(t.tags, true, s.sc.step, b, mode, 1);
                  d == if k.code != OK then Dec(k.code, k.consumed, SSeq(s.sc.(step := k.step), s.fields))
                       else DecodeMembers(t, 0, 0, k.length, s.fields, b[k.consumed..], k.consumed))
            && (s.sc.phase == 1 ==> d == DecodeMembers(t, s.sc.step / 2, s.sc.step, s.sc.left, s.fields, b, 0))
  {
    hide CheckTags, DecodeMembers, DecodeTail, SequenceContext;
  }

  lemma ChainCheckedParts(k: Check, tags: seq<Tag>, mode: int, tag: Tag, form: bool, body: Bytes, step: nat, b: Bytes)
    requires step < |TagsToWrite(tags, mode, tag)|
    requires ChainChecked(k, tags, mode, tag, form, body, true, step, b)
    ensures var chain := ChainFrom(tags, mode, tag, step, |body|, form);
            if chain <= b then
              && k.code == OK && k.consumed == |chain| && k.length == |body|
              && Comparable(body, b[|chain|..]) && (chain + body <= b <==> body <= b[|chain|..])
            else
              && k.code == WMORE && k.consumed <= |b| && k.consumed <= |chain| && k.step < |TagsToWrite(tags, mode, tag)|
              && !(chain + body <= b)
              && (chain + body)[k.consumed..] == ChainFrom(tags, mode, tag, k.step, |body|, form) + body
  {}

  lemma NothingDone(t: Type, v: Value, fields: seq<St>)
    requires t.Sequence? && HasType(t, v) && |fields| == |t.members|
    ensures DoneBelow(t, v, fields, 0)
  {}

  lemma AtMembersParts(t: Type, v: Value, c: Ctx, fields: seq<St>, suf: Bytes)
    requires t.Sequence? && HasType(t, v) && |fields| == |t.members| && AtMembers(t, v, c, fields, suf)
    ensures var e := c.step / 2;
            && c.left == |suf| && e <= |t.members| && DoneBelow(t, v, fields, e)
            && (c.step % 2 == 0 ==> c.step == 2 * e && AbsentFrom(fields, e) && suf == Body(t, v, e))
            && (c.step % 2 == 1 ==>
                  && c.step == 1 + 2 * e && e < |t.members| && v.fields[e].Some? && AbsentFrom(fields, e + 1)
                  && InMember(t, v, e, fields[e], suf))
  {}

  lemma SequenceFromMembers(t: Type, mode: int, tag: Tag, v: Value, suf: Bytes, b: Bytes, d: Dec)
    requires t.Sequence? && HasType(t, v) && MembersResumed(t, v, suf, b, 0, d)
    ensures Resumed(t, mode, tag, v, suf, b, d)
  {}

  lemma SequenceCompose(t: Type, mode: int, tag: Tag, v: Value, chain: Bytes, body: Bytes, b: Bytes, d: Dec)
    requires t.Sequence? && HasType(t, v) && chain <= b && Comparable(chain + body, b)
    requires MembersResumed(t, v, body, b[|chain|..], |chain|, d)
    ensures Resumed(t, mode, tag, v, chain + body, b, d)
  {
    hide HasType, MembersResumed, Comparable;
    OneCompose(t, v, chain, body, b, 0, d);
    SequenceFromMembers(t, mode, tag, v, chain + body, b, d);
  }

  lemma SequenceWaits(t: Type, mode: int, tag: Tag, v: Value, s: St, chain: Bytes, body: Bytes, k: Check)
    requires t.Sequence? && HasType(t, v) && s.SSeq? && |s.fields| == |t.members|
    requires s.sc.phase == 0 && AbsentFrom(s.fields, 0) && body == Body(t, v, 0)
    requires k.step < |TagsToWrite(t.tags, mode, tag)| && k.consumed <= |chain|
    requires (chain + body)[k.consumed..] == ChainFrom(t.tags, mode, tag, k.step, |body|, true) + body
    ensures At(t, mode, tag, v, SSeq(s.sc.(step := k.step), s.fields), (chain + body)[k.consumed..])
  {}

  lemma SequenceResumedIntro(t: Type, mode: int, tag: Tag, v: Value, suf: Bytes, b: Bytes, d: Dec)
    requires HasType(t, v) && !(suf <= b)
    requires d.code == WMORE && d.consumed <= |b| && d.consumed <= |suf|
    requires At(t, mode, tag, v, d.st, suf[d.consumed..])
    ensures Resumed(t, mode, tag, v, suf, b, d)
  {}

  lemma ChoiceResume(t: Type, mode: int, tag: Tag, v: Value, st: St, suf: Bytes, b: Bytes)
    requires t.Choice? && ValidType(t) && ValidMode(t, mode) && HasType(t, v) && Storable(v)
    requires At(t, mode, tag, v, st, suf) && Comparable(suf, b) && |suf| <= MAX_LENGTH
    ensures Resumed(t, mode, tag, v, suf, b, DecodeChoice(t, mode, st, b))
    decreases v, 2, 0
  {
    hide *;
    ChosenTyped(t, v);
    var s := if st.SCho? then st else SCho(START, 0, Absent);
    ChoiceAt(t, mode, tag, v, st, suf);
    ChoiceUnfold(t, mode, st, b);
    var d := DecodeChoice(t, mode, st, b);
    var enc := EncodeMember(t.members[v.index], v.chosen);
    if s.cc.phase == 0 && !Untagged(t, mode) {
      var chain := ChainFrom(t.tags, mode, tag, s.cc.step, |enc|, true);
      var k := CheckTags(t.tags, true, s.cc.step, b, mode, -1);
      ModeFacts(t, mode);
      ChainThenBody(t.tags, mode, tag, -1, true, enc, true, s.cc.step, b);
      ChainCheckedParts(k, t.tags, mode, tag, true, enc, s.cc.step, b);
      if chain <= b {
        LeftKnown(t, mode, enc);
        ChooseResume(t, mode, tag, v, |enc|, enc, b[|chain|..], |chain|);
        ChoiceCompose(t, mode, tag, v, chain, enc, b, d);
      } else {
        ChoiceWaits(t, mode, tag, v, s, chain, enc, k);
        SequenceResumedIntro(t, mode, tag, v, suf, b, d);
      }
    } else if s.cc.phase == 0 {
      LeftUnknown(t, mode, enc);
      ChooseResume(t, mode, tag, v, -1, suf, b, 0);
      ChoiceFromParts(t, mode, tag, v, suf, b, d);
    } else if s.cc.phase == 1 {
      ChooseResume(t, mode, tag, v, s.cc.left, suf, b, 0);
      ChoiceFromParts(t, mode, tag, v, suf, b, d);
    } else {
      ChosenResume(t, mode, tag, v, s.cc.left, s.member, suf, b, 0);
      ChoiceFromParts(t, mode, tag, v, suf, b, d);
    }
  }

  lemma LeftKnown(t: Type, mode: int, suf: Bytes)
    requires !Untagged(t, mode)
    ensures LeftIs(t, mode, |suf|, suf)
  {}

  lemma LeftUnknown(t: Type, mode: int, suf: Bytes)
    requires Untagged(t, mode)
    ensures LeftIs(t, mode, -1, suf)
  {}

  lemma ChoiceAt(t: Type, mode: int, tag: Tag, v: Value, st: St, suf: Bytes)
    requires t.Choice? && HasType(t, v) && At(t, mode, tag, v, st, suf)
    requires HasType(t.members[v.index].ty, v.chosen)
    ensures var s := if st.SCho? then st else SCho(START, 0, Absent);
            var m := t.members[v.index];
            var enc := EncodeMember(m, v.chosen);
            && s.cc.phase <= 2
            && (s.cc.phase <= 1 ==> s.member == Absent && s.present == 0)
            && (s.cc.phase == 0 && Untagged(t, mode) ==> suf == enc)
            && (s.cc.phase == 0 && !Untagged(t, mode) ==>
                  && s.cc.step < |TagsToWrite(t.tags, mode, tag)|
                  && suf == ChainFrom(t.tags, mode, tag, s.cc.step, |enc|, true) + enc)
            && (s.cc.phase == 1 ==> suf == enc)
            && (s.cc.phase >= 1 ==> LeftIs(t, mode, s.cc.left, suf))
            && (s.cc.phase == 2 ==> s.cc.step == v.index && At(m.ty, m.mode, m.tag, v.chosen, s.member, suf))
  {}

  lemma ChoiceUnfold(t: Type, mode: int, st: St, b: Bytes)
    requires t.Choice?
    ensures var s := if st.SCho? then st else SCho(START, 0, Absent);
            var d := DecodeChoice(t, mode, st, b);
            && (s.cc.phase == 0 && Untagged(t, mode) ==> d == ChooseAlternative(t, mode, -1, s.present, s.member, b, 0))
            && (s.cc.phase == 0 && !Untagged(t, mode) ==>
                  var k := CheckTags(t.tags, true, s.cc.step, b, mode, -1);
                  d == if k.code != OK then Dec(k.code, k.consumed, SCho(s.cc.(step := k.step), s.present, s.member))
                       else ChooseAlternative(t, mode, k.length, s.present, s.member, b[k.consumed..], k.consumed))
            && (s.cc.phase == 1 ==> d == ChooseAlternative(t, mode, s.cc.left, s.present, s.member, b, 0))
            && (s.cc.phase == 2 ==> d == DecodeChosen(t, mode, s.cc.step, s.cc.left, s.member, b, 0))
  {
    hide CheckTags, ChooseAlternative, DecodeChosen, FinishChoice;
  }

  lemma ChoiceFromParts(t: Type, mode: int, tag: Tag, v: Value, suf: Bytes, b: Bytes, d: Dec)
    requires t.Choice? && HasType(t, v) && ChoiceResumed(t, mode, tag, v, suf, b, 0, d)
    ensures Resumed(t, mode, tag, v, suf, b, d)
  {}

  lemma ChoiceCompose(t: Type, mode: int, tag: Tag, v: Value, chain: Bytes, enc: Bytes, b: Bytes, d: Dec)
    requires t.Choice? && HasType(t, v) && chain <= b && Comparable(chain + enc, b)
    requires ChoiceResumed(t, mode, tag, v, enc, b[|chain|..], |chain|, d)
    ensures Resumed(t, mode, tag, v, chain + enc, b, d)
  {
    hide HasType, AtChoice, Holds, Comparable;
    TwoParts(chain, enc, b);
    if !(chain + enc <= b) {
      OctetString.BodyRest(chain, enc, d.consumed);
    }
  }

  lemma ChoiceWaits(t: Type, mode: int, tag: Tag, v: Value, s: St, chain: Bytes, enc: Bytes, k: Check)
    requires t.Choice? && HasType(t, v) && s.SCho? && s.cc.phase == 0 && s.member == Absent && s.present == 0
    requires HasType(t.members[v.index].ty, v.chosen) && enc == EncodeMember(t.members[v.index], v.chosen)
    requires !Untagged(t, mode)
    requires k.step < |TagsToWrite(t.tags, mode, tag)| && k.consumed <= |chain|
    requires (chain + enc)[k.consumed..] == ChainFrom(t.tags, mode, tag, k.step, |enc|, true) + enc
    ensures At(t, mode, tag, v, SCho(s.cc.(step := k.step), s.present, s.member), (chain + enc)[k.consumed..])
  {}

  lemma StringResume(t: Type, mode: int, tag: Tag, v: Value, st: St, suf: Bytes, b: Bytes)
    requires t.String? && ValidType(t) && ValidMode(t, mode) && HasType(t, v) && Storable(v)
    requires At(t, mode, tag, v, st, suf) && Comparable(suf, b) && |suf| <= MAX_LENGTH
    ensures Resumed(t, mode, tag, v, suf, b, DecodeString(t.tags, t.allTags, mode, st, b))
  {
    hide OctetString.At, OctetString.Decode, Comparable;
    OctetString.StringResume(t.tags, t.allTags, v.octets, mode, tag, if st.SStr? then st.os else OctetString.FRESH, suf, b);
  }

  /** One call, from any state the decoder can have been left in, on any buffer that agrees with
      the rest of the encoding: complete, it yields the value and consumes exactly that rest;
      incomplete, more is wanted and the decoder stands at the octets it did not consume. */
  lemma {:induction false} Resume(t: Type, mode: int, tag: Tag, v: Value, st: St, suf: Bytes, b: Bytes)
    requires ValidType(t) && ValidMode(t, mode) && HasType(t, v) && Storable(v)
    requires At(t, mode, tag, v, st, suf) && Comparable(suf, b) && |suf| <= MAX_LENGTH
    ensures Resumed(t, mode, tag, v, suf, b, Decode(t, mode, st, b))
    decreases v, if t.Sequence? || t.Choice? then |t.members| + 3 else 0, 0
  {
    hide ValidType, ValidMode, HasType, Comparable, Resumed, Encode, DecodeInteger, DecodeBoolean, DecodeString,
         DecodeSequence, DecodeChoice, AtChoice, AtMembers, Body, ChainFrom, TagsToWrite, AbsentFrom;
    match t
    case Integer(_) => IntegerResume(t, mode, tag, v, st, suf, b);
    case Boolean(_) => BooleanResume(t, mode, tag, v, st, suf, b);
    case String(_, _) => StringResume(t, mode, tag, v, st, suf, b);
    case Sequence(_, _, _, _, _) => SequenceResume(t, mode, tag, v, st, suf, b);
    case Choice(_, _, _, _) => ChoiceResume(t, mode, tag, v, st, suf, b);
  }

  /** Round trip: decoding an encoding, whatever follows it, yields the value and consumes exactly
      the encoding. */
  lemma RoundTrip(t: Type, mode: int, tag: Tag, v: Value, x: Bytes)
    requires ValidType(t) && ValidMode(t, mode) && HasType(t, v) && Storable(v)
    requires |Encode(t, mode, tag, v)| <= MAX_LENGTH
    ensures var d := Decode(t, mode, Absent, Encode(t, mode, tag, v) + x);
            d.code == OK && d.consumed == |Encode(t, mode, tag, v)| && Holds(t, v, d.st)
  {
    hide *;
    var enc := Encode(t, mode, tag, v);
    StartsAt(t, mode, tag, v);
    ExtensionCompares(enc, x);
    Resume(t, mode, tag, v, Absent, enc, enc + x);
    ResumedParts(t, mode, tag, v, enc, enc + x, Decode(t, mode, Absent, enc + x));
  }

  lemma ExtensionCompares(a: Bytes, x: Bytes)
    ensures a <= a + x && Comparable(a, a + x)
  {}

  datatype Fed = Fed(code: Code, consumed: nat, st: St)

  /** One call for each piece that arrives, the octets not consumed presented again in front of
      it, until a call does not want more. */
  function Feed(t: Type, mode: int, st: St, kept: Bytes, pieces: seq<Bytes>): (r: Fed)
    decreases |pieces|
  {
    if pieces == [] then Fed(WMORE, 0, st)
    else
      var b := kept + pieces[0];
      var d := Decode(t, mode, st, b);
      if d.code != WMORE then Fed(d.code, d.consumed, d.st)
      else
        var r := Feed(t, mode, d.st, b[d.consumed..], pieces[1..]);
        Fed(r.code, d.consumed + r.consumed, r.st)
  }

  lemma FeedUnfold(t: Type, mode: int, st: St, kept: Bytes, pieces: seq<Bytes>)
    requires pieces != []
    ensures var b := kept + pieces[0];
            var d := Decode(t, mode, st, b);
            d.consumed <= |b| &&
            Feed(t, mode, st, kept, pieces) ==
            if d.code != WMORE then Fed(d.code, d.consumed, d.st)
            else
              var r := Feed(t, mode, d.st, b[d.consumed..], pieces[1..]);
              Fed(r.code, d.consumed + r.consumed, r.st)
  {
    hide Decode;
  }

  lemma ConcatUnfold(pieces: seq<Bytes>)
    requires pieces != []
    ensures OctetString.Concat(pieces) == pieces[0] + OctetString.Concat(pieces[1..])
  {}

  lemma Buffered(suf: Bytes, kept: Bytes, p: Bytes, rest: Bytes, n: nat)
    requires Comparable(suf, kept + (p + rest))
    ensures Comparable(suf, kept + p)
    ensures suf <= kept + p ==> suf <= kept + (p + rest)
    ensures !(suf <= kept + p) && n <= |kept + p| && n <= |suf| ==>
              && Comparable(suf[n..], (kept + p)[n..] + rest)
              && !(suf[n..] <= (kept + p)[n..])
              && (suf <= kept + (p + rest) <==> suf[n..] <= (kept + p)[n..] + rest)
  {}

  lemma {:induction false} FeedResumes(t: Type, mode: int, tag: Tag, v: Value, st: St, suf: Bytes, kept: Bytes,
                                       pieces: seq<Bytes>)
    requires ValidType(t) && ValidMode(t, mode) && HasType(t, v) && Storable(v)
    requires At(t, mode, tag, v, st, suf) && |suf| <= MAX_LENGTH
    requires Comparable(suf, kept + OctetString.Concat(pieces)) && !(suf <= kept)
    ensures var r := Feed(t, mode, st, kept, pieces);
            if suf <= kept + OctetString.Concat(pieces) then r.code == OK && r.consumed == |suf| && Holds(t, v, r.st)
            else r.code == WMORE
    decreases |pieces|
  {
    hide At, ValidType, ValidMode, HasType, Decode, Holds, Resumed, Comparable, Feed, OctetString.Concat;
    if pieces == [] {
      FeedNothing(t, mode, st, kept, pieces);
    } else {
      FeedUnfold(t, mode, st, kept, pieces);
      ConcatUnfold(pieces);
      var p, rest := pieces[0], OctetString.Concat(pieces[1..]);
      var b := kept + p;
      var d := Decode(t, mode, st, b);
      Buffered(suf, kept, p, rest, 0);
      Resume(t, mode, tag, v, st, suf, b);
      ResumedParts(t, mode, tag, v, suf, b, d);
      if !(suf <= b) {
        Buffered(suf, kept, p, rest, d.consumed);
        FeedResumes(t, mode, tag, v, d.st, suf[d.consumed..], b[d.consumed..], pieces[1..]);
      }
    }
  }

  lemma FeedNothing(t: Type, mode: int, st: St, kept: Bytes, pieces: seq<Bytes>)
    requires pieces == []
    ensures Feed(t, mode, st, kept, pieces).code == WMORE
    ensures kept + OctetString.Concat(pieces) == kept
  {}

  /** However the stream is cut into pieces: more is wanted until the encoding is complete, then
      the value is there and exactly the encoding has been consumed, as in a single call. */
  lemma AnyPieces(t: Type, mode: int, tag: Tag, v: Value, pieces: seq<Bytes>)
    requires ValidType(t) && ValidMode(t, mode) && HasType(t, v) && Storable(v)
    requires |Encode(t, mode, tag, v)| <= MAX_LENGTH
    requires Comparable(Encode(t, mode, tag, v), OctetString.Concat(pieces))
    ensures var r := Feed(t, mode, Absent, [], pieces);
            if Encode(t, mode, tag, v) <= OctetString.Concat(pieces)
            then r.code == OK && r.consumed == |Encode(t, mode, tag, v)| && Holds(t, v, r.st)
            else r.code == WMORE
  {
    hide At, ValidType, ValidMode, HasType, Decode, Holds, Comparable, Feed, OctetString.Concat, Encode;
    StartsAt(t, mode, tag, v);
    EncodeNonEmpty(t, mode, tag, v);
    assert [] + OctetString.Concat(pieces) == OctetString.Concat(pieces);
    FeedResumes(t, mode, tag, v, Absent, Encode(t, mode, tag, v), [], pieces);
  }
}
