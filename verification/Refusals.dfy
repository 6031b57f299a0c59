/** What the decoders refuse and what they never wait for, on every input, and what the octets mean
    that they accept. */
module Refusals {
  import opened Tlv
  import opened TagChain
  import opened SkipLength
  import opened Integers
  import opened Descriptors
  import opened BerDecoder
  import opened Restart
  import opened Soundness
  import OctetString

  // ----- tags

  /** The tags of the first `n` TLs, each inside the one before it. */
  function ReadTags(b: Bytes, n: nat): (ts: seq<int>)
    decreases n
  {
    if n == 0 then []
    else
      match FetchTag(b)
      case Got(tl, tag) =>
        (match FetchLength(Constructed(b[0]), b[tl..])
         case Got(ll, _) => [tag] + ReadTags(b[tl + ll..], n - 1)
         case More => []
         case Bad => [])
      case More => []
      case Bad => []
  }

  lemma ReadOne(b: Bytes, n: nat, tl: nat, tag: int, ll: nat, len: int)
    requires n > 0 && FetchTag(b) == Got(tl, tag) && FetchLength(Constructed(b[0]), b[tl..]) == Got(ll, len)
    ensures ReadTags(b, n) == [tag] + ReadTags(b[tl + ll..], n - 1)
  {
    hide FetchTag, FetchLength, Constructed;
  }

  /** What a TL that is accepted says. */
  lemma AcceptMeans(tags: seq<Tag>, mode: int, lastForm: int, b: Bytes, tagno: int, step: nat, limit: int, eocs: nat)
    requires -1 <= tagno < |tags| && (tagno == -1 ==> mode != 0 && step == 0)
    ensures var v := CheckTL(tags, mode, lastForm, b, tagno, step, limit, eocs);
            v.Accept? ==>
              && FetchTag(b).Got? && FetchLength(Constructed(b[0]), b[FetchTag(b).used..]) == Got(v.used - FetchTag(b).used, v.len)
              && v.form == Constructed(b[0])
              && ((mode != 0 && step == 0) || FetchTag(b).value == tags[tagno])
              && (tagno < |tags| - 1 ==> v.form)
              && (tagno == |tags| - 1 && lastForm != -1 ==> v.form == (lastForm == 1))
              && (v.len == INDEFINITE ==> limit == NONE)
              && (v.len != INDEFINITE ==> v.len >= 0 && eocs == 0 && (limit == NONE || limit == v.len + v.used))
  {
    hide FetchTag, FetchLength, Constructed;
  }

  /** More is wanted of a TL only while its tag or its length is not all there. */
  lemma WantMeans(tags: seq<Tag>, mode: int, lastForm: int, b: Bytes, tagno: int, step: nat, limit: int, eocs: nat)
    requires -1 <= tagno < |tags| && (tagno == -1 ==> mode != 0 && step == 0)
    ensures CheckTL(tags, mode, lastForm, b, tagno, step, limit, eocs).Want? ==>
              FetchTag(b) == More || (FetchTag(b).Got? && FetchLength(Constructed(b[0]), b[FetchTag(b).used..]) == More)
  {
    hide FetchTag, FetchLength, Constructed;
  }

  /** The same two fetches on a longer buffer. */
  lemma FetchedAlike(b: Bytes, c: Bytes)
    requires b <= c && FetchTag(b).Got? && FetchLength(Constructed(b[0]), b[FetchTag(b).used..]).Got?
    ensures FetchTag(c) == FetchTag(b) && c[0] == b[0]
    ensures FetchLength(Constructed(c[0]), c[FetchTag(b).used..]) == FetchLength(Constructed(b[0]), b[FetchTag(b).used..])
  {
    hide FetchTag, FetchLength, Constructed;
    var x, n := c[|b|..], FetchTag(b).used;
    assert c == b + x;
    FetchTagStable(b, x);
    assert c[n..] == b[n..] + x;
    FetchLengthStable(Constructed(b[0]), b[n..], x);
  }

  /** What is accepted of a chain: the tags read are those expected, each length ends exactly where the
      one around it does, or all are indefinite and so many end-of-contents octets are to come. */
  predicate ChainMeans(r: Check, tags: seq<Tag>, mode: int, lastForm: int, c: Bytes, tagno: int, step: nat, consumed: nat,
                       limit: int, eocs: nat)
    requires -1 <= tagno <= |tags|
  {
    r.code == OK ==>
      var ts := ReadTags(c, |tags| - tagno);
      && |ts| == |tags| - tagno && r.step == step + |tags| - tagno
      && (forall i :: 0 <= i < |ts| && !(i == 0 && mode != 0 && step == 0) ==> tagno + i >= 0 && ts[i] == tags[tagno + i])
      && (limit != NONE ==> r.length >= 0 && r.consumed + r.length == consumed + limit)
      && (limit == NONE && eocs > 0 ==> r.length == 0 - (eocs + |tags| - tagno))
      && (tagno < |tags| && lastForm != -1 ==> r.form == (lastForm == 1))
  }

  lemma {:induction false} LoopMeans(tags: seq<Tag>, mode: int, lastForm: int, b: Bytes, c: Bytes, tagno: int, step: nat,
                                     consumed: nat, limit: int, eocs: nat, length: int, form: bool)
    requires -1 <= tagno <= |tags| && (tagno == -1 ==> mode != 0 && step == 0) && b <= c
    requires (limit != NONE ==> limit >= 0 && eocs == 0 && length == limit) && (step == 0 ==> limit == NONE && eocs == 0)
    requires tagno == |tags| ==> step > 0 && (limit != NONE || eocs > 0)
    ensures ChainMeans(CheckLoop(tags, mode, lastForm, true, b, tagno, step, consumed, limit, eocs, length, form),
                       tags, mode, lastForm, c, tagno, step, consumed, limit, eocs)
    decreases |tags| - tagno
  {
    hide CheckLoop, CheckTL, Cut, FetchTag, FetchLength, Constructed, ReadTags, ChainMeans;
    LoopUnfold(tags, mode, lastForm, true, b, tagno, step, consumed, limit, eocs, length, form);
    var r := CheckLoop(tags, mode, lastForm, true, b, tagno, step, consumed, limit, eocs, length, form);
    if tagno == |tags| {
      ChainEnds(r, tags, mode, lastForm, c, step, consumed, limit, eocs);
    } else {
      var v := CheckTL(tags, mode, lastForm, b, tagno, step, limit, eocs);
      AcceptMeans(tags, mode, lastForm, b, tagno, step, limit, eocs);
      if v.Accept? {
        FetchedAlike(b, c);
        var rest, more := b[v.used..], c[v.used..];
        assert rest <= more;
        if v.len == INDEFINITE {
          LoopMeans(tags, mode, lastForm, rest, more, tagno + 1, step + 1, consumed + v.used, limit, eocs + 1, v.len, v.form);
        } else {
          CutPrefix(rest, v.len, more);
          LoopMeans(tags, mode, lastForm, Cut(rest, v.len), more, tagno + 1, step + 1, consumed + v.used, v.len, eocs, v.len, v.form);
        }
        LastForm(tags, mode, lastForm, if v.len == INDEFINITE then rest else Cut(rest, v.len), tagno + 1, step + 1, consumed + v.used,
                 if v.len == INDEFINITE then limit else v.len, if v.len == INDEFINITE then eocs + 1 else eocs, v.len, v.form);
        ChainSteps(r, tags, mode, lastForm, c, tagno, step, consumed, limit, eocs, v);
      } else {
        ChainStopped(r, tags, mode, lastForm, c, tagno, step, consumed, limit, eocs);
      }
    }
  }

  lemma CutPrefix(b: Bytes, n: nat, c: Bytes)
    requires b <= c
    ensures Cut(b, n) <= c
  {}

  lemma ChainStopped(r: Check, tags: seq<Tag>, mode: int, lastForm: int, c: Bytes, tagno: int, step: nat, consumed: nat,
                     limit: int, eocs: nat)
    requires -1 <= tagno <= |tags| && r.code != OK
    ensures ChainMeans(r, tags, mode, lastForm, c, tagno, step, consumed, limit, eocs)
  {}

  lemma ChainEnds(r: Check, tags: seq<Tag>, mode: int, lastForm: int, c: Bytes, step: nat, consumed: nat, limit: int, eocs: nat)
    requires r.code == OK && r.consumed == consumed && r.step == step
    requires (limit != NONE ==> limit >= 0 && eocs == 0 && r.length == limit) && (limit == NONE ==> eocs > 0 && r.length == 0 - eocs)
    ensures ChainMeans(r, tags, mode, lastForm, c, |tags|, step, consumed, limit, eocs)
  {}

  /** Behind the last TL its form is what is reported. */
  lemma LastForm(tags: seq<Tag>, mode: int, lastForm: int, b: Bytes, tagno: int, step: nat, consumed: nat, limit: int, eocs: nat,
                 length: int, form: bool)
    requires 0 <= tagno <= |tags|
    ensures tagno == |tags| ==>
              CheckLoop(tags, mode, lastForm, true, b, tagno, step, consumed, limit, eocs, length, form).form == form
  {}

  lemma ChainSteps(r: Check, tags: seq<Tag>, mode: int, lastForm: int, c: Bytes, tagno: int, step: nat, consumed: nat,
                   limit: int, eocs: nat, v: Verdict)
    requires -1 <= tagno < |tags| && (tagno == -1 ==> mode != 0 && step == 0) && v.Accept? && 2 <= v.used <= |c|
    requires step == 0 ==> limit == NONE && eocs == 0
    requires FetchTag(c).Got? && FetchTag(c).used <= v.used
    requires FetchLength(Constructed(c[0]), c[FetchTag(c).used..]) == Got(v.used - FetchTag(c).used, v.len)
    requires (mode != 0 && step == 0) || FetchTag(c).value == tags[tagno]
    requires tagno == |tags| - 1 && lastForm != -1 ==> v.form == (lastForm == 1)
    requires tagno == |tags| - 1 ==> r.code == OK ==> r.form == v.form
    requires v.len == INDEFINITE ==> limit == NONE
    requires v.len != INDEFINITE ==> v.len >= 0 && eocs == 0 && (limit == NONE || limit == v.len + v.used)
    requires ChainMeans(r, tags, mode, lastForm, c[v.used..], tagno + 1, step + 1, consumed + v.used,
                        if v.len == INDEFINITE then limit else v.len, if v.len == INDEFINITE then eocs + 1 else eocs)
    ensures ChainMeans(r, tags, mode, lastForm, c, tagno, step, consumed, limit, eocs)
  {
    hide FetchTag, FetchLength, Constructed, ReadTags;
    ReadOne(c, |tags| - tagno, FetchTag(c).used, FetchTag(c).value, v.used - FetchTag(c).used, v.len);
  }

  /** `ber_check_tags` on any octets: what acceptance means. The first tag is not looked at where the
      member that holds the value has a tag of its own: that one has led to the member already. */
  lemma CheckTagsMeans(tags: seq<Tag>, mode: int, lastForm: int, b: Bytes)
    requires mode in {-1, 0, 1} && (mode != 1 ==> tags != [])
    ensures var r, n := CheckTags(tags, true, 0, b, mode, lastForm), if mode == 1 then |tags| + 1 else |tags|;
            var ts := ReadTags(b, n);
            r.code == OK ==>
              && |ts| == n && r.step == n
              && (mode == 0 ==> forall i :: 0 <= i < n ==> ts[i] == tags[i])
              && (mode == -1 ==> forall i :: 0 < i < n ==> ts[i] == tags[i])
              && (mode == 1 ==> forall i :: 0 < i < n ==> ts[i] == tags[i - 1])
              && (lastForm != -1 ==> r.form == (lastForm == 1))
              && FetchTag(b).Got? && FetchLength(Constructed(b[0]), b[FetchTag(b).used..]).Got?
              && var tl, l := FetchTag(b).used, FetchLength(Constructed(b[0]), b[FetchTag(b).used..]);
              if l.value == INDEFINITE then r.length == 0 - n
              else r.length >= 0 && r.consumed + r.length == tl + l.used + l.value
  {
    hide CheckLoop, CheckTL, Cut, FetchTag, FetchLength, Constructed, ReadTags;
    var tagno := if mode == 1 then -1 else 0;
    LoopMeans(tags, mode, lastForm, b, b, tagno, 0, 0, NONE, 0, 0, false);
    LoopUnfold(tags, mode, lastForm, true, b, tagno, 0, 0, NONE, 0, 0, false);
    AcceptMeans(tags, mode, lastForm, b, tagno, 0, NONE, 0);
    var v := CheckTL(tags, mode, lastForm, b, tagno, 0, NONE, 0);
    if v.Accept? {
      var rest := b[v.used..];
      if v.len == INDEFINITE {
        LoopMeans(tags, mode, lastForm, rest, rest, tagno + 1, 1, v.used, NONE, 1, v.len, v.form);
      } else {
        CutPrefix(rest, v.len, rest);
        LoopMeans(tags, mode, lastForm, Cut(rest, v.len), rest, tagno + 1, 1, v.used, v.len, 0, v.len, v.form);
      }
    }
  }

  /** A wrong first tag is refused at once. */
  lemma WrongTagRefused(t: Type, b: Bytes)
    requires ValidType(t) && t.tags != [] && FetchTag(b).Got? && FetchTag(b).value != t.tags[0]
    ensures Decode(t, 0, Absent, b).code == FAIL && Decode(t, 0, Absent, b).consumed == 0
  {
    hide FetchTag, FetchLength, Constructed, ValidType;
    WrongTagChecked(t.tags, true, b, 1);
    WrongTagChecked(t.tags, true, b, -1);
    WrongTagChecked(t.tags, false, b, 0);
    hide CheckTags;
  }

  lemma WrongTagChecked(tags: seq<Tag>, hasCtx: bool, b: Bytes, lastForm: int)
    requires tags != [] && FetchTag(b).Got? && FetchTag(b).value != tags[0]
    ensures CheckTags(tags, hasCtx, 0, b, 0, lastForm) == Stop(FAIL, hasCtx, 0, 0)
  {
    hide FetchTag, FetchLength, Constructed;
  }

  // ----- primitive contents

  /** The number, the truth and the string are those of the contents octets. */
  lemma IntegerMeans(tags: seq<Tag>, mode: int, st: St, b: Bytes)
    ensures var d, k := DecodeInteger(tags, mode, st, b), CheckTags(tags, false, 0, b, mode, 0);
            d.code == OK <==>
              && k.code == OK && 0 <= k.length <= |b| - k.consumed
              && FitsLong(Integers.Value(b[k.consumed..k.consumed + k.length]))
    ensures var d, k := DecodeInteger(tags, mode, st, b), CheckTags(tags, false, 0, b, mode, 0);
            d.code == OK ==>
              d.consumed == k.consumed + k.length && d.st == SInt(Integers.Value(b[k.consumed..d.consumed]))
    ensures var d, k := DecodeInteger(tags, mode, st, b), CheckTags(tags, false, 0, b, mode, 0);
            && (k.code != OK ==> d.code == k.code)
            && (d.code == WMORE <==> k.code == WMORE || (k.code == OK && k.length > |b| - k.consumed))
            && (d.code != OK ==> d.st == st && (k.code == OK ==> d.consumed == 0))
  {
    hide CheckTags, ToLong, FitsLong, Integers.Value;
    var k := CheckTags(tags, false, 0, b, mode, 0);
    if k.code == OK && 0 <= k.length <= |b| - k.consumed {
      ToLongExact(b[k.consumed..k.consumed + k.length]);
    }
  }

  lemma {:induction false} TruthMeans(c: Bytes)
    ensures FirstTruth(c) != 0 <==> exists i :: 0 <= i < |c| && c[i] != 0
  {
    if c != [] && c[0] == 0 {
      TruthMeans(c[1..]);
      if FirstTruth(c[1..]) != 0 {
        var i :| 0 <= i < |c[1..]| && c[1..][i] != 0;
        assert c[i + 1] != 0;
      } else {
        forall i | 0 <= i < |c| ensures c[i] == 0 {
          if i > 0 {
            assert c[1..][i - 1] == c[i];
          }
        }
      }
    }
  }

  lemma BooleanMeans(tags: seq<Tag>, mode: int, st: St, b: Bytes)
    ensures var d, k := DecodeBoolean(tags, mode, st, b), CheckTags(tags, false, 0, b, mode, 0);
            && (d.code == OK <==> k.code == OK && 0 <= k.length <= |b| - k.consumed)
            && (d.code == OK ==>
                  && d.consumed == k.consumed + k.length && d.st.SBool?
                  && (d.st.truth != 0 <==> exists i :: k.consumed <= i < d.consumed && b[i] != 0))
            && (d.code == WMORE <==> k.code == WMORE || (k.code == OK && k.length > |b| - k.consumed))
            && (d.code != OK ==> d.st == st && (k.code == OK ==> d.consumed == 0))
  {
    hide CheckTags, FirstTruth;
    var k := CheckTags(tags, false, 0, b, mode, 0);
    if k.code == OK && 0 <= k.length <= |b| - k.consumed {
      var c := b[k.consumed..k.consumed + k.length];
      TruthMeans(c);
      assert forall i :: 0 <= i < |c| ==> c[i] == b[k.consumed + i];
      assert forall i :: k.consumed <= i < k.consumed + k.length ==> b[i] == c[i - k.consumed];
    }
  }

  /** A primitive string in one call: its contents, unless they are longer than the buffer may grow. */
  lemma StringMeans(tags: seq<Tag>, allTags: seq<Tag>, mode: int, b: Bytes)
    ensures var d, k := OctetString.Decode(tags, allTags, OctetString.FRESH, b, mode), CheckTags(tags, true, 0, b, mode, -1);
            k.code == OK && !k.form && 0 <= k.length <= |b| - k.consumed ==>
              if k.length < OctetString.MAX_STRING
              then d.code == OK && d.consumed == k.consumed + k.length && d.ctx.buf == b[k.consumed..d.consumed]
              else d.code == FAIL
  {
    hide CheckTags, OctetString.Run;
    var k := CheckTags(tags, true, 0, b, mode, -1);
    if k.code == OK && !k.form && 0 <= k.length <= |b| - k.consumed {
      assert b[k.consumed..][..k.length] == b[k.consumed..k.consumed + k.length];
      assert [] + b[k.consumed..][..k.length] == b[k.consumed..][..k.length];
    }
  }

  // ----- what may come next in a SEQUENCE

  /** The tag begins none of the members that may come next. */
  predicate OutOfPlace(ms: seq<Member>, e: nat, tag: Tag)
    requires e < |ms|
  {
    tag != NO_TAG && forall i :: e <= i < |ms| && i <= e + ms[e].optional ==> tag !in MemberTags(ms[i])
  }

  lemma {:induction false} LinearPasses(ms: seq<Member>, tag: Tag, e: nat, n: nat, stop: nat, wide: bool)
    requires stop <= |ms| && e <= n && forall i :: e <= i < stop ==> ms[i].tag != tag
    ensures Linear(ms, tag, n, stop, wide).Missed?
    decreases stop - n
  {
    if n < stop {
      LinearPasses(ms, tag, e, n + 1, stop, wide);
    }
  }

  lemma {:induction false} LookupPasses(rows: seq<Row>, tag: Tag, lo: nat, hi: nat)
    requires forall i :: 0 <= i < |rows| && rows[i].tag == tag ==> !(lo <= rows[i].el <= hi)
    ensures Lookup(rows, tag, lo, hi) == Nowhere
    decreases |rows|
  {
    if rows != [] {
      LookupPasses(rows[..|rows| - 1], tag, lo, hi);
    }
  }

  lemma NotFound(ms: seq<Member>, rows: seq<Row>, e: nat, tag: Tag)
    requires MembersValid(ms) && RowsMatch(ms, rows) && e < |ms| && OutOfPlace(ms, e, tag)
    ensures Find(ms, rows, e, tag) == Nowhere
  {
    hide MemberTags, ValidType, Linear, Lookup;
    forall i | e <= i < ScanEnd(ms, e) ensures ms[i].tag != tag {
      assert ValidMember(ms[i]);
      TagsOfValidType(ms[i]);
      MemberTagBegins(ms[i]);
    }
    LinearPasses(ms, tag, e, e, ScanEnd(ms, e), ScanIsCut(ms, e));
    forall i | 0 <= i < |rows| && rows[i].tag == tag ensures !(e <= rows[i].el <= e + ms[e].optional) {
      assert rows[i] in rows;
    }
    LookupPasses(rows, tag, e, e + ms[e].optional);
  }

  lemma LocateRefuses(t: Type, e: nat, left: int, b: Bytes)
    requires t.Sequence? && e < |t.members| && left != 0 && !InExtension(t, e + t.members[e].optional)
    requires FetchTag(Visible(left, b)).Got?
    requires left < 0 ==> Visible(left, b)[0] != 0
    requires Find(t.members, t.rows, e, FetchTag(Visible(left, b)).value) == Nowhere
    ensures Locate(t, e, left, b) == Halt(FAIL)
  {
    hide FetchTag, Find, Visible, MayEnd, InExtension, Skip;
  }

  /** Between members: a value that is none of those that may come next, in a place that is not open to
      extensions, is refused. */
  lemma NextRefused(t: Type, e: nat, left: int, fields: seq<St>, b: Bytes, used: nat)
    requires t.Sequence? && ValidType(t) && e < |t.members| && |fields| == |t.members|
    requires left != 0 && FetchTag(Visible(left, b)).Got? && (left < 0 ==> Visible(left, b)[0] != 0)
    requires OutOfPlace(t.members, e, FetchTag(Visible(left, b)).value) && !InExtension(t, e + t.members[e].optional)
    ensures DecodeMembers(t, e, 2 * e, left, fields, b, used).code == FAIL
  {
    hide *;
    SequenceValid(t);
    NotFound(t.members, t.rows, e, FetchTag(Visible(left, b)).value);
    LocateRefuses(t, e, left, b);
    DoubleIs(e);
    MembersStep(t, e, 2 * e, left, fields, b, used);
  }

  /** Behind the last member, too: whatever is left in a SEQUENCE that is not open at its end. */
  lemma TailRefused(t: Type, step: nat, left: int, fields: seq<St>, b: Bytes, used: nat)
    requires t.Sequence? && |fields| == |t.members| && !InExtension(t, |t.members|)
    requires left != 0 && FetchTag(Visible(left, b)).Got? && (left < 0 ==> Visible(left, b)[0] != 0)
    ensures DecodeMembers(t, |t.members|, step, left, fields, b, used).code == FAIL
  {
    hide FetchTag, Visible, InExtension, Skip;
    MembersExhausted(t, |t.members|, step, left, fields, b, used);
  }

  /** Malformed octets are refused and not waited for: in front of a member, behind the members, and
      in front of an alternative. */
  lemma MalformedRefused(t: Type, e: nat, phase: nat, left: int, b: Bytes, used: nat)
    requires left != 0 && FetchTag(Visible(left, b)) == Bad
    ensures t.Sequence? && e < |t.members| ==> Locate(t, e, left, b) == Halt(FAIL)
    ensures t.Sequence? ==> SkipTail(t, phase, left, b, used).code == FAIL
    ensures t.Choice? ==> forall mode :: ChooseAlternative(t, mode, left, 0, Absent, b, used).code == FAIL
  {
    hide FetchTag, Visible, Find, InExtension, Skip, DecodeChosen;
  }

  /** So is an unknown value that is malformed. */
  lemma MalformedUnknownRefused(t: Type, e: nat, left: int, b: Bytes, used: nat)
    requires left != 0 && FetchTag(Visible(left, b)).Got? && Visible(left, b)[0] != 0
    requires Skip(Constructed(Visible(left, b)[0]), Visible(left, b)[FetchTag(Visible(left, b)).used..]) == Bad
    ensures t.Sequence? && e < |t.members| && Find(t.members, t.rows, e, FetchTag(Visible(left, b)).value) == Nowhere ==>
              Locate(t, e, left, b) == Halt(FAIL)
    ensures t.Sequence? ==> SkipTail(t, 3, left, b, used).code == FAIL
    ensures t.Choice? && Alternative(t.members, t.rows, FetchTag(Visible(left, b)).value) == Nowhere ==>
              forall mode :: ChooseAlternative(t, mode, left, 0, Absent, b, used).code == FAIL
  {
    hide FetchTag, Visible, Find, InExtension, Skip, DecodeChosen, Constructed, Alternative, MayEnd;
  }

  // ----- nothing is waited for that cannot come

  lemma AllVisible(left: int, b: Bytes)
    requires 0 <= left <= |b|
    ensures |Visible(left, b)| == left && Violation(left, b) && Starved(left, b) == FAIL
  {}

  lemma {:induction false} TailDecides(t: Type, phase: nat, left: int, b: Bytes, used: nat)
    requires t.Sequence? && 0 <= left <= |b|
    ensures SkipTail(t, phase, left, b, used).code != WMORE
    decreases |b|
  {
    hide FetchTag, Skip, Constructed, InExtension, Visible, Starved;
    AllVisible(left, b);
    var w := Visible(left, b);
    if left != 0 && FetchTag(w).Got? {
      var k := Skip(Constructed(w[0]), w[FetchTag(w).used..]);
      if k.Got? {
        var n := FetchTag(w).used + k.used;
        LessLeft(left, n);
        TailDecides(t, phase, left - n, b[n..], used + n);
      }
    }
  }

  lemma LocateDecides(t: Type, edx: nat, left: int, b: Bytes)
    requires t.Sequence? && edx < |t.members| && 0 <= left <= |b|
    ensures var r := Locate(t, edx, left, b);
            (r.Halt? ==> r.code == FAIL) && !r.Tail? && (r.Skipped? ==> r.used <= left)
  {
    hide FetchTag, Find, Skip, Constructed, InExtension, MayEnd, Visible, Starved;
    AllVisible(left, b);
  }

  /** When all the octets of a SEQUENCE are in the buffer, no call on it wants more. */
  lemma {:induction false} MembersDecide(t: Type, edx: nat, step: nat, left: int, fields: seq<St>, b: Bytes, used: nat)
    requires t.Sequence? && |fields| == |t.members| && 0 <= left <= |b|
    ensures DecodeMembers(t, edx, step, left, fields, b, used).code != WMORE
    decreases |b|, Remaining(t, edx), 2 - step % 2
  {
    hide *;
    if edx >= |t.members| {
      MembersExhausted(t, edx, step, left, fields, b, used);
      TailDecides(t, 3, left, b, used);
      TailIs(t, step, left, fields, b, used);
    } else {
      MembersStep(t, edx, step, left, fields, b, used);
      RemainingStep(t, edx);
      if step % 2 == 1 {
        var m, w := t.members[edx], Visible(left, b);
        AllVisible(left, b);
        OneStep(t, edx, step, left, fields, b, used);
        var r := Decode(m.ty, m.mode, fields[edx], w);
        UsedWithin(m.ty, m.mode, fields[edx], w);
        if r.code == OK {
          LessLeft(left, r.consumed);
          MembersDecide(t, edx + 1, step - step % 2 + 2, left - r.consumed, fields[edx := r.st], b[r.consumed..], used + r.consumed);
        }
      } else {
        LocateDecides(t, edx, left, b);
        LocateForward(t, edx, left, b);
        match Locate(t, edx, left, b)
        case End =>
        case Halt(_) =>
        case Tail =>
        case Found(n) =>
          RemainingLess(t, edx, n);
          HalfOdd(n);
          MembersDecide(t, n, 1 + 2 * n, left, fields, b, used);
        case Skipped(k) =>
          LessLeft(left, k);
          MembersDecide(t, edx + t.members[edx].optional, step, left - k, fields, b[k..], used + k);
      }
    }
  }

  lemma TailIs(t: Type, step: nat, left: int, fields: seq<St>, b: Bytes, used: nat)
    requires t.Sequence?
    ensures DecodeTail(t, 3, step, left, fields, b, used).code == SkipTail(t, 3, left, b, used).code
  {}

  lemma UsedWithin(t: Type, mode: int, st: St, b: Bytes)
    ensures Decode(t, mode, st, b).consumed <= |b|
  {}

  lemma LocateForward(t: Type, edx: nat, left: int, b: Bytes)
    requires t.Sequence? && edx < |t.members|
    ensures Locate(t, edx, left, b).Found? ==> Locate(t, edx, left, b).el >= edx
    ensures Locate(t, edx, left, b).Skipped? ==> 0 < Locate(t, edx, left, b).used <= |b|
  {}

  /** So a SEQUENCE of definite length that is there is decided: a member that does not fit in it, or
      one that is missing, is refused and not waited for. */
  lemma SequenceDecides(t: Type, mode: int, b: Bytes)
    requires t.Sequence?
    ensures var k := CheckTags(t.tags, true, 0, b, mode, 1);
            k.code == OK && 0 <= k.length <= |b| - k.consumed ==> Decode(t, mode, Absent, b).code != WMORE
  {
    hide *;
    var k := CheckTags(t.tags, true, 0, b, mode, 1);
    if k.code == OK && 0 <= k.length <= |b| - k.consumed {
      FreshSequence(t, mode, b);
      ConsumedWithin(t.tags, 0, b, mode, 1);
      MembersDecide(t, 0, 0, k.length, Absents(|t.members|), b[k.consumed..], k.consumed);
    }
  }

  lemma FreshSequence(t: Type, mode: int, b: Bytes)
    requires t.Sequence?
    ensures |Absents(|t.members|)| == |t.members|
    ensures var k := CheckTags(t.tags, true, 0, b, mode, 1);
            k.consumed <= |b| &&
            (k.code == OK ==>
               Decode(t, mode, Absent, b) == DecodeMembers(t, 0, 0, k.length, Absents(|t.members|), b[k.consumed..], k.consumed))
  {
    hide CheckTags, DecodeMembers;
  }

  lemma ChosenDecides(t: Type, mode: int, el: nat, left: int, member: St, b: Bytes, used: nat)
    requires t.Choice? && el < |t.members| && 0 <= left <= |b|
    ensures DecodeChosen(t, mode, el, left, member, b, used).code != WMORE
  {
    hide *;
    var m, w := t.members[el], Visible(left, b);
    AllVisible(left, b);
    ChosenSteps(t, mode, el, left, member, b, used);
    UsedWithin(m.ty, m.mode, member, w);
    var r := Decode(m.ty, m.mode, member, w);
    if r.code == OK {
      LessLeft(left, r.consumed);
      FinishDecides(t, mode, left - r.consumed, el + 1, r.st, b[r.consumed..], used + r.consumed);
    }
  }

  lemma FinishDecides(t: Type, mode: int, left: nat, present: nat, member: St, b: Bytes, used: nat)
    requires t.Choice?
    ensures var d := FinishChoice(t, mode, left, present, member, b, used); d.code == if left == 0 then OK else FAIL
  {}

  /** The same for a tagged CHOICE; octets behind its alternative are refused. */
  lemma ChoiceDecides(t: Type, mode: int, b: Bytes)
    requires t.Choice? && ValidType(t) && !Untagged(t, mode)
    ensures var k := CheckTags(t.tags, true, 0, b, mode, -1);
            k.code == OK && 0 <= k.length <= |b| - k.consumed ==> Decode(t, mode, Absent, b).code != WMORE
  {
    hide *;
    ChoiceValid(t);
    var k := CheckTags(t.tags, true, 0, b, mode, -1);
    if k.code == OK && 0 <= k.length <= |b| - k.consumed {
      ConsumedWithin(t.tags, 0, b, mode, -1);
      FreshChoice(t, mode, b);
      var c := b[k.consumed..];
      ChooseDecides(t, mode, k.length, c, k.consumed);
    }
  }

  lemma FreshChoice(t: Type, mode: int, b: Bytes)
    requires t.Choice?
    ensures Untagged(t, mode) ==> Decode(t, mode, Absent, b) == ChooseAlternative(t, mode, -1, 0, Absent, b, 0)
    ensures !Untagged(t, mode) ==>
              var k := CheckTags(t.tags, true, 0, b, mode, -1);
              k.consumed <= |b| &&
              (k.code == OK ==>
                 Decode(t, mode, Absent, b) == ChooseAlternative(t, mode, k.length, 0, Absent, b[k.consumed..], k.consumed))
  {
    hide CheckTags, ChooseAlternative;
  }

  lemma ChooseDecides(t: Type, mode: int, left: int, b: Bytes, used: nat)
    requires t.Choice? && RowsMatch(t.members, t.rows) && 0 <= left <= |b|
    ensures ChooseAlternative(t, mode, left, 0, Absent, b, used).code != WMORE
  {
    hide FetchTag, Visible, Starved, DecodeChosen, Alternative, Skip, Constructed, RowsMatch;
    AllVisible(left, b);
    var w := Visible(left, b);
    if FetchTag(w).Got? {
      var x := Alternative(t.members, t.rows, FetchTag(w).value);
      if x.Here? {
        ChosenDecides(t, mode, x.el, left, Absent, b, used);
      }
    }
  }

  // ----- alternatives that are not known

  predicate UnknownAlternative(ms: seq<Member>, tag: Tag) {
    forall i :: 0 <= i < |ms| ==> tag !in MemberTags(ms[i])
  }

  lemma NoAlternative(ms: seq<Member>, rows: seq<Row>, tag: Tag)
    requires RowsMatch(ms, rows) && UnknownAlternative(ms, tag)
    ensures Alternative(ms, rows, tag) == Nowhere
  {
    hide MemberTags, Lookup;
    forall i | 0 <= i < |rows| ensures rows[i].tag != tag {
      assert rows[i] in rows;
    }
    if |ms| > 0 {
      LookupPasses(rows, tag, 0, |ms| - 1);
    }
  }

  /** An alternative that is not known is refused by a CHOICE that is not extensible, and skipped,
      exactly and with nothing chosen, by one that is. */
  lemma UnknownAlternativeMeans(t: Type, n: Node, x: Bytes)
    requires t.Choice? && ValidType(t) && t.tags == [] && WellFormed(n) && UnknownAlternative(t.members, n.tag)
    ensures var d := Decode(t, 0, Absent, Encoded(n) + x);
            if t.extStart == -1 then d.code == FAIL
            else d.code == OK && d.consumed == |Encoded(n)| && d.st.SCho? && d.st.present == 0
  {
    hide *;
    ChoiceValid(t);
    NoAlternative(t.members, t.rows, n.tag);
    var b := Encoded(n) + x;
    NodeFetched(n, x);
    NoTags(t);
    FreshChoice(t, 0, b);
    ChooseNone(t, b, |Identifier(n.tag, IsConstructed(n))|, n.tag, |Encoded(n)| - |Identifier(n.tag, IsConstructed(n))|);
  }

  lemma NoTags(t: Type)
    requires t.Choice? && t.tags == []
    ensures Untagged(t, 0)
  {}

  lemma NodeFetched(n: Node, x: Bytes)
    requires WellFormed(n)
    ensures var b, id := Encoded(n) + x, Identifier(n.tag, IsConstructed(n));
            && |b| >= 1 && FetchTag(b) == Got(|id|, n.tag) && |id| < |Encoded(n)|
            && Skip(Constructed(b[0]), b[|id|..]) == Got(|Encoded(n)| - |id|, 0)
  {
    hide Skip, FetchTag, LengthAndContents, Identifier, Constructed;
    var id, v := Identifier(n.tag, IsConstructed(n)), LengthAndContents(n);
    EncodedParts(n);
    Split3(id, v, x);
    FetchTagRoundTrip(n.tag, IsConstructed(n), v + x);
    SkipExact(n, x);
    assert (Encoded(n) + x)[0] == id[0];
  }

  lemma ChooseNone(t: Type, b: Bytes, tl: nat, tag: int, k: nat)
    requires t.Choice? && b != [] && FetchTag(b) == Got(tl, tag) && Skip(Constructed(b[0]), b[tl..]) == Got(k, 0)
    requires Alternative(t.members, t.rows, tag) == Nowhere
    ensures var d := ChooseAlternative(t, 0, -1, 0, Absent, b, 0);
            if t.extStart == -1 then d.code == FAIL
            else d.code == OK && d.consumed == tl + k && d.st.SCho? && d.st.present == 0
  {
    hide FetchTag, Skip, Constructed, Alternative;
  }

  // ----- end-of-contents octets

  /** Half a pair of end-of-contents octets is waited for, in front of a member, behind the members and
      behind an alternative. */
  lemma HalfPairWaits(t: Type, e: nat, phase: nat, left: int, used: nat)
    requires left < 0
    ensures t.Sequence? && e < |t.members| ==> Locate(t, e, left, [0]) == Halt(WMORE)
    ensures t.Sequence? ==> SkipTail(t, phase, left, [0], used) == BerDecoder.Ending(WMORE, used, phase, left)
    ensures SkipEocs(left, [0], used) == BerDecoder.Ending(WMORE, used, 3, left)
    ensures SkipEocs(left, [], used) == BerDecoder.Ending(WMORE, used, 3, left)
  {
    hide Find, Skip, InExtension, FetchTag;
    ZeroTag([0]);
    NoOctets();
  }

  lemma NoOctets()
    ensures FetchTag([]) == More
  {}

  /** Where end-of-contents octets must come, anything else is refused. */
  lemma OtherThanEoc(t: Type, left: int, b: Bytes, used: nat)
    requires left < 0 && b != [] && b[0] != 0 && FetchTag(b) != More
    ensures SkipEocs(left, b, used).code == FAIL
    ensures t.Sequence? ==> SkipTail(t, 4, left, b, used).code == FAIL
  {
    hide FetchTag, InExtension, Skip;
  }

  // ----- skipping, and the TL of an ANY

  lemma SkipRefuses(constructed: bool, b: Bytes)
    ensures FetchLength(constructed, b) == Bad ==> Skip(constructed, b) == Bad
    ensures FetchLength(constructed, b).Got? && FetchLength(constructed, b).value >= 0 ==>
              Skip(constructed, b) == var l := FetchLength(constructed, b);
                                      if l.used + l.value <= |b| then Got(l.used + l.value, 0) else More
    ensures forall n :: FetchTag(b) == Bad ==> SkipUntilEoc(b, n) == Bad
    ensures forall n :: FetchTag(b).Got? && Skip(Constructed(b[0]), b[FetchTag(b).used..]) == Bad ==> SkipUntilEoc(b, n) == Bad
  {
    hide FetchTag, FetchLength, Constructed;
    forall n: nat ensures FetchTag(b) == Bad ==> SkipUntilEoc(b, n) == Bad
                  ensures FetchTag(b).Got? && Skip(Constructed(b[0]), b[FetchTag(b).used..]) == Bad ==> SkipUntilEoc(b, n) == Bad
    {
      SkipUnfold(b, n);
    }
  }

  /** An untagged ANY takes any one TL. */
  lemma AnyMeans(hasCtx: bool, b: Bytes, lastForm: int)
    ensures var r := CheckTags([], hasCtx, 0, b, 0, lastForm);
            var t := FetchTag(b);
            if !t.Got? then r == Stop(if t == Bad then FAIL else WMORE, hasCtx, 0, 0)
            else
              var l := FetchLength(Constructed(b[0]), b[t.used..]);
              if !l.Got? then r == Stop(if l == Bad then FAIL else WMORE, hasCtx, 0, 0)
              else r == Check(OK, t.used + l.used, 0, l.value, Constructed(b[0]))
  {
    hide FetchTag, FetchLength, Constructed;
  }

  // ----- a structure that is decoded

  /** Another call on a structure that is decoded says so again and consumes nothing. */
  lemma DecodedStays(t: Type, mode: int, st: St, b: Bytes)
    requires || (t.Sequence? && st.SSeq? && st.sc.phase == 10 && |st.fields| == |t.members|)
             || (t.Choice? && st.SCho? && st.cc.phase == 4)
             || (t.String? && st.SStr? && st.os.phase == 4)
    ensures Decode(t, mode, st, b) == Dec(OK, 0, st)
  {}
}
