/** The other encodings of a value that section 8 of X.690 allows, decoded in one call: lengths may be
    indefinite, a string may be cut into segments, an extensible SEQUENCE may carry values that are
    not known. Also where the CHOICE decoder does not return. */
module BerForms {
  import opened Tlv
  import opened TagChain
  import opened SkipLength
  import opened Descriptors
  import opened BerDecoder
  import opened Restart
  import OctetString

  /** How a value is encoded: as in DER, a string in segments, or part by part, with indefinite
      lengths or not and with unknown values at the end. */
  datatype Form =
    | Plain
    | Segmented(node: Node)
    | Parts(indefinite: bool, extra: Nodes, parts: seq<Form>)

  /** No member begins with the tag. */
  predicate UnknownTag(ms: seq<Member>, tag: Tag) {
    tag != NO_TAG && forall i :: 0 <= i < |ms| ==> tag !in MemberTags(ms[i])
  }

  predicate AllUnknown(ms: seq<Member>, ns: Nodes)
    decreases ns
  {
    match ns
    case Nil => true
    case Cons(h, t) => UnknownTag(ms, h.tag) && AllUnknown(ms, t)
  }

  /** The universal tag 0 is that of end-of-contents octets and of nothing else. */
  predicate NoZeroTag(ms: seq<Member>) {
    forall i :: 0 <= i < |ms| ==> 0 !in MemberTags(ms[i])
  }

  predicate SegmentedFits(t: Type, mode: int, tag: Tag, s: Bytes, n: Node) {
    && t.String? && |t.tags| == 1 && t.allTags == t.tags && mode in {-1, 0}
    && !n.Primitive? && WellFormed(n) && OctetString.Segments(n.children, t.tags[0])
    && n.tag == (if mode == 0 then t.tags[0] else tag) && n.tag != 0 && t.tags[0] != 0
    && OctetString.Flat(n) == s
  }

  predicate SequenceFits(t: Type, v: Value, f: Form)
    requires t.Sequence? && HasType(t, v) && f.Parts?
    decreases v, 0
  {
    && |f.parts| == |t.members|
    && AllWellFormed(f.extra) && AllUnknown(t.members, f.extra)
    && (f.extra != Nil ==> InExtension(t, |t.members|))
    && (f.indefinite ==> NoZeroTag(t.members))
    && forall i :: 0 <= i < |t.members| && v.fields[i].Some? ==>
         Fits(t.members[i].ty, t.members[i].mode, t.members[i].tag, v.fields[i].v, f.parts[i])
  }

  predicate ChoiceFits(t: Type, mode: int, v: Value, f: Form)
    requires t.Choice? && HasType(t, v) && f.Parts?
    decreases v, 0
  {
    && |f.parts| == 1 && f.extra == Nil && (f.indefinite ==> !Untagged(t, mode))
    && Fits(t.members[v.index].ty, t.members[v.index].mode, t.members[v.index].tag, v.chosen, f.parts[0])
  }

  /** The form is one for this value. */
  predicate Fits(t: Type, mode: int, tag: Tag, v: Value, f: Form)
    requires HasType(t, v)
    decreases v, 1
  {
    match f
    case Plain => true
    case Segmented(n) => t.String? && SegmentedFits(t, mode, tag, v.octets, n)
    case Parts(_, _, _) =>
      (t.Sequence? && SequenceFits(t, v, f)) || (t.Choice? && ChoiceFits(t, mode, v, f))
  }

  // ----- encoding

  function Zeros(m: nat): (b: Bytes)
    ensures |b| == 2 * m
  {
    if m == 0 then [] else [0, 0] + Zeros(m - 1)
  }

  /** Identifiers with indefinite lengths. */
  function OpenChain(ts: seq<Tag>): (b: Bytes) {
    if ts == [] then [] else Identifier(ts[0], true) + ([0x80] + OpenChain(ts[1..]))
  }

  /** Tags around contents, closed by end-of-contents octets where the lengths are indefinite. */
  function Wrapped(ts: seq<Tag>, indefinite: bool, c: Bytes): (b: Bytes) {
    if indefinite then OpenChain(ts) + (c + Zeros(|ts|)) else WriteChain(ts, |c|, true) + c
  }

  function BerBody(t: Type, v: Value, f: Form, k: nat): (b: Bytes)
    requires t.Sequence? && HasType(t, v) && f.Parts? && SequenceFits(t, v, f) && k <= |t.members|
    decreases v, |t.members| - k, 3
  {
    if k == |t.members| then []
    else (if v.fields[k].None? then [] else BerMember(t.members[k], v.fields[k].v, f.parts[k])) + BerBody(t, v, f, k + 1)
  }

  function BerMember(m: Member, v: Value, f: Form): (b: Bytes)
    requires HasType(m.ty, v) && Fits(m.ty, m.mode, m.tag, v, f)
    decreases v, Width(m.ty), 2
  {
    Ber(m.ty, m.mode, m.tag, v, f)
  }

  /** The encoding of the value in this form. */
  function Ber(t: Type, mode: int, tag: Tag, v: Value, f: Form): (b: Bytes)
    requires HasType(t, v) && Fits(t, mode, tag, v, f)
    decreases v, Width(t), 1
  {
    match f
    case Plain => Encode(t, mode, tag, v)
    case Segmented(n) => Encoded(n)
    case Parts(indefinite, _, _) => Wrapped(OwnTags(t, mode, tag), indefinite, BerContents(t, mode, v, f))
  }

  predicate PartsFit(t: Type, mode: int, v: Value, f: Form)
    requires HasType(t, v) && f.Parts?
  {
    (t.Sequence? && SequenceFits(t, v, f)) || (t.Choice? && ChoiceFits(t, mode, v, f))
  }

  function BerContents(t: Type, mode: int, v: Value, f: Form): (b: Bytes)
    requires HasType(t, v) && f.Parts? && PartsFit(t, mode, v, f)
    decreases v, Width(t), 0
  {
    if t.Sequence? then BerBody(t, v, f, 0) + SkipLength.Contents(f.extra)
    else BerMember(t.members[v.index], v.chosen, f.parts[0])
  }

  // ----- the tags

  /** One TL of indefinite length. */
  lemma OpenTL(tags: seq<Tag>, mode: int, tag: Tag, lastForm: int, k: nat, rest: Bytes, eocs: nat)
    requires mode in {-1, 0, 1} && (mode == -1 ==> tags != []) && lastForm in {-1, 1}
    requires k < |TagsToWrite(tags, mode, tag)|
    ensures var ts, tagno := TagsToWrite(tags, mode, tag), if mode == 1 then k - 1 else k;
            var id := Identifier(ts[k], true);
            && tagno < |tags|
            && CheckTL(tags, mode, lastForm, id + ([0x80] + rest), tagno, k, NONE, eocs) == Accept(|id| + 1, INDEFINITE, true)
  {
    hide FetchTag, FetchLength, Constructed, Identifier, TagsToWrite;
    var ts, tagno := TagsToWrite(tags, mode, tag), if mode == 1 then k - 1 else k;
    var id, w := Identifier(ts[k], true), [0x80] + rest;
    WrittenTag(tags, mode, tag, k);
    FetchTagRoundTrip(ts[k], true, w);
    assert (id + w)[|id|..] == w && (id + w)[0] == id[0];
    OctetString.IndefiniteLength(rest);
  }

  lemma OpenUnfold(ts: seq<Tag>, k: nat, x: Bytes)
    requires k < |ts|
    ensures OpenChain(ts[k..]) + x == Identifier(ts[k], true) + ([0x80] + (OpenChain(ts[k + 1..]) + x))
    ensures (OpenChain(ts[k..]) + x)[|Identifier(ts[k], true)| + 1..] == OpenChain(ts[k + 1..]) + x
    ensures |OpenChain(ts[k..])| == |Identifier(ts[k], true)| + 1 + |OpenChain(ts[k + 1..])|
  {
    assert ts[k..][1..] == ts[k + 1..];
    hide Identifier;
    var id, c := Identifier(ts[k], true), OpenChain(ts[k + 1..]);
    assert OpenChain(ts[k..]) == id + ([0x80] + c);
    hide OpenChain;
    OctetAfter(id, c, x);
  }

  lemma OctetAfter(id: Bytes, c: Bytes, x: Bytes)
    ensures id + ([0x80] + c) + x == id + ([0x80] + (c + x))
    ensures (id + ([0x80] + c) + x)[|id| + 1..] == c + x
    ensures |id + ([0x80] + c)| == |id| + 1 + |c|
  {}

  lemma OpenLoopStep(tags: seq<Tag>, mode: int, lastForm: int, b: Bytes, tagno: int, step: nat, consumed: nat, eocs: nat,
                     length: int, form: bool, n: nat)
    requires -1 <= tagno < |tags| && (tagno == -1 ==> mode != 0 && step == 0)
    requires CheckTL(tags, mode, lastForm, b, tagno, step, NONE, eocs) == Accept(n, INDEFINITE, true)
    ensures n <= |b|
    ensures CheckLoop(tags, mode, lastForm, true, b, tagno, step, consumed, NONE, eocs, length, form)
         == CheckLoop(tags, mode, lastForm, true, b[n..], tagno + 1, step + 1, consumed + n, NONE, eocs + 1, INDEFINITE, true)
  {
    hide CheckTL;
  }

  lemma OpenLoopEnd(tags: seq<Tag>, mode: int, lastForm: int, b: Bytes, step: nat, consumed: nat, eocs: nat)
    requires eocs > 0
    ensures CheckLoop(tags, mode, lastForm, true, b, |tags|, step, consumed, NONE, eocs, INDEFINITE, true)
         == Check(OK, consumed, step, 0 - eocs, true)
  {}

  /** TL number `k` of such a chain. */
  lemma OpenNext(tags: seq<Tag>, mode: int, tag: Tag, lastForm: int, k: nat, x: Bytes, consumed: nat, length: int, form: bool)
    requires mode in {-1, 0, 1} && (mode == -1 ==> tags != []) && lastForm in {-1, 1}
    requires k < |TagsToWrite(tags, mode, tag)|
    ensures var ts, tagno := TagsToWrite(tags, mode, tag), if mode == 1 then k - 1 else k;
            && |OpenChain(ts[k..])| >= |OpenChain(ts[k + 1..])|
            && CheckLoop(tags, mode, lastForm, true, OpenChain(ts[k..]) + x, tagno, k, consumed, NONE, k, length, form)
               == CheckLoop(tags, mode, lastForm, true, OpenChain(ts[k + 1..]) + x, tagno + 1, k + 1,
                            consumed + |OpenChain(ts[k..])| - |OpenChain(ts[k + 1..])|, NONE, k + 1, INDEFINITE, true)
  {
    hide CheckLoop, CheckTL, OpenChain, Identifier, TagsToWrite;
    var ts, tagno := TagsToWrite(tags, mode, tag), if mode == 1 then k - 1 else k;
    ChainCount(tags, mode, tag);
    OpenUnfold(ts, k, x);
    OpenTL(tags, mode, tag, lastForm, k, OpenChain(ts[k + 1..]) + x, k);
    OpenLoopStep(tags, mode, lastForm, OpenChain(ts[k..]) + x, tagno, k, consumed, k, length, form,
                 |Identifier(ts[k], true)| + 1);
  }

  lemma {:induction false} OpenLoop(tags: seq<Tag>, mode: int, tag: Tag, lastForm: int, k: nat, x: Bytes, consumed: nat,
                                    length: int, form: bool)
    requires mode in {-1, 0, 1} && (mode == -1 ==> tags != []) && lastForm in {-1, 1}
    requires k <= |TagsToWrite(tags, mode, tag)|
    requires k == |TagsToWrite(tags, mode, tag)| ==> k > 0 && length == INDEFINITE && form
    ensures var ts, tagno := TagsToWrite(tags, mode, tag), if mode == 1 then k - 1 else k;
            CheckLoop(tags, mode, lastForm, true, OpenChain(ts[k..]) + x, tagno, k, consumed, NONE, k, length, form)
            == Check(OK, consumed + |OpenChain(ts[k..])|, |ts|, 0 - |ts|, true)
    decreases |TagsToWrite(tags, mode, tag)| - k
  {
    hide CheckLoop, OpenChain, TagsToWrite;
    var ts := TagsToWrite(tags, mode, tag);
    ChainCount(tags, mode, tag);
    if k == |ts| {
      NoOpenChain(ts[k..], x);
      OpenLoopEnd(tags, mode, lastForm, x, k, consumed, k);
    } else {
      OpenNext(tags, mode, tag, lastForm, k, x, consumed, length, form);
      OpenLoop(tags, mode, tag, lastForm, k + 1, x, consumed + |OpenChain(ts[k..])| - |OpenChain(ts[k + 1..])|, INDEFINITE, true);
    }
  }

  lemma NoOpenChain(ts: seq<Tag>, x: Bytes)
    requires ts == []
    ensures OpenChain(ts) == [] && OpenChain(ts) + x == x
  {}

  /** A chain of indefinite lengths is consumed, and so many pairs of octets are to come at the end. */
  lemma OpenChainChecked(tags: seq<Tag>, mode: int, tag: Tag, lastForm: int, x: Bytes)
    requires mode in {-1, 0, 1} && (mode == -1 ==> tags != []) && lastForm in {-1, 1}
    requires TagsToWrite(tags, mode, tag) != []
    ensures var ts := TagsToWrite(tags, mode, tag);
            CheckTags(tags, true, 0, OpenChain(ts) + x, mode, lastForm)
            == Check(OK, |OpenChain(ts)|, |ts|, 0 - |ts|, true)
  {
    hide CheckLoop, OpenChain, TagsToWrite;
    ChainCount(tags, mode, tag);
    var ts := TagsToWrite(tags, mode, tag);
    assert ts[0..] == ts;
    OpenLoop(tags, mode, tag, lastForm, 0, x, 0, 0, false);
  }

  /** What `ber_check_tags` makes of the tags of a form: the octets left to the value. */
  lemma WrappedChecked(t: Type, mode: int, tag: Tag, lastForm: int, indefinite: bool, c: Bytes, x: Bytes)
    requires ValidMode(t, mode) && lastForm in {-1, 1} && TagsToWrite(t.tags, mode, tag) != []
    requires |Wrapped(TagsToWrite(t.tags, mode, tag), indefinite, c)| <= MAX_LENGTH
    ensures var ts := TagsToWrite(t.tags, mode, tag);
            var m := if indefinite then |ts| else 0;
            var b := Wrapped(ts, indefinite, c) + x;
            var k := CheckTags(t.tags, true, 0, b, mode, lastForm);
            && k.code == OK && k.length == (if indefinite then 0 - m else |c|)
            && b[k.consumed..] == c + Zeros(m) + x
            && k.consumed + |c| + 2 * m == |Wrapped(ts, indefinite, c)|
  {
    hide CheckTags, OpenChain, WriteChain, TagsToWrite, Zeros;
    ModeFacts(t, mode);
    var ts := TagsToWrite(t.tags, mode, tag);
    if indefinite {
      var y := c + Zeros(|ts|) + x;
      OpenChainChecked(t.tags, mode, tag, lastForm, y);
      assert Wrapped(ts, true, c) + x == OpenChain(ts) + y;
    } else {
      NoZeros();
      assert c + [] + x == c + x;
      ChainRoundTrip(t.tags, mode, tag, lastForm, true, |c|, true, c + x);
      assert Wrapped(ts, false, c) + x == WriteChain(ts, |c|, true) + (c + x);
    }
  }

  lemma NoZeros()
    ensures Zeros(0) == []
  {}

  // ----- how an encoding begins

  lemma OpenBegins(ts: seq<Tag>, c: Bytes)
    requires ts != []
    ensures Identifier(ts[0], true) <= OpenChain(ts) + c
  {}

  lemma WrappedBegins(ts: seq<Tag>, indefinite: bool, c: Bytes)
    requires ts != []
    ensures Identifier(ts[0], true) <= Wrapped(ts, indefinite, c)
  {
    hide Identifier, OpenChain, WriteChain, Zeros;
    if indefinite {
      OpenBegins(ts, c + Zeros(|ts|));
    } else {
      ChainBegins(ts, |c|, true, c);
    }
  }

  lemma PartsType(t: Type, mode: int, tag: Tag, v: Value, f: Form)
    requires HasType(t, v) && Fits(t, mode, tag, v, f) && f.Parts?
    ensures PartsFit(t, mode, v, f)
    ensures Ber(t, mode, tag, v, f) == Wrapped(OwnTags(t, mode, tag), f.indefinite, BerContents(t, mode, v, f))
  {}

  lemma OwnTagsOf(t: Type, mode: int, tag: Tag)
    requires ValidType(t) && ValidMode(t, mode)
    ensures OwnTags(t, mode, tag) == [] ==> t.Choice? && Untagged(t, mode)
    ensures t.Choice? && Untagged(t, mode) ==> OwnTags(t, mode, tag) == []
    ensures OwnTags(t, mode, tag) != [] ==> OwnTags(t, mode, tag) == TagsToWrite(t.tags, mode, tag)
  {}

  lemma FirstTagOf(t: Type, mode: int, tag: Tag, v: Value)
    requires HasType(t, v) && ValidType(t) && ValidMode(t, mode)
    ensures OwnTags(t, mode, tag) != [] ==> FirstTag(t, mode, tag, v) == OwnTags(t, mode, tag)[0]
    ensures OwnTags(t, mode, tag) == [] ==>
              && t.Choice? && HasType(t.members[v.index].ty, v.chosen)
              && ValidType(t.members[v.index].ty) && ValidMode(t.members[v.index].ty, t.members[v.index].mode)
              && FirstTag(t, mode, tag, v)
                 == FirstTag(t.members[v.index].ty, t.members[v.index].mode, t.members[v.index].tag, v.chosen)
  {}

  lemma NothingWrapped(c: Bytes)
    ensures Wrapped([], false, c) == c
  {}

  lemma ChosenForm(t: Type, mode: int, v: Value, f: Form)
    requires t.Choice? && HasType(t, v) && f.Parts? && PartsFit(t, mode, v, f)
    ensures |f.parts| == 1 && f.extra == Nil && (f.indefinite ==> !Untagged(t, mode))
    ensures var m := t.members[v.index];
            && HasType(m.ty, v.chosen) && Fits(m.ty, m.mode, m.tag, v.chosen, f.parts[0])
            && BerContents(t, mode, v, f) == Ber(m.ty, m.mode, m.tag, v.chosen, f.parts[0])
  {
    hide Encode, Wrapped, BerBody;
  }

  /** The choice that is not tagged is encoded as its alternative. */
  lemma UntaggedForm(t: Type, mode: int, tag: Tag, v: Value, f: Form)
    requires t.Choice? && HasType(t, v) && Fits(t, mode, tag, v, f) && f.Parts? && OwnTags(t, mode, tag) == []
    requires Untagged(t, mode)
    ensures |f.parts| == 1
    ensures Fits(t.members[v.index].ty, t.members[v.index].mode, t.members[v.index].tag, v.chosen, f.parts[0])
    ensures Ber(t, mode, tag, v, f)
         == Ber(t.members[v.index].ty, t.members[v.index].mode, t.members[v.index].tag, v.chosen, f.parts[0])
  {
    PartsType(t, mode, tag, v, f);
    ChosenForm(t, mode, v, f);
    NothingWrapped(BerContents(t, mode, v, f));
    hide Ber, Wrapped, BerContents;
  }

  lemma SegmentedBegins(t: Type, mode: int, tag: Tag, s: Bytes, n: Node)
    requires SegmentedFits(t, mode, tag, s, n)
    ensures Identifier(n.tag, true) <= Encoded(n)
    ensures OwnTags(t, mode, tag) == [n.tag]
  {}

  /** In every form an encoding begins with the identifier of its first tag. */
  lemma {:induction false} BerBegins(t: Type, mode: int, tag: Tag, v: Value, f: Form) returns (c: bool)
    requires HasType(t, v) && ValidType(t) && ValidMode(t, mode) && Fits(t, mode, tag, v, f)
    ensures Identifier(FirstTag(t, mode, tag, v), c) <= Ber(t, mode, tag, v, f)
    decreases v
  {
    hide *;
    FirstTagOf(t, mode, tag, v);
    OwnTagsOf(t, mode, tag);
    match f
    case Plain =>
      c := FirstForm(t, mode, tag, v);
      EncodeBegins(t, mode, tag, v);
      PlainForm(t, mode, tag, v);
    case Segmented(n) =>
      c := true;
      SegmentedForm(t, mode, tag, v, n);
      SegmentedBegins(t, mode, tag, v.octets, n);
    case Parts(indefinite, extra, parts) =>
      PartsType(t, mode, tag, v, f);
      if OwnTags(t, mode, tag) != [] {
        c := true;
        WrappedBegins(OwnTags(t, mode, tag), indefinite, BerContents(t, mode, v, f));
      } else {
        UntaggedForm(t, mode, tag, v, f);
        ChosenSmaller(t, v);
        var m := t.members[v.index];
        c := BerBegins(m.ty, m.mode, m.tag, v.chosen, parts[0]);
      }
  }

  lemma ChosenSmaller(t: Type, v: Value)
    requires t.Choice? && HasType(t, v)
    ensures v.VCho? && v.index < |t.members|
  {}

  lemma PlainForm(t: Type, mode: int, tag: Tag, v: Value)
    requires HasType(t, v)
    ensures Fits(t, mode, tag, v, Plain) && Ber(t, mode, tag, v, Plain) == Encode(t, mode, tag, v)
  {}

  lemma SegmentedForm(t: Type, mode: int, tag: Tag, v: Value, n: Node)
    requires HasType(t, v) && Fits(t, mode, tag, v, Segmented(n))
    ensures t.String? && v.VStr? && SegmentedFits(t, mode, tag, v.octets, n)
    ensures Ber(t, mode, tag, v, Segmented(n)) == Encoded(n)
  {}

  // ----- the end of a SEQUENCE

  lemma ZerosUnfold(m: nat, x: Bytes)
    requires m > 0
    ensures var b := Zeros(m) + x;
            |b| >= 2 && b[0] == 0 && b[1] == 0 && b[2..] == Zeros(m - 1) + x
  {
    assert Zeros(m) + x == [0, 0] + (Zeros(m - 1) + x);
  }

  lemma TailEnd(t: Type, phase: nat, b: Bytes, used: nat)
    requires t.Sequence?
    ensures SkipTail(t, phase, 0, b, used) == Ending(OK, used, 10, 0)
  {}

  lemma TailEoc(t: Type, phase: nat, left: int, b: Bytes, used: nat)
    requires t.Sequence? && left < 0 && |b| >= 2 && b[0] == 0 && b[1] == 0
    ensures SkipTail(t, phase, left, b, used) == SkipTail(t, 4, left + 1, b[2..], used + 2)
  {
    hide FetchTag, Skip, InExtension;
    ZeroTag(b);
  }

  lemma {:induction false} TailEocs(t: Type, phase: nat, m: nat, x: Bytes, used: nat)
    requires t.Sequence?
    ensures SkipTail(t, phase, 0 - m, Zeros(m) + x, used) == Ending(OK, used + 2 * m, 10, 0)
    decreases m
  {
    hide SkipTail, Zeros;
    if m == 0 {
      TailEnd(t, phase, Zeros(m) + x, used);
    } else {
      ZerosUnfold(m, x);
      TailEoc(t, phase, 0 - m, Zeros(m) + x, used);
      TailEocs(t, 4, m - 1, x, used + 2);
    }
  }

  /** A value of unknown type at the front of what is visible. */
  lemma UnknownFetched(n: Node, y: Bytes)
    requires WellFormed(n) && n != Primitive(0, [])
    ensures var w := Encoded(n) + y;
            var id := Identifier(n.tag, IsConstructed(n));
            && |w| >= 2 && !(w[0] == 0 && w[1] == 0)
            && FetchTag(w) == Got(|id|, n.tag)
            && Skip(Constructed(w[0]), w[|id|..]) == Got(|Encoded(n)| - |id|, 0)
  {
    hide *;
    var id, v := Identifier(n.tag, IsConstructed(n)), LengthAndContents(n);
    EncodedParts(n);
    Split3(id, v, y);
    FetchTagRoundTrip(n.tag, IsConstructed(n), v + y);
    SkipExact(n, y);
    EncodedStart(n);
    EncodedLong(n);
    var w := Encoded(n) + y;
    assert w[0] == Encoded(n)[0] && w[1] == Encoded(n)[1];
    assert w[0] == id[0];
    IdentifierForm(n.tag, IsConstructed(n));
  }

  lemma EncodedLong(n: Node)
    requires WellFormed(n)
    ensures |Encoded(n)| >= 2
  {}

  lemma IdentifierForm(tag: Tag, constructed: bool)
    ensures |Identifier(tag, constructed)| >= 1 && Constructed(Identifier(tag, constructed)[0]) == constructed
  {}

  lemma TailSkip(t: Type, left: int, b: Bytes, used: nat, tl: nat, tag: int, k: nat)
    requires t.Sequence? && left != 0 && InExtension(t, |t.members|)
    requires var w := Visible(left, b);
             && |w| >= 2 && !(w[0] == 0 && w[1] == 0) && FetchTag(w) == Got(tl, tag)
             && Skip(Constructed(w[0]), w[tl..]) == Got(k, 0)
    ensures tl + k <= |b|
    ensures SkipTail(t, 3, left, b, used) == SkipTail(t, 3, Less(left, tl + k), b[tl + k..], used + tl + k)
  {
    hide FetchTag, Skip, Constructed, InExtension, Visible, Less;
  }

  /** The octets left when `m` lengths are indefinite, `c` being all that is left inside them. */
  function LeftOf(m: nat, c: Bytes): (left: int) {
    if m > 0 then 0 - m else |c|
  }

  lemma LessOf(m: nat, a: Bytes, c: Bytes)
    ensures Less(LeftOf(m, a + c), |a|) == LeftOf(m, c)
  {}

  lemma ContentsUnfold(h: Node, rest: Nodes, z: Bytes, x: Bytes)
    requires AllWellFormed(Cons(h, rest))
    ensures WellFormed(h) && h != Primitive(0, []) && AllWellFormed(rest)
    ensures SkipLength.Contents(Cons(h, rest)) == Encoded(h) + SkipLength.Contents(rest)
    ensures SkipLength.Contents(Cons(h, rest)) + z == Encoded(h) + (SkipLength.Contents(rest) + z)
    ensures SkipLength.Contents(Cons(h, rest)) + z + x == Encoded(h) + (SkipLength.Contents(rest) + z + x)
    ensures (SkipLength.Contents(Cons(h, rest)) + z + x)[|Encoded(h)|..] == SkipLength.Contents(rest) + z + x
  {
    hide Encoded;
    var e, r := Encoded(h), SkipLength.Contents(rest);
    assert e + r + z == e + (r + z);
    assert e + r + z + x == e + (r + z + x);
  }

  /** Phase 3: unknown values and end-of-contents octets are skipped, exactly. */
  lemma {:induction false} TailSkipped(t: Type, m: nat, ns: Nodes, x: Bytes, used: nat)
    requires t.Sequence? && AllWellFormed(ns) && (ns != Nil ==> InExtension(t, |t.members|))
    ensures var c := SkipLength.Contents(ns) + Zeros(m);
            SkipTail(t, 3, LeftOf(m, c), c + x, used) == Ending(OK, used + |c|, 10, 0)
    decreases ns
  {
    hide *;
    match ns
    case Nil =>
      NoContents(Zeros(m));
      TailEocs(t, 3, m, x, used);
      LeftOfZeros(m);
    case Cons(h, rest) =>
      ContentsUnfold(h, rest, Zeros(m), x);
      var c, d := SkipLength.Contents(ns) + Zeros(m), SkipLength.Contents(rest) + Zeros(m);
      var e := Encoded(h);
      var left := LeftOf(m, c);
      var y := SeenForm(m, c, x);
      var w := e + (d + y);
      assert c + y == w;
      UnknownFetched(h, d + y);
      EncodedLong(h);
      LeftNonzero(m, c);
      var id := Identifier(h.tag, IsConstructed(h));
      TailSkip(t, left, c + x, used, |id|, h.tag, |e| - |id|);
      LessOf(m, e, d);
      TailSkipped(t, m, rest, x, used + |e|);
  }

  lemma NoContents(z: Bytes)
    ensures SkipLength.Contents(Nil) == [] && SkipLength.Contents(Nil) + z == z
  {}

  lemma LeftOfZeros(m: nat)
    ensures LeftOf(m, Zeros(m)) == 0 - m && |Zeros(m)| == 2 * m
  {}

  lemma LeftNonzero(m: nat, c: Bytes)
    requires c != []
    ensures LeftOf(m, c) != 0
  {}

  lemma SeenForm(m: nat, c: Bytes, x: Bytes) returns (y: Bytes)
    ensures Visible(LeftOf(m, c), c + x) == c + y
    ensures m > 0 ==> y == x
  {
    y := if m > 0 then x else [];
    assert (c + x)[..|c|] == c && c + [] == c;
  }

  // ----- the members of a SEQUENCE

  lemma FitsMember(t: Type, v: Value, f: Form, i: nat)
    requires t.Sequence? && HasType(t, v) && f.Parts? && SequenceFits(t, v, f) && i < |t.members|
    ensures |f.parts| == |t.members| && |v.fields| == |t.members|
    ensures v.fields[i].Some? ==>
              && HasType(t.members[i].ty, v.fields[i].v)
              && Fits(t.members[i].ty, t.members[i].mode, t.members[i].tag, v.fields[i].v, f.parts[i])
  {}

  lemma FitsParts(t: Type, v: Value, f: Form)
    requires t.Sequence? && HasType(t, v) && f.Parts? && SequenceFits(t, v, f)
    ensures |f.parts| == |t.members| && AllWellFormed(f.extra) && AllUnknown(t.members, f.extra)
    ensures f.extra != Nil ==> InExtension(t, |t.members|)
    ensures f.indefinite ==> NoZeroTag(t.members)
  {}

  lemma BerBodyUnfold(t: Type, v: Value, f: Form, k: nat)
    requires t.Sequence? && HasType(t, v) && f.Parts? && SequenceFits(t, v, f) && k < |t.members|
    ensures v.fields[k].None? ==> BerBody(t, v, f, k) == BerBody(t, v, f, k + 1)
    ensures v.fields[k].Some? ==>
              (BerBody(t, v, f, k)
               == Ber(t.members[k].ty, t.members[k].mode, t.members[k].tag, v.fields[k].v, f.parts[k]) + BerBody(t, v, f, k + 1))
  {}

  lemma BerBodyEnd(t: Type, v: Value, f: Form)
    requires t.Sequence? && HasType(t, v) && f.Parts? && SequenceFits(t, v, f)
    ensures BerBody(t, v, f, |t.members|) == []
  {}

  lemma {:induction false} BerBodyNext(t: Type, v: Value, f: Form, k: nat)
    requires t.Sequence? && HasType(t, v) && f.Parts? && SequenceFits(t, v, f) && k <= |t.members| && |v.fields| == |t.members|
    ensures BerBody(t, v, f, k) == BerBody(t, v, f, NextPresent(v.fields, k))
    decreases |t.members| - k
  {
    FieldCount(t, v);
    hide HasType, BerBody, SequenceFits, Fits, Ber;
    if k < |t.members| && v.fields[k].None? {
      BerBodyUnfold(t, v, f, k);
      BerBodyNext(t, v, f, k + 1);
    }
  }

  lemma LocateNext(t: Type, e: nat, left: int, b: Bytes, tl: nat, x: Tag, n: nat)
    requires t.Sequence? && e < |t.members| && left != 0
    requires FetchTag(Visible(left, b)) == Got(tl, x) && Find(t.members, t.rows, e, x) == Here(n)
    requires left < 0 ==> Visible(left, b)[0] != 0
    ensures Locate(t, e, left, b) == Found(n)
  {
    hide FetchTag, Find, Visible, MayEnd;
  }

  lemma FirstNotZero(ms: seq<Member>, n: nat, x: Tag, c: bool, w: Bytes)
    requires NoZeroTag(ms) && n < |ms| && x in MemberTags(ms[n]) && Identifier(x, c) <= w
    ensures w[0] != 0
  {
    hide MemberTags, Identifier;
    assert w == Identifier(x, c) + w[|Identifier(x, c)|..];
    OctetString.NotEoc(x, c, w[|Identifier(x, c)|..]);
  }

  /** The next member present is found, whatever stands behind its encoding. */
  lemma MemberLocated(t: Type, v: Value, f: Form, k: nat, left: int, b: Bytes, z: Bytes)
    requires t.Sequence? && ValidType(t) && HasType(t, v) && Storable(v) && f.Parts? && SequenceFits(t, v, f)
    requires k < |t.members| && |v.fields| == |t.members| == |f.parts| && NextPresent(v.fields, k) < |t.members|
    requires left != 0 && (left < 0 ==> f.indefinite)
    requires var n := NextPresent(v.fields, k);
             && HasType(t.members[n].ty, v.fields[n].v)
             && Fits(t.members[n].ty, t.members[n].mode, t.members[n].tag, v.fields[n].v, f.parts[n])
             && Visible(left, b) == Ber(t.members[n].ty, t.members[n].mode, t.members[n].tag, v.fields[n].v, f.parts[n]) + z
    ensures Locate(t, k, left, b) == Found(NextPresent(v.fields, k))
  {
    hide *;
    FieldCount(t, v);
    var n := NextPresent(v.fields, k);
    var m := t.members[n];
    MemberValid(t, n);
    FitsParts(t, v, f);
    var c := BerBegins(m.ty, m.mode, m.tag, v.fields[n].v, f.parts[n]);
    var x, w := FirstTag(m.ty, m.mode, m.tag, v.fields[n].v), Visible(left, b);
    TagListed(m, v.fields[n].v);
    FetchPrefix(x, c, w, w);
    AbsentRun(t, v, k);
    SequenceValid(t);
    FindMember(t.members, t.rows, k, n, x);
    if left < 0 {
      FirstNotZero(t.members, n, x, c, w);
    }
    LocateNext(t, k, left, b, |Identifier(x, c)|, x, n);
  }

  lemma TagListed(m: Member, v: Value)
    requires HasType(m.ty, v) && ValidType(m.ty) && ValidMode(m.ty, m.mode)
    ensures FirstTag(m.ty, m.mode, m.tag, v) in MemberTags(m)
  {
    hide FirstTags, FirstTag, HasType, ValidType;
    FirstTagListed(m.ty, m.mode, m.tag, v);
  }

  /** One member that is present: the loop goes on behind it with the value in place. */
  lemma {:induction false} MemberStep(t: Type, v: Value, f: Form, k: nat, left: int, fields: seq<St>, rest: Bytes, z: Bytes, used: nat)
      returns (st: St)
    requires t.Sequence? && ValidType(t) && HasType(t, v) && Storable(v) && f.Parts? && SequenceFits(t, v, f)
    requires k < |t.members| && |v.fields| == |t.members| == |f.parts| && NextPresent(v.fields, k) < |t.members|
    requires |fields| == |t.members| && DoneBelow(t, v, fields, k) && AbsentFrom(fields, k)
    requires left != 0 && (left < 0 ==> f.indefinite)
    requires var n := NextPresent(v.fields, k);
             && HasType(t.members[n].ty, v.fields[n].v)
             && Fits(t.members[n].ty, t.members[n].mode, t.members[n].tag, v.fields[n].v, f.parts[n])
             && var enc := Ber(t.members[n].ty, t.members[n].mode, t.members[n].tag, v.fields[n].v, f.parts[n]);
             |enc| <= MAX_LENGTH && Visible(left, enc + rest) == enc + z
    ensures var n := NextPresent(v.fields, k);
            var enc := Ber(t.members[n].ty, t.members[n].mode, t.members[n].tag, v.fields[n].v, f.parts[n]);
            && DoneBelow(t, v, fields[n := st], n + 1) && AbsentFrom(fields[n := st], n + 1)
            && DecodeMembers(t, k, 2 * k, left, fields, enc + rest, used)
               == DecodeMembers(t, n + 1, 2 * (n + 1), Less(left, |enc|), fields[n := st], rest, used + |enc|)
    decreases v, |t.members| - k, 0
  {
    hide *;
    FieldCount(t, v);
    var n := NextPresent(v.fields, k);
    var m := t.members[n];
    var enc := Ber(m.ty, m.mode, m.tag, v.fields[n].v, f.parts[n]);
    MemberValid(t, n);
    MemberLocated(t, v, f, k, left, enc + rest, z);
    MembersUnfold(t, k, left, fields, enc + rest, used);
    MembersInside(t, n, left, fields, enc + rest, used);
    DoneToNext(t, v, fields, k);
    NotDoneYet(fields, n);
    StorableField(v, n);
    BerDecode(m.ty, m.mode, m.tag, v.fields[n].v, f.parts[n], z);
    OneUnfold(t, n, left, fields, enc + rest, used);
    st := Decode(m.ty, m.mode, fields[n], enc + z).st;
    DoneOneMore(t, v, fields, n, st);
    Behind(enc, rest);
  }

  lemma Behind(a: Bytes, b: Bytes)
    ensures (a + b)[|a|..] == b
  {}

  lemma NotDoneYet(fields: seq<St>, n: nat)
    requires AbsentFrom(fields, n) && n < |fields|
    ensures fields[n] == Absent && AbsentFrom(fields, n + 1)
  {}

  // ----- behind the last member

  lemma {:induction false} LinearMisses(ms: seq<Member>, tag: Tag, n: nat, stop: nat, wide: bool)
    requires stop <= |ms| && forall i :: 0 <= i < |ms| ==> ms[i].tag != tag
    ensures Linear(ms, tag, n, stop, wide).Missed?
    decreases stop - n
  {
    if n < stop {
      LinearMisses(ms, tag, n + 1, stop, wide);
    }
  }

  /** A tag that no member begins with is not found. */
  lemma UnknownNowhere(ms: seq<Member>, rows: seq<Row>, e: nat, tag: Tag)
    requires MembersValid(ms) && RowsMatch(ms, rows) && UnknownTag(ms, tag) && e < |ms|
    ensures Find(ms, rows, e, tag) == Nowhere
  {
    hide MemberTags, ValidType, Linear, Lookup;
    forall i | 0 <= i < |ms| ensures ms[i].tag != tag {
      assert ValidMember(ms[i]);
      TagsOfValidType(ms[i]);
      MemberTagBegins(ms[i]);
    }
    LinearMisses(ms, tag, e, ScanEnd(ms, e), ScanIsCut(ms, e));
    forall i | 0 <= i < |rows| ensures rows[i].tag != tag {
      assert rows[i] in rows;
    }
    LookupMisses(rows, tag, e, e + ms[e].optional);
  }

  lemma LookupMisses(rows: seq<Row>, tag: Tag, lo: nat, hi: nat)
    requires forall i :: 0 <= i < |rows| ==> rows[i].tag != tag
    ensures Lookup(rows, tag, lo, hi) == Nowhere
  {}

  lemma LocateUnknown(t: Type, e: nat, left: int, b: Bytes, tl: nat, x: Tag, k: nat)
    requires t.Sequence? && e < |t.members| && left != 0 && InExtension(t, e + t.members[e].optional)
    requires var w := Visible(left, b);
             && |w| >= 2 && !(w[0] == 0 && w[1] == 0) && FetchTag(w) == Got(tl, x)
             && Skip(Constructed(w[0]), w[tl..]) == Got(k, 0)
    requires Find(t.members, t.rows, e, x) == Nowhere
    ensures Locate(t, e, left, b) == Skipped(tl + k)
  {
    hide FetchTag, Find, Visible, MayEnd, Skip, Constructed, InExtension;
  }

  lemma LocateTail(t: Type, e: nat, left: int, b: Bytes)
    requires t.Sequence? && e < |t.members| && left < 0 && MayEnd(t, e)
    requires |b| >= 2 && b[0] == 0 && b[1] == 0
    ensures Locate(t, e, left, b) == Tail
  {
    hide FetchTag, Find, MayEnd;
    ZeroTag(b);
  }

  lemma HoldsFinished(t: Type, v: Value, e: nat, c: Ctx, fields: seq<St>)
    requires t.Sequence? && HasType(t, v) && |fields| == |t.members| == |v.fields| && e <= |t.members|
    requires DoneBelow(t, v, fields, e) && AbsentFrom(fields, e) && NextPresent(v.fields, e) == |t.members|
    requires c.phase == 10
    ensures Holds(t, v, SSeq(c, fields))
  {}

  /** The run of optional members that ends a SEQUENCE reaches exactly to its end. */
  lemma LastRun(t: Type, v: Value, e: nat)
    requires t.Sequence? && ValidType(t) && HasType(t, v) && Storable(v) && e < |t.members| && |v.fields| == |t.members|
    requires NextPresent(v.fields, e) == |t.members|
    ensures e + t.members[e].optional == |t.members| && MayEnd(t, e)
  {
    hide ValidType, HasType, NextPresent, RunCounts, RunsDistinct, RowsMatch, InExtension;
    SequenceValid(t);
    forall i | e <= i < |t.members| ensures t.members[i].optional > 0 {
      Restart.FieldTyped(t, v, i);
    }
    RunCovers(t.members, e, |t.members|);
  }

  lemma TailDecoded(t: Type, m: nat, ns: Nodes, step: nat, fields: seq<St>, x: Bytes, used: nat)
    requires t.Sequence? && AllWellFormed(ns) && (ns != Nil ==> InExtension(t, |t.members|))
    ensures var c := SkipLength.Contents(ns) + Zeros(m);
            DecodeTail(t, 3, step, LeftOf(m, c), fields, c + x, used) == Dec(OK, used + |c|, SSeq(Ctx(10, step, 0), fields))
  {
    hide SkipTail, SkipLength.Contents, Zeros, LeftOf, InExtension;
    TailSkipped(t, m, ns, x, used);
  }

  lemma NothingLeft(m: nat)
    ensures m == 0 ==> SkipLength.Contents(Nil) + Zeros(m) == [] && LeftOf(m, []) == 0
    ensures m > 0 ==> LeftOf(m, SkipLength.Contents(Nil) + Zeros(m)) < 0
  {}

  lemma ZerosFirst(m: nat, x: Bytes)
    requires m > 0
    ensures var b := SkipLength.Contents(Nil) + Zeros(m) + x;
            |b| >= 2 && b[0] == 0 && b[1] == 0
  {}

  /** No member is to come: unknown values and the end of the SEQUENCE. */
  lemma MembersOver(t: Type, v: Value, f: Form, k: nat, m: nat, fields: seq<St>, x: Bytes, used: nat)
    requires t.Sequence? && ValidType(t) && HasType(t, v) && Storable(v) && f.Parts? && SequenceFits(t, v, f)
    requires k <= |t.members| == |fields| == |v.fields| && NextPresent(v.fields, k) == |t.members|
    requires DoneBelow(t, v, fields, k) && AbsentFrom(fields, k)
    ensures var c := SkipLength.Contents(f.extra) + Zeros(m);
            var d := DecodeMembers(t, k, 2 * k, LeftOf(m, c), fields, c + x, used);
            d.code == OK && d.consumed == used + |c| && Holds(t, v, d.st)
  {
    hide *;
    FitsParts(t, v, f);
    var c := SkipLength.Contents(f.extra) + Zeros(m);
    var left := LeftOf(m, c);
    HoldsFinished(t, v, k, Ctx(10, 2 * k, 0), fields);
    if k == |t.members| {
      MembersExhausted(t, k, 2 * k, left, fields, c + x, used);
      TailDecoded(t, m, f.extra, 2 * k, fields, x, used);
    } else {
      LastRun(t, v, k);
      MembersStep(t, k, 2 * k, left, fields, c + x, used);
      match f.extra
      case Nil =>
        NothingLeft(m);
        if m == 0 {
          LocateEnd(t, k, c + x);
        } else {
          ZerosFirst(m, x);
          LocateTail(t, k, left, c + x);
          TailDecoded(t, m, Nil, 2 * k, fields, x, used);
        }
      case Cons(h, rest) =>
        FirstUnknown(t.members, f.extra);
        HeadWellFormed(h, rest);
        UnknownLocated(t, k, m, h, rest, x);
        ContentsUnfold(h, rest, Zeros(m), x);
        var e, d := Encoded(h), SkipLength.Contents(rest) + Zeros(m);
        assert c == e + d;
        LessOf(m, e, d);
        MembersExhausted(t, |t.members|, 2 * k, LeftOf(m, d), fields, d + x, used + |e|);
        TailDecoded(t, m, rest, 2 * k, fields, x, used + |e|);
    }
  }

  /** The first unknown value, met while members that may be missing could still come. */
  lemma UnknownLocated(t: Type, k: nat, m: nat, h: Node, rest: Nodes, x: Bytes)
    requires t.Sequence? && ValidType(t) && k < |t.members| && k + t.members[k].optional == |t.members|
    requires InExtension(t, |t.members|) && AllWellFormed(Cons(h, rest)) && UnknownTag(t.members, h.tag)
    requires WellFormed(h)
    ensures var c := SkipLength.Contents(Cons(h, rest)) + Zeros(m);
            Locate(t, k, LeftOf(m, c), c + x) == Skipped(|Encoded(h)|)
  {
    hide *;
    ContentsUnfold(h, rest, Zeros(m), x);
    var c := SkipLength.Contents(Cons(h, rest)) + Zeros(m);
    var e, d := Encoded(h), SkipLength.Contents(rest) + Zeros(m);
    var y := SeenForm(m, c, x);
    assert c + y == e + (d + y);
    UnknownFetched(h, d + y);
    EncodedLong(h);
    LeftNonzero(m, c);
    SequenceValid(t);
    UnknownNowhere(t.members, t.rows, k, h.tag);
    var id := Identifier(h.tag, IsConstructed(h));
    LocateUnknown(t, k, LeftOf(m, c), c + x, |id|, h.tag, |e| - |id|);
  }

  lemma HeadWellFormed(h: Node, rest: Nodes)
    requires AllWellFormed(Cons(h, rest))
    ensures WellFormed(h)
  {}

  lemma FirstUnknown(ms: seq<Member>, ns: Nodes)
    requires AllUnknown(ms, ns) && ns.Cons?
    ensures UnknownTag(ms, ns.head.tag)
  {}

  /** All members from `k` on, the unknown values and the end. */
  lemma {:induction false} MembersBer(t: Type, v: Value, f: Form, k: nat, m: nat, fields: seq<St>, x: Bytes, used: nat)
    requires t.Sequence? && ValidType(t) && HasType(t, v) && Storable(v) && f.Parts? && SequenceFits(t, v, f) && (m > 0 ==> f.indefinite)
    requires k <= |t.members| == |fields| == |v.fields|
    requires DoneBelow(t, v, fields, k) && AbsentFrom(fields, k)
    requires |BerBody(t, v, f, k)| <= MAX_LENGTH
    ensures var c := BerBody(t, v, f, k) + (SkipLength.Contents(f.extra) + Zeros(m));
            var d := DecodeMembers(t, k, 2 * k, LeftOf(m, c), fields, c + x, used);
            d.code == OK && d.consumed == used + |c| && Holds(t, v, d.st)
    decreases v, |t.members| - k, 1
  {
    hide *;
    FieldCount(t, v);
    FitsParts(t, v, f);
    BerBodyNext(t, v, f, k);
    var n := NextPresent(v.fields, k);
    var end := SkipLength.Contents(f.extra) + Zeros(m);
    var c := BerBody(t, v, f, k) + end;
    if n == |t.members| {
      BerBodyEnd(t, v, f);
      assert c == end;
      MembersOver(t, v, f, k, m, fields, x, used);
    } else {
      FitsMember(t, v, f, n);
      BerBodyUnfold(t, v, f, n);
      MemberValid(t, n);
      var mm := t.members[n];
      var enc, d := Ber(mm.ty, mm.mode, mm.tag, v.fields[n].v, f.parts[n]), BerBody(t, v, f, n + 1) + end;
      assert c == enc + d;
      BerNonEmpty(mm.ty, mm.mode, mm.tag, v.fields[n].v, f.parts[n]);
      LeftNonzero(m, c);
      LeftSign(m, c);
      var y := SeenForm(m, c, x);
      assert c + x == enc + (d + x) && c + y == enc + (d + y);
      var st := MemberStep(t, v, f, k, LeftOf(m, c), fields, d + x, d + y, used);
      LessOf(m, enc, d);
      MembersBer(t, v, f, n + 1, m, fields[n := st], x, used + |enc|);
    }
  }

  lemma LeftSign(m: nat, c: Bytes)
    ensures LeftOf(m, c) < 0 ==> m > 0
  {}

  lemma BerNonEmpty(t: Type, mode: int, tag: Tag, v: Value, f: Form)
    requires HasType(t, v) && ValidType(t) && ValidMode(t, mode) && Fits(t, mode, tag, v, f)
    ensures Ber(t, mode, tag, v, f) != []
  {
    hide Identifier, Ber, FirstTag, HasType, ValidType, Fits;
    var c := BerBegins(t, mode, tag, v, f);
  }

  // ----- the theorem

  lemma WrappedLeft(m: nat, ts: seq<Tag>, indefinite: bool, c: Bytes)
    requires ts != [] && m == if indefinite then |ts| else 0
    ensures LeftOf(m, c + Zeros(m)) == if indefinite then 0 - m else |c|
  {}

  lemma {:induction false} SequenceBer(t: Type, mode: int, tag: Tag, v: Value, f: Form, x: Bytes)
    requires t.Sequence? && ValidType(t) && ValidMode(t, mode) && HasType(t, v) && Storable(v) && Fits(t, mode, tag, v, f) && f.Parts?
    requires |Ber(t, mode, tag, v, f)| <= MAX_LENGTH
    ensures var d := DecodeSequence(t, mode, Absent, Ber(t, mode, tag, v, f) + x);
            d.code == OK && d.consumed == |Ber(t, mode, tag, v, f)| && Holds(t, v, d.st)
    decreases v, |t.members| + 1, 0
  {
    hide *;
    FieldCount(t, v);
    PartsType(t, mode, tag, v, f);
    SequenceParts(t, mode, v, f);
    OwnTagsOf(t, mode, tag);
    var ts, body, extra := OwnTags(t, mode, tag), BerBody(t, v, f, 0), SkipLength.Contents(f.extra);
    var m := if f.indefinite then |ts| else 0;
    WrappedChecked(t, mode, tag, 1, f.indefinite, body + extra, x);
    WrappedLeft(m, ts, f.indefinite, body + extra);
    var b := Ber(t, mode, tag, v, f) + x;
    var k := CheckTags(t.tags, true, 0, b, mode, 1);
    SequenceStart(t, mode, b);
    var fields := SequenceContext(t, Absent).fields;
    NothingDone(t, v, fields);
    assert body + extra + Zeros(m) == body + (extra + Zeros(m));
    MembersBer(t, v, f, 0, m, fields, x, k.consumed);
  }

  lemma SequenceParts(t: Type, mode: int, v: Value, f: Form)
    requires t.Sequence? && HasType(t, v) && f.Parts? && PartsFit(t, mode, v, f)
    ensures SequenceFits(t, v, f) && BerContents(t, mode, v, f) == BerBody(t, v, f, 0) + SkipLength.Contents(f.extra)
  {}

  lemma SequenceStart(t: Type, mode: int, b: Bytes)
    requires t.Sequence?
    ensures var fields := SequenceContext(t, Absent).fields;
            |fields| == |t.members| && AbsentFrom(fields, 0) &&
            var k := CheckTags(t.tags, true, 0, b, mode, 1);
            k.code == OK ==>
              DecodeSequence(t, mode, Absent, b) == DecodeMembers(t, 0, 0, k.length, fields, b[k.consumed..], k.consumed)
  {
    hide CheckTags, DecodeMembers;
  }

  /** An alternative and what stands behind it, `left` being what the tags leave to the CHOICE. */
  lemma {:induction false} ChosenBer(t: Type, mode: int, v: Value, g: Form, left: int, rest: Bytes, z: Bytes, used: nat)
      returns (st: St)
    requires t.Choice? && ValidType(t) && HasType(t, v) && Storable(v)
    requires HasType(t.members[v.index].ty, v.chosen)
    requires Fits(t.members[v.index].ty, t.members[v.index].mode, t.members[v.index].tag, v.chosen, g)
    requires var enc := Ber(t.members[v.index].ty, t.members[v.index].mode, t.members[v.index].tag, v.chosen, g);
             |enc| <= MAX_LENGTH && Visible(left, enc + rest) == enc + z
    ensures var enc := Ber(t.members[v.index].ty, t.members[v.index].mode, t.members[v.index].tag, v.chosen, g);
            && Holds(t.members[v.index].ty, v.chosen, st)
            && ChooseAlternative(t, mode, left, 0, Absent, enc + rest, used)
               == FinishChoice(t, mode, Less(left, |enc|), v.index + 1, st, rest, used + |enc|)
    decreases v, 1, 0
  {
    hide *;
    ChosenTyped(t, v);
    MemberValid(t, v.index);
    var m := t.members[v.index];
    var enc := Ber(m.ty, m.mode, m.tag, v.chosen, g);
    var c := BerBegins(m.ty, m.mode, m.tag, v.chosen, g);
    var x := FirstTag(m.ty, m.mode, m.tag, v.chosen);
    TagListed(m, v.chosen);
    ChoiceValid(t);
    AlternativeFound(t.members, t.rows, v.index, x);
    PrefixOf(Identifier(x, c), enc, z);
    FetchPrefix(x, c, enc + z, enc + z);
    ChooseUnfold(t, mode, left, Absent, enc + rest, used);
    StorableChosen(v);
    BerDecode(m.ty, m.mode, m.tag, v.chosen, g, z);
    ChosenUnfold(t, mode, v.index, left, Absent, enc + rest, used);
    Behind(enc, rest);
    st := Decode(m.ty, m.mode, Absent, enc + z).st;
  }

  lemma PrefixOf(a: Bytes, b: Bytes, z: Bytes)
    requires a <= b
    ensures a <= b + z
  {}

  lemma {:induction false} EocsSkipped(m: nat, x: Bytes, used: nat)
    ensures SkipEocs(0 - m, Zeros(m) + x, used) == Ending(OK, used + 2 * m, 4, 0)
    decreases m
  {
    if m > 0 {
      hide FetchTag, Zeros;
      ZerosUnfold(m, x);
      ZeroTag(Zeros(m) + x);
      EocsSkipped(m - 1, x, used + 2);
    }
  }

  lemma FinishTagged(t: Type, mode: int, m: nat, present: nat, member: St, rest: Bytes, used: nat)
    requires t.Choice? && !Untagged(t, mode)
    ensures var e := SkipEocs(0 - m, rest, used);
            FinishChoice(t, mode, 0 - m, present, member, rest, used) == Dec(e.code, e.consumed, SCho(Ctx(e.phase, 0, e.left), present, member))
  {
    hide SkipEocs;
  }

  lemma FinishUntagged(t: Type, mode: int, present: nat, member: St, rest: Bytes, used: nat)
    requires t.Choice? && Untagged(t, mode)
    ensures FinishChoice(t, mode, -1, present, member, rest, used) == Dec(OK, used, SCho(Ctx(4, 0, -1), present, member))
  {}

  lemma ChoiceStart(t: Type, mode: int, b: Bytes)
    requires t.Choice?
    ensures Untagged(t, mode) ==> DecodeChoice(t, mode, Absent, b) == ChooseAlternative(t, mode, -1, 0, Absent, b, 0)
    ensures !Untagged(t, mode) ==>
              var k := CheckTags(t.tags, true, 0, b, mode, -1);
              k.code == OK ==>
                DecodeChoice(t, mode, Absent, b) == ChooseAlternative(t, mode, k.length, 0, Absent, b[k.consumed..], k.consumed)
  {
    hide CheckTags, ChooseAlternative;
  }

  lemma {:induction false} ChoiceBer(t: Type, mode: int, tag: Tag, v: Value, f: Form, x: Bytes)
    requires t.Choice? && ValidType(t) && ValidMode(t, mode) && HasType(t, v) && Storable(v) && Fits(t, mode, tag, v, f) && f.Parts?
    requires |Ber(t, mode, tag, v, f)| <= MAX_LENGTH
    ensures var d := DecodeChoice(t, mode, Absent, Ber(t, mode, tag, v, f) + x);
            d.code == OK && d.consumed == |Ber(t, mode, tag, v, f)| && Holds(t, v, d.st)
    decreases v, 2, 0
  {
    hide *;
    ChosenTyped(t, v);
    PartsType(t, mode, tag, v, f);
    ChosenForm(t, mode, v, f);
    OwnTagsOf(t, mode, tag);
    var mm, g := t.members[v.index], f.parts[0];
    var enc, b := Ber(mm.ty, mm.mode, mm.tag, v.chosen, g), Ber(t, mode, tag, v, f) + x;
    ChoiceStart(t, mode, b);
    if Untagged(t, mode) {
      UntaggedForm(t, mode, tag, v, f);
      SeesAll(-1, enc + x);
      var st := ChosenBer(t, mode, v, g, -1, x, x, 0);
      LessUnknown(-1, |enc|);
      FinishUntagged(t, mode, v.index + 1, st, x, |enc|);
      HoldsChosen(t, v, SCho(Ctx(4, 0, -1), v.index + 1, st));
    } else {
      var ts := OwnTags(t, mode, tag);
      var m := if f.indefinite then |ts| else 0;
      WrappedChecked(t, mode, tag, -1, f.indefinite, enc, x);
      var k := CheckTags(t.tags, true, 0, b, mode, -1);
      assert enc + Zeros(m) + x == enc + (Zeros(m) + x);
      var left := k.length;
      var z := SeenChosen(f.indefinite, m, enc, Zeros(m) + x);
      var st := ChosenBer(t, mode, v, g, left, Zeros(m) + x, z, k.consumed);
      LessChosen(f.indefinite, m, enc);
      FinishTagged(t, mode, m, v.index + 1, st, Zeros(m) + x, k.consumed + |enc|);
      EocsSkipped(m, x, k.consumed + |enc|);
      HoldsChosen(t, v, SCho(Ctx(4, 0, 0), v.index + 1, st));
    }
  }

  lemma SeesAll(left: int, b: Bytes)
    requires left < 0
    ensures Visible(left, b) == b
  {}

  lemma LessUnknown(left: int, n: nat)
    requires left < 0
    ensures Less(left, n) == left
  {}

  lemma SeenChosen(indefinite: bool, m: nat, enc: Bytes, rest: Bytes) returns (z: Bytes)
    requires indefinite ==> m > 0
    ensures Visible(if indefinite then 0 - m else |enc|, enc + rest) == enc + z
  {
    z := if indefinite then rest else [];
    assert (enc + rest)[..|enc|] == enc && enc + [] == enc;
  }

  lemma LessChosen(indefinite: bool, m: nat, enc: Bytes)
    requires if indefinite then m > 0 else m == 0
    ensures Less(if indefinite then 0 - m else |enc|, |enc|) == 0 - m
  {}

  lemma SegmentedDecode(t: Type, mode: int, tag: Tag, v: Value, n: Node, x: Bytes)
    requires HasType(t, v) && Storable(v) && Fits(t, mode, tag, v, Segmented(n))
    ensures var d := Decode(t, mode, Absent, Encoded(n) + x);
            d.code == OK && d.consumed == |Encoded(n)| && Holds(t, v, d.st)
  {
    SegmentedForm(t, mode, tag, v, n);
    hide OctetString.Decode, Encoded, WellFormed, OctetString.Segments, OctetString.Flat;
    assert t.tags == [t.tags[0]];
    OctetString.ConstructedDecode(t.tags[0], n, x, mode);
    OctetString.OkIsDone(t.tags, t.allTags, Encoded(n) + x, mode);
  }

  /** In whatever form a value is encoded, and whatever follows: one call yields the value and consumes
      exactly the encoding, unknown values and end-of-contents octets included. */
  lemma {:induction false} BerDecode(t: Type, mode: int, tag: Tag, v: Value, f: Form, x: Bytes)
    requires ValidType(t) && ValidMode(t, mode) && HasType(t, v) && Storable(v) && Fits(t, mode, tag, v, f)
    requires |Ber(t, mode, tag, v, f)| <= MAX_LENGTH
    ensures var d := Decode(t, mode, Absent, Ber(t, mode, tag, v, f) + x);
            d.code == OK && d.consumed == |Ber(t, mode, tag, v, f)| && Holds(t, v, d.st)
    decreases v, if t.Sequence? || t.Choice? then |t.members| + 3 else 0, 0
  {
    hide *;
    match f
    case Plain =>
      PlainForm(t, mode, tag, v);
      RoundTrip(t, mode, tag, v, x);
    case Segmented(n) =>
      SegmentedForm(t, mode, tag, v, n);
      SegmentedDecode(t, mode, tag, v, n, x);
    case Parts(_, _, _) =>
      PartsType(t, mode, tag, v, f);
      DecodeParts(t, mode, v, f, Ber(t, mode, tag, v, f) + x);
      if t.Sequence? {
        SequenceBer(t, mode, tag, v, f, x);
      } else {
        ChoiceBer(t, mode, tag, v, f, x);
      }
  }

  lemma DecodeParts(t: Type, mode: int, v: Value, f: Form, b: Bytes)
    requires HasType(t, v) && f.Parts? && PartsFit(t, mode, v, f)
    ensures t.Sequence? || t.Choice?
    ensures t.Sequence? ==> Decode(t, mode, Absent, b) == DecodeSequence(t, mode, Absent, b)
    ensures t.Choice? ==> Decode(t, mode, Absent, b) == DecodeChoice(t, mode, Absent, b)
  {
    hide DecodeSequence, DecodeChoice;
  }

  // ----- where the CHOICE decoder does not return

  /** A tagged CHOICE of indefinite length, whatever stands behind its alternative: the call ends as
      the loop over end-of-contents octets does, or not at all. */
  lemma OpenChoice(t: Type, mode: int, tag: Tag, v: Value, g: Form, r: Bytes)
    requires t.Choice? && ValidType(t) && ValidMode(t, mode) && HasType(t, v) && Storable(v) && !Untagged(t, mode)
    requires HasType(t.members[v.index].ty, v.chosen)
    requires Fits(t.members[v.index].ty, t.members[v.index].mode, t.members[v.index].tag, v.chosen, g)
    requires |Ber(t.members[v.index].ty, t.members[v.index].mode, t.members[v.index].tag, v.chosen, g)| <= MAX_LENGTH
    ensures var m, ts := t.members[v.index], TagsToWrite(t.tags, mode, tag);
            var d := Decode(t, mode, Absent, OpenChain(ts) + (Ber(m.ty, m.mode, m.tag, v.chosen, g) + r));
            d.code == SkipEocs(0 - |ts|, r, |OpenChain(ts) + Ber(m.ty, m.mode, m.tag, v.chosen, g)|).code
  {
    hide *;
    ChosenTyped(t, v);
    OwnTagsOf(t, mode, tag);
    ModeFacts(t, mode);
    SomeTags(t, mode, tag);
    var m, ts := t.members[v.index], TagsToWrite(t.tags, mode, tag);
    var enc := Ber(m.ty, m.mode, m.tag, v.chosen, g);
    var b := OpenChain(ts) + (enc + r);
    OpenChainChecked(t.tags, mode, tag, -1, enc + r);
    Behind(OpenChain(ts), enc + r);
    ChoiceDecoded(t, mode, b);
    ChoiceStart(t, mode, b);
    SeesAll(0 - |ts|, enc + r);
    var st := ChosenBer(t, mode, v, g, 0 - |ts|, r, r, |OpenChain(ts)|);
    LessUnknown(0 - |ts|, |enc|);
    FinishTagged(t, mode, |ts|, v.index + 1, st, r, |OpenChain(ts)| + |enc|);
  }

  lemma SomeTags(t: Type, mode: int, tag: Tag)
    requires t.Choice? && ValidMode(t, mode) && !Untagged(t, mode)
    ensures TagsToWrite(t.tags, mode, tag) != []
  {}

  lemma ChoiceDecoded(t: Type, mode: int, b: Bytes)
    requires t.Choice?
    ensures Decode(t, mode, Absent, b) == DecodeChoice(t, mode, Absent, b)
  {
    hide DecodeChoice;
  }

  /** So `CHOICE_decode_ber` does not return, on such an input, exactly when one of its pairs of
      end-of-contents octets is cut short by an octet that is not zero. */
  lemma ChoiceStuckExactly(t: Type, mode: int, tag: Tag, v: Value, g: Form, r: Bytes)
    requires t.Choice? && ValidType(t) && ValidMode(t, mode) && HasType(t, v) && Storable(v) && !Untagged(t, mode)
    requires HasType(t.members[v.index].ty, v.chosen)
    requires Fits(t.members[v.index].ty, t.members[v.index].mode, t.members[v.index].tag, v.chosen, g)
    requires |Ber(t.members[v.index].ty, t.members[v.index].mode, t.members[v.index].tag, v.chosen, g)| <= MAX_LENGTH
    ensures var m, ts := t.members[v.index], TagsToWrite(t.tags, mode, tag);
            var d := Decode(t, mode, Absent, OpenChain(ts) + (Ber(m.ty, m.mode, m.tag, v.chosen, g) + r));
            d.code == STUCK <==> EocsCutShort(0 - |ts|, r)
  {
    hide *;
    ChosenTyped(t, v);
    var m, ts := t.members[v.index], TagsToWrite(t.tags, mode, tag);
    OpenChoice(t, mode, tag, v, g, r);
    StuckExactly(0 - |ts|, r, |OpenChain(ts) + Ber(m.ty, m.mode, m.tag, v.chosen, g)|);
  }

  lemma {:induction false} TailReturns(t: Type, phase: nat, left: int, b: Bytes, used: nat)
    requires t.Sequence?
    ensures SkipTail(t, phase, left, b, used).code != STUCK
    decreases |b|
  {
    hide FetchTag, Skip, Constructed, InExtension, Visible, Less, Starved;
    var w := Visible(left, b);
    StarvedReturns(left, b);
    if left != 0 && FetchTag(w).Got? {
      if |w| >= 2 {
        TailReturns(t, 4, left + 1, b[2..], used + 2);
      }
      var k := Skip(Constructed(w[0]), w[FetchTag(w).used..]);
      if k.Got? {
        var n := FetchTag(w).used + k.used;
        TailReturns(t, phase, Less(left, n), b[n..], used + n);
      }
    }
  }

  lemma StarvedReturns(left: int, b: Bytes)
    ensures Starved(left, b) != STUCK
  {}

  /** The last member of a SEQUENCE, inside which the decoder may get stuck. */
  lemma LastMember(t: Type, e: nat, left: int, fields: seq<St>, b: Bytes, used: nat)
    requires t.Sequence? && |fields| == |t.members| && e + 1 == |t.members| && left < 0
    requires Locate(t, e, left, b) == Found(e)
    ensures DecodeMembers(t, e, 2 * e, left, fields, b, used).code == STUCK <==>
            Decode(t.members[e].ty, t.members[e].mode, fields[e], b).code == STUCK
  {
    hide *;
    var m := t.members[e];
    SeesAll(left, b);
    MembersUnfold(t, e, left, fields, b, used);
    MembersInside(t, e, left, fields, b, used);
    OneStep(t, e, 1 + 2 * e, left, fields, b, used);
    var r := Decode(m.ty, m.mode, fields[e], b);
    if r.code == OK {
      var left', rest, used' := Less(left, r.consumed), b[r.consumed..], used + r.consumed;
      OddStep(e);
      MembersExhausted(t, e + 1, 2 * (e + 1), left', fields[e := r.st], rest, used');
      TailReturns(t, 3, left', rest, used');
      TailCode(t, 2 * (e + 1), left', fields[e := r.st], rest, used');
    }
  }

  lemma OddStep(e: nat)
    ensures (1 + 2 * e) % 2 == 1 && 1 + 2 * e - (1 + 2 * e) % 2 + 2 == 2 * (e + 1)
  {}

  lemma TailCode(t: Type, step: nat, left: int, fields: seq<St>, b: Bytes, used: nat)
    requires t.Sequence?
    ensures DecodeTail(t, 3, step, left, fields, b, used).code == SkipTail(t, 3, left, b, used).code
  {}
}
