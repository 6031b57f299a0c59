/** Type descriptors (include/osmocom/rspro/constr_TYPE.h) as a datatype, the values they describe,
    the DER encoding of a value, and the tables that find a member by its tag. */
module Descriptors {
  import opened Tlv
  import opened TagChain
  import opened Integers
  import OctetString

  /** The member tag of an untagged CHOICE. */
  const NO_TAG: Tag := 0xffff_ffff

  datatype Type =
    | Integer(tags: seq<Tag>)
    | Boolean(tags: seq<Tag>)
    | String(tags: seq<Tag>, allTags: seq<Tag>)
    | Sequence(tags: seq<Tag>, members: seq<Member>, rows: seq<Row>, extAfter: int, extBefore: int)
    | Choice(tags: seq<Tag>, members: seq<Member>, rows: seq<Row>, extStart: int)

  /** `asn_TYPE_member_t`; `optional` counts the optional members from this one on. */
  datatype Member = Member(tag: Tag, mode: int, optional: nat, ty: Type)

  /** `asn_TYPE_tag2member_t`; `first` and `last` are offsets to the rows with the same tag. */
  datatype Row = Row(tag: Tag, el: nat, first: int, last: int)

  datatype Value =
    | VInt(n: int)
    | VBool(truth: int)
    | VStr(octets: Bytes)
    | VSeq(fields: seq<Field>)
    | VCho(index: nat, chosen: Value)

  datatype Field = None | Some(v: Value)

  /** The values the encoders accept: a long, a string, no mandatory member missing, an alternative
      that exists. */
  predicate HasType(t: Type, v: Value)
    decreases v
  {
    match t
    case Integer(_) => v.VInt? && FitsLong(v.n)
    case Boolean(_) => v.VBool?
    case String(_, _) => v.VStr?
    case Sequence(_, ms, _, _, _) =>
      && v.VSeq? && |v.fields| == |ms|
      && forall i :: 0 <= i < |ms| ==>
           if v.fields[i].None? then ms[i].optional > 0 else HasType(ms[i].ty, v.fields[i].v)
    case Choice(_, ms, _, _) => v.VCho? && v.index < |ms| && HasType(ms[v.index].ty, v.chosen)
  }

  /** The values the decoders can hold: no string is as long as the limit of their growing buffer. */
  predicate Storable(v: Value) {
    match v
    case VInt(_) => true
    case VBool(_) => true
    case VStr(s) => |s| < OctetString.MAX_STRING
    case VSeq(fs) => forall i :: 0 <= i < |fs| && fs[i].Some? ==> Storable(fs[i].v)
    case VCho(_, c) => Storable(c)
  }

  // ----- encoding

  predicate IsConstructedType(t: Type) {
    t.Sequence? || t.Choice?
  }

  /** The tags written in front of a value; an untagged CHOICE has none of its own. */
  function OwnTags(t: Type, mode: int, tag: Tag): (ts: seq<Tag>) {
    if t.Choice? && mode != 1 && t.tags == [] then [] else TagsToWrite(t.tags, mode, tag)
  }

  function Width(t: Type): (n: nat) {
    if t.Sequence? then |t.members| + 1 else 0
  }

  /** What stands inside the tags of a value. */
  function Contents(t: Type, v: Value): (b: Bytes)
    requires HasType(t, v)
    decreases v, Width(t), 0
  {
    match t
    case Integer(_) => FromLong(v.n)
    case Boolean(_) => [if v.truth != 0 then 0xff else 0]
    case String(_, _) => v.octets
    case Sequence(_, _, _, _, _) => Body(t, v, 0)
    case Choice(_, ms, _, _) => EncodeMember(ms[v.index], v.chosen)
  }

  function EncodeMember(m: Member, v: Value): (b: Bytes)
    requires HasType(m.ty, v)
    decreases v, Width(m.ty), 2
  {
    Encode(m.ty, m.mode, m.tag, v)
  }

  /** The members present from number `k` on. */
  function Body(t: Type, v: Value, k: nat): (b: Bytes)
    requires t.Sequence? && HasType(t, v) && k <= |t.members|
    decreases v, |t.members| - k, 3
  {
    if k == |t.members| then []
    else (if v.fields[k].None? then [] else EncodeMember(t.members[k], v.fields[k].v)) + Body(t, v, k + 1)
  }

  /** The DER encoding of `v`, `mode` and `tag` being those of the member that holds it. */
  function Encode(t: Type, mode: int, tag: Tag, v: Value): (b: Bytes)
    requires HasType(t, v)
    decreases v, Width(t), 1
  {
    var c := Contents(t, v);
    WriteChain(OwnTags(t, mode, tag), |c|, IsConstructedType(t)) + c
  }

  // ----- finding a member by its tag

  datatype Index = Nowhere | Here(el: nat)

  /** The last row with this tag for a member in `lo..hi`. */
  function Lookup(rows: seq<Row>, tag: Tag, lo: nat, hi: nat): (r: Index)
    ensures r.Here? ==> lo <= r.el <= hi && exists i :: 0 <= i < |rows| && rows[i].tag == tag && rows[i].el == r.el
  {
    if rows == [] then Nowhere
    else
      var n := |rows| - 1;
      var x := rows[n];
      if x.tag == tag && lo <= x.el <= hi then Here(x.el)
      else
        var r := Lookup(rows[..n], tag, lo, hi);
        assert r.Here? ==> exists i :: 0 <= i < n && rows[..n][i].tag == tag && rows[..n][i].el == r.el;
        r
  }

  datatype Scan = Hit(el: nat) | Missed(search: bool)

  /** The linear search, given up at an untagged CHOICE. */
  function Linear(ms: seq<Member>, tag: Tag, n: nat, stop: nat, wide: bool): (r: Scan)
    requires stop <= |ms|
    ensures r.Hit? ==> n <= r.el < stop
    decreases stop - n
  {
    if n >= stop then Missed(wide)
    else if ms[n].tag == tag then Hit(n)
    else if ms[n].tag == NO_TAG then Missed(true)
    else Linear(ms, tag, n + 1, stop, wide)
  }

  /** How far the linear search goes from member `edx`: to the first mandatory member, but over
      eight members only before the table is searched instead. */
  function ScanEnd(ms: seq<Member>, edx: nat): (stop: nat)
    requires edx < |ms|
    ensures edx < stop <= |ms|
  {
    var end := edx + ms[edx].optional + 1;
    if end > |ms| then |ms| else if end - edx > 8 then edx + 8 else end
  }

  predicate ScanIsCut(ms: seq<Member>, edx: nat)
    requires edx < |ms|
  {
    var end := edx + ms[edx].optional + 1;
    end <= |ms| && end - edx > 8
  }

  /** The next member with this tag, as `SEQUENCE_decode_ber` finds it from `edx`. */
  function Find(ms: seq<Member>, rows: seq<Row>, edx: nat, tag: Tag): (r: Index)
    requires edx < |ms|
    ensures r.Here? ==> r.el >= edx
  {
    match Linear(ms, tag, edx, ScanEnd(ms, edx), ScanIsCut(ms, edx))
    case Hit(n) => Here(n)
    case Missed(search) => if search then Lookup(rows, tag, edx, edx + ms[edx].optional) else Nowhere
  }

  // ----- well-formed descriptors

  /** The tags an encoding can begin with. */
  function FirstTags(t: Type, mode: int, tag: Tag): (ts: seq<Tag>)
    decreases t, if t.Choice? then |t.members| + 1 else 0
  {
    if mode != 0 then [tag]
    else if t.tags != [] then [t.tags[0]]
    else if t.Choice? then ChoiceTags(t, 0)
    else []
  }

  function ChoiceTags(t: Type, k: nat): (ts: seq<Tag>)
    requires t.Choice? && k <= |t.members|
    decreases t, |t.members| - k
  {
    if k == |t.members| then [] else MemberTags(t.members[k]) + ChoiceTags(t, k + 1)
  }

  function MemberTags(m: Member): (ts: seq<Tag>)
    decreases m, 1
  {
    FirstTags(m.ty, m.mode, m.tag)
  }

  predicate ValidMode(t: Type, mode: int) {
    mode in {-1, 0, 1} && (mode == -1 ==> t.tags != [])
  }

  /** The tag of a member is the first of its encoding, NO_TAG where there are several. */
  predicate ValidMember(m: Member) {
    && ValidMode(m.ty, m.mode)
    && (m.mode == 0 ==> m.tag == if m.ty.tags != [] then m.ty.tags[0] else NO_TAG)
    && NO_TAG !in MemberTags(m)
  }

  predicate RunCount(ms: seq<Member>, i: nat)
    requires i < |ms|
  {
    || ms[i].optional == 0
    || ms[i].optional == 1 + (if i + 1 < |ms| then ms[i + 1].optional else 0)
  }

  predicate RunCounts(ms: seq<Member>) {
    forall i :: 0 <= i < |ms| ==> RunCount(ms, i)
  }

  /** No tag begins two members of one run of optional members and the member after it. */
  predicate RunsDistinct(ms: seq<Member>) {
    forall e, i, j :: 0 <= e <= i < j < |ms| && j <= e + ms[e].optional ==> Disjoint(ms[i], ms[j])
  }

  predicate Disjoint(m: Member, n: Member) {
    forall x :: x in MemberTags(m) ==> x !in MemberTags(n)
  }

  /** The rows list each first tag of each member, and nothing else. */
  predicate RowsMatch(ms: seq<Member>, rows: seq<Row>) {
    && (forall r :: r in rows ==> r.el < |ms| && r.tag in MemberTags(ms[r.el]))
    && (forall i, x :: 0 <= i < |ms| && x in MemberTags(ms[i]) ==> exists r :: r in rows && r.tag == x && r.el == i)
  }

  predicate ValidType(t: Type)
    decreases t
  {
    match t
    case Integer(tags) => tags != []
    case Boolean(tags) => tags != []
    case String(tags, _) => tags != []
    case Sequence(tags, ms, rows, _, _) =>
      && tags != []
      && (forall i :: 0 <= i < |ms| ==> ValidMember(ms[i]) && ValidType(ms[i].ty))
      && RunCounts(ms) && RunsDistinct(ms) && RowsMatch(ms, rows)
    case Choice(_, ms, rows, _) =>
      && (forall i :: 0 <= i < |ms| ==> ValidMember(ms[i]) && ValidType(ms[i].ty))
      && (forall i, j :: 0 <= i < j < |ms| ==> Disjoint(ms[i], ms[j]))
      && RowsMatch(ms, rows)
  }

  // ----- the search finds the member whose tag it is

  lemma {:induction false} LookupOnly(rows: seq<Row>, tag: Tag, lo: nat, hi: nat, n: nat)
    requires lo <= n <= hi
    requires exists r :: r in rows && r.tag == tag && r.el == n
    requires forall r :: r in rows && r.tag == tag && lo <= r.el <= hi ==> r.el == n
    ensures Lookup(rows, tag, lo, hi) == Here(n)
    decreases |rows|
  {
    var x := rows[|rows| - 1];
    if !(x.tag == tag && lo <= x.el <= hi) {
      var rest := rows[..|rows| - 1];
      var r :| r in rows && r.tag == tag && r.el == n;
      assert rows == rest + [x];
      assert r in rest;
      LookupOnly(rest, tag, lo, hi, n);
    }
  }

  /** The linear search for the tag of member `n` stops there or is given up, never at another. */
  lemma {:induction false} LinearFinds(ms: seq<Member>, tag: Tag, k: nat, n: nat, stop: nat, wide: bool)
    requires k <= n < |ms| && stop <= |ms| && tag != NO_TAG
    requires forall i :: k <= i < n ==> ms[i].tag != tag
    requires n < stop || wide
    requires ms[n].tag == tag || ms[n].tag == NO_TAG
    ensures Linear(ms, tag, k, stop, wide) in {Hit(n), Missed(true)}
    decreases n - k
  {
    if k < n && k < stop && ms[k].tag != NO_TAG {
      LinearFinds(ms, tag, k + 1, n, stop, wide);
    }
  }

  lemma MemberTagBegins(m: Member)
    requires ValidMember(m) && (m.ty.tags == [] && m.mode == 0 ==> m.ty.Choice?)
    ensures m.tag == NO_TAG || (m.tag in MemberTags(m) && forall x :: x in MemberTags(m) ==> x == m.tag)
  {}

  predicate MembersValid(ms: seq<Member>) {
    forall i :: 0 <= i < |ms| ==> ValidMember(ms[i]) && ValidType(ms[i].ty)
  }

  lemma TagsOfValidType(m: Member)
    requires ValidType(m.ty)
    ensures m.ty.tags == [] ==> m.ty.Choice?
  {}

  lemma OtherTag(ms: seq<Member>, edx: nat, i: nat, n: nat, tag: Tag)
    requires MembersValid(ms) && RunsDistinct(ms)
    requires edx <= i < n < |ms| && n <= edx + ms[edx].optional && tag in MemberTags(ms[n])
    ensures ms[i].tag != tag
  {
    hide MemberTags, ValidType;
    TagsOfValidType(ms[i]);
    MemberTagBegins(ms[i]);
    assert Disjoint(ms[i], ms[n]);
    assert ValidMember(ms[n]);
  }

  lemma OnlyRow(ms: seq<Member>, rows: seq<Row>, edx: nat, n: nat, tag: Tag, r: Row)
    requires RunsDistinct(ms) && RowsMatch(ms, rows)
    requires edx <= n < |ms| && n <= edx + ms[edx].optional && tag in MemberTags(ms[n])
    requires r in rows && r.tag == tag && edx <= r.el <= edx + ms[edx].optional
    ensures r.el == n
  {}

  /** From `edx`, a tag that can begin member `n` leads to member `n`. */
  lemma FindMember(ms: seq<Member>, rows: seq<Row>, edx: nat, n: nat, tag: Tag)
    requires MembersValid(ms) && RunsDistinct(ms) && RowsMatch(ms, rows)
    requires edx <= n < |ms| && n <= edx + ms[edx].optional
    requires tag in MemberTags(ms[n])
    ensures Find(ms, rows, edx, tag) == Here(n)
  {
    hide MemberTags, ValidType, RunsDistinct, RowsMatch, Linear, Lookup;
    assert ValidMember(ms[n]) && ValidType(ms[n].ty);
    TagsOfValidType(ms[n]);
    MemberTagBegins(ms[n]);
    forall i | edx <= i < n ensures ms[i].tag != tag {
      OtherTag(ms, edx, i, n, tag);
    }
    LinearFinds(ms, tag, edx, n, ScanEnd(ms, edx), ScanIsCut(ms, edx));
    forall r | r in rows && r.tag == tag && edx <= r.el <= edx + ms[edx].optional ensures r.el == n {
      OnlyRow(ms, rows, edx, n, tag, r);
    }
    RowListed(ms, rows, n, tag);
    LookupOnly(rows, tag, edx, edx + ms[edx].optional, n);
  }

  lemma RowListed(ms: seq<Member>, rows: seq<Row>, n: nat, tag: Tag)
    requires RowsMatch(ms, rows) && n < |ms| && tag in MemberTags(ms[n])
    ensures exists r :: r in rows && r.tag == tag && r.el == n
  {}

  /** The alternative of a CHOICE whose tag this is; `bsearch` with `_search4tag`. */
  function Alternative(ms: seq<Member>, rows: seq<Row>, tag: Tag): (r: Index)
    ensures r.Here? ==> r.el < |ms|
  {
    if |ms| == 0 then Nowhere else Lookup(rows, tag, 0, |ms| - 1)
  }

  lemma AlternativeFound(ms: seq<Member>, rows: seq<Row>, n: nat, tag: Tag)
    requires forall i, j :: 0 <= i < j < |ms| ==> Disjoint(ms[i], ms[j])
    requires RowsMatch(ms, rows) && n < |ms| && tag in MemberTags(ms[n])
    ensures Alternative(ms, rows, tag) == Here(n)
  {
    hide MemberTags, Lookup;
    RowListed(ms, rows, n, tag);
    assert forall r :: r in rows && r.tag == tag ==> r.el == n;
    LookupOnly(rows, tag, 0, |ms| - 1, n);
  }

  // ----- how an encoding begins

  /** The first tag of the encoding of this very value. */
  function FirstTag(t: Type, mode: int, tag: Tag, v: Value): (x: Tag)
    requires HasType(t, v) && ValidType(t) && ValidMode(t, mode)
    decreases v
  {
    if OwnTags(t, mode, tag) != [] then OwnTags(t, mode, tag)[0]
    else FirstTag(t.members[v.index].ty, t.members[v.index].mode, t.members[v.index].tag, v.chosen)
  }

  lemma {:induction false} ChoiceTagsInclude(t: Type, k: nat, i: nat, x: Tag)
    requires t.Choice? && k <= i < |t.members| && x in MemberTags(t.members[i])
    ensures x in ChoiceTags(t, k)
    decreases i - k
  {
    hide MemberTags;
    if k < i {
      ChoiceTagsInclude(t, k + 1, i, x);
    }
  }

  lemma {:induction false} FirstTagListed(t: Type, mode: int, tag: Tag, v: Value)
    requires HasType(t, v) && ValidType(t) && ValidMode(t, mode)
    ensures FirstTag(t, mode, tag, v) in FirstTags(t, mode, tag)
    decreases v
  {
    if OwnTags(t, mode, tag) == [] {
      var m := t.members[v.index];
      FirstTagListed(m.ty, m.mode, m.tag, v.chosen);
      ChoiceTagsInclude(t, 0, v.index, FirstTag(m.ty, m.mode, m.tag, v.chosen));
    }
  }

  /** Whether the identifier of that first tag has the constructed bit. */
  function FirstForm(t: Type, mode: int, tag: Tag, v: Value): (c: bool)
    requires HasType(t, v) && ValidType(t) && ValidMode(t, mode)
    decreases v
  {
    if OwnTags(t, mode, tag) != [] then IsConstructedType(t) || |OwnTags(t, mode, tag)| > 1
    else FirstForm(t.members[v.index].ty, t.members[v.index].mode, t.members[v.index].tag, v.chosen)
  }

  lemma ChainBegins(ts: seq<Tag>, len: nat, form: bool, x: Bytes)
    requires ts != []
    ensures Identifier(ts[0], form || |ts| > 1) <= WriteChain(ts, len, form) + x
  {}

  lemma {:induction false} EncodeBegins(t: Type, mode: int, tag: Tag, v: Value)
    requires HasType(t, v) && ValidType(t) && ValidMode(t, mode)
    ensures Identifier(FirstTag(t, mode, tag, v), FirstForm(t, mode, tag, v)) <= Encode(t, mode, tag, v)
    decreases v
  {
    hide Identifier, WriteChain, TagsToWrite;
    var ts := OwnTags(t, mode, tag);
    if ts != [] {
      hide HasType, ValidType, Contents;
      ChainBegins(ts, |Contents(t, v)|, IsConstructedType(t), Contents(t, v));
    } else {
      NoOwnTags(t, mode, tag);
      var m := t.members[v.index];
      EncodeBegins(m.ty, m.mode, m.tag, v.chosen);
      NoChain(t, mode, tag, v);
    }
  }

  lemma NoOwnTags(t: Type, mode: int, tag: Tag)
    requires ValidType(t) && ValidMode(t, mode) && OwnTags(t, mode, tag) == []
    ensures t.Choice? && t.tags == [] && mode == 0
  {}

  lemma NoChain(t: Type, mode: int, tag: Tag, v: Value)
    requires HasType(t, v) && t.Choice? && OwnTags(t, mode, tag) == []
    ensures Encode(t, mode, tag, v) == EncodeMember(t.members[v.index], v.chosen)
  {}

  lemma EncodeParts(t: Type, mode: int, tag: Tag, v: Value)
    requires HasType(t, v)
    ensures Encode(t, mode, tag, v) == WriteChain(OwnTags(t, mode, tag), |Contents(t, v)|, IsConstructedType(t)) + Contents(t, v)
  {}

  lemma ChosenContents(t: Type, v: Value)
    requires t.Choice? && HasType(t, v)
    ensures Contents(t, v) == EncodeMember(t.members[v.index], v.chosen)
  {}

  lemma EmptyChain(len: nat)
    ensures WriteChain([], len, true) == []
  {}

  lemma EncodeNonEmpty(t: Type, mode: int, tag: Tag, v: Value)
    requires HasType(t, v) && ValidType(t) && ValidMode(t, mode)
    ensures |Encode(t, mode, tag, v)| >= 1
  {
    hide Encode, Identifier, HasType, ValidType, FirstTag, FirstForm;
    EncodeBegins(t, mode, tag, v);
  }
}
