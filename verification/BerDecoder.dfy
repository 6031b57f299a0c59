/** The restartable decoders: `NativeInteger_decode_ber`, `BOOLEAN_decode_ber`,
    `SEQUENCE_decode_ber` (src/rspro/constr_SEQUENCE.c) and `CHOICE_decode_ber`
    (src/rspro/constr_CHOICE.c), over the type descriptors. */
module BerDecoder {
  import opened Tlv
  import opened TagChain
  import opened SkipLength
  import opened Integers
  import opened Descriptors
  import OctetString

  /** The structure being filled, with its context; memory not touched yet is Absent. */
  datatype St =
    | Absent
    | SInt(n: int)
    | SBool(truth: int)
    | SStr(os: OctetString.Ctx)
    | SSeq(sc: Ctx, fields: seq<St>)
    | SCho(cc: Ctx, present: nat, member: St)

  /** `asn_struct_ctx_t` */
  datatype Ctx = Ctx(phase: nat, step: nat, left: int)

  const START: Ctx := Ctx(0, 0, 0)

  datatype Dec = Dec(code: Code, consumed: nat, st: St)

  /** LEFT: the octets the decoder may look at. A negative `left` is an indefinite length. */
  function Visible(left: int, b: Bytes): (w: Bytes)
    ensures w <= b
  {
    if left < 0 then b else Cut(b, left)
  }

  /** SIZE_VIOLATION: all octets of the value are in the buffer. */
  predicate Violation(left: int, b: Bytes) {
    0 <= left <= |b|
  }

  /** ADVANCE */
  function Less(left: int, n: nat): (r: int) {
    if left >= 0 then left - n else left
  }

  function Starved(left: int, b: Bytes): (c: Code) {
    if Violation(left, b) then FAIL else WMORE
  }

  // ----- primitive types: no context, a starved call is repeated from the start

  function DecodeInteger(tags: seq<Tag>, mode: int, st: St, b: Bytes): (d: Dec)
    ensures d.consumed <= |b|
  {
    var k := CheckTags(tags, false, 0, b, mode, 0);
    if k.code != OK then Dec(k.code, k.consumed, st)
    else if k.length < 0 then Dec(FAIL, 0, st)
    else if k.length > |b| - k.consumed then Dec(WMORE, 0, st)
    else
      match ToLong(b[k.consumed..k.consumed + k.length])
      case OutOfRange => Dec(FAIL, 0, st)
      case Long(n) => Dec(OK, k.consumed + k.length, SInt(n))
  }

  /** The first octet that is not zero. */
  function FirstTruth(b: Bytes): (x: Byte) {
    if b == [] then 0 else if b[0] != 0 then b[0] else FirstTruth(b[1..])
  }

  function DecodeBoolean(tags: seq<Tag>, mode: int, st: St, b: Bytes): (d: Dec)
    ensures d.consumed <= |b|
  {
    var k := CheckTags(tags, false, 0, b, mode, 0);
    if k.code != OK then Dec(k.code, k.consumed, st)
    else if k.length < 0 then Dec(FAIL, 0, st)
    else if k.length > |b| - k.consumed then Dec(WMORE, 0, st)
    else Dec(OK, k.consumed + k.length, SBool(FirstTruth(b[k.consumed..k.consumed + k.length])))
  }

  function DecodeString(tags: seq<Tag>, allTags: seq<Tag>, mode: int, st: St, b: Bytes): (d: Dec)
    ensures d.consumed <= |b|
  {
    var r := OctetString.Decode(tags, allTags, if st.SStr? then st.os else OctetString.FRESH, b, mode);
    Dec(r.code, r.consumed, SStr(r.ctx))
  }

  // ----- SEQUENCE

  predicate InExtension(t: Type, i: int)
    requires t.Sequence?
  {
    t.extAfter < i < t.extBefore
  }

  /** What microphase 1 decides at member `edx`. */
  datatype Loc = End | Halt(code: Code) | Tail | Found(el: nat) | Skipped(used: nat)

  predicate MayEnd(t: Type, edx: nat)
    requires t.Sequence? && edx < |t.members|
  {
    || edx + t.members[edx].optional == |t.members|
    || (InExtension(t, edx) && t.extBefore > |t.members|)
  }

  function SkipUnknown(t: Type, edx: nat, left: int, b: Bytes, w: Bytes, tl: nat): (r: Loc)
    requires t.Sequence? && edx < |t.members| && w <= b && 0 < tl <= |w|
    ensures r.Skipped? ==> 0 < r.used <= |b|
    ensures !r.Found?
    ensures r.Halt? ==> r.code != OK
  {
    if !InExtension(t, edx + t.members[edx].optional) then Halt(FAIL)
    else
      match Skip(Constructed(w[0]), w[tl..])
      case More => Halt(Starved(left, b))
      case Bad => Halt(FAIL)
      case Got(k, _) => Skipped(tl + k)
  }

  function Locate(t: Type, edx: nat, left: int, b: Bytes): (r: Loc)
    requires t.Sequence? && edx < |t.members|
    ensures r.Found? ==> r.el >= edx
    ensures r.Skipped? ==> 0 < r.used <= |b|
    ensures r.Halt? ==> r.code != OK
  {
    if left == 0 && MayEnd(t, edx) then End
    else
      var w := Visible(left, b);
      match FetchTag(w)
      case More => Halt(Starved(left, b))
      case Bad => Halt(FAIL)
      case Got(tl, tag) =>
        if left < 0 && w[0] == 0 && |w| < 2 then Halt(WMORE)
        else if left < 0 && w[0] == 0 && w[1] == 0 && MayEnd(t, edx) then Tail
        else
          match Find(t.members, t.rows, edx, tag)
          case Here(n) => Found(n)
          case Nowhere => SkipUnknown(t, edx, left, b, w, tl)
  }

  datatype Ending = Ending(code: Code, consumed: nat, phase: nat, left: int)

  /** Phases 3 and 4: skip extensions and end-of-contents octets until the value ends. */
  function SkipTail(t: Type, phase: nat, left: int, b: Bytes, used: nat): (r: Ending)
    requires t.Sequence?
    ensures used <= r.consumed <= used + |b|
    decreases |b|
  {
    if left == 0 then Ending(OK, used, 10, 0)
    else
      var w := Visible(left, b);
      match FetchTag(w)
      case More => Ending(Starved(left, b), used, phase, left)
      case Bad => Ending(FAIL, used, phase, left)
      case Got(tl, tag) =>
        if left < 0 && w[0] == 0 && |w| < 2 then Ending(WMORE, used, phase, left)
        else if left < 0 && w[0] == 0 && w[1] == 0 then SkipTail(t, 4, left + 1, b[2..], used + 2)
        else if !InExtension(t, |t.members|) || phase == 4 then Ending(FAIL, used, phase, left)
        else
          match Skip(Constructed(w[0]), w[tl..])
          case More => Ending(Starved(left, b), used, phase, left)
          case Bad => Ending(FAIL, used, phase, left)
          case Got(k, _) => SkipTail(t, phase, Less(left, tl + k), b[tl + k..], used + tl + k)
  }

  function DecodeTail(t: Type, phase: nat, step: nat, left: int, fields: seq<St>, b: Bytes, used: nat): (d: Dec)
    requires t.Sequence?
    ensures used <= d.consumed <= used + |b|
  {
    var r := SkipTail(t, phase, left, b, used);
    Dec(r.code, r.consumed, SSeq(Ctx(r.phase, step, r.left), fields))
  }

  function Absents(n: nat): (s: seq<St>)
    ensures |s| == n && forall i :: 0 <= i < n ==> s[i] == Absent
  {
    seq(n, _ => Absent)
  }

  function Remaining(t: Type, edx: nat): (n: nat)
    requires t.Sequence?
  {
    if edx < |t.members| then |t.members| - edx else 0
  }

  /** Phase 1: the loop over the members, `step` being twice the member plus the microphase. */
  function DecodeMembers(t: Type, edx: nat, step: nat, left: int, fields: seq<St>, b: Bytes, used: nat): (d: Dec)
    requires t.Sequence? && |fields| == |t.members|
    ensures used <= d.consumed <= used + |b|
    decreases t, |b|, Remaining(t, edx), 2 - step % 2
  {
    if edx >= |t.members| then DecodeTail(t, 3, step, left, fields, b, used)
    else if step % 2 == 1 then DecodeOne(t, edx, step, left, fields, b, used)
    else
      match Locate(t, edx, left, b)
      case End => Dec(OK, used, SSeq(Ctx(10, step, left), fields))
      case Halt(code) => Dec(code, used, SSeq(Ctx(1, step, left), fields))
      case Tail => DecodeTail(t, 3, step, left, fields, b, used)
      case Found(n) => DecodeMembers(t, n, 1 + 2 * n, left, fields, b, used)
      case Skipped(k) =>
        DecodeMembers(t, edx + t.members[edx].optional, step, Less(left, k), fields, b[k..], used + k)
  }

  /** Microphase 2: member `edx`, then the loop goes on. */
  function DecodeOne(t: Type, edx: nat, step: nat, left: int, fields: seq<St>, b: Bytes, used: nat): (d: Dec)
    requires t.Sequence? && |fields| == |t.members| && edx < |t.members|
    ensures used <= d.consumed <= used + |b|
    decreases t, |b|, Remaining(t, edx), 0
  {
    var m := t.members[edx];
    var r := Decode(m.ty, m.mode, fields[edx], Visible(left, b));
    var fields' := fields[edx := r.st];
    match r.code
    case OK =>
      DecodeMembers(t, edx + 1, step - step % 2 + 2, Less(left, r.consumed), fields', b[r.consumed..], used + r.consumed)
    case WMORE =>
      if Violation(left, b) then Dec(FAIL, used, SSeq(Ctx(1, step, left), fields'))
      else Dec(WMORE, used + r.consumed, SSeq(Ctx(1, step, Less(left, r.consumed)), fields'))
    case _ => Dec(r.code, used, SSeq(Ctx(1, step, left), fields'))
  }

  function SequenceContext(t: Type, st: St): (s: St)
    requires t.Sequence?
    ensures s.SSeq? && |s.fields| == |t.members|
  {
    if st.SSeq? && |st.fields| == |t.members| then st else SSeq(START, Absents(|t.members|))
  }

  function DecodeSequence(t: Type, mode: int, st: St, b: Bytes): (d: Dec)
    requires t.Sequence?
    ensures d.consumed <= |b|
    decreases t, |b| + 1
  {
    var s := SequenceContext(t, st);
    var c := s.sc;
    if c.phase == 0 then
      var k := CheckTags(t.tags, true, c.step, b, mode, 1);
      if k.code != OK then Dec(k.code, k.consumed, SSeq(c.(step := k.step), s.fields))
      else DecodeMembers(t, 0, 0, k.length, s.fields, b[k.consumed..], k.consumed)
    else if c.phase == 1 then DecodeMembers(t, c.step / 2, c.step, c.left, s.fields, b, 0)
    else if c.phase == 3 || c.phase == 4 then DecodeTail(t, c.phase, c.step, c.left, s.fields, b, 0)
    else Dec(OK, 0, s)
  }

  // ----- CHOICE

  /** One turn of the loop in phase 3 of a CHOICE. After a zero octet and another that is not zero
      neither branch of the source is taken: the next turn finds the same state. */
  datatype Turn = Leave(e: Ending) | Again(left: int, b: Bytes, used: nat)

  function EocTurn(left: int, b: Bytes, used: nat): (t: Turn) {
    if left >= 0 then Leave(Ending(OK, used, 4, left))
    else
      match FetchTag(b)
      case More => Leave(Ending(WMORE, used, 3, left))
      case Bad => Leave(Ending(FAIL, used, 3, left))
      case Got(_, _) =>
        if b[0] != 0 then Leave(Ending(FAIL, used, 3, left))
        else if |b| < 2 then Leave(Ending(WMORE, used, 3, left))
        else if b[1] == 0 then Again(left + 1, b[2..], used + 2)
        else Again(left, b, used)
  }

  /** `n` turns, or fewer if the loop is left. */
  function EocTurns(left: int, b: Bytes, used: nat, n: nat): (t: Turn)
    decreases n
  {
    if n == 0 then Again(left, b, used)
    else
      match EocTurn(left, b, used)
      case Leave(e) => Leave(e)
      case Again(left', b', used') => EocTurns(left', b', used', n - 1)
  }

  /** Phase 3 of a CHOICE: end-of-contents octets, one pair for each indefinite length. */
  function SkipEocs(left: int, b: Bytes, used: nat): (r: Ending)
    ensures used <= r.consumed <= used + |b|
    decreases |b|
  {
    match EocTurn(left, b, used)
    case Leave(e) => e
    case Again(left', b', used') =>
      if b' == b then Ending(STUCK, used, 3, left) else SkipEocs(left', b', used')
  }

  // ----- when that loop ends

  /** `j` pairs of zero octets, then a zero octet and one that is not zero. */
  predicate CutAt(b: Bytes, j: nat) {
    && 2 * j + 1 < |b| && (forall i :: 0 <= i <= 2 * j ==> b[i] == 0) && b[2 * j + 1] != 0
  }

  predicate EocsCutShort(left: int, b: Bytes) {
    exists j: nat :: j < -left && CutAt(b, j)
  }

  lemma ZeroTag(b: Bytes)
    requires b != [] && b[0] == 0
    ensures FetchTag(b) == Got(1, 0)
  {}

  lemma CutFurther(b: Bytes)
    requires |b| >= 2 && b[0] == 0 && b[1] == 0
    ensures !CutAt(b, 0)
    ensures forall j: nat :: CutAt(b[2..], j) <==> CutAt(b, j + 1)
  {
    forall j: nat ensures CutAt(b[2..], j) <==> CutAt(b, j + 1) {
      if CutAt(b[2..], j) {
        forall i | 0 <= i <= 2 * (j + 1) ensures b[i] == 0 {
          assert i < 2 || b[i] == b[2..][i - 2];
        }
      }
    }
  }

  /** The loop comes to its no-progress turn exactly when one of the pairs it waits for is cut short
      by an octet that is not zero. */
  lemma {:induction false} StuckExactly(left: int, b: Bytes, used: nat)
    ensures SkipEocs(left, b, used).code == STUCK <==> EocsCutShort(left, b)
    decreases |b|
  {
    hide FetchTag;
    if left < 0 && b != [] && b[0] == 0 {
      ZeroTag(b);
      if |b| >= 2 && b[1] == 0 {
        StuckExactly(left + 1, b[2..], used + 2);
        CutFurther(b);
        if EocsCutShort(left, b) {
          var j: nat :| j < -left && CutAt(b, j);
          assert CutAt(b[2..], j - 1);
        }
      } else if |b| >= 2 {
        assert CutAt(b, 0);
      }
    }
  }

  /** And then it never ends; in all other cases it ends with what `SkipEocs` says. */
  lemma {:induction false} StuckForever(left: int, b: Bytes, used: nat, n: nat)
    requires SkipEocs(left, b, used).code == STUCK
    ensures EocTurns(left, b, used, n).Again?
    decreases n
  {
    hide FetchTag;
    if n > 0 {
      var t := EocTurn(left, b, used);
      StuckForever(t.left, t.b, t.used, n - 1);
    }
  }

  lemma {:induction false} EndsOtherwise(left: int, b: Bytes, used: nat) returns (n: nat)
    requires SkipEocs(left, b, used).code != STUCK
    ensures forall k: nat :: k >= n ==> EocTurns(left, b, used, k) == Leave(SkipEocs(left, b, used))
    decreases |b|
  {
    hide FetchTag;
    var t := EocTurn(left, b, used);
    if t.Leave? {
      n := 1;
    } else {
      var m := EndsOtherwise(t.left, t.b, t.used);
      n := m + 1;
    }
  }

  function FinishChoice(t: Type, mode: int, left: int, present: nat, member: St, b: Bytes, used: nat): (d: Dec)
    requires t.Choice?
    ensures used <= d.consumed <= used + |b|
  {
    if left > 0 then Dec(FAIL, used, SCho(Ctx(3, 0, left), present, member))
    else if left == -1 && mode == 0 && t.tags == [] then Dec(OK, used, SCho(Ctx(4, 0, left), present, member))
    else
      var r := SkipEocs(left, b, used);
      Dec(r.code, r.consumed, SCho(Ctx(r.phase, 0, r.left), present, member))
  }

  /** Phase 2: alternative number `el`. */
  function DecodeChosen(t: Type, mode: int, el: nat, left: int, member: St, b: Bytes, used: nat): (d: Dec)
    requires t.Choice?
    ensures used <= d.consumed <= used + |b|
    decreases t, 0
  {
    if el >= |t.members| then Dec(FAIL, used, SCho(Ctx(2, el, left), 0, member))
    else
      var m := t.members[el];
      var r := Decode(m.ty, m.mode, member, Visible(left, b));
      match r.code
      case OK =>
        FinishChoice(t, mode, Less(left, r.consumed), el + 1, r.st, b[r.consumed..], used + r.consumed)
      case WMORE =>
        if Violation(left, b) then Dec(FAIL, used, SCho(Ctx(2, el, left), el + 1, r.st))
        else Dec(WMORE, used + r.consumed, SCho(Ctx(2, el, Less(left, r.consumed)), el + 1, r.st))
      case _ => Dec(r.code, used, SCho(Ctx(2, el, left), el + 1, r.st))
  }

  /** Phase 1: which alternative; one that is not known is skipped in an extensible CHOICE. */
  function ChooseAlternative(t: Type, mode: int, left: int, present: nat, member: St, b: Bytes, used: nat): (d: Dec)
    requires t.Choice?
    ensures used <= d.consumed <= used + |b|
    decreases t, 1
  {
    var w := Visible(left, b);
    var here := SCho(Ctx(1, 0, left), present, member);
    match FetchTag(w)
    case More => Dec(Starved(left, b), used, here)
    case Bad => Dec(FAIL, used, here)
    case Got(tl, tag) =>
      match Alternative(t.members, t.rows, tag)
      case Here(n) => DecodeChosen(t, mode, n, left, member, b, used)
      case Nowhere =>
        if t.extStart == -1 then Dec(FAIL, used, here)
        else
          match Skip(Constructed(w[0]), w[tl..])
          case More => Dec(Starved(left, b), used, here)
          case Bad => Dec(FAIL, used, here)
          case Got(k, _) => Dec(OK, used + tl + k, SCho(Ctx(1, 0, Less(left, tl + k)), present, member))
  }

  function DecodeChoice(t: Type, mode: int, st: St, b: Bytes): (d: Dec)
    requires t.Choice?
    ensures d.consumed <= |b|
    decreases t, 2
  {
    var s := if st.SCho? then st else SCho(START, 0, Absent);
    var c := s.cc;
    if c.phase == 0 && mode == 0 && t.tags == [] then
      ChooseAlternative(t, mode, -1, s.present, s.member, b, 0)
    else if c.phase == 0 then
      var k := CheckTags(t.tags, true, c.step, b, mode, -1);
      if k.code != OK then Dec(k.code, k.consumed, SCho(c.(step := k.step), s.present, s.member))
      else ChooseAlternative(t, mode, k.length, s.present, s.member, b[k.consumed..], k.consumed)
    else if c.phase == 1 then ChooseAlternative(t, mode, c.left, s.present, s.member, b, 0)
    else if c.phase == 2 then DecodeChosen(t, mode, c.step, c.left, s.member, b, 0)
    else if c.phase == 3 then FinishChoice(t, mode, c.left, s.present, s.member, b, 0)
    else Dec(OK, 0, s)
  }

  /** `ber_decoder` of a type: one call, resumed from `st`. */
  function Decode(t: Type, mode: int, st: St, b: Bytes): (d: Dec)
    ensures d.consumed <= |b|
    decreases t, |b| + 3
  {
    match t
    case Integer(tags) => DecodeInteger(tags, mode, st, b)
    case Boolean(tags) => DecodeBoolean(tags, mode, st, b)
    case String(tags, allTags) => DecodeString(tags, allTags, mode, st, b)
    case Sequence(_, _, _, _, _) => DecodeSequence(t, mode, st, b)
    case Choice(_, _, _, _) => DecodeChoice(t, mode, st, b)
  }

  // ----- one turn of the loop over the members

  lemma MembersStep(t: Type, edx: nat, step: nat, left: int, fields: seq<St>, b: Bytes, used: nat)
    requires t.Sequence? && |fields| == |t.members| && edx < |t.members|
    ensures var d := DecodeMembers(t, edx, step, left, fields, b, used);
            if step % 2 == 1 then d == DecodeOne(t, edx, step, left, fields, b, used)
            else
              match Locate(t, edx, left, b)
              case End => d == Dec(OK, used, SSeq(Ctx(10, step, left), fields))
              case Halt(code) => d == Dec(code, used, SSeq(Ctx(1, step, left), fields))
              case Tail => d == DecodeTail(t, 3, step, left, fields, b, used)
              case Found(n) => d == DecodeMembers(t, n, 1 + 2 * n, left, fields, b, used)
              case Skipped(k) =>
                k <= |b| &&
                d == DecodeMembers(t, edx + t.members[edx].optional, step, Less(left, k), fields, b[k..], used + k)
  {
    hide Locate, DecodeOne, DecodeTail, Less;
  }

  lemma OneStep(t: Type, edx: nat, step: nat, left: int, fields: seq<St>, b: Bytes, used: nat)
    requires t.Sequence? && |fields| == |t.members| && edx < |t.members|
    ensures var m := t.members[edx];
            var r := Decode(m.ty, m.mode, fields[edx], Visible(left, b));
            var d := DecodeOne(t, edx, step, left, fields, b, used);
            && r.consumed <= |b|
            && (r.code == OK ==>
                  d == DecodeMembers(t, edx + 1, step - step % 2 + 2, Less(left, r.consumed), fields[edx := r.st],
                                     b[r.consumed..], used + r.consumed))
            && (r.code == WMORE ==>
                  d == if Violation(left, b) then Dec(FAIL, used, SSeq(Ctx(1, step, left), fields[edx := r.st]))
                       else Dec(WMORE, used + r.consumed, SSeq(Ctx(1, step, Less(left, r.consumed)), fields[edx := r.st])))
            && (r.code !in {OK, WMORE} ==> d == Dec(r.code, used, SSeq(Ctx(1, step, left), fields[edx := r.st])))
  {
    hide Decode, DecodeMembers, Visible, Less, Violation;
  }

  lemma MembersExhausted(t: Type, edx: nat, step: nat, left: int, fields: seq<St>, b: Bytes, used: nat)
    requires t.Sequence? && |fields| == |t.members| && edx >= |t.members|
    ensures DecodeMembers(t, edx, step, left, fields, b, used) == DecodeTail(t, 3, step, left, fields, b, used)
  {
    hide DecodeTail;
  }
}
