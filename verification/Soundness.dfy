/** What an answer of the decoders means, on every input whatever: a structure they call decoded is
    complete, in one call or in any number of them. */
module Soundness {
  import opened Tlv
  import opened TagChain
  import opened SkipLength
  import opened Integers
  import opened Descriptors
  import opened BerDecoder
  import opened Restart
  import OctetString

  // ----- complete structures

  /** A member that is optional, or belongs to a group of extensions. */
  predicate MayBeMissing(t: Type, i: nat)
    requires t.Sequence? && i < |t.members|
  {
    t.members[i].optional > 0 || InExtension(t, i)
  }

  /** Nothing is missing that must not be: every member that is not there may be missing, an
      alternative is chosen unless it was one that an extensible CHOICE does not know. */
  predicate Complete(t: Type, st: St)
    decreases t
  {
    match t
    case Integer(_) => st.SInt? && FitsLong(st.n)
    case Boolean(_) => st.SBool?
    case String(_, _) => st.SStr? && st.os.phase == 4
    case Sequence(_, ms, _, _, _) =>
      && st.SSeq? && st.sc.phase == 10 && |st.fields| == |ms|
      && forall i :: 0 <= i < |ms| ==> if st.fields[i] == Absent then MayBeMissing(t, i) else Complete(ms[i].ty, st.fields[i])
    case Choice(_, ms, _, ext) =>
      && st.SCho?
      && if st.present == 0 then ext != -1 && st.member == Absent
         else st.cc.phase == 4 && st.present <= |ms| && Complete(ms[st.present - 1].ty, st.member)
  }

  /** The first `k` members are in place or may be missing. */
  predicate Settled(t: Type, fields: seq<St>, k: nat)
    requires t.Sequence? && |fields| == |t.members| && k <= |t.members|
  {
    forall i :: 0 <= i < k ==>
      if fields[i] == Absent then MayBeMissing(t, i) else Complete(t.members[i].ty, fields[i])
  }

  /** A structure that a call which wanted more can have left. */
  predicate Partial(t: Type, st: St)
    decreases t
  {
    match t
    case Integer(_) => true
    case Boolean(_) => true
    case String(_, _) => st.SStr? ==> st.os.phase <= 3
    case Sequence(_, ms, _, _, _) =>
      var s := SequenceContext(t, st);
      var e := s.sc.step / 2;
      || (s.sc.phase == 0 && AbsentFrom(s.fields, 0))
      || (&& s.sc.phase == 1 && e <= |ms| && Settled(t, s.fields, e)
          && if s.sc.step % 2 == 0 then AbsentFrom(s.fields, e)
             else e < |ms| && Partial(ms[e].ty, s.fields[e]) && AbsentFrom(s.fields, e + 1))
      || (s.sc.phase in {3, 4} && Settled(t, s.fields, |ms|))
    case Choice(_, ms, _, _) =>
      var s := if st.SCho? then st else SCho(START, 0, Absent);
      match s.cc.phase
      case 0 => s.present == 0 && s.member == Absent
      case 1 => s.present == 0 && s.member == Absent
      case 2 => s.cc.step < |ms| && Partial(ms[s.cc.step].ty, s.member)
      case 3 => 1 <= s.present <= |ms| && Complete(ms[s.present - 1].ty, s.member)
      case _ => false
  }

  predicate Sound(t: Type, d: Dec) {
    (d.code == OK ==> Complete(t, d.st)) && (d.code == WMORE ==> Partial(t, d.st))
  }

  lemma FreshPartial(t: Type)
    ensures Partial(t, Absent)
  {}

  // ----- primitive types

  lemma IntegerSound(t: Type, mode: int, st: St, b: Bytes)
    requires t.Integer?
    ensures Sound(t, DecodeInteger(t.tags, mode, st, b))
  {
    hide CheckTags, ToLong, FitsLong;
    var k := CheckTags(t.tags, false, 0, b, mode, 0);
    if k.code == OK && 0 <= k.length <= |b| - k.consumed {
      LongFits(b[k.consumed..k.consumed + k.length]);
    }
  }

  lemma LongFits(c: Bytes)
    ensures ToLong(c).Long? ==> FitsLong(ToLong(c).value)
  {
    hide ToLong, Integers.Value;
    ToLongExact(c);
  }

  lemma BooleanSound(t: Type, mode: int, st: St, b: Bytes)
    requires t.Boolean?
    ensures Sound(t, DecodeBoolean(t.tags, mode, st, b))
  {
    hide CheckTags, FirstTruth;
  }

  lemma StringSound(t: Type, mode: int, st: St, b: Bytes)
    requires t.String? && Partial(t, st)
    ensures Sound(t, DecodeString(t.tags, t.allTags, mode, st, b))
  {
    hide OctetString.Decode;
    OctetString.PhaseOf(t.tags, t.allTags, if st.SStr? then st.os else OctetString.FRESH, b, mode);
  }

  // ----- SEQUENCE

  /** The run counted from member `e`: all of it is optional. */
  lemma {:induction false} RunOptional(ms: seq<Member>, e: nat, i: nat)
    requires RunCounts(ms) && e <= i < |ms| && i < e + ms[e].optional
    ensures ms[i].optional > 0
    decreases i - e
  {
    assert RunCount(ms, e);
    if e < i {
      RunOptional(ms, e + 1, i);
    }
  }

  lemma {:induction false} RunEnds(ms: seq<Member>, e: nat)
    requires RunCounts(ms) && e < |ms|
    ensures e + ms[e].optional <= |ms|
    decreases |ms| - e
  {
    assert RunCount(ms, e);
    if e + 1 < |ms| {
      RunEnds(ms, e + 1);
    }
  }

  /** A member that is found is one of the run from `edx` on, or the one after it. */
  lemma FindInRun(ms: seq<Member>, rows: seq<Row>, edx: nat, tag: Tag)
    requires edx < |ms| && RowsMatch(ms, rows)
    ensures var r := Find(ms, rows, edx, tag); r.Here? ==> edx <= r.el < |ms| && r.el <= edx + ms[edx].optional
  {
    hide MemberTags, Linear, Lookup;
    var l := Linear(ms, tag, edx, ScanEnd(ms, edx), ScanIsCut(ms, edx));
    var k := Lookup(rows, tag, edx, edx + ms[edx].optional);
    if k.Here? {
      var i :| 0 <= i < |rows| && rows[i].tag == tag && rows[i].el == k.el;
      assert rows[i] in rows;
    }
  }

  /** The end of the contents is taken only where no member that must be there is to come. */
  lemma EndsWell(t: Type, edx: nat, i: nat)
    requires t.Sequence? && RunCounts(t.members) && edx <= i < |t.members| && MayEnd(t, edx)
    ensures MayBeMissing(t, i)
  {
    hide RunCounts;
    if edx + t.members[edx].optional == |t.members| {
      RunOptional(t.members, edx, i);
    }
  }

  lemma SettledEnd(t: Type, fields: seq<St>, edx: nat)
    requires t.Sequence? && RunCounts(t.members) && |fields| == |t.members| && edx < |t.members| && MayEnd(t, edx)
    requires Settled(t, fields, edx) && AbsentFrom(fields, edx)
    ensures Settled(t, fields, |t.members|)
  {
    hide RunCounts, MayEnd, MayBeMissing, Complete;
    forall i | edx <= i < |t.members| ensures MayBeMissing(t, i) {
      EndsWell(t, edx, i);
    }
  }

  lemma SettledRun(t: Type, fields: seq<St>, edx: nat, n: nat)
    requires t.Sequence? && RunCounts(t.members) && |fields| == |t.members|
    requires edx < |t.members| && edx <= n <= |t.members| && n <= edx + t.members[edx].optional
    requires Settled(t, fields, edx) && AbsentFrom(fields, edx)
    ensures Settled(t, fields, n) && AbsentFrom(fields, n)
  {
    hide RunCounts, Complete;
    forall i | edx <= i < n ensures MayBeMissing(t, i) {
      RunOptional(t.members, edx, i);
    }
  }

  lemma SettledMore(t: Type, fields: seq<St>, e: nat, st: St)
    requires t.Sequence? && |fields| == |t.members| && e < |t.members|
    requires Settled(t, fields, e) && AbsentFrom(fields, e + 1) && Complete(t.members[e].ty, st)
    ensures Settled(t, fields[e := st], e + 1) && AbsentFrom(fields[e := st], e + 1)
  {
    CompleteIsThere(t.members[e].ty, st);
    hide Complete, MayBeMissing;
  }

  lemma CompleteIsThere(t: Type, st: St)
    requires Complete(t, st)
    ensures st != Absent
  {}

  lemma SettledLess(t: Type, fields: seq<St>, e: nat, k: nat)
    requires t.Sequence? && |fields| == |t.members| && e <= k <= |t.members| && Settled(t, fields, k)
    ensures Settled(t, fields, e)
  {
    hide Complete, MayBeMissing;
  }

  /** One turn of the loop behind the members: it stops with a code that is not OK, or goes on. */
  lemma TailTurn(t: Type, phase: nat, left: int, b: Bytes, used: nat) returns (stop: bool, phase': nat, left': int, n: nat)
    requires t.Sequence? && left != 0
    ensures var r := SkipTail(t, phase, left, b, used);
            if stop then r.phase == phase && r.code in {FAIL, WMORE}
            else 0 < n <= |b| && phase' in {4, phase} && r == SkipTail(t, phase', left', b[n..], used + n)
  {
    hide FetchTag, Skip, Constructed, InExtension, Visible, Less, Starved;
    StarvedIs(left, b);
    var w := Visible(left, b);
    stop, phase', left', n := true, phase, left, 0;
    if FetchTag(w).Got? {
      if left < 0 && w[0] == 0 && |w| < 2 {
      } else if left < 0 && w[0] == 0 && w[1] == 0 {
        stop, phase', left', n := false, 4, left + 1, 2;
      } else if InExtension(t, |t.members|) && phase != 4 {
        var k := Skip(Constructed(w[0]), w[FetchTag(w).used..]);
        if k.Got? {
          n := FetchTag(w).used + k.used;
          stop, left' := false, Less(left, n);
        }
      }
    }
  }

  lemma {:induction false} TailPhase(t: Type, phase: nat, left: int, b: Bytes, used: nat)
    requires t.Sequence? && phase in {3, 4}
    ensures var r := SkipTail(t, phase, left, b, used); r.phase in {3, 4, 10} && (r.code == OK <==> r.phase == 10)
    decreases |b|
  {
    hide SkipTail;
    if left == 0 {
      TailDone(t, phase, b, used);
    } else {
      var stop, phase', left', n := TailTurn(t, phase, left, b, used);
      if !stop {
        TailPhase(t, phase', left', b[n..], used + n);
      }
    }
  }

  lemma TailDone(t: Type, phase: nat, b: Bytes, used: nat)
    requires t.Sequence?
    ensures SkipTail(t, phase, 0, b, used) == BerDecoder.Ending(OK, used, 10, 0)
  {}

  lemma StarvedIs(left: int, b: Bytes)
    ensures Starved(left, b) in {FAIL, WMORE}
  {}

  lemma TailSound(t: Type, phase: nat, step: nat, left: int, fields: seq<St>, b: Bytes, used: nat)
    requires t.Sequence? && phase in {3, 4} && |fields| == |t.members| && Settled(t, fields, |t.members|)
    ensures Sound(t, DecodeTail(t, phase, step, left, fields, b, used))
  {
    hide SkipTail, MayBeMissing;
    TailPhase(t, phase, left, b, used);
  }

  /** Between members (even step) or inside one (odd step); a member left out since the step was
      remembered is in front of `edx`. */
  predicate InMembers(t: Type, edx: nat, step: nat, fields: seq<St>)
    requires t.Sequence? && |fields| == |t.members|
  {
    if step % 2 == 1 then
      && edx < |t.members| && step == 1 + 2 * edx && Settled(t, fields, edx)
      && Partial(t.members[edx].ty, fields[edx]) && AbsentFrom(fields, edx + 1)
    else step / 2 <= edx <= |t.members| && Settled(t, fields, edx) && AbsentFrom(fields, step / 2)
  }

  lemma MembersLeft(t: Type, edx: nat, step: nat, left: int, fields: seq<St>)
    requires t.Sequence? && |fields| == |t.members| && InMembers(t, edx, step, fields)
    ensures Partial(t, SSeq(Ctx(1, step, left), fields))
  {
    hide Complete, MayBeMissing;
    if step % 2 == 0 {
      SettledLess(t, fields, step / 2, edx);
    } else {
      HalfOdd(edx);
    }
  }

  lemma CompleteSequence(t: Type, fields: seq<St>, step: nat, left: int)
    requires t.Sequence? && |fields| == |t.members| && Settled(t, fields, |t.members|)
    ensures Complete(t, SSeq(Ctx(10, step, left), fields))
  {}

  lemma EvenStep(t: Type, edx: nat, step: nat, fields: seq<St>)
    requires t.Sequence? && |fields| == |t.members| && step % 2 == 0 && InMembers(t, edx, step, fields)
    ensures step / 2 <= edx <= |t.members| && Settled(t, fields, edx) && AbsentFrom(fields, edx) && AbsentFrom(fields, step / 2)
  {
    hide Settled;
  }

  /** The loop over the members. */
  lemma {:induction false} MembersSound(t: Type, edx: nat, step: nat, left: int, fields: seq<St>, b: Bytes, used: nat)
    requires t.Sequence? && ValidType(t) && |fields| == |t.members| && InMembers(t, edx, step, fields)
    ensures Sound(t, DecodeMembers(t, edx, step, left, fields, b, used))
    decreases t, |b|, Remaining(t, edx), 2 - step % 2
  {
    hide *;
    SequenceValid(t);
    if step % 2 == 1 {
      OddStepIs(t, edx, step, fields);
      MembersStep(t, edx, step, left, fields, b, used);
      OneSound(t, edx, step, left, fields, b, used);
    } else {
      EvenStep(t, edx, step, fields);
      if edx == |t.members| {
        MembersExhausted(t, edx, step, left, fields, b, used);
        TailSound(t, 3, step, left, fields, b, used);
      } else {
        MembersStep(t, edx, step, left, fields, b, used);
        LocatedSound(t, edx, left, b);
        match Locate(t, edx, left, b)
        case End =>
          SettledEnd(t, fields, edx);
          CompleteSequence(t, fields, step, left);
          SoundIntro(t, DecodeMembers(t, edx, step, left, fields, b, used));
        case Halt(code) =>
          MembersLeft(t, edx, step, left, fields);
          SoundIntro(t, DecodeMembers(t, edx, step, left, fields, b, used));
        case Tail =>
          SettledEnd(t, fields, edx);
          TailSound(t, 3, step, left, fields, b, used);
        case Found(n) =>
          SettledRun(t, fields, edx, n);
          EntersFound(t, n, fields);
          RemainingLess(t, edx, n);
          MembersSound(t, n, 1 + 2 * n, left, fields, b, used);
        case Skipped(k) =>
          var e := edx + t.members[edx].optional;
          RunEnds(t.members, edx);
          SettledRun(t, fields, edx, e);
          StaysEven(t, e, step, fields);
          MembersSound(t, e, step, Less(left, k), fields, b[k..], used + k);
      }
    }
  }

  lemma OddStepIs(t: Type, edx: nat, step: nat, fields: seq<St>)
    requires t.Sequence? && |fields| == |t.members| && step % 2 == 1 && InMembers(t, edx, step, fields)
    ensures edx < |t.members| && step == 1 + 2 * edx
  {}

  lemma SoundIntro(t: Type, d: Dec)
    requires d.code == OK ==> Complete(t, d.st)
    requires d.code == WMORE ==> Partial(t, d.st)
    ensures Sound(t, d)
  {}

  lemma LocatedSound(t: Type, edx: nat, left: int, b: Bytes)
    requires t.Sequence? && edx < |t.members| && RowsMatch(t.members, t.rows)
    ensures match Locate(t, edx, left, b)
            case End => MayEnd(t, edx)
            case Tail => MayEnd(t, edx)
            case Halt(code) => code != OK
            case Found(n) => edx <= n < |t.members| && n <= edx + t.members[edx].optional
            case Skipped(k) => 0 < k <= |b|
  {
    hide FetchTag, Find, Skip, Constructed, InExtension, MayEnd, RowsMatch, Visible, Starved;
    var w := Visible(left, b);
    if FetchTag(w).Got? {
      FindInRun(t.members, t.rows, edx, FetchTag(w).value);
    }
  }

  lemma EntersFound(t: Type, n: nat, fields: seq<St>)
    requires t.Sequence? && |fields| == |t.members| && n < |t.members| && Settled(t, fields, n) && AbsentFrom(fields, n)
    ensures (1 + 2 * n) % 2 == 1 && InMembers(t, n, 1 + 2 * n, fields)
  {
    hide Settled, Partial;
    FreshPartial(t.members[n].ty);
    HalfOdd(n);
  }

  lemma RemainingLess(t: Type, edx: nat, n: nat)
    requires t.Sequence? && edx <= n
    ensures Remaining(t, n) <= Remaining(t, edx)
  {}

  lemma StaysEven(t: Type, e: nat, step: nat, fields: seq<St>)
    requires t.Sequence? && |fields| == |t.members| && step % 2 == 0 && step / 2 <= e <= |t.members|
    requires Settled(t, fields, e) && AbsentFrom(fields, step / 2)
    ensures InMembers(t, e, step, fields)
  {}

  lemma InsideIs(t: Type, edx: nat, fields: seq<St>)
    requires t.Sequence? && |fields| == |t.members| && InMembers(t, edx, 1 + 2 * edx, fields)
    ensures edx < |t.members| && Settled(t, fields, edx) && Partial(t.members[edx].ty, fields[edx]) && AbsentFrom(fields, edx + 1)
  {
    HalfOdd(edx);
  }

  /** One member, then the loop goes on. */
  lemma {:induction false} OneSound(t: Type, edx: nat, step: nat, left: int, fields: seq<St>, b: Bytes, used: nat)
    requires t.Sequence? && ValidType(t) && |fields| == |t.members| && InMembers(t, edx, step, fields) && step == 1 + 2 * edx
    requires edx < |t.members|
    ensures Sound(t, DecodeOne(t, edx, step, left, fields, b, used))
    decreases t, |b|, Remaining(t, edx), 0
  {
    hide *;
    InsideIs(t, edx, fields);
    MemberValid(t, edx);
    var m, w := t.members[edx], Visible(left, b);
    VisibleShorter(left, b);
    DecodeSound(m.ty, m.mode, fields[edx], w);
    OneStep(t, edx, step, left, fields, b, used);
    var r := Decode(m.ty, m.mode, fields[edx], w);
    SoundParts(m.ty, r);
    HalfOdd(edx);
    var d := DecodeOne(t, edx, step, left, fields, b, used);
    if r.code == OK {
      SettledMore(t, fields, edx, r.st);
      DoubleIs(edx + 1);
      StaysEven(t, edx + 1, 2 * (edx + 1), fields[edx := r.st]);
      RemainingStep(t, edx);
      MembersSound(t, edx + 1, 2 * (edx + 1), Less(left, r.consumed), fields[edx := r.st], b[r.consumed..], used + r.consumed);
    } else {
      if r.code == WMORE {
        StaysInside(t, edx, fields, r.st);
        MembersLeft(t, edx, step, Less(left, r.consumed), fields[edx := r.st]);
      }
      SoundIntro(t, d);
    }
  }

  lemma DoubleIs(e: nat)
    ensures (2 * e) % 2 == 0 && (2 * e) / 2 == e
  {}

  lemma RemainingStep(t: Type, edx: nat)
    requires t.Sequence? && edx < |t.members|
    ensures Remaining(t, edx + 1) < Remaining(t, edx)
  {}

  lemma VisibleShorter(left: int, b: Bytes)
    ensures |Visible(left, b)| <= |b|
  {}

  lemma SoundParts(t: Type, d: Dec)
    requires Sound(t, d)
    ensures d.code == OK ==> Complete(t, d.st)
    ensures d.code == WMORE ==> Partial(t, d.st)
  {}

  lemma StaysInside(t: Type, edx: nat, fields: seq<St>, st: St)
    requires t.Sequence? && |fields| == |t.members| && edx < |t.members|
    requires Settled(t, fields, edx) && AbsentFrom(fields, edx + 1) && Partial(t.members[edx].ty, st)
    ensures InMembers(t, edx, 1 + 2 * edx, fields[edx := st])
  {
    hide Complete, MayBeMissing, Partial;
    HalfOdd(edx);
  }

  lemma SequenceSound(t: Type, mode: int, st: St, b: Bytes)
    requires t.Sequence? && ValidType(t) && Partial(t, st)
    ensures Sound(t, DecodeSequence(t, mode, st, b))
    decreases t, |b| + 1
  {
    hide *;
    var s := SequenceContext(t, st);
    SequencePhases(t, mode, st, b);
    ContextSize(t, st);
    PartialSequence(t, st);
    var d := DecodeSequence(t, mode, st, b);
    if s.sc.phase == 0 {
      var k := CheckTags(t.tags, true, s.sc.step, b, mode, 1);
      ConsumedWithin(t.tags, s.sc.step, b, mode, 1);
      if k.code == OK {
        StartsMembers(t, s.fields);
        MembersSound(t, 0, 0, k.length, s.fields, b[k.consumed..], k.consumed);
      } else {
        StaysAtTags(t, s.sc.(step := k.step), s.fields);
        SoundIntro(t, d);
      }
    } else if s.sc.phase == 1 {
      MembersSound(t, s.sc.step / 2, s.sc.step, s.sc.left, s.fields, b, 0);
    } else {
      TailSound(t, s.sc.phase, s.sc.step, s.sc.left, s.fields, b, 0);
    }
  }

  lemma ContextSize(t: Type, st: St)
    requires t.Sequence?
    ensures SequenceContext(t, st).SSeq? && |SequenceContext(t, st).fields| == |t.members|
  {}

  lemma ConsumedWithin(tags: seq<Tag>, step: nat, b: Bytes, mode: int, lastForm: int)
    ensures CheckTags(tags, true, step, b, mode, lastForm).consumed <= |b|
  {}

  lemma PartialSequence(t: Type, st: St)
    requires t.Sequence? && Partial(t, st) && |SequenceContext(t, st).fields| == |t.members|
    ensures var s := SequenceContext(t, st);
            && s.sc.phase in {0, 1, 3, 4}
            && (s.sc.phase == 0 ==> AbsentFrom(s.fields, 0))
            && (s.sc.phase == 1 ==> InMembers(t, s.sc.step / 2, s.sc.step, s.fields))
            && (s.sc.phase in {3, 4} ==> Settled(t, s.fields, |t.members|))
  {
    hide Complete, MayBeMissing;
    var s := SequenceContext(t, st);
    Halves(s.sc.step);
  }

  lemma Halves(n: nat)
    ensures n % 2 == 1 ==> n == 1 + 2 * (n / 2)
    ensures n % 2 == 0 ==> n == 2 * (n / 2)
  {}

  lemma StartsMembers(t: Type, fields: seq<St>)
    requires t.Sequence? && |fields| == |t.members| && AbsentFrom(fields, 0)
    ensures InMembers(t, 0, 0, fields)
  {}

  lemma StaysAtTags(t: Type, c: Ctx, fields: seq<St>)
    requires t.Sequence? && |fields| == |t.members| && AbsentFrom(fields, 0) && c.phase == 0
    ensures Partial(t, SSeq(c, fields))
  {}

  lemma SequencePhases(t: Type, mode: int, st: St, b: Bytes)
    requires t.Sequence?
    ensures var s := SequenceContext(t, st);
            var d := DecodeSequence(t, mode, st, b);
            && (s.sc.phase == 0 ==>
                  var k := CheckTags(t.tags, true, s.sc.step, b, mode, 1);
                  d == if k.code != OK then Dec(k.code, k.consumed, SSeq(s.sc.(step := k.step), s.fields))
                       else DecodeMembers(t, 0, 0, k.length, s.fields, b[k.consumed..], k.consumed))
            && (s.sc.phase == 1 ==> d == DecodeMembers(t, s.sc.step / 2, s.sc.step, s.sc.left, s.fields, b, 0))
            && (s.sc.phase in {3, 4} ==> d == DecodeTail(t, s.sc.phase, s.sc.step, s.sc.left, s.fields, b, 0))
  {
    hide CheckTags, DecodeMembers, DecodeTail, SequenceContext;
  }

  // ----- CHOICE

  lemma {:induction false} EocsPhase(left: int, b: Bytes, used: nat)
    ensures var r := SkipEocs(left, b, used); r.phase in {3, 4} && (r.code == OK <==> r.phase == 4)
    decreases |b|
  {
    hide FetchTag;
    var x := EocTurn(left, b, used);
    if x.Again? && x.b != b {
      EocsPhase(x.left, x.b, x.used);
    }
  }

  lemma FinishSound(t: Type, mode: int, left: int, present: nat, member: St, b: Bytes, used: nat)
    requires t.Choice? && 1 <= present <= |t.members| && Complete(t.members[present - 1].ty, member)
    ensures Sound(t, FinishChoice(t, mode, left, present, member, b, used))
  {
    hide SkipEocs;
    EocsPhase(left, b, used);
  }

  lemma ChosenSteps(t: Type, mode: int, el: nat, left: int, member: St, b: Bytes, used: nat)
    requires t.Choice? && el < |t.members|
    ensures var m := t.members[el];
            var r := Decode(m.ty, m.mode, member, Visible(left, b));
            var d := DecodeChosen(t, mode, el, left, member, b, used);
            && r.consumed <= |b|
            && (r.code == OK ==>
                  d == FinishChoice(t, mode, Less(left, r.consumed), el + 1, r.st, b[r.consumed..], used + r.consumed))
            && (r.code == WMORE ==>
                  d == if Violation(left, b) then Dec(FAIL, used, SCho(Ctx(2, el, left), el + 1, r.st))
                       else Dec(WMORE, used + r.consumed, SCho(Ctx(2, el, Less(left, r.consumed)), el + 1, r.st)))
            && (r.code !in {OK, WMORE} ==> d == Dec(r.code, used, SCho(Ctx(2, el, left), el + 1, r.st)))
  {
    hide Decode, Visible, Less, Violation, FinishChoice;
  }

  lemma {:induction false} ChosenSound(t: Type, mode: int, el: nat, left: int, member: St, b: Bytes, used: nat)
    requires t.Choice? && ValidType(t) && el < |t.members| && Partial(t.members[el].ty, member)
    ensures Sound(t, DecodeChosen(t, mode, el, left, member, b, used))
    decreases t, 0
  {
    hide *;
    MemberValid(t, el);
    var m, w := t.members[el], Visible(left, b);
    DecodeSound(m.ty, m.mode, member, w);
    ChosenSteps(t, mode, el, left, member, b, used);
    var r := Decode(m.ty, m.mode, member, w);
    SoundParts(m.ty, r);
    if r.code == OK {
      FinishSound(t, mode, Less(left, r.consumed), el + 1, r.st, b[r.consumed..], used + r.consumed);
    } else {
      if r.code == WMORE {
        StillChosen(t, el, Less(left, r.consumed), r.st);
      }
      SoundIntro(t, DecodeChosen(t, mode, el, left, member, b, used));
    }
  }

  lemma StillChosen(t: Type, el: nat, left: int, member: St)
    requires t.Choice? && el < |t.members| && Partial(t.members[el].ty, member)
    ensures Partial(t, SCho(Ctx(2, el, left), el + 1, member))
  {}

  lemma ChooseSteps(t: Type, mode: int, left: int, b: Bytes, used: nat) returns (n: nat)
    requires t.Choice? && RowsMatch(t.members, t.rows)
    ensures var d := ChooseAlternative(t, mode, left, 0, Absent, b, used);
            || (n < |t.members| && d == DecodeChosen(t, mode, n, left, Absent, b, used))
            || d.code == FAIL
            || (d.code == WMORE && d.st == SCho(Ctx(1, 0, left), 0, Absent))
            || (d.code == OK && t.extStart != -1 && d.st.SCho? && d.st.present == 0 && d.st.member == Absent)
  {
    hide FetchTag, Visible, Starved, DecodeChosen, Alternative, Skip, Constructed;
    StarvedIs(left, b);
    var w := Visible(left, b);
    n := 0;
    if FetchTag(w).Got? {
      var x := Alternative(t.members, t.rows, FetchTag(w).value);
      if x.Here? {
        n := x.el;
      }
    }
  }

  lemma {:induction false} ChooseSound(t: Type, mode: int, left: int, b: Bytes, used: nat)
    requires t.Choice? && ValidType(t)
    ensures Sound(t, ChooseAlternative(t, mode, left, 0, Absent, b, used))
    decreases t, 1
  {
    hide *;
    ChoiceValid(t);
    var n := ChooseSteps(t, mode, left, b, used);
    var d := ChooseAlternative(t, mode, left, 0, Absent, b, used);
    if n < |t.members| && d == DecodeChosen(t, mode, n, left, Absent, b, used) {
      FreshPartial(t.members[n].ty);
      ChosenSound(t, mode, n, left, Absent, b, used);
    } else {
      StillChoosing(t, left);
      NothingChosen(t, d.st);
      SoundIntro(t, d);
    }
  }

  lemma StillChoosing(t: Type, left: int)
    requires t.Choice?
    ensures Partial(t, SCho(Ctx(1, 0, left), 0, Absent))
  {}

  lemma NothingChosen(t: Type, st: St)
    requires t.Choice?
    ensures t.extStart != -1 && st.SCho? && st.present == 0 && st.member == Absent ==> Complete(t, st)
  {}

  lemma ChoicePhases(t: Type, mode: int, st: St, b: Bytes)
    requires t.Choice?
    ensures var s := if st.SCho? then st else SCho(START, 0, Absent);
            var d := DecodeChoice(t, mode, st, b);
            && (s.cc.phase == 0 && Untagged(t, mode) ==> d == ChooseAlternative(t, mode, -1, s.present, s.member, b, 0))
            && (s.cc.phase == 0 && !Untagged(t, mode) ==>
                  var k := CheckTags(t.tags, true, s.cc.step, b, mode, -1);
                  d == if k.code != OK then Dec(k.code, k.consumed, SCho(s.cc.(step := k.step), s.present, s.member))
                       else ChooseAlternative(t, mode, k.length, s.present, s.member, b[k.consumed..], k.consumed))
            && (s.cc.phase == 1 ==> d == ChooseAlternative(t, mode, s.cc.left, s.present, s.member, b, 0))
            && (s.cc.phase == 2 ==> d == DecodeChosen(t, mode, s.cc.step, s.cc.left, s.member, b, 0))
            && (s.cc.phase == 3 ==> d == FinishChoice(t, mode, s.cc.left, s.present, s.member, b, 0))
  {
    hide CheckTags, ChooseAlternative, DecodeChosen, FinishChoice;
  }

  lemma PartialChoice(t: Type, st: St)
    requires t.Choice? && Partial(t, st)
    ensures var s := if st.SCho? then st else SCho(START, 0, Absent);
            && s.cc.phase <= 3
            && (s.cc.phase <= 1 ==> s.present == 0 && s.member == Absent)
            && (s.cc.phase == 2 ==> s.cc.step < |t.members| && Partial(t.members[s.cc.step].ty, s.member))
            && (s.cc.phase == 3 ==> 1 <= s.present <= |t.members| && Complete(t.members[s.present - 1].ty, s.member))
  {}

  lemma ChoiceSound(t: Type, mode: int, st: St, b: Bytes)
    requires t.Choice? && ValidType(t) && Partial(t, st)
    ensures Sound(t, DecodeChoice(t, mode, st, b))
    decreases t, 2
  {
    hide *;
    var s := if st.SCho? then st else SCho(START, 0, Absent);
    PartialChoice(t, st);
    ChoicePhases(t, mode, st, b);
    var d := DecodeChoice(t, mode, st, b);
    if s.cc.phase == 0 && !Untagged(t, mode) {
      var k := CheckTags(t.tags, true, s.cc.step, b, mode, -1);
      ConsumedWithin(t.tags, s.cc.step, b, mode, -1);
      if k.code == OK {
        ChooseSound(t, mode, k.length, b[k.consumed..], k.consumed);
      } else {
        StaysAtChoiceTags(t, s.cc.(step := k.step));
        SoundIntro(t, d);
      }
    } else if s.cc.phase == 0 {
      ChooseSound(t, mode, -1, b, 0);
    } else if s.cc.phase == 1 {
      ChooseSound(t, mode, s.cc.left, b, 0);
    } else if s.cc.phase == 2 {
      ChosenSound(t, mode, s.cc.step, s.cc.left, s.member, b, 0);
    } else {
      FinishSound(t, mode, s.cc.left, s.present, s.member, b, 0);
    }
  }

  lemma StaysAtChoiceTags(t: Type, c: Ctx)
    requires t.Choice? && c.phase == 0
    ensures Partial(t, SCho(c, 0, Absent))
  {}

  // ----- the theorem

  /** On any octets, from any state a call that wanted more can have left: decoded means complete, and
      wanting more leaves such a state again. */
  lemma {:induction false} DecodeSound(t: Type, mode: int, st: St, b: Bytes)
    requires ValidType(t) && Partial(t, st)
    ensures Sound(t, Decode(t, mode, st, b))
    decreases t, |b| + 3
  {
    hide ValidType, Partial, Sound, DecodeInteger, DecodeBoolean, DecodeString, DecodeSequence, DecodeChoice;
    match t
    case Integer(_) => IntegerSound(t, mode, st, b);
    case Boolean(_) => BooleanSound(t, mode, st, b);
    case String(_, _) => StringSound(t, mode, st, b);
    case Sequence(_, _, _, _, _) => SequenceSound(t, mode, st, b);
    case Choice(_, _, _, _) => ChoiceSound(t, mode, st, b);
  }

  /** So whatever octets arrive in whatever pieces, a structure that is called decoded is complete. */
  lemma {:induction false} FeedSound(t: Type, mode: int, st: St, kept: Bytes, pieces: seq<Bytes>)
    requires ValidType(t) && Partial(t, st)
    ensures Feed(t, mode, st, kept, pieces).code == OK ==> Complete(t, Feed(t, mode, st, kept, pieces).st)
    decreases |pieces|
  {
    hide *;
    if pieces == [] {
      FeedNothing(t, mode, st, kept, pieces);
    } else {
      FeedUnfold(t, mode, st, kept, pieces);
      var b := kept + pieces[0];
      DecodeSound(t, mode, st, b);
      var d := Decode(t, mode, st, b);
      SoundParts(t, d);
      if d.code == WMORE {
        FeedSound(t, mode, d.st, b[d.consumed..], pieces[1..]);
      }
    }
  }

  /** In particular a mandatory member of a SEQUENCE without a group of extensions is there. */
  lemma MandatoryThere(t: Type, mode: int, b: Bytes, i: nat)
    requires t.Sequence? && ValidType(t) && i < |t.members| && t.members[i].optional == 0 && !InExtension(t, i)
    ensures var d := Decode(t, mode, Absent, b);
            d.code == OK ==> d.st.SSeq? && i < |d.st.fields| && Complete(t.members[i].ty, d.st.fields[i]) && d.st.fields[i] != Absent
  {
    hide Decode, ValidType;
    FreshPartial(t);
    DecodeSound(t, mode, Absent, b);
  }

  // ----- the value of a complete structure

  /** A type without groups of extensions and without extensible CHOICEs, all the way down. */
  predicate Closed(t: Type)
    decreases t
  {
    match t
    case Sequence(_, ms, _, _, _) => forall i :: 0 <= i < |ms| ==> !InExtension(t, i) && Closed(ms[i].ty)
    case Choice(_, ms, _, ext) => ext == -1 && forall i :: 0 <= i < |ms| ==> Closed(ms[i].ty)
    case _ => true
  }

  /** The structure holds the value, a BOOLEAN being equal up to truth. */
  predicate Carries(t: Type, v: Value, st: St)
    requires HasType(t, v)
    decreases v
  {
    match t
    case Integer(_) => st == SInt(v.n)
    case Boolean(_) => st.SBool? && (st.truth != 0 <==> v.truth != 0)
    case String(_, _) => st.SStr? && st.os.phase == 4 && st.os.buf == v.octets
    case Sequence(_, ms, _, _, _) =>
      && st.SSeq? && st.sc.phase == 10 && |st.fields| == |ms|
      && forall i :: 0 <= i < |ms| ==>
           if v.fields[i].None? then st.fields[i] == Absent else Carries(ms[i].ty, v.fields[i].v, st.fields[i])
    case Choice(_, ms, _, _) =>
      && st.SCho? && st.cc.phase == 4 && st.present == v.index + 1
      && Carries(ms[v.index].ty, v.chosen, st.member)
  }

  function ValueOf(t: Type, st: St): (v: Value)
    requires Closed(t) && Complete(t, st)
    decreases t
  {
    match t
    case Integer(_) => VInt(st.n)
    case Boolean(_) => VBool(st.truth)
    case String(_, _) => VStr(st.os.buf)
    case Sequence(_, ms, _, _, _) =>
      VSeq(seq(|ms|, i requires 0 <= i < |ms| => if st.fields[i] == Absent then None else Some(ValueOf(ms[i].ty, st.fields[i]))))
    case Choice(_, ms, _, _) => VCho(st.present - 1, ValueOf(ms[st.present - 1].ty, st.member))
  }

  lemma {:induction false} ValueCarried(t: Type, st: St)
    requires Closed(t) && Complete(t, st)
    ensures HasType(t, ValueOf(t, st)) && Carries(t, ValueOf(t, st), st)
    decreases t
  {
    match t
    case Integer(_) =>
    case Boolean(_) =>
    case String(_, _) =>
    case Sequence(_, ms, _, _, _) =>
      forall i | 0 <= i < |ms| && st.fields[i] != Absent
        ensures HasType(ms[i].ty, ValueOf(ms[i].ty, st.fields[i])) && Carries(ms[i].ty, ValueOf(ms[i].ty, st.fields[i]), st.fields[i])
      {
        ValueCarried(ms[i].ty, st.fields[i]);
      }
    case Choice(_, ms, _, _) => ValueCarried(ms[st.present - 1].ty, st.member);
  }

  /** On any octets: what a decoder of such a type calls decoded is a value of the type. */
  lemma DecodedIsTyped(t: Type, mode: int, b: Bytes)
    requires ValidType(t) && Closed(t)
    ensures var d := Decode(t, mode, Absent, b);
            d.code == OK ==> exists v :: HasType(t, v) && Carries(t, v, d.st)
  {
    hide *;
    FreshPartial(t);
    DecodeSound(t, mode, Absent, b);
    var d := Decode(t, mode, Absent, b);
    SoundParts(t, d);
    if d.code == OK {
      ValueCarried(t, d.st);
      var v := ValueOf(t, d.st);
      assert HasType(t, v) && Carries(t, v, d.st);
    }
  }
}
