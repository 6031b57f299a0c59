/** Chains of tags around a value: `der_write_tags` of src/rspro/der_encoder.c and
    `ber_check_tags` of src/rspro/ber_decoder.c. */
module TagChain {
  import opened Tlv

  /** What a decoder call comes to; STUCK stands for a call that never returns. */
  datatype Code = OK | WMORE | FAIL | STUCK

  const NONE: int := -1

  // ----- writing

  /** `der_write_TL` */
  function TL(tag: Tag, len: nat, constructed: bool): (b: Bytes)
    ensures |b| >= 2
  {
    Identifier(tag, constructed) + SerializeLength(len)
  }

  /** The tags to write: `mode` is 0 (untagged), -1 (IMPLICIT `tag`) or 1 (EXPLICIT `tag`). */
  function TagsToWrite(tags: seq<Tag>, mode: int, tag: Tag): (ts: seq<Tag>) {
    if mode == 0 then tags
    else if mode == -1 && tags != [] then [tag] + tags[1..]
    else [tag] + tags
  }

  /** The TLs around `len` octets of contents; all but the last are constructed. */
  function WriteChain(ts: seq<Tag>, len: nat, form: bool): (b: Bytes)
    ensures ts != [] ==> |b| >= 2
  {
    if ts == [] then []
    else
      var inner := WriteChain(ts[1..], len, form);
      TL(ts[0], |inner| + len, form || |ts| > 1) + inner
  }

  // ----- checking

  /** What `ber_check_tags` returns, with the `step` it leaves in the context. */
  datatype Check = Check(code: Code, consumed: nat, step: nat, length: int, form: bool)

  function Stop(code: Code, hasCtx: bool, consumed: nat, step: nat): (r: Check) {
    Check(code, if hasCtx then consumed else 0, step, 0, false)
  }

  function Cut(b: Bytes, limit: nat): (r: Bytes)
    ensures r <= b && |r| <= limit && (|b| <= limit ==> r == b)
  {
    if |b| > limit then b[..limit] else b
  }

  /** What the loop makes of one TL. */
  datatype Verdict = Want | Refuse | Accept(used: nat, len: int, form: bool)

  /** One TL against tag number `tagno`: the tag (not checked where an outer tag replaces it), the
      form, and that lengths nest: a chain is all definite or all indefinite, and each definite
      length fills `limit`, the contents of the TL around it. `eocs` counts indefinite lengths. */
  function CheckTL(tags: seq<Tag>, mode: int, lastForm: int, b: Bytes, tagno: int, step: nat,
                   limit: int, eocs: nat): (v: Verdict)
    requires -1 <= tagno < |tags| && (tagno == -1 ==> mode != 0 && step == 0)
    ensures v.Accept? ==> 2 <= v.used <= |b| && (v.len == INDEFINITE || v.len >= 0)
  {
    match FetchTag(b)
    case Bad => Refuse
    case More => Want
    case Got(tl, tag) =>
      var constr := Constructed(b[0]);
      if !(mode != 0 && step == 0) && tag != tags[tagno] then Refuse
      else if tagno < |tags| - 1 && !constr then Refuse
      else if tagno == |tags| - 1 && lastForm != -1 && (lastForm == 1) != constr then Refuse
      else
        match FetchLength(constr, b[tl..])
        case Bad => Refuse
        case More => Want
        case Got(ll, len) =>
          if len == INDEFINITE then (if limit != NONE then Refuse else Accept(tl + ll, len, constr))
          else if eocs > 0 || (limit != NONE && limit != len + tl + ll) then Refuse
          else Accept(tl + ll, len, constr)
  }

  /** The loop: `limit` is `limit_len`, `b` is the rest of the buffer as far as `size` reaches;
      `length` and `form` are those of the last TL. */
  function CheckLoop(tags: seq<Tag>, mode: int, lastForm: int, hasCtx: bool, b: Bytes, tagno: int,
                     step: nat, consumed: nat, limit: int, eocs: nat, length: int, form: bool): (r: Check)
    requires tagno >= -1 && (tagno == -1 ==> mode != 0 && step == 0)
    ensures r.consumed <= consumed + |b|
    ensures r.code == OK ==> r.consumed >= consumed
    decreases |tags| - tagno
  {
    if tagno >= |tags| then
      Check(OK, consumed, step, if eocs > 0 then 0 - eocs else length, form)
    else
      match CheckTL(tags, mode, lastForm, b, tagno, step, limit, eocs)
      case Refuse => Stop(FAIL, hasCtx, consumed, step)
      case Want => Stop(WMORE, hasCtx, consumed, step)
      case Accept(used, len, constr) =>
        if len == INDEFINITE then
          CheckLoop(tags, mode, lastForm, hasCtx, b[used..], tagno + 1, step + 1, consumed + used,
                    limit, eocs + 1, len, constr)
        else
          CheckLoop(tags, mode, lastForm, hasCtx, Cut(b[used..], len), tagno + 1, step + 1, consumed + used,
                    len, eocs, len, constr)
  }

  /** The untagged ANY: one TL whose tag is not known in advance. */
  function CheckAny(hasCtx: bool, b: Bytes, step: nat): (r: Check)
    ensures r.consumed <= |b|
  {
    match FetchTag(b)
    case Bad => Stop(FAIL, hasCtx, 0, step)
    case More => Stop(WMORE, hasCtx, 0, step)
    case Got(tl, _) =>
      match FetchLength(Constructed(b[0]), b[tl..])
      case Bad => Stop(FAIL, hasCtx, 0, step)
      case More => Stop(WMORE, hasCtx, 0, step)
      case Got(ll, len) => Check(OK, tl + ll, step, len, Constructed(b[0]))
  }

  /** `ber_check_tags`, resumed at `step`. Where the source asserts (no tag left to check), the
      model fails. */
  function CheckTags(tags: seq<Tag>, hasCtx: bool, step: nat, b: Bytes, mode: int, lastForm: int): (r: Check)
    ensures r.consumed <= |b|
  {
    var tagno := if mode == 1 then step - 1 else step;
    if mode == 0 && tagno == |tags| then CheckAny(hasCtx, b, step)
    else if tagno >= |tags| then Stop(FAIL, hasCtx, 0, step)
    else CheckLoop(tags, mode, lastForm, hasCtx, b, tagno, step, 0, NONE, 0, 0, false)
  }

  // ----- the checker accepts what the writer wrote

  /** How far the chain `ts[k..]` is covered by `b`: the first TL not completely there. */
  function Reached(ts: seq<Tag>, k: nat, len: nat, form: bool, b: Bytes): (j: nat)
    requires k <= |ts|
    ensures k <= j <= |ts|
    decreases |ts| - k
  {
    if k == |ts| then k
    else
      var tl := TL(ts[k], |WriteChain(ts[k + 1..], len, form)| + len, form || |ts| > k + 1);
      if tl <= b then Reached(ts, k + 1, len, form, b[|tl|..]) else k
  }

  predicate Comparable(a: Bytes, b: Bytes) {
    a <= b || b <= a
  }

  lemma ChainUnfold(ts: seq<Tag>, k: nat, len: nat, form: bool)
    requires k < |ts|
    ensures var inner := WriteChain(ts[k + 1..], len, form);
            WriteChain(ts[k..], len, form) == TL(ts[k], |inner| + len, form || |ts| > k + 1) + inner
  {
    hide TL;
    assert ts[k..][1..] == ts[k + 1..];
  }

  /** A TL is read back, whatever follows; a proper prefix of it asks for more. */
  lemma FetchTL(tag: Tag, len: nat, constructed: bool, b: Bytes)
    requires len <= MAX_LENGTH
    requires TL(tag, len, constructed) <= b
    ensures var t := Identifier(tag, constructed);
            && FetchTag(b) == Got(|t|, tag)
            && Constructed(b[0]) == constructed
            && FetchLength(constructed, b[|t|..]) == Got(|SerializeLength(len)|, len)
  {
    hide FetchTag, FetchLength, SerializeLength;
    var t, l := Identifier(tag, constructed), SerializeLength(len);
    var x := b[|t| + |l|..];
    assert b == t + (l + x);
    assert b[|t|..] == l + x;
    FetchTagRoundTrip(tag, constructed, l + x);
    FetchLengthRoundTrip(constructed, len, x);
  }

  lemma FetchTLPrefix(tag: Tag, len: nat, constructed: bool, b: Bytes)
    requires len <= MAX_LENGTH
    requires b < TL(tag, len, constructed)
    ensures FetchTag(b) == More ||
            (&& FetchTag(b) == Got(|Identifier(tag, constructed)|, tag)
             && Constructed(b[0]) == constructed
             && FetchLength(constructed, b[|Identifier(tag, constructed)|..]) == More)
  {
    hide FetchTag, FetchLength, SerializeLength, Identifier;
    var t, l := Identifier(tag, constructed), SerializeLength(len);
    PrefixParts(t, l, b);
    if |b| < |t| {
      TagPrefixWantsMore(tag, constructed, b);
    } else {
      FetchTagRoundTrip(tag, constructed, b[|t|..]);
      LengthPrefixWantsMore(constructed, len, b[|t|..]);
    }
  }

  lemma PrefixParts(t: Bytes, l: Bytes, b: Bytes)
    requires b < t + l && t != []
    ensures |b| < |t| ==> b == t[..|b|]
    ensures |b| >= |t| ==> b == t + b[|t|..] && b[0] == t[0] && b[|t|..] == l[..|b| - |t|] && |b| - |t| < |l|
  {}

  lemma CheckAdvance(tags: seq<Tag>, mode: int, lastForm: int, hasCtx: bool, b: Bytes, tagno: int, step: nat,
                     consumed: nat, limit: int, length: int, form: bool, v: Verdict)
    requires -1 <= tagno < |tags| && (tagno == -1 ==> mode != 0 && step == 0)
    requires CheckTL(tags, mode, lastForm, b, tagno, step, limit, 0) == v
    requires v.Want? || (v.Accept? && v.len >= 0)
    ensures CheckLoop(tags, mode, lastForm, hasCtx, b, tagno, step, consumed, limit, 0, length, form)
         == if v.Want? then Stop(WMORE, hasCtx, consumed, step)
            else CheckLoop(tags, mode, lastForm, hasCtx, Cut(b[v.used..], v.len), tagno + 1, step + 1,
                           consumed + v.used, v.len, 0, v.len, v.form)
  {
    hide CheckTL, Cut;
  }

  /** One TL of a written chain: accepted when it is all there, waited for when it is not. */
  lemma CheckWrittenTL(tags: seq<Tag>, mode: int, lastForm: int, b: Bytes, tagno: int, step: nat, limit: int,
                       tag: Tag, len: nat, constr: bool)
    requires -1 <= tagno < |tags| && (tagno == -1 ==> mode != 0 && step == 0)
    requires len <= MAX_LENGTH
    requires (mode != 0 && step == 0) || tag == tags[tagno]
    requires if tagno < |tags| - 1 then constr else lastForm == -1 || (lastForm == 1) == constr
    requires limit == NONE || limit == len + |TL(tag, len, constr)|
    requires TL(tag, len, constr) <= b || b < TL(tag, len, constr)
    ensures CheckTL(tags, mode, lastForm, b, tagno, step, limit, 0)
         == if TL(tag, len, constr) <= b then Accept(|TL(tag, len, constr)|, len, constr) else Want
  {
    hide FetchTag, FetchLength, Constructed, Identifier, SerializeLength, TL;
    TLParts(tag, len, constr);
    if TL(tag, len, constr) <= b {
      FetchTL(tag, len, constr, b);
    } else {
      FetchTLPrefix(tag, len, constr, b);
    }
  }

  lemma WrittenTag(tags: seq<Tag>, mode: int, tag: Tag, k: nat)
    requires mode in {-1, 0, 1} && (mode == -1 ==> tags != [])
    requires k < |TagsToWrite(tags, mode, tag)|
    ensures |TagsToWrite(tags, mode, tag)| == if mode == 1 then |tags| + 1 else |tags|
    ensures mode == 0 || k > 0 ==> TagsToWrite(tags, mode, tag)[k] == tags[if mode == 1 then k - 1 else k]
  {}

  /** `Comparable` buffers restricted to what follows a common prefix. */
  lemma AfterPrefix(t: Bytes, inner: Bytes, b: Bytes, len: nat)
    requires Comparable(t + inner, b) && t <= b && |inner| <= len
    ensures var rest := b[|t|..];
            var cut := Cut(rest, len);
            && Comparable(inner, cut)
            && (t + inner <= b <==> inner <= cut)
            && (!(t + inner <= b) ==> cut == rest)
  {}

  /** Checking `b`, resumed at TL number `k`: exactly the rest of the chain is accepted, or the
      checker stops before the first incomplete TL, remembers it and asks for more. */
  predicate Checked(r: Check, ts: seq<Tag>, k: nat, len: nat, form: bool, hasCtx: bool, b: Bytes, consumed: nat)
    requires k <= |ts|
  {
    var suf := WriteChain(ts[k..], len, form);
    if suf <= b then r == Check(OK, consumed + |suf|, |ts|, len, form)
    else
      var j := Reached(ts, k, len, form, b);
      var left := WriteChain(ts[j..], len, form);
      && j < |ts|
      && |left| <= |suf|
      && suf[|suf| - |left|..] == left
      && r == Stop(WMORE, hasCtx, consumed + |suf| - |left|, j)
  }

  lemma CheckedCompose(r: Check, ts: seq<Tag>, k: nat, len: nat, form: bool, hasCtx: bool, b: Bytes, consumed: nat)
    requires k < |ts|
    requires Comparable(WriteChain(ts[k..], len, form), b)
    requires var n := |WriteChain(ts[k + 1..], len, form)| + len;
             var t := TL(ts[k], n, form || |ts| > k + 1);
             t <= b && Checked(r, ts, k + 1, len, form, hasCtx, Cut(b[|t|..], n), consumed + |t|)
    ensures Checked(r, ts, k, len, form, hasCtx, b, consumed)
  {
    hide TL, WriteChain, Cut, Comparable;
    ChainUnfold(ts, k, len, form);
    var inner := WriteChain(ts[k + 1..], len, form);
    var n := |inner| + len;
    var t := TL(ts[k], n, form || |ts| > k + 1);
    AfterPrefix(t, inner, b, n);
    SuffixOfSum(t, inner, |WriteChain(ts[Reached(ts, k, len, form, b)..], len, form)|);
  }

  lemma SuffixOfSum(t: Bytes, inner: Bytes, n: nat)
    ensures n <= |inner| ==> (t + inner)[|t + inner| - n..] == inner[|inner| - n..]
  {}

  lemma CheckedStuck(ts: seq<Tag>, k: nat, len: nat, form: bool, hasCtx: bool, b: Bytes, consumed: nat)
    requires k < |ts|
    requires !(TL(ts[k], |WriteChain(ts[k + 1..], len, form)| + len, form || |ts| > k + 1) <= b)
    ensures Checked(Stop(WMORE, hasCtx, consumed, k), ts, k, len, form, hasCtx, b, consumed)
  {
    hide TL, WriteChain;
    ChainUnfold(ts, k, len, form);
    var inner := WriteChain(ts[k + 1..], len, form);
    PrefixOfSum(TL(ts[k], |inner| + len, form || |ts| > k + 1), inner, b);
  }

  lemma PrefixOfSum(t: Bytes, inner: Bytes, b: Bytes)
    ensures t + inner <= b ==> t <= b
    ensures Comparable(t + inner, b) ==> t <= b || b < t
  {}

  lemma CheckedEnd(ts: seq<Tag>, len: nat, form: bool, hasCtx: bool, b: Bytes, consumed: nat)
    ensures Checked(Check(OK, consumed, |ts|, len, form), ts, |ts|, len, form, hasCtx, b, consumed)
  {}

  /** TL number `k` of a written chain: the loop goes on behind it, or waits for it. */
  lemma CheckNext(tags: seq<Tag>, mode: int, tag: Tag, lastForm: int, form: bool, hasCtx: bool, b: Bytes, k: nat,
                  consumed: nat, limit: int, length: int, form0: bool, n: nat)
    requires mode in {-1, 0, 1} && (mode == -1 ==> tags != [])
    requires lastForm == -1 || (lastForm == 1) == form
    requires k < |TagsToWrite(tags, mode, tag)| && n <= MAX_LENGTH
    requires var ts := TagsToWrite(tags, mode, tag);
             var t := TL(ts[k], n, form || |ts| > k + 1);
             (limit == NONE || limit == n + |t|) && (t <= b || b < t)
    ensures var ts, tagno := TagsToWrite(tags, mode, tag), if mode == 1 then k - 1 else k;
            var constr := form || |ts| > k + 1;
            var t := TL(ts[k], n, constr);
            CheckLoop(tags, mode, lastForm, hasCtx, b, tagno, k, consumed, limit, 0, length, form0) ==
              if t <= b then
                CheckLoop(tags, mode, lastForm, hasCtx, Cut(b[|t|..], n), tagno + 1, k + 1, consumed + |t|, n, 0, n, constr)
              else Stop(WMORE, hasCtx, consumed, k)
  {
    hide TL, TagsToWrite, CheckLoop, CheckTL, Cut;
    var ts, tagno := TagsToWrite(tags, mode, tag), if mode == 1 then k - 1 else k;
    var constr := form || |ts| > k + 1;
    ChainCount(tags, mode, tag);
    WrittenTag(tags, mode, tag, k);
    CheckWrittenTL(tags, mode, lastForm, b, tagno, k, limit, ts[k], n, constr);
    var v := CheckTL(tags, mode, lastForm, b, tagno, k, limit, 0);
    CheckAdvance(tags, mode, lastForm, hasCtx, b, tagno, k, consumed, limit, length, form0, v);
  }

  lemma {:induction false} CheckResume(tags: seq<Tag>, mode: int, tag: Tag, lastForm: int, form: bool, len: nat,
                                       hasCtx: bool, b: Bytes, k: nat, consumed: nat, limit: int,
                                       length: int, form0: bool)
    requires mode in {-1, 0, 1} && (mode == -1 ==> tags != [])
    requires lastForm == -1 || (lastForm == 1) == form
    requires k <= |TagsToWrite(tags, mode, tag)|
    requires k == |TagsToWrite(tags, mode, tag)| ==> k > 0 && length == len && form0 == form
    requires |WriteChain(TagsToWrite(tags, mode, tag)[k..], len, form)| + len <= MAX_LENGTH
    requires limit == NONE || limit == |WriteChain(TagsToWrite(tags, mode, tag)[k..], len, form)| + len
    requires Comparable(WriteChain(TagsToWrite(tags, mode, tag)[k..], len, form), b)
    ensures Checked(CheckLoop(tags, mode, lastForm, hasCtx, b, if mode == 1 then k - 1 else k, k, consumed,
                              limit, 0, length, form0),
                    TagsToWrite(tags, mode, tag), k, len, form, hasCtx, b, consumed)
    decreases |TagsToWrite(tags, mode, tag)| - k
  {
    hide TL, TagsToWrite, FetchTag, FetchLength, WriteChain, Constructed, Identifier, SerializeLength, Checked, CheckLoop, CheckTL, Cut, Comparable;
    var ts := TagsToWrite(tags, mode, tag);
    var tagno := if mode == 1 then k - 1 else k;
    ChainCount(tags, mode, tag);
    if k == |ts| {
      CheckedEnd(ts, len, form, hasCtx, b, consumed);
      CheckDone(tags, mode, lastForm, hasCtx, b, tagno, k, consumed, limit, length, form0);
    } else {
      ChainUnfold(ts, k, len, form);
      var inner := WriteChain(ts[k + 1..], len, form);
      var constr := form || |ts| > k + 1;
      var n := |inner| + len;
      var t := TL(ts[k], n, constr);
      PrefixOfSum(t, inner, b);
      CheckNext(tags, mode, tag, lastForm, form, hasCtx, b, k, consumed, limit, length, form0, n);
      if t <= b {
        AfterPrefix(t, inner, b, n);
        ChainEmpty(ts, len, form);
        CheckResume(tags, mode, tag, lastForm, form, len, hasCtx, Cut(b[|t|..], n), k + 1, consumed + |t|, n, n, constr);
        CheckedCompose(CheckLoop(tags, mode, lastForm, hasCtx, b, tagno, k, consumed, limit, 0, length, form0),
                       ts, k, len, form, hasCtx, b, consumed);
      } else {
        CheckedStuck(ts, k, len, form, hasCtx, b, consumed);
      }
    }
  }

  lemma CheckDone(tags: seq<Tag>, mode: int, lastForm: int, hasCtx: bool, b: Bytes, tagno: int, step: nat,
                  consumed: nat, limit: int, length: int, form: bool)
    requires tagno == |tags|
    ensures CheckLoop(tags, mode, lastForm, hasCtx, b, tagno, step, consumed, limit, 0, length, form)
         == Check(OK, consumed, step, length, form)
  {}

  lemma TLParts(tag: Tag, len: nat, constructed: bool)
    ensures |TL(tag, len, constructed)| == |Identifier(tag, constructed)| + |SerializeLength(len)|
  {}

  lemma ChainEmpty(ts: seq<Tag>, len: nat, form: bool)
    ensures WriteChain(ts[|ts|..], len, form) == []
  {}

  lemma ChainCount(tags: seq<Tag>, mode: int, tag: Tag)
    requires mode in {-1, 0, 1} && (mode == -1 ==> tags != [])
    ensures |TagsToWrite(tags, mode, tag)| == if mode == 1 then |tags| + 1 else |tags|
  {}

  /** `ber_check_tags` resumed at any TL of a chain that `der_write_tags` wrote. */
  lemma CheckTagsResume(tags: seq<Tag>, mode: int, tag: Tag, lastForm: int, form: bool, len: nat, hasCtx: bool,
                        k: nat, b: Bytes)
    requires mode in {-1, 0, 1} && (mode == -1 ==> tags != [])
    requires lastForm == -1 || (lastForm == 1) == form
    requires k < |TagsToWrite(tags, mode, tag)|
    requires |WriteChain(TagsToWrite(tags, mode, tag)[k..], len, form)| + len <= MAX_LENGTH
    requires Comparable(WriteChain(TagsToWrite(tags, mode, tag)[k..], len, form), b)
    ensures Checked(CheckTags(tags, hasCtx, k, b, mode, lastForm), TagsToWrite(tags, mode, tag), k, len, form,
                    hasCtx, b, 0)
  {
    hide WriteChain, Checked, CheckLoop, Comparable;
    ChainCount(tags, mode, tag);
    CheckResume(tags, mode, tag, lastForm, form, len, hasCtx, b, k, 0, NONE, 0, false);
  }

  /** In one call: the chain is consumed exactly and the contents length comes back. */
  lemma ChainRoundTrip(tags: seq<Tag>, mode: int, tag: Tag, lastForm: int, form: bool, len: nat, hasCtx: bool, x: Bytes)
    requires mode in {-1, 0, 1} && (mode == -1 ==> tags != [])
    requires lastForm == -1 || (lastForm == 1) == form
    requires TagsToWrite(tags, mode, tag) != []
    requires |WriteChain(TagsToWrite(tags, mode, tag), len, form)| + len <= MAX_LENGTH
    ensures CheckTags(tags, hasCtx, 0, WriteChain(TagsToWrite(tags, mode, tag), len, form) + x, mode, lastForm)
         == Check(OK, |WriteChain(TagsToWrite(tags, mode, tag), len, form)|, |TagsToWrite(tags, mode, tag)|, len, form)
  {
    hide WriteChain, CheckTags;
    var ts := TagsToWrite(tags, mode, tag);
    var chain := WriteChain(ts, len, form);
    assert ts[0..] == ts;
    assert chain <= chain + x;
    CheckTagsResume(tags, mode, tag, lastForm, form, len, hasCtx, 0, chain + x);
  }

  /** What is left of a chain from its TL number `k` on. */
  function ChainFrom(tags: seq<Tag>, mode: int, tag: Tag, k: nat, len: nat, form: bool): (b: Bytes)
    requires k <= |TagsToWrite(tags, mode, tag)|
  {
    WriteChain(TagsToWrite(tags, mode, tag)[k..], len, form)
  }

  /** A chain followed by its contents, `b` being any prefix or extension of the two: the chain is
      accepted when it is all there, otherwise the checker remembers the TL it waits for. */
  predicate ChainChecked(r: Check, tags: seq<Tag>, mode: int, tag: Tag, form: bool, body: Bytes, hasCtx: bool,
                         k: nat, b: Bytes)
    requires k <= |TagsToWrite(tags, mode, tag)|
  {
    var ts := TagsToWrite(tags, mode, tag);
    var chain := ChainFrom(tags, mode, tag, k, |body|, form);
    if chain <= b then
      && r == Check(OK, |chain|, |ts|, |body|, form)
      && Comparable(body, b[|chain|..])
      && (chain + body <= b <==> body <= b[|chain|..])
    else
      && r.code == WMORE && r.step < |ts| && r.consumed <= |b| && r.consumed <= |chain|
      && !(chain + body <= b)
      && (if hasCtx then (chain + body)[r.consumed..] == ChainFrom(tags, mode, tag, r.step, |body|, form) + body
          else r.consumed == 0)
  }

  lemma TwoParts(chain: Bytes, body: Bytes, b: Bytes)
    requires Comparable(chain + body, b)
    ensures Comparable(chain, b)
    ensures chain <= b ==>
              && Comparable(body, b[|chain|..])
              && (chain + body <= b <==> body <= b[|chain|..])
    ensures !(chain <= b) ==> !(chain + body <= b) && |b| < |chain|
  {}

  lemma DropSuffix(chain: Bytes, left: Bytes, body: Bytes)
    requires |left| <= |chain| && chain[|chain| - |left|..] == left
    ensures (chain + body)[|chain| - |left|..] == left + body
  {}

  lemma ChainThenBody(tags: seq<Tag>, mode: int, tag: Tag, lastForm: int, form: bool, body: Bytes, hasCtx: bool,
                      k: nat, b: Bytes)
    requires mode in {-1, 0, 1} && (mode == -1 ==> tags != [])
    requires lastForm == -1 || (lastForm == 1) == form
    requires k < |TagsToWrite(tags, mode, tag)|
    requires |ChainFrom(tags, mode, tag, k, |body|, form)| + |body| <= MAX_LENGTH
    requires Comparable(ChainFrom(tags, mode, tag, k, |body|, form) + body, b)
    ensures ChainChecked(CheckTags(tags, hasCtx, k, b, mode, lastForm), tags, mode, tag, form, body, hasCtx, k, b)
  {
    hide WriteChain, CheckTags, Comparable, TagsToWrite, Reached;
    var ts := TagsToWrite(tags, mode, tag);
    var chain := ChainFrom(tags, mode, tag, k, |body|, form);
    TwoParts(chain, body, b);
    CheckTagsResume(tags, mode, tag, lastForm, form, |body|, hasCtx, k, b);
    if !(chain <= b) {
      var j := Reached(ts, k, |body|, form, b);
      DropSuffix(chain, WriteChain(ts[j..], |body|, form), body);
    }
  }

  // ----- the loops of the source

  /** The body of the loop for one TL. */
  method BerCheckTL(tags: seq<Tag>, mode: int, lastForm: int, b: Bytes, tagno: int, step: nat, limit: int, eocs: nat)
      returns (v: Verdict)
    requires -1 <= tagno < |tags| && (tagno == -1 ==> mode != 0 && step == 0)
    ensures v == CheckTL(tags, mode, lastForm, b, tagno, step, limit, eocs)
  {
    hide FetchTag, FetchLength, Constructed;
    var t := BerFetchTag(b);
    if t.Bad? { return Refuse; }
    if t.More? { return Want; }
    var constr := Constructed(b[0]);
    if !(mode != 0 && step == 0) && t.value != tags[tagno] { return Refuse; }
    if tagno < |tags| - 1 {
      if !constr { return Refuse; }
    } else if lastForm != -1 && (lastForm == 1) != constr {
      return Refuse;
    }
    var l := BerFetchLength(constr, b[t.used..]);
    if l.Bad? { return Refuse; }
    if l.More? { return Want; }
    if l.value == INDEFINITE {
      if limit != NONE { return Refuse; }
    } else if eocs > 0 || (limit != NONE && limit != l.value + t.used + l.used) {
      return Refuse;
    }
    return Accept(t.used + l.used, l.value, constr);
  }

  /** The untagged ANY branch. */
  method BerCheckAny(hasCtx: bool, b: Bytes, step: nat) returns (r: Check)
    ensures r == CheckAny(hasCtx, b, step)
  {
    hide FetchTag, FetchLength, Constructed;
    var t := BerFetchTag(b);
    if t.Bad? { return Stop(FAIL, hasCtx, 0, step); }
    if t.More? { return Stop(WMORE, hasCtx, 0, step); }
    var l := BerFetchLength(Constructed(b[0]), b[t.used..]);
    if l.Bad? { return Stop(FAIL, hasCtx, 0, step); }
    if l.More? { return Stop(WMORE, hasCtx, 0, step); }
    return Check(OK, t.used + l.used, step, l.value, Constructed(b[0]));
  }

  /** `ber_check_tags` */
  method BerCheckTags(tags: seq<Tag>, hasCtx: bool, step0: nat, b: Bytes, mode: int, lastForm: int) returns (r: Check)
    requires mode in {-1, 0, 1}
    ensures r == CheckTags(tags, hasCtx, step0, b, mode, lastForm)
  {
    hide CheckTL, CheckAny, Cut, CheckLoop;
    var step: nat, consumed: nat, eocs: nat := step0, 0, 0;
    var limit, length, form := NONE, 0, false;
    var tagno: int := step0;
    if mode == 1 {
      tagno := tagno - 1;
    }
    var p := b;
    if mode == 0 && tagno == |tags| {
      r := BerCheckAny(hasCtx, b, step);
      return;
    }
    if tagno >= |tags| {
      return Stop(FAIL, hasCtx, consumed, step);
    }
    while tagno < |tags|
      invariant -1 <= tagno <= |tags| && (tagno == -1 ==> mode != 0 && step == 0)
      invariant CheckTags(tags, hasCtx, step0, b, mode, lastForm)
             == CheckLoop(tags, mode, lastForm, hasCtx, p, tagno, step, consumed, limit, eocs, length, form)
    {
      LoopUnfold(tags, mode, lastForm, hasCtx, p, tagno, step, consumed, limit, eocs, length, form);
      var v := BerCheckTL(tags, mode, lastForm, p, tagno, step, limit, eocs);
      if v.Refuse? { return Stop(FAIL, hasCtx, consumed, step); }
      if v.Want? { return Stop(WMORE, hasCtx, consumed, step); }
      length, form := v.len, v.form;
      if length == INDEFINITE {
        eocs := eocs + 1;
        p := p[v.used..];
      } else {
        limit := length;
        p := Cut(p[v.used..], limit);
      }
      consumed, tagno, step := consumed + v.used, tagno + 1, step + 1;
    }
    LoopUnfold(tags, mode, lastForm, hasCtx, p, tagno, step, consumed, limit, eocs, length, form);
    return Check(OK, consumed, step, if eocs > 0 then 0 - eocs else length, form);
  }

  lemma LoopUnfold(tags: seq<Tag>, mode: int, lastForm: int, hasCtx: bool, b: Bytes, tagno: int,
                   step: nat, consumed: nat, limit: int, eocs: nat, length: int, form: bool)
    requires -1 <= tagno <= |tags| && (tagno == -1 ==> mode != 0 && step == 0)
    ensures var r := CheckLoop(tags, mode, lastForm, hasCtx, b, tagno, step, consumed, limit, eocs, length, form);
            if tagno == |tags| then r == Check(OK, consumed, step, if eocs > 0 then 0 - eocs else length, form)
            else
              match CheckTL(tags, mode, lastForm, b, tagno, step, limit, eocs)
              case Refuse => r == Stop(FAIL, hasCtx, consumed, step)
              case Want => r == Stop(WMORE, hasCtx, consumed, step)
              case Accept(n, len, constr) =>
                && n <= |b| && (len == INDEFINITE || len >= 0)
                && r == if len == INDEFINITE then
                     CheckLoop(tags, mode, lastForm, hasCtx, b[n..], tagno + 1, step + 1, consumed + n, limit, eocs + 1, len, constr)
                   else
                     CheckLoop(tags, mode, lastForm, hasCtx, Cut(b[n..], len), tagno + 1, step + 1, consumed + n, len, eocs, len, constr)
  {
    hide CheckTL, Cut;
  }
}
