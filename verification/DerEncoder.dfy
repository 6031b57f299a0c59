/** The two-pass DER encoder: `der_write_TL` and `der_write_tags` of src/rspro/der_encoder.c, the
    encoders of the types, and `der_encode_to_buffer`. A pass without a sink only estimates. */
module DerEncoder {
  import opened Tlv
  import opened TagChain
  import opened Integers
  import opened Descriptors
  import OctetString

  /** `enc_to_buf_arg` with `encode_to_buffer_cb`: a chunk is taken whole or refused. */
  class Sink {
    const buffer: array<Byte>
    var left: nat

    ghost predicate Valid()
      reads this
    {
      left <= buffer.Length
    }

    ghost function Written(): (b: Bytes)
      requires Valid()
      reads this, buffer
    {
      buffer[..buffer.Length - left]
    }

    constructor (buffer: array<Byte>)
      ensures Valid() && this.buffer == buffer && left == buffer.Length && Written() == []
    {
      this.buffer := buffer;
      left := buffer.Length;
    }

    method Put(chunk: Bytes) returns (ok: bool)
      requires Valid()
      modifies this, buffer
      ensures Valid() && ok == (|chunk| <= old(left))
      ensures ok ==> left == old(left) - |chunk| && Written() == old(Written()) + chunk
      ensures !ok ==> left == old(left) && Written() == old(Written())
    {
      if left < |chunk| {
        return false;
      }
      var at := buffer.Length - left;
      ghost var before := buffer[..at];
      var i := 0;
      while i < |chunk|
        invariant 0 <= i <= |chunk| && left == old(left)
        invariant buffer[..at] == before
        invariant forall k :: 0 <= k < i ==> buffer[at + k] == chunk[k]
      {
        buffer[at + i] := chunk[i];
        i := i + 1;
      }
      left := left - |chunk|;
      assert buffer[..at + |chunk|] == before + chunk;
      return true;
    }
  }

  /** What emitting `enc` does to a sink with `room` octets left: all of it, or failure, and
      failure exactly when it does not fit. */
  predicate Emits(before: Bytes, room: nat, after: Bytes, left: nat, enc: Bytes, n: int) {
    if |enc| <= room then n == |enc| && after == before + enc && left == room - |enc| else n == -1
  }

  lemma EmitsThen(b0: Bytes, r0: nat, b1: Bytes, r1: nat, b2: Bytes, r2: nat, x: Bytes, y: Bytes, n: int, k: int)
    requires Emits(b0, r0, b1, r1, x, n) && n >= 0
    requires Emits(b1, r1, b2, r2, y, k)
    ensures Emits(b0, r0, b2, r2, x + y, if k == -1 then -1 else n + k)
    ensures n == |x| && (k == -1 || k == |y|)
  {}

  lemma EmitsFails(b0: Bytes, r0: nat, b1: Bytes, r1: nat, x: Bytes, y: Bytes, b2: Bytes, r2: nat)
    requires Emits(b0, r0, b1, r1, x, -1)
    ensures Emits(b0, r0, b2, r2, x + y, -1)
  {}

  // ----- tags

  lemma TLFits(tag: Tag, len: nat)
    ensures |SerializeTag(tag)| <= 6 && |SerializeLength(len)| <= 9
  {
    var v := TagNumber(tag) / 128;
    GroupsCount(v, 4);
    Shift7Next(v, 0); Shift7Next(v, 1); Shift7Next(v, 2); Shift7Next(v, 3);
    if len < LEN_LIMIT {
      EightDigits(len);
    }
  }

  lemma TLOctets(tag: Tag, len: nat, constructed: bool, buf: Bytes, k: nat, n: nat)
    requires 1 <= k == |SerializeTag(tag)| <= n <= |buf| && n == k + |SerializeLength(len)|
    requires buf[1..k] == SerializeTag(tag)[1..] && buf[k..n] == SerializeLength(len)
    requires buf[0] == if constructed then SetConstructed(SerializeTag(tag)[0]) else SerializeTag(tag)[0]
    ensures buf[..n] == TL(tag, len, constructed)
  {}

  /** `der_write_TL` */
  method WriteTL(tag: Tag, len: nat, sink: Sink?, constructed: bool) returns (n: int)
    requires sink != null ==> sink.Valid()
    modifies if sink == null then {} else {sink, sink.buffer}
    ensures sink == null ==> n == |TL(tag, len, constructed)|
    ensures sink != null ==> sink.Valid()
    ensures sink != null ==>
              Emits(old(sink.Written()), old(sink.left), sink.Written(), sink.left, TL(tag, len, constructed), n)
  {
    hide SerializeTag, SerializeLength, SetConstructed, Constructed, TL;
    TLFits(tag, len);
    TLParts(tag, len, constructed);
    var buf := new Byte[32];
    var size := if sink != null then 32 else 0;
    var k := BerTlvTagSerialize(tag, buf, 0, size);
    ghost var tagged := buf[..];
    var l := DerTlvLengthSerialize(len, buf, k, if size == 0 then 0 else size - k);
    n := k + l;
    if sink != null {
      if constructed {
        buf[0] := SetConstructed(buf[0]);
      }
      assert buf[k..n] == SerializeLength(len);
      assert tagged[..k] == SerializeTag(tag);
      assert buf[1..k] == tagged[1..k] == SerializeTag(tag)[1..];
      TLOctets(tag, len, constructed, buf[..], k, n);
      assert buf[..n] == buf[..][..n];
      var ok := sink.Put(buf[..n]);
      if !ok {
        n := -1;
      }
    }
  }

  lemma TLSize(tag: Tag, len: nat, c: bool, d: bool)
    ensures |TL(tag, len, c)| == |TL(tag, len, d)|
  {}

  /** The sizes of the TLs from right to left: each length is that of everything inside. */
  method TagLengths(ts: seq<Tag>, len: nat, form: bool) returns (sizes: seq<nat>, overall: nat)
    ensures |sizes| == |ts|
    ensures overall == len + |WriteChain(ts, len, form)|
    ensures forall j :: 0 <= j < |ts| ==> sizes[j] == len + |WriteChain(ts[j + 1..], len, form)|
  {
    hide TL, WriteChain;
    var lens := new nat[|ts|];
    overall := len;
    var i := |ts|;
    ChainEmpty(ts, len, form);
    while i > 0
      invariant 0 <= i <= |ts|
      invariant overall == len + |WriteChain(ts[i..], len, form)|
      invariant forall j :: i <= j < |ts| ==> lens[j] == len + |WriteChain(ts[j + 1..], len, form)|
    {
      i := i - 1;
      ChainUnfold(ts, i, len, form);
      TLSize(ts[i], overall, false, form || |ts| > i + 1);
      var l := WriteTL(ts[i], overall, null, false);
      overall := overall + l;
      lens[i] := overall - l;
    }
    assert ts[0..] == ts;
    sizes := lens[..];
  }

  /** The emitting loop of `der_write_tags`. */
  method EmitChain(ts: seq<Tag>, lens: seq<nat>, len: nat, form: bool, size: nat, sink: Sink) returns (n: int)
    requires sink.Valid() && |lens| == |ts| && size == |WriteChain(ts, len, form)|
    requires forall i :: 0 <= i < |ts| ==> lens[i] == |WriteChain(ts[i + 1..], len, form)| + len
    modifies sink, sink.buffer
    ensures sink.Valid()
    ensures Emits(old(sink.Written()), old(sink.left), sink.Written(), sink.left, WriteChain(ts, len, form), n)
  {
    hide TL, WriteChain, Emits;
    ghost var room, before := sink.left, sink.Written();
    ghost var done: Bytes := [];
    EmitsNothing(before, room);
    assert ts[0..] == ts;
    var i := 0;
    while i < |ts|
      invariant 0 <= i <= |ts| && sink.Valid()
      invariant WriteChain(ts, len, form) == done + WriteChain(ts[i..], len, form)
      invariant Emits(before, room, sink.Written(), sink.left, done, |done|)
    {
      ghost var b1, r1 := sink.Written(), sink.left;
      ghost var tl := TL(ts[i], lens[i], form || |ts| > i + 1);
      ChainUnfold(ts, i, len, form);
      Reassociate(done, tl, WriteChain(ts[i + 1..], len, form));
      var k := WriteTL(ts[i], lens[i], sink, form || i < |ts| - 1);
      EmitsThen(before, room, b1, r1, sink.Written(), sink.left, done, tl, |done|, k);
      if k == -1 {
        EmitsFails(before, room, sink.Written(), sink.left, done + tl, WriteChain(ts[i + 1..], len, form),
                   sink.Written(), sink.left);
        return -1;
      }
      done := done + tl;
      i := i + 1;
    }
    ChainEmpty(ts, len, form);
    assert done == done + [];
    n := size;
  }

  /** `der_write_tags`: the estimate is the size of the chain; what is emitted is the chain. */
  method DerWriteTags(tags: seq<Tag>, len: nat, mode: int, form: bool, tag: Tag, sink: Sink?) returns (n: int)
    requires sink != null ==> sink.Valid()
    modifies if sink == null then {} else {sink, sink.buffer}
    ensures sink == null ==> n == |WriteChain(TagsToWrite(tags, mode, tag), len, form)|
    ensures sink != null ==> sink.Valid()
    ensures sink != null ==>
              Emits(old(sink.Written()), old(sink.left), sink.Written(), sink.left,
                    WriteChain(TagsToWrite(tags, mode, tag), len, form), n)
  {
    hide WriteChain, Emits;
    var ts := if mode == 0 then tags
              else if mode == -1 && tags != [] then [tag] + tags[1..]
              else [tag] + tags;
    var lens, overall := TagLengths(ts, len, form);
    n := overall - len;
    if sink != null {
      n := EmitChain(ts, lens, len, form, n, sink);
    }
  }

  lemma EmitsNothing(before: Bytes, room: nat)
    ensures Emits(before, room, before, room, [], 0)
  {}

  lemma Reassociate(a: Bytes, b: Bytes, c: Bytes)
    ensures a + (b + c) == a + b + c
  {}

  // ----- values

  /** What the C types guarantee of a structure: members of the right kind, integers of 64 bits.
      A mandatory member may still be missing and a CHOICE may still have no alternative. */
  predicate Shaped(t: Type, v: Value)
    decreases v
  {
    match t
    case Integer(_) => v.VInt? && FitsLong(v.n)
    case Boolean(_) => v.VBool?
    case String(_, _) => v.VStr?
    case Sequence(_, ms, _, _, _) =>
      && v.VSeq? && |v.fields| == |ms|
      && forall i :: 0 <= i < |ms| && v.fields[i].Some? ==> Shaped(ms[i].ty, v.fields[i].v)
    case Choice(_, ms, _, _) => v.VCho? && (v.index < |ms| ==> Shaped(ms[v.index].ty, v.chosen))
  }

  predicate FieldTyped(m: Member, f: Field) {
    if f.None? then m.optional > 0 else HasType(m.ty, f.v)
  }

  lemma FieldsGiveType(t: Type, v: Value, k: nat)
    requires t.Sequence? && v.VSeq? && |v.fields| == |t.members| && k <= |t.members|
    ensures HasType(t, v) <==> forall i :: 0 <= i < |t.members| ==> FieldTyped(t.members[i], v.fields[i])
  {}

  lemma ShapedField(t: Type, v: Value, i: nat)
    requires t.Sequence? && Shaped(t, v) && i < |t.members|
    ensures v.VSeq? && |v.fields| == |t.members|
    ensures v.fields[i].Some? ==> Shaped(t.members[i].ty, v.fields[i].v)
  {}

  lemma BodyStep(t: Type, v: Value, k: nat)
    requires t.Sequence? && HasType(t, v) && k < |t.members|
    ensures v.VSeq? && |v.fields| == |t.members| && FieldTyped(t.members[k], v.fields[k])
    ensures Body(t, v, k) ==
            (if v.fields[k].None? then [] else EncodeMember(t.members[k], v.fields[k].v)) + Body(t, v, k + 1)
  {}

  lemma BodyDone(t: Type, v: Value)
    requires t.Sequence? && HasType(t, v)
    ensures Body(t, v, |t.members|) == []
  {}

  /** The first loop of `SEQUENCE_encode_der`: the sum of the members' estimates. */
  method EstimateMembers(t: Type, v: Value) returns (n: int)
    requires t.Sequence? && Shaped(t, v)
    ensures n == if HasType(t, v) then |Body(t, v, 0)| else -1
    decreases v, 0
  {
    hide HasType, Shaped, Body, FieldTyped, EncodeMember, Encode;
    n := 0;
    var edx := 0;
    SequenceShape(t, v);
    FieldsGiveType(t, v, 0);
    while edx < |t.members|
      invariant 0 <= edx <= |t.members|
      invariant n >= 0
      invariant HasType(t, v) ==> n + |Body(t, v, edx)| == |Body(t, v, 0)|
      invariant forall i :: 0 <= i < edx ==> FieldTyped(t.members[i], v.fields[i])
    {
      ShapedField(t, v, edx);
      var m, f := t.members[edx], v.fields[edx];
      if HasType(t, v) {
        BodyStep(t, v, edx);
      }
      FieldCases(m, f);
      if f.None? {
        if m.optional == 0 {
          return -1;
        }
      } else {
        MemberEncoding(m, f.v);
        var k := EncodeDer(m.ty, m.mode, m.tag, f.v, null);
        if k == -1 {
          return -1;
        }
        n := n + k;
      }
      edx := edx + 1;
    }
    if HasType(t, v) {
      BodyDone(t, v);
    }
  }

  lemma SequenceShape(t: Type, v: Value)
    requires t.Sequence? && Shaped(t, v)
    ensures v.VSeq? && |v.fields| == |t.members|
  {}

  lemma FieldCases(m: Member, f: Field)
    ensures f.None? ==> (FieldTyped(m, f) <==> m.optional > 0)
    ensures f.Some? ==> (FieldTyped(m, f) <==> HasType(m.ty, f.v))
  {}

  lemma MemberEncoding(m: Member, v: Value)
    ensures HasType(m.ty, v) ==> EncodeMember(m, v) == Encode(m.ty, m.mode, m.tag, v)
  {}

  /** The second loop of `SEQUENCE_encode_der`. The leftover of the estimate is always zero. */
  method EmitMembers(t: Type, v: Value, sink: Sink, computed: nat) returns (n: int)
    requires t.Sequence? && Shaped(t, v) && HasType(t, v) && sink.Valid() && computed == |Body(t, v, 0)|
    modifies sink, sink.buffer
    ensures sink.Valid()
    ensures Emits(old(sink.Written()), old(sink.left), sink.Written(), sink.left, Body(t, v, 0), n)
    decreases v, 0
  {
    hide HasType, Shaped, Body, FieldTyped, EncodeMember, Emits, Encode;
    ghost var room, before := sink.left, sink.Written();
    ghost var done: Bytes := [];
    EmitsNothing(before, room);
    SequenceShape(t, v);
    var edx, leftover: int := 0, computed;
    assert Body(t, v, 0) == [] + Body(t, v, 0);
    while edx < |t.members|
      invariant 0 <= edx <= |t.members| && sink.Valid()
      invariant Body(t, v, 0) == done + Body(t, v, edx) && leftover == |Body(t, v, edx)|
      invariant Emits(before, room, sink.Written(), sink.left, done, |done|)
    {
      BodyStep(t, v, edx);
      ShapedField(t, v, edx);
      var m, f := t.members[edx], v.fields[edx];
      FieldCases(m, f);
      if f.Some? {
        MemberEncoding(m, f.v);
        ghost var b1, r1, enc, rest := sink.Written(), sink.left, EncodeMember(m, f.v), Body(t, v, edx + 1);
        Reassociate(done, enc, rest);
        var k := EncodeDer(m.ty, m.mode, m.tag, f.v, sink);
        EmitsThen(before, room, b1, r1, sink.Written(), sink.left, done, enc, |done|, k);
        if k == -1 {
          EmitsFails(before, room, sink.Written(), sink.left, done + enc, rest, sink.Written(), sink.left);
          return -1;
        }
        leftover := leftover - k;
        done := done + enc;
      }
      edx := edx + 1;
    }
    BodyDone(t, v);
    assert done == done + [];
    if leftover != 0 {
      return -1;
    }
    return computed;
  }

  /** `SEQUENCE_encode_der` */
  method SequenceEncodeDer(t: Type, mode: int, tag: Tag, v: Value, sink: Sink?) returns (n: int)
    requires t.Sequence? && Shaped(t, v)
    requires sink != null ==> sink.Valid()
    modifies if sink == null then {} else {sink, sink.buffer}
    ensures sink != null ==> sink.Valid()
    ensures !HasType(t, v) ==> n == -1
    ensures HasType(t, v) && sink == null ==> n == |Encode(t, mode, tag, v)|
    ensures HasType(t, v) && sink != null ==>
              Emits(old(sink.Written()), old(sink.left), sink.Written(), sink.left, Encode(t, mode, tag, v), n)
    decreases v, 1
  {
    hide HasType, Shaped, Body, Emits, Encode, WriteChain, TagsToWrite;
    var computed := EstimateMembers(t, v);
    if computed == -1 {
      return -1;
    }
    SequenceParts(t, mode, tag, v);
    ghost var room, before := if sink == null then 0 else sink.left, if sink == null then [] else sink.Written();
    n := DerWriteTags(t.tags, computed, mode, true, tag, sink);
    ghost var chain, body := WriteChain(TagsToWrite(t.tags, mode, tag), computed, true), Body(t, v, 0);
    if sink == null {
      return n + computed;
    }
    ghost var b1, r1 := sink.Written(), sink.left;
    if n == -1 {
      EmitsFails(before, room, b1, r1, chain, body, b1, r1);
      return -1;
    }
    EmitsSize(before, room, b1, r1, chain, n);
    var k := EmitMembers(t, v, sink, computed);
    EmitsThen(before, room, b1, r1, sink.Written(), sink.left, chain, body, n, k);
    n := if k == -1 then -1 else n + k;
  }

  lemma EmitsSize(b0: Bytes, r0: nat, b1: Bytes, r1: nat, x: Bytes, n: int)
    requires Emits(b0, r0, b1, r1, x, n) && n != -1
    ensures n == |x|
  {}

  lemma SequenceParts(t: Type, mode: int, tag: Tag, v: Value)
    requires t.Sequence? && HasType(t, v)
    ensures Encode(t, mode, tag, v) == WriteChain(TagsToWrite(t.tags, mode, tag), |Body(t, v, 0)|, true) + Body(t, v, 0)
  {}

  /** `CHOICE_encode_der`; a CHOICE without an alternative cannot be encoded. */
  method ChoiceEncodeDer(t: Type, mode: int, tag: Tag, v: Value, sink: Sink?) returns (n: int)
    requires t.Choice? && Shaped(t, v)
    requires sink != null ==> sink.Valid()
    modifies if sink == null then {} else {sink, sink.buffer}
    ensures sink != null ==> sink.Valid()
    ensures !HasType(t, v) ==> n == -1
    ensures HasType(t, v) && sink == null ==> n == |Encode(t, mode, tag, v)|
    ensures HasType(t, v) && sink != null ==>
              Emits(old(sink.Written()), old(sink.left), sink.Written(), sink.left, Encode(t, mode, tag, v), n)
    decreases v, 1
  {
    hide HasType, Shaped, Emits, Encode, WriteChain, TagsToWrite;
    ChoiceShape(t, v);
    if v.index >= |t.members| {
      return -1;
    }
    var m := t.members[v.index];
    ChoiceParts(t, mode, tag, v);
    ghost var room, before := if sink == null then 0 else sink.left, if sink == null then [] else sink.Written();
    ghost var chain: Bytes := [];
    n := 0;
    EmitsNothing(before, room);
    if mode == 1 || t.tags != [] {
      var size := EncodeDer(m.ty, m.mode, m.tag, v.chosen, null);
      if size == -1 {
        return -1;
      }
      n := DerWriteTags(t.tags, size, mode, true, tag, sink);
      chain := WriteChain(TagsToWrite(t.tags, mode, tag), size, true);
      if n == -1 {
        EmitsFails(before, room, sink.Written(), sink.left, chain, Encode(m.ty, m.mode, m.tag, v.chosen),
                   sink.Written(), sink.left);
        return -1;
      }
    }
    ghost var b1, r1 := if sink == null then [] else sink.Written(), if sink == null then 0 else sink.left;
    if sink != null {
      EmitsSize(before, room, b1, r1, chain, n);
    }
    var k := EncodeDer(m.ty, m.mode, m.tag, v.chosen, sink);
    if HasType(t, v) && sink != null {
      EmitsThen(before, room, b1, r1, sink.Written(), sink.left, chain, Encode(m.ty, m.mode, m.tag, v.chosen), n, k);
    }
    n := if k == -1 then -1 else n + k;
  }

  lemma ChoiceShape(t: Type, v: Value)
    requires t.Choice? && Shaped(t, v)
    ensures v.VCho? && (v.index < |t.members| ==> Shaped(t.members[v.index].ty, v.chosen))
    ensures HasType(t, v) <==> v.index < |t.members| && HasType(t.members[v.index].ty, v.chosen)
  {}

  lemma ChoiceParts(t: Type, mode: int, tag: Tag, v: Value)
    requires t.Choice? && v.VCho? && v.index < |t.members|
    ensures HasType(t, v) ==>
              var m := t.members[v.index];
              && HasType(m.ty, v.chosen)
              && var c := Encode(m.ty, m.mode, m.tag, v.chosen);
                 Encode(t, mode, tag, v) ==
                 (if mode == 1 || t.tags != [] then WriteChain(TagsToWrite(t.tags, mode, tag), |c|, true) else []) + c
  {
    hide WriteChain, TagsToWrite, Encode, EncodeMember;
    if HasType(t, v) {
      var m := t.members[v.index];
      EncodeParts(t, mode, tag, v);
      ChosenContents(t, v);
      MemberEncoding(m, v.chosen);
      EmptyChain(|Contents(t, v)|);
    }
  }

  /** The encoders of primitive types: the tags, then the contents in one chunk. */
  method PrimitiveEncodeDer(t: Type, mode: int, tag: Tag, c: Bytes, sink: Sink?) returns (n: int)
    requires sink != null ==> sink.Valid()
    modifies if sink == null then {} else {sink, sink.buffer}
    ensures sink != null ==> sink.Valid()
    ensures sink == null ==> n == |WriteChain(TagsToWrite(t.tags, mode, tag), |c|, false) + c|
    ensures sink != null ==>
              Emits(old(sink.Written()), old(sink.left), sink.Written(), sink.left,
                    WriteChain(TagsToWrite(t.tags, mode, tag), |c|, false) + c, n)
  {
    hide WriteChain, TagsToWrite;
    n := DerWriteTags(t.tags, |c|, mode, false, tag, sink);
    if n == -1 {
      return -1;
    }
    if sink != null {
      ghost var chain := WriteChain(TagsToWrite(t.tags, mode, tag), |c|, false);
      ghost var b1, r1 := sink.Written(), sink.left;
      var ok := sink.Put(c);
      EmitsThen(old(sink.Written()), old(sink.left), b1, r1, sink.Written(), sink.left, chain, c, n,
                if ok then |c| else -1);
      if !ok {
        return -1;
      }
    }
    n := n + |c|;
  }

  lemma PrimitiveParts(t: Type, mode: int, tag: Tag, v: Value)
    requires Shaped(t, v) && !t.Sequence? && !t.Choice?
    ensures HasType(t, v)
    ensures Encode(t, mode, tag, v) == WriteChain(TagsToWrite(t.tags, mode, tag), |Contents(t, v)|, false) + Contents(t, v)
  {}

  /** The `der_encoder` of a type. The estimate is the size of what is emitted, and emitting into a
      buffer succeeds exactly when the value is complete and the estimate fits. */
  method EncodeDer(t: Type, mode: int, tag: Tag, v: Value, sink: Sink?) returns (n: int)
    requires Shaped(t, v)
    requires sink != null ==> sink.Valid()
    modifies if sink == null then {} else {sink, sink.buffer}
    ensures sink != null ==> sink.Valid()
    ensures !HasType(t, v) ==> n == -1
    ensures HasType(t, v) && sink == null ==> n == |Encode(t, mode, tag, v)|
    ensures HasType(t, v) && sink != null ==>
              Emits(old(sink.Written()), old(sink.left), sink.Written(), sink.left, Encode(t, mode, tag, v), n)
    decreases v, 2
  {
    hide HasType, Shaped, Emits, Encode, WriteChain, TagsToWrite, FromLong, FitsLong, Integers.Value;
    match t
    case Sequence(_, _, _, _, _) => n := SequenceEncodeDer(t, mode, tag, v, sink);
    case Choice(_, _, _, _) => n := ChoiceEncodeDer(t, mode, tag, v, sink);
    case _ =>
      PrimitiveParts(t, mode, tag, v);
      var c := PrimitiveContents(t, v);
      n := PrimitiveEncodeDer(t, mode, tag, c, sink);
  }

  method PrimitiveContents(t: Type, v: Value) returns (c: Bytes)
    requires Shaped(t, v) && HasType(t, v) && !t.Sequence? && !t.Choice?
    ensures c == Contents(t, v)
  {
    hide FromLong, Redundant;
    match t
    case Integer(_) => c := NativeContents(v.n);
    case Boolean(_) => c := [if v.truth != 0 then 0xff else 0];
    case String(_, _) => c := v.octets;
  }

  /** `der_encode_to_buffer` */
  method EncodeToBuffer(t: Type, v: Value, buffer: array<Byte>) returns (n: int)
    requires Shaped(t, v)
    modifies buffer
    ensures n != -1 <==> HasType(t, v) && |Encode(t, 0, 0, v)| <= buffer.Length
    ensures n != -1 ==> 0 <= n <= buffer.Length && buffer[..n] == Encode(t, 0, 0, v)
  {
    hide HasType, Shaped, Encode;
    var sink := new Sink(buffer);
    n := EncodeDer(t, 0, 0, v, sink);
    if HasType(t, v) {
      assert [] + Encode(t, 0, 0, v) == Encode(t, 0, 0, v);
    }
  }
}
