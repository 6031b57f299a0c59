/** The way of a PDU from one program to another: `rspro_enc_msg` and `rspro_dec_msg` of
    src/rspro_util.c with a stream in between that cuts the octets anywhere. */
module Wire {
  import opened Tlv
  import opened TagChain
  import opened Descriptors
  import opened BerDecoder
  import opened DecoderLoops
  import opened DerEncoder
  import opened Restart
  import opened Rspro
  import OctetString

  /** The receiver: one call of the decoder for each piece, until a call does not want more. */
  method Receive(t: Type, pieces: seq<Bytes>) returns (r: Fed)
    requires ValidTables(t)
    ensures r == Feed(t, 0, Absent, [], pieces)
  {
    hide ValidTables, Feed, Decode;
    var st: St, kept: Bytes, used: nat := Absent, [], 0;
    var i := 0;
    assert pieces[0..] == pieces;
    while i < |pieces|
      invariant 0 <= i <= |pieces|
      invariant var f := Feed(t, 0, st, kept, pieces[i..]);
                Feed(t, 0, Absent, [], pieces) == Fed(f.code, used + f.consumed, f.st)
    {
      FeedUnfold(t, 0, st, kept, pieces[i..]);
      assert pieces[i..][1..] == pieces[i + 1..];
      var b := kept + pieces[i];
      var d := DecodeBer(t, 0, st, b);
      if d.code != WMORE {
        return Fed(d.code, used + d.consumed, d.st);
      }
      st, kept, used, i := d.st, b[d.consumed..], used + d.consumed, i + 1;
    }
    FeedEnds(t, st, kept, pieces[i..]);
    return Fed(WMORE, used, st);
  }

  lemma FeedEnds(t: Type, st: St, kept: Bytes, pieces: seq<Bytes>)
    requires pieces == []
    ensures Feed(t, 0, st, kept, pieces) == Fed(WMORE, 0, st)
  {}

  /** The stream: pieces of the given sizes as far as the octets reach, and the rest. */
  method CutUp(b: Bytes, sizes: seq<nat>) returns (pieces: seq<Bytes>)
    ensures OctetString.Concat(pieces) == b
  {
    hide OctetString.Concat;
    pieces := [];
    var rest, i := b, 0;
    NoPieces();
    assert [] + b == b;
    while i < |sizes|
      invariant 0 <= i <= |sizes|
      invariant OctetString.Concat(pieces) + rest == b
    {
      var n := if sizes[i] < |rest| then sizes[i] else |rest|;
      ConcatLast(pieces, rest[..n]);
      assert rest == rest[..n] + rest[n..];
      assert OctetString.Concat(pieces) + rest == OctetString.Concat(pieces) + rest[..n] + rest[n..];
      pieces, rest, i := pieces + [rest[..n]], rest[n..], i + 1;
    }
    ConcatLast(pieces, rest);
    pieces := pieces + [rest];
  }

  lemma NoPieces()
    ensures OctetString.Concat([]) == []
  {}

  lemma {:induction false} ConcatLast(pieces: seq<Bytes>, x: Bytes)
    ensures OctetString.Concat(pieces + [x]) == OctetString.Concat(pieces) + x
    decreases |pieces|
  {
    if pieces == [] {
      assert [x][1..] == [];
      assert OctetString.Concat([x]) == x + [];
    } else {
      assert (pieces + [x])[1..] == pieces[1..] + [x];
      ConcatLast(pieces[1..], x);
    }
  }

  /** From end to end: a PDU is sent if and only if it is complete and its encoding fits the message
      buffer; however the stream cuts it up, the receiver then has the value and has consumed
      exactly the encoding. */
  method Exchange(v: Value, room: nat, sizes: seq<nat>) returns (sent: bool, r: Fed)
    requires Shaped(RsproPDU(), v) && room <= MAX_LENGTH
    ensures sent <==> HasType(RsproPDU(), v) && |Encode(RsproPDU(), 0, 0, v)| <= room
    ensures sent && Storable(v) ==>
              r.code == OK && r.consumed == |Encode(RsproPDU(), 0, 0, v)| && Holds(RsproPDU(), v, r.st)
  {
    hide *;
    var buffer := new Byte[room];
    var n := EncodeToBuffer(RsproPDU(), v, buffer);
    sent, r := n != -1, Fed(FAIL, 0, Absent);
    if sent {
      RsproValid();
      var pieces := CutUp(buffer[..n], sizes);
      r := Receive(RsproPDU(), pieces);
      SamePrefix(Encode(RsproPDU(), 0, 0, v));
      if Storable(v) {
        RsproAnyPieces(v, pieces);
      }
    }
  }

  lemma SamePrefix(a: Bytes)
    ensures a <= a && Comparable(a, a)
  {}
}
