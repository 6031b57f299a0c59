/** The RSPRO descriptors (src/rspro/RsproPDU.c and the types below it). Types whose tables are
    equal share one definition. The theorems of Restart apply to every RSPRO PDU. */
module Rspro {
  import opened Tlv
  import opened TagChain
  import opened Descriptors
  import opened BerDecoder
  import opened DecoderLoops
  import opened Restart
  import opened BerForms
  import opened Soundness
  import OctetString
  import SkipLength

  /** UNIVERSAL and context-specific tags. */
  function U(n: nat): (t: Tag)
    requires n < 0x1000_0000
  {
    4 * n
  }

  function C(n: nat): (t: Tag)
    requires n < 0x1000_0000
  {
    4 * n + 2
  }

  const SEQUENCE: seq<Tag> := [64]
  const INTEGER := Integer([8])
  const ENUMERATED := Integer([40])
  const BOOLEAN := Boolean([4])
  const OCTETS := String([16], [16])
  const IA5_STRING := String([88], [88, 16])

  function ComponentIdentity(): (t: Type) {
    Sequence(
      SEQUENCE,
      [Member(U(10), 0, 0, ENUMERATED),
       Member(U(22), 0, 0, IA5_STRING),
       Member(C(0), -1, 0, IA5_STRING),
       Member(C(1), -1, 0, IA5_STRING),
       Member(C(2), -1, 5, IA5_STRING),
       Member(C(3), -1, 4, IA5_STRING),
       Member(C(4), -1, 3, IA5_STRING),
       Member(C(5), -1, 2, IA5_STRING),
       Member(C(6), -1, 1, IA5_STRING)],
      IdentityTable(),
      8, 10)
  }

  function IdentityTable(): (rows: seq<Row>) {
    [Row(U(10), 0, 0, 0), Row(U(22), 1, 0, 0), Row(C(0), 2, 0, 0), Row(C(1), 3, 0, 0), Row(C(2), 4, 0, 0),
     Row(C(3), 5, 0, 0), Row(C(4), 6, 0, 0), Row(C(5), 7, 0, 0), Row(C(6), 8, 0, 0)]
  }

  /** ClientSlot and BankSlot: an id and a slot number. */
  function Slot(): (t: Type) {
    Sequence(
      SEQUENCE,
      [Member(U(2), 0, 0, INTEGER), Member(U(2), 0, 0, INTEGER)],
      [Row(U(2), 0, 0, 1), Row(U(2), 1, -1, 0)],
      1, 3)
  }

  function ConnectBankReq(): (t: Type) {
    Sequence(
      SEQUENCE,
      [Member(U(16), 0, 0, ComponentIdentity()), Member(U(2), 0, 0, INTEGER), Member(U(2), 0, 0, INTEGER)],
      [Row(U(2), 1, 0, 1), Row(U(2), 2, -1, 0), Row(U(16), 0, 0, 0)],
      2, 4)
  }

  /** ConnectBankRes and ConnectClientRes. */
  function ConnectRes(): (t: Type) {
    Sequence(
      SEQUENCE,
      [Member(U(16), 0, 0, ComponentIdentity()), Member(U(10), 0, 0, ENUMERATED)],
      [Row(U(10), 1, 0, 0), Row(U(16), 0, 0, 0)],
      1, 3)
  }

  function ConnectClientReq(): (t: Type) {
    Sequence(
      SEQUENCE,
      [Member(U(16), 0, 0, ComponentIdentity()), Member(U(16), 0, 1, Slot())],
      [Row(U(16), 0, 0, 1), Row(U(16), 1, -1, 0)],
      1, 3)
  }

  /** CreateMappingReq and RemoveMappingReq: client slot and bank slot. */
  function MappingReq(): (t: Type) {
    Sequence(
      SEQUENCE,
      [Member(U(16), 0, 0, Slot()), Member(U(16), 0, 0, Slot())],
      [Row(U(16), 0, 0, 1), Row(U(16), 1, -1, 0)],
      1, 3)
  }

  /** The answers that carry a result code only. */
  function ResultOnly(): (t: Type) {
    Sequence(SEQUENCE, [Member(U(10), 0, 0, ENUMERATED)], [Row(U(10), 0, 0, 0)], 0, 2)
  }

  function ConfigClientIdReq(): (t: Type) {
    Sequence(SEQUENCE, [Member(U(16), 0, 0, Slot())], [Row(U(16), 0, 0, 0)], 0, 2)
  }

  function IpAddress(): (t: Type) {
    Choice(
      [],
      [Member(C(0), -1, 0, OCTETS), Member(C(1), -1, 0, OCTETS)],
      [Row(C(0), 0, 0, 0), Row(C(1), 1, 0, 0)],
      -1)
  }

  function IpPort(): (t: Type) {
    Sequence(
      SEQUENCE,
      [Member(NO_TAG, 0, 0, IpAddress()), Member(U(2), 0, 0, INTEGER)],
      [Row(U(2), 1, 0, 0), Row(C(0), 0, 0, 0), Row(C(1), 0, 0, 0)],
      -1, -1)
  }

  function ConfigClientBankReq(): (t: Type) {
    Sequence(
      SEQUENCE,
      [Member(U(16), 0, 0, Slot()), Member(U(16), 0, 0, IpPort())],
      [Row(U(16), 0, 0, 1), Row(U(16), 1, -1, 0)],
      1, 3)
  }

  function ErrorInd(): (t: Type) {
    Sequence(
      SEQUENCE,
      [Member(U(10), 0, 0, ENUMERATED),
       Member(U(10), 0, 0, ENUMERATED),
       Member(U(10), 0, 0, ENUMERATED),
       Member(C(0), -1, 3, Slot()),
       Member(C(1), -1, 2, Slot()),
       Member(C(2), -1, 1, IA5_STRING)],
      [Row(U(10), 0, 0, 2), Row(U(10), 1, -1, 1), Row(U(10), 2, -2, 0),
       Row(C(0), 3, 0, 0), Row(C(1), 4, 0, 0), Row(C(2), 5, 0, 0)],
      5, 7)
  }

  function ResetStateReq(): (t: Type) {
    Sequence(SEQUENCE, [], [], -1, -1)
  }

  function SetAtrReq(): (t: Type) {
    Sequence(
      SEQUENCE,
      [Member(U(16), 0, 0, Slot()), Member(U(4), 0, 0, OCTETS)],
      [Row(U(4), 1, 0, 0), Row(U(16), 0, 0, 0)],
      1, 3)
  }

  function TpduFlags(): (t: Type) {
    Sequence(
      SEQUENCE,
      [Member(U(1), 0, 0, BOOLEAN), Member(U(1), 0, 0, BOOLEAN), Member(U(1), 0, 0, BOOLEAN), Member(U(1), 0, 0, BOOLEAN)],
      [Row(U(1), 0, 0, 3), Row(U(1), 1, -1, 2), Row(U(1), 2, -2, 1), Row(U(1), 3, -3, 0)],
      3, 5)
  }

  /** TpduModemToCard and TpduCardToModem. */
  function Tpdu(): (t: Type) {
    Sequence(
      SEQUENCE,
      [Member(U(16), 0, 0, Slot()), Member(U(16), 0, 0, Slot()), Member(U(16), 0, 0, TpduFlags()),
       Member(U(4), 0, 0, OCTETS)],
      [Row(U(4), 3, 0, 0), Row(U(16), 0, 0, 2), Row(U(16), 1, -1, 1), Row(U(16), 2, -2, 0)],
      3, 5)
  }

  function SlotPhysStatus(): (t: Type) {
    Sequence(
      SEQUENCE,
      [Member(C(0), -1, 0, BOOLEAN), Member(C(1), -1, 3, BOOLEAN), Member(C(2), -1, 2, BOOLEAN),
       Member(C(3), -1, 1, BOOLEAN)],
      [Row(C(0), 0, 0, 0), Row(C(1), 1, 0, 0), Row(C(2), 2, 0, 0), Row(C(3), 3, 0, 0)],
      3, 5)
  }

  /** ClientSlotStatusInd and BankSlotStatusInd. */
  function SlotStatusInd(): (t: Type) {
    Sequence(
      SEQUENCE,
      [Member(U(16), 0, 0, Slot()), Member(U(16), 0, 0, Slot()), Member(U(16), 0, 0, SlotPhysStatus())],
      [Row(U(16), 0, 0, 2), Row(U(16), 1, -1, 1), Row(U(16), 2, -2, 0)],
      2, 4)
  }

  /** The alternatives in the order of the descriptor, their tag numbers, and for each tag number
      the alternative that has it. */
  function Messages(): (ts: seq<Type>)
    ensures |ts| == 21
  {
    [ConnectBankReq(), ConnectRes(), ConnectClientReq(), ConnectRes(), MappingReq(), ResultOnly(), MappingReq(),
     ResultOnly(), ConfigClientIdReq(), ResultOnly(), ConfigClientBankReq(), ResultOnly(), ErrorInd(), ResetStateReq(),
     ResultOnly(), SetAtrReq(), ResultOnly(), Tpdu(), Tpdu(), SlotStatusInd(), SlotStatusInd()]
  }

  function Numbers(): (ns: seq<nat>)
    ensures |ns| == 21 && forall i :: 0 <= i < 21 ==> ns[i] < 21
  {
    [0, 1, 2, 3, 4, 5, 6, 7, 8, 9, 17, 18, 16, 19, 20, 10, 11, 12, 13, 14, 15]
  }

  function Elements(): (es: seq<nat>)
    ensures |es| == 21 && forall k :: 0 <= k < 21 ==> es[k] < 21
  {
    [0, 1, 2, 3, 4, 5, 6, 7, 8, 9, 15, 16, 17, 18, 19, 20, 12, 10, 11, 13, 14]
  }

  function RsproPDUchoice(): (t: Type)
    ensures t.Choice? && |t.members| == 21 && |t.rows| == 21 && t.tags == []
    ensures forall i :: 0 <= i < 21 ==> t.members[i] == Member(C(Numbers()[i]), -1, 0, Messages()[i])
    ensures forall k :: 0 <= k < 21 ==> t.rows[k] == Row(C(k), Elements()[k], 0, 0)
  {
    Choice([], seq(21, i requires 0 <= i < 21 => Member(C(Numbers()[i]), -1, 0, Messages()[i])),
           seq(21, k requires 0 <= k < 21 => Row(C(k), Elements()[k], 0, 0)), 21)
  }

  function RsproPDU(): (t: Type) {
    Sequence(
      SEQUENCE,
      [Member(C(0), -1, 0, INTEGER), Member(C(1), -1, 0, INTEGER), Member(C(2), 1, 0, RsproPDUchoice())],
      [Row(C(0), 0, 0, 0), Row(C(1), 1, 0, 0), Row(C(2), 2, 0, 0)],
      -1, -1)
  }

  // ----- the tables are in order

  /** A member with one first tag. */
  predicate Simple(m: Member) {
    && ValidMode(m.ty, m.mode) && m.tag != NO_TAG
    && (m.mode == 0 ==> m.ty.tags != [] && m.tag == m.ty.tags[0])
  }

  predicate Valid(t: Type) {
    ValidType(t) && ValidTables(t)
  }

  lemma SimpleTags(m: Member)
    requires Simple(m)
    ensures MemberTags(m) == [m.tag] && ValidMember(m)
  {}

  predicate SimpleMembers(ms: seq<Member>) {
    forall i :: 0 <= i < |ms| ==> Simple(ms[i]) && Valid(ms[i].ty)
  }

  predicate TagsDiffer(ms: seq<Member>) {
    forall e, i, j :: 0 <= e <= i < j < |ms| && j <= e + ms[e].optional ==> ms[i].tag != ms[j].tag
  }

  /** Row `pos[i]` is that of member `i`, and each row is that of its member. */
  predicate RowsOf(ms: seq<Member>, rows: seq<Row>, pos: seq<nat>) {
    && |pos| == |ms|
    && (forall i :: 0 <= i < |ms| ==> pos[i] < |rows| && rows[pos[i]].tag == ms[i].tag && rows[pos[i]].el == i)
    && (forall k :: 0 <= k < |rows| ==> rows[k].el < |ms| && rows[k].tag == ms[rows[k].el].tag)
  }

  lemma AllSimpleTags(ms: seq<Member>)
    requires SimpleMembers(ms)
    ensures forall i :: 0 <= i < |ms| ==> MemberTags(ms[i]) == [ms[i].tag] && ValidMember(ms[i])
  {
    forall i | 0 <= i < |ms| ensures MemberTags(ms[i]) == [ms[i].tag] && ValidMember(ms[i]) {
      hide MemberTags, ValidMember, ValidType, ValidTables;
      assert Simple(ms[i]);
      SimpleTags(ms[i]);
    }
  }

  lemma SimpleRows(ms: seq<Member>, rows: seq<Row>, pos: seq<nat>)
    requires SimpleMembers(ms) && RowsOf(ms, rows, pos)
    ensures RowsMatch(ms, rows)
  {}

  lemma SimpleRuns(ms: seq<Member>)
    requires SimpleMembers(ms) && TagsDiffer(ms)
    ensures RunsDistinct(ms)
  {
    hide MemberTags, ValidMember, ValidType, ValidTables;
    AllSimpleTags(ms);
  }

  lemma SimpleSequence(t: Type, pos: seq<nat>)
    requires t.Sequence? && t.tags != []
    requires SimpleMembers(t.members) && RunCounts(t.members) && TagsDiffer(t.members)
    requires RowsOf(t.members, t.rows, pos) && ValidRows(t.rows, |t.members|)
    ensures Valid(t)
  {
    hide MemberTags, ValidMember, RunsDistinct, RowsMatch, RunCounts, TagsDiffer, RowsOf, ValidRows, Simple;
    AllSimpleTags(t.members);
    SimpleRows(t.members, t.rows, pos);
    SimpleRuns(t.members);
    ModesOf(t.members);
  }

  lemma ModesOf(ms: seq<Member>)
    requires SimpleMembers(ms)
    ensures forall i :: 0 <= i < |ms| ==> ms[i].mode in {-1, 0, 1}
  {}

  lemma SimpleChoice(t: Type, pos: seq<nat>)
    requires t.Choice? && SimpleMembers(t.members)
    requires forall i, j :: 0 <= i < j < |t.members| ==> t.members[i].tag != t.members[j].tag
    requires RowsOf(t.members, t.rows, pos) && ValidRows(t.rows, |t.members|)
    ensures Valid(t)
  {
    hide MemberTags, ValidMember, RowsMatch, RowsOf, ValidRows, Simple;
    AllSimpleTags(t.members);
    SimpleRows(t.members, t.rows, pos);
    ModesOf(t.members);
  }

  lemma Leaves()
    ensures Valid(INTEGER) && Valid(ENUMERATED) && Valid(BOOLEAN) && Valid(OCTETS) && Valid(IA5_STRING)
  {}

  /** Neighbouring rows are in order and their offsets fit together. */
  predicate Adjacent(a: Row, b: Row) {
    if a.tag == b.tag then a.el <= b.el && a.last == b.last + 1 && b.first == a.first - 1
    else TagBefore(a.tag, b.tag) && a.last == 0 && b.first == 0
  }

  predicate AdjacentAt(rows: seq<Row>, k: nat)
    requires k < |rows| - 1
  {
    Adjacent(rows[k], rows[k + 1])
  }

  predicate Linked(rows: seq<Row>, count: nat) {
    && (rows != [] ==> rows[0].first == 0 && rows[|rows| - 1].last == 0)
    && (forall k :: 0 <= k < |rows| ==> rows[k].el < count)
    && (forall k :: 0 <= k < |rows| - 1 ==> AdjacentAt(rows, k))
  }

  lemma TagOrder(x: Tag, y: Tag, z: Tag)
    ensures TagBefore(x, y) ==> x != y
    ensures TagBefore(x, y) && TagBefore(y, z) ==> TagBefore(x, z)
  {}

  lemma {:induction false} Forward(rows: seq<Row>, count: nat, i: nat, j: nat)
    requires Linked(rows, count) && i < j < |rows|
    ensures RowBefore(rows[i], rows[j])
    ensures rows[j].tag == rows[i].tag <==> j <= i + rows[i].last
    decreases j - i
  {
    assert AdjacentAt(rows, i);
    TagOrder(rows[i].tag, rows[i + 1].tag, rows[j].tag);
    if i + 1 < j {
      Forward(rows, count, i + 1, j);
    } else if rows[i].tag == rows[j].tag {
      LastNonNegative(rows, count, j);
    }
  }

  lemma {:induction false} LastNonNegative(rows: seq<Row>, count: nat, i: nat)
    requires Linked(rows, count) && i < |rows|
    ensures 0 <= rows[i].last && i + rows[i].last < |rows|
    decreases |rows| - i
  {
    if i + 1 < |rows| {
      assert AdjacentAt(rows, i);
      LastNonNegative(rows, count, i + 1);
    }
  }

  lemma {:induction false} FirstNonPositive(rows: seq<Row>, count: nat, j: nat)
    requires Linked(rows, count) && j < |rows|
    ensures rows[j].first <= 0 <= j + rows[j].first
    decreases j
  {
    if j > 0 {
      assert AdjacentAt(rows, j - 1);
      FirstNonPositive(rows, count, j - 1);
    }
  }

  lemma {:induction false} Backward(rows: seq<Row>, count: nat, i: nat, j: nat)
    requires Linked(rows, count) && i < j < |rows|
    ensures rows[i].tag == rows[j].tag <==> j + rows[j].first <= i
    decreases j - i
  {
    assert AdjacentAt(rows, j - 1);
    if i + 1 < j {
      Backward(rows, count, i, j - 1);
      Forward(rows, count, i, j - 1);
      TagOrder(rows[i].tag, rows[j - 1].tag, rows[j].tag);
      TagOrder(rows[i].tag, rows[j].tag, rows[j].tag);
    } else {
      TagOrder(rows[i].tag, rows[j].tag, rows[j].tag);
      FirstNonPositive(rows, count, i);
    }
  }

  lemma LinkedRows(rows: seq<Row>, count: nat)
    requires Linked(rows, count)
    ensures ValidRows(rows, count)
  {
    hide RowBefore, Adjacent;
    forall i, j | 0 <= i < j < |rows|
      ensures RowBefore(rows[i], rows[j])
      ensures rows[j].tag == rows[i].tag <==> j <= i + rows[i].last
      ensures rows[j].tag == rows[i].tag <==> j + rows[j].first <= i
    {
      Forward(rows, count, i, j);
      Backward(rows, count, i, j);
    }
    forall i | 0 <= i < |rows| ensures rows[i].first <= 0 <= i + rows[i].first && 0 <= rows[i].last && i + rows[i].last < |rows| {
      LastNonNegative(rows, count, i);
      FirstNonPositive(rows, count, i);
    }
  }

  /** Where no two rows share a tag, no two members do. */
  lemma UniqueTags(ms: seq<Member>, rows: seq<Row>, pos: seq<nat>)
    requires RowsOf(ms, rows, pos) && Linked(rows, |ms|)
    requires forall k :: 0 <= k < |rows| ==> rows[k].last == 0
    ensures forall i, j :: 0 <= i < j < |ms| ==> ms[i].tag != ms[j].tag
    ensures TagsDiffer(ms)
  {
    forall i, j | 0 <= i < j < |ms| ensures ms[i].tag != ms[j].tag {
      var p, q := pos[i], pos[j];
      assert rows[p].el == i && rows[q].el == j;
      if p < q {
        Forward(rows, |ms|, p, q);
      } else {
        Forward(rows, |ms|, q, p);
      }
    }
  }

  lemma SlotValid()
    ensures Valid(Slot())
  {
    hide ValidType, ValidTables, ValidRows;
    Leaves();
    LinkedRows(Slot().rows, 2);
    SimpleSequence(Slot(), [0, 1]);
  }

  lemma IdentityRows()
    ensures Linked(IdentityTable(), 9)
  {
    var rows := IdentityTable();
    forall k | 0 <= k < |rows| - 1 ensures AdjacentAt(rows, k) {
      IdentityAdjacent(k);
    }
  }

  lemma IdentityAdjacent(k: nat)
    requires k < |IdentityTable()| - 1
    ensures AdjacentAt(IdentityTable(), k)
  {}

  lemma IdentityPositions()
    ensures RowsOf(ComponentIdentity().members, ComponentIdentity().rows, [0, 1, 2, 3, 4, 5, 6, 7, 8])
  {}

  lemma IdentityRuns()
    ensures RunCounts(ComponentIdentity().members)
  {}

  lemma IdentityMembers()
    ensures SimpleMembers(ComponentIdentity().members)
  {
    hide ValidType, ValidTables;
    Leaves();
  }

  lemma IdentityUnique()
    ensures forall k :: 0 <= k < |ComponentIdentity().rows| ==> ComponentIdentity().rows[k].last == 0
  {}

  lemma IdentityValid()
    ensures Valid(ComponentIdentity())
  {
    hide Valid, ValidRows, SimpleMembers, Linked, RowsOf, TagsDiffer, RunCounts;
    var t, pos := ComponentIdentity(), [0, 1, 2, 3, 4, 5, 6, 7, 8];
    IdentityRows();
    IdentityPositions();
    IdentityRuns();
    IdentityMembers();
    IdentityUnique();
    LinkedRows(t.rows, |t.members|);
    UniqueTags(t.members, t.rows, pos);
    SimpleSequence(t, pos);
  }

  /** The small types: their tables are compared entry by entry. */
  lemma SmallType(t: Type, pos: seq<nat>)
    requires t.Sequence? && t.tags != []
    requires SimpleMembers(t.members) && RunCounts(t.members) && TagsDiffer(t.members)
    requires RowsOf(t.members, t.rows, pos) && Linked(t.rows, |t.members|)
    ensures Valid(t)
  {
    hide Valid, ValidRows, SimpleMembers, Linked, RowsOf, TagsDiffer, RunCounts;
    LinkedRows(t.rows, |t.members|);
    SimpleSequence(t, pos);
  }

  lemma ConnectBankTable()
    ensures Linked(ConnectBankReq().rows, |ConnectBankReq().members|) && RowsOf(ConnectBankReq().members, ConnectBankReq().rows, [2, 0, 1])
  {
    hide ValidType, ValidTables, ComponentIdentity;
  }

  lemma ConnectBankRuns()
    ensures RunCounts(ConnectBankReq().members) && TagsDiffer(ConnectBankReq().members)
  {
    hide ValidType, ValidTables, ComponentIdentity;
  }

  lemma ConnectBankMembers()
    ensures SimpleMembers(ConnectBankReq().members)
  {
    hide ValidType, ValidTables, ComponentIdentity;
    Leaves();
    IdentityValid();
    IdentityTags();
  }

  lemma ConnectBankValid()
    ensures Valid(ConnectBankReq())
  {
    hide ValidType, ValidTables, SimpleMembers, Linked, RowsOf, TagsDiffer, RunCounts;
    ConnectBankTable();
    ConnectBankRuns();
    ConnectBankMembers();
    SmallType(ConnectBankReq(), [2, 0, 1]);
  }

  lemma ConnectResTable()
    ensures Linked(ConnectRes().rows, |ConnectRes().members|) && RowsOf(ConnectRes().members, ConnectRes().rows, [1, 0])
  {}

  lemma ConnectResRuns()
    ensures RunCounts(ConnectRes().members) && TagsDiffer(ConnectRes().members)
  {
    hide ValidType, ValidTables, ComponentIdentity;
  }

  lemma ConnectResMembers()
    ensures SimpleMembers(ConnectRes().members)
  {
    hide ValidType, ValidTables, ComponentIdentity;
    Leaves();
    IdentityValid();
    IdentityTags();
  }

  lemma ConnectResValid()
    ensures Valid(ConnectRes())
  {
    hide ValidType, ValidTables, SimpleMembers, Linked, RowsOf, TagsDiffer, RunCounts;
    ConnectResTable();
    ConnectResRuns();
    ConnectResMembers();
    SmallType(ConnectRes(), [1, 0]);
  }

  lemma IdentityTags()
    ensures ComponentIdentity().tags == SEQUENCE
  {}

  lemma PartTags()
    ensures Slot().tags == SEQUENCE && IpPort().tags == SEQUENCE
    ensures TpduFlags().tags == SEQUENCE && SlotPhysStatus().tags == SEQUENCE
  {}

  /** Two SEQUENCEs in a row, told apart by their order only. */
  lemma PairValid(a: Type, b: Type, optional: nat)
    requires Valid(a) && Valid(b) && a.tags == SEQUENCE && b.tags == SEQUENCE && optional <= 1
    ensures Valid(Sequence(SEQUENCE, [Member(U(16), 0, 0, a), Member(U(16), 0, optional, b)],
                           [Row(U(16), 0, 0, 1), Row(U(16), 1, -1, 0)], 1, 3))
  {
    hide Valid;
    var ms, rows := [Member(U(16), 0, 0, a), Member(U(16), 0, optional, b)], [Row(U(16), 0, 0, 1), Row(U(16), 1, -1, 0)];
    assert Linked(rows, 2) && RowsOf(ms, rows, [0, 1]);
    assert RunCounts(ms) && TagsDiffer(ms);
    assert SimpleMembers(ms);
    SmallType(Sequence(SEQUENCE, ms, rows, 1, 3), [0, 1]);
  }

  lemma TripleRows(ms: seq<Member>, rows: seq<Row>)
    requires |ms| == 3 && forall i :: 0 <= i < 3 ==> ms[i].tag == U(16)
    requires rows == [Row(U(16), 0, 0, 2), Row(U(16), 1, -1, 1), Row(U(16), 2, -2, 0)]
    ensures Linked(rows, 3) && RowsOf(ms, rows, [0, 1, 2])
  {}

  lemma TripleMembers(ms: seq<Member>, a: Type, b: Type, c: Type)
    requires Valid(a) && Valid(b) && Valid(c) && a.tags == SEQUENCE && b.tags == SEQUENCE && c.tags == SEQUENCE
    requires ms == [Member(U(16), 0, 0, a), Member(U(16), 0, 0, b), Member(U(16), 0, 0, c)]
    ensures RunCounts(ms) && TagsDiffer(ms) && SimpleMembers(ms)
  {
    hide Valid;
  }

  lemma TripleValid(a: Type, b: Type, c: Type)
    requires Valid(a) && Valid(b) && Valid(c) && a.tags == SEQUENCE && b.tags == SEQUENCE && c.tags == SEQUENCE
    ensures Valid(Sequence(SEQUENCE, [Member(U(16), 0, 0, a), Member(U(16), 0, 0, b), Member(U(16), 0, 0, c)],
                           [Row(U(16), 0, 0, 2), Row(U(16), 1, -1, 1), Row(U(16), 2, -2, 0)], 2, 4))
  {
    hide Valid, Linked, RowsOf, RunCounts, TagsDiffer, SimpleMembers;
    var ms := [Member(U(16), 0, 0, a), Member(U(16), 0, 0, b), Member(U(16), 0, 0, c)];
    var rows := [Row(U(16), 0, 0, 2), Row(U(16), 1, -1, 1), Row(U(16), 2, -2, 0)];
    TripleRows(ms, rows);
    TripleMembers(ms, a, b, c);
    SmallType(Sequence(SEQUENCE, ms, rows, 2, 4), [0, 1, 2]);
  }

  lemma ConnectClientValid()
    ensures Valid(ConnectClientReq())
  {
    hide Valid, ComponentIdentity, Slot;
    PartTags();
    IdentityValid();
    IdentityTags();
    SlotValid();
    PairValid(ComponentIdentity(), Slot(), 1);
  }

  lemma MappingValid()
    ensures Valid(MappingReq())
  {
    hide Valid, Slot;
    PartTags();
    SlotValid();
    PairValid(Slot(), Slot(), 0);
  }

  lemma OneResult()
    ensures Valid(ResultOnly())
  {
    hide ValidType, ValidTables, Valid;
    Leaves();
    SmallType(ResultOnly(), [0]);
  }

  lemma ResultValid()
    ensures Valid(ResultOnly()) && Valid(ResetStateReq())
  {
    hide ValidType, ValidTables, Valid;
    OneResult();
    SmallType(ResetStateReq(), []);
  }

  lemma ConfigIdValid()
    ensures Valid(ConfigClientIdReq())
  {
    hide ValidType, ValidTables, Valid, Slot;
    PartTags();
    SlotValid();
    SmallType(ConfigClientIdReq(), [0]);
  }

  lemma IpAddressValid()
    ensures Valid(IpAddress())
  {
    hide ValidType, ValidTables;
    Leaves();
    LinkedRows(IpAddress().rows, 2);
    SimpleChoice(IpAddress(), [0, 1]);
  }

  /** The untagged CHOICE in IpPort begins with either tag of its alternatives. */
  lemma IpPortTags()
    ensures MemberTags(IpPort().members[0]) == [C(0), C(1)]
    ensures MemberTags(IpPort().members[1]) == [U(2)]
  {}

  lemma IpPortRows()
    ensures RowsMatch(IpPort().members, IpPort().rows)
  {
    hide MemberTags;
    var t := IpPort();
    IpPortTags();
    assert t.rows[0] in t.rows && t.rows[1] in t.rows && t.rows[2] in t.rows;
  }

  lemma IpPortMembers()
    ensures var t := IpPort(); ValidMember(t.members[0]) && ValidMember(t.members[1])
  {}

  lemma IpPortType()
    ensures ValidType(IpPort())
  {
    hide MemberTags, ValidMember, RowsMatch, Disjoint, IpAddress, ValidTables;
    IpPortRows();
    IpPortMembers();
    IpAddressValid();
    Leaves();
  }

  lemma IpPortValid()
    ensures Valid(IpPort())
  {
    hide ValidType, ValidRows, IpAddress;
    IpPortType();
    IpAddressValid();
    Leaves();
    IpPortTable();
  }

  lemma IpPortTable()
    ensures ValidRows(IpPort().rows, 2)
  {
    hide ValidRows;
    LinkedRows(IpPort().rows, 2);
  }

  lemma ConfigBankValid()
    ensures Valid(ConfigClientBankReq())
  {
    hide Valid, Slot, IpPort;
    PartTags();
    SlotValid();
    IpPortValid();
    PairValid(Slot(), IpPort(), 0);
  }

  lemma ErrorRows()
    ensures Linked(ErrorInd().rows, 6) && RowsOf(ErrorInd().members, ErrorInd().rows, [0, 1, 2, 3, 4, 5])
  {}

  lemma ErrorRuns()
    ensures RunCounts(ErrorInd().members)
  {}

  lemma ErrorTags()
    ensures TagsDiffer(ErrorInd().members)
  {
    hide Slot;
  }

  lemma ErrorMembers()
    ensures SimpleMembers(ErrorInd().members)
  {
    hide ValidType, ValidTables, Valid, Slot;
    PartTags();
    Leaves();
    SlotValid();
  }

  lemma ErrorValid()
    ensures Valid(ErrorInd())
  {
    hide Valid, SimpleMembers, Linked, RowsOf, TagsDiffer, RunCounts;
    ErrorRows();
    ErrorRuns();
    ErrorTags();
    ErrorMembers();
    SmallType(ErrorInd(), [0, 1, 2, 3, 4, 5]);
  }

  lemma AtrTable()
    ensures Linked(SetAtrReq().rows, |SetAtrReq().members|) && RowsOf(SetAtrReq().members, SetAtrReq().rows, [1, 0])
  {}

  lemma AtrRuns()
    ensures RunCounts(SetAtrReq().members) && TagsDiffer(SetAtrReq().members)
  {}

  lemma AtrMembers()
    ensures SimpleMembers(SetAtrReq().members)
  {
    hide ValidType, ValidTables, Slot;
    PartTags();
    Leaves();
    SlotValid();
  }

  lemma AtrValid()
    ensures Valid(SetAtrReq())
  {
    hide ValidType, ValidTables, SimpleMembers, Linked, RowsOf, TagsDiffer, RunCounts;
    AtrTable();
    AtrRuns();
    AtrMembers();
    SmallType(SetAtrReq(), [1, 0]);
  }

  lemma FlagsTable()
    ensures Linked(TpduFlags().rows, |TpduFlags().members|) && RowsOf(TpduFlags().members, TpduFlags().rows, [0, 1, 2, 3])
  {
    hide ValidType, ValidTables;
  }

  lemma FlagsRuns()
    ensures RunCounts(TpduFlags().members) && TagsDiffer(TpduFlags().members)
  {
    hide ValidType, ValidTables;
  }

  lemma FlagsMembers()
    ensures SimpleMembers(TpduFlags().members)
  {}

  lemma FlagsValid()
    ensures Valid(TpduFlags())
  {
    hide ValidType, ValidTables, SimpleMembers, Linked, RowsOf, TagsDiffer, RunCounts;
    FlagsTable();
    FlagsRuns();
    FlagsMembers();
    SmallType(TpduFlags(), [0, 1, 2, 3]);
  }

  lemma TpduTable()
    ensures Linked(Tpdu().rows, |Tpdu().members|) && RowsOf(Tpdu().members, Tpdu().rows, [1, 2, 3, 0])
  {
    hide ValidType, ValidTables, Slot, TpduFlags;
  }

  lemma TpduRuns()
    ensures RunCounts(Tpdu().members) && TagsDiffer(Tpdu().members)
  {
    hide ValidType, ValidTables, Slot, TpduFlags;
  }

  lemma TpduMembers()
    ensures SimpleMembers(Tpdu().members)
  {
    hide ValidType, ValidTables, Slot, TpduFlags;
    PartTags();
    Leaves();
    SlotValid();
    FlagsValid();
  }

  lemma TpduValid()
    ensures Valid(Tpdu())
  {
    hide ValidType, ValidTables, SimpleMembers, Linked, RowsOf, TagsDiffer, RunCounts;
    TpduTable();
    TpduRuns();
    TpduMembers();
    SmallType(Tpdu(), [1, 2, 3, 0]);
  }

  lemma StatusTable()
    ensures Linked(SlotPhysStatus().rows, |SlotPhysStatus().members|) && RowsOf(SlotPhysStatus().members, SlotPhysStatus().rows, [0, 1, 2, 3])
  {
    hide ValidType, ValidTables;
  }

  lemma StatusRuns()
    ensures RunCounts(SlotPhysStatus().members) && TagsDiffer(SlotPhysStatus().members)
  {
    hide ValidType, ValidTables;
  }

  lemma StatusMembers()
    ensures SimpleMembers(SlotPhysStatus().members)
  {}

  lemma StatusValid()
    ensures Valid(SlotPhysStatus())
  {
    hide ValidType, ValidTables, SimpleMembers, Linked, RowsOf, TagsDiffer, RunCounts;
    StatusTable();
    StatusRuns();
    StatusMembers();
    SmallType(SlotPhysStatus(), [0, 1, 2, 3]);
  }

  lemma StatusIndValid()
    ensures Valid(SlotStatusInd())
  {
    hide Valid, Slot, SlotPhysStatus;
    PartTags();
    StatusValid();
    SlotValid();
    TripleValid(Slot(), Slot(), SlotPhysStatus());
  }

  lemma MessagesValid()
    ensures forall i :: 0 <= i < 21 ==> Valid(Messages()[i]) && Messages()[i].Sequence? && Messages()[i].tags == SEQUENCE
  {
    MessageTags();
    ConnectBankValid(); ConnectResValid(); ConnectClientValid(); MappingValid(); ResultValid(); ConfigIdValid(); ConfigBankValid(); ErrorValid(); AtrValid();
    TpduValid(); StatusIndValid();
    hide Valid, ConnectBankReq, ConnectRes, ConnectClientReq, MappingReq, ResultOnly, ConfigClientIdReq,
         ConfigClientBankReq, ErrorInd, ResetStateReq, SetAtrReq, Tpdu, SlotStatusInd;
  }

  lemma MessageTags()
    ensures forall i :: 0 <= i < 21 ==> Messages()[i].Sequence? && Messages()[i].tags == SEQUENCE
  {}

  lemma Inverse()
    ensures forall i :: 0 <= i < 21 ==> Elements()[Numbers()[i]] == i
  {}

  lemma InverseBack()
    ensures forall k :: 0 <= k < 21 ==> Numbers()[Elements()[k]] == k
  {}

  lemma ChoiceMembers()
    ensures SimpleMembers(RsproPDUchoice().members)
  {
    hide Valid, Messages, Numbers;
    MessagesValid();
  }

  lemma ChoiceRow(k: nat)
    requires k < 20
    ensures AdjacentAt(RsproPDUchoice().rows, k)
  {
    hide Messages, Numbers, Elements, RsproPDUchoice;
  }

  lemma ChoiceRows()
    ensures Linked(RsproPDUchoice().rows, 21)
    ensures forall k :: 0 <= k < 21 ==> RsproPDUchoice().rows[k].last == 0
  {
    hide Messages, Numbers, Elements, RsproPDUchoice, AdjacentAt;
    forall k | 0 <= k < 20 ensures AdjacentAt(RsproPDUchoice().rows, k) {
      ChoiceRow(k);
    }
  }

  lemma ChoicePositions()
    ensures RowsOf(RsproPDUchoice().members, RsproPDUchoice().rows, Numbers())
  {
    hide Messages, Numbers, Elements, RsproPDUchoice;
    Inverse();
    InverseBack();
  }

  lemma RsproChoiceValid()
    ensures Valid(RsproPDUchoice())
  {
    hide Valid, ValidRows, SimpleMembers, Linked, RowsOf, TagsDiffer, Messages, Numbers, Elements, RsproPDUchoice;
    var t := RsproPDUchoice();
    ChoiceMembers();
    ChoiceRows();
    ChoicePositions();
    LinkedRows(t.rows, 21);
    UniqueTags(t.members, t.rows, Numbers());
    SimpleChoice(t, Numbers());
  }

  lemma RsproTable()
    ensures Linked(RsproPDU().rows, |RsproPDU().members|) && RowsOf(RsproPDU().members, RsproPDU().rows, [0, 1, 2])
  {
    hide ValidType, ValidTables, RsproPDUchoice;
  }

  lemma RsproRuns()
    ensures RunCounts(RsproPDU().members) && TagsDiffer(RsproPDU().members)
  {
    hide ValidType, ValidTables, RsproPDUchoice;
  }

  lemma RsproMembers()
    ensures SimpleMembers(RsproPDU().members)
  {
    hide ValidType, ValidTables, RsproPDUchoice;
    Leaves();
    RsproChoiceValid();
  }

  /** The descriptor of the RSPRO PDU, all the way down, meets what the theorems ask. */
  lemma RsproValid()
    ensures ValidType(RsproPDU()) && ValidTables(RsproPDU()) && ValidMode(RsproPDU(), 0)
  {
    hide ValidType, ValidTables, SimpleMembers, Linked, RowsOf, TagsDiffer, RunCounts, RsproPDUchoice;
    RsproTable();
    RsproRuns();
    RsproMembers();
    SmallType(RsproPDU(), [0, 1, 2]);
  }

  /** Any RSPRO PDU, in any pieces. */
  lemma RsproAnyPieces(v: Descriptors.Value, pieces: seq<Bytes>)
    requires HasType(RsproPDU(), v) && Storable(v) && |Encode(RsproPDU(), 0, 0, v)| <= MAX_LENGTH
    requires Comparable(Encode(RsproPDU(), 0, 0, v), OctetString.Concat(pieces))
    ensures var r := Feed(RsproPDU(), 0, Absent, [], pieces);
            if Encode(RsproPDU(), 0, 0, v) <= OctetString.Concat(pieces)
            then r.code == OK && r.consumed == |Encode(RsproPDU(), 0, 0, v)| && Holds(RsproPDU(), v, r.st)
            else r.code == WMORE
  {
    hide *;
    RsproValid();
    AnyPieces(RsproPDU(), 0, 0, v, pieces);
  }

  /** Any RSPRO PDU in any of the other forms, in one call. */
  lemma RsproAnyForm(v: Descriptors.Value, f: Form, x: Bytes)
    requires HasType(RsproPDU(), v) && Storable(v) && Fits(RsproPDU(), 0, 0, v, f) && |Ber(RsproPDU(), 0, 0, v, f)| <= MAX_LENGTH
    ensures var d := Decode(RsproPDU(), 0, Absent, Ber(RsproPDU(), 0, 0, v, f) + x);
            d.code == OK && d.consumed == |Ber(RsproPDU(), 0, 0, v, f)| && Holds(RsproPDU(), v, d.st)
  {
    hide *;
    RsproValid();
    BerDecode(RsproPDU(), 0, 0, v, f, x);
  }

  /** Whatever octets arrive in whatever pieces: a PDU that is called decoded has its version and its
      tag, and a message that is complete, unless it is one that is not known. */
  lemma RsproSound(pieces: seq<Bytes>)
    ensures var r := Feed(RsproPDU(), 0, Absent, [], pieces);
            r.code == OK ==>
              && r.st.SSeq? && |r.st.fields| == 3 && r.st.fields[0].SInt? && r.st.fields[1].SInt? && r.st.fields[2].SCho?
              && var c := r.st.fields[2];
              c.present == 0 || (c.present <= 21 && Complete(Messages()[c.present - 1], c.member))
  {
    hide Feed, ValidType, ValidTables, RsproPDUchoice, Messages;
    RsproValid();
    FreshPartial(RsproPDU());
    FeedSound(RsproPDU(), 0, Absent, [], pieces);
    var r := Feed(RsproPDU(), 0, Absent, [], pieces);
    if r.code == OK {
      PduComplete(r.st);
    }
  }

  lemma PduComplete(st: St)
    requires Complete(RsproPDU(), st)
    ensures st.SSeq? && |st.fields| == 3 && st.fields[0].SInt? && st.fields[1].SInt? && st.fields[2].SCho?
    ensures var c := st.fields[2]; c.present == 0 || (c.present <= 21 && Complete(Messages()[c.present - 1], c.member))
  {
    hide RsproPDUchoice, Messages;
    assert !MayBeMissing(RsproPDU(), 0) && !MayBeMissing(RsproPDU(), 1) && !MayBeMissing(RsproPDU(), 2);
    MessageComplete(st.fields[2]);
  }

  lemma MessageComplete(c: St)
    requires Complete(RsproPDUchoice(), c)
    ensures c.SCho? && (c.present == 0 || (c.present <= 21 && Complete(Messages()[c.present - 1], c.member)))
  {
    hide Messages, Numbers, Elements;
  }

  // ----- an input on which the decoder does not return

  const OPEN: Form := Parts(true, SkipLength.Nil, [Plain, Plain, Plain])

  lemma RsproTyped(v: Descriptors.Value)
    requires HasType(RsproPDU(), v)
    ensures v.VSeq? && |v.fields| == 3 && v.fields[0].Some? && v.fields[1].Some? && v.fields[2].Some?
    ensures HasType(INTEGER, v.fields[0].v) && HasType(INTEGER, v.fields[1].v)
    ensures HasType(RsproPDUchoice(), v.fields[2].v)
    ensures var c := v.fields[2].v;
            c.VCho? && c.index < 21 && HasType(RsproPDUchoice().members[c.index].ty, c.chosen)
  {
    hide RsproPDUchoice;
  }

  /** A PDU of indefinite length whose choice of message has an indefinite length, too; `r` follows
      the message. */
  function OpenPdu(v: Descriptors.Value, r: Bytes): (b: Bytes)
    requires HasType(RsproPDU(), v)
  {
    RsproTyped(v);
    var c := v.fields[2].v;
    OpenChain(SEQUENCE) +
      (Encode(INTEGER, -1, C(0), v.fields[0].v) +
        (Encode(INTEGER, -1, C(1), v.fields[1].v) +
          (OpenChain([C(2)]) + (EncodeMember(RsproPDUchoice().members[c.index], c.chosen) + r))))
  }

  lemma OpenFits(v: Descriptors.Value)
    requires HasType(RsproPDU(), v)
    ensures OPEN.Parts? && OPEN.indefinite && OPEN.parts == [Plain, Plain, Plain]
    ensures SequenceFits(RsproPDU(), v, OPEN)
    ensures NoZeroTag(RsproPDU().members) && C(2) in MemberTags(RsproPDU().members[2])
  {
    hide RsproPDUchoice;
  }

  lemma Presence(v: Descriptors.Value)
    requires HasType(RsproPDU(), v)
    ensures v.VSeq? && |v.fields| == 3 && NextPresent(v.fields, 0) == 0 && NextPresent(v.fields, 1) == 1
  {
    RsproTyped(v);
  }

  lemma PduMembers()
    ensures var t := RsproPDU();
            && t.Sequence? && t.tags == SEQUENCE && |SEQUENCE| == 1 && |t.members| == 3
            && t.members[0] == Member(C(0), -1, 0, INTEGER) && t.members[1] == Member(C(1), -1, 0, INTEGER)
            && t.members[2] == Member(C(2), 1, 0, RsproPDUchoice())
            && TagsToWrite(SEQUENCE, 0, 0) == SEQUENCE && TagsToWrite([], 1, C(2)) == [C(2)]
  {}

  /** The message is found by its tag although its length is indefinite. */
  lemma MessageLocated(b: Bytes)
    ensures Locate(RsproPDU(), 2, -1, OpenChain([C(2)]) + b) == Found(2)
  {
    hide *;
    PduMembers();
    RsproValid();
    ZeroAndMessage();
    SequenceValid(RsproPDU());
    var t, w := RsproPDU(), OpenChain([C(2)]) + b;
    OpenBegins([C(2)], b);
    FetchPrefix(C(2), true, w, w);
    FindMember(t.members, t.rows, 2, 2, C(2));
    FirstNotZero(t.members, 2, C(2), true, w);
    SeesAll(-1, w);
    LocateNext(t, 2, -1, w, |Identifier(C(2), true)|, C(2), 2);
  }

  lemma ZeroAndMessage()
    ensures NoZeroTag(RsproPDU().members) && C(2) in MemberTags(RsproPDU().members[2])
  {
    hide RsproPDUchoice;
  }

  /** The loop waits for one pair of octets. */
  lemma OnePairCut(r: Bytes)
    ensures EocsCutShort(-1, r) <==> |r| >= 2 && r[0] == 0 && r[1] != 0
  {
    if |r| >= 2 && r[0] == 0 && r[1] != 0 {
      assert CutAt(r, 0);
    }
  }

  /** The two numbers at the front of an open PDU are read, and the message is to come. */
  lemma NumbersRead(v: Descriptors.Value, rest: Bytes) returns (fields: seq<St>, used: nat)
    requires HasType(RsproPDU(), v) && Storable(v) && v.VSeq? && |v.fields| == 3 && v.fields[0].Some? && v.fields[1].Some?
    requires HasType(INTEGER, v.fields[0].v) && HasType(INTEGER, v.fields[1].v)
    requires |Encode(INTEGER, -1, C(0), v.fields[0].v)| <= MAX_LENGTH && |Encode(INTEGER, -1, C(1), v.fields[1].v)| <= MAX_LENGTH
    ensures |fields| == 3 && fields[2] == Absent
    ensures var b := OpenChain(SEQUENCE) + (Encode(INTEGER, -1, C(0), v.fields[0].v)
                     + (Encode(INTEGER, -1, C(1), v.fields[1].v) + rest));
            Decode(RsproPDU(), 0, Absent, b) == DecodeMembers(RsproPDU(), 2, 4, -1, fields, rest, used)
  {
    hide *;
    var t := RsproPDU();
    PduMembers();
    RsproValid();
    OpenFits(v);
    Presence(v);
    var e0, e1 := Encode(INTEGER, -1, C(0), v.fields[0].v), Encode(INTEGER, -1, C(1), v.fields[1].v);
    PlainForm(INTEGER, -1, C(0), v.fields[0].v);
    PlainForm(INTEGER, -1, C(1), v.fields[1].v);
    var x1 := e1 + rest;
    var x0 := e0 + x1;
    OpenChainChecked(SEQUENCE, 0, 0, 1, x0);
    Behind(OpenChain(SEQUENCE), x0);
    var b := OpenChain(SEQUENCE) + x0;
    SequenceStart(t, 0, b);
    PduDecoded(b);
    fields := SequenceContext(t, Absent).fields;
    used := |OpenChain(SEQUENCE)|;
    NothingDone(t, v, fields);
    SeesAll(-1, x0);
    var st0 := MemberStep(t, v, OPEN, 0, -1, fields, x1, x1, used);
    LessUnknown(-1, |e0|);
    fields, used := fields[0 := st0], used + |e0|;
    SeesAll(-1, x1);
    var st1 := MemberStep(t, v, OPEN, 1, -1, fields, rest, rest, used);
    LessUnknown(-1, |e1|);
    fields, used := fields[1 := st1], used + |e1|;
    NotDoneYet(fields, 2);
  }

  lemma PduDecoded(b: Bytes)
    ensures RsproPDU().Sequence? && Decode(RsproPDU(), 0, Absent, b) == DecodeSequence(RsproPDU(), 0, Absent, b)
  {
    hide DecodeSequence;
  }

  /** Such a PDU keeps the decoder for ever if and only if a zero octet and one that is not zero
      follow the message. */
  lemma RsproStuckExactly(v: Descriptors.Value, r: Bytes)
    requires HasType(RsproPDU(), v) && Storable(v) && |OpenPdu(v, [])| <= MAX_LENGTH
    ensures Decode(RsproPDU(), 0, Absent, OpenPdu(v, r)).code == STUCK <==> |r| >= 2 && r[0] == 0 && r[1] != 0
  {
    hide *;
    RsproTyped(v);
    PduParts(v, r);
    PduMembers();
    RsproChoiceReady();
    var c := v.fields[2].v;
    var m := RsproPDUchoice().members[c.index];
    var enc := EncodeMember(m, c.chosen);
    var rest := OpenChain([C(2)]) + (enc + r);
    var fields, used := NumbersRead(v, rest);
    MessageLocated(enc + r);
    LastMember(RsproPDU(), 2, -1, fields, rest, used);
    PlainForm(m.ty, m.mode, m.tag, c.chosen);
    MemberEncoded(m, c.chosen);
    StorableField(v, 2);
    ChoiceStuckExactly(RsproPDUchoice(), 1, C(2), c, Plain, r);
    OnePairCut(r);
  }

  lemma MemberEncoded(m: Member, v: Descriptors.Value)
    requires HasType(m.ty, v)
    ensures EncodeMember(m, v) == Encode(m.ty, m.mode, m.tag, v)
  {}

  lemma RsproChoiceReady()
    ensures RsproPDUchoice().Choice? && RsproPDUchoice().tags == [] && |RsproPDUchoice().members| == 21
    ensures ValidType(RsproPDUchoice()) && ValidMode(RsproPDUchoice(), 1) && !Untagged(RsproPDUchoice(), 1)
    ensures RsproPDU().Sequence?
  {
    RsproChoiceValid();
    hide ValidType, ValidTables;
  }

  lemma PduParts(v: Descriptors.Value, r: Bytes)
    requires HasType(RsproPDU(), v) && |OpenPdu(v, [])| <= MAX_LENGTH
    requires v.VSeq? && |v.fields| == 3 && v.fields[0].Some? && v.fields[1].Some? && v.fields[2].Some?
    requires HasType(INTEGER, v.fields[0].v) && HasType(INTEGER, v.fields[1].v)
    requires var c := v.fields[2].v;
             c.VCho? && c.index < 21 && HasType(RsproPDUchoice().members[c.index].ty, c.chosen)
    ensures var c := v.fields[2].v;
            var enc := EncodeMember(RsproPDUchoice().members[c.index], c.chosen);
            && |Encode(INTEGER, -1, C(0), v.fields[0].v)| <= MAX_LENGTH && |Encode(INTEGER, -1, C(1), v.fields[1].v)| <= MAX_LENGTH
            && |enc| <= MAX_LENGTH
            && OpenPdu(v, r) == OpenChain(SEQUENCE) + (Encode(INTEGER, -1, C(0), v.fields[0].v)
                                + (Encode(INTEGER, -1, C(1), v.fields[1].v) + (OpenChain([C(2)]) + (enc + r))))
  {
    hide RsproPDUchoice, RsproPDU, Encode, EncodeMember, OpenChain, HasType;
  }

  /** There is such an input: a ResetStateReq cut short. */
  lemma RsproStuck()
    ensures exists b :: Decode(RsproPDU(), 0, Absent, b).code == STUCK
  {
    var v := VSeq([Some(VInt(2)), Some(VInt(1)), Some(VCho(13, VSeq([])))]);
    ResetTyped(v);
    hide *;
    RsproStuckExactly(v, [0, 1]);
    var b := OpenPdu(v, [0, 1]);
    assert Decode(RsproPDU(), 0, Absent, b).code == STUCK;
  }

  lemma SmallTL(tag: Tag, len: nat, form: bool)
    requires TagNumber(tag) <= 30 && len < 128
    ensures |TL(tag, len, form)| == 2
  {}

  lemma SmallChain(tag: Tag, len: nat, form: bool)
    requires TagNumber(tag) <= 30 && len < 128
    ensures |WriteChain([tag], len, form)| == 2
  {
    hide TL;
    SmallTL(tag, len, form);
    assert WriteChain([], len, form) == [];
    assert [tag][1..] == [];
  }

  lemma SmallInteger(k: nat, n: int)
    requires k <= 30 && 0 <= n < 128
    ensures HasType(INTEGER, VInt(n)) && |Encode(INTEGER, -1, C(k), VInt(n))| <= 10
  {
    hide WriteChain;
    assert TagsToWrite(INTEGER.tags, -1, C(k)) == [C(k)];
    SmallChain(C(k), |Integers.FromLong(n)|, false);
  }

  lemma SmallReset()
    ensures HasType(ResetStateReq(), VSeq([])) && |Encode(ResetStateReq(), -1, C(Numbers()[13]), VSeq([]))| == 2
  {
    hide WriteChain;
    var t := ResetStateReq();
    assert TagsToWrite(t.tags, -1, C(Numbers()[13])) == [C(Numbers()[13])];
    assert Body(t, VSeq([]), 0) == [];
    SmallChain(C(Numbers()[13]), 0, true);
  }

  lemma OneOpen(tag: Tag)
    requires TagNumber(tag) <= 30
    ensures |OpenChain([tag])| == 2
  {
    assert [tag][1..] == [];
  }

  lemma PduTyped(v: Descriptors.Value)
    requires v.VSeq? && |v.fields| == 3 && v.fields[0].Some? && v.fields[1].Some? && v.fields[2].Some?
    requires HasType(INTEGER, v.fields[0].v) && HasType(INTEGER, v.fields[1].v)
    requires HasType(RsproPDUchoice(), v.fields[2].v)
    ensures HasType(RsproPDU(), v)
  {
    hide RsproPDUchoice;
  }

  lemma OpenPduLength(v: Descriptors.Value, m: Member, w: Descriptors.Value)
    requires HasType(RsproPDU(), v) && HasType(m.ty, w)
    requires v.fields[2].v.VCho? && v.fields[2].v.index < 21
    requires m == RsproPDUchoice().members[v.fields[2].v.index] && w == v.fields[2].v.chosen
    ensures v.fields[0].Some? && v.fields[1].Some? && HasType(INTEGER, v.fields[0].v) && HasType(INTEGER, v.fields[1].v)
    ensures |OpenPdu(v, [])| == |OpenChain(SEQUENCE)| + |Encode(INTEGER, -1, C(0), v.fields[0].v)|
                                + |Encode(INTEGER, -1, C(1), v.fields[1].v)| + |OpenChain([C(2)])| + |EncodeMember(m, w)|
  {
    RsproTyped(v);
    hide HasType, RsproPDUchoice, RsproPDU, Encode, EncodeMember, OpenChain;
  }

  lemma ResetTyped(v: Descriptors.Value)
    requires v == VSeq([Some(VInt(2)), Some(VInt(1)), Some(VCho(13, VSeq([])))])
    ensures HasType(RsproPDU(), v) && Storable(v) && |OpenPdu(v, [])| <= MAX_LENGTH
  {
    hide *;
    var m := Member(C(Numbers()[13]), -1, 0, ResetStateReq());
    ResetMessage();
    ResetStorable(v);
    SmallInteger(0, 2);
    SmallInteger(1, 1);
    SmallReset();
    SequenceTag();
    OneOpen(C(2));
    OneOpen(64);
    PduTyped(v);
    OpenPduLength(v, m, VSeq([]));
    MemberEncoded(m, VSeq([]));
  }

  lemma ResetStorable(v: Descriptors.Value)
    requires v == VSeq([Some(VInt(2)), Some(VInt(1)), Some(VCho(13, VSeq([])))])
    ensures Storable(v)
  {}

  lemma SequenceTag()
    ensures SEQUENCE == [64] && TagNumber(64) <= 30 && TagNumber(C(2)) <= 30 && MAX_LENGTH >= 100 && |Messages()| == 21
  {}

  lemma ResetMessage()
    ensures RsproPDUchoice().members[13] == Member(C(Numbers()[13]), -1, 0, ResetStateReq())
    ensures HasType(RsproPDUchoice(), VCho(13, VSeq([])))
  {}
}
