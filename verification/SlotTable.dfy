/** The list of slot mappings (src/slotmap.c) and what bankd does with it when the server asks
    (`bankd_srvc_handle_rx`, src/bankd/bankd_main.c). */
module SlotTable {
  type U16 = x: int | 0 <= x < 0x1_0000

  datatype BankSlot = BankSlot(bank: U16, slot: U16)
  datatype ClientSlot = ClientSlot(client: U16, slot: U16)
  datatype Pair = Pair(bank: BankSlot, client: ClientSlot)

  datatype Found = Missing | At(index: nat)

  datatype ResultCode = Ok | IllegalBankId | IllegalSlotId | UnknownSlotmap

  /** `slotmap_get_id` */
  function SlotId(b: BankSlot): (id: nat)
    ensures id < 0x1_0000_0000
  {
    b.bank * 0x1_0000 + b.slot
  }

  /** The bank in the high half of the id, the slot in the low half. */
  lemma SlotIdParts(b: BankSlot)
    ensures SlotId(b) / 0x1_0000 == b.bank && SlotId(b) % 0x1_0000 == b.slot
  {}

  lemma SlotIdUnique(a: BankSlot, b: BankSlot)
    ensures SlotId(a) == SlotId(b) <==> a == b
  {}

  // ----- the list

  /** A one-to-one relation of bank slots and client slots. */
  predicate OneToOne(s: seq<Pair>) {
    forall i, j :: 0 <= i < j < |s| ==> s[i].bank != s[j].bank && s[i].client != s[j].client
  }

  function Contents(s: seq<Pair>): (c: set<Pair>) {
    set p | p in s
  }

  /** `slotmap_by_bank`: the first entry with this bank slot. */
  function ByBank(s: seq<Pair>, bank: BankSlot): (r: Found)
    ensures r.At? ==> r.index < |s| && s[r.index].bank == bank
    ensures r.Missing? ==> forall p :: p in s ==> p.bank != bank
  {
    if s == [] then Missing
    else if s[0].bank == bank then At(0)
    else match ByBank(s[1..], bank) case Missing => Missing case At(i) => At(i + 1)
  }

  /** `slotmap_by_client` */
  function ByClient(s: seq<Pair>, client: ClientSlot): (r: Found)
    ensures r.At? ==> r.index < |s| && s[r.index].client == client
    ensures r.Missing? ==> forall p :: p in s ==> p.client != client
  {
    if s == [] then Missing
    else if s[0].client == client then At(0)
    else match ByClient(s[1..], client) case Missing => Missing case At(i) => At(i + 1)
  }

  /** On a one-to-one list both lookups of a pair find the same entry. */
  lemma LookupsAgree(s: seq<Pair>, p: Pair)
    requires OneToOne(s)
    ensures p in s <==> (ByBank(s, p.bank).At? && s[ByBank(s, p.bank).index] == p)
    ensures p in s <==> (ByClient(s, p.client).At? && s[ByClient(s, p.client).index] == p)
    ensures p in s ==> ByBank(s, p.bank) == ByClient(s, p.client)
  {}

  /** `slotmap_add`: refused when either slot is in use. */
  predicate CanAdd(s: seq<Pair>, p: Pair) {
    ByBank(s, p.bank).Missing? && ByClient(s, p.client).Missing?
  }

  function Add(s: seq<Pair>, p: Pair): (r: seq<Pair>) {
    if CanAdd(s, p) then s + [p] else s
  }

  function Delete(s: seq<Pair>, i: nat): (r: seq<Pair>)
    requires i < |s|
    ensures |r| == |s| - 1
  {
    s[..i] + s[i + 1..]
  }

  lemma DeleteOneToOne(s: seq<Pair>, i: nat)
    requires OneToOne(s) && i < |s|
    ensures OneToOne(Delete(s, i))
    ensures Contents(Delete(s, i)) == Contents(s) - {s[i]}
  {}

  lemma AddOneToOne(s: seq<Pair>, p: Pair)
    requires OneToOne(s)
    ensures OneToOne(Add(s, p))
    ensures Contents(Add(s, p)) == if CanAdd(s, p) then Contents(s) + {p} else Contents(s)
  {}

  // ----- what bankd does on a request

  /** `bankd_srvc_handle_rx` for createMappingReq. The former owner of the bank slot is removed
      even when the new pair cannot be added. */
  function BankdCreate(s: seq<Pair>, bankId: U16, slots: nat, p: Pair): (r: (ResultCode, seq<Pair>)) {
    if p.bank.bank != bankId then (IllegalBankId, s)
    else if p.bank.slot >= slots then (IllegalSlotId, s)
    else
      match ByBank(s, p.bank)
      case At(i) =>
        if s[i].client == p.client then (Ok, s)
        else
          var s' := Delete(s, i);
          (if CanAdd(s', p) then Ok else IllegalSlotId, Add(s', p))
      case Missing => (if CanAdd(s, p) then Ok else IllegalSlotId, Add(s, p))
  }

  function BankdRemove(s: seq<Pair>, bankId: U16, slots: nat, p: Pair): (r: (ResultCode, seq<Pair>)) {
    if p.bank.bank != bankId then (IllegalBankId, s)
    else if p.bank.slot >= slots then (IllegalSlotId, s)
    else
      match ByBank(s, p.bank)
      case At(i) => if s[i].client == p.client then (Ok, Delete(s, i)) else (UnknownSlotmap, s)
      case Missing => (UnknownSlotmap, s)
  }

  // ----- the same on the relation itself

  predicate OneToOneSet(t: set<Pair>) {
    forall p, q :: p in t && q in t && (p.bank == q.bank || p.client == q.client) ==> p == q
  }

  predicate Accepts(bankId: U16, slots: nat, p: Pair) {
    p.bank.bank == bankId && p.bank.slot < slots
  }

  function Evict(t: set<Pair>, bank: BankSlot): (r: set<Pair>) {
    set p | p in t && p.bank != bank
  }

  predicate ClientUsed(t: set<Pair>, client: ClientSlot) {
    exists p :: p in t && p.client == client
  }

  /** The relation after a create: without the bank slot's former owner, with the new pair unless
      its client is still in use elsewhere. */
  function Created(t: set<Pair>, bankId: U16, slots: nat, p: Pair): (r: set<Pair>) {
    if !Accepts(bankId, slots, p) then t
    else if p in t then t
    else if ClientUsed(Evict(t, p.bank), p.client) then Evict(t, p.bank)
    else Evict(t, p.bank) + {p}
  }

  function Removed(t: set<Pair>, bankId: U16, slots: nat, p: Pair): (r: set<Pair>) {
    if Accepts(bankId, slots, p) then t - {p} else t
  }

  lemma OneToOneContents(s: seq<Pair>)
    requires OneToOne(s)
    ensures OneToOneSet(Contents(s))
  {}

  lemma EvictContents(s: seq<Pair>, bank: BankSlot)
    requires OneToOne(s)
    ensures match ByBank(s, bank)
            case At(i) => Evict(Contents(s), bank) == Contents(Delete(s, i))
            case Missing => Evict(Contents(s), bank) == Contents(s)
  {}

  lemma CanAddContents(s: seq<Pair>, p: Pair)
    ensures CanAdd(s, p) <==> (forall q :: q in Contents(s) ==> q.bank != p.bank) && !ClientUsed(Contents(s), p.client)
  {}

  /** A create keeps the list one-to-one and does to the relation what `Created` says; the answer
      is ok exactly when the pair is there afterwards, and then the rest is the old table without
      the bank slot's former owner. */
  lemma BankdCreateContents(s: seq<Pair>, bankId: U16, slots: nat, p: Pair)
    requires OneToOne(s)
    ensures var r := BankdCreate(s, bankId, slots, p);
            && OneToOne(r.1)
            && Contents(r.1) == Created(Contents(s), bankId, slots, p)
            && (Accepts(bankId, slots, p) ==> (r.0 == Ok <==> p in r.1))
            && (r.0 == Ok ==> Accepts(bankId, slots, p) && Contents(r.1) == Evict(Contents(s), p.bank) + {p})
  {
    hide ByBank, ByClient, CanAdd, Add, OneToOne, Delete;
    if Accepts(bankId, slots, p) {
      OneToOneContents(s);
      EvictContents(s, p.bank);
      var f := ByBank(s, p.bank);
      if f.At? && s[f.index].client == p.client {
        PairIs(s[f.index], p);
      } else {
        var s' := if f.At? then Delete(s, f.index) else s;
        if f.At? {
          DeleteOneToOne(s, f.index);
        }
        NotThere(s, p);
        AddOneToOne(s', p);
        CanAddContents(s', p);
      }
    }
  }

  lemma PairIs(q: Pair, p: Pair)
    requires q.bank == p.bank && q.client == p.client
    ensures q == p
  {}

  lemma NotThere(s: seq<Pair>, p: Pair)
    requires OneToOne(s)
    ensures match ByBank(s, p.bank)
            case At(i) => s[i].client != p.client ==> p !in s
            case Missing => p !in s
  {}

  lemma BankdRemoveContents(s: seq<Pair>, bankId: U16, slots: nat, p: Pair)
    requires OneToOne(s)
    ensures var r := BankdRemove(s, bankId, slots, p);
            && OneToOne(r.1)
            && Contents(r.1) == Removed(Contents(s), bankId, slots, p)
            && (r.0 == Ok <==> Accepts(bankId, slots, p) && p in s)
  {}

  /** Another bank slot has the client. */
  predicate HeldElsewhere(s: seq<Pair>, p: Pair) {
    exists q :: q in s && q.client == p.client && q.bank != p.bank
  }

  /** Each answer by its cause. */
  lemma CreateCode(s: seq<Pair>, bankId: U16, slots: nat, p: Pair)
    requires OneToOne(s)
    ensures var code := BankdCreate(s, bankId, slots, p).0;
            && (code == IllegalBankId <==> p.bank.bank != bankId)
            && (code == IllegalSlotId <==> p.bank.bank == bankId && (p.bank.slot >= slots || HeldElsewhere(s, p)))
            && (code == Ok <==> p.bank.bank == bankId && p.bank.slot < slots && !HeldElsewhere(s, p))
            && code != UnknownSlotmap
  {
    if p.bank.bank == bankId && p.bank.slot < slots {
      var f := ByBank(s, p.bank);
      var s' := if f.At? then Delete(s, f.index) else s;
      if f.At? {
        DeleteOneToOne(s, f.index);
      }
      hide Delete;
      OthersStay(s, s', p);
    }
  }

  lemma OthersStay(s: seq<Pair>, s': seq<Pair>, p: Pair)
    requires OneToOne(s)
    requires match ByBank(s, p.bank)
             case At(i) => Contents(s') == Contents(s) - {s[i]}
             case Missing => s' == s
    ensures CanAdd(s', p) <==> !HeldElsewhere(s, p)
    ensures match ByBank(s, p.bank)
            case At(i) => s[i].client == p.client ==> !HeldElsewhere(s, p)
            case Missing => true
  {
    hide ByBank, ByClient;
    FirstOfBank(s, p.bank);
    assert forall q :: q in s' <==> q in Contents(s');
    assert forall q :: q in s <==> q in Contents(s);
    FirstOfBank(s', p.bank);
    FirstOfClient(s', p.client);
  }

  lemma FirstOfBank(s: seq<Pair>, bank: BankSlot)
    ensures ByBank(s, bank).At? <==> exists q :: q in s && q.bank == bank
    ensures ByBank(s, bank).At? ==> ByBank(s, bank).index < |s| && s[ByBank(s, bank).index].bank == bank
    ensures ByBank(s, bank).At? && OneToOne(s) ==> forall q :: q in s && q.bank == bank ==> q == s[ByBank(s, bank).index]
  {}

  lemma FirstOfClient(s: seq<Pair>, client: ClientSlot)
    ensures ByClient(s, client).At? <==> exists q :: q in s && q.client == client
  {}

  lemma RemoveCode(s: seq<Pair>, bankId: U16, slots: nat, p: Pair)
    requires OneToOne(s)
    ensures var code := BankdRemove(s, bankId, slots, p).0;
            && (code == IllegalBankId <==> p.bank.bank != bankId)
            && (code == IllegalSlotId <==> p.bank.bank == bankId && p.bank.slot >= slots)
            && (code == UnknownSlotmap <==> p.bank.bank == bankId && p.bank.slot < slots && p !in s)
            && (code == Ok <==> p.bank.bank == bankId && p.bank.slot < slots && p in s)
  {
    hide ByBank, Delete;
    FirstOfBank(s, p.bank);
  }

  // ----- any sequence of operations

  datatype Operation =
    | AddPair(p: Pair)
    | DeleteEntry(index: nat)
    | CreateRequest(p: Pair)
    | RemoveRequest(p: Pair)
    | Reset

  function Apply(s: seq<Pair>, bankId: U16, slots: nat, op: Operation): (r: seq<Pair>) {
    match op
    case AddPair(p) => Add(s, p)
    case DeleteEntry(i) => if i < |s| then Delete(s, i) else s
    case CreateRequest(p) => BankdCreate(s, bankId, slots, p).1
    case RemoveRequest(p) => BankdRemove(s, bankId, slots, p).1
    case Reset => []
  }

  function ApplyAll(s: seq<Pair>, bankId: U16, slots: nat, ops: seq<Operation>): (r: seq<Pair>)
    decreases |ops|
  {
    if ops == [] then s else ApplyAll(Apply(s, bankId, slots, ops[0]), bankId, slots, ops[1..])
  }

  /** Whatever is done to it, the table stays one-to-one. */
  lemma {:induction false} AlwaysOneToOne(s: seq<Pair>, bankId: U16, slots: nat, ops: seq<Operation>)
    requires OneToOne(s)
    ensures OneToOne(ApplyAll(s, bankId, slots, ops))
    decreases |ops|
  {
    if ops != [] {
      hide BankdCreate, BankdRemove, Add, Delete, OneToOne;
      match ops[0] {
        case AddPair(p) => AddOneToOne(s, p);
        case DeleteEntry(i) => if i < |s| { DeleteOneToOne(s, i); }
        case CreateRequest(p) => BankdCreateContents(s, bankId, slots, p);
        case RemoveRequest(p) => BankdRemoveContents(s, bankId, slots, p);
        case Reset => EmptyOneToOne();
      }
      AlwaysOneToOne(Apply(s, bankId, slots, ops[0]), bankId, slots, ops[1..]);
    }
  }

  lemma EmptyOneToOne()
    ensures OneToOne([])
  {}

  // ----- the loops of the source

  /** `struct slotmaps` as bankd uses it, with its bank id and number of slots. */
  class SlotMaps {
    var mappings: seq<Pair>
    const bankId: U16
    const slots: nat

    ghost predicate Valid()
      reads this
    {
      OneToOne(mappings)
    }

    constructor (bankId: U16, slots: nat)
      ensures Valid() && mappings == [] && this.bankId == bankId && this.slots == slots
    {
      mappings := [];
      this.bankId := bankId;
      this.slots := slots;
    }

    method FindBank(bank: BankSlot) returns (r: Found)
      ensures r == ByBank(mappings, bank)
    {
      var i := 0;
      while i < |mappings|
        invariant 0 <= i <= |mappings|
        invariant ByBank(mappings, bank) ==
                  match ByBank(mappings[i..], bank) case Missing => Missing case At(k) => At(k + i)
      {
        if mappings[i].bank == bank {
          return At(i);
        }
        i := i + 1;
      }
      return Missing;
    }

    method FindClient(client: ClientSlot) returns (r: Found)
      ensures r == ByClient(mappings, client)
    {
      var i := 0;
      while i < |mappings|
        invariant 0 <= i <= |mappings|
        invariant ByClient(mappings, client) ==
                  match ByClient(mappings[i..], client) case Missing => Missing case At(k) => At(k + i)
      {
        if mappings[i].client == client {
          return At(i);
        }
        i := i + 1;
      }
      return Missing;
    }

    /** `slotmap_add` */
    method AddMap(p: Pair) returns (ok: bool)
      requires Valid()
      modifies this
      ensures Valid() && mappings == Add(old(mappings), p) && ok == CanAdd(old(mappings), p)
      ensures ok <==> forall q :: q in old(mappings) ==> q.bank != p.bank && q.client != p.client
      ensures mappings == if ok then old(mappings) + [p] else old(mappings)
    {
      AddOneToOne(mappings, p);
      var b := FindBank(p.bank);
      if b.At? {
        return false;
      }
      var c := FindClient(p.client);
      if c.At? {
        return false;
      }
      mappings := mappings + [p];
      return true;
    }

    /** `slotmap_del` */
    method DeleteMap(i: nat)
      requires Valid() && i < |mappings|
      modifies this
      ensures Valid() && mappings == Delete(old(mappings), i)
      ensures old(mappings) == mappings[..i] + [old(mappings)[i]] + mappings[i..]
    {
      DeleteOneToOne(mappings, i);
      mappings := mappings[..i] + mappings[i + 1..];
    }

    /** `slotmap_del_all` */
    method DeleteAll()
      requires Valid()
      modifies this
      ensures Valid() && mappings == []
    {
      while mappings != []
        invariant Valid()
        decreases |mappings|
      {
        DeleteMap(0);
      }
    }

    method HandleCreate(p: Pair) returns (code: ResultCode)
      requires Valid()
      modifies this
      ensures Valid() && (code, mappings) == BankdCreate(old(mappings), bankId, slots, p)
      ensures Contents(mappings) == Created(old(Contents(mappings)), bankId, slots, p)
      ensures code == IllegalBankId <==> p.bank.bank != bankId
      ensures code == Ok <==> p.bank.bank == bankId && p.bank.slot < slots && !HeldElsewhere(old(mappings), p)
      ensures code != UnknownSlotmap
      ensures code == Ok ==> p in mappings
    {
      hide ByBank, ByClient, CanAdd, Add, OneToOne, Delete, HeldElsewhere;
      CreateCode(mappings, bankId, slots, p);
      BankdCreateContents(mappings, bankId, slots, p);
      if p.bank.bank != bankId {
        return IllegalBankId;
      }
      if p.bank.slot >= slots {
        return IllegalSlotId;
      }
      var f := FindBank(p.bank);
      if f.At? {
        if mappings[f.index].client == p.client {
          return Ok;
        }
        DeleteMap(f.index);
      }
      var ok := AddMap(p);
      return if ok then Ok else IllegalSlotId;
    }

    method HandleRemove(p: Pair) returns (code: ResultCode)
      requires Valid()
      modifies this
      ensures Valid() && (code, mappings) == BankdRemove(old(mappings), bankId, slots, p)
      ensures Contents(mappings) == Removed(old(Contents(mappings)), bankId, slots, p)
      ensures code == IllegalBankId <==> p.bank.bank != bankId
      ensures code == IllegalSlotId <==> p.bank.bank == bankId && p.bank.slot >= slots
      ensures code == Ok <==> p.bank.bank == bankId && p.bank.slot < slots && p in old(mappings)
      ensures p.bank.bank == bankId && p.bank.slot < slots ==> p !in mappings
    {
      hide ByBank, OneToOne, Delete;
      RemoveCode(mappings, bankId, slots, p);
      BankdRemoveContents(mappings, bankId, slots, p);
      if p.bank.bank != bankId {
        return IllegalBankId;
      }
      if p.bank.slot >= slots {
        return IllegalSlotId;
      }
      var f := FindBank(p.bank);
      if f.Missing? || mappings[f.index].client != p.client {
        return UnknownSlotmap;
      }
      DeleteMap(f.index);
      return Ok;
    }
  }
}
