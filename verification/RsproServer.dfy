/** The server's side in the form of the source: connections on a list, mappings relinked one at a
    time, lookups as loops. Each operation is proved to be the step of Replication it implements. */
module RsproServer {
  import opened SlotTable
  import opened Replication
  import opened Coherence

  datatype Bankd = Bankd(id: U16, conn: Conn)

  predicate UniqueIds(banks: seq<Bankd>) {
    forall i, j :: 0 <= i < j < |banks| ==> banks[i].id != banks[j].id
  }

  predicate UniqueClients(clients: seq<ClientSlot>) {
    forall i, j :: 0 <= i < j < |clients| ==> clients[i] != clients[j]
  }

  function Ids(banks: seq<Bankd>): (ids: set<U16>) {
    set x | x in banks :: x.id
  }

  /** The connections by bank id. */
  function ByBankId(banks: seq<Bankd>): (m: map<U16, Conn>)
    ensures m.Keys == Ids(banks)
    ensures UniqueIds(banks) ==> forall i :: 0 <= i < |banks| ==> m[banks[i].id] == banks[i].conn
  {
    if banks == [] then map[]
    else
      var n := |banks| - 1;
      var m := ByBankId(banks[..n]);
      assert banks == banks[..n] + [banks[n]];
      m[banks[n].id := banks[n].conn]
  }

  lemma IdAt(banks: seq<Bankd>, b: U16) returns (k: nat)
    requires b in Ids(banks)
    ensures k < |banks| && banks[k].id == b
  {
    var x :| x in banks && x.id == b;
    k :| k < |banks| && banks[k] == x;
  }

  lemma HasId(banks: seq<Bankd>, k: nat)
    requires k < |banks|
    ensures banks[k].id in Ids(banks)
  {}

  lemma Lookup(banks: seq<Bankd>, k: nat)
    requires UniqueIds(banks) && k < |banks|
    ensures banks[k].id in ByBankId(banks) && ByBankId(banks)[banks[k].id] == banks[k].conn
  {}

  lemma ReplacedIds(banks: seq<Bankd>, i: nat, c: Conn)
    requires i < |banks|
    ensures Ids(banks[i := Bankd(banks[i].id, c)]) == Ids(banks)
  {
    var r := banks[i := Bankd(banks[i].id, c)];
    forall b ensures b in Ids(r) <==> b in Ids(banks) {
      if b in Ids(r) {
        var k := IdAt(r, b);
        HasId(banks, k);
      }
      if b in Ids(banks) {
        var k := IdAt(banks, b);
        HasId(r, k);
      }
    }
  }

  lemma Replaced(banks: seq<Bankd>, i: nat, c: Conn)
    requires UniqueIds(banks) && i < |banks|
    ensures UniqueIds(banks[i := Bankd(banks[i].id, c)])
    ensures ByBankId(banks[i := Bankd(banks[i].id, c)]) == ByBankId(banks)[banks[i].id := c]
  {
    hide ByBankId, Ids;
    var r := banks[i := Bankd(banks[i].id, c)];
    ReplacedIds(banks, i, c);
    HasId(banks, i);
    forall b | b in Ids(banks) ensures ByBankId(r)[b] == ByBankId(banks)[banks[i].id := c][b] {
      var k := IdAt(banks, b);
      assert r[k].id == b;
    }
  }

  lemma Appended(banks: seq<Bankd>, x: Bankd)
    requires UniqueIds(banks) && x.id !in Ids(banks)
    ensures UniqueIds(banks + [x]) && ByBankId(banks + [x]) == ByBankId(banks)[x.id := x.conn]
  {
    assert (banks + [x])[..|banks|] == banks;
    forall i | 0 <= i < |banks| ensures banks[i].id != x.id {
      assert banks[i] in banks;
    }
  }

  lemma DroppedAt(banks: seq<Bankd>, i: nat, k: nat)
    requires i < |banks|
    ensures k < |banks| - 1 ==> (banks[..i] + banks[i + 1..])[k] == banks[if k < i then k else k + 1]
  {}

  lemma DroppedIds(banks: seq<Bankd>, i: nat)
    requires UniqueIds(banks) && i < |banks|
    ensures Ids(banks[..i] + banks[i + 1..]) == Ids(banks) - {banks[i].id}
  {}

  lemma DroppedUnique(banks: seq<Bankd>, i: nat)
    requires UniqueIds(banks) && i < |banks|
    ensures UniqueIds(banks[..i] + banks[i + 1..])
  {}

  lemma Dropped(banks: seq<Bankd>, i: nat)
    requires UniqueIds(banks) && i < |banks|
    ensures UniqueIds(banks[..i] + banks[i + 1..])
    ensures ByBankId(banks[..i] + banks[i + 1..]) == ByBankId(banks) - {banks[i].id}
  {
    hide ByBankId, Ids;
    var r := banks[..i] + banks[i + 1..];
    DroppedUnique(banks, i);
    DroppedIds(banks, i);
    forall b | b in Ids(r) ensures ByBankId(r)[b] == ByBankId(banks)[b] {
      var k := IdAt(r, b);
      DroppedAt(banks, i, k);
    }
  }

  lemma SetStateMore(maps: map<MapId, Mapping>, ids: seq<MapId>, id: MapId, st: State)
    ensures SetState(SetState(maps, ids, st), [id], st) == SetState(maps, ids + [id], st)
  {}

  lemma SetStateNone(maps: map<MapId, Mapping>, st: State)
    ensures SetState(maps, [], st) == maps
  {}

  lemma {:induction false} WithoutMore(s: seq<MapId>, gone: seq<MapId>, id: MapId)
    ensures Without(Without(s, gone), [id]) == Without(s, gone + [id])
  {
    if s != [] {
      WithoutMore(s[1..], gone, id);
      if s[0] !in gone {
        assert ([s[0]] + Without(s[1..], gone))[1..] == Without(s[1..], gone);
      }
    }
  }

  lemma {:induction false} WithoutNobody(s: seq<MapId>)
    ensures Without(s, []) == s
  {
    if s != [] {
      WithoutNobody(s[1..]);
    }
  }

  lemma RequestedMore(maps: map<MapId, Mapping>, ids: seq<MapId>, k: nat, create: bool)
    requires k < |ids| && forall id :: id in ids ==> id in maps
    ensures var q := if create then Create(ids[k], maps[ids[k]].pair) else Remove(ids[k], maps[ids[k]].pair);
            Requested(maps, ids[..k], create) + [q] == Requested(maps, ids[..k + 1], create)
  {}

  lemma Bookkeeping(ids: seq<MapId>, k: nat)
    requires k < |ids|
    ensures ids[..k + 1] == ids[..k] + [ids[k]] && ids[k] in ids
  {}

  // ----- connected clients

  datatype ClientEvent = ClientConn(slot: ClientSlot) | ClientDown(index: nat)

  /** CLNTC_E_CLIENT_CONN, refused for a slot that is connected, and CLNTC_E_TCP_DOWN of a client. */
  function ClientStep(cs: seq<ClientSlot>, e: ClientEvent): (r: seq<ClientSlot>) {
    match e
    case ClientConn(slot) => if slot in cs then cs else cs + [slot]
    case ClientDown(i) => if i < |cs| then cs[..i] + cs[i + 1..] else cs
  }

  function ClientRun(cs: seq<ClientSlot>, es: seq<ClientEvent>): (r: seq<ClientSlot>)
    decreases |es|
  {
    if es == [] then cs else ClientRun(ClientStep(cs, es[0]), es[1..])
  }

  function Slots(cs: seq<ClientSlot>): (r: set<ClientSlot>) {
    set x | x in cs
  }

  /** A connect adds its slot, a loss frees exactly the slot of the lost connection for the next
      connect; no slot is ever connected twice. */
  lemma ClientStepUnique(cs: seq<ClientSlot>, e: ClientEvent)
    requires UniqueClients(cs)
    ensures UniqueClients(ClientStep(cs, e))
    ensures Slots(ClientStep(cs, e)) ==
            match e
            case ClientConn(slot) => Slots(cs) + {slot}
            case ClientDown(i) => if i < |cs| then Slots(cs) - {cs[i]} else Slots(cs)
  {
    var r := ClientStep(cs, e);
    if e.ClientDown? && e.index < |cs| {
      var i := e.index;
      forall k | 0 <= k < |r| ensures r[k] == cs[if k < i then k else k + 1] {
      }
      forall x | x in cs && x != cs[i] ensures x in r {
        var k :| 0 <= k < |cs| && cs[k] == x;
        assert r[if k < i then k else k - 1] == x;
      }
    }
  }

  /** Over every run of connects and losses. */
  lemma {:induction false} ClientsUnique(cs: seq<ClientSlot>, es: seq<ClientEvent>)
    requires UniqueClients(cs)
    ensures UniqueClients(ClientRun(cs, es))
    decreases |es|
  {
    hide UniqueClients, ClientStep;
    if es != [] {
      ClientStepUnique(cs, es[0]);
      ClientsUnique(ClientStep(cs, es[0]), es[1..]);
    }
  }

  // ----- PUSH

  /** A map moves to the tail of the next list as it is sent. */
  function SendOne(c: Conn, id: MapId, pair: Pair, create: bool): (d: Conn) {
    if create then
      c.(mnew := if c.mnew == [] then [] else c.mnew[1..], unack := c.unack + [id], toBank := c.toBank + [Create(id, pair)])
    else
      c.(delreq := if c.delreq == [] then [] else c.delreq[1..], deleting := c.deleting + [id],
         toBank := c.toBank + [Remove(id, pair)])
  }

  /** The connection when the first `i` of the maps have been sent. */
  function SentSome(maps: map<MapId, Mapping>, c: Conn, ids: seq<MapId>, i: nat, create: bool): (d: Conn)
    requires i <= |ids| && forall id :: id in ids ==> id in maps
  {
    var q := c.toBank + Requested(maps, ids[..i], create);
    if create then c.(mnew := ids[i..], unack := c.unack + ids[..i], toBank := q)
    else c.(delreq := ids[i..], deleting := c.deleting + ids[..i], toBank := q)
  }

  lemma SentOneMore(maps: map<MapId, Mapping>, c: Conn, ids: seq<MapId>, i: nat, create: bool)
    requires i < |ids| && forall id :: id in ids ==> id in maps
    ensures ids[i] in maps
    ensures SentSome(maps, c, ids, i + 1, create) == SendOne(SentSome(maps, c, ids, i, create), ids[i], maps[ids[i]].pair, create)
  {
    hide Requested;
    Bookkeeping(ids, i);
    RequestedMore(maps, ids, i, create);
    var q := if create then Create(ids[i], maps[ids[i]].pair) else Remove(ids[i], maps[ids[i]].pair);
    Snoc(c.toBank, Requested(maps, ids[..i], create), q);
    SnocIds(if create then c.unack else c.deleting, ids[..i], ids[i]);
    assert ids[i..][1..] == ids[i + 1..];
  }

  lemma SendNothing(maps: map<MapId, Mapping>, c: Conn, ids: seq<MapId>, create: bool)
    requires forall id :: id in ids ==> id in maps
    requires ids == (if create then c.mnew else c.delreq)
    ensures SentSome(maps, c, ids, 0, create) == c
  {
    assert ids[0..] == ids;
  }

  lemma SentBoth(maps: map<MapId, Mapping>, maps': map<MapId, Mapping>, c: Conn)
    requires maps'.Keys == maps.Keys && forall id :: id in maps ==> maps'[id].pair == maps[id].pair
    requires forall id :: id in c.mnew ==> id in maps
    requires forall id :: id in c.delreq ==> id in maps
    ensures SentSome(maps', SentSome(maps, c, c.mnew, |c.mnew|, true), c.delreq, |c.delreq|, false) == Pushed(maps, c)
  {
    SamePairsRequested(maps, maps', c.delreq);
    assert c.mnew[..|c.mnew|] == c.mnew && c.delreq[..|c.delreq|] == c.delreq;
  }

  /** No listed map uses either slot of the pair. */
  predicate FreePair(maps: map<MapId, Mapping>, listed: seq<MapId>, p: Pair) {
    forall id :: id in listed ==> id in maps && maps[id].pair.bank != p.bank && maps[id].pair.client != p.client
  }

  class Server {
    var maps: map<MapId, Mapping>
    var listed: seq<MapId>
    var banks: seq<Bankd>
    var nextId: MapId
    var clients: seq<ClientSlot>

    ghost function View(): (s: System)
      reads this
    {
      System(maps, listed, ByBankId(banks), nextId)
    }

    /** Coherent; no two connected bankds have the same bank id, no two clients the same slot. */
    ghost predicate Valid()
      reads this
    {
      UniqueIds(banks) && UniqueClients(clients) && Inv(View())
    }

    constructor ()
      ensures Valid() && View() == INITIAL
    {
      maps, listed, banks, nextId, clients := map[], [], [], 0, [];
      new;
      InitialInv();
    }

    /** `_bankd_conn_by_id` */
    method FindBankd(b: U16) returns (r: Found)
      requires UniqueIds(banks)
      ensures r.At? ==> r.index < |banks| && banks[r.index].id == b
      ensures r.At? <==> b in View().banks
      ensures r.At? ==> View().banks[b] == banks[r.index].conn
    {
      var i := 0;
      while i < |banks|
        invariant 0 <= i <= |banks|
        invariant forall k :: 0 <= k < i ==> banks[k].id != b
      {
        if banks[i].id == b {
          assert banks[i] in banks;
          return At(i);
        }
        i := i + 1;
      }
      return Missing;
    }

    /** CLNTC_E_CLIENT_CONN: a client slot that is connected already is refused. */
    method ConnectClient(slot: ClientSlot) returns (ok: bool)
      requires Valid()
      modifies this`clients
      ensures Valid() && ok == (slot !in old(clients))
      ensures clients == ClientStep(old(clients), ClientConn(slot))
    {
      var i := 0;
      while i < |clients|
        invariant 0 <= i <= |clients|
        invariant forall k :: 0 <= k < i ==> clients[k] != slot
      {
        if clients[i] == slot {
          return false;
        }
        i := i + 1;
      }
      clients := clients + [slot];
      return true;
    }

    /** CLNTC_E_TCP_DOWN of a client: its connection leaves the list. */
    method ClientLost(i: nat)
      requires Valid() && i < |clients|
      modifies this`clients
      ensures Valid() && clients == ClientStep(old(clients), ClientDown(i))
      ensures old(clients[i]) !in clients
    {
      hide Inv, ByBankId;
      ClientStepUnique(clients, ClientDown(i));
      assert clients[i] !in Slots(ClientStep(clients, ClientDown(i)));
      clients := clients[..i] + clients[i + 1..];
    }

    /** `slotmap_by_bank` and `slotmap_by_client` in `slotmap_add`. */
    method SlotsInUse(p: Pair) returns (used: bool)
      requires forall id :: id in listed ==> id in maps
      ensures used <==> InUse(View(), p)
    {
      var i := 0;
      while i < |listed|
        invariant 0 <= i <= |listed|
        invariant forall k :: 0 <= k < i ==> maps[listed[k]].pair.bank != p.bank
      {
        assert listed[i] in listed;
        if maps[listed[i]].pair.bank == p.bank {
          return true;
        }
        i := i + 1;
      }
      var j := 0;
      while j < |listed|
        invariant 0 <= j <= |listed|
        invariant forall k :: 0 <= k < j ==> maps[listed[k]].pair.client != p.client
      {
        assert listed[j] in listed;
        if maps[listed[j]].pair.client == p.client {
          return true;
        }
        j := j + 1;
      }
      return false;
    }

    /** `api_cb_slotmaps_post` */
    method Post(p: Pair) returns (ok: bool)
      requires Valid()
      modifies this
      ensures Valid() && View() == PostMap(old(View()), p)
      ensures ok <==> old(FreePair(maps, listed, p))
      ensures ok ==> listed == old(listed) + [old(nextId)] && maps == old(maps)[old(nextId) := Mapping(p, NEW)]
      ensures !ok ==> View() == old(View())
    {
      hide Inv, InUse, ByBankId, UniqueIds, FreePair;
      UsedSlots(View(), p);
      PostInv(View(), p);
      ListedKnown(View());
      var used := SlotsInUse(p);
      if used {
        return false;
      }
      var f := FindBankd(p.bank.bank);
      var id := nextId;
      maps, listed, nextId := maps[id := Mapping(p, NEW)], listed + [id], id + 1;
      if f.At? {
        var c := banks[f.index].conn;
        Replaced(banks, f.index, c.(mnew := c.mnew + [id]));
        banks := banks[f.index := Bankd(p.bank.bank, c.(mnew := c.mnew + [id]))];
      }
      return true;
    }

    /** `_slotmap_mark_deleted` */
    method Mark(id: MapId)
      requires Valid() && id in listed && id in maps
      modifies this
      ensures Valid() && View() == MarkDeleted(old(View()), id)
    {
      hide Inv, ByBankId, Without, UniqueIds;
      DeletedInv(View(), id);
      var m := maps[id];
      var f := FindBankd(BankOf(m));
      listed := Without(listed, [id]);
      if m.state == NEW {
        maps := maps - {id};
        if f.At? {
          var c := banks[f.index].conn;
          Replaced(banks, f.index, c.(mnew := Without(c.mnew, [id])));
          banks := banks[f.index := Bankd(BankOf(m), c.(mnew := Without(c.mnew, [id])))];
        }
      } else if m.state == ACTIVE && f.At? {
        maps := maps[id := Mapping(m.pair, DELETE_REQ)];
        var c := banks[f.index].conn;
        var d := c.(active := Without(c.active, [id]), delreq := c.delreq + [id]);
        Replaced(banks, f.index, d);
        banks := banks[f.index := Bankd(BankOf(m), d)];
      }
    }

    /** `api_cb_slotmaps_del` */
    method Delete(slotId: nat) returns (found: bool)
      requires Valid()
      modifies this
      ensures Valid() && View() == DeleteMap(old(View()), slotId)
      ensures found <==> exists id :: id in old(listed) && id in old(maps) && SlotId(old(maps)[id].pair.bank) == slotId
      ensures !found ==> View() == old(View())
      ensures forall id :: id in listed <==>
        id in old(listed) && id in old(maps) && SlotId(old(maps)[id].pair.bank) != slotId
    {
      hide Inv, MarkDeleted, ByBankId;
      ListedKnown(View());
      NamedSlots(View(), slotId);
      var i := 0;
      while i < |listed|
        invariant 0 <= i <= |listed| && View() == old(View()) && Valid()
        invariant FindListed(View(), listed, slotId) == FindListed(View(), listed[i..], slotId)
      {
        assert listed[i] in listed;
        if SlotId(maps[listed[i]].pair.bank) == slotId {
          Mark(listed[i]);
          return true;
        }
        i := i + 1;
      }
      return false;
    }

    /** `api_cb_global_reset_post` */
    method GlobalReset()
      requires Valid()
      modifies this
      ensures Valid() && View() == ResetMaps(old(View()), old(listed))
    {
      hide Inv, MarkDeleted, ByBankId;
      ListedKnown(View());
      var ids := listed;
      ListedOnce(View());
      var i := 0;
      while i < |ids|
        invariant 0 <= i <= |ids| && Valid()
        invariant forall k :: i <= k < |ids| ==> ids[k] in listed
        invariant ResetMaps(old(View()), ids) == ResetMaps(View(), ids[i..])
      {
        ListedKnown(View());
        StillListed(View(), ids, i);
        Mark(ids[i]);
        i := i + 1;
      }
    }

    /** `_slotmap_state_change` for each map of a list, off any bank list. */
    method ChangeAll(ids: seq<MapId>, st: State)
      modifies this`maps
      ensures maps == SetState(old(maps), ids, st)
    {
      hide SetState;
      SetStateNone(maps, st);
      var i := 0;
      while i < |ids|
        invariant 0 <= i <= |ids| && maps == SetState(old(maps), ids[..i], st)
      {
        SetStateMore(old(maps), ids[..i], ids[i], st);
        Bookkeeping(ids, i);
        maps := SetState(maps, [ids[i]], st);
        i := i + 1;
      }
      assert ids[..i] == ids;
    }

    /** `_slotmap_del` for each map of a list. */
    method FreeAll(ids: seq<MapId>)
      modifies this`maps, this`listed
      ensures maps == old(maps) - (set id | id in ids) && listed == Without(old(listed), ids)
    {
      hide Without;
      WithoutNobody(listed);
      var i := 0;
      while i < |ids|
        invariant 0 <= i <= |ids|
        invariant maps == old(maps) - (set id | id in ids[..i]) && listed == Without(old(listed), ids[..i])
      {
        WithoutMore(old(listed), ids[..i], ids[i]);
        Bookkeeping(ids, i);
        maps, listed := maps - {ids[i]}, Without(listed, [ids[i]]);
        i := i + 1;
      }
      assert ids[..i] == ids;
    }

    /** CLNTC_E_PUSH: the creates, each map moving to the tail of maps_unack as it is sent, then the
        deletes. */
    method PushBankd(i: nat)
      requires Valid() && i < |banks|
      modifies this
      ensures Valid() && View() == PushMaps(old(View()), old(banks[i].id))
    {
      hide Inv, ByBankId, SetState, Requested, UniqueIds, Ids, SentSome, Pushed;
      ghost var s := View();
      var b, c0 := banks[i].id, banks[i].conn;
      HasId(banks, i);
      Lookup(banks, i);
      PushInv(s, b);
      InvLists(s, b);
      var c := SendAll(c0, c0.mnew, true);
      SentBoth(s.maps, maps, c0);
      SentLists(s.maps, c0);
      c := SendAll(c, c0.delreq, false);
      Replaced(banks, i, c);
      banks := banks[i := Bankd(b, c)];
    }

    /** One loop of the PUSH handler. */
    method SendAll(c0: Conn, ids: seq<MapId>, create: bool) returns (c: Conn)
      requires ids == (if create then c0.mnew else c0.delreq)
      requires forall id :: id in ids ==> id in maps
      modifies this`maps
      ensures maps == SetState(old(maps), ids, if create then UNACKNOWLEDGED else DELETING)
      ensures c == SentSome(old(maps), c0, ids, |ids|, create)
    {
      hide SetState, Requested, SentSome;
      var st := if create then UNACKNOWLEDGED else DELETING;
      c := c0;
      var i := 0;
      SetStateNone(maps, st);
      SendNothing(maps, c0, ids, create);
      while i < |ids|
        invariant 0 <= i <= |ids|
        invariant forall id :: id in ids ==> id in old(maps)
        invariant maps == SetState(old(maps), ids[..i], st)
        invariant c == SentSome(old(maps), c0, ids, i, create)
      {
        var id := ids[i];
        Bookkeeping(ids, i);
        StatePair(old(maps), ids[..i], st, id);
        SentOneMore(old(maps), c0, ids, i, create);
        SetStateMore(old(maps), ids[..i], id, st);
        c := SendOne(c, id, maps[id].pair, create);
        maps := SetState(maps, [id], st);
        i := i + 1;
      }
      assert ids[..i] == ids;
    }

    /** Link every listed map of the bank to its new connection. */
    method LinkListed(b: U16) returns (ids: seq<MapId>)
      ensures ids == OfBank(maps, listed, b)
    {
      hide OfBank;
      ids := [];
      var i := 0;
      assert listed[0..] == listed && [] + OfBank(maps, listed, b) == OfBank(maps, listed, b);
      while i < |listed|
        invariant 0 <= i <= |listed|
        invariant ids + OfBank(maps, listed[i..], b) == OfBank(maps, listed, b)
      {
        OfBankHead(maps, listed[i..], b);
        assert listed[i..][1..] == listed[i + 1..];
        if listed[i] in maps && BankOf(maps[listed[i]]) == b {
          SnocOfBank(ids, listed[i], OfBank(maps, listed[i + 1..], b));
          ids := ids + [listed[i]];
        }
        i := i + 1;
      }
      assert listed[i..] == [];
      OfNobody(maps, b);
      assert ids + [] == ids;
    }

    /** CLNTC_E_BANK_CONN: a bank id that is connected already is refused. */
    method ConnectBankd(b: U16, slots: nat, table: set<Pair>) returns (ok: bool)
      requires Valid()
      modifies this
      ensures Valid() && View() == Connect(old(View()), b, slots, table)
      ensures ok <==> b !in old(View()).banks
    {
      hide Inv, PushMaps, SetState, ByBankId, UniqueIds, UniqueClients, OfBank, Ids;
      var f := FindBankd(b);
      if f.At? {
        return false;
      }
      ghost var s := View();
      AssociatedInv(s, b, slots, table);
      ListedKnown(s);
      var ids := LinkListed(b);
      ChangeAll(ids, NEW);
      var c := Conn(slots, ids, [], [], [], [], [], [], table);
      Appended(banks, Bankd(b, c));
      banks := banks + [Bankd(b, c)];
      assert View() == Associated(s, b, slots, table);
      PushBankd(|banks| - 1);
      return true;
    }

    /** CLNTC_E_CREATE_MAP_RES and CLNTC_E_REMOVE_MAP_RES: the first entry is taken, and it is there;
        the assertion of the source that a removed map is DELETING holds. */
    method HandleReply(i: nat)
      requires Valid() && i < |banks| && banks[i].conn.toServer != []
      modifies this
      ensures Valid() && View() == ServerStep(old(View()), old(banks[i].id))
    {
      hide Inv, ByBankId, SetState, Without, UniqueIds, Ids;
      ghost var s := View();
      var b, c := banks[i].id, banks[i].conn;
      HasId(banks, i);
      Lookup(banks, i);
      ServerInv(s, b);
      FirstEntry(s, b);
      var d := c.(toServer := c.toServer[1..]);
      if c.toServer[0].CreateRes? {
        var id := c.unack[0];
        maps := SetState(maps, [id], ACTIVE);
        d := d.(unack := c.unack[1..], active := c.active + [id]);
      } else {
        var id := c.deleting[0];
        assert maps[id].state == DELETING;
        maps, listed := maps - {id}, Without(listed, [id]);
        d := d.(deleting := c.deleting[1..]);
      }
      Replaced(banks, i, d);
      banks := banks[i := Bankd(b, d)];
    }

    /** CLNTC_E_TCP_DOWN: `_unlink_all_slotmaps`, then the connection leaves the list. */
    method ConnectionLost(i: nat)
      requires Valid() && i < |banks|
      modifies this
      ensures Valid() && View() == Disconnect(old(View()), old(banks[i].id))
    {
      hide Inv, ByBankId, SetState, Without, UniqueIds, Ids;
      ghost var s := View();
      var b, c := banks[i].id, banks[i].conn;
      HasId(banks, i);
      Lookup(banks, i);
      DisconnectInv(s, b);
      ChangeAll(c.mnew, NEW);
      ChangeAll(c.unack, NEW);
      ChangeAll(c.active, NEW);
      ThreeLists(s.maps, c.mnew, c.unack, c.active);
      FreeAll(c.delreq);
      FreeAll(c.deleting);
      TwoLists(SetState(s.maps, c.mnew + c.unack + c.active, NEW), c.delreq, c.deleting);
      WithoutTwice(s.listed, c.delreq, c.deleting);
      Dropped(banks, i);
      banks := banks[..i] + banks[i + 1..];
    }
  }

  lemma ListedKnown(s: System)
    requires Inv(s)
    ensures forall id :: id in s.listed ==> id in s.maps
  {}

  lemma ListedOnce(s: System)
    requires Inv(s)
    ensures NoDup(s.listed)
  {}

  lemma StillListed(s: System, ids: seq<MapId>, i: nat)
    requires i < |ids| && NoDup(ids) && ids[i] in s.maps && forall k :: i <= k < |ids| ==> ids[k] in s.listed
    ensures ResetMaps(s, ids[i..]) == ResetMaps(MarkDeleted(s, ids[i]), ids[i + 1..])
    ensures forall k :: i + 1 <= k < |ids| ==> ids[k] in MarkDeleted(s, ids[i]).listed
  {}

  lemma UsedSlots(s: System, p: Pair)
    requires Inv(s)
    ensures !InUse(s, p) <==> FreePair(s.maps, s.listed, p)
  {
    ListedKnown(s);
    hide Inv;
  }

  /** What a DELETE by this id takes off the list. */
  lemma NamedSlots(s: System, slotId: nat)
    requires Inv(s)
    ensures var r := DeleteMap(s, slotId);
            && (FindListed(s, s.listed, slotId).At? <==>
                  exists id :: id in s.listed && id in s.maps && SlotId(s.maps[id].pair.bank) == slotId)
            && (FindListed(s, s.listed, slotId).Missing? ==> r == s)
            && forall id :: id in r.listed <==> id in s.listed && id in s.maps && SlotId(s.maps[id].pair.bank) != slotId
  {
    ListedKnown(s);
    SlotsDiffer(s);
    hide Inv, Without, SlotId;
    var f := FindListed(s, s.listed, slotId);
    if f.At? {
      UnlistedOne(s, f.index);
      assert forall id :: id in s.listed && id in s.maps && SlotId(s.maps[id].pair.bank) == slotId ==> SameSlot(s, id, f.index);
    }
  }

  lemma UnlistedOne(s: System, id: MapId)
    requires id in s.maps
    ensures forall x :: x in MarkDeleted(s, id).listed <==> x in s.listed && x != id
  {
    hide Without;
  }

  predicate SameSlot(s: System, i: MapId, j: MapId)
    requires i in s.maps && j in s.maps
  {
    SlotId(s.maps[i].pair.bank) == SlotId(s.maps[j].pair.bank)
  }

  lemma SlotsDiffer(s: System)
    requires Inv(s)
    ensures forall i, j :: i in s.listed && j in s.listed && i in s.maps && j in s.maps && SameSlot(s, i, j) ==> i == j
  {
    hide BanksInv, NoDup, SlotId;
    forall i, j | i in s.listed && j in s.listed && i in s.maps && j in s.maps && SameSlot(s, i, j) ensures i == j {
      SlotIdUnique(s.maps[i].pair.bank, s.maps[j].pair.bank);
    }
  }

  lemma InvLists(s: System, b: U16)
    requires Inv(s) && b in s.banks
    ensures KnownLists(s, b)
    ensures forall id :: id in s.banks[b].mnew ==> id in s.maps
    ensures forall id :: id in s.banks[b].delreq ==> id in s.maps
  {}

  lemma SamePairsRequested(maps: map<MapId, Mapping>, maps': map<MapId, Mapping>, ids: seq<MapId>)
    requires maps'.Keys == maps.Keys && forall id :: id in maps ==> maps'[id].pair == maps[id].pair
    requires forall id :: id in ids ==> id in maps
    ensures Requested(maps', ids, false) == Requested(maps, ids, false)
  {}

  lemma SentLists(maps: map<MapId, Mapping>, c: Conn)
    requires forall id :: id in c.mnew ==> id in maps
    ensures SentSome(maps, c, c.mnew, |c.mnew|, true).delreq == c.delreq
  {}

  lemma StatePair(maps: map<MapId, Mapping>, ids: seq<MapId>, st: State, id: MapId)
    requires id in maps
    ensures id in SetState(maps, ids, st) && SetState(maps, ids, st)[id].pair == maps[id].pair
  {}

  lemma Snoc(a: seq<Request>, b: seq<Request>, x: Request)
    ensures a + b + [x] == a + (b + [x])
  {}

  lemma SnocIds(a: seq<MapId>, b: seq<MapId>, x: MapId)
    ensures a + b + [x] == a + (b + [x])
  {}

  lemma SnocOfBank(a: seq<MapId>, x: MapId, rest: seq<MapId>)
    ensures a + ([x] + rest) == a + [x] + rest
  {}

  lemma OfNobody(maps: map<MapId, Mapping>, b: U16)
    ensures OfBank(maps, [], b) == []
  {}

  lemma OfBankHead(maps: map<MapId, Mapping>, ids: seq<MapId>, b: U16)
    requires ids != []
    ensures OfBank(maps, ids, b) ==
            (if ids[0] in maps && BankOf(maps[ids[0]]) == b then [ids[0]] else []) + OfBank(maps, ids[1..], b)
  {}

  lemma ThreeLists(maps: map<MapId, Mapping>, x: seq<MapId>, y: seq<MapId>, z: seq<MapId>)
    ensures SetState(SetState(SetState(maps, x, NEW), y, NEW), z, NEW) == SetState(maps, x + y + z, NEW)
  {}

  lemma TwoLists(maps: map<MapId, Mapping>, x: seq<MapId>, y: seq<MapId>)
    ensures maps - (set id | id in x) - (set id | id in y) == maps - (set id | id in x + y)
  {}

  lemma {:induction false} WithoutTwice(s: seq<MapId>, x: seq<MapId>, y: seq<MapId>)
    ensures Without(Without(s, x), y) == Without(s, x + y)
  {
    if s != [] {
      WithoutTwice(s[1..], x, y);
      if s[0] !in x {
        assert ([s[0]] + Without(s[1..], x))[1..] == Without(s[1..], x);
      }
    }
  }
}
