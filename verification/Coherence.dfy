/** List and state coherence in every reachable state, and that taking the first entry of a list
    is right. */
module Coherence {
  import opened SlotTable
  import opened Replication

  // ----- what a connection depends on

  /** The maps of bank `b` are the same, and so is which of its NEW maps are listed. */
  predicate SameFor(b: U16, maps: map<MapId, Mapping>, listed: seq<MapId>, maps': map<MapId, Mapping>,
                    listed': seq<MapId>) {
    && (forall id :: id in maps && BankOf(maps[id]) == b ==>
          id in maps' && maps'[id] == maps[id] && (maps[id].state == NEW ==> (id in listed <==> id in listed')))
    && (forall id :: id in maps' && BankOf(maps'[id]) == b ==> id in maps && maps[id] == maps'[id])
  }

  lemma BankFrame(b: U16, c: Conn, maps: map<MapId, Mapping>, listed: seq<MapId>, maps': map<MapId, Mapping>,
                  listed': seq<MapId>)
    requires BankInv(maps, listed, b, c) && SameFor(b, maps, listed, maps', listed')
    ensures BankInv(maps', listed', b, c)
  {}

  lemma OthersFrame(s: System, r: System, b: U16)
    requires BanksInv(s)
    requires forall d :: d in r.banks && d != b ==> d in s.banks && r.banks[d] == s.banks[d]
    requires forall d :: d in r.banks && d != b ==> SameFor(d, s.maps, s.listed, r.maps, r.listed)
    requires b in r.banks ==> BankInv(r.maps, r.listed, b, r.banks[b])
    ensures BanksInv(r)
  {
    hide BankInv, SameFor;
    forall d | d in r.banks ensures BankInv(r.maps, r.listed, d, r.banks[d]) {
      if d != b {
        BankFrame(d, s.banks[d], s.maps, s.listed, r.maps, r.listed);
      }
    }
  }

  // ----- requests and replies in flight

  lemma GroupLeft(a: seq<MapId>, b: seq<MapId>, c: seq<MapId>)
    ensures a + (b + c) == a + b + c
  {}

  lemma {:induction false} CreatesAskedConcat(p: seq<Request>, q: seq<Request>)
    ensures CreatesAsked(p + q) == CreatesAsked(p) + CreatesAsked(q)
    decreases |p|
  {
    if p == [] {
      assert p + q == q;
    } else {
      CreatesAskedConcat(p[1..], q);
      assert (p + q)[1..] == p[1..] + q;
      GroupLeft(if p[0].Create? then [p[0].about] else [], CreatesAsked(p[1..]), CreatesAsked(q));
    }
  }

  lemma {:induction false} RemovesAskedConcat(p: seq<Request>, q: seq<Request>)
    ensures RemovesAsked(p + q) == RemovesAsked(p) + RemovesAsked(q)
    decreases |p|
  {
    if p == [] {
      assert p + q == q;
    } else {
      RemovesAskedConcat(p[1..], q);
      assert (p + q)[1..] == p[1..] + q;
      GroupLeft(if p[0].Remove? then [p[0].about] else [], RemovesAsked(p[1..]), RemovesAsked(q));
    }
  }

  lemma {:induction false} CreatesAnsweredConcat(p: seq<Reply>, q: seq<Reply>)
    ensures CreatesAnswered(p + q) == CreatesAnswered(p) + CreatesAnswered(q)
    decreases |p|
  {
    if p == [] {
      assert p + q == q;
    } else {
      CreatesAnsweredConcat(p[1..], q);
      assert (p + q)[1..] == p[1..] + q;
      GroupLeft(if p[0].CreateRes? then [p[0].about] else [], CreatesAnswered(p[1..]), CreatesAnswered(q));
    }
  }

  lemma {:induction false} RemovesAnsweredConcat(p: seq<Reply>, q: seq<Reply>)
    ensures RemovesAnswered(p + q) == RemovesAnswered(p) + RemovesAnswered(q)
    decreases |p|
  {
    if p == [] {
      assert p + q == q;
    } else {
      RemovesAnsweredConcat(p[1..], q);
      assert (p + q)[1..] == p[1..] + q;
      GroupLeft(if p[0].RemoveRes? then [p[0].about] else [], RemovesAnswered(p[1..]), RemovesAnswered(q));
    }
  }

  lemma RequestedHead(maps: map<MapId, Mapping>, ids: seq<MapId>, create: bool)
    requires ids != [] && forall id :: id in ids ==> id in maps
    ensures var q := Requested(maps, ids, create);
            && q != [] && q[0] == (if create then Create(ids[0], maps[ids[0]].pair) else Remove(ids[0], maps[ids[0]].pair))
            && q[1..] == Requested(maps, ids[1..], create)
  {}

  lemma {:induction false} AskedOfCreates(maps: map<MapId, Mapping>, ids: seq<MapId>)
    requires forall id :: id in ids ==> id in maps
    ensures CreatesAsked(Requested(maps, ids, true)) == ids && RemovesAsked(Requested(maps, ids, true)) == []
    decreases |ids|
  {
    if ids != [] {
      AskedOfCreates(maps, ids[1..]);
      RequestedHead(maps, ids, true);
      hide Requested;
      assert ids == [ids[0]] + ids[1..];
    }
  }

  lemma {:induction false} AskedOfRemoves(maps: map<MapId, Mapping>, ids: seq<MapId>)
    requires forall id :: id in ids ==> id in maps
    ensures CreatesAsked(Requested(maps, ids, false)) == [] && RemovesAsked(Requested(maps, ids, false)) == ids
    decreases |ids|
  {
    if ids != [] {
      AskedOfRemoves(maps, ids[1..]);
      assert Requested(maps, ids, false)[1..] == Requested(maps, ids[1..], false);
      assert ids == [ids[0]] + ids[1..];
    }
  }

  lemma {:induction false} AskedAbout(q: seq<Request>, r: Request)
    requires r in q
    ensures r.Create? ==> r.about in CreatesAsked(q)
    ensures r.Remove? ==> r.about in RemovesAsked(q)
    decreases |q|
  {
    if r != q[0] {
      AskedAbout(q[1..], r);
    }
  }

  /** A request in flight is about a map that awaits its reply. */
  lemma InFlight(c: Conn, r: Request)
    requires Awaited(c) && r in c.toBank
    ensures r.Create? ==> r.about in c.unack
    ensures r.Remove? ==> r.about in c.deleting
  {
    AskedAbout(c.toBank, r);
  }

  // ----- sequences without repetition

  lemma NoDupAppend(s: seq<MapId>, t: seq<MapId>)
    requires NoDup(s) && NoDup(t) && forall x :: x in s ==> x !in t
    ensures NoDup(s + t)
  {
    var r := s + t;
    forall i, j | 0 <= i < j < |r| ensures r[i] != r[j] {
      assert i < |s| <= j ==> r[i] in s && r[j] in t;
    }
  }

  lemma NoDupTail(s: seq<MapId>)
    requires NoDup(s) && s != []
    ensures NoDup(s[1..]) && s[0] !in s[1..]
    ensures forall x :: x in s[1..] <==> x in s && x != s[0]
  {}

  // ----- lists under change

  /** Part of a list, its maps unchanged. */
  lemma ListPart(maps: map<MapId, Mapping>, maps': map<MapId, Mapping>, b: U16, ids: seq<MapId>, part: seq<MapId>,
                 st: State)
    requires OnList(maps, b, ids, st) && NoDup(part)
    requires forall id :: id in part ==> id in ids && id in maps' && maps'[id] == maps[id]
    ensures OnList(maps', b, part, st)
  {}

  /** A list whose maps all change state. */
  lemma ListMoved(maps: map<MapId, Mapping>, maps': map<MapId, Mapping>, b: U16, ids: seq<MapId>, from: State,
                  to: State)
    requires OnList(maps, b, ids, from)
    requires forall id :: id in ids ==> id in maps' && maps'[id] == Mapping(maps[id].pair, to)
    ensures OnList(maps', b, ids, to)
  {}

  lemma ListJoined(maps: map<MapId, Mapping>, b: U16, s: seq<MapId>, t: seq<MapId>, st: State)
    requires OnList(maps, b, s, st) && OnList(maps, b, t, st) && forall id :: id in s ==> id !in t
    ensures OnList(maps, b, s + t, st)
  {
    NoDupAppend(s, t);
    hide NoDup;
  }

  lemma SingleList(maps: map<MapId, Mapping>, b: U16, id: MapId, st: State)
    requires id in maps && BankOf(maps[id]) == b && maps[id].state == st
    ensures OnList(maps, b, [id], st)
  {}

  // ----- REST

  lemma PostGlobal(s: System, p: Pair)
    requires Inv(s) && !InUse(s, p)
    ensures GlobalInv(PostMap(s, p))
  {
    hide BanksInv;
    NoDupAppend(s.listed, [s.nextId]);
  }

  lemma PostLists(maps: map<MapId, Mapping>, b: U16, c: Conn, id: MapId, p: Pair)
    requires Lists(maps, b, c) && id !in maps && p.bank.bank == b
    ensures Lists(maps[id := Mapping(p, NEW)], b, c.(mnew := c.mnew + [id]))
  {}

  lemma ListsKnown(maps: map<MapId, Mapping>, b: U16, c: Conn)
    requires Lists(maps, b, c)
    ensures NoDup(c.mnew) && NoDup(c.unack) && NoDup(c.active) && NoDup(c.delreq) && NoDup(c.deleting)
    ensures forall id :: id in c.mnew ==> id in maps && BankOf(maps[id]) == b && maps[id].state == NEW
    ensures forall id :: id in c.unack ==> id in maps && BankOf(maps[id]) == b && maps[id].state == UNACKNOWLEDGED
    ensures forall id :: id in c.active ==> id in maps && BankOf(maps[id]) == b && maps[id].state == ACTIVE
    ensures forall id :: id in c.delreq ==> id in maps && BankOf(maps[id]) == b && maps[id].state == DELETE_REQ
    ensures forall id :: id in c.deleting ==> id in maps && BankOf(maps[id]) == b && maps[id].state == DELETING
  {}

  lemma PostLinked(maps: map<MapId, Mapping>, listed: seq<MapId>, b: U16, c: Conn, id: MapId, p: Pair)
    requires Linked(maps, listed, b, c) && id !in maps && p.bank.bank == b
    ensures Linked(maps[id := Mapping(p, NEW)], listed + [id], b, c.(mnew := c.mnew + [id]))
  {}

  lemma RequestsKept(maps: map<MapId, Mapping>, maps': map<MapId, Mapping>, b: U16, c: Conn, d: Conn)
    requires Requests(maps, b, c) && c.toBank == d.toBank
    requires forall r :: r in c.toBank && r.about in maps ==> r.about in maps' && maps'[r.about].pair == maps[r.about].pair
    ensures Requests(maps', b, d)
  {}

  lemma PostBank(s: System, p: Pair)
    requires Inv(s) && !InUse(s, p) && p.bank.bank in s.banks
    ensures var r := PostMap(s, p); BankInv(r.maps, r.listed, p.bank.bank, r.banks[p.bank.bank])
  {
    hide InUse, Awaited, Lists, Linked, Requests, NoDup;
    var r, b := PostMap(s, p), p.bank.bank;
    var c := s.banks[b];
    assert BankInv(s.maps, s.listed, b, c);
    PostLists(s.maps, b, c, s.nextId, p);
    PostLinked(s.maps, s.listed, b, c, s.nextId, p);
    AwaitedSame(c, r.banks[b]);
    RequestsKept(s.maps, r.maps, b, c, r.banks[b]);
  }

  lemma AwaitedSame(c: Conn, d: Conn)
    requires Awaited(c) && c.unack == d.unack && c.deleting == d.deleting
    requires c.toServer == d.toServer && c.toBank == d.toBank
    ensures Awaited(d)
  {}

  lemma PostElsewhere(s: System, p: Pair, d: U16)
    requires GlobalInv(s) && !InUse(s, p) && d != p.bank.bank
    ensures SameFor(d, s.maps, s.listed, PostMap(s, p).maps, PostMap(s, p).listed)
  {
    hide NoDup, Clash;
  }

  lemma PostInv(s: System, p: Pair)
    requires Inv(s)
    ensures Inv(PostMap(s, p))
  {
    hide InUse, BankInv, GlobalInv, BanksInv, SameFor;
    var r := PostMap(s, p);
    if !InUse(s, p) {
      PostGlobal(s, p);
      if p.bank.bank in s.banks {
        PostBank(s, p);
      }
      forall d | d in r.banks && d != p.bank.bank ensures SameFor(d, s.maps, s.listed, r.maps, r.listed) {
        PostElsewhere(s, p, d);
      }
      OthersFrame(s, r, p.bank.bank);
    }
  }

  lemma DeletedGlobal(s: System, id: MapId)
    requires Inv(s) && id in s.listed
    ensures GlobalInv(MarkDeleted(s, id))
  {
    hide BanksInv, NoDup, Clash;
  }

  lemma DeletedNewLists(maps: map<MapId, Mapping>, b: U16, c: Conn, id: MapId)
    requires Lists(maps, b, c) && id in maps && maps[id].state == NEW
    ensures Lists(maps - {id}, b, c.(mnew := Without(c.mnew, [id])))
  {}

  lemma DeletedNewLinked(maps: map<MapId, Mapping>, listed: seq<MapId>, b: U16, c: Conn, id: MapId)
    requires Linked(maps, listed, b, c)
    ensures Linked(maps - {id}, Without(listed, [id]), b, c.(mnew := Without(c.mnew, [id])))
  {}

  /** A map that awaits no reply is not the subject of a request in flight. */
  lemma NotInFlight(maps: map<MapId, Mapping>, b: U16, c: Conn, id: MapId)
    requires Lists(maps, b, c) && Awaited(c) && id in maps && maps[id].state !in {UNACKNOWLEDGED, DELETING}
    ensures forall q :: q in c.toBank ==> q.about != id
  {
    hide Lists, Awaited, NoDup;
    ListsKnown(maps, b, c);
    forall q | q in c.toBank ensures q.about != id {
      InFlight(c, q);
    }
  }

  lemma DeletedNew(s: System, id: MapId)
    requires Inv(s) && id in s.listed && s.maps[id].state == NEW && BankOf(s.maps[id]) in s.banks
    ensures id in s.maps
    ensures var r, b := MarkDeleted(s, id), BankOf(s.maps[id]); BankInv(r.maps, r.listed, b, r.banks[b])
  {
    hide Awaited, NoDup, Clash, Lists, Linked, Requests, Without;
    var r, b := MarkDeleted(s, id), BankOf(s.maps[id]);
    var c := s.banks[b];
    assert BankInv(s.maps, s.listed, b, c);
    NotInFlight(s.maps, b, c, id);
    DeletedNewLists(s.maps, b, c, id);
    DeletedNewLinked(s.maps, s.listed, b, c, id);
    RequestsKept(s.maps, r.maps, b, c, r.banks[b]);
    AwaitedSame(c, r.banks[b]);
  }

  lemma DeletedActiveLists(maps: map<MapId, Mapping>, b: U16, c: Conn, id: MapId)
    requires Lists(maps, b, c) && id in maps && maps[id].state == ACTIVE && BankOf(maps[id]) == b
    ensures Lists(maps[id := Mapping(maps[id].pair, DELETE_REQ)], b,
                  c.(active := Without(c.active, [id]), delreq := c.delreq + [id]))
  {}

  lemma DeletedActiveLinked(maps: map<MapId, Mapping>, listed: seq<MapId>, b: U16, c: Conn, id: MapId)
    requires Linked(maps, listed, b, c) && id in maps && maps[id].state == ACTIVE
    ensures Linked(maps[id := Mapping(maps[id].pair, DELETE_REQ)], Without(listed, [id]), b,
                   c.(active := Without(c.active, [id]), delreq := c.delreq + [id]))
  {}

  lemma DeletedActive(s: System, id: MapId)
    requires Inv(s) && id in s.listed && s.maps[id].state == ACTIVE && BankOf(s.maps[id]) in s.banks
    ensures id in s.maps
    ensures var r, b := MarkDeleted(s, id), BankOf(s.maps[id]); BankInv(r.maps, r.listed, b, r.banks[b])
  {
    hide Awaited, NoDup, Clash, Lists, Linked, Requests, Without;
    var r, b := MarkDeleted(s, id), BankOf(s.maps[id]);
    var c := s.banks[b];
    assert BankInv(s.maps, s.listed, b, c);
    DeletedActiveLists(s.maps, b, c, id);
    DeletedActiveLinked(s.maps, s.listed, b, c, id);
    RequestsKept(s.maps, r.maps, b, c, r.banks[b]);
    AwaitedSame(c, r.banks[b]);
  }

  lemma DeletedElsewhere(s: System, id: MapId, d: U16)
    requires Inv(s) && id in s.listed && d in s.banks
    requires d != BankOf(s.maps[id]) || s.maps[id].state == UNACKNOWLEDGED
    ensures SameFor(d, s.maps, s.listed, MarkDeleted(s, id).maps, MarkDeleted(s, id).listed)
  {
    hide NoDup, Clash, BanksInv, Without;
  }

  lemma DeletedInv(s: System, id: MapId)
    requires Inv(s) && id in s.listed
    ensures Inv(MarkDeleted(s, id))
  {
    hide BankInv, Clash, NoDup, SameFor, Without;
    var r, b := MarkDeleted(s, id), BankOf(s.maps[id]);
    DeletedGlobal(s, id);
    if b in s.banks {
      if s.maps[id].state == NEW {
        DeletedNew(s, id);
      } else if s.maps[id].state == ACTIVE {
        DeletedActive(s, id);
      } else {
        DeletedElsewhere(s, id, b);
        BankFrame(b, s.banks[b], s.maps, s.listed, r.maps, r.listed);
      }
    }
    forall d | d in r.banks && d != b ensures SameFor(d, s.maps, s.listed, r.maps, r.listed) {
      DeletedElsewhere(s, id, d);
    }
    OthersFrame(s, r, b);
  }

  lemma MarkDeletedListed(s: System, id: MapId, other: MapId)
    requires id in s.maps && other in s.listed && other != id
    ensures other in MarkDeleted(s, id).listed
  {}

  lemma {:induction false} ResetInv(s: System, ids: seq<MapId>)
    requires Inv(s) && NoDup(ids) && forall id :: id in ids ==> id in s.listed
    ensures Inv(ResetMaps(s, ids))
    decreases |ids|
  {
    if ids != [] {
      assert ids[0] in s.listed;
      var r := MarkDeleted(s, ids[0]);
      DeletedInv(s, ids[0]);
      NoDupTail(ids);
      forall id | id in ids[1..] ensures id in r.listed {
        MarkDeletedListed(s, ids[0], id);
      }
      hide Inv, MarkDeleted;
      ResetInv(r, ids[1..]);
    }
  }

  // ----- PUSH and connect

  lemma PushAwaited(maps: map<MapId, Mapping>, c: Conn)
    requires forall id :: id in c.mnew ==> id in maps
    requires forall id :: id in c.delreq ==> id in maps
    requires Awaited(c)
    ensures Awaited(Pushed(maps, c))
  {
    var p, q := Requested(maps, c.mnew, true), Requested(maps, c.delreq, false);
    CreatesAskedConcat(c.toBank + p, q);
    CreatesAskedConcat(c.toBank, p);
    RemovesAskedConcat(c.toBank + p, q);
    RemovesAskedConcat(c.toBank, p);
    AskedOfCreates(maps, c.mnew);
    AskedOfRemoves(maps, c.delreq);
    hide CreatesAsked, RemovesAsked, Requested;
    Regroup(CreatesAnswered(c.toServer), CreatesAsked(c.toBank), c.mnew);
    Regroup(RemovesAnswered(c.toServer), RemovesAsked(c.toBank), c.delreq);
  }

  lemma Regroup(a: seq<MapId>, b: seq<MapId>, c: seq<MapId>)
    ensures a + b + c == a + (b + c + [])
    ensures a + b + c == a + (b + [] + c)
  {}

  function PushedMaps(maps: map<MapId, Mapping>, c: Conn): (r: map<MapId, Mapping>) {
    SetState(SetState(maps, c.mnew, UNACKNOWLEDGED), c.delreq, DELETING)
  }

  lemma PushedMap(maps: map<MapId, Mapping>, b: U16, c: Conn)
    requires Lists(maps, b, c)
    ensures PushedMaps(maps, c).Keys == maps.Keys
    ensures forall id :: id in maps ==>
              PushedMaps(maps, c)[id] == if id in c.mnew then Mapping(maps[id].pair, UNACKNOWLEDGED)
                                         else if id in c.delreq then Mapping(maps[id].pair, DELETING)
                                         else maps[id]
  {}

  lemma PushLists(maps: map<MapId, Mapping>, b: U16, c: Conn)
    requires Lists(maps, b, c)
    requires forall id :: id in c.mnew ==> id in maps
    requires forall id :: id in c.delreq ==> id in maps
    ensures Lists(PushedMaps(maps, c), b, Pushed(maps, c))
  {
    hide OnList, NoDup, PushedMaps, Requested;
    var maps' := PushedMaps(maps, c);
    ListsKnown(maps, b, c);
    PushedMap(maps, b, c);
    ListPart(maps, maps', b, c.unack, c.unack, UNACKNOWLEDGED);
    ListPart(maps, maps', b, c.active, c.active, ACTIVE);
    ListPart(maps, maps', b, c.deleting, c.deleting, DELETING);
    ListMoved(maps, maps', b, c.mnew, NEW, UNACKNOWLEDGED);
    ListMoved(maps, maps', b, c.delreq, DELETE_REQ, DELETING);
    ListJoined(maps', b, c.unack, c.mnew, UNACKNOWLEDGED);
    ListJoined(maps', b, c.deleting, c.delreq, DELETING);
    EmptyList(maps', b, NEW);
    EmptyList(maps', b, DELETE_REQ);
  }

  lemma EmptyList(maps: map<MapId, Mapping>, b: U16, st: State)
    ensures OnList(maps, b, [], st)
  {}

  lemma PushLinked(maps: map<MapId, Mapping>, listed: seq<MapId>, b: U16, c: Conn)
    requires Lists(maps, b, c) && Linked(maps, listed, b, c)
    requires forall id :: id in c.mnew ==> id in maps
    requires forall id :: id in c.delreq ==> id in maps
    ensures Linked(PushedMaps(maps, c), listed, b, Pushed(maps, c))
  {}

  lemma PushRequests(maps: map<MapId, Mapping>, b: U16, c: Conn)
    requires Lists(maps, b, c) && Requests(maps, b, c)
    requires forall id :: id in c.mnew ==> id in maps
    requires forall id :: id in c.delreq ==> id in maps
    ensures Requests(PushedMaps(maps, c), b, Pushed(maps, c))
  {}

  lemma PushBank(s: System, b: U16)
    requires Inv(s) && b in s.banks
    ensures KnownLists(s, b)
    ensures var r := PushMaps(s, b); BankInv(r.maps, r.listed, b, r.banks[b])
  {
    hide Awaited, Clash, Lists, Linked, Requests, GlobalInv, Requested, SetState, NoDup;
    var c := s.banks[b];
    assert BankInv(s.maps, s.listed, b, c);
    ListsKnown(s.maps, b, c);
    PushLists(s.maps, b, c);
    PushLinked(s.maps, s.listed, b, c);
    PushRequests(s.maps, b, c);
    PushAwaited(s.maps, c);
  }

  lemma PushInv(s: System, b: U16)
    requires Inv(s)
    ensures Inv(PushMaps(s, b))
  {
    hide BankInv, GlobalInv, SameFor, SetState, Requested;
    if b in s.banks {
      var r := PushMaps(s, b);
      PushBank(s, b);
      PushGlobal(s, b);
      forall d | d in r.banks && d != b ensures SameFor(d, s.maps, s.listed, r.maps, r.listed) {
        PushElsewhere(s, b, d);
      }
      OthersFrame(s, r, b);
    }
  }

  /** The global part depends on pairs, listed states and the maps of banks not connected. */
  lemma GlobalFrame(s: System, maps: map<MapId, Mapping>, listed: seq<MapId>, banks: map<U16, Conn>)
    requires GlobalInv(s) && NoDup(listed)
    requires forall id :: id in listed ==> id in s.listed && id in maps && maps[id].state in {NEW, UNACKNOWLEDGED, ACTIVE}
    requires forall id :: id in maps ==> id in s.maps && maps[id].pair == s.maps[id].pair
    requires forall id :: id in maps && BankOf(maps[id]) !in banks ==> maps[id].state == NEW
    ensures GlobalInv(s.(maps := maps, listed := listed, banks := banks))
  {
    hide NoDup, Clash;
  }

  lemma GlobalParts(s: System)
    requires Inv(s)
    ensures GlobalInv(s) && NoDup(s.listed)
    ensures forall id :: id in s.listed ==> id in s.maps && s.maps[id].state in {NEW, UNACKNOWLEDGED, ACTIVE}
    ensures forall id :: id in s.maps && BankOf(s.maps[id]) !in s.banks ==> s.maps[id].state == NEW
  {}

  lemma BankParts(s: System, b: U16)
    requires Inv(s) && b in s.banks
    ensures BankInv(s.maps, s.listed, b, s.banks[b]) && Lists(s.maps, b, s.banks[b])
  {}

  /** All five lists hold maps of the bank. */
  lemma ListsOfBank(maps: map<MapId, Mapping>, b: U16, c: Conn)
    requires Lists(maps, b, c)
    ensures forall id :: id in c.mnew || id in c.unack || id in c.active || id in c.delreq || id in c.deleting ==>
      id in maps && BankOf(maps[id]) == b
  {
    hide NoDup;
  }

  lemma DeletesUnlisted(maps: map<MapId, Mapping>, b: U16, c: Conn, id: MapId)
    requires Lists(maps, b, c) && id in maps && maps[id].state in {NEW, UNACKNOWLEDGED, ACTIVE}
    ensures id !in c.delreq && id !in c.deleting
  {
    hide NoDup;
  }

  /** Listed maps keep a listed state, maps of banks not connected their state. */
  lemma PushStates(s: System, b: U16)
    requires Inv(s) && b in s.banks
    ensures var r := PushedMaps(s.maps, s.banks[b]);
            && (forall id :: id in s.listed ==> id in r && r[id].state in {NEW, UNACKNOWLEDGED, ACTIVE})
            && (forall id :: id in r && BankOf(r[id]) !in s.banks ==> r[id].state == NEW)
  {
    GlobalParts(s);
    BankParts(s, b);
    hide Inv, GlobalInv, NoDup, BankInv, Lists, PushedMaps;
    var c, r := s.banks[b], PushedMaps(s.maps, s.banks[b]);
    PushedMap(s.maps, b, c);
    ListsOfBank(s.maps, b, c);
    forall id | id in s.listed ensures id in r && r[id].state in {NEW, UNACKNOWLEDGED, ACTIVE} {
      DeletesUnlisted(s.maps, b, c, id);
    }
  }

  lemma PushGlobal(s: System, b: U16)
    requires Inv(s) && b in s.banks
    ensures GlobalInv(PushMaps(s, b))
  {
    GlobalParts(s);
    PushStates(s, b);
    PushedPairs(s.maps, s.banks[b]);
    PushedIs(s, b);
    hide Inv, GlobalInv, NoDup, PushedMaps, PushMaps;
    GlobalFrame(s, PushedMaps(s.maps, s.banks[b]), s.listed, PushMaps(s, b).banks);
  }

  lemma PushedPairs(maps: map<MapId, Mapping>, c: Conn)
    ensures PushedMaps(maps, c).Keys == maps.Keys
    ensures forall id :: id in maps ==> PushedMaps(maps, c)[id].pair == maps[id].pair
  {
    hide SetState;
  }

  lemma PushedIs(s: System, b: U16)
    requires Inv(s) && b in s.banks
    ensures var r := PushMaps(s, b);
            r.banks.Keys == s.banks.Keys && r == s.(maps := PushedMaps(s.maps, s.banks[b]), listed := s.listed, banks := r.banks)
  {
    BankParts(s, b);
    ListsOfBank(s.maps, b, s.banks[b]);
    hide Inv, BankInv, Lists, SetState, Requested;
  }

  lemma PushElsewhere(s: System, b: U16, d: U16)
    requires Inv(s) && b in s.banks && d != b
    ensures SameFor(d, s.maps, s.listed, PushMaps(s, b).maps, PushMaps(s, b).listed)
  {
    hide NoDup, Clash, Awaited, Requests, GlobalInv;
    assert BankInv(s.maps, s.listed, b, s.banks[b]);
  }

  lemma AssociatedInv(s: System, b: U16, slots: nat, table: set<Pair>)
    requires Inv(s) && b !in s.banks
    ensures Inv(Associated(s, b, slots, table))
    ensures Associated(s, b, slots, table).maps == s.maps
  {
    var r := Associated(s, b, slots, table);
    GlobalParts(s);
    AssociatedMaps(s, b, slots, table);
    AssociatedBank(s, b, slots, table);
    hide BankInv, NoDup, GlobalInv, SetState, OfBank, SameFor;
    GlobalFrame(s, s.maps, s.listed, r.banks);
    assert r == s.(maps := s.maps, listed := s.listed, banks := r.banks);
    forall d | d in r.banks && d != b ensures SameFor(d, s.maps, s.listed, r.maps, r.listed) {
      SameSame(d, s.maps, s.listed);
    }
    OthersFrame(s, r, b);
  }

  lemma AssociatedMaps(s: System, b: U16, slots: nat, table: set<Pair>)
    requires Inv(s) && b !in s.banks
    ensures Associated(s, b, slots, table).maps == s.maps
  {}

  lemma AssociatedBank(s: System, b: U16, slots: nat, table: set<Pair>)
    requires Inv(s) && b !in s.banks
    ensures var r := Associated(s, b, slots, table); BankInv(r.maps, r.listed, b, r.banks[b])
  {
    hide BanksInv, Clash;
    AssociatedMaps(s, b, slots, table);
  }

  lemma ConnectInv(s: System, b: U16, slots: nat, table: set<Pair>)
    requires Inv(s)
    ensures Inv(Connect(s, b, slots, table))
  {
    hide Inv, PushMaps, Associated;
    if b !in s.banks {
      AssociatedInv(s, b, slots, table);
      PushInv(Associated(s, b, slots, table), b);
    }
  }

  // ----- requests and replies

  lemma AskedHead(q: seq<Request>)
    requires q != []
    ensures CreatesAsked(q) == (if q[0].Create? then [q[0].about] else []) + CreatesAsked(q[1..])
    ensures RemovesAsked(q) == (if q[0].Remove? then [q[0].about] else []) + RemovesAsked(q[1..])
  {}

  lemma AnsweredHead(q: seq<Reply>)
    requires q != []
    ensures CreatesAnswered(q) == (if q[0].CreateRes? then [q[0].about] else []) + CreatesAnswered(q[1..])
    ensures RemovesAnswered(q) == (if q[0].RemoveRes? then [q[0].about] else []) + RemovesAnswered(q[1..])
  {}

  lemma AnswerTo(table: set<Pair>, b: U16, slots: nat, q: Request)
    ensures var a := Answer(table, b, slots, q); a.about == q.about && (a.CreateRes? <==> q.Create?)
  {}

  lemma BankdAwaited(c: Conn, b: U16)
    requires Awaited(c) && c.toBank != []
    ensures Awaited(c.(toBank := c.toBank[1..], toServer := c.toServer + [Answer(c.table, b, c.slots, c.toBank[0])],
                       table := Handle(c.table, b, c.slots, c.toBank[0])))
  {
    hide Handle, Answer, CreatesAnswered, RemovesAnswered, CreatesAsked, RemovesAsked;
    var q := c.toBank[0];
    var a := Answer(c.table, b, c.slots, q);
    AnswerTo(c.table, b, c.slots, q);
    CreatesAnsweredConcat(c.toServer, [a]);
    RemovesAnsweredConcat(c.toServer, [a]);
    OneAnswer(a);
    AskedHead(c.toBank);
    GroupLeft(CreatesAnswered(c.toServer), if q.Create? then [q.about] else [], CreatesAsked(c.toBank[1..]));
    GroupLeft(RemovesAnswered(c.toServer), if q.Remove? then [q.about] else [], RemovesAsked(c.toBank[1..]));
  }

  lemma OneAnswer(a: Reply)
    ensures CreatesAnswered([a]) == (if a.CreateRes? then [a.about] else [])
    ensures RemovesAnswered([a]) == (if a.RemoveRes? then [a.about] else [])
  {}

  lemma BankdBank(s: System, b: U16)
    requires Inv(s) && b in s.banks && s.banks[b].toBank != []
    ensures var r := BankdStep(s, b); BankInv(r.maps, r.listed, b, r.banks[b])
  {
    hide Awaited, Handle, Answer, NoDup, Clash, OnList, GlobalInv;
    var c := s.banks[b];
    assert BankInv(s.maps, s.listed, b, c);
    BankdAwaited(c, b);
  }

  lemma SameSame(b: U16, maps: map<MapId, Mapping>, listed: seq<MapId>)
    ensures SameFor(b, maps, listed, maps, listed)
  {}

  lemma BankdInv(s: System, b: U16)
    requires Inv(s)
    ensures Inv(BankdStep(s, b))
  {
    if b in s.banks && s.banks[b].toBank != [] {
      BankdGlobal(s, b);
      hide BankInv, SameFor, GlobalInv, Handle, Answer;
      var r := BankdStep(s, b);
      BankdBank(s, b);
      forall d | d in r.banks && d != b ensures SameFor(d, s.maps, s.listed, r.maps, r.listed) {
        SameSame(d, s.maps, s.listed);
      }
      OthersFrame(s, r, b);
    }
  }

  lemma BankdGlobal(s: System, b: U16)
    requires Inv(s)
    ensures GlobalInv(BankdStep(s, b))
  {
    GlobalParts(s);
    hide BanksInv, NoDup, Clash, Handle, Answer;
  }

  /** A reply never meets an empty list, and is about the first entry; the map of a remove reply is
      in state DELETING. */
  lemma FirstEntry(s: System, b: U16)
    requires Inv(s) && b in s.banks && s.banks[b].toServer != []
    ensures var c := s.banks[b];
            var a := c.toServer[0];
            && (a.CreateRes? ==> c.unack != [] && c.unack[0] == a.about)
            && (a.RemoveRes? ==> c.deleting != [] && c.deleting[0] == a.about)
            && (a.RemoveRes? ==> c.deleting[0] in s.maps && s.maps[c.deleting[0]].state == DELETING)
  {}

  lemma AnsweredTail(c: Conn)
    requires Awaited(c) && c.toServer != []
    ensures c.toServer[0].CreateRes? ==>
              && c.unack != []
              && c.unack[1..] == CreatesAnswered(c.toServer[1..]) + CreatesAsked(c.toBank)
              && c.deleting == RemovesAnswered(c.toServer[1..]) + RemovesAsked(c.toBank)
    ensures c.toServer[0].RemoveRes? ==>
              && c.deleting != []
              && c.unack == CreatesAnswered(c.toServer[1..]) + CreatesAsked(c.toBank)
              && c.deleting[1..] == RemovesAnswered(c.toServer[1..]) + RemovesAsked(c.toBank)
  {
    hide CreatesAsked, RemovesAsked, CreatesAnswered, RemovesAnswered;
    AnsweredHead(c.toServer);
    var rest, a := c.toServer[1..], c.toServer[0].about;
    TailOfSum(a, CreatesAnswered(rest), CreatesAsked(c.toBank));
    TailOfSum(a, RemovesAnswered(rest), RemovesAsked(c.toBank));
  }

  lemma TailOfSum(x: MapId, a: seq<MapId>, b: seq<MapId>)
    ensures ([x] + a + b)[1..] == a + b && [] + a + b == a + b
  {}

  lemma CreatedLists(maps: map<MapId, Mapping>, b: U16, c: Conn, rest: seq<Reply>)
    requires Lists(maps, b, c) && c.unack != []
    ensures Lists(SetState(maps, [c.unack[0]], ACTIVE), b,
                  c.(unack := c.unack[1..], active := c.active + [c.unack[0]], toServer := rest))
  {
    hide OnList, NoDup, SetState;
    var id := c.unack[0];
    var maps' := SetState(maps, [id], ACTIVE);
    ListsKnown(maps, b, c);
    assert id in c.unack;
    NoDupTail(c.unack);
    ListPart(maps, maps', b, c.mnew, c.mnew, NEW);
    ListPart(maps, maps', b, c.unack, c.unack[1..], UNACKNOWLEDGED);
    ListPart(maps, maps', b, c.active, c.active, ACTIVE);
    ListPart(maps, maps', b, c.delreq, c.delreq, DELETE_REQ);
    ListPart(maps, maps', b, c.deleting, c.deleting, DELETING);
    SingleList(maps', b, id, ACTIVE);
    ListJoined(maps', b, c.active, [id], ACTIVE);
  }

  lemma CreatedLinked(maps: map<MapId, Mapping>, listed: seq<MapId>, b: U16, c: Conn, rest: seq<Reply>)
    requires Linked(maps, listed, b, c) && Lists(maps, b, c) && c.unack != []
    ensures Linked(SetState(maps, [c.unack[0]], ACTIVE), listed, b,
                   c.(unack := c.unack[1..], active := c.active + [c.unack[0]], toServer := rest))
  {}

  lemma CreatedBank(s: System, b: U16)
    requires Inv(s) && b in s.banks && s.banks[b].toServer != [] && s.banks[b].toServer[0].CreateRes?
    ensures var r := ServerStep(s, b); b in r.banks && BankInv(r.maps, r.listed, b, r.banks[b])
  {
    hide Clash, NoDup, Lists, Linked, Requests, Awaited, SetState, GlobalInv;
    var r, c := ServerStep(s, b), s.banks[b];
    assert BankInv(s.maps, s.listed, b, c);
    AnsweredTail(c);
    CreatedLists(s.maps, b, c, c.toServer[1..]);
    CreatedLinked(s.maps, s.listed, b, c, c.toServer[1..]);
    RequestsKept(s.maps, r.maps, b, c, r.banks[b]);
    AwaitedIntro(r.banks[b]);
  }

  lemma AwaitedIntro(c: Conn)
    requires c.unack == CreatesAnswered(c.toServer) + CreatesAsked(c.toBank)
    requires c.deleting == RemovesAnswered(c.toServer) + RemovesAsked(c.toBank)
    ensures Awaited(c)
  {}

  lemma RemovedLists(maps: map<MapId, Mapping>, b: U16, c: Conn, rest: seq<Reply>)
    requires Lists(maps, b, c) && c.deleting != []
    ensures Lists(maps - {c.deleting[0]}, b, c.(deleting := c.deleting[1..], toServer := rest))
  {
    hide OnList, NoDup;
    var id := c.deleting[0];
    var maps' := maps - {id};
    ListsKnown(maps, b, c);
    assert id in c.deleting;
    NoDupTail(c.deleting);
    ListPart(maps, maps', b, c.mnew, c.mnew, NEW);
    ListPart(maps, maps', b, c.unack, c.unack, UNACKNOWLEDGED);
    ListPart(maps, maps', b, c.active, c.active, ACTIVE);
    ListPart(maps, maps', b, c.delreq, c.delreq, DELETE_REQ);
    ListPart(maps, maps', b, c.deleting, c.deleting[1..], DELETING);
  }

  lemma RemovedLinked(maps: map<MapId, Mapping>, listed: seq<MapId>, b: U16, c: Conn, rest: seq<Reply>)
    requires Linked(maps, listed, b, c) && Lists(maps, b, c) && c.deleting != []
    ensures Linked(maps - {c.deleting[0]}, Without(listed, [c.deleting[0]]), b,
                   c.(deleting := c.deleting[1..], toServer := rest))
  {}

  lemma RemovedBank(s: System, b: U16)
    requires Inv(s) && b in s.banks && s.banks[b].toServer != [] && s.banks[b].toServer[0].RemoveRes?
    ensures var r := ServerStep(s, b); b in r.banks && BankInv(r.maps, r.listed, b, r.banks[b])
  {
    hide Clash, NoDup, Lists, Linked, Requests, Awaited, SetState, GlobalInv, Without;
    var r, c := ServerStep(s, b), s.banks[b];
    assert BankInv(s.maps, s.listed, b, c);
    AnsweredTail(c);
    ListsKnown(s.maps, b, c);
    RemovedLists(s.maps, b, c, c.toServer[1..]);
    RemovedLinked(s.maps, s.listed, b, c, c.toServer[1..]);
    forall q | q in c.toBank ensures q.about != c.deleting[0] {
      RemovedIsAnswered(c, q);
      InFlight(c, q);
      assert c.deleting[0] in c.deleting;
    }
    RequestsKept(s.maps, r.maps, b, c, r.banks[b]);
    AwaitedIntro(r.banks[b]);
  }

  lemma RemovedIsAnswered(c: Conn, q: Request)
    requires Awaited(c) && c.toServer != [] && c.toServer[0].RemoveRes? && NoDup(c.deleting) && q in c.toBank
    ensures c.deleting != [] && (q.Remove? ==> q.about != c.deleting[0])
  {
    hide NoDup;
    AnsweredTail(c);
    NoDupTail(c.deleting);
    AskedAbout(c.toBank, q);
  }

  /** A listed state for one map of a connected bank keeps the global part. */
  lemma StateGlobal(s: System, id: MapId, st: State, banks: map<U16, Conn>)
    requires GlobalInv(s) && id in s.maps && BankOf(s.maps[id]) in banks && banks.Keys == s.banks.Keys
    requires st in {NEW, UNACKNOWLEDGED, ACTIVE}
    ensures GlobalInv(s.(maps := SetState(s.maps, [id], st), banks := banks))
  {
    hide NoDup, Clash, SetState;
  }

  /** So does freeing a map. */
  lemma FreeGlobal(s: System, id: MapId, banks: map<U16, Conn>)
    requires GlobalInv(s) && banks.Keys == s.banks.Keys
    ensures GlobalInv(s.(maps := s.maps - {id}, listed := Without(s.listed, [id]), banks := banks))
  {
    hide NoDup, Clash, Without;
  }

  lemma ServerGlobal(s: System, b: U16)
    requires Inv(s)
    ensures GlobalInv(ServerStep(s, b))
  {
    hide GlobalInv, NoDup, Awaited, Requests, Lists, Linked, SetState, Without;
    if b in s.banks && s.banks[b].toServer != [] {
      var c, r := s.banks[b], ServerStep(s, b);
      assert BankInv(s.maps, s.listed, b, c);
      ListsKnown(s.maps, b, c);
      if c.toServer[0].CreateRes? && c.unack != [] {
        assert c.unack[0] in c.unack;
        StateGlobal(s, c.unack[0], ACTIVE, r.banks);
      } else if c.toServer[0].RemoveRes? && c.deleting != [] {
        FreeGlobal(s, c.deleting[0], r.banks);
      }
    }
  }

  lemma StateElsewhere(d: U16, maps: map<MapId, Mapping>, listed: seq<MapId>, id: MapId, st: State)
    requires id in maps && BankOf(maps[id]) != d
    ensures SameFor(d, maps, listed, SetState(maps, [id], st), listed)
  {
    hide SetState;
  }

  lemma FreeElsewhere(d: U16, maps: map<MapId, Mapping>, listed: seq<MapId>, id: MapId)
    requires id in maps && BankOf(maps[id]) != d
    ensures SameFor(d, maps, listed, maps - {id}, Without(listed, [id]))
  {
    hide Without;
  }

  lemma ServerElsewhere(s: System, b: U16, d: U16)
    requires Inv(s) && b in s.banks && d != b
    ensures SameFor(d, s.maps, s.listed, ServerStep(s, b).maps, ServerStep(s, b).listed)
  {
    BankParts(s, b);
    var c := s.banks[b];
    ListsOfBank(s.maps, b, c);
    hide Inv, BankInv, Lists, SetState, Without, SameFor;
    SameSame(d, s.maps, s.listed);
    if c.toServer != [] {
      if c.toServer[0].CreateRes? && c.unack != [] {
        StateElsewhere(d, s.maps, s.listed, c.unack[0], ACTIVE);
      } else if c.toServer[0].RemoveRes? && c.deleting != [] {
        FreeElsewhere(d, s.maps, s.listed, c.deleting[0]);
      }
    }
  }

  lemma ServerInv(s: System, b: U16)
    requires Inv(s)
    ensures Inv(ServerStep(s, b))
  {
    hide BankInv, GlobalInv, SameFor, SetState, Without;
    ServerGlobal(s, b);
    if b in s.banks && s.banks[b].toServer != [] {
      var r := ServerStep(s, b);
      if s.banks[b].toServer[0].CreateRes? {
        CreatedBank(s, b);
      } else {
        RemovedBank(s, b);
      }
      forall d | d in r.banks && d != b ensures SameFor(d, s.maps, s.listed, r.maps, r.listed) {
        ServerElsewhere(s, b, d);
      }
      OthersFrame(s, r, b);
    }
  }

  // ----- loss of a connection

  lemma DisconnectedMap(maps: map<MapId, Mapping>, b: U16, c: Conn)
    requires Lists(maps, b, c)
    ensures var r := SetState(maps, c.mnew + c.unack + c.active, NEW) - (set id | id in c.delreq + c.deleting);
            && (forall id :: id in r <==> id in maps && id !in c.delreq && id !in c.deleting)
            && (forall id :: id in r ==>
                  r[id] == if id in c.mnew || id in c.unack || id in c.active then Mapping(maps[id].pair, NEW) else maps[id])
  {}

  /** The maps that are left of the lost connection are NEW, and so are those of banks not connected. */
  lemma DownStates(s: System, b: U16)
    requires Inv(s) && b in s.banks
    ensures var r := Disconnect(s, b);
            forall id :: id in r.maps && BankOf(r.maps[id]) !in r.banks ==> r.maps[id].state == NEW
  {
    BankParts(s, b);
    GlobalParts(s);
    hide Inv, GlobalInv, NoDup, Lists, Awaited, Requests, SetState, Without;
  }

  lemma DownListedOf(maps: map<MapId, Mapping>, listed: seq<MapId>, kept: seq<MapId>, gone: seq<MapId>)
    requires NoDup(listed)
    requires forall id :: id in listed ==> id in maps && maps[id].state in {NEW, UNACKNOWLEDGED, ACTIVE}
    ensures var maps', listed' := SetState(maps, kept, NEW) - (set id | id in gone), Without(listed, gone);
            && NoDup(listed')
            && (forall id :: id in listed' ==> id in listed && id in maps' && maps'[id].state in {NEW, UNACKNOWLEDGED, ACTIVE})
            && (forall id :: id in maps' ==> id in maps && maps'[id].pair == maps[id].pair)
  {
    hide NoDup, SetState, Without;
  }

  lemma DownListed(s: System, b: U16)
    requires Inv(s) && b in s.banks
    ensures var r := Disconnect(s, b);
            && NoDup(r.listed)
            && (forall id :: id in r.listed ==> id in s.listed && id in r.maps && r.maps[id].state in {NEW, UNACKNOWLEDGED, ACTIVE})
            && (forall id :: id in r.maps ==> id in s.maps && r.maps[id].pair == s.maps[id].pair)
  {
    GlobalParts(s);
    hide Inv, GlobalInv, NoDup, SetState, Without;
    var c := s.banks[b];
    DownListedOf(s.maps, s.listed, c.mnew + c.unack + c.active, c.delreq + c.deleting);
  }

  lemma DisconnectGlobal(s: System, b: U16)
    requires Inv(s) && b in s.banks
    ensures GlobalInv(Disconnect(s, b))
  {
    GlobalParts(s);
    DownStates(s, b);
    DownListed(s, b);
    var r := Disconnect(s, b);
    assert r == s.(maps := r.maps, listed := r.listed, banks := r.banks);
    hide Inv, GlobalInv, NoDup, Disconnect;
    GlobalFrame(s, r.maps, r.listed, r.banks);
  }

  lemma DownElsewhere(d: U16, maps: map<MapId, Mapping>, listed: seq<MapId>, kept: seq<MapId>, gone: seq<MapId>)
    requires forall id :: id in kept || id in gone ==> id in maps && BankOf(maps[id]) != d
    ensures SameFor(d, maps, listed, SetState(maps, kept, NEW) - (set id | id in gone), Without(listed, gone))
  {
    hide SetState, Without;
  }

  lemma DisconnectElsewhere(s: System, b: U16, d: U16)
    requires Inv(s) && b in s.banks && d != b
    ensures SameFor(d, s.maps, s.listed, Disconnect(s, b).maps, Disconnect(s, b).listed)
  {
    var c := s.banks[b];
    BankParts(s, b);
    ListsOfBank(s.maps, b, c);
    hide Inv, BankInv, Lists, SetState, Without, SameFor;
    DownElsewhere(d, s.maps, s.listed, c.mnew + c.unack + c.active, c.delreq + c.deleting);
  }

  lemma DisconnectInv(s: System, b: U16)
    requires Inv(s)
    ensures Inv(Disconnect(s, b))
  {
    hide BankInv, GlobalInv, SameFor, SetState, Without;
    if b in s.banks {
      var r := Disconnect(s, b);
      DisconnectGlobal(s, b);
      forall d | d in r.banks && d != b ensures SameFor(d, s.maps, s.listed, r.maps, r.listed) {
        DisconnectElsewhere(s, b, d);
      }
      OthersFrame(s, r, b);
    }
  }

  // ----- every run

  lemma StepInv(s: System, e: Event)
    requires Inv(s)
    ensures Inv(Step(s, e))
  {
    match e
    case Post(p) => PostInv(s, p);
    case RestDelete(id) =>
      if FindListed(s, s.listed, id).At? {
        DeletedInv(s, FindListed(s, s.listed, id).index);
      }
    case GlobalReset => ResetInv(s, s.listed);
    case BankConn(b, n, t) => ConnectInv(s, b, n, t);
    case Push(b) => PushInv(s, b);
    case BankdRx(b) => BankdInv(s, b);
    case ServerRx(b) => ServerInv(s, b);
    case TcpDown(b) => DisconnectInv(s, b);
  }

  /** Every reachable state is coherent. */
  lemma {:induction false} RunInv(s: System, es: seq<Event>)
    requires Inv(s)
    ensures Inv(Run(s, es))
    decreases |es|
  {
    hide Inv, Step;
    if es != [] {
      StepInv(s, es[0]);
      RunInv(Step(s, es[0]), es[1..]);
    }
  }

  lemma InitialInv()
    ensures Inv(INITIAL)
  {}

  function ListFor(c: Conn, st: State): (ids: seq<MapId>) {
    match st
    case NEW => c.mnew
    case UNACKNOWLEDGED => c.unack
    case ACTIVE => c.active
    case DELETE_REQ => c.delreq
    case DELETING => c.deleting
  }

  /** In every reachable state: a map is on one list of one connection, that of its bank and its
      state (a NEW map only while it is listed); a map being deleted is not listed; the bank of a
      map that is not NEW is connected. */
  lemma ReachableCoherent(es: seq<Event>, b: U16, st: State, id: MapId)
    ensures var s := Run(INITIAL, es);
            && (b in s.banks ==>
                  (id in ListFor(s.banks[b], st) <==>
                     && id in s.maps && BankOf(s.maps[id]) == b && s.maps[id].state == st
                     && (st == NEW ==> id in s.listed)))
            && (id in s.maps && s.maps[id].state in {DELETE_REQ, DELETING} ==> id !in s.listed)
            && (id in s.maps && s.maps[id].state != NEW ==> BankOf(s.maps[id]) in s.banks)
  {
    InitialInv();
    RunInv(INITIAL, es);
    var s := Run(INITIAL, es);
    hide Run;
    GlobalParts(s);
    if b in s.banks {
      OnItsList(s, b, st, id);
    }
    hide Inv;
  }

  lemma OnItsList(s: System, b: U16, st: State, id: MapId)
    requires Inv(s) && b in s.banks
    ensures id in ListFor(s.banks[b], st) <==>
              && id in s.maps && BankOf(s.maps[id]) == b && s.maps[id].state == st
              && (st == NEW ==> id in s.listed)
  {
    BankParts(s, b);
    GlobalParts(s);
    hide Inv, GlobalInv, NoDup, Awaited, Requests;
  }
}
