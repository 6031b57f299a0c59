/** What each step of the replication protocol does, by its effect: what a REST caller, a bankd or an
    operator sees happen, in every coherent state. */
module ServerLaws {
  import opened SlotTable
  import opened Replication
  import opened Coherence
  import opened Agreement
  import opened Replicas

  // ----- POST

  /** No listed map uses either slot. */
  predicate Free(s: System, p: Pair) {
    forall id :: id in s.listed && id in s.maps ==> s.maps[id].pair.bank != p.bank && s.maps[id].pair.client != p.client
  }

  /** A POST of a free pair lists it at the tail as NEW, whether or not its bankd is connected, and
      changes no other map; any other POST changes nothing. */
  lemma PostEffect(s: System, p: Pair)
    requires Inv(s)
    ensures s.nextId !in s.maps && s.nextId !in s.listed
    ensures Free(s, p) ==>
              var r := Step(s, Post(p));
              && r.listed == s.listed + [s.nextId] && r.maps == s.maps[s.nextId := Mapping(p, NEW)]
              && r.nextId > s.nextId && r.banks.Keys == s.banks.Keys
              && (forall b :: b in s.banks ==>
                    r.banks[b] == if b == p.bank.bank then s.banks[b].(mnew := s.banks[b].mnew + [s.nextId]) else s.banks[b])
    ensures !Free(s, p) ==> Step(s, Post(p)) == s
  {
    KnownOld(s);
    ListedAllKnown(s);
    hide Inv;
    assert Free(s, p) <==> !InUse(s, p);
  }

  /** A mapping posted while its bankd is away is the last create of the next connect. */
  lemma PostThenConnect(s: System, p: Pair, slots: nat, table: set<Pair>)
    requires Inv(s) && Free(s, p) && p.bank.bank !in s.banks
    ensures var r := Step(Step(s, Post(p)), BankConn(p.bank.bank, slots, table));
            var b := p.bank.bank;
            b in r.banks && r.banks[b].toBank != [] && r.banks[b].toBank[|r.banks[b].toBank| - 1] == Create(s.nextId, p)
  {
    hide Inv, Connect, Requested, NoClashes, Pairs, Distinct, InUse, Free;
    var q, b := Step(s, Post(p)), p.bank.bank;
    PostEffect(s, p);
    PostInv(s, p);
    ConnectedMaps(q, b, slots, table);
    OfBankLast(q.maps, s.listed, s.nextId, b);
    LastRequested(q.maps, OfBank(q.maps, q.listed, b));
  }

  lemma OfBankHead(maps: map<MapId, Mapping>, ids: seq<MapId>, b: U16)
    requires ids != []
    ensures OfBank(maps, ids, b) ==
            (if ids[0] in maps && BankOf(maps[ids[0]]) == b then [ids[0]] else []) + OfBank(maps, ids[1..], b)
    ensures OfBank(maps, [], b) == []
  {}

  lemma {:induction false} OfBankLast(maps: map<MapId, Mapping>, ids: seq<MapId>, id: MapId, b: U16)
    requires id in maps && BankOf(maps[id]) == b
    ensures OfBank(maps, ids + [id], b) == OfBank(maps, ids, b) + [id]
    decreases |ids|
  {
    hide OfBank;
    OfBankHead(maps, ids + [id], b);
    if ids == [] {
      assert (ids + [id])[1..] == [] && (ids + [id])[0] == id;
    } else {
      OfBankHead(maps, ids, b);
      OfBankLast(maps, ids[1..], id, b);
      assert (ids + [id])[1..] == ids[1..] + [id] && (ids + [id])[0] == ids[0];
    }
  }

  lemma LastRequested(maps: map<MapId, Mapping>, ids: seq<MapId>)
    requires ids != [] && forall id :: id in ids ==> id in maps
    ensures var q := Requested(maps, ids, true);
            q != [] && q[|q| - 1] == Create(ids[|ids| - 1], maps[ids[|ids| - 1]].pair)
  {}

  // ----- PUSH

  /** A PUSH sends every pending create in the order of the list, then every pending delete, and
      leaves nothing pending. */
  lemma PushEffect(s: System, b: U16)
    requires Inv(s) && b in s.banks
    ensures forall id :: id in s.banks[b].mnew + s.banks[b].delreq ==> id in s.maps
    ensures var c, r := s.banks[b], Step(s, Push(b));
            && b in r.banks && r.listed == s.listed
            && |r.banks[b].toBank| == |c.toBank| + |c.mnew| + |c.delreq| && r.banks[b].toBank[..|c.toBank|] == c.toBank
            && (forall i :: 0 <= i < |c.mnew| ==>
                  r.banks[b].toBank[|c.toBank| + i] == Create(c.mnew[i], s.maps[c.mnew[i]].pair))
            && (forall i :: 0 <= i < |c.delreq| ==>
                  r.banks[b].toBank[|c.toBank| + |c.mnew| + i] == Remove(c.delreq[i], s.maps[c.delreq[i]].pair))
            && r.banks[b].mnew == [] && r.banks[b].delreq == []
            && r.banks[b].unack == c.unack + c.mnew && r.banks[b].deleting == c.deleting + c.delreq
            && r.banks[b].active == c.active && r.banks[b].table == c.table && r.banks[b].toServer == c.toServer
  {
    hide Inv, SetState, Requested;
    InvParts(s, b);
    var c := s.banks[b];
    Queued(s.maps, c.toBank, c.mnew, c.delreq);
  }

  lemma Queued(maps: map<MapId, Mapping>, a: seq<Request>, x: seq<MapId>, y: seq<MapId>)
    requires forall id :: id in x ==> id in maps
    requires forall id :: id in y ==> id in maps
    ensures var q := a + Requested(maps, x, true) + Requested(maps, y, false);
            && |q| == |a| + |x| + |y| && q[..|a|] == a
            && (forall i :: 0 <= i < |x| ==> x[i] in maps && q[|a| + i] == Create(x[i], maps[x[i]].pair))
            && (forall i :: 0 <= i < |y| ==> y[i] in maps && q[|a| + |x| + i] == Remove(y[i], maps[y[i]].pair))
  {
    hide Requested;
    forall i | 0 <= i < |x| ensures x[i] in maps {
      assert x[i] in x;
    }
    forall i | 0 <= i < |y| ensures y[i] in maps {
      assert y[i] in y;
    }
  }

  /** So a mapping posted while its bankd is connected is created by the next PUSH. */
  lemma PostThenPush(s: System, p: Pair)
    requires Inv(s) && Free(s, p) && p.bank.bank in s.banks
    ensures var b := p.bank.bank;
            var r := Step(Step(s, Post(p)), Push(b));
            b in r.banks && Create(s.nextId, p) in r.banks[b].toBank
  {
    hide Inv, Free, PostMap, PushMaps;
    var b, q := p.bank.bank, Step(s, Post(p));
    PostEffect(s, p);
    PostInv(s, p);
    PushEffect(q, b);
    var c := q.banks[b];
    var i := |c.mnew| - 1;
    assert c.mnew[i] == s.nextId;
    assert Step(q, Push(b)).banks[b].toBank[|c.toBank| + i] == Create(s.nextId, p);
  }

  // ----- DELETE

  predicate Named(s: System, id: MapId, slotId: nat) {
    id in s.listed && id in s.maps && SlotId(s.maps[id].pair.bank) == slotId
  }

  /** A DELETE that names no listed map changes nothing; otherwise it names exactly one. */
  lemma DeleteNames(s: System, slotId: nat)
    requires Inv(s)
    ensures (forall id :: !Named(s, id, slotId)) ==> Step(s, RestDelete(slotId)) == s
    ensures forall id :: Named(s, id, slotId) ==> id in s.maps && Step(s, RestDelete(slotId)) == MarkDeleted(s, id)
    ensures forall i, j :: Named(s, i, slotId) && Named(s, j, slotId) ==> i == j
  {
    ListedAllKnown(s);
    hide Inv, MarkDeleted, SlotId;
    var f := FindListed(s, s.listed, slotId);
    if f.At? {
      assert Named(s, f.index, slotId);
      OneListed(s, f.index);
    }
  }

  /** What became of one map, and that nothing else changed. */
  predicate Dropped(s: System, r: System, id: MapId)
    requires id in s.maps
  {
    var m, b := s.maps[id], BankOf(s.maps[id]);
    && r.listed == Without(s.listed, [id]) && r.banks.Keys == s.banks.Keys && r.nextId == s.nextId
    && (forall d :: d in s.banks && d != b ==> r.banks[d] == s.banks[d])
    && (m.state == NEW ==>
          && r.maps == s.maps - {id}
          && (b in s.banks ==> r.banks[b] == s.banks[b].(mnew := Without(s.banks[b].mnew, [id]))))
    && (m.state == UNACKNOWLEDGED ==> r.maps == s.maps && r.banks == s.banks)
    && (m.state == ACTIVE && b in s.banks ==>
          && r.maps == s.maps[id := Mapping(m.pair, DELETE_REQ)]
          && r.banks[b] == s.banks[b].(active := Without(s.banks[b].active, [id]), delreq := s.banks[b].delreq + [id]))
  }

  lemma MarkEffect(s: System, id: MapId)
    requires id in s.maps
    ensures Dropped(s, MarkDeleted(s, id), id)
  {
    hide Without;
  }

  /** A map that was not sent yet is gone at once, one that bankd holds is to be removed from it, and
      one that is on its way is only taken off the list. Nothing else changes. */
  lemma DeleteEffect(s: System, slotId: nat, id: MapId)
    requires Inv(s) && Named(s, id, slotId)
    ensures Dropped(s, Step(s, RestDelete(slotId)), id) && id !in Step(s, RestDelete(slotId)).listed
    ensures s.maps[id].state in {NEW, UNACKNOWLEDGED, ACTIVE} && (s.maps[id].state == ACTIVE ==> BankOf(s.maps[id]) in s.banks)
  {
    GlobalParts(s);
    hide Inv, Without, Dropped, MarkDeleted;
    DeleteNames(s, slotId);
    MarkEffect(s, id);
    MarkedUnlisted(s, id);
  }

  /** So an ACTIVE map deleted through REST is removed from bankd by the next PUSH. */
  lemma DeleteThenPush(s: System, slotId: nat, id: MapId)
    requires Inv(s) && Named(s, id, slotId) && s.maps[id].state == ACTIVE
    ensures var b := BankOf(s.maps[id]);
            var r := Step(Step(s, RestDelete(slotId)), Push(b));
            b in r.banks && Remove(id, s.maps[id].pair) in r.banks[b].toBank
  {
    hide Inv, PushMaps, DeleteMap, Without;
    var b, q := BankOf(s.maps[id]), Step(s, RestDelete(slotId));
    DeleteEffect(s, slotId, id);
    StepInv(s, RestDelete(slotId));
    PushEffect(q, b);
    var c := q.banks[b];
    var i := |c.delreq| - 1;
    assert c.delreq[i] == id;
    assert Step(q, Push(b)).banks[b].toBank[|c.toBank| + |c.mnew| + i] == Remove(id, s.maps[id].pair);
  }

  // ----- requests and replies

  /** The answer is about the request, and its code is ok exactly when bankd's list handler says so. */
  lemma AnswerIsCode(list: seq<Pair>, b: U16, slots: nat, q: Request)
    requires OneToOne(list)
    ensures var a, t := Answer(Contents(list), b, slots, q), Handle(Contents(list), b, slots, q);
            && a.about == q.about && (a.CreateRes? <==> q.Create?)
            && (q.Create? ==>
                  (a.ok <==> BankdCreate(list, b, slots, q.pair).0 == Ok) && t == Contents(BankdCreate(list, b, slots, q.pair).1))
            && (q.Remove? ==>
                  (a.ok <==> BankdRemove(list, b, slots, q.pair).0 == Ok) && t == Contents(BankdRemove(list, b, slots, q.pair).1))
  {
    hide BankdCreate, BankdRemove, OneToOne, Created, Removed;
    BankdCreateContents(list, b, slots, q.pair);
    BankdRemoveContents(list, b, slots, q.pair);
  }

  /** bankd takes the oldest request and answers it; nothing else changes. */
  lemma BankdEffect(s: System, b: U16)
    requires b in s.banks
    ensures var c, r := s.banks[b], Step(s, BankdRx(b));
            && r.maps == s.maps && r.listed == s.listed && r.nextId == s.nextId && r.banks.Keys == s.banks.Keys
            && (forall d :: d in s.banks && d != b ==> r.banks[d] == s.banks[d])
            && (c.toBank == [] ==> r.banks[b] == c)
            && (c.toBank != [] ==>
                  && c.toBank == [c.toBank[0]] + r.banks[b].toBank
                  && r.banks[b] == c.(toBank := c.toBank[1..], table := Handle(c.table, b, c.slots, c.toBank[0]),
                                      toServer := c.toServer + [Answer(c.table, b, c.slots, c.toBank[0])]))
  {
    hide Handle, Answer;
  }

  lemma CreateReply(s: System, b: U16)
    requires b in s.banks && s.banks[b].toServer != [] && s.banks[b].toServer[0].CreateRes?
    requires s.banks[b].unack != [] && s.banks[b].unack[0] == s.banks[b].toServer[0].about && s.banks[b].unack[0] in s.maps
    ensures var c, a, r := s.banks[b], s.banks[b].toServer[0], ServerStep(s, b);
            && r.listed == s.listed && r.nextId == s.nextId
            && r.maps == s.maps[a.about := Mapping(s.maps[a.about].pair, ACTIVE)]
            && r.banks == s.banks[b := c.(unack := c.unack[1..], active := c.active + [a.about], toServer := c.toServer[1..])]
  {
    hide SetState;
    OneState(s.maps, s.banks[b].unack[0], ACTIVE);
  }

  lemma RemoveReply(s: System, b: U16)
    requires b in s.banks && s.banks[b].toServer != [] && s.banks[b].toServer[0].RemoveRes?
    requires s.banks[b].deleting != [] && s.banks[b].deleting[0] == s.banks[b].toServer[0].about
    ensures var c, a, r := s.banks[b], s.banks[b].toServer[0], ServerStep(s, b);
            && r.nextId == s.nextId && r.maps == s.maps - {a.about}
            && r.banks == s.banks[b := c.(deleting := c.deleting[1..], toServer := c.toServer[1..])]
  {
    hide SetState, Without;
  }

  /** A create reply, whatever its code, makes the map it is about ACTIVE; a remove reply frees the
      map it is about. No other map changes, and the global list stays as it is. */
  lemma ReplyEffect(s: System, b: U16)
    requires Inv(s) && b in s.banks && s.banks[b].toServer != []
    ensures var c, a, r := s.banks[b], s.banks[b].toServer[0], Step(s, ServerRx(b));
            && a.about in s.maps && r.listed == s.listed && r.nextId == s.nextId
            && (a.CreateRes? ==>
                  && c.unack != [] && c.unack[0] == a.about
                  && r.maps == s.maps[a.about := Mapping(s.maps[a.about].pair, ACTIVE)]
                  && r.banks == s.banks[b := c.(unack := c.unack[1..], active := c.active + [a.about], toServer := c.toServer[1..])])
            && (a.RemoveRes? ==>
                  && c.deleting != [] && c.deleting[0] == a.about
                  && r.maps == s.maps - {a.about}
                  && r.banks == s.banks[b := c.(deleting := c.deleting[1..], toServer := c.toServer[1..])])
  {
    hide Inv, ServerStep;
    FirstEntry(s, b);
    ServerListed(s, b);
    var c := s.banks[b];
    FirstKnown(s, b);
    if c.toServer[0].CreateRes? {
      CreateReply(s, b);
    } else {
      RemoveReply(s, b);
    }
  }

  lemma FirstKnown(s: System, b: U16)
    requires Inv(s) && b in s.banks
    ensures var c := s.banks[b]; (c.unack != [] ==> c.unack[0] in s.maps) && (c.deleting != [] ==> c.deleting[0] in s.maps)
  {
    BankParts(s, b);
    ListsOfBank(s.maps, b, s.banks[b]);
  }

  lemma OneState(maps: map<MapId, Mapping>, id: MapId, st: State)
    requires id in maps
    ensures SetState(maps, [id], st) == maps[id := Mapping(maps[id].pair, st)]
  {}

  // ----- connections

  /** A bankd whose id is connected already is refused: nothing changes. */
  lemma ConnectRefused(s: System, b: U16, slots: nat, table: set<Pair>)
    requires b in s.banks
    ensures Step(s, BankConn(b, slots, table)) == s
  {}

  /** The loss of a bankd frees the maps it was to forget and makes its other maps NEW; the global
      list, the maps of other banks and their connections stay. */
  lemma LossEffect(s: System, b: U16)
    requires Inv(s) && b in s.banks
    ensures var c, r := s.banks[b], Step(s, TcpDown(b));
            && r.listed == s.listed && r.nextId == s.nextId && b !in r.banks
            && (forall d :: d in s.banks && d != b ==> d in r.banks && r.banks[d] == s.banks[d])
            && (forall id :: id in s.maps && BankOf(s.maps[id]) != b ==> id in r.maps && r.maps[id] == s.maps[id])
            && (forall id :: id in s.maps && BankOf(s.maps[id]) == b ==>
                  if s.maps[id].state in {DELETE_REQ, DELETING} then id !in r.maps
                  else id in r.maps && r.maps[id] == Mapping(s.maps[id].pair, NEW))
            && (forall id :: id in r.maps ==> id in s.maps)
  {
    hide Inv, Disconnect;
    LossKeepsListed(s, b);
    LossMaps(s, b);
    LossBanks(s, b);
  }

  lemma LossBanks(s: System, b: U16)
    requires b in s.banks
    ensures var r := Disconnect(s, b);
            r.nextId == s.nextId && r.banks == s.banks - {b} && forall id :: id in r.maps ==> id in s.maps
  {
    hide SetState, Without;
  }

  lemma LossMaps(s: System, b: U16)
    requires Inv(s) && b in s.banks
    ensures var r := Step(s, TcpDown(b));
            && (forall id :: id in s.maps && BankOf(s.maps[id]) != b ==> id in r.maps && r.maps[id] == s.maps[id])
            && (forall id :: id in s.maps && BankOf(s.maps[id]) == b ==>
                  if s.maps[id].state in {DELETE_REQ, DELETING} then id !in r.maps
                  else id in r.maps && r.maps[id] == Mapping(s.maps[id].pair, NEW))
  {
    var c, r := s.banks[b], Step(s, TcpDown(b));
    BankParts(s, b);
    DisconnectedMap(s.maps, b, c);
    hide Inv, Without;
    forall id | id in s.maps && BankOf(s.maps[id]) == b
      ensures if s.maps[id].state in {DELETE_REQ, DELETING} then id !in r.maps
              else id in r.maps && r.maps[id] == Mapping(s.maps[id].pair, NEW)
    {
      LossOfMap(s.maps, s.listed, b, c, id);
    }
    ListsOfBank(s.maps, b, c);
  }

  lemma LossOfMap(maps: map<MapId, Mapping>, listed: seq<MapId>, b: U16, c: Conn, id: MapId)
    requires BankInv(maps, listed, b, c) && id in maps && BankOf(maps[id]) == b
    ensures if maps[id].state in {DELETE_REQ, DELETING} then id in c.delreq || id in c.deleting
            else
              && id !in c.delreq && id !in c.deleting
              && (id in c.mnew || id in c.unack || id in c.active || maps[id].state == NEW)
  {
    hide NoDup, Awaited, Requests;
  }
}
