/** Agreement over whole runs, loss and reconnection of a bankd. */
module Replicas {
  import opened SlotTable
  import opened Replication
  import opened Coherence
  import opened Agreement

  // ----- connecting

  /** What a connecting bankd must bring: every listed map of the bank can be created on its table
      and every entry of the table is replaced by one of them. */
  predicate ConnectFits(maps: map<MapId, Mapping>, ids: seq<MapId>, b: U16, slots: nat, table: set<Pair>)
    requires forall id :: id in ids ==> id in maps
  {
    var ps := Pairs(maps, ids);
    AllAccepted(b, slots, ps) && Lands(table, ps) && forall t :: t in table ==> exists p :: p in ps && p.bank == t.bank
  }

  lemma OnlyCreates(table: set<Pair>, b: U16, slots: nat, ps: seq<Pair>)
    requires OneToOneSet(table) && InRange(table, b, slots) && NoClashes(ps)
    ensures CreateAll(table, b, slots, ps) == (set p | p in ps) <==>
            AllAccepted(b, slots, ps) && Lands(table, ps) && forall t :: t in table ==> exists p :: p in ps && p.bank == t.bank
  {
    hide OneToOneSet, InRange, NoClashes, AllAccepted, Lands, CreateAll;
    BatchExact(table, b, slots, ps);
    var all := set p | p in ps;
    if CreateAll(table, b, slots, ps) == all {
      assert forall p :: p in ps ==> p in all;
      forall t | t in table ensures exists p :: p in ps && p.bank == t.bank {
        assert (forall p :: p in ps ==> p.bank != t.bank) ==> t in EvictAll(table, ps);
      }
    }
  }

  /** No two of the maps use a common slot. */
  predicate Distinct(maps: map<MapId, Mapping>, ids: seq<MapId>) {
    forall i, j :: i in ids && j in ids && i in maps && j in maps && i != j ==> !Clash(maps[i].pair, maps[j].pair)
  }

  lemma ConnectedMaps(s: System, b: U16, slots: nat, table: set<Pair>)
    requires Inv(s) && b !in s.banks
    ensures var ids := OfBank(s.maps, s.listed, b);
            var r := Connect(s, b, slots, table);
            && (forall id :: id in ids ==> id in s.maps)
            && NoClashes(Pairs(s.maps, ids)) && Distinct(s.maps, ids)
            && b in r.banks
            && r.banks[b].unack == ids && r.banks[b].active == [] && r.banks[b].delreq == [] && r.banks[b].mnew == []
            && r.banks[b].toBank == Requested(s.maps, ids, true)
            && r.banks[b].table == table && r.banks[b].slots == slots && r.banks[b].toServer == []
            && (forall id :: id in ids ==> id in r.maps && r.maps[id].pair == s.maps[id].pair)
            && r.listed == s.listed
  {
    hide Inv, NoClashes, Distinct, OfBank, Requested, PushMaps, Pairs;
    var s1, ids := Associated(s, b, slots, table), OfBank(s.maps, s.listed, b);
    AssociatedInv(s, b, slots, table);
    NewPairsApart(s1, b);
    InvParts(s1, b);
    ListedApart(s, ids);
    PushFirst(s1, b, slots, ids, table);
  }

  /** The first PUSH of a connection. */
  lemma PushFirst(s: System, b: U16, slots: nat, ids: seq<MapId>, table: set<Pair>)
    requires b in s.banks && s.banks[b] == Conn(slots, ids, [], [], [], [], [], [], table) && KnownLists(s, b)
    requires forall id :: id in ids ==> id in s.maps
    ensures var r := PushMaps(s, b);
            && b in r.banks && r.listed == s.listed
            && r.banks[b] == Conn(slots, [], ids, [], [], [], Requested(s.maps, ids, true), [], table)
            && forall id :: id in s.maps ==> id in r.maps && r.maps[id].pair == s.maps[id].pair
  {
    hide Requested, SetState;
    assert [] + ids == ids;
    var q := Requested(s.maps, ids, true);
    assert [] + q + Requested(s.maps, [], false) == q;
  }

  lemma ListedApart(s: System, ids: seq<MapId>)
    requires Inv(s) && forall id :: id in ids ==> id in s.listed
    ensures Distinct(s.maps, ids)
  {}

  /** Agreement right after a connect, for any table: exactly when the table fits. */
  lemma ConnectExact(s: System, b: U16, slots: nat, table: set<Pair>)
    requires Inv(s) && b !in s.banks && OneToOneSet(table) && InRange(table, b, slots)
    ensures forall id :: id in OfBank(s.maps, s.listed, b) ==> id in s.maps
    ensures Agree(Connect(s, b, slots, table), b) <==> ConnectFits(s.maps, OfBank(s.maps, s.listed, b), b, slots, table)
  {
    hide Inv, OneToOneSet, InRange, NoClashes, Distinct, OfBank, Requested, AllAccepted, Lands, CreateAll, Pairs, PairSet,
         Drain, Connect;
    var ids, r := OfBank(s.maps, s.listed, b), Connect(s, b, slots, table);
    var ps := Pairs(s.maps, ids);
    ConnectedMaps(s, b, slots, table);
    DrainCreates(table, b, slots, s.maps, ids);
    OnlyCreates(table, b, slots, ps);
    PairsMembers(s.maps, ids);
    SamePairs(s.maps, r.maps, ids);
    assert Held(r.banks[b]) == ids;
  }

  lemma ListedTableFits(maps: map<MapId, Mapping>, ids: seq<MapId>, b: U16, slots: nat, table: set<Pair>)
    requires forall id :: id in ids ==> id in maps && Accepts(b, slots, maps[id].pair)
    requires Distinct(maps, ids) && table <= PairSet(maps, ids)
    ensures ConnectFits(maps, ids, b, slots, table) && OneToOneSet(table) && InRange(table, b, slots)
  {}

  /** In particular when bankd holds nothing but maps that are still listed, in range. */
  lemma ConnectWithListed(s: System, b: U16, slots: nat, table: set<Pair>)
    requires Inv(s) && b !in s.banks
    requires table <= PairSet(s.maps, OfBank(s.maps, s.listed, b))
    requires forall id :: id in OfBank(s.maps, s.listed, b) && id in s.maps ==> s.maps[id].pair.bank.slot < slots
    ensures Agree(Connect(s, b, slots, table), b) && SoundBank(Connect(s, b, slots, table), b)
  {
    hide Inv, Connect, NoClashes, OfBank, Distinct, ConnectFits, OneToOneSet, InRange, PairSet, Agree;
    ConnectedMaps(s, b, slots, table);
    ListedTableFits(s.maps, OfBank(s.maps, s.listed, b), b, slots, table);
    ConnectExact(s, b, slots, table);
  }

  // ----- the other steps

  /** The maps bankd may hold keep their pairs. */
  predicate PairsKept(s: System, r: System, b: U16) {
    forall id :: id in s.maps && BankOf(s.maps[id]) == b && s.maps[id].state in {UNACKNOWLEDGED, ACTIVE, DELETE_REQ} ==>
      id in r.maps && r.maps[id].pair == s.maps[id].pair
  }

  /** Everything the agreement depends on is kept: the drained table, which maps the server counts
      on, and their pairs. */
  ghost predicate Kept(s: System, r: System, b: U16) {
    && b in s.banks && b in r.banks
    && var c, d := s.banks[b], r.banks[b];
    && d.slots == c.slots && (Sound(b, c) ==> Sound(b, d))
    && Drain(d.table, b, d.slots, d.toBank) == Drain(c.table, b, c.slots, c.toBank)
    && (forall id :: id in Held(c) <==> id in Held(d))
    && (forall id :: id in Held(c) ==> id in s.maps && id in r.maps && r.maps[id].pair == s.maps[id].pair)
  }

  /** Such a step neither breaks the agreement nor restores it. */
  lemma KeptAgree(s: System, r: System, b: U16)
    requires Kept(s, r, b)
    ensures Agree(s, b) <==> Agree(r, b)
    ensures SoundBank(s, b) ==> SoundBank(r, b)
  {
    hide Sound, Drain, PairSet, Held;
    var c, d := s.banks[b], r.banks[b];
    SamePairs(s.maps, r.maps, Held(c));
    ReorderedPairs(r.maps, Held(c), Held(d));
  }

  lemma KeptDistinct(s: System, r: System, b: U16)
    requires Kept(s, r, b)
    ensures Distinct(s.maps, Held(s.banks[b])) <==> Distinct(r.maps, Held(r.banks[b]))
  {
    hide Sound, Drain, Held, Clash;
  }

  lemma KeptTrans(s: System, q: System, r: System, b: U16)
    requires Kept(s, q, b) && Kept(q, r, b)
    ensures Kept(s, r, b)
  {
    hide Sound, Drain, Held;
  }

  lemma KeptSelf(s: System, b: U16)
    requires Inv(s) && b in s.banks
    ensures Kept(s, s, b)
  {
    HeldKnown(s, b);
    hide Inv, Sound, Drain;
  }

  lemma HeldKnown(s: System, b: U16)
    requires Inv(s) && b in s.banks
    ensures forall id :: id in Held(s.banks[b]) ==>
      id in s.maps && BankOf(s.maps[id]) == b && s.maps[id].state in {UNACKNOWLEDGED, ACTIVE, DELETE_REQ}
  {
    InvParts(s, b);
    hide Inv, NoDup, Lists;
    ListsKnown(s.maps, b, s.banks[b]);
  }

  lemma KeptFrame(s: System, r: System, b: U16)
    requires Inv(s) && b in s.banks && b in r.banks && PairsKept(s, r, b)
    requires var c, d := s.banks[b], r.banks[b];
             && d.slots == c.slots && (Sound(b, c) ==> Sound(b, d))
             && Drain(d.table, b, d.slots, d.toBank) == Drain(c.table, b, c.slots, c.toBank)
             && forall id :: id in Held(c) <==> id in Held(d)
    ensures Kept(s, r, b)
  {
    HeldKnown(s, b);
    hide Inv, Drain, Sound, Held;
  }

  /** Nothing about the connection of `b` changes but its NEW maps. */
  lemma KeptSame(s: System, r: System, b: U16)
    requires Inv(s) && b in s.banks && b in r.banks && PairsKept(s, r, b)
    requires var c, d := s.banks[b], r.banks[b];
             && d.slots == c.slots && d.table == c.table && d.toBank == c.toBank
             && d.unack == c.unack && d.active == c.active && d.delreq == c.delreq
    ensures Kept(s, r, b)
  {
    hide Inv, Drain, PairsKept;
    KeptFrame(s, r, b);
  }

  lemma PostKept(s: System, p: Pair, b: U16)
    requires Inv(s) && b in s.banks
    ensures Kept(s, PostMap(s, p), b)
  {
    hide InUse, BanksInv, NoDup, Clash, Kept;
    KeptSame(s, PostMap(s, p), b);
  }

  lemma DeletedKeeps(s: System, id: MapId, b: U16)
    requires Inv(s) && id in s.listed
    ensures PairsKept(s, MarkDeleted(s, id), b)
  {
    hide BanksInv, NoDup, Clash, Without;
  }

  lemma DeletedHeld(s: System, id: MapId, b: U16)
    requires Inv(s) && id in s.listed && b in s.banks
    ensures var c, r := s.banks[b], MarkDeleted(s, id);
            && b in r.banks
            && r.banks[b].slots == c.slots && r.banks[b].table == c.table && r.banks[b].toBank == c.toBank
            && forall x :: x in Held(c) <==> x in Held(r.banks[b])
  {
    hide NoDup, Clash, Without, Awaited, Requests, Lists;
    InvParts(s, b);
    assert BankInv(s.maps, s.listed, b, s.banks[b]);
    ListsKnown(s.maps, b, s.banks[b]);
  }

  lemma DeletedKept(s: System, id: MapId, b: U16)
    requires Inv(s) && b in s.banks && id in s.listed
    ensures id in s.maps && Kept(s, MarkDeleted(s, id), b)
  {
    hide Inv, Drain, PairsKept, MarkDeleted, Held, Kept;
    ListedKnown(s, id);
    DeletedKeeps(s, id, b);
    DeletedHeld(s, id, b);
    KeptFrame(s, MarkDeleted(s, id), b);
  }

  lemma ListedKnown(s: System, id: MapId)
    requires Inv(s) && id in s.listed
    ensures id in s.maps
  {}

  /** What is left to do of a global reset after its first map. */
  lemma ResetFirst(s: System, ids: seq<MapId>)
    requires Inv(s) && ids != [] && NoDup(ids) && forall id :: id in ids ==> id in s.listed
    ensures ids[0] in s.maps && Inv(MarkDeleted(s, ids[0])) && NoDup(ids[1..])
    ensures ResetMaps(s, ids) == ResetMaps(MarkDeleted(s, ids[0]), ids[1..])
    ensures var r := MarkDeleted(s, ids[0]);
            forall id :: id in ids[1..] ==> id in r.listed && id in s.maps && id in r.maps && r.maps[id] == s.maps[id]
  {
    hide Inv;
    assert ids[0] in s.listed;
    ListedKnown(s, ids[0]);
    var r := MarkDeleted(s, ids[0]);
    DeletedInv(s, ids[0]);
    NoDupTail(ids);
    forall id | id in ids[1..] ensures id in r.listed && id in s.maps && id in r.maps && r.maps[id] == s.maps[id] {
      MarkDeletedListed(s, ids[0], id);
      ListedKnown(s, id);
      ListedKnown(r, id);
    }
  }

  lemma {:induction false} ResetKept(s: System, ids: seq<MapId>, b: U16)
    requires Inv(s) && b in s.banks && NoDup(ids) && forall id :: id in ids ==> id in s.listed
    ensures Kept(s, ResetMaps(s, ids), b)
    decreases |ids|
  {
    hide Inv, Kept, MarkDeleted;
    if ids == [] {
      KeptSelf(s, b);
    } else {
      ResetFirst(s, ids);
      var r := MarkDeleted(s, ids[0]);
      DeletedKept(s, ids[0], b);
      KeptConnected(s, r, b);
      ResetKept(r, ids[1..], b);
      KeptTrans(s, r, ResetMaps(s, ids), b);
    }
  }

  lemma KeptConnected(s: System, r: System, b: U16)
    requires Kept(s, r, b)
    ensures b in s.banks && b in r.banks
  {}

  lemma PushOther(s: System, d: U16, b: U16)
    requires Inv(s) && b in s.banks && d != b
    ensures Kept(s, PushMaps(s, d), b)
  {
    hide Inv, Kept, Requested, SetState;
    if d in s.banks && KnownLists(s, d) {
      KeptSame(s, PushMaps(s, d), b);
    } else {
      KeptSelf(s, b);
    }
  }

  lemma ConnectOther(s: System, d: U16, slots: nat, table: set<Pair>, b: U16)
    requires Inv(s) && b in s.banks
    ensures Kept(s, Connect(s, d, slots, table), b)
  {
    hide Inv, Kept, SetState, PushMaps, OfBank;
    if d !in s.banks {
      var r := Associated(s, d, slots, table);
      AssociatedInv(s, d, slots, table);
      KeptSame(s, r, b);
      PushOther(r, d, b);
      KeptTrans(s, r, PushMaps(r, d), b);
    } else {
      KeptSelf(s, b);
    }
  }

  lemma BankdKept(s: System, d: U16, b: U16)
    requires Inv(s) && b in s.banks
    ensures Kept(s, BankdStep(s, d), b)
  {
    hide Inv, Handle, Answer, Kept, InRange, OneToOneSet;
    var r := BankdStep(s, d);
    if d in s.banks && s.banks[d].toBank != [] {
      var c := s.banks[b];
      if d == b && Sound(b, c) {
        HandledSound(c.table, b, c.slots, c.toBank[0]);
      }
      KeptFrame(s, r, b);
    } else {
      KeptSelf(s, b);
    }
  }

  lemma HandledSound(t: set<Pair>, b: U16, n: nat, q: Request)
    requires InRange(t, b, n) && OneToOneSet(t)
    ensures InRange(Handle(t, b, n, q), b, n) && OneToOneSet(Handle(t, b, n, q))
  {}

  lemma ServerKeeps(s: System, d: U16, b: U16)
    requires Inv(s)
    ensures PairsKept(s, ServerStep(s, d), b)
  {
    hide NoDup, Clash, Awaited, Requests, Linked, GlobalInv, Lists, SetState;
    if d in s.banks {
      assert BankInv(s.maps, s.listed, d, s.banks[d]);
      ListsKnown(s.maps, d, s.banks[d]);
      assert s.banks[d].deleting != [] ==> s.banks[d].deleting[0] in s.banks[d].deleting;
    }
  }

  lemma ServerHeld(s: System, d: U16, b: U16)
    requires b in s.banks
    ensures var c, r := s.banks[b], ServerStep(s, d);
            && b in r.banks
            && r.banks[b].slots == c.slots && r.banks[b].table == c.table && r.banks[b].toBank == c.toBank
            && forall x :: x in Held(c) <==> x in Held(r.banks[b])
  {}

  lemma ServerKept(s: System, d: U16, b: U16)
    requires Inv(s) && b in s.banks
    ensures Kept(s, ServerStep(s, d), b)
  {
    hide Inv, Drain, PairsKept, ServerStep, Held, Kept;
    ServerKeeps(s, d, b);
    ServerHeld(s, d, b);
    KeptFrame(s, ServerStep(s, d), b);
  }

  lemma DownOther(s: System, d: U16, b: U16)
    requires Inv(s) && b in s.banks && d != b
    ensures Kept(s, Disconnect(s, d), b)
  {
    hide Inv, Kept, SetState, PairsKept;
    if d in s.banks {
      DownKeeps(s, d, b);
      KeptSame(s, Disconnect(s, d), b);
    } else {
      KeptSelf(s, b);
    }
  }

  lemma DownKeeps(s: System, d: U16, b: U16)
    requires Inv(s) && d in s.banks && d != b
    ensures PairsKept(s, Disconnect(s, d), b)
  {
    hide NoDup, Clash, Awaited, Requests, Linked, GlobalInv, Lists, SetState;
    assert BankInv(s.maps, s.listed, d, s.banks[d]);
    ListsKnown(s.maps, d, s.banks[d]);
    DisconnectedMap(s.maps, d, s.banks[d]);
  }

  // ----- runs

  /** Every step but a PUSH on the connection itself and its loss keeps all the agreement is about. */
  lemma StepKept(s: System, e: Event, b: U16)
    requires Inv(s) && b in s.banks && e != Push(b) && e != TcpDown(b)
    ensures Kept(s, Step(s, e), b)
  {
    hide Inv, Kept, PostMap, MarkDeleted, ResetMaps, Connect, PushMaps, BankdStep, ServerStep, Disconnect;
    match e
    case Post(p) => PostKept(s, p, b);
    case RestDelete(id) =>
      if FindListed(s, s.listed, id).At? {
        DeletedKept(s, FindListed(s, s.listed, id).index, b);
      } else {
        KeptSelf(s, b);
      }
    case GlobalReset => ListedOnce(s); ResetKept(s, s.listed, b);
    case BankConn(d, n, t) => ConnectOther(s, d, n, t, b);
    case Push(d) => PushOther(s, d, b);
    case BankdRx(d) => BankdKept(s, d, b);
    case ServerRx(d) => ServerKept(s, d, b);
    case TcpDown(d) => DownOther(s, d, b);
  }

  /** So the agreement is kept, and not restored either. */
  lemma StepAgree(s: System, e: Event, b: U16)
    requires Inv(s) && b in s.banks && e != Push(b) && e != TcpDown(b)
    ensures Agree(s, b) <==> Agree(Step(s, e), b)
    ensures SoundBank(s, b) ==> SoundBank(Step(s, e), b)
  {
    hide *;
    StepKept(s, e, b);
    KeptAgree(s, Step(s, e), b);
  }

  lemma ListedOnce(s: System)
    requires Inv(s)
    ensures NoDup(s.listed)
  {}

  lemma PushSound(s: System, b: U16)
    requires SoundBank(s, b)
    ensures SoundBank(PushMaps(s, b), b)
  {}

  predicate FitsIfPush(s: System, e: Event, b: U16) {
    e == Push(b) ==> b in s.banks && KnownLists(s, b) && PushFits(s.maps, b, s.banks[b])
  }

  /** Each PUSH of the run on this connection fits when it happens. */
  predicate PushesFit(s: System, es: seq<Event>, b: U16)
    decreases |es|
  {
    es != [] ==> FitsIfPush(s, es[0], b) && PushesFit(Step(s, es[0]), es[1..], b)
  }

  /** There is agreement in every state of the run. */
  predicate AlwaysAgree(s: System, es: seq<Event>, b: U16)
    decreases |es|
  {
    Agree(s, b) && (es != [] ==> AlwaysAgree(Step(s, es[0]), es[1..], b))
  }

  /** Replica agreement over whole runs: as long as the connection lasts, bankd's drained table is
      what the server believes in every state if and only if every PUSH on it fits. */
  lemma {:induction false} RunAgreement(s: System, es: seq<Event>, b: U16)
    requires Inv(s) && SoundBank(s, b) && Agree(s, b) && TcpDown(b) !in es
    ensures AlwaysAgree(s, es, b) <==> PushesFit(s, es, b)
    decreases |es|
  {
    hide Inv, Agree, Step, SoundBank;
    if es != [] {
      var r, e := Step(s, es[0]), es[0];
      StepInv(s, e);
      AgreeConnected(s, b);
      if e == Push(b) {
        StepIsPush(s, b);
        InvParts(s, b);
        PushExact(s, b);
        PushSound(s, b);
      } else {
        StepAgree(s, e, b);
      }
      if Agree(r, b) {
        RunAgreement(r, es[1..], b);
      } else {
        NotAgreed(r, es[1..], b);
      }
    }
  }

  lemma StepIsPush(s: System, b: U16)
    ensures Step(s, Push(b)) == PushMaps(s, b)
  {}

  lemma AgreeConnected(s: System, b: U16)
    requires Agree(s, b)
    ensures b in s.banks
  {}

  lemma NotAgreed(s: System, es: seq<Event>, b: U16)
    requires !Agree(s, b)
    ensures !AlwaysAgree(s, es, b)
  {}

  // ----- maps deleted while UNACKNOWLEDGED

  /** The maps bankd has been told of and not told to forget, though nobody lists them. */
  function Orphans(s: System, b: U16): (ids: set<MapId>) {
    if b in s.banks then set id | id in s.banks[b].unack + s.banks[b].active && id !in s.listed else {}
  }

  /** Every map bankd has been told of and not told to forget is still listed. */
  predicate Tidy(s: System, b: U16) {
    b in s.banks && Orphans(s, b) == {}
  }

  predicate Unacknowledged(s: System, id: MapId, b: U16) {
    id in s.maps && BankOf(s.maps[id]) == b && s.maps[id].state == UNACKNOWLEDGED
  }

  /** The UNACKNOWLEDGED maps of this bank that the step deletes. */
  function Lost(s: System, e: Event, b: U16): (ids: set<MapId>) {
    set id | id in s.listed && Unacknowledged(s, id, b) &&
             (e.GlobalReset? || (e.RestDelete? && SlotId(s.maps[id].pair.bank) == e.slotId))
  }

  predicate DeletesUnacknowledged(s: System, e: Event, b: U16) {
    Lost(s, e, b) != {}
  }

  /** Orphans by membership: told of, not listed. */
  lemma SameOrphans(s: System, r: System, b: U16, more: set<MapId>)
    requires b in s.banks && b in r.banks
    requires forall x :: x in r.banks[b].unack + r.banks[b].active && x !in r.listed <==>
      (x in s.banks[b].unack + s.banks[b].active && x !in s.listed) || x in more
    ensures Orphans(r, b) == Orphans(s, b) + more
  {}

  /** Deleting a map takes it off the active list, and nothing else off either list. */
  lemma DeletedTold(s: System, id: MapId, b: U16)
    requires id in s.maps && b in s.banks
    ensures var r := MarkDeleted(s, id);
            && b in r.banks && r.banks[b].unack == s.banks[b].unack
            && (forall x :: x in r.listed <==> x in s.listed && x != id)
            && (forall x :: x in r.banks[b].active <==>
                  x in s.banks[b].active && !(x == id && s.maps[id].state == ACTIVE && BankOf(s.maps[id]) == b))
  {
    hide Without;
  }

  lemma DeletedOrphans(s: System, id: MapId, b: U16)
    requires Inv(s) && b in s.banks && id in s.listed
    ensures id in s.maps && b in MarkDeleted(s, id).banks
    ensures Orphans(MarkDeleted(s, id), b) == Orphans(s, b) + if Unacknowledged(s, id, b) then {id} else {}
  {
    ListedKnown(s, id);
    DeletedTold(s, id, b);
    ToldListed(s, id, b);
    hide Inv, MarkDeleted, Orphans, Unacknowledged;
    SameOrphans(s, MarkDeleted(s, id), b, if Unacknowledged(s, id, b) then {id} else {});
  }

  lemma ToldListed(s: System, id: MapId, b: U16)
    requires Inv(s) && b in s.banks && id in s.maps
    ensures id in s.banks[b].unack <==> Unacknowledged(s, id, b)
    ensures id in s.banks[b].active <==> s.maps[id].state == ACTIVE && BankOf(s.maps[id]) == b
  {
    InvParts(s, b);
    ListsKnown(s.maps, b, s.banks[b]);
    hide GlobalInv, NoDup, Awaited, Requests, Lists;
  }

  function UnackAmong(s: System, ids: seq<MapId>, b: U16): (r: set<MapId>) {
    set id | id in ids && Unacknowledged(s, id, b)
  }

  lemma UnackHead(s: System, r: System, ids: seq<MapId>, b: U16)
    requires ids != [] && forall id :: id in ids[1..] ==> id in s.maps && id in r.maps && r.maps[id] == s.maps[id]
    ensures UnackAmong(s, ids, b) == (if Unacknowledged(s, ids[0], b) then {ids[0]} else {}) + UnackAmong(r, ids[1..], b)
  {
    assert ids == [ids[0]] + ids[1..];
  }

  lemma {:induction false} ResetOrphans(s: System, ids: seq<MapId>, b: U16)
    requires Inv(s) && b in s.banks && NoDup(ids) && forall id :: id in ids ==> id in s.listed
    ensures Orphans(ResetMaps(s, ids), b) == Orphans(s, b) + UnackAmong(s, ids, b)
    decreases |ids|
  {
    hide Inv, Orphans, MarkDeleted, Unacknowledged;
    if ids != [] {
      ResetFirst(s, ids);
      var r := MarkDeleted(s, ids[0]);
      assert ids[0] in s.listed;
      DeletedOrphans(s, ids[0], b);
      UnackHead(s, r, ids, b);
      hide UnackAmong, ResetMaps;
      ResetOrphans(r, ids[1..], b);
    }
  }

  lemma DeleteOrphans(s: System, slotId: nat, b: U16)
    requires Inv(s) && b in s.banks
    ensures Orphans(DeleteMap(s, slotId), b) == Orphans(s, b) + Lost(s, RestDelete(slotId), b)
  {
    hide Inv, Orphans, MarkDeleted, Unacknowledged, FindListed, SlotId;
    ListedAllKnown(s);
    var f := FindListed(s, s.listed, slotId);
    if f.At? {
      DeletedOrphans(s, f.index, b);
      OneListed(s, f.index);
      assert Lost(s, RestDelete(slotId), b) == if Unacknowledged(s, f.index, b) then {f.index} else {};
    } else {
      assert Lost(s, RestDelete(slotId), b) == {};
    }
  }

  lemma ListedAllKnown(s: System)
    requires Inv(s)
    ensures forall id :: id in s.listed ==> id in s.maps
  {}

  /** A slot id names one listed map at most. */
  lemma OneListed(s: System, id: MapId)
    requires Inv(s) && id in s.listed
    ensures id in s.maps
    ensures forall k :: k in s.listed && k in s.maps && SlotId(s.maps[k].pair.bank) == SlotId(s.maps[id].pair.bank) ==> k == id
  {
    hide BanksInv, NoDup, SlotId;
    forall k | k in s.listed && k in s.maps && SlotId(s.maps[k].pair.bank) == SlotId(s.maps[id].pair.bank) ensures k == id {
      SlotIdUnique(s.maps[k].pair.bank, s.maps[id].pair.bank);
    }
  }

  lemma PostTold(s: System, p: Pair, b: U16)
    requires b in s.banks
    ensures var r := PostMap(s, p);
            && b in r.banks && r.banks[b].unack == s.banks[b].unack && r.banks[b].active == s.banks[b].active
            && (r.listed == s.listed || r.listed == s.listed + [s.nextId])
  {
    hide InUse;
  }

  lemma ToldOld(s: System, b: U16)
    requires Inv(s) && b in s.banks
    ensures s.nextId !in s.banks[b].unack + s.banks[b].active
  {
    HeldKnown(s, b);
    KnownOld(s);
    hide Inv;
    assert s.nextId !in Held(s.banks[b]);
  }

  lemma PostOrphans(s: System, p: Pair, b: U16)
    requires Inv(s) && b in s.banks
    ensures Orphans(PostMap(s, p), b) == Orphans(s, b)
  {
    PostTold(s, p, b);
    ToldOld(s, b);
    hide Inv, PostMap, Orphans;
    SameOrphans(s, PostMap(s, p), b, {});
  }

  lemma KnownOld(s: System)
    requires Inv(s)
    ensures forall id :: id in s.maps ==> id < s.nextId
  {}

  lemma PushOrphans(s: System, d: U16, b: U16)
    requires Inv(s) && b in s.banks
    ensures Orphans(PushMaps(s, d), b) == Orphans(s, b)
  {
    if d in s.banks {
      NewPairsApart(s, d);
      hide Inv, Requested, SetState, NoClashes, Pairs;
    }
  }

  lemma ServerListed(s: System, d: U16)
    requires Inv(s)
    ensures ServerStep(s, d).listed == s.listed
  {
    if d in s.banks && s.banks[d].deleting != [] {
      var c := s.banks[d];
      GoneUnlisted(s, d);
      assert c.deleting[0] in c.delreq + c.deleting;
      hide Inv, SetState, Without;
      WithoutNone(s.listed, [c.deleting[0]]);
    }
  }

  lemma ServerTold(s: System, d: U16, b: U16)
    requires b in s.banks
    ensures var r := ServerStep(s, d);
            && b in r.banks
            && forall x :: x in r.banks[b].unack + r.banks[b].active <==> x in s.banks[b].unack + s.banks[b].active
  {}

  lemma ServerOrphans(s: System, d: U16, b: U16)
    requires Inv(s) && b in s.banks
    ensures Orphans(ServerStep(s, d), b) == Orphans(s, b)
  {
    hide Inv, ServerStep;
    ServerListed(s, d);
    ServerTold(s, d, b);
  }

  lemma DownOrphans(s: System, d: U16, b: U16)
    requires Inv(s) && b in s.banks && d != b
    ensures Orphans(Disconnect(s, d), b) == Orphans(s, b)
  {
    if d in s.banks {
      LossKeepsListed(s, d);
      hide Inv, SetState, Without;
    }
  }

  lemma ConnectOrphans(s: System, d: U16, slots: nat, table: set<Pair>, b: U16)
    requires Inv(s) && b in s.banks
    ensures Orphans(Connect(s, d, slots, table), b) == Orphans(s, b)
  {
    if d !in s.banks {
      ConnectLeaves(s, d, slots, table, b);
      ConnectedMaps(s, d, slots, table);
      hide Inv, Connect, Requested, NoClashes, Distinct, Pairs;
    }
  }

  lemma ConnectLeaves(s: System, d: U16, slots: nat, table: set<Pair>, b: U16)
    requires d !in s.banks && d != b && b in s.banks
    ensures var r := Connect(s, d, slots, table); b in r.banks && r.banks[b] == s.banks[b]
  {}

  lemma BankdOrphans(s: System, d: U16, b: U16)
    ensures Orphans(BankdStep(s, d), b) == Orphans(s, b)
  {
    hide Handle, Answer;
  }

  lemma ResetLost(s: System, b: U16)
    ensures Lost(s, GlobalReset, b) == UnackAmong(s, s.listed, b)
  {}

  /** A step adds to the orphans exactly the UNACKNOWLEDGED maps it deletes; no step takes one away
      while the connection lasts. */
  lemma StepOrphans(s: System, e: Event, b: U16)
    requires Inv(s) && b in s.banks && e != TcpDown(b)
    ensures Orphans(Step(s, e), b) == Orphans(s, b) + Lost(s, e, b)
  {
    hide Inv, Orphans, PostMap, DeleteMap, ResetMaps, Connect, PushMaps, BankdStep, ServerStep, Disconnect, Unacknowledged;
    match e
    case Post(p) => PostOrphans(s, p, b);
    case RestDelete(id) => DeleteOrphans(s, id, b);
    case GlobalReset => ListedOnce(s); ResetOrphans(s, s.listed, b); ResetLost(s, b);
    case BankConn(d, n, t) => ConnectOrphans(s, d, n, t, b);
    case Push(d) => PushOrphans(s, d, b);
    case BankdRx(d) => BankdOrphans(s, d, b);
    case ServerRx(d) => ServerOrphans(s, d, b);
    case TcpDown(d) => DownOrphans(s, d, b);
  }

  /** The maps of this bank that a run deletes while they are UNACKNOWLEDGED. */
  function LostIn(s: System, es: seq<Event>, b: U16): (ids: set<MapId>)
    decreases |es|
  {
    if es == [] then {} else Lost(s, es[0], b) + LostIn(Step(s, es[0]), es[1..], b)
  }

  lemma StaysConnected(s: System, e: Event, b: U16)
    requires Inv(s) && b in s.banks && e != TcpDown(b)
    ensures b in Step(s, e).banks
  {
    hide Inv, Kept, Step;
    if e == Push(b) {
      StepIsPush(s, b);
      OnlyConnectConnects(s, b);
    } else {
      StepKept(s, e, b);
      KeptConnected(s, Step(s, e), b);
    }
  }

  /** Over a whole run on a connection, the orphans are those there were and those the run made. */
  lemma {:induction false} RunOrphans(s: System, es: seq<Event>, b: U16)
    requires Inv(s) && b in s.banks && TcpDown(b) !in es
    ensures b in Run(s, es).banks && Inv(Run(s, es))
    ensures Orphans(Run(s, es), b) == Orphans(s, b) + LostIn(s, es, b)
    decreases |es|
  {
    hide Inv, Step, Orphans, Lost;
    if es != [] {
      StepInv(s, es[0]);
      StaysConnected(s, es[0], b);
      StepOrphans(s, es[0], b);
      RunOrphans(Step(s, es[0]), es[1..], b);
    }
  }

  predicate NeverDeletesUnacknowledged(s: System, es: seq<Event>, b: U16)
    decreases |es|
  {
    es != [] ==> !DeletesUnacknowledged(s, es[0], b) && NeverDeletesUnacknowledged(Step(s, es[0]), es[1..], b)
  }

  lemma {:induction false} NothingLost(s: System, es: seq<Event>, b: U16)
    ensures NeverDeletesUnacknowledged(s, es, b) <==> LostIn(s, es, b) == {}
    decreases |es|
  {
    hide Step, Lost;
    if es != [] {
      NothingLost(Step(s, es[0]), es[1..], b);
    }
  }

  /** A tidy connection stays tidy if and only if no step of the run deletes a map of its bank while
      it is UNACKNOWLEDGED. */
  lemma TidyExact(s: System, es: seq<Event>, b: U16)
    requires Inv(s) && Tidy(s, b) && TcpDown(b) !in es
    ensures Tidy(Run(s, es), b) <==> NeverDeletesUnacknowledged(s, es, b)
  {
    hide Inv, Run, Orphans, LostIn, NeverDeletesUnacknowledged;
    RunOrphans(s, es, b);
    NothingLost(s, es, b);
  }

  lemma ConnectTidy(s: System, b: U16, slots: nat, table: set<Pair>)
    requires Inv(s) && b !in s.banks
    ensures Tidy(Connect(s, b, slots, table), b)
    ensures var r := Connect(s, b, slots, table); Distinct(r.maps, Held(r.banks[b]))
  {
    ConnectedMaps(s, b, slots, table);
    hide Inv, Connect, Requested, NoClashes, Pairs, Clash;
    var ids, r := OfBank(s.maps, s.listed, b), Connect(s, b, slots, table);
    assert Held(r.banks[b]) == ids;
  }

  // ----- careful runs

  /** No create and delete pending on a common slot, and the slots exist. */
  predicate PushIsClean(s: System, b: U16) {
    && b in s.banks
    && (forall id :: id in s.banks[b].mnew && id in s.maps ==> s.maps[id].pair.bank.slot < s.banks[b].slots)
    && (forall i, d :: i in s.banks[b].mnew && d in s.banks[b].delreq && i in s.maps && d in s.maps ==>
          !Clash(s.maps[i].pair, s.maps[d].pair))
  }

  /** The maps the server counts on use no slot twice. */
  predicate HeldApart(s: System, b: U16) {
    b in s.banks && Distinct(s.maps, Held(s.banks[b]))
  }

  lemma TidyListed(s: System, b: U16)
    requires Tidy(s, b)
    ensures forall id :: id in s.banks[b].unack + s.banks[b].active ==> id in s.listed
  {
    forall id | id in s.banks[b].unack + s.banks[b].active ensures id in s.listed {
      assert id !in Orphans(s, b);
    }
  }

  lemma NewNotHeld(s: System, b: U16)
    requires Inv(s) && b in s.banks
    ensures forall id :: id in s.banks[b].mnew ==>
      id in s.maps && id in s.listed && BankOf(s.maps[id]) == b && id !in s.banks[b].unack + s.banks[b].active
    ensures forall d :: d in s.banks[b].delreq ==> d in s.maps && d !in s.banks[b].unack + s.banks[b].active
  {
    InvParts(s, b);
    NewPairsApart(s, b);
    ListsKnown(s.maps, b, s.banks[b]);
    hide Inv, Lists, Awaited, NoDup;
  }

  lemma NewApart(s: System, b: U16)
    requires Inv(s) && Tidy(s, b)
    ensures var c := s.banks[b];
            forall i, k :: i in c.mnew && k in c.unack + c.active && k in s.maps ==> i in s.maps && !Clash(s.maps[i].pair, s.maps[k].pair)
  {
    TidyListed(s, b);
    NewNotHeld(s, b);
    ListedNoClash(s);
    hide Inv, Orphans, Clash;
  }

  lemma CleanPushFits(s: System, b: U16)
    requires Inv(s) && Tidy(s, b) && HeldApart(s, b) && PushIsClean(s, b)
    ensures KnownLists(s, b) && PushFits(s.maps, b, s.banks[b])
  {
    InvParts(s, b);
    NewApart(s, b);
    NewNotHeld(s, b);
    DeletesApart(s, b);
    hide Inv, BankInv, Lists, Awaited, NoDup, Orphans, Distinct, Held;
  }

  lemma DeletesApart(s: System, b: U16)
    requires Inv(s) && HeldApart(s, b)
    ensures var c := s.banks[b];
            forall d, k :: d in c.delreq && k in c.unack + c.active && d in s.maps && k in s.maps ==>
              s.maps[d].pair != s.maps[k].pair
  {
    NewNotHeld(s, b);
    hide Inv;
  }

  lemma ListedNoClash(s: System)
    requires Inv(s)
    ensures forall i, j :: i in s.listed && j in s.listed && i != j ==> i in s.maps && j in s.maps && !Clash(s.maps[i].pair, s.maps[j].pair)
  {}

  lemma PushApart(s: System, b: U16)
    requires Inv(s) && Tidy(s, b)
    ensures HeldApart(PushMaps(s, b), b)
  {
    InvParts(s, b);
    TidyListed(s, b);
    NewNotHeld(s, b);
    ListedNoClash(s);
    hide Inv, Lists, Linked, Awaited, Requests, BanksInv, NoDup, Orphans, Clash, Requested, SetState;
    var r, c := PushMaps(s, b), s.banks[b];
    assert Held(r.banks[b]) == c.unack + c.mnew + c.active;
  }

  lemma StepApart(s: System, e: Event, b: U16)
    requires Inv(s) && Tidy(s, b) && HeldApart(s, b) && e != TcpDown(b)
    ensures HeldApart(Step(s, e), b)
  {
    hide Inv, Distinct, Held, Kept, Step, Orphans;
    if e == Push(b) {
      StepIsPush(s, b);
      PushApart(s, b);
    } else {
      StepKept(s, e, b);
      KeptConnected(s, Step(s, e), b);
      KeptDistinct(s, Step(s, e), b);
    }
  }

  predicate CarefulStep(s: System, e: Event, b: U16) {
    e != TcpDown(b) && !DeletesUnacknowledged(s, e, b) && (e == Push(b) ==> PushIsClean(s, b))
  }

  predicate Careful(s: System, es: seq<Event>, b: U16)
    decreases |es|
  {
    es != [] ==> CarefulStep(s, es[0], b) && Careful(Step(s, es[0]), es[1..], b)
  }

  lemma {:induction false} CarefulRun(s: System, es: seq<Event>, b: U16)
    requires Inv(s) && SoundBank(s, b) && Agree(s, b) && Tidy(s, b) && HeldApart(s, b) && Careful(s, es, b)
    ensures AlwaysAgree(s, es, b) && Tidy(Run(s, es), b)
    decreases |es|
  {
    hide Inv, SoundBank, Agree, Step, Orphans, HeldApart, PushIsClean, Lost;
    if es != [] {
      var e := es[0];
      StepInv(s, e);
      StaysConnected(s, e, b);
      StepOrphans(s, e, b);
      StepApart(s, e, b);
      if e == Push(b) {
        StepIsPush(s, b);
        CleanPushFits(s, b);
        PushExact(s, b);
        PushSound(s, b);
      } else {
        StepAgree(s, e, b);
      }
      CarefulRun(Step(s, e), es[1..], b);
    }
  }

  /** From a connect of a bankd whose table holds only maps the server still lists: with slot numbers
      in range, no map deleted while UNACKNOWLEDGED and no PUSH with a create and a delete on a
      common slot, bankd's drained table is what the server believes in every state. */
  lemma CarefulAgreement(s: System, b: U16, slots: nat, table: set<Pair>, es: seq<Event>)
    requires Inv(s) && b !in s.banks
    requires table <= PairSet(s.maps, OfBank(s.maps, s.listed, b))
    requires forall id :: id in OfBank(s.maps, s.listed, b) && id in s.maps ==> s.maps[id].pair.bank.slot < slots
    requires Careful(Connect(s, b, slots, table), es, b)
    ensures AlwaysAgree(Connect(s, b, slots, table), es, b)
    ensures Tidy(Run(Connect(s, b, slots, table), es), b)
  {
    hide Inv, SoundBank, Agree, Step, Orphans, Distinct, PairSet, OfBank, Connect, Careful;
    ConnectWithListed(s, b, slots, table);
    ConnectTidy(s, b, slots, table);
    ConnectInv(s, b, slots, table);
    CarefulRun(Connect(s, b, slots, table), es, b);
  }

  // ----- what is left at quiescence

  function LostPairs(maps: map<MapId, Mapping>, ids: set<MapId>): (ps: set<Pair>) {
    set id | id in ids && id in maps :: maps[id].pair
  }

  lemma QuiescentActive(s: System, b: U16)
    requires Inv(s) && b in s.banks && Quiescent(s.banks[b])
    ensures forall id :: id in s.banks[b].active <==> id in OfBank(s.maps, s.listed, b) || id in Orphans(s, b)
    ensures forall id :: id in s.banks[b].active ==> id in s.maps
  {
    QuiescentLists(s, b);
    hide Inv, OfBank;
  }

  /** At quiescence, after any run on a connection that began tidy, bankd's table is the listed maps
      of its bank and the maps that were deleted while they were UNACKNOWLEDGED. So it is the
      listed maps exactly when each of those has been posted again. */
  lemma QuiescentListed(s: System, es: seq<Event>, b: U16)
    requires Inv(s) && Tidy(s, b) && TcpDown(b) !in es
    requires Agree(Run(s, es), b) && Quiescent(Run(s, es).banks[b])
    ensures var r := Run(s, es);
            var listed, lost := PairSet(r.maps, OfBank(r.maps, r.listed, b)), LostPairs(r.maps, LostIn(s, es, b));
            && r.banks[b].table == listed + lost
            && (r.banks[b].table == listed <==> lost <= listed)
    ensures forall id :: id in LostIn(s, es, b) ==> id in Run(s, es).maps
  {
    hide Inv, Run, OfBank, Agree, Orphans, LostIn, Quiescent;
    var r := Run(s, es);
    RunOrphans(s, es, b);
    QuiescentTable(r, b);
    QuiescentActive(r, b);
    TablePairs(r.maps, r.banks[b].active, OfBank(r.maps, r.listed, b), LostIn(s, es, b));
  }

  lemma TablePairs(maps: map<MapId, Mapping>, active: seq<MapId>, listed: seq<MapId>, lost: set<MapId>)
    requires forall id :: id in active <==> id in listed || id in lost
    ensures PairSet(maps, active) == PairSet(maps, listed) + LostPairs(maps, lost)
  {}

  lemma QuiescentLists(s: System, b: U16)
    requires Inv(s) && b in s.banks && Quiescent(s.banks[b])
    ensures s.banks[b].unack == []
    ensures forall id :: id in s.banks[b].active ==> id in s.maps && BankOf(s.maps[id]) == b
    ensures forall id :: id in OfBank(s.maps, s.listed, b) ==> id in s.banks[b].active
  {
    InvParts(s, b);
    var c := s.banks[b];
    ListsKnown(s.maps, b, c);
    assert c.unack == [];
    hide NoDup, Clash, Requests, Lists, OfBank;
    assert Linked(s.maps, s.listed, b, c);
  }

  // ----- loss and reconnection

  /** What a connection is about to delete is not listed. */
  lemma GoneUnlisted(s: System, b: U16)
    requires Inv(s) && b in s.banks
    ensures var c := s.banks[b]; forall id :: id in s.listed ==> id in s.maps && id !in c.delreq + c.deleting
  {
    InvParts(s, b);
    ListsKnown(s.maps, b, s.banks[b]);
    hide BanksInv, NoDup, Clash, Lists, Awaited;
  }

  lemma DownPairs(s: System, b: U16)
    requires b in s.banks
    ensures var c, r := s.banks[b], Disconnect(s, b);
            && r.listed == Without(s.listed, c.delreq + c.deleting)
            && forall id :: id in s.maps && id !in c.delreq + c.deleting ==> id in r.maps && r.maps[id].pair == s.maps[id].pair
  {
    hide Without, SetState;
  }

  /** Losing a bankd keeps every listed mapping. */
  lemma LossKeepsListed(s: System, b: U16)
    requires Inv(s) && b in s.banks
    ensures var r := Disconnect(s, b);
            && r.listed == s.listed
            && forall id :: id in s.listed ==> id in r.maps && id in s.maps && r.maps[id].pair == s.maps[id].pair
  {
    GoneUnlisted(s, b);
    DownPairs(s, b);
    hide Inv, Disconnect, Without;
    WithoutNone(s.listed, s.banks[b].delreq + s.banks[b].deleting);
  }

  lemma {:induction false} WithoutNone(s: seq<MapId>, gone: seq<MapId>)
    requires forall id :: id in s ==> id !in gone
    ensures Without(s, gone) == s
  {
    if s != [] {
      WithoutNone(s[1..], gone);
    }
  }

  /** The requests a step puts on the channel to bank `b`. */
  function Sent(s: System, e: Event, b: U16): (q: seq<Request>) {
    match e
    case Push(d) =>
      if d == b && b in s.banks && KnownLists(s, b)
      then Requested(s.maps, s.banks[b].mnew, true) + Requested(s.maps, s.banks[b].delreq, false)
      else []
    case BankConn(d, _, _) =>
      if d == b && b !in s.banks then Requested(s.maps, OfBank(s.maps, s.listed, b), true) else []
    case _ => []
  }

  /** What is on the channel to bank `b`; nothing while it is not connected. */
  function Channel(s: System, b: U16): (q: seq<Request>) {
    if b in s.banks then s.banks[b].toBank else []
  }

  /** What a step leaves on the channel: all of it, but for the request bankd takes and the loss of
      the connection. */
  function Remains(s: System, e: Event, b: U16): (q: seq<Request>) {
    if e == TcpDown(b) || Channel(s, b) == [] then []
    else if e == BankdRx(b) then Channel(s, b)[1..]
    else Channel(s, b)
  }

  lemma PushSends(s: System, d: U16, b: U16)
    ensures Channel(PushMaps(s, d), b) == Channel(s, b) + Sent(s, Push(d), b)
  {}

  lemma ConnectSends(s: System, d: U16, slots: nat, table: set<Pair>, b: U16)
    requires Inv(s)
    ensures Channel(Connect(s, d, slots, table), b) == Channel(s, b) + Sent(s, BankConn(d, slots, table), b)
  {
    hide PushMaps, SetState, OfBank, Requested, Inv;
    if d !in s.banks {
      if d == b {
        ConnectedMaps(s, b, slots, table);
      } else {
        ConnectLeavesAll(s, d, slots, table);
        if b in s.banks {
          ConnectLeaves(s, d, slots, table, b);
        }
      }
    }
  }

  lemma {:induction false} ResetSendsNothing(s: System, ids: seq<MapId>, b: U16)
    ensures Channel(ResetMaps(s, ids), b) == Channel(s, b)
    decreases |ids|
  {
    if ids != [] {
      hide Without;
      ResetSendsNothing(if ids[0] in s.maps then MarkDeleted(s, ids[0]) else s, ids[1..], b);
    }
  }

  /** For every step, what is on the channel afterwards is what the step left on it and then what
      the step sent. */
  lemma ChannelStep(s: System, e: Event, b: U16)
    requires Inv(s)
    ensures Channel(Step(s, e), b) == Remains(s, e, b) + Sent(s, e, b)
  {
    hide Inv, ResetMaps, Connect, PushMaps, Sent, SetState, Without, Handle, Answer, InUse, FindListed;
    match e
    case GlobalReset => ResetSendsNothing(s, s.listed, b); SendsNothing(s, e, b);
    case BankConn(d, n, t) => ConnectSends(s, d, n, t, b);
    case Push(d) => PushSends(s, d, b);
    case _ => SendsNothing(s, e, b);
  }

  lemma SendsNothing(s: System, e: Event, b: U16)
    requires !e.BankConn? && !e.Push?
    ensures Sent(s, e, b) == []
  {}

  lemma OnlyConnectConnects(s: System, d: U16)
    ensures PushMaps(s, d).banks.Keys == s.banks.Keys
  {}

  lemma ConnectLeavesAll(s: System, d: U16, slots: nat, table: set<Pair>)
    ensures Connect(s, d, slots, table).banks.Keys == s.banks.Keys + {d}
  {}

  /** After a loss, the next connect sends exactly one create for each listed map of the bank, in
      order, and nothing else. */
  lemma ReconnectSendsListed(s: System, b: U16, slots: nat, table: set<Pair>)
    requires Inv(s) && b in s.banks
    ensures var r := Connect(Disconnect(s, b), b, slots, table);
            var ids := OfBank(s.maps, s.listed, b);
            && b in r.banks
            && (forall id :: id in ids ==> id in s.maps)
            && r.banks[b].toBank == Requested(s.maps, ids, true) && NoDup(ids)
            && r.banks[b].unack == ids && r.listed == s.listed
  {
    var s1 := Disconnect(s, b);
    DisconnectInv(s, b);
    LossKeepsListed(s, b);
    ConnectedMaps(s1, b, slots, table);
    assert NoDup(s.listed);
    hide Inv, Connect, Disconnect, NoClashes, Distinct, NoDup;
    SameOfBank(s.maps, s1.maps, s.listed, b);
    SameRequested(s.maps, s1.maps, OfBank(s.maps, s.listed, b));
  }

  lemma {:induction false} SameOfBank(maps: map<MapId, Mapping>, maps': map<MapId, Mapping>, ids: seq<MapId>, b: U16)
    requires forall id :: id in ids ==> id in maps && id in maps' && maps'[id].pair == maps[id].pair
    ensures OfBank(maps, ids, b) == OfBank(maps', ids, b)
  {
    if ids != [] {
      SameOfBank(maps, maps', ids[1..], b);
    }
  }

  lemma SameRequested(maps: map<MapId, Mapping>, maps': map<MapId, Mapping>, ids: seq<MapId>)
    requires forall id :: id in ids ==> id in maps && id in maps' && maps'[id].pair == maps[id].pair
    ensures Requested(maps, ids, true) == Requested(maps', ids, true)
  {}

  lemma MarkedUnlisted(s: System, id: MapId)
    requires id in s.maps
    ensures var r := MarkDeleted(s, id);
            && r.nextId == s.nextId
            && (forall x :: x in r.listed <==> x in s.listed && x != id)
            && (forall x :: x != id ==> (x in r.maps <==> x in s.maps))
  {
    hide Without;
  }

  lemma {:induction false} ResetUnlists(s: System, ids: seq<MapId>)
    ensures ResetMaps(s, ids).nextId == s.nextId
    ensures forall id :: id in ResetMaps(s, ids).listed <==> id in s.listed && (id in ids ==> id !in s.maps)
    decreases |ids|
  {
    if ids != [] {
      assert ids == [ids[0]] + ids[1..];
      var r := if ids[0] in s.maps then MarkDeleted(s, ids[0]) else s;
      if ids[0] in s.maps {
        MarkedUnlisted(s, ids[0]);
      }
      hide MarkDeleted;
      ResetUnlists(r, ids[1..]);
    }
  }

  /** A map once off the global list never comes back: only a fresh id is ever added. */
  lemma StepLists(s: System, e: Event)
    ensures Step(s, e).nextId >= s.nextId
    ensures forall id :: id in Step(s, e).listed ==> id in s.listed || id >= s.nextId
  {
    hide Without, SetState, Requested, OfBank, InUse, FindListed, Handle, Answer, KnownLists;
    if e.GlobalReset? {
      hide MarkDeleted, ResetMaps;
      ResetUnlists(s, s.listed);
    }
  }

  lemma RequestedOf(maps: map<MapId, Mapping>, ids: seq<MapId>, create: bool, q: Request)
    requires forall id :: id in ids ==> id in maps
    requires q in Requested(maps, ids, create)
    ensures q.Create? <==> create
    ensures q.about in ids
  {
    var i :| 0 <= i < |ids| && Requested(maps, ids, create)[i] == q;
    assert ids[i] in ids;
  }

  lemma SentIsListed(s: System, e: Event, b: U16, q: Request)
    requires Inv(s) && q in Sent(s, e, b) && q.Create?
    ensures q.about in s.listed
  {
    if e.Push? {
      var c := s.banks[b];
      NewPairsApart(s, b);
      InvParts(s, b);
      hide Inv, NoClashes, Pairs, Requested;
      if q in Requested(s.maps, c.mnew, true) {
        RequestedOf(s.maps, c.mnew, true, q);
      } else {
        RequestedOf(s.maps, c.delreq, false, q);
      }
    } else {
      hide Inv, Requested;
      RequestedOf(s.maps, OfBank(s.maps, s.listed, b), true, q);
    }
  }

  /** A mapping that has been deleted through REST, in whatever state, is never sent in a create
      again: after any run, whatever step comes next, what it puts on any channel behind what was
      there holds no create for it. */
  lemma {:induction false} NeverCreatedAgain(s: System, id: MapId, es: seq<Event>, e: Event, b: U16)
    requires Inv(s) && id < s.nextId && id !in s.listed
    ensures var r := Run(s, es);
            && Channel(Step(r, e), b) == Remains(r, e, b) + Sent(r, e, b)
            && forall q :: q in Sent(r, e, b) && q.Create? ==> q.about != id
    decreases |es|
  {
    hide Inv, Step, Sent, Channel, Remains;
    if es == [] {
      ChannelStep(s, e, b);
      forall q | q in Sent(s, e, b) && q.Create? ensures q.about != id {
        SentIsListed(s, e, b, q);
      }
    } else {
      StepInv(s, es[0]);
      StepLists(s, es[0]);
      NeverCreatedAgain(Step(s, es[0]), id, es[1..], e, b);
    }
  }

  predicate Asked(s: System, b: U16, q: Request) {
    q in Channel(s, b)
  }

  /** So a create for it that is on a channel after any run was on that channel already when the
      mapping was deleted. */
  lemma {:induction false} OnlyOldCreates(s: System, id: MapId, es: seq<Event>, b: U16, q: Request)
    requires Inv(s) && id < s.nextId && id !in s.listed
    requires Asked(Run(s, es), b, q) && q.Create? && q.about == id
    ensures Asked(s, b, q)
    decreases |es|
  {
    hide Inv, Step, Sent;
    if es != [] {
      StepInv(s, es[0]);
      StepLists(s, es[0]);
      OnlyOldCreates(Step(s, es[0]), id, es[1..], b, q);
      ChannelStep(s, es[0], b);
      if q in Sent(s, es[0], b) {
        SentIsListed(s, es[0], b, q);
      }
    }
  }

  lemma HasFirst(s: seq<MapId>)
    ensures s == [] || s[0] in s
  {}

  /** A global reset empties the global list. */
  lemma ResetEmpties(s: System)
    requires Inv(s)
    ensures Step(s, GlobalReset).listed == []
    ensures Step(s, GlobalReset).nextId == s.nextId && forall id :: id in s.listed ==> id < s.nextId
  {
    hide BanksInv, NoDup, Clash, ResetMaps;
    ResetUnlists(s, s.listed);
    HasFirst(ResetMaps(s, s.listed).listed);
  }

  lemma DeleteUnlists(s: System, slotId: nat, id: MapId)
    requires Inv(s) && id in s.listed && SlotId(s.maps[id].pair.bank) == slotId
    ensures id !in DeleteMap(s, slotId).listed && id < DeleteMap(s, slotId).nextId
  {
    hide BanksInv, NoDup, Without;
    var f := FindListed(s, s.listed, slotId);
    assert f.At?;
    SlotIdUnique(s.maps[id].pair.bank, s.maps[f.index].pair.bank);
    assert f.index == id;
  }

  // ----- what goes wrong otherwise

  const BANK_SLOT: BankSlot := BankSlot(1, 0)
  const PAIR: Pair := Pair(BANK_SLOT, ClientSlot(7, 0))

  const IDLE: Conn := Conn(8, [], [], [], [], [], [], [], {})

  lemma RunUnfold(s: System, es: seq<Event>)
    ensures es == [] ==> Run(s, es) == s
    ensures es != [] ==> Run(s, es) == Run(Step(s, es[0]), es[1..])
  {}

  lemma ConnectIdle()
    ensures Step(INITIAL, BankConn(1, 8, {})) == System(map[], [], map[1 := IDLE], 0)
  {
    var s1 := Associated(INITIAL, 1, 8, {});
    assert s1.maps == map[];
    assert s1.banks == map[1 := IDLE];
    assert Pushed(s1.maps, IDLE) == IDLE;
    var r := PushMaps(s1, 1);
    assert r.maps == map[];
    assert r.banks == map[1 := IDLE];
  }

  lemma PostOne()
    ensures Step(System(map[], [], map[1 := IDLE], 0), Post(PAIR))
         == System(map[0 := Mapping(PAIR, NEW)], [0], map[1 := IDLE.(mnew := [0])], 1)
  {
    var s := System(map[], [], map[1 := IDLE], 0);
    assert !InUse(s, PAIR);
    var r := PostMap(s, PAIR);
    assert r.maps == map[0 := Mapping(PAIR, NEW)];
    assert r.banks[1] == IDLE.(mnew := [0]);
    assert r.banks == map[1 := IDLE.(mnew := [0])];
  }

  lemma PushOne()
    ensures Step(System(map[0 := Mapping(PAIR, NEW)], [0], map[1 := IDLE.(mnew := [0])], 1), Push(1))
         == System(map[0 := Mapping(PAIR, UNACKNOWLEDGED)], [0], map[1 := IDLE.(unack := [0], toBank := [Create(0, PAIR)])], 1)
  {
    var s := System(map[0 := Mapping(PAIR, NEW)], [0], map[1 := IDLE.(mnew := [0])], 1);
    OneRequested(s.maps);
    OnePushed(s.maps);
    hide SetState, Requested;
    var r := PushMaps(s, 1);
    assert r.banks[1] == IDLE.(unack := [0], toBank := [Create(0, PAIR)]);
    assert r.banks == map[1 := r.banks[1]];
  }

  lemma OneRequested(maps: map<MapId, Mapping>)
    requires maps == map[0 := Mapping(PAIR, NEW)]
    ensures Requested(maps, [0], true) == [Create(0, PAIR)] && Requested(maps, [], false) == []
  {}

  lemma OnePushed(maps: map<MapId, Mapping>)
    requires maps == map[0 := Mapping(PAIR, NEW)]
    ensures SetState(SetState(maps, [0], UNACKNOWLEDGED), [], DELETING) == map[0 := Mapping(PAIR, UNACKNOWLEDGED)]
  {}

  lemma DeleteOne(s: System)
    requires s == System(map[0 := Mapping(PAIR, UNACKNOWLEDGED)], [0], map[1 := IDLE.(unack := [0], toBank := [Create(0, PAIR)])], 1)
    ensures Step(s, RestDelete(SlotId(BANK_SLOT))) == s.(listed := [])
  {
    assert FindListed(s, [0], SlotId(BANK_SLOT)) == At(0);
    assert Without([0], [0]) == [];
  }

  const ORPHANED: System :=
    System(map[0 := Mapping(PAIR, ACTIVE)], [], map[1 := IDLE.(active := [0], table := {PAIR})], 1)

  lemma HandleOne(s: System)
    requires s.banks == map[1 := IDLE.(unack := [0], toBank := [Create(0, PAIR)])]
    ensures Step(s, BankdRx(1))
         == s.(banks := map[1 := IDLE.(unack := [0], toServer := [CreateRes(0, true)], table := {PAIR})])
  {
    var r := BankdStep(s, 1);
    assert r.banks[1] == IDLE.(unack := [0], toServer := [CreateRes(0, true)], table := {PAIR});
    assert r.banks == map[1 := r.banks[1]];
  }

  lemma AnswerOne(s: System)
    requires s == System(map[0 := Mapping(PAIR, UNACKNOWLEDGED)], [],
                         map[1 := IDLE.(unack := [0], toServer := [CreateRes(0, true)], table := {PAIR})], 1)
    ensures Step(s, ServerRx(1)) == ORPHANED
  {
    assert SetState(s.maps, [0], ACTIVE) == ORPHANED.maps;
    var r := ServerStep(s, 1);
    assert r.banks[1] == ORPHANED.banks[1];
    assert r.banks == ORPHANED.banks;
  }

  const ORPHANING: seq<Event> :=
    [BankConn(1, 8, {}), Post(PAIR), Push(1), RestDelete(SlotId(BANK_SLOT)), BankdRx(1), ServerRx(1)]

  /** A map deleted while UNACKNOWLEDGED: nothing is in flight, nothing is pending, nothing is
      listed, and bankd keeps the mapping. */
  lemma DeletedWhileUnacknowledged()
    ensures var s := Run(INITIAL, ORPHANING);
            && s == ORPHANED
            && Quiescent(s.banks[1]) && s.listed == [] && s.banks[1].table == {PAIR}
  {
    hide Step, Run;
    var es := ORPHANING;
    var s3 := System(map[0 := Mapping(PAIR, UNACKNOWLEDGED)], [0], map[1 := IDLE.(unack := [0], toBank := [Create(0, PAIR)])], 1);
    var s4 := s3.(listed := []);
    ConnectIdle();
    PostOne();
    PushOne();
    DeleteOne(s3);
    HandleOne(s4);
    AnswerOne(Step(s4, BankdRx(1)));
    RunUnfold(INITIAL, es);
    RunUnfold(System(map[], [], map[1 := IDLE], 0), es[1..]);
    RunUnfold(System(map[0 := Mapping(PAIR, NEW)], [0], map[1 := IDLE.(mnew := [0])], 1), es[1..][1..]);
    RunUnfold(s3, es[1..][1..][1..]);
    RunUnfold(s4, es[1..][1..][1..][1..]);
    RunUnfold(Step(s4, BankdRx(1)), es[1..][1..][1..][1..][1..]);
    RunUnfold(ORPHANED, es[1..][1..][1..][1..][1..][1..]);
  }

  /** Another bank slot for the same client, which the orphan still holds in bankd. */
  const RIVAL: Pair := Pair(BankSlot(1, 1), ClientSlot(7, 0))

  /** A PUSH that does not fit: bankd refuses the pair, and the server, which ignores the result
      code, goes on to believe that bankd holds it. */
  lemma RefusedCreate()
    ensures var s := Step(Run(INITIAL, ORPHANING), Post(RIVAL));
            Agree(s, 1) && !Agree(Step(s, Push(1)), 1)
  {
    hide Run;
    DeletedWhileUnacknowledged();
    PostRival();
    RivalAgrees();
    RivalDisagrees();
  }

  const RIVALRY: System :=
    System(map[0 := Mapping(PAIR, ACTIVE), 1 := Mapping(RIVAL, NEW)], [1],
           map[1 := IDLE.(mnew := [1], active := [0], table := {PAIR})], 2)

  lemma PostRival()
    ensures Step(ORPHANED, Post(RIVAL)) == RIVALRY
  {
    var r := PostMap(ORPHANED, RIVAL);
    assert r.maps == RIVALRY.maps;
    assert r.banks[1] == RIVALRY.banks[1];
    assert r.banks == RIVALRY.banks;
  }

  lemma RivalAgrees()
    ensures Agree(RIVALRY, 1)
  {
    var c := RIVALRY.banks[1];
    assert Held(c) == [0];
    assert PairSet(RIVALRY.maps, [0]) == {PAIR} by {
      assert 0 in [0] && RIVALRY.maps[0].pair == PAIR;
    }
  }

  lemma RivalDisagrees()
    ensures !Agree(Step(RIVALRY, Push(1)), 1)
  {
    var c := RIVALRY.banks[1];
    var r := PushMaps(RIVALRY, 1);
    var d := r.banks[1];
    assert Requested(RIVALRY.maps, [1], true) == [Create(1, RIVAL)];
    assert d.toBank == [Create(1, RIVAL)] && d.table == {PAIR};
    assert ClientUsed(Evict({PAIR}, RIVAL.bank), RIVAL.client);
    assert Drain({PAIR}, 1, 8, [Create(1, RIVAL)]) == Evict({PAIR}, RIVAL.bank);
    assert RIVAL in PairSet(r.maps, Held(d)) by {
      assert 1 in Held(d) && r.maps[1].pair == RIVAL;
    }
  }
}
