/** Replica agreement: when bankd's table, once the requests in flight are handled, is what the
    server believes it to be. */
module Agreement {
  import opened SlotTable
  import opened Replication
  import opened Coherence

  // ----- a batch of creates on a one-to-one table

  function CreateAll(t: set<Pair>, b: U16, n: nat, ps: seq<Pair>): (r: set<Pair>)
    decreases |ps|
  {
    if ps == [] then t else CreateAll(Created(t, b, n, ps[0]), b, n, ps[1..])
  }

  predicate NoClashes(ps: seq<Pair>) {
    forall i, j :: 0 <= i < j < |ps| ==> !Clash(ps[i], ps[j])
  }

  /** An entry with the client of the i-th create is in the way unless an earlier create of the
      batch has taken its bank slot. */
  predicate Lands(t: set<Pair>, ps: seq<Pair>) {
    forall i, q :: 0 <= i < |ps| && q in t && q.client == ps[i].client && q != ps[i] ==>
      exists j :: 0 <= j < i && ps[j].bank == q.bank
  }

  function EvictAll(t: set<Pair>, ps: seq<Pair>): (r: set<Pair>) {
    set q | q in t && forall p :: p in ps ==> p.bank != q.bank
  }

  predicate AllAccepted(b: U16, n: nat, ps: seq<Pair>) {
    forall p :: p in ps ==> Accepts(b, n, p)
  }

  predicate InRange(t: set<Pair>, b: U16, n: nat) {
    forall p :: p in t ==> Accepts(b, n, p)
  }

  lemma CreatedOneToOne(t: set<Pair>, b: U16, n: nat, p: Pair)
    requires OneToOneSet(t)
    ensures OneToOneSet(Created(t, b, n, p))
  {}

  lemma CreatedInRange(t: set<Pair>, b: U16, n: nat, p: Pair)
    requires InRange(t, b, n)
    ensures InRange(Created(t, b, n, p), b, n)
  {}

  lemma {:induction false} CreateAllFrom(t: set<Pair>, b: U16, n: nat, ps: seq<Pair>, x: Pair)
    requires x in CreateAll(t, b, n, ps)
    ensures x in t || (x in ps && Accepts(b, n, x))
    decreases |ps|
  {
    if ps != [] {
      CreateAllFrom(Created(t, b, n, ps[0]), b, n, ps[1..], x);
    }
  }

  /** The first create lands: nobody else has its client. */
  predicate FirstLands(t: set<Pair>, p: Pair) {
    forall q :: q in t && q.client == p.client ==> q == p
  }

  lemma CreatedLanding(t: set<Pair>, b: U16, n: nat, p: Pair)
    requires OneToOneSet(t) && Accepts(b, n, p)
    ensures FirstLands(t, p) ==> Created(t, b, n, p) == Evict(t, p.bank) + {p}
    ensures !FirstLands(t, p) ==> p !in Created(t, b, n, p)
  {}

  lemma LandsUnfold(t: set<Pair>, ps: seq<Pair>)
    requires ps != [] && NoClashes(ps)
    ensures Lands(t, ps) <==> FirstLands(t, ps[0]) && Lands(Evict(t, ps[0].bank) + {ps[0]}, ps[1..])
  {}

  lemma NoClashTail(ps: seq<Pair>)
    requires ps != [] && NoClashes(ps)
    ensures NoClashes(ps[1..])
    ensures forall p :: p in ps[1..] ==> !Clash(ps[0], p) && !Clash(p, ps[0])
  {}

  /** All creates of a batch land exactly when none finds its client in use; then the table is the
      old one without the former owners of their bank slots, with the new pairs. */
  lemma {:induction false} CreatesLand(t: set<Pair>, b: U16, n: nat, ps: seq<Pair>)
    requires OneToOneSet(t) && NoClashes(ps) && AllAccepted(b, n, ps)
    ensures Lands(t, ps) ==> CreateAll(t, b, n, ps) == EvictAll(t, ps) + (set p | p in ps)
    ensures !Lands(t, ps) ==> exists p :: p in ps && p !in CreateAll(t, b, n, ps)
    decreases |ps|
  {
    if ps == [] {
      assert EvictAll(t, ps) == t;
    } else {
      var p, rest := ps[0], ps[1..];
      var t1 := Created(t, b, n, p);
      hide Lands, Created, NoClashes, OneToOneSet;
      LandsUnfold(t, ps);
      CreatedLanding(t, b, n, p);
      NoClashTail(ps);
      CreatedOneToOne(t, b, n, p);
      if FirstLands(t, p) {
        hide FirstLands;
        CreatesLand(t1, b, n, rest);
        EvictStep(t, ps);
        if !Lands(t1, rest) {
          var q :| q in rest && q !in CreateAll(t1, b, n, rest);
          assert q in ps;
        }
      } else {
        NeverAdded(t1, b, n, rest, p);
        assert p in ps;
      }
    }
  }

  lemma NeverAdded(t: set<Pair>, b: U16, n: nat, ps: seq<Pair>, p: Pair)
    requires p !in t && p !in ps
    ensures p !in CreateAll(t, b, n, ps)
  {
    if p in CreateAll(t, b, n, ps) {
      CreateAllFrom(t, b, n, ps, p);
    }
  }

  lemma EvictStep(t: set<Pair>, ps: seq<Pair>)
    requires ps != []
    requires forall q :: q in ps[1..] ==> !Clash(ps[0], q)
    ensures EvictAll(Evict(t, ps[0].bank) + {ps[0]}, ps[1..]) + (set q | q in ps[1..])
         == EvictAll(t, ps) + (set q | q in ps)
  {}

  /** A batch is wholly in the table afterwards exactly when each create is accepted and lands. */
  lemma BatchExact(t: set<Pair>, b: U16, n: nat, ps: seq<Pair>)
    requires OneToOneSet(t) && NoClashes(ps) && InRange(t, b, n)
    ensures (forall p :: p in ps ==> p in CreateAll(t, b, n, ps)) <==> AllAccepted(b, n, ps) && Lands(t, ps)
    ensures AllAccepted(b, n, ps) && Lands(t, ps) ==> CreateAll(t, b, n, ps) == EvictAll(t, ps) + (set p | p in ps)
  {
    hide Lands, NoClashes, OneToOneSet, EvictAll, Accepts;
    if AllAccepted(b, n, ps) {
      CreatesLand(t, b, n, ps);
    } else {
      var p :| p in ps && !Accepts(b, n, p);
      if p in CreateAll(t, b, n, ps) {
        CreateAllFrom(t, b, n, ps, p);
      }
    }
  }

  // ----- draining

  function Drain(t: set<Pair>, b: U16, n: nat, q: seq<Request>): (r: set<Pair>)
    decreases |q|
  {
    if q == [] then t else Drain(Handle(t, b, n, q[0]), b, n, q[1..])
  }

  lemma {:induction false} DrainConcat(t: set<Pair>, b: U16, n: nat, p: seq<Request>, q: seq<Request>)
    ensures Drain(t, b, n, p + q) == Drain(Drain(t, b, n, p), b, n, q)
    decreases |p|
  {
    hide Handle;
    if p == [] {
      assert p + q == q;
    } else {
      DrainConcat(Handle(t, b, n, p[0]), b, n, p[1..], q);
      assert (p + q)[1..] == p[1..] + q;
    }
  }

  function Pairs(maps: map<MapId, Mapping>, ids: seq<MapId>): (ps: seq<Pair>)
    requires forall id :: id in ids ==> id in maps
    ensures |ps| == |ids| && forall i :: 0 <= i < |ids| ==> ps[i] == maps[ids[i]].pair
  {
    seq(|ids|, i requires 0 <= i < |ids| => maps[ids[i]].pair)
  }

  function PairSet(maps: map<MapId, Mapping>, ids: seq<MapId>): (ps: set<Pair>) {
    set id | id in ids && id in maps :: maps[id].pair
  }

  lemma {:induction false} DrainCreates(t: set<Pair>, b: U16, n: nat, maps: map<MapId, Mapping>, ids: seq<MapId>)
    requires forall id :: id in ids ==> id in maps
    ensures Drain(t, b, n, Requested(maps, ids, true)) == CreateAll(t, b, n, Pairs(maps, ids))
    decreases |ids|
  {
    if ids != [] {
      var q := Requested(maps, ids, true);
      assert q[1..] == Requested(maps, ids[1..], true);
      assert Pairs(maps, ids)[1..] == Pairs(maps, ids[1..]);
      DrainCreates(Created(t, b, n, maps[ids[0]].pair), b, n, maps, ids[1..]);
    }
  }

  lemma {:induction false} DrainRemoves(t: set<Pair>, b: U16, n: nat, maps: map<MapId, Mapping>, ids: seq<MapId>)
    requires InRange(t, b, n) && forall id :: id in ids ==> id in maps
    ensures Drain(t, b, n, Requested(maps, ids, false)) == t - PairSet(maps, ids)
    decreases |ids|
  {
    if ids != [] {
      var q, p := Requested(maps, ids, false), maps[ids[0]].pair;
      assert q[1..] == Requested(maps, ids[1..], false);
      var t1 := Removed(t, b, n, p);
      RemovedInRange(t, b, n, p);
      DrainRemoves(t1, b, n, maps, ids[1..]);
      PairSetUnfold(maps, ids);
    }
  }

  lemma RemovedInRange(t: set<Pair>, b: U16, n: nat, p: Pair)
    requires InRange(t, b, n)
    ensures Removed(t, b, n, p) == t - {p} && InRange(Removed(t, b, n, p), b, n)
  {}

  lemma PairSetUnfold(maps: map<MapId, Mapping>, ids: seq<MapId>)
    requires ids != [] && ids[0] in maps
    ensures PairSet(maps, ids) == {maps[ids[0]].pair} + PairSet(maps, ids[1..])
  {}

  lemma {:induction false} CreateAllInRange(t: set<Pair>, b: U16, n: nat, ps: seq<Pair>)
    requires InRange(t, b, n)
    ensures InRange(CreateAll(t, b, n, ps), b, n)
    decreases |ps|
  {
    if ps != [] {
      CreatedInRange(t, b, n, ps[0]);
      CreateAllInRange(Created(t, b, n, ps[0]), b, n, ps[1..]);
    }
  }

  lemma RemovedOneToOne(t: set<Pair>, b: U16, n: nat, p: Pair)
    requires OneToOneSet(t)
    ensures OneToOneSet(Removed(t, b, n, p))
  {}

  /** bankd's table is one-to-one whatever is asked of it. */
  lemma {:induction false} DrainOneToOne(t: set<Pair>, b: U16, n: nat, q: seq<Request>)
    requires OneToOneSet(t)
    ensures OneToOneSet(Drain(t, b, n, q))
    decreases |q|
  {
    if q != [] {
      CreatedOneToOne(t, b, n, q[0].pair);
      RemovedOneToOne(t, b, n, q[0].pair);
      hide Created, Removed, OneToOneSet;
      DrainOneToOne(Handle(t, b, n, q[0]), b, n, q[1..]);
    }
  }

  lemma {:induction false} DrainInRange(t: set<Pair>, b: U16, n: nat, q: seq<Request>)
    requires InRange(t, b, n)
    ensures InRange(Drain(t, b, n, q), b, n)
    decreases |q|
  {
    if q != [] {
      CreatedInRange(t, b, n, q[0].pair);
      RemovedInRange(t, b, n, q[0].pair);
      hide Created, Removed, InRange;
      DrainInRange(Handle(t, b, n, q[0]), b, n, q[1..]);
    }
  }

  // ----- agreement

  /** The maps the server believes bankd to hold once nothing is in flight. */
  function Held(c: Conn): (ids: seq<MapId>) {
    c.unack + c.active + c.delreq
  }

  predicate AgreeConn(maps: map<MapId, Mapping>, b: U16, c: Conn) {
    Drain(c.table, b, c.slots, c.toBank) == PairSet(maps, Held(c))
  }

  /** The table after draining is the UNACKNOWLEDGED, ACTIVE and DELETE_REQ maps. */
  predicate Agree(s: System, b: U16) {
    b in s.banks && AgreeConn(s.maps, b, s.banks[b])
  }

  /** What bankd keeps on its own: its table is one-to-one and names its own slots. */
  predicate Sound(b: U16, c: Conn) {
    OneToOneSet(c.table) && InRange(c.table, b, c.slots)
  }

  predicate SoundBank(s: System, b: U16) {
    b in s.banks && Sound(b, s.banks[b])
  }

  predicate Quiescent(c: Conn) {
    c.toBank == [] && c.toServer == [] && c.mnew == [] && c.delreq == []
  }

  /** Nothing in flight and nothing pending: the table is exactly the ACTIVE maps. */
  lemma QuiescentTable(s: System, b: U16)
    requires Inv(s) && Agree(s, b) && Quiescent(s.banks[b])
    ensures s.banks[b].table == PairSet(s.maps, s.banks[b].active)
  {
    hide Inv, PairSet, Lists;
    InvParts(s, b);
    var c := s.banks[b];
    assert c.unack == [];
    assert Held(c) == c.active;
  }

  // ----- PUSH

  /** What a PUSH must find. Its creates name slots that exist and share no slot with a map that
      stays, unless it is the very same pair; where one shares its client with a pending delete, an
      earlier create of the same PUSH has taken that delete's bank slot; and no pending delete is
      of a pair that another map still holds. */
  predicate PushFits(maps: map<MapId, Mapping>, b: U16, c: Conn)
    requires forall id :: id in c.mnew ==> id in maps
  {
    && (forall id :: id in c.mnew ==> Accepts(b, c.slots, maps[id].pair))
    && (forall i, k :: i in c.mnew && k in c.unack + c.active && k in maps && Clash(maps[i].pair, maps[k].pair) ==>
          maps[i].pair == maps[k].pair)
    && (forall i, d :: 0 <= i < |c.mnew| && d in c.delreq && d in maps && maps[d].pair.client == maps[c.mnew[i]].pair.client ==>
          exists j :: 0 <= j < i && maps[c.mnew[j]].pair.bank == maps[d].pair.bank)
    && (forall d, k :: d in c.delreq && k in c.unack + c.active && d in maps && k in maps ==> maps[d].pair != maps[k].pair)
  }

  lemma PairsMembers(maps: map<MapId, Mapping>, ids: seq<MapId>)
    requires forall id :: id in ids ==> id in maps
    ensures (set p | p in Pairs(maps, ids)) == PairSet(maps, ids)
    ensures forall id :: id in ids ==> maps[id].pair in Pairs(maps, ids)
  {}

  lemma PairSetConcat(maps: map<MapId, Mapping>, x: seq<MapId>, y: seq<MapId>)
    ensures PairSet(maps, x + y) == PairSet(maps, x) + PairSet(maps, y)
  {}

  /** The pairs to create never clash with one another: their maps are all listed. */
  lemma NewPairsApart(s: System, b: U16)
    requires Inv(s) && b in s.banks
    ensures forall id :: id in s.banks[b].mnew ==> id in s.maps && id in s.listed
    ensures NoClashes(Pairs(s.maps, s.banks[b].mnew))
  {
    hide Clash, Awaited, Requests;
    var c := s.banks[b];
    assert BankInv(s.maps, s.listed, b, c);
    ListsKnown(s.maps, b, c);
    var ps := Pairs(s.maps, c.mnew);
    forall i, j | 0 <= i < j < |ps| ensures !Clash(ps[i], ps[j]) {
      assert c.mnew[i] in c.mnew && c.mnew[j] in c.mnew && c.mnew[i] != c.mnew[j];
    }
  }

  lemma DrainAfterPush(maps: map<MapId, Mapping>, b: U16, c: Conn)
    requires forall id :: id in c.mnew ==> id in maps
    requires forall id :: id in c.delreq ==> id in maps
    requires InRange(c.table, b, c.slots)
    ensures var d := Pushed(maps, c);
            var t := Drain(c.table, b, c.slots, c.toBank);
            Drain(d.table, b, d.slots, d.toBank) == CreateAll(t, b, c.slots, Pairs(maps, c.mnew)) - PairSet(maps, c.delreq)
  {
    hide InRange, CreateAll, Drain, Pairs, PairSet, Requested;
    var p, q := Requested(maps, c.mnew, true), Requested(maps, c.delreq, false);
    var t := Drain(c.table, b, c.slots, c.toBank);
    DrainConcat(c.table, b, c.slots, c.toBank + p, q);
    DrainConcat(c.table, b, c.slots, c.toBank, p);
    DrainCreates(t, b, c.slots, maps, c.mnew);
    DrainInRange(c.table, b, c.slots, c.toBank);
    CreateAllInRange(t, b, c.slots, Pairs(maps, c.mnew));
    DrainRemoves(CreateAll(t, b, c.slots, Pairs(maps, c.mnew)), b, c.slots, maps, c.delreq);
  }

  /** In terms of pairs only: kept pairs K, deletes Q, creates ps. */
  predicate BatchFits(K: set<Pair>, Q: set<Pair>, b: U16, n: nat, ps: seq<Pair>) {
    && AllAccepted(b, n, ps)
    && (forall p, k :: p in ps && k in K && Clash(p, k) ==> p == k)
    && (forall i, d :: 0 <= i < |ps| && d in Q && d.client == ps[i].client ==> exists j :: 0 <= j < i && ps[j].bank == d.bank)
    && K !! Q
  }

  lemma BatchLands(K: set<Pair>, Q: set<Pair>, b: U16, n: nat, ps: seq<Pair>)
    requires BatchFits(K, Q, b, n, ps)
    ensures Lands(K + Q, ps)
  {
    forall i, q | 0 <= i < |ps| && q in K + Q && q.client == ps[i].client && q != ps[i]
      ensures exists j :: 0 <= j < i && ps[j].bank == q.bank
    {
      assert ps[i] in ps;
    }
  }

  lemma NotRecreated(K: set<Pair>, Q: set<Pair>, b: U16, n: nat, ps: seq<Pair>, d: Pair)
    requires BatchFits(K, Q, b, n, ps) && NoClashes(ps) && d in Q
    ensures d !in ps
  {}

  lemma BatchResult(K: set<Pair>, Q: set<Pair>, b: U16, n: nat, ps: seq<Pair>)
    requires OneToOneSet(K + Q) && InRange(K + Q, b, n) && NoClashes(ps)
    requires BatchFits(K, Q, b, n, ps)
    ensures CreateAll(K + Q, b, n, ps) - Q == K + (set p | p in ps)
  {
    BatchLands(K, Q, b, n, ps);
    BatchExact(K + Q, b, n, ps);
    forall d | d in Q ensures d !in ps {
      NotRecreated(K, Q, b, n, ps, d);
    }
    hide CreateAll, Lands, NoClashes, OneToOneSet, InRange;
    forall k | k in K ensures k in EvictAll(K + Q, ps) || k in ps {
      assert forall p :: p in ps && p.bank == k.bank ==> Clash(p, k);
    }
  }

  /** Two creates of a batch share no slot. */
  lemma BatchApart(ps: seq<Pair>, p: Pair, q: Pair)
    requires NoClashes(ps) && p in ps && q in ps && Clash(p, q)
    ensures p == q
  {}

  /** A kept pair that is still there afterwards was not evicted by another. */
  lemma KeptApart(K: set<Pair>, Q: set<Pair>, ps: seq<Pair>, i: nat, k: Pair)
    requires NoClashes(ps) && Lands(K + Q, ps) && i < |ps| && k in K && Clash(ps[i], k)
    requires forall x :: x in K ==> x in EvictAll(K + Q, ps) + (set p | p in ps)
    ensures ps[i] == k
  {
    hide NoClashes;
    forall p | p in ps && p.bank == k.bank ensures p == k {
      assert k !in EvictAll(K + Q, ps);
      BatchApart(ps, p, k);
    }
    assert ps[i] in ps;
    if ps[i] != k {
      var j :| 0 <= j < i && ps[j].bank == k.bank;
      assert ps[j] in ps;
      BatchApart(ps, ps[i], ps[j]);
    }
  }

  /** The other direction: agreement afterwards means that the batch fitted. */
  lemma BatchNeeded(K: set<Pair>, Q: set<Pair>, b: U16, n: nat, ps: seq<Pair>)
    requires OneToOneSet(K + Q) && InRange(K + Q, b, n) && NoClashes(ps)
    requires CreateAll(K + Q, b, n, ps) - Q == K + (set p | p in ps)
    ensures BatchFits(K, Q, b, n, ps)
  {
    hide NoClashes, OneToOneSet, InRange, CreateAll, EvictAll, AllAccepted, Clash;
    var t, all := CreateAll(K + Q, b, n, ps), set p | p in ps;
    forall x | x in K || x in ps ensures x in t && x !in Q {
      assert x in K + all;
    }
    BatchExact(K + Q, b, n, ps);
    forall p, k | p in ps && k in K && Clash(p, k) ensures p == k {
      var i :| 0 <= i < |ps| && ps[i] == p;
      KeptApart(K, Q, ps, i, k);
    }
    forall i, d | 0 <= i < |ps| && d in Q && d.client == ps[i].client ensures exists j :: 0 <= j < i && ps[j].bank == d.bank {
      assert ps[i] in ps;
      assert d in K + Q && d != ps[i];
    }
  }

  lemma FitsAsPairs(maps: map<MapId, Mapping>, b: U16, c: Conn)
    requires forall id :: id in c.mnew ==> id in maps
    ensures PushFits(maps, b, c) <==>
            BatchFits(PairSet(maps, c.unack + c.active), PairSet(maps, c.delreq), b, c.slots, Pairs(maps, c.mnew))
  {
    var K, Q, ps := PairSet(maps, c.unack + c.active), PairSet(maps, c.delreq), Pairs(maps, c.mnew);
    if PushFits(maps, b, c) {
      hide Clash, Accepts, Pairs, PairSet;
      ApartAsPairs(maps, c);
      TakenToPairs(maps, c);
      AcceptedToPairs(maps, b, c);
      DisjointToPairs(maps, c);
    }
    if BatchFits(K, Q, b, c.slots, ps) {
      PairsToFits(maps, b, c);
    }
  }

  lemma PairsToFits(maps: map<MapId, Mapping>, b: U16, c: Conn)
    requires forall id :: id in c.mnew ==> id in maps
    requires BatchFits(PairSet(maps, c.unack + c.active), PairSet(maps, c.delreq), b, c.slots, Pairs(maps, c.mnew))
    ensures PushFits(maps, b, c)
  {
    hide Clash, Accepts, AllAccepted;
    AcceptedFromPairs(maps, b, c);
    PairsMembers(maps, c.mnew);
    hide Pairs;
    TakenFromPairs(maps, c);
    var K, Q, ps := PairSet(maps, c.unack + c.active), PairSet(maps, c.delreq), Pairs(maps, c.mnew);
    forall i, k | i in c.mnew && k in c.unack + c.active && k in maps && Clash(maps[i].pair, maps[k].pair)
      ensures maps[i].pair == maps[k].pair
    {
      assert maps[k].pair in K && maps[i].pair in ps;
    }
    forall d, k | d in c.delreq && k in c.unack + c.active && d in maps && k in maps ensures maps[d].pair != maps[k].pair {
      assert maps[k].pair in K && maps[d].pair in Q;
    }
  }

  predicate TakenPairs(ps: seq<Pair>, Q: set<Pair>) {
    forall i, d :: 0 <= i < |ps| && d in Q && d.client == ps[i].client ==> exists j :: 0 <= j < i && ps[j].bank == d.bank
  }

  lemma TakenFromPairs(maps: map<MapId, Mapping>, c: Conn)
    requires forall id :: id in c.mnew ==> id in maps
    requires TakenPairs(Pairs(maps, c.mnew), PairSet(maps, c.delreq))
    ensures forall i, d :: 0 <= i < |c.mnew| && d in c.delreq && d in maps && maps[d].pair.client == maps[c.mnew[i]].pair.client ==>
      exists j :: 0 <= j < i && maps[c.mnew[j]].pair.bank == maps[d].pair.bank
  {
    var Q, ps := PairSet(maps, c.delreq), Pairs(maps, c.mnew);
    forall i, d | 0 <= i < |c.mnew| && d in c.delreq && d in maps && maps[d].pair.client == maps[c.mnew[i]].pair.client
      ensures exists j :: 0 <= j < i && maps[c.mnew[j]].pair.bank == maps[d].pair.bank
    {
      assert maps[d].pair in Q && ps[i].client == maps[d].pair.client;
      var j :| 0 <= j < i && ps[j].bank == maps[d].pair.bank;
      assert ps[j] == maps[c.mnew[j]].pair;
    }
  }

  lemma TakenToPairs(maps: map<MapId, Mapping>, c: Conn)
    requires forall id :: id in c.mnew ==> id in maps
    requires forall i, d :: 0 <= i < |c.mnew| && d in c.delreq && d in maps && maps[d].pair.client == maps[c.mnew[i]].pair.client ==>
      exists j :: 0 <= j < i && maps[c.mnew[j]].pair.bank == maps[d].pair.bank
    ensures TakenPairs(Pairs(maps, c.mnew), PairSet(maps, c.delreq))
  {}

  lemma AcceptedToPairs(maps: map<MapId, Mapping>, b: U16, c: Conn)
    requires forall id :: id in c.mnew ==> id in maps && Accepts(b, c.slots, maps[id].pair)
    ensures AllAccepted(b, c.slots, Pairs(maps, c.mnew))
  {}

  lemma AcceptedFromPairs(maps: map<MapId, Mapping>, b: U16, c: Conn)
    requires forall id :: id in c.mnew ==> id in maps
    requires AllAccepted(b, c.slots, Pairs(maps, c.mnew))
    ensures forall id :: id in c.mnew ==> Accepts(b, c.slots, maps[id].pair)
  {
    hide Accepts;
    PairsMembers(maps, c.mnew);
  }

  lemma DisjointToPairs(maps: map<MapId, Mapping>, c: Conn)
    requires forall d, k :: d in c.delreq && k in c.unack + c.active && d in maps && k in maps ==> maps[d].pair != maps[k].pair
    ensures PairSet(maps, c.unack + c.active) !! PairSet(maps, c.delreq)
  {}

  lemma ApartAsPairs(maps: map<MapId, Mapping>, c: Conn)
    requires forall id :: id in c.mnew ==> id in maps
    requires forall i, k :: i in c.mnew && k in c.unack + c.active && k in maps && Clash(maps[i].pair, maps[k].pair) ==>
      maps[i].pair == maps[k].pair
    ensures forall p, k :: p in Pairs(maps, c.mnew) && k in PairSet(maps, c.unack + c.active) && Clash(p, k) ==> p == k
  {}

  lemma HeldPairs(maps: map<MapId, Mapping>, c: Conn)
    ensures PairSet(maps, Held(c)) == PairSet(maps, c.unack + c.active) + PairSet(maps, c.delreq)
  {
    PairSetConcat(maps, c.unack + c.active, c.delreq);
  }

  lemma PushHeld(maps: map<MapId, Mapping>, b: U16, c: Conn)
    requires Lists(maps, b, c)
    requires forall id :: id in c.mnew ==> id in maps
    requires forall id :: id in c.delreq ==> id in maps
    ensures PairSet(PushedMaps(maps, c), Held(Pushed(maps, c))) == PairSet(maps, c.unack + c.active) + PairSet(maps, c.mnew)
  {
    hide Lists, Requested, PushedMaps, PairSet;
    PushedMap(maps, b, c);
    var maps', ids := PushedMaps(maps, c), c.unack + c.mnew + c.active;
    assert Held(Pushed(maps, c)) == ids;
    PairSetConcat(maps, c.unack + c.active, c.mnew);
    SamePairs(maps, maps', ids);
    ReorderedPairs(maps, ids, c.unack + c.active + c.mnew);
  }

  /** Only the pairs matter, not the states. */
  lemma SamePairs(maps: map<MapId, Mapping>, maps': map<MapId, Mapping>, ids: seq<MapId>)
    requires forall id :: id in ids ==> (id in maps <==> id in maps') && (id in maps ==> maps[id].pair == maps'[id].pair)
    ensures PairSet(maps, ids) == PairSet(maps', ids)
  {}

  lemma ReorderedPairs(maps: map<MapId, Mapping>, x: seq<MapId>, y: seq<MapId>)
    requires forall id :: id in x <==> id in y
    ensures PairSet(maps, x) == PairSet(maps, y)
  {}

  /** PUSH keeps the agreement exactly when it fits. */
  lemma PushExact(s: System, b: U16)
    requires Inv(s) && SoundBank(s, b) && Agree(s, b)
    ensures forall id :: id in s.banks[b].mnew ==> id in s.maps
    ensures Agree(PushMaps(s, b), b) <==> PushFits(s.maps, b, s.banks[b])
  {
    hide *;
    AgreeParts(s, b);
    InvParts(s, b);
    var c, maps := s.banks[b], s.maps;
    var K, Q, ps := PairSet(maps, c.unack + c.active), PairSet(maps, c.delreq), Pairs(maps, c.mnew);
    NewPairsApart(s, b);
    SoundParts(s, b);
    HeldPairs(maps, c);
    DrainOneToOne(c.table, b, c.slots, c.toBank);
    DrainInRange(c.table, b, c.slots, c.toBank);
    DrainAfterPush(maps, b, c);
    PairsMembers(maps, c.mnew);
    PushHeld(maps, b, c);
    FitsAsPairs(maps, b, c);
    PushedAgree(s, b);
    if BatchFits(K, Q, b, c.slots, ps) {
      BatchResult(K, Q, b, c.slots, ps);
    }
    if Agree(PushMaps(s, b), b) {
      BatchNeeded(K, Q, b, c.slots, ps);
    }
  }

  lemma InvParts(s: System, b: U16)
    requires Inv(s) && b in s.banks
    ensures BankInv(s.maps, s.listed, b, s.banks[b]) && Lists(s.maps, b, s.banks[b]) && Awaited(s.banks[b])
    ensures KnownLists(s, b)
    ensures forall id :: id in s.banks[b].mnew ==> id in s.maps
    ensures forall id :: id in s.banks[b].delreq ==> id in s.maps
  {}

  lemma AgreeParts(s: System, b: U16)
    requires Agree(s, b)
    ensures b in s.banks
    ensures var c := s.banks[b]; Drain(c.table, b, c.slots, c.toBank) == PairSet(s.maps, Held(c))
  {}

  lemma SoundParts(s: System, b: U16)
    requires SoundBank(s, b)
    ensures b in s.banks && OneToOneSet(s.banks[b].table) && InRange(s.banks[b].table, b, s.banks[b].slots)
  {}

  lemma PushedAgree(s: System, b: U16)
    requires b in s.banks && KnownLists(s, b)
    requires forall id :: id in s.banks[b].mnew ==> id in s.maps
    requires forall id :: id in s.banks[b].delreq ==> id in s.maps
    ensures var c, d := s.banks[b], Pushed(s.maps, s.banks[b]);
            Agree(PushMaps(s, b), b) <==>
              Drain(d.table, b, d.slots, d.toBank) == PairSet(PushedMaps(s.maps, c), Held(d))
  {}
}
