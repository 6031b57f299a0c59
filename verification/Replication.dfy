/** The slot-mapping replication protocol between remsim-server and its bankds:
    src/server/rspro_server.c, src/server/rest_api.c and the bankd side of SlotTable, as a state
    machine over two in-order channels per bankd. Each REST callback and each FSM event is one
    step, as src/slotmap.c assumes. */
module Replication {
  import opened SlotTable

  type MapId = nat

  datatype State = NEW | UNACKNOWLEDGED | ACTIVE | DELETE_REQ | DELETING

  datatype Mapping = Mapping(pair: Pair, state: State)

  /** `about` stands for the PDU's operation tag. No handler reads it: the server takes the first
      entry of a list instead. */
  datatype Request = Create(about: MapId, pair: Pair) | Remove(about: MapId, pair: Pair)

  /** The result code `ok` is carried and ignored. */
  datatype Reply = CreateRes(about: MapId, ok: bool) | RemoveRes(about: MapId, ok: bool)

  /** A connected bankd: its five lists at the server, the two channels, and its own table. */
  datatype Conn = Conn(slots: nat, mnew: seq<MapId>, unack: seq<MapId>, active: seq<MapId>, delreq: seq<MapId>,
                       deleting: seq<MapId>, toBank: seq<Request>, toServer: seq<Reply>, table: set<Pair>)

  /** `maps` are the allocated mappings, `listed` the global list, `banks` the connected bankds. */
  datatype System = System(maps: map<MapId, Mapping>, listed: seq<MapId>, banks: map<U16, Conn>, nextId: MapId)

  datatype Event =
    | Post(pair: Pair)
    | RestDelete(slotId: nat)
    | GlobalReset
    | BankConn(bank: U16, slots: nat, table: set<Pair>)
    | Push(bank: U16)
    | BankdRx(bank: U16)
    | ServerRx(bank: U16)
    | TcpDown(bank: U16)

  const INITIAL: System := System(map[], [], map[], 0)

  // ----- lists and states

  function Without(s: seq<MapId>, gone: seq<MapId>): (r: seq<MapId>)
    ensures forall x :: x in r <==> x in s && x !in gone
    ensures NoDup(s) ==> NoDup(r)
  {
    if s == [] then []
    else
      var r := Without(s[1..], gone);
      assert s == [s[0]] + s[1..];
      if s[0] in gone then r else [s[0]] + r
  }

  predicate NoDup(s: seq<MapId>) {
    forall i, j :: 0 <= i < j < |s| ==> s[i] != s[j]
  }

  function BankOf(m: Mapping): (b: U16) {
    m.pair.bank.bank
  }

  /** `_slotmap_state_change` on every map of a list. */
  function SetState(maps: map<MapId, Mapping>, ids: seq<MapId>, st: State): (r: map<MapId, Mapping>)
    ensures r.Keys == maps.Keys
    ensures forall id :: id in maps ==> r[id] == if id in ids then Mapping(maps[id].pair, st) else maps[id]
  {
    map id | id in maps :: if id in ids then Mapping(maps[id].pair, st) else maps[id]
  }

  /** The listed maps of one bank, in order. */
  function OfBank(maps: map<MapId, Mapping>, ids: seq<MapId>, b: U16): (r: seq<MapId>)
    ensures forall x :: x in r <==> x in ids && x in maps && BankOf(maps[x]) == b
    ensures NoDup(ids) ==> NoDup(r)
  {
    if ids == [] then []
    else
      var r := OfBank(maps, ids[1..], b);
      assert ids == [ids[0]] + ids[1..];
      if ids[0] in maps && BankOf(maps[ids[0]]) == b then [ids[0]] + r else r
  }

  // ----- the steps

  predicate InUse(s: System, p: Pair) {
    exists id :: id in s.listed && id in s.maps && (s.maps[id].pair.bank == p.bank || s.maps[id].pair.client == p.client)
  }

  /** `api_cb_slotmaps_post` */
  function PostMap(s: System, p: Pair): (r: System) {
    if InUse(s, p) then s
    else
      var id, b := s.nextId, p.bank.bank;
      System(s.maps[id := Mapping(p, NEW)], s.listed + [id],
             if b in s.banks then s.banks[b := s.banks[b].(mnew := s.banks[b].mnew + [id])] else s.banks,
             id + 1)
  }

  /** `_slotmap_mark_deleted`. An UNACKNOWLEDGED map is only taken off the global list. */
  function MarkDeleted(s: System, id: MapId): (r: System)
    requires id in s.maps
  {
    var m, b := s.maps[id], BankOf(s.maps[id]);
    var listed := Without(s.listed, [id]);
    if m.state == NEW then
      System(s.maps - {id}, listed,
             if b in s.banks then s.banks[b := s.banks[b].(mnew := Without(s.banks[b].mnew, [id]))] else s.banks,
             s.nextId)
    else if m.state == ACTIVE && b in s.banks then
      var c := s.banks[b];
      System(s.maps[id := Mapping(m.pair, DELETE_REQ)], listed,
             s.banks[b := c.(active := Without(c.active, [id]), delreq := c.delreq + [id])], s.nextId)
    else s.(listed := listed)
  }

  function FindListed(s: System, ids: seq<MapId>, slotId: nat): (r: Found)
    ensures r.At? ==> r.index in ids && r.index in s.maps && SlotId(s.maps[r.index].pair.bank) == slotId
    ensures r.Missing? ==> forall id :: id in ids && id in s.maps ==> SlotId(s.maps[id].pair.bank) != slotId
  {
    if ids == [] then Missing
    else if ids[0] in s.maps && SlotId(s.maps[ids[0]].pair.bank) == slotId then At(ids[0])
    else FindListed(s, ids[1..], slotId)
  }

  /** `api_cb_slotmaps_del` */
  function DeleteMap(s: System, slotId: nat): (r: System) {
    match FindListed(s, s.listed, slotId)
    case Missing => s
    case At(id) => MarkDeleted(s, id)
  }

  /** `api_cb_global_reset_post` */
  function ResetMaps(s: System, ids: seq<MapId>): (r: System)
    decreases |ids|
  {
    if ids == [] then s
    else ResetMaps(if ids[0] in s.maps then MarkDeleted(s, ids[0]) else s, ids[1..])
  }

  function Requested(maps: map<MapId, Mapping>, ids: seq<MapId>, create: bool): (r: seq<Request>)
    requires forall id :: id in ids ==> id in maps
    ensures |r| == |ids|
    ensures forall i :: 0 <= i < |ids| ==>
      r[i] == if create then Create(ids[i], maps[ids[i]].pair) else Remove(ids[i], maps[ids[i]].pair)
  {
    seq(|ids|, i requires 0 <= i < |ids| =>
      if create then Create(ids[i], maps[ids[i]].pair) else Remove(ids[i], maps[ids[i]].pair))
  }

  predicate KnownLists(s: System, b: U16)
    requires b in s.banks
  {
    (forall id :: id in s.banks[b].mnew ==> id in s.maps) && (forall id :: id in s.banks[b].delreq ==> id in s.maps)
  }

  /** The connection after CLNTC_E_PUSH: all pending creates are sent, then all pending deletes. */
  function Pushed(maps: map<MapId, Mapping>, c: Conn): (r: Conn)
    requires forall id :: id in c.mnew ==> id in maps
    requires forall id :: id in c.delreq ==> id in maps
  {
    c.(mnew := [], unack := c.unack + c.mnew, delreq := [], deleting := c.deleting + c.delreq,
       toBank := c.toBank + Requested(maps, c.mnew, true) + Requested(maps, c.delreq, false))
  }

  function PushMaps(s: System, b: U16): (r: System) {
    if b !in s.banks || !KnownLists(s, b) then s
    else
      var c := s.banks[b];
      s.(maps := SetState(SetState(s.maps, c.mnew, UNACKNOWLEDGED), c.delreq, DELETING),
         banks := s.banks[b := Pushed(s.maps, c)])
  }

  /** CLNTC_E_BANK_CONN: refused while the bank id is connected; otherwise every listed map of the
      bank becomes NEW on this connection and is pushed. bankd comes with some table. */
  function Associated(s: System, b: U16, slots: nat, table: set<Pair>): (r: System) {
    var ids := OfBank(s.maps, s.listed, b);
    s.(maps := SetState(s.maps, ids, NEW), banks := s.banks[b := Conn(slots, ids, [], [], [], [], [], [], table)])
  }

  function Connect(s: System, b: U16, slots: nat, table: set<Pair>): (r: System) {
    if b in s.banks then s else PushMaps(Associated(s, b, slots, table), b)
  }

  function Handle(table: set<Pair>, b: U16, slots: nat, r: Request): (t: set<Pair>) {
    if r.Create? then Created(table, b, slots, r.pair) else Removed(table, b, slots, r.pair)
  }

  function Answer(table: set<Pair>, b: U16, slots: nat, r: Request): (a: Reply) {
    if r.Create? then CreateRes(r.about, Accepts(b, slots, r.pair) && r.pair in Created(table, b, slots, r.pair))
    else RemoveRes(r.about, Accepts(b, slots, r.pair) && r.pair in table)
  }

  /** bankd handles the oldest request. */
  function BankdStep(s: System, b: U16): (r: System) {
    if b !in s.banks || s.banks[b].toBank == [] then s
    else
      var c := s.banks[b];
      var q := c.toBank[0];
      s.(banks := s.banks[b := c.(toBank := c.toBank[1..], toServer := c.toServer + [Answer(c.table, b, c.slots, q)],
                                  table := Handle(c.table, b, c.slots, q))])
  }

  /** The server handles the oldest reply: it is taken to be about the first entry of the list. */
  function ServerStep(s: System, b: U16): (r: System) {
    if b !in s.banks || s.banks[b].toServer == [] then s
    else
      var c := s.banks[b];
      var rest := c.toServer[1..];
      if c.toServer[0].CreateRes? then
        if c.unack == [] then s
        else
          s.(maps := SetState(s.maps, [c.unack[0]], ACTIVE),
             banks := s.banks[b := c.(unack := c.unack[1..], active := c.active + [c.unack[0]], toServer := rest)])
      else if c.deleting == [] then s
      else
        s.(maps := s.maps - {c.deleting[0]}, listed := Without(s.listed, [c.deleting[0]]),
           banks := s.banks[b := c.(deleting := c.deleting[1..], toServer := rest)])
  }

  /** CLNTC_E_TCP_DOWN: the maps of the connection go back to NEW, those being deleted are freed,
      and what was in flight is lost. */
  function Disconnect(s: System, b: U16): (r: System) {
    if b !in s.banks then s
    else
      var c := s.banks[b];
      var kept, gone := c.mnew + c.unack + c.active, c.delreq + c.deleting;
      s.(maps := SetState(s.maps, kept, NEW) - (set id | id in gone), listed := Without(s.listed, gone),
         banks := s.banks - {b})
  }

  function Step(s: System, e: Event): (r: System) {
    match e
    case Post(p) => PostMap(s, p)
    case RestDelete(id) => DeleteMap(s, id)
    case GlobalReset => ResetMaps(s, s.listed)
    case BankConn(b, n, t) => Connect(s, b, n, t)
    case Push(b) => PushMaps(s, b)
    case BankdRx(b) => BankdStep(s, b)
    case ServerRx(b) => ServerStep(s, b)
    case TcpDown(b) => Disconnect(s, b)
  }

  function Run(s: System, es: seq<Event>): (r: System)
    decreases |es|
  {
    if es == [] then s else Run(Step(s, es[0]), es[1..])
  }

  // ----- what every step keeps

  predicate OnList(maps: map<MapId, Mapping>, b: U16, ids: seq<MapId>, st: State) {
    && NoDup(ids)
    && forall id :: id in ids ==> id in maps && BankOf(maps[id]) == b && maps[id].state == st
  }

  /** Each list of a connection holds maps of its bank in the state the list stands for. */
  predicate Lists(maps: map<MapId, Mapping>, b: U16, c: Conn) {
    && OnList(maps, b, c.mnew, NEW) && OnList(maps, b, c.unack, UNACKNOWLEDGED) && OnList(maps, b, c.active, ACTIVE)
    && OnList(maps, b, c.delreq, DELETE_REQ) && OnList(maps, b, c.deleting, DELETING)
  }

  /** Every map of the bank is on the list of its state; a NEW one when it is listed. */
  predicate Linked(maps: map<MapId, Mapping>, listed: seq<MapId>, b: U16, c: Conn) {
    forall id :: id in maps && BankOf(maps[id]) == b ==>
      match maps[id].state
      case NEW => (id in listed <==> id in c.mnew)
      case UNACKNOWLEDGED => id in c.unack
      case ACTIVE => id in c.active
      case DELETE_REQ => id in c.delreq
      case DELETING => id in c.deleting
  }

  function CreatesAsked(q: seq<Request>): (ids: seq<MapId>) {
    if q == [] then [] else (if q[0].Create? then [q[0].about] else []) + CreatesAsked(q[1..])
  }

  function RemovesAsked(q: seq<Request>): (ids: seq<MapId>) {
    if q == [] then [] else (if q[0].Remove? then [q[0].about] else []) + RemovesAsked(q[1..])
  }

  function CreatesAnswered(q: seq<Reply>): (ids: seq<MapId>) {
    if q == [] then [] else (if q[0].CreateRes? then [q[0].about] else []) + CreatesAnswered(q[1..])
  }

  function RemovesAnswered(q: seq<Reply>): (ids: seq<MapId>) {
    if q == [] then [] else (if q[0].RemoveRes? then [q[0].about] else []) + RemovesAnswered(q[1..])
  }

  /** The k-th entry of maps_unack (maps_deleting) is the map of the k-th create (remove) that still
      awaits its reply: first the replies on their way, then the requests not handled yet. */
  predicate Awaited(c: Conn) {
    && c.unack == CreatesAnswered(c.toServer) + CreatesAsked(c.toBank)
    && c.deleting == RemovesAnswered(c.toServer) + RemovesAsked(c.toBank)
  }

  predicate Requests(maps: map<MapId, Mapping>, b: U16, c: Conn) {
    forall r :: r in c.toBank ==> r.about in maps && BankOf(maps[r.about]) == b && r.pair == maps[r.about].pair
  }

  predicate BankInv(maps: map<MapId, Mapping>, listed: seq<MapId>, b: U16, c: Conn) {
    Lists(maps, b, c) && Linked(maps, listed, b, c) && Awaited(c) && Requests(maps, b, c)
  }

  /** Slots that two mappings would both use. */
  predicate Clash(p: Pair, q: Pair) {
    p.bank == q.bank || p.client == q.client
  }

  predicate GlobalInv(s: System) {
    && NoDup(s.listed)
    && (forall id :: id in s.listed ==> id in s.maps && s.maps[id].state in {NEW, UNACKNOWLEDGED, ACTIVE})
    && (forall i, j :: i in s.listed && j in s.listed && i != j ==> !Clash(s.maps[i].pair, s.maps[j].pair))
    && (forall id :: id in s.maps ==> id < s.nextId)
    && (forall id :: id in s.maps && BankOf(s.maps[id]) !in s.banks ==> s.maps[id].state == NEW)
  }

  predicate BanksInv(s: System) {
    forall b :: b in s.banks ==> BankInv(s.maps, s.listed, b, s.banks[b])
  }

  predicate Inv(s: System) {
    GlobalInv(s) && BanksInv(s)
  }
}
