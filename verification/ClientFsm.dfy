/** The client's main FSM (src/client/main_fsm.c) and its bankd-link FSM (src/rspro_client_fsm.c).
    The two dispatch events into each other synchronously; `Flat` is the product table that comes
    out between two top-level events. */
module ClientFsm {
  datatype Main = M_INIT | M_UNCONFIGURED | M_WAIT_BANKD | M_OPERATIONAL

  datatype Link = L_INIT | L_ESTABLISHED | L_CONNECTED | L_REESTABLISH_DELAY | L_REESTABLISH

  /** Requests to the frontend. */
  datatype Ask = SimRemote | SimLocal | SetAtr | CardInsert | CardRemove | ModemReset

  const ENTER: seq<Ask> := [SimRemote, SetAtr, CardInsert, ModemReset]
  const LEAVE: seq<Ask> := [CardRemove, SimLocal, ModemReset]

  /** Top-level events: from the server link, from the bankd link's socket, and its timers. */
  datatype Event =
    | ServerConnected
    | ServerLost
    | ResetReq
    | ConfigBank(port: nat)
    | TcpUp
    | TcpDown
    | KaTimeout
    | ConnRes(ok: bool)
    | LinkDisconnect
    | T1
    | T2
    | T3

  /** The out-state masks. */
  predicate MainMay(from: Main, to: Main) {
    match from
    case M_INIT => to == M_UNCONFIGURED
    case M_UNCONFIGURED => to in {M_INIT, M_WAIT_BANKD}
    case M_WAIT_BANKD => to in {M_INIT, M_UNCONFIGURED, M_OPERATIONAL}
    case M_OPERATIONAL => to in {M_INIT, M_UNCONFIGURED, M_WAIT_BANKD}
  }

  predicate LinkMay(from: Link, to: Link) {
    match from
    case L_INIT => to in {L_INIT, L_REESTABLISH_DELAY}
    case L_ESTABLISHED => to in {L_CONNECTED, L_REESTABLISH_DELAY, L_INIT}
    case L_CONNECTED => to in {L_REESTABLISH_DELAY, L_INIT}
    case L_REESTABLISH_DELAY => to in {L_REESTABLISH, L_INIT}
    case L_REESTABLISH => to in {L_ESTABLISHED, L_REESTABLISH_DELAY, L_INIT}
  }

  /** OPERATIONAL exactly when the bankd link is CONNECTED; no link without a configuration. */
  predicate Coherent(m: Main, l: Link) {
    (m == M_OPERATIONAL <==> l == L_CONNECTED) && (m in {M_INIT, M_UNCONFIGURED} ==> l == L_INIT)
  }

  // ----- the product table

  datatype Product = Product(main: Main, link: Link)

  datatype Outcome = Outcome(to: Product, asked: seq<Ask>)

  function Stay(p: Product): (o: Outcome) {
    Outcome(p, [])
  }

  function Asked(p: Product): (a: seq<Ask>) {
    if p.main == M_OPERATIONAL then LEAVE else []
  }

  /** `called` says whether closing or destroying the stream calls back at once. */
  function Flat(p: Product, e: Event, called: bool): (o: Outcome) {
    match e
    case ServerConnected => if p.main == M_INIT then Outcome(Product(M_UNCONFIGURED, L_INIT), []) else Stay(p)
    case ServerLost => Stay(p)
    case ResetReq => if p.main == M_UNCONFIGURED then Stay(p) else Outcome(Product(M_UNCONFIGURED, L_INIT), Asked(p))
    case ConfigBank(port) =>
      if p.main == M_INIT then Stay(p)
      else if port != 0 then Outcome(Product(M_WAIT_BANKD, L_REESTABLISH_DELAY), Asked(p))
      else if p.main == M_UNCONFIGURED then Stay(p)
      else Outcome(Product(M_UNCONFIGURED, L_INIT), Asked(p))
    case TcpUp => if p.link == L_REESTABLISH then Outcome(Product(p.main, L_ESTABLISHED), []) else Stay(p)
    case TcpDown => Lost(p, p.link in {L_ESTABLISHED, L_CONNECTED})
    case KaTimeout => Lost(p, p.link in {L_ESTABLISHED, L_CONNECTED})
    case ConnRes(ok) =>
      if p.link != L_ESTABLISHED then Stay(p)
      else if ok then Outcome(Product(M_OPERATIONAL, L_CONNECTED), ENTER)
      else Lost(p, called)
    case LinkDisconnect =>
      Outcome(Product(if p.main == M_OPERATIONAL then M_WAIT_BANKD else p.main, L_INIT), Asked(p))
    case T1 => Lost(p, called && p.link == L_ESTABLISHED)
    case T2 => Lost(p, p.link == L_REESTABLISH)
    case T3 => if p.link == L_REESTABLISH_DELAY then Outcome(Product(p.main, L_REESTABLISH), []) else Stay(p)
  }

  function Lost(p: Product, lost: bool): (o: Outcome) {
    if !lost then Stay(p)
    else Outcome(Product(if p.main == M_OPERATIONAL then M_WAIT_BANKD else p.main, L_REESTABLISH_DELAY), Asked(p))
  }

  // ----- runs

  datatype Trigger = Trigger(e: Event, called: bool)

  datatype Trace = Trace(at: Product, asked: seq<Ask>)

  function RunFrom(t: Trace, es: seq<Trigger>): (r: Trace)
    decreases |es|
  {
    if es == [] then t
    else
      var o := Flat(t.at, es[0].e, es[0].called);
      RunFrom(Trace(o.to, t.asked + o.asked), es[1..])
  }

  const START: Trace := Trace(Product(M_INIT, L_INIT), [])

  function SimAsked(a: seq<Ask>): (r: seq<Ask>) {
    if a == [] then [] else (if a[0] in {SimRemote, SimLocal} then [a[0]] else []) + SimAsked(a[1..])
  }

  /** Remote, local, remote, ... */
  predicate Alternates(a: seq<Ask>) {
    forall k :: 0 <= k < |a| ==> a[k] == if k % 2 == 0 then SimRemote else SimLocal
  }

  /** Coherent, the SIM requests alternating, the last one remote exactly while OPERATIONAL. */
  predicate TraceOk(t: Trace) {
    && Coherent(t.at.main, t.at.link)
    && Alternates(SimAsked(t.asked))
    && (|SimAsked(t.asked)| % 2 == 1 <==> t.at.main == M_OPERATIONAL)
  }

  lemma SimAskedHead(a: seq<Ask>)
    requires a != []
    ensures SimAsked(a) == (if a[0] in {SimRemote, SimLocal} then [a[0]] else []) + SimAsked(a[1..])
  {}

  lemma Regroup(a: seq<Ask>, b: seq<Ask>, c: seq<Ask>)
    ensures a + b + c == a + (b + c)
  {}

  lemma {:induction false} SimAskedConcat(a: seq<Ask>, b: seq<Ask>)
    ensures SimAsked(a + b) == SimAsked(a) + SimAsked(b)
  {
    if a == [] {
      assert a + b == b;
    } else {
      SimAskedConcat(a[1..], b);
      SimAskedHead(a);
      SimAskedHead(a + b);
      hide SimAsked;
      assert (a + b)[1..] == a[1..] + b && (a + b)[0] == a[0];
      Regroup(if a[0] in {SimRemote, SimLocal} then [a[0]] else [], SimAsked(a[1..]), SimAsked(b));
    }
  }

  lemma AskedParts()
    ensures SimAsked(ENTER) == [SimRemote] && SimAsked(LEAVE) == [SimLocal] && SimAsked([]) == []
  {}

  lemma FlatCoherent(p: Product, e: Event, called: bool)
    requires Coherent(p.main, p.link)
    ensures var o := Flat(p, e, called);
            && Coherent(o.to.main, o.to.link)
            && o.asked == (if p.main != M_OPERATIONAL && o.to.main == M_OPERATIONAL then ENTER
                           else if p.main == M_OPERATIONAL && o.to.main != M_OPERATIONAL then LEAVE
                           else [])
  {}

  lemma StepOk(t: Trace, x: Trigger)
    requires TraceOk(t)
    ensures var o := Flat(t.at, x.e, x.called); TraceOk(Trace(o.to, t.asked + o.asked))
  {
    hide Flat, SimAsked;
    var o := Flat(t.at, x.e, x.called);
    FlatCoherent(t.at, x.e, x.called);
    SimAskedConcat(t.asked, o.asked);
    AskedParts();
  }

  /** Over any run the frontend is asked for the remote and the local SIM in strict alternation,
      remote first, and between events the two machines agree. */
  lemma {:induction false} RunOk(t: Trace, es: seq<Trigger>)
    requires TraceOk(t)
    ensures TraceOk(RunFrom(t, es))
    decreases |es|
  {
    hide Flat, TraceOk;
    if es != [] {
      StepOk(t, es[0]);
      var o := Flat(t.at, es[0].e, es[0].called);
      RunOk(Trace(o.to, t.asked + o.asked), es[1..]);
    }
  }

  lemma EveryRun(es: seq<Trigger>)
    ensures var r := RunFrom(START, es);
            && (r.at.main == M_OPERATIONAL <==> r.at.link == L_CONNECTED)
            && (r.at.main == M_UNCONFIGURED ==> r.at.link == L_INIT)
            && Alternates(SimAsked(r.asked))
  {
    hide SimAsked;
    NothingAsked();
    RunOk(START, es);
  }

  lemma NothingAsked()
    ensures SimAsked([]) == []
  {}

  // ----- what each event does

  /** A reset request ends any configuration, from every state: no link, the modem on its own SIM. */
  lemma ResetUnconfigures(p: Product, called: bool)
    requires Coherent(p.main, p.link)
    ensures var o := Flat(p, ResetReq, called);
            && o.to == Product(M_UNCONFIGURED, L_INIT)
            && o.asked == if p.main == M_OPERATIONAL then [CardRemove, SimLocal, ModemReset] else []
  {}

  /** So does the bankd port 0, but before the server has connected nothing is accepted. */
  lemma PortZeroUnconfigures(p: Product, called: bool)
    requires Coherent(p.main, p.link)
    ensures var o := Flat(p, ConfigBank(0), called);
            && o.to == (if p.main == M_INIT then p else Product(M_UNCONFIGURED, L_INIT))
            && o.asked == if p.main == M_OPERATIONAL then [CardRemove, SimLocal, ModemReset] else []
  {}

  /** Any other port drops what there is and starts anew. */
  lemma PortConfigures(p: Product, port: nat, called: bool)
    requires Coherent(p.main, p.link) && port != 0 && p.main != M_INIT
    ensures var o := Flat(p, ConfigBank(port), called);
            && o.to == Product(M_WAIT_BANKD, L_REESTABLISH_DELAY)
            && o.asked == if p.main == M_OPERATIONAL then [CardRemove, SimLocal, ModemReset] else []
  {}

  /** The loss of the bankd while it serves gives the modem its own SIM and retries. */
  lemma LossRetries(p: Product, e: Event, called: bool)
    requires Coherent(p.main, p.link) && p.link == L_CONNECTED && e in {TcpDown, KaTimeout}
    ensures Flat(p, e, called) == Outcome(Product(M_WAIT_BANKD, L_REESTABLISH_DELAY), [CardRemove, SimLocal, ModemReset])
  {}

  /** A disconnect ends in INIT from every state. */
  lemma DisconnectEnds(p: Product, called: bool)
    requires Coherent(p.main, p.link)
    ensures var o := Flat(p, LinkDisconnect, called);
            && o.to.link == L_INIT && o.to.main == (if p.main == M_OPERATIONAL then M_WAIT_BANKD else p.main)
            && o.asked == if p.main == M_OPERATIONAL then [CardRemove, SimLocal, ModemReset] else []
  {}

  /** An attempt goes step by step from the delay to the service; each step is taken on its own event
      and on no other. */
  lemma AttemptSteps(p: Product, called: bool)
    requires Coherent(p.main, p.link)
    ensures Flat(p, T3, called) == Outcome(if p.link == L_REESTABLISH_DELAY then Product(p.main, L_REESTABLISH) else p, [])
    ensures Flat(p, TcpUp, called) == Outcome(if p.link == L_REESTABLISH then Product(p.main, L_ESTABLISHED) else p, [])
    ensures p.link == L_ESTABLISHED ==>
              Flat(p, ConnRes(true), called)
              == Outcome(Product(M_OPERATIONAL, L_CONNECTED), [SimRemote, SetAtr, CardInsert, ModemReset])
    ensures p.link != L_ESTABLISHED ==> forall ok :: Flat(p, ConnRes(ok), called) == Outcome(p, [])
  {}

  /** An attempt that fails goes back to the delay: no TCP connection in time, the connection lost or
      closed because no answer or a refusal came. Where closing does not call back, or in any other
      state, nothing happens. */
  lemma AttemptFails(p: Product, called: bool)
    requires Coherent(p.main, p.link) && p.link != L_CONNECTED
    ensures Flat(p, T2, called) == Outcome(if p.link == L_REESTABLISH then Product(p.main, L_REESTABLISH_DELAY) else p, [])
    ensures forall e :: e in {TcpDown, KaTimeout} ==>
      Flat(p, e, called) == Outcome(if p.link == L_ESTABLISHED then Product(p.main, L_REESTABLISH_DELAY) else p, [])
    ensures forall e :: e in {ConnRes(false), T1} ==>
      Flat(p, e, called) == Outcome(if p.link == L_ESTABLISHED && called then Product(p.main, L_REESTABLISH_DELAY) else p, [])
  {}

  /** The timers and the loss of the server do nothing to a link that serves. */
  lemma ServesOn(p: Product, e: Event, called: bool)
    requires Coherent(p.main, p.link) && p.link == L_CONNECTED
    requires e in {ServerConnected, ServerLost, TcpUp, ConnRes(true), ConnRes(false), T1, T2, T3}
    ensures Flat(p, e, called) == Outcome(p, [])
  {}

  lemma ServerEvents(p: Product, called: bool)
    requires Coherent(p.main, p.link)
    ensures Flat(p, ServerConnected, called) == Outcome(if p.main == M_INIT then Product(M_UNCONFIGURED, L_INIT) else p, [])
    ensures Flat(p, ServerLost, called) == Outcome(p, [])
  {}

  /** From every state but INIT a configuration and a willing bankd lead to service. */
  lemma ServiceReachable(t: Trace, port: nat)
    requires Coherent(t.at.main, t.at.link) && t.at.main != M_INIT && port != 0
    ensures var es := [Trigger(ConfigBank(port), true), Trigger(T3, true), Trigger(TcpUp, true), Trigger(ConnRes(true), true)];
            RunFrom(t, es).at == Product(M_OPERATIONAL, L_CONNECTED)
  {
    hide RunFrom;
    var es := [Trigger(ConfigBank(port), true), Trigger(T3, true), Trigger(TcpUp, true), Trigger(ConnRes(true), true)];
    RunUnfold(t, es);
    var t1 := Next(t, es[0]);
    RunUnfold(t1, es[1..]);
    var t2 := Next(t1, es[1]);
    RunUnfold(t2, es[1..][1..]);
    var t3 := Next(t2, es[2]);
    RunUnfold(t3, es[1..][1..][1..]);
    var t4 := Next(t3, es[3]);
    RunUnfold(t4, es[1..][1..][1..][1..]);
  }

  function Next(t: Trace, x: Trigger): (r: Trace) {
    var o := Flat(t.at, x.e, x.called);
    Trace(o.to, t.asked + o.asked)
  }

  lemma RunUnfold(t: Trace, es: seq<Trigger>)
    ensures es == [] ==> RunFrom(t, es) == t
    ensures es != [] ==> RunFrom(t, es) == RunFrom(Next(t, es[0]), es[1..])
  {
    hide Flat;
  }

  /** What the frontend is asked for when service began and ended `n` times in all. */
  function Served(n: nat): (a: seq<Ask>) {
    if n == 0 then []
    else Served(n - 1) + if n % 2 == 1 then [SimRemote, SetAtr, CardInsert, ModemReset] else [CardRemove, SimLocal, ModemReset]
  }

  /** Over any run the frontend is asked for whole changes only, beginning and end of service in turn:
      remote SIM, ATR, card inserted, modem reset; card removed, local SIM, modem reset. */
  lemma {:induction false} RunServed(t: Trace, es: seq<Trigger>, n: nat) returns (m: nat)
    requires Coherent(t.at.main, t.at.link) && t.asked == Served(n) && (n % 2 == 1 <==> t.at.main == M_OPERATIONAL)
    ensures var r := RunFrom(t, es);
            Coherent(r.at.main, r.at.link) && r.asked == Served(m) && (m % 2 == 1 <==> r.at.main == M_OPERATIONAL)
    decreases |es|
  {
    hide Flat, Coherent, RunFrom, Served;
    RunUnfold(t, es);
    if es == [] {
      m := n;
    } else {
      var u := Next(t, es[0]);
      FlatCoherent(t.at, es[0].e, es[0].called);
      ServedNext(n);
      Parity(n);
      if (t.at.main == M_OPERATIONAL) == (u.at.main == M_OPERATIONAL) {
        assert u.asked == t.asked;
        m := RunServed(u, es[1..], n);
      } else {
        m := RunServed(u, es[1..], n + 1);
      }
    }
  }

  lemma ServedNext(n: nat)
    ensures Served(n + 1) == Served(n) + if n % 2 == 0 then ENTER else LEAVE
  {}

  lemma Parity(n: nat)
    ensures (n + 1) % 2 == 1 <==> n % 2 == 0
  {}

  // ----- the two machines with their nested dispatches

  class Client {
    var main: Main
    var link: Link
    var conn: bool
    var asked: seq<Ask>

    ghost function View(): (p: Product)
      reads this
    {
      Product(main, link)
    }

    /** There is a stream from the attempt on until the next delay or the end. */
    ghost predicate Streamed()
      reads this
    {
      conn <==> link in {L_REESTABLISH, L_ESTABLISHED, L_CONNECTED}
    }

    constructor ()
      ensures View() == START.at && asked == [] && Streamed()
    {
      main, link, conn, asked := M_INIT, L_INIT, false, [];
    }

    /** The main FSM leaves OPERATIONAL or enters it. */
    method MainSet(to: Main)
      modifies this`main, this`asked
      ensures main == to
      ensures asked == old(asked) + (if old(main) == M_OPERATIONAL then LEAVE else [])
                                  + (if to == M_OPERATIONAL then ENTER else [])
    {
      if main == M_OPERATIONAL {
        asked := asked + LEAVE;
      }
      main := to;
      if to == M_OPERATIONAL {
        asked := asked + ENTER;
      }
    }

    /** MF_E_BANKD_LOST, accepted in OPERATIONAL only. */
    method BankdLost()
      modifies this`main, this`asked
      ensures main == if old(main) == M_OPERATIONAL then M_WAIT_BANKD else old(main)
      ensures asked == old(asked) + if old(main) == M_OPERATIONAL then LEAVE else []
    {
      if main == M_OPERATIONAL && MainMay(main, M_WAIT_BANKD) {
        MainSet(M_WAIT_BANKD);
      }
    }

    /** MF_E_BANKD_CONNECTED, accepted in WAIT_BANKD only. */
    method BankdConnected()
      modifies this`main, this`asked
      ensures main == if old(main) == M_WAIT_BANKD then M_OPERATIONAL else old(main)
      ensures asked == old(asked) + if old(main) == M_WAIT_BANKD then ENTER else []
    {
      if main == M_WAIT_BANKD && MainMay(main, M_OPERATIONAL) {
        MainSet(M_OPERATIONAL);
      }
    }

    /** A state change of the link: refused outside the mask, otherwise onleave, the new state,
        onenter. Leaving and entering CONNECTED dispatch into the main FSM. */
    method LinkChange(to: Link, called: bool)
      modifies this
      ensures !LinkMay(old(link), to) ==> link == old(link) && main == old(main) && asked == old(asked) && conn == old(conn)
      ensures LinkMay(old(link), to) ==> link == to
      ensures LinkMay(old(link), to) ==> (conn <==> to == L_REESTABLISH || (to != L_REESTABLISH_DELAY && old(conn)))
      ensures LinkMay(old(link), to) && to != L_CONNECTED ==>
                && main == (if old(link) == L_CONNECTED && old(main) == M_OPERATIONAL then M_WAIT_BANKD else old(main))
                && asked == old(asked) + (if old(link) == L_CONNECTED && old(main) == M_OPERATIONAL then LEAVE else [])
      ensures LinkMay(old(link), to) && to == L_CONNECTED ==>
                && main == (if old(main) == M_WAIT_BANKD then M_OPERATIONAL else old(main))
                && asked == old(asked) + (if old(main) == M_WAIT_BANKD then ENTER else [])
      decreases if to == L_REESTABLISH_DELAY then 2 else 1
    {
      if !LinkMay(link, to) {
        return;
      }
      if link == L_CONNECTED {
        BankdLost();
      }
      link := to;
      match to
      case L_CONNECTED => BankdConnected();
      case L_REESTABLISH_DELAY =>
        if conn {
          if called {
            LinkDown(called);   // the event mask of this state is empty
          }
          conn := false;
        }
      case L_REESTABLISH => conn := true;
      case _ =>
    }

    /** SRVC_E_TCP_DOWN and SRVC_E_KA_TIMEOUT; waiting for T2, a lost attempt changes nothing. */
    method LinkDown(called: bool)
      modifies this
      ensures old(link) !in {L_ESTABLISHED, L_CONNECTED} ==>
                link == old(link) && main == old(main) && asked == old(asked) && conn == old(conn)
      ensures old(link) in {L_ESTABLISHED, L_CONNECTED} ==>
                && link == L_REESTABLISH_DELAY && !conn
                && main == (if old(link) == L_CONNECTED && old(main) == M_OPERATIONAL then M_WAIT_BANKD else old(main))
                && asked == old(asked) + (if old(link) == L_CONNECTED && old(main) == M_OPERATIONAL then LEAVE else [])
      decreases if link in {L_ESTABLISHED, L_CONNECTED} then 3 else 0
    {
      if link in {L_ESTABLISHED, L_CONNECTED} {
        LinkChange(L_REESTABLISH_DELAY, called);
      }
    }

    /** SRVC_E_DISCONNECT: destroying the stream may report TCP_DOWN first; the link ends in INIT. */
    method Disconnect(called: bool)
      modifies this
      ensures link == L_INIT && !conn
      ensures main == if old(link) == L_CONNECTED && old(main) == M_OPERATIONAL then M_WAIT_BANKD else old(main)
      ensures asked == old(asked) + if old(link) == L_CONNECTED && old(main) == M_OPERATIONAL then LEAVE else []
    {
      if conn {
        conn := false;
        if called {
          LinkDown(called);
        }
      }
      LinkChange(L_INIT, called);
    }

    /** A state change of the main FSM. Entering UNCONFIGURED dispatches into the link. */
    method MainChange(to: Main, called: bool)
      requires Coherent(main, link) && to in {M_UNCONFIGURED, M_WAIT_BANKD}
      modifies this
      ensures !MainMay(old(main), to) ==> View() == old(View()) && asked == old(asked) && conn == old(conn)
      ensures MainMay(old(main), to) ==>
                && main == to && link == (if to == M_UNCONFIGURED then L_INIT else old(link))
                && (conn <==> to != M_UNCONFIGURED && old(conn))
                && asked == old(asked) + Asked(old(View()))
    {
      if !MainMay(main, to) {
        return;
      }
      MainSet(to);
      if to == M_UNCONFIGURED {
        Disconnect(called);
      }
    }

    /** One top-level event, with everything it dispatches on the way: the product table. */
    method Dispatch(e: Event, called: bool)
      requires Coherent(main, link) && Streamed()
      modifies this
      ensures Coherent(main, link) && Streamed()
      ensures View() == Flat(old(View()), e, called).to
      ensures asked == old(asked) + Flat(old(View()), e, called).asked
    {
      FlatCoherent(View(), e, called);
      match e
      case ServerConnected =>
        if main == M_INIT {
          MainChange(M_UNCONFIGURED, called);
        }
      case ServerLost =>
      case ResetReq => MainChange(M_UNCONFIGURED, called);
      case ConfigBank(port) =>
        if main != M_INIT {
          if port == 0 {
            MainChange(M_UNCONFIGURED, called);
          } else {
            MainChange(M_WAIT_BANKD, called);
            LinkChange(L_REESTABLISH_DELAY, called);   // SRVC_E_ESTABLISH
          }
        }
      case TcpUp =>
        if link == L_REESTABLISH {
          LinkChange(L_ESTABLISHED, called);
        }
      case TcpDown => LinkDown(called);
      case KaTimeout => LinkDown(called);
      case ConnRes(ok) =>
        if link == L_ESTABLISHED {
          if ok {
            LinkChange(L_CONNECTED, called);
          } else if called {
            LinkDown(called);
          }
        }
      case LinkDisconnect => Disconnect(called);
      case T1 =>
        if link == L_ESTABLISHED && called {
          LinkDown(called);
        }
      case T2 =>
        if link == L_REESTABLISH {
          LinkChange(L_REESTABLISH_DELAY, called);
        }
      case T3 =>
        if link == L_REESTABLISH_DELAY {
          LinkChange(L_REESTABLISH, called);
        }
    }
  }
}
