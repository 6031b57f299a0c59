/** The timed back-off of the RSPRO client link: `srvc_do_reestablish`, the delay table and the
    handlers of src/rspro_client_fsm.c that touch `reestablish_delay_idx` and
    `reestablish_last_ms`. Times are milliseconds of a clock that does not run backwards. */
module Backoff {
  import F = ClientFsm

  const COUNT: nat := 124
  const RESET_MS: int := 32000

  /** `k_reestablish_delay_s`: three immediate retries, then thirty each of 1, 2, 4 and 8 seconds. */
  function Delay(idx: nat): (s: nat)
    requires idx < COUNT
    ensures s <= 16
    ensures idx == 0 ==> s == 0
  {
    if idx < 3 then 0
    else if idx < 33 then 1
    else if idx < 63 then 2
    else if idx < 93 then 4
    else if idx < 123 then 8
    else 16
  }

  function Next(idx: nat): (i: nat)
    requires idx < COUNT
    ensures i < COUNT
  {
    if idx < COUNT - 1 then idx + 1 else idx
  }

  datatype Phase = Idle | Waiting(due: int) | Busy

  /** An attempt: when, which table entry it had to wait for and which one is next, whether an
      explicit ESTABLISH came since the attempt before, and whether the index was reset since. */
  datatype Attempt = Attempt(at: int, idx: nat, next: nat, asked: bool, reset: bool)

  /** `used` is the entry of the wait under way; `asked` and `reset` are since the last attempt. */
  datatype Link = Link(now: int, phase: Phase, idx: nat, last: int, used: nat, asked: bool, reset: bool,
                       attempts: seq<Attempt>)

  datatype Event =
    | Establish(at: int)    // SRVC_E_ESTABLISH
    | Retry(at: int)        // the connection or the attempt failed: srvc_do_reestablish
    | Expire(at: int)       // T3: entering REESTABLISH is the attempt
    | Stop(at: int)         // SRVC_E_DISCONNECT

  predicate Resets(l: Link, at: int) {
    at - l.last > RESET_MS
  }

  /** `srvc_do_reestablish` with the entry action of REESTABLISH_DELAY; refused while waiting. */
  function Reestablish(l: Link, at: int): (r: Link)
    requires l.idx < COUNT
  {
    if l.phase.Waiting? then l.(now := at)
    else
      var idx := if Resets(l, at) then 0 else l.idx;
      var wait := Delay(idx) * 1000 - (at - l.last);
      l.(now := at, phase := Waiting(at + if wait > 0 then wait else 1), used := idx, idx := Next(idx),
         reset := l.reset || Resets(l, at))
  }

  function Step(l: Link, e: Event): (r: Link)
    requires l.idx < COUNT
    ensures r.idx < COUNT
  {
    match e
    case Establish(at) => Reestablish(l.(idx := 0, last := 0, asked := true), at)
    case Retry(at) => if l.phase.Busy? then Reestablish(l, at) else l.(now := at)
    case Expire(at) =>
      if l.phase.Waiting? && at >= l.phase.due then
        l.(now := at, phase := Busy, last := at, asked := false, reset := false,
           attempts := l.attempts + [Attempt(at, l.used, l.idx, l.asked, l.reset)])
      else l.(now := at)
    case Stop(at) => l.(now := at, phase := Idle)
  }

  predicate Monotone(l: Link, es: seq<Event>)
    decreases |es|
  {
    es != [] ==> es[0].at >= l.now && (l.idx < COUNT ==> Monotone(Step(l, es[0]), es[1..]))
  }

  function Run(l: Link, es: seq<Event>): (r: Link)
    requires l.idx < COUNT
    ensures r.idx < COUNT
    decreases |es|
  {
    if es == [] then l else Run(Step(l, es[0]), es[1..])
  }

  const START: Link := Link(0, Idle, 0, 0, 0, true, false, [])

  // ----- what every run keeps

  /** Two neighbouring attempts with no ESTABLISH between them are the table delay apart. */
  predicate SpacedAt(a: seq<Attempt>, k: nat)
    requires 0 < k < |a|
  {
    !a[k].asked ==> a[k].idx < COUNT && a[k].at - a[k - 1].at >= Delay(a[k].idx) * 1000
  }

  /** The table is walked entry by entry; a reset goes back to entry 0 and needs a gap of 32 s. */
  predicate WalkedAt(a: seq<Attempt>, k: nat)
    requires 0 < k < |a|
  {
    !a[k].asked ==>
      && (if a[k].reset then a[k].idx == 0 && a[k].at - a[k - 1].at > RESET_MS else a[k].idx == a[k - 1].next)
      && a[k].idx < COUNT && a[k].next == Next(a[k].idx)
  }

  predicate Paced(a: seq<Attempt>) {
    && (forall k :: 0 <= k < |a| ==> a[k].next < COUNT)
    && (forall k :: 0 < k < |a| ==> SpacedAt(a, k) && WalkedAt(a, k))
  }

  function LastAttempt(l: Link): (a: Attempt)
    requires l.attempts != []
  {
    l.attempts[|l.attempts| - 1]
  }

  /** Since the last attempt nobody asked: where the link stands. */
  predicate Pending(l: Link)
    requires l.idx < COUNT && l.used < COUNT
  {
    && l.attempts != [] && l.last == LastAttempt(l).at
    && (l.phase.Busy? ==> !l.reset && l.idx == LastAttempt(l).next)
    && (l.phase.Waiting? ==>
          && l.phase.due - l.last >= Delay(l.used) * 1000 && l.idx == Next(l.used)
          && (if l.reset then l.used == 0 && l.phase.due - l.last > RESET_MS else l.used == LastAttempt(l).next))
  }

  predicate Ok(l: Link) {
    l.idx < COUNT && l.used < COUNT && 0 <= l.last <= l.now && Paced(l.attempts) && (!l.asked ==> Pending(l))
  }

  /** The wait is at most the longest entry, and at least 1 ms. */
  lemma WaitBounded(l: Link, at: int)
    requires Ok(l) && at >= l.now && !l.phase.Waiting?
    ensures Reestablish(l, at).phase.Waiting?
    ensures at < Reestablish(l, at).phase.due <= at + 16000
  {}

  function Later(a: int, b: int): (m: int) {
    if a >= b then a else b
  }

  /** The wait is the least one allowed: it ends at the next millisecond, or at the last attempt plus
      the delay of the entry used if that is later. That entry is the current one, or entry 0 when
      more than 32 s have passed. */
  lemma WaitIsLeast(l: Link, at: int)
    requires l.idx < COUNT && !l.phase.Waiting?
    ensures var r, entry := Reestablish(l, at), if at - l.last > 32000 then 0 else l.idx;
            && r.phase == Waiting(Later(at + 1, l.last + 1000 * Delay(entry)))
            && r.used == entry && r.idx == (if entry < 123 then entry + 1 else entry) && r.last == l.last
            && r.attempts == l.attempts
  {}

  /** An explicit ESTABLISH is attempted after one millisecond from every state that does not wait
      already; while waiting it changes the counters but not the timer. */
  lemma EstablishAtOnce(l: Link, at: int)
    requires Ok(l) && at >= l.now
    ensures var r := Step(l, Establish(at));
            && r.phase == (if l.phase.Waiting? then l.phase else Waiting(at + 1))
            && r.last == 0 && r.idx == (if l.phase.Waiting? then 0 else 1) && r.attempts == l.attempts
  {
    hide Paced;
  }

  /** The timer makes one attempt when it is due and none before; a disconnect makes none. */
  lemma AttemptWhenDue(l: Link, at: int)
    requires l.idx < COUNT
    ensures l.phase.Waiting? && at >= l.phase.due ==>
              var r := Step(l, Expire(at));
              && r.phase == Busy && r.last == at && r.idx == l.idx && |r.attempts| == |l.attempts| + 1
              && r.attempts[..|l.attempts|] == l.attempts && r.attempts[|l.attempts|].at == at
    ensures !(l.phase.Waiting? && at >= l.phase.due) ==> Step(l, Expire(at)) == l.(now := at)
    ensures Step(l, Stop(at)) == l.(now := at, phase := Idle)
    ensures !l.phase.Busy? ==> Step(l, Retry(at)) == l.(now := at)
  {}

  /** The table: three immediate retries, half a minute at 1 Hz, a minute at 1/2 Hz, two at 1/4 Hz,
      four at 1/8 Hz, and every 16 s from then on. */
  lemma TablePhases(idx: nat)
    requires idx < COUNT
    ensures COUNT == 124
    ensures Delay(idx) == 0 <==> idx < 3
    ensures Delay(idx) == 1 <==> 3 <= idx < 3 + 30
    ensures Delay(idx) == 2 <==> 33 <= idx < 33 + 30
    ensures Delay(idx) == 4 <==> 63 <= idx < 63 + 30
    ensures Delay(idx) == 8 <==> 93 <= idx < 93 + 30
    ensures Delay(idx) == 16 <==> idx == COUNT - 1
  {}

  lemma PacedMore(a: seq<Attempt>, x: Attempt)
    requires Paced(a) && x.next < COUNT
    requires a != [] ==> SpacedAt(a + [x], |a|) && WalkedAt(a + [x], |a|)
    ensures Paced(a + [x])
  {
    var r := a + [x];
    forall k | 0 < k < |r| ensures SpacedAt(r, k) && WalkedAt(r, k) {
      if k < |a| {
        assert SpacedAt(a, k) && WalkedAt(a, k);
      }
    }
  }

  lemma ReestablishOk(l: Link, at: int)
    requires Ok(l) && at >= l.now && (l.asked || !l.phase.Idle?)
    ensures Ok(Reestablish(l, at))
  {}

  lemma StepOk(l: Link, e: Event)
    requires Ok(l) && e.at >= l.now
    ensures Ok(Step(l, e))
  {
    match e
    case Establish(at) => EstablishOk(l, at);
    case Retry(at) =>
      if l.phase.Busy? {
        ReestablishOk(l, at);
      }
    case Expire(at) =>
      if l.phase.Waiting? && at >= l.phase.due {
        PacedMore(l.attempts, Attempt(at, l.used, l.idx, l.asked, l.reset));
      }
    case Stop(at) =>
  }

  lemma EstablishOk(l: Link, at: int)
    requires Ok(l) && at >= l.now
    ensures Ok(Step(l, Establish(at)))
  {}

  /** In every run: the index stays in the table, attempts keep their distance, resets need a gap. */
  lemma {:induction false} RunOk(l: Link, es: seq<Event>)
    requires Ok(l) && Monotone(l, es)
    ensures Ok(Run(l, es))
    decreases |es|
  {
    hide Ok, Step;
    if es != [] {
      OkIndex(l);
      StepOk(l, es[0]);
      RunOk(Step(l, es[0]), es[1..]);
    }
  }

  lemma OkIndex(l: Link)
    requires Ok(l)
    ensures l.idx < COUNT
  {}

  lemma EveryRun(es: seq<Event>)
    requires Monotone(START, es)
    ensures Paced(Run(START, es).attempts)
  {
    RunOk(START, es);
  }

  // ----- many attempts

  /** The table delays of `n` attempts from entry `idx` on. */
  function TotalDelay(idx: nat, n: nat): (s: nat)
    requires idx < COUNT
    decreases n
  {
    if n == 0 then 0 else Delay(idx) + TotalDelay(Next(idx), n - 1)
  }

  predicate Unforced(a: seq<Attempt>, i: nat, j: nat)
    requires i <= j < |a|
  {
    forall k :: i < k <= j ==> !a[k].asked && !a[k].reset
  }

  /** Attempts in a row without ESTABLISH or reset take at least the sum of their table delays. */
  lemma {:induction false} AttemptsTakeTime(a: seq<Attempt>, i: nat, j: nat)
    requires Paced(a) && i <= j < |a| && Unforced(a, i, j)
    ensures a[j].at - a[i].at >= 1000 * TotalDelay(a[i].next, j - i)
    decreases j - i
  {
    if i < j {
      assert SpacedAt(a, i + 1) && WalkedAt(a, i + 1);
      AttemptsTakeTime(a, i + 1, j);
    }
  }

  // ----- the handlers as the source has them

  /** What the link FSM is told; `called` says whether closing or destroying the stream calls back
      at once. */
  datatype Told =
    | Asked                  // SRVC_E_ESTABLISH
    | TcpUp
    | TcpDown
    | KaTimeout
    | ConnRes(ok: bool, called: bool)
    | Disconnect(called: bool)
    | T1(called: bool)
    | T2
    | T3

  function PhaseOf(state: F.Link, due: int): (p: Phase) {
    match state
    case L_INIT => Idle
    case L_REESTABLISH_DELAY => Waiting(due)
    case _ => Busy
  }

  /** What an event of the link FSM is to the back-off. */
  function Seen(state: F.Link, conn: bool, t: Told, at: int): (es: seq<Event>) {
    match t
    case Asked => [Establish(at)]
    case TcpUp => []
    case TcpDown => if state in {F.L_ESTABLISHED, F.L_CONNECTED} then [Retry(at)] else []
    case KaTimeout => if state in {F.L_ESTABLISHED, F.L_CONNECTED} then [Retry(at)] else []
    case ConnRes(ok, called) => if state == F.L_ESTABLISHED && !ok && called then [Retry(at)] else []
    case Disconnect(called) =>
      if conn && called && state in {F.L_ESTABLISHED, F.L_CONNECTED} then [Retry(at), Stop(at)] else [Stop(at)]
    case T1(called) => if state == F.L_ESTABLISHED && called then [Retry(at)] else []
    case T2 => if state == F.L_REESTABLISH then [Retry(at)] else []
    case T3 => if state == F.L_REESTABLISH_DELAY then [Expire(at)] else []
  }

  /** Where the product of the two machines takes the link, whichever main state goes with it. */
  function LinkAfter(state: F.Link, t: Told): (r: F.Link) {
    var main := match state
      case L_INIT => F.M_UNCONFIGURED
      case L_CONNECTED => F.M_OPERATIONAL
      case _ => F.M_WAIT_BANKD;
    var p := F.Product(main, state);
    match t
    case Asked => F.Flat(p, F.ConfigBank(1), true).to.link
    case TcpUp => F.Flat(p, F.TcpUp, true).to.link
    case TcpDown => F.Flat(p, F.TcpDown, true).to.link
    case KaTimeout => F.Flat(p, F.KaTimeout, true).to.link
    case ConnRes(ok, called) => F.Flat(p, F.ConnRes(ok), called).to.link
    case Disconnect(called) => F.Flat(p, F.LinkDisconnect, called).to.link
    case T1(called) => F.Flat(p, F.T1, called).to.link
    case T2 => F.Flat(p, F.T2, true).to.link
    case T3 => F.Flat(p, F.T3, true).to.link
  }

  lemma LinkSteps(state: F.Link, t: Told)
    ensures var open := state in {F.L_ESTABLISHED, F.L_CONNECTED};
            LinkAfter(state, t) ==
            match t
            case Asked => F.L_REESTABLISH_DELAY
            case TcpUp => if state == F.L_REESTABLISH then F.L_ESTABLISHED else state
            case TcpDown => if open then F.L_REESTABLISH_DELAY else state
            case KaTimeout => if open then F.L_REESTABLISH_DELAY else state
            case ConnRes(ok, called) =>
              if state != F.L_ESTABLISHED then state
              else if ok then F.L_CONNECTED
              else if called then F.L_REESTABLISH_DELAY else state
            case Disconnect(_) => F.L_INIT
            case T1(called) => if state == F.L_ESTABLISHED && called then F.L_REESTABLISH_DELAY else state
            case T2 => if state == F.L_REESTABLISH then F.L_REESTABLISH_DELAY else state
            case T3 => if state == F.L_REESTABLISH_DELAY then F.L_REESTABLISH else state
  {}

  /** The fields of `rspro_server_conn` and of its FSM instance that matter here; `seen` is the
      history the theorems above are about. */
  class Srvc {
    var state: F.Link
    var conn: bool
    var due: int
    var delayIdx: nat
    var lastMs: int
    ghost var seen: Link

    ghost predicate Valid()
      reads this
    {
      && Ok(seen) && seen.idx == delayIdx && seen.last == lastMs && seen.phase == PhaseOf(state, due)
    }

    /** There is a stream from the attempt on until the next delay or the end. */
    ghost predicate Streamed()
      reads this
    {
      conn <==> state in {F.L_REESTABLISH, F.L_ESTABLISHED, F.L_CONNECTED}
    }

    constructor ()
      ensures Valid() && seen == START && Streamed()
    {
      state, conn, due, delayIdx, lastMs := F.L_INIT, false, 0, 0, 0;
      seen := START;
    }

    /** `srvc_do_reestablish` and the entry action of REESTABLISH_DELAY it leads to. In that state
        already, the change is refused. */
    method DoReestablish(now: int)
      requires Valid() && seen.now <= now && (seen.asked || state != F.L_INIT)
      requires state == F.L_REESTABLISH_DELAY ==> delayIdx == 0
      modifies this
      ensures Valid() && seen == Reestablish(old(seen), now) && state == F.L_REESTABLISH_DELAY
      ensures conn <==> old(state) == F.L_REESTABLISH_DELAY && old(conn)
      ensures old(state) != F.L_REESTABLISH_DELAY ==> now < due <= now + 16000
      ensures old(state) != F.L_REESTABLISH_DELAY ==>
                var entry := if now - old(lastMs) > 32000 then 0 else old(delayIdx);
                && entry < COUNT && due == Later(now + 1, old(lastMs) + 1000 * Delay(entry))
                && delayIdx == (if entry < 123 then entry + 1 else entry)
      ensures old(state) == F.L_REESTABLISH_DELAY ==> due == old(due) && delayIdx == 0
      ensures lastMs == old(lastMs)
    {
      hide Paced;
      ReestablishOk(seen, now);
      seen := Reestablish(seen, now);
      var sinceLast := now - lastMs;
      if sinceLast > RESET_MS {
        delayIdx := 0;
      }
      var need := Delay(delayIdx) * 1000;
      var delayMs := need - sinceLast;
      if delayMs <= 0 {
        delayMs := 1;
      }
      if F.LinkMay(state, F.L_REESTABLISH_DELAY) {
        state, due, conn := F.L_REESTABLISH_DELAY, now + delayMs, false;
        if delayIdx < COUNT - 1 {
          delayIdx := delayIdx + 1;
        }
      }
    }

    /** SRVC_E_ESTABLISH, in every state. */
    method HandleEstablish(now: int)
      requires Valid() && seen.now <= now
      modifies this
      ensures Valid() && seen == Step(old(seen), Establish(now)) && state == F.L_REESTABLISH_DELAY && lastMs == 0
      ensures conn <==> old(state) == F.L_REESTABLISH_DELAY && old(conn)
      ensures due == if old(state) == F.L_REESTABLISH_DELAY then old(due) else now + 1
      ensures delayIdx == if old(state) == F.L_REESTABLISH_DELAY then 0 else 1
    {
      hide Paced;
      delayIdx, lastMs := 0, 0;
      seen := seen.(idx := 0, last := 0, asked := true);
      DoReestablish(now);
    }

    /** A connection or an attempt that failed. */
    method HandleLoss(now: int)
      requires Valid() && seen.now <= now && state in {F.L_ESTABLISHED, F.L_CONNECTED, F.L_REESTABLISH}
      modifies this
      ensures Valid() && seen == Step(old(seen), Retry(now)) && state == F.L_REESTABLISH_DELAY && !conn
    {
      hide Ok, Reestablish;
      DoReestablish(now);
    }

    /** SRVC_E_DISCONNECT, in every state; losing the stream may count as a failure first. */
    method HandleDisconnect(now: int, called: bool)
      requires Valid() && seen.now <= now
      modifies this
      ensures Valid() && seen == Run(old(seen), Seen(old(state), old(conn), Disconnect(called), now)) && state == F.L_INIT && !conn
    {
      ghost var l := seen;
      if conn {
        conn := false;
        if called && state in {F.L_ESTABLISHED, F.L_CONNECTED} {
          HandleLoss(now);
          RunTwo(l, Retry(now), Stop(now));
        }
      }
      RunOne(seen, Stop(now));
      StepOk(seen, Stop(now));
      seen := Step(seen, Stop(now));
      state := F.L_INIT;
    }

    /** T3: entering REESTABLISH is the attempt. The timer does not fire before it is due. */
    method HandleExpiry(now: int)
      requires Valid() && seen.now <= now && state == F.L_REESTABLISH_DELAY && due <= now
      modifies this
      ensures Valid() && seen == Step(old(seen), Expire(now)) && |seen.attempts| == |old(seen).attempts| + 1
      ensures state == F.L_REESTABLISH && lastMs == now && delayIdx == old(delayIdx) && conn
    {
      StepOk(seen, Expire(now));
      seen := Step(seen, Expire(now));
      state, lastMs, conn := F.L_REESTABLISH, now, true;
    }

    /** One event of the link FSM: the handlers do to the counters what the model says, so whatever
        is told in whatever order, the attempts of this object keep their pace. */
    method Dispatch(t: Told, now: int)
      requires Valid() && seen.now <= now && Streamed()
      requires t == T3 && state == F.L_REESTABLISH_DELAY ==> due <= now
      modifies this
      ensures Valid() && Paced(seen.attempts) && Streamed()
      ensures seen == Run(old(seen), Seen(old(state), old(conn), t, now))
      ensures state == LinkAfter(old(state), t)
    {
      hide Step, Paced, Ok, Run, LinkAfter, F.Flat;
      LinkSteps(state, t);
      ghost var l := seen;
      OkPaced(l);
      RunNone(l);
      match t {
        case Asked =>
          HandleEstablish(now);
          RunOne(l, Establish(now));
        case TcpUp =>
          if state == F.L_REESTABLISH {
            state := F.L_ESTABLISHED;
          }
        case TcpDown =>
          if state in {F.L_ESTABLISHED, F.L_CONNECTED} {
            HandleLoss(now);
            RunOne(l, Retry(now));
          }
        case KaTimeout =>
          if state in {F.L_ESTABLISHED, F.L_CONNECTED} {
            HandleLoss(now);
            RunOne(l, Retry(now));
          }
        case ConnRes(ok, called) =>
          if state == F.L_ESTABLISHED {
            if ok {
              state := F.L_CONNECTED;
            } else if called {
              HandleLoss(now);
              RunOne(l, Retry(now));
            }
          }
        case Disconnect(called) => HandleDisconnect(now, called);
        case T1(called) =>
          if state == F.L_ESTABLISHED && called {
            HandleLoss(now);
            RunOne(l, Retry(now));
          }
        case T2 =>
          if state == F.L_REESTABLISH {
            HandleLoss(now);
            RunOne(l, Retry(now));
          }
        case T3 =>
          if state == F.L_REESTABLISH_DELAY {
            HandleExpiry(now);
            RunOne(l, Expire(now));
          }
      }
      OkPaced(seen);
    }
  }

  lemma OkPaced(l: Link)
    requires Ok(l)
    ensures Paced(l.attempts) && l.idx < COUNT
  {}

  lemma RunNone(l: Link)
    requires l.idx < COUNT
    ensures Run(l, []) == l
  {}

  lemma RunOne(l: Link, e: Event)
    requires l.idx < COUNT
    ensures Run(l, [e]) == Step(l, e)
  {
    hide Step;
    assert [e][1..] == [];
  }

  lemma RunTwo(l: Link, d: Event, e: Event)
    requires l.idx < COUNT
    ensures Run(l, [d, e]) == Step(Step(l, d), e)
  {
    hide Step;
    assert [d, e][1..] == [e];
    RunOne(Step(l, d), e);
  }
}
