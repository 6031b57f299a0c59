/** The round-robin choice of a KI-proxy slot (`worker_handle_ki_proxy`, src/bankd/bankd_main.c),
    calls taken one at a time. */
module KiProxy {
  datatype Choice = NoSlot | Position(at: nat)

  function After(i: nat, n: nat): (r: nat)
    requires i < n
    ensures r == if i + 1 < n then i + 1 else 0
  {
    (i + 1) % n
  }

  /** The loop: at most `tries` entries from `next` on, cyclically. */
  function Scan(pool: seq<nat>, slots: nat, next: nat, tries: nat): (r: (Choice, nat))
    requires next < |pool|
    ensures r.1 < |pool|
    decreases tries
  {
    if tries == 0 then (NoSlot, next)
    else
      var after := After(next, |pool|);
      if pool[next] < slots then (Position(next), after) else Scan(pool, slots, after, tries - 1)
  }

  /** One call: the position chosen and the new index. */
  function Select(pool: seq<nat>, slots: nat, next: nat): (r: (Choice, nat))
    requires next < |pool|
    ensures r.1 < |pool|
  {
    Scan(pool, slots, next, |pool|)
  }

  predicate NoneBetween(pool: seq<nat>, slots: nat, lo: nat, hi: nat)
    requires hi <= |pool|
  {
    forall i :: lo <= i < hi ==> pool[i] >= slots
  }

  /** The entry found is the next valid one in cyclic order, and the index is the one after it. */
  predicate NextValid(pool: seq<nat>, slots: nat, next: nat, at: nat)
    requires next < |pool|
  {
    && at < |pool| && pool[at] < slots
    && (if at >= next then NoneBetween(pool, slots, next, at)
        else NoneBetween(pool, slots, next, |pool|) && NoneBetween(pool, slots, 0, at))
  }

  /** Before the end of the pool. */
  lemma {:induction false} ScanAhead(pool: seq<nat>, slots: nat, next: nat, tries: nat)
    requires next < |pool| && tries >= |pool| - next
    ensures var r := Scan(pool, slots, next, tries);
            || (&& r.0.Position? && next <= r.0.at < |pool| && pool[r.0.at] < slots
                && NoneBetween(pool, slots, next, r.0.at) && r.1 == After(r.0.at, |pool|))
            || (NoneBetween(pool, slots, next, |pool|) && r == Scan(pool, slots, 0, tries - (|pool| - next)))
    decreases tries
  {
    hide After;
    if pool[next] >= slots {
      if next + 1 < |pool| {
        ScanAhead(pool, slots, next + 1, tries - 1);
      }
    }
  }

  lemma {:induction false} ScanStart(pool: seq<nat>, slots: nat, from: nat, tries: nat)
    requires from < |pool| && from + tries <= |pool|
    ensures var r := Scan(pool, slots, from, tries);
            if r.0.Position? then
              && from <= r.0.at < from + tries && pool[r.0.at] < slots
              && NoneBetween(pool, slots, from, r.0.at) && r.1 == After(r.0.at, |pool|)
            else NoneBetween(pool, slots, from, from + tries) && r.1 == (if from + tries < |pool| then from + tries else 0)
    decreases tries
  {
    hide After;
    if tries > 0 && pool[from] >= slots {
      if from + 1 < |pool| {
        ScanStart(pool, slots, from + 1, tries - 1);
      }
    }
  }

  /** A call finds no slot exactly when no entry of the pool is valid; otherwise it takes the next
      valid one cyclically. */
  lemma SelectNext(pool: seq<nat>, slots: nat, next: nat)
    requires next < |pool|
    ensures var r := Select(pool, slots, next);
            && (r.0.NoSlot? <==> NoneBetween(pool, slots, 0, |pool|))
            && (r.0.NoSlot? ==> r.1 == next)
            && (r.0.Position? ==> NextValid(pool, slots, next, r.0.at) && r.1 == After(r.0.at, |pool|))
  {
    hide Scan, After;
    ScanAhead(pool, slots, next, |pool|);
    ScanStart(pool, slots, 0, next);
  }

  // ----- fairness

  /** How often each position was chosen after `n` calls. */
  datatype Tally = Tally(next: nat, counts: seq<nat>)

  function Call(pool: seq<nat>, slots: nat, t: Tally): (r: Tally)
    requires t.next < |pool| && |t.counts| == |pool|
    ensures r.next < |pool| && |r.counts| == |pool|
  {
    var s := Select(pool, slots, t.next);
    if s.0.Position? && s.0.at < |pool| then Tally(s.1, t.counts[s.0.at := t.counts[s.0.at] + 1]) else Tally(s.1, t.counts)
  }

  function Calls(pool: seq<nat>, slots: nat, t: Tally, n: nat): (r: Tally)
    requires t.next < |pool| && |t.counts| == |pool|
    ensures r.next < |pool| && |r.counts| == |pool|
    decreases n
  {
    if n == 0 then t else Calls(pool, slots, Call(pool, slots, t), n - 1)
  }

  /** In this round the valid positions before the index have been chosen once more. */
  predicate InRound(pool: seq<nat>, slots: nat, t: Tally, round: nat)
    requires t.next < |pool| && |t.counts| == |pool|
  {
    forall i :: 0 <= i < |pool| && pool[i] < slots ==> t.counts[i] == round + if i < t.next then 1 else 0
  }

  lemma CallKeepsRound(pool: seq<nat>, slots: nat, t: Tally, round: nat) returns (round': nat)
    requires t.next < |pool| && |t.counts| == |pool| && InRound(pool, slots, t, round)
    ensures InRound(pool, slots, Call(pool, slots, t), round')
  {
    hide Select, After;
    SelectNext(pool, slots, t.next);
    var s := Select(pool, slots, t.next);
    if s.0.NoSlot? {
      round' := round;
    } else if s.0.at >= t.next {
      round' := if s.0.at + 1 == |pool| then round + 1 else round;
    } else {
      round' := round + 1;
    }
  }

  lemma {:induction false} CallsKeepRound(pool: seq<nat>, slots: nat, t: Tally, n: nat, round: nat) returns (round': nat)
    requires t.next < |pool| && |t.counts| == |pool| && InRound(pool, slots, t, round)
    ensures InRound(pool, slots, Calls(pool, slots, t, n), round')
    decreases n
  {
    if n == 0 {
      round' := round;
    } else {
      var r := CallKeepsRound(pool, slots, t, round);
      hide Call;
      round' := CallsKeepRound(pool, slots, Call(pool, slots, t), n - 1, r);
    }
  }

  /** After any number of calls two valid positions have been chosen equally often, up to one. */
  lemma Fair(pool: seq<nat>, slots: nat, n: nat, i: nat, j: nat)
    requires i < |pool| && j < |pool| && pool[i] < slots && pool[j] < slots
    ensures var c := Calls(pool, slots, Tally(0, seq(|pool|, _ => 0)), n).counts; c[i] <= c[j] + 1
  {
    var round := CallsKeepRound(pool, slots, Tally(0, seq(|pool|, _ => 0)), n, 0);
  }

  // ----- the loop of the source

  class Pool {
    const slotsOf: seq<nat>
    const numSlots: nat
    var next: nat

    ghost predicate Valid()
      reads this
    {
      slotsOf != [] && next < |slotsOf|
    }

    constructor (pool: seq<nat>, numSlots: nat)
      requires pool != []
      ensures Valid() && next == 0 && slotsOf == pool && this.numSlots == numSlots
    {
      slotsOf, this.numSlots, next := pool, numSlots, 0;
    }

    method Choose() returns (c: Choice)
      requires Valid()
      modifies this
      ensures Valid() && (c, next) == Select(slotsOf, numSlots, old(next))
      ensures c.Position? ==> NextValid(slotsOf, numSlots, old(next), c.at)
      ensures c.NoSlot? <==> forall i :: 0 <= i < |slotsOf| ==> slotsOf[i] >= numSlots
      ensures next == if c.NoSlot? then old(next) else if c.at + 1 < |slotsOf| then c.at + 1 else 0
    {
      hide After;
      SelectNext(slotsOf, numSlots, next);
      var attempts := 0;
      while attempts < |slotsOf|
        invariant 0 <= attempts <= |slotsOf| && Valid()
        invariant Select(slotsOf, numSlots, old(next)) == Scan(slotsOf, numSlots, next, |slotsOf| - attempts)
      {
        var current := next;
        next := After(current, |slotsOf|);
        if slotsOf[current] < numSlots {
          return Position(current);
        }
        attempts := attempts + 1;
      }
      return NoSlot;
    }
  }
}
