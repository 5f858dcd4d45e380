/** internal/resolver/resolver.go: the round-robin cursor over the upstreams and
    the counters that the statistics loop drains, under any interleaving. */
module Upstreams {
  import opened Basics

  const TWO_63: int := 0x8000_0000_0000_0000
  const TWO_64: int := 0x1_0000_0000_0000_0000

  type uint64 = x: int | 0 <= x < TWO_64

  /** Go's int(v) on a 64-bit machine. */
  function ToInt64(v: uint64): int
  {
    if v < TWO_63 then v else v - TWO_64
  }

  /** Go's %, which truncates towards zero. */
  function GoMod(a: int, n: int): int
    requires n > 0
  {
    if a >= 0 then a % n else -((-a) % n)
  }

  /** The pool index of the pick that moved the cursor away from v. */
  function PickIndex(v: uint64, n: nat): int
    requires n > 0
  {
    GoMod(ToInt64(v), n)
  }

  /** The index is a valid one exactly for the first 2^63 picks and for those
      later picks whose distance to the wrap-around is a multiple of the pool. */
  lemma IndexInRange(v: uint64, n: nat)
    requires n > 0
    ensures 0 <= PickIndex(v, n) < n <==> v < TWO_63 || (TWO_64 - v) % n == 0
  {
    if v >= TWO_63 {
      assert ToInt64(v) == -(TWO_64 - v);
    }
  }

  /** With three upstreams the pick after 2^63 others is out of range. */
  lemma IndexCounterexample()
    ensures PickIndex(TWO_63, 3) < 0
  {
    assert TWO_63 == 3 * 3074457345618258602 + 2;
  }

  // --- Interleaved steps ---

  /** `pending[t]` is the upstream thread t has picked but not yet counted;
      `logged` is what the statistics loop has taken out so far. */
  datatype State = State(next: uint64, rpcs: seq<nat>, logged: seq<nat>, pending: seq<Option<nat>>, crashed: bool)

  datatype Event = Pick(thread: nat) | CountRpc(thread: nat) | Drain(upstream: nat)

  function Start(upstreams: nat, threads: nat): State
  {
    State(0, seq(upstreams, _ => 0), seq(upstreams, _ => 0), seq(threads, _ => None), false)
  }

  /** An event that cannot happen leaves the state alone. */
  function Apply(s: State, e: Event): State
  {
    match e
    case Pick(t) =>
      if t < |s.pending| && s.pending[t].None? && |s.rpcs| > 0 && !s.crashed then
        var i := PickIndex(s.next, |s.rpcs|);
        var moved := s.(next := if s.next + 1 == TWO_64 then 0 else s.next + 1);
        if i < 0 then moved.(crashed := true) else moved.(pending := s.pending[t := Some(i)])
      else s
    case CountRpc(t) =>
      if t < |s.pending| && s.pending[t].Some? && s.pending[t].value < |s.rpcs| then
        var i := s.pending[t].value;
        s.(rpcs := s.rpcs[i := s.rpcs[i] + 1], pending := s.pending[t := None])
      else s
    case Drain(i) =>
      if i < |s.rpcs| && i < |s.logged| then
        s.(logged := s.logged[i := s.logged[i] + s.rpcs[i]], rpcs := s.rpcs[i := 0])
      else s
  }

  function Run(s: State, events: seq<Event>): State
  {
    if events == [] then s else Apply(Run(s, events[..|events| - 1]), events[|events| - 1])
  }

  /** The picks made in a run. */
  function Picks(s: State, events: seq<Event>): nat
  {
    if events == [] then 0
    else
      var front := events[..|events| - 1];
      Picks(s, front) + if Apply(Run(s, front), events[|events| - 1]).next != Run(s, front).next then 1 else 0
  }

  /** How many threads have picked upstream i and not yet counted it. */
  function InFlight(pending: seq<Option<nat>>, i: nat): nat
  {
    if pending == [] then 0
    else InFlight(pending[..|pending| - 1], i) + if pending[|pending| - 1] == Some(i) then 1 else 0
  }

  lemma {:induction false} InFlightUpdate(pending: seq<Option<nat>>, t: nat, x: Option<nat>, i: nat)
    requires t < |pending|
    ensures InFlight(pending[t := x], i) ==
            InFlight(pending, i) - (if pending[t] == Some(i) then 1 else 0) + if x == Some(i) then 1 else 0
  {
    var n := |pending| - 1;
    if t < n {
      assert pending[t := x][..n] == pending[..n][t := x];
      InFlightUpdate(pending[..n], t, x, i);
    } else {
      assert pending[t := x][..n] == pending[..n];
    }
  }

  /** Everything ever routed to upstream i: printed, live and in flight. */
  function Lifetime(s: State, i: nat): nat
    requires i < |s.rpcs| && |s.logged| == |s.rpcs|
  {
    s.logged[i] + s.rpcs[i] + InFlight(s.pending, i)
  }

  /** The turns of upstream i among the first v. */
  function Turns(v: nat, i: nat, n: nat): nat
    requires n > 0
  {
    if v == 0 then 0 else Turns(v - 1, i, n) + if (v - 1) % n == i then 1 else 0
  }

  ghost predicate Inv(s: State, upstreams: nat, threads: nat)
  {
    && |s.rpcs| == |s.logged| == upstreams > 0 && |s.pending| == threads && !s.crashed
    && (forall t | 0 <= t < threads && s.pending[t].Some? :: s.pending[t].value < upstreams)
    && (forall i | 0 <= i < upstreams :: Lifetime(s, i) == Turns(s.next, i, upstreams))
  }

  lemma {:induction false} QuietInFlight(pending: seq<Option<nat>>, i: nat)
    requires forall t | 0 <= t < |pending| :: pending[t].None?
    ensures InFlight(pending, i) == 0
  {
    if pending != [] {
      QuietInFlight(pending[..|pending| - 1], i);
    }
  }

  lemma PickInv(s: State, t: nat, upstreams: nat, threads: nat)
    requires Inv(s, upstreams, threads) && s.next < TWO_63
    ensures Inv(Apply(s, Pick(t)), upstreams, threads)
  {
    var s' := Apply(s, Pick(t));
    if t < threads && s.pending[t].None? {
      var k := s.next % upstreams;
      forall i | 0 <= i < upstreams
        ensures Lifetime(s', i) == Turns(s'.next, i, upstreams)
      {
        InFlightUpdate(s.pending, t, Some(k), i);
        assert Lifetime(s, i) == Turns(s.next, i, upstreams);
      }
    }
  }

  lemma CountInv(s: State, t: nat, upstreams: nat, threads: nat)
    requires Inv(s, upstreams, threads)
    ensures Inv(Apply(s, CountRpc(t)), upstreams, threads)
  {
    var s' := Apply(s, CountRpc(t));
    if t < threads && s.pending[t].Some? {
      forall i | 0 <= i < upstreams
        ensures Lifetime(s', i) == Turns(s'.next, i, upstreams)
      {
        InFlightUpdate(s.pending, t, None, i);
        assert Lifetime(s, i) == Turns(s.next, i, upstreams);
      }
    }
  }

  lemma DrainInv(s: State, i: nat, upstreams: nat, threads: nat)
    requires Inv(s, upstreams, threads)
    ensures Inv(Apply(s, Drain(i)), upstreams, threads)
  {
    var s' := Apply(s, Drain(i));
    forall j | 0 <= j < upstreams
      ensures Lifetime(s', j) == Turns(s'.next, j, upstreams)
    {
      assert Lifetime(s, j) == Turns(s.next, j, upstreams);
    }
  }

  lemma {:induction false} RunInv(upstreams: nat, threads: nat, events: seq<Event>)
    requires upstreams > 0 && Picks(Start(upstreams, threads), events) < TWO_63
    ensures var s := Run(Start(upstreams, threads), events);
            Inv(s, upstreams, threads) && s.next == Picks(Start(upstreams, threads), events)
  {
    var start := Start(upstreams, threads);
    if events == [] {
      forall i | 0 <= i < upstreams
        ensures Lifetime(start, i) == 0
      {
        QuietInFlight(start.pending, i);
      }
    } else {
      var front, e := events[..|events| - 1], events[|events| - 1];
      RunInv(upstreams, threads, front);
      var s := Run(start, front);
      match e
      case Pick(t) => PickInv(s, t, upstreams, threads);
      case CountRpc(t) => CountInv(s, t, upstreams, threads);
      case Drain(i) => DrainInv(s, i, upstreams, threads);
    }
  }

  // --- Conservation and fairness ---

  lemma MultipleSize(n: nat, d: int)
    ensures d >= 1 ==> n * d >= n
    ensures d <= -1 ==> n * d + n <= 0
  {
  }

  lemma ModIs(a: nat, n: nat, q: nat, r: nat)
    requires n > 0 && r < n && a == n * q + r
    ensures a / n == q && a % n == r
  {
    var d: int := a / n - q;
    assert a == n * (a / n) + a % n;
    assert n * d + a % n == r;
    MultipleSize(n, d);
  }

  lemma {:induction false} TurnsSplit(v: nat, i: nat, n: nat, q: nat, r: nat)
    requires i < n && r < n && v == n * q + r
    ensures Turns(v, i, n) == q + if i < r then 1 else 0
    decreases v
  {
    if v > 0 {
      if r > 0 {
        ModIs(v - 1, n, q, r - 1);
        TurnsSplit(v - 1, i, n, q, r - 1);
      } else {
        assert q > 0 && v - 1 == n * (q - 1) + (n - 1);
        ModIs(v - 1, n, q - 1, n - 1);
        TurnsSplit(v - 1, i, n, q - 1, n - 1);
      }
    } else {
      MultipleSize(n, q);
    }
  }

  /** The first v picks give every upstream v / n turns, and the first v % n
      upstreams one more. */
  lemma TurnsClosed(v: nat, i: nat, n: nat)
    requires i < n
    ensures Turns(v, i, n) == v / n + if i < v % n then 1 else 0
  {
    TurnsSplit(v, i, n, v / n, v % n);
  }

  function SumTurns(v: nat, k: nat, n: nat): nat
    requires n > 0
  {
    if k == 0 then 0 else SumTurns(v, k - 1, n) + Turns(v, k - 1, n)
  }

  lemma {:induction false} SumTurnsStep(v: nat, k: nat, n: nat)
    requires n > 0
    ensures SumTurns(v + 1, k, n) == SumTurns(v, k, n) + if v % n < k then 1 else 0
  {
    if k > 0 {
      SumTurnsStep(v, k - 1, n);
    }
  }

  lemma {:induction false} SumTurnsZero(k: nat, n: nat)
    requires n > 0
    ensures SumTurns(0, k, n) == 0
  {
    if k > 0 {
      SumTurnsZero(k - 1, n);
    }
  }

  lemma {:induction false} SumTurnsAll(v: nat, n: nat)
    requires n > 0
    ensures SumTurns(v, n, n) == v
  {
    if v > 0 {
      SumTurnsAll(v - 1, n);
      SumTurnsStep(v - 1, n, n);
    } else {
      SumTurnsZero(n, n);
    }
  }

  function SumLifetime(s: State, k: nat): nat
    requires k <= |s.rpcs| == |s.logged|
  {
    if k == 0 then 0 else SumLifetime(s, k - 1) + Lifetime(s, k - 1)
  }

  lemma {:induction false} SumLifetimeIs(s: State, k: nat)
    requires k <= |s.rpcs| == |s.logged| && |s.rpcs| > 0
    requires forall i | 0 <= i < |s.rpcs| :: Lifetime(s, i) == Turns(s.next, i, |s.rpcs|)
    ensures SumLifetime(s, k) == SumTurns(s.next, k, |s.rpcs|)
  {
    if k > 0 {
      SumLifetimeIs(s, k - 1);
    }
  }

  /** In every run of fewer than 2^63 picks no index is out of range, and what
      has been printed, what is still in the counters and what is in flight add
      up to the number of picks. */
  lemma Conservation(upstreams: nat, threads: nat, events: seq<Event>)
    requires upstreams > 0 && Picks(Start(upstreams, threads), events) < TWO_63
    ensures var s := Run(Start(upstreams, threads), events);
            && !s.crashed && |s.rpcs| == |s.logged| == upstreams && |s.pending| == threads
            && (forall t | 0 <= t < threads && s.pending[t].Some? :: s.pending[t].value < upstreams)
            && SumLifetime(s, upstreams) == Picks(Start(upstreams, threads), events)
  {
    RunInv(upstreams, threads, events);
    var s := Run(Start(upstreams, threads), events);
    SumLifetimeIs(s, upstreams);
    SumTurnsAll(s.next, upstreams);
  }

  /** When no pick is in flight the numbers of calls ever routed to any two
      upstreams differ by at most one, however the drains fell. */
  lemma Fairness(upstreams: nat, threads: nat, events: seq<Event>, i: nat, j: nat)
    requires i < upstreams && j < upstreams && Picks(Start(upstreams, threads), events) < TWO_63
    requires forall t | 0 <= t < |Run(Start(upstreams, threads), events).pending| ::
               Run(Start(upstreams, threads), events).pending[t].None?
    ensures var s := Run(Start(upstreams, threads), events);
            && |s.rpcs| == |s.logged| == upstreams
            && s.logged[i] + s.rpcs[i] <= s.logged[j] + s.rpcs[j] + 1
            && s.logged[j] + s.rpcs[j] <= s.logged[i] + s.rpcs[i] + 1
  {
    RunInv(upstreams, threads, events);
    var s := Run(Start(upstreams, threads), events);
    QuietInFlight(s.pending, i);
    QuietInFlight(s.pending, j);
    assert Lifetime(s, i) == Turns(s.next, i, upstreams) && Lifetime(s, j) == Turns(s.next, j, upstreams);
    TurnsClosed(s.next, i, upstreams);
    TurnsClosed(s.next, j, upstreams);
  }
}
