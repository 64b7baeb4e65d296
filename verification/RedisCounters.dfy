/**
 * The Redis pool collector: it reads 32-bit cumulative counters that wrap around and adds the
 * difference since the last reading to an ever-growing total.
 */
module RedisCounters {
  import opened Types

  const WRAP: nat := 0x1_0000_0000

  type u32 = n: nat | n < WRAP

  datatype Stats = Stats(hits: u32, misses: u32, stale: u32, waitNanos: nat)

  datatype Totals = Totals(hits: nat, misses: nat, stale: nat, waitNanos: nat)

  datatype State = State(last: Stats, sent: Totals)

  const INITIAL := State(Stats(0, 0, 0, 0), Totals(0, 0, 0, 0))

  /** Subtraction of unsigned 32-bit numbers. */
  function Subtract(a: u32, b: u32): u32 {
    (a - b) % WRAP
  }

  /** A tick without statistics, because the client is missing or failing, changes nothing. */
  function Next(s: State, tick: Option<Stats>): State {
    match tick
    case None => s
    case Some(stats) =>
      State(stats, Totals(
        s.sent.hits + Subtract(stats.hits, s.last.hits),
        s.sent.misses + Subtract(stats.misses, s.last.misses),
        s.sent.stale + Subtract(stats.stale, s.last.stale),
        s.sent.waitNanos + Rise(stats.waitNanos, s.last.waitNanos)))
  }

  /** `last` is the previous reading; the other fields are what each instrument has been given so far. */
  class Collector {
    var last: Stats
    var hits: nat
    var misses: nat
    var stale: nat
    var waitNanos: nat

    function View(): State
      reads this
    {
      State(last, Totals(hits, misses, stale, waitNanos))
    }

    constructor ()
      ensures View() == INITIAL
    {
      last := Stats(0, 0, 0, 0);
      hits, misses, stale, waitNanos := 0, 0, 0, 0;
    }

    method Collect(tick: Option<Stats>)
      modifies this
      ensures View() == Next(old(View()), tick)
    {
      if tick.Some? {
        RecordCounters(tick.value);
      }
    }

    method RecordCounters(stats: Stats)
      modifies this
      ensures View() == Next(old(View()), Some(stats))
      ensures last == stats
      ensures hits == old(hits) + (stats.hits - old(last).hits) % 4294967296
      ensures misses == old(misses) + (stats.misses - old(last).misses) % 4294967296
      ensures stale == old(stale) + (stats.stale - old(last).stale) % 4294967296
      ensures waitNanos - old(waitNanos) == Rise(stats.waitNanos, old(last).waitNanos)
    {
      var hitsDelta := Subtract(stats.hits, last.hits);
      if hitsDelta > 0 {
        hits := hits + hitsDelta;
      }
      var missesDelta := Subtract(stats.misses, last.misses);
      if missesDelta > 0 {
        misses := misses + missesDelta;
      }
      var staleDelta := Subtract(stats.stale, last.stale);
      if staleDelta > 0 {
        stale := stale + staleDelta;
      }
      var waitDelta := stats.waitNanos - last.waitNanos;
      if waitDelta > 0 {
        waitNanos := waitNanos + waitDelta;
      }
      last := stats;
    }
  }

  function Run(s: State, ticks: seq<Option<Stats>>): State
    decreases |ticks|
  {
    if ticks == [] then s else Run(Next(s, ticks[0]), ticks[1..])
  }

  datatype Counter = Hits | Misses | Stale

  function Reading(stats: Stats, c: Counter): u32 {
    match c
    case Hits => stats.hits
    case Misses => stats.misses
    case Stale => stats.stale
  }

  function Sent(totals: Totals, c: Counter): nat {
    match c
    case Hits => totals.hits
    case Misses => totals.misses
    case Stale => totals.stale
  }

  /** The values at the ticks that brought statistics. */
  function Received(ticks: seq<Option<Stats>>, values: seq<nat>): seq<nat>
    requires |ticks| == |values|
    decreases |ticks|
  {
    if ticks == [] then []
    else (if ticks[0].Some? then [values[0]] else []) + Received(ticks[1..], values[1..])
  }

  /** `counts` are true event counts at the ticks, starting from `from`, which the pool reports modulo 2^32. */
  predicate Observes(ticks: seq<Option<Stats>>, c: Counter, from: nat, counts: seq<nat>) {
    && |counts| == |ticks|
    && (forall i :: 0 <= i < |ticks| ==> Before(from, counts, i) <= counts[i])
    && (forall i :: 0 <= i < |ticks| && ticks[i].Some? ==> Reading(ticks[i].value, c) == counts[i] % 4294967296)
  }

  /** The count before tick `i`. */
  function Before(from: nat, counts: seq<nat>, i: nat): nat
    requires i <= |counts|
  {
    if i == 0 then from else counts[i - 1]
  }

  /** The events lost to the wrap-around: whole multiples of 2^32 between two readings. */
  function Missed(from: nat, counts: seq<nat>): nat
    decreases |counts|
  {
    if counts == [] then 0
    else WRAP * (Rise(counts[0], from) / WRAP) + Missed(counts[0], counts[1..])
  }

  lemma {:induction false} SubtractIsGrowth(before: nat, after: nat)
    requires before <= after
    ensures Subtract(after % WRAP, before % WRAP) == (after - before) % 4294967296
    ensures Subtract(after % WRAP, before % WRAP) + WRAP * (Rise(after, before) / WRAP) == after - before
  {
    assert after == WRAP * (after / WRAP) + after % WRAP;
    assert before == WRAP * (before / WRAP) + before % WRAP;
  }

  lemma {:induction false} ObservesRest(ticks: seq<Option<Stats>>, c: Counter, from: nat, counts: seq<nat>)
    requires Observes(ticks, c, from, counts) && ticks != []
    ensures Observes(ticks[1..], c, counts[0], counts[1..])
  {
    forall i | 0 <= i < |ticks[1..]|
      ensures Before(counts[0], counts[1..], i) <= counts[1..][i]
    {
      assert Before(from, counts, i + 1) <= counts[i + 1];
    }
    forall i | 0 <= i < |ticks[1..]| && ticks[1..][i].Some?
      ensures Reading(ticks[1..][i].value, c) == counts[1..][i] % WRAP
    {
      assert ticks[i + 1].Some?;
    }
  }

  /** The same from an earlier count, as after a skipped tick. */
  lemma {:induction false} ObservesFromEarlier(
    ticks: seq<Option<Stats>>, c: Counter, from: nat, earlier: nat, counts: seq<nat>)
    requires Observes(ticks, c, from, counts) && earlier <= from
    ensures Observes(ticks, c, earlier, counts)
  {
    forall i | 0 <= i < |ticks|
      ensures Before(earlier, counts, i) <= counts[i]
    {
      assert Before(from, counts, i) <= counts[i];
    }
  }

  function LastOr<T>(s: seq<T>, otherwise: T): T {
    if s == [] then otherwise else s[|s| - 1]
  }

  /** After any run, the total and what the wrap-around lost add up to the true growth. */
  lemma {:induction false} TotalPlusMissed(s: State, ticks: seq<Option<Stats>>, c: Counter, from: nat, counts: seq<nat>)
    requires Observes(ticks, c, from, counts) && Reading(s.last, c) == from % WRAP
    ensures Sent(Run(s, ticks).sent, c) + Missed(from, Received(ticks, counts))
            == Sent(s.sent, c) + LastOr(Received(ticks, counts), from) - from
    decreases |ticks|
  {
    if ticks != [] {
      ObservesRest(ticks, c, from, counts);
      var rest := Received(ticks[1..], counts[1..]);
      var next := Next(s, ticks[0]);
      assert Before(from, counts, 0) <= counts[0];
      if ticks[0].None? {
        ObservesFromEarlier(ticks[1..], c, counts[0], from, counts[1..]);
        TotalPlusMissed(next, ticks[1..], c, from, counts[1..]);
        assert Received(ticks, counts) == rest;
      } else {
        TotalPlusMissed(next, ticks[1..], c, counts[0], counts[1..]);
        SubtractIsGrowth(from, counts[0]);
        assert Received(ticks, counts) == [counts[0]] + rest;
        assert ([counts[0]] + rest)[1..] == rest;
        assert Sent(next.sent, c) == Sent(s.sent, c) + Subtract(Reading(ticks[0].value, c), Reading(s.last, c));
      }
    }
  }

  predicate Slow(from: nat, counts: seq<nat>) {
    forall i :: 0 <= i < |counts| ==> counts[i] < Before(from, counts, i) + 4294967296
  }

  lemma {:induction false} BeforeRest(from: nat, counts: seq<nat>, i: nat)
    requires i + 1 < |counts|
    ensures Before(counts[0], counts[1..], i) == Before(from, counts, i + 1) && counts[1..][i] == counts[i + 1]
  {
  }

  lemma {:induction false} SlowRest(from: nat, counts: seq<nat>)
    requires counts != []
    ensures Slow(from, counts) <==> counts[0] < from + WRAP && Slow(counts[0], counts[1..])
  {
    var rest := counts[1..];
    forall i | 0 <= i < |rest|
      ensures rest[i] < Before(counts[0], rest, i) + WRAP <==> counts[i + 1] < Before(from, counts, i + 1) + WRAP
    {
      BeforeRest(from, counts, i);
    }
    if counts[0] < from + WRAP && Slow(counts[0], rest) {
      forall i | 0 <= i < |counts|
        ensures counts[i] < Before(from, counts, i) + WRAP
      {
        if i > 0 {
          assert rest[i - 1] < Before(counts[0], rest, i - 1) + WRAP;
        }
      }
    }
    if Slow(from, counts) {
      assert counts[0] < Before(from, counts, 0) + WRAP;
    }
  }

  /** Nothing is lost exactly when every growth between two readings is below 2^32. */
  lemma {:induction false} NothingMissed(from: nat, counts: seq<nat>)
    requires forall i :: 0 <= i < |counts| ==> Before(from, counts, i) <= counts[i]
    ensures Missed(from, counts) == 0 <==> Slow(from, counts)
    decreases |counts|
  {
    if counts != [] {
      forall i | 0 <= i < |counts[1..]|
        ensures Before(counts[0], counts[1..], i) <= counts[1..][i]
      {
        BeforeRest(from, counts, i);
        assert Before(from, counts, i + 1) <= counts[i + 1];
      }
      NothingMissed(counts[0], counts[1..]);
      assert Before(from, counts, 0) <= counts[0];
      SlowRest(from, counts);
    }
  }

  lemma {:induction false} ReceivedGrows(ticks: seq<Option<Stats>>, c: Counter, from: nat, counts: seq<nat>)
    requires Observes(ticks, c, from, counts)
    ensures var r := Received(ticks, counts); forall i :: 0 <= i < |r| ==> Before(from, r, i) <= r[i]
    decreases |ticks|
  {
    if ticks != [] {
      ObservesRest(ticks, c, from, counts);
      assert Before(from, counts, 0) <= counts[0];
      if ticks[0].None? {
        ObservesFromEarlier(ticks[1..], c, counts[0], from, counts[1..]);
        ReceivedGrows(ticks[1..], c, from, counts[1..]);
        assert Received(ticks, counts) == Received(ticks[1..], counts[1..]);
      } else {
        var rest := Received(ticks[1..], counts[1..]);
        ReceivedGrows(ticks[1..], c, counts[0], counts[1..]);
        var r := [counts[0]] + rest;
        assert Received(ticks, counts) == r;
        forall i | 0 <= i < |r|
          ensures Before(from, r, i) <= r[i]
        {
          if i > 0 {
            assert Before(counts[0], rest, i - 1) <= rest[i - 1];
          }
        }
      }
    }
  }

  /**
   * Over any run of a new collector, across any number of wrap-arounds and skipped ticks, a counter's
   * total is the true count at the last reading exactly when the count never grows by 2^32 or more
   * between two readings; otherwise it falls short.
   */
  lemma {:induction false} TotalsAreTrue(ticks: seq<Option<Stats>>, c: Counter, counts: seq<nat>)
    requires Observes(ticks, c, 0, counts)
    ensures Sent(Run(INITIAL, ticks).sent, c) <= LastOr(Received(ticks, counts), 0)
    ensures Sent(Run(INITIAL, ticks).sent, c) == LastOr(Received(ticks, counts), 0)
       <==> Slow(0, Received(ticks, counts))
  {
    TotalPlusMissed(INITIAL, ticks, c, 0, counts);
    ReceivedGrows(ticks, c, 0, counts);
    NothingMissed(0, Received(ticks, counts));
  }

  predicate WaitNeverFalls(from: nat, ticks: seq<Option<Stats>>)
    decreases |ticks|
  {
    if ticks == [] then true
    else if ticks[0].None? then WaitNeverFalls(from, ticks[1..])
    else from <= ticks[0].value.waitNanos && WaitNeverFalls(ticks[0].value.waitNanos, ticks[1..])
  }

  /** The total wait never falls short of the last reading, and equals it exactly when no reading falls. */
  lemma {:induction false} WaitTotalIsTrue(s: State, ticks: seq<Option<Stats>>)
    ensures var r := Run(s, ticks);
            && r.sent.waitNanos - s.sent.waitNanos >= r.last.waitNanos - s.last.waitNanos
            && (r.sent.waitNanos - s.sent.waitNanos == r.last.waitNanos - s.last.waitNanos
                <==> WaitNeverFalls(s.last.waitNanos, ticks))
    decreases |ticks|
  {
    if ticks != [] {
      WaitTotalIsTrue(Next(s, ticks[0]), ticks[1..]);
    }
  }
}
