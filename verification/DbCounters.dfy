/**
 * The database pool collector: on every tick it may move to a new resolver, and for each pool role it
 * adds the rise of four cumulative counters since the last reading to ever-growing totals.
 */
module DbCounters {
  import opened Types

  type Address = n: nat | n > 0 witness 1

  /** A resolver is a pointer, or another value, which has no identity of its own. */
  datatype Db = Pointer(address: Address) | Plain(name: string)

  function Identity(db: Db): nat {
    if db.Pointer? then db.address else 0
  }

  datatype Role = Primary | Replica

  datatype Counter = WaitCount | WaitDuration | MaxIdleClosed | MaxLifetimeClosed

  datatype Stats = Stats(waitCount: nat, waitNanos: nat, idleClosed: nat, lifetimeClosed: nat)

  const ZERO := Stats(0, 0, 0, 0)

  function Of(s: Stats, c: Counter): nat {
    match c
    case WaitCount => s.waitCount
    case WaitDuration => s.waitNanos
    case MaxIdleClosed => s.idleClosed
    case MaxLifetimeClosed => s.lifetimeClosed
  }

  function Add(a: Stats, b: Stats): Stats {
    Stats(a.waitCount + b.waitCount, a.waitNanos + b.waitNanos,
          a.idleClosed + b.idleClosed, a.lifetimeClosed + b.lifetimeClosed)
  }

  function Risen(a: Stats, b: Stats): Stats {
    Stats(Rise(a.waitCount, b.waitCount), Rise(a.waitNanos, b.waitNanos),
          Rise(a.idleClosed, b.idleClosed), Rise(a.lifetimeClosed, b.lifetimeClosed))
  }

  /** Each total grew by what its own counter rose. */
  predicate Grew(now: Stats, was: Stats, before: Stats, stats: Stats) {
    && now.waitCount - was.waitCount == Rise(stats.waitCount, before.waitCount)
    && now.waitNanos - was.waitNanos == Rise(stats.waitNanos, before.waitNanos)
    && now.idleClosed - was.idleClosed == Rise(stats.idleClosed, before.idleClosed)
    && now.lifetimeClosed - was.lifetimeClosed == Rise(stats.lifetimeClosed, before.lifetimeClosed)
  }

  lemma {:induction false} GrewByRise(now: Stats, was: Stats, before: Stats, stats: Stats)
    ensures now == Add(was, Risen(stats, before)) <==> Grew(now, was, before, stats)
  {
  }

  datatype PerRole = PerRole(primary: Stats, replica: Stats)

  function For(p: PerRole, role: Role): Stats {
    if role.Primary? then p.primary else p.replica
  }

  function With(p: PerRole, role: Role, s: Stats): PerRole {
    if role.Primary? then p.(primary := s) else p.(replica := s)
  }

  /** `last` holds the previous readings and `sent` what the instruments have been given so far. */
  datatype State = State(db: Option<Db>, lastId: nat, last: PerRole, sent: PerRole)

  /** What the getter answers, if anything, and what the pools of the resolver then in use report. */
  datatype Tick = Tick(getter: Option<Db>, primary: Stats, replicas: seq<Option<Stats>>)

  /** The sum over the replicas that are there. */
  function Aggregate(dbs: seq<Option<Stats>>): Stats {
    if dbs == [] then ZERO
    else
      var rest := Aggregate(dbs[..|dbs| - 1]);
      if dbs[|dbs| - 1].Some? then Add(rest, dbs[|dbs| - 1].value) else rest
  }

  /** The four counters are all there is to a report. */
  lemma {:induction false} CountersTellAll(a: Stats, b: Stats)
    ensures a == b <==> forall c :: Of(a, c) == Of(b, c)
  {
    assert Of(a, WaitCount) == a.waitCount && Of(a, WaitDuration) == a.waitNanos;
    assert Of(a, MaxIdleClosed) == a.idleClosed && Of(a, MaxLifetimeClosed) == a.lifetimeClosed;
    assert Of(b, WaitCount) == b.waitCount && Of(b, WaitDuration) == b.waitNanos;
    assert Of(b, MaxIdleClosed) == b.idleClosed && Of(b, MaxLifetimeClosed) == b.lifetimeClosed;
  }

  /** Counter by counter, the aggregate is the sum of what the replicas that are there report. */
  lemma {:induction false} AggregateIsSum(dbs: seq<Option<Stats>>, c: Counter, report: Option<Stats> -> nat)
    requires forall db: Option<Stats> :: report(db) == if db.Some? then Of(db.value, c) else 0
    ensures Of(Aggregate(dbs), c) == Sum(report, dbs)
  {
    if dbs != [] {
      AggregateIsSum(dbs[..|dbs| - 1], c, report);
    }
  }

  predicate Swapped(lastId: nat, db: Db) {
    lastId != 0 && lastId != Identity(db)
  }

  function Refreshed(s: State, getter: Option<Db>): State {
    match getter
    case None => s
    case Some(db) =>
      State(Some(db), Identity(db), if Swapped(s.lastId, db) then PerRole(ZERO, ZERO) else s.last, s.sent)
  }

  function Recorded(s: State, role: Role, stats: Stats): State {
    s.(last := With(s.last, role, stats),
       sent := With(s.sent, role, Add(For(s.sent, role), Risen(stats, For(s.last, role)))))
  }

  function Next(s: State, t: Tick): State {
    var r := Refreshed(s, t.getter);
    if r.db.None? then r
    else Recorded(Recorded(r, Primary, t.primary), Replica, Aggregate(t.replicas))
  }

  method AggregateStats(dbs: seq<Option<Stats>>) returns (sum: Stats)
    ensures sum == Aggregate(dbs)
  {
    sum := ZERO;
    for i := 0 to |dbs|
      invariant sum == Aggregate(dbs[..i])
    {
      assert dbs[..i + 1][..i] == dbs[..i];
      if dbs[i].None? {
        continue;
      }
      sum := Add(sum, dbs[i].value);
    }
    assert dbs[..|dbs|] == dbs;
  }

  function Started(db: Db): State {
    State(Some(db), 0, PerRole(ZERO, ZERO), PerRole(ZERO, ZERO))
  }

  class Collector {
    var db: Option<Db>
    var lastId: nat
    var last: PerRole
    var sent: PerRole

    function View(): State
      reads this
    {
      State(db, lastId, last, sent)
    }

    constructor (db: Db)
      ensures View() == Started(db)
    {
      this.db := Some(db);
      lastId := 0;
      last, sent := PerRole(ZERO, ZERO), PerRole(ZERO, ZERO);
    }

    method Collect(t: Tick)
      modifies this
      ensures View() == Next(old(View()), t)
    {
      if t.getter.Some? {
        var currentId := Identity(t.getter.value);
        if lastId != 0 && lastId != currentId {
          last := PerRole(ZERO, ZERO);
        }
        lastId := currentId;
        db := t.getter;
      }
      if db.None? {
        return;
      }
      RecordRoleStats(Primary, t.primary);
      var replicas := AggregateStats(t.replicas);
      RecordRoleStats(Replica, replicas);
    }

    method RecordRoleStats(role: Role, stats: Stats)
      modifies `last, `sent
      ensures View() == Recorded(old(View()), role, stats)
      ensures For(last, role) == stats
      ensures Grew(For(sent, role), For(old(sent), role), For(old(last), role), stats)
    {
      var before, total := For(last, role), For(sent, role);
      if stats.waitCount - before.waitCount > 0 {
        total := total.(waitCount := total.waitCount + (stats.waitCount - before.waitCount));
      }
      if stats.waitNanos - before.waitNanos > 0 {
        total := total.(waitNanos := total.waitNanos + (stats.waitNanos - before.waitNanos));
      }
      if stats.idleClosed - before.idleClosed > 0 {
        total := total.(idleClosed := total.idleClosed + (stats.idleClosed - before.idleClosed));
      }
      if stats.lifetimeClosed - before.lifetimeClosed > 0 {
        total := total.(lifetimeClosed := total.lifetimeClosed + (stats.lifetimeClosed - before.lifetimeClosed));
      }
      GrewByRise(total, For(sent, role), before, stats);
      last, sent := With(last, role, stats), With(sent, role, total);
    }
  }

  function Run(s: State, ticks: seq<Tick>): State
    decreases |ticks|
  {
    if ticks == [] then s else Run(Next(s, ticks[0]), ticks[1..])
  }

  /** One tick as one counter of one role sees it. */
  datatype Sample = Sample(getter: Option<Db>, value: nat)

  function Seen(t: Tick, role: Role, c: Counter): Sample {
    Sample(t.getter, Of(if role.Primary? then t.primary else Aggregate(t.replicas), c))
  }

  function Samples(ticks: seq<Tick>, role: Role, c: Counter): (r: seq<Sample>)
    ensures |r| == |ticks| && forall i :: 0 <= i < |ticks| ==> r[i] == Seen(ticks[i], role, c)
    decreases |ticks|
  {
    if ticks == [] then [] else [Seen(ticks[0], role, c)] + Samples(ticks[1..], role, c)
  }

  function InUse(db: Db, getter: Option<Db>): Db {
    if getter.Some? then getter.value else db
  }

  function IdAfter(id: nat, getter: Option<Db>): nat {
    if getter.Some? then Identity(getter.value) else id
  }

  /** The sum, over the stretches of ticks that read the same resolver, of the last value read in each. */
  function EpochTotal(db: Db, v: nat, samples: seq<Sample>): nat
    decreases |samples|
  {
    if samples == [] then v
    else
      var d := InUse(db, samples[0].getter);
      (if d == db then 0 else v) + EpochTotal(d, samples[0].value, samples[1..])
  }

  /** Within a stretch the readings never fall. */
  predicate Monotone(db: Db, v: nat, samples: seq<Sample>)
    decreases |samples|
  {
    samples != [] ==>
      var d := InUse(db, samples[0].getter);
      (d == db ==> v <= samples[0].value) && Monotone(d, samples[0].value, samples[1..])
  }

  /** What is lost at the changes of resolver that pass unnoticed, because the old identity is unknown. */
  function Missed(db: Db, id: nat, v: nat, samples: seq<Sample>): nat
    decreases |samples|
  {
    if samples == [] then 0
    else
      var d := InUse(db, samples[0].getter);
      (if d != db && id == 0 then (if v < samples[0].value then v else samples[0].value) else 0)
      + Missed(d, IdAfter(id, samples[0].getter), samples[0].value, samples[1..])
  }

  /** At every change of resolver the old identity is known, or one of the two readings is zero. */
  predicate Harmless(db: Db, id: nat, v: nat, samples: seq<Sample>)
    decreases |samples|
  {
    samples != [] ==>
      var d := InUse(db, samples[0].getter);
      (d != db && id == 0 ==> v == 0 || samples[0].value == 0)
      && Harmless(d, IdAfter(id, samples[0].getter), samples[0].value, samples[1..])
  }

  lemma {:induction false} MissedNothing(db: Db, id: nat, v: nat, samples: seq<Sample>)
    ensures Missed(db, id, v, samples) == 0 <==> Harmless(db, id, v, samples)
    decreases |samples|
  {
    if samples != [] {
      MissedNothing(InUse(db, samples[0].getter), IdAfter(id, samples[0].getter), samples[0].value, samples[1..]);
    }
  }

  /** One tick, as one counter of one role sees it: the other role plays no part. */
  lemma {:induction false} NextSeen(s: State, t: Tick, role: Role, c: Counter)
    requires s.db.Some?
    ensures var n := Next(s, t);
            && n.db == Some(InUse(s.db.value, t.getter)) && n.lastId == IdAfter(s.lastId, t.getter)
            && Of(For(n.last, role), c) == Seen(t, role, c).value
            && Of(For(n.sent, role), c) == Of(For(s.sent, role), c)
               + Rise(Seen(t, role, c).value,
                      if t.getter.Some? && Swapped(s.lastId, t.getter.value) then 0 else Of(For(s.last, role), c))
  {
  }

  /** After any run, the total and what passed unnoticed add up to the last values of the stretches. */
  lemma {:induction false} SentPlusMissed(s: State, ticks: seq<Tick>, role: Role, c: Counter)
    requires s.db.Some? && (s.lastId == 0 || s.lastId == Identity(s.db.value))
    requires Monotone(s.db.value, Of(For(s.last, role), c), Samples(ticks, role, c))
    ensures Of(For(Run(s, ticks).sent, role), c)
            + Missed(s.db.value, s.lastId, Of(For(s.last, role), c), Samples(ticks, role, c))
            == Of(For(s.sent, role), c) - Of(For(s.last, role), c)
               + EpochTotal(s.db.value, Of(For(s.last, role), c), Samples(ticks, role, c))
    decreases |ticks|
  {
    if ticks != [] {
      var samples := Samples(ticks, role, c);
      assert samples[0] == Seen(ticks[0], role, c);
      assert samples[1..] == Samples(ticks[1..], role, c);
      NextSeen(s, ticks[0], role, c);
      SentPlusMissed(Next(s, ticks[0]), ticks[1..], role, c);
    }
  }

  /**
   * For each role and counter the total over any run of a new collector is the sum of the last values of
   * the stretches exactly when every change of resolver is noticed or harmless; otherwise it falls short.
   */
  lemma {:induction false} TotalsAreEpochTotals(db: Db, ticks: seq<Tick>, role: Role, c: Counter)
    requires Monotone(db, 0, Samples(ticks, role, c))
    ensures Of(For(Run(Started(db), ticks).sent, role), c) <= EpochTotal(db, 0, Samples(ticks, role, c))
    ensures Of(For(Run(Started(db), ticks).sent, role), c) == EpochTotal(db, 0, Samples(ticks, role, c))
            <==> Harmless(db, 0, 0, Samples(ticks, role, c))
  {
    SentPlusMissed(Started(db), ticks, role, c);
    MissedNothing(db, 0, 0, Samples(ticks, role, c));
  }

  predicate Pointers(samples: seq<Sample>) {
    forall i :: 0 <= i < |samples| && samples[i].getter.Some? ==> samples[i].getter.value.Pointer?
  }

  /** With a known identity from the first reading on, every change is noticed. */
  lemma {:induction false} KnownIdentityIsHarmless(db: Db, id: nat, v: nat, samples: seq<Sample>)
    requires Pointers(samples) && (id == 0 ==> v == 0 && samples != [] && samples[0].getter.Some?)
    ensures Harmless(db, id, v, samples)
    decreases |samples|
  {
    if samples != [] {
      var d := InUse(db, samples[0].getter);
      KnownIdentityIsHarmless(d, IdAfter(id, samples[0].getter), samples[0].value, samples[1..]);
    }
  }

  /** So the totals are exact when the getter answers from the first tick on, with pointers. */
  lemma {:induction false} GetterFromTheStartIsExact(db: Db, ticks: seq<Tick>, role: Role, c: Counter)
    requires ticks != [] && ticks[0].getter.Some?
    requires forall i :: 0 <= i < |ticks| && ticks[i].getter.Some? ==> ticks[i].getter.value.Pointer?
    requires Monotone(db, 0, Samples(ticks, role, c))
    ensures Of(For(Run(Started(db), ticks).sent, role), c) == EpochTotal(db, 0, Samples(ticks, role, c))
  {
    TotalsAreEpochTotals(db, ticks, role, c);
    KnownIdentityIsHarmless(db, 0, 0, Samples(ticks, role, c));
  }

  /** A resolver replaced after a first reading but before the getter first answers: the smaller reading is lost. */
  lemma {:induction false} UnnoticedChangeFallsShort(db: Db, t: Tick, u: Tick, role: Role, c: Counter)
    requires t.getter.None? && u.getter.Some? && u.getter.value != db
    ensures var v, w := Seen(t, role, c).value, Seen(u, role, c).value;
            && EpochTotal(db, 0, Samples([t, u], role, c)) == v + w
            && Of(For(Run(Started(db), [t, u]).sent, role), c) == (if v < w then w else v)
  {
    var s := Next(Started(db), t);
    NextSeen(Started(db), t, role, c);
    NextSeen(s, u, role, c);
    assert [t, u][1..] == [u];
    assert Run(s, [u]) == Next(s, u);
    var samples := Samples([t, u], role, c);
    assert samples[1..] == [Seen(u, role, c)];
    assert EpochTotal(db, Seen(t, role, c).value, samples[1..]) == Seen(t, role, c).value + Seen(u, role, c).value;
  }

  /** Two runs that agree on what one counter of one role sees give it the same total. */
  lemma {:induction false} RolesAreIndependent(
    s: State, t: State, ticks: seq<Tick>, others: seq<Tick>, role: Role, c: Counter)
    requires s.db.Some? && s.db == t.db && s.lastId == t.lastId
    requires Of(For(s.last, role), c) == Of(For(t.last, role), c)
       && Of(For(s.sent, role), c) == Of(For(t.sent, role), c)
    requires |ticks| == |others| && forall i :: 0 <= i < |ticks| ==> Seen(ticks[i], role, c) == Seen(others[i], role, c)
    ensures Of(For(Run(s, ticks).sent, role), c) == Of(For(Run(t, others).sent, role), c)
    decreases |ticks|
  {
    if ticks != [] {
      assert Seen(ticks[0], role, c) == Seen(others[0], role, c);
      NextSeen(s, ticks[0], role, c);
      NextSeen(t, others[0], role, c);
      RolesAreIndependent(Next(s, ticks[0]), Next(t, others[0]), ticks[1..], others[1..], role, c);
    }
  }
}
