/** What counting API usage events guarantees over whole runs. */
module UsageConservation {
  import opened UsageAggregation
  import opened UsageRuns

  /** No id twice in a log. */
  ghost predicate IdsOnce(log: seq<Entry>) {
    forall a, b | 0 <= a < b < |log| && log[a].event.id != "" :: log[a].event.id != log[b].event.id
  }

  /** Main result: whatever is delivered, repeated, interleaved and crashed, an addition to the monthly table
      followed one to the daily table for the same delivery, that followed a ledger row, and that a claim;
      no id is added twice; and the tables hold exactly what was added. */
  lemma {:induction false} AtMostOnce(monthOf: int -> int, steps: seq<Step>)
    ensures var s := Run(monthOf, steps);
            && IdsOnce(s.dailyLog) && IdsOnce(s.monthlyLog)
            && (forall a | 0 <= a < |s.monthlyLog| :: s.monthlyLog[a] in s.dailyLog)
            && (forall a | 0 <= a < |s.dailyLog| && s.dailyLog[a].event.id != "" :: s.dailyLog[a].event.id in s.tables.ledger)
            && s.tables.ledger.Keys <= s.tables.claimed
            && Represents(s.tables.daily, s.dailyLog, DayKey) && Represents(s.tables.monthly, s.monthlyLog, MonthKey(monthOf))
  {
    RunsAreSound(monthOf, steps);
    var s := Run(monthOf, steps);
    hide Represents, LedgerRowOf, Phases, Run;
    LogsClaimOnce(s.tables, s.calls, s.dailyLog, 3);
    LogsClaimOnce(s.tables, s.calls, s.monthlyLog, 4);
    forall a | 0 <= a < |s.monthlyLog| ensures s.monthlyLog[a] in s.dailyLog {
      Earlier(s.calls, s.monthlyLog, 4, s.dailyLog, 3, a);
    }
    forall id | id in s.tables.ledger ensures id in s.tables.claimed {
      var i :| 0 <= i < |s.calls| && s.calls[i].done >= 2 && s.calls[i].event.id == id;
    }
  }

  lemma {:induction false} LogsClaimOnce(t: Tables, calls: seq<Call>, log: seq<Entry>, n: nat)
    requires ClaimedOnce(t, calls) && Logged(calls, log, n) && n >= 1
    ensures IdsOnce(log)
  {
    forall a, b | 0 <= a < b < |log| && log[a].event.id != "" ensures log[a].event.id != log[b].event.id {
      var i, j := log[a].call, log[b].call;
      assert i < j || j < i;
    }
  }

  lemma {:induction false} Earlier(calls: seq<Call>, late: seq<Entry>, n: nat, early: seq<Entry>, m: nat, a: nat)
    requires Logged(calls, late, n) && Logged(calls, early, m) && m <= n && a < |late|
    ensures late[a] in early
  {
    var i := late[a].call;
    assert calls[i].done >= m;
    var b :| 0 <= b < |early| && early[b].call == i;
    assert early[b] == late[a];
  }

  // ---------- sums over logs ----------

  predicate AtMost(a: Totals, b: Totals) {
    a.requests <= b.requests && a.requestBytes <= b.requestBytes && a.responseBytes <= b.responseBytes
    && a.latencyTotal <= b.latencyTotal && a.latencyMax <= b.latencyMax
  }

  lemma {:induction false} AtMostPlus(a: Totals, b: Totals, c: Totals)
    ensures AtMost(a, b) ==> AtMost(Plus(a, c), Plus(b, c))
    ensures AtMost(ZERO, a) && (AtMost(a, b) && AtMost(b, a) ==> a == b)
    ensures Plus(Plus(a, b), c) == Plus(Plus(a, c), b)
  {
  }

  lemma {:induction false} TotalsRemove(log: seq<Entry>, p: nat, keyOf: Event -> (int, Dimensions), k: (int, Dimensions))
    requires p < |log|
    ensures KeyTotals(log, keyOf, k) == Plus(KeyTotals(log[..p] + log[p + 1..], keyOf, k), EntryTotals(log[p].event, keyOf, k))
    decreases |log|
  {
    hide Plus, EntryTotals;
    var last := |log| - 1;
    if p == last {
      assert log[..p] + log[p + 1..] == log[..last];
    } else {
      var rest := log[..p] + log[p + 1..];
      assert log[..last][..p] + log[..last][p + 1..] == rest[..|rest| - 1] && rest[|rest| - 1] == log[last];
      TotalsRemove(log[..last], p, keyOf, k);
      AtMostPlus(KeyTotals(rest[..|rest| - 1], keyOf, k), EntryTotals(log[p].event, keyOf, k), EntryTotals(log[last].event, keyOf, k));
    }
  }

  /** A log within another, repetitions counted, adds up to no more. */
  lemma {:induction false} TotalsMonotone(a: seq<Entry>, b: seq<Entry>, keyOf: Event -> (int, Dimensions), k: (int, Dimensions))
    requires multiset(a) <= multiset(b)
    ensures AtMost(KeyTotals(a, keyOf, k), KeyTotals(b, keyOf, k))
    decreases |a|
  {
    hide Plus, EntryTotals, AtMost;
    if a == [] {
      AtMostPlus(KeyTotals(b, keyOf, k), ZERO, ZERO);
    } else {
      var x, init := a[|a| - 1], a[..|a| - 1];
      assert a == init + [x];
      assert multiset(a) == multiset(init) + multiset{x};
      assert x in multiset(b);
      var p :| 0 <= p < |b| && b[p] == x;
      var rest := b[..p] + b[p + 1..];
      assert b == b[..p] + [x] + b[p + 1..];
      assert multiset(b) == multiset(rest) + multiset{x};
      forall y ensures multiset(init)[y] <= multiset(rest)[y] {
        assert multiset(a)[y] <= multiset(b)[y];
      }
      TotalsMonotone(init, rest, keyOf, k);
      TotalsRemove(b, p, keyOf, k);
      AtMostPlus(KeyTotals(init, keyOf, k), KeyTotals(rest, keyOf, k), EntryTotals(x.event, keyOf, k));
    }
  }

  lemma {:induction false} DistinctWithin(a: seq<Entry>, b: seq<Entry>)
    requires forall i, j | 0 <= i < j < |a| :: a[i] != a[j]
    requires forall i | 0 <= i < |a| :: a[i] in b
    ensures multiset(a) <= multiset(b)
  {
    if a != [] {
      var init, x := a[..|a| - 1], a[|a| - 1];
      assert a == init + [x];
      DistinctWithin(init, b);
      assert x !in init;
      assert multiset(init)[x] == 0;
      assert x in b;
    }
  }

  // ---------- a month is the sum of its days ----------

  /** The daily buckets of these days, added up. */
  function SumDays(daily: Buckets, days: seq<int>, d: Dimensions): Totals {
    if days == [] then ZERO else Plus(SumDays(daily, days[1..], d), Bucket(daily, (days[0], d)))
  }

  function SumLog(log: seq<Entry>, days: seq<int>, d: Dimensions): Totals {
    if days == [] then ZERO else Plus(SumLog(log, days[1..], d), KeyTotals(log, DayKey, (days[0], d)))
  }

  /** Events carry their own month, as decoding sets it, or none. */
  ghost predicate Dated(monthOf: int -> int, log: seq<Entry>) {
    forall a | 0 <= a < |log| :: Month(monthOf, log[a].event) == monthOf(log[a].event.day)
  }

  /** Different days of one month, all the days of that month in the log among them. */
  ghost predicate DaysOf(monthOf: int -> int, month: int, days: seq<int>, log: seq<Entry>) {
    && (forall i, j | 0 <= i < j < |days| :: days[i] != days[j])
    && (forall i | 0 <= i < |days| :: monthOf(days[i]) == month)
    && (forall a | 0 <= a < |log| && monthOf(log[a].event.day) == month :: log[a].event.day in days)
  }

  lemma {:induction false} SumLogAppend(log: seq<Entry>, x: Entry, days: seq<int>, d: Dimensions)
    requires forall i, j | 0 <= i < j < |days| :: days[i] != days[j]
    ensures SumLog(log + [x], days, d)
         == Plus(SumLog(log, days, d), if x.event.day in days && DimensionsOf(x.event) == d then TotalsOf(x.event) else ZERO)
  {
    hide Plus, TotalsOf, DimensionsOf;
    if days == [] {
      PlusZero(ZERO);
    } else {
      var rest := days[1..];
      SumLogAppend(log, x, rest, d);
      var log' := log + [x];
      assert log'[..|log|] == log && log'[|log|] == x;
      var k := (days[0], d);
      var before, here := SumLog(log, rest, d), KeyTotals(log, DayKey, k);
      PlusZero(before);
      PlusZero(here);
      PlusZero(Plus(before, here));
      assert KeyTotals(log', DayKey, k) == Plus(here, EntryTotals(x.event, DayKey, k));
      if x.event.day == days[0] {
        assert x.event.day !in rest;
        PlusAssociates(before, here, EntryTotals(x.event, DayKey, k));
      } else if x.event.day in days && DimensionsOf(x.event) == d {
        assert x.event.day in rest;
        AtMostPlus(before, TotalsOf(x.event), here);
      }
    }
  }

  lemma {:induction false} PlusAssociates(a: Totals, b: Totals, c: Totals)
    ensures Plus(a, Plus(b, c)) == Plus(Plus(a, b), c)
  {
  }

  lemma {:induction false} MonthIsSumOfDays(monthOf: int -> int, log: seq<Entry>, month: int, days: seq<int>, d: Dimensions)
    requires Dated(monthOf, log) && DaysOf(monthOf, month, days, log)
    ensures KeyTotals(log, MonthKey(monthOf), (month, d)) == SumLog(log, days, d)
    decreases |log|
  {
    hide Plus, TotalsOf, DimensionsOf;
    if log == [] {
      EmptySum(days, d);
    } else {
      var init, x := log[..|log| - 1], log[|log| - 1];
      MonthIsSumOfDays(monthOf, init, month, days, d);
      SumLogAppend(init, x, days, d);
      assert log == init + [x];
    }
  }

  lemma {:induction false} EmptySum(days: seq<int>, d: Dimensions)
    ensures SumLog([], days, d) == ZERO
  {
    hide Plus, DimensionsOf;
    PlusZero(ZERO);
    if days != [] {
      EmptySum(days[1..], d);
    }
  }

  lemma {:induction false} SumsAgree(daily: Buckets, log: seq<Entry>, days: seq<int>, d: Dimensions)
    requires Represents(daily, log, DayKey)
    ensures SumDays(daily, days, d) == SumLog(log, days, d)
  {
    hide Plus, Bucket;
    if days != [] {
      SumsAgree(daily, log, days[1..], d);
    }
  }

  /** The entries of one bucket. */
  function Only(log: seq<Entry>, keyOf: Event -> (int, Dimensions), k: (int, Dimensions)): seq<Entry>
    decreases |log|
  {
    if log == [] then []
    else Only(log[..|log| - 1], keyOf, k) + if keyOf(log[|log| - 1].event) == k then [log[|log| - 1]] else []
  }

  lemma {:induction false} OnlyAddsUp(log: seq<Entry>, keyOf: Event -> (int, Dimensions), k: (int, Dimensions))
    ensures KeyTotals(Only(log, keyOf, k), keyOf, k) == KeyTotals(log, keyOf, k)
    ensures forall x | x in Only(log, keyOf, k) :: x in log && keyOf(x.event) == k
    ensures (forall i, j | 0 <= i < j < |log| :: log[i] != log[j]) ==>
              forall i, j | 0 <= i < j < |Only(log, keyOf, k)| :: Only(log, keyOf, k)[i] != Only(log, keyOf, k)[j]
    decreases |log|
  {
    hide Plus, TotalsOf;
    if log != [] {
      var init, x := log[..|log| - 1], log[|log| - 1];
      var o := Only(init, keyOf, k);
      OnlyAddsUp(init, keyOf, k);
      PlusZero(KeyTotals(init, keyOf, k));
      assert (o + [x])[..|o|] == o && o + [] == o;
    }
  }

  /** A delivery of this bucket stopped or stands between its daily and its monthly addition. */
  predicate Between(monthOf: int -> int, calls: seq<Call>, i: nat, k: (int, Dimensions)) {
    i < |calls| && calls[i].done == 3 && MonthKey(monthOf)(calls[i].event) == k
  }

  lemma {:induction false} NoneBetween(monthOf: int -> int, t: Tables, calls: seq<Call>, early: seq<Entry>, late: seq<Entry>, k: (int, Dimensions))
    requires Logged(calls, early, 3) && Logged(calls, late, 4) && Phases(t, calls)
    requires forall i: nat :: !Between(monthOf, calls, i, k)
    ensures AtMost(KeyTotals(early, MonthKey(monthOf), k), KeyTotals(late, MonthKey(monthOf), k))
  {
    hide KeyTotals, AtMost, Only, DimensionsOf;
    var keyOf := MonthKey(monthOf);
    OnlyAddsUp(early, keyOf, k);
    forall x | x in Only(early, keyOf, k) ensures x in late {
      var a :| 0 <= a < |early| && early[a] == x;
      assert !Between(monthOf, calls, x.call, k);
      assert calls[x.call].done >= 4;
      var b :| 0 <= b < |late| && late[b].call == x.call;
      assert late[b] == x;
    }
    DistinctWithin(Only(early, keyOf, k), late);
    TotalsMonotone(Only(early, keyOf, k), late, keyOf, k);
  }

  lemma {:induction false} SomeBetween(monthOf: int -> int, t: Tables, calls: seq<Call>, early: seq<Entry>, late: seq<Entry>, k: (int, Dimensions), i: nat)
    requires Logged(calls, early, 3) && Logged(calls, late, 4) && Phases(t, calls) && Between(monthOf, calls, i, k)
    requires forall a | 0 <= a < |late| :: late[a] in early
    ensures KeyTotals(early, MonthKey(monthOf), k) != KeyTotals(late, MonthKey(monthOf), k)
  {
    var a :| 0 <= a < |early| && early[a].call == i;
    forall b | 0 <= b < |late| ensures late[b].call != i {
      assert calls[late[b].call].done >= 4;
    }
    hide KeyTotals, DimensionsOf;
    OneMore(late, early[a], early, MonthKey(monthOf), k);
  }

  lemma {:induction false} OneMore(log: seq<Entry>, x: Entry, whole: seq<Entry>, keyOf: Event -> (int, Dimensions), k: (int, Dimensions))
    requires (forall i, j | 0 <= i < j < |log| :: log[i].call != log[j].call) && (forall i | 0 <= i < |log| :: log[i] in whole && log[i].call != x.call)
    requires x in whole && keyOf(x.event) == k && x.event.requests >= 1
    ensures KeyTotals(log, keyOf, k) != KeyTotals(whole, keyOf, k)
  {
    var more := log + [x];
    assert more[..|log|] == log && more[|log|] == x;
    assert KeyTotals(more, keyOf, k) == Plus(KeyTotals(log, keyOf, k), TotalsOf(x.event));
    hide KeyTotals;
    DistinctWithin(more, whole);
    TotalsMonotone(more, whole, keyOf, k);
  }

  /** Main result, conservation between tables: in every reachable state a monthly bucket is at most the sum of
      its days (the maximum, for the latency maximum), and equal to it if and only if no delivery of that bucket
      stopped or stands between its daily and its monthly addition. */
  lemma {:induction false} MonthlyIsSumOfDaily(monthOf: int -> int, steps: seq<Step>, month: int, days: seq<int>, d: Dimensions)
    requires Dated(monthOf, Run(monthOf, steps).dailyLog) && DaysOf(monthOf, month, days, Run(monthOf, steps).dailyLog)
    ensures var s := Run(monthOf, steps);
            && AtMost(Bucket(s.tables.monthly, (month, d)), SumDays(s.tables.daily, days, d))
            && (Bucket(s.tables.monthly, (month, d)) == SumDays(s.tables.daily, days, d)
                <==> forall i: nat :: !Between(monthOf, s.calls, i, (month, d)))
  {
    var s := Run(monthOf, steps);
    AtMostOnce(monthOf, steps);
    RunsAreSound(monthOf, steps);
    hide Run, Plus, AtMost, Bucket, DimensionsOf, ClaimedOnce, InLedger, KeyTotals, SumDays, SumLog, DaysOf, Between, MonthKey;
    var k := (month, d);
    MonthIsSumOfDays(monthOf, s.dailyLog, month, days, d);
    SumsAgree(s.tables.daily, s.dailyLog, days, d);
    DistinctWithin(s.monthlyLog, s.dailyLog);
    TotalsMonotone(s.monthlyLog, s.dailyLog, MonthKey(monthOf), k);
    if i: nat :| Between(monthOf, s.calls, i, k) {
      SomeBetween(monthOf, s.tables, s.calls, s.dailyLog, s.monthlyLog, k, i);
    } else {
      NoneBetween(monthOf, s.tables, s.calls, s.dailyLog, s.monthlyLog, k);
      AtMostPlus(KeyTotals(s.dailyLog, MonthKey(monthOf), k), KeyTotals(s.monthlyLog, MonthKey(monthOf), k), ZERO);
    }
  }

  // ---------- exactly once ----------

  /** Every delivery was counted, or refused because its id was claimed. */
  ghost predicate Quiet(s: System) {
    forall i | 0 <= i < |s.calls| :: s.calls[i].phase == Finished || s.calls[i].phase == Refused
  }

  ghost predicate DeliveredIn(s: System, e: Event) {
    exists i :: 0 <= i < |s.calls| && s.calls[i].event == e
  }

  /** The id tells the event. */
  ghost predicate SameId(s: System, s': System) {
    forall e: Event, e': Event :: DeliveredIn(s, e) && DeliveredIn(s', e') && e.id == e'.id ==> e == e'
  }

  ghost predicate WithIds(s: System) {
    forall i | 0 <= i < |s.calls| :: s.calls[i].event.id != ""
  }

  /** The id has a claim, a ledger row, and one entry in each log. */
  ghost predicate CountedOnce(s: System, id: string) {
    && id in s.tables.claimed && id in s.tables.ledger
    && (exists a :: 0 <= a < |s.dailyLog| && s.dailyLog[a].event.id == id)
    && (exists a :: 0 <= a < |s.monthlyLog| && s.monthlyLog[a].event.id == id)
    && IdsOnce(s.dailyLog) && IdsOnce(s.monthlyLog)
  }

  /** Main result, exactly once: when nothing failed, every delivered id has one entry in each log, a claim and
      a ledger row. */
  lemma {:induction false} ExactlyOnce(monthOf: int -> int, steps: seq<Step>, i: nat)
    ensures var s := Run(monthOf, steps); Quiet(s) && i < |s.calls| && s.calls[i].event.id != "" ==> CountedOnce(s, s.calls[i].event.id)
  {
    hide Run, Quiet, IdsOnce, Sound;
    RunsAreSound(monthOf, steps);
    AtMostOnce(monthOf, steps);
    var s := Run(monthOf, steps);
    if Quiet(s) && i < |s.calls| && s.calls[i].event.id != "" {
      CountedWhenQuiet(monthOf, s, i);
    }
  }

  lemma {:induction false} CountedWhenQuiet(monthOf: int -> int, s: System, i: nat)
    requires Sound(monthOf, s) && IdsOnce(s.dailyLog) && IdsOnce(s.monthlyLog) && Quiet(s) && i < |s.calls| && s.calls[i].event.id != ""
    ensures CountedOnce(s, s.calls[i].event.id)
  {
    hide Represents, LedgerRowOf, IdsOnce, Logged, ClaimedOnce;
    var id := s.calls[i].event.id;
    var j := Claimant(s.tables, s.calls, id, i);
    assert s.calls[j].done == 4;
    var a := LoggedCall(s.calls, s.dailyLog, 3, j);
    var b := LoggedCall(s.calls, s.monthlyLog, 4, j);
  }

  lemma {:induction false} Claimant(t: Tables, calls: seq<Call>, id: string, i: nat) returns (j: nat)
    requires ClaimedOnce(t, calls) && i < |calls| && calls[i].event.id == id != "" && (calls[i].done >= 1 || id in t.claimed)
    ensures id in t.claimed && j < |calls| && calls[j].done >= 1 && calls[j].event.id == id
  {
    j :| 0 <= j < |calls| && calls[j].done >= 1 && calls[j].event.id == id;
  }

  lemma {:induction false} LoggedCall(calls: seq<Call>, log: seq<Entry>, n: nat, j: nat) returns (a: nat)
    requires Logged(calls, log, n) && j < |calls| && calls[j].done >= n
    ensures a < |log| && log[a].event == calls[j].event
  {
    a :| 0 <= a < |log| && log[a].call == j;
  }

  /** A log without the numbers of its deliveries. */
  function Unnumbered(log: seq<Entry>): (u: seq<Entry>)
    ensures |u| == |log| && forall a | 0 <= a < |log| :: u[a] == Entry(0, log[a].event)
  {
    if log == [] then [] else Unnumbered(log[..|log| - 1]) + [Entry(0, log[|log| - 1].event)]
  }

  lemma {:induction false} UnnumberedTotals(log: seq<Entry>, keyOf: Event -> (int, Dimensions), k: (int, Dimensions))
    ensures KeyTotals(Unnumbered(log), keyOf, k) == KeyTotals(log, keyOf, k)
    decreases |log|
  {
    hide Plus, EntryTotals;
    if log != [] {
      var init := log[..|log| - 1];
      UnnumberedTotals(init, keyOf, k);
      assert Unnumbered(log)[..|log| - 1] == Unnumbered(init);
    }
  }

  predicate HasEvent(log: seq<Entry>, e: Event) {
    exists b :: 0 <= b < |log| && log[b].event == e
  }

  /** Every event of the first log is in the second. */
  ghost predicate Covered(log: seq<Entry>, log': seq<Entry>) {
    forall a | 0 <= a < |log| :: HasEvent(log', log[a].event)
  }

  ghost predicate AllIds(log: seq<Entry>) {
    forall a | 0 <= a < |log| :: log[a].event.id != ""
  }

  lemma {:induction false} SameEventsSameTotals(log: seq<Entry>, log': seq<Entry>, keyOf: Event -> (int, Dimensions), k: (int, Dimensions))
    requires IdsOnce(log) && IdsOnce(log') && AllIds(log) && AllIds(log') && Covered(log, log') && Covered(log', log)
    ensures KeyTotals(log, keyOf, k) == KeyTotals(log', keyOf, k)
  {
    hide KeyTotals, Plus;
    CoveredWithin(log, log');
    CoveredWithin(log', log);
    TotalsMonotone(Unnumbered(log), Unnumbered(log'), keyOf, k);
    TotalsMonotone(Unnumbered(log'), Unnumbered(log), keyOf, k);
    UnnumberedTotals(log, keyOf, k);
    UnnumberedTotals(log', keyOf, k);
    AtMostPlus(KeyTotals(log, keyOf, k), KeyTotals(log', keyOf, k), ZERO);
  }

  lemma {:induction false} CoveredWithin(log: seq<Entry>, log': seq<Entry>)
    requires IdsOnce(log) && AllIds(log) && Covered(log, log')
    ensures multiset(Unnumbered(log)) <= multiset(Unnumbered(log'))
  {
    var u, u' := Unnumbered(log), Unnumbered(log');
    forall i, j | 0 <= i < j < |u| ensures u[i] != u[j] {
      assert log[i].event.id != log[j].event.id;
    }
    forall i | 0 <= i < |u| ensures u[i] in u' {
      var b :| 0 <= b < |log'| && log'[b].event == log[i].event;
      assert u'[b] == u[i];
    }
    DistinctWithin(u, u');
  }

  lemma {:induction false} SameBuckets(b: Buckets, b': Buckets, log: seq<Entry>, log': seq<Entry>, keyOf: Event -> (int, Dimensions))
    requires Represents(b, log, keyOf) && Represents(b', log', keyOf)
    requires forall k: (int, Dimensions) :: KeyTotals(log, keyOf, k) == KeyTotals(log', keyOf, k)
    ensures b == b'
  {
    hide KeyTotals;
    forall k: (int, Dimensions) ensures (k in b <==> k in b') && (k in b ==> b[k] == b'[k]) {
      assert Bucket(b, k) == Bucket(b', k);
    }
    assert b.Keys == b'.Keys;
  }

  /** In a quiet run every delivered event was counted by some call. */
  lemma {:induction false} CountingCall(t: Tables, s: System, e: Event) returns (j: nat)
    requires t == s.tables && ClaimedOnce(t, s.calls) && Phases(t, s.calls) && Quiet(s) && SameId(s, s) && DeliveredIn(s, e) && e.id != ""
    ensures j < |s.calls| && s.calls[j].event == e && s.calls[j].done == 4 && e.id in t.claimed
  {
    var i :| 0 <= i < |s.calls| && s.calls[i].event == e;
    assert e.id in t.claimed;
    j :| 0 <= j < |s.calls| && s.calls[j].done >= 1 && s.calls[j].event.id == e.id;
    assert DeliveredIn(s, s.calls[j].event);
  }

  /** The events counted in a quiet run are the events delivered in it. */
  lemma {:induction false} CountedEvents(monthOf: int -> int, s: System, s': System, n: nat, log: seq<Entry>, log': seq<Entry>)
    requires Sound(monthOf, s) && Sound(monthOf, s') && Quiet(s') && WithIds(s) && SameId(s', s')
    requires forall e: Event :: DeliveredIn(s, e) ==> DeliveredIn(s', e)
    requires 3 <= n <= 4 && Logged(s.calls, log, n) && Logged(s'.calls, log', n)
    ensures Covered(log, log') && AllIds(log)
  {
    hide Represents, InLedger, ClaimedOnce, Phases, Quiet, SameId;
    forall a | 0 <= a < |log| ensures log[a].event.id != "" && HasEvent(log', log[a].event) {
      var e := log[a].event;
      assert s.calls[log[a].call].event == e;
      assert DeliveredIn(s, e);
      var j := CountingCall(s'.tables, s', e);
      var b :| 0 <= b < |log'| && log'[b].call == j;
      assert log'[b].event == e;
    }
  }

  /** Claims of a quiet run follow from the events delivered. */
  lemma {:induction false} SameClaimsQuiet(s: System, s': System)
    requires ClaimedOnce(s.tables, s.calls) && ClaimedOnce(s'.tables, s'.calls) && Phases(s'.tables, s'.calls)
    requires Quiet(s') && WithIds(s) && SameId(s', s')
    requires forall e: Event :: DeliveredIn(s, e) ==> DeliveredIn(s', e)
    ensures s.tables.claimed <= s'.tables.claimed
  {
    hide Phases, Quiet, SameId;
    forall id | id in s.tables.claimed ensures id in s'.tables.claimed {
      var i :| 0 <= i < |s.calls| && s.calls[i].done >= 1 && s.calls[i].event.id == id;
      assert DeliveredIn(s, s.calls[i].event);
      var j := CountingCall(s'.tables, s', s.calls[i].event);
    }
  }

  /** So does the ledger. */
  lemma {:induction false} SameLedgerQuiet(s: System, s': System)
    requires InLedger(s.tables, s.calls) && InLedger(s'.tables, s'.calls) && ClaimedOnce(s'.tables, s'.calls) && Phases(s'.tables, s'.calls)
    requires Quiet(s') && WithIds(s) && SameId(s', s')
    requires forall e: Event :: DeliveredIn(s, e) ==> DeliveredIn(s', e)
    ensures forall id | id in s.tables.ledger :: id in s'.tables.ledger && s.tables.ledger[id] == s'.tables.ledger[id]
  {
    hide LedgerRowOf, Phases, Quiet, SameId, ClaimedOnce;
    forall id | id in s.tables.ledger ensures id in s'.tables.ledger && s.tables.ledger[id] == s'.tables.ledger[id] {
      var i :| 0 <= i < |s.calls| && s.calls[i].done >= 2 && s.calls[i].event.id == id;
      assert DeliveredIn(s, s.calls[i].event);
      var j := CountingCall(s'.tables, s', s.calls[i].event);
      assert s'.calls[j].event.id == id;
    }
  }

  /** Runs without failures that delivered the same events, each with an id of its own. */
  ghost predicate SameDeliveries(s: System, s': System) {
    && Quiet(s) && Quiet(s') && WithIds(s) && WithIds(s')
    && SameId(s, s') && SameId(s', s) && SameId(s, s) && SameId(s', s')
    && forall e: Event :: DeliveredIn(s, e) <==> DeliveredIn(s', e)
  }

  /** Main result, order and repetition do not matter: two runs without failures that deliver the same events, in
      any order, any number of times and interleaved in any way, end with the same tables. */
  lemma {:induction false} DeliveryOrderDoesNotMatter(monthOf: int -> int, steps: seq<Step>, steps': seq<Step>)
    ensures SameDeliveries(Run(monthOf, steps), Run(monthOf, steps')) ==> Run(monthOf, steps).tables == Run(monthOf, steps').tables
  {
    hide Run, Sound, IdsOnce, SameDeliveries;
    RunsAreSound(monthOf, steps);
    RunsAreSound(monthOf, steps');
    AtMostOnce(monthOf, steps);
    AtMostOnce(monthOf, steps');
    if SameDeliveries(Run(monthOf, steps), Run(monthOf, steps')) {
      SameTables(monthOf, Run(monthOf, steps), Run(monthOf, steps'));
    }
  }

  ghost predicate SoundOnce(monthOf: int -> int, s: System) {
    Sound(monthOf, s) && IdsOnce(s.dailyLog) && IdsOnce(s.monthlyLog)
  }

  lemma {:induction false} SameTables(monthOf: int -> int, s: System, s': System)
    requires SoundOnce(monthOf, s) && SoundOnce(monthOf, s') && SameDeliveries(s, s')
    ensures s.tables == s'.tables
  {
    hide Represents, ClaimedOnce, InLedger, Logged, Phases, KeyTotals, IdsOnce, Covered, Quiet, WithIds, SameId, DeliveredIn;
    SameClaimsQuiet(s, s');
    SameClaimsQuiet(s', s);
    SameLedgerQuiet(s, s');
    SameLedgerQuiet(s', s);
    CountedEvents(monthOf, s, s', 3, s.dailyLog, s'.dailyLog);
    CountedEvents(monthOf, s', s, 3, s'.dailyLog, s.dailyLog);
    CountedEvents(monthOf, s, s', 4, s.monthlyLog, s'.monthlyLog);
    CountedEvents(monthOf, s', s, 4, s'.monthlyLog, s.monthlyLog);
    forall k: (int, Dimensions) ensures KeyTotals(s.dailyLog, DayKey, k) == KeyTotals(s'.dailyLog, DayKey, k) {
      SameEventsSameTotals(s.dailyLog, s'.dailyLog, DayKey, k);
    }
    var keyOf := MonthKey(monthOf);
    forall k: (int, Dimensions) ensures KeyTotals(s.monthlyLog, keyOf, k) == KeyTotals(s'.monthlyLog, keyOf, k) {
      SameEventsSameTotals(s.monthlyLog, s'.monthlyLog, keyOf, k);
    }
    SameBuckets(s.tables.daily, s'.tables.daily, s.dailyLog, s'.dailyLog, DayKey);
    SameBuckets(s.tables.monthly, s'.tables.monthly, s.monthlyLog, s'.monthlyLog, keyOf);
    assert s.tables.ledger.Keys == s'.tables.ledger.Keys;
  }

  // ---------- a failure loses the event ----------

  lemma {:induction false} StepLeavesStopped(monthOf: int -> int, s: System, step: Step, i: nat)
    requires i < |s.calls| && s.calls[i].phase != Running
    ensures i < |Take(monthOf, s, step).calls| && Take(monthOf, s, step).calls[i] == s.calls[i]
  {
    hide NormalizeEvent, Claim, RecordLedger, AddDaily, AddMonthly, MayClaim;
  }

  predicate Stopped(s: System, i: nat) {
    i < |s.calls| && s.calls[i].phase != Running
  }

  lemma {:induction false} StoppedStays(monthOf: int -> int, steps: seq<Step>, more: seq<Step>, i: nat)
    ensures var s, t := Run(monthOf, steps), Run(monthOf, steps + more); Stopped(s, i) ==> i < |t.calls| && t.calls[i] == s.calls[i]
    decreases |more|
  {
    hide Take;
    if more == [] {
      assert steps + more == steps;
    } else if Stopped(Run(monthOf, steps), i) {
      var init, all := more[..|more| - 1], steps + more;
      assert all[..|all| - 1] == steps + init;
      StoppedStays(monthOf, steps, init, i);
      StepLeavesStopped(monthOf, Run(monthOf, steps + init), all[|all| - 1], i);
    }
  }

  /** The call claimed its id, and failed. */
  predicate FailedClaim(s: System, i: nat) {
    i < |s.calls| && s.calls[i].phase == Failed && s.calls[i].done >= 1 && s.calls[i].event.id != ""
  }

  /** The id of the call is counted in the daily table only if that call did so, and never in the monthly one. */
  ghost predicate LostFor(s: System, c: Call) {
    && ((exists a :: 0 <= a < |s.dailyLog| && s.dailyLog[a].event.id == c.event.id) <==> c.done == 3)
    && (forall a | 0 <= a < |s.monthlyLog| :: s.monthlyLog[a].event.id != c.event.id)
  }

  /** Main result: once the call that claimed an id failed, the id is counted in the daily table, ever after and
      whatever is redelivered, if and only if that call had got past its daily addition. */
  lemma {:induction false} FailedClaimLosesEvent(monthOf: int -> int, steps: seq<Step>, more: seq<Step>, i: nat)
    ensures var s := Run(monthOf, steps); FailedClaim(s, i) ==> LostFor(Run(monthOf, steps + more), s.calls[i])
  {
    hide Run, Sound, LostFor;
    StoppedStays(monthOf, steps, more, i);
    RunsAreSound(monthOf, steps + more);
    if FailedClaim(Run(monthOf, steps), i) {
      FailedIsLost(monthOf, Run(monthOf, steps + more), i);
    }
  }

  lemma {:induction false} FailedIsLost(monthOf: int -> int, s: System, i: nat)
    requires Sound(monthOf, s) && FailedClaim(s, i)
    ensures LostFor(s, s.calls[i])
  {
    hide Represents, LedgerRowOf, InLedger;
    var c := s.calls[i];
    assert c.done <= 3;
    forall a | 0 <= a < |s.dailyLog| && s.dailyLog[a].event.id == c.event.id ensures s.dailyLog[a].call == i {
      var j := s.dailyLog[a].call;
      assert !(i < j) && !(j < i);
    }
    forall a | 0 <= a < |s.monthlyLog| ensures s.monthlyLog[a].event.id != c.event.id {
      var j := s.monthlyLog[a].call;
      assert i != j;
      assert i < j || j < i;
    }
    if c.done == 3 {
      var a :| 0 <= a < |s.dailyLog| && s.dailyLog[a].call == i;
      assert s.dailyLog[a].event == c.event;
    }
  }

  /** A delivery that fails right after its claim, and is repeated: the repetition is refused, nothing is counted. */
  lemma {:induction false} RedeliveryIsRefused(monthOf: int -> int, raw: Event)
    ensures var s := Run(monthOf, [Delivered(raw), Advanced(0), Crashed(0), Delivered(raw), Advanced(1)]);
            NormalizeEvent(raw).Ok? && NormalizeEvent(raw).value.id != "" ==>
              && s.calls == [Call(NormalizeEvent(raw).value, 1, Failed), Call(NormalizeEvent(raw).value, 0, Refused)]
              && s.tables.daily == map[] && s.tables.monthly == map[] && s.tables.ledger == map[]
  {
    hide NormalizeEvent, RecordLedger, AddDaily, AddMonthly;
    if NormalizeEvent(raw).Err? { return; }
    var e := NormalizeEvent(raw).value;
    var (a, b, c, d) := (Delivered(raw), Advanced(0), Crashed(0), Advanced(1));
    assert [a, b, c, a, d][..4] == [a, b, c, a] && [a, b, c, a][..3] == [a, b, c] && [a, b, c][..2] == [a, b] && [a, b][..1] == [a] && [a][..0] == [];
    assert Run(monthOf, [a]).calls == [Call(e, 0, Running)] by { assert Run(monthOf, []) == INITIAL; }
    assert Run(monthOf, [a, b]).calls == [Call(e, 1, Running)];
    assert Run(monthOf, [a, b, c]).calls == [Call(e, 1, Failed)];
  }
}
