/** Concurrent and failing deliveries of API usage events, statement by statement. */
module UsageRuns {
  import opened Wrappers
  import opened Text
  import opened UsageAggregation

  datatype Phase = Running | Finished | Refused | Failed

  /** One delivery of an event, after `done` of the four statements that count it. */
  datatype Call = Call(event: Event, done: nat, phase: Phase)

  datatype Entry = Entry(call: nat, event: Event)

  /** The tables, the deliveries, and the history of the additions to the daily and the monthly table. */
  datatype System = System(tables: Tables, calls: seq<Call>, dailyLog: seq<Entry>, monthlyLog: seq<Entry>)

  const INITIAL := System(EMPTY, [], [], [])

  /** Deliveries may repeat an event; a call may fail before any statement, also after the one before it took effect. */
  datatype Step = Delivered(raw: Event) | Advanced(call: nat) | Crashed(call: nat)

  function Advance(monthOf: int -> int, s: System, i: nat): System
    requires i < |s.calls| && s.calls[i].phase == Running
  {
    var c := s.calls[i];
    var e, t := c.event, s.tables;
    if c.done == 0 then
      if MayClaim(t, e) then s.(tables := Claim(t, e), calls := s.calls[i := c.(done := 1)])
      else s.(calls := s.calls[i := c.(phase := Refused)])
    else if c.done == 1 then s.(tables := RecordLedger(t, e), calls := s.calls[i := c.(done := 2)])
    else if c.done == 2 then
      s.(tables := AddDaily(t, e), calls := s.calls[i := c.(done := 3)], dailyLog := s.dailyLog + [Entry(i, e)])
    else
      s.(tables := AddMonthly(t, monthOf, e), calls := s.calls[i := c.(done := 4, phase := Finished)],
         monthlyLog := s.monthlyLog + [Entry(i, e)])
  }

  function Take(monthOf: int -> int, s: System, step: Step): System {
    match step
    case Delivered(raw) =>
      var e := NormalizeEvent(raw);
      if e.Err? then s else s.(calls := s.calls + [Call(e.value, 0, Running)])
    case Advanced(i) =>
      if i < |s.calls| && s.calls[i].phase == Running then Advance(monthOf, s, i) else s
    case Crashed(i) =>
      if i < |s.calls| && s.calls[i].phase == Running then s.(calls := s.calls[i := s.calls[i].(phase := Failed)]) else s
  }

  function Run(monthOf: int -> int, steps: seq<Step>): System
    decreases |steps|
  {
    if steps == [] then INITIAL else Take(monthOf, Run(monthOf, steps[..|steps| - 1]), steps[|steps| - 1])
  }

  // ---------- what the tables hold ----------

  function DayKey(e: Event): (int, Dimensions) {
    (e.day, DimensionsOf(e))
  }

  function MonthKey(monthOf: int -> int): Event -> (int, Dimensions) {
    e => (Month(monthOf, e), DimensionsOf(e))
  }

  function EntryTotals(e: Event, keyOf: Event -> (int, Dimensions), k: (int, Dimensions)): Totals {
    if keyOf(e) == k then TotalsOf(e) else ZERO
  }

  /** What the entries of a log add up to in one bucket. */
  function KeyTotals(log: seq<Entry>, keyOf: Event -> (int, Dimensions), k: (int, Dimensions)): Totals
    decreases |log|
  {
    if log == [] then ZERO
    else Plus(KeyTotals(log[..|log| - 1], keyOf, k), EntryTotals(log[|log| - 1].event, keyOf, k))
  }

  ghost predicate Represents(b: Buckets, log: seq<Entry>, keyOf: Event -> (int, Dimensions)) {
    && (forall k: (int, Dimensions) :: Bucket(b, k) == KeyTotals(log, keyOf, k))
    && (forall k | k in b :: b[k].requests > 0)
  }

  /** The log lists, once each, the calls that are past `n` statements. */
  ghost predicate Logged(calls: seq<Call>, log: seq<Entry>, n: nat) {
    && (forall a | 0 <= a < |log| :: log[a].call < |calls| && calls[log[a].call].event == log[a].event && calls[log[a].call].done >= n)
    && (forall a, b | 0 <= a < b < |log| :: log[a].call != log[b].call)
    && (forall i | 0 <= i < |calls| && calls[i].done >= n :: exists a :: 0 <= a < |log| && log[a].call == i)
  }

  /** Only one call gets past the claim of an id. */
  ghost predicate ClaimedOnce(t: Tables, calls: seq<Call>) {
    && (forall i | 0 <= i < |calls| && calls[i].done >= 1 && calls[i].event.id != "" :: calls[i].event.id in t.claimed)
    && (forall i, j | 0 <= i < j < |calls| && calls[i].done >= 1 && calls[j].done >= 1 && calls[i].event.id != "" ::
          calls[i].event.id != calls[j].event.id)
    && (forall id | id in t.claimed :: exists i :: 0 <= i < |calls| && calls[i].done >= 1 && calls[i].event.id == id)
    && "" !in t.claimed
  }

  ghost predicate InLedger(t: Tables, calls: seq<Call>) {
    && (forall i | 0 <= i < |calls| && calls[i].done >= 2 && calls[i].event.id != "" ::
          calls[i].event.id in t.ledger && t.ledger[calls[i].event.id] == LedgerRowOf(calls[i].event))
    && (forall id | id in t.ledger :: exists i :: 0 <= i < |calls| && calls[i].done >= 2 && calls[i].event.id == id)
    && "" !in t.ledger
  }

  ghost predicate Phases(t: Tables, calls: seq<Call>) {
    forall i | 0 <= i < |calls| ::
      && calls[i].done <= 4 && (calls[i].phase == Finished <==> calls[i].done == 4) && calls[i].event.requests >= 1
      && (calls[i].phase == Refused ==> calls[i].done == 0 && calls[i].event.id in t.claimed)
  }

  ghost predicate Sound(monthOf: int -> int, s: System) {
    && ClaimedOnce(s.tables, s.calls) && InLedger(s.tables, s.calls) && Phases(s.tables, s.calls)
    && Logged(s.calls, s.dailyLog, 3) && Logged(s.calls, s.monthlyLog, 4)
    && Represents(s.tables.daily, s.dailyLog, DayKey) && Represents(s.tables.monthly, s.monthlyLog, MonthKey(monthOf))
  }

  // ---------- every step keeps it ----------

  lemma {:induction false} PlusZero(t: Totals)
    ensures Plus(t, ZERO) == t
  {
  }

  lemma {:induction false} UpsertBucket(b: Buckets, bucket: int, e: Event, keyOf: Event -> (int, Dimensions), k: (int, Dimensions))
    requires keyOf(e) == (bucket, DimensionsOf(e))
    ensures Bucket(Upsert(b, bucket, e), k) == Plus(Bucket(b, k), EntryTotals(e, keyOf, k))
  {
    hide DimensionsOf, TotalsOf, Plus;
    PlusZero(Bucket(b, k));
  }

  lemma {:induction false} UpsertRepresents(b: Buckets, log: seq<Entry>, keyOf: Event -> (int, Dimensions), i: nat, e: Event, bucket: int)
    requires Represents(b, log, keyOf) && keyOf(e) == (bucket, DimensionsOf(e)) && e.requests >= 1
    ensures Represents(Upsert(b, bucket, e), log + [Entry(i, e)], keyOf)
  {
    hide DimensionsOf, Bucket, EntryTotals;
    var log' := log + [Entry(i, e)];
    assert log'[..|log|] == log && log'[|log|] == Entry(i, e);
    forall k: (int, Dimensions) ensures Bucket(Upsert(b, bucket, e), k) == KeyTotals(log', keyOf, k) {
      UpsertBucket(b, bucket, e, keyOf, k);
    }
    hide KeyTotals;
  }

  lemma {:induction false} LoggedAppend(calls: seq<Call>, log: seq<Entry>, n: nat, i: nat, calls': seq<Call>)
    requires Logged(calls, log, n) && i < |calls| && calls[i].done < n
    requires |calls'| == |calls| && calls'[i].event == calls[i].event && calls'[i].done == n
    requires forall j | 0 <= j < |calls| && j != i :: calls'[j] == calls[j]
    ensures Logged(calls', log + [Entry(i, calls[i].event)], n)
  {
    var log' := log + [Entry(i, calls[i].event)];
    forall j | 0 <= j < |calls'| && calls'[j].done >= n ensures exists a :: 0 <= a < |log'| && log'[a].call == j {
      if j == i {
        assert log'[|log|].call == j;
      } else {
        var a :| 0 <= a < |log| && log[a].call == j;
        assert log'[a].call == j;
      }
    }
  }

  /** A log is not concerned by a change of a call that does not cross its mark. */
  lemma {:induction false} LoggedStays(calls: seq<Call>, log: seq<Entry>, n: nat, calls': seq<Call>)
    requires Logged(calls, log, n) && |calls| <= |calls'|
    requires forall j | 0 <= j < |calls| :: calls'[j].event == calls[j].event && (calls'[j].done >= n <==> calls[j].done >= n)
    requires forall j | |calls| <= j < |calls'| :: calls'[j].done < n
    ensures Logged(calls', log, n)
  {
  }

  lemma {:induction false} RequestsAreCounted(raw: Event)
    ensures NormalizeEvent(raw).Ok? ==> NormalizeEvent(raw).value.requests >= 1
  {
    hide Normalize, TrimSpace;
  }

  lemma {:induction false} DeliveryKeeps(monthOf: int -> int, s: System, raw: Event)
    requires Sound(monthOf, s)
    ensures Sound(monthOf, Take(monthOf, s, Delivered(raw)))
  {
    hide NormalizeEvent, Represents, Logged, LedgerRowOf;
    var t := Take(monthOf, s, Delivered(raw));
    if NormalizeEvent(raw).Ok? {
      RequestsAreCounted(raw);
      LoggedStays(s.calls, s.dailyLog, 3, t.calls);
      LoggedStays(s.calls, s.monthlyLog, 4, t.calls);
      AppendedCall(s.tables, s.calls, t.calls[|s.calls|]);
    }
  }

  lemma {:induction false} AppendedCall(t: Tables, calls: seq<Call>, c: Call)
    requires ClaimedOnce(t, calls) && InLedger(t, calls) && c.done == 0
    ensures ClaimedOnce(t, calls + [c]) && InLedger(t, calls + [c])
  {
    hide LedgerRowOf;
    var calls' := calls + [c];
    forall id | id in t.claimed ensures exists i :: 0 <= i < |calls'| && calls'[i].done >= 1 && calls'[i].event.id == id {
      var i :| 0 <= i < |calls| && calls[i].done >= 1 && calls[i].event.id == id;
      assert calls'[i] == calls[i];
    }
    forall id | id in t.ledger ensures exists i :: 0 <= i < |calls'| && calls'[i].done >= 2 && calls'[i].event.id == id {
      var i :| 0 <= i < |calls| && calls[i].done >= 2 && calls[i].event.id == id;
      assert calls'[i] == calls[i];
    }
  }

  /** The claims are not concerned by a change of one call that does not get past its claim. */
  lemma {:induction false} SettledClaim(t: Tables, calls: seq<Call>, i: nat, c: Call)
    requires ClaimedOnce(t, calls) && i < |calls|
    requires c.event == calls[i].event && (c.done >= 1 <==> calls[i].done >= 1)
    ensures ClaimedOnce(t, calls[i := c])
  {
    var calls' := calls[i := c];
    forall id | id in t.claimed ensures exists j :: 0 <= j < |calls'| && calls'[j].done >= 1 && calls'[j].event.id == id {
      var j :| 0 <= j < |calls| && calls[j].done >= 1 && calls[j].event.id == id;
      assert calls'[j].event == calls[j].event;
    }
  }

  lemma {:induction false} SettledLedger(t: Tables, t': Tables, calls: seq<Call>, i: nat, c: Call)
    requires InLedger(t, calls) && i < |calls| && t'.ledger == t.ledger
    requires c.event == calls[i].event && (c.done >= 2 <==> calls[i].done >= 2)
    ensures InLedger(t', calls[i := c])
  {
    hide LedgerRowOf;
    var calls' := calls[i := c];
    forall id | id in t.ledger ensures exists j :: 0 <= j < |calls'| && calls'[j].done >= 2 && calls'[j].event.id == id {
      var j :| 0 <= j < |calls| && calls[j].done >= 2 && calls[j].event.id == id;
      assert calls'[j].event == calls[j].event;
    }
  }

  /** The claims and the ledger are not concerned by a change of one call that gets past neither. */
  lemma {:induction false} SettledCall(t: Tables, calls: seq<Call>, i: nat, c: Call)
    requires ClaimedOnce(t, calls) && InLedger(t, calls) && i < |calls|
    requires c.event == calls[i].event && (c.done >= 1 <==> calls[i].done >= 1) && (c.done >= 2 <==> calls[i].done >= 2)
    ensures ClaimedOnce(t, calls[i := c]) && InLedger(t, calls[i := c])
  {
    hide InLedger, ClaimedOnce;
    SettledClaim(t, calls, i, c);
    SettledLedger(t, t, calls, i, c);
  }

  lemma {:induction false} ClaimKeeps(t: Tables, calls: seq<Call>, i: nat)
    requires ClaimedOnce(t, calls) && InLedger(t, calls) && i < |calls| && calls[i].done == 0 && MayClaim(t, calls[i].event)
    ensures var calls', t' := calls[i := calls[i].(done := 1)], Claim(t, calls[i].event);
            ClaimedOnce(t', calls') && InLedger(t', calls')
  {
    hide InLedger;
    var calls', t' := calls[i := calls[i].(done := 1)], Claim(t, calls[i].event);
    SettledLedger(t, t', calls, i, calls'[i]);
    forall id | id in t'.claimed ensures exists j :: 0 <= j < |calls'| && calls'[j].done >= 1 && calls'[j].event.id == id {
      if id in t.claimed {
        var j :| 0 <= j < |calls| && calls[j].done >= 1 && calls[j].event.id == id;
        assert calls'[j] == calls[j];
      } else {
        assert calls'[i].event.id == id;
      }
    }
  }

  /** The claimant of an id that is still before its ledger statement finds no row of that id. */
  lemma {:induction false} LedgerIsFree(t: Tables, calls: seq<Call>, i: nat)
    requires ClaimedOnce(t, calls) && InLedger(t, calls) && i < |calls| && calls[i].done == 1
    ensures calls[i].event.id !in t.ledger
  {
    hide LedgerRowOf;
    var id := calls[i].event.id;
    forall j | 0 <= j < |calls| && calls[j].done >= 2 ensures id == "" || calls[j].event.id != id {
      assert j != i;
    }
  }

  lemma {:induction false} LedgerKeeps(t: Tables, calls: seq<Call>, i: nat)
    requires ClaimedOnce(t, calls) && InLedger(t, calls) && i < |calls| && calls[i].done == 1
    ensures var calls', t' := calls[i := calls[i].(done := 2)], RecordLedger(t, calls[i].event);
            ClaimedOnce(t', calls') && InLedger(t', calls')
  {
    hide LedgerRowOf, ClaimedOnce;
    var e := calls[i].event;
    var calls', t' := calls[i := calls[i].(done := 2)], RecordLedger(t, e);
    LedgerIsFree(t, calls, i);
    SettledClaim(t, calls, i, calls'[i]);
    SameClaimed(t, t', calls');
    forall id | id in t'.ledger ensures exists j :: 0 <= j < |calls'| && calls'[j].done >= 2 && calls'[j].event.id == id {
      if id in t.ledger {
        var j :| 0 <= j < |calls| && calls[j].done >= 2 && calls[j].event.id == id;
        assert calls'[j] == calls[j];
      } else {
        assert calls'[i].event.id == id;
      }
    }
    assert t'.ledger == if e.id == "" then t.ledger else t.ledger[e.id := LedgerRowOf(e)];
    forall j | 0 <= j < |calls'| && calls'[j].done >= 2 && calls'[j].event.id != ""
      ensures calls'[j].event.id in t'.ledger && t'.ledger[calls'[j].event.id] == LedgerRowOf(calls'[j].event)
    {
      if j != i {
        assert calls'[j] == calls[j];
      }
    }
  }

  lemma {:induction false} SameClaimed(t: Tables, t': Tables, calls: seq<Call>)
    requires t'.claimed == t.claimed && ClaimedOnce(t, calls)
    ensures ClaimedOnce(t', calls)
  {
  }

  lemma {:induction false} AdvanceKeeps(monthOf: int -> int, s: System, i: nat)
    requires Sound(monthOf, s) && i < |s.calls| && s.calls[i].phase == Running
    ensures Sound(monthOf, Advance(monthOf, s, i))
  {
    hide Represents, Logged, ClaimedOnce, InLedger, LedgerRowOf, Upsert, DimensionsOf;
    var t := Advance(monthOf, s, i);
    var c := s.calls[i];
    if c.done == 0 {
      LoggedStays(s.calls, s.dailyLog, 3, t.calls);
      LoggedStays(s.calls, s.monthlyLog, 4, t.calls);
      if MayClaim(s.tables, c.event) {
        ClaimKeeps(s.tables, s.calls, i);
      } else {
        SettledCall(s.tables, s.calls, i, t.calls[i]);
      }
    } else if c.done == 1 {
      LoggedStays(s.calls, s.dailyLog, 3, t.calls);
      LoggedStays(s.calls, s.monthlyLog, 4, t.calls);
      LedgerKeeps(s.tables, s.calls, i);
    } else if c.done == 2 {
      LoggedAppend(s.calls, s.dailyLog, 3, i, t.calls);
      LoggedStays(s.calls, s.monthlyLog, 4, t.calls);
      UpsertRepresents(s.tables.daily, s.dailyLog, DayKey, i, c.event, c.event.day);
      SettledCall(s.tables, s.calls, i, t.calls[i]);
      SameClaims(s.tables, t.tables, t.calls);
    } else {
      LoggedStays(s.calls, s.dailyLog, 3, t.calls);
      LoggedAppend(s.calls, s.monthlyLog, 4, i, t.calls);
      UpsertRepresents(s.tables.monthly, s.monthlyLog, MonthKey(monthOf), i, c.event, Month(monthOf, c.event));
      SettledCall(s.tables, s.calls, i, t.calls[i]);
      SameClaims(s.tables, t.tables, t.calls);
    }
  }

  lemma {:induction false} SameClaims(t: Tables, t': Tables, calls: seq<Call>)
    requires t'.claimed == t.claimed && t'.ledger == t.ledger && ClaimedOnce(t, calls) && InLedger(t, calls)
    ensures ClaimedOnce(t', calls) && InLedger(t', calls)
  {
  }

  lemma {:induction false} CrashKeeps(monthOf: int -> int, s: System, i: nat)
    requires Sound(monthOf, s)
    ensures Sound(monthOf, Take(monthOf, s, Crashed(i)))
  {
    hide Represents, Logged, ClaimedOnce, InLedger, LedgerRowOf;
    var t := Take(monthOf, s, Crashed(i));
    if i < |s.calls| && s.calls[i].phase == Running {
      LoggedStays(s.calls, s.dailyLog, 3, t.calls);
      LoggedStays(s.calls, s.monthlyLog, 4, t.calls);
      SettledCall(s.tables, s.calls, i, t.calls[i]);
    }
  }

  lemma {:induction false} RunsAreSound(monthOf: int -> int, steps: seq<Step>)
    ensures Sound(monthOf, Run(monthOf, steps))
    decreases |steps|
  {
    if steps == [] {
      InitialIsSound(monthOf);
    } else {
      hide Sound, Advance;
      var s, step := Run(monthOf, steps[..|steps| - 1]), steps[|steps| - 1];
      RunsAreSound(monthOf, steps[..|steps| - 1]);
      match step {
        case Delivered(raw) => DeliveryKeeps(monthOf, s, raw);
        case Crashed(i) => CrashKeeps(monthOf, s, i);
        case Advanced(i) =>
          if i < |s.calls| && s.calls[i].phase == Running {
            AdvanceKeeps(monthOf, s, i);
          }
      }
    }
  }

  lemma {:induction false} InitialIsSound(monthOf: int -> int)
    ensures Sound(monthOf, INITIAL)
  {
  }

  // ---------- a delivery on its own ----------

  function AdvancedTimes(monthOf: int -> int, s: System, i: nat, n: nat): System {
    if n == 0 then s else Take(monthOf, AdvancedTimes(monthOf, s, i, n - 1), Advanced(i))
  }

  /** A delivery nothing interferes with leaves the tables as the store's method does, statement by statement. */
  lemma {:induction false} AloneIsAddUsage(monthOf: int -> int, s: System, raw: Event, n: nat)
    requires NormalizeEvent(raw).Ok? && MayClaim(s.tables, NormalizeEvent(raw).value) && n <= 4
    ensures var e, i, t := NormalizeEvent(raw).value, |s.calls|, AdvancedTimes(monthOf, Take(monthOf, s, Delivered(raw)), |s.calls|, n);
            && t.tables == AfterStatements(s.tables, monthOf, e, n)
            && |t.calls| == i + 1 && t.calls[i] == Call(e, n, if n == 4 then Finished else Running)
  {
    hide NormalizeEvent, Claim, RecordLedger, AddDaily, AddMonthly, MayClaim;
    if n > 0 {
      AloneIsAddUsage(monthOf, s, raw, n - 1);
    }
  }
}
