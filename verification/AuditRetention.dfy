/** Audit retention: the batched purge of one company's expired rows, and the sweep over all policies. */
module AuditRetention {
  import opened Wrappers
  import opened Text

  const DEFAULT_BATCH: nat := 10000
  const DAY: int := 86400

  datatype Row = Row(id: int, company: string, created: int)

  datatype Error = CompanyRequired | CutoffRequired | PurgeFailed | RecordFailed

  /** A batch may fail before it deletes anything, or lose the count of what it deleted. */
  datatype Failure = NoFailure | Refused | Uncounted

  predicate Expired(r: Row, company: string, cutoff: int) {
    r.company == company && r.created < cutoff
  }

  function CountExpired(rows: seq<Row>, company: string, cutoff: int): (n: nat)
    ensures n <= |rows|
  {
    if rows == [] then 0 else (if Expired(rows[0], company, cutoff) then 1 else 0) + CountExpired(rows[1..], company, cutoff)
  }

  /** One batch: the first `n` expired rows go. Rows are in the order of creation time and id. */
  function DeleteFirst(rows: seq<Row>, company: string, cutoff: int, n: nat): seq<Row> {
    if rows == [] || n == 0 then rows
    else if Expired(rows[0], company, cutoff) then DeleteFirst(rows[1..], company, cutoff, n - 1)
    else [rows[0]] + DeleteFirst(rows[1..], company, cutoff, n)
  }

  /** The one-shot delete. */
  function Unexpired(rows: seq<Row>, company: string, cutoff: int): seq<Row> {
    if rows == [] then []
    else (if Expired(rows[0], company, cutoff) then [] else [rows[0]]) + Unexpired(rows[1..], company, cutoff)
  }

  lemma {:induction false} UnexpiredAppend(rows: seq<Row>, r: Row, company: string, cutoff: int)
    ensures Unexpired(rows + [r], company, cutoff) == Unexpired(rows, company, cutoff) + if Expired(r, company, cutoff) then [] else [r]
  {
    hide Expired;
    if rows != [] {
      UnexpiredAppend(rows[1..], r, company, cutoff);
      assert (rows + [r])[1..] == rows[1..] + [r];
    }
  }

  function Least(a: nat, b: nat): nat {
    if a < b then a else b
  }

  lemma {:induction false} DeleteCounts(rows: seq<Row>, company: string, cutoff: int, n: nat)
    ensures var rows', m := DeleteFirst(rows, company, cutoff, n), Least(n, CountExpired(rows, company, cutoff));
            CountExpired(rows', company, cutoff) == CountExpired(rows, company, cutoff) - m && |rows'| == |rows| - m
  {
    hide Expired;
    if rows != [] && n > 0 {
      if Expired(rows[0], company, cutoff) {
        DeleteCounts(rows[1..], company, cutoff, n - 1);
      } else {
        DeleteCounts(rows[1..], company, cutoff, n);
      }
    }
  }

  lemma {:induction false} DeleteInBatches(rows: seq<Row>, company: string, cutoff: int, a: nat, b: nat)
    ensures DeleteFirst(DeleteFirst(rows, company, cutoff, a), company, cutoff, b) == DeleteFirst(rows, company, cutoff, a + b)
  {
    hide Expired;
    if rows != [] && a > 0 {
      if Expired(rows[0], company, cutoff) {
        DeleteInBatches(rows[1..], company, cutoff, a - 1, b);
      } else {
        DeleteInBatches(rows[1..], company, cutoff, a, b);
        assert ([rows[0]] + DeleteFirst(rows[1..], company, cutoff, a))[1..] == DeleteFirst(rows[1..], company, cutoff, a);
      }
    }
  }

  lemma {:induction false} DeleteAll(rows: seq<Row>, company: string, cutoff: int, n: nat)
    requires n >= CountExpired(rows, company, cutoff)
    ensures DeleteFirst(rows, company, cutoff, n) == Unexpired(rows, company, cutoff)
  {
    hide Expired;
    if rows != [] {
      if Expired(rows[0], company, cutoff) {
        DeleteAll(rows[1..], company, cutoff, n - 1);
      } else {
        DeleteAll(rows[1..], company, cutoff, n);
        if n == 0 {
          DeleteNone(rows[1..], company, cutoff);
          assert rows == [rows[0]] + rows[1..];
        }
      }
    }
  }

  /** Deleting no fewer rows than are expired is deleting them all. */
  lemma {:induction false} DeleteEnough(rows: seq<Row>, company: string, cutoff: int, n: nat)
    ensures n >= CountExpired(rows, company, cutoff) ==> DeleteFirst(rows, company, cutoff, n) == Unexpired(rows, company, cutoff)
    ensures DeleteFirst(rows, company, cutoff, n) == DeleteFirst(rows, company, cutoff, Least(n, CountExpired(rows, company, cutoff)))
  {
    hide DeleteFirst, CountExpired, Unexpired;
    if n >= CountExpired(rows, company, cutoff) {
      DeleteAll(rows, company, cutoff, n);
      DeleteAll(rows, company, cutoff, CountExpired(rows, company, cutoff));
    }
  }

  // ---------- the sweep's results ----------

  datatype Policy = Policy(company: string, days: int)

  datatype RunRecord = RunRecord(company: string, days: int, cutoff: int, dryRun: bool, completed: bool, rowsDeleted: nat)

  datatype SweepResult = SweepResult(scanned: nat, rowsDeleted: nat, runs: seq<RunRecord>)

  function Cutoff(started: nat -> int, policies: seq<Policy>, i: nat): int
    requires i < |policies|
  {
    started(i) - policies[i].days * DAY
  }

  /** The table after the first `n` policies were enforced in full. */
  function Swept(rows: seq<Row>, policies: seq<Policy>, started: nat -> int, n: nat): seq<Row>
    requires n <= |policies|
  {
    if n == 0 then rows
    else
      var before, p := Swept(rows, policies, started, n - 1), policies[n - 1];
      if p.days <= 0 then before else Unexpired(before, TrimSpace(p.company), Cutoff(started, policies, n - 1))
  }

  /** What the first `n` policies expire, each counted in the table as it is. */
  function Due(rows: seq<Row>, policies: seq<Policy>, started: nat -> int, n: nat): nat
    requires n <= |policies|
  {
    if n == 0 then 0
    else
      var p := policies[n - 1];
      Due(rows, policies, started, n - 1)
      + if p.days <= 0 then 0 else CountExpired(rows, TrimSpace(p.company), Cutoff(started, policies, n - 1))
  }

  function SumRuns(runs: seq<RunRecord>): nat
    decreases |runs|
  {
    if runs == [] then 0 else SumRuns(runs[..|runs| - 1]) + runs[|runs| - 1].rowsDeleted
  }

  function Size(batchSize: int): (n: nat)
    ensures n > 0
  {
    if batchSize <= 0 then DEFAULT_BATCH else batchSize
  }

  /** A purge runs a batch for every full batch of rows due, and a last one; it fails when one of these does. */
  ghost predicate PurgeFails(count: nat, size: nat, failing: nat -> Failure) {
    exists k: nat :: k * size <= count && failing(k) != NoFailure
  }

  ghost predicate EnforceFails(rows: seq<Row>, company: string, cutoff: int, dryRun: bool, size: nat, failing: nat -> Failure) {
    company == "" || if dryRun then failing(0) != NoFailure else PurgeFails(CountExpired(rows, company, cutoff), size, failing)
  }

  function FailuresOf(failing: (nat, nat) -> Failure, i: nat): nat -> Failure {
    (k: nat) => failing(i, k)
  }

  /** The sweep ends with an error at this policy, if it gets there. */
  ghost predicate StepFails(rows: seq<Row>, policies: seq<Policy>, started: nat -> int, dryRun: bool, size: nat,
                            failing: (nat, nat) -> Failure, recordFails: nat -> bool, i: nat)
    requires i < |policies|
  {
    policies[i].days > 0
    && (recordFails(i)
        || EnforceFails(if dryRun then rows else Swept(rows, policies, started, i), TrimSpace(policies[i].company),
                        Cutoff(started, policies, i), dryRun, size, FailuresOf(failing, i)))
  }

  class Repository {
    var rows: seq<Row>
    var runs: seq<RunRecord>

    constructor (rows: seq<Row>)
      ensures this.rows == rows && runs == []
    {
      this.rows, runs := rows, [];
    }

    /** Batch after batch until one is not full. `deleted` counts what is gone, which `total` misses when the
        count of the last batch is lost; `batch` is the number of the last batch. */
    method PurgeExpired(companyID: string, cutoff: Option<int>, batchSize: int, failing: nat -> Failure)
      returns (total: nat, error: Option<Error>, ghost deleted: nat, ghost batch: nat)
      modifies this`rows
      ensures TrimSpace(companyID) == "" ==> error == Some(CompanyRequired)
      ensures TrimSpace(companyID) != "" && cutoff.None? ==> error == Some(CutoffRequired)
      ensures TrimSpace(companyID) == "" || cutoff.None? ==> rows == old(rows) && total == deleted == 0
      ensures TrimSpace(companyID) != "" && cutoff.Some? ==>
                var company, count, size := TrimSpace(companyID), CountExpired(old(rows), TrimSpace(companyID), cutoff.value), Size(batchSize);
                && (error.Some? <==> PurgeFails(count, size, failing))
                && rows == DeleteFirst(old(rows), company, cutoff.value, deleted)
                && (deleted == 0 <==> count == 0 || failing(0) == Refused)
                && if error.None? then rows == Unexpired(old(rows), company, cutoff.value) && total == deleted == count
                   else
                     && error == Some(PurgeFailed) && failing(batch) != NoFailure && (forall k: nat | k < batch :: failing(k) == NoFailure)
                     && total == batch * size <= count
                     && deleted == if failing(batch) == Refused then total else total + Least(size, count - total)
      ensures |rows| == |old(rows)| - deleted
    {
      hide TrimSpace, DeleteFirst, CountExpired, Unexpired, Size;
      total, error, deleted, batch := 0, None, 0, 0;
      var company := TrimSpace(companyID);
      if company == "" { return 0, Some(CompanyRequired), 0, 0; }
      if cutoff.None? { return 0, Some(CutoffRequired), 0, 0; }
      var size := Size(batchSize);
      ghost var count := CountExpired(rows, company, cutoff.value);
      DeleteNone(rows, company, cutoff.value);
      var k: nat := 0;
      while true
        invariant rows == DeleteFirst(old(rows), company, cutoff.value, deleted)
        invariant total == deleted == k * size <= count
        invariant forall j: nat | j < k :: failing(j) == NoFailure
        invariant k > 0 ==> total > 0
        invariant CountExpired(rows, company, cutoff.value) == count - deleted
        invariant |rows| == |old(rows)| - deleted
        decreases CountExpired(rows, company, cutoff.value)
      {
        if failing(k) == Refused { return total, Some(PurgeFailed), deleted, k; }
        var n := Least(size, CountExpired(rows, company, cutoff.value));
        DeleteCounts(rows, company, cutoff.value, size);
        DeleteEnough(rows, company, cutoff.value, size);
        DeleteInBatches(old(rows), company, cutoff.value, deleted, n);
        rows := DeleteFirst(rows, company, cutoff.value, size);
        deleted := deleted + n;
        if failing(k) == Uncounted { return total, Some(PurgeFailed), deleted, k; }
        total := total + n;
        if n < size {
          DeleteEnough(old(rows), company, cutoff.value, deleted);
          NoBatchFails(count, size, failing, k);
          break;
        }
        assert (k + 1) * size == k * size + size;
        k := k + 1;
      }
    }

    /** The purge of one policy, or, for a dry run, the count of what it would delete. */
    method Enforce(policy: Policy, cutoff: int, dryRun: bool, batchSize: int, failing: nat -> Failure)
      returns (deleted: nat, error: Option<Error>, ghost gone: nat)
      modifies this`rows
      ensures |rows| == |old(rows)| - gone
      ensures error.Some? <==> EnforceFails(old(rows), TrimSpace(policy.company), cutoff, dryRun, Size(batchSize), failing)
      ensures error.Some? ==> error.value == if TrimSpace(policy.company) == "" then CompanyRequired else PurgeFailed
      ensures dryRun ==> rows == old(rows) && gone == 0 && (error.None? ==> deleted == CountExpired(rows, TrimSpace(policy.company), cutoff))
      ensures !dryRun ==>
                && deleted <= gone && rows == DeleteFirst(old(rows), TrimSpace(policy.company), cutoff, gone)
                && (gone == 0 <==> NothingToLose(old(rows), TrimSpace(policy.company), cutoff, failing))
      ensures !dryRun && error.None? ==> deleted == gone && rows == Unexpired(old(rows), TrimSpace(policy.company), cutoff)
      ensures OthersUntouched(old(rows), rows, TrimSpace(policy.company))
    {
      hide TrimSpace, Unexpired, DeleteFirst, CountExpired, Size, PurgeFails;
      deleted, error, gone := 0, None, 0;
      if dryRun {
        if TrimSpace(policy.company) == "" {
          error := Some(CompanyRequired);
        } else if failing(0) != NoFailure {
          error := Some(PurgeFailed);
        } else {
          deleted := CountExpired(rows, TrimSpace(policy.company), cutoff);
        }
      } else {
        ghost var batch;
        deleted, error, gone, batch := PurgeExpired(policy.company, Some(cutoff), batchSize, failing);
        DeleteNone(old(rows), TrimSpace(policy.company), cutoff);
        OthersStay(old(rows), TrimSpace(policy.company), cutoff, gone);
      }
    }

    method RecordRun(record: RunRecord, fails: bool) returns (ok: bool)
      modifies this`runs
      ensures ok == (!fails && TrimSpace(record.company) != "" && record.days > 0)
      ensures runs == if ok then old(runs) + [record.(company := TrimSpace(record.company))] else old(runs)
    {
      ok := !fails && TrimSpace(record.company) != "" && record.days > 0;
      if ok {
        runs := runs + [record.(company := TrimSpace(record.company))];
      }
    }

    /** One sweep. `gone` counts the rows deleted. A sweep that fails does so at policy `at`, and its result misses
        the `last` rows deleted there. */
    method PurgeOnce(policies: seq<Policy>, started: nat -> int, dryRun: bool, batchSize: int,
                     failing: (nat, nat) -> Failure, recordFails: nat -> bool)
      returns (result: SweepResult, error: Option<Error>, ghost gone: nat, ghost last: nat, ghost at: nat)
      modifies this
      ensures result.scanned == |policies| && SumRuns(result.runs) == result.rowsDeleted
      ensures |rows| == |old(rows)| - gone
      ensures at <= |policies| && (error.None? <==> at == |policies|)
      ensures forall i: nat | i < at :: !StepFails(old(rows), policies, started, dryRun, Size(batchSize), failing, recordFails, i)
      ensures error.Some? ==>
                && StepFails(old(rows), policies, started, dryRun, Size(batchSize), failing, recordFails, at)
                && error.value == if recordFails(at) || TrimSpace(policies[at].company) == "" then RecordFailed else PurgeFailed
      ensures dryRun ==> rows == old(rows) && gone == last == 0 && result.rowsDeleted == Due(old(rows), policies, started, at)
      ensures !dryRun ==>
                && result.rowsDeleted == |old(rows)| - |Swept(old(rows), policies, started, at)| && result.rowsDeleted + last == gone
                && rows == (if error.None? then Swept(old(rows), policies, started, at)
                            else DeleteFirst(Swept(old(rows), policies, started, at), TrimSpace(policies[at].company), Cutoff(started, policies, at), last))
                && (result.rowsDeleted == gone <==>
                      error.None? || NothingToLose(Swept(old(rows), policies, started, at), TrimSpace(policies[at].company),
                                                   Cutoff(started, policies, at), FailuresOf(failing, at)))
      ensures forall company: string :: !HasPolicy(policies, company) ==> OfCompany(rows, company) == OfCompany(old(rows), company)
    {
      hide TrimSpace, Unexpired, CountExpired, OfCompany, Swept, Due, SumRuns, HasPolicy, EnforceFails, DeleteFirst, NothingToLose, Size, FailuresOf;
      NothingDone(old(rows), policies, started);
      result, error, gone, last, at := SweepResult(|policies|, 0, []), None, 0, 0, |policies|;
      for i := 0 to |policies|
        invariant result.scanned == |policies| && SumRuns(result.runs) == result.rowsDeleted
        invariant error.None? && |rows| == |old(rows)| - gone && last == 0 && at == |policies|
        invariant forall j: nat | j < i :: !StepFails(old(rows), policies, started, dryRun, Size(batchSize), failing, recordFails, j)
        invariant dryRun ==> rows == old(rows) && gone == 0 && result.rowsDeleted == Due(old(rows), policies, started, i)
        invariant !dryRun ==> rows == Swept(old(rows), policies, started, i) && result.rowsDeleted == gone
        invariant forall company: string :: !HasPolicy(policies, company) ==> OfCompany(rows, company) == OfCompany(old(rows), company)
      {
        NextPolicy(old(rows), policies, started, i);
        if policies[i].days <= 0 {
          continue;
        }
        var policy := policies[i];
        var cutoff := started(i) - policy.days * DAY;
        ghost var before := rows;
        ghost var lost: nat;
        var deleted, purgeError;
        deleted, purgeError, lost := Enforce(policy, cutoff, dryRun, batchSize, FailuresOf(failing, i));
        gone := gone + lost;
        NamesCompany(policies, i);
        StillUntouched(policies, old(rows), before, rows, TrimSpace(policy.company));
        var record := RunRecord(policy.company, policy.days, cutoff, dryRun, purgeError.None?, if purgeError.Some? then 0 else deleted);
        var ok := RecordRun(record, recordFails(i));
        if !ok {
          BlankFails(before, policy.company, cutoff, dryRun, Size(batchSize), FailuresOf(failing, i));
          return result, Some(RecordFailed), gone, lost, i;
        }
        SumRunsAppend(result.runs, runs[|runs| - 1]);
        result := result.(runs := result.runs + [runs[|runs| - 1]]);
        if purgeError.Some? { return result, purgeError, gone, lost, i; }
        result := result.(rowsDeleted := result.rowsDeleted + deleted);
      }
    }
  }

  /** A failing step deletes nothing: it names no company, nothing is due, or its first batch is refused. */
  predicate NothingToLose(rows: seq<Row>, company: string, cutoff: int, failing: nat -> Failure) {
    company == "" || CountExpired(rows, company, cutoff) == 0 || failing(0) == Refused
  }

  lemma {:induction false} BlankFails(rows: seq<Row>, company: string, cutoff: int, dryRun: bool, size: nat, failing: nat -> Failure)
    ensures TrimSpace(company) == "" ==> EnforceFails(rows, TrimSpace(company), cutoff, dryRun, size, failing)
  {
    hide TrimSpace;
  }

  lemma {:induction false} NoBatchFails(count: nat, size: nat, failing: nat -> Failure, batch: nat)
    requires count < batch * size + size && forall k: nat | k <= batch :: failing(k) == NoFailure
    ensures !PurgeFails(count, size, failing)
  {
    forall k: nat | k > batch ensures k * size >= batch * size + size {
      MoreBatches(size, batch, k);
    }
  }

  lemma {:induction false} MoreBatches(size: nat, batch: nat, k: nat)
    requires k > batch
    ensures k * size >= batch * size + size
  {
    if k > batch + 1 {
      MoreBatches(size, batch, k - 1);
    }
    assert k * size == (k - 1) * size + size;
  }

  /** Two rows are due, in batches of one. The second batch is refused: a row is gone, and the sweep reports none. */
  method FailingSweep() returns (result: SweepResult, error: Option<Error>, repository: Repository)
    ensures fresh(repository) && |repository.rows| < 2 && error == Some(PurgeFailed) && result.rowsDeleted == 0
  {
    var due, policies := [Row(0, "c", 0), Row(1, "c", 0)], [Policy("c", 1)];
    var started, failing, recordFails := (i: nat) => 2 * DAY, (i: nat, k: nat) => if k == 0 then NoFailure else Refused, (i: nat) => false;
    repository := new Repository(due);
    ghost var gone, last, at;
    assert TrimSpace("c") == "c" by { VisibleEnds("c"); TrimmedIsFixed("c"); }
    hide TrimSpace, DeleteFirst;
    assert due[1..] == [Row(1, "c", 0)];
    assert CountExpired(due, "c", DAY) == 2 by { assert CountExpired(due[1..], "c", DAY) == 1; }
    assert 1 * 1 <= 2 && FailuresOf(failing, 0)(1) != NoFailure;
    assert PurgeFails(2, 1, FailuresOf(failing, 0));
    assert Swept(due, policies, started, 0) == due && Cutoff(started, policies, 0) == DAY;
    assert Size(1) == 1 && StepFails(repository.rows, policies, started, false, Size(1), failing, recordFails, 0);
    result, error, gone, last, at := repository.PurgeOnce(policies, started, false, 1, failing, recordFails);
    assert !NothingToLose(due, "c", DAY, FailuresOf(failing, 0));
  }

  lemma {:induction false} NothingDone(rows: seq<Row>, policies: seq<Policy>, started: nat -> int)
    ensures Swept(rows, policies, started, 0) == rows && Due(rows, policies, started, 0) == 0 && SumRuns([]) == 0
  {
  }

  lemma {:induction false} NextPolicy(rows: seq<Row>, policies: seq<Policy>, started: nat -> int, i: nat)
    requires i < |policies|
    ensures var p, cutoff := policies[i], started(i) - policies[i].days * DAY;
            && Swept(rows, policies, started, i + 1)
               == (if p.days <= 0 then Swept(rows, policies, started, i) else Unexpired(Swept(rows, policies, started, i), TrimSpace(p.company), cutoff))
            && Due(rows, policies, started, i + 1)
               == Due(rows, policies, started, i) + (if p.days <= 0 then 0 else CountExpired(rows, TrimSpace(p.company), cutoff))
  {
    hide TrimSpace, Unexpired, CountExpired;
  }

  lemma {:induction false} NamesCompany(policies: seq<Policy>, i: nat)
    requires i < |policies| && policies[i].days > 0
    ensures HasPolicy(policies, TrimSpace(policies[i].company))
  {
    hide TrimSpace;
  }

  lemma {:induction false} SumRunsAppend(runs: seq<RunRecord>, r: RunRecord)
    ensures SumRuns(runs + [r]) == SumRuns(runs) + r.rowsDeleted
  {
    assert (runs + [r])[..|runs|] == runs;
  }

  /** A policy that is enforced names the company. */
  predicate HasPolicy(policies: seq<Policy>, company: string) {
    exists i :: 0 <= i < |policies| && policies[i].days > 0 && TrimSpace(policies[i].company) == company
  }

  ghost predicate OthersUntouched(before: seq<Row>, after: seq<Row>, company: string) {
    forall other: string :: other != company ==> OfCompany(after, other) == OfCompany(before, other)
  }

  lemma {:induction false} StillUntouched(policies: seq<Policy>, first: seq<Row>, before: seq<Row>, after: seq<Row>, company: string)
    requires HasPolicy(policies, company) && OthersUntouched(before, after, company)
    requires forall other: string :: !HasPolicy(policies, other) ==> OfCompany(before, other) == OfCompany(first, other)
    ensures forall other: string :: !HasPolicy(policies, other) ==> OfCompany(after, other) == OfCompany(first, other)
  {
    hide HasPolicy, OfCompany;
  }

  lemma {:induction false} DeleteNone(rows: seq<Row>, company: string, cutoff: int)
    ensures DeleteFirst(rows, company, cutoff, 0) == rows
  {
  }

  // ---------- other companies ----------

  function OfCompany(rows: seq<Row>, company: string): seq<Row> {
    if rows == [] then [] else (if rows[0].company == company then [rows[0]] else []) + OfCompany(rows[1..], company)
  }

  lemma {:induction false} OthersStay(rows: seq<Row>, company: string, cutoff: int, n: nat)
    ensures OthersUntouched(rows, DeleteFirst(rows, company, cutoff, n), company)
  {
    if rows != [] && n > 0 {
      if Expired(rows[0], company, cutoff) {
        OthersStay(rows[1..], company, cutoff, n - 1);
      } else {
        OthersStay(rows[1..], company, cutoff, n);
        assert ([rows[0]] + DeleteFirst(rows[1..], company, cutoff, n))[1..] == DeleteFirst(rows[1..], company, cutoff, n);
      }
    }
  }

  /** The order in which a purge deletes. */
  predicate Before(r: Row, s: Row) {
    r.created < s.created || (r.created == s.created && r.id < s.id)
  }

  predicate Sorted(rows: seq<Row>) {
    forall a, b | 0 <= a < b < |rows| :: Before(rows[a], rows[b])
  }

  /** A row survives `n` deletions if and only if it is not expired or `n` expired rows come before it. */
  lemma {:induction false} SurvivesIff(rows: seq<Row>, company: string, cutoff: int, n: nat, i: nat)
    requires Sorted(rows) && i < |rows|
    ensures rows[i] in DeleteFirst(rows, company, cutoff, n)
       <==> !Expired(rows[i], company, cutoff) || CountExpired(rows[..i], company, cutoff) >= n
  {
    hide Expired;
    if n > 0 {
      var rest := rows[1..];
      if i > 0 {
        assert rows[..i][1..] == rest[..i - 1] && rest[i - 1] == rows[i];
        SurvivesIff(rest, company, cutoff, if Expired(rows[0], company, cutoff) then n - 1 else n, i - 1);
      } else {
        assert rows[..0] == [];
        DeletedWithin(rest, company, cutoff, n - 1);
      }
    }
  }

  lemma {:induction false} CountGrows(rows: seq<Row>, company: string, cutoff: int, i: nat, j: nat)
    requires i <= j <= |rows|
    ensures CountExpired(rows[..i], company, cutoff) <= CountExpired(rows[..j], company, cutoff)
  {
    hide Expired;
    if i > 0 {
      assert rows[..i][1..] == rows[1..][..i - 1] && rows[..j][1..] == rows[1..][..j - 1];
      CountGrows(rows[1..], company, cutoff, i - 1, j - 1);
    }
  }

  /** Main result: a purge deletes oldest first, however often it is cut off: of the expired rows of a company, in
      a table sorted by creation time and id, every one deleted comes before every one left, and no other row goes. */
  lemma {:induction false} OldestGoFirst(rows: seq<Row>, company: string, cutoff: int, n: nat)
    requires Sorted(rows)
    ensures var left := DeleteFirst(rows, company, cutoff, n);
            && (forall r | r in rows && r !in left :: Expired(r, company, cutoff))
            && (forall r, s | r in rows && r !in left && s in left && Expired(s, company, cutoff) :: Before(r, s))
  {
    hide Expired, DeleteFirst, CountExpired, Before;
    var left := DeleteFirst(rows, company, cutoff, n);
    DeletedWithin(rows, company, cutoff, n);
    forall r | r in rows && r !in left ensures Expired(r, company, cutoff) {
      var i :| 0 <= i < |rows| && rows[i] == r;
      SurvivesIff(rows, company, cutoff, n, i);
    }
    forall r, s | r in rows && r !in left && s in left && Expired(s, company, cutoff) ensures Before(r, s) {
      var i :| 0 <= i < |rows| && rows[i] == r;
      var j :| 0 <= j < |rows| && rows[j] == s;
      SurvivesIff(rows, company, cutoff, n, i);
      SurvivesIff(rows, company, cutoff, n, j);
      if j <= i {
        CountGrows(rows, company, cutoff, j, i);
      }
    }
  }

  lemma {:induction false} DeletedWithin(rows: seq<Row>, company: string, cutoff: int, n: nat)
    ensures forall r | r in DeleteFirst(rows, company, cutoff, n) :: r in rows
  {
    if rows != [] && n > 0 {
      DeletedWithin(rows[1..], company, cutoff, n);
      DeletedWithin(rows[1..], company, cutoff, n - 1);
    }
  }
}
