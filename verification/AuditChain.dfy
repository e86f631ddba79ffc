/** The hash-chained audit log: normalization, insertion, and what the chain gives evidence of. */
module AuditChain {
  import opened Wrappers
  import opened Text
  import AuditRetention

  const MAX_SCALAR: nat := 512
  const MAX_DETAIL: nat := 16384

  /** Times are nanoseconds; no creation time stands for the zero time. */
  datatype Log = Log(companyID: string, domainID: string, userID: string, actorID: string, category: string, action: string,
                     targetType: string, targetID: string, ipAddress: string, userAgent: string, result: string,
                     detail: string, createdAt: Option<int>)

  datatype Error = Required | TooLong | DetailTooLarge | BadDetail | InsertFailed

  /** JSON validity and compaction; what the database makes of a UUID, of an address and of a JSON text, or that it
      refuses it; which texts it takes; and the digest of a previous hash and a log with compact detail. */
  datatype Env = Env(validJSON: string -> bool, compact: string -> string, uuid: string -> Option<string>, inet: string -> Option<string>,
                     jsonb: string -> Option<string>, text: string -> bool, digest: (string, Log) -> string)

  function Normalized(env: Env, l: Log, now: int): Result<Log, Error> {
    if l.category == "" then Err(Required)
    else if |l.category| > MAX_SCALAR then Err(TooLong)
    else if l.action == "" then Err(Required)
    else if |l.action| > MAX_SCALAR || |l.targetType| > MAX_SCALAR then Err(TooLong)
    else if l.result == "" then Err(Required)
    else if |l.result| > MAX_SCALAR || |l.ipAddress| > MAX_SCALAR || |l.userAgent| > MAX_SCALAR then Err(TooLong)
    else
      var detail := if l.detail == "" then "{}" else l.detail;
      if |detail| > MAX_DETAIL then Err(DetailTooLarge)
      else if !env.validJSON(detail) then Err(BadDetail)
      else Ok(l.(detail := detail, createdAt := Some(if l.createdAt.Some? then l.createdAt.value else now)))
  }

  /** What is hashed of a log: encoding it compacts its detail. */
  function Hashed(env: Env, l: Log): Log {
    l.(detail := env.compact(l.detail))
  }

  function ComputeHash(env: Env, prevHash: string, l: Log, now: int): Result<string, Error> {
    var n := Normalized(env, l, now);
    if n.Err? then Err(n.error) else Ok(env.digest(prevHash, Hashed(env, n.value)))
  }

  // ---------- storing a log ----------

  /** Blank values are stored as no value, and read back as the empty text. */
  function ReadValue(convert: string -> Option<string>, x: string): string {
    var t := TrimSpace(x);
    if t == "" || convert(t).None? then "" else convert(t).value
  }

  predicate StorableValue(convert: string -> Option<string>, x: string) {
    var t := TrimSpace(x);
    t == "" || convert(t).Some?
  }

  predicate Storable(env: Env, l: Log) {
    && (forall x | x in [l.companyID, l.domainID, l.userID, l.actorID, l.targetID] :: StorableValue(env.uuid, x))
    && StorableValue(env.inet, l.ipAddress) && env.jsonb(l.detail).Some?
    && (forall x | x in [l.category, l.action, l.targetType, l.userAgent, l.result] :: env.text(x))
  }

  function Microseconds(l: Log): int {
    if l.createdAt.Some? then l.createdAt.value / 1000 else 0
  }

  /** The log as the database gives it back; times are kept to the microsecond. */
  function ReadBack(env: Env, l: Log): Log {
    Log(ReadValue(env.uuid, l.companyID), ReadValue(env.uuid, l.domainID), ReadValue(env.uuid, l.userID), ReadValue(env.uuid, l.actorID),
        l.category, l.action, l.targetType, ReadValue(env.uuid, l.targetID), ReadValue(env.inet, l.ipAddress), l.userAgent, l.result,
        if env.jsonb(l.detail).Some? then env.jsonb(l.detail).value else "{}", Some(Microseconds(l) * 1000))
  }

  // ---------- the table ----------

  /** `log` is the normalized log that was hashed; the database gives it back as `ReadBack`. */
  datatype Row = Row(id: int, log: Log, prevHash: string, hash: string)

  function Time(r: Row): int {
    Microseconds(r.log)
  }

  /** The order in which the latest row is looked up. */
  predicate Before(a: Row, b: Row) {
    Time(a) < Time(b) || (Time(a) == Time(b) && a.id < b.id)
  }

  function InsertSorted(rows: seq<Row>, r: Row): seq<Row> {
    if rows == [] || Before(r, rows[0]) then [r] + rows else [rows[0]] + InsertSorted(rows[1..], r)
  }

  function LatestHash(rows: seq<Row>): string {
    if rows == [] then "" else rows[|rows| - 1].hash
  }

  function NewRow(env: Env, rows: seq<Row>, l: Log, now: int, id: int): Result<Row, Error> {
    var n := Normalized(env, l, now);
    if n.Err? then Err(n.error)
    else if !Storable(env, n.value) then Err(InsertFailed)
    else Ok(Row(id, n.value, LatestHash(rows), env.digest(LatestHash(rows), Hashed(env, n.value))))
  }

  /** The audit table, kept in the order of creation time and id; ids are the database's. */
  class AuditTable {
    const env: Env
    var rows: seq<Row>

    constructor (env: Env)
      ensures rows == [] && this.env == env
    {
      this.env, rows := env, [];
    }

    method InsertTx(l: Log, now: int, later: int, id: int) returns (r: Result<Row, Error>)
      modifies this
      ensures r == NewRow(env, old(rows), l, now, id)
      ensures rows == if r.Ok? then InsertSorted(old(rows), r.value) else old(rows)
    {
      var normalized := Normalized(env, l, now);
      if normalized.Err? { return Err(normalized.error); }
      var prevHash := LatestHash(rows);
      NormalizedTwice(env, l, now, later);
      var hash := ComputeHash(env, prevHash, normalized.value, later);
      if !Storable(env, normalized.value) { return Err(InsertFailed); }
      var row := Row(id, normalized.value, prevHash, hash.value);
      rows := InsertSorted(rows, row);
      return Ok(row);
    }
  }

  /** A normalized log is left as it is by normalizing it again, at any time. */
  lemma {:induction false} NormalizedTwice(env: Env, l: Log, now: int, later: int)
    requires Normalized(env, l, now).Ok?
    ensures Normalized(env, Normalized(env, l, now).value, later) == Normalized(env, l, now)
  {
    assert "{}" != "";
  }

  // ---------- chains ----------

  /** The digest is taken to have no collisions, and never to be the empty text that starts a chain. */
  ghost predicate Collisionless(env: Env) {
    && (forall p, l, p', l' :: env.digest(p, l) == env.digest(p', l') ==> p == p' && l == l')
    && (forall p, l :: env.digest(p, l) != "")
  }

  lemma {:induction false} DigestTells(env: Env, p: string, l: Log, p': string, l': Log)
    requires Collisionless(env)
    ensures env.digest(p, l) == env.digest(p', l') ==> p == p' && l == l'
    ensures env.digest(p, l) != ""
  {
  }

  function PreviousHash(rows: seq<Row>, i: nat): string
    requires i <= |rows|
  {
    if i == 0 then "" else rows[i - 1].hash
  }

  /** Every row links to the one before and carries its own digest. */
  ghost predicate Valid(env: Env, rows: seq<Row>) {
    forall i: nat | i < |rows| :: ValidAt(env, rows, i)
  }

  predicate ValidAt(env: Env, rows: seq<Row>, i: nat)
    requires i < |rows|
  {
    rows[i].prevHash == PreviousHash(rows, i) && rows[i].hash == HashOf(env, rows[i])
  }

  /** The digest that a row should carry. */
  function HashOf(env: Env, r: Row): string {
    env.digest(r.prevHash, Hashed(env, r.log))
  }

  lemma {:induction false} HashesAreDistinct(env: Env, rows: seq<Row>, i: nat, j: nat)
    requires Collisionless(env) && Valid(env, rows) && i < j <= |rows|
    ensures PreviousHash(rows, i) != PreviousHash(rows, j)
    decreases j
  {
    hide Collisionless;
    var last := rows[j - 1];
    assert ValidAt(env, rows, j - 1);
    if i == 0 {
      DigestTells(env, last.prevHash, Hashed(env, last.log), last.prevHash, Hashed(env, last.log));
    } else {
      HashesAreDistinct(env, rows, i - 1, j - 1);
      assert ValidAt(env, rows, i - 1);
      DigestTells(env, rows[i - 1].prevHash, Hashed(env, rows[i - 1].log), last.prevHash, Hashed(env, last.log));
    }
  }

  ghost predicate Ordered(rows: seq<Row>) {
    forall i, j | 0 <= i < j < |rows| :: Before(rows[i], rows[j])
  }

  lemma {:induction false} InsertedAt(rows: seq<Row>, r: Row) returns (p: nat)
    requires Ordered(rows)
    ensures p <= |rows| && InsertSorted(rows, r) == rows[..p] + [r] + rows[p..]
    ensures p == |rows| <==> rows == [] || !Before(r, rows[|rows| - 1])
  {
    if rows == [] || Before(r, rows[0]) {
      p := 0;
      if rows != [] { assert Before(r, rows[|rows| - 1]); }
    } else {
      p := InsertedAt(rows[1..], r);
      p := p + 1;
      assert rows[..p] == [rows[0]] + rows[1..][..p - 1] && rows[p..] == rows[1..][p - 1..];
    }
  }

  /** Main result: an insertion keeps the chain valid if and only if the new row is not placed before the latest one. */
  lemma {:induction false} InsertKeepsChainIff(env: Env, rows: seq<Row>, l: Log, now: int, id: int)
    requires Collisionless(env) && Valid(env, rows) && Ordered(rows) && NewRow(env, rows, l, now, id).Ok?
    ensures var r := NewRow(env, rows, l, now, id).value;
            Valid(env, InsertSorted(rows, r)) <==> rows == [] || !Before(r, rows[|rows| - 1])
  {
    hide Normalized, InsertSorted, Collisionless, Before, Hashed, Storable, Ordered;
    var r := NewRow(env, rows, l, now, id).value;
    var p := InsertedAt(rows, r);
    var rows' := rows[..p] + [r] + rows[p..];
    assert rows'[p] == r;
    forall i: nat | i < p ensures ValidAt(env, rows', i) {
      assert ValidAt(env, rows, i) && rows'[i] == rows[i] && PreviousHash(rows', i) == PreviousHash(rows, i);
    }
    assert PreviousHash(rows', p) == PreviousHash(rows, p);
    if p == |rows| {
      assert ValidAt(env, rows', p);
    } else {
      HashesAreDistinct(env, rows, p, |rows|);
      assert !ValidAt(env, rows', p);
    }
  }

  /** The table after a series of insertions at these clock times, with these ids. */
  function Inserted(env: Env, logs: seq<(Log, int, int)>): seq<Row>
    decreases |logs|
  {
    if logs == [] then []
    else
      var rows := Inserted(env, logs[..|logs| - 1]);
      var (l, now, id) := logs[|logs| - 1];
      var r := NewRow(env, rows, l, now, id);
      if r.Err? then rows else InsertSorted(rows, r.value)
  }

  /** The order of logs as the table will see them: the time each is created with, in microseconds, and its id. */
  predicate EntryBefore(x: (Log, int, int), y: (Log, int, int)) {
    var (s, t) := (StoredTime(x), StoredTime(y));
    s < t || (s == t && x.2 < y.2)
  }

  function StoredTime(x: (Log, int, int)): int {
    (if x.0.createdAt.Some? then x.0.createdAt.value else x.1) / 1000
  }

  /** Main result: logs in the order of their stored creation times and ids make a valid chain, in their order. */
  lemma {:induction false} IncreasingTimesKeepChain(env: Env, logs: seq<(Log, int, int)>)
    requires Collisionless(env)
    requires forall i, j | 0 <= i < j < |logs| :: EntryBefore(logs[i], logs[j])
    ensures Valid(env, Inserted(env, logs)) && Ordered(Inserted(env, logs))
    ensures forall r | r in Inserted(env, logs) :: InsertedFrom(env, logs, r)
    decreases |logs|
  {
    assert Valid(env, []) && Ordered([]);
    hide Normalized, Storable, Valid, Ordered, EntryBefore, Before;
    if logs != [] {
      var init := logs[..|logs| - 1];
      var (l, now, id) := logs[|logs| - 1];
      IncreasingTimesKeepChain(env, init);
      var rows := Inserted(env, init);
      forall r | InsertedFrom(env, init, r) ensures InsertedFrom(env, logs, r) {
        var i :| 0 <= i < |init| && MadeFrom(env, init[i], r);
        assert MadeFrom(env, logs[i], r);
      }
      var r := NewRow(env, rows, l, now, id);
      if r.Ok? {
        assert MadeFrom(env, logs[|logs| - 1], r.value) by { NewRowTime(env, rows, l, now, id); }
        if rows != [] {
          assert rows[|rows| - 1] in rows;
          var i :| 0 <= i < |init| && MadeFrom(env, init[i], rows[|rows| - 1]);
          BeforeLater(env, init[i], logs[|logs| - 1], rows[|rows| - 1], r.value);
        }
        InsertKeepsChainIff(env, rows, l, now, id);
        AppendedLast(rows, r.value);
      }
    }
  }

  predicate MadeFrom(env: Env, x: (Log, int, int), r: Row) {
    r.id == x.2 && Time(r) == StoredTime(x)
  }

  ghost predicate InsertedFrom(env: Env, logs: seq<(Log, int, int)>, r: Row) {
    exists i :: 0 <= i < |logs| && MadeFrom(env, logs[i], r)
  }

  lemma {:induction false} BeforeLater(env: Env, x: (Log, int, int), y: (Log, int, int), r: Row, s: Row)
    requires MadeFrom(env, x, r) && MadeFrom(env, y, s) && EntryBefore(x, y)
    ensures Before(r, s) && !Before(s, r)
  {
  }

  lemma {:induction false} AppendedLast(rows: seq<Row>, r: Row)
    requires Ordered(rows) && (rows != [] ==> Before(rows[|rows| - 1], r))
    ensures InsertSorted(rows, r) == rows + [r] && Ordered(rows + [r])
  {
    hide InsertSorted;
    var p := InsertedAt(rows, r);
  }

  lemma {:induction false} NewRowTime(env: Env, rows: seq<Row>, l: Log, now: int, id: int)
    requires NewRow(env, rows, l, now, id).Ok?
    ensures MadeFrom(env, (l, now, id), NewRow(env, rows, l, now, id).value)
  {
    hide Storable;
  }

  /** The same log, up to the spacing of its detail, with the same links; ids are not hashed. */
  predicate SameRow(env: Env, a: Row, b: Row) {
    Hashed(env, a.log) == Hashed(env, b.log) && a.prevHash == b.prevHash && a.hash == b.hash
  }

  /** Main result, tamper evidence: two valid chains that end in the same hash are the same, row for row. */
  lemma {:induction false} HeadHashFixesChain(env: Env, a: seq<Row>, b: seq<Row>)
    requires Collisionless(env) && Valid(env, a) && Valid(env, b) && LatestHash(a) == LatestHash(b)
    ensures |a| == |b| && forall i | 0 <= i < |a| :: SameRow(env, a[i], b[i])
    decreases |a| + |b|
  {
    hide Collisionless;
    if a != [] {
      var x := a[|a| - 1];
      assert ValidAt(env, a, |a| - 1);
      DigestTells(env, x.prevHash, Hashed(env, x.log), x.prevHash, Hashed(env, x.log));
      if b != [] {
        assert ValidAt(env, b, |b| - 1);
        DigestTells(env, x.prevHash, Hashed(env, x.log), b[|b| - 1].prevHash, Hashed(env, b[|b| - 1].log));
      }
    } else if b != [] {
      var y := b[|b| - 1];
      assert ValidAt(env, b, |b| - 1);
      DigestTells(env, y.prevHash, Hashed(env, y.log), y.prevHash, Hashed(env, y.log));
    }
    if a != [] && b != [] {
      var a', b' := a[..|a| - 1], b[..|b| - 1];
      PrefixIsValid(env, a);
      PrefixIsValid(env, b);
      assert PreviousHash(a, |a| - 1) == LatestHash(a') && PreviousHash(b, |b| - 1) == LatestHash(b');
      HeadHashFixesChain(env, a', b');
    }
  }

  lemma {:induction false} PrefixIsValid(env: Env, rows: seq<Row>)
    requires Valid(env, rows) && rows != []
    ensures Valid(env, rows[..|rows| - 1])
  {
    var init := rows[..|rows| - 1];
    forall i: nat | i < |init| ensures ValidAt(env, init, i) {
      assert ValidAt(env, rows, i) && PreviousHash(init, i) == PreviousHash(rows, i);
    }
  }

  // ---------- what is left after a purge ----------

  /** The purge of a company's rows before a cutoff, in microseconds, takes the row. */
  predicate Expires(env: Env, r: Row, company: string, cutoff: int) {
    ReadBack(env, r.log).companyID == company && Time(r) < cutoff
  }

  /** The row as the purge sees it. */
  function Projected(env: Env, rows: seq<Row>): seq<AuditRetention.Row>
    decreases |rows|
  {
    if rows == [] then []
    else
      var r := rows[|rows| - 1];
      Projected(env, rows[..|rows| - 1]) + [AuditRetention.Row(r.id, ReadBack(env, r.log).companyID, Time(r))]
  }

  /** The rows left by a purge. */
  function Purged(env: Env, rows: seq<Row>, company: string, cutoff: int): seq<Row>
    decreases |rows|
  {
    if rows == [] then []
    else
      var r := rows[|rows| - 1];
      Purged(env, rows[..|rows| - 1], company, cutoff) + if Expires(env, r, company, cutoff) then [] else [r]
  }

  /** These are the rows that the one-shot delete of the retention sweep leaves. */
  lemma {:induction false} PurgedIsUnexpired(env: Env, rows: seq<Row>, company: string, cutoff: int)
    ensures Projected(env, Purged(env, rows, company, cutoff)) == AuditRetention.Unexpired(Projected(env, rows), company, cutoff)
    decreases |rows|
  {
    hide ReadBack, Expires;
    if rows != [] {
      var init, r := rows[..|rows| - 1], rows[|rows| - 1];
      PurgedIsUnexpired(env, init, company, cutoff);
      var left := Purged(env, init, company, cutoff);
      var p := AuditRetention.Row(r.id, ReadBack(env, r.log).companyID, Time(r));
      assert (left + [r])[..|left|] == left;
      assert Projected(env, left + [r]) == Projected(env, left) + [p];
      assert left + [] == left;
      assert Expires(env, r, company, cutoff) == AuditRetention.Expired(p, company, cutoff) by { ExpiresIs(env, r, company, cutoff); }
      AuditRetention.UnexpiredAppend(Projected(env, init), p, company, cutoff);
    }
  }

  lemma {:induction false} ExpiresIs(env: Env, r: Row, company: string, cutoff: int)
    ensures Expires(env, r, company, cutoff) == AuditRetention.Expired(AuditRetention.Row(r.id, ReadBack(env, r.log).companyID, Time(r)), company, cutoff)
  {
    hide ReadBack;
  }

  /** The positions of the rows that a purge leaves among the first `n`. */
  function KeptPositions(env: Env, rows: seq<Row>, company: string, cutoff: int, n: nat): seq<nat>
    requires n <= |rows|
  {
    if n == 0 then []
    else KeptPositions(env, rows, company, cutoff, n - 1) + if Expires(env, rows[n - 1], company, cutoff) then [] else [n - 1]
  }

  lemma {:induction false} KeptAre(env: Env, rows: seq<Row>, company: string, cutoff: int, n: nat)
    requires n <= |rows|
    ensures var kept, left := KeptPositions(env, rows, company, cutoff, n), Purged(env, rows[..n], company, cutoff);
            && |left| == |kept| && (forall a | 0 <= a < |kept| :: kept[a] < n && left[a] == rows[kept[a]])
            && (forall a, b | 0 <= a < b < |kept| :: kept[a] < kept[b])
            && (forall i: nat | i < n :: i in kept <==> !Expires(env, rows[i], company, cutoff))
  {
    hide Expires;
    if n > 0 {
      KeptAre(env, rows, company, cutoff, n - 1);
      assert rows[..n][..n - 1] == rows[..n - 1] && rows[..n][n - 1] == rows[n - 1];
    }
  }

  ghost predicate Linked(rows: seq<Row>) {
    forall i | 0 < i < |rows| :: rows[i].prevHash == rows[i - 1].hash
  }

  /** An expired row stands between two that are kept. */
  ghost predicate Gap(env: Env, rows: seq<Row>, company: string, cutoff: int) {
    exists i: nat, j: nat, k: nat :: i < j < k < |rows| && GapAt(env, rows, company, cutoff, i, j, k)
  }

  predicate GapAt(env: Env, rows: seq<Row>, company: string, cutoff: int, i: nat, j: nat, k: nat)
    requires i < j < k < |rows|
  {
    !Expires(env, rows[i], company, cutoff) && Expires(env, rows[j], company, cutoff) && !Expires(env, rows[k], company, cutoff)
  }

  /** Positions that follow one another stand next to one another. */
  lemma {:induction false} Consecutive(positions: seq<nat>, a: nat, b: nat)
    requires a <= b < |positions| && SideBySide(positions)
    ensures positions[b] == positions[a] + (b - a)
    decreases b
  {
    if a < b { Consecutive(positions, a, b - 1); }
  }

  predicate SideBySide(positions: seq<nat>) {
    forall a | 0 < a < |positions| :: positions[a] == positions[a - 1] + 1
  }

  lemma {:induction false} NoGap(env: Env, rows: seq<Row>, company: string, cutoff: int)
    requires SideBySide(KeptPositions(env, rows, company, cutoff, |rows|))
    ensures !Gap(env, rows, company, cutoff)
  {
    hide Expires, KeptPositions, Purged;
    var kept := KeptPositions(env, rows, company, cutoff, |rows|);
    KeptAre(env, rows, company, cutoff, |rows|);
    forall i: nat, j: nat, k: nat | i < j < k < |rows| && i in kept && k in kept ensures j in kept {
      var a :| 0 <= a < |kept| && kept[a] == i;
      var b :| 0 <= b < |kept| && kept[b] == k;
      Consecutive(kept, a, b);
      Consecutive(kept, a, a + (j - i));
      assert kept[a + (j - i)] == j;
    }
  }

  lemma {:induction false} SomeGap(env: Env, rows: seq<Row>, company: string, cutoff: int)
    ensures SideBySide(KeptPositions(env, rows, company, cutoff, |rows|)) || Gap(env, rows, company, cutoff)
  {
    hide Expires, KeptPositions, Purged;
    var kept := KeptPositions(env, rows, company, cutoff, |rows|);
    if SideBySide(kept) { return; }
    KeptAre(env, rows, company, cutoff, |rows|);
    var a :| 0 < a < |kept| && kept[a] != kept[a - 1] + 1;
    Skips(kept, a);
    assert kept[a - 1] in kept && kept[a] in kept;
    assert GapAt(env, rows, company, cutoff, kept[a - 1], kept[a - 1] + 1, kept[a]);
  }

  lemma {:induction false} Skips(positions: seq<nat>, a: nat)
    requires 0 < a < |positions| && positions[a] != positions[a - 1] + 1 && forall i, j | 0 <= i < j < |positions| :: positions[i] < positions[j]
    ensures positions[a - 1] + 1 < positions[a] && positions[a - 1] + 1 !in positions
  {
    forall b | 0 <= b < |positions| ensures positions[b] != positions[a - 1] + 1 {
      if b < a - 1 {
        assert positions[b] < positions[a - 1];
      }
    }
  }

  lemma {:induction false} OnlyNeighboursLink(env: Env, rows: seq<Row>, p: nat, q: nat)
    requires Collisionless(env) && Valid(env, rows) && p < q < |rows|
    ensures rows[q].prevHash == rows[p].hash <==> q == p + 1
  {
    hide Collisionless;
    assert ValidAt(env, rows, q);
    assert rows[q].prevHash == PreviousHash(rows, q) && rows[p].hash == PreviousHash(rows, p + 1);
    if p + 1 < q {
      HashesAreDistinct(env, rows, p + 1, q);
    }
  }

  /** Main result: after a company's rows before a cutoff were purged from a valid chain, those left still link to
      one another if and only if none of those purged stood between two others. */
  lemma {:induction false} PurgeKeepsLinksIff(env: Env, rows: seq<Row>, company: string, cutoff: int)
    requires Collisionless(env) && Valid(env, rows)
    ensures Linked(Purged(env, rows, company, cutoff)) <==> !Gap(env, rows, company, cutoff)
  {
    hide Collisionless, Valid, Gap, KeptPositions, Purged;
    var kept, left := KeptPositions(env, rows, company, cutoff, |rows|), Purged(env, rows, company, cutoff);
    assert rows[..|rows|] == rows;
    KeptAre(env, rows, company, cutoff, |rows|);
    SomeGap(env, rows, company, cutoff);
    if SideBySide(kept) { NoGap(env, rows, company, cutoff); }
    forall a | 0 < a < |left| ensures left[a].prevHash == left[a - 1].hash <==> kept[a] == kept[a - 1] + 1 {
      OnlyNeighboursLink(env, rows, kept[a - 1], kept[a]);
    }
  }

  // ---------- the integrity check ----------

  datatype Reason = HashMismatch | PrevHashMismatch

  datatype Break = Break(id: int, reason: Reason)

  /** The breaks found at the rows from position `i` on. */
  function Breaks(env: Env, rows: seq<Row>, now: int, i: nat): Result<seq<Break>, Error>
    requires i <= |rows|
    decreases |rows| - i
  {
    if i == |rows| then Ok([])
    else
      var expected := ComputeHash(env, rows[i].prevHash, ReadBack(env, rows[i].log), now);
      if expected.Err? then Err(expected.error)
      else
        Prepend(Breaks(env, rows, now, i + 1), BreaksAt(env, rows, i, expected.value))
  }

  /** What is wrong with one row, given the digest recomputed for it. */
  function BreaksAt(env: Env, rows: seq<Row>, i: nat, expected: string): seq<Break>
    requires i < |rows|
  {
    (if rows[i].hash != expected then [Break(rows[i].id, HashMismatch)] else [])
    + (if i > 0 && rows[i].prevHash != rows[i - 1].hash then [Break(rows[i].id, PrevHashMismatch)] else [])
  }

  method CheckIntegrity(env: Env, rows: seq<Row>, now: int) returns (r: Result<seq<Break>, Error>)
    ensures r == Breaks(env, rows, now, 0)
  {
    hide ComputeHash, ReadBack;
    var breaks: seq<Break> := [];
    PrependEmpty(Breaks(env, rows, now, 0));
    for i := 0 to |rows|
      invariant Prepend(Breaks(env, rows, now, i), breaks) == Breaks(env, rows, now, 0)
    {
      var expected := ComputeHash(env, rows[i].prevHash, ReadBack(env, rows[i].log), now);
      if expected.Err? { return Err(expected.error); }
      var found: seq<Break> := [];
      if rows[i].hash != expected.value {
        found := found + [Break(rows[i].id, HashMismatch)];
      }
      if i > 0 && rows[i].prevHash != rows[i - 1].hash {
        found := found + [Break(rows[i].id, PrevHashMismatch)];
      }
      assert found == BreaksAt(env, rows, i, expected.value);
      PrependMore(Breaks(env, rows, now, i + 1), found, breaks);
      breaks := breaks + found;
    }
    PrependEnd<Break, Error>(breaks);
    return Ok(breaks);
  }

  /** The database gives back values in a form that it leaves alone, and JSON as valid JSON. */
  ghost predicate SoundDatabase(env: Env) {
    && (forall x: string :: env.uuid(x).Some? ==> Settled(env.uuid(x).value))
    && (forall x: string :: env.inet(x).Some? ==> Settled(env.inet(x).value) && |env.inet(x).value| <= MAX_SCALAR)
    && (forall x: string :: env.jsonb(x).Some? ==> env.jsonb(x).value != "" && env.validJSON(env.jsonb(x).value))
  }

  predicate Settled(x: string) {
    x != "" && TrimSpace(x) == x
  }

  /** The rows were inserted: they hold normalized logs that could be stored, and carry their own digests. */
  predicate Entered(env: Env, r: Row, now: int) {
    Normalized(env, r.log, now) == Ok(r.log) && Storable(env, r.log) && r.hash == HashOf(env, r)
  }

  predicate CanonicalValue(convert: string -> Option<string>, x: string) {
    x == "" || (TrimSpace(x) == x && convert(x) == Some(x))
  }

  /** The log has the database's own form: its time in whole microseconds, its ids and its address as the database
      prints them, and its detail, up to spacing, too, with no more bytes than a detail may have. */
  predicate Canonical(env: Env, l: Log) {
    && l.createdAt.Some? && l.createdAt.value % 1000 == 0
    && (forall x | x in [l.companyID, l.domainID, l.userID, l.actorID, l.targetID] :: CanonicalValue(env.uuid, x))
    && CanonicalValue(env.inet, l.ipAddress)
    && env.jsonb(l.detail).Some? && env.compact(env.jsonb(l.detail).value) == env.compact(l.detail) && |env.jsonb(l.detail).value| <= MAX_DETAIL
  }

  lemma {:induction false} ReadValueIff(convert: string -> Option<string>, x: string)
    requires (forall y: string :: convert(y).Some? ==> Settled(convert(y).value)) && StorableValue(convert, x)
    ensures ReadValue(convert, x) == x <==> CanonicalValue(convert, x)
  {
    hide TrimSpace;
  }

  lemma {:induction false} ReadValueFits(env: Env, x: string)
    requires SoundDatabase(env)
    ensures |ReadValue(env.inet, x)| <= MAX_SCALAR
  {
    hide TrimSpace;
  }

  /** A log that was stored is hashed as before if and only if it has the database's form. */
  lemma {:induction false} RehashedIff(env: Env, r: Row, now: int)
    requires SoundDatabase(env) && Entered(env, r, now)
    ensures var n := Normalized(env, ReadBack(env, r.log), now);
            (n.Ok? && Hashed(env, n.value) == Hashed(env, r.log)) <==> Canonical(env, r.log)
    ensures Normalized(env, ReadBack(env, r.log), now).Ok? <==> |env.jsonb(r.log.detail).value| <= MAX_DETAIL
  {
    hide TrimSpace, StorableValue, CanonicalValue, ReadValue;
    var l := r.log;
    var ids := [l.companyID, l.domainID, l.userID, l.actorID, l.targetID];
    forall x | x in ids ensures ReadValue(env.uuid, x) == x <==> CanonicalValue(env.uuid, x) {
      ReadValueIff(env.uuid, x);
    }
    assert ids[0] in ids && ids[1] in ids && ids[2] in ids && ids[3] in ids && ids[4] in ids;
    ReadValueIff(env.inet, l.ipAddress);
    ReadValueFits(env, l.ipAddress);
    NormalizedReadBack(env, l, now);
  }

  lemma {:induction false} NormalizedReadBack(env: Env, l: Log, now: int)
    requires SoundDatabase(env) && Normalized(env, l, now) == Ok(l) && env.jsonb(l.detail).Some? && |ReadValue(env.inet, l.ipAddress)| <= MAX_SCALAR
    ensures var b := ReadBack(env, l); Normalized(env, b, now) == if |env.jsonb(l.detail).value| <= MAX_DETAIL then Ok(b) else Err(DetailTooLarge)
  {
    hide ReadValue, TrimSpace;
  }

  /** Main result: the check of inserted rows passes if and only if they link to one another and every log has the
      database's own form. */
  lemma {:induction false} CheckPassesIff(env: Env, rows: seq<Row>, now: int, i: nat)
    requires Collisionless(env) && SoundDatabase(env) && i <= |rows| && forall k | 0 <= k < |rows| :: Entered(env, rows[k], now)
    ensures Breaks(env, rows, now, i) == Ok([])
       <==> forall k | i <= k < |rows| :: Canonical(env, rows[k].log) && (k > 0 ==> rows[k].prevHash == rows[k - 1].hash)
    decreases |rows| - i
  {
    hide Normalized, Collisionless, SoundDatabase, Storable, Canonical, ReadBack;
    if i < |rows| {
      CheckPassesIff(env, rows, now, i + 1);
      var r, n := rows[i], Normalized(env, ReadBack(env, rows[i].log), now);
      RehashedIff(env, r, now);
      if n.Ok? {
        DigestTells(env, r.prevHash, Hashed(env, r.log), r.prevHash, Hashed(env, n.value));
        PrependNone(Breaks(env, rows, now, i + 1), BreaksAt(env, rows, i, env.digest(r.prevHash, Hashed(env, n.value))));
      }
    }
  }

  lemma {:induction false} PrependNone(r: Result<seq<Break>, Error>, before: seq<Break>)
    ensures Prepend(r, before) == Ok([]) <==> r == Ok([]) && before == []
  {
    if r.Ok? && before + r.value == [] {
      assert |before| == 0;
    }
  }

  // ---------- logs that break the chain ----------

  function Event(company: string, createdAt: Option<int>): Log {
    Log(company, "", "", "", "c", "a", "", "", "", "", "r", "{}", createdAt)
  }

  /** A database that takes these logs. */
  ghost predicate Takes(env: Env) {
    && Collisionless(env) && SoundDatabase(env) && env.validJSON("{}") && env.jsonb("{}") == Some("{}")
    && (forall x: string :: env.text(x)) && (forall x | x in ["x", "y"] :: env.uuid(x) == Some(x))
  }

  lemma {:induction false} EventsAreTaken(env: Env, rows: seq<Row>, company: string, createdAt: Option<int>, now: int, id: int)
    requires Takes(env) && company in ["", "x", "y"]
    ensures var r, l := NewRow(env, rows, Event(company, createdAt), now, id), Event(company, Some(if createdAt.Some? then createdAt.value else now));
            && r == Ok(Row(id, l, LatestHash(rows), env.digest(LatestHash(rows), Hashed(env, l))))
            && Entered(env, r.value, now) && ReadBack(env, l).companyID == company
  {
    hide Collisionless, SoundDatabase, TrimSpace, Hashed;
    ShortNames();
    var l := Event(company, Some(if createdAt.Some? then createdAt.value else now));
    assert StorableValue(env.uuid, "") && StorableValue(env.inet, "") && StorableValue(env.uuid, company);
    assert Normalized(env, Event(company, createdAt), now) == Ok(l) == Normalized(env, l, now);
  }

  lemma {:induction false} ShortNames()
    ensures TrimSpace("x") == "x" && TrimSpace("y") == "y"
  {
    VisibleEnds("x");
    TrimmedIsFixed("x");
    VisibleEnds("y");
    TrimmedIsFixed("y");
  }

  /** A log without a creation time gets the clock's, and its row fails the check right after it was inserted, unless
      the clock stood at a whole microsecond. */
  lemma {:induction false} NanosecondsFailCheck(env: Env, now: int, id: int, later: int)
    requires Takes(env) && now % 1000 != 0
    ensures var r := NewRow(env, [], Event("", None), now, id); r.Ok? && Breaks(env, [r.value], later, 0) == Ok([Break(id, HashMismatch)])
  {
    hide TrimSpace, Collisionless, SoundDatabase;
    EventsAreTaken(env, [], "", None, now, id);
    var r := NewRow(env, [], Event("", None), now, id).value;
    var b := ReadBack(env, r.log);
    assert b == Event("", Some(now / 1000 * 1000)) && b.createdAt != r.log.createdAt;
    assert Normalized(env, b, later) == Ok(b);
    DigestTells(env, "", Hashed(env, r.log), "", Hashed(env, b));
    assert Breaks(env, [r], later, 1) == Ok([]);
    assert BreaksAt(env, [r], 0, env.digest("", Hashed(env, b))) == [Break(id, HashMismatch)];
    PrependEnd<Break, Error>([Break(id, HashMismatch)]);
  }

  lemma {:induction false} InsertedNext(env: Env, logs: seq<(Log, int, int)>, company: string, createdAt: int, now: int, id: int)
    requires Takes(env) && company in ["", "x", "y"]
    ensures var rows, r := Inserted(env, logs), NewRow(env, Inserted(env, logs), Event(company, Some(createdAt)), now, id);
            && r.Ok? && r.value.id == id && r.value.log == Event(company, Some(createdAt)) && ReadBack(env, r.value.log).companyID == company
            && Inserted(env, logs + [(Event(company, Some(createdAt)), now, id)]) == InsertSorted(rows, r.value)
  {
    hide Takes, Normalized, Storable, InsertSorted, NewRow, ReadBack;
    EventsAreTaken(env, Inserted(env, logs), company, Some(createdAt), now, id);
    assert (logs + [(Event(company, Some(createdAt)), now, id)])[..|logs|] == logs;
  }

  /** A log created before the latest one is placed before it, and the chain is not valid any more. */
  lemma {:induction false} EarlierLogBreaksChain(env: Env, now: int)
    requires Takes(env)
    ensures !Valid(env, Inserted(env, [(Event("", Some(2000)), now, 1), (Event("", Some(1000)), now, 2)]))
  {
    assert Inserted(env, []) == [];
    assert Collisionless(env);
    hide Takes, NewRow, Valid, ReadBack, Collisionless, Ordered, Inserted, EntryBefore;
    var x, y := (Event("", Some(2000)), now, 1), (Event("", Some(1000)), now, 2);
    InsertedNext(env, [], "", 2000, now, 1);
    InsertedNext(env, [x], "", 1000, now, 2);
    assert [] + [x] == [x] && [x] + [y] == [x, y];
    IncreasingTimesKeepChain(env, [x]);
    InsertKeepsChainIff(env, Inserted(env, [x]), y.0, now, 2);
  }

  /** A purge of company `y` between two rows of company `x` leaves rows that do not link. */
  lemma {:induction false} PurgeBreaksChain(env: Env, now: int)
    requires Takes(env)
    ensures var logs := [(Event("x", Some(1000)), now, 1), (Event("y", Some(2000)), now, 2), (Event("x", Some(3000)), now, 3)];
            Valid(env, Inserted(env, logs)) && !Linked(Purged(env, Inserted(env, logs), "y", 10))
  {
    assert Collisionless(env);
    hide Takes, NewRow, Valid, ReadBack, Collisionless, Ordered, Purged, Linked;
    var logs := [(Event("x", Some(1000)), now, 1), (Event("y", Some(2000)), now, 2), (Event("x", Some(3000)), now, 3)];
    IncreasingTimesKeepChain(env, logs);
    ThreeInserted(env, now);
    var rows := Inserted(env, logs);
    assert GapAt(env, rows, "y", 10, 0, 1, 2);
    PurgeKeepsLinksIff(env, rows, "y", 10);
  }

  lemma {:induction false} ThreeInserted(env: Env, now: int)
    requires Takes(env)
    ensures var rows := Inserted(env, [(Event("x", Some(1000)), now, 1), (Event("y", Some(2000)), now, 2), (Event("x", Some(3000)), now, 3)]);
            && |rows| == 3 && (forall i | 0 <= i < 3 :: Time(rows[i]) < 10)
            && ReadBack(env, rows[0].log).companyID == "x" && ReadBack(env, rows[1].log).companyID == "y" && ReadBack(env, rows[2].log).companyID == "x"
  {
    hide Takes, NewRow, ReadBack, Inserted, InsertSorted, Ordered, Valid, EntryBefore;
    var x, y, z := (Event("x", Some(1000)), now, 1), (Event("y", Some(2000)), now, 2), (Event("x", Some(3000)), now, 3);
    NothingInserted(env);
    InsertedNext(env, [], "x", 1000, now, 1);
    var a := NewRow(env, [], x.0, now, 1).value;
    OneOrdered(a);
    assert [] + [x] == [x] && Inserted(env, [x]) == [a];
    InsertedNext(env, [x], "y", 2000, now, 2);
    var b := NewRow(env, [a], y.0, now, 2).value;
    AppendedLast([a], b);
    assert [x] + [y] == [x, y] && [a] + [b] == [a, b] && Inserted(env, [x, y]) == [a, b];
    InsertedNext(env, [x, y], "x", 3000, now, 3);
    var c := NewRow(env, [a, b], z.0, now, 3).value;
    AppendedLast([a, b], c);
    assert [x, y] + [z] == [x, y, z] && [a, b] + [c] == [a, b, c];
  }

  lemma {:induction false} OneOrdered(r: Row)
    ensures Ordered([r]) && InsertSorted([], r) == [r]
  {
  }

  lemma {:induction false} NothingInserted(env: Env)
    ensures Inserted(env, []) == []
  {
  }
}
