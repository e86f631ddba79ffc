/** API usage events: normalization, and the four statements that count an event. */
module UsageAggregation {
  import opened Wrappers
  import opened Text

  const SCHEMA_V1 := "2026-05-04.api-usage.v1"

  datatype Error = Required | LineBreak | BadStatus | StatementFailed

  // ---------- identities ----------

  datatype Identity = Identity(tenantID: string, companyID: string, domainID: string, userID: string,
                               apiKeyID: string, principalID: string, authSource: string)

  const SOURCES := ["anonymous", "bearer", "api_key", "admin_token", "query_user_id"]

  function NormalizeAuthSource(source: string): string {
    var s := ToLower(TrimSpace(source));
    if s in SOURCES then s else "unknown"
  }

  function PrincipalID(id: Identity): string {
    if id.userID != "" then id.userID
    else if id.apiKeyID != "" then id.apiKeyID
    else if id.authSource == "admin_token" || id.authSource == "anonymous" then id.authSource
    else ""
  }

  function Normalize(id: Identity): Identity {
    var n := Identity(TrimSpace(id.tenantID), TrimSpace(id.companyID), TrimSpace(id.domainID), TrimSpace(id.userID),
                      TrimSpace(id.apiKeyID), TrimSpace(id.principalID), NormalizeAuthSource(id.authSource));
    if n.principalID == "" then n.(principalID := PrincipalID(n)) else n
  }

  // ---------- events ----------

  /** `day` and `month` are bucket dates; no month stands for the zero time. */
  datatype Event = Event(id: string, schemaVersion: string, day: int, month: Option<int>, verb: string, route: string, status: int,
                         identity: Identity, requestBytes: int, responseBytes: int, latency: int, requests: int)

  function AtLeastZero(n: int): nat {
    if n < 0 then 0 else n
  }

  function NormalizeMetrics(e: Event): Event {
    e.(requestBytes := AtLeastZero(e.requestBytes), responseBytes := AtLeastZero(e.responseBytes),
       latency := AtLeastZero(e.latency), requests := if e.requests <= 0 then 1 else e.requests)
  }

  function Optional(value: string): Result<string, Error> {
    var v := TrimSpace(value);
    if '\r' in v || '\n' in v then Err(LineBreak) else Ok(v)
  }

  function RequiredValue(value: string): Result<string, Error> {
    var v := Optional(value);
    if v.Ok? && v.value == "" then Err(Required) else v
  }

  predicate OneLine(id: Identity) {
    && Optional(id.tenantID).Ok? && Optional(id.companyID).Ok? && Optional(id.domainID).Ok?
    && Optional(id.userID).Ok? && Optional(id.apiKeyID).Ok? && Optional(id.principalID).Ok?
  }

  function NormalizeEvent(raw: Event): Result<Event, Error> {
    var e := NormalizeMetrics(raw);
    var m, r, id, v := RequiredValue(e.verb), RequiredValue(e.route), Optional(e.id), Optional(e.schemaVersion);
    if m.Err? then Err(m.error)
    else if r.Err? then Err(r.error)
    else if e.status < 100 || e.status > 999 then Err(BadStatus)
    else if id.Err? then Err(id.error)
    else if v.Err? then Err(v.error)
    else if !OneLine(Normalize(e.identity)) then Err(LineBreak)
    else Ok(e.(id := id.value, schemaVersion := v.value, verb := m.value, route := r.value, identity := Normalize(e.identity)))
  }

  // ---------- tables ----------

  datatype Dimensions = Dimensions(verb: string, route: string, status: int, identity: Identity)

  datatype Totals = Totals(requests: nat, requestBytes: nat, responseBytes: nat, latencyTotal: nat, latencyMax: nat)

  datatype LedgerRow = LedgerRow(schemaVersion: string, day: int, dimensions: Dimensions, totals: Totals)

  type Buckets = map<(int, Dimensions), Totals>

  datatype Tables = Tables(claimed: set<string>, ledger: map<string, LedgerRow>, daily: Buckets, monthly: Buckets)

  const ZERO := Totals(0, 0, 0, 0, 0)
  const EMPTY := Tables({}, map[], map[], map[])

  function Max(a: nat, b: nat): nat {
    if a < b then b else a
  }

  function Plus(a: Totals, b: Totals): Totals {
    Totals(a.requests + b.requests, a.requestBytes + b.requestBytes, a.responseBytes + b.responseBytes,
           a.latencyTotal + b.latencyTotal, Max(a.latencyMax, b.latencyMax))
  }

  function DimensionsOf(e: Event): Dimensions {
    Dimensions(e.verb, e.route, e.status, Normalize(e.identity))
  }

  function TotalsOf(e: Event): Totals {
    Totals(AtLeastZero(e.requests), AtLeastZero(e.requestBytes), AtLeastZero(e.responseBytes), AtLeastZero(e.latency), AtLeastZero(e.latency))
  }

  function Month(monthOf: int -> int, e: Event): int {
    if e.month.None? then monthOf(e.day) else e.month.value
  }

  function Bucket(b: Buckets, k: (int, Dimensions)): Totals {
    if k in b then b[k] else ZERO
  }

  // ---------- the statements ----------

  /** The claim is refused when the event's id was claimed before; an event without an id is always counted. */
  predicate MayClaim(t: Tables, e: Event) {
    e.id == "" || e.id !in t.claimed
  }

  function Claim(t: Tables, e: Event): Tables {
    if e.id == "" then t else t.(claimed := t.claimed + {e.id})
  }

  function LedgerRowOf(e: Event): LedgerRow {
    LedgerRow(if e.schemaVersion == "" then SCHEMA_V1 else e.schemaVersion, e.day, DimensionsOf(e), TotalsOf(e))
  }

  function RecordLedger(t: Tables, e: Event): Tables {
    if e.id == "" || e.id in t.ledger then t else t.(ledger := t.ledger[e.id := LedgerRowOf(e)])
  }

  function Upsert(b: Buckets, bucket: int, e: Event): Buckets {
    var k := (bucket, DimensionsOf(e));
    b[k := Plus(Bucket(b, k), TotalsOf(e))]
  }

  function AddDaily(t: Tables, e: Event): Tables {
    t.(daily := Upsert(t.daily, e.day, e))
  }

  function AddMonthly(t: Tables, monthOf: int -> int, e: Event): Tables {
    t.(monthly := Upsert(t.monthly, Month(monthOf, e), e))
  }

  /** The tables after the first `n` statements of counting a claimed event. */
  function AfterStatements(t: Tables, monthOf: int -> int, e: Event, n: nat): Tables {
    if n == 0 then t
    else if n == 1 then Claim(t, e)
    else if n == 2 then RecordLedger(Claim(t, e), e)
    else if n == 3 then AddDaily(RecordLedger(Claim(t, e), e), e)
    else AddMonthly(AddDaily(RecordLedger(Claim(t, e), e), e), monthOf, e)
  }

  /** The store; every statement may fail, which `failing` decides by the statement's number. */
  class AggregateStore {
    var claimed: set<string>
    var ledger: map<string, LedgerRow>
    var daily: Buckets
    var monthly: Buckets
    const monthOf: int -> int

    constructor (monthOf: int -> int)
      ensures Value() == EMPTY && this.monthOf == monthOf
    {
      claimed, ledger, daily, monthly := {}, map[], map[], map[];
      this.monthOf := monthOf;
    }

    function Value(): Tables
      reads this
    {
      Tables(claimed, ledger, daily, monthly)
    }

    method ClaimEvent(e: Event) returns (ok: bool)
      modifies this`claimed
      ensures ok == old(MayClaim(Value(), e))
      ensures Value() == if ok then Claim(old(Value()), e) else old(Value())
    {
      if e.id == "" {
        return true;
      }
      ok := e.id !in claimed;
      claimed := claimed + {e.id};
      assert !ok ==> claimed == old(claimed);
    }

    method WriteLedger(e: Event)
      modifies this`ledger
      ensures Value() == RecordLedger(old(Value()), e)
    {
      if e.id == "" {
        return;
      }
      if e.id !in ledger {
        var version := if e.schemaVersion == "" then SCHEMA_V1 else e.schemaVersion;
        ledger := ledger[e.id := LedgerRow(version, e.day, DimensionsOf(e), TotalsOf(e))];
      }
    }

    method AddUsage(raw: Event, failing: nat -> bool) returns (r: Result<bool, Error>)
      modifies this
      ensures var e, t := NormalizeEvent(raw), old(Value());
              if e.Err? then r == Err(e.error) && Value() == t
              else if failing(0) then r == Err(StatementFailed) && Value() == t
              else if !MayClaim(t, e.value) then r == Ok(false) && Value() == t
              else if failing(1) then r == Err(StatementFailed) && Value() == AfterStatements(t, monthOf, e.value, 1)
              else if failing(2) then r == Err(StatementFailed) && Value() == AfterStatements(t, monthOf, e.value, 2)
              else if failing(3) then r == Err(StatementFailed) && Value() == AfterStatements(t, monthOf, e.value, 3)
              else r == Ok(true) && Value() == AfterStatements(t, monthOf, e.value, 4)
    {
      hide NormalizeEvent, DimensionsOf, TotalsOf, Upsert;
      var normalized := NormalizeEvent(raw);
      if normalized.Err? { return Err(normalized.error); }
      var e := normalized.value;
      if failing(0) { return Err(StatementFailed); }
      var ok := ClaimEvent(e);
      if !ok { return Ok(false); }
      if failing(1) { return Err(StatementFailed); }
      WriteLedger(e);
      if failing(2) { return Err(StatementFailed); }
      daily := Upsert(daily, e.day, e);
      if failing(3) { return Err(StatementFailed); }
      monthly := Upsert(monthly, if e.month.None? then monthOf(e.day) else e.month.value, e);
      return Ok(true);
    }
  }

  // ---------- normalization is idempotent ----------

  lemma {:induction false} AuthSourceTwice(source: string)
    ensures NormalizeAuthSource(NormalizeAuthSource(source)) == NormalizeAuthSource(source)
  {
    hide ToLower, TrimSpace;
    Word(NormalizeAuthSource(source));
  }

  lemma {:induction false} Word(s: string)
    requires s in SOURCES || s == "unknown"
    ensures ToLower(TrimSpace(s)) == s
  {
    VisibleEnds(s);
    TrimmedIsFixed(s);
    hide TrimSpace;
    LowerWord(s);
  }

  lemma {:induction false} NormalizeTwice(id: Identity)
    ensures Normalize(Normalize(id)) == Normalize(id)
  {
    hide NormalizeAuthSource, TrimSpace;
    var n := Normalize(id);
    AuthSourceTwice(id.authSource);
    TrimTwice(id.tenantID);
    TrimTwice(id.companyID);
    TrimTwice(id.domainID);
    TrimTwice(id.userID);
    TrimTwice(id.apiKeyID);
    TrimTwice(id.principalID);
    assert TrimSpace("admin_token") == "admin_token" && TrimSpace("anonymous") == "anonymous" && TrimSpace("") == "" by {
      Plain();
    }
  }

  lemma {:induction false} Plain()
    ensures TrimSpace("admin_token") == "admin_token" && TrimSpace("anonymous") == "anonymous" && TrimSpace("") == ""
  {
    VisibleEnds("admin_token");
    VisibleEnds("anonymous");
    TrimmedIsFixed("admin_token");
    TrimmedIsFixed("anonymous");
  }

  /** Main result: normalizing an event again changes nothing. */
  lemma {:induction false} NormalizeEventTwice(raw: Event)
    requires NormalizeEvent(raw).Ok?
    ensures NormalizeEvent(NormalizeEvent(raw).value) == NormalizeEvent(raw)
  {
    hide Normalize, TrimSpace, OneLine;
    NormalizeTwice(raw.identity);
    TrimTwice(raw.id);
    TrimTwice(raw.schemaVersion);
    TrimTwice(raw.verb);
    TrimTwice(raw.route);
  }
}
