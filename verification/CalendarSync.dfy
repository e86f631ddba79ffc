/** The sync-collection report (section 3 of RFC 6578), and a client that mirrors a calendar with it. */
module CalendarSync {
  import opened Wrappers
  import opened Text
  import opened Coalesce
  import opened CalendarStore

  datatype Body = Body(etag: string, data: Option<string>)

  /** No body stands for the status 404. */
  datatype Response = Response(key: Key, body: Option<Body>)

  datatype Report = Report(responses: seq<Response>, syncToken: string)

  datatype Request = Request(syncToken: string, limit: int, includeData: bool)

  datatype Error = CalendarNotFound | InvalidRequest | InvalidSyncToken | Truncated | LookupFailed | Unrenderable

  /** Which optional queries the store offers, which objects its one-by-one lookup cannot read, which
      objects have a path, and how calendar data is rendered. */
  datatype Backend = Backend(joined: bool, crossBatch: bool, batch: bool, batchFails: bool,
                             unreadable: Key -> bool, linkable: Key -> bool, render: string -> Option<string>)

  function First<T>(s: seq<T>, n: nat): seq<T> {
    if |s| <= n then s else s[..n]
  }

  function ReportLimit(limit: int): nat {
    if limit <= 0 then MAX_REPORT else limit
  }

  /** The position in `s`'s history where the listing of changes after a marker starts. */
  function ListedFrom(s: Store, marker: nat): (from: nat)
    ensures from <= |s.history|
  {
    if marker + 1 <= s.pruned then s.pruned else if marker + 1 <= |s.history| then marker + 1 else |s.history|
  }

  /** The changes since a token, in two statements: its change is looked up in `sm`, and those with a greater id
      are listed in `s2`. */
  function ChangesSince(sm: Store, s2: Store, token: string, limit: nat): Result<seq<Change>, Error> {
    var t := TrimSpace(token);
    if t == "" || |t| > 128 || '\r' in t || '\n' in t then Err(InvalidRequest)
    else if !InLog(sm, t) then Err(InvalidSyncToken)
    else Ok(First(s2.history[ListedFrom(s2, Marker(sm.history, sm.pruned, t))..], limit))
  }

  function LastToken(token: string, cs: seq<Change>): string
    decreases |cs|
  {
    if cs == [] then token
    else
      var last := TrimSpace(cs[|cs| - 1].syncToken);
      if last != "" then last else LastToken(token, cs[..|cs| - 1])
  }

  function Itself(c: Change): Change {
    c
  }

  /** Lookup of one object while a report is built. */
  function Lookup(b: Backend, rows: seq<Row>, k: Key): Option<Row> {
    if !b.batch && b.unreadable(k) then None else Find(rows, k)
  }

  /** The object a reported change is answered with: the joined store brings the object along with the
      change, and its calendar data, like everything from the plain store, is looked up afterwards. */
  function Answer(b: Backend, req: Request, rows2: seq<Row>, rows3: seq<Row>, c: Change): Option<Row> {
    if c.action == ObjectDeleted then None
    else if b.joined && (Find(rows2, KeyOf(c)).None? || !req.includeData) then Find(rows2, KeyOf(c))
    else Lookup(b, rows3, KeyOf(c))
  }

  predicate LookedUp(b: Backend, req: Request, rows2: seq<Row>, c: Change) {
    !b.joined || (req.includeData && c.action != ObjectDeleted && Find(rows2, KeyOf(c)).Some?)
  }

  predicate AnyLookedUp(b: Backend, req: Request, rows2: seq<Row>, cs: seq<Change>) {
    cs != [] && (LookedUp(b, req, rows2, cs[0]) || AnyLookedUp(b, req, rows2, cs[1..]))
  }

  function BodyOf(b: Backend, includeData: bool, row: Option<Row>): Option<Body> {
    if row.None? then None else Some(Body(row.value.etag, if includeData then b.render(row.value.ics) else None))
  }

  function Respond(b: Backend, includeData: bool, k: Key, row: Option<Row>): Result<Response, Error> {
    if !b.linkable(k) || (row.Some? && includeData && b.render(row.value.ics).None?) then Err(Unrenderable)
    else Ok(Response(k, BodyOf(b, includeData, row)))
  }

  function ChangeResponses(b: Backend, req: Request, rows2: seq<Row>, rows3: seq<Row>, cs: seq<Change>): Result<seq<Response>, Error> {
    if cs == [] then Ok([])
    else
      var r := Respond(b, req.includeData, KeyOf(cs[0]), Answer(b, req, rows2, rows3, cs[0]));
      if r.Err? then Err(r.error) else Prepend(ChangeResponses(b, req, rows2, rows3, cs[1..]), [r.value])
  }

  /** The changes since the request's token: its change is looked up in `sm`, the log is listed in `s2`, and
      objects are looked up in `s3`. */
  function SyncChanges(b: Backend, sm: Store, s2: Store, s3: Store, req: Request): Result<Report, Error> {
    var fetched := ChangesSince(sm, s2, req.syncToken, MAX_REPORT + 1);
    if fetched.Err? then Err(fetched.error)
    else if |fetched.value| > MAX_REPORT then Err(Truncated)
    else
      var cs := Coalesced(fetched.value, Itself);
      if |cs| > ReportLimit(req.limit) then Err(Truncated)
      else if b.batch && b.batchFails && AnyLookedUp(b, req, s2.rows, cs) then Err(LookupFailed)
      else
        var responses := ChangeResponses(b, req, s2.rows, s3.rows, cs);
        if responses.Err? then Err(responses.error)
        else Ok(Report(responses.value, LastToken(req.syncToken, fetched.value)))
  }

  function ObjectResponses(b: Backend, includeData: bool, rows: seq<Row>): Result<seq<Response>, Error> {
    if rows == [] then Ok([])
    else
      var r := Respond(b, includeData, rows[0].key, Some(rows[0]));
      if r.Err? then Err(r.error) else Prepend(ObjectResponses(b, includeData, rows[1..]), [r.value])
  }

  /** The report: the calendar is read in `s1`, the token's change in `sm`, the log or the objects in `s2`, and
      looked-up objects in `s3`. */
  function SyncCollection(b: Backend, s1: Store, sm: Store, s2: Store, s3: Store, req: Request): Result<Report, Error> {
    if !s1.live then
      if req.syncToken == "" then Err(CalendarNotFound) else SyncChanges(b, sm, s2, s3, req)
    else if req.syncToken != "" then
      if req.syncToken != s1.syncToken then SyncChanges(b, sm, s2, s3, req) else Ok(Report([], s1.syncToken))
    else
      var rows := First(s2.rows, if ReportLimit(req.limit) < MAX_REPORT then ReportLimit(req.limit) + 1 else MAX_REPORT + 1);
      if |rows| > ReportLimit(req.limit) then Err(Truncated)
      else
        var responses := ObjectResponses(b, req.includeData, rows);
        if responses.Err? then Err(responses.error) else Ok(Report(responses.value, s1.syncToken))
  }

  // ---------- a client ----------

  datatype Client = Client(mirror: map<Key, Body>, token: string)

  function Entry(mirror: map<Key, Body>, k: Key): Option<Body> {
    if k in mirror then Some(mirror[k]) else None
  }

  function Receive(mirror: map<Key, Body>, rs: seq<Response>): map<Key, Body>
    decreases |rs|
  {
    if rs == [] then mirror
    else Receive(if rs[0].body.Some? then mirror[rs[0].key := rs[0].body.value] else mirror - {rs[0].key}, rs[1..])
  }

  /** A refused sync leaves the client as it is; a first sync starts from nothing. */
  function Synced(c: Client, r: Result<Report, Error>): Client {
    if r.Err? then c
    else Client(Receive(if c.token == "" then map[] else c.mirror, r.value.responses), r.value.syncToken)
  }

  // ---------- what a sync keeps ----------

  predicate Shows(b: Backend, full: bool, rows: seq<Row>, mirror: map<Key, Body>, k: Key) {
    Entry(mirror, k) == BodyOf(b, full, Find(rows, k))
  }

  /** The position of a token's change in the history; the view shows a current token that has no change yet. */
  function Position(s: Store, token: string): nat {
    Marker(View(s).history, 0, token)
  }

  /** An object the mirror does not show as it is has a change after the client's token, or is one of `lost`. */
  ghost predicate Lag(b: Backend, full: bool, s: Store, c: Client, lost: iset<Key>) {
    c.token != "" ==>
      && GoodToken(c.token) && c.token in s.issued
      && (s.live && Position(s, c.token) < |View(s).history| ==>
            forall k: Key | k !in lost :: Shows(b, full, s.rows, c.mirror, k) || Pending(s.history, Position(s, c.token), k))
  }

  /** A token that was issued before a later state was reached is where it was. */
  lemma {:induction false} PositionStays(s: Store, t: Store, token: string)
    requires Good(s) && Good(t) && Later(s, t) && t.live && token in s.issued && Position(t, token) < |View(t).history|
    ensures Position(s, token) == Position(t, token) < |View(s).history|
  {
    hide Marker, Find, HasObjectResponse, GoodChange, DeletedMeansGone, WellFormedRows, Pending, WithMarker;
    ViewKeeps(s);
    var v, u, q := View(s), View(t), Position(t, token);
    assert q < |v.history| && v.history[q] == u.history[q];
    MarkerIsUnique(v, 0, q);
  }

  lemma {:induction false} LagLater(b: Backend, full: bool, s: Store, t: Store, c: Client, lost: iset<Key>)
    requires Good(s) && Good(t) && Later(s, t) && Lag(b, full, s, c, lost)
    ensures Lag(b, full, t, c, lost)
  {
    hide Good, Find, HasObjectResponse, TrimSpace, BodyOf, View, Position, Pending;
    if c.token != "" && t.live && Position(t, c.token) < |View(t).history| {
      var q := Position(t, c.token);
      PositionStays(s, t, c.token);
      ViewKeeps(s);
      ViewKeeps(t);
      forall k: Key | k !in lost ensures Shows(b, full, t.rows, c.mirror, k) || Pending(t.history, q, k) {
        if Pending(s.history, q, k) {
          PendingExtended(View(s).history, View(t).history, q, k);
        } else if Find(t.rows, k) != Find(s.rows, k) {
          PendingWider(View(t).history, |View(s).history| - 1, q, k);
        }
      }
    }
  }

  /** A mirror whose entries are right for `s` or for the later `t`, but for the lost ones, lags no further than a
      token of `s` after which nothing is reported. */
  lemma {:induction false} ViewBetween(b: Backend, full: bool, s: Store, t: Store, c: Client, lost: iset<Key>, e: nat)
    requires Good(s) && Good(t) && Later(s, t)
    requires e < |View(s).history| && c.token == View(s).history[e].syncToken && forall k: Key :: !Pending(s.history, e, k)
    requires s.live ==> forall k: Key | k !in lost :: Shows(b, full, s.rows, c.mirror, k) || Shows(b, full, t.rows, c.mirror, k)
    ensures Lag(b, full, t, c, lost)
  {
    assert Position(s, c.token) == Marker(View(s).history, 0, c.token);
    hide Find, HasObjectResponse, TrimSpace, BodyOf, View, Position, Pending, DeletedMeansGone, WellFormedRows, Marker;
    ViewKeeps(s);
    ViewKeeps(t);
    assert GoodChange(View(s), View(s).history[e]);
    MarkerIsUnique(View(s), 0, e);
    if t.live && Position(t, c.token) < |View(t).history| {
      PositionStays(s, t, c.token);
      forall k: Key | k !in lost ensures Shows(b, full, t.rows, c.mirror, k) || Pending(t.history, e, k) {
        if Find(t.rows, k) != Find(s.rows, k) {
          PendingWider(View(t).history, |View(s).history| - 1, e, k);
        }
      }
    }
  }

  /** The change is reported, stands at `i`, and is the last of its object. */
  ghost predicate LastOfObject(history: seq<Change>, i: nat, c: Change) {
    i < |history| && history[i] == c && HasObjectResponse(c) && !Pending(history, i, KeyOf(c))
  }

  ghost predicate IsLastFrom(history: seq<Change>, from: nat, c: Change) {
    exists i: nat :: from <= i && LastOfObject(history, i, c)
  }

  /** The coalesced changes from `from` on: one for each object with a change there, and that change is its last. */
  lemma {:induction false} CoalescedCovers(history: seq<Change>, from: nat)
    requires from <= |history|
    ensures var cs, p := Coalesced(history[from..], Itself), from - 1;
            && (forall i, j | 0 <= i < j < |cs| :: KeyOf(cs[i]) != KeyOf(cs[j]))
            && (forall j | 0 <= j < |cs| :: IsLastFrom(history, from, cs[j]))
            && (forall k: Key :: Pending(history, p, k) ==> exists j :: 0 <= j < |cs| && KeyOf(cs[j]) == k)
  {
    hide HasObjectResponse, Select;
    var after := history[from..];
    var cs, p := Coalesced(after, Itself), from - 1;
    var index := CoalescedPositions(after, Itself, 0);
    forall j | 0 <= j < |cs|
      ensures IsLastFrom(history, from, cs[j])
    {
      assert index[j] in index;
      KeptIsLast(history, from, index[j]);
      assert LastOfObject(history, index[j] + from, cs[j]);
    }
    forall i, j | 0 <= i < j < |cs| ensures KeyOf(cs[i]) != KeyOf(cs[j]) {
      assert index[j] in index && index[i] in index;
      assert Kept(after, Itself, |after|, index[i]) && Kept(after, Itself, |after|, index[j]);
    }
    forall k: Key | Pending(history, p, k) ensures exists j :: 0 <= j < |cs| && KeyOf(cs[j]) == k {
      var i: nat :| from <= i < |history| && Reported(history, i, k);
      var n := LastReported(history, i, k);
      KeptIsLast(history, from, n - from);
      assert n - from in index;
      var j :| 0 <= j < |index| && index[j] == n - from;
      assert cs[j] == history[n];
    }
  }

  lemma {:induction false} KeptIsLast(history: seq<Change>, from: nat, i: nat)
    requires from <= |history| && from + i < |history|
    ensures var n := from + i;
            Kept(history[from..], Itself, |history| - from, i) <==> HasObjectResponse(history[n]) && !Pending(history, n, KeyOf(history[n]))
  {
    hide HasObjectResponse;
    var after, n := history[from..], from + i;
    forall j: nat | j < |after| ensures after[j] == history[from + j] {}
    if Kept(after, Itself, |after|, i) {
      forall j: nat | n < j < |history| ensures !Reported(history, j, KeyOf(history[n])) {
        assert after[j - from] == history[j];
      }
    }
    if HasObjectResponse(history[n]) && !Pending(history, n, KeyOf(history[n])) {
      forall j | i < j < |after| && HasObjectResponse(after[j]) ensures KeyOf(after[j]) != KeyOf(after[i]) {
        assert history[from + j] == after[j];
        assert KeyOf(after[j]) == KeyOf(history[n]) ==> Reported(history, from + j, KeyOf(history[n]));
      }
    }
  }

  lemma {:induction false} LastReported(history: seq<Change>, i: nat, k: Key) returns (n: nat)
    requires i < |history| && Reported(history, i, k)
    ensures i <= n < |history| && Reported(history, n, k) && !Pending(history, n, k)
    decreases |history| - i
  {
    hide HasObjectResponse;
    if j: nat :| i < j < |history| && Reported(history, j, k) {
      n := LastReported(history, j, k);
    } else {
      n := i;
    }
  }

  lemma {:induction false} ReceiveOthers(mirror: map<Key, Body>, rs: seq<Response>, k: Key)
    requires forall j | 0 <= j < |rs| :: rs[j].key != k
    ensures Entry(Receive(mirror, rs), k) == Entry(mirror, k)
    decreases |rs|
  {
    if rs != [] {
      ReceiveOthers(if rs[0].body.Some? then mirror[rs[0].key := rs[0].body.value] else mirror - {rs[0].key}, rs[1..], k);
    }
  }

  lemma {:induction false} ReceiveOne(mirror: map<Key, Body>, rs: seq<Response>, j: nat)
    requires j < |rs| && forall i | j < i < |rs| :: rs[i].key != rs[j].key
    ensures Entry(Receive(mirror, rs), rs[j].key) == rs[j].body
    decreases |rs|
  {
    var next := if rs[0].body.Some? then mirror[rs[0].key := rs[0].body.value] else mirror - {rs[0].key};
    if j == 0 {
      ReceiveOthers(next, rs[1..], rs[0].key);
    } else {
      ReceiveOne(next, rs[1..], j - 1);
    }
  }

  lemma {:induction false} ResponsesFollowChanges(b: Backend, req: Request, rows2: seq<Row>, rows3: seq<Row>, cs: seq<Change>)
    requires ChangeResponses(b, req, rows2, rows3, cs).Ok?
    ensures var rs := ChangeResponses(b, req, rows2, rows3, cs).value;
            && |rs| == |cs|
            && forall j | 0 <= j < |cs| ::
                 rs[j] == Response(KeyOf(cs[j]), BodyOf(b, req.includeData, Answer(b, req, rows2, rows3, cs[j])))
  {
    hide Answer, BodyOf;
    if cs != [] {
      ResponsesFollowChanges(b, req, rows2, rows3, cs[1..]);
    }
  }

  lemma {:induction false} ResponsesFollowRows(b: Backend, includeData: bool, rows: seq<Row>)
    requires ObjectResponses(b, includeData, rows).Ok?
    ensures var rs := ObjectResponses(b, includeData, rows).value;
            && |rs| == |rows|
            && forall j | 0 <= j < |rows| :: rs[j] == Response(rows[j].key, BodyOf(b, includeData, Some(rows[j])))
  {
    hide BodyOf;
    if rows != [] {
      ResponsesFollowRows(b, includeData, rows[1..]);
    }
  }

  lemma {:induction false} LastGoodToken(token: string, cs: seq<Change>)
    requires cs != [] && GoodToken(cs[|cs| - 1].syncToken)
    ensures LastToken(token, cs) == cs[|cs| - 1].syncToken
  {
    hide TrimSpace;
  }

  lemma {:induction false} ReportParts(b: Backend, sm: Store, s2: Store, s3: Store, req: Request)
    requires Good(s2) && GoodToken(req.syncToken) && SyncChanges(b, sm, s2, s3, req).Ok?
    ensures InLog(sm, req.syncToken)
    ensures var from, r := ListedFrom(s2, Marker(sm.history, sm.pruned, req.syncToken)), SyncChanges(b, sm, s2, s3, req).value;
            && r.syncToken == (if from == |s2.history| then req.syncToken else s2.history[|s2.history| - 1].syncToken)
            && ChangeResponses(b, req, s2.rows, s3.rows, Coalesced(s2.history[from..], Itself)) == Ok(r.responses)
  {
    assert LastToken(req.syncToken, []) == req.syncToken;
    hide Good, HasObjectResponse, TrimSpace, Coalesced, ChangeResponses, LastToken, Marker, ListedFrom;
    var from := ListedFrom(s2, Marker(sm.history, sm.pruned, req.syncToken));
    if from < |s2.history| {
      LastIsGood(s2);
      LastGoodToken(req.syncToken, s2.history[from..]);
    } else {
      assert s2.history[from..] == [];
    }
  }

  lemma {:induction false} LastIsGood(s: Store)
    requires Good(s) && s.history != []
    ensures GoodToken(s.history[|s.history| - 1].syncToken)
  {
    hide GoodToken, Marker, DeletedMeansGone, WellFormedRows;
    ViewKeeps(s);
    assert GoodChange(View(s), View(s).history[|s.history| - 1]);
  }

  /** How the mirror `m'`, after a report of the changes from `from` on, follows from the mirror `m` before. */
  ghost predicate Follows(b: Backend, req: Request, history: seq<Change>, from: nat, rows2: seq<Row>, rows3: seq<Row>,
                          m: map<Key, Body>, m': map<Key, Body>, k: Key) {
    if Pending(history, from - 1, k) then
      exists i: nat :: from <= i && LastReportedAt(history, i, k) && Entry(m', k) == BodyOf(b, req.includeData, Answer(b, req, rows2, rows3, history[i]))
    else Entry(m', k) == Entry(m, k)
  }

  ghost predicate LastReportedAt(history: seq<Change>, i: nat, k: Key) {
    i < |history| && Reported(history, i, k) && !Pending(history, i, k)
  }

  lemma {:induction false} OneReceived(b: Backend, req: Request, history: seq<Change>, rows2: seq<Row>, rows3: seq<Row>, from: nat, mirror: map<Key, Body>, k: Key)
    requires from <= |history| && ChangeResponses(b, req, rows2, rows3, Coalesced(history[from..], Itself)).Ok?
    ensures var m := Receive(mirror, ChangeResponses(b, req, rows2, rows3, Coalesced(history[from..], Itself)).value);
            Follows(b, req, history, from, rows2, rows3, mirror, m, k)
  {
    hide Answer, BodyOf, HasObjectResponse, Coalesced, ChangeResponses, Receive;
    var cs := Coalesced(history[from..], Itself);
    var rs := ChangeResponses(b, req, rows2, rows3, cs).value;
    CoalescedCovers(history, from);
    ResponsesFollowChanges(b, req, rows2, rows3, cs);
    if Pending(history, from - 1, k) {
      var j :| 0 <= j < |cs| && KeyOf(cs[j]) == k;
      var i: nat :| from <= i && LastOfObject(history, i, cs[j]);
      assert LastReportedAt(history, i, k);
      ReceiveOne(mirror, rs, j);
    } else {
      forall j | 0 <= j < |rs| ensures rs[j].key != k {
        var i: nat :| from <= i && LastOfObject(history, i, cs[j]);
        assert !Reported(history, i, k);
      }
      ReceiveOthers(mirror, rs, k);
    }
  }

  /** What a successful report of changes does to the mirror: objects without a listed change keep their entry,
      the others get the answer to their last change. The report carries the token of the last change listed. */
  lemma {:induction false} ChangesReceived(b: Backend, sm: Store, s2: Store, s3: Store, req: Request, mirror: map<Key, Body>)
    requires Good(s2) && GoodToken(req.syncToken) && SyncChanges(b, sm, s2, s3, req).Ok?
    ensures InLog(sm, req.syncToken)
    ensures var from, r := ListedFrom(s2, Marker(sm.history, sm.pruned, req.syncToken)), SyncChanges(b, sm, s2, s3, req).value;
            && r.syncToken == (if from == |s2.history| then req.syncToken else s2.history[|s2.history| - 1].syncToken)
            && (from == |s2.history| ==> r.responses == [])
            && forall k: Key :: Follows(b, req, s2.history, from, s2.rows, s3.rows, mirror, Receive(mirror, r.responses), k)
  {
    assert ChangeResponses(b, req, s2.rows, s3.rows, Coalesced([], Itself)) == Ok([]);
    hide Good, Coalesced, ChangeResponses, Receive, SyncChanges, Follows, TrimSpace, Marker, ListedFrom;
    ReportParts(b, sm, s2, s3, req);
    var from := ListedFrom(s2, Marker(sm.history, sm.pruned, req.syncToken));
    forall k: Key ensures Follows(b, req, s2.history, from, s2.rows, s3.rows, mirror, Receive(mirror, SyncChanges(b, sm, s2, s3, req).value.responses), k) {
      OneReceived(b, req, s2.history, s2.rows, s3.rows, from, mirror, k);
    }
    if from == |s2.history| {
      assert s2.history[from..] == [];
    }
  }

  lemma {:induction false} FindAt(rows: seq<Row>, k: Key) returns (j: nat)
    ensures Find(rows, k).Some? ==> j < |rows| && rows[j].key == k && Find(rows, k) == Some(rows[j])
    ensures Find(rows, k).None? ==> forall i | 0 <= i < |rows| :: rows[i].key != k
  {
    if rows == [] || rows[0].key == k {
      j := 0;
    } else {
      j := FindAt(rows[1..], k);
      j := j + 1;
    }
  }

  /** A first report that succeeds gives the client exactly the active objects. */
  lemma {:induction false} ObjectsReceived(b: Backend, full: bool, rows: seq<Row>)
    requires ObjectResponses(b, full, rows).Ok?
    requires forall i, j | 0 <= i < j < |rows| :: rows[i].key != rows[j].key
    ensures forall k: Key :: Shows(b, full, rows, Receive(map[], ObjectResponses(b, full, rows).value), k)
  {
    assert BodyOf(b, full, None) == None;
    hide Receive, Find, BodyOf, ObjectResponses;
    var rs := ObjectResponses(b, full, rows).value;
    ResponsesFollowRows(b, full, rows);
    forall k: Key ensures Shows(b, full, rows, Receive(map[], rs), k) {
      var j := FindAt(rows, k);
      if Find(rows, k).Some? {
        ReceiveOne(map[], rs, j);
      } else {
        ReceiveOthers(map[], rs, k);
      }
    }
  }


  // ---------- one sync ----------

  /** The one-by-one lookup, where a report needs it, reads the object. */
  predicate Reads(b: Backend, full: bool, k: Key) {
    (b.joined && !full) || b.batch || !b.unreadable(k)
  }

  /** Where the listing of a report starts. */
  function Start(sm: Store, s2: Store, token: string): nat {
    ListedFrom(s2, Marker(sm.history, sm.pruned, token))
  }

  ghost predicate Listed(sm: Store, s2: Store, token: string, k: Key) {
    Pending(s2.history, Start(sm, s2, token) - 1, k)
  }

  /** The object has changes after the token, and all of them were pruned before the listing. */
  ghost predicate Unread(sm: Store, s2: Store, token: string, k: Key) {
    Pending(s2.history, Marker(sm.history, sm.pruned, token), k) && !Listed(sm, s2, token, k)
  }

  ghost function LostByChanges(sm: Store, s2: Store, token: string, lost: iset<Key>): iset<Key> {
    iset k: Key | (k in lost && !Listed(sm, s2, token, k)) || Unread(sm, s2, token, k)
  }

  lemma {:induction false} AnswerIsCurrent(b: Backend, s2: Store, rows3: seq<Row>, req: Request, i: nat, k: Key)
    requires Good(s2) && LastReportedAt(s2.history, i, k) && Reads(b, req.includeData, k)
    ensures Answer(b, req, s2.rows, rows3, s2.history[i]) in {Find(s2.rows, k), Find(rows3, k)}
  {
    hide Find, HasObjectResponse, Good, Pending;
    if s2.history[i].action == ObjectDeleted {
      DeletedIsGone(s2, i, k);
    }
  }

  lemma {:induction false} DeletedIsGone(s: Store, i: nat, k: Key)
    requires Good(s) && LastReportedAt(s.history, i, k) && s.history[i].action == ObjectDeleted
    ensures Find(s.rows, k).None?
  {
    hide Find, HasObjectResponse, WellFormedHistory, WellFormedRows, Marker, Pending;
    ViewKeeps(s);
    assert View(s).history[i] == s.history[i];
  }

  /** The position of a token whose change is in the log. */
  lemma {:induction false} PositionOfLogged(s: Store, token: string)
    requires Good(s) && InLog(s, token)
    ensures Position(s, token) == Marker(s.history, s.pruned, token) < |View(s).history|
  {
    hide Marker, GoodChange, DeletedMeansGone, WellFormedRows, WithMarker, Pending;
    ViewKeeps(s);
    var p := Marker(s.history, s.pruned, token);
    assert View(s).history[p] == s.history[p];
    MarkerIsUnique(View(s), 0, p);
  }

  /** An unlisted object that the client had right, and that has no change after the token, is still right. */
  lemma {:induction false} UnlistedIsRight(b: Backend, full: bool, sm: Store, s2: Store, c: Client, lost: iset<Key>, k: Key)
    requires Good(sm) && Good(s2) && Later(sm, s2) && s2.live && InLog(sm, c.token) && c.token != "" && Lag(b, full, sm, c, lost)
    requires k !in lost && !Pending(s2.history, Marker(sm.history, sm.pruned, c.token), k)
    ensures Shows(b, full, s2.rows, c.mirror, k)
  {
    hide Good, Find, HasObjectResponse, TrimSpace, BodyOf, View, Position, Pending, Marker;
    var p := Marker(sm.history, sm.pruned, c.token);
    PositionOfLogged(sm, c.token);
    ViewKeeps(sm);
    ViewKeeps(s2);
    if Pending(sm.history, p, k) {
      PendingExtended(View(sm).history, View(s2).history, p, k);
    } else if Find(s2.rows, k) != Find(sm.rows, k) {
      PendingWider(View(s2).history, |View(sm).history| - 1, p, k);
    }
  }

  lemma {:induction false} ChangesKeepLag(b: Backend, sm: Store, s2: Store, s3: Store, req: Request, c: Client, lost: iset<Key>)
    requires Good(sm) && Good(s2) && Good(s3) && Later(sm, s2) && Later(s2, s3)
    requires c.token == req.syncToken != "" && Lag(b, req.includeData, sm, c, lost)
    requires forall k: Key :: Reads(b, req.includeData, k)
    ensures var r := SyncChanges(b, sm, s2, s3, req);
            Lag(b, req.includeData, s3, Synced(c, r), if r.Err? then lost else LostByChanges(sm, s2, req.syncToken, lost))
  {
    hide Answer, BodyOf, HasObjectResponse, TrimSpace, SyncChanges, Receive, Find, Reads, Later, Good, Listed, Pending, Marker, ListedFrom, Follows, View, Position;
    LagLater(b, req.includeData, sm, s2, c, lost);
    LagLater(b, req.includeData, s2, s3, c, lost);
    var r := SyncChanges(b, sm, s2, s3, req);
    if r.Ok? {
      var c', lost', from, full := Synced(c, r), LostByChanges(sm, s2, req.syncToken, lost), Start(sm, s2, req.syncToken), req.includeData;
      ChangesReceived(b, sm, s2, s3, req, c.mirror);
      if from == |s2.history| {
        NothingReceived(c);
        assert c' == c;
        forall k: Key ensures !Listed(sm, s2, req.syncToken, k) {
          NothingListed(sm, s2, req.syncToken, k);
        }
      } else {
        if s2.live {
          forall k: Key | k !in lost' ensures Shows(b, full, s2.rows, c'.mirror, k) || Shows(b, full, s3.rows, c'.mirror, k) {
            OneShown(b, sm, s2, s3, req, c, c'.mirror, lost, k);
          }
        }
        LastPosition(s2);
        ViewBetween(b, full, s2, s3, c', lost', |s2.history| - 1);
      }
    }
  }

  lemma {:induction false} OneShown(b: Backend, sm: Store, s2: Store, s3: Store, req: Request, c: Client, mirror: map<Key, Body>, lost: iset<Key>, k: Key)
    requires Good(sm) && Good(s2) && Later(sm, s2) && s2.live && InLog(sm, req.syncToken)
    requires c.token == req.syncToken != "" && Lag(b, req.includeData, sm, c, lost) && Reads(b, req.includeData, k)
    requires k !in LostByChanges(sm, s2, req.syncToken, lost)
    requires Follows(b, req, s2.history, Start(sm, s2, req.syncToken), s2.rows, s3.rows, c.mirror, mirror, k)
    ensures Shows(b, req.includeData, s2.rows, mirror, k) || Shows(b, req.includeData, s3.rows, mirror, k)
  {
    hide Answer, BodyOf, HasObjectResponse, TrimSpace, Find, Reads, Later, Good, Pending, Marker, ListedFrom, Lag, InLog;
    var from := Start(sm, s2, req.syncToken);
    if Listed(sm, s2, req.syncToken, k) {
      var i: nat :| from <= i && LastReportedAt(s2.history, i, k)
               && Entry(mirror, k) == BodyOf(b, req.includeData, Answer(b, req, s2.rows, s3.rows, s2.history[i]));
      AnswerIsCurrent(b, s2, s3.rows, req, i, k);
    } else {
      UnlistedIsRight(b, req.includeData, sm, s2, c, lost, k);
    }
  }

  /** Nothing is reported after the last change. */
  lemma {:induction false} LastPosition(s: Store)
    requires Good(s) && s.history != []
    ensures var e := |s.history| - 1; e < |View(s).history| && View(s).history[e] == s.history[e] && forall k: Key :: !Pending(s.history, e, k)
  {
    hide Good;
    ViewKeeps(s);
  }

  lemma {:induction false} NothingListed(sm: Store, s2: Store, token: string, k: Key)
    requires Start(sm, s2, token) == |s2.history|
    ensures !Listed(sm, s2, token, k)
  {
  }

  lemma {:induction false} NothingReceived(c: Client)
    ensures c.token != "" ==> Synced(c, Ok(Report([], c.token))) == c
  {
  }

  /** Which objects a sync loses track of; a first sync that succeeds forgets earlier losses. */
  ghost function LostAfter(s1: Store, sm: Store, s2: Store, token: string, failed: bool, lost: iset<Key>): iset<Key> {
    if failed || (s1.live && token != "" && token == s1.syncToken) then lost
    else if token == "" then iset{}
    else LostByChanges(sm, s2, token, lost)
  }

  /** Main result, one sync: transactions, prunings among them, may run between the report's four reads, and the
      report may succeed or fail. The client only lags where it will be told, but for the objects whose changes
      were all pruned between the lookup of the token and the listing. */
  lemma {:induction false} SyncKeepsLag(b: Backend, full: bool, s1: Store, sm: Store, s2: Store, s3: Store, limit: int, c: Client, lost: iset<Key>)
    requires Good(s1) && Good(sm) && Good(s2) && Good(s3) && Later(s1, sm) && Later(sm, s2) && Later(s2, s3) && limit <= MAX_REPORT
    requires Lag(b, full, s1, c, lost) && forall k: Key :: Reads(b, full, k)
    ensures var r := SyncCollection(b, s1, sm, s2, s3, Request(c.token, limit, full));
            Lag(b, full, s3, Synced(c, r), LostAfter(s1, sm, s2, c.token, r.Err?, lost))
  {
    hide Good, Later, SyncChanges, ObjectResponses, Reads, Lag, LostByChanges, Receive;
    var req := Request(c.token, limit, full);
    var r := SyncCollection(b, s1, sm, s2, s3, req);
    LagLater(b, full, s1, sm, c, lost);
    LagLater(b, full, sm, s2, c, lost);
    LagLater(b, full, s2, s3, c, lost);
    if c.token != "" {
      if !s1.live || c.token != s1.syncToken {
        ChangesKeepLag(b, sm, s2, s3, req, c, lost);
      } else {
        NothingReceived(c);
      }
    } else if r.Ok? {
      FirstSync(b, full, s1, sm, s2, s3, limit, c);
    }
  }

  lemma {:induction false} FirstSync(b: Backend, full: bool, s1: Store, sm: Store, s2: Store, s3: Store, limit: int, c: Client)
    requires Good(s1) && Good(s2) && Good(s3) && Later(s1, sm) && Later(sm, s2) && Later(s2, s3) && limit <= MAX_REPORT
    requires c.token == "" && SyncCollection(b, s1, sm, s2, s3, Request("", limit, full)).Ok?
    ensures Lag(b, full, s3, Synced(c, SyncCollection(b, s1, sm, s2, s3, Request("", limit, full))), iset{})
  {
    hide Good, ObjectResponses, Lag, Receive, Extends, View;
    var r := SyncCollection(b, s1, sm, s2, s3, Request("", limit, full));
    var c' := Synced(c, r);
    assert ObjectResponses(b, full, s2.rows).Ok? && r.value.responses == ObjectResponses(b, full, s2.rows).value;
    RowsAreDistinct(s2);
    ObjectsReceived(b, full, s2.rows);
    CurrentPosition(s1);
    LaterTransitive(s1, sm, s2);
    ViewBetween(b, full, s1, s2, c', iset{}, |View(s1).history| - 1);
    LagLater(b, full, s2, s3, c', iset{});
  }

  /** The current token of a live calendar stands last, and nothing is reported after it. */
  lemma {:induction false} CurrentPosition(s: Store)
    requires Good(s)
    ensures var e := |View(s).history| - 1;
            e >= 0 && (s.live ==> View(s).history[e].syncToken == s.syncToken) && forall k: Key :: !Pending(s.history, e, k)
  {
    ViewKeeps(s);
    hide WithMarker, GoodChange, DeletedMeansGone, WellFormedRows;
  }

  lemma {:induction false} RowsAreDistinct(s: Store)
    requires Good(s)
    ensures forall i, j | 0 <= i < j < |s.rows| :: s.rows[i].key != s.rows[j].key
  {
  }

  // ---------- whole runs ----------

  /** The transactions of a requested sync run before the lookup of its token, before the listing, and before
      the lookup of objects. */
  datatype Event =
    | Written(write: Write)
    | SyncRequested(first: seq<Write>, second: seq<Write>, third: seq<Write>, limit: int)
    | TokenDropped

  function AtMarker(s: Store, e: Event): Store
    requires e.SyncRequested?
  {
    Run(s, e.first)
  }

  function AtListing(s: Store, e: Event): Store
    requires e.SyncRequested?
  {
    Run(AtMarker(s, e), e.second)
  }

  function StepStore(s: Store, e: Event): Store {
    match e
    case Written(w) => Apply(s, w)
    case SyncRequested(_, _, third, _) => Run(AtListing(s, e), third)
    case TokenDropped => s
  }

  function ReportFor(b: Backend, full: bool, s: Store, c: Client, e: Event): Result<Report, Error>
    requires e.SyncRequested?
  {
    SyncCollection(b, s, AtMarker(s, e), AtListing(s, e), StepStore(s, e), Request(c.token, e.limit, full))
  }

  function StepClient(b: Backend, full: bool, s: Store, c: Client, e: Event): Client {
    match e
    case Written(_) => c
    case SyncRequested(_, _, _, _) => Synced(c, ReportFor(b, full, s, c, e))
    case TokenDropped => c.(token := "")
  }

  ghost function StepLost(b: Backend, full: bool, s: Store, c: Client, e: Event, lost: iset<Key>): iset<Key> {
    if e.SyncRequested? then LostAfter(s, AtMarker(s, e), AtListing(s, e), c.token, ReportFor(b, full, s, c, e).Err?, lost) else lost
  }

  /** A store, a client, and the objects the client has lost track of. */
  datatype World = World(store: Store, client: Client, ghost lost: iset<Key>)

  ghost function After(b: Backend, full: bool, w: World, es: seq<Event>): World
    decreases |es|
  {
    if es == [] then w
    else
      var s, c := w.store, w.client;
      After(b, full, World(StepStore(s, es[0]), StepClient(b, full, s, c, es[0]), StepLost(b, full, s, c, es[0], w.lost)), es[1..])
  }

  /** Every transaction brings a new token; limits are those the request parser lets through. */
  predicate Possible(s: Store, e: Event) {
    && (e.Written? ==> FreshWrite(s, e.write))
    && (e.SyncRequested? ==> Fresh(s, e.first) && Fresh(AtMarker(s, e), e.second) && Fresh(AtListing(s, e), e.third) && e.limit <= MAX_REPORT)
  }

  predicate PossibleRun(s: Store, es: seq<Event>)
    decreases |es|
  {
    es == [] || (Possible(s, es[0]) && PossibleRun(StepStore(s, es[0]), es[1..]))
  }

  ghost predicate Follower(b: Backend, full: bool, w: World) {
    Good(w.store) && Lag(b, full, w.store, w.client, w.lost)
  }

  /** Main result, whole runs: whatever transactions, prunings and syncs happen in whatever order, the mirror is
      wrong only about objects with a change after the client's token, and about those lost to a pruning. */
  lemma {:induction false} MirrorOnlyLags(b: Backend, full: bool, w: World, es: seq<Event>)
    requires Follower(b, full, w) && PossibleRun(w.store, es) && forall k: Key :: Reads(b, full, k)
    ensures Follower(b, full, After(b, full, w, es))
    decreases |es|
  {
    hide Good, Lag, Later, Run, Fresh, SyncCollection, Reads, Apply, Synced, LostAfter;
    if es != [] {
      var e, s, c := es[0], w.store, w.client;
      var w' := World(StepStore(s, e), StepClient(b, full, s, c, e), StepLost(b, full, s, c, e, w.lost));
      match e {
        case Written(write) =>
          WriteKeeps(s, write);
          LagLater(b, full, s, w'.store, c, w.lost);
        case SyncRequested(first, second, third, limit) =>
          RunKeeps(s, first);
          RunKeeps(AtMarker(s, e), second);
          RunKeeps(AtListing(s, e), third);
          SyncKeepsLag(b, full, s, AtMarker(s, e), AtListing(s, e), w'.store, limit, c, w.lost);
        case TokenDropped =>
          NoTokenNoLag(b, full, s, w'.client, w.lost);
      }
      MirrorOnlyLags(b, full, w', es[1..]);
    }
  }

  lemma {:induction false} NoTokenNoLag(b: Backend, full: bool, s: Store, c: Client, lost: iset<Key>)
    requires c.token == ""
    ensures Lag(b, full, s, c, lost)
  {
  }

  /** No sync of the run leaves an object unread. */
  ghost predicate ReadsEverything(b: Backend, full: bool, w: World, es: seq<Event>)
    decreases |es|
  {
    if es == [] then true
    else
      var e, s, c := es[0], w.store, w.client;
      && (e.SyncRequested? && c.token != "" ==> forall k: Key :: !Unread(AtMarker(s, e), AtListing(s, e), c.token, k))
      && ReadsEverything(b, full, World(StepStore(s, e), StepClient(b, full, s, c, e), StepLost(b, full, s, c, e, w.lost)), es[1..])
  }

  lemma {:induction false} NothingLost(b: Backend, full: bool, w: World, es: seq<Event>)
    requires w.lost == iset{} && ReadsEverything(b, full, w, es)
    ensures After(b, full, w, es).lost == iset{}
    decreases |es|
  {
    hide StepStore, StepClient, Unread, Listed;
    if es != [] {
      var e, s, c := es[0], w.store, w.client;
      assert StepLost(b, full, s, c, e, w.lost) == iset{};
      NothingLost(b, full, World(StepStore(s, e), StepClient(b, full, s, c, e), StepLost(b, full, s, c, e, w.lost)), es[1..]);
    }
  }

  // ---------- convergence ----------

  /** The report of a state nothing happens in. */
  function StillReport(b: Backend, full: bool, s: Store, c: Client, limit: int): Result<Report, Error> {
    SyncCollection(b, s, s, s, s, Request(c.token, limit, full))
  }

  lemma {:induction false} AnswerShowsIff(b: Backend, s: Store, req: Request, i: nat, k: Key)
    requires Good(s) && LastReportedAt(s.history, i, k)
    ensures BodyOf(b, req.includeData, Answer(b, req, s.rows, s.rows, s.history[i])) == BodyOf(b, req.includeData, Find(s.rows, k))
       <==> (Find(s.rows, k).Some? ==> Reads(b, req.includeData, k))
  {
    hide Find, HasObjectResponse, Good, Pending;
    if s.history[i].action == ObjectDeleted {
      DeletedIsGone(s, i, k);
    }
  }

  /** The changed objects that are still there could be read where the report needed to. */
  ghost predicate ReadsChanged(b: Backend, full: bool, s: Store, token: string, lost: iset<Key>) {
    forall k: Key | k !in lost && Pending(s.history, Position(s, token), k) && Find(s.rows, k).Some? :: Reads(b, full, k)
  }

  ghost predicate ShowsAll(b: Backend, full: bool, s: Store, mirror: map<Key, Body>, lost: iset<Key>) {
    forall k: Key | k !in lost :: Shows(b, full, s.rows, mirror, k)
  }

  lemma {:induction false} ChangesConvergeIff(b: Backend, full: bool, s: Store, c: Client, limit: int, lost: iset<Key>)
    requires Good(s) && s.live && c.token != "" && Lag(b, full, s, c, lost)
    requires SyncChanges(b, s, s, s, Request(c.token, limit, full)).Ok?
    ensures var c' := Synced(c, SyncChanges(b, s, s, s, Request(c.token, limit, full)));
            && s.history != [] && (c'.token == s.syncToken || c'.token == s.history[|s.history| - 1].syncToken)
            && (InLog(s, s.syncToken) ==> c'.token == s.syncToken)
            && (ShowsAll(b, full, s, c'.mirror, lost) <==> ReadsChanged(b, full, s, c.token, lost))
  {
    hide Good, SyncChanges, Reads, Receive, Answer, BodyOf, Find, HasObjectResponse, TrimSpace, Marker, View, Position, InLog, Start, Pending;
    var req := Request(c.token, limit, full);
    var c', p := Synced(c, SyncChanges(b, s, s, s, req)), Position(s, c.token);
    ChangesReceived(b, s, s, s, req, c.mirror);
    StartIs(s, c.token);
    PositionOfLogged(s, c.token);
    ListedToken(s, c.token);
    forall k: Key | k !in lost
      ensures Shows(b, full, s.rows, c'.mirror, k) <==> (Pending(s.history, p, k) && Find(s.rows, k).Some? ==> Reads(b, full, k))
    {
      assert Follows(b, req, s.history, p + 1, s.rows, s.rows, c.mirror, c'.mirror, k);
      if Pending(s.history, p, k) {
        var i: nat :| p + 1 <= i && LastReportedAt(s.history, i, k)
                 && Entry(c'.mirror, k) == BodyOf(b, full, Answer(b, req, s.rows, s.rows, s.history[i]));
        AnswerShowsIff(b, s, req, i, k);
      } else {
        assert Shows(b, full, s.rows, c.mirror, k);
      }
    }
  }

  /** In one state the listing starts right after the token's change. */
  lemma {:induction false} StartIs(s: Store, token: string)
    requires Good(s) && InLog(s, token)
    ensures ListedFrom(s, Marker(s.history, s.pruned, token)) == Start(s, s, token) == Position(s, token) + 1
  {
    hide Marker, Good, Position;
    PositionOfLogged(s, token);
  }

  /** Main result, convergence: once the transactions stop, a sync that succeeds leaves the client with the
      calendar's token, or with that of its last change where the current one has none yet; and with exactly its
      active objects, but for lost ones, if and only if every changed object that is still there could be read
      where the report looked it up one by one. */
  lemma {:induction false} SyncConvergesIff(b: Backend, full: bool, s: Store, c: Client, limit: int, lost: iset<Key>)
    requires Good(s) && s.live && Lag(b, full, s, c, lost) && limit <= MAX_REPORT && StillReport(b, full, s, c, limit).Ok?
    ensures var c' := Synced(c, StillReport(b, full, s, c, limit));
            && (c'.token == s.syncToken || (s.history != [] && c'.token == s.history[|s.history| - 1].syncToken))
            && (InLog(s, s.syncToken) ==> c'.token == s.syncToken)
            && (ShowsAll(b, full, s, c'.mirror, lost) <==> c.token == "" || ReadsChanged(b, full, s, c.token, lost))
  {
    hide Good, SyncChanges, ObjectResponses, Reads, Receive, Find, Shows, InLog, Pending, Position, View;
    if c.token == "" {
      var r := StillReport(b, full, s, c, limit);
      assert ObjectResponses(b, full, s.rows).Ok? && r.value.responses == ObjectResponses(b, full, s.rows).value;
      RowsAreDistinct(s);
      ObjectsReceived(b, full, s.rows);
    } else if c.token == s.syncToken {
      NothingReceived(c);
      CurrentIsLast(s);
    } else {
      ChangesConvergeIff(b, full, s, c, limit, lost);
    }
  }

  lemma {:induction false} CurrentIsLast(s: Store)
    requires Good(s) && s.live
    ensures Position(s, s.syncToken) < |View(s).history| && forall k: Key :: !Pending(s.history, Position(s, s.syncToken), k)
  {
    assert WellFormedHistory(View(s));
    hide Good, Marker, View, Pending, WellFormedHistory;
    CurrentPosition(s);
    MarkerIsUnique(View(s), 0, |View(s).history| - 1);
  }

  /** A client whose token is in the log of a live calendar, but is not current, is given a current one. */
  lemma {:induction false} ListedToken(s: Store, token: string)
    requires Good(s) && s.live && InLog(s, token)
    ensures s.history != []
    ensures InLog(s, s.syncToken) ==> s.history[|s.history| - 1].syncToken == s.syncToken
    ensures Start(s, s, token) == |s.history| ==> token == s.history[|s.history| - 1].syncToken
  {
    hide GoodChange, DeletedMeansGone, WellFormedRows, Marker;
  }

  /** Main result: a new client, after any run, is brought up to date by one undisturbed sync, but for the objects
      it lost; and it lost none if no sync of the run left an object unread. */
  lemma {:induction false} RunsConverge(b: Backend, full: bool, s: Store, es: seq<Event>, limit: int)
    requires Good(s) && PossibleRun(s, es) && limit <= MAX_REPORT && forall k: Key :: Reads(b, full, k)
    ensures var w := After(b, full, World(s, Client(map[], ""), iset{}), es);
            var r := StillReport(b, full, w.store, w.client, limit);
            && (r.Err? ==> Synced(w.client, r) == w.client)
            && (r.Ok? && w.store.live ==> ShowsAll(b, full, w.store, Synced(w.client, r).mirror, w.lost))
            && (ReadsEverything(b, full, World(s, Client(map[], ""), iset{}), es) ==> w.lost == iset{})
  {
    hide Good, Lag, Run, Fresh, SyncCollection, Reads, Apply, Shows, After, PossibleRun, ReadsEverything;
    var w0 := World(s, Client(map[], ""), iset{});
    NoTokenNoLag(b, full, s, w0.client, iset{});
    MirrorOnlyLags(b, full, w0, es);
    var w := After(b, full, w0, es);
    if w.store.live && StillReport(b, full, w.store, w.client, limit).Ok? {
      SyncConvergesIff(b, full, w.store, w.client, limit, w.lost);
    }
    if ReadsEverything(b, full, w0, es) {
      NothingLost(b, full, w0, es);
    }
  }

  /** Main result: a deleted calendar is not reported object by object, so a sync empties the mirror if and
      only if every object in it has a change of its own after the client's token. */
  lemma {:induction false} DeletedCalendarMirror(b: Backend, full: bool, s: Store, c: Client, limit: int)
    requires Good(s) && !s.live && GoodToken(c.token) && StillReport(b, full, s, c, limit).Ok?
    ensures Synced(c, StillReport(b, full, s, c, limit)).mirror == map[] <==> forall k | k in c.mirror :: Pending(s.history, Position(s, c.token), k)
  {
    hide Good, SyncChanges, Reads, Receive, HasObjectResponse, TrimSpace, Marker, InLog, Position, Pending;
    var req := Request(c.token, limit, full);
    var c', p := Synced(c, StillReport(b, full, s, c, limit)), Position(s, c.token);
    ChangesReceived(b, s, s, s, req, c.mirror);
    StartIs(s, c.token);
    PositionOfLogged(s, c.token);
    NoRows(s);
    forall k: Key ensures k in c'.mirror <==> k in c.mirror && !Pending(s.history, p, k) {
      assert Follows(b, req, s.history, Start(s, s, c.token), s.rows, s.rows, c.mirror, c'.mirror, k);
      if Pending(s.history, p, k) {
        var i: nat :| Start(s, s, c.token) <= i && LastReportedAt(s.history, i, k)
                 && Entry(c'.mirror, k) == BodyOf(b, full, Answer(b, req, s.rows, s.rows, s.history[i]));
        assert Answer(b, req, s.rows, s.rows, s.history[i]).None?;
      } else {
        assert Entry(c'.mirror, k) == Entry(c.mirror, k);
      }
    }
    if forall k | k in c.mirror :: Pending(s.history, p, k) {
      assert forall k :: k !in c'.mirror;
    }
  }

  lemma {:induction false} NoRows(s: Store)
    requires Good(s) && !s.live
    ensures s.rows == []
  {
  }

  // ---------- when a pruning between the two statements does harm ----------

  /** The client's entry for the object stays as it was and can be wrong: all its changes after the token were
      pruned before the listing, it has not changed since, and it changed before the lookup of the token or looks
      different from then. */
  ghost predicate Missed(b: Backend, full: bool, sm: Store, s2: Store, s3: Store, token: string, k: Key) {
    && Unread(sm, s2, token, k) && !Pending(s3.history, |s2.history| - 1, k)
    && (Pending(sm.history, Marker(sm.history, sm.pruned, token), k) || BodyOf(b, full, Find(sm.rows, k)) != BodyOf(b, full, Find(s3.rows, k)))
  }

  /** A mirror that shows these rows. */
  function MirrorOf(b: Backend, full: bool, rows: seq<Row>): map<Key, Body> {
    if rows == [] then map[] else MirrorOf(b, full, rows[1..])[rows[0].key := BodyOf(b, full, Some(rows[0])).value]
  }

  lemma {:induction false} MirrorShows(b: Backend, full: bool, rows: seq<Row>, k: Key)
    ensures Shows(b, full, rows, MirrorOf(b, full, rows), k)
  {
    if rows != [] {
      MirrorShows(b, full, rows[1..], k);
    }
  }

  /** An entry that is wrong for these rows. */
  function Wrong(b: Backend, full: bool, mirror: map<Key, Body>, rows: seq<Row>, k: Key): map<Key, Body> {
    if Find(rows, k).None? then mirror[k := Body("", None)] else mirror - {k}
  }

  lemma {:induction false} WrongIsWrong(b: Backend, full: bool, mirror: map<Key, Body>, rows: seq<Row>, k: Key)
    ensures !Shows(b, full, rows, Wrong(b, full, mirror, rows, k), k)
    ensures forall l: Key :: l != k ==> Entry(Wrong(b, full, mirror, rows, k), l) == Entry(mirror, l)
  {
    hide Find;
  }

  ghost predicate SafeFor(b: Backend, full: bool, sm: Store, s2: Store, s3: Store, req: Request, mirror: map<Key, Body>) {
    var c := Client(mirror, req.syncToken);
    Lag(b, full, sm, c, iset{}) ==> Lag(b, full, s3, Synced(c, SyncChanges(b, sm, s2, s3, req)), iset{})
  }

  /** Where the token of a report that listed changes stands later. */
  lemma {:induction false} ReportPosition(b: Backend, sm: Store, s2: Store, s3: Store, req: Request)
    requires Good(s2) && Good(s3) && Later(s2, s3) && s3.live && GoodToken(req.syncToken) && SyncChanges(b, sm, s2, s3, req).Ok?
    requires Start(sm, s2, req.syncToken) < |s2.history|
    ensures var token := SyncChanges(b, sm, s2, s3, req).value.syncToken;
            && GoodToken(token) && token in s3.issued && token != ""
            && Position(s3, token) == |s2.history| - 1 < |View(s3).history|
  {
    hide SyncChanges, Marker, ListedFrom, Find, Pending, DeletedMeansGone, WellFormedRows, WithMarker;
    ReportParts(b, sm, s2, s3, req);
    ViewKeeps(s2);
    ViewKeeps(s3);
    var e := |s2.history| - 1;
    var u := View(s3).history;
    assert u[e] == View(s2).history[e] == s2.history[e];
    assert GoodChange(View(s2), View(s2).history[e]);
    MarkerIsUnique(View(s3), 0, e);
  }

  /** Where the log is not empty, an unread object leaves something else listed. */
  lemma {:induction false} UnreadLeavesListing(sm: Store, s2: Store, token: string, k: Key)
    requires s2.pruned < |s2.history| && Unread(sm, s2, token, k)
    ensures Start(sm, s2, token) < |s2.history|
  {
    hide Marker, HasObjectResponse;
  }

  lemma {:induction false} NotMissedIsSafe(b: Backend, full: bool, sm: Store, s2: Store, s3: Store, req: Request, mirror: map<Key, Body>)
    requires Good(sm) && Good(s2) && Good(s3) && Later(sm, s2) && Later(s2, s3) && s3.live && s2.pruned < |s2.history|
    requires req.includeData == full && GoodToken(req.syncToken) && SyncChanges(b, sm, s2, s3, req).Ok? && forall k: Key :: Reads(b, full, k)
    requires Lag(b, full, sm, Client(mirror, req.syncToken), iset{})
    requires forall k: Key :: !Missed(b, full, sm, s2, s3, req.syncToken, k)
    ensures Lag(b, full, s3, Synced(Client(mirror, req.syncToken), SyncChanges(b, sm, s2, s3, req)), iset{})
  {
    hide Good, Later, SyncChanges, Reads, Receive, Find, BodyOf, Marker, Pending, View, Position, Follows, Listed, ListedFrom, TrimSpace, InLog;
    var token := req.syncToken;
    var c := Client(mirror, token);
    var c' := Synced(c, SyncChanges(b, sm, s2, s3, req));
    ChangesKeepLag(b, sm, s2, s3, req, c, iset{});
    ChangesReceived(b, sm, s2, s3, req, mirror);
    forall k: Key | Unread(sm, s2, token, k) && Position(s3, c'.token) < |View(s3).history|
      ensures Shows(b, full, s3.rows, c'.mirror, k) || Pending(s3.history, Position(s3, c'.token), k)
    {
      UnreadLeavesListing(sm, s2, token, k);
      ReportPosition(b, sm, s2, s3, req);
      if !Pending(s3.history, |s2.history| - 1, k) {
        assert !Missed(b, full, sm, s2, s3, token, k);
        PositionOfLogged(sm, token);
        LiveBefore(s2, s3);
        LiveBefore(sm, s2);
        assert Shows(b, full, sm.rows, mirror, k);
        assert Follows(b, req, s2.history, Start(sm, s2, token), s2.rows, s3.rows, mirror, c'.mirror, k);
        UnreadStays(b, req, sm, s2, s3, mirror, c'.mirror, k);
      }
    }
  }

  lemma {:induction false} UnreadStays(b: Backend, req: Request, sm: Store, s2: Store, s3: Store, mirror: map<Key, Body>, mirror': map<Key, Body>, k: Key)
    requires Unread(sm, s2, req.syncToken, k)
    requires Follows(b, req, s2.history, Start(sm, s2, req.syncToken), s2.rows, s3.rows, mirror, mirror', k)
    ensures Entry(mirror', k) == Entry(mirror, k)
  {
    hide Pending, Marker, ListedFrom, Answer, BodyOf;
  }

  /** A client that lags in `sm`, with an entry that is not right for `s3`. */
  lemma {:induction false} WrongClient(b: Backend, full: bool, sm: Store, s3: Store, token: string, k: Key) returns (mirror: map<Key, Body>)
    requires Good(sm) && GoodToken(token) && InLog(sm, token)
    requires Pending(sm.history, Marker(sm.history, sm.pruned, token), k) || BodyOf(b, full, Find(sm.rows, k)) != BodyOf(b, full, Find(s3.rows, k))
    ensures Lag(b, full, sm, Client(mirror, token), iset{}) && !Shows(b, full, s3.rows, mirror, k)
  {
    hide Good, Find, BodyOf, Marker, Pending, View, Position, MirrorOf, Wrong, TrimSpace, InLog;
    var right := MirrorOf(b, full, sm.rows);
    forall l: Key ensures Shows(b, full, sm.rows, right, l) {
      MirrorShows(b, full, sm.rows, l);
    }
    PositionOfLogged(sm, token);
    LoggedIsIssued(sm, token);
    if Pending(sm.history, Marker(sm.history, sm.pruned, token), k) {
      mirror := Wrong(b, full, right, s3.rows, k);
      WrongIsWrong(b, full, right, s3.rows, k);
      forall l: Key | l != k ensures Shows(b, full, sm.rows, mirror, l) {
        assert Shows(b, full, sm.rows, right, l);
      }
    } else {
      mirror := right;
      assert Shows(b, full, sm.rows, right, k);
    }
  }

  lemma {:induction false} MissedHarms(b: Backend, full: bool, sm: Store, s2: Store, s3: Store, req: Request, k: Key) returns (mirror: map<Key, Body>)
    requires Good(sm) && Good(s2) && Good(s3) && Later(s2, s3) && s3.live && s2.pruned < |s2.history|
    requires req.includeData == full && GoodToken(req.syncToken) && SyncChanges(b, sm, s2, s3, req).Ok?
    requires Missed(b, full, sm, s2, s3, req.syncToken, k)
    ensures Lag(b, full, sm, Client(mirror, req.syncToken), iset{})
    ensures !Lag(b, full, s3, Synced(Client(mirror, req.syncToken), SyncChanges(b, sm, s2, s3, req)), iset{})
  {
    hide Good, Later, SyncChanges, Receive, Find, BodyOf, Marker, Pending, View, Position, Follows, Listed, ListedFrom, TrimSpace, InLog;
    var token := req.syncToken;
    ReportParts(b, sm, s2, s3, req);
    mirror := WrongClient(b, full, sm, s3, token, k);
    var c' := Synced(Client(mirror, token), SyncChanges(b, sm, s2, s3, req));
    ChangesReceived(b, sm, s2, s3, req, mirror);
    assert Follows(b, req, s2.history, Start(sm, s2, token), s2.rows, s3.rows, mirror, c'.mirror, k);
    UnreadStays(b, req, sm, s2, s3, mirror, c'.mirror, k);
    UnreadLeavesListing(sm, s2, token, k);
    ReportPosition(b, sm, s2, s3, req);
    assert !Shows(b, full, s3.rows, c'.mirror, k);
  }

  lemma {:induction false} LiveBefore(s: Store, t: Store)
    requires Later(s, t) && t.live
    ensures s.live
  {
  }

  lemma {:induction false} LoggedIsIssued(s: Store, token: string)
    requires Good(s) && InLog(s, token)
    ensures token in s.issued
  {
    hide Marker, GoodToken, DeletedMeansGone, WellFormedRows, Pending, WithMarker;
    ViewKeeps(s);
    assert GoodChange(View(s), View(s).history[Marker(s.history, s.pruned, token)]);
  }

  /** Main result, exact: a report of changes keeps every client that only lags in that state if and only if no
      object is missed. */
  lemma {:induction false} SyncIsSafeIff(b: Backend, full: bool, sm: Store, s2: Store, s3: Store, req: Request)
    requires Good(sm) && Good(s2) && Good(s3) && Later(sm, s2) && Later(s2, s3) && s3.live && s2.pruned < |s2.history|
    requires req.includeData == full && GoodToken(req.syncToken) && SyncChanges(b, sm, s2, s3, req).Ok? && forall k: Key :: Reads(b, full, k)
    ensures (forall mirror: map<Key, Body> :: SafeFor(b, full, sm, s2, s3, req, mirror)) <==> forall k: Key :: !Missed(b, full, sm, s2, s3, req.syncToken, k)
  {
    hide Good, Later, SyncChanges, Lag, Missed, Reads;
    if forall k: Key :: !Missed(b, full, sm, s2, s3, req.syncToken, k) {
      forall mirror: map<Key, Body> ensures SafeFor(b, full, sm, s2, s3, req, mirror) {
        if Lag(b, full, sm, Client(mirror, req.syncToken), iset{}) {
          NotMissedIsSafe(b, full, sm, s2, s3, req, mirror);
        }
      }
    } else {
      var k: Key :| Missed(b, full, sm, s2, s3, req.syncToken, k);
      var mirror := MissedHarms(b, full, sm, s2, s3, req, k);
      assert !SafeFor(b, full, sm, s2, s3, req, mirror);
    }
  }

  // ---------- the two kinds of store ----------

  /** Some change names an object that has no path, so that both kinds of store refuse the report. */
  predicate Unlinkable(b: Backend, cs: seq<Change>) {
    cs != [] && (!b.linkable(KeyOf(cs[0])) || Unlinkable(b, cs[1..]))
  }

  /** The plain store looks the object up one by one and cannot read it, where the joined store has it. */
  predicate Misread(b: Backend, rows: seq<Row>, c: Change) {
    c.action != ObjectDeleted && b.unreadable(KeyOf(c)) && Find(rows, KeyOf(c)).Some?
  }

  predicate AnyMisread(b: Backend, rows: seq<Row>, cs: seq<Change>) {
    cs != [] && (Misread(b, rows, cs[0]) || AnyMisread(b, rows, cs[1..]))
  }

  /** When the kind of store makes no difference to the answers. */
  predicate SameAnswers(b: Backend, req: Request, rows: seq<Row>, cs: seq<Change>) {
    if b.batch then !b.batchFails || cs == [] || AnyLookedUp(b.(joined := true), req, rows, cs)
    else req.includeData || Unlinkable(b, cs) || !AnyMisread(b, rows, cs)
  }

  /** Main result: on one state both kinds of store give the same report, or the same error, if and only if the
      report is refused before any answer, or the kind of store makes no difference to the answers. */
  lemma {:induction false} JoinedAndPlainAgreeIff(b: Backend, s: Store, req: Request)
    ensures var fetched := ChangesSince(s, s, req.syncToken, MAX_REPORT + 1);
            var refused := fetched.Err? || |fetched.value| > MAX_REPORT || |Coalesced(fetched.value, Itself)| > ReportLimit(req.limit);
            SyncChanges(b.(joined := true), s, s, s, req) == SyncChanges(b.(joined := false), s, s, s, req)
            <==> refused || SameAnswers(b, req, s.rows, Coalesced(fetched.value, Itself))
  {
    assert forall cs: seq<Change> :: AnyLookedUp(b.(joined := false), req, s.rows, cs) <==> cs != [];
    hide Coalesced, LastToken, ChangeResponses, TrimSpace, Unlinkable, AnyMisread, InLog, ListedFrom;
    var fetched := ChangesSince(s, s, req.syncToken, MAX_REPORT + 1);
    if fetched.Ok? {
      var cs := Coalesced(fetched.value, Itself);
      ResponsesAgreeIff(b, req, s.rows, cs);
      ResponsesFail(b.(joined := true), req, s.rows, s.rows, cs);
    }
  }

  lemma {:induction false} ResponsesAgreeIff(b: Backend, req: Request, rows: seq<Row>, cs: seq<Change>)
    ensures ChangeResponses(b.(joined := true), req, rows, rows, cs) == ChangeResponses(b.(joined := false), req, rows, rows, cs)
       <==> b.batch || req.includeData || Unlinkable(b, cs) || !AnyMisread(b, rows, cs)
  {
    hide Find;
    if cs != [] {
      ResponsesAgreeIff(b, req, rows, cs[1..]);
      var j, p := ChangeResponses(b.(joined := true), req, rows, rows, cs[1..]), ChangeResponses(b.(joined := false), req, rows, rows, cs[1..]);
      ResponsesFail(b.(joined := true), req, rows, rows, cs[1..]);
      ResponsesFail(b.(joined := false), req, rows, rows, cs[1..]);
      if j.Ok? && p.Ok? {
        ConsTells(Respond(b, req.includeData, KeyOf(cs[0]), Answer(b.(joined := true), req, rows, rows, cs[0])),
                  Respond(b, req.includeData, KeyOf(cs[0]), Answer(b.(joined := false), req, rows, rows, cs[0])), j.value, p.value);
      }
    }
  }

  /** Without calendar data only a missing path fails a report. */
  lemma {:induction false} ResponsesFail(b: Backend, req: Request, rows2: seq<Row>, rows3: seq<Row>, cs: seq<Change>)
    ensures var r := ChangeResponses(b, req, rows2, rows3, cs);
            (r.Err? ==> r.error == Unrenderable) && (!req.includeData ==> (r.Err? <==> Unlinkable(b, cs)))
  {
    hide Answer, BodyOf;
    if cs != [] {
      ResponsesFail(b, req, rows2, rows3, cs[1..]);
    }
  }

  lemma {:induction false} ConsTells(x: Result<Response, Error>, y: Result<Response, Error>, s: seq<Response>, t: seq<Response>)
    ensures x.Ok? && y.Ok? ==> ([x.value] + s == [y.value] + t <==> x == y && s == t)
  {
    if x.Ok? && y.Ok? {
      assert ([x.value] + s)[0] == x.value && ([x.value] + s)[1..] == s;
      assert ([y.value] + t)[0] == y.value && ([y.value] + t)[1..] == t;
    }
  }
}
