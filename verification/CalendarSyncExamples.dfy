/** Small runs in which a sync client ends up with a wrong mirror. */
module CalendarSyncExamples {
  import opened Wrappers
  import opened Text
  import opened Coalesce
  import opened CalendarStore
  import opened CalendarSync

  /** Any tokens and object names will do. */
  datatype Names = Names(t0: string, t1: string, t2: string, x: string, y: string)

  predicate Usable(n: Names) {
    && (forall t | t in [n.t0, n.t1, n.t2] :: GoodToken(t) && |t| <= 128 && '\r' !in t && '\n' !in t)
    && n.t0 != n.t1 && n.t0 != n.t2 && n.t1 != n.t2
    && TrimSpace(n.x) != "" && TrimSpace(n.y) != "" && n.x != n.y
  }

  function Object(name: string): Row {
    Row(Key("c", name), "VEVENT", "e", "i")
  }

  function Upserted(name: string, token: string): Change {
    Change("c", name, ObjectUpserted, token)
  }

  /** A calendar with two objects, of which the first `pruned` changes are gone. */
  function TwoObjects(n: Names, pruned: nat): Store
    requires pruned <= 3
  {
    Store("c", [Object(n.y), Object(n.x)], [Change("c", "", CollectionCreated, n.t0), Upserted(n.x, n.t1), Upserted(n.y, n.t2)],
          pruned, n.t2, true, {n.t0, n.t1, n.t2})
  }

  function OneObject(n: Names): Store {
    Store("c", [Object(n.x)], [Change("c", "", CollectionCreated, n.t0), Upserted(n.x, n.t1)], 0, n.t1, true, {n.t0, n.t1})
  }

  function Deleted(n: Names): Store {
    Store("c", [], [Change("c", "", CollectionCreated, n.t0), Upserted(n.x, n.t1), Change("c", "", CollectionDeleted, n.t2)],
          0, n.t1, false, {n.t0, n.t1, n.t2})
  }

  /** A store that can do nothing wrong, and one whose lookup reads nothing. */
  const SOUND := Backend(true, true, true, false, (k: Key) => false, (k: Key) => true, (ics: string) => Some(ics))
  const BLIND := SOUND.(joined := false, batch := false, unreadable := (k: Key) => true)

  lemma {:induction false} SelectShort(cs: seq<Change>, n: nat, i: nat)
    requires i <= n <= |cs|
    ensures |Select(cs, Itself, n, i)| <= n - i
    decreases n - i
  {
    hide Kept;
    if i < n {
      SelectShort(cs, n, i + 1);
    }
  }

  /** A short listing, without calendar data, of objects that have a path is never refused. */
  lemma {:induction false} ShortReportSucceeds(b: Backend, sm: Store, s2: Store, s3: Store, req: Request)
    requires b in {SOUND, BLIND} && !req.includeData && req.limit <= 0
    requires InLog(sm, TrimSpace(req.syncToken)) && |s2.history| <= 3
    requires GoodToken(req.syncToken) && |req.syncToken| <= 128 && '\r' !in req.syncToken && '\n' !in req.syncToken
    ensures SyncChanges(b, sm, s2, s3, req).Ok?
  {
    hide Coalesced, ChangeResponses, LastToken, TrimSpace, AnyLookedUp, InLog, ListedFrom;
    var fetched := ChangesSince(sm, s2, req.syncToken, MAX_REPORT + 1);
    var cs := Coalesced(fetched.value, Itself);
    assert |cs| <= 3 by { CoalescedShort(fetched.value); }
    ResponsesFail(b, req, s2.rows, s3.rows, cs);
    AllLinkable(b, cs);
  }

  lemma {:induction false} CoalescedShort(cs: seq<Change>)
    ensures |Coalesced(cs, Itself)| <= |cs|
  {
    SelectShort(cs, |cs|, 0);
  }

  lemma {:induction false} AllLinkable(b: Backend, cs: seq<Change>)
    requires b in {SOUND, BLIND}
    ensures !Unlinkable(b, cs)
  {
    if cs != [] {
      AllLinkable(b, cs[1..]);
    }
  }

  /** A history in which each change brings its own token. */
  lemma {:induction false} MarkersOf(history: seq<Change>, i: nat)
    requires i < |history| && forall j, k | 0 <= j < k < |history| :: history[j].syncToken != history[k].syncToken
    ensures Marker(history, 0, history[i].syncToken) == i && forall from: nat | from <= i :: Marker(history, from, history[i].syncToken) == i
  {
    hide Marker;
  }

  lemma {:induction false} TwoPending(n: Names, pruned: nat)
    requires Usable(n) && pruned <= 2
    ensures var h := TwoObjects(n, pruned).history; forall p: nat, k: Key :: Pending(h, p, k) <==> (p == 0 && k == Key("c", n.x)) || (p <= 1 && k == Key("c", n.y))
  {
    hide TrimSpace, GoodToken;
    var h := TwoObjects(n, pruned).history;
    assert Reported(h, 1, Key("c", n.x)) && Reported(h, 2, Key("c", n.y));
    forall i, k: Key | 0 <= i < 3 && Reported(h, i, k) ensures (i == 1 && k == Key("c", n.x)) || (i == 2 && k == Key("c", n.y)) {}
  }

  /** The stores of the examples are good, and tokens stand where they were logged. */
  lemma {:induction false} TwoObjectsIsGood(n: Names, pruned: nat)
    requires Usable(n) && pruned <= 2
    ensures var s := TwoObjects(n, pruned); View(s) == s && Good(s) && Position(s, n.t0) == 0 && Position(s, n.t2) == 2
    ensures Marker(TwoObjects(n, 0).history, 0, n.t0) == 0
    ensures var h := TwoObjects(n, pruned).history; forall p: nat, k: Key :: Pending(h, p, k) <==> (p == 0 && k == Key("c", n.x)) || (p <= 1 && k == Key("c", n.y))
  {
    hide TrimSpace, Marker, GoodToken, Pending;
    var s := TwoObjects(n, pruned);
    var h := s.history;
    assert h[0].syncToken == n.t0 && h[1].syncToken == n.t1 && h[2].syncToken == n.t2;
    TwoPending(n, pruned);
    MarkersOf(h, 0);
    MarkersOf(h, 2);
    assert GoodToken(n.t0) && GoodToken(n.t1) && GoodToken(n.t2);
    assert WellFormedHistory(s) && WellFormedRows(s) && DeletedMeansGone(s);
  }

  lemma {:induction false} TwoFound(n: Names)
    requires n.x != n.y
    ensures var rows := TwoObjects(n, 0).rows;
            && Find(rows, Key("c", n.x)) == Some(Object(n.x)) && Find(rows, Key("c", n.y)) == Some(Object(n.y))
            && forall k: Key :: k != Key("c", n.x) && k != Key("c", n.y) ==> Find(rows, k).None?
  {
    var rows := TwoObjects(n, 0).rows;
    assert rows[1..] == [Object(n.x)];
    forall k: Key | k != Key("c", n.x) && k != Key("c", n.y) ensures Find(rows, k).None? {
      assert Find(rows[1..], k).None?;
    }
  }

  /** What the client makes of a report whose listing ran after the pruning. */
  lemma {:induction false} PrunedReport(n: Names)
    requires Usable(n)
    ensures var s, s', c := TwoObjects(n, 0), TwoObjects(n, 2), Client(map[], n.t0);
            var r := SyncChanges(SOUND, s, s', s', Request(n.t0, 0, false));
            && Good(s) && Good(s') && r.Ok? && Synced(c, r).token == n.t2
            && Key("c", n.y) in Synced(c, r).mirror && Key("c", n.x) !in Synced(c, r).mirror
  {
    hide TrimSpace, Coalesced, SyncChanges, Receive, Pending, Good, Position, View, Find;
    var s, s', c, req := TwoObjects(n, 0), TwoObjects(n, 2), Client(map[], n.t0), Request(n.t0, 0, false);
    var x, y := Key("c", n.x), Key("c", n.y);
    TwoObjectsIsGood(n, 0);
    TwoObjectsIsGood(n, 2);
    TwoFound(n);
    ShortReportSucceeds(SOUND, s, s', s', req);
    ChangesReceived(SOUND, s, s', s', req, map[]);
    assert Start(s, s', n.t0) == 2;
    var m := Synced(c, SyncChanges(SOUND, s, s', s', req)).mirror;
    assert Follows(SOUND, req, s'.history, 2, s'.rows, s'.rows, map[], m, x);
    assert x !in m;
    assert Follows(SOUND, req, s'.history, 2, s'.rows, s'.rows, map[], m, y);
    assert Pending(s'.history, 1, y);
    assert y in m;
  }

  /** Main result: the log is pruned between the lookup of the token and the listing. The client then holds `y`
      and the current token, and lacks `x`, of which it will not be told. */
  lemma {:induction false} PruningLosesObject(n: Names)
    requires Usable(n)
    ensures var s, s', c := TwoObjects(n, 0), TwoObjects(n, 2), Client(map[], n.t0);
            var r := SyncCollection(SOUND, s, s, s', s', Request(n.t0, 0, false));
            && Good(s) && s' == Apply(s, Prune(2)) && Lag(SOUND, false, s, c, iset{}) && r.Ok?
            && Synced(c, r).token == s'.syncToken
            && Key("c", n.y) in Synced(c, r).mirror && Key("c", n.x) !in Synced(c, r).mirror && Find(s'.rows, Key("c", n.x)).Some?
            && !Lag(SOUND, false, s', Synced(c, r), iset{})
  {
    hide TrimSpace, Coalesced, SyncChanges, Receive, Pending, Good, Position, View, Synced, Find;
    var s, s', c := TwoObjects(n, 0), TwoObjects(n, 2), Client(map[], n.t0);
    TwoObjectsIsGood(n, 0);
    TwoObjectsIsGood(n, 2);
    TwoFound(n);
    PrunedReport(n);
    var c' := Synced(c, SyncChanges(SOUND, s, s', s', Request(n.t0, 0, false)));
    assert !Shows(SOUND, false, s'.rows, c'.mirror, Key("c", n.x));
  }

  lemma {:induction false} OnePending(n: Names)
    requires Usable(n)
    ensures forall k: Key :: Pending(OneObject(n).history, 0, k) <==> k == Key("c", n.x)
    ensures forall k: Key :: !Pending(Deleted(n).history, 1, k)
  {
    hide TrimSpace, GoodToken;
    var (h, d) := (OneObject(n).history, Deleted(n).history);
    assert Reported(h, 1, Key("c", n.x)) && Reported(d, 1, Key("c", n.x));
    forall i, k: Key | 0 <= i < 2 && Reported(h, i, k) ensures i == 1 && k == Key("c", n.x) {}
    forall i, k: Key | 0 <= i < 3 && Reported(d, i, k) ensures i == 1 && k == Key("c", n.x) {}
  }

  /** The stores with one object, and without the calendar, are good. */
  lemma {:induction false} OneObjectIsGood(n: Names)
    requires Usable(n)
    ensures var s := OneObject(n); View(s) == s && Good(s) && Position(s, n.t0) == 0 && InLog(s, n.t0) && InLog(s, n.t1)
  {
    hide TrimSpace, Marker, GoodToken, Pending;
    var s := OneObject(n);
    assert s.history[0].syncToken == n.t0 && s.history[1].syncToken == n.t1;
    MarkersOf(s.history, 0);
    MarkersOf(s.history, 1);
    assert GoodToken(n.t0) && GoodToken(n.t1);
  }

  lemma {:induction false} DeletedIsGood(n: Names)
    requires Usable(n)
    ensures var s := Deleted(n); View(s) == s && Good(s) && Position(s, n.t1) == 1 && InLog(s, n.t1)
  {
    hide TrimSpace, Marker, GoodToken, Pending;
    var s := Deleted(n);
    assert s.history[0].syncToken == n.t0 && s.history[1].syncToken == n.t1 && s.history[2].syncToken == n.t2;
    MarkersOf(s.history, 1);
    assert GoodToken(n.t0) && GoodToken(n.t1) && GoodToken(n.t2);
  }

  /** Nothing happens during the sync, and still the client is left with the current token and without an object
      that the store's one-by-one lookup could not read. */
  lemma {:induction false} UnreadableIsDropped(n: Names)
    requires Usable(n)
    ensures var s, c := OneObject(n), Client(map[], n.t0);
            var r := StillReport(BLIND, false, s, c, 0);
            && Good(s) && Lag(BLIND, false, s, c, iset{}) && r.Ok? && Synced(c, r).token == s.syncToken
            && !ShowsAll(BLIND, false, s, Synced(c, r).mirror, iset{})
  {
    hide TrimSpace, Coalesced, SyncChanges, Receive, Pending, Good, Position, View;
    var s, c, x := OneObject(n), Client(map[], n.t0), Key("c", n.x);
    OneObjectIsGood(n);
    OnePending(n);
    forall k: Key | k != x ensures Find(s.rows, k).None? {}
    assert Find(s.rows, x).Some?;
    assert Lag(BLIND, false, s, c, iset{});
    ShortReportSucceeds(BLIND, s, s, s, Request(n.t0, 0, false));
    SyncConvergesIff(BLIND, false, s, c, 0, iset{});
    assert !Reads(BLIND, false, x);
  }

  /** The calendar is deleted, and a client that mirrors an object of it keeps the object. */
  lemma {:induction false} DeletedCalendarStays(n: Names)
    requires Usable(n)
    ensures var s, x := Deleted(n), Key("c", n.x);
            var c := Client(map[x := Body("e", None)], n.t1);
            var r := StillReport(SOUND, false, s, c, 0);
            && Good(s) && !s.live && r.Ok? && Synced(c, r).mirror == c.mirror && Synced(c, r).token == n.t2
  {
    hide TrimSpace, Coalesced, SyncChanges, Receive, Pending, Good, Position, View, Follows;
    var s, x, req := Deleted(n), Key("c", n.x), Request(n.t1, 0, false);
    var c := Client(map[x := Body("e", None)], n.t1);
    DeletedIsGood(n);
    OnePending(n);
    ShortReportSucceeds(SOUND, s, s, s, req);
    ChangesReceived(SOUND, s, s, s, req, c.mirror);
    StartIs(s, n.t1);
    var m := Synced(c, SyncChanges(SOUND, s, s, s, req)).mirror;
    forall k: Key ensures k in m <==> k in c.mirror && (k in m ==> m[k] == c.mirror[k]) {
      assert Follows(SOUND, req, s.history, 2, s.rows, s.rows, c.mirror, m, k);
      NothingPending(SOUND, req, s, c.mirror, m, k);
    }
  }

  lemma {:induction false} NothingPending(b: Backend, req: Request, s: Store, m: map<Key, Body>, m': map<Key, Body>, k: Key)
    requires Follows(b, req, s.history, 2, s.rows, s.rows, m, m', k) && !Pending(s.history, 1, k)
    ensures CalendarSync.Entry(m', k) == CalendarSync.Entry(m, k)
  {
    hide Pending, Answer, BodyOf;
  }
}
