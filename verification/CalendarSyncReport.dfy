/** The handler of the sync-collection report, step by step. */
module CalendarSyncReport {
  import opened Wrappers
  import opened Text
  import opened Coalesce
  import opened CalendarStore
  import opened CalendarSync

  /** A change with the object it names, when that is active. */
  datatype Item = Item(change: Change, row: Option<Row>)

  function ChangeOf(item: Item): Change {
    item.change
  }

  /** The joined query. */
  function JoinRows(rows: seq<Row>, cs: seq<Change>): (items: seq<Item>)
    ensures |items| == |cs| && forall i | 0 <= i < |cs| :: items[i] == Item(cs[i], Find(rows, KeyOf(cs[i])))
  {
    if cs == [] then [] else [Item(cs[0], Find(rows, KeyOf(cs[0])))] + JoinRows(rows, cs[1..])
  }

  // ---------- looking objects up by name ----------

  predicate Requested(requested: map<string, seq<string>>, k: Key) {
    k.calendarID in requested && k.objectName in requested[k.calendarID]
  }

  function ObjectsByNames(rows: seq<Row>, calendarID: string, names: seq<string>): seq<Row> {
    if rows == [] then []
    else (if rows[0].key.calendarID == calendarID && rows[0].key.objectName in names then [rows[0]] else [])
         + ObjectsByNames(rows[1..], calendarID, names)
  }

  function ObjectsByNameGroups(rows: seq<Row>, requested: map<string, seq<string>>): seq<Row> {
    if rows == [] then []
    else (if Requested(requested, rows[0].key) then [rows[0]] else []) + ObjectsByNameGroups(rows[1..], requested)
  }

  predicate Distinct(rows: seq<Row>) {
    forall i, j | 0 <= i < j < |rows| :: rows[i].key != rows[j].key
  }

  /** The map holds the rows of the keys in `ks`, and nothing else. */
  ghost predicate Holds(objects: map<Key, Row>, rows: seq<Row>, ks: iset<Key>) {
    forall k: Key :: Filed(objects, k) == if k in ks then Find(rows, k) else None
  }

  predicate Among(found: seq<Row>, k: Key) {
    exists i :: 0 <= i < |found| && found[i].key == k
  }

  /** `found` are the rows of the keys in `ks`. */
  ghost predicate Selected(found: seq<Row>, rows: seq<Row>, ks: iset<Key>) {
    && (forall i | 0 <= i < |found| :: Find(rows, found[i].key) == Some(found[i]))
    && forall k: Key :: Among(found, k) <==> k in ks && Find(rows, k).Some?
  }

  lemma {:induction false} AmongAppend(found: seq<Row>, i: nat)
    requires i < |found|
    ensures forall k: Key :: Among(found[..i + 1], k) <==> Among(found[..i], k) || k == found[i].key
  {
    forall k: Key | Among(found[..i], k) || k == found[i].key ensures Among(found[..i + 1], k) {
      if j :| 0 <= j < |found[..i]| && found[..i][j].key == k {
        assert found[..i + 1][j].key == k;
      } else {
        assert found[..i + 1][i].key == k;
      }
    }
  }

  lemma {:induction false} AmongPrepend(row: Row, rest: seq<Row>)
    ensures forall k: Key :: Among([row] + rest, k) <==> k == row.key || Among(rest, k)
  {
    var found := [row] + rest;
    assert found[0] == row;
    forall k: Key | k == row.key || Among(rest, k) ensures Among(found, k) {
      if j :| 0 <= j < |rest| && rest[j].key == k {
        assert found[j + 1].key == k;
      }
    }
  }

  function Filed(objects: map<Key, Row>, k: Key): Option<Row> {
    if k in objects then Some(objects[k]) else None
  }

  method LookupObjectsByNames(b: Backend, rows: seq<Row>, requested: map<string, seq<string>>) returns (r: Result<map<Key, Row>, Error>)
    requires Distinct(rows)
    ensures var crossed, named := |requested| > 1 && b.crossBatch, exists id :: id in requested && requested[id] != [];
            && (r.Err? <==> b.batchFails && (crossed || (b.batch && named)))
            && (r.Err? ==> r.error == LookupFailed)
            && (r.Ok? ==> Holds(r.value, rows, iset k: Key | Requested(requested, k) && (crossed || b.batch || !b.unreadable(k))))
  {
    hide Find, ObjectsByNames, ObjectsByNameGroups, Distinct;
    var objects: map<Key, Row> := map[];
    if |requested| == 0 {
      assert requested == map[];
      return Ok(objects);
    }
    if |requested| > 1 && b.crossBatch {
      if b.batchFails { return Err(LookupFailed); }
      NamedByGroups(rows, requested);
      objects := Collect(objects, ObjectsByNameGroups(rows, requested), rows, iset{}, iset k: Key | Requested(requested, k));
      return Ok(objects);
    }
    var left := requested.Keys;
    ghost var done: iset<Key> := iset{};
    while left != {}
      invariant left <= requested.Keys
      invariant b.batch && b.batchFails ==> forall id | id in requested && id !in left :: requested[id] == []
      invariant Holds(objects, rows, done)
      invariant forall k: Key :: k in done <==> k.calendarID !in left && Requested(requested, k) && (b.batch || !b.unreadable(k))
      decreases |left|
    {
      var id :| id in left;
      var names := requested[id];
      left := left - {id};
      if b.batch {
        if names != [] {
          if b.batchFails { return Err(LookupFailed); }
          NamedByNames(rows, id, names);
          ghost var ks := iset k: Key | k.calendarID == id && k.objectName in names;
          objects := Collect(objects, ObjectsByNames(rows, id, names), rows, done, ks);
          done := done + ks;
        }
      } else {
        ghost var before := done;
        for i := 0 to |names|
          invariant Holds(objects, rows, done)
          invariant forall k: Key :: k in done <==> k in before || (k.calendarID == id && k.objectName in names[..i] && !b.unreadable(k))
        {
          var k := Key(id, names[i]);
          var row := if b.unreadable(k) then None else Find(rows, k);
          if row.Some? {
            objects := objects[k := row.value];
          }
          if !b.unreadable(k) {
            done := done + iset{k};
          }
        }
      }
    }
    assert done == iset k: Key | Requested(requested, k) && (b.batch || !b.unreadable(k));
    return Ok(objects);
  }

  /** Files rows under their keys. */
  method Collect(before: map<Key, Row>, found: seq<Row>, ghost rows: seq<Row>, ghost filed: iset<Key>, ghost ks: iset<Key>)
    returns (objects: map<Key, Row>)
    requires Holds(before, rows, filed)
    requires Selected(found, rows, ks)
    ensures Holds(objects, rows, filed + ks)
  {
    hide Find;
    objects := before;
    ghost var done: iset<Key> := filed;
    for i := 0 to |found|
      invariant Holds(objects, rows, done)
      invariant forall k: Key :: k in done <==> k in filed || Among(found[..i], k)
    {
      AmongAppend(found, i);
      objects := objects[found[i].key := found[i]];
      done := done + iset{found[i].key};
    }
  }

  lemma {:induction false} NamedByNames(rows: seq<Row>, calendarID: string, names: seq<string>)
    requires Distinct(rows)
    ensures Selected(ObjectsByNames(rows, calendarID, names), rows, iset k: Key | k.calendarID == calendarID && k.objectName in names)
  {
    var requested := map[calendarID := names];
    NamedByGroups(rows, requested);
    SameByNames(rows, calendarID, names);
    assert (iset k: Key | Requested(requested, k)) == iset k: Key | k.calendarID == calendarID && k.objectName in names;
  }

  lemma {:induction false} SameByNames(rows: seq<Row>, calendarID: string, names: seq<string>)
    ensures ObjectsByNames(rows, calendarID, names) == ObjectsByNameGroups(rows, map[calendarID := names])
  {
    if rows != [] {
      SameByNames(rows[1..], calendarID, names);
    }
  }

  lemma {:induction false} NamedByGroups(rows: seq<Row>, requested: map<string, seq<string>>)
    requires Distinct(rows)
    ensures Selected(ObjectsByNameGroups(rows, requested), rows, iset k: Key | Requested(requested, k))
  {
    hide Requested, Selected;
    if rows == [] {
      assert Selected([], rows, iset k: Key | Requested(requested, k)) by { NoneSelected(iset k: Key | Requested(requested, k)); }
    } else {
      var rest := ObjectsByNameGroups(rows[1..], requested);
      NamedByGroups(rows[1..], requested);
      assert rows == [rows[0]] + rows[1..] && [] + rest == rest;
      SelectedNext(rows[0], rows[1..], rest, iset k: Key | Requested(requested, k));
    }
  }

  lemma {:induction false} SelectedNext(row: Row, rows: seq<Row>, found: seq<Row>, ks: iset<Key>)
    requires Distinct([row] + rows) && Selected(found, rows, ks)
    ensures Selected((if row.key in ks then [row] else []) + found, [row] + rows, ks)
  {
    hide Among, Find;
    var j := FindAt(rows, row.key);
    var all := [row] + rows;
    forall i | 0 <= i < |rows| ensures rows[i].key != row.key {
      assert all[0].key != all[i + 1].key;
    }
    assert Find(rows, row.key).None?;
    FindInsert(row, rows);
    AmongPrepend(row, found);
    assert [] + found == found;
    forall i | 0 <= i < |found| ensures found[i].key != row.key {
      assert Find(rows, found[i].key).Some?;
    }
  }

  lemma {:induction false} NoneSelected(ks: iset<Key>)
    ensures Selected([], [], ks)
  {
  }

  // ---------- the changes since a token ----------

  /** The names asked for are those of the changes among the first `n` whose object is looked up. */
  ghost predicate Asked(requested: map<string, seq<string>>, b: Backend, req: Request, rows2: seq<Row>, cs: seq<Change>, n: nat)
    requires n <= |cs|
  {
    && (forall k: Key :: Requested(requested, k) <==> AskedAmong(b, req, rows2, cs[..n], k))
    && (forall id | id in requested :: requested[id] != [])
  }

  predicate AskedAmong(b: Backend, req: Request, rows2: seq<Row>, cs: seq<Change>, k: Key)
    decreases |cs|
  {
    cs != [] && ((LookedUp(b, req, rows2, cs[|cs| - 1]) && KeyOf(cs[|cs| - 1]) == k) || AskedAmong(b, req, rows2, cs[..|cs| - 1], k))
  }

  lemma {:induction false} AskedNext(b: Backend, req: Request, rows2: seq<Row>, cs: seq<Change>, i: nat)
    requires i < |cs|
    ensures forall k: Key :: AskedAmong(b, req, rows2, cs[..i + 1], k)
                             <==> AskedAmong(b, req, rows2, cs[..i], k) || (LookedUp(b, req, rows2, cs[i]) && KeyOf(cs[i]) == k)
  {
    hide LookedUp;
    var upTo := cs[..i + 1];
    assert |upTo| == i + 1 && upTo[..i] == cs[..i] && upTo[i] == cs[i];
    forall k: Key
      ensures AskedAmong(b, req, rows2, upTo, k) <==> AskedAmong(b, req, rows2, upTo[..i], k) || (LookedUp(b, req, rows2, cs[i]) && KeyOf(cs[i]) == k)
    {
    }
  }

  lemma {:induction false} AskedFor(b: Backend, req: Request, rows2: seq<Row>, cs: seq<Change>, k: Key)
    ensures AskedAmong(b, req, rows2, cs, k) <==> exists j :: 0 <= j < |cs| && LookedUp(b, req, rows2, cs[j]) && KeyOf(cs[j]) == k
    decreases |cs|
  {
    hide LookedUp;
    if cs != [] {
      AskedFor(b, req, rows2, cs[..|cs| - 1], k);
    }
  }

  lemma {:induction false} AnyLookedUpIff(b: Backend, req: Request, rows2: seq<Row>, cs: seq<Change>)
    ensures AnyLookedUp(b, req, rows2, cs) <==> exists j :: 0 <= j < |cs| && LookedUp(b, req, rows2, cs[j])
  {
    hide LookedUp;
    if cs != [] {
      AnyLookedUpIff(b, req, rows2, cs[1..]);
      if j :| 0 < j < |cs| && LookedUp(b, req, rows2, cs[j]) {
        assert LookedUp(b, req, rows2, cs[1..][j - 1]);
      }
    }
  }

  /** The names asked for suffice to answer the changes, and one lookup at most is asked of each calendar. */
  lemma {:induction false} AskedIsEnough(requested: map<string, seq<string>>, b: Backend, req: Request, rows2: seq<Row>, cs: seq<Change>, calendarID: string)
    requires Asked(requested, b, req, rows2, cs, |cs|)
    requires forall j | 0 <= j < |cs| :: cs[j].calendarID == calendarID
    ensures forall j | 0 <= j < |cs| && LookedUp(b, req, rows2, cs[j]) :: Requested(requested, KeyOf(cs[j]))
    ensures |requested| <= 1
    ensures (exists id :: id in requested && requested[id] != []) <==> AnyLookedUp(b, req, rows2, cs)
  {
    hide LookedUp, AskedAmong;
    assert cs[..|cs|] == cs;
    forall k: Key ensures Requested(requested, k) <==> exists j :: 0 <= j < |cs| && LookedUp(b, req, rows2, cs[j]) && KeyOf(cs[j]) == k {
      AskedFor(b, req, rows2, cs, k);
    }
    AnyLookedUpIff(b, req, rows2, cs);
    forall id | id in requested ensures id == calendarID && exists j :: 0 <= j < |cs| && LookedUp(b, req, rows2, cs[j]) {
      assert Requested(requested, Key(id, requested[id][0]));
    }
    if j :| 0 <= j < |cs| && LookedUp(b, req, rows2, cs[j]) {
      assert Requested(requested, KeyOf(cs[j]));
    }
    FewKeys(requested.Keys, {calendarID});
    assert |requested| == |requested.Keys|;
  }

  lemma {:induction false} FewKeys(a: set<string>, b: set<string>)
    requires a <= b
    ensures |a| <= |b|
  {
    if a != {} {
      var x :| x in a;
      FewKeys(a - {x}, b - {x});
    }
  }

  method NewestToken(token: string, cs: seq<Change>) returns (newest: string)
    ensures newest == LastToken(token, cs)
  {
    hide TrimSpace;
    newest := token;
    assert cs[..0] == [];
    for i := 0 to |cs|
      invariant newest == LastToken(token, cs[..i])
    {
      assert cs[..i + 1][..i] == cs[..i];
      if TrimSpace(cs[i].syncToken) != "" {
        newest := TrimSpace(cs[i].syncToken);
      }
    }
    assert cs[..|cs|] == cs;
  }

  lemma {:induction false} NextChange(b: Backend, req: Request, rows2: seq<Row>, rows3: seq<Row>, cs: seq<Change>, i: nat)
    requires i <= |cs|
    ensures i == |cs| ==> ChangeResponses(b, req, rows2, rows3, cs[i..]) == Ok([])
    ensures i < |cs| ==>
              ChangeResponses(b, req, rows2, rows3, cs[i..])
              == var r := Respond(b, req.includeData, KeyOf(cs[i]), Answer(b, req, rows2, rows3, cs[i]));
                 if r.Err? then Err(r.error) else Prepend(ChangeResponses(b, req, rows2, rows3, cs[i + 1..]), [r.value])
  {
    hide Respond, Answer;
    if i < |cs| {
      assert cs[i..][1..] == cs[i + 1..] && cs[i..][0] == cs[i];
    }
  }

  /** Coalescing the joined changes keeps the same changes as coalescing the plain ones. */
  lemma {:induction false} CoalescedJoin(rows: seq<Row>, cs: seq<Change>)
    ensures Coalesced(JoinRows(rows, cs), ChangeOf) == JoinRows(rows, Coalesced(cs, Itself))
  {
    SelectJoin(rows, cs, 0);
  }

  lemma {:induction false} SelectJoin(rows: seq<Row>, cs: seq<Change>, i: nat)
    requires i <= |cs|
    ensures Select(JoinRows(rows, cs), ChangeOf, |cs|, i) == JoinRows(rows, Select(cs, Itself, |cs|, i))
    decreases |cs| - i
  {
    hide JoinRows, HasObjectResponse, Find;
    var items := JoinRows(rows, cs);
    if i == |cs| {
      JoinNothing(rows);
    } else {
      SelectJoin(rows, cs, i + 1);
      assert Kept(items, ChangeOf, |cs|, i) == Kept(cs, Itself, |cs|, i);
      var rest := Select(cs, Itself, |cs|, i + 1);
      if Kept(cs, Itself, |cs|, i) {
        JoinCons(rows, cs[i], rest);
      } else {
        assert [] + rest == rest && [] + JoinRows(rows, rest) == JoinRows(rows, rest);
      }
    }
  }

  lemma {:induction false} JoinNothing(rows: seq<Row>)
    ensures JoinRows(rows, []) == []
  {
  }

  lemma {:induction false} JoinCons(rows: seq<Row>, c: Change, cs: seq<Change>)
    ensures JoinRows(rows, [c] + cs) == [Item(c, Find(rows, KeyOf(c)))] + JoinRows(rows, cs)
  {
    assert ([c] + cs)[1..] == cs;
  }

  /** Coalesced changes of a calendar's log are of that calendar. */
  lemma {:induction false} CoalescedCalendar(sm: Store, s: Store, token: string)
    requires Good(s)
    ensures var fetched := ChangesSince(sm, s, token, MAX_REPORT + 1);
            fetched.Ok? && |fetched.value| <= MAX_REPORT ==>
              var cs := Coalesced(fetched.value, Itself); forall j | 0 <= j < |cs| :: cs[j].calendarID == s.calendarID
  {
    hide HasObjectResponse, Coalesced, TrimSpace, Marker, DeletedMeansGone, WellFormedRows, GoodToken, Pending;
    var fetched := ChangesSince(sm, s, token, MAX_REPORT + 1);
    if fetched.Ok? && |fetched.value| <= MAX_REPORT {
      var from := Start(sm, s, TrimSpace(token));
      assert fetched.value == s.history[from..];
      CoalescedCovers(s.history, from);
      ViewKeeps(s);
      forall i | 0 <= i < |s.history| ensures s.history[i].calendarID == s.calendarID {
        assert GoodChange(View(s), View(s).history[i]);
      }
    }
  }

  /** The calendar data of the joined changes, when the request wants it. */
  method JoinedData(b: Backend, s2: Store, s3: Store, req: Request, items: seq<Item>, ghost cs: seq<Change>)
    returns (r: Result<map<Key, Row>, Error>)
    requires Good(s3) && b.joined && items == JoinRows(s2.rows, cs)
    requires forall j | 0 <= j < |cs| :: cs[j].calendarID == s2.calendarID
    ensures r.Err? <==> b.batch && b.batchFails && AnyLookedUp(b, req, s2.rows, cs)
    ensures r.Err? ==> r.error == LookupFailed
    ensures r.Ok? ==> forall j | 0 <= j < |cs| && LookedUp(b, req, s2.rows, cs[j]) ::
                        Filed(r.value, KeyOf(cs[j])) == Lookup(b, s3.rows, KeyOf(cs[j]))
  {
    hide Good, Find, TrimSpace, Requested, LookedUp, AnyLookedUp, AskedAmong;
    if !req.includeData {
      NoDataLookup(b, req, s2.rows, cs);
      return Ok(map[]);
    }
    var requested: map<string, seq<string>> := map[];
    NothingAsked(b, req, s2.rows, cs);
    for i := 0 to |items|
      invariant Asked(requested, b, req, s2.rows, cs, i)
    {
      AskedNext(b, req, s2.rows, cs, i);
      var change := items[i].change;
      JoinedLookup(b, req, s2.rows, change);
      if change.action == ObjectDeleted || items[i].row.None? {
        assert Asked(requested, b, req, s2.rows, cs, i + 1);
        continue;
      }
      ghost var before := requested;
      var names := if change.calendarID in requested then requested[change.calendarID] else [];
      requested := requested[change.calendarID := names + [change.objectName]];
      RequestAlso(before, requested, change.calendarID, names, change.objectName);
      assert forall id | id in requested :: requested[id] != [];
      assert Key(change.calendarID, change.objectName) == KeyOf(cs[i]);
      assert LookedUp(b, req, s2.rows, cs[i]);
    }
    AskedIsEnough(requested, b, req, s2.rows, cs, s2.calendarID);
    RowsAreDistinct(s3);
    r := LookupObjectsByNames(b, s3.rows, requested);
  }

  method JoinedResponses(b: Backend, sm: Store, s2: Store, s3: Store, req: Request) returns (r: Result<Report, Error>)
    requires Good(s2) && Good(s3) && b.joined
    ensures r == SyncChanges(b, sm, s2, s3, req)
  {
    hide Good, Find, TrimSpace, Coalesced, Requested, LookedUp, AnyLookedUp, AskedAmong, HasObjectResponse, ChangeResponses, LastToken, Respond, ChangesSince;
    var limit := if req.limit <= 0 then MAX_REPORT else req.limit;
    var fetched := ChangesSince(sm, s2, req.syncToken, MAX_REPORT + 1);
    if fetched.Err? { return Err(fetched.error); }
    var items := JoinRows(s2.rows, fetched.value);
    if |items| > MAX_REPORT { return Err(Truncated); }
    var syncToken := NewestToken(req.syncToken, fetched.value);
    items := CoalesceChanges(items, ChangeOf);
    ghost var cs := Coalesced(fetched.value, Itself);
    CoalescedJoin(s2.rows, fetched.value);
    CoalescedCalendar(sm, s2, req.syncToken);
    if |items| > limit { return Err(Truncated); }
    var objectsWithData := JoinedData(b, s2, s3, req, items, cs);
    if objectsWithData.Err? { return Err(objectsWithData.error); }
    var responses: seq<Response> := [];
    assert cs[0..] == cs;
    PrependEmpty(ChangeResponses(b, req, s2.rows, s3.rows, cs));
    for i := 0 to |items|
      invariant Prepend(ChangeResponses(b, req, s2.rows, s3.rows, cs[i..]), responses) == ChangeResponses(b, req, s2.rows, s3.rows, cs)
    {
      NextChange(b, req, s2.rows, s3.rows, cs, i);
      JoinedLookup(b, req, s2.rows, cs[i]);
      var change, row := items[i].change, items[i].row;
      var key := KeyOf(change);
      var answer: Option<Row> := None;
      if change.action != ObjectDeleted && row.Some? {
        if req.includeData {
          answer := Filed(objectsWithData.value, key);
        } else {
          answer := row;
        }
      }
      assert answer == Answer(b, req, s2.rows, s3.rows, cs[i]);
      var response := Respond(b, req.includeData, key, answer);
      if response.Err? { return Err(response.error); }
      PrependMore(ChangeResponses(b, req, s2.rows, s3.rows, cs[i + 1..]), [response.value], responses);
      responses := responses + [response.value];
    }
    NextChange(b, req, s2.rows, s3.rows, cs, |cs|);
    PrependEnd<Response, Error>(responses);
    return Ok(Report(responses, syncToken));
  }

  lemma {:induction false} JoinedLookup(b: Backend, req: Request, rows2: seq<Row>, c: Change)
    ensures LookedUp(b, req, rows2, c)
        <==> !b.joined || (req.includeData && c.action != ObjectDeleted && Find(rows2, KeyOf(c)).Some?)
  {
  }

  lemma {:induction false} NothingAsked(b: Backend, req: Request, rows2: seq<Row>, cs: seq<Change>)
    ensures Asked(map[], b, req, rows2, cs, 0)
  {
    assert cs[..0] == [];
  }

  lemma {:induction false} NothingRequested()
    ensures forall k: Key :: !Requested(map[], k)
  {
  }

  lemma {:induction false} NoDataLookup(b: Backend, req: Request, rows2: seq<Row>, cs: seq<Change>)
    requires b.joined && !req.includeData
    ensures !AnyLookedUp(b, req, rows2, cs) && forall j | 0 <= j < |cs| :: !LookedUp(b, req, rows2, cs[j])
  {
    AnyLookedUpIff(b, req, rows2, cs);
  }

  lemma {:induction false} RequestAlso(before: map<string, seq<string>>, after: map<string, seq<string>>, calendarID: string, names: seq<string>, name: string)
    requires names == if calendarID in before then before[calendarID] else []
    requires after == before[calendarID := names + [name]]
    ensures forall k: Key :: Requested(after, k) <==> Requested(before, k) || k == Key(calendarID, name)
  {
  }

  method PlainResponses(b: Backend, sm: Store, s2: Store, s3: Store, req: Request) returns (r: Result<Report, Error>)
    requires Good(s2) && Good(s3) && !b.joined
    ensures r == SyncChanges(b, sm, s2, s3, req)
  {
    hide Good, Find, TrimSpace, Coalesced, Requested, LookedUp, AnyLookedUp, AskedAmong, HasObjectResponse, ChangeResponses, LastToken, Respond, ChangesSince;
    var limit := if req.limit <= 0 then MAX_REPORT else req.limit;
    var fetched := ChangesSince(sm, s2, req.syncToken, MAX_REPORT + 1);
    if fetched.Err? { return Err(fetched.error); }
    var changes := fetched.value;
    if |changes| > MAX_REPORT { return Err(Truncated); }
    var syncToken := NewestToken(req.syncToken, changes);
    changes := CoalesceChanges(changes, Itself);
    CoalescedCalendar(sm, s2, req.syncToken);
    if |changes| > limit { return Err(Truncated); }
    var requestedNames: map<string, set<string>> := map[];
    NothingAsked(b, req, s2.rows, changes);
    assert changes[..0] == [];
    assert forall k: Key :: !Requested(map[], k) by { NothingRequested(); }
    for i := 0 to |changes|
      invariant forall k: Key :: (k.calendarID in requestedNames && k.objectName in requestedNames[k.calendarID])
                                 <==> AskedAmong(b, req, s2.rows, changes[..i], k)
      invariant forall id | id in requestedNames :: requestedNames[id] != {}
    {
      AskedNext(b, req, s2.rows, changes, i);
      JoinedLookup(b, req, s2.rows, changes[i]);
      var id, name := changes[i].calendarID, changes[i].objectName;
      var names := if id in requestedNames then requestedNames[id] else {};
      if name in names {
        continue;
      }
      requestedNames := requestedNames[id := names + {name}];
    }
    var requested := ListNames(requestedNames);
    assert changes[..|changes|] == changes;
    assert Asked(requested, b, req, s2.rows, changes, |changes|);
    AskedIsEnough(requested, b, req, s2.rows, changes, s2.calendarID);
    RowsAreDistinct(s3);
    var looked := LookupObjectsByNames(b, s3.rows, requested);
    if looked.Err? { return Err(looked.error); }
    var responses: seq<Response> := [];
    assert changes[0..] == changes;
    PrependEmpty(ChangeResponses(b, req, s2.rows, s3.rows, changes));
    for i := 0 to |changes|
      invariant Prepend(ChangeResponses(b, req, s2.rows, s3.rows, changes[i..]), responses) == ChangeResponses(b, req, s2.rows, s3.rows, changes)
    {
      NextChange(b, req, s2.rows, s3.rows, changes, i);
      JoinedLookup(b, req, s2.rows, changes[i]);
      var key := KeyOf(changes[i]);
      var answer: Option<Row> := None;
      if changes[i].action != ObjectDeleted {
        answer := Filed(looked.value, key);
      }
      assert answer == Answer(b, req, s2.rows, s3.rows, changes[i]);
      var response := Respond(b, req.includeData, key, answer);
      if response.Err? { return Err(response.error); }
      PrependMore(ChangeResponses(b, req, s2.rows, s3.rows, changes[i + 1..]), [response.value], responses);
      responses := responses + [response.value];
    }
    NextChange(b, req, s2.rows, s3.rows, changes, |changes|);
    PrependEnd<Response, Error>(responses);
    return Ok(Report(responses, syncToken));
  }

  /** The names of each calendar as a list, in any order. */
  method ListNames(names: map<string, set<string>>) returns (lists: map<string, seq<string>>)
    requires forall id | id in names :: names[id] != {}
    ensures forall k: Key :: Requested(lists, k) <==> k.calendarID in names && k.objectName in names[k.calendarID]
    ensures forall id | id in lists :: lists[id] != []
  {
    lists := map[];
    var left := names.Keys;
    while left != {}
      invariant left <= names.Keys
      invariant forall k: Key :: Requested(lists, k) <==> k.calendarID in names && k.calendarID !in left && k.objectName in names[k.calendarID]
      invariant forall id | id in lists :: lists[id] != []
      decreases |left|
    {
      var id :| id in left;
      var list: seq<string> := [];
      var rest := names[id];
      while rest != {}
        invariant rest <= names[id] && forall n :: n in list <==> n in names[id] && n !in rest
        decreases |rest|
      {
        var n :| n in rest;
        list := list + [n];
        rest := rest - {n};
      }
      var n :| n in names[id];
      assert n in list;
      lists := lists[id := list];
      left := left - {id};
    }
  }

  method SyncCollectionReport(b: Backend, s1: Store, sm: Store, s2: Store, s3: Store, req: Request) returns (r: Result<Report, Error>)
    requires Good(s2) && Good(s3)
    ensures r == SyncCollection(b, s1, sm, s2, s3, req)
  {
    hide Good, SyncChanges, Find, Respond, ObjectResponses;
    if !s1.live {
      if req.syncToken == "" { return Err(CalendarNotFound); }
      r := SyncChangeResponses(b, sm, s2, s3, req);
      return;
    }
    if req.syncToken != "" {
      if req.syncToken != s1.syncToken {
        r := SyncChangeResponses(b, sm, s2, s3, req);
        return;
      }
      return Ok(Report([], s1.syncToken));
    }
    var limit := if req.limit <= 0 then MAX_REPORT else req.limit;
    var objects := First(s2.rows, if limit + 1 > MAX_REPORT + 1 then MAX_REPORT + 1 else limit + 1);
    if |objects| > limit { return Err(Truncated); }
    var responses: seq<Response> := [];
    assert objects[0..] == objects;
    PrependEmpty(ObjectResponses(b, req.includeData, objects));
    for i := 0 to |objects|
      invariant Prepend(ObjectResponses(b, req.includeData, objects[i..]), responses) == ObjectResponses(b, req.includeData, objects)
    {
      NextObject(b, req.includeData, objects, i);
      var response := Respond(b, req.includeData, objects[i].key, Some(objects[i]));
      if response.Err? { return Err(response.error); }
      PrependMore(ObjectResponses(b, req.includeData, objects[i + 1..]), [response.value], responses);
      responses := responses + [response.value];
    }
    NextObject(b, req.includeData, objects, |objects|);
    PrependEnd<Response, Error>(responses);
    return Ok(Report(responses, s1.syncToken));
  }

  method SyncChangeResponses(b: Backend, sm: Store, s2: Store, s3: Store, req: Request) returns (r: Result<Report, Error>)
    requires Good(s2) && Good(s3)
    ensures r == SyncChanges(b, sm, s2, s3, req)
  {
    if b.joined {
      r := JoinedResponses(b, sm, s2, s3, req);
    } else {
      r := PlainResponses(b, sm, s2, s3, req);
    }
  }

  lemma {:induction false} NextObject(b: Backend, includeData: bool, rows: seq<Row>, i: nat)
    requires i <= |rows|
    ensures i == |rows| ==> ObjectResponses(b, includeData, rows[i..]) == Ok([])
    ensures i < |rows| ==>
              ObjectResponses(b, includeData, rows[i..])
              == var r := Respond(b, includeData, rows[i].key, Some(rows[i]));
                 if r.Err? then Err(r.error) else Prepend(ObjectResponses(b, includeData, rows[i + 1..]), [r.value])
  {
    hide Respond;
    if i < |rows| {
      assert rows[i..][1..] == rows[i + 1..] && rows[i..][0] == rows[i];
    }
  }
}
