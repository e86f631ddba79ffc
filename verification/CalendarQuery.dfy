/** The calendar-query and free-busy-query reports: what they list, and when they refuse. */
module CalendarQuery {
  import opened Wrappers
  import opened Text
  import opened Coalesce
  import opened CalendarStore
  import opened CalendarSync

  const UNSUPPORTED := "__unsupported__"
  const COMPONENTS := ["VEVENT", "VTODO", "VJOURNAL", "VFREEBUSY"]
  const LISTED: nat := 200

  /** Optional queries of the store; `inRange` says whether calendar data matches the time range, or fails. */
  datatype Finder = Finder(byComponent: bool, walker: bool, inRange: string -> Option<bool>, busy: string -> Option<seq<int>>)

  datatype Query = Query(component: string, timeRange: bool, limit: int, includeData: bool)

  function Upper(s: string): string {
    if s == [] then [] else [if 'a' <= s[0] <= 'z' then s[0] - 'a' + 'A' else s[0]] + Upper(s[1..])
  }

  function Component(q: Query): string {
    Upper(TrimSpace(q.component))
  }

  /** The number of rows a query with this limit returns at most. */
  function RowLimit(limit: int): nat {
    if limit <= 0 then LISTED else if limit > MAX_REPORT + 1 then MAX_REPORT + 1 else limit
  }

  predicate MatchesComponent(row: Row, component: string) {
    component == "" || (component != UNSUPPORTED && (row.component == "" || ToLower(row.component) == ToLower(component)))
  }

  function OfComponent(rows: seq<Row>, component: string): seq<Row> {
    if rows == [] then []
    else (if rows[0].component == component then [rows[0]] else []) + OfComponent(rows[1..], component)
  }

  predicate Wanted(f: Finder, q: Query, row: Row) {
    MatchesComponent(row, Component(q)) && (q.timeRange ==> f.inRange(row.ics) == Some(true))
  }

  /** The objects a query asks for. */
  function Matching(f: Finder, q: Query, rows: seq<Row>): seq<Row> {
    if rows == [] then []
    else (if Wanted(f, q, rows[0]) then [rows[0]] else []) + Matching(f, q, rows[1..])
  }

  /** Responses for the wanted objects of `rows`, when `taken` were given before. */
  function Scan(b: Backend, f: Finder, q: Query, rows: seq<Row>, taken: nat): Result<seq<Response>, Error> {
    if rows == [] then Ok([])
    else if !MatchesComponent(rows[0], Component(q)) then Scan(b, f, q, rows[1..], taken)
    else if q.timeRange && f.inRange(rows[0].ics).None? then Err(Unrenderable)
    else if q.timeRange && f.inRange(rows[0].ics) == Some(false) then Scan(b, f, q, rows[1..], taken)
    else if taken >= ReportLimit(q.limit) then Err(Truncated)
    else
      var r := Respond(b, q.includeData, rows[0].key, Some(rows[0]));
      if r.Err? then Err(r.error) else Prepend(Scan(b, f, q, rows[1..], taken + 1), [r.value])
  }

  /** What the store is asked for. */
  function Candidates(f: Finder, q: Query, rows: seq<Row>): seq<Row> {
    var limit := ReportLimit(q.limit);
    if q.timeRange then
      if Component(q) != "" && f.walker then OfComponent(rows, Component(q)) else First(rows, LISTED)
    else if Component(q) != "" && f.byComponent then First(OfComponent(rows, Component(q)), RowLimit(limit + 1))
    else First(rows, RowLimit(limit + 1))
  }

  function CalendarQuery(b: Backend, f: Finder, q: Query, rows: seq<Row>): Result<seq<Response>, Error> {
    if Component(q) == UNSUPPORTED then Ok([])
    else if !q.timeRange && |Candidates(f, q, rows)| > ReportLimit(q.limit) then Err(Truncated)
    else Scan(b, f, q, Candidates(f, q, rows), 0)
  }

  // ---------- no silent truncation ----------

  /** The responses are those of exactly these objects, in order. */
  predicate Answers(b: Backend, q: Query, rs: seq<Response>, rows: seq<Row>) {
    && |rs| == |rows|
    && forall j | 0 <= j < |rs| :: rs[j] == Response(rows[j].key, BodyOf(b, q.includeData, Some(rows[j])))
  }

  /** The store accepts objects of these components only. */
  predicate StoredComponents(rows: seq<Row>) {
    forall row | row in rows :: row.component in COMPONENTS
  }

  /** No object of `rows` makes the scan fail. */
  predicate Scannable(b: Backend, f: Finder, q: Query, rows: seq<Row>) {
    forall row | row in rows && MatchesComponent(row, Component(q)) ::
      && (q.timeRange ==> f.inRange(row.ics).Some?)
      && (Wanted(f, q, row) ==> Respond(b, q.includeData, row.key, Some(row)).Ok?)
  }

  lemma {:induction false} NotInRange(f: Finder, ics: string)
    ensures f.inRange(ics) != Some(true) ==> f.inRange(ics).None? || f.inRange(ics) == Some(false)
  {
    if f.inRange(ics).Some? {
      assert f.inRange(ics).value == true || f.inRange(ics).value == false;
    }
  }

  lemma {:induction false} ScanAnswers(b: Backend, f: Finder, q: Query, rows: seq<Row>, taken: nat)
    requires Scan(b, f, q, rows, taken).Ok?
    ensures Answers(b, q, Scan(b, f, q, rows, taken).value, Matching(f, q, rows))
    ensures Matching(f, q, rows) == [] || taken + |Matching(f, q, rows)| <= ReportLimit(q.limit)
    decreases |rows|
  {
    hide MatchesComponent, Component, BodyOf;
    if rows != [] {
      var rest := Matching(f, q, rows[1..]);
      if Wanted(f, q, rows[0]) {
        ScanAnswers(b, f, q, rows[1..], taken + 1);
        var rs := Scan(b, f, q, rows[1..], taken + 1).value;
        assert Scan(b, f, q, rows, taken).value == [Response(rows[0].key, BodyOf(b, q.includeData, Some(rows[0])))] + rs;
        assert Matching(f, q, rows) == [rows[0]] + rest;
      } else {
        NotInRange(f, rows[0].ics);
        ScanAnswers(b, f, q, rows[1..], taken);
        assert Matching(f, q, rows) == [] + rest == rest;
      }
    }
  }

  lemma {:induction false} ScanRefuses(b: Backend, f: Finder, q: Query, rows: seq<Row>, taken: nat)
    requires Scannable(b, f, q, rows) && taken <= ReportLimit(q.limit)
    ensures var r := Scan(b, f, q, rows, taken);
            (r == Err(Truncated) <==> taken + |Matching(f, q, rows)| > ReportLimit(q.limit)) && (r.Err? ==> r == Err(Truncated))
    decreases |rows|
  {
    hide MatchesComponent, Component, Respond;
    if rows != [] {
      if Wanted(f, q, rows[0]) {
        if taken < ReportLimit(q.limit) {
          ScanRefuses(b, f, q, rows[1..], taken + 1);
        }
      } else {
        NotInRange(f, rows[0].ics);
        ScanRefuses(b, f, q, rows[1..], taken);
      }
    }
  }

  predicate NoLowercase(s: string) {
    forall i | 0 <= i < |s| :: !('a' <= s[i] <= 'z')
  }

  lemma {:induction false} UpperHasNone(s: string)
    ensures NoLowercase(Upper(s))
  {
    if s != [] {
      UpperHasNone(s[1..]);
    }
  }

  lemma {:induction false} LowerTellsApart(s: string, t: string)
    requires NoLowercase(s) && NoLowercase(t) && ToLower(s) == ToLower(t)
    ensures s == t
  {
    if s != [] && t != [] {
      assert ToLower(s)[1..] == ToLower(s[1..]) && ToLower(t)[1..] == ToLower(t[1..]) && ToLower(s)[0] == ToLower(t)[0];
      LowerTellsApart(s[1..], t[1..]);
    }
  }

  /** The component of a query is never the marker for an unsupported component: the marker is in lower case. */
  lemma {:induction false} MarkerIsNeverSeen(q: Query)
    ensures Component(q) != UNSUPPORTED
  {
    hide Upper, TrimSpace;
    UpperHasNone(TrimSpace(q.component));
    var marker := UNSUPPORTED;
    assert marker[2] == 'u';
  }

  lemma {:induction false} StoredMatches(row: Row, q: Query)
    requires row.component in COMPONENTS && Component(q) != ""
    ensures MatchesComponent(row, Component(q)) <==> row.component == Component(q)
  {
    hide ToLower, TrimSpace;
    MarkerIsNeverSeen(q);
    UpperHasNone(TrimSpace(q.component));
    if ToLower(row.component) == ToLower(Component(q)) {
      assert NoLowercase(row.component);
      LowerTellsApart(row.component, Component(q));
    }
  }

  lemma {:induction false} MatchingOfComponent(f: Finder, q: Query, rows: seq<Row>)
    requires StoredComponents(rows) && Component(q) != ""
    ensures Matching(f, q, OfComponent(rows, Component(q))) == Matching(f, q, rows)
    ensures !q.timeRange ==> OfComponent(rows, Component(q)) == Matching(f, q, rows)
  {
    hide Component, MatchesComponent;
    if rows != [] {
      var rest := OfComponent(rows[1..], Component(q));
      MatchingOfComponent(f, q, rows[1..]);
      StoredMatches(rows[0], q);
      if rows[0].component == Component(q) {
        assert OfComponent(rows, Component(q)) == [rows[0]] + rest && ([rows[0]] + rest)[1..] == rest;
      } else {
        assert OfComponent(rows, Component(q)) == [] + rest == rest;
      }
    }
  }

  lemma {:induction false} MatchingAppend(f: Finder, q: Query, rows: seq<Row>, more: seq<Row>)
    ensures Matching(f, q, rows + more) == Matching(f, q, rows) + Matching(f, q, more)
  {
    hide Wanted;
    if rows == [] {
      assert rows + more == more;
    } else {
      assert (rows + more)[1..] == rows[1..] + more;
      MatchingAppend(f, q, rows[1..], more);
      var head := if Wanted(f, q, rows[0]) then [rows[0]] else [];
      assert head + (Matching(f, q, rows[1..]) + Matching(f, q, more)) == (head + Matching(f, q, rows[1..])) + Matching(f, q, more);
    }
  }

  /** A time-range query the store does not walk looks at the most recently updated objects only. */
  predicate SeesRecentOnly(f: Finder, q: Query) {
    q.timeRange && !(Component(q) != "" && f.walker)
  }

  /** Main result: a query that succeeds answers exactly the matching active objects, except that a time-range
      query over all components looks at the 200 most recent objects: it does so if and only if no older one matches. */
  lemma {:induction false} NoSilentTruncation(b: Backend, f: Finder, q: Query, rows: seq<Row>)
    requires StoredComponents(rows) && q.limit <= MAX_REPORT
    ensures CalendarQuery(b, f, q, rows).Ok? ==>
              (Answers(b, q, CalendarQuery(b, f, q, rows).value, Matching(f, q, rows))
               <==> !SeesRecentOnly(f, q) || |rows| <= LISTED || Matching(f, q, rows[LISTED..]) == [])
  {
    hide Scan, Component, MatchesComponent, Wanted, Matching, OfComponent;
    if CalendarQuery(b, f, q, rows).Err? { return; }
    MarkerIsNeverSeen(q);
    ScanAnswers(b, f, q, Candidates(f, q, rows), 0);
    if Component(q) != "" {
      MatchingOfComponent(f, q, rows);
    }
    if SeesRecentOnly(f, q) && |rows| > LISTED {
      assert rows == rows[..LISTED] + rows[LISTED..];
      MatchingAppend(f, q, rows[..LISTED], rows[LISTED..]);
      if Matching(f, q, rows[LISTED..]) == [] {
        assert Matching(f, q, rows[..LISTED]) + [] == Matching(f, q, rows[..LISTED]);
      }
    }
  }

  /** Main result: a time-range query the store walks is refused if and only if too many objects match. */
  lemma {:induction false} WalkRefusesExcess(b: Backend, f: Finder, q: Query, rows: seq<Row>)
    requires StoredComponents(rows) && Scannable(b, f, q, rows) && q.timeRange && Component(q) != "" && f.walker
    ensures var r := CalendarQuery(b, f, q, rows);
            (r == Err(Truncated) <==> |Matching(f, q, rows)| > ReportLimit(q.limit)) && (r.Err? ==> r == Err(Truncated))
  {
    hide Scan, Component, MatchesComponent, Wanted, Matching, OfComponent, Respond;
    MarkerIsNeverSeen(q);
    MatchingOfComponent(f, q, rows);
    OfComponentIn(rows, Component(q));
    ScanRefuses(b, f, q, OfComponent(rows, Component(q)), 0);
  }

  /** Main result: a time-range query the store does not walk is refused if and only if too many of the 200 most
      recent objects match. */
  lemma {:induction false} RecentRefusesExcess(b: Backend, f: Finder, q: Query, rows: seq<Row>)
    requires Scannable(b, f, q, First(rows, LISTED)) && SeesRecentOnly(f, q)
    ensures var r := CalendarQuery(b, f, q, rows);
            (r == Err(Truncated) <==> |Matching(f, q, First(rows, LISTED))| > ReportLimit(q.limit)) && (r.Err? ==> r == Err(Truncated))
  {
    hide Scan, Component, MatchesComponent, Wanted, Matching, OfComponent, Respond;
    MarkerIsNeverSeen(q);
    ScanRefuses(b, f, q, First(rows, LISTED), 0);
  }

  /** Main result: a query for an unsupported component, for which the filter parser sets the marker, gets no
      objects all the same, if and only if it has a time range, or the store selects by component, or does not
      hold more objects than the limit. Otherwise it is refused. */
  lemma {:induction false} UnsupportedIsAnsweredIff(b: Backend, f: Finder, q: Query, rows: seq<Row>)
    requires StoredComponents(rows) && q.component == UNSUPPORTED && q.limit <= MAX_REPORT
    ensures CalendarQuery(b, f, q, rows)
         == if q.timeRange || f.byComponent || |rows| <= ReportLimit(q.limit) then Ok([]) else Err(Truncated)
  {
    hide Scan, Component, MatchesComponent, Matching, OfComponent;
    MarkerIsNeverSeen(q);
    MarkerInUpperCase(q);
    NoneOfComponent(b, f, q, rows);
    NoneOfComponent(b, f, q, Candidates(f, q, rows));
  }

  lemma {:induction false} MarkerInUpperCase(q: Query)
    requires q.component == UNSUPPORTED
    ensures Component(q) != "" && Component(q) !in COMPONENTS
  {
    hide TrimSpace, Upper, Trimmed;
    VisibleEnds(q.component);
    TrimmedIsFixed(q.component);
    UpperKeepsUnderscore(q.component);
    forall c | c in COMPONENTS ensures c[0] == 'V' {}
  }

  lemma {:induction false} UpperKeepsUnderscore(s: string)
    requires s != "" && s[0] == '_'
    ensures Upper(s) != "" && Upper(s)[0] == '_'
  {
  }

  lemma {:induction false} NoneOfComponent(b: Backend, f: Finder, q: Query, rows: seq<Row>)
    requires StoredComponents(rows) && Component(q) != "" && Component(q) !in COMPONENTS
    ensures OfComponent(rows, Component(q)) == [] && Scan(b, f, q, rows, 0) == Ok([])
  {
    hide Component, MatchesComponent;
    if rows != [] {
      StoredMatches(rows[0], q);
      NoneOfComponent(b, f, q, rows[1..]);
    }
  }

  lemma {:induction false} OfComponentIn(rows: seq<Row>, component: string)
    ensures forall row | row in OfComponent(rows, component) :: row in rows
  {
    if rows != [] {
      OfComponentIn(rows[1..], component);
    }
  }

  /** Main result: without a time range the query is refused if and only if the store has too many objects of
      the component, or, where the store cannot select by component, too many objects. */
  lemma {:induction false} ListRefusesExcess(b: Backend, f: Finder, q: Query, rows: seq<Row>)
    requires StoredComponents(rows) && Scannable(b, f, q, rows) && !q.timeRange && q.limit <= MAX_REPORT
    ensures var r := CalendarQuery(b, f, q, rows);
            && (r == Err(Truncated) <==>
                  (if Component(q) != "" && f.byComponent then |Matching(f, q, rows)| else |rows|) > ReportLimit(q.limit))
            && (r.Err? ==> r == Err(Truncated))
  {
    hide Scan, Component, MatchesComponent, Wanted, Matching, OfComponent, Respond;
    MarkerIsNeverSeen(q);
    if Component(q) != "" {
      MatchingOfComponent(f, q, rows);
      OfComponentIn(rows, Component(q));
    }
    var candidates := Candidates(f, q, rows);
    if |candidates| <= ReportLimit(q.limit) {
      ScanRefuses(b, f, q, candidates, 0);
      MatchingIsShorter(f, q, candidates);
    }
  }

  lemma {:induction false} MatchingIsShorter(f: Finder, q: Query, rows: seq<Row>)
    ensures |Matching(f, q, rows)| <= |rows|
  {
    if rows != [] {
      MatchingIsShorter(f, q, rows[1..]);
    }
  }

  /** The name of the `n`-th filler: two letters and the suffix of calendar files. */
  function FillerName(n: nat): string {
    [(n / 26 % 26 + 97) as char, (n % 26 + 97) as char] + ".ics"
  }

  function Fillers(n: nat): seq<Row> {
    if n == 0 then [] else [Row(Key("c", FillerName(n - 1)), "VEVENT", "e", "miss")] + Fillers(n - 1)
  }

  lemma {:induction false} FillersDiffer(n: nat)
    requires n <= LISTED
    ensures |Fillers(n)| == n && forall i | 0 <= i < n :: Fillers(n)[i].key == Key("c", FillerName(n - 1 - i))
    ensures forall i, j | 0 <= i < j < n :: Fillers(n)[i].key != Fillers(n)[j].key
  {
    hide FillerName;
    if n > 0 {
      FillersDiffer(n - 1);
      forall i, j | 0 <= i < j < n ensures Fillers(n)[i].key != Fillers(n)[j].key {
        NamesDiffer(n - 1 - j, n - 1 - i);
      }
    }
  }

  lemma {:induction false} NamesDiffer(m: nat, n: nat)
    requires m < n < LISTED
    ensures FillerName(m) != FillerName(n)
  {
    assert FillerName(m)[0] as int == m / 26 + 97 && FillerName(m)[1] as int == m % 26 + 97;
    assert FillerName(n)[0] as int == n / 26 + 97 && FillerName(n)[1] as int == n % 26 + 97;
  }

  /** A matching object behind 200 others is left out without an error. */
  lemma {:induction false} OldMatchIsLeftOut(b: Backend)
    ensures var f := Finder(true, true, ics => Some(ics == "hit"), ics => Some([]));
            var q := Query("", true, 10, false);
            var oldest := Row(Key("c", "old.ics"), "VEVENT", "e", "hit");
            CalendarQuery(b, f, q, Fillers(LISTED) + [oldest]) == Ok([]) && Matching(f, q, Fillers(LISTED) + [oldest]) == [oldest]
    ensures forall i, j | 0 <= i < j < |Fillers(LISTED)| :: Fillers(LISTED)[i].key != Fillers(LISTED)[j].key
  {
    var f := Finder(true, true, ics => Some(ics == "hit"), ics => Some([]));
    var q := Query("", true, 10, false);
    var oldest := Row(Key("c", "old.ics"), "VEVENT", "e", "hit");
    hide Scan, Matching, Fillers;
    FillersMiss(b, f, q, LISTED);
    FillersDiffer(LISTED);
    assert First(Fillers(LISTED) + [oldest], LISTED) == Fillers(LISTED);
    MatchingAppend(f, q, Fillers(LISTED), [oldest]);
    OneMatch(f, q, oldest);
  }

  lemma {:induction false} OneMatch(f: Finder, q: Query, row: Row)
    requires Wanted(f, q, row)
    ensures Matching(f, q, [row]) == [row] && [] + [row] == [row]
  {
    hide Wanted;
  }

  lemma {:induction false} FillersMiss(b: Backend, f: Finder, q: Query, n: nat)
    requires q.timeRange && Component(q) == "" && f.inRange("miss") == Some(false)
    ensures |Fillers(n)| == n && Matching(f, q, Fillers(n)) == [] && Scan(b, f, q, Fillers(n), 0) == Ok([])
  {
    hide Component;
    if n > 0 {
      FillersMiss(b, f, q, n - 1);
      assert Fillers(n)[1..] == Fillers(n - 1);
    }
  }

  // ---------- the handlers ----------

  lemma {:induction false} NextScan(b: Backend, f: Finder, q: Query, rows: seq<Row>, i: nat, taken: nat)
    requires i <= |rows|
    ensures i == |rows| ==> Scan(b, f, q, rows[i..], taken) == Ok([])
    ensures i < |rows| ==>
              Scan(b, f, q, rows[i..], taken)
              == if !MatchesComponent(rows[i], Component(q)) then Scan(b, f, q, rows[i + 1..], taken)
                 else if q.timeRange && f.inRange(rows[i].ics).None? then Err(Unrenderable)
                 else if q.timeRange && f.inRange(rows[i].ics) == Some(false) then Scan(b, f, q, rows[i + 1..], taken)
                 else if taken >= ReportLimit(q.limit) then Err(Truncated)
                 else
                   var r := Respond(b, q.includeData, rows[i].key, Some(rows[i]));
                   if r.Err? then Err(r.error) else Prepend(Scan(b, f, q, rows[i + 1..], taken + 1), [r.value])
  {
    hide Respond, Component, MatchesComponent;
    if i < |rows| {
      assert rows[i..][1..] == rows[i + 1..] && rows[i..][0] == rows[i];
    }
  }

  method CalendarQueryResponses(b: Backend, f: Finder, q: Query, rows: seq<Row>) returns (r: Result<seq<Response>, Error>)
    requires StoredComponents(rows)
    ensures r == CalendarQuery(b, f, q, rows)
  {
    hide Scan, Component, MatchesComponent, OfComponent, Respond;
    var limit := if q.limit <= 0 then MAX_REPORT else q.limit;
    var component := Component(q);
    MarkerIsNeverSeen(q);
    if component == UNSUPPORTED {
      return Ok([]);
    }
    if q.timeRange {
      r := TimeRangeResponses(b, f, q, rows);
      return;
    }
    var objects, filteredInStore := First(rows, RowLimit(limit + 1)), false;
    if component != "" && f.byComponent {
      objects, filteredInStore := First(OfComponent(rows, component), RowLimit(limit + 1)), true;
    }
    if |objects| > limit {
      return Err(Truncated);
    }
    var responses: seq<Response> := [];
    assert objects[0..] == objects;
    PrependEmpty(Scan(b, f, q, objects, 0));
    for i := 0 to |objects|
      invariant Prepend(Scan(b, f, q, objects[i..], |responses|), responses) == Scan(b, f, q, objects, 0)
    {
      NextScan(b, f, q, objects, i, |responses|);
      if filteredInStore {
        SelectedMatches(rows, q, objects[i]);
      }
      if !filteredInStore && !MatchesComponent(objects[i], component) {
        continue;
      }
      if |responses| >= limit {
        return Err(Truncated);
      }
      var response := Respond(b, q.includeData, objects[i].key, Some(objects[i]));
      if response.Err? { return Err(response.error); }
      PrependMore(Scan(b, f, q, objects[i + 1..], |responses| + 1), [response.value], responses);
      responses := responses + [response.value];
    }
    NextScan(b, f, q, objects, |objects|, |responses|);
    PrependEnd<Response, Error>(responses);
    return Ok(responses);
  }

  lemma {:induction false} SelectedMatches(rows: seq<Row>, q: Query, row: Row)
    requires StoredComponents(rows) && Component(q) != "" && row in OfComponent(rows, Component(q))
    ensures MatchesComponent(row, Component(q))
  {
    hide Component, MatchesComponent;
    OfComponentIn(rows, Component(q));
    OfComponentHas(rows, Component(q));
    StoredMatches(row, q);
  }

  lemma {:induction false} OfComponentHas(rows: seq<Row>, component: string)
    ensures forall row | row in OfComponent(rows, component) :: row.component == component
  {
    if rows != [] {
      OfComponentHas(rows[1..], component);
    }
  }

  method TimeRangeResponses(b: Backend, f: Finder, q: Query, rows: seq<Row>) returns (r: Result<seq<Response>, Error>)
    requires q.timeRange
    ensures r == Scan(b, f, q, Candidates(f, q, rows), 0)
  {
    hide Scan, Component, MatchesComponent, OfComponent, Respond;
    var limit := if q.limit <= 0 then MAX_REPORT else q.limit;
    var component := Component(q);
    var objects := if component != "" && f.walker then OfComponent(rows, component) else First(rows, LISTED);
    var responses: seq<Response> := [];
    assert objects[0..] == objects;
    PrependEmpty(Scan(b, f, q, objects, 0));
    for i := 0 to |objects|
      invariant Prepend(Scan(b, f, q, objects[i..], |responses|), responses) == Scan(b, f, q, objects, 0)
    {
      NextScan(b, f, q, objects, i, |responses|);
      if !MatchesComponent(objects[i], component) {
        continue;
      }
      var matches := f.inRange(objects[i].ics);
      if matches.None? { return Err(Unrenderable); }
      if !matches.value {
        continue;
      }
      if |responses| >= limit {
        return Err(Truncated);
      }
      var response := Respond(b, q.includeData, objects[i].key, Some(objects[i]));
      if response.Err? { return Err(response.error); }
      PrependMore(Scan(b, f, q, objects[i + 1..], |responses| + 1), [response.value], responses);
      responses := responses + [response.value];
    }
    NextScan(b, f, q, objects, |objects|, |responses|);
    PrependEnd<Response, Error>(responses);
    return Ok(responses);
  }

  // ---------- free-busy ----------

  /** The objects that can make time busy, where the store selects by component; all objects otherwise. */
  function BusyObjects(f: Finder, rows: seq<Row>): seq<Row> {
    if f.byComponent then OfComponent(rows, "VEVENT") + OfComponent(rows, "VFREEBUSY") else rows
  }

  /** Periods of all objects in order; the first object that cannot be read fails the report. */
  function Periods(f: Finder, rows: seq<Row>): Result<seq<int>, Error> {
    if rows == [] then Ok([])
    else if f.busy(rows[0].ics).None? then Err(Unrenderable)
    else Prepend(Periods(f, rows[1..]), f.busy(rows[0].ics).value)
  }

  /** At most `limit` rows of the two components, in two queries. */
  method ListFreeBusyObjects(f: Finder, rows: seq<Row>, limit: nat) returns (objects: seq<Row>)
    requires 0 < limit <= MAX_REPORT + 1
    ensures objects == First(BusyObjects(f, rows), limit)
  {
    hide OfComponent;
    if !f.byComponent {
      return First(rows, RowLimit(limit));
    }
    objects := [];
    var components := ["VEVENT", "VFREEBUSY"];
    for i := 0 to |components|
      invariant objects == First(if i == 0 then [] else if i == 1 then OfComponent(rows, "VEVENT") else BusyObjects(f, rows), limit)
    {
      if |objects| >= limit {
        break;
      }
      objects := objects + First(OfComponent(rows, components[i]), RowLimit(limit - |objects|));
    }
  }

  /** Main result: the free-busy report holds the periods of every object that counts, and is refused for
      excess if and only if the objects of both components together are too many. */
  method FreeBusyPeriods(f: Finder, rows: seq<Row>, requestedLimit: int) returns (r: Result<seq<int>, Error>)
    requires requestedLimit <= MAX_REPORT
    ensures r == if |BusyObjects(f, rows)| > ReportLimit(requestedLimit) then Err(Truncated) else Periods(f, BusyObjects(f, rows))
    ensures r == Err(Truncated) <==> |BusyObjects(f, rows)| > ReportLimit(requestedLimit)
  {
    hide BusyObjects;
    var limit := if requestedLimit <= 0 then MAX_REPORT else requestedLimit;
    var objects := ListFreeBusyObjects(f, rows, limit + 1);
    PeriodsError(f, BusyObjects(f, rows));
    if |objects| > limit {
      return Err(Truncated);
    }
    var periods: seq<int> := [];
    assert objects[0..] == objects;
    PrependEmpty(Periods(f, objects));
    for i := 0 to |objects|
      invariant Prepend(Periods(f, objects[i..]), periods) == Periods(f, objects)
    {
      assert objects[i..][1..] == objects[i + 1..];
      var found := f.busy(objects[i].ics);
      if found.None? { return Err(Unrenderable); }
      PrependMore(Periods(f, objects[i + 1..]), found.value, periods);
      periods := periods + found.value;
    }
    PrependEnd<int, Error>(periods);
    return Ok(periods);
  }

  lemma {:induction false} PeriodsError(f: Finder, rows: seq<Row>)
    ensures Periods(f, rows) != Err(Truncated)
  {
    if rows != [] {
      PeriodsError(f, rows[1..]);
    }
  }
}
