/** One calendar in the store: its active objects, its sync change log, and the transactions that change them. */
module CalendarStore {
  import opened Wrappers
  import opened Text
  import opened Coalesce

  const MAX_REPORT: nat := 1000

  datatype Row = Row(key: Key, component: string, etag: string, ics: string)

  /** `rows` are the active objects, most recently updated first. `history` are all changes ever logged, in the
      order of their ids; the first `pruned` of them are no longer in the log. `issued` are all sync tokens the
      calendar ever had. */
  datatype StoreState = Store(calendarID: string, rows: seq<Row>, history: seq<Change>, pruned: nat, syncToken: string, live: bool, issued: set<string>)

  type Store = s: StoreState | s.pruned <= |s.history| witness Store("", [], [], 0, "", false, {})

  datatype Write =
    | Put(name: string, component: string, etag: string, ics: string, token: string)
    | Delete(name: string, token: string)
    | UpdateCollection(token: string)
    | DeleteCollection(token: string)
    | Prune(count: nat)

  function Find(rows: seq<Row>, k: Key): Option<Row> {
    if rows == [] then None else if rows[0].key == k then Some(rows[0]) else Find(rows[1..], k)
  }

  function Remove(rows: seq<Row>, k: Key): seq<Row> {
    if rows == [] then [] else (if rows[0].key == k then [] else [rows[0]]) + Remove(rows[1..], k)
  }

  /** The id of the change that carries a token, from `from` on, or the number of all changes. */
  function Marker(history: seq<Change>, from: nat, token: string): (p: nat)
    requires from <= |history|
    ensures from <= p <= |history|
    ensures p < |history| ==> history[p].syncToken == token
    ensures forall i | from <= i < p :: history[i].syncToken != token
    decreases |history| - from
  {
    if from == |history| || history[from].syncToken == token then from else Marker(history, from + 1, token)
  }

  /** The token has a change in the log. */
  predicate InLog(s: Store, token: string) {
    Marker(s.history, s.pruned, token) < |s.history|
  }

  // ---------- transactions ----------

  /** A calendar as it is created. */
  function Created(calendarID: string, token: string): Store {
    Store(calendarID, [], [Change(calendarID, "", CollectionCreated, token)], 0, token, true, {token})
  }

  /** Transactions of objects first make sure that the current token has a change. */
  function WithMarker(s: Store): Store {
    if InLog(s, s.syncToken) then s
    else s.(history := s.history + [Change(s.calendarID, "", CollectionCreated, s.syncToken)])
  }

  function Record(s: Store, rows: seq<Row>, live: bool, name: string, action: Action, token: string): Store {
    s.(rows := rows, history := s.history + [Change(s.calendarID, name, action, token)],
       syncToken := if live then token else s.syncToken, live := live, issued := s.issued + {token})
  }

  /** The end of the log's prefix that a pruning of at most `count` changes drops: neither the newest change nor
      that of the calendar's current token is ever pruned. */
  function PruneEnd(s: Store, count: nat): (m: nat)
    ensures s.pruned <= m <= |s.history| && m <= s.pruned + count
    ensures s.pruned < |s.history| ==> m < |s.history|
    ensures m <= Marker(s.history, s.pruned, s.syncToken)
  {
    var at := Marker(s.history, s.pruned, s.syncToken);
    var last := if at < |s.history| then at else if s.pruned < |s.history| then |s.history| - 1 else s.pruned;
    if s.pruned + count < last then s.pruned + count else last
  }

  /** A transaction that cannot apply, or whose token is already in the log, is rolled back. */
  function Apply(s: Store, w: Write): Store {
    match w
    case Put(name, component, etag, ics, token) =>
      var k := Key(s.calendarID, name);
      var s' := WithMarker(s);
      if !s.live || TrimSpace(name) == "" || InLog(s', token) then s
      else Record(s', [Row(k, component, etag, ics)] + Remove(s.rows, k), true, name, ObjectUpserted, token)
    case Delete(name, token) =>
      var k := Key(s.calendarID, name);
      var s' := WithMarker(s);
      if !s.live || Find(s.rows, k).None? || InLog(s', token) then s
      else Record(s', Remove(s.rows, k), true, name, ObjectDeleted, token)
    case UpdateCollection(token) =>
      var s' := WithMarker(s);
      if !s.live || InLog(s', token) then s
      else Record(s', s.rows, true, "", CollectionUpdated, token)
    case DeleteCollection(token) =>
      if !s.live || InLog(s, token) then s
      else Record(s, [], false, "", CollectionDeleted, token)
    case Prune(count) => s.(pruned := PruneEnd(s, count))
  }

  /** The collection update as the repository orders it: the new token is stored before the marker is made
      sure of, so the marker takes the token that the change then needs. */
  function RepositoryUpdate(s: Store, token: string): Store {
    if !s.live then s
    else
      var s' := WithMarker(s.(syncToken := token));
      if InLog(s', token) then s else Record(s', s.rows, true, "", CollectionUpdated, token)
  }

  function Run(s: Store, ws: seq<Write>): Store
    decreases |ws|
  {
    if ws == [] then s else Run(Apply(s, ws[0]), ws[1..])
  }

  predicate GoodToken(t: string) {
    t != "" && TrimSpace(t) == t
  }

  /** Tokens are digests: a write brings one the calendar never had. */
  predicate FreshWrite(s: Store, w: Write) {
    w.Prune? || (w.token !in s.issued && GoodToken(w.token))
  }

  predicate Fresh(s: Store, ws: seq<Write>)
    decreases |ws|
  {
    ws == [] || (FreshWrite(s, ws[0]) && Fresh(Apply(s, ws[0]), ws[1..]))
  }

  // ---------- what every transaction keeps ----------

  /** The store as the next transaction of an object finds it. */
  function View(s: Store): Store {
    if s.live then WithMarker(s) else s
  }

  predicate Reported(history: seq<Change>, i: nat, k: Key)
    requires i < |history|
  {
    HasObjectResponse(history[i]) && KeyOf(history[i]) == k
  }

  /** The object has a reported change after `p`. */
  ghost predicate Pending(history: seq<Change>, p: int, k: Key) {
    exists i: nat :: p < i < |history| && Reported(history, i, k)
  }

  predicate GoodChange(s: Store, c: Change) {
    GoodToken(c.syncToken) && c.syncToken in s.issued && c.calendarID == s.calendarID
  }

  ghost predicate WellFormedHistory(s: Store) {
    && s.pruned < |s.history|
    && (forall i, j | 0 <= i < j < |s.history| :: s.history[i].syncToken != s.history[j].syncToken)
    && (forall i | 0 <= i < |s.history| :: GoodChange(s, s.history[i]))
    && (s.live ==> s.history[|s.history| - 1].syncToken == s.syncToken)
  }

  ghost predicate WellFormedRows(s: Store) {
    && (!s.live ==> s.rows == [])
    && (forall i, j | 0 <= i < j < |s.rows| :: s.rows[i].key != s.rows[j].key)
    && (forall i | 0 <= i < |s.rows| :: s.rows[i].key.calendarID == s.calendarID && TrimSpace(s.rows[i].key.objectName) != "")
  }

  /** An object whose last logged change is a deletion is gone. */
  ghost predicate DeletedMeansGone(s: Store) {
    forall i | 0 <= i < |s.history| ::
      HasObjectResponse(s.history[i]) && s.history[i].action == ObjectDeleted && !Pending(s.history, i, KeyOf(s.history[i]))
      ==> Find(s.rows, KeyOf(s.history[i])).None?
  }

  ghost predicate Sound(s: Store) {
    WellFormedHistory(s) && WellFormedRows(s) && DeletedMeansGone(s)
  }

  /** The current token of a live calendar is that of its last change, or has no change yet. */
  ghost predicate Good(s: Store) {
    Sound(View(s))
  }

  /** Changes with new tokens were added, and an object that differs has a change among them. */
  ghost predicate Extends(s: Store, t: Store) {
    && s.pruned <= t.pruned && s.history <= t.history
    && (forall i: nat | |s.history| <= i < |t.history| :: t.history[i].syncToken !in s.issued)
    && (forall k: Key :: Find(t.rows, k) == Find(s.rows, k) || Pending(t.history, |s.history| - 1, k))
  }

  /** A later state. Of a calendar that is deleted by then only the tokens matter. */
  ghost predicate Later(s: Store, t: Store) {
    && t.calendarID == s.calendarID && s.issued <= t.issued && (t.live ==> s.live)
    && (t.live ==> Extends(View(s), View(t)))
  }

  /** A new calendar is good, so that every run from its creation is. */
  lemma {:induction false} CreatedIsGood(calendarID: string, token: string, ws: seq<Write>)
    requires GoodToken(token) && Fresh(Created(calendarID, token), ws)
    ensures Good(Run(Created(calendarID, token), ws))
  {
    hide TrimSpace, Run, Fresh;
    var s := Created(calendarID, token);
    assert s.history[0] == Change(calendarID, "", CollectionCreated, token) && View(s) == s;
    assert Good(s);
    RunKeeps(s, ws);
  }

  lemma {:induction false} FindRemove(rows: seq<Row>, k: Key)
    ensures Find(Remove(rows, k), k).None?
    ensures forall l: Key :: l != k ==> Find(Remove(rows, k), l) == Find(rows, l)
  {
    if rows != [] {
      FindRemove(rows[1..], k);
      var rest := Remove(rows[1..], k);
      assert Remove(rows, k) == (if rows[0].key == k then [] else [rows[0]]) + rest;
      assert ([rows[0]] + rest)[1..] == rest && [] + rest == rest;
    }
  }

  lemma {:induction false} RemovedRows(rows: seq<Row>, k: Key)
    ensures forall i | 0 <= i < |Remove(rows, k)| :: Remove(rows, k)[i] in rows && Remove(rows, k)[i].key != k
    ensures (forall i, j | 0 <= i < j < |rows| :: rows[i].key != rows[j].key) ==>
              forall i, j | 0 <= i < j < |Remove(rows, k)| :: Remove(rows, k)[i].key != Remove(rows, k)[j].key
  {
    if rows != [] {
      RemovedRows(rows[1..], k);
    }
  }

  lemma {:induction false} FindInsert(row: Row, rows: seq<Row>)
    ensures forall l: Key :: Find([row] + rows, l) == if l == row.key then Some(row) else Find(rows, l)
  {
    assert ([row] + rows)[1..] == rows;
  }

  lemma {:induction false} MarkerIsUnique(s: Store, from: nat, i: nat)
    requires WellFormedHistory(s) && from <= i < |s.history|
    ensures Marker(s.history, from, s.history[i].syncToken) == i
  {
    hide Marker;
  }

  /** The repository's collection update is always rolled back. */
  lemma {:induction false} CollectionUpdateIsRolledBack(s: Store, token: string)
    ensures RepositoryUpdate(s, token) == s
  {
    hide Marker;
    var c := Change(s.calendarID, "", CollectionCreated, token);
    assert (s.history + [c])[|s.history|] == c;
  }

  lemma {:induction false} PendingAppend(history: seq<Change>, c: Change, p: int, k: Key)
    requires -1 <= p < |history|
    ensures Pending(history + [c], p, k) <==> Pending(history, p, k) || (HasObjectResponse(c) && KeyOf(c) == k)
  {
    hide HasObjectResponse;
    var after := history + [c];
    forall i: nat | i < |history| ensures Reported(after, i, k) == Reported(history, i, k) {
      assert after[i] == history[i];
    }
    assert Reported(after, |history|, k) == (HasObjectResponse(c) && KeyOf(c) == k);
  }

  lemma {:induction false} RecordKeeps(s: Store, rows: seq<Row>, name: string, action: Action, token: string)
    requires Sound(s) && s.live && token !in s.issued && GoodToken(token)
    requires forall i, j | 0 <= i < j < |rows| :: rows[i].key != rows[j].key
    requires forall i | 0 <= i < |rows| :: rows[i].key.calendarID == s.calendarID && TrimSpace(rows[i].key.objectName) != ""
    requires var c := Change(s.calendarID, name, action, token);
             && (HasObjectResponse(c) && action == ObjectDeleted ==> Find(rows, KeyOf(c)).None?)
             && (forall k: Key :: Find(rows, k) == Find(s.rows, k) || (HasObjectResponse(c) && KeyOf(c) == k))
    ensures var t := Record(s, rows, true, name, action, token); View(t) == t && Sound(t) && Extends(s, t)
  {
    hide HasObjectResponse, Find, TrimSpace, Marker;
    var c, t := Change(s.calendarID, name, action, token), Record(s, rows, true, name, action, token);
    assert t.history == s.history + [c] && t.history[|s.history|] == c;
    forall i | 0 <= i < |s.history| ensures t.history[i] == s.history[i] {}
    forall i | 0 <= i < |t.history| && HasObjectResponse(t.history[i]) && t.history[i].action == ObjectDeleted && !Pending(t.history, i, KeyOf(t.history[i]))
      ensures Find(rows, KeyOf(t.history[i])).None?
    {
      if i < |s.history| {
        PendingAppend(s.history, c, i, KeyOf(t.history[i]));
      }
    }
    forall k: Key | Find(rows, k) != Find(s.rows, k) ensures Pending(t.history, |s.history| - 1, k) {
      PendingAppend(s.history, c, |s.history| - 1, k);
    }
  }

  /** Deleting the calendar leaves a history that is still well formed, and no objects. */
  lemma {:induction false} DeletionKeeps(s: Store, token: string)
    requires Good(s) && s.live && token !in s.issued && GoodToken(token)
    ensures Good(Record(s, [], false, "", CollectionDeleted, token))
  {
    hide HasObjectResponse, TrimSpace, Marker;
    var v, t := View(s), Record(s, [], false, "", CollectionDeleted, token);
    forall i | 0 <= i < |s.history| ensures t.history[i] == s.history[i] == v.history[i] {}
  }

  lemma {:induction false} FindIn(rows: seq<Row>, k: Key)
    ensures Find(rows, k).Some? ==> Find(rows, k).value in rows && Find(rows, k).value.key == k
  {
    if rows != [] && rows[0].key != k {
      FindIn(rows[1..], k);
    }
  }

  lemma {:induction false} MarkerFromLater(history: seq<Change>, from: nat, later: nat, token: string)
    requires from <= |history| && from <= later <= Marker(history, from, token)
    ensures Marker(history, later, token) == Marker(history, from, token)
  {
    hide Marker;
  }

  /** Pruning moves the start of the log, to the current token's change at most, and changes nothing else. */
  lemma {:induction false} PruneKeeps(s: Store, count: nat)
    requires Good(s)
    ensures var t := Apply(s, Prune(count));
            && s.pruned <= t.pruned <= s.pruned + count && View(t) == View(s).(pruned := t.pruned)
            && (s.live && InLog(s, s.syncToken) ==> InLog(t, s.syncToken))
            && Good(t) && Later(s, t)
  {
    hide Marker, PruneEnd, Find, TrimSpace, GoodToken, HasObjectResponse;
    MarkerFromLater(s.history, s.pruned, PruneEnd(s, count), s.syncToken);
  }

  /** Every transaction keeps the store good, and what a sync client relies on. */
  lemma {:induction false} WriteKeeps(s: Store, w: Write)
    requires Good(s) && FreshWrite(s, w)
    ensures Good(Apply(s, w)) && Later(s, Apply(s, w))
  {
    hide Find, TrimSpace, Remove, Marker, Sound, Extends;
    if w.Prune? {
      PruneKeeps(s, w.count);
    } else {
      ExtendsItself(View(s));
      if w.DeleteCollection? {
        if s.live {
          DeletionKeeps(s, w.token);
        }
      } else if s.live {
        ObjectWriteKeeps(s, w);
      }
    }
  }

  lemma {:induction false} PutKeeps(v: Store, row: Row, token: string)
    requires Sound(v) && v.live && token !in v.issued && GoodToken(token) && row.key.calendarID == v.calendarID && TrimSpace(row.key.objectName) != ""
    ensures var t := Record(v, [row] + Remove(v.rows, row.key), true, row.key.objectName, ObjectUpserted, token); View(t) == t && Sound(t) && Extends(v, t)
  {
    hide Find, TrimSpace, Remove, Marker, Extends, View, WellFormedHistory, DeletedMeansGone, GoodToken;
    FindRemove(v.rows, row.key);
    RemovedRows(v.rows, row.key);
    FindInsert(row, Remove(v.rows, row.key));
    RecordKeeps(v, [row] + Remove(v.rows, row.key), row.key.objectName, ObjectUpserted, token);
  }

  lemma {:induction false} DeleteKeeps(v: Store, name: string, token: string)
    requires Sound(v) && v.live && token !in v.issued && GoodToken(token) && Find(v.rows, Key(v.calendarID, name)).Some?
    ensures var t := Record(v, Remove(v.rows, Key(v.calendarID, name)), true, name, ObjectDeleted, token); View(t) == t && Sound(t) && Extends(v, t)
  {
    hide Find, TrimSpace, Remove, Marker, Extends, View, WellFormedHistory, DeletedMeansGone, GoodToken;
    FindRemove(v.rows, Key(v.calendarID, name));
    RemovedRows(v.rows, Key(v.calendarID, name));
    FindIn(v.rows, Key(v.calendarID, name));
    RecordKeeps(v, Remove(v.rows, Key(v.calendarID, name)), name, ObjectDeleted, token);
  }

  /** Transactions of objects, and the update of the collection: they start by making sure of the marker. */
  lemma {:induction false} ObjectWriteKeeps(s: Store, w: Write)
    requires Good(s) && s.live && FreshWrite(s, w) && !w.Prune? && !w.DeleteCollection?
    ensures Good(Apply(s, w)) && Later(s, Apply(s, w))
  {
    hide Find, TrimSpace, Remove, Marker, Extends;
    var v := View(s);
    ExtendsItself(v);
    match w
    case Put(name, component, etag, ics, token) =>
      if TrimSpace(name) != "" {
        PutKeeps(v, Row(Key(s.calendarID, name), component, etag, ics), token);
      }
    case Delete(name, token) =>
      if Find(s.rows, Key(s.calendarID, name)).Some? {
        DeleteKeeps(v, name, token);
      }
    case UpdateCollection(token) =>
      RecordKeeps(v, s.rows, "", CollectionUpdated, token);
  }

  lemma {:induction false} ExtendsItself(s: Store)
    ensures Extends(s, s)
  {
  }

  lemma {:induction false} ExtendsTransitive(s: Store, t: Store, u: Store)
    requires Extends(s, t) && Extends(t, u) && s.issued <= t.issued
    ensures Extends(s, u)
  {
    hide Find, Pending;
    forall i: nat | |s.history| <= i < |u.history| ensures u.history[i].syncToken !in s.issued {
      if i < |t.history| {
        assert u.history[i] == t.history[i];
      }
    }
    forall k: Key | Find(u.rows, k) != Find(s.rows, k) ensures Pending(u.history, |s.history| - 1, k) {
      if Find(u.rows, k) == Find(t.rows, k) {
        PendingExtended(t.history, u.history, |s.history| - 1, k);
      } else {
        PendingWider(u.history, |t.history| - 1, |s.history| - 1, k);
      }
    }
  }

  lemma {:induction false} PendingWider(history: seq<Change>, p: int, q: int, k: Key)
    requires Pending(history, p, k) && q <= p
    ensures Pending(history, q, k)
  {
  }

  lemma {:induction false} PendingExtended(before: seq<Change>, after: seq<Change>, p: int, k: Key)
    requires before <= after && Pending(before, p, k)
    ensures Pending(after, p, k)
  {
    var i: nat :| p < i < |before| && Reported(before, i, k);
    assert after[i] == before[i];
    assert Reported(after, i, k);
  }

  /** Any run of transactions keeps the store good, and what a sync client relies on. */
  lemma {:induction false} RunKeeps(s: Store, ws: seq<Write>)
    requires Good(s) && Fresh(s, ws)
    ensures Good(Run(s, ws)) && Later(s, Run(s, ws))
    decreases |ws|
  {
    hide Good, Extends, Apply, FreshWrite, View;
    if ws == [] {
      ExtendsItself(View(s));
    } else {
      WriteKeeps(s, ws[0]);
      RunKeeps(Apply(s, ws[0]), ws[1..]);
      LaterTransitive(s, Apply(s, ws[0]), Run(s, ws));
    }
  }

  lemma {:induction false} LaterTransitive(s: Store, t: Store, u: Store)
    requires Later(s, t) && Later(t, u)
    ensures Later(s, u)
  {
    hide Extends, WithMarker;
    if u.live {
      ViewKeeps(s);
      ViewKeeps(t);
      ExtendsTransitive(View(s), View(t), View(u));
    }
  }

  /** The view adds at most the marker, which is not reported. */
  lemma {:induction false} ViewKeeps(s: Store)
    ensures var v := View(s);
            && v.issued == s.issued && v.rows == s.rows && v.live == s.live && v.pruned == s.pruned && v.syncToken == s.syncToken
            && s.history <= v.history && |v.history| <= |s.history| + 1
            && forall p: int, k: Key | p >= -1 :: Pending(v.history, p, k) <==> Pending(s.history, p, k)
  {
    assert !HasObjectResponse(Change(s.calendarID, "", CollectionCreated, s.syncToken));
    hide Marker, HasObjectResponse;
    var c := Change(s.calendarID, "", CollectionCreated, s.syncToken);
    if View(s) != s {
      forall p: int, k: Key | p >= -1 ensures Pending(s.history + [c], p, k) <==> Pending(s.history, p, k) {
        if p < |s.history| {
          PendingAppend(s.history, c, p, k);
        }
      }
    }
  }
}
