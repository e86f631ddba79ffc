/** The change log of a calendar and its coalescing to one change per object. */
module Coalesce {
  import opened Text

  datatype Action = CollectionCreated | CollectionUpdated | CollectionDeleted | ObjectUpserted | ObjectDeleted

  datatype Key = Key(calendarID: string, objectName: string)

  datatype Change = Change(calendarID: string, objectName: string, action: Action, syncToken: string)

  function KeyOf(c: Change): Key {
    Key(c.calendarID, c.objectName)
  }

  /** Changes of the collection itself are not reported. */
  predicate HasObjectResponse(c: Change) {
    c.action != CollectionDeleted && c.action != CollectionUpdated && TrimSpace(c.objectName) != ""
  }

  /** The change at `i` is reported and is the last one of its object among the first `n`. */
  predicate Kept<T>(items: seq<T>, changeOf: T -> Change, n: nat, i: nat)
    requires i < n <= |items|
  {
    && HasObjectResponse(changeOf(items[i]))
    && forall j | i < j < n :: HasObjectResponse(changeOf(items[j])) ==> KeyOf(changeOf(items[j])) != KeyOf(changeOf(items[i]))
  }

  /** The kept items among the first `n`, from index `i` on, in order. */
  function Select<T>(items: seq<T>, changeOf: T -> Change, n: nat, i: nat): seq<T>
    requires i <= n <= |items|
    decreases n - i
  {
    if i == n then []
    else (if Kept(items, changeOf, n, i) then [items[i]] else []) + Select(items, changeOf, n, i + 1)
  }

  /** Exactly the last reported change of each object, in order of last occurrence. */
  function Coalesced<T>(items: seq<T>, changeOf: T -> Change): seq<T> {
    Select(items, changeOf, |items|, 0)
  }

  // ---------- the algorithm ----------

  datatype Entry<T> = Entry(item: T, active: bool)

  function ActiveItems<T>(entries: seq<Entry<T>>): seq<T> {
    if entries == [] then []
    else (if entries[0].active then [entries[0].item] else []) + ActiveItems(entries[1..])
  }

  /** An active entry is the latest one of its object, and the index knows where it is. */
  ghost predicate Indexed<T>(entries: seq<Entry<T>>, changeOf: T -> Change, latestIndex: map<Key, nat>) {
    && (forall k | k in latestIndex :: latestIndex[k] < |entries| && KeyOf(changeOf(entries[latestIndex[k]].item)) == k)
    && forall j | 0 <= j < |entries| && entries[j].active ::
         KeyOf(changeOf(entries[j].item)) in latestIndex && latestIndex[KeyOf(changeOf(entries[j].item))] == j
  }

  method CoalesceChanges<T>(items: seq<T>, changeOf: T -> Change) returns (coalesced: seq<T>)
    ensures coalesced == Coalesced(items, changeOf)
  {
    hide HasObjectResponse, Select, ActiveItems;
    var entries: seq<Entry<T>> := [];
    var latestIndex: map<Key, nat> := map[];
    EmptySelection(items, changeOf);
    for n := 0 to |items|
      invariant ActiveItems(entries) == Select(items, changeOf, n, 0)
      invariant Indexed(entries, changeOf, latestIndex)
    {
      var item := items[n];
      SelectNext(items, changeOf, n, 0);
      if !HasObjectResponse(changeOf(item)) {
        continue;
      }
      var key := KeyOf(changeOf(item));
      ghost var before := entries;
      if key in latestIndex {
        var previous := latestIndex[key];
        entries := entries[previous := entries[previous].(active := false)];
      }
      Deactivated(before, entries, changeOf, key, latestIndex);
      ActiveAppend(entries, item);
      latestIndex := latestIndex[key := |entries|];
      entries := entries + [Entry(item, true)];
    }
    coalesced := [];
    assert entries[0..] == entries;
    ActiveAt(entries, |entries|);
    for i := 0 to |entries|
      invariant ActiveItems(entries) == coalesced + ActiveItems(entries[i..])
    {
      ActiveAt(entries, i);
      if entries[i].active {
        coalesced := coalesced + [entries[i].item];
      }
    }
  }

  lemma {:induction false} EmptySelection<T>(items: seq<T>, changeOf: T -> Change)
    ensures Select(items, changeOf, 0, 0) == [] && ActiveItems<T>([]) == []
  {
  }

  lemma {:induction false} ActiveAt<T>(entries: seq<Entry<T>>, i: nat)
    requires i <= |entries|
    ensures i == |entries| ==> ActiveItems(entries[i..]) == []
    ensures i < |entries| ==>
              ActiveItems(entries[i..]) == (if entries[i].active then [entries[i].item] else []) + ActiveItems(entries[i + 1..])
  {
    if i < |entries| { assert entries[i..][1..] == entries[i + 1..]; }
  }

  function Without<T>(items: seq<T>, changeOf: T -> Change, key: Key): seq<T> {
    if items == [] then []
    else (if KeyOf(changeOf(items[0])) == key then [] else [items[0]]) + Without(items[1..], changeOf, key)
  }

  lemma {:induction false} KeptLast<T>(items: seq<T>, changeOf: T -> Change, n: nat)
    requires n < |items|
    ensures Kept(items, changeOf, n + 1, n) == HasObjectResponse(changeOf(items[n]))
  {
    hide HasObjectResponse;
  }

  lemma {:induction false} KeptNext<T>(items: seq<T>, changeOf: T -> Change, n: nat, i: nat)
    requires i < n < |items|
    ensures Kept(items, changeOf, n + 1, i)
         == (Kept(items, changeOf, n, i)
             && (HasObjectResponse(changeOf(items[n])) ==> KeyOf(changeOf(items[n])) != KeyOf(changeOf(items[i]))))
  {
    hide HasObjectResponse;
  }

  lemma {:induction false} SelectNext<T>(items: seq<T>, changeOf: T -> Change, n: nat, i: nat)
    requires i <= n < |items|
    ensures var c := changeOf(items[n]);
            Select(items, changeOf, n + 1, i)
            == if HasObjectResponse(c) then Without(Select(items, changeOf, n, i), changeOf, KeyOf(c)) + [items[n]]
               else Select(items, changeOf, n, i)
    decreases n - i
  {
    hide HasObjectResponse, Kept;
    if i == n {
      KeptLast(items, changeOf, n);
      assert Select(items, changeOf, n + 1, n + 1) == [];
    } else {
      SelectNext(items, changeOf, n, i + 1);
      KeptNext(items, changeOf, n, i);
      var c, rest := changeOf(items[n]), Select(items, changeOf, n, i + 1);
      if Kept(items, changeOf, n, i) {
        WithoutCons(items[i], rest, changeOf, KeyOf(c));
      } else {
        assert [] + rest == rest;
      }
    }
  }

  lemma {:induction false} WithoutCons<T>(item: T, rest: seq<T>, changeOf: T -> Change, key: Key)
    ensures Without([item] + rest, changeOf, key)
            == (if KeyOf(changeOf(item)) == key then [] else [item]) + Without(rest, changeOf, key)
  {
    assert ([item] + rest)[1..] == rest;
  }

  lemma {:induction false} Deactivated<T>(before: seq<Entry<T>>, after: seq<Entry<T>>, changeOf: T -> Change, key: Key, latestIndex: map<Key, nat>)
    requires Indexed(before, changeOf, latestIndex)
    requires after == if key in latestIndex then before[latestIndex[key] := before[latestIndex[key]].(active := false)] else before
    ensures ActiveItems(after) == Without(ActiveItems(before), changeOf, key)
    ensures Indexed(after, changeOf, latestIndex)
  {
    DeactivateAll(before, after, changeOf, key);
  }

  lemma {:induction false} DeactivateAll<T>(before: seq<Entry<T>>, after: seq<Entry<T>>, changeOf: T -> Change, key: Key)
    requires |after| == |before|
    requires forall j | 0 <= j < |before| :: after[j].item == before[j].item
    requires forall j | 0 <= j < |before| :: after[j].active == (before[j].active && KeyOf(changeOf(before[j].item)) != key)
    ensures ActiveItems(after) == Without(ActiveItems(before), changeOf, key)
  {
    if before != [] {
      DeactivateAll(before[1..], after[1..], changeOf, key);
      var rest := ActiveItems(before[1..]);
      if before[0].active {
        WithoutCons(before[0].item, rest, changeOf, key);
      } else {
        assert ActiveItems(before) == rest;
      }
    }
  }

  lemma {:induction false} ActiveAppend<T>(entries: seq<Entry<T>>, item: T)
    ensures ActiveItems(entries + [Entry(item, true)]) == ActiveItems(entries) + [item]
  {
    if entries != [] {
      assert (entries + [Entry(item, true)])[1..] == entries[1..] + [Entry(item, true)];
      ActiveAppend(entries[1..], item);
    }
  }

  // ---------- what coalescing keeps ----------

  /** Main result: the coalesced items are those at strictly increasing positions `index`, and these
      are exactly the positions of the last reported change of some object. */
  lemma {:induction false} CoalescedPositions<T>(items: seq<T>, changeOf: T -> Change, i: nat) returns (index: seq<nat>)
    requires i <= |items|
    ensures var r := Select(items, changeOf, |items|, i);
            && |index| == |r|
            && (forall j | 0 <= j < |r| :: i <= index[j] < |items| && r[j] == items[index[j]])
    ensures forall a, b | 0 <= a < b < |index| :: index[a] < index[b]
    ensures forall k | i <= k < |items| :: k in index <==> Kept(items, changeOf, |items|, k)
    decreases |items| - i
  {
    hide Kept, HasObjectResponse;
    if i == |items| {
      index := [];
    } else {
      var rest := CoalescedPositions(items, changeOf, i + 1);
      var r := Select(items, changeOf, |items|, i + 1);
      if Kept(items, changeOf, |items|, i) {
        index := [i] + rest;
        PrependPosition(items, i, rest, r);
      } else {
        index := rest;
        assert [] + r == r;
      }
    }
  }

  lemma {:induction false} PrependPosition<T>(items: seq<T>, i: nat, rest: seq<nat>, r: seq<T>)
    requires i < |items| && |rest| == |r|
    requires forall j | 0 <= j < |r| :: i < rest[j] < |items| && r[j] == items[rest[j]]
    requires forall a, b | 0 <= a < b < |rest| :: rest[a] < rest[b]
    ensures var index, r' := [i] + rest, [items[i]] + r;
            && (forall j | 0 <= j < |r'| :: i <= index[j] < |items| && r'[j] == items[index[j]])
            && (forall a, b | 0 <= a < b < |index| :: index[a] < index[b])
            && (forall k: nat :: k in index <==> k == i || k in rest)
  {
  }

  /** Records, for each object, the last action replayed. */
  function Replay<T>(items: seq<T>, changeOf: T -> Change, m: map<Key, Action>): map<Key, Action> {
    if items == [] then m
    else
      var c := changeOf(items[0]);
      Replay(items[1..], changeOf, if HasObjectResponse(c) then m[KeyOf(c) := c.action] else m)
  }

  /** Main result: replaying the coalesced changes ends where replaying all of them ends. */
  lemma {:induction false} CoalescedReplay<T>(items: seq<T>, changeOf: T -> Change, m: map<Key, Action>)
    ensures Replay(Coalesced(items, changeOf), changeOf, m) == Replay(items, changeOf, m)
  {
    ReplaySelected(items, changeOf, m, |items|);
    assert items[..|items|] == items;
  }

  lemma {:induction false} ReplaySelected<T>(items: seq<T>, changeOf: T -> Change, m: map<Key, Action>, n: nat)
    requires n <= |items|
    ensures Replay(Select(items, changeOf, n, 0), changeOf, m) == Replay(items[..n], changeOf, m)
  {
    hide HasObjectResponse, Kept;
    if n > 0 {
      ReplaySelected(items, changeOf, m, n - 1);
      var c, s := changeOf(items[n - 1]), Select(items, changeOf, n - 1, 0);
      SelectNext(items, changeOf, n - 1, 0);
      assert items[..n] == items[..n - 1] + [items[n - 1]];
      ReplayAppend(items[..n - 1], items[n - 1], changeOf, m);
      if HasObjectResponse(c) {
        ReplayAppend(Without(s, changeOf, KeyOf(c)), items[n - 1], changeOf, m);
        ReplayWithout(s, changeOf, KeyOf(c), c.action, m, m);
      }
    }
  }

  lemma {:induction false} ReplayAppend<T>(items: seq<T>, item: T, changeOf: T -> Change, m: map<Key, Action>)
    ensures var c, r := changeOf(item), Replay(items, changeOf, m);
            Replay(items + [item], changeOf, m) == if HasObjectResponse(c) then r[KeyOf(c) := c.action] else r
  {
    hide HasObjectResponse;
    if items != [] {
      var c := changeOf(items[0]);
      assert (items + [item])[1..] == items[1..] + [item];
      ReplayAppend(items[1..], item, changeOf, if HasObjectResponse(c) then m[KeyOf(c) := c.action] else m);
    } else {
      assert (items + [item])[1..] == [];
    }
  }

  lemma {:induction false} ReplayWithout<T>(items: seq<T>, changeOf: T -> Change, key: Key, a: Action, m: map<Key, Action>, m': map<Key, Action>)
    requires m[key := a] == m'[key := a]
    ensures Replay(Without(items, changeOf, key), changeOf, m)[key := a] == Replay(items, changeOf, m')[key := a]
  {
    hide HasObjectResponse;
    if items != [] {
      var c, rest := changeOf(items[0]), items[1..];
      var next := if HasObjectResponse(c) then m[KeyOf(c) := c.action] else m;
      var next' := if HasObjectResponse(c) then m'[KeyOf(c) := c.action] else m';
      if KeyOf(c) == key {
        assert Without(items, changeOf, key) == Without(rest, changeOf, key);
        assert m[key := a] == next'[key := a];
        ReplayWithout(rest, changeOf, key, a, m, next');
      } else {
        var w := Without(rest, changeOf, key);
        assert Without(items, changeOf, key) == [items[0]] + w && ([items[0]] + w)[1..] == w;
        SameBeyond(m, m', key, a, KeyOf(c), c.action);
        ReplayWithout(rest, changeOf, key, a, next, next');
      }
    }
  }

  lemma {:induction false} SameBeyond(m: map<Key, Action>, m': map<Key, Action>, key: Key, a: Action, k: Key, b: Action)
    requires m[key := a] == m'[key := a] && k != key
    ensures m[k := b][key := a] == m'[k := b][key := a]
  {
    assert m[k := b][key := a] == m[key := a][k := b];
    assert m'[k := b][key := a] == m'[key := a][k := b];
  }
}
