/** The leader lease of the automatic backpressure manager, and the level its leader publishes. */
module LeaderLease {
  import opened Wrappers

  /** A lock key holds its value until its expiry. Times and durations are milliseconds of one clock. */
  datatype Lease = Lease(owner: string, expires: int)

  predicate Held(lock: Option<Lease>, now: int) {
    lock.Some? && now < lock.value.expires
  }

  /** The election script: renew one's own lock, or take a free one. An expiry of zero deletes a key, and a
      key cannot be set with it. */
  function Elect(lock: Option<Lease>, id: string, now: int, ttl: nat): (r: (Option<Lease>, bool)) {
    if Held(lock, now) && lock.value.owner == id then (if ttl == 0 then None else Some(Lease(id, now + ttl)), true)
    else if !Held(lock, now) && ttl > 0 then (Some(Lease(id, now + ttl)), true)
    else (lock, false)
  }

  // ---------- runs of elections ----------

  datatype Attempt = Attempt(id: string, at: int)

  /** Attempts reach the server one after the other. */
  predicate InOrder(run: seq<Attempt>) {
    forall i, j | 0 <= i < j < |run| :: run[i].at <= run[j].at
  }

  function LockAfter(lock: Option<Lease>, run: seq<Attempt>, ttl: nat): Option<Lease>
    decreases |run|
  {
    if run == [] then lock
    else Elect(LockAfter(lock, run[..|run| - 1], ttl), run[|run| - 1].id, run[|run| - 1].at, ttl).0
  }

  predicate Wins(lock: Option<Lease>, run: seq<Attempt>, ttl: nat, i: nat)
    requires i < |run|
  {
    Elect(LockAfter(lock, run[..i], ttl), run[i].id, run[i].at, ttl).1
  }

  /** After a win, and until another instance wins, the lock is the winner's for a whole lifetime from its last win. */
  lemma {:induction false} HeldSince(lock: Option<Lease>, run: seq<Attempt>, ttl: nat, i: nat, n: nat)
    requires InOrder(run) && i < n <= |run| && ttl > 0 && Wins(lock, run, ttl, i)
    requires n < |run| ==> run[n].at < run[i].at + ttl
    requires run[n - 1].at < run[i].at + ttl
    ensures var l := LockAfter(lock, run[..n], ttl); l.Some? && l.value.owner == run[i].id && l.value.expires >= run[i].at + ttl
    decreases n
  {
    assert run[..n][..n - 1] == run[..n - 1];
    if n > i + 1 {
      HeldSince(lock, run, ttl, i, n - 1);
    }
  }

  /** Main result, hand-over: another instance wins at the earliest one lock lifetime after any win. */
  lemma {:induction false} HandOverTakesLifetime(lock: Option<Lease>, run: seq<Attempt>, ttl: nat, i: nat, j: nat)
    requires InOrder(run) && i < j < |run| && ttl > 0
    requires Wins(lock, run, ttl, i) && Wins(lock, run, ttl, j) && run[i].id != run[j].id
    ensures run[j].at >= run[i].at + ttl
  {
    if run[j].at < run[i].at + ttl {
      HeldSince(lock, run, ttl, i, j);
    }
  }

  /** Main result, renewal: the winner's next attempt within the lifetime wins, and nobody else wins before. */
  lemma {:induction false} RenewalKeepsLeader(lock: Option<Lease>, run: seq<Attempt>, ttl: nat, i: nat, j: nat)
    requires InOrder(run) && i < j < |run| && ttl > 0
    requires Wins(lock, run, ttl, i) && run[j].at < run[i].at + ttl
    ensures Wins(lock, run, ttl, j) <==> run[j].id == run[i].id
  {
    HeldSince(lock, run, ttl, i, j);
  }

  /** Main result, fail-over: an attempt wins as soon as no win happened within one lifetime before it. */
  lemma {:induction false} SilenceFreesLock(lock: Option<Lease>, run: seq<Attempt>, ttl: nat, j: nat)
    requires InOrder(run) && j < |run| && ttl > 0 && !Held(lock, run[j].at)
    requires forall i | 0 <= i < j && Wins(lock, run, ttl, i) :: run[i].at + ttl <= run[j].at
    ensures Wins(lock, run, ttl, j)
  {
    ExpiredBy(lock, run, ttl, j, run[j].at);
  }

  lemma {:induction false} ExpiredBy(lock: Option<Lease>, run: seq<Attempt>, ttl: nat, n: nat, now: int)
    requires n <= |run| && ttl > 0 && !Held(lock, now)
    requires forall i | 0 <= i < n && Wins(lock, run, ttl, i) :: run[i].at + ttl <= now
    ensures !Held(LockAfter(lock, run[..n], ttl), now)
  {
    if n == 0 {
      assert run[..0] == [];
    } else {
      assert run[..n][..n - 1] == run[..n - 1];
      ExpiredBy(lock, run, ttl, n - 1, now);
      assert Wins(lock, run, ttl, n - 1) || !Wins(lock, run, ttl, n - 1);
    }
  }

  /** Main result, exclusion: when every check of the leader ends within the lock lifetime of its election, the
      checks of different instances do not overlap. */
  lemma {:induction false} ChecksDoNotOverlap(lock: Option<Lease>, run: seq<Attempt>, ends: seq<int>, ttl: nat, i: nat, j: nat)
    requires InOrder(run) && |ends| == |run| && i < j < |run| && ttl > 0
    requires forall k | 0 <= k < |run| && Wins(lock, run, ttl, k) :: run[k].at <= ends[k] <= run[k].at + ttl
    requires Wins(lock, run, ttl, i) && Wins(lock, run, ttl, j) && run[i].id != run[j].id
    ensures ends[i] <= run[j].at
  {
    HandOverTakesLifetime(lock, run, ttl, i, j);
  }

  /** Distinct instance ids are needed: two processes with one id are both leader at once. */
  lemma {:induction false} SharedIdBreaksExclusion(id: string, now: int, ttl: nat)
    requires ttl > 0
    ensures var run := [Attempt(id, now), Attempt(id, now)]; Wins(None, run, ttl, 0) && Wins(None, run, ttl, 1)
  {
    var run := [Attempt(id, now), Attempt(id, now)];
    assert run[..0] == [] && run[..1] == [run[0]] && [run[0]][..0] == [];
  }

  // ---------- levels ----------

  datatype Level = Normal | Warning | Danger | Critical

  /** What one check reads: no memory figures when the query failed; no depth for a stream whose query failed. */
  datatype Reading = Reading(memory: Option<(nat, int)>, depths: seq<Option<nat>>)

  datatype Limits = Limits(memoryWarning: real, memoryDanger: real, memoryCritical: real, queueWarning: int, queueDanger: int, queueCritical: int)

  function Order(l: Level): nat {
    match l
    case Normal => 0
    case Warning => 1
    case Danger => 2
    case Critical => 3
  }

  function HigherLevel(a: Level, b: Level): Level {
    if Order(a) >= Order(b) then a else b
  }

  function MemoryLevel(r: Reading, limits: Limits, current: Level): Level {
    if r.memory.None? then current
    else if r.memory.value.1 <= 0 then Normal
    else
      var ratio := r.memory.value.0 as real / r.memory.value.1 as real;
      if ratio >= limits.memoryCritical then Critical
      else if ratio >= limits.memoryDanger then Danger
      else if ratio >= limits.memoryWarning then Warning else Normal
  }

  function Depth(depths: seq<Option<nat>>): nat {
    if depths == [] then 0 else (if depths[0].Some? then depths[0].value else 0) + Depth(depths[1..])
  }

  function QueueLevel(r: Reading, limits: Limits): Level {
    var total := Depth(r.depths);
    if r.depths == [] then Normal
    else if total >= limits.queueCritical then Critical
    else if total >= limits.queueDanger then Danger
    else if total >= limits.queueWarning then Warning else Normal
  }

  function ComputeLevel(r: Reading, limits: Limits, current: Level): Level {
    HigherLevel(MemoryLevel(r, limits, current), QueueLevel(r, limits))
  }

  // ---------- one check ----------

  /** A check of one of the instances: who, with which reading, and what goes wrong. */
  datatype Check = OneCheck(id: string, at: int, reachable: bool, reading: Reading, writeFails: bool)

  datatype World = World(lock: Option<Lease>, published: Level, remembered: map<string, Level>)

  function Remembered(w: World, id: string): Level {
    if id in w.remembered then w.remembered[id] else Normal
  }

  predicate Leads(w: World, c: Check, ttl: nat) {
    c.reachable && Elect(w.lock, c.id, c.at, ttl).1
  }

  function AfterCheck(w: World, c: Check, ttl: nat, limits: Limits): World {
    if !c.reachable then w
    else
      var (lock, leader) := Elect(w.lock, c.id, c.at, ttl);
      if !leader then w.(lock := lock)
      else
        var level := ComputeLevel(c.reading, limits, Remembered(w, c.id));
        World(lock, if level != Remembered(w, c.id) && !c.writeFails then level else w.published, w.remembered[c.id := level])
  }

  // ---------- the manager ----------

  class RedisServer {
    var lock: Option<Lease>
    var published: Level

    constructor ()
      ensures lock == None && published == Normal
    {
      lock, published := None, Normal;
    }
  }

  class Manager {
    const id: string
    const ttl: nat
    const limits: Limits
    var currentLevel: Level

    constructor (id: string, ttl: nat, limits: Limits)
      ensures currentLevel == Normal && this.id == id && this.ttl == ttl && this.limits == limits
    {
      this.id, this.ttl, this.limits, currentLevel := id, ttl, limits, Normal;
    }

    method IsLeader(server: RedisServer, now: int, reachable: bool) returns (leader: bool)
      modifies server`lock
      ensures (server.lock, leader) == if reachable then Elect(old(server.lock), id, now, ttl) else (old(server.lock), false)
    {
      if !reachable { return false; }
      if Held(server.lock, now) && server.lock.value.owner == id {
        server.lock := if ttl == 0 then None else Some(Lease(id, now + ttl));
        return true;
      }
      if !Held(server.lock, now) && ttl > 0 {
        server.lock := Some(Lease(id, now + ttl));
        return true;
      }
      return false;
    }

    /** One check. The leader remembers the level it computed; the level is published when it differs from the
        remembered one, and the outcome of that write is not looked at. */
    method Check(server: RedisServer, now: int, reachable: bool, r: Reading, writeFails: bool) returns (leader: bool)
      modifies this`currentLevel, server
      ensures var c, w := OneCheck(id, now, reachable, r, writeFails), World(old(server.lock), old(server.published), map[id := old(currentLevel)]);
              var w' := AfterCheck(w, c, ttl, limits);
              && leader == Leads(w, c, ttl)
              && server.lock == w'.lock && server.published == w'.published && currentLevel == Remembered(w', id)
    {
      leader := IsLeader(server, now, reachable);
      if !leader { return; }
      var level := HigherLevel(MemoryLevel(r, limits, currentLevel), QueueLevel(r, limits));
      var changed := level != currentLevel;
      if changed {
        currentLevel := level;
      }
      if changed && !writeFails {
        server.published := level;
      }
    }
  }

  // ---------- what is published over runs ----------

  const FRESH := World(None, Normal, map[])

  /** The state after the first `n` checks of a run. */
  function WorldAt(cs: seq<Check>, n: nat, ttl: nat, limits: Limits): World
    requires n <= |cs|
  {
    if n == 0 then FRESH else AfterCheck(WorldAt(cs, n - 1, ttl, limits), cs[n - 1], ttl, limits)
  }

  function Published(cs: seq<Check>, ttl: nat, limits: Limits): Level {
    WorldAt(cs, |cs|, ttl, limits).published
  }

  predicate LeadsAt(cs: seq<Check>, i: nat, ttl: nat, limits: Limits)
    requires i < |cs|
  {
    Leads(WorldAt(cs, i, ttl, limits), cs[i], ttl)
  }

  /** The level that a check of a leader computes. */
  function LevelAt(cs: seq<Check>, i: nat, ttl: nat, limits: Limits): Level
    requires i < |cs|
  {
    ComputeLevel(cs[i].reading, limits, Remembered(WorldAt(cs, i, ttl, limits), cs[i].id))
  }

  /** The check changes the level that its instance remembers, and its write succeeds. */
  predicate WritesAt(cs: seq<Check>, i: nat, ttl: nat, limits: Limits)
    requires i < |cs|
  {
    && LeadsAt(cs, i, ttl, limits) && !cs[i].writeFails
    && LevelAt(cs, i, ttl, limits) != Remembered(WorldAt(cs, i, ttl, limits), cs[i].id)
  }

  /** The last successful write of a run is at `k`, or there is none. */
  predicate LastWrite(cs: seq<Check>, k: Option<nat>, ttl: nat, limits: Limits) {
    && (k.Some? ==> k.value < |cs| && WritesAt(cs, k.value, ttl, limits))
    && (forall i: nat | i < |cs| && (k.Some? ==> k.value < i) :: !WritesAt(cs, i, ttl, limits))
  }

  predicate LastLeader(cs: seq<Check>, j: nat, ttl: nat, limits: Limits) {
    j < |cs| && LeadsAt(cs, j, ttl, limits) && forall i: nat | j < i < |cs| :: !LeadsAt(cs, i, ttl, limits)
  }

  predicate OwnWritesSucceed(cs: seq<Check>, id: string) {
    forall i | 0 <= i < |cs| && cs[i].id == id :: !cs[i].writeFails
  }

  lemma {:induction false} PublishedSince(cs: seq<Check>, from: nat, n: nat, ttl: nat, limits: Limits)
    requires from <= n <= |cs| && forall i: nat | from <= i < n :: !WritesAt(cs, i, ttl, limits)
    ensures WorldAt(cs, n, ttl, limits).published == WorldAt(cs, from, ttl, limits).published
    decreases n
  {
    hide ComputeLevel;
    if from < n {
      PublishedSince(cs, from, n - 1, ttl, limits);
      assert !WritesAt(cs, n - 1, ttl, limits);
    }
  }

  lemma {:induction false} RememberedSince(cs: seq<Check>, from: nat, n: nat, id: string, ttl: nat, limits: Limits)
    requires from <= n <= |cs| && forall i: nat | from <= i < n && cs[i].id == id ::
               !LeadsAt(cs, i, ttl, limits) || LevelAt(cs, i, ttl, limits) == Remembered(WorldAt(cs, i, ttl, limits), id)
    ensures Remembered(WorldAt(cs, n, ttl, limits), id) == Remembered(WorldAt(cs, from, ttl, limits), id)
    decreases n
  {
    hide ComputeLevel;
    if from < n {
      RememberedSince(cs, from, n - 1, id, ttl, limits);
    }
  }

  /** The published level is that of the last successful write. */
  lemma {:induction false} PublishedIsLastWritten(cs: seq<Check>, k: Option<nat>, ttl: nat, limits: Limits)
    requires LastWrite(cs, k, ttl, limits)
    ensures Published(cs, ttl, limits) == if k.None? then Normal else LevelAt(cs, k.value, ttl, limits)
  {
    hide ComputeLevel;
    PublishedSince(cs, if k.None? then 0 else k.value + 1, |cs|, ttl, limits);
  }

  /** Main result: after any run of checks by any instances, the published level is the one that the last leader
      computed if and only if the last successful write carried that level, or there was none and it is `normal`.
      When the last leader's own writes succeed, it is another level if and only if the last successful write is
      another instance's and carried another level. */
  lemma {:induction false} LeaderPublishesIff(cs: seq<Check>, j: nat, k: Option<nat>, ttl: nat, limits: Limits)
    requires LastLeader(cs, j, ttl, limits) && LastWrite(cs, k, ttl, limits)
    ensures var level := LevelAt(cs, j, ttl, limits);
            && (Published(cs, ttl, limits) == level <==> if k.None? then level == Normal else LevelAt(cs, k.value, ttl, limits) == level)
            && (OwnWritesSucceed(cs, cs[j].id) ==>
                  (Published(cs, ttl, limits) != level <==> k.Some? && cs[k.value].id != cs[j].id && LevelAt(cs, k.value, ttl, limits) != level))
  {
    hide ComputeLevel, WorldAt, Elect;
    PublishedIsLastWritten(cs, k, ttl, limits);
    var id := cs[j].id;
    if OwnWritesSucceed(cs, id) && (k.None? || cs[k.value].id == id) {
      RememberedIsWritten(cs, k, id, ttl, limits);
      RememberedByLast(cs, j, ttl, limits);
    }
  }

  /** An instance whose writes succeed, and that wrote last, remembers what it wrote. */
  lemma {:induction false} RememberedIsWritten(cs: seq<Check>, k: Option<nat>, id: string, ttl: nat, limits: Limits)
    requires LastWrite(cs, k, ttl, limits) && OwnWritesSucceed(cs, id) && (k.Some? ==> cs[k.value].id == id)
    ensures Remembered(WorldAt(cs, |cs|, ttl, limits), id) == if k.None? then Normal else LevelAt(cs, k.value, ttl, limits)
  {
    hide ComputeLevel, Elect;
    var from := if k.None? then 0 else k.value + 1;
    forall i: nat | from <= i < |cs| && cs[i].id == id
      ensures !LeadsAt(cs, i, ttl, limits) || LevelAt(cs, i, ttl, limits) == Remembered(WorldAt(cs, i, ttl, limits), id)
    {
      assert !WritesAt(cs, i, ttl, limits);
    }
    RememberedSince(cs, from, |cs|, id, ttl, limits);
  }

  /** The last leader remembers the level it computed. */
  lemma {:induction false} RememberedByLast(cs: seq<Check>, j: nat, ttl: nat, limits: Limits)
    requires LastLeader(cs, j, ttl, limits)
    ensures Remembered(WorldAt(cs, |cs|, ttl, limits), cs[j].id) == LevelAt(cs, j, ttl, limits)
  {
    hide ComputeLevel, Elect;
    assert Remembered(WorldAt(cs, j + 1, ttl, limits), cs[j].id) == LevelAt(cs, j, ttl, limits);
    RememberedSince(cs, j + 1, |cs|, cs[j].id, ttl, limits);
  }

  /** As long as one instance alone checks and its writes succeed, the published level is the one it computed. */
  lemma {:induction false} SoleInstancePublishes(cs: seq<Check>, j: nat, ttl: nat, limits: Limits)
    requires LastLeader(cs, j, ttl, limits) && forall i | 0 <= i < |cs| :: cs[i].id == cs[j].id && !cs[i].writeFails
    ensures Published(cs, ttl, limits) == LevelAt(cs, j, ttl, limits)
  {
    hide ComputeLevel, WorldAt, Elect;
    var k := FindLastWrite(cs, |cs|, ttl, limits);
    LeaderPublishesIff(cs, j, k, ttl, limits);
  }

  lemma {:induction false} FindLastWrite(cs: seq<Check>, n: nat, ttl: nat, limits: Limits) returns (k: Option<nat>)
    requires n <= |cs| && forall i: nat | n <= i < |cs| :: !WritesAt(cs, i, ttl, limits)
    ensures LastWrite(cs, k, ttl, limits)
    decreases n
  {
    hide ComputeLevel, WorldAt, Elect;
    if n == 0 {
      k := None;
    } else if WritesAt(cs, n - 1, ttl, limits) {
      k := Some(n - 1);
    } else {
      k := FindLastWrite(cs, n - 1, ttl, limits);
    }
  }

  /** A leader that lost and regained the lease finds its level unchanged and leaves another instance's level
      published: here the queue is full, and `normal` stays published. */
  lemma {:induction false} StaleLevelStaysPublished(limits: Limits)
    requires limits.queueCritical == 100 && limits.queueDanger == 50 && limits.queueWarning == 10
    ensures var full, idle := Reading(Some((0, 0)), [Some(1000)]), Reading(Some((0, 0)), [Some(0)]);
            var cs := [OneCheck("a", 0, true, full, false), OneCheck("b", 100, true, full, false), OneCheck("b", 105, true, idle, false), OneCheck("a", 200, true, full, false)];
            LastLeader(cs, 3, 15, limits) && LevelAt(cs, 3, 15, limits) == Critical && Published(cs, 15, limits) == Normal
  {
    var full, idle := Reading(Some((0, 0)), [Some(1000)]), Reading(Some((0, 0)), [Some(0)]);
    var cs := [OneCheck("a", 0, true, full, false), OneCheck("b", 100, true, full, false), OneCheck("b", 105, true, idle, false), OneCheck("a", 200, true, full, false)];
    FullAndIdle(limits, full, idle);
    hide ComputeLevel;
    assert "a" != "b";
    assert WorldAt(cs, 1, 15, limits) == World(Some(Lease("a", 15)), Critical, map["a" := Critical]);
    assert WorldAt(cs, 2, 15, limits) == World(Some(Lease("b", 115)), Critical, map["a" := Critical, "b" := Critical]);
    assert WorldAt(cs, 3, 15, limits) == World(Some(Lease("b", 120)), Normal, map["a" := Critical, "b" := Normal]);
  }

  lemma {:induction false} FullAndIdle(limits: Limits, full: Reading, idle: Reading)
    requires limits.queueCritical == 100 && limits.queueDanger == 50 && limits.queueWarning == 10
    requires full == Reading(Some((0, 0)), [Some(1000)]) && idle == Reading(Some((0, 0)), [Some(0)])
    ensures forall l: Level :: ComputeLevel(full, limits, l) == Critical && ComputeLevel(idle, limits, l) == Normal
  {
    assert Depth(full.depths) == 1000 && Depth(idle.depths) == 0;
    hide Depth;
  }
}
