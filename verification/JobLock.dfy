/** The in-memory job locks of the batch worker, and any number of workers using them. */
module JobLock {
  import opened Wrappers

  class LockTable {
    var marked: set<string>

    constructor ()
      ensures marked == {}
    {
      marked := {};
    }
  }

  /** How a handler ends. */
  datatype Ending = Returned | ReturnedError | Panicked

  class Lock {
    const table: LockTable
    const jobName: string
    var held: bool

    constructor (table: LockTable, jobName: string)
      ensures !held && this.table == table && this.jobName == jobName
    {
      this.table, this.jobName, held := table, jobName, false;
    }

    method Acquire() returns (acquired: bool)
      modifies this`held, table
      ensures acquired == old(held || jobName !in table.marked)
      ensures held == acquired
      ensures table.marked == if acquired && !old(held) then old(table.marked) + {jobName} else old(table.marked)
    {
      if held { return true; }
      if jobName in table.marked { return false; }
      table.marked := table.marked + {jobName};
      held := true;
      return true;
    }

    method Release()
      modifies this`held, table
      ensures !held
      ensures table.marked == if old(held) then old(table.marked) - {jobName} else old(table.marked)
    {
      if !held { return; }
      table.marked := table.marked - {jobName};
      held := false;
    }
  }

  datatype Note = HandlerPanicked | HandlerFailed

  /** One tick of a worker that calls a handler with this ending: the handler runs if the lock is free, what went
      wrong is logged, and the lock is released however the handler ends. */
  method RunTick(lock: Lock, ending: Ending) returns (ran: bool, logged: seq<Note>)
    requires !lock.held
    modifies lock`held, lock.table
    ensures ran == old(lock.jobName !in lock.table.marked)
    ensures !lock.held && lock.table.marked == old(lock.table.marked)
    ensures logged == if !ran || ending == Returned then [] else if ending == Panicked then [HandlerPanicked] else [HandlerFailed]
  {
    logged := [];
    ran := lock.Acquire();
    if !ran { return; }
    if ending == ReturnedError {
      logged := logged + [HandlerFailed];
    }
    if ending == Panicked {
      logged := logged + [HandlerPanicked];
    }
    lock.Release();
  }

  // ---------- goroutines ----------

  /** What `runJob` and `runJobSafely` defer. */
  datatype Deferred = WaitGroupDone | TickerStop | Cleanup

  /** Where a call stands: `runJob` waits or returns; `runJobSafely` is about to defer, to call the handler, or to
      return; the handler runs; the deferred cleanup recovers, releases the lock, and returns. */
  datatype Code = Waiting | Deferring | Calling | Returning | Handling | Recovering | Releasing | Cleaned

  datatype Stack<T> = Empty | Push(top: T, below: Stack<T>)

  /** What was deferred last runs first. */
  datatype Frame = Frame(code: Code, deferred: Stack<Deferred>)

  const NOTHING: Stack<Deferred> := Empty
  const DONE := Push(WaitGroupDone, NOTHING)
  const CLEANUP := Push(Cleanup, NOTHING)
  const LOOP := Frame(Waiting, Push(TickerStop, DONE))

  /** The goroutine of one job: its lock object, whether its wait group was told, and its calls. */
  datatype Worker = Worker(job: string, held: bool, done: bool, stack: Stack<Frame>, panicking: bool)

  datatype Event = Started(worker: nat) | Finished(worker: nat, ending: Ending) | Recovered(worker: nat) | Released(worker: nat)

  datatype World = World(marked: set<string>, workers: seq<Worker>, crashed: bool, history: seq<Event>)

  datatype Step = Join(job: string) | Tick(worker: nat) | Quit(worker: nat) | End(worker: nat, ending: Ending) | Next(worker: nat)

  const EMPTY := World({}, [], false, [])

  function Replaced(me: Worker, f: Frame): Worker
    requires me.stack.Push?
  {
    me.(stack := Push(f, me.stack.below))
  }

  /** A call returns, or a panic goes through it: what it deferred last runs next, and then the call is over. */
  function Unwind(me: Worker): Worker
    requires me.stack.Push?
  {
    var top := me.stack.top;
    match top.deferred
    case Empty => me.(stack := me.stack.below)
    case Push(last, rest) =>
      var left := Replaced(me, Frame(top.code, rest));
      match last
      case WaitGroupDone => left.(done := true)
      case TickerStop => left
      case Cleanup => left.(stack := Push(Frame(Recovering, Empty), left.stack))
  }

  /** The next step of a goroutine by itself, and what it adds to the history. */
  function Advance(me: Worker, i: nat): (Worker, Option<Event>) {
    if me.stack.Empty? then (me, None)
    else
      var top := me.stack.top;
      match top.code
      case Recovering => (Replaced(me, Frame(Releasing, top.deferred)).(panicking := false), if me.panicking then Some(Recovered(i)) else None)
      case Releasing => (Replaced(me, Frame(Cleaned, top.deferred)).(held := false), Some(Released(i)))
      case Cleaned => (me.(stack := me.stack.below), None)
      case Returning => (Unwind(me), None)
      case Deferring =>
        if me.panicking then (Unwind(me), None) else (Replaced(me, Frame(Calling, Push(Cleanup, top.deferred))), None)
      case Calling =>
        if me.panicking then (Unwind(me), None)
        else (me.(stack := Push(Frame(Handling, Empty), Push(Frame(Returning, top.deferred), me.stack.below))), Some(Started(i)))
      case Handling => (if me.panicking then Unwind(me) else me, None)
      case Waiting => (if me.panicking then Unwind(me) else me, None)
  }

  function Logged(history: seq<Event>, e: Option<Event>): seq<Event> {
    if e.Some? then history + [e.value] else history
  }

  predicate AtTop(w: World, i: nat, code: Code) {
    i < |w.workers| && w.workers[i].stack.Push? && w.workers[i].stack.top.code == code && !w.workers[i].panicking
  }

  /** A crash of one goroutine ends the process. */
  function Take(w: World, s: Step): World {
    if w.crashed then w
    else
      match s
      case Join(job) => w.(workers := w.workers + [Worker(job, false, false, Push(LOOP, Empty), false)])
      case Tick(i) =>
        if !AtTop(w, i, Waiting) then w
        else
          var me := w.workers[i];
          if !me.held && me.job in w.marked then w
          else w.(marked := w.marked + {me.job}, workers := w.workers[i := me.(held := true, stack := Push(Frame(Deferring, Empty), me.stack))])
      case Quit(i) =>
        if !AtTop(w, i, Waiting) then w
        else w.(workers := w.workers[i := Replaced(w.workers[i], Frame(Returning, w.workers[i].stack.top.deferred))])
      case End(i, ending) =>
        if !AtTop(w, i, Handling) then w
        else
          var me := w.workers[i];
          w.(workers := w.workers[i := if ending == Panicked then me.(panicking := true) else me.(stack := me.stack.below)],
             history := w.history + [Finished(i, ending)])
      case Next(i) =>
        if i >= |w.workers| then w
        else
          var me := w.workers[i];
          var (me', event) := Advance(me, i);
          World(if me.held && !me'.held then w.marked - {me.job} else w.marked, w.workers[i := me'],
                me'.stack.Empty? && me'.panicking, Logged(w.history, event))
  }

  function RunFrom(w: World, steps: seq<Step>): World
    decreases |steps|
  {
    if steps == [] then w else Take(RunFrom(w, steps[..|steps| - 1]), steps[|steps| - 1])
  }

  // ---------- what every step keeps ----------

  /** The states in which a goroutine can be. */
  predicate Legal(me: Worker) {
    match me.stack
    case Empty => !me.held && !me.panicking && me.done
    case Push(top, Empty) =>
      && !me.held && !me.panicking
      && if me.done then top == Frame(Returning, Empty) else top in {LOOP, Frame(Returning, LOOP.deferred), Frame(Returning, DONE)}
    case Push(top, Push(loop, Empty)) =>
      && loop == LOOP && !me.done
      && if top == Frame(Returning, Empty) then !me.held && !me.panicking
         else me.held && (top == Frame(Returning, CLEANUP) || (!me.panicking && top in {Frame(Deferring, Empty), Frame(Calling, CLEANUP)}))
    case Push(top, Push(safely, below)) =>
      && below == Push(LOOP, Empty) && !me.done && top.deferred.Empty?
      && match top.code
         case Handling => safely == Frame(Returning, CLEANUP) && me.held
         case Recovering => safely == Frame(Returning, Empty) && me.held
         case Releasing => safely == Frame(Returning, Empty) && me.held && !me.panicking
         case Cleaned => safely == Frame(Returning, Empty) && !me.held && !me.panicking
         case _ => false
  }

  ghost predicate HeldBy(w: World, job: string) {
    exists i :: 0 <= i < |w.workers| && w.workers[i].held && w.workers[i].job == job
  }

  /** Every goroutine is in a state it can be in, and a job is marked if and only if a lock of it is held, and
      then only one. */
  ghost predicate Exclusive(w: World) {
    && !w.crashed
    && (forall i | 0 <= i < |w.workers| :: Legal(w.workers[i]))
    && (forall job: string :: job in w.marked <==> HeldBy(w, job))
    && (forall i, j | 0 <= i < j < |w.workers| && w.workers[i].held && w.workers[j].held :: w.workers[i].job != w.workers[j].job)
  }

  lemma {:induction false} AdvanceKeepsLegal(me: Worker, i: nat)
    requires Legal(me)
    ensures var me' := Advance(me, i).0; Legal(me') && me'.job == me.job && (me'.held ==> me.held)
  {
  }

  lemma {:induction false} StepKeepsExclusive(w: World, s: Step)
    requires Exclusive(w)
    ensures Exclusive(Take(w, s))
  {
    var t := Take(w, s);
    if s.Join? {
      assert forall i | 0 <= i < |w.workers| :: t.workers[i] == w.workers[i];
      forall job: string | HeldBy(w, job) ensures HeldBy(t, job) {
        var i :| 0 <= i < |w.workers| && w.workers[i].held && w.workers[i].job == job;
        assert t.workers[i].held;
      }
    } else if s.worker < |w.workers| {
      var me := w.workers[s.worker];
      AdvanceKeepsLegal(me, s.worker);
      hide Advance, Unwind;
      WorkerStepKeepsMarks(w, t, s.worker);
    }
  }

  /** A step of one worker that takes or gives back its own mark, or leaves it. */
  lemma {:induction false} WorkerStepKeepsMarks(w: World, t: World, i: nat)
    requires Exclusive(w) && i < |w.workers| == |t.workers| && !t.crashed
    requires t.workers == w.workers[i := t.workers[i]] && Legal(t.workers[i]) && t.workers[i].job == w.workers[i].job
    requires var (me, me') := (w.workers[i], t.workers[i]);
             if me'.held then t.marked == w.marked + {me.job} && (me.held || me.job !in w.marked)
             else if me.held then t.marked == w.marked - {me.job} else t.marked == w.marked
    ensures Exclusive(t)
  {
    hide Legal;
    forall job: string | HeldBy(w, job) && job in t.marked ensures HeldBy(t, job) {
      var j :| 0 <= j < |w.workers| && w.workers[j].held && w.workers[j].job == job;
      assert j == i || t.workers[j] == w.workers[j];
    }
  }

  /** Main result, mutual exclusion: in every interleaving of acquiring, running, panicking and releasing, the
      table marks a job if and only if exactly one lock object holds it, at most one handler of a job runs, no panic
      ends the process, and a goroutine that told its wait group holds no lock. */
  lemma {:induction false} AtMostOneHandler(steps: seq<Step>)
    ensures var w := RunFrom(EMPTY, steps);
            && Exclusive(w) && !w.crashed
            && (forall i, j | 0 <= i < j < |w.workers| && AtTop(w, i, Handling) && AtTop(w, j, Handling) :: w.workers[i].job != w.workers[j].job)
            && (forall i | 0 <= i < |w.workers| && w.workers[i].done :: !w.workers[i].held)
    decreases |steps|
  {
    if steps != [] {
      hide Take;
      AtMostOneHandler(steps[..|steps| - 1]);
      StepKeepsExclusive(RunFrom(EMPTY, steps[..|steps| - 1]), steps[|steps| - 1]);
    }
  }

  // ---------- every run ends with a release ----------

  /** Follows one worker through the history: a handler starts and finishes; its panic, and nothing else, is
      recovered from; then the lock is released. */
  datatype Cycle = Resting | Active | Failed | Closing | Broken

  function NextCycle(c: Cycle, e: Event): Cycle {
    if c == Resting && e.Started? then Active
    else if c == Active && e.Finished? then (if e.ending == Panicked then Failed else Closing)
    else if c == Failed && e.Recovered? then Closing
    else if c == Closing && e.Released? then Resting
    else Broken
  }

  function CycleOf(history: seq<Event>, i: nat): Cycle
    decreases |history|
  {
    if history == [] then Resting
    else
      var before, e := CycleOf(history[..|history| - 1], i), history[|history| - 1];
      if e.worker == i then NextCycle(before, e) else before
  }

  function CycleFor(w: World, i: nat): Cycle {
    if i >= |w.workers| || !w.workers[i].held || w.workers[i].stack.Empty? then Resting
    else
      match w.workers[i].stack.top.code
      case Handling => if w.workers[i].panicking then Failed else Active
      case Returning => if w.workers[i].panicking then Failed else Closing
      case Recovering => if w.workers[i].panicking then Failed else Closing
      case Releasing => Closing
      case _ => Resting
  }

  lemma {:induction false} CycleAppend(history: seq<Event>, e: Event, i: nat)
    ensures CycleOf(history + [e], i) == if e.worker == i then NextCycle(CycleOf(history, i), e) else CycleOf(history, i)
  {
    assert (history + [e])[..|history|] == history;
  }

  lemma {:induction false} StepKeepsCycle(w: World, s: Step, i: nat)
    requires Exclusive(w) && CycleOf(w.history, i) == CycleFor(w, i)
    ensures CycleOf(Take(w, s).history, i) == CycleFor(Take(w, s), i)
  {
    assert !w.crashed && forall j | 0 <= j < |w.workers| :: Legal(w.workers[j]);
    hide CycleOf, Exclusive, Advance, CycleFor, NextCycle, Take;
    match s {
      case Next(k) => NextKeepsCycle(w, k, i);
      case End(k, ending) => EndKeepsCycle(w, k, ending, i);
      case _ => OtherStepKeepsCycle(w, s, i);
    }
  }

  lemma {:induction false} NextKeepsCycle(w: World, k: nat, i: nat)
    requires !w.crashed && (forall j | 0 <= j < |w.workers| :: Legal(w.workers[j])) && CycleOf(w.history, i) == CycleFor(w, i)
    ensures CycleOf(Take(w, Next(k)).history, i) == CycleFor(Take(w, Next(k)), i)
  {
    hide CycleOf, Advance, NextCycle, Legal;
    if k < |w.workers| {
      AdvanceFollowsCycle(w, k);
      var event := Advance(w.workers[k], k).1;
      if event.Some? { CycleAppend(w.history, event.value, i); }
    }
  }

  lemma {:induction false} EndKeepsCycle(w: World, k: nat, ending: Ending, i: nat)
    requires (forall j | 0 <= j < |w.workers| :: Legal(w.workers[j])) && CycleOf(w.history, i) == CycleFor(w, i)
    ensures CycleOf(Take(w, End(k, ending)).history, i) == CycleFor(Take(w, End(k, ending)), i)
  {
    hide CycleOf;
    CycleAppend(w.history, Finished(k, ending), i);
    if k < |w.workers| { assert Legal(w.workers[k]); }
  }

  lemma {:induction false} OtherStepKeepsCycle(w: World, s: Step, i: nat)
    requires !s.Next? && !s.End? && forall j | 0 <= j < |w.workers| :: Legal(w.workers[j])
    ensures Take(w, s).history == w.history && CycleFor(Take(w, s), i) == CycleFor(w, i)
  {
    if !s.Join? && s.worker < |w.workers| { assert Legal(w.workers[s.worker]); }
  }

  lemma {:induction false} AdvanceFollowsCycle(w: World, i: nat)
    requires i < |w.workers| && Legal(w.workers[i])
    ensures var ((me', event), c) := (Advance(w.workers[i], i), CycleFor(w, i));
            var c' := CycleFor(w.(workers := w.workers[i := me']), i);
            if event.None? then c' == c else event.value.worker == i && c' == NextCycle(c, event.value)
  {
  }

  /** Main result: in every run each worker's history follows the cycle, so every handler run, also one that
      panics, is followed by the release of its lock before the worker's next run. */
  lemma {:induction false} EveryRunIsReleased(steps: seq<Step>, i: nat)
    ensures CycleOf(RunFrom(EMPTY, steps).history, i) == CycleFor(RunFrom(EMPTY, steps), i) != Broken
    decreases |steps|
  {
    if steps != [] {
      hide Take, CycleOf;
      EveryRunIsReleased(steps[..|steps| - 1], i);
      AtMostOneHandler(steps[..|steps| - 1]);
      StepKeepsCycle(RunFrom(EMPTY, steps[..|steps| - 1]), steps[|steps| - 1], i);
    }
  }

  /** How many steps of its own a worker whose handler has finished takes to the release of its lock. */
  function Remaining(w: World, i: nat): nat {
    if CycleFor(w, i) !in {Failed, Closing} then 0
    else
      match w.workers[i].stack.top.code
      case Handling => 4
      case Returning => 3
      case Recovering => 2
      case _ => 1
  }

  function OwnSteps(steps: seq<Step>, i: nat): nat
    decreases |steps|
  {
    if steps == [] then 0 else OwnSteps(steps[..|steps| - 1], i) + if steps[|steps| - 1] == Next(i) then 1 else 0
  }

  lemma {:induction false} OwnStepCloses(w: World, s: Step, i: nat)
    requires Exclusive(w) && Remaining(w, i) > 0
    ensures var t := Take(w, s);
            && w.history <= t.history
            && if s != Next(i) then Remaining(t, i) == Remaining(w, i)
               else if Remaining(w, i) == 1 then Released(i) in t.history[|w.history|..] else Remaining(t, i) == Remaining(w, i) - 1
  {
    assert Legal(w.workers[i]);
    if s == Next(i) && Remaining(w, i) == 1 {
      assert Take(w, s).history == w.history + [Released(i)];
    }
  }

  /** Main result, progress: once its handler has finished, a worker that takes at most four more steps of its own
      has released its lock, whatever the others do meanwhile. */
  lemma {:induction false} ReleaseFollows(w: World, more: seq<Step>, i: nat)
    requires Exclusive(w) && Remaining(w, i) > 0
    ensures var t := RunFrom(w, more);
            && Exclusive(t) && w.history <= t.history
            && (Released(i) in t.history[|w.history|..] || (Remaining(t, i) > 0 && Remaining(t, i) + OwnSteps(more, i) == Remaining(w, i)))
    ensures OwnSteps(more, i) >= 4 ==> Released(i) in RunFrom(w, more).history[|w.history|..]
    decreases |more|
  {
    assert Remaining(w, i) <= 4;
    hide Take, Remaining;
    if more != [] {
      var before, s := RunFrom(w, more[..|more| - 1]), more[|more| - 1];
      ReleaseFollows(w, more[..|more| - 1], i);
      StepKeepsExclusive(before, s);
      HistoryGrows(before, s);
      var t := Take(before, s);
      if Released(i) in before.history[|w.history|..] {
        assert before.history[|w.history|..] <= t.history[|w.history|..];
      } else {
        OwnStepCloses(before, s, i);
        if Released(i) in t.history[|before.history|..] {
          assert t.history[|w.history|..][|before.history| - |w.history|..] == t.history[|before.history|..];
        }
      }
    }
  }

  lemma {:induction false} HistoryGrows(w: World, s: Step)
    ensures w.history <= Take(w, s).history
  {
  }

  /** Without the deferred cleanup a panic would end the process. */
  lemma {:induction false} UnguardedPanicCrashes(w: World, i: nat)
    requires !w.crashed && i < |w.workers| && w.workers[i].panicking
    requires w.workers[i].stack == Push(Frame(Handling, Empty), Push(Frame(Returning, Empty), Push(LOOP, Empty)))
    ensures var n := Next(i); Take(Take(Take(Take(Take(w, n), n), n), n), n).crashed
  {
    var n := Next(i);
    var w1 := Take(w, n);
    var w2 := Take(w1, n);
    assert w2.workers[i].stack == Push(LOOP, Empty);
    var w3 := Take(w2, n);
    var w4 := Take(w3, n);
    assert w4.workers[i].stack == Push(Frame(Waiting, Empty), Empty);
  }
}
