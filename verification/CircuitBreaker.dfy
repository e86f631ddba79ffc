/** The ClamAV scanner's circuit breaker and its limit on concurrent scans. */
module CircuitBreaker {
  import opened Wrappers

  /** A scan that ends in a temporary failure reported by the daemon says nothing about its availability. */
  datatype Outcome = Unavailable | Undecided | Decided

  datatype Answer = CircuitIsOpen | Saturated | Scanned(outcome: Outcome)

  /** No deadline stands for the zero time. */
  datatype Breaker = Breaker(failures: int, openUntil: Option<int>)

  datatype Options = Options(threshold: int, duration: int, slots: int)

  function WithDefaults(o: Options): Options {
    Options(if o.threshold <= 0 then 3 else o.threshold, if o.duration <= 0 then 30000 else o.duration, if o.slots <= 0 then 4 else o.slots)
  }

  predicate Configured(o: Options) {
    o.threshold > 0 && o.duration > 0 && o.slots > 0
  }

  const CLOSED := Breaker(0, None)

  predicate IsOpen(b: Breaker, now: int) {
    b.openUntil.Some? && now < b.openUntil.value
  }

  /** Looking at the breaker closes it when its deadline has passed. */
  function Looked(b: Breaker, now: int): Breaker {
    if b.openUntil.Some? && now >= b.openUntil.value then CLOSED else b
  }

  function Failed(b: Breaker, o: Options, now: int): Breaker {
    Breaker(b.failures + 1, if b.failures + 1 >= o.threshold then Some(now + o.duration) else b.openUntil)
  }

  function Recorded(b: Breaker, o: Options, outcome: Outcome, now: int): Breaker {
    match outcome
    case Unavailable => Failed(b, o, now)
    case Undecided => b
    case Decided => CLOSED
  }

  class Scanner {
    const options: Options
    var consecutiveFailures: int
    var circuitOpenUntil: Option<int>
    var inUse: int

    constructor (options: Options)
      ensures State() == CLOSED && inUse == 0 && this.options == WithDefaults(options) && Configured(this.options)
    {
      this.options := WithDefaults(options);
      consecutiveFailures, circuitOpenUntil, inUse := 0, None, 0;
    }

    function State(): Breaker
      reads this`consecutiveFailures, this`circuitOpenUntil
    {
      Breaker(consecutiveFailures, circuitOpenUntil)
    }

    method CircuitOpen(now: int) returns (open: bool)
      modifies this`consecutiveFailures, this`circuitOpenUntil
      ensures open == IsOpen(old(State()), now) && State() == Looked(old(State()), now)
    {
      if circuitOpenUntil.None? { return false; }
      if now < circuitOpenUntil.value { return true; }
      circuitOpenUntil := None;
      consecutiveFailures := 0;
      return false;
    }

    method RecordFailure(now: int)
      modifies this`consecutiveFailures, this`circuitOpenUntil
      ensures State() == Failed(old(State()), options, now)
    {
      consecutiveFailures := consecutiveFailures + 1;
      if consecutiveFailures >= options.threshold {
        circuitOpenUntil := Some(now + options.duration);
      }
    }

    method RecordSuccess()
      modifies this`consecutiveFailures, this`circuitOpenUntil
      ensures State() == CLOSED
    {
      consecutiveFailures := 0;
      circuitOpenUntil := None;
    }

    /** A scan no other scan interferes with; `began` and `ended` are the times it looks at the clock. */
    method ScanStream(began: int, ended: int, outcome: Outcome) returns (answer: Answer)
      modifies this
      ensures inUse == old(inUse)
      ensures var b := old(State());
              if IsOpen(b, began) then answer == CircuitIsOpen && State() == b
              else if old(inUse) >= options.slots then answer == Saturated && State() == Looked(b, began)
              else answer == Scanned(outcome) && State() == Recorded(Looked(b, began), options, outcome, ended)
    {
      var open := CircuitOpen(began);
      if open { return CircuitIsOpen; }
      if inUse >= options.slots { return Saturated; }
      inUse := inUse + 1;
      match outcome {
        case Unavailable => RecordFailure(ended);
        case Undecided =>
        case Decided => RecordSuccess();
      }
      inUse := inUse - 1;
      return Scanned(outcome);
    }
  }

  // ---------- interleaved scans ----------

  /** Where a scan stands: before its look at the breaker, turned away by it, past it, turned away for lack of a
      slot, connected to the daemon, past the record of its outcome, and done. */
  datatype Phase = Waiting | TurnedAway | Passed | NoSlot | Dialled | Noted | Done

  /** What the breaker was told. */
  datatype Notice = Failure(at: int) | Success | Expiry

  datatype World = World(breaker: Breaker, inUse: int, scans: seq<Phase>, history: seq<Notice>)

  datatype Step = Begin | Look(scan: nat, now: int) | Enter(scan: nat) | Finish(scan: nat, outcome: Outcome, now: int) | Leave(scan: nat)

  const QUIET := World(CLOSED, 0, [], [])

  function Take(w: World, o: Options, s: Step): World {
    match s
    case Begin => w.(scans := w.scans + [Waiting])
    case Look(i, now) =>
      if i >= |w.scans| || w.scans[i] != Waiting then w
      else if IsOpen(w.breaker, now) then w.(scans := w.scans[i := TurnedAway])
      else w.(breaker := Looked(w.breaker, now), scans := w.scans[i := Passed],
              history := w.history + if w.breaker.openUntil.Some? then [Expiry] else [])
    case Enter(i) =>
      if i >= |w.scans| || w.scans[i] != Passed then w
      else if w.inUse >= o.slots then w.(scans := w.scans[i := NoSlot])
      else w.(inUse := w.inUse + 1, scans := w.scans[i := Dialled])
    case Finish(i, outcome, now) =>
      if i >= |w.scans| || w.scans[i] != Dialled then w
      else w.(breaker := Recorded(w.breaker, o, outcome, now), scans := w.scans[i := Noted],
              history := w.history + if outcome == Unavailable then [Failure(now)] else if outcome == Decided then [Success] else [])
    case Leave(i) =>
      if i >= |w.scans| || w.scans[i] != Noted then w
      else w.(inUse := w.inUse - 1, scans := w.scans[i := Done])
  }

  function Run(o: Options, steps: seq<Step>): World
    decreases |steps|
  {
    if steps == [] then QUIET else Take(Run(o, steps[..|steps| - 1]), o, steps[|steps| - 1])
  }

  /** Failures since the last success or expiry. */
  function Trailing(history: seq<Notice>): nat
    decreases |history|
  {
    if history == [] || !history[|history| - 1].Failure? then 0 else Trailing(history[..|history| - 1]) + 1
  }

  predicate HoldsSlot(p: Phase) {
    p == Dialled || p == Noted
  }

  function Holding(scans: seq<Phase>): nat
    decreases |scans|
  {
    if scans == [] then 0 else Holding(scans[..|scans| - 1]) + if HoldsSlot(scans[|scans| - 1]) then 1 else 0
  }

  predicate Sound(w: World, o: Options) {
    var b, h := w.breaker, w.history;
    && b.failures == Trailing(h)
    && (b.openUntil.Some? <==> b.failures >= o.threshold)
    && (b.openUntil.Some? ==> h != [] && h[|h| - 1].Failure? && b.openUntil.value == h[|h| - 1].at + o.duration)
    && w.inUse == Holding(w.scans) && w.inUse <= o.slots
  }

  lemma {:induction false} HoldingUpdate(scans: seq<Phase>, i: nat, p: Phase)
    requires i < |scans|
    ensures Holding(scans[i := p]) == Holding(scans) - (if HoldsSlot(scans[i]) then 1 else 0) + (if HoldsSlot(p) then 1 else 0)
    decreases |scans|
  {
    var last := |scans| - 1;
    if i < last {
      assert scans[i := p][..last] == scans[..last][i := p];
      HoldingUpdate(scans[..last], i, p);
    } else {
      assert scans[i := p][..last] == scans[..last];
    }
  }

  lemma {:induction false} TrailingAppend(history: seq<Notice>, n: Notice)
    ensures Trailing(history + [n]) == if n.Failure? then Trailing(history) + 1 else 0
  {
    assert (history + [n])[..|history|] == history;
  }

  lemma {:induction false} StepKeeps(w: World, o: Options, s: Step)
    requires Configured(o) && Sound(w, o)
    ensures Sound(Take(w, o, s), o)
  {
    hide Trailing, Holding;
    match s {
      case Begin =>
        assert (w.scans + [Waiting])[..|w.scans|] == w.scans;
        HoldingAppend(w.scans);
      case Look(i, now) =>
        if i < |w.scans| {
          HoldingUpdate(w.scans, i, TurnedAway);
          HoldingUpdate(w.scans, i, Passed);
          TrailingAppend(w.history, Expiry);
          assert w.history + [] == w.history;
        }
      case Enter(i) =>
        if i < |w.scans| {
          HoldingUpdate(w.scans, i, NoSlot);
          HoldingUpdate(w.scans, i, Dialled);
        }
      case Finish(i, outcome, now) =>
        if i < |w.scans| {
          HoldingUpdate(w.scans, i, Noted);
          TrailingAppend(w.history, Failure(now));
          TrailingAppend(w.history, Success);
          assert w.history + [] == w.history;
        }
      case Leave(i) =>
        if i < |w.scans| {
          HoldingUpdate(w.scans, i, Done);
        }
    }
  }

  lemma {:induction false} HoldingAppend(scans: seq<Phase>)
    ensures Holding(scans + [Waiting]) == Holding(scans)
  {
    assert (scans + [Waiting])[..|scans|] == scans;
  }

  /** Main result: in every interleaving the counter is the number of failures since the last success or expiry,
      the breaker has a deadline if and only if the counter has reached the threshold, the deadline is counted
      from the last failure, and the scans connected to the daemon never exceed the slots. */
  lemma {:induction false} BreakerInvariant(o: Options, steps: seq<Step>)
    requires Configured(o)
    ensures Sound(Run(o, steps), o)
    decreases |steps|
  {
    if steps != [] {
      hide Sound, Take;
      BreakerInvariant(o, steps[..|steps| - 1]);
      StepKeeps(Run(o, steps[..|steps| - 1]), o, steps[|steps| - 1]);
    }
  }

  /** How far a scan has come never changes back. */
  lemma {:induction false} TurnedAwayStays(o: Options, steps: seq<Step>, more: seq<Step>, i: nat)
    requires i < |Run(o, steps).scans| && Run(o, steps).scans[i] == TurnedAway
    ensures i < |Run(o, steps + more).scans| && Run(o, steps + more).scans[i] == TurnedAway
    decreases |more|
  {
    if more == [] {
      assert steps + more == steps;
    } else {
      var init, all := more[..|more| - 1], steps + more;
      assert all[..|all| - 1] == steps + init;
      TurnedAwayStays(o, steps, init, i);
      StepLeavesTurnedAway(Run(o, steps + init), o, all[|all| - 1], i);
    }
  }

  lemma {:induction false} StepLeavesTurnedAway(w: World, o: Options, s: Step, i: nat)
    requires i < |w.scans| && w.scans[i] == TurnedAway
    ensures i < |Take(w, o, s).scans| && Take(w, o, s).scans[i] == TurnedAway
  {
  }

  /** Main result: a scan that looks at the breaker before its deadline never connects to the daemon, whatever
      happens later; the deadline is that of the last failure, and a scan it lets through finds fewer failures
      than the threshold, or the deadline over. */
  lemma {:induction false} LookDecides(o: Options, steps: seq<Step>, more: seq<Step>, i: nat, now: int)
    requires Configured(o) && i < |Run(o, steps).scans| && Run(o, steps).scans[i] == Waiting
    ensures var w, w' := Run(o, steps), Run(o, steps + [Look(i, now)] + more);
            var late := Trailing(w.history) < o.threshold || w.history[|w.history| - 1].at + o.duration <= now;
            && (!late ==> i < |w'.scans| && w'.scans[i] == TurnedAway)
            && (late ==> Run(o, steps + [Look(i, now)]).scans[i] == Passed)
  {
    var w, looked := Run(o, steps), steps + [Look(i, now)];
    BreakerInvariant(o, steps);
    assert looked[..|steps|] == steps && looked[|steps|] == Look(i, now);
    assert Run(o, looked) == Take(w, o, Look(i, now));
    if IsOpen(w.breaker, now) {
      TurnedAwayStays(o, looked, more, i);
    }
  }
}
