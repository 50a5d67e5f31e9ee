/**
  The circuit breaker (circuit_breaker.rs), called from one thread. Every call takes the time
  it reads from the clock.
 */
module CircuitBreaker {
  import opened Basics

  datatype Mode = Closed | Open | HalfOpen

  datatype Config = Config(failureThreshold: nat, successThreshold: nat, timeout: nat)

  datatype Breaker = Breaker(
    mode: Mode, failures: nat, successes: nat, totalFailures: nat, totalSuccesses: nat,
    lastFailure: Option<int>, lastChange: int)

  /** `Ask` is `can_execute` or `state`: both look at the timeout first. */
  datatype Call = Ask | Success | Failure | Reset | ForceOpen

  datatype Event = Event(call: Call, now: int)

  function Initial(now: int): Breaker {
    Breaker(Closed, 0, 0, 0, 0, None, now)
  }

  /** `Instant::elapsed` is never negative. */
  function Elapsed(since: int, now: int): nat {
    if now < since then 0 else now - since
  }

  function Moved(b: Breaker, next: Mode, now: int): Breaker {
    if b.mode == next then b
    else b.(mode := next, lastChange := now, successes := 0, failures := if next.Open? then b.failures else 0)
  }

  function Step(c: Config, b: Breaker, e: Event): Breaker {
    match e.call
    case Ask =>
      if b.mode.Open? && Elapsed(b.lastChange, e.now) >= c.timeout then Moved(b, HalfOpen, e.now) else b
    case Success =>
      var b' := b.(failures := 0, successes := b.successes + 1, totalSuccesses := b.totalSuccesses + 1);
      if b.mode.HalfOpen? && b'.successes >= c.successThreshold then Moved(b', Closed, e.now) else b'
    case Failure =>
      var b' := b.(successes := 0, failures := b.failures + 1, totalFailures := b.totalFailures + 1,
                   lastFailure := Some(e.now));
      if b.mode.HalfOpen? || (b.mode.Closed? && b'.failures >= c.failureThreshold) then Moved(b', Open, e.now) else b'
    case Reset => Moved(b, Closed, e.now).(failures := 0, successes := 0)
    case ForceOpen => Moved(b, Open, e.now)
  }

  class CircuitBreaker {
    const config: Config
    var state: Mode
    var consecutiveFailures: nat
    var consecutiveSuccesses: nat
    var totalFailures: nat
    var totalSuccesses: nat
    var lastFailureTime: Option<int>
    var lastStateChange: int

    ghost function Model(): Breaker
      reads this
    {
      Breaker(state, consecutiveFailures, consecutiveSuccesses, totalFailures, totalSuccesses,
              lastFailureTime, lastStateChange)
    }

    constructor (config: Config, now: int)
      ensures Model() == Initial(now) && this.config == config
    {
      this.config := config;
      state, consecutiveFailures, consecutiveSuccesses := Closed, 0, 0;
      totalFailures, totalSuccesses, lastFailureTime, lastStateChange := 0, 0, None, now;
    }

    method TransitionTo(next: Mode, now: int)
      modifies this
      ensures Model() == Moved(old(Model()), next, now)
    {
      if state != next {
        state := next;
        lastStateChange := now;
        match next {
          case Closed => consecutiveFailures, consecutiveSuccesses := 0, 0;
          case Open => consecutiveSuccesses := 0;
          case HalfOpen => consecutiveFailures, consecutiveSuccesses := 0, 0;
        }
      }
    }

    method CheckAndUpdateState(now: int)
      modifies this
      ensures Model() == Step(config, old(Model()), Event(Ask, now))
    {
      if state == Open && Elapsed(lastStateChange, now) >= config.timeout {
        TransitionTo(HalfOpen, now);
      }
    }

    method CanExecute(now: int) returns (allowed: bool)
      modifies this
      ensures Model() == Step(config, old(Model()), Event(Ask, now))
      ensures !allowed <==> old(state) == Open && Elapsed(old(lastStateChange), now) < config.timeout
    {
      CheckAndUpdateState(now);
      match state {
        case Closed => allowed := true;
        case Open => allowed := false;
        case HalfOpen => allowed := true;
      }
    }

    method State(now: int) returns (current: Mode)
      modifies this
      ensures Model() == Step(config, old(Model()), Event(Ask, now)) && current == state
    {
      CheckAndUpdateState(now);
      current := state;
    }

    method RecordSuccess(now: int)
      modifies this
      ensures Model() == Step(config, old(Model()), Event(Success, now))
    {
      totalSuccesses := totalSuccesses + 1;
      consecutiveFailures := 0;
      consecutiveSuccesses := consecutiveSuccesses + 1;
      if state == HalfOpen && consecutiveSuccesses >= config.successThreshold {
        TransitionTo(Closed, now);
      }
    }

    method RecordFailure(now: int)
      modifies this
      ensures Model() == Step(config, old(Model()), Event(Failure, now))
    {
      totalFailures := totalFailures + 1;
      consecutiveSuccesses := 0;
      consecutiveFailures := consecutiveFailures + 1;
      lastFailureTime := Some(now);
      match state {
        case Closed =>
          if consecutiveFailures >= config.failureThreshold {
            TransitionTo(Open, now);
          }
        case HalfOpen => TransitionTo(Open, now);
        case Open =>
      }
    }

    method RecordOutcome(success: bool, now: int)
      modifies this
      ensures Model() == Step(config, old(Model()), Event(if success then Success else Failure, now))
    {
      if success {
        RecordSuccess(now);
      } else {
        RecordFailure(now);
      }
    }

    method Reset(now: int)
      modifies this
      ensures Model() == Step(config, old(Model()), Event(Call.Reset, now))
    {
      TransitionTo(Closed, now);
      consecutiveFailures, consecutiveSuccesses := 0, 0;
    }

    method ForceOpen(now: int)
      modifies this
      ensures Model() == Step(config, old(Model()), Event(Call.ForceOpen, now))
    {
      TransitionTo(Open, now);
    }
  }
}

/**
  The breaker's state from the calls alone: which stretch of the history a counter counts, when
  each transition happens, and what lies between opening and closing.
 */
module BreakerHistory {
  import opened Basics
  import opened CircuitBreaker

  /** A breaker's configuration, its start and all calls made on it. */
  datatype History = History(config: Config, start: int, events: seq<Event>) {
    /** The breaker after the first `i` calls. */
    function At(i: nat): Breaker
      requires i <= |events|
    {
      if i == 0 then Initial(start) else Step(config, At(i - 1), events[i - 1])
    }

    function Mode(i: nat): Mode
      requires i <= |events|
    {
      At(i).mode
    }

    /** How many of the calls `i` to `j` are `call`. */
    function Count(call: Call, i: nat, j: nat): nat
      requires i <= j <= |events|
    {
      if i == j then 0 else Count(call, i, j - 1) + if events[j - 1].call == call then 1 else 0
    }

    predicate Has(call: Call, i: nat, j: nat)
      requires i <= j <= |events|
    {
      exists x :: i <= x < j && events[x].call == call
    }

    /** The call count after which the breaker came into the mode it is in after `i` calls. */
    function Entered(i: nat): (e: nat)
      requires i <= |events|
      ensures e <= i && Mode(e) == Mode(i)
      ensures if e == 0 then Mode(i).Closed? else Mode(e - 1) != Mode(e)
    {
      if i == 0 || Mode(i - 1) != Mode(i) then i else Entered(i - 1)
    }

    /** While closed: the last success, reset or entry into Closed. */
    function ClosedWindow(i: nat): (k: nat)
      requires i <= |events|
      ensures k <= i && Mode(k) == Mode(i)
      ensures k == 0 || Mode(k - 1) != Mode(k) || events[k - 1].call in {Success, Reset}
    {
      if i == 0 || Mode(i - 1) != Mode(i) || events[i - 1].call in {Success, Reset} then i else ClosedWindow(i - 1)
    }

    /** While closed: the last success or entry into Closed, resets left out. */
    function SuccessWindow(i: nat): (k: nat)
      requires i <= |events|
      ensures k <= i && Mode(k) == Mode(i)
      ensures k == 0 || Mode(k - 1) != Mode(k) || events[k - 1].call == Success
    {
      if i == 0 || Mode(i - 1) != Mode(i) || events[i - 1].call == Success then i else SuccessWindow(i - 1)
    }

    /** In any state: the last call after which the failure counter is zero. */
    function FailureWindow(i: nat): (k: nat)
      requires i <= |events|
      ensures k <= i
      ensures k == 0 || events[k - 1].call in {Success, Reset} || (Mode(k - 1) != Mode(k) && !Mode(k).Open?)
    {
      if i == 0 || events[i - 1].call in {Success, Reset} || (Mode(i - 1) != Mode(i) && !Mode(i).Open?) then i
      else FailureWindow(i - 1)
    }

    /** In any state: the last call after which the success counter is zero. */
    function SuccessStretch(i: nat): (k: nat)
      requires i <= |events|
      ensures k <= i
      ensures k == 0 || events[k - 1].call in {Failure, Reset} || Mode(k - 1) != Mode(k)
    {
      if i == 0 || events[i - 1].call in {Failure, Reset} || Mode(i - 1) != Mode(i) then i else SuccessStretch(i - 1)
    }

    predicate InOrder() {
      && (events != [] ==> start <= events[0].now)
      && forall x :: 0 < x < |events| ==> events[x - 1].now <= events[x].now
    }
  }

  lemma {:induction false} NotBefore(h: History, i: nat, j: nat)
    requires h.InOrder() && i <= j < |h.events|
    ensures h.events[i].now <= h.events[j].now
    decreases j
  {
    if i < j {
      NotBefore(h, i, j - 1);
    }
  }

  /** The mode is the same from the entry on. */
  lemma {:induction false} SameSinceEntered(h: History, i: nat, x: nat)
    requires i <= |h.events| && h.Entered(i) <= x <= i
    ensures h.Mode(x) == h.Mode(i) && h.Entered(x) == h.Entered(i)
    decreases i
  {
    if x < i {
      SameSinceEntered(h, i - 1, x);
    }
  }

  /** No success and no reset since the window began, and the mode is the same. */
  lemma {:induction false} QuietInWindow(h: History, i: nat, x: nat)
    requires i <= |h.events| && h.ClosedWindow(i) <= x < i
    ensures h.events[x].call !in {Success, Reset} && h.Mode(x) == h.Mode(i)
    decreases i
  {
    hide Step;
    if x < i - 1 {
      QuietInWindow(h, i - 1, x);
    }
  }

  // ------------------------------------------------------ counters are counts

  /** What one call does to the time of the last change and the two counters. */
  lemma StepCounters(c: Config, b: Breaker, e: Event)
    ensures Step(c, b, e).mode != b.mode ==>
              var b' := Step(c, b, e);
              b'.lastChange == e.now && b'.successes == 0 && (b'.mode.Open? || b'.failures == 0)
    ensures Step(c, b, e).mode == b.mode ==> Step(c, b, e).lastChange == b.lastChange
    ensures b.mode.HalfOpen? && Step(c, b, e).mode.HalfOpen? ==>
              && e.call in {Ask, Success}
              && Step(c, b, e).successes == b.successes + (if e.call.Success? then 1 else 0)
              && (e.call.Success? ==> b.successes + 1 < c.successThreshold)
    ensures b.mode.Closed? && Step(c, b, e).mode.Closed? ==>
              && Step(c, b, e).failures ==
                 (if e.call in {Success, Reset} then 0 else if e.call.Failure? then b.failures + 1 else b.failures)
              && (e.call.Failure? ==> b.failures + 1 < c.failureThreshold)
  {
  }

  lemma {:induction false} TotalsAreCounts(h: History, i: nat)
    requires i <= |h.events|
    ensures h.At(i).totalFailures == h.Count(Failure, 0, i) && h.At(i).totalSuccesses == h.Count(Success, 0, i)
  {
    if i > 0 {
      TotalsAreCounts(h, i - 1);
    }
  }

  /** The time of the last failure, if there was one. */
  lemma {:induction false} LastFailureIs(h: History, i: nat)
    requires i <= |h.events|
    ensures !h.Has(Failure, 0, i) ==> h.At(i).lastFailure == None
    ensures forall x :: 0 <= x < i && h.events[x].call == Failure && !h.Has(Failure, x + 1, i) ==>
              h.At(i).lastFailure == Some(h.events[x].now)
  {
    if i > 0 {
      LastFailureIs(h, i - 1);
      LastFailureStep(h.config, h.At(i - 1), h.events[i - 1]);
      hide Step;
      forall x | 0 <= x < i && h.events[x].call == Failure && !h.Has(Failure, x + 1, i)
        ensures h.At(i).lastFailure == Some(h.events[x].now)
      {
        if x < i - 1 {
          assert h.events[i - 1].call != Failure;
          assert !h.Has(Failure, x + 1, i - 1);
        }
      }
    }
  }

  lemma LastFailureStep(c: Config, b: Breaker, e: Event)
    ensures Step(c, b, e).lastFailure == if e.call == Failure then Some(e.now) else b.lastFailure
  {
  }

  /** In every state, the failure counter counts the failures since the last success, reset or change but into Open. */
  lemma {:induction false} FailuresAreCounted(h: History, i: nat)
    requires i <= |h.events|
    ensures h.At(i).failures == h.Count(Failure, h.FailureWindow(i), i)
  {
    if i > 0 {
      FailuresAreCounted(h, i - 1);
      FailureStep(h.config, h.At(i - 1), h.events[i - 1]);
      hide Step;
    }
  }

  lemma FailureStep(c: Config, b: Breaker, e: Event)
    ensures var b' := Step(c, b, e);
            b'.failures == if e.call in {Success, Reset} || (b'.mode != b.mode && !b'.mode.Open?) then 0
                           else b.failures + if e.call == Failure then 1 else 0
  {
  }

  /** And the success counter the successes since the last failure, reset or change. */
  lemma {:induction false} SuccessesAreCounted(h: History, i: nat)
    requires i <= |h.events|
    ensures h.At(i).successes == h.Count(Success, h.SuccessStretch(i), i)
  {
    if i > 0 {
      SuccessesAreCounted(h, i - 1);
      SuccessStep(h.config, h.At(i - 1), h.events[i - 1]);
      hide Step;
    }
  }

  lemma SuccessStep(c: Config, b: Breaker, e: Event)
    ensures var b' := Step(c, b, e);
            b'.successes == if e.call in {Failure, Reset} || b'.mode != b.mode then 0
                            else b.successes + if e.call == Success then 1 else 0
  {
  }

  /** While closed, the failure counter counts the failures of the current window. */
  lemma {:induction false} ClosedCountsFailures(h: History, i: nat)
    requires i <= |h.events| && h.Mode(i).Closed?
    ensures h.At(i).failures == h.Count(Failure, h.ClosedWindow(i), i) < Max(1, h.config.failureThreshold)
  {
    hide Step;
    if i > 0 {
      StepCounters(h.config, h.At(i - 1), h.events[i - 1]);
      if h.Mode(i - 1).Closed? {
        ClosedCountsFailures(h, i - 1);
      }
    }
  }

  /** While half open, the success counter counts the successes since the entry, and nothing failed. */
  lemma {:induction false} HalfOpenCountsSuccesses(h: History, i: nat)
    requires i <= |h.events| && h.Mode(i).HalfOpen?
    ensures h.At(i).successes == h.Count(Success, h.Entered(i), i) < Max(1, h.config.successThreshold)
    ensures !h.Has(Failure, h.Entered(i), i)
  {
    hide Step;
    if i > 0 {
      StepCounters(h.config, h.At(i - 1), h.events[i - 1]);
      if h.Mode(i - 1).HalfOpen? {
        HalfOpenCountsSuccesses(h, i - 1);
      }
    }
  }

  /** The recorded time is that of the call that brought the breaker into its mode. */
  lemma {:induction false} ChangeIsEntry(h: History, i: nat)
    requires i <= |h.events|
    ensures h.At(i).lastChange == if h.Entered(i) == 0 then h.start else h.events[h.Entered(i) - 1].now
  {
    hide Step;
    if i > 0 {
      StepCounters(h.config, h.At(i - 1), h.events[i - 1]);
      ChangeIsEntry(h, i - 1);
    }
  }

  // ------------------------------------------------------------- transitions

  /**
    From Closed: opens exactly at the last of `max(1, failure_threshold)` failures with no
    success or reset between them, or when forced; never goes to HalfOpen.
   */
  lemma FromClosed(h: History, i: nat)
    requires i < |h.events| && h.Mode(i).Closed?
    ensures h.Mode(i + 1).Open? <==>
            || h.events[i].call == ForceOpen
            || (h.events[i].call == Failure && h.Count(Failure, h.ClosedWindow(i), i + 1) == Max(1, h.config.failureThreshold))
    ensures !h.Mode(i + 1).HalfOpen?
  {
    ClosedCountsFailures(h, i);
  }

  // ------------------------------------------ failures since the last success or entry

  /** Without a reset since the last success or entry, the two windows are one. */
  lemma {:induction false} WindowsCoincide(h: History, i: nat)
    requires i <= |h.events| && !h.Has(Reset, h.SuccessWindow(i), i)
    ensures h.ClosedWindow(i) == h.SuccessWindow(i)
  {
    hide Step;
    if h.SuccessWindow(i) < i {
      assert h.events[i - 1].call != Reset;
      assert !h.Has(Reset, h.SuccessWindow(i - 1), i - 1);
      WindowsCoincide(h, i - 1);
    }
  }

  /** And then fewer failures than the threshold followed the last success or entry. */
  lemma FewFailuresSinceSuccess(h: History, i: nat)
    requires i <= |h.events| && h.Mode(i).Closed? && !h.Has(Reset, h.SuccessWindow(i), i)
    ensures h.Count(Failure, h.SuccessWindow(i), i) < Max(1, h.config.failureThreshold)
  {
    WindowsCoincide(h, i);
    ClosedCountsFailures(h, i);
  }

  ghost predicate FewSinceSuccess(h: History, i: nat)
    requires i <= |h.events|
  {
    h.Mode(i).Closed? ==> h.Count(Failure, h.SuccessWindow(i), i) < Max(1, h.config.failureThreshold)
  }

  ghost predicate AlwaysFewSinceSuccess(c: Config) {
    forall h: History, i: nat :: h.config == c && i <= |h.events| ==> FewSinceSuccess(h, i)
  }

  /** A breaker that opens at the first failure holds none while closed. */
  lemma {:induction false} NoFailureHeld(h: History, i: nat)
    requires i <= |h.events| && h.Mode(i).Closed? && h.config.failureThreshold <= 1
    ensures h.Count(Failure, h.SuccessWindow(i), i) == 0
  {
    hide Step;
    if h.SuccessWindow(i) < i {
      StepCounters(h.config, h.At(i - 1), h.events[i - 1]);
      NoFailureHeld(h, i - 1);
    }
  }

  /** `threshold - 1` failures, a reset, and one failure more. */
  function Interrupted(c: Config, n: nat): History {
    History(c, 0, seq(n, i => Event(Failure, 0)) + [Event(Reset, 0), Event(Failure, 0)])
  }

  lemma {:induction false} FailuresHeld(c: Config, n: nat, i: nat)
    requires i <= n < c.failureThreshold
    ensures var h := Interrupted(c, n);
            h.Mode(i).Closed? && h.At(i).failures == i && h.SuccessWindow(i) == 0 && h.Count(Failure, 0, i) == i
  {
    if i > 0 {
      FailuresHeld(c, n, i - 1);
      assert Interrupted(c, n).events[i - 1] == Event(Failure, 0);
    }
  }

  lemma ResetHidesFailures(c: Config)
    requires c.failureThreshold >= 2
    ensures var h := Interrupted(c, c.failureThreshold - 1);
            !FewSinceSuccess(h, c.failureThreshold + 1)
  {
    var n := c.failureThreshold - 1;
    var h := Interrupted(c, n);
    FailuresHeld(c, n, n);
    assert h.events[n] == Event(Reset, 0) && h.events[n + 1] == Event(Failure, 0);
    assert h.At(n + 1) == Step(c, h.At(n), h.events[n]);
    assert h.Mode(n + 1).Closed? && h.At(n + 1).failures == 0 && h.SuccessWindow(n + 1) == 0;
    assert h.Count(Failure, 0, n + 1) == n;
    assert h.At(n + 2) == Step(c, h.At(n + 1), h.events[n + 1]);
    assert h.Mode(n + 2).Closed? && h.SuccessWindow(n + 2) == 0;
  }

  /**
    Every closed breaker of a configuration has had fewer failures than its threshold since the
    last success or entry into Closed exactly when it opens at the first failure anyway.
   */
  lemma FewSinceSuccessIff(c: Config)
    ensures AlwaysFewSinceSuccess(c) <==> c.failureThreshold <= 1
  {
    if c.failureThreshold <= 1 {
      forall h: History, i: nat | h.config == c && i <= |h.events|
        ensures FewSinceSuccess(h, i)
      {
        if h.Mode(i).Closed? {
          NoFailureHeld(h, i);
        }
      }
    } else {
      ResetHidesFailures(c);
    }
  }

  /** The smallest example. */
  lemma ResetForgetsFailures(timeout: nat, now: int)
    ensures var h := History(Config(2, 1, timeout), now, [Event(Failure, now), Event(Reset, now), Event(Failure, now)]);
            h.Mode(3).Closed? && h.Entered(3) == 0 && h.Count(Failure, 0, 3) == 2 && h.ClosedWindow(3) == 2
  {
    var h := History(Config(2, 1, timeout), now, [Event(Failure, now), Event(Reset, now), Event(Failure, now)]);
    assert h.At(1) == Step(h.config, h.At(0), h.events[0]);
    assert h.At(2) == Step(h.config, h.At(1), h.events[1]);
    assert h.At(3) == Step(h.config, h.At(2), h.events[2]);
    assert h.Mode(0).Closed? && h.Mode(1).Closed? && h.Mode(2).Closed? && h.Mode(3).Closed?;
    assert h.Entered(0) == 0;
    assert h.Entered(1) == 0;
    assert h.Entered(2) == 0;
    assert h.Count(Failure, 0, 0) == 0;
    assert h.Count(Failure, 0, 1) == 1;
    assert h.Count(Failure, 0, 2) == 1;
    assert h.ClosedWindow(2) == 2;
  }

  /**
    From HalfOpen: closes exactly at the last of `max(1, success_threshold)` successes since
    the entry, none of them interrupted by a failure, or by a reset; opens at the first failure.
   */
  lemma FromHalfOpen(h: History, i: nat)
    requires i < |h.events| && h.Mode(i).HalfOpen?
    ensures !h.Has(Failure, h.Entered(i), i)
    ensures h.Mode(i + 1).Closed? <==>
            || h.events[i].call == Reset
            || (h.events[i].call == Success && h.Count(Success, h.Entered(i), i + 1) == Max(1, h.config.successThreshold))
    ensures h.Mode(i + 1).Open? <==> h.events[i].call in {Failure, ForceOpen}
  {
    HalfOpenCountsSuccesses(h, i);
  }

  /**
    From Open: only a reset closes, and only a question asked a whole timeout after the opening
    call half opens.
   */
  lemma FromOpen(h: History, i: nat)
    requires i < |h.events| && h.Mode(i).Open?
    ensures h.Entered(i) > 0
    ensures h.Mode(i + 1).Closed? <==> h.events[i].call == Reset
    ensures h.Mode(i + 1).HalfOpen? <==>
            h.events[i].call == Ask && Elapsed(h.events[h.Entered(i) - 1].now, h.events[i].now) >= h.config.timeout
  {
    ChangeIsEntry(h, i);
  }

  // ------------------------------------------------------------- whole runs

  /** An opened breaker stays open and refuses, whatever is called, until the timeout or a reset. */
  lemma OpenUntilTimeout(h: History, i: nat, j: nat)
    requires h.InOrder() && i <= j < |h.events| && h.Mode(i).Open? && !h.Has(Reset, i, j)
    requires Elapsed(h.events[h.Entered(i) - 1].now, h.events[j].now) < h.config.timeout
    ensures h.Mode(j).Open? && h.At(j).lastChange == h.events[h.Entered(i) - 1].now
    ensures Step(h.config, h.At(j), Event(Ask, h.events[j].now)).mode.Open?
  {
    ChangeIsEntry(h, i);
    StaysOpen(h, i, j);
  }

  lemma {:induction false} StaysOpen(h: History, i: nat, j: nat)
    requires h.InOrder() && i <= j < |h.events| && h.Mode(i).Open? && !h.Has(Reset, i, j)
    requires Elapsed(h.At(i).lastChange, h.events[j].now) < h.config.timeout
    ensures h.Mode(j).Open? && h.At(j).lastChange == h.At(i).lastChange
    decreases j
  {
    if i < j {
      NotBefore(h, j - 1, j);
      assert !h.Has(Reset, i, j - 1) && h.events[j - 1].call != Reset;
      StaysOpen(h, i, j - 1);
    }
  }

  /** Recovery: a question at `probe` half opens the breaker, and the success at `close` closes it. */
  ghost predicate Recovers(h: History, probe: nat, close: nat)
    requires close < |h.events|
  {
    && probe < close && h.Mode(probe).Open? && h.Mode(close).HalfOpen?
    && 0 < h.Entered(probe) && h.Entered(close) == probe + 1
    && h.events[probe].call == Ask
    && Elapsed(h.events[h.Entered(probe) - 1].now, h.events[probe].now) >= h.config.timeout
    && !h.Has(Failure, probe + 1, close) && h.events[close].call == Success
    && h.Count(Success, probe + 1, close + 1) == Max(1, h.config.successThreshold)
  }

  /**
    Without a reset, the way from Open to Closed always leads through the timeout, a question,
    and the full number of successes with no failure between.
   */
  lemma ClosedAgainRecovered(h: History, i: nat, j: nat) returns (probe: nat, close: nat)
    requires i < j <= |h.events| && h.Mode(i).Open? && h.Mode(j).Closed? && !h.Has(Reset, i, j)
    ensures i <= probe < close < j && Recovers(h, probe, close)
  {
    close := ClosingCall(h, i, j);
    probe := HalfOpeningCall(h, i, close);
    FromHalfOpen(h, close);
    FromOpen(h, probe);
  }

  lemma ClosingCall(h: History, i: nat, j: nat) returns (close: nat)
    requires i < j <= |h.events| && h.Mode(i).Open? && h.Mode(j).Closed? && !h.Has(Reset, i, j)
    ensures i < close < j && h.Mode(close).HalfOpen? && h.Mode(close + 1).Closed? && h.events[close].call != Reset
  {
    hide Step;
    if h.Entered(j) <= i {
      SameSinceEntered(h, j, i);
    }
    close := h.Entered(j) - 1;
    assert h.events[close].call != Reset;
    if h.Mode(close).Open? {
      FromOpen(h, close);
    }
  }

  lemma HalfOpeningCall(h: History, i: nat, close: nat) returns (probe: nat)
    requires i < close <= |h.events| && h.Mode(i).Open? && h.Mode(close).HalfOpen?
    ensures i <= probe < close && h.Mode(probe).Open? && h.Entered(close) == probe + 1 && h.Mode(probe + 1).HalfOpen?
  {
    hide Step;
    if h.Entered(close) <= i {
      SameSinceEntered(h, close, i);
    }
    probe := h.Entered(close) - 1;
    if h.Mode(probe).Closed? {
      FromClosed(h, probe);
    }
  }
}
