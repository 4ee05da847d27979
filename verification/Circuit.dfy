/** One peer's circuit breaker: what each of its critical sections does to the guarded
    state and to the lock-free mirror. Time stamps are natural numbers; the clock is read
    before the lock is taken, so nothing here assumes that they arrive in order. */
module CircuitModel {
  import opened Prelude

  datatype CircuitState = Closed | Open | HalfOpen

  datatype Config = Config(threshold: u32, recoveryWindow: nat, halfOpenTimeout: nat)

  datatype Token = Token(generation: nat)

  datatype Check = Allowed(token: Token) | Rejected

  datatype Inner = Inner(
    consecutiveFailures: nat,
    halfOpenedAt: Option<nat>,
    openedAt: Option<nat>,
    lastActivity: nat,
    inFlight: nat,
    state: CircuitState,
    generation: nat)

  /** The guarded state together with the mirror that `state()` and `precheck` read. */
  datatype Breaker = Breaker(inner: Inner, cache: nat)

  function ToCache(s: CircuitState): nat {
    match s
    case Closed => 0
    case Open => 1
    case HalfOpen => 2
  }

  function FromCache(n: nat): CircuitState {
    if n == 1 then Open else if n == 2 then HalfOpen else Closed
  }

  /** `Instant::duration_since`, which saturates at zero. */
  function DurationSince(now: nat, earlier: nat): nat {
    SatSub(now, earlier)
  }

  predicate Elapsed(since: Option<nat>, now: nat, window: nat) {
    since.Some? && DurationSince(now, since.value) >= window
  }

  function New(now: nat): Breaker {
    Breaker(Inner(0, None, None, now, 0, Closed, 0), ToCache(Closed))
  }

  function IssueToken(i: Inner, now: nat): (Inner, Check) {
    (i.(inFlight := Min(i.inFlight + 1, U32_MAX), lastActivity := now),
     Allowed(Token(i.generation)))
  }

  function ReleaseToken(i: Inner): Inner {
    i.(inFlight := SatSub(i.inFlight, 1))
  }

  function NextGeneration(g: nat): nat {
    (g + 1) % (U64_MAX + 1)
  }

  function ToHalfOpen(i: Inner, now: nat): (Inner, Check) {
    IssueToken(i.(generation := NextGeneration(i.generation), state := HalfOpen, halfOpenedAt := Some(now)), now)
  }

  function OpenToHalfOpen(c: Config, i: Inner, now: nat): (Inner, Check) {
    if Elapsed(i.openedAt, now, c.recoveryWindow) then ToHalfOpen(i, now) else (i, Rejected)
  }

  function ResetStaleProbe(c: Config, i: Inner, now: nat): (Inner, Check) {
    if Elapsed(i.halfOpenedAt, now, c.halfOpenTimeout) then ToHalfOpen(i, now) else (i, Rejected)
  }

  function TryAcquireInner(c: Config, i: Inner, now: nat): (Inner, Check) {
    var j := i.(lastActivity := now);
    match j.state
    case Closed => IssueToken(j, now)
    case Open => OpenToHalfOpen(c, j, now)
    case HalfOpen => ResetStaleProbe(c, j, now)
  }

  function TryAcquire(c: Config, b: Breaker, now: nat): (Breaker, Check) {
    var (i, check) := TryAcquireInner(c, b.inner, now);
    (Breaker(i, ToCache(i.state)), check)
  }

  function RecordSuccess(b: Breaker, token: Token, now: nat): Breaker {
    var i := ReleaseToken(b.inner);
    if token.generation != i.generation then
      Breaker(i, b.cache)
    else
      var j := i.(lastActivity := now);
      var k := match j.state
        case Closed => j.(consecutiveFailures := 0)
        case HalfOpen => j.(state := Closed, consecutiveFailures := 0, halfOpenedAt := None, openedAt := None)
        case Open => j;
      Breaker(k, ToCache(k.state))
  }

  function RecordFailure(c: Config, b: Breaker, token: Token, now: nat): Breaker {
    var i := ReleaseToken(b.inner);
    if token.generation != i.generation then
      Breaker(i, b.cache)
    else
      var j := i.(lastActivity := now);
      var k := match j.state
        case Closed =>
          var n := Min(j.consecutiveFailures + 1, U32_MAX);
          if n >= c.threshold then j.(consecutiveFailures := n, state := Open, openedAt := Some(now))
          else j.(consecutiveFailures := n)
        case HalfOpen => j.(state := Open, openedAt := Some(now), halfOpenedAt := None)
        case Open => j;
      Breaker(k, ToCache(k.state))
  }

  function Release(b: Breaker): Breaker {
    Breaker(ReleaseToken(b.inner), ToCache(b.inner.state))
  }

  /** The peek that callers make before they acquire; the Closed answer comes from the mirror. */
  predicate Precheck(c: Config, b: Breaker, now: nat) {
    FromCache(b.cache) == Closed ||
    match b.inner.state
    case Closed => true
    case Open => Elapsed(b.inner.openedAt, now, c.recoveryWindow)
    case HalfOpen => Elapsed(b.inner.halfOpenedAt, now, c.halfOpenTimeout)
  }

  predicate OpenInRecoveryWindow(c: Config, b: Breaker, now: nat) {
    b.inner.state == Open && b.inner.openedAt.Some? &&
    DurationSince(now, b.inner.openedAt.value) < c.recoveryWindow
  }

  predicate IsIdle(c: Config, b: Breaker, idleThreshold: nat, now: nat) {
    b.inner.inFlight == 0 && !OpenInRecoveryWindow(c, b, now) &&
    DurationSince(now, b.inner.lastActivity) >= idleThreshold
  }
}

/** The breaker as an object whose methods are its critical sections. */
module Circuit {
  import opened Prelude
  import opened M = CircuitModel

  class CircuitBreaker {
    const config: Config
    var consecutiveFailures: nat
    var halfOpenedAt: Option<nat>
    var openedAt: Option<nat>
    var lastActivity: nat
    var inFlight: nat
    var state: CircuitState
    var generation: nat
    var stateCache: nat

    ghost function View(): Breaker
      reads this
    {
      Breaker(Inner(consecutiveFailures, halfOpenedAt, openedAt, lastActivity, inFlight, state, generation),
              stateCache)
    }

    constructor (config: Config, now: nat)
      ensures View() == New(now) && this.config == config
    {
      this.config := config;
      consecutiveFailures, halfOpenedAt, openedAt := 0, None, None;
      lastActivity, inFlight, state, generation := now, 0, Closed, 0;
      stateCache := ToCache(Closed);
    }

    method IssueTokenAt(now: nat) returns (check: Check)
      modifies this
      ensures View() == Breaker(IssueToken(old(View()).inner, now).0, old(stateCache))
      ensures check == IssueToken(old(View()).inner, now).1
    {
      inFlight := Min(inFlight + 1, U32_MAX);
      lastActivity := now;
      check := Allowed(Token(generation));
    }

    method TransitionToHalfOpen(now: nat) returns (check: Check)
      modifies this
      ensures View() == Breaker(ToHalfOpen(old(View()).inner, now).0, old(stateCache))
      ensures check == ToHalfOpen(old(View()).inner, now).1
    {
      generation := (generation + 1) % (U64_MAX + 1);
      state := HalfOpen;
      halfOpenedAt := Some(now);
      check := IssueTokenAt(now);
    }

    method TryOpenToHalfOpen(now: nat) returns (check: Check)
      modifies this
      ensures View() == Breaker(OpenToHalfOpen(config, old(View()).inner, now).0, old(stateCache))
      ensures check == OpenToHalfOpen(config, old(View()).inner, now).1
    {
      if openedAt.Some? && DurationSince(now, openedAt.value) >= config.recoveryWindow {
        check := TransitionToHalfOpen(now);
      } else {
        check := Rejected;
      }
    }

    method TryResetStaleProbe(now: nat) returns (check: Check)
      modifies this
      ensures View() == Breaker(ResetStaleProbe(config, old(View()).inner, now).0, old(stateCache))
      ensures check == ResetStaleProbe(config, old(View()).inner, now).1
    {
      if halfOpenedAt.Some? && DurationSince(now, halfOpenedAt.value) >= config.halfOpenTimeout {
        check := TransitionToHalfOpen(now);
      } else {
        check := Rejected;
      }
    }

    method Acquire(now: nat) returns (check: Check)
      modifies this
      ensures (View(), check) == TryAcquire(config, old(View()), now)
    {
      lastActivity := now;
      match state {
        case Closed => check := IssueTokenAt(now);
        case Open => check := TryOpenToHalfOpen(now);
        case HalfOpen => check := TryResetStaleProbe(now);
      }
      stateCache := ToCache(state);
    }

    method Succeed(token: Token, now: nat)
      modifies this
      ensures View() == RecordSuccess(old(View()), token, now)
    {
      inFlight := SatSub(inFlight, 1);
      if token.generation != generation {
        return;
      }
      lastActivity := now;
      match state {
        case Closed =>
          consecutiveFailures := 0;
        case HalfOpen =>
          state, consecutiveFailures, halfOpenedAt, openedAt := Closed, 0, None, None;
        case Open =>
      }
      stateCache := ToCache(state);
    }

    method Fail(token: Token, now: nat)
      modifies this
      ensures View() == RecordFailure(config, old(View()), token, now)
    {
      inFlight := SatSub(inFlight, 1);
      if token.generation != generation {
        return;
      }
      lastActivity := now;
      match state {
        case Closed =>
          consecutiveFailures := Min(consecutiveFailures + 1, U32_MAX);
          if consecutiveFailures >= config.threshold {
            state, openedAt := Open, Some(now);
          }
        case HalfOpen =>
          state, openedAt, halfOpenedAt := Open, Some(now), None;
        case Open =>
      }
      stateCache := ToCache(state);
    }

    method Free(token: Token)
      modifies this
      ensures View() == Release(old(View()))
    {
      inFlight := SatSub(inFlight, 1);
      stateCache := ToCache(state);
    }

    method Peek(now: nat) returns (likely: bool)
      ensures likely == Precheck(config, View(), now)
    {
      if FromCache(stateCache) == Closed {
        return true;
      }
      match state {
        case Closed => likely := true;
        case Open => likely := Elapsed(openedAt, now, config.recoveryWindow);
        case HalfOpen => likely := Elapsed(halfOpenedAt, now, config.halfOpenTimeout);
      }
    }

    method Idle(idleThreshold: nat, now: nat) returns (idle: bool)
      ensures idle == IsIdle(config, View(), idleThreshold, now)
    {
      var openInRecoveryWindow := state == Open && openedAt.Some? &&
        DurationSince(now, openedAt.value) < config.recoveryWindow;
      idle := inFlight == 0 && !openInRecoveryWindow && DurationSince(now, lastActivity) >= idleThreshold;
    }
  }
}
