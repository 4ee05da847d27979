/** Whole runs of one breaker. A run is any interleaving of acquisitions and outcomes, one critical
    section per step. An acquisition and a failure read the clock before they take the lock, so their
    samples need not be in the order of the steps; but a failure is sampled after its token was handed
    out, hence after every sample taken by then, and a success reads the clock under the lock. */
module CircuitRuns {
  import opened Prelude
  import opened Nonlinear
  import opened CircuitModel

  /** What a caller holds: the token's generation, and the latest sample when it was handed out. */
  datatype Issued = Issued(generation: nat, at: nat)

  /** `clock` is the latest sample so far. */
  datatype World = World(breaker: Breaker, held: map<nat, Issued>, clock: nat)

  /** `id` names the request, so that an outcome can say which token it returns. */
  datatype Event =
    | Acquire(id: nat, now: nat)
    | Succeed(id: nat, now: nat)
    | Fail(id: nat, now: nat)
    | Free(id: nat)

  /** Requests are named apart, fewer than 2^32 are outstanding, and the 64-bit generation has
      not wrapped. */
  predicate Enabled(w: World, e: Event) {
    match e
    case Acquire(id, _) =>
      id !in w.held && |w.held| < U32_MAX && w.breaker.inner.generation < U64_MAX
    case Succeed(id, now) => id in w.held && w.held[id].at <= now && w.clock <= now
    case Fail(id, now) => id in w.held && w.held[id].at <= now
    case Free(id) => id in w.held
  }

  function Step(c: Config, w: World, e: Event): World
    requires Enabled(w, e)
  {
    match e
    case Acquire(id, now) =>
      var ((b, check), clock) := (TryAcquire(c, w.breaker, now), Max(w.clock, now));
      World(b, if check.Allowed? then w.held[id := Issued(check.token.generation, clock)] else w.held, clock)
    case Succeed(id, now) =>
      World(RecordSuccess(w.breaker, Token(w.held[id].generation), now), w.held - {id}, Max(w.clock, now))
    case Fail(id, now) =>
      World(RecordFailure(c, w.breaker, Token(w.held[id].generation), now), w.held - {id}, Max(w.clock, now))
    case Free(id) =>
      World(Release(w.breaker), w.held - {id}, w.clock)
  }

  /** The world after `es`, or None when some event of `es` is not possible where it stands. */
  function Run(c: Config, born: nat, es: seq<Event>): Option<World> {
    if es == [] then Some(World(New(born), map[], born))
    else
      var w := Run(c, born, es[..|es| - 1]);
      var e := es[|es| - 1];
      if w.Some? && Enabled(w.value, e) then Some(Step(c, w.value, e)) else None
  }

  predicate Allows(c: Config, w: World, e: Event) {
    e.Acquire? && TryAcquire(c, w.breaker, e.now).1.Allowed?
  }

  /** An admission by a circuit that is not Closed. */
  predicate StartsProbe(c: Config, w: World, e: Event) {
    Allows(c, w, e) && w.breaker.inner.state != Closed
  }

  function Streak(c: Config): nat {
    Max(1, c.threshold)
  }

  /** Outstanding tokens that still speak for the current generation. */
  function Current(w: World): set<nat> {
    set id | id in w.held && w.held[id].generation == w.breaker.inner.generation
  }

  predicate Inv(c: Config, w: World) {
    var i := w.breaker.inner;
    && w.breaker.cache == ToCache(i.state)
    && i.inFlight == |w.held| <= U32_MAX
    && (forall id :: id in w.held ==> w.held[id].generation <= i.generation)
    && (i.state == Closed ==> i.consecutiveFailures < Streak(c))
    && (i.state == Open ==> i.openedAt.Some?)
    && (i.state == HalfOpen ==>
          && i.halfOpenedAt.Some?
          && (forall id :: id in Current(w) ==> w.held[id].at >= i.halfOpenedAt.value)
          && (forall x, y :: x in Current(w) && y in Current(w) ==> x == y))
  }

  lemma AdmitKeepsInv(c: Config, w: World, id: nat, now: nat)
    requires Inv(c, w) && Enabled(w, Acquire(id, now)) && Allows(c, w, Acquire(id, now))
    ensures Inv(c, Step(c, w, Acquire(id, now)))
  {
    var w' := Step(c, w, Acquire(id, now));
    assert w'.held.Keys == w.held.Keys + {id};
    if w.breaker.inner.state != Closed {
      assert Current(w') == {id};
    }
  }

  lemma AcquireKeepsInv(c: Config, w: World, id: nat, now: nat)
    requires Inv(c, w) && Enabled(w, Acquire(id, now))
    ensures Inv(c, Step(c, w, Acquire(id, now)))
  {
    if Allows(c, w, Acquire(id, now)) {
      AdmitKeepsInv(c, w, id, now);
    } else {
      assert Current(Step(c, w, Acquire(id, now))) == Current(w);
    }
  }

  lemma OutcomeKeepsInv(c: Config, w: World, e: Event)
    requires Inv(c, w) && Enabled(w, e) && !e.Acquire?
    ensures Inv(c, Step(c, w, e))
  {
    var w' := Step(c, w, e);
    assert w'.held.Keys == w.held.Keys - {e.id};
    if w'.breaker.inner.generation == w.breaker.inner.generation {
      assert Current(w') <= Current(w);
    }
  }

  lemma {:induction false} ReachableInv(c: Config, born: nat, es: seq<Event>)
    requires Run(c, born, es).Some?
    ensures Inv(c, Run(c, born, es).value)
  {
    if es == [] {
    } else {
      var w := Run(c, born, es[..|es| - 1]).value;
      ReachableInv(c, born, es[..|es| - 1]);
      if es[|es| - 1].Acquire? {
        AcquireKeepsInv(c, w, es[|es| - 1].id, es[|es| - 1].now);
      } else {
        OutcomeKeepsInv(c, w, es[|es| - 1]);
      }
    }
  }

  // ---------------------------------------------------------------------------------------
  // The mirror, the peek and liveness
  // ---------------------------------------------------------------------------------------

  ghost predicate AllowsFrom(c: Config, b: Breaker, t: nat) {
    forall u: nat :: u >= t ==> TryAcquire(c, b, u).1.Allowed?
  }

  /** In every reachable state the mirror agrees with the guarded state, the peek at `t` is
      true exactly when an acquisition at `t` would be allowed, and from some time on every
      acquisition would be allowed: no sequence of outcomes wedges the breaker. */
  lemma {:induction false} MirrorPeekAndRecovery(c: Config, born: nat, es: seq<Event>)
    requires Run(c, born, es).Some?
    ensures var b := Run(c, born, es).value.breaker;
            && FromCache(b.cache) == b.inner.state
            && (forall t: nat :: Precheck(c, b, t) <==> TryAcquire(c, b, t).1.Allowed?)
            && (exists t: nat :: AllowsFrom(c, b, t))
  {
    ReachableInv(c, born, es);
    var b := Run(c, born, es).value.breaker;
    var t := match b.inner.state
      case Closed => 0
      case Open => b.inner.openedAt.value + c.recoveryWindow
      case HalfOpen => b.inner.halfOpenedAt.value + c.halfOpenTimeout;
    assert AllowsFrom(c, b, t);
  }

  // ---------------------------------------------------------------------------------------
  // When a request is admitted
  // ---------------------------------------------------------------------------------------

  /** The sample of the failure that last took the circuit to Open, read off the run's states. */
  function OpenedAt(c: Config, born: nat, es: seq<Event>): Option<nat> {
    if es == [] then None
    else
      var before, after, e := Run(c, born, es[..|es| - 1]), Run(c, born, es), es[|es| - 1];
      if before.Some? && after.Some? && e.Fail?
         && before.value.breaker.inner.state != Open && after.value.breaker.inner.state == Open
      then Some(e.now) else OpenedAt(c, born, es[..|es| - 1])
  }

  /** The sample of the acquisition that last started a probe. */
  function ProbedSince(c: Config, born: nat, es: seq<Event>): Option<nat> {
    if es == [] then None
    else
      var before, e := Run(c, born, es[..|es| - 1]), es[|es| - 1];
      if before.Some? && StartsProbe(c, before.value, e) then Some(e.now) else ProbedSince(c, born, es[..|es| - 1])
  }

  predicate Stamped(w: World, shut: Option<nat>, probed: Option<nat>) {
    && (w.breaker.inner.state == Open ==> shut.Some? && w.breaker.inner.openedAt == shut)
    && (w.breaker.inner.state == HalfOpen ==> probed.Some? && w.breaker.inner.halfOpenedAt == probed)
  }

  lemma StampStep(c: Config, w: World, e: Event, shut: Option<nat>, probed: Option<nat>)
    requires Enabled(w, e) && Stamped(w, shut, probed)
    ensures var w' := Step(c, w, e);
            Stamped(w', if e.Fail? && w.breaker.inner.state != Open && w'.breaker.inner.state == Open then Some(e.now) else shut,
                    if StartsProbe(c, w, e) then Some(e.now) else probed)
  {
  }

  lemma {:induction false} ReachableStamped(c: Config, born: nat, es: seq<Event>)
    requires Run(c, born, es).Some?
    ensures Stamped(Run(c, born, es).value, OpenedAt(c, born, es), ProbedSince(c, born, es))
  {
    if es == [] {
    } else {
      var p := es[..|es| - 1];
      ReachableStamped(c, born, p);
      StampStep(c, Run(c, born, p).value, es[|es| - 1], OpenedAt(c, born, p), ProbedSince(c, born, p));
    }
  }

  /** In every reachable state, a request is admitted at `v` exactly when the circuit is Closed, is Open
      and a full recovery window has passed since the failure that shut it, or is HalfOpen and a full
      probe timeout has passed since the probe started. */
  lemma {:induction false} AdmitsExactlyAfterTheWindow(c: Config, born: nat, es: seq<Event>, v: nat)
    requires Run(c, born, es).Some?
    ensures var b := Run(c, born, es).value.breaker;
            TryAcquire(c, b, v).1.Allowed? <==>
              || b.inner.state == Closed
              || (b.inner.state == Open && OpenedAt(c, born, es).Some?
                  && SatSub(v, OpenedAt(c, born, es).value) >= c.recoveryWindow)
              || (b.inner.state == HalfOpen && ProbedSince(c, born, es).Some?
                  && SatSub(v, ProbedSince(c, born, es).value) >= c.halfOpenTimeout)
  {
    ReachableStamped(c, born, es);
  }

  /** A failure that takes the breaker out of Closed keeps it shut for exactly a recovery window from the
      failure's own sample. */
  lemma {:induction false} TripShutsForAWindow(c: Config, born: nat, es: seq<Event>, id: nat, u: nat)
    requires Run(c, born, es).Some? && Enabled(Run(c, born, es).value, Fail(id, u))
    requires Run(c, born, es).value.breaker.inner.state == Closed
    requires Step(c, Run(c, born, es).value, Fail(id, u)).breaker.inner.state != Closed
    ensures forall v: nat :: TryAcquire(c, Step(c, Run(c, born, es).value, Fail(id, u)).breaker, v).1.Allowed?
                             <==> DurationSince(v, u) >= c.recoveryWindow
  {
  }

  // ---------------------------------------------------------------------------------------
  // Generations
  // ---------------------------------------------------------------------------------------

  /** While a probe is out, at most one outstanding token can still speak for the breaker. */
  lemma {:induction false} SingleProbe(c: Config, born: nat, es: seq<Event>)
    requires Run(c, born, es).Some?
    requires Run(c, born, es).value.breaker.inner.state == HalfOpen
    ensures |Current(Run(c, born, es).value)| <= 1
  {
    ReachableInv(c, born, es);
    var s := Current(Run(c, born, es).value);
    if x :| x in s {
      assert s == {x};
    }
  }

  lemma RunSnoc(c: Config, born: nat, es: seq<Event>, e: Event)
    requires Run(c, born, es).Some? && Enabled(Run(c, born, es).value, e)
    ensures Run(c, born, es + [e]) == Some(Step(c, Run(c, born, es).value, e))
  {
    assert (es + [e])[..|es|] == es;
  }

  /** A step changes the generation exactly when it starts a probe, and then by one. */
  lemma GenerationStep(c: Config, w: World, e: Event)
    requires Enabled(w, e)
    ensures Step(c, w, e).breaker.inner.generation == w.breaker.inner.generation + if StartsProbe(c, w, e) then 1 else 0
  {
  }

  lemma {:induction false} GenerationsGrow(c: Config, born: nat, es: seq<Event>, n: nat)
    requires Run(c, born, es).Some? && n <= |es|
    ensures Run(c, born, es[..n]).Some?
    ensures Run(c, born, es[..n]).value.breaker.inner.generation <= Run(c, born, es).value.breaker.inner.generation
    decreases |es|
  {
    if n < |es| {
      var p := es[..|es| - 1];
      assert p[..n] == es[..n];
      GenerationsGrow(c, born, p, n);
      GenerationStep(c, Run(c, born, p).value, es[|es| - 1]);
    } else {
      assert es[..n] == es;
    }
  }

  lemma OldGenerationOnlyFreesItsSlot(c: Config, w: World, e: Event)
    requires Inv(c, w) && !e.Acquire? && Enabled(w, e) && e.id !in Current(w)
    ensures w.breaker.inner.inFlight > 0
    ensures Step(c, w, e).breaker == w.breaker.(inner := w.breaker.inner.(inFlight := w.breaker.inner.inFlight - 1))
    ensures Step(c, w, e).held == w.held - {e.id}
  {
    assert e.id in w.held.Keys;
  }

  lemma ProbeOutdatesTokens(c: Config, w: World, e: Event)
    requires Inv(c, w) && Enabled(w, e) && StartsProbe(c, w, e)
    ensures forall id :: id in w.held ==> w.held[id].generation < Step(c, w, e).breaker.inner.generation
  {
  }

  /** A token that was out when a later step started a probe is inert for the rest of the run:
      whatever outcome it reports, it only frees its slot. */
  lemma {:induction false} StaleTokenOnlyFreesItsSlot(c: Config, born: nat, es: seq<Event>, n: nat, e: Event)
    requires n < |es| && Run(c, born, es).Some? && Run(c, born, es[..n]).Some?
    requires var w0, w := Run(c, born, es[..n]).value, Run(c, born, es).value;
             && StartsProbe(c, w0, es[n])
             && !e.Acquire? && Enabled(w, e) && e.id in w0.held && w.held[e.id] == w0.held[e.id]
    ensures var w := Run(c, born, es).value;
            && w.breaker.inner.inFlight > 0
            && Step(c, w, e).breaker == w.breaker.(inner := w.breaker.inner.(inFlight := w.breaker.inner.inFlight - 1))
            && Step(c, w, e).held == w.held - {e.id}
  {
    var w0, w := Run(c, born, es[..n]).value, Run(c, born, es).value;
    assert es[..n + 1][..n] == es[..n];
    GenerationsGrow(c, born, es, n + 1);
    ReachableInv(c, born, es[..n]);
    ReachableInv(c, born, es);
    ProbeOutdatesTokens(c, w0, es[n]);
    OldGenerationOnlyFreesItsSlot(c, w, e);
  }

  /** The probe that step `n` of `es` started is unanswered at the end: no later step names its
      request, and none starts another probe. */
  predicate ProbeOut(c: Config, born: nat, es: seq<Event>, n: nat) {
    && n < |es| && Run(c, born, es).Some? && Run(c, born, es[..n]).Some?
    && StartsProbe(c, Run(c, born, es[..n]).value, es[n])
    && forall k :: n < k < |es| ==>
         es[k].id != es[n].id && Run(c, born, es[..k]).Some? && !StartsProbe(c, Run(c, born, es[..k]).value, es[k])
  }

  /** The probe named `id`, started at `t`, still speaks for a HalfOpen breaker. */
  predicate Awaits(w: World, id: nat, t: nat) {
    && w.breaker.inner.state == HalfOpen && w.breaker.inner.halfOpenedAt == Some(t)
    && id in Current(w)
  }

  lemma AwaitsStep(c: Config, w: World, e: Event, id: nat, t: nat)
    requires Inv(c, w) && Enabled(w, e) && Awaits(w, id, t) && e.id != id && !StartsProbe(c, w, e)
    ensures Awaits(Step(c, w, e), id, t)
  {
    if !e.Acquire? {
      OldGenerationOnlyFreesItsSlot(c, w, e);
    }
  }

  lemma ProbeOutShorter(c: Config, born: nat, es: seq<Event>, n: nat)
    requires ProbeOut(c, born, es, n) && n < |es| - 1
    ensures ProbeOut(c, born, es[..|es| - 1], n)
  {
    var p := es[..|es| - 1];
    assert p[..n] == es[..n];
    forall k | n < k < |p|
      ensures p[k].id != p[n].id && Run(c, born, p[..k]).Some? && !StartsProbe(c, Run(c, born, p[..k]).value, p[k])
    {
      assert p[..k] == es[..k];
    }
  }

  lemma ProbeAwaited(c: Config, w: World, e: Event)
    requires Inv(c, w) && Enabled(w, e) && StartsProbe(c, w, e)
    ensures Awaits(Step(c, w, e), e.id, e.now)
  {
  }

  lemma {:induction false} ProbeOutAwaits(c: Config, born: nat, es: seq<Event>, n: nat)
    requires ProbeOut(c, born, es, n)
    ensures Awaits(Run(c, born, es).value, es[n].id, es[n].now)
  {
    var p, e := es[..|es| - 1], es[|es| - 1];
    ReachableInv(c, born, p);
    if n == |es| - 1 {
      ProbeAwaited(c, Run(c, born, p).value, e);
    } else {
      ProbeOutShorter(c, born, es, n);
      ProbeOutAwaits(c, born, p, n);
      AwaitsStep(c, Run(c, born, p).value, e, es[n].id, es[n].now);
    }
  }

  /** While a probe is unanswered the breaker waits for it, HalfOpen since the probe started, whatever
      older tokens report; and its outcome, whenever it comes, decides: success closes the circuit with
      an empty streak, failure reopens it, and then exactly a full recovery window admits again. */
  lemma {:induction false} ProbeDecides(c: Config, born: nat, es: seq<Event>, n: nat, u: nat)
    requires ProbeOut(c, born, es, n)
    ensures var w := Run(c, born, es).value;
            && Awaits(w, es[n].id, es[n].now)
            && (Enabled(w, Succeed(es[n].id, u)) ==>
                  var won := Run(c, born, es + [Succeed(es[n].id, u)]);
                  won.Some? && won.value.breaker.inner.state == Closed && won.value.breaker.inner.consecutiveFailures == 0)
            && (Enabled(w, Fail(es[n].id, u)) ==>
                  var lost := Run(c, born, es + [Fail(es[n].id, u)]);
                  && lost.Some? && lost.value.breaker.inner.state == Open
                  && forall v: nat :: TryAcquire(c, lost.value.breaker, v).1.Allowed? <==> DurationSince(v, u) >= c.recoveryWindow)
  {
    ProbeOutAwaits(c, born, es, n);
    var w := Run(c, born, es).value;
    if Enabled(w, Succeed(es[n].id, u)) {
      RunSnoc(c, born, es, Succeed(es[n].id, u));
    }
    if Enabled(w, Fail(es[n].id, u)) {
      RunSnoc(c, born, es, Fail(es[n].id, u));
    }
  }

  /** A HalfOpen breaker opens exactly on the failure of a current token: a probe that times out does
      not open it. */
  lemma {:induction false} HalfOpenOpensOnlyOnProbeFailure(c: Config, born: nat, es: seq<Event>, e: Event)
    requires Run(c, born, es).Some? && Enabled(Run(c, born, es).value, e)
    requires Run(c, born, es).value.breaker.inner.state == HalfOpen
    ensures var w := Run(c, born, es).value;
            Step(c, w, e).breaker.inner.state == Open <==> e.Fail? && e.id in Current(w)
  {
    ReachableInv(c, born, es);
  }

  /** How many probes a run started. */
  function Probes(c: Config, born: nat, es: seq<Event>): nat {
    if es == [] then 0
    else
      var w := Run(c, born, es[..|es| - 1]);
      Probes(c, born, es[..|es| - 1]) + if w.Some? && StartsProbe(c, w.value, es[|es| - 1]) then 1 else 0
  }

  /** The generation counts the probes: of all state transitions only the start of a probe, which
      may also come from HalfOpen itself, changes it. */
  lemma {:induction false} GenerationCountsProbes(c: Config, born: nat, es: seq<Event>)
    requires Run(c, born, es).Some?
    ensures Run(c, born, es).value.breaker.inner.generation == Probes(c, born, es)
  {
    if es == [] {
    } else {
      GenerationCountsProbes(c, born, es[..|es| - 1]);
      GenerationStep(c, Run(c, born, es[..|es| - 1]).value, es[|es| - 1]);
    }
  }

  // ---------------------------------------------------------------------------------------
  // The failure streak
  // ---------------------------------------------------------------------------------------

  datatype Outcome = Good | Bad

  /** An outcome the breaker listens to: its token speaks for the current generation. */
  predicate Counted(w: World, e: Event) {
    (e.Succeed? || e.Fail?) && e.id in Current(w)
  }

  /** What one event appends to the ledger. */
  function Entry(w: World, e: Event): seq<Outcome> {
    if !Counted(w, e) then []
    else if e.Succeed? && w.breaker.inner.state != Open then [Good]
    else if e.Fail? && w.breaker.inner.state == Closed then [Bad]
    else []
  }

  /** The outcomes that bear on the streak: counted outcomes met while Closed, and the probe
      success that re-enters Closed. */
  function Ledger(c: Config, born: nat, es: seq<Event>): seq<Outcome> {
    if es == [] then []
    else
      var before := Ledger(c, born, es[..|es| - 1]);
      var w := Run(c, born, es[..|es| - 1]);
      var e := es[|es| - 1];
      if w.None? then before else before + Entry(w.value, e)
  }

  /** `n` is the length of the run of failures at the end of the ledger. */
  predicate TrailingBad(ledger: seq<Outcome>, n: nat) {
    && n <= |ledger|
    && (forall k :: |ledger| - n <= k < |ledger| ==> ledger[k] == Bad)
    && (n < |ledger| ==> ledger[|ledger| - n - 1] == Good)
  }

  lemma StreakStep(c: Config, w: World, e: Event, ledger: seq<Outcome>)
    requires Inv(c, w) && Enabled(w, e) && Step(c, w, e).breaker.inner.state == Closed
    requires w.breaker.inner.state == Closed ==> TrailingBad(ledger, w.breaker.inner.consecutiveFailures)
    ensures TrailingBad(ledger + Entry(w, e), Step(c, w, e).breaker.inner.consecutiveFailures)
  {
    if Entry(w, e) == [] {
      assert ledger + Entry(w, e) == ledger;
    }
  }

  /** In every reachable Closed state the stored count is the current run of failures, and it
      is short of the threshold. */
  lemma {:induction false} ClosedCountsTheStreak(c: Config, born: nat, es: seq<Event>)
    requires Run(c, born, es).Some?
    requires Run(c, born, es).value.breaker.inner.state == Closed
    ensures TrailingBad(Ledger(c, born, es), Run(c, born, es).value.breaker.inner.consecutiveFailures)
    ensures Run(c, born, es).value.breaker.inner.consecutiveFailures < Streak(c)
  {
    ReachableInv(c, born, es);
    if es == [] {
    } else {
      var p := es[..|es| - 1];
      var w := Run(c, born, p).value;
      ReachableInv(c, born, p);
      if w.breaker.inner.state == Closed {
        ClosedCountsTheStreak(c, born, p);
      }
      StreakStep(c, w, es[|es| - 1], Ledger(c, born, p));
    }
  }

  lemma TrailingBadUnique(ledger: seq<Outcome>, n: nat)
    requires TrailingBad(ledger, n)
    ensures forall m: nat :: TrailingBad(ledger, m) ==> m == n
  {
  }

  lemma TripStep(c: Config, w: World, e: Event, ledger: seq<Outcome>)
    requires Inv(c, w) && Enabled(w, e) && w.breaker.inner.state == Closed
    requires TrailingBad(ledger, w.breaker.inner.consecutiveFailures)
    ensures Step(c, w, e).breaker.inner.state != Closed
            <==> e.Fail? && Counted(w, e) && TrailingBad(ledger + Entry(w, e), Streak(c))
  {
    var n := w.breaker.inner.consecutiveFailures;
    if e.Fail? && Counted(w, e) {
      var after := ledger + [Bad];
      assert TrailingBad(after, n + 1);
      TrailingBadUnique(after, n + 1);
    }
  }

  /** The breaker leaves Closed on an event exactly when that event completes a run of
      `threshold` counted failures. */
  lemma {:induction false} TripsExactlyAtThreshold(c: Config, born: nat, es: seq<Event>, e: Event)
    requires Run(c, born, es).Some? && Run(c, born, es + [e]).Some?
    requires Run(c, born, es).value.breaker.inner.state == Closed
    ensures Run(c, born, es + [e]).value.breaker.inner.state != Closed
            <==> e.Fail? && Counted(Run(c, born, es).value, e) && TrailingBad(Ledger(c, born, es + [e]), Streak(c))
  {
    ClosedCountsTheStreak(c, born, es);
    ReachableInv(c, born, es);
    assert (es + [e])[..|es|] == es;
    TripStep(c, Run(c, born, es).value, e, Ledger(c, born, es));
  }

  // ---------------------------------------------------------------------------------------
  // The idle clock
  // ---------------------------------------------------------------------------------------

  /** Traffic that the idle clock notices: any acquisition, admitted or not, or a counted outcome. */
  predicate IsTouch(w: World, e: Event) {
    e.Acquire? || Counted(w, e)
  }

  /** The clock samples of all touches, the creation first, in the order they took the lock. */
  function Touches(c: Config, born: nat, es: seq<Event>): (ts: seq<nat>)
    ensures ts != []
  {
    if es == [] then [born]
    else
      var w := Run(c, born, es[..|es| - 1]);
      var before := Touches(c, born, es[..|es| - 1]);
      if w.Some? && IsTouch(w.value, es[|es| - 1]) then before + [es[|es| - 1].now] else before
  }

  /** The sample of the touch that took the lock last. */
  function LastTouch(c: Config, born: nat, es: seq<Event>): nat {
    Touches(c, born, es)[|Touches(c, born, es)| - 1]
  }

  lemma TouchStep(c: Config, w: World, e: Event)
    requires Enabled(w, e)
    ensures Step(c, w, e).breaker.inner.lastActivity
            == if IsTouch(w, e) then e.now else w.breaker.inner.lastActivity
  {
  }

  lemma {:induction false} TouchTracked(c: Config, born: nat, es: seq<Event>)
    requires Run(c, born, es).Some?
    ensures Run(c, born, es).value.breaker.inner.lastActivity == LastTouch(c, born, es)
  {
    if es == [] {
    } else {
      TouchTracked(c, born, es[..|es| - 1]);
      TouchStep(c, Run(c, born, es[..|es| - 1]).value, es[|es| - 1]);
    }
  }

  /** The breaker is idle exactly when every token is back, it is not open inside its window, and the
      sample of the touch that took the lock last is old enough. Earlier touches are not looked at. */
  lemma {:induction false} IdleReadsTheLastTouch(c: Config, born: nat, es: seq<Event>, idleThreshold: nat, now: nat)
    requires Run(c, born, es).Some?
    ensures var w := Run(c, born, es).value;
            IsIdle(c, w.breaker, idleThreshold, now)
            <==> w.held == map[] && SatSub(now, LastTouch(c, born, es)) >= idleThreshold
                 && !(w.breaker.inner.state == Open && OpenedAt(c, born, es).Some?
                      && SatSub(now, OpenedAt(c, born, es).value) < c.recoveryWindow)
  {
    ReachableInv(c, born, es);
    ReachableStamped(c, born, es);
    TouchTracked(c, born, es);
  }

  predicate AllOlder(ts: seq<nat>, idleThreshold: nat, now: nat) {
    forall i :: 0 <= i < |ts| ==> DurationSince(now, ts[i]) >= idleThreshold
  }

  /** A breaker that looks idle has not been touched for that long. */
  ghost predicate IdleMeansUntouched(c: Config, born: nat, es: seq<Event>)
    requires Run(c, born, es).Some?
  {
    forall idleThreshold: nat, now: nat :: IsIdle(c, Run(c, born, es).value.breaker, idleThreshold, now) ==>
      AllOlder(Touches(c, born, es), idleThreshold, now)
  }

  /** No touch carries a later sample than the one that took the lock last. */
  predicate LastIsLatest(ts: seq<nat>) {
    forall i :: 0 <= i < |ts| ==> ts[i] <= ts[|ts| - 1]
  }

  /** Some time at which a breaker without tokens looks idle since its last touch, and `t` has passed. */
  lemma {:induction false} LooksIdleAt(c: Config, born: nat, es: seq<Event>, t: nat) returns (now: nat)
    requires Run(c, born, es).Some? && Run(c, born, es).value.held == map[]
    ensures now >= t && now >= LastTouch(c, born, es)
    ensures IsIdle(c, Run(c, born, es).value.breaker, now - LastTouch(c, born, es), now)
  {
    var shut := OpenedAt(c, born, es);
    now := t + LastTouch(c, born, es) + (if shut.Some? then shut.value else 0) + c.recoveryWindow;
    IdleReadsTheLastTouch(c, born, es, now - LastTouch(c, born, es), now);
  }

  /** What looking idle says of the touches, given the sample of the last. */
  lemma OlderExactlyInOrder(ts: seq<nat>)
    requires ts != []
    ensures LastIsLatest(ts) ==>
              forall th: nat, now: nat :: DurationSince(now, ts[|ts| - 1]) >= th ==> AllOlder(ts, th, now)
    ensures !LastIsLatest(ts) ==> exists t: nat :: t in ts && t > ts[|ts| - 1]
  {
    if i :| 0 <= i < |ts| && ts[i] > ts[|ts| - 1] {
      assert ts[i] in ts;
    }
  }

  lemma {:induction false} InOrderIsUntouched(c: Config, born: nat, es: seq<Event>)
    requires Run(c, born, es).Some? && (Run(c, born, es).value.held != map[] || LastIsLatest(Touches(c, born, es)))
    ensures IdleMeansUntouched(c, born, es)
  {
    var b, ts := Run(c, born, es).value.breaker, Touches(c, born, es);
    OlderExactlyInOrder(ts);
    forall idleThreshold: nat, now: nat | IsIdle(c, b, idleThreshold, now)
      ensures AllOlder(ts, idleThreshold, now)
    {
      IdleReadsTheLastTouch(c, born, es, idleThreshold, now);
    }
  }

  lemma {:induction false} OutOfOrderLooksIdle(c: Config, born: nat, es: seq<Event>)
    requires Run(c, born, es).Some? && Run(c, born, es).value.held == map[] && !LastIsLatest(Touches(c, born, es))
    ensures !IdleMeansUntouched(c, born, es)
  {
    var ts, last := Touches(c, born, es), LastTouch(c, born, es);
    OlderExactlyInOrder(ts);
    var t: nat :| t in ts && t > last;
    var now := LooksIdleAt(c, born, es, t);
    assert DurationSince(now, t) < now - last;
    assert !AllOlder(ts, now - last, now);
  }

  /** Looking idle means being untouched exactly when a token is still out, so that the breaker never
      looks idle, or no touch carries a later sample than the one that took the lock last. */
  lemma {:induction false} UntouchedExactlyInOrder(c: Config, born: nat, es: seq<Event>)
    requires Run(c, born, es).Some?
    ensures IdleMeansUntouched(c, born, es)
            <==> Run(c, born, es).value.held != map[] || LastIsLatest(Touches(c, born, es))
  {
    if Run(c, born, es).value.held != map[] || LastIsLatest(Touches(c, born, es)) {
      InOrderIsUntouched(c, born, es);
    } else {
      OutOfOrderLooksIdle(c, born, es);
    }
  }

  // ---------------------------------------------------------------------------------------
  // Spacing of admissions while the circuit is not Closed
  // ---------------------------------------------------------------------------------------

  /** A stretch of the run from a trip to the next return to Closed. */
  datatype Episode = Healthy | Recovering(trip: nat, admitted: seq<nat>)

  /** How one event carries an episode on. */
  function EpisodeNext(c: Config, w: World, before: Episode, e: Event): Episode
    requires Enabled(w, e)
  {
    if Step(c, w, e).breaker.inner.state == Closed then Healthy
    else if before.Healthy? then if e.Fail? then Recovering(e.now, []) else before
    else if Allows(c, w, e) then before.(admitted := before.admitted + [e.now])
    else before
  }

  function EpisodeOf(c: Config, born: nat, es: seq<Event>): Episode {
    if es == [] then Healthy
    else
      var before := EpisodeOf(c, born, es[..|es| - 1]);
      var w := Run(c, born, es[..|es| - 1]);
      var e := es[|es| - 1];
      if w.None? || !Enabled(w.value, e) then before else EpisodeNext(c, w.value, before, e)
  }

  function Gap(c: Config): nat {
    Min(c.recoveryWindow, c.halfOpenTimeout)
  }

  predicate Spaced(c: Config, ep: Episode) {
    ep.Recovering? ==>
      && (ep.admitted != [] ==> ep.admitted[0] >= ep.trip + c.recoveryWindow)
      && (forall k :: 0 < k < |ep.admitted| ==> ep.admitted[k] >= ep.admitted[k - 1] + Gap(c))
  }

  function Latest(ep: Episode): nat
    requires ep.Recovering?
  {
    if ep.admitted == [] then ep.trip else ep.admitted[|ep.admitted| - 1]
  }

  predicate EpisodeInv(c: Config, ep: Episode, w: World) {
    var i := w.breaker.inner;
    && (ep.Healthy? <==> i.state == Closed)
    && (i.state == Open ==> i.openedAt.Some? && i.openedAt.value >= Latest(ep))
    && (i.state == HalfOpen ==>
          ep.admitted != [] && i.halfOpenedAt == Some(Latest(ep)))
    && Spaced(c, ep)
  }

  lemma EpisodeAcquire(c: Config, before: Episode, w: World, e: Event)
    requires EpisodeInv(c, before, w) && Enabled(w, e) && Gap(c) > 0 && e.Acquire?
    ensures EpisodeInv(c, EpisodeNext(c, w, before, e), Step(c, w, e))
  {
  }

  lemma EpisodeOutcome(c: Config, before: Episode, w: World, e: Event)
    requires EpisodeInv(c, before, w) && Inv(c, w) && Enabled(w, e) && !e.Acquire?
    ensures EpisodeInv(c, EpisodeNext(c, w, before, e), Step(c, w, e))
  {
    if e.Fail? && w.breaker.inner.state == HalfOpen && w.held[e.id].generation == w.breaker.inner.generation {
      assert e.id in Current(w);
    }
  }

  lemma EpisodeStep(c: Config, before: Episode, w: World, e: Event)
    requires EpisodeInv(c, before, w) && Inv(c, w) && Enabled(w, e) && Gap(c) > 0
    ensures EpisodeInv(c, EpisodeNext(c, w, before, e), Step(c, w, e))
  {
    if e.Acquire? {
      EpisodeAcquire(c, before, w, e);
    } else {
      EpisodeOutcome(c, before, w, e);
    }
  }

  lemma {:induction false} EpisodeReachable(c: Config, born: nat, es: seq<Event>)
    requires Run(c, born, es).Some? && Gap(c) > 0
    ensures EpisodeInv(c, EpisodeOf(c, born, es), Run(c, born, es).value)
  {
    if es == [] {
    } else {
      var p := es[..|es| - 1];
      EpisodeReachable(c, born, p);
      ReachableInv(c, born, p);
      EpisodeStep(c, EpisodeOf(c, born, p), Run(c, born, p).value, es[|es| - 1]);
    }
  }

  /** With positive windows, after a trip the first admission comes at least a recovery window
      later and successive admissions are at least the shorter window apart, whatever order
      the clock samples reach the lock in. */
  lemma {:induction false} AdmissionsAreSpaced(c: Config, born: nat, es: seq<Event>)
    requires Run(c, born, es).Some? && Gap(c) > 0
    ensures Spaced(c, EpisodeOf(c, born, es))
    ensures EpisodeOf(c, born, es).Healthy? <==> Run(c, born, es).value.breaker.inner.state == Closed
  {
    EpisodeReachable(c, born, es);
  }

  lemma {:induction false} SpacedApart(c: Config, ep: Episode, i: nat, j: nat)
    requires ep.Recovering? && Spaced(c, ep) && i <= j < |ep.admitted|
    ensures ep.admitted[j] >= ep.admitted[i] + (j - i) * Gap(c)
    decreases j
  {
    if i == j {
    } else {
      SpacedApart(c, ep, i, j - 1);
      assert (j - i) * Gap(c) == (j - 1 - i) * Gap(c) + Gap(c);
    }
  }

  lemma FewInSpan(c: Config, ep: Episode, i: nat, j: nat, span: nat)
    requires ep.Recovering? && Spaced(c, ep) && Gap(c) > 0 && i <= j < |ep.admitted|
    requires ep.admitted[j] - ep.admitted[i] <= span
    ensures j - i <= span / Gap(c)
  {
    SpacedApart(c, ep, i, j);
    DivBound(j - i, Gap(c), span);
  }

  /** Hence a span of length `span` admits at most 1 + span / gap requests. */
  lemma {:induction false} SpanAdmitsFew(c: Config, born: nat, es: seq<Event>, i: nat, j: nat, span: nat)
    requires Run(c, born, es).Some? && Gap(c) > 0
    requires EpisodeOf(c, born, es).Recovering?
    requires i <= j < |EpisodeOf(c, born, es).admitted|
    requires EpisodeOf(c, born, es).admitted[j] - EpisodeOf(c, born, es).admitted[i] <= span
    ensures j - i + 1 <= 1 + span / Gap(c)
  {
    AdmissionsAreSpaced(c, born, es);
    FewInSpan(c, EpisodeOf(c, born, es), i, j, span);
  }

  // ---------------------------------------------------------------------------------------
  // Positive windows are necessary
  // ---------------------------------------------------------------------------------------

  lemma EpisodeSnoc(c: Config, born: nat, es: seq<Event>, e: Event)
    requires Run(c, born, es).Some? && Enabled(Run(c, born, es).value, e)
    ensures EpisodeOf(c, born, es + [e]) == EpisodeNext(c, Run(c, born, es).value, EpisodeOf(c, born, es), e)
  {
    assert (es + [e])[..|es|] == es;
  }

  lemma GoesOn(c: Config, es: seq<Event>, e: Event)
    requires Run(c, 0, es).Some? && Enabled(Run(c, 0, es).value, e)
    ensures Run(c, 0, es + [e]) == Some(Step(c, Run(c, 0, es).value, e))
    ensures EpisodeOf(c, 0, es + [e]) == EpisodeNext(c, Run(c, 0, es).value, EpisodeOf(c, 0, es), e)
  {
    RunSnoc(c, 0, es, e);
    EpisodeSnoc(c, 0, es, e);
  }

  /** `n` requests, each admitted with a sample of 0 and failed at 1, one after the other. */
  function Failures(n: nat): seq<Event> {
    if n == 0 then [] else Failures(n - 1) + [Acquire(0, 0)] + [Fail(0, 1)]
  }

  predicate Tripping(c: Config, n: nat, w: World, ep: Episode) {
    && w.held == map[] && w.breaker.inner.inFlight == 0 && w.breaker.inner.generation == 0 && w.clock <= 1
    && (n < Streak(c) ==> w.breaker.inner.state == Closed && w.breaker.inner.consecutiveFailures == n && ep.Healthy?)
    && (n == Streak(c) ==> w.breaker.inner.state == Open && w.breaker.inner.openedAt == Some(1) && ep == Recovering(1, []))
  }

  /** After `n` failures the breaker counts them, and with the last one allowed it has tripped. */
  predicate Trips(c: Config, n: nat) {
    Run(c, 0, Failures(n)).Some? && Tripping(c, n, Run(c, 0, Failures(n)).value, EpisodeOf(c, 0, Failures(n)))
  }

  lemma FailureStep(c: Config, n: nat, w: World, ep: Episode)
    requires n < Streak(c) && Tripping(c, n, w, ep)
    ensures Enabled(w, Acquire(0, 0))
    ensures var asked := Step(c, w, Acquire(0, 0));
            && Enabled(asked, Fail(0, 1))
            && Tripping(c, n + 1, Step(c, asked, Fail(0, 1)), EpisodeNext(c, asked, EpisodeNext(c, w, ep, Acquire(0, 0)), Fail(0, 1)))
  {
    var asked := Step(c, w, Acquire(0, 0));
    assert asked.held == map[0 := Issued(0, w.clock)];
    assert Step(c, asked, Fail(0, 1)).held == map[];
  }

  lemma OneMoreFailure(c: Config, n: nat)
    requires n < Streak(c) && Trips(c, n)
    ensures Trips(c, n + 1)
  {
    FailureStep(c, n, Run(c, 0, Failures(n)).value, EpisodeOf(c, 0, Failures(n)));
    GoesOn(c, Failures(n), Acquire(0, 0));
    GoesOn(c, Failures(n) + [Acquire(0, 0)], Fail(0, 1));
  }

  lemma NoFailures(c: Config)
    ensures Trips(c, 0)
  {
    assert Failures(0) == [] && Run(c, 0, []) == Some(World(New(0), map[], 0)) && EpisodeOf(c, 0, []) == Healthy;
  }

  /** As many failures as the streak allows, and the last of them trips the breaker at time 1. */
  lemma {:induction false} FailuresTrip(c: Config, n: nat)
    requires n <= Streak(c)
    ensures Trips(c, n)
  {
    if n == 0 {
      NoFailures(c);
    } else {
      FailuresTrip(c, n - 1);
      OneMoreFailure(c, n - 1);
    }
  }

  lemma ProbeStep(c: Config, w: World, ep: Episode, id: nat, t: nat)
    requires Enabled(w, Acquire(id, t)) && StartsProbe(c, w, Acquire(id, t)) && ep.Recovering?
    ensures EpisodeNext(c, w, ep, Acquire(id, t)) == ep.(admitted := ep.admitted + [t])
    ensures var w' := Step(c, w, Acquire(id, t));
            && w'.breaker.inner.state == HalfOpen && w'.breaker.inner.halfOpenedAt == Some(t)
            && w'.breaker.inner.generation == w.breaker.inner.generation + 1
            && w'.held.Keys == w.held.Keys + {id}
  {
  }

  /** The run that trips the breaker at time 1 and then probes it at `t`. */
  function ProbedAt(c: Config, t: nat): seq<Event> {
    Failures(Streak(c)) + [Acquire(0, t)]
  }

  lemma {:induction false} ProbedAtIs(c: Config, t: nat)
    requires DurationSince(t, 1) >= c.recoveryWindow
    ensures Run(c, 0, ProbedAt(c, t)).Some? && EpisodeOf(c, 0, ProbedAt(c, t)) == Recovering(1, [t])
    ensures var w := Run(c, 0, ProbedAt(c, t)).value;
            && w.breaker.inner.state == HalfOpen && w.breaker.inner.halfOpenedAt == Some(t)
            && w.breaker.inner.generation == 1 && w.held.Keys == {0} && w.breaker.inner.inFlight == 1 && w.clock <= Max(1, t)
  {
    FailuresTrip(c, Streak(c));
    var w := Run(c, 0, Failures(Streak(c))).value;
    ProbeStep(c, w, Recovering(1, []), 0, t);
    GoesOn(c, Failures(Streak(c)), Acquire(0, t));
  }

  lemma EarlyIsUnspaced(c: Config, trip: nat, admitted: seq<nat>)
    requires admitted != [] && admitted[0] < trip
    ensures !Spaced(c, Recovering(trip, admitted))
  {
  }

  lemma BackwardsIsUnspaced(c: Config, trip: nat, t: nat, u: nat)
    requires u < t
    ensures !Spaced(c, Recovering(trip, [t] + [u]))
  {
    assert ([t] + [u])[1] < ([t] + [u])[1 - 1];
  }

  /** With no recovery window a clock sample older than the trip is admitted at once. */
  lemma ZeroRecoveryUnspaces(c: Config)
    requires c.recoveryWindow == 0
    ensures Run(c, 0, ProbedAt(c, 0)).Some? && !Spaced(c, EpisodeOf(c, 0, ProbedAt(c, 0)))
  {
    ProbedAtIs(c, 0);
    EarlyIsUnspaced(c, 1, [0]);
  }

  /** With no probe timeout a second probe with an older sample is admitted beside the first. */
  lemma ZeroTimeoutUnspaces(c: Config, t: nat)
    requires c.halfOpenTimeout == 0 && t == 1 + c.recoveryWindow
    ensures var es := ProbedAt(c, t) + [Acquire(1, 0)]; Run(c, 0, es).Some? && !Spaced(c, EpisodeOf(c, 0, es))
  {
    ProbedAtIs(c, t);
    GoesOn(c, ProbedAt(c, t), Acquire(1, 0));
    ProbeStep(c, Run(c, 0, ProbedAt(c, t)).value, Recovering(1, [t]), 1, 0);
    BackwardsIsUnspaced(c, 1, t, 0);
  }

  lemma TouchesGrow(c: Config, es: seq<Event>, e: Event)
    ensures forall t :: t in Touches(c, 0, es) ==> t in Touches(c, 0, es + [e])
  {
    assert (es + [e])[..|es|] == es;
  }

  /** A probe at 2, and two requests that are turned away while it is out, the later sample first. */
  function LateRejection(c: Config): seq<Event> {
    ProbedAt(c, 2) + [Acquire(1, 10)] + [Acquire(1, 5)] + [Free(0)]
  }

  /** A breaker that keeps turning requests away can still look idle: here it looks idle for 5 at the very
      time one was turned away, because another with an older sample took the lock later. */
  lemma {:induction false} RejectedJustNowLooksIdle(c: Config)
    requires c.recoveryWindow <= 1 && c.halfOpenTimeout > 8
    ensures Run(c, 0, LateRejection(c)).Some? && 10 in Touches(c, 0, LateRejection(c))
    ensures Run(c, 0, ProbedAt(c, 2)).Some? && !TryAcquire(c, Run(c, 0, ProbedAt(c, 2)).value.breaker, 10).1.Allowed?
    ensures IsIdle(c, Run(c, 0, LateRejection(c)).value.breaker, 5, 10)
  {
    ProbedAtIs(c, 2);
    var es := ProbedAt(c, 2);
    var w := Run(c, 0, es).value;
    RunSnoc(c, 0, es, Acquire(1, 10));
    var w1 := Step(c, w, Acquire(1, 10));
    assert w1.held == w.held;
    assert (es + [Acquire(1, 10)])[..|es|] == es;
    assert 10 in Touches(c, 0, es + [Acquire(1, 10)]);
    RunSnoc(c, 0, es + [Acquire(1, 10)], Acquire(1, 5));
    var w2 := Step(c, w1, Acquire(1, 5));
    assert w2.held == w.held;
    TouchesGrow(c, es + [Acquire(1, 10)], Acquire(1, 5));
    RunSnoc(c, 0, es + [Acquire(1, 10)] + [Acquire(1, 5)], Free(0));
    TouchesGrow(c, es + [Acquire(1, 10)] + [Acquire(1, 5)], Free(0));
  }

  ghost predicate AlwaysSpaced(c: Config) {
    forall born, es :: Run(c, born, es).Some? ==> Spaced(c, EpisodeOf(c, born, es))
  }

  /** Admissions are spaced in every run exactly when both windows are positive: a zero window lets
      a late-arriving clock sample through. */
  lemma {:induction false} SpacedExactlyWithPositiveWindows(c: Config)
    ensures AlwaysSpaced(c) <==> Gap(c) > 0
  {
    if Gap(c) > 0 {
      forall born, es | Run(c, born, es).Some?
        ensures Spaced(c, EpisodeOf(c, born, es))
      {
        AdmissionsAreSpaced(c, born, es);
      }
    } else {
      if c.recoveryWindow == 0 {
        ZeroRecoveryUnspaces(c);
      } else {
        ZeroTimeoutUnspaces(c, 1 + c.recoveryWindow);
      }
    }
  }
}
