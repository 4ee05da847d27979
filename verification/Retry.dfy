/** The retry token bucket: refills accrue whole tokens from elapsed milliseconds and carry the
    remainder by moving the refill mark only as far as the accrued tokens account for. */
module RetryModel {
  import opened Prelude

  /** Tokens accrued since `last`, and the milliseconds they account for. */
  datatype Accrual = Accrual(accrued: nat, consumed: nat)

  function Accrue(rate: u32, last: nat, now: nat): Accrual {
    var elapsed := SatSub(now, last);
    var accrued := Min(rate * elapsed, U64_MAX) / 1000;
    var needed := if rate == 0 then elapsed else CeilDiv(Min(accrued * 1000, U64_MAX), rate);
    Accrual(accrued, Min(needed, elapsed))
  }

  datatype Bucket = Bucket(tokens: nat, last: nat)

  function Added(current: nat, n: nat, cap: nat): nat {
    Min(Min(current + n, U64_MAX), cap)
  }

  /** One uncontended refill. */
  function Refill(rate: u32, b: Bucket, now: nat, cap: nat): Bucket {
    var a := Accrue(rate, b.last, now);
    if a.accrued > 0
    then Bucket(Added(b.tokens, a.accrued, cap), Min(b.last + a.consumed, U64_MAX))
    else b.(tokens := Added(b.tokens, 0, cap))
  }
}

/** Every interleaving of refills and acquisitions, one atomic operation per step, with clock
    samples and caps that may be anything. */
module RetryRuns {
  import opened Prelude
  import opened Nonlinear
  import opened Sums
  import opened RetryModel

  datatype Pc =
    | Idle
    | Claiming(seen: nat, accrued: nat, consumed: nat, cap: nat)
    | Adding(n: nat, cap: nat)
    | AddLoaded(n: nat, cap: nat, current: nat)
    | Taking(current: nat)

  /** `credited`, `admitted` and `latest` are history: tokens claimed by refills, retries admitted,
      and the latest clock sample (or the creation time). */
  datatype World = World(
    rate: u32, start: nat, tokens: nat, last: nat, threads: seq<Pc>, credited: nat, admitted: nat, latest: nat)

  datatype Event =
    | Spawn
    | RefillLoad(i: nat, now: u64, cap: nat)
    | Claim(i: nat)
    | AddLoad(i: nat)
    | AddSwap(i: nat, spurious: bool)
    | TakeLoad(i: nat)
    | TakeSwap(i: nat, spurious: bool)

  predicate Enabled(w: World, e: Event) {
    e.Spawn? ||
    (e.i < |w.threads| &&
     var pc := w.threads[e.i];
     match e
     case RefillLoad(_, _, _) => pc.Idle?
     case Claim(_) => pc.Claiming?
     case AddLoad(_) => pc.Adding?
     case AddSwap(_, _) => pc.AddLoaded?
     case TakeLoad(_) => pc.Idle?
     case TakeSwap(_, _) => pc.Taking?)
  }

  function Step(w: World, e: Event): World
    requires Enabled(w, e)
  {
    if e.Spawn? then w.(threads := w.threads + [Idle])
    else
      var pc := w.threads[e.i];
      match e
      case RefillLoad(i, now, cap) =>
        var a := Accrue(w.rate, w.last, now);
        w.(threads := w.threads[i := Claiming(w.last, a.accrued, a.consumed, cap)], latest := Max(w.latest, now))
      case Claim(i) =>
        if pc.accrued > 0 && w.last == pc.seen
        then w.(threads := w.threads[i := Adding(pc.accrued, pc.cap)],
                last := Min(pc.seen + pc.consumed, U64_MAX), credited := w.credited + pc.accrued)
        else w.(threads := w.threads[i := Adding(0, pc.cap)])
      case AddLoad(i) => w.(threads := w.threads[i := AddLoaded(pc.n, pc.cap, w.tokens)])
      case AddSwap(i, spurious) =>
        var next := Added(pc.current, pc.n, pc.cap);
        if next == pc.current then w.(threads := w.threads[i := Idle])
        else if w.tokens == pc.current && !spurious then w.(threads := w.threads[i := Idle], tokens := next)
        else w.(threads := w.threads[i := AddLoaded(pc.n, pc.cap, w.tokens)])
      case TakeLoad(i) => w.(threads := w.threads[i := Taking(w.tokens)])
      case TakeSwap(i, spurious) =>
        if pc.current == 0 then w.(threads := w.threads[i := Idle])
        else if w.tokens == pc.current && !spurious
        then w.(threads := w.threads[i := Idle], tokens := pc.current - 1, admitted := w.admitted + 1)
        else w.(threads := w.threads[i := Taking(w.tokens)])
  }

  function New(rate: u32, start: u64): World {
    World(rate, start, rate, start, [], 0, 0, start)
  }

  function Run(rate: u32, start: u64, es: seq<Event>): Option<World> {
    if es == [] then Some(New(rate, start))
    else
      var w := Run(rate, start, es[..|es| - 1]);
      var e := es[|es| - 1];
      if w.Some? && Enabled(w.value, e) then Some(Step(w.value, e)) else None
  }

  /** Tokens a thread has claimed and not yet added. */
  function Owed(pc: Pc): nat {
    match pc
    case Adding(n, _) => n
    case AddLoaded(n, _, _) => n
    case _ => 0
  }

  predicate ClaimOk(rate: u32, latest: nat, pc: Pc) {
    pc.Claiming? && pc.accrued > 0 ==> pc.accrued * 1000 <= rate * pc.consumed && pc.seen + pc.consumed <= latest
  }

  ghost predicate Inv(w: World) {
    && w.tokens + w.admitted + Sum(w.threads, Owed) <= w.rate + w.credited
    && w.start <= w.last <= w.latest <= U64_MAX
    && w.credited * 1000 <= w.rate * (w.last - w.start)
    && (forall i :: 0 <= i < |w.threads| ==> ClaimOk(w.rate, w.latest, w.threads[i]))
  }

  /** Accrued tokens are paid for by the time consumed, which never passes the sample; this holds
      when the product saturates too. */
  lemma AccrualIsPaid(rate: u32, last: nat, now: nat)
    ensures var a := Accrue(rate, last, now);
            a.accrued > 0 ==> rate > 0 && last < now && a.accrued * 1000 <= rate * a.consumed && last + a.consumed <= now
  {
    var a := Accrue(rate, last, now);
    var elapsed := SatSub(now, last);
    if a.accrued > 0 {
      DivIs(Min(rate * elapsed, U64_MAX), 1000);
      assert a.accrued * 1000 <= rate * elapsed;
      CeilDivIs(a.accrued * 1000, rate);
      assert elapsed * rate == rate * elapsed;
      CeilDivLeast(a.accrued * 1000, rate, elapsed);
      assert a.consumed == CeilDiv(a.accrued * 1000, rate);
      assert rate * a.consumed == a.consumed * rate;
    }
  }

  /** What a stretch of a run does to the totals: tokens at hand, admitted or owed grow by no more than
      what is credited, and what is credited is paid for by the time the refill mark moves. */
  ghost predicate Flows(w: World, w': World) {
    && w'.rate == w.rate && w'.start == w.start
    && w'.tokens + w'.admitted + Sum(w'.threads, Owed) + w.credited <= w.tokens + w.admitted + Sum(w.threads, Owed) + w'.credited
    && w.credited <= w'.credited && w.last <= w'.last && w.latest <= w'.latest
    && (w'.credited - w.credited) * 1000 <= w.rate * (w'.last - w.last)
  }

  lemma TimeAdds(rate: nat, run: nat, consumed: nat)
    ensures rate * (run + consumed) == rate * run + rate * consumed
  {
  }

  lemma FlowsOn(a: World, b: World, c: World)
    requires Flows(a, b) && Flows(b, c)
    ensures Flows(a, c)
  {
    TimeAdds(a.rate, b.last - a.last, c.last - b.last);
  }

  lemma ClaimFlows(w: World, e: Event)
    requires Inv(w) && Enabled(w, e) && e.Claim?
    ensures Flows(w, Step(w, e))
  {
    var w', pc := Step(w, e), w.threads[e.i];
    SumUpdate(w.threads, Owed, e.i, w'.threads[e.i]);
    if pc.accrued > 0 && w.last == pc.seen {
      assert w'.last - w.last == pc.consumed;
    }
  }

  lemma LoadFlows(w: World, e: Event)
    requires Enabled(w, e) && (e.RefillLoad? || e.AddLoad? || e.TakeLoad?)
    ensures Flows(w, Step(w, e))
  {
    SumUpdate(w.threads, Owed, e.i, Step(w, e).threads[e.i]);
  }

  lemma AddSwapFlows(w: World, e: Event)
    requires Enabled(w, e) && e.AddSwap?
    ensures Flows(w, Step(w, e))
  {
    var w', pc := Step(w, e), w.threads[e.i];
    SumUpdate(w.threads, Owed, e.i, w'.threads[e.i]);
    assert w'.tokens + Owed(w'.threads[e.i]) <= w.tokens + pc.n;
  }

  lemma TakeSwapFlows(w: World, e: Event)
    requires Enabled(w, e) && e.TakeSwap?
    ensures Flows(w, Step(w, e))
  {
    SumUpdate(w.threads, Owed, e.i, Step(w, e).threads[e.i]);
  }

  lemma StepFlows(w: World, e: Event)
    requires Inv(w) && Enabled(w, e)
    ensures Flows(w, Step(w, e))
  {
    match e
    case Spawn => SumSnoc(w.threads, Owed, Idle);
    case Claim(_) => ClaimFlows(w, e);
    case AddSwap(_, _) => AddSwapFlows(w, e);
    case TakeSwap(_, _) => TakeSwapFlows(w, e);
    case _ => LoadFlows(w, e);
  }

  /** Claims stay paid for, and the mark stays within the samples. */
  lemma StepKeepsClaims(w: World, e: Event)
    requires Inv(w) && Enabled(w, e)
    ensures var w' := Step(w, e);
            && w'.last <= w'.latest <= U64_MAX
            && forall i :: 0 <= i < |w'.threads| ==> ClaimOk(w'.rate, w'.latest, w'.threads[i])
  {
    if e.RefillLoad? {
      AccrualIsPaid(w.rate, w.last, e.now);
    }
  }

  lemma StepKeepsInv(w: World, e: Event)
    requires Inv(w) && Enabled(w, e)
    ensures Inv(Step(w, e))
  {
    var w' := Step(w, e);
    StepFlows(w, e);
    StepKeepsClaims(w, e);
    TimeAdds(w.rate, w.last - w.start, w'.last - w.last);
    assert w'.last - w.start == (w.last - w.start) + (w'.last - w.last);
  }

  lemma {:induction false} ReachableInv(rate: u32, start: u64, es: seq<Event>)
    requires Run(rate, start, es).Some?
    ensures var w := Run(rate, start, es).value; Inv(w) && w.rate == rate && w.start == start
  {
    if es == [] {
    } else {
      var w, e := Run(rate, start, es[..|es| - 1]).value, es[|es| - 1];
      ReachableInv(rate, start, es[..|es| - 1]);
      StepKeepsInv(w, e);
    }
  }

  lemma RateBound(rate: nat, run: nat, span: nat, credited: nat)
    requires run <= span && credited * 1000 <= rate * run
    ensures credited <= rate * span / 1000
  {
    MulMonoLeft(rate, run, span);
    DivBound(credited, 1000, rate * span);
  }

  /** Over any interleaving, with any clock samples and any caps, the retries admitted are at most
      the initial fill plus what the rate yields up to the latest sample. */
  lemma {:induction false} RetriesAreRateBounded(rate: u32, start: u64, es: seq<Event>)
    requires Run(rate, start, es).Some?
    ensures var w := Run(rate, start, es).value;
            start <= w.latest && w.admitted <= rate + rate * (w.latest - start) / 1000
  {
    ReachableInv(rate, start, es);
    var w := Run(rate, start, es).value;
    RateBound(rate, w.last - start, w.latest - start, w.credited);
  }

  /** The largest of the rate, which is the initial fill, and the caps that refills were given. */
  function PeakCap(rate: u32, es: seq<Event>): nat {
    if es == [] then rate
    else
      var before := PeakCap(rate, es[..|es| - 1]);
      if es[|es| - 1].RefillLoad? then Max(before, es[|es| - 1].cap) else before
  }

  predicate CapOk(pc: Pc, cap: nat) {
    pc.Claiming? || pc.Adding? || pc.AddLoaded? ==> pc.cap <= cap
  }

  predicate Capped(w: World, cap: nat) {
    w.tokens <= cap && forall i :: 0 <= i < |w.threads| ==> CapOk(w.threads[i], cap)
  }

  lemma StepKeepsCap(w: World, e: Event, cap: nat)
    requires Enabled(w, e) && Capped(w, cap)
    ensures Capped(Step(w, e), if e.RefillLoad? then Max(cap, e.cap) else cap)
  {
  }

  /** In every interleaving the bucket never holds more than the largest of the rate and the caps in
      use: the burst is bounded however claims, additions and acquisitions overlap. */
  lemma {:induction false} TokensStayUnderTheCap(rate: u32, start: u64, es: seq<Event>)
    requires Run(rate, start, es).Some?
    ensures Capped(Run(rate, start, es).value, PeakCap(rate, es))
  {
    if es == [] {
    } else {
      TokensStayUnderTheCap(rate, start, es[..|es| - 1]);
      StepKeepsCap(Run(rate, start, es[..|es| - 1]).value, es[|es| - 1], PeakCap(rate, es[..|es| - 1]));
    }
  }

  lemma {:induction false} RunFlows(rate: u32, start: u64, es: seq<Event>, n: nat)
    requires n <= |es| && Run(rate, start, es).Some?
    ensures Run(rate, start, es[..n]).Some? && Flows(Run(rate, start, es[..n]).value, Run(rate, start, es).value)
    decreases |es|
  {
    if n == |es| {
      assert es[..n] == es;
    } else {
      var p := es[..|es| - 1];
      assert p[..n] == es[..n];
      RunFlows(rate, start, p, n);
      ReachableInv(rate, start, p);
      var w := Run(rate, start, p).value;
      StepFlows(w, es[|es| - 1]);
      FlowsOn(Run(rate, start, es[..n]).value, w, Step(w, es[|es| - 1]));
    }
  }

  predicate NotCutAt(rate: u32, start: u64, es: seq<Event>, k: nat)
    requires k < |es|
  {
    var w := Run(rate, start, es[..k]);
    w.Some? && es[k].AddSwap? && Enabled(w.value, es[k]) ==>
      w.value.threads[es[k].i].current + w.value.threads[es[k].i].n <= Min(w.value.threads[es[k].i].cap, U64_MAX)
  }

  /** No addition of the run is cut by its cap or by the counter's width. */
  predicate NeverCut(rate: u32, start: u64, es: seq<Event>)
    requires Run(rate, start, es).Some?
  {
    forall k :: 0 <= k < |es| && es[k].AddSwap? ==> NotCutAt(rate, start, es, k)
  }

  ghost predicate Conserves(w: World) {
    w.tokens + w.admitted + Sum(w.threads, Owed) == w.rate + w.credited
  }

  lemma ConservesSwap(w: World, e: Event)
    requires Conserves(w) && Enabled(w, e) && (e.AddSwap? || e.TakeSwap?)
    requires e.AddSwap? ==> w.threads[e.i].current + w.threads[e.i].n <= Min(w.threads[e.i].cap, U64_MAX)
    ensures Conserves(Step(w, e))
  {
    SumUpdate(w.threads, Owed, e.i, Step(w, e).threads[e.i]);
  }

  lemma ConservesOther(w: World, e: Event)
    requires Conserves(w) && Enabled(w, e) && !e.AddSwap? && !e.TakeSwap? && !e.Spawn?
    ensures Conserves(Step(w, e))
  {
    SumUpdate(w.threads, Owed, e.i, Step(w, e).threads[e.i]);
  }

  lemma ConservesStep(w: World, e: Event)
    requires Conserves(w) && Enabled(w, e)
    requires e.AddSwap? ==> w.threads[e.i].current + w.threads[e.i].n <= Min(w.threads[e.i].cap, U64_MAX)
    ensures Conserves(Step(w, e))
  {
    if e.Spawn? {
      SumSnoc(w.threads, Owed, Idle);
    } else if e.AddSwap? || e.TakeSwap? {
      ConservesSwap(w, e);
    } else {
      ConservesOther(w, e);
    }
  }

  /** In every interleaving whose additions are never cut, no token is made or lost: what the bucket
      holds, what was admitted and what threads have yet to add is the initial fill and what was credited. */
  lemma {:induction false} NoTokenIsLost(rate: u32, start: u64, es: seq<Event>)
    requires Run(rate, start, es).Some? && NeverCut(rate, start, es)
    ensures var w := Run(rate, start, es).value;
            w.tokens + w.admitted + Sum(w.threads, Owed) == rate + w.credited
  {
    ReachableInv(rate, start, es);
    if es == [] {
    } else {
      var p, e := es[..|es| - 1], es[|es| - 1];
      forall k | 0 <= k < |p| && p[k].AddSwap?
        ensures NotCutAt(rate, start, p, k)
      {
        assert p[..k] == es[..k] && NotCutAt(rate, start, es, k);
      }
      NoTokenIsLost(rate, start, p);
      ReachableInv(rate, start, p);
      assert e.AddSwap? ==> NotCutAt(rate, start, es, |es| - 1);
      ConservesStep(Run(rate, start, p).value, e);
    }
  }

  lemma WindowBound(w: World, w': World)
    requires Flows(w, w') && w'.last <= w'.latest
    ensures w'.admitted - w.admitted <= w.tokens + Sum(w.threads, Owed) + w.rate * (w'.latest - w.last) / 1000
  {
    RateBound(w.rate, w'.last - w.last, w'.latest - w.last, w'.credited - w.credited);
  }

  /** Over any window of any interleaving, the retries admitted are at most a full bucket, what threads
      had claimed and not yet added when it began, and what the rate yields from the refill mark at its
      beginning to the latest sample at its end. */
  lemma {:induction false} EveryWindowIsRateBounded(rate: u32, start: u64, es: seq<Event>, n: nat)
    requires n <= |es| && Run(rate, start, es).Some?
    ensures Run(rate, start, es[..n]).Some?
    ensures var w, w' := Run(rate, start, es[..n]).value, Run(rate, start, es).value;
            && w.last <= w'.latest
            && w'.admitted - w.admitted
               <= PeakCap(rate, es[..n]) + Sum(w.threads, Owed) + rate * (w'.latest - w.last) / 1000
  {
    RunFlows(rate, start, es, n);
    ReachableInv(rate, start, es);
    ReachableInv(rate, start, es[..n]);
    TokensStayUnderTheCap(rate, start, es[..n]);
    WindowBound(Run(rate, start, es[..n]).value, Run(rate, start, es).value);
  }

  // ---------------------------------------------------------------------------------------
  // One thread on its own
  // ---------------------------------------------------------------------------------------

  /** Two steps of one thread with nothing between them. */
  function Then(w: World, e: Event, f: Event): Option<World> {
    if !Enabled(w, e) then None
    else
      var mid := Step(w, e);
      if Enabled(mid, f) then Some(Step(mid, f)) else None
  }

  /** Uninterrupted, an acquisition admits exactly when a token is there, and takes it. */
  lemma TakeAlone(w: World, i: nat)
    requires i < |w.threads| && w.threads[i].Idle?
    ensures Then(w, TakeLoad(i), TakeSwap(i, false))
            == Some(w.(tokens := SatSub(w.tokens, 1), admitted := w.admitted + if w.tokens > 0 then 1 else 0))
  {
    var loaded := Step(w, TakeLoad(i));
    assert loaded.threads[i := Idle] == w.threads;
  }

  lemma AddAlone(w: World, i: nat)
    requires i < |w.threads| && w.threads[i].Adding?
    ensures Then(w, AddLoad(i), AddSwap(i, false))
            == Some(w.(threads := w.threads[i := Idle], tokens := Added(w.tokens, w.threads[i].n, w.threads[i].cap)))
  {
    var loaded := Step(w, AddLoad(i));
    assert loaded.threads[i := Idle] == w.threads[i := Idle];
  }

  lemma ClaimAlone(w: World, i: nat, now: u64, cap: nat)
    requires i < |w.threads| && w.threads[i].Idle?
    ensures var claimed := Then(w, RefillLoad(i, now, cap), Claim(i));
            var a := Accrue(w.rate, w.last, now);
            && claimed.Some? && claimed.value.tokens == w.tokens
            && claimed.value.threads == w.threads[i := Adding(a.accrued, cap)]
            && claimed.value.last == if a.accrued > 0 then Min(w.last + a.consumed, U64_MAX) else w.last
  {
    var loaded, a := Step(w, RefillLoad(i, now, cap)), Accrue(w.rate, w.last, now);
    assert loaded.threads[i := Adding(a.accrued, cap)] == w.threads[i := Adding(a.accrued, cap)];
  }

  /** Uninterrupted, the four steps of a refill are one refill of the bucket. */
  lemma RefillAlone(w: World, i: nat, now: u64, cap: nat)
    requires i < |w.threads| && w.threads[i].Idle?
    ensures var claimed := Then(w, RefillLoad(i, now, cap), Claim(i));
            claimed.Some? &&
            var added := Then(claimed.value, AddLoad(i), AddSwap(i, false));
            && added.Some? && added.value.threads == w.threads
            && Bucket(added.value.tokens, added.value.last) == Refill(w.rate, Bucket(w.tokens, w.last), now, cap)
  {
    ClaimAlone(w, i, now, cap);
    var claimed := Then(w, RefillLoad(i, now, cap), Claim(i)).value;
    AddAlone(claimed, i);
    assert claimed.threads[i := Idle] == w.threads;
  }
}

/** Uncontended refills at times that do not go back. */
module RetryCarry {
  import opened Prelude
  import opened Nonlinear
  import opened RetryModel

  /** Totals of a schedule: tokens credited before the cap, accruals made, and the final mark. */
  datatype Tally = Tally(credited: nat, accruals: nat, last: nat)

  function RefillTally(rate: u32, t: Tally, now: nat): Tally {
    var a := Accrue(rate, t.last, now);
    if a.accrued > 0
    then Tally(t.credited + a.accrued, t.accruals + 1, Min(t.last + a.consumed, U64_MAX)) else t
  }

  function Refills(rate: u32, first: nat, times: seq<nat>): Tally {
    if times == [] then Tally(0, 0, first)
    else RefillTally(rate, Refills(rate, first, times[..|times| - 1]), times[|times| - 1])
  }

  /** Times in order from `first` to `end`, over a span whose product with the rate fits in 64 bits. */
  predicate Schedule(rate: u32, first: nat, times: seq<nat>, end: nat) {
    && first <= end <= U64_MAX && rate * (end - first) <= U64_MAX
    && (forall i :: 0 <= i < |times| ==> first <= times[i] <= end)
    && (forall i, j :: 0 <= i < j < |times| ==> times[i] <= times[j])
  }

  /** A rate whose accruals consume a whole number of milliseconds. */
  predicate Exact(rate: u32) {
    rate % 1000 == 0 || (rate > 0 && 1000 % rate == 0)
  }

  /** A ceiling that divides evenly is the quotient. */
  lemma CeilDivExact(k: nat, b: nat)
    requires b > 0
    ensures CeilDiv(k * b, b) == k
  {
    CeilDivIs(k * b, b);
    CeilDivLeast(k * b, b, k);
    MulLess(k, CeilDiv(k * b, b) + 1, b);
  }

  lemma MultipleAccrues(k: nat, e: nat)
    ensures (k * 1000) * e / 1000 == k * e && (k * e) * 1000 == e * (k * 1000)
  {
    assert (k * 1000) * e == (k * e) * 1000;
  }

  lemma DivisorProduct(rate: nat, k: nat, accrued: nat)
    requires k * rate == 1000
    ensures accrued * 1000 == (accrued * k) * rate
  {
    assert accrued * (k * rate) == (accrued * k) * rate;
  }

  lemma ExactRefill(rate: u32, e: nat, accrued: nat, consumed: nat)
    requires Exact(rate) && rate > 0
    requires accrued == rate * e / 1000 && consumed == CeilDiv(accrued * 1000, rate)
    ensures rate * consumed == accrued * 1000
  {
    if rate % 1000 == 0 {
      MultipleAccrues(rate / 1000, e);
      assert rate == rate / 1000 * 1000;
      assert accrued * 1000 == e * rate;
      CeilDivExact(e, rate);
    } else {
      DivisorProduct(rate, 1000 / rate, accrued);
      CeilDivExact(accrued * (1000 / rate), rate);
    }
  }

  /** What one refill leaves behind: less than one token's worth of time, having rounded the time
      it consumed up by less than a millisecond. */
  lemma OneRefill(rate: u32, last: nat, now: nat)
    requires last <= now && rate > 0 && rate * (now - last) <= U64_MAX
    ensures var a := Accrue(rate, last, now);
            && a.accrued * 1000 <= rate * a.consumed <= a.accrued * 1000 + rate - 1
            && last + a.consumed <= now
            && rate * (now - last - a.consumed) < 1000
            && (Exact(rate) ==> rate * a.consumed == a.accrued * 1000)
            && a.accrued == rate * (now - last) / 1000
  {
    var a, e := Accrue(rate, last, now), now - last;
    DivIs(rate * e, 1000);
    CeilDivIs(a.accrued * 1000, rate);
    assert e * rate == rate * e;
    CeilDivLeast(a.accrued * 1000, rate, e);
    assert a.consumed * rate == rate * a.consumed;
    assert rate * (e - a.consumed) == rate * e - rate * a.consumed;
    if Exact(rate) {
      ExactRefill(rate, e, a.accrued, a.consumed);
    }
  }

  /** Each token credited is paid for by marked time, and each accrual wastes less than a
      millisecond of it; an exact rate wastes nothing. */
  predicate Fair(rate: u32, first: nat, t: Tally)
    requires rate > 0
  {
    && first <= t.last
    && t.credited * 1000 <= rate * (t.last - first) <= t.credited * 1000 + t.accruals * (rate - 1)
    && (Exact(rate) ==> rate * (t.last - first) == t.credited * 1000)
  }

  predicate Settled(rate: u32, t: Tally, now: nat) {
    t.last <= now && rate * (now - t.last) < 1000
  }

  /** One more accrual that consumed time for its tokens, rounded up by less than a millisecond. */
  lemma FairStep(rate: u32, first: nat, t: Tally, accrued: nat, consumed: nat)
    requires rate > 0 && Fair(rate, first, t)
    requires accrued * 1000 <= rate * consumed <= accrued * 1000 + rate - 1
    requires Exact(rate) ==> rate * consumed == accrued * 1000
    ensures Fair(rate, first, Tally(t.credited + accrued, t.accruals + 1, t.last + consumed))
  {
    assert rate * (t.last + consumed - first) == rate * (t.last - first) + rate * consumed;
    assert (t.accruals + 1) * (rate - 1) == t.accruals * (rate - 1) + (rate - 1);
  }

  lemma CarryStep(rate: u32, first: nat, t: Tally, now: nat, end: nat)
    requires rate > 0 && Fair(rate, first, t) && t.last <= now <= end <= U64_MAX && rate * (end - first) <= U64_MAX
    ensures Fair(rate, first, RefillTally(rate, t, now)) && Settled(rate, RefillTally(rate, t, now), now)
  {
    MulMonoLeft(rate, now - t.last, end - first);
    OneRefill(rate, t.last, now);
    var a := Accrue(rate, t.last, now);
    if a.accrued == 0 {
      DivIs(rate * (now - t.last), 1000);
    } else {
      FairStep(rate, first, t, a.accrued, a.consumed);
      assert now - t.last - a.consumed == now - (t.last + a.consumed);
    }
  }

  lemma {:induction false} Carried(rate: u32, first: nat, times: seq<nat>, end: nat)
    requires Schedule(rate, first, times, end) && rate > 0
    ensures Fair(rate, first, Refills(rate, first, times))
    ensures if times == [] then Refills(rate, first, times).last == first
            else Settled(rate, Refills(rate, first, times), times[|times| - 1])
  {
    if times == [] {
    } else {
      var p, now := times[..|times| - 1], times[|times| - 1];
      Carried(rate, first, p, end);
      assert p == [] || p[|p| - 1] <= now;
      CarryStep(rate, first, Refills(rate, first, p), now, end);
    }
  }

  lemma {:induction false} ZeroRate(first: nat, times: seq<nat>)
    ensures Refills(0, first, times) == Tally(0, 0, first)
  {
    if times == [] {
    } else {
      ZeroRate(first, times[..|times| - 1]);
    }
  }

  /** After any such schedule the time not yet credited is worth less than one token. */
  lemma {:induction false} RemainderIsUnderOneToken(rate: u32, first: nat, times: seq<nat>, end: nat)
    requires Schedule(rate, first, times, end) && times != []
    ensures var t := Refills(rate, first, times);
            t.last <= times[|times| - 1] && rate * (times[|times| - 1] - t.last) < 1000
  {
    if rate > 0 {
      Carried(rate, first, times, end);
    } else {
      ZeroRate(first, times);
    }
  }

  /** `marked` is the span credited so far, `slack` what rounding has cost of it, `left` the rest. */
  lemma Shortfall(credited: nat, slack: nat, marked: nat, left: nat)
    requires credited * 1000 <= marked <= credited * 1000 + slack && left < 1000
    ensures credited <= (marked + left) / 1000
    ensures ((marked + left) / 1000 - credited) * 1000 < 1000 + slack
    ensures marked == credited * 1000 ==> (marked + left) / 1000 == credited
  {
  }

  lemma WholeSpan(rate: u32, first: nat, end: nat, t: Tally)
    requires rate > 0 && first <= end && rate * (end - first) <= U64_MAX
    requires Fair(rate, first, t) && Settled(rate, t, end)
    ensures var whole := Accrue(rate, first, end).accrued;
            && t.credited <= whole
            && (whole - t.credited) * 1000 < 1000 + t.accruals * (rate - 1)
            && (Exact(rate) ==> t.credited == whole)
  {
    var marked, left := rate * (t.last - first), rate * (end - t.last);
    assert rate * (end - first) == marked + left;
    Shortfall(t.credited, t.accruals * (rate - 1), marked, left);
  }

  lemma {:induction false} AccrualsCounted(rate: u32, first: nat, times: seq<nat>)
    ensures Refills(rate, first, times).accruals <= |times|
  {
    if times == [] {
    } else {
      AccrualsCounted(rate, first, times[..|times| - 1]);
    }
  }

  /** Splitting a span over many refills never credits more than one refill of the whole span, and
      falls short by less than 1 + n * (rate - 1) / 1000 tokens for n accruals; it credits exactly
      the same when the rate divides 1000 or is a multiple of it. */
  lemma {:induction false} SplittingLosesLittle(rate: u32, first: nat, times: seq<nat>)
    requires times != [] && Schedule(rate, first, times, times[|times| - 1])
    ensures var t := Refills(rate, first, times);
            var whole := Accrue(rate, first, times[|times| - 1]).accrued;
            && t.credited <= whole && t.accruals <= |times|
            && (rate > 0 ==> (whole - t.credited) * 1000 < 1000 + t.accruals * (rate - 1))
            && (Exact(rate) ==> t.credited == whole)
  {
    var end := times[|times| - 1];
    AccrualsCounted(rate, first, times);
    if rate == 0 {
      ZeroRate(first, times);
    } else {
      Carried(rate, first, times, end);
      WholeSpan(rate, first, end, Refills(rate, first, times));
    }
  }

  // ---------------------------------------------------------------------------------------
  // Exactly which rates lose nothing
  // ---------------------------------------------------------------------------------------

  /** `n` times `x`, one after the other. */
  function Mark(x: nat, n: nat): nat {
    if n == 0 then 0 else Mark(x, n - 1) + x
  }

  lemma {:induction false} MarkIs(x: nat, n: nat)
    ensures Mark(x, n) == n * x
  {
    if n == 0 {
    } else {
      MarkIs(x, n - 1);
    }
  }

  /** Polling every `gap` milliseconds, `n` times. */
  function Every(gap: nat, n: nat): seq<nat> {
    if n == 0 then [] else Every(gap, n - 1) + [Mark(gap, n)]
  }

  lemma {:induction false} EveryIs(gap: nat, n: nat)
    ensures |Every(gap, n)| == n && forall i :: 0 <= i < n ==> Every(gap, n)[i] == (i + 1) * gap
  {
    if n == 0 {
    } else {
      EveryIs(gap, n - 1);
      MarkIs(gap, n);
    }
  }

  /** The shortest wait that accrues a token. */
  function Gap(rate: u32): nat
    requires rate > 0
  {
    CeilDiv(1000, rate)
  }

  /** The tokens one such wait accrues. */
  function PerGap(rate: u32): nat
    requires rate > 0
  {
    rate * Gap(rate) / 1000
  }

  lemma ModZero(k: nat, d: nat)
    requires d > 0
    ensures k * d % d == 0
  {
    DivIs(k * d, d);
    DivBound(k, d, k * d);
    DivBoundAbove(k, d, k * d);
  }

  /** For an inexact rate the shortest wait is consumed whole although it is worth strictly more
      than the tokens it accrues. */
  lemma GapWastes(rate: u32, last: nat)
    requires !Exact(rate)
    ensures var a := Accrue(rate, last, last + Gap(rate));
            && a.accrued == PerGap(rate) > 0 && a.consumed == Gap(rate)
            && a.accrued * 1000 < rate * Gap(rate) <= 1000 * U32_MAX
  {
    var g := Gap(rate);
    CeilDivIs(1000, rate);
    assert g * rate == rate * g;
    var q := rate * g / 1000;
    DivIs(rate * g, 1000);
    if rate < 1000 {
      assert q == 1;
      ModZero(g, rate);
    } else {
      CeilDivLeast(1000, rate, 1);
      assert g == 1;
      CeilDivIs(q * 1000, rate);
      CeilDivLeast(q * 1000, rate, 1);
    }
  }

  /** One more poll after the shortest wait. */
  lemma OnePoll(rate: u32, times: seq<nat>, t: Tally)
    requires !Exact(rate) && Refills(rate, 0, times) == t && t.last + Gap(rate) <= U64_MAX
    ensures Refills(rate, 0, times + [t.last + Gap(rate)])
            == Tally(t.credited + PerGap(rate), t.accruals + 1, t.last + Gap(rate))
  {
    assert (times + [t.last + Gap(rate)])[..|times|] == times;
    GapWastes(rate, t.last);
  }

  lemma {:induction false} SteadyPolling(rate: u32, n: nat)
    requires !Exact(rate) && Mark(Gap(rate), n) <= U64_MAX
    ensures Refills(rate, 0, Every(Gap(rate), n)) == Tally(Mark(PerGap(rate), n), n, Mark(Gap(rate), n))
  {
    if n == 0 {
    } else {
      SteadyPolling(rate, n - 1);
      OnePoll(rate, Every(Gap(rate), n - 1), Tally(Mark(PerGap(rate), n - 1), n - 1, Mark(Gap(rate), n - 1)));
    }
  }

  /** No schedule of refills credits less than a single one would. */
  ghost predicate LosesNothing(rate: u32) {
    forall first: nat, times: seq<nat> ::
      times != [] && Schedule(rate, first, times, times[|times| - 1]) ==>
        Refills(rate, first, times).credited == Accrue(rate, first, times[|times| - 1]).accrued
  }

  lemma PollingSchedule(rate: u32)
    requires !Exact(rate)
    ensures var times := Every(Gap(rate), 1000);
            |times| == 1000 && times[999] == 1000 * Gap(rate) && Schedule(rate, 0, times, times[999])
  {
    var g := Gap(rate);
    EveryIs(g, 1000);
    CeilDivLeast(1000, rate, 1000);
    GapWastes(rate, 0);
    assert rate * (1000 * g) == 1000 * (rate * g);
    var times := Every(g, 1000);
    forall i, j | 0 <= i <= j < |times|
      ensures times[i] <= times[j]
    {
      MulMono(i + 1, j + 1, g);
    }
  }

  lemma WholeOfThousand(rate: u32, g: nat)
    requires rate * g <= 1000 * U32_MAX
    ensures Accrue(rate, 0, 1000 * g).accrued == rate * g
  {
    assert rate * (1000 * g) == 1000 * (rate * g);
  }

  lemma PollingFallsShort(rate: u32)
    requires !Exact(rate)
    ensures var times := Every(Gap(rate), 1000);
            |times| == 1000 && Refills(rate, 0, times).credited < Accrue(rate, 0, times[999]).accrued
  {
    var g := Gap(rate);
    PollingSchedule(rate);
    CeilDivLeast(1000, rate, 1000);
    MarkIs(g, 1000);
    MarkIs(PerGap(rate), 1000);
    SteadyPolling(rate, 1000);
    GapWastes(rate, 0);
    WholeOfThousand(rate, g);
  }

  /** Splitting loses nothing exactly for the rates that divide 1000 or are multiples of it: any
      other rate, polled at its shortest accruing wait, is a whole token short after 1000 polls. */
  lemma {:induction false} ExactRatesAreTheLossFreeOnes(rate: u32)
    ensures LosesNothing(rate) <==> Exact(rate)
  {
    if Exact(rate) {
      forall first: nat, times: seq<nat> | times != [] && Schedule(rate, first, times, times[|times| - 1])
        ensures Refills(rate, first, times).credited == Accrue(rate, first, times[|times| - 1]).accrued
      {
        SplittingLosesLittle(rate, first, times);
      }
    } else {
      PollingSchedule(rate);
      PollingFallsShort(rate);
    }
  }
}

/** What one refill is worth to the bucket. */
module RetryRefill {
  import opened Prelude
  import opened Nonlinear
  import opened RetryModel

  /** A refill adds the whole tokens the elapsed time is worth, up to the cap and the counter's width. */
  lemma RefillFills(rate: u32, b: Bucket, now: nat, cap: nat)
    ensures b.last <= now && rate * (now - b.last) <= U64_MAX ==>
              Refill(rate, b, now, cap).tokens == Min(cap, Min(b.tokens + rate * (now - b.last) / 1000, U64_MAX))
  {
  }

  /** After the shortest wait that is worth a token, also when the product saturates, one accrues. */
  lemma WaitYieldsAToken(rate: u32, last: nat, now: nat)
    requires rate > 0 && now >= last + CeilDiv(1000, rate)
    ensures Accrue(rate, last, now).accrued > 0
  {
    var elapsed := now - last;
    CeilDivIs(1000, rate);
    MulMonoLeft(rate, CeilDiv(1000, rate), elapsed);
    assert rate * CeilDiv(1000, rate) == CeilDiv(1000, rate) * rate;
    DivBound(1, 1000, Min(rate * elapsed, U64_MAX));
  }
}

/** The bucket as an object; a weak compare-exchange may fail `spurious` times. */
module Retry {
  import opened Prelude
  import opened RetryModel
  import opened RetryRefill

  class RetryBudget {
    var tokens: nat
    var lastRefillMs: nat
    const minRetriesPerSecond: u32
    /** The configured percentage of the active requests, as a number of tokens. */
    const share: nat -> nat

    ghost function View(): Bucket
      reads this
    {
      Bucket(tokens, lastRefillMs)
    }

    /** The configured share of the load, but no less than the floor. */
    function MaxTokens(activeRequests: nat): (cap: nat)
      ensures cap >= minRetriesPerSecond && cap >= share(activeRequests)
      ensures cap == minRetriesPerSecond || cap == share(activeRequests)
    {
      Max(share(activeRequests), minRetriesPerSecond)
    }

    constructor (minRetriesPerSecond: u32, share: nat -> nat, now: u64)
      ensures View() == Bucket(minRetriesPerSecond, now)
      ensures this.minRetriesPerSecond == minRetriesPerSecond && this.share == share
    {
      tokens, lastRefillMs := minRetriesPerSecond, now;
      this.minRetriesPerSecond, this.share := minRetriesPerSecond, share;
    }

    method RefillAt(now: nat, activeRequests: nat, spurious: nat)
      modifies this
      ensures View() == Refill(minRetriesPerSecond, old(View()), now, MaxTokens(activeRequests))
      ensures old(lastRefillMs) <= now && minRetriesPerSecond * (now - old(lastRefillMs)) <= U64_MAX ==>
        tokens == Min(MaxTokens(activeRequests),
                      Min(old(tokens) + minRetriesPerSecond * (now - old(lastRefillMs)) / 1000, U64_MAX))
    {
      RefillFills(minRetriesPerSecond, View(), now, MaxTokens(activeRequests));
      var last := lastRefillMs;
      var elapsedMs := SatSub(now, last);
      var accrued := Min(minRetriesPerSecond * elapsedMs, U64_MAX) / 1000;
      var consumedMs := elapsedMs;
      if minRetriesPerSecond != 0 {
        consumedMs := Min(CeilDiv(Min(accrued * 1000, U64_MAX), minRetriesPerSecond), elapsedMs);
      }
      var tokensToAdd := 0;
      if accrued > 0 && lastRefillMs == last {
        lastRefillMs := Min(last + consumedMs, U64_MAX);
        tokensToAdd := accrued;
      }
      AddTokens(tokensToAdd, activeRequests, spurious);
    }

    method AddTokens(tokensToAdd: nat, activeRequests: nat, spurious: nat)
      modifies this`tokens
      ensures tokens == Min(MaxTokens(activeRequests), Min(old(tokens) + tokensToAdd, U64_MAX))
    {
      var cap := MaxTokens(activeRequests);
      var current, failures := tokens, spurious;
      while true
        invariant tokens == old(tokens) && current == tokens
        decreases failures
      {
        var next := Min(Min(current + tokensToAdd, U64_MAX), cap);
        if next == current {
          break;
        }
        if failures == 0 {
          tokens := next;
          break;
        }
        failures, current := failures - 1, tokens;
      }
    }

    method TryAcquire(spurious: nat) returns (admitted: bool)
      modifies this`tokens
      ensures admitted <==> old(tokens) > 0
      ensures tokens == SatSub(old(tokens), 1)
    {
      var current, failures := tokens, spurious;
      while current != 0
        invariant tokens == old(tokens) && current == tokens
        decreases failures
      {
        if failures == 0 {
          tokens := current - 1;
          return true;
        }
        failures, current := failures - 1, tokens;
      }
      admitted := false;
    }
  }

  class ClusterRetryState {
    var activeRequests: u64
    const budget: RetryBudget

    constructor (budget: RetryBudget)
      ensures activeRequests == 0 && this.budget == budget
    {
      activeRequests := 0;
      this.budget := budget;
    }

    method Enter() returns (count: nat)
      modifies this`activeRequests
      ensures activeRequests == (old(activeRequests) + 1) % (U64_MAX + 1)
      ensures count == Min(old(activeRequests) + 1, U64_MAX)
    {
      count := Min(activeRequests + 1, U64_MAX);
      activeRequests := (activeRequests + 1) % (U64_MAX + 1);
    }

    method Leave(spurious: nat)
      modifies this`activeRequests
      ensures activeRequests == SatSub(old(activeRequests), 1)
    {
      var current, failures := activeRequests, spurious;
      while current != 0
        invariant activeRequests == old(activeRequests) && current == activeRequests
        decreases failures
      {
        if failures == 0 {
          activeRequests := current - 1;
          return;
        }
        failures, current := failures - 1, activeRequests;
      }
    }

    /** A retry is admitted exactly when the refilled bucket, clamped to the cap for the current
        load, is not empty. */
    method TryAdmitRetry(now: nat, spurious: nat) returns (admitted: bool)
      modifies budget
      ensures var filled := Refill(budget.minRetriesPerSecond, old(budget.View()), now, budget.MaxTokens(activeRequests));
              && (admitted <==> filled.tokens > 0)
              && budget.View() == filled.(tokens := SatSub(filled.tokens, 1))
      ensures var rate, last := budget.minRetriesPerSecond, old(budget.lastRefillMs);
              rate > 0 && now >= last + CeilDiv(1000, rate) ==> admitted
    {
      if budget.minRetriesPerSecond > 0 && now >= budget.lastRefillMs + CeilDiv(1000, budget.minRetriesPerSecond) {
        WaitYieldsAToken(budget.minRetriesPerSecond, budget.lastRefillMs, now);
      }
      var active := activeRequests;
      budget.RefillAt(now, active, spurious);
      admitted := budget.TryAcquire(spurious);
    }
  }
}
