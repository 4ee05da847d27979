/** The race among the attempts of a single request: how each call changes it and what the caller is told.
    The answers of the shared budget and of the endpoint picker are inputs, since both depend
    on the rest of the proxy. */
module HedgeRaceModel {
  import opened Prelude

  type Addr = string

  /** `pick` is shown the endpoints already chosen, which grow with every start. */
  type Pick = seq<Addr> -> Option<Addr>

  datatype Launch = Launch(address: Addr, primary: bool)

  datatype Outcome =
    | Launched(attempts: seq<Launch>, wait: Option<nat>)
    | Won(address: Addr, cancel: seq<Addr>)
    | Lost(status: Option<nat>)
    | Pending

  datatype AttemptStart = Started(address: Addr) | BudgetDenied | NotPlaced

  datatype Race = Race(
    initialRequests: u32,
    maxAttempts: u32,
    perTryTimeout: Option<nat>,
    started: seq<Addr>,
    inFlight: seq<Addr>,
    copies: seq<Addr>,
    lastFailure: Option<nat>,
    noted: bool,
    closed: bool)

  predicate StatusIsSuccess(status: nat) {
    200 <= status < 500
  }

  predicate Succeeds(status: Option<nat>) {
    status.Some? && StatusIsSuccess(status.value)
  }

  function New(initialRequests: u32, maxAttempts: u32, perTryTimeout: Option<nat>): Race {
    Race(initialRequests, maxAttempts, perTryTimeout, [], [], [], None, false, false)
  }

  function StartedCount(r: Race): u32 {
    Min(|r.started|, U32_MAX)
  }

  /** `Vec::swap_remove`. */
  function SwapRemove<T>(s: seq<T>, i: nat): seq<T>
    requires i < |s|
  {
    s[i := s[|s| - 1]][..|s| - 1]
  }

  function Position(s: seq<Addr>, a: Addr): (i: nat)
    requires a in s
    ensures i < |s| && s[i] == a && a !in s[..i]
  {
    if s[0] == a then 0 else 1 + Position(s[1..], a)
  }

  function Without(s: seq<Addr>, a: Addr): seq<Addr> {
    if a in s then SwapRemove(s, Position(s, a)) else s
  }

  /** The attempt goes in flight; every attempt but the primary holds a reservation. */
  function Begin(r: Race, a: Addr, primary: bool): Race {
    r.(copies := if primary then r.copies else r.copies + [a],
       inFlight := r.inFlight + [a],
       started := r.started + [a])
  }

  function FreshEndpoint(r: Race, pick: Pick): Option<Addr> {
    var a := pick(r.started);
    if a.Some? && a.value in r.started then None else a
  }

  function StartOne(r: Race, granted: bool, pick: Pick, primary: bool): (Race, AttemptStart) {
    if StartedCount(r) >= r.maxAttempts then (r, NotPlaced)
    else if !primary && !granted then (r, BudgetDenied)
    else
      var a := FreshEndpoint(r, pick);
      if a.None? then (r, NotPlaced) else (Begin(r, a.value, primary), Started(a.value))
  }

  /** The initial fan-out. `grants(n)` answers a reservation asked for while `n` are held. */
  function StartInitial(r: Race, grants: nat -> bool, pick: Pick): (Race, seq<Launch>)
    decreases r.initialRequests - |r.started|
  {
    if StartedCount(r) >= r.initialRequests then (r, [])
    else
      var primary := r.started == [];
      var (next, start) := StartOne(r, grants(|r.copies|), pick, primary);
      if !start.Started? then (r, [])
      else
        var (last, launches) := StartInitial(next, grants, pick);
        (last, [Launch(start.address, primary)] + launches)
  }

  function NextWait(r: Race): Option<nat> {
    if r.closed || StartedCount(r) >= r.maxAttempts then None else r.perTryTimeout
  }

  function OpenRace(r: Race, grants: nat -> bool, pick: Pick): (Race, Outcome) {
    if r.noted then (r, Pending)
    else
      var (next, launches) := StartInitial(r.(noted := true), grants, pick);
      if launches == [] then (next.(closed := true), Lost(None))
      else (next, Launched(launches, NextWait(next)))
  }

  function OnTimer(r: Race, granted: bool, pick: Pick): (Race, Outcome) {
    if r.closed then (r, Pending)
    else
      var (next, start) := StartOne(r, granted, pick, false);
      match start
      case Started(a) => (next, Launched([Launch(a, false)], NextWait(next)))
      case BudgetDenied =>
        if r.inFlight == [] then (r.(closed := true), Lost(r.lastFailure))
        else (r, Launched([], NextWait(r)))
      case NotPlaced =>
        if r.inFlight == [] then (r.(closed := true), Lost(r.lastFailure)) else (r, Pending)
  }

  function TakeInFlight(r: Race, a: Addr): Race {
    r.(copies := Without(r.copies, a), inFlight := Without(r.inFlight, a))
  }

  function FinishIfIdle(r: Race): (Race, Outcome) {
    if r.inFlight != [] then (r, Pending)
    else if StartedCount(r) < r.maxAttempts then (r, Launched([], Some(0)))
    else (r.(closed := true), Lost(r.lastFailure))
  }

  function OnComplete(r: Race, a: Addr, status: Option<nat>): (Race, Outcome) {
    if r.closed || a !in r.inFlight then (r, Pending)
    else
      var taken := TakeInFlight(r, a);
      if Succeeds(status) then
        (taken.(closed := true, copies := [], inFlight := []), Won(a, taken.inFlight))
      else
        FinishIfIdle(if status.Some? then taken.(lastFailure := status) else taken)
  }

  function DisallowMore(r: Race): Race {
    r.(maxAttempts := StartedCount(r))
  }
}

/** Every sequence of calls on an opened race, judged from the calls and answers alone. */
module HedgeRaceRuns {
  import opened Prelude
  import opened HedgeRaceModel

  datatype Event =
    | Open(grants: nat -> bool, pick: Pick)
    | Timer(granted: bool, pick: Pick)
    | Complete(address: Addr, status: Option<nat>)
    | Disallow

  function Step(r: Race, e: Event): (Race, Outcome) {
    match e
    case Open(grants, pick) => OpenRace(r, grants, pick)
    case Timer(granted, pick) => OnTimer(r, granted, pick)
    case Complete(a, status) => OnComplete(r, a, status)
    case Disallow => (DisallowMore(r), Pending)
  }

  function Run(r0: Race, es: seq<Event>): Race {
    if es == [] then r0 else Step(Run(r0, es[..|es| - 1]), es[|es| - 1]).0
  }

  function ToSet<T>(s: seq<T>): set<T> {
    set x | x in s
  }

  predicate NoDup<T(==)>(s: seq<T>) {
    forall i, j :: 0 <= i < j < |s| ==> s[i] != s[j]
  }

  function Addresses(launches: seq<Launch>): seq<Addr> {
    seq(|launches|, i requires 0 <= i < |launches| => launches[i].address)
  }

  /** A response that ends a race: a status from 200 to 499. */
  predicate Good(status: Option<nat>) {
    status.Some? && 200 <= status.value < 500
  }

  /** A referee's book, kept from the calls and the answers without looking into the race. `cap` is
      how many attempts the rules still allow in all, `status` the last one a failed attempt reported. */
  datatype Book = Book(
    launched: seq<Addr>, running: set<Addr>, failed: set<Addr>, won: set<Addr>, verdicts: nat, cap: nat, status: Option<nat>)

  function Unopened(r0: Race): Book {
    Book([], {}, {}, {}, 0, r0.maxAttempts, None)
  }

  function Note(b: Book, e: Event, o: Outcome): Book {
    var done := if e.Complete? && e.address in b.running then
        if Good(e.status) then b.(running := b.running - {e.address}, won := b.won + {e.address})
        else b.(running := b.running - {e.address}, failed := b.failed + {e.address},
                status := if e.status.Some? then e.status else b.status)
      else if e.Disallow? then b.(cap := |b.launched|)
      else b;
    match o
    case Launched(ls, _) =>
      done.(launched := done.launched + Addresses(ls), running := done.running + ToSet(Addresses(ls)))
    case Won(_, _) => done.(verdicts := done.verdicts + 1)
    case Lost(_) => done.(verdicts := done.verdicts + 1)
    case Pending => done
  }

  function Replay(r0: Race, es: seq<Event>): Book {
    if es == [] then Unopened(r0)
    else
      var p := es[..|es| - 1];
      Note(Replay(r0, p), es[|es| - 1], Step(Run(r0, p), es[|es| - 1]).1)
  }

  /** What ties an opened race to the referee's book. */
  ghost predicate Inv(max: nat, r: Race, b: Book) {
    && r.noted
    && b.launched == r.started && NoDup(r.started)
    && |r.started| <= r.maxAttempts == b.cap <= max
    && b.verdicts == (if r.closed then 1 else 0)
    && (!r.closed ==>
          && r.started != []
          && NoDup(r.inFlight) && ToSet(r.inFlight) == b.running
          && NoDup(r.copies) && ToSet(r.copies) == b.running - {r.started[0]}
          && b.won == {} && b.running !! b.failed && b.running + b.failed == ToSet(r.started)
          && r.lastFailure == b.status)
  }

  lemma NoDupSnoc<T>(s: seq<T>, x: T)
    requires NoDup(s) && x !in s
    ensures NoDup(s + [x]) && ToSet(s + [x]) == ToSet(s) + {x}
  {
  }

  lemma NoDupWithout(s: seq<Addr>, a: Addr)
    requires NoDup(s)
    ensures NoDup(Without(s, a)) && ToSet(Without(s, a)) == ToSet(s) - {a}
  {
    if a in s {
      var i := Position(s, a);
      var t := Without(s, a);
      forall x | x in s && x != a
        ensures x in t
      {
        var k :| 0 <= k < |s| && s[k] == x;
        assert t[if k == |s| - 1 then i else k] == x;
      }
    }
  }

  /** The endpoints that hold a reservation after a fan-out: all but the primary. */
  function Reserved(addresses: seq<Addr>, first: bool): seq<Addr> {
    if first && addresses != [] then addresses[1..] else addresses
  }

  /** What the fan-out guarantees of the race and of the attempts it reports. */
  ghost predicate FanOut(r: Race, last: Race, launches: seq<Launch>) {
    && last == r.(started := r.started + Addresses(launches),
                  inFlight := r.inFlight + Addresses(launches),
                  copies := r.copies + Reserved(Addresses(launches), r.started == []))
    && NoDup(last.started)
    && (forall k :: 0 <= k < |launches| ==> (launches[k].primary <==> k == 0 && r.started == []))
  }

  lemma AssocCons<T>(s: seq<T>, x: T, t: seq<T>)
    ensures s + ([x] + t) == (s + [x]) + t
  {
  }

  lemma AddressesCons(l: Launch, rest: seq<Launch>)
    ensures Addresses([l] + rest) == [l.address] + Addresses(rest)
  {
  }

  lemma FanOutCons(r: Race, a: Addr, last: Race, rest: seq<Launch>)
    requires FanOut(Begin(r, a, r.started == []), last, rest)
    ensures FanOut(r, last, [Launch(a, r.started == [])] + rest)
  {
    var tail := Addresses(rest);
    AddressesCons(Launch(a, r.started == []), rest);
    AssocCons(r.started, a, tail);
    AssocCons(r.inFlight, a, tail);
    AssocCons(r.copies, a, tail);
    assert ([a] + tail)[1..] == tail;
  }

  lemma {:induction false} InitialFanOut(r: Race, grants: nat -> bool, pick: Pick)
    requires NoDup(r.started) && |r.started| <= r.maxAttempts
    ensures var (last, launches) := StartInitial(r, grants, pick);
            FanOut(r, last, launches) && |last.started| <= r.maxAttempts
    decreases r.initialRequests - |r.started|
  {
    var (last, launches) := StartInitial(r, grants, pick);
    if StartedCount(r) >= r.initialRequests {
    } else {
      var primary := r.started == [];
      var (next, start) := StartOne(r, grants(|r.copies|), pick, primary);
      if start.Started? {
        NoDupSnoc(r.started, start.address);
        InitialFanOut(next, grants, pick);
        FanOutCons(r, start.address, last, StartInitial(next, grants, pick).1);
      }
    }
  }

  lemma OpenEstablishesInv(r0: Race, e: Event)
    requires e.Open? && r0 == New(r0.initialRequests, r0.maxAttempts, r0.perTryTimeout)
    ensures var (r, o) := Step(r0, e);
            Inv(r0.maxAttempts, r, Note(Unopened(r0), e, o)) && (o.Launched? || o == Lost(None))
  {
    InitialFanOut(r0.(noted := true), e.grants, e.pick);
    var (r, o) := Step(r0, e);
    if o.Launched? {
      assert r.copies == r.started[1..];
      assert ToSet(r.copies) == ToSet(r.started) - {r.started[0]} by {
        forall x | x in r.started && x != r.started[0]
          ensures x in r.started[1..]
        {
        }
      }
    }
  }

  lemma TimerKeepsInv(max: nat, r: Race, b: Book, e: Event)
    requires Inv(max, r, b) && e.Timer?
    ensures Inv(max, Step(r, e).0, Note(b, e, Step(r, e).1))
  {
    var (r', o) := Step(r, e);
    if !r.closed && StartOne(r, e.granted, e.pick, false).1.Started? {
      var a := StartOne(r, e.granted, e.pick, false).1.address;
      NoDupSnoc(r.started, a);
      assert a !in ToSet(r.inFlight) && a !in ToSet(r.copies);
      NoDupSnoc(r.inFlight, a);
      NoDupSnoc(r.copies, a);
      assert Addresses([Launch(a, false)]) == [a];
    }
  }

  /** A finished attempt is taken off both lists, whichever way it went. */
  lemma TakenAgrees(max: nat, r: Race, b: Book, a: Addr)
    requires Inv(max, r, b) && !r.closed && a in r.inFlight
    ensures var taken := TakeInFlight(r, a);
            && NoDup(taken.inFlight) && ToSet(taken.inFlight) == b.running - {a}
            && NoDup(taken.copies) && ToSet(taken.copies) == (b.running - {a}) - {r.started[0]}
    ensures a in b.running
  {
    NoDupWithout(r.inFlight, a);
    NoDupWithout(r.copies, a);
    assert a in ToSet(r.inFlight);
  }

  lemma CompleteKeepsInv(max: nat, r: Race, b: Book, e: Event)
    requires Inv(max, r, b) && e.Complete?
    ensures Inv(max, Step(r, e).0, Note(b, e, Step(r, e).1))
  {
    if !r.closed {
      assert e.address in r.inFlight <==> e.address in ToSet(r.inFlight);
      if e.address in r.inFlight {
        TakenAgrees(max, r, b, e.address);
        assert Addresses([]) == [];
      }
    }
  }

  predicate Opened(r0: Race, es: seq<Event>) {
    es != [] && es[0].Open? && r0 == New(r0.initialRequests, r0.maxAttempts, r0.perTryTimeout)
  }

  lemma {:induction false} ReachableInv(r0: Race, es: seq<Event>)
    requires Opened(r0, es)
    ensures Inv(r0.maxAttempts, Run(r0, es), Replay(r0, es))
  {
    var p, e := es[..|es| - 1], es[|es| - 1];
    if |es| == 1 {
      OpenEstablishesInv(r0, e);
    } else {
      ReachableInv(r0, p);
      var r, b := Run(r0, p), Replay(r0, p);
      match e
      case Open(_, _) =>
      case Timer(_, _) => TimerKeepsInv(r0.maxAttempts, r, b, e);
      case Complete(_, _) => CompleteKeepsInv(r0.maxAttempts, r, b, e);
      case Disallow =>
    }
  }

  /** The endpoints of an opened race are distinct and no more than the configured attempts, and
      at most one call is answered with a verdict. */
  lemma {:induction false} AttemptsAreDistinctAndCapped(r0: Race, es: seq<Event>)
    requires Opened(r0, es)
    ensures var b := Replay(r0, es);
            NoDup(b.launched) && |b.launched| <= r0.maxAttempts && b.verdicts <= 1
  {
    ReachableInv(r0, es);
  }

  lemma WinStep(max: nat, r: Race, b: Book, e: Event)
    requires Inv(max, r, b)
    ensures var o := Step(r, e).1;
            && (o.Won? <==> e.Complete? && Good(e.status) && e.address in b.running && b.verdicts == 0)
            && (o.Won? ==> o.address == e.address && b.won == {}
                           && NoDup(o.cancel) && ToSet(o.cancel) == b.running - {e.address})
  {
    if e.Complete? {
      if !r.closed {
        NoDupWithout(r.inFlight, e.address);
        assert e.address in r.inFlight <==> e.address in ToSet(r.inFlight);
      }
    }
  }

  /** A call is answered with a win exactly when it reports a successful response of an attempt
      that is still running and no verdict has been given; that response is the first success, and
      the attempts to cancel are exactly the others still running. */
  lemma {:induction false} WinIsTheFirstSuccess(r0: Race, es: seq<Event>, e: Event)
    requires Opened(r0, es)
    ensures var b := Replay(r0, es);
            var o := Step(Run(r0, es), e).1;
            && (o.Won? <==> e.Complete? && Good(e.status) && e.address in b.running && b.verdicts == 0)
            && (o.Won? ==> o.address == e.address && b.won == {}
                           && NoDup(o.cancel) && ToSet(o.cancel) == b.running - {e.address})
  {
    ReachableInv(r0, es);
    WinStep(r0.maxAttempts, Run(r0, es), Replay(r0, es), e);
  }

  /** A loss is answered only when every launched attempt has failed, with the last status any of them
      reported. Nothing is answered after a verdict, nor to a second opening or to a lowered cap. */
  lemma {:induction false} LossNeedsEveryAttemptToFail(r0: Race, es: seq<Event>, e: Event)
    requires Opened(r0, es)
    ensures var o := Step(Run(r0, es), e).1;
            var after := Replay(r0, es + [e]);
            && (o.Lost? ==> after.running == {} && after.won == {} && after.failed == ToSet(after.launched)
                            && o.status == after.status)
            && (Replay(r0, es).verdicts == 1 || e.Open? || e.Disallow? ==> o == Pending)
  {
    ReachableInv(r0, es);
    assert (es + [e])[..|es|] == es;
    var r := Run(r0, es);
    if e.Complete? && !r.closed {
      NoDupWithout(r.inFlight, e.address);
      assert ToSet(Without(r.inFlight, e.address)) == {} <==> Without(r.inFlight, e.address) == [] by {
        var t := Without(r.inFlight, e.address);
        assert t != [] ==> t[0] in ToSet(t);
      }
    }
    assert r.inFlight == [] ==> ToSet(r.inFlight) == {};
  }

  /** Whether the rules and the environment together allow another attempt, and to which endpoint. */
  function NextStart(b: Book, granted: bool, pick: Pick): Option<Addr> {
    var a := pick(b.launched);
    if b.verdicts == 0 && |b.launched| < b.cap && granted && a.Some? && a.value !in b.launched then a else None
  }

  lemma EmptyToSet(s: seq<Addr>)
    ensures s == [] <==> ToSet(s) == {}
  {
    assert s != [] ==> s[0] in ToSet(s);
  }

  lemma TimerStep(max: nat, r: Race, b: Book, e: Event)
    requires Inv(max, r, b) && e.Timer?
    ensures var o, a := Step(r, e).1, NextStart(b, e.granted, e.pick);
            && (a.Some? <==> o.Launched? && o.attempts != [])
            && (a.Some? ==> o == Launched([Launch(a.value, false)],
                                          if |b.launched| + 1 < b.cap then r.perTryTimeout else None))
            && (o.Lost? <==> b.verdicts == 0 && b.running == {} && a.None?)
            && (b.verdicts == 0 && b.running != {} && a.None? ==>
                  o == if |b.launched| < b.cap && !e.granted then Launched([], r.perTryTimeout) else Pending)
  {
    EmptyToSet(r.inFlight);
  }

  lemma TimeoutStep(r: Race, e: Event)
    requires r.noted
    ensures Step(r, e).0.perTryTimeout == r.perTryTimeout
  {
  }

  lemma {:induction false} NotedRun(r0: Race, es: seq<Event>)
    requires Opened(r0, es)
    ensures Run(r0, es).noted
  {
    ReachableInv(r0, es);
  }

  lemma {:induction false} TimeoutIsFixed(r0: Race, es: seq<Event>)
    requires Opened(r0, es)
    ensures Run(r0, es).perTryTimeout == r0.perTryTimeout
  {
    var p := es[..|es| - 1];
    if |es| == 1 {
      InitialFanOut(r0.(noted := true), es[0].grants, es[0].pick);
      assert Run(r0, p) == r0;
    } else {
      TimeoutIsFixed(r0, p);
      NotedRun(r0, p);
      TimeoutStep(Run(r0, p), es[|es| - 1]);
    }
  }

  /** A timer call starts a copy exactly when no verdict has been given, the cap has room, the budget
      grants it and a fresh endpoint is offered, and then starts just that one; it ends the race
      exactly when it starts nothing and nothing is running. While something runs, a copy the budget
      denies is asked for again after the per-try delay, and any other that cannot start is given up. */
  lemma {:induction false} TimerStartsExactlyWhenAllowed(r0: Race, es: seq<Event>, granted: bool, pick: Pick)
    requires Opened(r0, es)
    ensures var b := Replay(r0, es);
            var o, a := Step(Run(r0, es), Timer(granted, pick)).1, NextStart(b, granted, pick);
            && (a.Some? <==> o.Launched? && o.attempts != [])
            && (a.Some? ==> o == Launched([Launch(a.value, false)],
                                          if |b.launched| + 1 < b.cap then r0.perTryTimeout else None))
            && (o.Lost? <==> b.verdicts == 0 && b.running == {} && a.None?)
            && (b.verdicts == 0 && b.running != {} && a.None? ==>
                  o == if |b.launched| < b.cap && !granted then Launched([], r0.perTryTimeout) else Pending)
  {
    ReachableInv(r0, es);
    TimeoutIsFixed(r0, es);
    TimerStep(r0.maxAttempts, Run(r0, es), Replay(r0, es), Timer(granted, pick));
  }

  lemma FailureStep(max: nat, r: Race, b: Book, a: Addr, status: Option<nat>)
    requires Inv(max, r, b) && !Good(status)
    ensures var o := Step(r, Complete(a, status)).1;
            var last := b.verdicts == 0 && b.running == {a};
            && (o.Lost? <==> last && |b.launched| == b.cap)
            && (o.Launched? <==> last && |b.launched| < b.cap)
            && (o.Launched? ==> o == Launched([], Some(0)))
            && (!last ==> o == Pending)
  {
    if !r.closed {
      NoDupWithout(r.inFlight, a);
      EmptyToSet(Without(r.inFlight, a));
    }
  }

  /** A failed attempt that was the last one running ends the race when the cap is spent, and asks
      for the next copy at once when it is not; any other failure changes nothing for the caller. */
  lemma {:induction false} FailureEndsTheRaceExactlyWhenSpent(r0: Race, es: seq<Event>, a: Addr, status: Option<nat>)
    requires Opened(r0, es) && !Good(status)
    ensures var b := Replay(r0, es);
            var o := Step(Run(r0, es), Complete(a, status)).1;
            var last := b.verdicts == 0 && b.running == {a};
            && (o.Lost? <==> last && |b.launched| == b.cap)
            && (o.Launched? <==> last && |b.launched| < b.cap)
            && (o.Launched? ==> o == Launched([], Some(0)))
            && (!last ==> o == Pending)
  {
    ReachableInv(r0, es);
    FailureStep(r0.maxAttempts, Run(r0, es), Replay(r0, es), a, status);
  }

  /** The `k`-th attempt of an opening: a fresh endpoint from the picker, which is shown those before it,
      and for every attempt but the first a reservation, asked for while all earlier copies are held. */
  predicate Chosen(started: seq<Addr>, k: nat, grants: nat -> bool, pick: Pick)
    requires k < |started|
  {
    pick(started[..k]) == Some(started[k]) && started[k] !in started[..k] && (k > 0 ==> grants(k - 1))
  }

  /** Another attempt could not follow: the budget denies it, or no fresh endpoint is offered. */
  predicate Refused(started: seq<Addr>, grants: nat -> bool, pick: Pick) {
    || (started != [] && !grants(|started| - 1))
    || pick(started).None? || pick(started).value in started
  }

  predicate AtPrimary(r: Race) {
    |r.copies| == if r.started == [] then 0 else |r.started| - 1
  }

  lemma {:induction false} FanOutChoices(r: Race, grants: nat -> bool, pick: Pick)
    requires AtPrimary(r)
    requires forall k :: 0 <= k < |r.started| ==> Chosen(r.started, k, grants, pick)
    requires |r.started| <= r.initialRequests && |r.started| <= r.maxAttempts
    ensures var last := StartInitial(r, grants, pick).0;
            && (forall k :: 0 <= k < |last.started| ==> Chosen(last.started, k, grants, pick))
            && |last.started| <= r.initialRequests && |last.started| <= r.maxAttempts
            && (|last.started| < r.initialRequests && |last.started| < r.maxAttempts ==> Refused(last.started, grants, pick))
    decreases r.initialRequests - |r.started|
  {
    if StartedCount(r) >= r.initialRequests {
    } else {
      var (next, start) := StartOne(r, grants(|r.copies|), pick, r.started == []);
      if start.Started? {
        forall k | 0 <= k < |next.started|
          ensures Chosen(next.started, k, grants, pick)
        {
          if k < |r.started| {
            assert Chosen(r.started, k, grants, pick);
          }
          assert next.started[..k] == r.started[..k];
        }
        FanOutChoices(next, grants, pick);
      }
    }
  }

  /** Opening launches the primary, which needs no reservation, and then copies in order, up to the
      configured number and the cap or until the budget or the picker refuses one; if not even the
      primary starts, the race is lost. The per-try timer is armed exactly while the cap has room. */
  lemma {:induction false} OpenLaunchesAllItMay(r0: Race, grants: nat -> bool, pick: Pick)
    requires Opened(r0, [Open(grants, pick)])
    ensures var (r, o) := Step(r0, Open(grants, pick));
            && (o == Lost(None) || (o.Launched? && o.attempts != [])) && (o.Lost? <==> r.started == [])
            && (o.Launched? ==>
                  && r.started == Addresses(o.attempts) && r.copies == r.started[1..]
                  && (forall k :: 0 <= k < |o.attempts| ==> (o.attempts[k].primary <==> k == 0))
                  && o.wait == if |o.attempts| < r0.maxAttempts then r0.perTryTimeout else None)
            && (forall k :: 0 <= k < |r.started| ==> Chosen(r.started, k, grants, pick))
            && |r.started| <= r0.initialRequests && |r.started| <= r0.maxAttempts
            && (|r.started| < r0.initialRequests && |r.started| < r0.maxAttempts ==> Refused(r.started, grants, pick))
  {
    var counted := r0.(noted := true);
    InitialFanOut(counted, grants, pick);
    FanOutChoices(counted, grants, pick);
  }

  lemma FrozenStep(max: nat, r: Race, b: Book, e: Event)
    requires Inv(max, r, b) && (r.maxAttempts == |r.started| || e.Disallow?)
    ensures Step(r, e).0.started == r.started && Step(r, e).0.maxAttempts == |r.started|
    ensures Note(b, e, Step(r, e).1).launched == b.launched
  {
    assert Addresses([]) == [];
  }

  /** Once further copies are disallowed, no attempt starts for the rest of the run. */
  lemma {:induction false} NothingStartsAfterDisallow(r0: Race, es: seq<Event>, k: nat)
    requires Opened(r0, es) && 0 < k < |es| && es[k].Disallow?
    ensures Replay(r0, es).launched == Replay(r0, es[..k]).launched
    ensures Run(r0, es).maxAttempts == |Run(r0, es).started|
    decreases |es|
  {
    var p := es[..|es| - 1];
    ReachableInv(r0, p);
    if k == |es| - 1 {
      assert p == es[..k];
    } else {
      assert p[..k] == es[..k];
      NothingStartsAfterDisallow(r0, p, k);
    }
    FrozenStep(r0.maxAttempts, Run(r0, p), Replay(r0, p), es[|es| - 1]);
  }
}
