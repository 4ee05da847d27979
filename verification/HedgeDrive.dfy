/** The driver that feeds a race: it keeps one task per launched attempt, waits for a task to
    finish or for the per-try timer, and turns the race's verdict into a delivery. */
module HedgeDriveModel {
  import opened Prelude
  import opened HedgeRaceModel

  datatype Attempt<T> = Attempt(status: Option<nat>, response: Option<T>, halt: bool)

  /** A finished task: the endpoint it was dialled to and what came of it. */
  datatype Finish<T> = Finish(address: Addr, attempt: Attempt<T>)

  datatype Delivery<T> =
    | Ready(address: Addr, response: T)
    | Failed(status: Option<nat>, body: Option<T>)

  /** Running tasks, and the endpoint recorded for each in case it panics. */
  datatype FlightState = FlightState(tasks: map<nat, Addr>, addresses: map<nat, Addr>, next: nat)

  datatype Joined<T> = Answered(attempt: Attempt<T>) | Panicked

  /** Answers the environment gives while a wake is handled: whether the budget grants a copy,
      which endpoint is picked, and whether the new deadline is representable. */
  datatype Offer = Offer(granted: bool, pick: Pick, armed: bool)

  datatype Wake<T> =
    | Finished(id: nat, joined: Joined<T>, offer: Offer)
    | Timer(offer: Offer)

  datatype Driver<T> = Driver(race: Race, flight: FlightState, deadline: bool, lastFailure: Option<Attempt<T>>)

  datatype Progress<T> = Running(driver: Driver<T>) | Done(delivery: Delivery<T>)

  function Spawn(f: FlightState, a: Addr): FlightState {
    FlightState(f.tasks[f.next := a], f.addresses[f.next := a], f.next + 1)
  }

  function SpawnAll(f: FlightState, launches: seq<Launch>): FlightState
    decreases |launches|
  {
    if launches == [] then f else SpawnAll(Spawn(f, launches[0].address), launches[1..])
  }

  function Join(f: FlightState, id: nat): FlightState {
    f.(tasks := f.tasks - {id}, addresses := f.addresses - {id})
  }

  /** A task that answers names its own endpoint; a panic is looked up, and would be reported
      against an empty endpoint if the lookup failed. */
  function JoinedAddress<T>(f: FlightState, id: nat, joined: Joined<T>): Addr
    requires id in f.tasks
  {
    if joined.Answered? then f.tasks[id] else if id in f.addresses then f.addresses[id] else ""
  }

  function JoinedAttempt<T>(joined: Joined<T>): Attempt<T> {
    if joined.Answered? then joined.attempt else Attempt(None, None, false)
  }

  function JoinedFinish<T>(f: FlightState, id: nat, joined: Joined<T>): Finish<T>
    requires id in f.tasks
  {
    Finish(JoinedAddress(f, id, joined), JoinedAttempt(joined))
  }

  function Or<T>(a: Option<T>, b: Option<T>): Option<T> {
    if a.Some? then a else b
  }

  function KeptResponse<T>(kept: Option<Attempt<T>>): Option<T> {
    if kept.Some? then kept.value.response else None
  }

  function Remember<T>(kept: Option<Attempt<T>>, attempt: Attempt<T>): Option<Attempt<T>> {
    var takesOver := attempt.response.Some? || KeptResponse(kept).None?;
    if takesOver && !Succeeds(attempt.status) then Some(attempt) else kept
  }

  function FailedFrom<T>(status: Option<nat>, kept: Option<Attempt<T>>): Delivery<T> {
    Failed(Or(status, if kept.Some? then kept.value.status else None), KeptResponse(kept))
  }

  function ReadyOrFailed<T>(a: Addr, response: Option<T>): Delivery<T> {
    if response.Some? then Ready(a, response.value) else Failed(None, None)
  }

  function OnDriverTimer<T>(d: Driver<T>, offer: Offer): Progress<T> {
    var (race, o) := OnTimer(d.race, offer.granted, offer.pick);
    match o
    case Launched(launches, wait) =>
      Running(d.(race := race, flight := SpawnAll(d.flight, launches), deadline := wait.Some? && offer.armed))
    case Lost(status) => Done(FailedFrom(status, d.lastFailure))
    case Won(a, _) => Done(ReadyOrFailed(a, KeptResponse(d.lastFailure)))
    case Pending => Running(d.(race := race, deadline := false))
  }

  function OnFinished<T>(d: Driver<T>, a: Addr, attempt: Attempt<T>, offer: Offer): Progress<T> {
    var (race, o) := OnComplete(if attempt.halt then DisallowMore(d.race) else d.race, a, attempt.status);
    var failed := d.(race := race, lastFailure := Remember(d.lastFailure, attempt));
    match o
    case Won(winner, _) => Done(ReadyOrFailed(winner, attempt.response))
    case Lost(lost) => Done(FailedFrom(Or(lost, attempt.status), failed.lastFailure))
    case Pending => Running(failed)
    case Launched(launches, wait) =>
      if launches == [] && wait == Some(0) then OnDriverTimer(failed, offer) else Running(failed)
  }

  predicate Idle<T>(d: Driver<T>) {
    d.flight.tasks == map[] && !d.deadline
  }

  /** A task can only finish while it runs, and the timer only fires while it is armed. */
  predicate Possible<T>(d: Driver<T>, w: Wake<T>) {
    if w.Finished? then w.id in d.flight.tasks else d.deadline
  }

  /** One turn of the loop. */
  function Turn<T>(d: Driver<T>, w: Wake<T>): Progress<T> {
    if Idle(d) then Done(FailedFrom(None, d.lastFailure))
    else if !Possible(d, w) then Running(d)
    else match w
      case Finished(id, joined, offer) =>
        OnFinished(d.(flight := Join(d.flight, id)), JoinedAddress(d.flight, id, joined), JoinedAttempt(joined), offer)
      case Timer(offer) => OnDriverTimer(d, offer)
  }

  function Open<T>(r0: Race, grants: nat -> bool, pick: Pick, armed: bool): Progress<T> {
    var (race, o) := OpenRace(r0, grants, pick);
    if o.Launched? then
      Running(Driver(race, SpawnAll(FlightState(map[], map[], 0), o.attempts), o.wait.Some? && armed, None))
    else Done(Failed(None, None))
  }

  /** The driver after a script of wakes; entries that are not possible where they stand are
      passed over, and nothing follows a delivery. */
  function Drive<T>(start: Progress<T>, script: seq<Wake<T>>): Progress<T> {
    if script == [] then start
    else
      var p := Drive(start, script[..|script| - 1]);
      if p.Done? then p else Turn(p.driver, script[|script| - 1])
  }

  /** What a task came to; one that panicked came to nothing. */
  function AttemptOf<T>(joined: Joined<T>): Attempt<T> {
    match joined
    case Answered(attempt) => attempt
    case Panicked => Attempt(None, None, false)
  }

  /** The attempts that finished while the driver was running, in the order they finished. */
  function History<T>(start: Progress<T>, script: seq<Wake<T>>): seq<Finish<T>> {
    if script == [] then []
    else
      var before := History(start, script[..|script| - 1]);
      var p := Drive(start, script[..|script| - 1]);
      var w := script[|script| - 1];
      if p.Running? && !Idle(p.driver) && w.Finished? && Possible(p.driver, w)
      then before + [Finish(p.driver.flight.tasks[w.id], AttemptOf(w.joined))] else before
  }
}

/** What holds of every script of wakes. */
module HedgeDriveRuns {
  import opened Prelude
  import opened HedgeRaceModel
  import opened HedgeDriveModel
  import R = HedgeRaceRuns

  /** One task per in-flight attempt, each with its endpoint recorded. */
  ghost predicate FlightOk(f: FlightState, inFlight: seq<Addr>) {
    && f.addresses == f.tasks
    && (forall id :: id in f.tasks ==> id < f.next && f.tasks[id] in inFlight)
    && (forall x, y :: x in f.tasks && y in f.tasks && f.tasks[x] == f.tasks[y] ==> x == y)
    && |f.tasks| == |inFlight|
  }

  /** Some book of calls and answers explains the race. */
  ghost predicate RaceOk(max: nat, r: Race) {
    exists b :: R.Inv(max, r, b)
  }

  /** The driver at a loop head. */
  ghost predicate Inv<T>(max: nat, d: Driver<T>, done: nat) {
    && RaceOk(max, d.race) && !d.race.closed
    && FlightOk(d.flight, d.race.inFlight) && d.race.inFlight != []
    && done + |d.race.inFlight| == |d.race.started|
  }

  lemma SpawnOk(f: FlightState, s: seq<Addr>, a: Addr)
    requires FlightOk(f, s) && a !in s
    ensures FlightOk(Spawn(f, a), s + [a])
  {
    assert f.next !in f.tasks;
    assert Spawn(f, a).tasks.Keys == f.tasks.Keys + {f.next};
  }

  lemma {:induction false} SpawnAllOk(f: FlightState, s: seq<Addr>, launches: seq<Launch>)
    requires FlightOk(f, s) && R.NoDup(s + R.Addresses(launches))
    ensures FlightOk(SpawnAll(f, launches), s + R.Addresses(launches))
    decreases |launches|
  {
    if launches == [] {
      assert s + R.Addresses(launches) == s;
    } else {
      var a, rest := launches[0].address, launches[1..];
      assert s + R.Addresses(launches) == (s + [a]) + R.Addresses(rest);
      forall i | 0 <= i < |s|
        ensures s[i] != a
      {
        assert (s + R.Addresses(launches))[i] != (s + R.Addresses(launches))[|s|];
      }
      SpawnOk(f, s, a);
      SpawnAllOk(Spawn(f, a), s + [a], rest);
    }
  }

  lemma JoinOk(f: FlightState, s: seq<Addr>, id: nat)
    requires FlightOk(f, s) && R.NoDup(s) && id in f.tasks
    ensures FlightOk(Join(f, id), Without(s, f.tasks[id]))
  {
    R.NoDupWithout(s, f.tasks[id]);
    var t := Without(s, f.tasks[id]);
    assert Join(f, id).tasks.Keys == f.tasks.Keys - {id};
    forall k | k in Join(f, id).tasks
      ensures f.tasks[k] in t
    {
      assert f.tasks[k] in R.ToSet(s) - {f.tasks[id]};
    }
  }

  lemma {:induction false} OpenOk<T>(r0: Race, grants: nat -> bool, pick: Pick, armed: bool)
    requires r0 == HedgeRaceModel.New(r0.initialRequests, r0.maxAttempts, r0.perTryTimeout)
    ensures var p: Progress<T> := Open(r0, grants, pick, armed);
            p.Running? ==> Inv(r0.maxAttempts, p.driver, 0) && p.driver.race.lastFailure.None?
  {
    var e := R.Open(grants, pick);
    var (race, o) := R.Step(r0, e);
    R.OpenEstablishesInv(r0, e);
    R.InitialFanOut(r0.(noted := true), grants, pick);
    if o.Launched? {
      assert race.inFlight == [] + R.Addresses(o.attempts);
      SpawnAllOk(FlightState(map[], map[], 0), [], o.attempts);
    }
  }

  /** After a timer step the driver is back at a good loop head, or has lost with nothing left
      in flight; the step launches at most one attempt. Nothing else can come of it. */
  lemma TimerOk<T>(max: nat, d: Driver<T>, done: nat, offer: Offer)
    requires RaceOk(max, d.race) && !d.race.closed
    requires FlightOk(d.flight, d.race.inFlight) && done + |d.race.inFlight| == |d.race.started|
    ensures var p := OnDriverTimer(d, offer);
            && (p.Running? ==> Inv(max, p.driver, done) && p.driver.lastFailure == d.lastFailure
                               && p.driver.race.lastFailure == d.race.lastFailure
                               && p.driver.race.maxAttempts == d.race.maxAttempts
                               && ((p.driver.race.started == d.race.started && p.driver.flight == d.flight)
                                   || |p.driver.race.started| == |d.race.started| + 1))
            && (p.Done? ==> d.race.inFlight == [] && p == Done(FailedFrom(d.race.lastFailure, d.lastFailure)))
  {
    var b :| R.Inv(max, d.race, b);
    var e := R.Timer(offer.granted, offer.pick);
    R.TimerKeepsInv(max, d.race, b, e);
    var (race, o) := R.Step(d.race, e);
    if o.Launched? && o.attempts != [] {
      assert R.Addresses(o.attempts) == [o.attempts[0].address];
      SpawnAllOk(d.flight, d.race.inFlight, o.attempts);
    }
  }

  lemma DisallowOk(max: nat, r: Race)
    requires RaceOk(max, r) && !r.closed
    ensures RaceOk(max, DisallowMore(r)) && !DisallowMore(r).closed
    ensures DisallowMore(r).maxAttempts == |r.started| <= r.maxAttempts
  {
    var b :| R.Inv(max, r, b);
    assert R.Inv(max, DisallowMore(r), b.(cap := |r.started|));
  }

  /** The three answers a failed attempt can get. */
  predicate AfterFailure(r: Race, o: Outcome) {
    || (o == Pending && r.inFlight != [] && !r.closed)
    || (o == Launched([], Some(0)) && r.inFlight == [] && !r.closed)
    || o == Lost(r.lastFailure)
  }

  /** What a finished attempt makes of the race: a win on success, otherwise one attempt fewer. */
  lemma CompleteOk(max: nat, r: Race, a: Addr, status: Option<nat>)
    requires RaceOk(max, r) && !r.closed && a in r.inFlight
    ensures var (r', o) := OnComplete(r, a, status);
            && RaceOk(max, r')
            && (o.Won? <==> R.Good(status))
            && (o.Won? ==> o.address == a)
            && (!o.Won? ==>
                  && r'.inFlight == Without(r.inFlight, a) && r'.started == r.started
                  && r'.maxAttempts == r.maxAttempts && r'.lastFailure == Or(status, r.lastFailure)
                  && AfterFailure(r', o))
  {
    var b :| R.Inv(max, r, b);
    var e := R.Complete(a, status);
    R.CompleteKeepsInv(max, r, b, e);
    assert R.Inv(max, R.Step(r, e).0, R.Note(b, e, R.Step(r, e).1));
  }

  lemma TaskIsInFlight<T>(max: nat, d: Driver<T>, done: nat, id: nat, joined: Joined<T>)
    requires Inv(max, d, done) && id in d.flight.tasks
    ensures JoinedAddress(d.flight, id, joined) == d.flight.tasks[id]
    ensures d.flight.tasks[id] in d.race.inFlight
    ensures R.NoDup(d.race.inFlight) && |Without(d.race.inFlight, d.flight.tasks[id])| == |d.race.inFlight| - 1
  {
    var b :| R.Inv(max, d.race, b);
  }

  function LastStatus<T>(h: seq<Finish<T>>): Option<nat> {
    if h == [] then None else Or(h[|h| - 1].attempt.status, LastStatus(h[..|h| - 1]))
  }

  function LastResponse<T>(h: seq<Finish<T>>): Option<T> {
    if h == [] then None else Or(h[|h| - 1].attempt.response, LastResponse(h[..|h| - 1]))
  }

  /** The bookkeeping of failures on both sides, in terms of the attempts that finished. */
  ghost predicate Tracks<T(!new)>(d: Driver<T>, h: seq<Finish<T>>) {
    && (forall a :: a in h ==> !R.Good(a.attempt.status))
    && d.race.lastFailure == LastStatus(h)
    && KeptResponse(d.lastFailure) == LastResponse(h)
    && (d.lastFailure.Some? ==> exists a :: a in h && a.attempt == d.lastFailure.value)
  }

  lemma {:induction false} NoStatusAnywhere<T>(h: seq<Finish<T>>, a: Finish<T>)
    requires LastStatus(h).None? && a in h
    ensures a.attempt.status.None?
  {
    if a == h[|h| - 1] {
    } else {
      NoStatusAnywhere(h[..|h| - 1], a);
    }
  }

  /** What a delivery says about the attempts that finished. */
  ghost predicate Reports<T(!new)>(delivery: Delivery<T>, h: seq<Finish<T>>) {
    || (&& delivery == Failed(LastStatus(h), LastResponse(h))
        && forall a :: a in h ==> !R.Good(a.attempt.status))
    || (&& h != [] && R.Good(h[|h| - 1].attempt.status)
        && (forall a :: a in h[..|h| - 1] ==> !R.Good(a.attempt.status))
        && delivery == ReadyOrFailed(h[|h| - 1].address, h[|h| - 1].attempt.response))
  }

  lemma FailureReports<T(!new)>(d: Driver<T>, h: seq<Finish<T>>)
    requires Tracks(d, h)
    ensures Reports(FailedFrom(d.race.lastFailure, d.lastFailure), h)
  {
    if LastStatus(h).None? && d.lastFailure.Some? {
      var a :| a in h && a.attempt == d.lastFailure.value;
      NoStatusAnywhere(h, a);
    }
  }

  lemma TracksSnoc<T(!new)>(d: Driver<T>, h: seq<Finish<T>>, f: Finish<T>, race: Race)
    requires Tracks(d, h) && !R.Good(f.attempt.status)
    requires race.lastFailure == Or(f.attempt.status, d.race.lastFailure)
    ensures Tracks(d.(race := race, lastFailure := Remember(d.lastFailure, f.attempt)), h + [f])
  {
    assert (h + [f])[..|h|] == h;
    assert f in h + [f];
    assert forall a :: a in h ==> a in h + [f];
  }

  function Potential<T>(d: Driver<T>): int {
    2 * (d.race.maxAttempts - |d.race.started|) + |d.flight.tasks|
  }

  ghost predicate FinishGoal<T(!new)>(max: nat, d: Driver<T>, h: seq<Finish<T>>, f: Finish<T>, p: Progress<T>) {
    match p
    case Running(d') =>
      Inv(max, d', |h| + 1) && Tracks(d', h + [f]) && Potential(d') < Potential(d)
    case Done(delivery) => Reports(delivery, h + [f])
  }

  /** After a losing attempt the driver waits on, starts the next copy, or fails. */
  lemma FinishedFailure<T(!new)>(max: nat, d: Driver<T>, failed: Driver<T>, h: seq<Finish<T>>, f: Finish<T>,
                                 offer: Offer, o: Outcome)
    requires RaceOk(max, failed.race) && FlightOk(failed.flight, failed.race.inFlight)
    requires Tracks(failed, h + [f]) && failed.race.lastFailure == Or(f.attempt.status, d.race.lastFailure)
    requires |h| + 1 + |failed.race.inFlight| == |failed.race.started| == |d.race.started|
    requires |failed.flight.tasks| + 1 == |d.flight.tasks| && failed.race.maxAttempts <= d.race.maxAttempts
    requires AfterFailure(failed.race, o)
    ensures FinishGoal(max, d, h, f,
              match o
              case Lost(lost) => Done(FailedFrom(Or(lost, f.attempt.status), failed.lastFailure))
              case Launched(_, _) => OnDriverTimer(failed, offer)
              case _ => Running(failed))
  {
    FailureReports(failed, h + [f]);
    if o.Launched? {
      TimerOk(max, failed, |h| + 1, offer);
    }
  }

  lemma FinishOk<T(!new)>(max: nat, d: Driver<T>, h: seq<Finish<T>>, w: Wake<T>)
    requires Inv(max, d, |h|) && Tracks(d, h) && w.Finished? && w.id in d.flight.tasks
    ensures FinishGoal(max, d, h, JoinedFinish(d.flight, w.id, w.joined), Turn(d, w))
  {
    var a, attempt := d.flight.tasks[w.id], JoinedAttempt(w.joined);
    TaskIsInFlight(max, d, |h|, w.id, w.joined);
    var r1 := if attempt.halt then DisallowMore(d.race) else d.race;
    if attempt.halt {
      DisallowOk(max, d.race);
    }
    CompleteOk(max, r1, a, attempt.status);
    var (r2, o) := OnComplete(r1, a, attempt.status);
    var f := Finish(a, attempt);
    if o.Won? {
      assert (h + [f])[..|h|] == h;
    } else {
      JoinOk(d.flight, d.race.inFlight, w.id);
      TracksSnoc(d, h, f, r2);
      var failed := d.(race := r2, flight := Join(d.flight, w.id), lastFailure := Remember(d.lastFailure, attempt));
      assert Tracks(failed, h + [f]);
      FinishedFailure(max, d, failed, h, f, w.offer, o);
    }
  }

  lemma StartedWithinMax(max: nat, r: Race)
    requires RaceOk(max, r)
    ensures |r.started| <= r.maxAttempts <= max
  {
    var b :| R.Inv(max, r, b);
  }

  lemma NotIdle<T>(max: nat, d: Driver<T>, done: nat)
    requires Inv(max, d, done)
    ensures d.flight.tasks != map[] && !Idle(d)
  {
  }

  /** One turn from a good loop head: back to one with one more attempt finished or none, or a delivery. */
  lemma TurnOk<T(!new)>(max: nat, d: Driver<T>, h: seq<Finish<T>>, w: Wake<T>)
    requires Inv(max, d, |h|) && Tracks(d, h) && Possible(d, w)
    ensures |h| < max
    ensures var h' := if w.Finished? then h + [Finish(d.flight.tasks[w.id], AttemptOf(w.joined))] else h;
            match Turn(d, w)
            case Running(d') => Inv(max, d', |h'|) && Tracks(d', h')
            case Done(delivery) => Reports(delivery, h')
  {
    StartedWithinMax(max, d.race);
    NotIdle(max, d, |h|);
    match w
    case Finished(_, _, _) =>
      FinishOk(max, d, h, w);
      TaskIsInFlight(max, d, |h|, w.id, w.joined);
    case Timer(offer) => TimerOk(max, d, |h|, offer);
  }

  /** The whole-run invariant: a running driver is at a good loop head with as many finished
      attempts as its history shows, and a delivery reports on that history. */
  lemma {:induction false} DriveOk<T(!new)>(start: Progress<T>, max: nat, script: seq<Wake<T>>)
    requires start.Running? ==> Inv(max, start.driver, 0) && Tracks(start.driver, [])
    requires start.Done? ==> start == Done(Failed(None, None))
    ensures match Drive(start, script)
            case Running(d) => Inv(max, d, |History(start, script)|) && Tracks(d, History(start, script))
            case Done(delivery) => Reports(delivery, History(start, script)) && |History(start, script)| <= max
  {
    if script == [] {
    } else {
      var p, w := script[..|script| - 1], script[|script| - 1];
      DriveOk(start, max, p);
      var h := History(start, p);
      match Drive(start, p)
      case Done(_) =>
      case Running(d) =>
        NotIdle(max, d, |h|);
        if Possible(d, w) {
          TurnOk(max, d, h, w);
        }
    }
  }

  // ---------------------------------------------------------------------------------------
  // Main results
  // ---------------------------------------------------------------------------------------

  predicate FreshRace(r0: Race) {
    r0 == HedgeRaceModel.New(r0.initialRequests, r0.maxAttempts, r0.perTryTimeout)
  }

  lemma {:induction false} InjectiveValues(m: map<nat, Addr>)
    requires forall x, y :: x in m && y in m && m[x] == m[y] ==> x == y
    ensures |m.Values| == |m|
    decreases |m|
  {
    if m == map[] {
    } else {
      var k :| k in m;
      var n := m - {k};
      assert n.Keys == m.Keys - {k};
      assert m[k] !in n.Values;
      assert m.Values == n.Values + {m[k]} by {
        forall v | v in m.Values
          ensures v in n.Values + {m[k]}
        {
          var x :| x in m && m[x] == v;
          assert x != k ==> x in n && n[x] == v;
        }
        assert k in m;
      }
      InjectiveValues(n);
    }
  }

  lemma {:induction false} ToSetSize(s: seq<Addr>)
    ensures |R.ToSet(s)| <= |s|
  {
    if s == [] {
    } else {
      ToSetSize(s[1..]);
      assert R.ToSet(s) == {s[0]} + R.ToSet(s[1..]);
    }
  }

  lemma SameSize(a: set<Addr>, b: set<Addr>)
    requires a <= b && |b| <= |a|
    ensures a == b
  {
    assert b == a + (b - a);
  }

  lemma TasksCover(f: FlightState, s: seq<Addr>)
    requires FlightOk(f, s)
    ensures f.tasks.Values == R.ToSet(s)
  {
    InjectiveValues(f.tasks);
    assert f.tasks.Values <= R.ToSet(s);
    ToSetSize(s);
    SameSize(f.tasks.Values, R.ToSet(s));
  }

  /** At every loop head the tasks are exactly the race's in-flight attempts and there is at least
      one, so the idle exit cannot be taken and a finished task always names a running attempt. */
  lemma {:induction false} LoopHeadIsNeverIdle<T(!new)>(r0: Race, grants: nat -> bool, pick: Pick, armed: bool,
                                                         script: seq<Wake<T>>)
    requires FreshRace(r0) && Drive(Open<T>(r0, grants, pick, armed), script).Running?
    ensures var d := Drive(Open<T>(r0, grants, pick, armed), script).driver;
            && !Idle(d) && d.flight.tasks != map[]
            && d.flight.tasks.Values == R.ToSet(d.race.inFlight) && |d.flight.tasks| == |d.race.inFlight|
            && d.flight.addresses == d.flight.tasks
  {
    var start: Progress<T> := Open(r0, grants, pick, armed);
    OpenOk<T>(r0, grants, pick, armed);
    DriveOk(start, r0.maxAttempts, script);
    var d := Drive(start, script).driver;
    TasksCover(d.flight, d.race.inFlight);
  }

  /** Every turn either passes over an impossible wake, is a timer tick that launches nothing, or
      lowers the potential; a timer step never delivers a win. */
  lemma {:induction false} TurnsMakeProgress<T(!new)>(r0: Race, grants: nat -> bool, pick: Pick, armed: bool,
                                                       script: seq<Wake<T>>, w: Wake<T>)
    requires FreshRace(r0) && Drive(Open<T>(r0, grants, pick, armed), script).Running?
    ensures var d := Drive(Open<T>(r0, grants, pick, armed), script).driver;
            var p := Turn(d, w);
            && Potential(d) > 0
            && (w.Timer? ==> p.Running?)
            && (p.Running? && Possible(d, w) && Potential(p.driver) >= Potential(d) ==>
                  w.Timer? && p.driver.race.started == d.race.started && p.driver.flight == d.flight)
  {
    var start: Progress<T> := Open(r0, grants, pick, armed);
    OpenOk<T>(r0, grants, pick, armed);
    DriveOk(start, r0.maxAttempts, script);
    var d, h := Drive(start, script).driver, History(start, script);
    StartedWithinMax(r0.maxAttempts, d.race);
    NotIdle(r0.maxAttempts, d, |h|);
    if Possible(d, w) {
      match w
      case Finished(_, _, _) => FinishOk(r0.maxAttempts, d, h, w);
      case Timer(offer) =>
        TimerOk(r0.maxAttempts, d, |h|, offer);
    }
  }

  /** The driver has delivered by the time `maxAttempts` attempts have finished, and never lets
      more than that many finish. */
  lemma {:induction false} DeliversWithinMaxAttempts<T(!new)>(r0: Race, grants: nat -> bool, pick: Pick, armed: bool,
                                                               script: seq<Wake<T>>)
    requires FreshRace(r0)
    ensures var start := Open<T>(r0, grants, pick, armed);
            && |History(start, script)| <= r0.maxAttempts
            && (|History(start, script)| == r0.maxAttempts ==> Drive(start, script).Done?)
  {
    var start: Progress<T> := Open(r0, grants, pick, armed);
    OpenOk<T>(r0, grants, pick, armed);
    DriveOk(start, r0.maxAttempts, script);
    if Drive(start, script).Running? {
      StartedWithinMax(r0.maxAttempts, Drive(start, script).driver.race);
    }
  }

  /** Every delivery accounts for the attempts that finished: the payload of the first success, or,
      when none succeeded, the last status and the last payload that any of them produced. */
  lemma {:induction false} DeliveryReportsTheAttempts<T(!new)>(r0: Race, grants: nat -> bool, pick: Pick, armed: bool,
                                                                script: seq<Wake<T>>)
    requires FreshRace(r0) && Drive(Open<T>(r0, grants, pick, armed), script).Done?
    ensures var start := Open<T>(r0, grants, pick, armed);
            Reports(Drive(start, script).delivery, History(start, script))
  {
    OpenOk<T>(r0, grants, pick, armed);
    DriveOk(Open<T>(r0, grants, pick, armed), r0.maxAttempts, script);
  }

  // ---------------------------------------------------------------------------------------
  // What each turn launches, and when the timer is armed
  // ---------------------------------------------------------------------------------------

  predicate Halted<T>(h: seq<Finish<T>>) {
    exists i :: 0 <= i < |h| && h[i].attempt.halt
  }

  /** The endpoint the environment offers for another copy, if it offers a fresh one and grants it. */
  function Offered(offer: Offer, started: seq<Addr>): Option<Addr> {
    var a := offer.pick(started);
    if offer.granted && a.Some? && a.value !in started then a else None
  }

  /** How many attempts a halt, or else the configuration, leaves a driver in all. */
  predicate CapHolds<T>(r0: Race, d: Driver<T>, h: seq<Finish<T>>) {
    && d.race.maxAttempts == (if Halted(h) then |d.race.started| else r0.maxAttempts)
    && d.race.perTryTimeout == r0.perTryTimeout
  }

  lemma DriverTimerExact<T>(d: Driver<T>, offer: Offer)
    requires !d.race.closed && |d.race.started| <= d.race.maxAttempts
    ensures var p, room, a := OnDriverTimer(d, offer), |d.race.started| < d.race.maxAttempts, Offered(offer, d.race.started);
            if room && a.Some? then
              && p.Running? && p.driver.race.started == d.race.started + [a.value]
              && p.driver.race.maxAttempts == d.race.maxAttempts && p.driver.race.perTryTimeout == d.race.perTryTimeout
              && p.driver.deadline == (offer.armed && d.race.perTryTimeout.Some? && |d.race.started| + 1 < d.race.maxAttempts)
            else if d.race.inFlight == [] then p.Done?
            else
              && p.Running? && p.driver.race == d.race
              && p.driver.deadline == (room && !offer.granted && offer.armed && d.race.perTryTimeout.Some?)
  {
  }

  /** A finished attempt that did not succeed: the driver waits for the others, starts the next copy in
      its place, or delivers. */
  lemma FailureExact<T>(max: nat, d: Driver<T>, done: nat, w: Wake<T>)
    requires Inv(max, d, done) && w.Finished? && w.id in d.flight.tasks && !R.Good(AttemptOf(w.joined).status)
    ensures var p, a, halt := Turn(d, w), Offered(w.offer, d.race.started), AttemptOf(w.joined).halt;
            var cap := if halt then |d.race.started| else d.race.maxAttempts;
            if |d.flight.tasks| > 1 then
              && p.Running? && p.driver.race.started == d.race.started && p.driver.deadline == d.deadline
              && p.driver.race.maxAttempts == cap && p.driver.race.perTryTimeout == d.race.perTryTimeout
            else if |d.race.started| < cap && a.Some? then
              && p.Running? && p.driver.race.started == d.race.started + [a.value]
              && p.driver.race.maxAttempts == cap && p.driver.race.perTryTimeout == d.race.perTryTimeout
              && p.driver.deadline == (w.offer.armed && d.race.perTryTimeout.Some? && |d.race.started| + 1 < cap)
            else p.Done?
  {
    StartedWithinMax(max, d.race);
    TaskIsInFlight(max, d, done, w.id, w.joined);
    var attempt, addr := AttemptOf(w.joined), d.flight.tasks[w.id];
    var r1 := if attempt.halt then DisallowMore(d.race) else d.race;
    var (r2, o) := OnComplete(r1, addr, attempt.status);
    var failed := d.(race := r2, flight := Join(d.flight, w.id), lastFailure := Remember(d.lastFailure, attempt));
    assert r2.inFlight == Without(d.race.inFlight, addr) && r2.started == d.race.started;
    if o.Launched? {
      DriverTimerExact(failed, w.offer);
    }
  }

  lemma HaltedSnoc<T>(h: seq<Finish<T>>, f: Finish<T>)
    ensures Halted(h + [f]) <==> Halted(h) || f.attempt.halt
  {
    assert (h + [f])[|h|] == f;
    assert forall i :: 0 <= i < |h| ==> (h + [f])[i] == h[i];
  }

  /** The attempt that finishes was the last one running, and it did not succeed. */
  predicate LastFails<T>(d: Driver<T>, w: Wake<T>) {
    w.Finished? && |d.flight.tasks| == 1 && !R.Good(AttemptOf(w.joined).status)
  }

  /** The attempt that a turn launches, if it launches one: when the timer fires or the last task fails,
      no attempt that has finished by then asked for a halt, the cap has room, and the environment offers
      a fresh endpoint and grants it. */
  function LaunchedBy<T>(max: nat, d: Driver<T>, w: Wake<T>, h: seq<Finish<T>>): Option<Addr> {
    if (w.Timer? || LastFails(d, w)) && !Halted(h) && |d.race.started| < max then Offered(w.offer, d.race.started) else None
  }

  /** How a turn leaves the timer. Launching re-arms it while the cap still has room; a tick whose copy
      the budget denied re-arms it too, any other tick without a launch stops it, and the end of an
      attempt while others run leaves it alone. */
  predicate ArmedAfter<T>(max: nat, timeout: Option<nat>, d: Driver<T>, w: Wake<T>, h: seq<Finish<T>>) {
    if LaunchedBy(max, d, w, h).Some? then w.offer.armed && timeout.Some? && |d.race.started| + 1 < max
    else if w.Timer? then !Halted(h) && |d.race.started| < max && !w.offer.granted && w.offer.armed && timeout.Some?
    else d.deadline
  }

  /** What one turn makes of a driver, in terms of the wake and of the attempts finished by then. */
  predicate TurnExact<T>(r0: Race, d: Driver<T>, w: Wake<T>, h: seq<Finish<T>>, p: Progress<T>) {
    var a := LaunchedBy(r0.maxAttempts, d, w, h);
    && (p.Done? <==> w.Finished? && (R.Good(AttemptOf(w.joined).status) || (LastFails(d, w) && a.None?)))
    && (p.Running? ==>
          && p.driver.race.started == d.race.started + (if a.Some? then [a.value] else [])
          && p.driver.deadline == ArmedAfter(r0.maxAttempts, r0.perTryTimeout, d, w, h))
  }

  lemma TimerTurnExact<T>(r0: Race, d: Driver<T>, w: Wake<T>, h: seq<Finish<T>>)
    requires Inv(r0.maxAttempts, d, |h|) && CapHolds(r0, d, h) && w.Timer? && Possible(d, w)
    ensures TurnExact(r0, d, w, h, Turn(d, w))
    ensures Turn(d, w).Running? ==> CapHolds(r0, Turn(d, w).driver, h)
  {
    StartedWithinMax(r0.maxAttempts, d.race);
    DriverTimerExact(d, w.offer);
  }

  lemma FinishedTurnExact<T>(r0: Race, d: Driver<T>, w: Wake<T>, h: seq<Finish<T>>)
    requires Inv(r0.maxAttempts, d, |h|) && CapHolds(r0, d, h) && w.Finished? && Possible(d, w)
    ensures var h' := h + [Finish(d.flight.tasks[w.id], AttemptOf(w.joined))];
            TurnExact(r0, d, w, h', Turn(d, w)) && (Turn(d, w).Running? ==> CapHolds(r0, Turn(d, w).driver, h'))
  {
    var f := Finish(d.flight.tasks[w.id], AttemptOf(w.joined));
    HaltedSnoc(h, f);
    StartedWithinMax(r0.maxAttempts, d.race);
    assert w.id in d.flight.tasks.Keys;
    if R.Good(f.attempt.status) {
      TaskIsInFlight(r0.maxAttempts, d, |h|, w.id, w.joined);
    } else {
      FailureExact(r0.maxAttempts, d, |h|, w);
    }
  }

  lemma {:induction false} ReachableCap<T(!new)>(r0: Race, start: Progress<T>, script: seq<Wake<T>>)
    requires start.Running? ==> Inv(r0.maxAttempts, start.driver, 0) && Tracks(start.driver, []) && CapHolds(r0, start.driver, [])
    requires start.Done? ==> start == Done(Failed(None, None))
    ensures Drive(start, script).Running? ==> CapHolds(r0, Drive(start, script).driver, History(start, script))
  {
    if script == [] {
    } else {
      var p, w := script[..|script| - 1], script[|script| - 1];
      ReachableCap(r0, start, p);
      DriveOk(start, r0.maxAttempts, p);
      if Drive(start, p).Running? {
        var d, h := Drive(start, p).driver, History(start, p);
        NotIdle(r0.maxAttempts, d, |h|);
        if Possible(d, w) {
          if w.Timer? {
            TimerTurnExact(r0, d, w, h);
          } else {
            FinishedTurnExact(r0, d, w, h);
          }
        }
      }
    }
  }

  lemma {:induction false} OpenCap<T>(r0: Race, grants: nat -> bool, pick: Pick, armed: bool)
    requires FreshRace(r0)
    ensures var p: Progress<T> := Open(r0, grants, pick, armed); p.Running? ==> CapHolds(r0, p.driver, [])
  {
    R.InitialFanOut(r0.(noted := true), grants, pick);
  }

  /** Opening arms the timer exactly when the deadline can be represented, a per-try timeout is
      configured, and the opening left room for another attempt. */
  lemma {:induction false} OpeningArmsTheTimer<T>(r0: Race, grants: nat -> bool, pick: Pick, armed: bool)
    requires FreshRace(r0)
    ensures var p: Progress<T> := Open(r0, grants, pick, armed);
            p.Running? ==> (p.driver.deadline <==> armed && r0.perTryTimeout.Some? && |p.driver.race.started| < r0.maxAttempts)
  {
    R.OpenLaunchesAllItMay(r0, grants, pick);
  }

  /** At every loop head, the end of a running task and the timer while it is armed launch, deliver and set
      the timer exactly as they and the attempts finished by then call for; nothing else has any effect. */
  lemma {:induction false} TurnsAreExact<T(!new)>(r0: Race, grants: nat -> bool, pick: Pick, armed: bool,
                                                   script: seq<Wake<T>>, w: Wake<T>)
    requires FreshRace(r0) && Drive(Open<T>(r0, grants, pick, armed), script).Running?
    ensures var start := Open<T>(r0, grants, pick, armed);
            var d := Drive(start, script).driver;
            if (if w.Finished? then w.id in d.flight.tasks else d.deadline)
            then TurnExact(r0, d, w, History(start, script + [w]), Drive(start, script + [w]))
            else Drive(start, script + [w]) == Drive(start, script) && History(start, script + [w]) == History(start, script)
  {
    var start := Open<T>(r0, grants, pick, armed);
    OpenOk<T>(r0, grants, pick, armed);
    OpenCap<T>(r0, grants, pick, armed);
    DriveOk(start, r0.maxAttempts, script);
    ReachableCap(r0, start, script);
    var d, h := Drive(start, script).driver, History(start, script);
    NotIdle(r0.maxAttempts, d, |h|);
    assert (script + [w])[..|script|] == script;
    if !Possible(d, w) {
    } else if w.Timer? {
      TimerTurnExact(r0, d, w, h);
    } else {
      FinishedTurnExact(r0, d, w, h);
    }
  }

  lemma {:induction false} HistoryGrows<T(!new)>(start: Progress<T>, script: seq<Wake<T>>, n: nat)
    requires n <= |script| && Halted(History(start, script[..n]))
    ensures Halted(History(start, script))
    decreases |script|
  {
    if n == |script| {
      assert script[..n] == script;
    } else {
      var p := script[..|script| - 1];
      assert p[..n] == script[..n];
      HistoryGrows(start, p, n);
      if History(start, script) != History(start, p) {
        HaltedSnoc(History(start, p), History(start, script)[|History(start, p)|]);
      }
    }
  }

  lemma HaltedLaunchesNothing<T>(r0: Race, d: Driver<T>, w: Wake<T>, h: seq<Finish<T>>, p: Progress<T>)
    requires TurnExact(r0, d, w, h, p) && Halted(h) && p.Running?
    ensures p.driver.race.started == d.race.started
  {
  }

  lemma {:induction false} HaltedStep<T(!new)>(r0: Race, grants: nat -> bool, pick: Pick, armed: bool,
                                                script: seq<Wake<T>>, w: Wake<T>)
    requires FreshRace(r0) && Drive(Open<T>(r0, grants, pick, armed), script).Running?
    requires Drive(Open<T>(r0, grants, pick, armed), script + [w]).Running?
    requires Halted(History(Open<T>(r0, grants, pick, armed), script + [w]))
    ensures var start := Open<T>(r0, grants, pick, armed);
            Drive(start, script + [w]).driver.race.started == Drive(start, script).driver.race.started
  {
    var start := Open<T>(r0, grants, pick, armed);
    var d := Drive(start, script).driver;
    TurnsAreExact<T>(r0, grants, pick, armed, script, w);
    if if w.Finished? then w.id in d.flight.tasks else d.deadline {
      HaltedLaunchesNothing(r0, d, w, History(start, script + [w]), Drive(start, script + [w]));
    }
  }

  lemma RunningBefore<T>(start: Progress<T>, script: seq<Wake<T>>)
    requires script != [] && Drive(start, script).Running?
    ensures Drive(start, script[..|script| - 1]).Running?
  {
  }

  /** Once a finished attempt has asked for a halt, no attempt is started for the rest of the script. */
  lemma {:induction false} NothingStartsAfterAHalt<T(!new)>(r0: Race, grants: nat -> bool, pick: Pick, armed: bool,
                                                             script: seq<Wake<T>>, n: nat)
    requires FreshRace(r0) && n <= |script| && Drive(Open<T>(r0, grants, pick, armed), script).Running?
    requires Halted(History(Open<T>(r0, grants, pick, armed), script[..n]))
    ensures var start := Open<T>(r0, grants, pick, armed);
            && Drive(start, script[..n]).Running?
            && Drive(start, script).driver.race.started == Drive(start, script[..n]).driver.race.started
    decreases |script|
  {
    if n == |script| {
      assert script[..n] == script;
    } else {
      var start, p, w := Open<T>(r0, grants, pick, armed), script[..|script| - 1], script[|script| - 1];
      assert p[..n] == script[..n] && p + [w] == script;
      RunningBefore(start, script);
      HistoryGrows(start, script, n);
      NothingStartsAfterAHalt<T>(r0, grants, pick, armed, p, n);
      HaltedStep<T>(r0, grants, pick, armed, p, w);
    }
  }

  // ---------------------------------------------------------------------------------------
  // When a delivery is one attempt's own
  // ---------------------------------------------------------------------------------------

  predicate Spoke<T>(f: Finish<T>) {
    f.attempt.status.Some? || f.attempt.response.Some?
  }

  /** The last attempt that produced a status or a payload. */
  function LastSpeaker<T>(h: seq<Finish<T>>): (k: Option<nat>)
    ensures k.None? ==> forall i :: 0 <= i < |h| ==> !Spoke(h[i])
    ensures k.Some? ==> k.value < |h| && Spoke(h[k.value]) && forall i :: k.value < i < |h| ==> !Spoke(h[i])
  {
    if h == [] then None
    else if Spoke(h[|h| - 1]) then Some(|h| - 1)
    else LastSpeaker(h[..|h| - 1])
  }

  /** The attempt a delivery should report on: the success that ended the race or, without one, the
      last attempt that spoke. */
  function Subject<T>(h: seq<Finish<T>>): Option<nat> {
    if h != [] && R.Good(h[|h| - 1].attempt.status) then Some(|h| - 1) else LastSpeaker(h)
  }

  /** The delivery says what `f` said, and no more. */
  predicate Conveys<T(==)>(delivery: Delivery<T>, f: Finish<T>) {
    match delivery
    case Ready(address, response) =>
      R.Good(f.attempt.status) && address == f.address && f.attempt.response == Some(response)
    case Failed(status, body) => status == f.attempt.status && body == f.attempt.response
  }

  /** The delivery comes from one attempt; it is empty when no attempt spoke. */
  predicate FromOneAttempt<T(==)>(delivery: Delivery<T>, h: seq<Finish<T>>) {
    if Subject(h).None? then delivery == Failed(None, None) else Conveys(delivery, h[Subject(h).value])
  }

  /** A success carries a payload; a failing subject leaves out no part that an earlier attempt had. */
  predicate OneVoice<T>(h: seq<Finish<T>>) {
    Subject(h).Some? ==>
      var k := Subject(h).value;
      if R.Good(h[k].attempt.status) then h[k].attempt.response.Some?
      else
        && (h[k].attempt.status.None? ==> forall i :: 0 <= i < k ==> h[i].attempt.status.None?)
        && (h[k].attempt.response.None? ==> forall i :: 0 <= i < k ==> h[i].attempt.response.None?)
  }

  predicate Coherent<T>(f: Finish<T>) {
    f.attempt.status.Some? <==> f.attempt.response.Some?
  }

  lemma {:induction false} LastStatusOfQuietTail<T>(h: seq<Finish<T>>, k: nat)
    requires k < |h| && forall i :: k < i < |h| ==> h[i].attempt.status.None?
    ensures LastStatus(h) == Or(h[k].attempt.status, LastStatus(h[..k]))
  {
    if k == |h| - 1 {
    } else {
      assert h[..|h| - 1][..k] == h[..k];
      LastStatusOfQuietTail(h[..|h| - 1], k);
    }
  }

  lemma {:induction false} LastResponseOfQuietTail<T>(h: seq<Finish<T>>, k: nat)
    requires k < |h| && forall i :: k < i < |h| ==> h[i].attempt.response.None?
    ensures LastResponse(h) == Or(h[k].attempt.response, LastResponse(h[..k]))
  {
    if k == |h| - 1 {
    } else {
      assert h[..|h| - 1][..k] == h[..k];
      LastResponseOfQuietTail(h[..|h| - 1], k);
    }
  }

  lemma {:induction false} NothingLast<T>(h: seq<Finish<T>>)
    ensures LastStatus(h).None? <==> forall i :: 0 <= i < |h| ==> h[i].attempt.status.None?
    ensures LastResponse(h).None? <==> forall i :: 0 <= i < |h| ==> h[i].attempt.response.None?
  {
    if h == [] {
    } else {
      var t := h[..|h| - 1];
      NothingLast(t);
      assert forall i :: 0 <= i < |t| ==> t[i] == h[i];
    }
  }

  /** Without a success, the last status and the last payload are those of the last speaker exactly
      when it leaves out neither part that an earlier attempt had. */
  lemma FailureConveys<T>(h: seq<Finish<T>>)
    requires Subject(h) == LastSpeaker(h) && Subject(h).Some? && !R.Good(h[Subject(h).value].attempt.status)
    ensures var f := h[Subject(h).value];
            (LastStatus(h) == f.attempt.status && LastResponse(h) == f.attempt.response) <==> OneVoice(h)
  {
    var k := Subject(h).value;
    LastStatusOfQuietTail(h, k);
    LastResponseOfQuietTail(h, k);
    NothingLast(h[..k]);
    assert forall i :: 0 <= i < k ==> h[..k][i] == h[i];
  }

  lemma ReportsOneAttempt<T(!new)>(delivery: Delivery<T>, h: seq<Finish<T>>)
    requires Reports(delivery, h)
    ensures FromOneAttempt(delivery, h) <==> OneVoice(h)
  {
    if h != [] && R.Good(h[|h| - 1].attempt.status) {
      assert h[|h| - 1] in h;
    } else if LastSpeaker(h).Some? {
      assert h[LastSpeaker(h).value] in h;
      FailureConveys(h);
    } else {
      NothingLast(h);
    }
  }

  /** Over every script, a delivery comes from one attempt exactly when the attempts speak with one
      voice: the success that ended the race carries a payload, or the last attempt that spoke leaves
      out no part an earlier one had. Attempts that always carry a status together with a payload do. */
  lemma {:induction false} DeliveryComesFromOneAttempt<T(!new)>(r0: Race, grants: nat -> bool, pick: Pick, armed: bool,
                                                                 script: seq<Wake<T>>)
    requires FreshRace(r0) && Drive(Open<T>(r0, grants, pick, armed), script).Done?
    ensures var start := Open<T>(r0, grants, pick, armed);
            FromOneAttempt(Drive(start, script).delivery, History(start, script)) <==> OneVoice(History(start, script))
    ensures var h := History(Open<T>(r0, grants, pick, armed), script);
            (forall a :: a in h ==> Coherent(a)) ==> OneVoice(h)
  {
    var start := Open<T>(r0, grants, pick, armed);
    var h := History(start, script);
    DeliveryReportsTheAttempts<T>(r0, grants, pick, armed, script);
    ReportsOneAttempt(Drive(start, script).delivery, h);
    if Subject(h).Some? {
      assert h[Subject(h).value] in h;
    }
  }

  /** A race whose winner carries no payload is delivered empty, whatever came before it. */
  lemma {:induction false} BareWinnerDeliversNothing<T(!new)>(r0: Race, grants: nat -> bool, pick: Pick, armed: bool,
                                                               script: seq<Wake<T>>)
    requires FreshRace(r0) && Drive(Open<T>(r0, grants, pick, armed), script).Done?
    ensures var start := Open<T>(r0, grants, pick, armed);
            var h := History(start, script);
            h != [] && R.Good(h[|h| - 1].attempt.status) && h[|h| - 1].attempt.response.None? ==>
              Drive(start, script) == Done(Failed(None, None))
  {
    var start := Open<T>(r0, grants, pick, armed);
    var h := History(start, script);
    DeliveryReportsTheAttempts<T>(r0, grants, pick, armed, script);
    assert h != [] ==> h[|h| - 1] in h;
  }

  function PickAThenB(chosen: seq<Addr>): Option<Addr> {
    if chosen == [] then Some("a") else Some("b")
  }

  function GrantAll(held: nat): bool {
    true
  }

  lemma TwoAttemptsOpen()
    ensures var race := Race(2, 2, None, ["a", "b"], ["a", "b"], ["b"], None, true, false);
            Open<string>(HedgeRaceModel.New(2, 2, None), GrantAll, PickAThenB, true)
            == Running(Driver(race, FlightState(map[0 := "a", 1 := "b"], map[0 := "a", 1 := "b"], 2), false, None))
  {
    var r0 := HedgeRaceModel.New(2, 2, None).(noted := true);
    var r1 := Begin(r0, "a", true);
    var r2 := Begin(r1, "b", false);
    assert r1.started == ["a"] && r2.started == ["a", "b"];
    assert StartOne(r0, GrantAll(0), PickAThenB, true) == (r1, Started("a"));
    assert StartOne(r1, GrantAll(0), PickAThenB, false) == (r2, Started("b"));
    assert StartInitial(r2, GrantAll, PickAThenB) == (r2, []);
    assert [Launch("b", false)] + [] == [Launch("b", false)];
    assert [Launch("a", true)] + [Launch("b", false)] == [Launch("a", true), Launch("b", false)];
    assert StartInitial(r1, GrantAll, PickAThenB) == (r2, [Launch("b", false)]);
    assert StartInitial(r0, GrantAll, PickAThenB) == (r2, [Launch("a", true), Launch("b", false)]);
    var f := FlightState(map[], map[], 0);
    assert [Launch("a", true), Launch("b", false)][1..] == [Launch("b", false)];
    assert SpawnAll(f, [Launch("a", true), Launch("b", false)]) == SpawnAll(Spawn(f, "a"), [Launch("b", false)]);
    assert SpawnAll(Spawn(f, "a"), [Launch("b", false)]) == Spawn(Spawn(f, "a"), "b");
  }

  /** The race and the driver of the two-attempt example once endpoint `a` has failed with a body. */
  function AFailed(): Driver<string> {
    Driver(Race(2, 2, None, ["a", "b"], ["b"], ["b"], Some(503), true, false),
           FlightState(map[1 := "b"], map[1 := "b"], 2), false, Some(Attempt(Some(503), Some("body"), false)))
  }

  lemma FirstFailureTurn(offer: Offer)
    ensures var start := Open<string>(HedgeRaceModel.New(2, 2, None), GrantAll, PickAThenB, true);
            start.Running? && Turn(start.driver, Finished(0, Answered(Attempt(Some(503), Some("body"), false)), offer)) == Running(AFailed())
  {
    TwoAttemptsOpen();
    var d := Open<string>(HedgeRaceModel.New(2, 2, None), GrantAll, PickAThenB, true).driver;
    assert d.race.inFlight[0] == "a" && d.flight.tasks[0] == "a";
    assert Position(["a", "b"], "a") == 0 && Without(["a", "b"], "a") == ["b"];
    assert Without(["b"], "a") == ["b"];
    assert OnComplete(d.race, "a", Some(503)) == (AFailed().race, Pending);
    assert Join(d.flight, 0) == AFailed().flight;
  }

  lemma SecondFailureTurn(offer: Offer)
    ensures Turn(AFailed(), Finished(1, Answered(Attempt(Some(502), None, false)), offer)) == Done(Failed(Some(502), Some("body")))
  {
    var d := AFailed();
    assert d.race.inFlight[0] == "b" && d.flight.tasks[1] == "b";
    assert Without(["b"], "b") == [];
    assert OnComplete(d.race, "b", Some(502)).1 == Lost(Some(502));
  }

  /** A delivery can mix two attempts: a bare 502 after a 503 with a payload
      is delivered as the 502 with the 503's payload. */
  lemma MixedAttemptsCanSplitADelivery(offer: Offer)
    ensures var first, second := Attempt(Some(503), Some("body"), false), Attempt(Some(502), None, false);
            Drive(Open<string>(HedgeRaceModel.New(2, 2, None), GrantAll, PickAThenB, true),
                  [Finished(0, Answered(first), offer), Finished(1, Answered(second), offer)])
            == Done(Failed(Some(502), Some("body")))
  {
    var start := Open<string>(HedgeRaceModel.New(2, 2, None), GrantAll, PickAThenB, true);
    var first, second := Attempt(Some(503), Some("body"), false), Attempt(Some(502), None, false);
    var w0, w1 := Finished(0, Answered(first), offer), Finished(1, Answered(second), offer);
    FirstFailureTurn(offer);
    SecondFailureTurn(offer);
    assert [w0, w1][..1] == [w0] && [w0][..0] == [];
    assert Drive(start, [w0]) == Running(AFailed());
  }
}

/** The driver loop. The race is a value here, because its budget answers are part of the script;
    the tasks are an object the loop mutates. */
module HedgeDrive {
  import opened Prelude
  import opened HedgeRaceModel
  import opened HedgeDriveModel
  import H = HedgeDriveRuns

  class Flight {
    var tasks: map<nat, Addr>
    var addresses: map<nat, Addr>
    var next: nat

    function View(): FlightState
      reads this
    {
      FlightState(tasks, addresses, next)
    }

    constructor ()
      ensures View() == FlightState(map[], map[], 0)
    {
      tasks, addresses, next := map[], map[], 0;
    }

    method Launch(attempts: seq<HedgeRaceModel.Launch>)
      modifies this
      ensures View() == SpawnAll(old(View()), attempts)
    {
      for i := 0 to |attempts|
        invariant SpawnAll(View(), attempts[i..]) == SpawnAll(old(View()), attempts)
      {
        assert attempts[i..][1..] == attempts[i + 1..];
        tasks := tasks[next := attempts[i].address];
        addresses := addresses[next := attempts[i].address];
        next := next + 1;
      }
    }

    method JoinedWake<T>(id: nat, joined: Joined<T>) returns (address: Addr, attempt: Attempt<T>)
      requires id in tasks
      modifies this
      ensures View() == Join(old(View()), id)
      ensures Finish(address, attempt) == JoinedFinish(old(View()), id, joined)
    {
      match joined {
        case Answered(a) => address, attempt := tasks[id], a;
        case Panicked =>
          address := if id in addresses then addresses[id] else "";
          attempt := Attempt(None, None, false);
      }
      tasks := tasks - {id};
      addresses := addresses - {id};
    }

    method Stop()
      modifies this
      ensures tasks == map[]
    {
      tasks := map[];
    }
  }

  /** The verdict with which a timer step leaves the loop. */
  datatype TimerStop = LostRace(status: Option<nat>) | WonRace(address: Addr)

  method OnTimerStep(race: Race, flight: Flight, offer: Offer)
    returns (next: Race, deadline: bool, stop: Option<TimerStop>)
    modifies flight
    ensures next == OnTimer(race, offer.granted, offer.pick).0
    ensures match OnTimer(race, offer.granted, offer.pick).1
            case Launched(launches, wait) =>
              stop.None? && flight.View() == SpawnAll(old(flight.View()), launches)
              && deadline == (wait.Some? && offer.armed)
            case Lost(status) => stop == Some(LostRace(status))
            case Won(a, _) => stop == Some(WonRace(a))
            case Pending => stop.None? && flight.View() == old(flight.View()) && !deadline
  {
    var step := OnTimer(race, offer.granted, offer.pick);
    next, deadline, stop := step.0, false, None;
    match step.1 {
      case Launched(launches, wait) =>
        flight.Launch(launches);
        deadline := wait.Some? && offer.armed;
      case Lost(status) => stop := Some(LostRace(status));
      case Won(a, _) => stop := Some(WonRace(a));
      case Pending =>
    }
  }

  function StopDelivery<T>(stop: TimerStop, kept: Option<Attempt<T>>): Delivery<T> {
    match stop
    case LostRace(status) => FailedFrom(status, kept)
    case WonRace(a) => ReadyOrFailed(a, KeptResponse(kept))
  }

  lemma {:induction false} NothingFollowsADelivery<T>(start: Progress<T>, script: seq<Wake<T>>, n: nat)
    requires n <= |script| && Drive(start, script[..n]).Done?
    ensures Drive(start, script) == Drive(start, script[..n])
    decreases |script|
  {
    if n < |script| {
      assert script[..|script| - 1][..n] == script[..n];
      NothingFollowsADelivery(start, script[..|script| - 1], n);
    } else {
      assert script[..n] == script;
    }
  }

  /** The loop: one wake of the script per turn, until the script ends or a delivery is due. */
  method RunFlight<T>(race0: Race, flight: Flight, deadline0: bool, script: seq<Wake<T>>) returns (result: Progress<T>)
    modifies flight
    ensures result == Drive(Running(Driver(race0, old(flight.View()), deadline0, None)), script)
  {
    ghost var start: Progress<T> := Running(Driver(race0, flight.View(), deadline0, None));
    var race, deadline := race0, deadline0;
    var kept: Option<Attempt<T>> := None;
    for i := 0 to |script|
      invariant Drive(start, script[..i]) == Running(Driver(race, flight.View(), deadline, kept))
    {
      assert script[..i + 1][..i] == script[..i];
      ghost var before := Driver(race, flight.View(), deadline, kept);
      ghost var after := Turn(before, script[i]);
      assert Drive(start, script[..i + 1]) == after;
      if after.Done? {
        NothingFollowsADelivery(start, script, i + 1);
      }
      if flight.tasks == map[] && !deadline {
        return Done(FailedFrom(None, kept));
      }
      match script[i] {
        case Finished(id, joined, offer) =>
          if id in flight.tasks {
            var address, attempt := flight.JoinedWake(id, joined);
            var step := OnComplete(if attempt.halt then DisallowMore(race) else race, address, attempt.status);
            race := step.0;
            if step.1.Won? {
              return Done(ReadyOrFailed(step.1.address, attempt.response));
            }
            kept := Remember(kept, attempt);
            if step.1.Lost? {
              return Done(FailedFrom(Or(step.1.status, attempt.status), kept));
            }
            if step.1.Launched? && step.1.attempts == [] && step.1.wait == Some(0) {
              var stop;
              race, deadline, stop := OnTimerStep(race, flight, offer);
              if stop.Some? {
                return Done(StopDelivery(stop.value, kept));
              }
            }
          }
        case Timer(offer) =>
          if deadline {
            var stop;
            race, deadline, stop := OnTimerStep(race, flight, offer);
            if stop.Some? {
              return Done(StopDelivery(stop.value, kept));
            }
          }
      }
    }
    assert script[..|script|] == script;
    result := Running(Driver(race, flight.View(), deadline, kept));
  }

  /** Run a race to its delivery. The result is the model's, so every whole-run theorem holds of it;
      in particular a script in which `maxAttempts` attempts finish ends in a delivery. */
  method DriveRace<T(!new)>(race: Race, grants: nat -> bool, pick: Pick, armed: bool, script: seq<Wake<T>>)
    returns (result: Option<Delivery<T>>)
    requires H.FreshRace(race)
    ensures var p := Drive(Open<T>(race, grants, pick, armed), script);
            result == if p.Done? then Some(p.delivery) else None
    ensures |History(Open<T>(race, grants, pick, armed), script)| <= race.maxAttempts
    ensures |History(Open<T>(race, grants, pick, armed), script)| == race.maxAttempts ==> result.Some?
  {
    H.DeliversWithinMaxAttempts<T>(race, grants, pick, armed, script);
    var flight := new Flight();
    var step := OpenRace(race, grants, pick);
    if !step.1.Launched? {
      assert script[..0] == [];
      NothingFollowsADelivery(Open<T>(race, grants, pick, armed), script, 0);
      return Some(Failed(None, None));
    }
    flight.Launch(step.1.attempts);
    var progress := RunFlight(step.0, flight, step.1.wait.Some? && armed, script);
    flight.Stop();
    result := if progress.Done? then Some(progress.delivery) else None;
  }
}
