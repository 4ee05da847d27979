/** The budget shared by every race of a policy, one atomic operation per step. A race is wherever
    its own code has got to: inside the admission loop, holding a reservation it has not placed,
    returning reservations, or leaving. Any number of races interleave in any way, and a weak
    compare-exchange may fail although nothing changed. */
module HedgeBudgetRuns {
  import opened Prelude
  import opened Nonlinear
  import opened Sums
  import opened HedgeRaceModel
  import R = HedgeRaceRuns
  import O = HedgeObjects

  /** What follows once the reservations being dropped have been returned. */
  datatype Then = Resume | Leave

  datatype Pc =
    | Quiet
    | Loaded(seen: nat)
    | Checked(seen: nat, requests: nat)
    | Holding
    | Returning(count: nat, then_: Then)
    | Swapping(seen: nat, count: nat, then_: Then)
    | Leaving
    | LeaveLoaded(seen: nat)
    | Gone

  datatype Party = Party(race: Race, pc: Pc)

  /** `peak` records the largest number of requests counted so far. */
  datatype World = World(bps: nat, requests: nat, hedges: nat, parties: seq<Party>, peak: nat)

  datatype Event =
    | Enter(initialRequests: u32, maxAttempts: u32, perTryTimeout: Option<nat>)
    | Note(i: nat)
    | Primary(i: nat, pick: Pick)
    | Ask(i: nat)
    | Check(i: nat)
    | Swap(i: nat, spurious: bool)
    | Choose(i: nat, pick: Pick)
    | Finish(i: nat, address: Addr, status: Option<nat>)
    | Disallow(i: nat)
    | Depart(i: nat)
    | LoadHedges(i: nat)
    | SwapHedges(i: nat, spurious: bool)
    | LoadRequests(i: nat)
    | SwapRequests(i: nat, spurious: bool)

  /** Where each operation may happen. The 64-bit request counter has not wrapped. */
  predicate Enabled(w: World, e: Event) {
    e.Enter? ||
    (e.i < |w.parties| &&
     var p := w.parties[e.i];
     match e
     case Note(_) => p.pc.Quiet? && !p.race.noted && !p.race.closed && p.race.started == [] && w.requests < U64_MAX
     case Primary(_, _) => p.pc.Quiet? && p.race.noted && !p.race.closed && p.race.started == []
     case Ask(_) => p.pc.Quiet? && p.race.noted && !p.race.closed && p.race.started != []
     case Check(_) => p.pc.Loaded?
     case Swap(_, _) => p.pc.Checked?
     case Choose(_, _) => p.pc.Holding?
     case Finish(_, _, _) => p.pc.Quiet?
     case Disallow(_) => p.pc.Quiet?
     case Depart(_) => p.pc.Quiet?
     case LoadHedges(_) => p.pc.Returning?
     case SwapHedges(_, _) => p.pc.Swapping?
     case LoadRequests(_) => p.pc.Leaving?
     case SwapRequests(_, _) => p.pc.LeaveLoaded?)
  }

  function Give(count: nat, then_: Then, r: Race): Pc {
    if count > 0 then Returning(count, then_)
    else if then_.Resume? then Quiet
    else if r.noted then Leaving
    else Gone
  }

  /** A denied or unplaced copy closes a race that has nothing in flight. */
  function NotStarted(r: Race): Race {
    if r.inFlight == [] then r.(closed := true) else r
  }

  /** The fan-out's first attempt, which asks the budget for nothing. */
  function StartPrimary(r: Race, pick: Pick): Race {
    if r.initialRequests == 0 then NotStarted(r)
    else
      var (next, start) := StartOne(r, false, pick, true);
      if start.Started? then next else NotStarted(r)
  }

  /** One atomic step of party `p`: the party, the request count and the hedge count after it. */
  function Act(w: World, p: Party, e: Event): (Party, nat, nat)
    requires Enabled(w, e) && !e.Enter? && p == w.parties[e.i]
  {
    match e
    case Note(_) => (p.(race := p.race.(noted := true)), w.requests + 1, w.hedges)
    case Primary(_, pick) =>
      (p.(race := StartPrimary(p.race, pick)), w.requests, w.hedges)
    case Ask(_) =>
      (if StartedCount(p.race) >= p.race.maxAttempts || w.bps == 0 then p.(race := NotStarted(p.race))
       else p.(pc := Loaded(w.hedges)), w.requests, w.hedges)
    case Check(_) =>
      var used, allowed := Min(p.pc.seen * O.BPS_SCALE, U64_MAX), Min(w.requests * w.bps, U64_MAX);
      (if used >= allowed then Party(NotStarted(p.race), Quiet) else p.(pc := Checked(p.pc.seen, w.requests)),
       w.requests, w.hedges)
    case Swap(_, spurious) =>
      if w.hedges == p.pc.seen && !spurious
      then (p.(pc := Holding), w.requests, Min(p.pc.seen + 1, U64_MAX))
      else (p.(pc := Loaded(w.hedges)), w.requests, w.hedges)
    case Choose(_, pick) =>
      var a := FreshEndpoint(p.race, pick);
      (if a.Some? then Party(Begin(p.race, a.value, false), Quiet)
       else Party(NotStarted(p.race), Returning(1, Resume)), w.requests, w.hedges)
    case Finish(_, a, status) =>
      var r := OnComplete(p.race, a, status).0;
      (Party(r, Give(SatSub(|p.race.copies|, |r.copies|), Resume, r)), w.requests, w.hedges)
    case Disallow(_) => (p.(race := DisallowMore(p.race)), w.requests, w.hedges)
    case Depart(_) =>
      var r := p.race.(copies := [], inFlight := [], closed := true);
      (Party(r, Give(|p.race.copies|, Leave, r)), w.requests, w.hedges)
    case LoadHedges(_) => (p.(pc := Swapping(w.hedges, p.pc.count, p.pc.then_)), w.requests, w.hedges)
    case SwapHedges(_, spurious) =>
      var given := p.(pc := Give(SatSub(p.pc.count, 1), p.pc.then_, p.race));
      if p.pc.seen == 0 then (given, w.requests, w.hedges)
      else if w.hedges == p.pc.seen && !spurious then (given, w.requests, p.pc.seen - 1)
      else (p.(pc := Swapping(w.hedges, p.pc.count, p.pc.then_)), w.requests, w.hedges)
    case LoadRequests(_) => (p.(pc := LeaveLoaded(w.requests)), w.requests, w.hedges)
    case SwapRequests(_, spurious) =>
      var left := Party(p.race.(noted := false), Gone);
      if p.pc.seen == 0 then (left, w.requests, w.hedges)
      else if w.requests == p.pc.seen && !spurious then (left, p.pc.seen - 1, w.hedges)
      else (p.(pc := LeaveLoaded(w.requests)), w.requests, w.hedges)
  }

  function Step(w: World, e: Event): World
    requires Enabled(w, e)
  {
    if e.Enter? then
      w.(parties := w.parties + [Party(New(e.initialRequests, e.maxAttempts, e.perTryTimeout), Quiet)])
    else
      var (p, requests, hedges) := Act(w, w.parties[e.i], e);
      World(w.bps, requests, hedges, w.parties[e.i := p], Max(w.peak, requests))
  }

  function Run(bps: nat, es: seq<Event>): Option<World> {
    if es == [] then Some(World(bps, 0, 0, [], 0))
    else
      var w := Run(bps, es[..|es| - 1]);
      var e := es[|es| - 1];
      if w.Some? && Enabled(w.value, e) then Some(Step(w.value, e)) else None
  }

  // ---------------------------------------------------------------------------------------
  // Conservation
  // ---------------------------------------------------------------------------------------

  /** The in-flight attempts other than the primary. */
  function InFlightCopies(r: Race): set<Addr> {
    R.ToSet(r.inFlight) - (if r.started == [] then {} else {r.started[0]})
  }

  /** Reservations a race holds outside its in-flight copies: one it has not placed yet, or those
      it is in the middle of returning. */
  function MidStep(p: Party): nat {
    match p.pc
    case Holding => 1
    case Returning(count, _) => count
    case Swapping(_, count, _) => count
    case _ => 0
  }

  function Charge(p: Party): nat {
    |InFlightCopies(p.race)| + MidStep(p)
  }

  function Counted(p: Party): nat {
    if p.race.noted then 1 else 0
  }

  /** Every in-flight copy holds a reservation and nothing else does; the primary holds none. */
  ghost predicate RaceOk(r: Race) {
    && R.NoDup(r.started) && R.NoDup(r.inFlight) && R.NoDup(r.copies)
    && R.ToSet(r.inFlight) <= R.ToSet(r.started)
    && R.ToSet(r.copies) == InFlightCopies(r)
  }

  /** The copies counted so far fit the share of a peak of `peak` requests. */
  predicate Room(bps: nat, peak: nat, hedges: nat) {
    hedges > 0 ==> (hedges - 1) * O.BPS_SCALE < peak * bps
  }

  predicate PcOk(bps: nat, peak: nat, r: Race, pc: Pc) {
    match pc
    case Quiet => true
    case Loaded(_) => r.noted && r.started != []
    case Checked(seen, requests) =>
      r.noted && r.started != [] && seen < U64_MAX && Room(bps, requests, seen + 1) && requests <= peak
    case Holding => r.noted && r.started != []
    case Returning(count, _) => count > 0
    case Swapping(seen, count, _) => count > 0 && seen > 0
    case Leaving => r.noted && r.inFlight == []
    case LeaveLoaded(seen) => r.noted && r.inFlight == [] && seen > 0
    case Gone => !r.noted && r.inFlight == []
  }

  ghost predicate PartyOk(bps: nat, peak: nat, p: Party) {
    RaceOk(p.race) && PcOk(bps, peak, p.race, p.pc) && (p.pc.Returning? && p.pc.then_.Leave? ==> p.race.inFlight == [])
    && (p.pc.Swapping? && p.pc.then_.Leave? ==> p.race.inFlight == [])
  }

  ghost predicate Inv(w: World) {
    && w.hedges == Sum(w.parties, Charge)
    && w.requests == Sum(w.parties, Counted)
    && w.requests <= w.peak
    && Room(w.bps, w.peak, w.hedges)
    && forall p :: p in w.parties ==> PartyOk(w.bps, w.peak, p)
  }

  lemma {:induction false} NoDupSize(s: seq<Addr>)
    requires R.NoDup(s)
    ensures |R.ToSet(s)| == |s|
  {
    if s == [] {
    } else {
      NoDupSize(s[1..]);
      assert R.ToSet(s) == {s[0]} + R.ToSet(s[1..]);
    }
  }

  /** In a good race the reservations held are as many as the in-flight copies. */
  lemma CopiesAreCharged(r: Race)
    requires RaceOk(r)
    ensures |r.copies| == |InFlightCopies(r)|
  {
    NoDupSize(r.copies);
  }

  lemma NothingStarted(r: Race)
    requires RaceOk(r) && r.started == []
    ensures r.inFlight == [] && r.copies == []
  {
    NoDupSize(r.inFlight);
    NoDupSize(r.copies);
    assert R.ToSet(r.inFlight) == {} && R.ToSet(r.copies) == {};
  }

  lemma BeginOk(r: Race, a: Addr, primary: bool)
    requires RaceOk(r) && a !in r.started && (primary <==> r.started == [])
    ensures RaceOk(Begin(r, a, primary))
    ensures |InFlightCopies(Begin(r, a, primary))| == |InFlightCopies(r)| + if primary then 0 else 1
  {
    var next := Begin(r, a, primary);
    assert a !in R.ToSet(r.started);
    R.NoDupSnoc(r.started, a);
    R.NoDupSnoc(r.inFlight, a);
    if !primary {
      assert a !in R.ToSet(r.copies);
      R.NoDupSnoc(r.copies, a);
      assert InFlightCopies(next) == InFlightCopies(r) + {a};
    } else {
      NothingStarted(r);
      assert InFlightCopies(next) == {};
    }
  }

  lemma DepartOk(r: Race)
    requires RaceOk(r)
    ensures var r' := r.(copies := [], inFlight := [], closed := true); RaceOk(r') && InFlightCopies(r') == {}
  {
  }

  lemma TakeOk(r: Race, a: Addr)
    requires RaceOk(r)
    ensures RaceOk(TakeInFlight(r, a)) && |TakeInFlight(r, a).copies| <= |r.copies|
    ensures RaceOk(TakeInFlight(r, a).(closed := true, copies := [], inFlight := []))
  {
    R.NoDupWithout(r.inFlight, a);
    R.NoDupWithout(r.copies, a);
    var taken := TakeInFlight(r, a);
    assert R.ToSet(taken.copies) == InFlightCopies(taken);
    DepartOk(taken);
  }

  lemma FinishOk(r: Race, a: Addr, status: Option<nat>)
    requires RaceOk(r)
    ensures RaceOk(OnComplete(r, a, status).0) && OnComplete(r, a, status).0.noted == r.noted
    ensures |OnComplete(r, a, status).0.copies| <= |r.copies|
  {
    TakeOk(r, a);
    var taken := TakeInFlight(r, a);
    assert RaceOk(taken.(lastFailure := status)) && RaceOk(taken.(closed := true));
    assert RaceOk(taken.(lastFailure := status, closed := true));
  }

  /** The state one party's step is taken in: enough is counted to cover that party. */
  ghost predicate Ready(w: World, e: Event) {
    && Enabled(w, e) && !e.Enter?
    && w.requests <= w.peak && Room(w.bps, w.peak, w.hedges)
    && PartyOk(w.bps, w.peak, w.parties[e.i])
    && Charge(w.parties[e.i]) <= w.hedges && Counted(w.parties[e.i]) <= w.requests
  }

  /** A step from `p` to `p'` changes the counters by what it changes in the party's own charge and
      count, and keeps within the budget. */
  ghost predicate Balanced(w: World, p: Party, p': Party, requests: nat, hedges: nat) {
    && hedges + Charge(p) == w.hedges + Charge(p')
    && requests + Counted(p) == w.requests + Counted(p')
    && Room(w.bps, Max(w.peak, requests), hedges)
    && PartyOk(w.bps, Max(w.peak, requests), p')
  }

  ghost predicate Accounts(w: World, e: Event)
    requires Enabled(w, e) && !e.Enter?
  {
    var (p', requests, hedges) := Act(w, w.parties[e.i], e);
    Balanced(w, w.parties[e.i], p', requests, hedges)
  }

  lemma RoomGrows(bps: nat, peak: nat, peak': nat, hedges: nat)
    requires peak <= peak' && Room(bps, peak, hedges)
    ensures Room(bps, peak', hedges)
  {
    MulMono(peak, peak', bps);
  }

  lemma NoteAccounts(w: World, e: Event)
    requires Ready(w, e) && e.Note?
    ensures Accounts(w, e)
  {
    RoomGrows(w.bps, w.peak, Max(w.peak, w.requests + 1), w.hedges);
  }

  lemma LoadRequestsAccounts(w: World, e: Event)
    requires Ready(w, e) && e.LoadRequests?
    ensures Accounts(w, e)
  {
  }

  /** A party that leaves takes its request out of the count. */
  lemma LeaveBalances(w: World, p: Party)
    requires PartyOk(w.bps, w.peak, p) && p.pc.LeaveLoaded? && w.requests <= w.peak && Room(w.bps, w.peak, w.hedges)
    requires w.requests > 0
    ensures Balanced(w, p, Party(p.race.(noted := false), Gone), w.requests - 1, w.hedges)
  {
    assert InFlightCopies(p.race.(noted := false)) == InFlightCopies(p.race);
    assert Max(w.peak, w.requests - 1) == w.peak;
  }

  lemma SwapRequestsAccounts(w: World, e: Event)
    requires Ready(w, e) && e.SwapRequests?
    ensures Accounts(w, e)
  {
    LeaveBalances(w, w.parties[e.i]);
    assert Max(w.peak, w.requests) == w.peak;
  }

  lemma NotStartedOk(r: Race)
    requires RaceOk(r)
    ensures RaceOk(NotStarted(r)) && InFlightCopies(NotStarted(r)) == InFlightCopies(r)
  {
  }

  /** A party that only moves on, with the same reservations in hand, changes no counter. */
  lemma MovesBalance(w: World, p: Party, pc: Pc)
    requires w.requests <= w.peak && Room(w.bps, w.peak, w.hedges) && PartyOk(w.bps, w.peak, p.(pc := pc))
    requires MidStep(p.(pc := pc)) == MidStep(p)
    ensures Balanced(w, p, p.(pc := pc), w.requests, w.hedges)
  {
    assert Max(w.peak, w.requests) == w.peak;
  }

  lemma NotStartedBalances(w: World, p: Party)
    requires w.requests <= w.peak && Room(w.bps, w.peak, w.hedges) && PartyOk(w.bps, w.peak, p) && MidStep(p) == 0
    ensures Balanced(w, p, Party(NotStarted(p.race), Quiet), w.requests, w.hedges)
  {
    NotStartedOk(p.race);
    assert Max(w.peak, w.requests) == w.peak;
  }

  lemma AskAccounts(w: World, e: Event)
    requires Ready(w, e) && e.Ask?
    ensures Accounts(w, e)
  {
    var p := w.parties[e.i];
    if StartedCount(p.race) >= p.race.maxAttempts || w.bps == 0 {
      NotStartedBalances(w, p);
    } else {
      MovesBalance(w, p, Loaded(w.hedges));
    }
  }

  lemma DisallowAccounts(w: World, e: Event)
    requires Ready(w, e) && e.Disallow?
    ensures Accounts(w, e)
  {
    var r := w.parties[e.i].race;
    assert RaceOk(DisallowMore(r)) && InFlightCopies(DisallowMore(r)) == InFlightCopies(r);
    assert Max(w.peak, w.requests) == w.peak;
  }

  lemma CheckAccounts(w: World, e: Event)
    requires Ready(w, e) && e.Check?
    ensures Accounts(w, e)
  {
    var p := w.parties[e.i];
    if Act(w, p, e).0.pc.Checked? {
      assert p.pc.seen * O.BPS_SCALE < w.requests * w.bps;
    }
  }

  lemma SwapAccounts(w: World, e: Event)
    requires Ready(w, e) && e.Swap?
    ensures Accounts(w, e)
  {
    var pc := w.parties[e.i].pc;
    RoomGrows(w.bps, pc.requests, w.peak, pc.seen + 1);
  }

  lemma LoadHedgesAccounts(w: World, e: Event)
    requires Ready(w, e) && e.LoadHedges?
    ensures Accounts(w, e)
  {
  }

  /** Giving one reservation back is one less in hand, wherever the party goes next. */
  lemma GiveOk(bps: nat, peak: nat, p: Party)
    requires PartyOk(bps, peak, p) && p.pc.Swapping?
    ensures var p' := p.(pc := Give(p.pc.count - 1, p.pc.then_, p.race));
            PartyOk(bps, peak, p') && Charge(p') == Charge(p) - 1
  {
  }

  lemma GiveBalances(w: World, p: Party)
    requires PartyOk(w.bps, w.peak, p) && p.pc.Swapping? && w.requests <= w.peak && Room(w.bps, w.peak, w.hedges)
    requires w.hedges > 0
    ensures Balanced(w, p, p.(pc := Give(p.pc.count - 1, p.pc.then_, p.race)), w.requests, w.hedges - 1)
  {
    GiveOk(w.bps, w.peak, p);
    assert Max(w.peak, w.requests) == w.peak;
  }

  lemma SwapHedgesAccounts(w: World, e: Event)
    requires Ready(w, e) && e.SwapHedges?
    ensures Accounts(w, e)
  {
    var p := w.parties[e.i];
    if w.hedges == p.pc.seen && !e.spurious {
      GiveBalances(w, p);
    } else {
      MovesBalance(w, p, Swapping(w.hedges, p.pc.count, p.pc.then_));
    }
  }

  lemma StartPrimaryOk(r: Race, pick: Pick)
    requires RaceOk(r) && r.started == []
    ensures RaceOk(StartPrimary(r, pick)) && StartPrimary(r, pick).noted == r.noted
    ensures |InFlightCopies(StartPrimary(r, pick))| == |InFlightCopies(r)|
  {
    NotStartedOk(r);
    if r.initialRequests != 0 && StartOne(r, false, pick, true).1.Started? {
      BeginOk(r, StartOne(r, false, pick, true).1.address, true);
    }
  }

  lemma PrimaryAccounts(w: World, e: Event)
    requires Ready(w, e) && e.Primary?
    ensures Accounts(w, e)
  {
    StartPrimaryOk(w.parties[e.i].race, e.pick);
    assert Max(w.peak, w.requests) == w.peak;
  }

  lemma ChooseAccounts(w: World, e: Event)
    requires Ready(w, e) && e.Choose?
    ensures Accounts(w, e)
  {
    var r := w.parties[e.i].race;
    if FreshEndpoint(r, e.pick).Some? {
      BeginOk(r, FreshEndpoint(r, e.pick).value, false);
    }
  }

  lemma GiveHolds(r: Race, count: nat)
    ensures var p := Party(r, Give(count, Resume, r));
            && MidStep(p) == count
            && (p.pc.Quiet? || (p.pc.Returning? && p.pc.count > 0 && p.pc.then_.Resume?))
  {
  }

  /** A finished attempt's reservations go from its race into the hands that return them. */
  lemma FinishCharges(p: Party, r: Race)
    requires RaceOk(p.race) && RaceOk(r) && p.pc.Quiet? && |r.copies| <= |p.race.copies|
    ensures Charge(Party(r, Give(|p.race.copies| - |r.copies|, Resume, r))) == Charge(p)
  {
    CopiesAreCharged(p.race);
    CopiesAreCharged(r);
    GiveHolds(r, |p.race.copies| - |r.copies|);
  }

  lemma FinishAccounts(w: World, e: Event)
    requires Ready(w, e) && e.Finish?
    ensures Accounts(w, e)
  {
    var p := w.parties[e.i];
    var r := OnComplete(p.race, e.address, e.status).0;
    FinishOk(p.race, e.address, e.status);
    FinishCharges(p, r);
    GiveHolds(r, |p.race.copies| - |r.copies|);
    assert Max(w.peak, w.requests) == w.peak;
  }

  lemma DepartAccounts(w: World, e: Event)
    requires Ready(w, e) && e.Depart?
    ensures Accounts(w, e)
  {
    var r := w.parties[e.i].race;
    CopiesAreCharged(r);
    DepartOk(r);
  }

  lemma ActAccounts(w: World, e: Event)
    requires Ready(w, e)
    ensures Accounts(w, e)
  {
    match e
    case Note(_) => NoteAccounts(w, e);
    case Primary(_, _) => PrimaryAccounts(w, e);
    case Ask(_) => AskAccounts(w, e);
    case Check(_) => CheckAccounts(w, e);
    case Swap(_, _) => SwapAccounts(w, e);
    case Choose(_, _) => ChooseAccounts(w, e);
    case Finish(_, _, _) => FinishAccounts(w, e);
    case Disallow(_) => DisallowAccounts(w, e);
    case Depart(_) => DepartAccounts(w, e);
    case LoadHedges(_) => LoadHedgesAccounts(w, e);
    case SwapHedges(_, _) => SwapHedgesAccounts(w, e);
    case LoadRequests(_) => LoadRequestsAccounts(w, e);
    case SwapRequests(_, _) => SwapRequestsAccounts(w, e);
  }

  /** A step of one party leaves the books in order for all of them. */
  lemma ReplaceKeepsInv(w: World, i: nat, p': Party, requests: nat, hedges: nat)
    requires Inv(w) && i < |w.parties| && Balanced(w, w.parties[i], p', requests, hedges)
    ensures Inv(World(w.bps, requests, hedges, w.parties[i := p'], Max(w.peak, requests)))
  {
    SumUpdate(w.parties, Charge, i, p');
    SumUpdate(w.parties, Counted, i, p');
    forall q | q in w.parties[i := p']
      ensures PartyOk(w.bps, Max(w.peak, requests), q)
    {
      if q != p' {
        assert q in w.parties;
      }
    }
  }

  lemma EnterKeepsInv(w: World, p: Party)
    requires Inv(w) && p.pc.Quiet? && !p.race.noted
    requires p.race.started == p.race.inFlight == p.race.copies == []
    ensures Inv(w.(parties := w.parties + [p]))
  {
    assert InFlightCopies(p.race) == {};
    SumSnoc(w.parties, Charge, p);
    SumSnoc(w.parties, Counted, p);
  }

  lemma StepKeepsInv(w: World, e: Event)
    requires Inv(w) && Enabled(w, e)
    ensures Inv(Step(w, e))
  {
    if e.Enter? {
      EnterKeepsInv(w, Party(New(e.initialRequests, e.maxAttempts, e.perTryTimeout), Quiet));
    } else {
      var p := w.parties[e.i];
      assert p in w.parties;
      SumUpdate(w.parties, Charge, e.i, p);
      SumUpdate(w.parties, Counted, e.i, p);
      ActAccounts(w, e);
      var (p', requests, hedges) := Act(w, p, e);
      ReplaceKeepsInv(w, e.i, p', requests, hedges);
    }
  }

  lemma {:induction false} ReachableInv(bps: nat, es: seq<Event>)
    requires Run(bps, es).Some?
    ensures Inv(Run(bps, es).value) && Run(bps, es).value.bps == bps
  {
    if es == [] {
    } else {
      ReachableInv(bps, es[..|es| - 1]);
      StepKeepsInv(Run(bps, es[..|es| - 1]).value, es[|es| - 1]);
    }
  }

  // ---------------------------------------------------------------------------------------
  // Main results
  // ---------------------------------------------------------------------------------------

  /** In every interleaving the hedge counter is the in-flight copies of all races plus the
      reservations they have in hand, and the request counter is the races that were opened and
      have not left. The primary is never charged, since it is not a copy. */
  lemma {:induction false} CountersAreExact(bps: nat, es: seq<Event>)
    requires Run(bps, es).Some?
    ensures var w := Run(bps, es).value;
            && w.hedges == Sum(w.parties, Charge)
            && w.requests == Sum(w.parties, Counted)
            && (forall p :: p in w.parties ==> R.ToSet(p.race.copies) == InFlightCopies(p.race)
                                               && |p.race.copies| == |InFlightCopies(p.race)|)
  {
    ReachableInv(bps, es);
    var w := Run(bps, es).value;
    forall p | p in w.parties
      ensures |p.race.copies| == |InFlightCopies(p.race)|
    {
      CopiesAreCharged(p.race);
    }
  }

  lemma GoneHoldsNothing(bps: nat, peak: nat, p: Party)
    requires PartyOk(bps, peak, p) && p.pc.Gone?
    ensures Charge(p) == 0 && Counted(p) == 0
  {
    assert InFlightCopies(p.race) == {};
  }

  /** Once every race has left, both counters are back at zero. */
  lemma {:induction false} CountersDrain(bps: nat, es: seq<Event>)
    requires Run(bps, es).Some?
    requires forall p :: p in Run(bps, es).value.parties ==> p.pc.Gone?
    ensures Run(bps, es).value.hedges == 0 && Run(bps, es).value.requests == 0
  {
    ReachableInv(bps, es);
    var w := Run(bps, es).value;
    forall p | p in w.parties
      ensures Charge(p) == 0 && Counted(p) == 0
    {
      GoneHoldsNothing(w.bps, w.peak, p);
    }
    SumZero(w.parties, Charge);
    SumZero(w.parties, Counted);
  }

  /** A copy is admitted only where the budget has room: the exchange that admits it finds fewer
      copies than the policy's share of a request count that was current when it was read. */
  lemma {:induction false} AdmissionHasRoom(bps: nat, es: seq<Event>, i: nat)
    requires Run(bps, es).Some? && Enabled(Run(bps, es).value, Swap(i, false))
    ensures var w := Run(bps, es).value;
            var pc := w.parties[i].pc;
            var w' := Step(w, Swap(i, false));
            w'.hedges != w.hedges || w'.parties[i].pc.Holding? ==>
              w'.hedges == w.hedges + 1 && w.hedges * 10_000 < pc.requests * bps && pc.requests <= w.peak
  {
    ReachableInv(bps, es);
    var w := Run(bps, es).value;
    assert w.parties[i] in w.parties;
  }

  /** The copies in flight never exceed the policy's share of the peak request count, rounded up. */
  lemma {:induction false} HedgesNeverExceedTheBudget(bps: nat, es: seq<Event>)
    requires Run(bps, es).Some?
    ensures var w := Run(bps, es).value;
            w.hedges <= CeilDiv(w.peak * bps, 10_000)
  {
    ReachableInv(bps, es);
  }

  // ---------------------------------------------------------------------------------------
  // One race on its own
  // ---------------------------------------------------------------------------------------

  /** Uninterrupted, the admission loop takes a reservation exactly when the budget has room for it. */
  lemma AdmitAlone(w: World, i: nat)
    requires Enabled(w, Ask(i)) && w.hedges <= U64_MAX
    requires StartedCount(w.parties[i].race) < w.parties[i].race.maxAttempts
    ensures var asked := Step(w, Ask(i));
            if !asked.parties[i].pc.Loaded? then !O.Admits(w.requests, w.hedges, w.bps) && asked.hedges == w.hedges
            else
              var checked := Step(asked, Check(i));
              if !checked.parties[i].pc.Checked? then !O.Admits(w.requests, w.hedges, w.bps) && checked.hedges == w.hedges
              else
                var swapped := Step(checked, Swap(i, false));
                && O.Admits(w.requests, w.hedges, w.bps)
                && swapped.parties[i].pc == Holding && swapped.hedges == w.hedges + 1
  {
    O.AdmitsIsExact(w.requests, w.hedges, w.bps);
  }

  /** Uninterrupted, returning a reservation and leaving each take one from their counter. */
  lemma ReturnAlone(w: World, i: nat)
    ensures Enabled(w, LoadHedges(i)) ==>
              var loaded := Step(w, LoadHedges(i));
              Enabled(loaded, SwapHedges(i, false)) && Step(loaded, SwapHedges(i, false)).hedges == SatSub(w.hedges, 1)
    ensures Enabled(w, LoadRequests(i)) ==>
              var loaded := Step(w, LoadRequests(i));
              Enabled(loaded, SwapRequests(i, false)) && Step(loaded, SwapRequests(i, false)).requests == SatSub(w.requests, 1)
  {
  }
}

/** The races of the shared interleavings, each followed through the calls it completes: asking for a
    copy, checking, exchanging and choosing are together one call of the timer. */
module HedgeSharedRaces {
  import opened Prelude
  import opened HedgeRaceModel
  import R = HedgeRaceRuns
  import B = HedgeBudgetRuns

  /** A race as it was before it was opened, and the calls made on it since. */
  datatype Diary = Diary(r0: Race, calls: seq<R.Event>)

  function Deny(held: nat): bool {
    false
  }

  function PickNone(chosen: seq<Addr>): Option<Addr> {
    None
  }

  /** The call that a step completes, if it completes one. The fan-out's copies are asked for one by
      one, so opening is the primary alone, and a copy that is denied never gets to the picker. */
  function CallOf(w: B.World, e: B.Event): Option<R.Event>
    requires B.Enabled(w, e) && !e.Enter?
  {
    var p := w.parties[e.i];
    match e
    case Primary(_, pick) => Some(R.Open(Deny, pick))
    case Ask(_) => if B.Act(w, p, e).0.pc.Quiet? then Some(R.Timer(false, PickNone)) else None
    case Check(_) => if B.Act(w, p, e).0.pc.Quiet? then Some(R.Timer(false, PickNone)) else None
    case Choose(_, pick) => Some(R.Timer(true, pick))
    case Finish(_, a, status) => Some(R.Complete(a, status))
    case Disallow(_) => Some(R.Disallow)
    case _ => None
  }

  /** What the step adds to the diary. Before the race is opened only a lowered cap has an effect. */
  function Written(d: Diary, call: Option<R.Event>): Diary {
    if call.None? then d
    else if d.calls != [] || call.value.Open? then d.(calls := d.calls + [call.value])
    else if call.value.Disallow? then d.(r0 := DisallowMore(d.r0))
    else d
  }

  function Diaries(bps: nat, es: seq<B.Event>): seq<Diary> {
    if es == [] then []
    else
      var p, e := es[..|es| - 1], es[|es| - 1];
      var w, ds := B.Run(bps, p), Diaries(bps, p);
      if w.None? || !B.Enabled(w.value, e) then ds
      else if e.Enter? then ds + [Diary(New(e.initialRequests, e.maxAttempts, e.perTryTimeout), [])]
      else if e.i < |ds| then ds[e.i := Written(ds[e.i], CallOf(w.value, e))]
      else ds
  }

  /** The race is being dropped, or is gone. */
  predicate Departed(pc: B.Pc) {
    || pc.Leaving? || pc.LeaveLoaded? || pc.Gone?
    || ((pc.Returning? || pc.Swapping?) && pc.then_.Leave?)
  }

  predicate Asking(pc: B.Pc) {
    pc.Loaded? || pc.Checked? || pc.Holding?
  }

  predicate Unopened(r0: Race) {
    r0 == New(r0.initialRequests, r0.maxAttempts, r0.perTryTimeout)
  }

  /** The diary explains the race. */
  predicate Tied(race: Race, d: Diary) {
    if d.calls == [] then Unopened(d.r0) && race == d.r0.(noted := race.noted)
    else R.Opened(d.r0, d.calls) && R.Run(d.r0, d.calls) == race
  }

  predicate PartyTied(p: B.Party, d: Diary) {
    && (!Departed(p.pc) ==> Tied(p.race, d))
    && (Asking(p.pc) ==> d.calls != [] && !p.race.closed && StartedCount(p.race) < p.race.maxAttempts)
  }

  lemma CallTies(race: Race, d: Diary, call: R.Event)
    requires Tied(race, d) && d.calls != []
    ensures Tied(R.Step(race, call).0, Written(d, Some(call)))
  {
    assert (d.calls + [call])[..|d.calls|] == d.calls;
  }

  /** Opening with every copy denied starts the primary and nothing else. */
  lemma PrimaryOpens(r0: Race, pick: Pick)
    requires Unopened(r0)
    ensures R.Step(r0, R.Open(Deny, pick)).0 == B.StartPrimary(r0.(noted := true), pick)
  {
    var r := r0.(noted := true);
    if r.initialRequests != 0 {
      var (next, start) := StartOne(r, false, pick, true);
      if start.Started? {
        assert StartInitial(next, Deny, pick) == (next, []);
      }
    }
  }

  lemma PrimaryTies(w: B.World, d: Diary, e: B.Event)
    requires B.Enabled(w, e) && e.Primary? && PartyTied(w.parties[e.i], d) && d.calls == []
    ensures PartyTied(B.Act(w, w.parties[e.i], e).0, Written(d, CallOf(w, e)))
  {
    PrimaryOpens(d.r0, e.pick);
    var calls := d.calls + [R.Open(Deny, e.pick)];
    assert calls[..0] == [] && R.Run(d.r0, []) == d.r0;
  }

  /** After an opening a race has started something or is closed, so it cannot be opened again. */
  lemma {:induction false} OpenedHasStarted(d: Diary)
    requires d.calls != [] && R.Opened(d.r0, d.calls)
    ensures var r := R.Run(d.r0, d.calls); r.noted && (r.started != [] || r.closed)
  {
    R.ReachableInv(d.r0, d.calls);
  }

  lemma TimerTies(w: B.World, d: Diary, e: B.Event)
    requires B.Enabled(w, e) && (e.Ask? || e.Check? || e.Choose?) && PartyTied(w.parties[e.i], d) && d.calls != []
    ensures PartyTied(B.Act(w, w.parties[e.i], e).0, Written(d, CallOf(w, e)))
  {
    var race := w.parties[e.i].race;
    if CallOf(w, e).Some? {
      CallTies(race, d, CallOf(w, e).value);
    }
  }

  lemma OutcomeTies(w: B.World, d: Diary, e: B.Event)
    requires B.Enabled(w, e) && (e.Finish? || e.Disallow?) && PartyTied(w.parties[e.i], d)
    ensures PartyTied(B.Act(w, w.parties[e.i], e).0, Written(d, CallOf(w, e)))
  {
    if d.calls != [] {
      CallTies(w.parties[e.i].race, d, CallOf(w, e).value);
    }
  }

  lemma QuietStepTies(w: B.World, d: Diary, e: B.Event)
    requires B.Enabled(w, e) && !e.Enter? && CallOf(w, e).None? && !e.Ask? && !e.Check? && PartyTied(w.parties[e.i], d)
    requires e.Note? ==> d.calls == []
    ensures PartyTied(B.Act(w, w.parties[e.i], e).0, d)
  {
  }

  lemma StepTies(w: B.World, d: Diary, e: B.Event)
    requires B.Enabled(w, e) && !e.Enter? && PartyTied(w.parties[e.i], d)
    ensures PartyTied(B.Act(w, w.parties[e.i], e).0, Written(d, CallOf(w, e)))
  {
    if d.calls != [] && !Departed(w.parties[e.i].pc) {
      OpenedHasStarted(d);
    }
    if e.Primary? {
      PrimaryTies(w, d, e);
    } else if e.Ask? || e.Check? || e.Choose? {
      TimerTies(w, d, e);
    } else if e.Finish? || e.Disallow? {
      OutcomeTies(w, d, e);
    } else {
      QuietStepTies(w, d, e);
    }
  }

  lemma {:induction false} ReachableTied(bps: nat, es: seq<B.Event>)
    requires B.Run(bps, es).Some?
    ensures var w, ds := B.Run(bps, es).value, Diaries(bps, es);
            |ds| == |w.parties| && forall i :: 0 <= i < |ds| ==> PartyTied(w.parties[i], ds[i])
  {
    if es == [] {
    } else {
      var p, e := es[..|es| - 1], es[|es| - 1];
      ReachableTied(bps, p);
      if !e.Enter? {
        StepTies(B.Run(bps, p).value, Diaries(bps, p)[e.i], e);
      }
    }
  }

  /** In every interleaving, a race that has been opened and not dropped stands exactly where its own
      calls, in order, lead a race that shares its budget with nobody. So whatever holds of every
      sequence of calls holds of it. */
  lemma {:induction false} SharedRacesRunAlone(bps: nat, es: seq<B.Event>, i: nat)
    requires B.Run(bps, es).Some? && i < |B.Run(bps, es).value.parties|
    requires var p := B.Run(bps, es).value.parties[i]; !Departed(p.pc) && (p.race.started != [] || p.race.closed)
    ensures i < |Diaries(bps, es)|
    ensures var d := Diaries(bps, es)[i];
            R.Opened(d.r0, d.calls) && R.Run(d.r0, d.calls) == B.Run(bps, es).value.parties[i].race
  {
    ReachableTied(bps, es);
  }

  /** In every interleaving the races keep the rules: attempts are distinct and within the cap, and a
      finished attempt wins exactly when it is the first success of one still running. */
  lemma {:induction false} SharedRacesKeepTheRules(bps: nat, es: seq<B.Event>, i: nat, a: Addr, status: Option<nat>)
    requires B.Run(bps, es).Some? && i < |B.Run(bps, es).value.parties|
    requires var p := B.Run(bps, es).value.parties[i]; !Departed(p.pc) && (p.race.started != [] || p.race.closed)
    ensures i < |Diaries(bps, es)|
    ensures var d, race := Diaries(bps, es)[i], B.Run(bps, es).value.parties[i].race;
            var b := R.Replay(d.r0, d.calls);
            && b.launched == race.started && R.NoDup(b.launched) && |b.launched| <= d.r0.maxAttempts && b.verdicts <= 1
            && (OnComplete(race, a, status).1.Won? <==> R.Good(status) && a in b.running && b.verdicts == 0)
  {
    SharedRacesRunAlone(bps, es, i);
    var d := Diaries(bps, es)[i];
    R.ReachableInv(d.r0, d.calls);
    R.AttemptsAreDistinctAndCapped(d.r0, d.calls);
    R.WinIsTheFirstSuccess(d.r0, d.calls, R.Complete(a, status));
  }
}
