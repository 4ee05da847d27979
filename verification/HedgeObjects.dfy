/** The budget, the reservation and the race as objects, each method tied to the model. */
module HedgeObjects {
  import opened Prelude
  import M = HedgeRaceModel

  const BPS_SCALE: nat := 10_000

  /** Whether another copy fits the budget; both products saturate at 64 bits. */
  predicate Admits(requests: nat, hedges: nat, bps: nat) {
    bps != 0 && Min(hedges * BPS_SCALE, U64_MAX) < Min(requests * bps, U64_MAX)
  }

  /** The admission test is the exact comparison of the products whenever it succeeds, and it is
      exact in both directions while the copies' product fits in 64 bits. With no copy in flight any
      positive budget admits one. */
  lemma AdmitsIsExact(requests: nat, hedges: nat, bps: nat)
    ensures Admits(requests, hedges, bps) ==> hedges * 10_000 < requests * bps && hedges + 1 <= U64_MAX
    ensures hedges * 10_000 < U64_MAX ==> (Admits(requests, hedges, bps) <==> hedges * 10_000 < requests * bps)
    ensures bps > 0 && requests > 0 ==> Admits(requests, 0, bps)
  {
    if bps == 0 {
      assert requests * bps == 0;
    } else if requests > 0 {
      assert requests * bps >= bps;
    }
  }

  class HedgeBudget {
    var requests: u64
    var hedges: u64
    const bps: nat

    constructor (bps: nat)
      ensures requests == hedges == 0 && this.bps == bps
    {
      requests, hedges := 0, 0;
      this.bps := bps;
    }

    method NoteRequest()
      modifies this`requests
      ensures requests == (old(requests) + 1) % (U64_MAX + 1)
    {
      requests := (requests + 1) % (U64_MAX + 1);
    }

    /** `spurious` is how often the weak exchange fails although nothing changed. */
    method EndRequest(spurious: nat)
      modifies this`requests
      ensures requests == SatSub(old(requests), 1)
    {
      var seen, failures := requests, spurious;
      while seen > 0
        invariant requests == old(requests) && seen == requests
        decreases failures
      {
        if failures == 0 {
          requests := seen - 1;
          return;
        }
        failures, seen := failures - 1, requests;
      }
    }

    method RevertAdmission(spurious: nat)
      modifies this`hedges
      ensures hedges == SatSub(old(hedges), 1)
    {
      var seen, failures := hedges, spurious;
      while seen > 0
        invariant hedges == old(hedges) && seen == hedges
        decreases failures
      {
        if failures == 0 {
          hedges := seen - 1;
          return;
        }
        failures, seen := failures - 1, hedges;
      }
    }

    method TryAdmit(spurious: nat) returns (admitted: bool)
      modifies this`hedges
      ensures admitted == Admits(requests, old(hedges), bps)
      ensures hedges == old(hedges) + if admitted then 1 else 0
    {
      if bps == 0 {
        return false;
      }
      var seen, failures := hedges, spurious;
      while true
        invariant hedges == old(hedges) && seen == hedges
        decreases failures
      {
        var used, allowed := Min(seen * BPS_SCALE, U64_MAX), Min(requests * bps, U64_MAX);
        if used >= allowed {
          return false;
        }
        if failures == 0 {
          AdmitsIsExact(requests, seen, bps);
          hedges := seen + 1;
          return true;
        }
        failures, seen := failures - 1, hedges;
      }
    }
  }

  /** The right to one copy, given back by the first drop and by no other. */
  class HedgeReservation {
    const budget: HedgeBudget
    var open: bool

    constructor (budget: HedgeBudget)
      ensures this.budget == budget && open
    {
      this.budget := budget;
      open := true;
    }

    method Drop(spurious: nat)
      modifies this, budget`hedges
      ensures !open
      ensures budget.hedges == if old(open) then SatSub(old(budget.hedges), 1) else old(budget.hedges)
    {
      var wasOpen := open;
      open := false;
      if wasOpen {
        budget.RevertAdmission(spurious);
      }
    }
  }

  datatype Copy = Copy(address: M.Addr, reservation: HedgeReservation)

  function CopyAddresses(copies: seq<Copy>): seq<M.Addr> {
    seq(|copies|, i requires 0 <= i < |copies| => copies[i].address)
  }

  /** The budget's answers as a fan-out meets them: every copy it takes adds one to the count.
      `held` is how many copies the race already holds of the `hedges` that are counted. */
  function Grants(requests: nat, hedges: nat, bps: nat, held: nat): nat -> bool {
    (n: nat) => n + hedges >= held && Admits(requests, n + hedges - held, bps)
  }

  lemma GrantAt(requests: nat, hedges: nat, bps: nat, held: nat, n: nat, now: nat)
    requires now + held == n + hedges
    ensures Grants(requests, hedges, bps, held)(n) == Admits(requests, now, bps)
  {
  }

  lemma FanOutStep(r: M.Race, grants: nat -> bool, pick: M.Pick, launches: seq<M.Launch>)
    requires M.StartedCount(r) < r.initialRequests
    ensures var primary := r.started == [];
            var (next, start) := M.StartOne(r, grants(|r.copies|), pick, primary);
            var whole := M.StartInitial(r, grants, pick);
            if start.Started? then
              var rest := M.StartInitial(next, grants, pick);
              whole.0 == rest.0 && launches + whole.1 == (launches + [M.Launch(start.address, primary)]) + rest.1
            else next == r && whole == (r, [])
  {
    var primary := r.started == [];
    var (next, start) := M.StartOne(r, grants(|r.copies|), pick, primary);
    if start.Started? {
      var rest := M.StartInitial(next, grants, pick);
      assert launches + ([M.Launch(start.address, primary)] + rest.1)
             == (launches + [M.Launch(start.address, primary)]) + rest.1;
    }
  }

  class HedgeRace {
    const initialRequests: u32
    var maxAttempts: u32
    const perTryTimeout: Option<nat>
    const budget: HedgeBudget
    var started: seq<M.Addr>
    var inFlight: seq<M.Addr>
    var copies: seq<Copy>
    var lastFailure: Option<nat>
    var noted: bool
    var closed: bool

    ghost function View(): M.Race
      reads this
    {
      M.Race(initialRequests, maxAttempts, perTryTimeout, started, inFlight, CopyAddresses(copies),
             lastFailure, noted, closed)
    }

    ghost function Reservations(): set<HedgeReservation>
      reads this
    {
      set c | c in copies :: c.reservation
    }

    /** Every held reservation is open, held once, and still counted by the budget. */
    ghost predicate Valid()
      reads this, budget, Reservations()
    {
      && |copies| <= budget.hedges
      && (forall c :: c in copies ==> c.reservation.open && c.reservation.budget == budget)
      && (forall i, j :: 0 <= i < j < |copies| ==> copies[i].reservation != copies[j].reservation)
    }

    constructor (initialRequests: u32, maxAttempts: u32, perTryTimeout: Option<nat>, budget: HedgeBudget)
      ensures Valid() && this.budget == budget && copies == []
      ensures View() == M.New(initialRequests, maxAttempts, perTryTimeout)
    {
      this.initialRequests, this.maxAttempts := initialRequests, maxAttempts;
      this.perTryTimeout, this.budget := perTryTimeout, budget;
      started, inFlight, copies := [], [], [];
      lastFailure, noted, closed := None, false, false;
    }

    /** An unplaced copy gives its reservation back on the way out, so after every call the budget is
        charged for the copies held and for nothing else. */
    method StartOne(pick: M.Pick, primary: bool, spurious: nat) returns (start: M.AttemptStart)
      requires Valid()
      modifies this, budget`hedges
      ensures Valid() && fresh(Reservations() - old(Reservations()))
      ensures (View(), start) == M.StartOne(old(View()), Admits(budget.requests, old(budget.hedges), budget.bps), pick, primary)
      ensures budget.hedges - |copies| == old(budget.hedges - |copies|)
    {
      if Min(|started|, U32_MAX) >= maxAttempts {
        return M.NotPlaced;
      }
      var reservation: HedgeReservation? := null;
      if !primary {
        var admitted := budget.TryAdmit(spurious);
        if !admitted {
          return M.BudgetDenied;
        }
        reservation := new HedgeReservation(budget);
      }
      var address := pick(started);
      if address.None? || address.value in started {
        if reservation != null {
          reservation.Drop(spurious);
        }
        return M.NotPlaced;
      }
      if reservation != null {
        copies := copies + [Copy(address.value, reservation)];
        assert CopyAddresses(copies) == old(CopyAddresses(copies)) + [address.value];
      }
      inFlight := inFlight + [address.value];
      started := started + [address.value];
      start := M.Started(address.value);
    }

    method StartInitial(pick: M.Pick, spurious: nat) returns (launches: seq<M.Launch>)
      requires Valid()
      modifies this, budget`hedges
      ensures Valid() && fresh(Reservations() - old(Reservations()))
      ensures (View(), launches) == M.StartInitial(old(View()), old(Grants(budget.requests, budget.hedges, budget.bps, |copies|)), pick)
      ensures budget.hedges - |copies| == old(budget.hedges - |copies|)
    {
      launches := [];
      ghost var grants := Grants(budget.requests, budget.hedges, budget.bps, |copies|);
      ghost var whole := M.StartInitial(View(), grants, pick);
      assert [] + whole.1 == whole.1;
      while Min(|started|, U32_MAX) < initialRequests
        invariant Valid() && fresh(Reservations() - old(Reservations()))
        invariant budget.hedges - |copies| == old(budget.hedges - |copies|)
        invariant var rest := M.StartInitial(View(), grants, pick); whole.0 == rest.0 && whole.1 == launches + rest.1
        decreases initialRequests - |started|
      {
        var primary := started == [];
        ghost var before := View();
        GrantAt(budget.requests, old(budget.hedges), budget.bps, old(|copies|), |copies|, budget.hedges);
        FanOutStep(before, grants, pick, launches);
        var start := StartOne(pick, primary, spurious);
        if !start.Started? {
          break;
        }
        launches := launches + [M.Launch(start.address, primary)];
      }
      assert M.StartInitial(View(), grants, pick) == (View(), []);
      assert launches + [] == launches;
    }

    method Open(pick: M.Pick, spurious: nat) returns (outcome: M.Outcome)
      requires Valid()
      modifies this, budget
      ensures Valid() && fresh(Reservations() - old(Reservations()))
      ensures budget.requests == if old(noted) then old(budget.requests) else (old(budget.requests) + 1) % (U64_MAX + 1)
      ensures (View(), outcome) == M.OpenRace(old(View()), Grants(budget.requests, old(budget.hedges), budget.bps, old(|copies|)), pick)
      ensures budget.hedges - |copies| == old(budget.hedges - |copies|)
    {
      if noted {
        return M.Pending;
      }
      budget.NoteRequest();
      noted := true;
      var launches := StartInitial(pick, spurious);
      if launches == [] {
        closed := true;
        outcome := M.Lost(None);
      } else {
        outcome := M.Launched(launches, NextWait());
      }
    }

    function NextWait(): Option<nat>
      reads this
    {
      if closed || Min(|started|, U32_MAX) >= maxAttempts then None else perTryTimeout
    }

    method OnTimer(pick: M.Pick, spurious: nat) returns (outcome: M.Outcome)
      requires Valid()
      modifies this, budget`hedges
      ensures Valid() && fresh(Reservations() - old(Reservations()))
      ensures (View(), outcome) == M.OnTimer(old(View()), Admits(budget.requests, old(budget.hedges), budget.bps), pick)
      ensures budget.hedges - |copies| == old(budget.hedges - |copies|)
    {
      if closed {
        return M.Pending;
      }
      var start := StartOne(pick, false, spurious);
      match start {
        case Started(address) =>
          outcome := M.Launched([M.Launch(address, false)], NextWait());
        case BudgetDenied =>
          if inFlight == [] {
            closed := true;
            outcome := M.Lost(lastFailure);
          } else {
            outcome := M.Launched([], NextWait());
          }
        case NotPlaced =>
          if inFlight == [] {
            closed := true;
            outcome := M.Lost(lastFailure);
          } else {
            outcome := M.Pending;
          }
      }
    }

    /** Drop the reservation at `i`, which `swap_remove` takes out of the vector. */
    method DropCopy(i: nat, spurious: nat)
      requires Valid() && i < |copies|
      modifies this`copies, budget`hedges, copies[i].reservation
      ensures Valid() && copies == M.SwapRemove(old(copies), i)
      ensures budget.hedges == old(budget.hedges) - 1
    {
      var reservation := copies[i].reservation;
      copies := copies[i := copies[|copies| - 1]][..|copies| - 1];
      reservation.Drop(spurious);
    }

    method ReleaseCopy(address: M.Addr, spurious: nat)
      requires Valid()
      modifies this`copies, budget`hedges, Reservations()
      ensures Valid() && CopyAddresses(copies) == M.Without(old(CopyAddresses(copies)), address)
      ensures budget.hedges - |copies| == old(budget.hedges - |copies|)
      ensures Reservations() <= old(Reservations())
    {
      var addresses := CopyAddresses(copies);
      if address in addresses {
        DropCopy(M.Position(addresses, address), spurious);
      }
    }

    /** `Vec::clear`: every reservation is dropped. */
    method ClearCopies(spurious: nat)
      requires Valid()
      modifies this`copies, budget`hedges, Reservations()
      ensures Valid() && copies == []
      ensures budget.hedges == old(budget.hedges) - old(|copies|)
    {
      ghost var all := Reservations();
      while copies != []
        invariant Valid() && Reservations() <= all
        invariant budget.hedges - |copies| == old(budget.hedges - |copies|)
        decreases |copies|
      {
        DropCopy(|copies| - 1, spurious);
      }
    }

    method OnComplete(address: M.Addr, status: Option<nat>, spurious: nat) returns (outcome: M.Outcome)
      requires Valid()
      modifies this, budget`hedges, Reservations()
      ensures Valid()
      ensures (View(), outcome) == M.OnComplete(old(View()), address, status)
      ensures budget.hedges - |copies| == old(budget.hedges - |copies|)
    {
      if closed || address !in inFlight {
        return M.Pending;
      }
      ReleaseCopy(address, spurious);
      inFlight := M.SwapRemove(inFlight, M.Position(inFlight, address));
      if status.Some? && M.StatusIsSuccess(status.value) {
        closed := true;
        ClearCopies(spurious);
        assert CopyAddresses(copies) == [];
        outcome := M.Won(address, inFlight);
        inFlight := [];
        return;
      }
      if status.Some? {
        lastFailure := status;
      }
      if inFlight != [] {
        outcome := M.Pending;
      } else if Min(|started|, U32_MAX) < maxAttempts {
        outcome := M.Launched([], Some(0));
      } else {
        closed := true;
        outcome := M.Lost(lastFailure);
      }
    }

    method DisallowMore()
      requires Valid()
      modifies this`maxAttempts
      ensures Valid() && View() == M.DisallowMore(old(View()))
    {
      maxAttempts := Min(|started|, U32_MAX);
    }

    method Drop(spurious: nat)
      requires Valid()
      modifies this, budget, Reservations()
      ensures Valid() && copies == [] && !noted
      ensures budget.hedges == old(budget.hedges) - old(|copies|)
      ensures budget.requests == if old(noted) then SatSub(old(budget.requests), 1) else old(budget.requests)
    {
      ClearCopies(spurious);
      if noted {
        budget.EndRequest(spurious);
        noted := false;
      }
    }
  }
}
