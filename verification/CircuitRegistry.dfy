/** Runs of the per-peer registry. Every map operation is one step, because the shard lock is
    held across it, so the steps below may be interleaved in any way by any number of threads:
    both halves of an acquisition, the three ways to return a token, and the re-checked removal
    of an eviction sweep (whose candidate list may be arbitrarily stale). */
module CircuitRegistryRuns {
  import opened Prelude
  import opened CircuitModel
  import R = CircuitRuns

  datatype PeerKey = PeerKey(addr: string, sni: string)

  /** `instance` tells a breaker from one created later under the same key; `first` is the sample of the
      acquisition that inserted it, and `clock` the latest sample taken for it so far. */
  datatype Slot = Slot(instance: nat, first: nat, clock: nat, breaker: Breaker)

  /** An unreturned token: whom it was issued for, and by which instance. */
  datatype Ticket = Ticket(peer: PeerKey, instance: nat, issued: R.Issued)

  datatype Registry = Registry(slots: map<PeerKey, Slot>, tickets: map<nat, Ticket>, created: nat)

  datatype Event =
    | AcquireExisting(id: nat, peer: PeerKey, now: nat)
    | AcquireOrInsert(id: nat, peer: PeerKey, born: nat, now: nat)
    | Succeed(id: nat, now: nat)
    | Fail(id: nat, now: nat)
    | Free(id: nat)
    | RemoveIfIdle(peer: PeerKey, idleThreshold: nat, now: nat)

  /** The tokens of one instance, as that instance's own run knows them. */
  function Held(r: Registry, instance: nat): map<nat, R.Issued> {
    map id | id in r.tickets && r.tickets[id].instance == instance :: r.tickets[id].issued
  }

  /** Requests are named apart, and the peer's breaker has fewer than 2^32 tokens out and a 64-bit
      generation that has not wrapped. */
  predicate CanIssue(r: Registry, id: nat, peer: PeerKey) {
    && id !in r.tickets
    && (peer in r.slots ==>
          |Held(r, r.slots[peer].instance)| < U32_MAX && r.slots[peer].breaker.inner.generation < U64_MAX)
  }

  /** The inserting acquisition reads its clock under the shard's write lock, after the new breaker has
      read its own, and every later one reads it under a lock granted on the entry that then exists: so
      no acquisition is sampled before the one that inserted its breaker. A removal excludes all other
      use of the entry, so it is sampled after all of theirs. Outcomes are timed as for one breaker. */
  predicate Enabled(r: Registry, e: Event) {
    match e
    case AcquireExisting(id, peer, now) => peer in r.slots && r.slots[peer].first <= now && CanIssue(r, id, peer)
    case AcquireOrInsert(id, peer, born, now) =>
      CanIssue(r, id, peer) && (if peer in r.slots then r.slots[peer].first else born) <= now
    case Succeed(id, now) =>
      && id in r.tickets && r.tickets[id].issued.at <= now
      && (r.tickets[id].peer in r.slots ==> r.slots[r.tickets[id].peer].clock <= now)
    case Fail(id, now) => id in r.tickets && r.tickets[id].issued.at <= now
    case Free(id) => id in r.tickets
    case RemoveIfIdle(peer, _, now) => peer in r.slots ==> r.slots[peer].clock <= now
  }

  /** `entry(peer).or_insert_with(CircuitBreaker::new)`. */
  function Insert(r: Registry, peer: PeerKey, born: nat, now: nat): Registry {
    if peer in r.slots then r
    else r.(slots := r.slots[peer := Slot(r.created, now, born, New(born))], created := r.created + 1)
  }

  /** Store the breaker after an acquisition, and the ticket when one was issued. */
  function Place(r: Registry, id: nat, peer: PeerKey, b: Breaker, clock: nat, issued: Option<R.Issued>): Registry
    requires peer in r.slots
  {
    var slot := r.slots[peer];
    r.(slots := r.slots[peer := slot.(breaker := b, clock := clock)],
       tickets := if issued.Some? then r.tickets[id := Ticket(peer, slot.instance, issued.value)] else r.tickets)
  }

  /** The ticket for an answer given when the latest sample is `clock`. */
  function IssuedFor(check: Check, clock: nat): Option<R.Issued> {
    if check.Allowed? then Some(R.Issued(check.token.generation, clock)) else None
  }

  function Acquire(c: Config, r: Registry, id: nat, peer: PeerKey, now: nat): Registry
    requires peer in r.slots
  {
    var ((b, check), clock) := (TryAcquire(c, r.slots[peer].breaker, now), Max(r.slots[peer].clock, now));
    Place(r, id, peer, b, clock, IssuedFor(check, clock))
  }

  /** Hand a token back: the outcome, sampled at `now`, goes to whatever breaker now stands under the
      ticket's peer, and to none when there is none. */
  function Return(r: Registry, id: nat, now: nat, update: Breaker -> Breaker): Registry
    requires id in r.tickets
  {
    var peer := r.tickets[id].peer;
    var slots := if peer in r.slots
      then r.slots[peer := r.slots[peer].(breaker := update(r.slots[peer].breaker), clock := Max(r.slots[peer].clock, now))]
      else r.slots;
    r.(slots := slots, tickets := r.tickets - {id})
  }

  function Step(c: Config, r: Registry, e: Event): Registry
    requires Enabled(r, e)
  {
    match e
    case AcquireExisting(id, peer, now) => Acquire(c, r, id, peer, now)
    case AcquireOrInsert(id, peer, born, now) => Acquire(c, Insert(r, peer, born, now), id, peer, now)
    case Succeed(id, now) =>
      var token := Token(r.tickets[id].issued.generation);
      Return(r, id, now, b => RecordSuccess(b, token, now))
    case Fail(id, now) =>
      var token := Token(r.tickets[id].issued.generation);
      Return(r, id, now, b => RecordFailure(c, b, token, now))
    case Free(id) => Return(r, id, 0, b => Release(b))
    case RemoveIfIdle(peer, idleThreshold, now) =>
      if peer in r.slots && IsIdle(c, r.slots[peer].breaker, idleThreshold, now)
      then r.(slots := r.slots - {peer}) else r
  }

  function Run(c: Config, es: seq<Event>): Option<Registry> {
    if es == [] then Some(Registry(map[], map[], 0))
    else
      var r := Run(c, es[..|es| - 1]);
      var e := es[|es| - 1];
      if r.Some? && Enabled(r.value, e) then Some(Step(c, r.value, e)) else None
  }

  // ---------------------------------------------------------------------------------------
  // The life of every instance
  // ---------------------------------------------------------------------------------------

  /** When an instance was created and what has been done to it since, in order. */
  datatype Life = Life(born: nat, events: seq<R.Event>)

  /** Enter `e` in the life of the instance that stands under `peer`, if one does. */
  function Entered(r: Registry, lives: map<nat, Life>, peer: PeerKey, e: R.Event): map<nat, Life> {
    if peer in r.slots && r.slots[peer].instance in lives then
      var n := r.slots[peer].instance;
      lives[n := lives[n].(events := lives[n].events + [e])]
    else lives
  }

  function Begun(r: Registry, lives: map<nat, Life>, peer: PeerKey, born: nat): map<nat, Life> {
    if peer in r.slots then lives else lives[r.created := Life(born, [])]
  }

  function Noted(r: Registry, lives: map<nat, Life>, e: Event): map<nat, Life>
    requires Enabled(r, e)
  {
    match e
    case AcquireExisting(id, peer, now) => Entered(r, lives, peer, R.Acquire(id, now))
    case AcquireOrInsert(id, peer, born, now) =>
      Entered(Insert(r, peer, born, now), Begun(r, lives, peer, born), peer, R.Acquire(id, now))
    case Succeed(id, now) => Entered(r, lives, r.tickets[id].peer, R.Succeed(id, now))
    case Fail(id, now) => Entered(r, lives, r.tickets[id].peer, R.Fail(id, now))
    case Free(id) => Entered(r, lives, r.tickets[id].peer, R.Free(id))
    case RemoveIfIdle(_, _, _) => lives
  }

  /** A run of the registry, split into the lives of all instances it ever created. */
  function Chronicle(c: Config, es: seq<Event>): map<nat, Life> {
    if es == [] then map[]
    else
      var p := es[..|es| - 1];
      var r := Run(c, p);
      if r.Some? && Enabled(r.value, es[|es| - 1]) then Noted(r.value, Chronicle(c, p), es[|es| - 1]) else Chronicle(c, p)
  }

  /** What an instance's own life, run alone, leads to. */
  function Alone(c: Config, life: Life): Option<R.World> {
    R.Run(c, life.born, life.events)
  }

  /** The instance under `p`, with the tokens it has out. */
  function InstanceWorld(r: Registry, p: PeerKey): R.World
    requires p in r.slots
  {
    R.World(r.slots[p].breaker, Held(r, r.slots[p].instance), r.slots[p].clock)
  }

  /** The life of every instance runs alone, and that of a standing one leads to where it stands. */
  ghost predicate Lived(c: Config, r: Registry, lives: map<nat, Life>) {
    && (forall n: nat :: n in lives <==> n < r.created)
    && (forall n :: n in lives ==> Alone(c, lives[n]).Some?)
    && (forall p :: p in r.slots ==> r.slots[p].instance in lives
                                     && Alone(c, lives[r.slots[p].instance]) == Some(InstanceWorld(r, p)))
  }

  /** No instance stands under two peers, and every ticket finds the instance that issued it. */
  predicate Attached(r: Registry) {
    && (forall p, q :: p in r.slots && q in r.slots && r.slots[p].instance == r.slots[q].instance ==> p == q)
    && (forall id :: id in r.tickets ==> r.tickets[id].peer in r.slots
                                         && r.slots[r.tickets[id].peer].instance == r.tickets[id].instance)
  }

  ghost predicate Inv(c: Config, r: Registry, lives: map<nat, Life>) {
    Lived(c, r, lives) && Attached(r)
  }

  lemma InsertKeepsInv(c: Config, r: Registry, lives: map<nat, Life>, peer: PeerKey, born: nat, now: nat)
    requires Inv(c, r, lives)
    ensures Inv(c, Insert(r, peer, born, now), Begun(r, lives, peer, born))
  {
    if peer !in r.slots {
      var r', lives' := Insert(r, peer, born, now), Begun(r, lives, peer, born);
      assert Held(r', r.created) == map[];
      assert Alone(c, Life(born, [])) == Some(R.World(New(born), map[], born));
      forall p | p in r'.slots
        ensures Alone(c, lives'[r'.slots[p].instance]) == Some(InstanceWorld(r', p))
      {
        assert Held(r', r'.slots[p].instance) == Held(r, r'.slots[p].instance);
      }
    }
  }

  /** `r'` differs from `r` only in the breaker and the tickets of `peer`'s instance. */
  ghost predicate Touches(r: Registry, r': Registry, peer: PeerKey, w': R.World) {
    && peer in r.slots
    && r' == r.(slots := r.slots[peer := r.slots[peer].(breaker := w'.breaker, clock := w'.clock)], tickets := r'.tickets)
    && Held(r', r.slots[peer].instance) == w'.held
    && (forall n :: n != r.slots[peer].instance ==> Held(r', n) == Held(r, n))
    && (forall id :: id in r'.tickets && r'.tickets[id].peer != peer ==> id in r.tickets && r'.tickets[id] == r.tickets[id])
    && (forall id :: id in r'.tickets && r'.tickets[id].peer == peer ==> r'.tickets[id].instance == r.slots[peer].instance)
  }

  lemma OthersStand(r: Registry, r': Registry, peer: PeerKey, w': R.World, p: PeerKey)
    requires Attached(r) && Touches(r, r', peer, w') && p in r.slots && p != peer
    ensures p in r'.slots && r'.slots[p] == r.slots[p] && InstanceWorld(r', p) == InstanceWorld(r, p)
    ensures r.slots[p].instance != r.slots[peer].instance
  {
    assert Held(r', r.slots[p].instance) == Held(r, r.slots[p].instance);
  }

  lemma LifeGoesOn(c: Config, r: Registry, lives: map<nat, Life>, peer: PeerKey, e: R.Event)
    requires Lived(c, r, lives) && peer in r.slots && R.Enabled(InstanceWorld(r, peer), e)
    ensures var n, lives' := r.slots[peer].instance, Entered(r, lives, peer, e);
            && lives'.Keys == lives.Keys && n in lives'
            && Alone(c, lives'[n]) == Some(R.Step(c, InstanceWorld(r, peer), e))
            && forall m :: m in lives && m != n ==> lives'[m] == lives[m]
  {
    var n := r.slots[peer].instance;
    R.RunSnoc(c, lives[n].born, lives[n].events, e);
  }

  lemma TouchKeepsLives(c: Config, r: Registry, r': Registry, lives: map<nat, Life>, peer: PeerKey, e: R.Event)
    requires Inv(c, r, lives) && peer in r.slots && R.Enabled(InstanceWorld(r, peer), e)
    requires Touches(r, r', peer, R.Step(c, InstanceWorld(r, peer), e))
    ensures Lived(c, r', Entered(r, lives, peer, e))
  {
    var w', lives' := R.Step(c, InstanceWorld(r, peer), e), Entered(r, lives, peer, e);
    LifeGoesOn(c, r, lives, peer, e);
    assert InstanceWorld(r', peer) == w';
    forall p | p in r'.slots
      ensures r'.slots[p].instance in lives' && Alone(c, lives'[r'.slots[p].instance]) == Some(InstanceWorld(r', p))
    {
      if p != peer {
        OthersStand(r, r', peer, w', p);
      }
    }
  }

  lemma TouchKeepsAttached(r: Registry, r': Registry, peer: PeerKey, w': R.World)
    requires Attached(r) && Touches(r, r', peer, w')
    ensures Attached(r')
  {
  }

  lemma TouchKeepsInv(c: Config, r: Registry, r': Registry, lives: map<nat, Life>, peer: PeerKey, e: R.Event)
    requires Inv(c, r, lives) && peer in r.slots && R.Enabled(InstanceWorld(r, peer), e)
    requires Touches(r, r', peer, R.Step(c, InstanceWorld(r, peer), e))
    ensures Inv(c, r', Entered(r, lives, peer, e))
  {
    TouchKeepsLives(c, r, r', lives, peer, e);
    TouchKeepsAttached(r, r', peer, R.Step(c, InstanceWorld(r, peer), e));
  }

  lemma PlaceTouches(r: Registry, id: nat, peer: PeerKey, b: Breaker, clock: nat, issued: Option<R.Issued>)
    requires peer in r.slots && id !in r.tickets
    requires forall k :: k in r.tickets && r.tickets[k].peer == peer ==> r.tickets[k].instance == r.slots[peer].instance
    ensures var held := Held(r, r.slots[peer].instance);
            Touches(r, Place(r, id, peer, b, clock, issued), peer,
                    R.World(b, if issued.Some? then held[id := issued.value] else held, clock))
  {
    var r' := Place(r, id, peer, b, clock, issued);
    var m := r.slots[peer].instance;
    assert issued.Some? ==> Held(r', m) == Held(r, m)[id := issued.value];
    forall n | n != m
      ensures Held(r', n) == Held(r, n)
    {
    }
  }

  lemma AcquireKeepsInv(c: Config, r: Registry, lives: map<nat, Life>, id: nat, peer: PeerKey, now: nat)
    requires Inv(c, r, lives) && peer in r.slots && CanIssue(r, id, peer)
    ensures Inv(c, Acquire(c, r, id, peer, now), Entered(r, lives, peer, R.Acquire(id, now)))
  {
    var ((b, check), clock) := (TryAcquire(c, r.slots[peer].breaker, now), Max(r.slots[peer].clock, now));
    PlaceTouches(r, id, peer, b, clock, IssuedFor(check, clock));
    TouchKeepsInv(c, r, Acquire(c, r, id, peer, now), lives, peer, R.Acquire(id, now));
  }

  lemma ReturnTouches(r: Registry, id: nat, now: nat, update: Breaker -> Breaker, w': R.World)
    requires id in r.tickets && r.tickets[id].peer in r.slots
    requires r.slots[r.tickets[id].peer].instance == r.tickets[id].instance
    requires forall k :: k in r.tickets && r.tickets[k].peer == r.tickets[id].peer ==> r.tickets[k].instance == r.tickets[id].instance
    requires w' == R.World(update(r.slots[r.tickets[id].peer].breaker), Held(r, r.tickets[id].instance) - {id},
                           Max(r.slots[r.tickets[id].peer].clock, now))
    ensures Touches(r, Return(r, id, now, update), r.tickets[id].peer, w')
  {
    var r' := Return(r, id, now, update);
    assert Held(r', r.tickets[id].instance) == w'.held;
    forall n | n != r.tickets[id].instance
      ensures Held(r', n) == Held(r, n)
    {
    }
  }

  lemma ReturnKeepsInv(c: Config, r: Registry, lives: map<nat, Life>, id: nat, now: nat, update: Breaker -> Breaker, e: R.Event)
    requires Inv(c, r, lives) && id in r.tickets && !e.Acquire? && e.id == id
    requires var w := InstanceWorld(r, r.tickets[id].peer);
             R.Enabled(w, e) && R.Step(c, w, e).breaker == update(w.breaker) && R.Step(c, w, e).clock == Max(w.clock, now)
    ensures Inv(c, Return(r, id, now, update), Entered(r, lives, r.tickets[id].peer, e))
  {
    ReturnTouches(r, id, now, update, R.Step(c, InstanceWorld(r, r.tickets[id].peer), e));
    TouchKeepsInv(c, r, Return(r, id, now, update), lives, r.tickets[id].peer, e);
  }

  lemma InstanceFacts(c: Config, r: Registry, lives: map<nat, Life>, peer: PeerKey)
    requires Inv(c, r, lives) && peer in r.slots
    ensures R.Inv(c, InstanceWorld(r, peer))
  {
    var life := lives[r.slots[peer].instance];
    R.ReachableInv(c, life.born, life.events);
  }

  lemma RemoveKeepsInv(c: Config, r: Registry, lives: map<nat, Life>, peer: PeerKey, idleThreshold: nat, now: nat)
    requires Inv(c, r, lives) && Enabled(r, RemoveIfIdle(peer, idleThreshold, now))
    ensures Inv(c, Step(c, r, RemoveIfIdle(peer, idleThreshold, now)), lives)
  {
    var r' := Step(c, r, RemoveIfIdle(peer, idleThreshold, now));
    if r' != r {
      InstanceFacts(c, r, lives, peer);
      assert Held(r, r.slots[peer].instance).Keys == {};
      forall id | id in r.tickets
        ensures r.tickets[id].peer != peer
      {
        assert id !in Held(r, r.slots[peer].instance).Keys;
      }
      forall p | p in r'.slots
        ensures InstanceWorld(r', p) == InstanceWorld(r, p)
      {
        assert Held(r', r'.slots[p].instance) == Held(r, r'.slots[p].instance);
      }
    }
  }

  lemma StepKeepsInv(c: Config, r: Registry, lives: map<nat, Life>, e: Event)
    requires Inv(c, r, lives) && Enabled(r, e)
    ensures Inv(c, Step(c, r, e), Noted(r, lives, e))
  {
    match e
    case AcquireExisting(id, peer, now) => AcquireKeepsInv(c, r, lives, id, peer, now);
    case AcquireOrInsert(id, peer, born, now) =>
      var r' := Insert(r, peer, born, now);
      InsertKeepsInv(c, r, lives, peer, born, now);
      assert peer !in r.slots ==> Held(r', r.created) == map[];
      AcquireKeepsInv(c, r', Begun(r, lives, peer, born), id, peer, now);
    case Succeed(id, now) =>
      var token := Token(r.tickets[id].issued.generation);
      ReturnKeepsInv(c, r, lives, id, now, b => RecordSuccess(b, token, now), R.Succeed(id, now));
    case Fail(id, now) =>
      var token := Token(r.tickets[id].issued.generation);
      ReturnKeepsInv(c, r, lives, id, now, b => RecordFailure(c, b, token, now), R.Fail(id, now));
    case Free(id) => ReturnKeepsInv(c, r, lives, id, 0, b => Release(b), R.Free(id));
    case RemoveIfIdle(peer, idleThreshold, now) => RemoveKeepsInv(c, r, lives, peer, idleThreshold, now);
  }

  lemma {:induction false} ReachableInv(c: Config, es: seq<Event>)
    requires Run(c, es).Some?
    ensures Inv(c, Run(c, es).value, Chronicle(c, es))
  {
    if es == [] {
    } else {
      var p := es[..|es| - 1];
      ReachableInv(c, p);
      StepKeepsInv(c, Run(c, p).value, Chronicle(c, p), es[|es| - 1]);
    }
  }

  /** The life begins with an acquisition, sampled no earlier than the birth, and no acquisition of it is
      sampled before that one. */
  predicate Orderly(life: Life) {
    && life.events != [] && life.events[0].Acquire? && life.born <= life.events[0].now
    && (forall k :: 0 <= k < |life.events| && life.events[k].Acquire? ==> life.events[0].now <= life.events[k].now)
  }

  predicate InOrder(r: Registry, lives: map<nat, Life>) {
    && (forall n :: n in lives ==> n < r.created && Orderly(lives[n]))
    && (forall p :: p in r.slots ==> r.slots[p].instance in lives && lives[r.slots[p].instance].events[0].now == r.slots[p].first)
  }

  /** What is entered in an orderly life keeps it orderly, if no acquisition comes too early. */
  lemma EnteredInOrder(r: Registry, lives: map<nat, Life>, peer: PeerKey, e: R.Event)
    requires InOrder(r, lives) && (peer in r.slots && e.Acquire? ==> r.slots[peer].first <= e.now)
    ensures InOrder(r, Entered(r, lives, peer, e))
  {
  }

  /** Only the instances, the first samples and the number created matter for the order. */
  lemma InOrderDependsOn(r: Registry, r': Registry, lives: map<nat, Life>)
    requires InOrder(r, lives) && r'.created == r.created && r'.slots.Keys <= r.slots.Keys
    requires forall p :: p in r'.slots ==> r'.slots[p].instance == r.slots[p].instance && r'.slots[p].first == r.slots[p].first
    ensures InOrder(r', lives)
  {
  }

  lemma InsertInOrder(r: Registry, lives: map<nat, Life>, peer: PeerKey, born: nat, id: nat, now: nat)
    requires InOrder(r, lives) && peer !in r.slots && born <= now
    ensures InOrder(Insert(r, peer, born, now), Entered(Insert(r, peer, born, now), Begun(r, lives, peer, born), peer, R.Acquire(id, now)))
  {
    assert [] + [R.Acquire(id, now)] == [R.Acquire(id, now)];
  }

  /** The registry once a missing breaker has been inserted. */
  function Prepared(r: Registry, e: Event): Registry {
    if e.AcquireOrInsert? then Insert(r, e.peer, e.born, e.now) else r
  }

  lemma StepKeepsFirsts(c: Config, r: Registry, e: Event)
    requires Enabled(r, e)
    ensures var r1, r' := Prepared(r, e), Step(c, r, e);
            && r'.created == r1.created && r'.slots.Keys <= r1.slots.Keys
            && forall p :: p in r'.slots ==> r'.slots[p].instance == r1.slots[p].instance && r'.slots[p].first == r1.slots[p].first
  {
  }

  lemma NotedInOrder(r: Registry, lives: map<nat, Life>, e: Event)
    requires InOrder(r, lives) && Enabled(r, e)
    ensures InOrder(Prepared(r, e), Noted(r, lives, e))
  {
    match e
    case AcquireExisting(id, peer, now) => EnteredInOrder(r, lives, peer, R.Acquire(id, now));
    case AcquireOrInsert(id, peer, born, now) =>
      if peer in r.slots {
        EnteredInOrder(r, lives, peer, R.Acquire(id, now));
      } else {
        InsertInOrder(r, lives, peer, born, id, now);
      }
    case Succeed(id, now) => EnteredInOrder(r, lives, r.tickets[id].peer, R.Succeed(id, now));
    case Fail(id, now) => EnteredInOrder(r, lives, r.tickets[id].peer, R.Fail(id, now));
    case Free(id) => EnteredInOrder(r, lives, r.tickets[id].peer, R.Free(id));
    case RemoveIfIdle(_, _, _) =>
  }

  lemma StepInOrder(c: Config, r: Registry, lives: map<nat, Life>, e: Event)
    requires InOrder(r, lives) && Enabled(r, e)
    ensures InOrder(Step(c, r, e), Noted(r, lives, e))
  {
    NotedInOrder(r, lives, e);
    StepKeepsFirsts(c, r, e);
    InOrderDependsOn(Prepared(r, e), Step(c, r, e), Noted(r, lives, e));
  }

  lemma {:induction false} ReachableInOrder(c: Config, es: seq<Event>)
    requires Run(c, es).Some?
    ensures InOrder(Run(c, es).value, Chronicle(c, es))
  {
    if es == [] {
    } else {
      var p := es[..|es| - 1];
      ReachableInOrder(c, p);
      StepInOrder(c, Run(c, p).value, Chronicle(c, p), es[|es| - 1]);
    }
  }

  lemma {:induction false} StandingFacts(c: Config, es: seq<Event>, peer: PeerKey)
    requires Run(c, es).Some? && peer in Run(c, es).value.slots
    ensures R.Inv(c, InstanceWorld(Run(c, es).value, peer))
  {
    ReachableInv(c, es);
    InstanceFacts(c, Run(c, es).value, Chronicle(c, es), peer);
  }

  /** Every interleaving, seen from one instance, is a run of a lone breaker: the events of its own
      life, in order, are possible one after the other, no acquisition of it is sampled before the
      first, and while it stands in the registry they lead to exactly its state and the tokens it has
      out. So whatever holds of every run of a breaker holds of every instance ever created. */
  lemma {:induction false} InstancesRunAlone(c: Config, es: seq<Event>)
    requires Run(c, es).Some?
    ensures var r, lives := Run(c, es).value, Chronicle(c, es);
            && (forall n: nat :: n in lives <==> n < r.created)
            && (forall n :: n in lives ==> R.Run(c, lives[n].born, lives[n].events).Some?)
            && (forall n :: n in lives ==> Orderly(lives[n]))
            && (forall p :: p in r.slots ==>
                  && r.slots[p].instance in lives
                  && R.Run(c, lives[r.slots[p].instance].born, lives[r.slots[p].instance].events)
                     == Some(R.World(r.slots[p].breaker, Held(r, r.slots[p].instance), r.slots[p].clock)))
  {
    ReachableInv(c, es);
    ReachableInOrder(c, es);
  }

  /** The spacing of recovery admissions, for every instance in every interleaving. */
  lemma {:induction false} EveryInstanceIsSpaced(c: Config, es: seq<Event>, n: nat)
    requires Run(c, es).Some? && R.Gap(c) > 0 && n < Run(c, es).value.created
    ensures n in Chronicle(c, es)
    ensures var life := Chronicle(c, es)[n]; R.Spaced(c, R.EpisodeOf(c, life.born, life.events))
  {
    ReachableInv(c, es);
    var life := Chronicle(c, es)[n];
    R.AdmissionsAreSpaced(c, life.born, life.events);
  }

  /** Every interleaving keeps each unreturned token attached to the very instance that issued it,
      and that instance still counts it: eviction and re-creation are invisible to token holders. */
  lemma {:induction false} TokensKeepTheirBreaker(c: Config, es: seq<Event>)
    requires Run(c, es).Some?
    ensures var r := Run(c, es).value;
            forall id :: id in r.tickets ==>
              && r.tickets[id].peer in r.slots && r.slots[r.tickets[id].peer].instance == r.tickets[id].instance
              && r.slots[r.tickets[id].peer].breaker.inner.inFlight > 0
              && r.tickets[id].issued.generation <= r.slots[r.tickets[id].peer].breaker.inner.generation
  {
    ReachableInv(c, es);
    var r := Run(c, es).value;
    forall id | id in r.tickets
      ensures R.Inv(c, InstanceWorld(r, r.tickets[id].peer)) && id in Held(r, r.tickets[id].instance).Keys
    {
      InstanceFacts(c, r, Chronicle(c, es), r.tickets[id].peer);
    }
  }

  function TicketsOf(r: Registry, peer: PeerKey): set<nat> {
    set id | id in r.tickets && r.tickets[id].peer == peer
  }

  /** In every interleaving the in-flight count of a peer's breaker is the number of tokens that
      have been issued for that peer and not yet returned; a peer without a breaker has none. */
  lemma {:induction false} InFlightCountsTickets(c: Config, es: seq<Event>, peer: PeerKey)
    requires Run(c, es).Some?
    ensures var r := Run(c, es).value;
            |TicketsOf(r, peer)| == if peer in r.slots then r.slots[peer].breaker.inner.inFlight else 0
  {
    ReachableInv(c, es);
    var r := Run(c, es).value;
    if peer in r.slots {
      InstanceFacts(c, r, Chronicle(c, es), peer);
      assert TicketsOf(r, peer) == Held(r, r.slots[peer].instance).Keys;
    } else {
      assert TicketsOf(r, peer) == {};
    }
  }

  /** A removal step, however stale the sweep that asks for it, evicts a peer exactly when that peer
      has no token out, is not open inside its recovery window, and has been quiet long enough; it
      touches no other peer and no token. */
  lemma {:induction false} EvictionIsExact(c: Config, es: seq<Event>, peer: PeerKey, idleThreshold: nat, now: nat)
    requires Run(c, es).Some? && Enabled(Run(c, es).value, RemoveIfIdle(peer, idleThreshold, now))
    ensures var r := Run(c, es).value;
            var r' := Step(c, r, RemoveIfIdle(peer, idleThreshold, now));
            && r'.tickets == r.tickets && r'.slots - {peer} == r.slots - {peer}
            && (peer in r'.slots ==> peer in r.slots && r'.slots[peer] == r.slots[peer])
            && (peer in r.slots ==>
                  (peer !in r'.slots <==>
                     && TicketsOf(r, peer) == {}
                     && !(r.slots[peer].breaker.inner.state == Open && r.slots[peer].breaker.inner.openedAt.Some?
                          && SatSub(now, r.slots[peer].breaker.inner.openedAt.value) < c.recoveryWindow)
                     && SatSub(now, r.slots[peer].breaker.inner.lastActivity) >= idleThreshold))
  {
    InFlightCountsTickets(c, es, peer);
  }

  // ---------------------------------------------------------------------------------------
  // An open circuit holds against the whole registry
  // ---------------------------------------------------------------------------------------

  /** A step on `peer` that is sampled before the deadline; steps on other peers may be sampled whenever. */
  predicate SampledBefore(e: Event, peer: PeerKey, deadline: nat) {
    match e
    case AcquireExisting(_, p, now) => p == peer ==> now < deadline
    case AcquireOrInsert(_, p, _, now) => p == peer ==> now < deadline
    case RemoveIfIdle(p, _, now) => p == peer ==> now < deadline
    case _ => true
  }

  predicate OpenSince(r: Registry, peer: PeerKey, instance: nat, since: nat) {
    peer in r.slots && r.slots[peer].instance == instance &&
    r.slots[peer].breaker.inner.state == Open && r.slots[peer].breaker.inner.openedAt == Some(since)
  }

  lemma OpenHoldsStep(c: Config, r: Registry, e: Event, peer: PeerKey, instance: nat, since: nat)
    requires c.recoveryWindow > 0 && Enabled(r, e) && SampledBefore(e, peer, since + c.recoveryWindow)
    requires OpenSince(r, peer, instance, since)
    ensures OpenSince(Step(c, r, e), peer, instance, since)
    ensures TicketsOf(Step(c, r, e), peer) <= TicketsOf(r, peer)
  {
  }

  /** Until its recovery window has passed, an open breaker is neither evicted nor replaced by
      any interleaving, and no request for its peer is admitted. */
  lemma {:induction false} OpenCircuitHolds(c: Config, es: seq<Event>, n: nat, peer: PeerKey, instance: nat, since: nat)
    requires c.recoveryWindow > 0 && n <= |es| && Run(c, es).Some? && Run(c, es[..n]).Some?
    requires OpenSince(Run(c, es[..n]).value, peer, instance, since)
    requires forall k :: n <= k < |es| ==> SampledBefore(es[k], peer, since + c.recoveryWindow)
    ensures OpenSince(Run(c, es).value, peer, instance, since)
    ensures TicketsOf(Run(c, es).value, peer) <= TicketsOf(Run(c, es[..n]).value, peer)
    decreases |es|
  {
    if n == |es| {
      assert es[..n] == es;
    } else {
      var p := es[..|es| - 1];
      assert p[..n] == es[..n];
      OpenCircuitHolds(c, p, n, peer, instance, since);
      OpenHoldsStep(c, Run(c, p).value, es[|es| - 1], peer, instance, since);
    }
  }

  // ---------------------------------------------------------------------------------------
  // Exactly which runs of a breaker a registry can give it
  // ---------------------------------------------------------------------------------------

  /** Some run leads to this registry and this chronicle. */
  ghost predicate Reached(c: Config, r: Registry, lives: map<nat, Life>) {
    exists es :: Run(c, es) == Some(r) && Chronicle(c, es) == lives
  }

  lemma ReachedOn(c: Config, r: Registry, lives: map<nat, Life>, e: Event)
    requires Reached(c, r, lives) && Enabled(r, e)
    ensures Reached(c, Step(c, r, e), Noted(r, lives, e))
  {
    var es :| Run(c, es) == Some(r) && Chronicle(c, es) == lives;
    assert (es + [e])[..|es|] == es;
    assert Run(c, es + [e]) == Some(Step(c, r, e));
    assert Chronicle(c, es + [e]) == Noted(r, lives, e);
  }

  /** A registry that has only ever known `peer`, whose breaker stands as `w` says. */
  function Only(peer: PeerKey, first: nat, w: R.World): Registry {
    Registry(map[peer := Slot(0, first, w.clock, w.breaker)], map id | id in w.held :: Ticket(peer, 0, w.held[id]), 1)
  }

  function Longer(life: Life, e: R.Event): Life {
    life.(events := life.events + [e])
  }

  lemma OnlyPlaces(peer: PeerKey, first: nat, w: R.World, id: nat, b: Breaker, clock: nat, issued: Option<R.Issued>)
    ensures Place(Only(peer, first, w), id, peer, b, clock, issued)
            == Only(peer, first, R.World(b, if issued.Some? then w.held[id := issued.value] else w.held, clock))
  {
    var r' := Only(peer, first, R.World(b, if issued.Some? then w.held[id := issued.value] else w.held, clock));
    assert Place(Only(peer, first, w), id, peer, b, clock, issued).slots == r'.slots;
    assert Place(Only(peer, first, w), id, peer, b, clock, issued).tickets == r'.tickets;
  }

  lemma OnlyGives(peer: PeerKey, first: nat, w: R.World, id: nat, now: nat, update: Breaker -> Breaker)
    requires id in w.held
    ensures Return(Only(peer, first, w), id, now, update)
            == Only(peer, first, R.World(update(w.breaker), w.held - {id}, Max(w.clock, now)))
  {
    var r' := Only(peer, first, R.World(update(w.breaker), w.held - {id}, Max(w.clock, now)));
    assert Return(Only(peer, first, w), id, now, update).slots == r'.slots;
    assert Return(Only(peer, first, w), id, now, update).tickets == r'.tickets;
  }

  lemma OnlyEnters(peer: PeerKey, first: nat, w: R.World, life: Life, e: R.Event)
    ensures Entered(Only(peer, first, w), map[0 := life], peer, e) == map[0 := Longer(life, e)]
  {
  }

  lemma OnlyAcquires(c: Config, peer: PeerKey, first: nat, w: R.World, life: Life, id: nat, now: nat)
    requires Reached(c, Only(peer, first, w), map[0 := life]) && R.Enabled(w, R.Acquire(id, now)) && first <= now
    ensures Reached(c, Only(peer, first, R.Step(c, w, R.Acquire(id, now))), map[0 := Longer(life, R.Acquire(id, now))])
  {
    assert Held(Only(peer, first, w), 0) == w.held;
    ReachedOn(c, Only(peer, first, w), map[0 := life], AcquireExisting(id, peer, now));
    OnlyEnters(peer, first, w, life, R.Acquire(id, now));
    var ((b, check), clock) := (TryAcquire(c, w.breaker, now), Max(w.clock, now));
    OnlyPlaces(peer, first, w, id, b, clock, IssuedFor(check, clock));
  }

  lemma OnlyReturns(c: Config, peer: PeerKey, first: nat, w: R.World, life: Life, e: R.Event)
    requires Reached(c, Only(peer, first, w), map[0 := life]) && R.Enabled(w, e) && !e.Acquire?
    ensures Reached(c, Only(peer, first, R.Step(c, w, e)), map[0 := Longer(life, e)])
  {
    var token := Token(w.held[e.id].generation);
    OnlyEnters(peer, first, w, life, e);
    match e
    case Succeed(id, now) =>
      ReachedOn(c, Only(peer, first, w), map[0 := life], Succeed(id, now));
      OnlyGives(peer, first, w, id, now, b => RecordSuccess(b, token, now));
    case Fail(id, now) =>
      ReachedOn(c, Only(peer, first, w), map[0 := life], Fail(id, now));
      OnlyGives(peer, first, w, id, now, b => RecordFailure(c, b, token, now));
    case Free(id) =>
      ReachedOn(c, Only(peer, first, w), map[0 := life], Free(id));
      OnlyGives(peer, first, w, id, 0, b => Release(b));
  }

  /** Where a new breaker stands after the acquisition that inserted it. */
  function FirstWorld(c: Config, born: nat, id: nat, now: nat): R.World {
    R.World(TryAcquire(c, New(born), now).0, map[id := R.Issued(0, Max(born, now))], Max(born, now))
  }

  lemma OnlyInserts(c: Config, peer: PeerKey, born: nat, id: nat, now: nat)
    ensures Acquire(c, Insert(Registry(map[], map[], 0), peer, born, now), id, peer, now)
            == Only(peer, now, FirstWorld(c, born, id, now))
  {
    var w, clock := R.World(New(born), map[], born), Max(born, now);
    assert Insert(Registry(map[], map[], 0), peer, born, now) == Only(peer, now, w);
    OnlyPlaces(peer, now, w, id, TryAcquire(c, New(born), now).0, clock, Some(R.Issued(0, clock)));
  }

  lemma OnlyBegins(c: Config, peer: PeerKey, born: nat, id: nat, now: nat)
    requires born <= now
    ensures Reached(c, Only(peer, now, FirstWorld(c, born, id, now)), map[0 := Life(born, [R.Acquire(id, now)])])
  {
    var empty, e, w := Registry(map[], map[], 0), AcquireOrInsert(id, peer, born, now), R.World(New(born), map[], born);
    assert Run(c, []) == Some(empty) && Chronicle(c, []) == map[];
    ReachedOn(c, empty, map[], e);
    OnlyInserts(c, peer, born, id, now);
    assert Begun(empty, map[], peer, born) == map[0 := Life(born, [])];
    assert Insert(empty, peer, born, now) == Only(peer, now, w);
    OnlyEnters(peer, now, w, Life(born, []), R.Acquire(id, now));
    assert [] + [R.Acquire(id, now)] == [R.Acquire(id, now)];
  }

  lemma FirstEvent(c: Config, born: nat, id: nat, now: nat)
    ensures Alone(c, Life(born, [R.Acquire(id, now)])) == Some(FirstWorld(c, born, id, now))
  {
    assert [R.Acquire(id, now)] == [] + [R.Acquire(id, now)];
    R.RunSnoc(c, born, [], R.Acquire(id, now));
  }

  /** An orderly run of more than one event, without its last. */
  lemma Shorter(c: Config, life: Life) returns (p: Life, e: R.Event)
    requires Alone(c, life).Some? && Orderly(life) && |life.events| > 1
    ensures |p.events| == |life.events| - 1 && Longer(p, e) == life
    ensures Orderly(p) && p.events[0] == life.events[0] && (e.Acquire? ==> p.events[0].now <= e.now)
    ensures Alone(c, p).Some? && R.Enabled(Alone(c, p).value, e) && Alone(c, life) == Some(R.Step(c, Alone(c, p).value, e))
  {
    var n := |life.events| - 1;
    p, e := Life(life.born, life.events[..n]), life.events[n];
  }

  /** Every orderly run of a lone breaker is the life of an instance, alone in a registry. */
  lemma {:induction false} OrderlyRunsAreLives(c: Config, peer: PeerKey, life: Life)
    requires Alone(c, life).Some? && Orderly(life)
    ensures Reached(c, Only(peer, life.events[0].now, Alone(c, life).value), map[0 := life])
    decreases |life.events|
  {
    if |life.events| == 1 {
      var e := life.events[0];
      assert life == Life(life.born, [e]);
      FirstEvent(c, life.born, e.id, e.now);
      OnlyBegins(c, peer, life.born, e.id, e.now);
    } else {
      var p, e := Shorter(c, life);
      OrderlyRunsAreLives(c, peer, p);
      if e.Acquire? {
        OnlyAcquires(c, peer, p.events[0].now, Alone(c, p).value, p, e.id, e.now);
      } else {
        OnlyReturns(c, peer, p.events[0].now, Alone(c, p).value, p, e);
      }
    }
  }

  ghost predicate IsLife(c: Config, es: seq<Event>, n: nat, life: Life) {
    Run(c, es).Some? && n in Chronicle(c, es) && Chronicle(c, es)[n] == life
  }

  /** The lives a registry can give its instances are exactly the runs of a lone breaker that begin with
      an acquisition, sampled no earlier than the birth, before which no other acquisition is sampled. */
  lemma {:induction false} LivesAreTheOrderlyRuns(c: Config, life: Life)
    ensures (exists es, n: nat :: IsLife(c, es, n, life))
            <==> R.Run(c, life.born, life.events).Some? && Orderly(life)
  {
    if es, n: nat :| IsLife(c, es, n, life) {
      InstancesRunAlone(c, es);
      assert Chronicle(c, es)[n] == life;
    }
    if Alone(c, life).Some? && Orderly(life) {
      var peer := PeerKey("", "");
      OrderlyRunsAreLives(c, peer, life);
      var es :| Run(c, es) == Some(Only(peer, life.events[0].now, Alone(c, life).value)) && Chronicle(c, es) == map[0 := life];
      assert IsLife(c, es, 0, life);
    }
  }

  // ---------------------------------------------------------------------------------------
  // Without a recovery window an open circuit does not hold
  // ---------------------------------------------------------------------------------------

  ghost predicate Reachable(c: Config, r: Registry) {
    exists lives :: Reached(c, r, lives)
  }

  /** From every reachable registry in which the peer's breaker is open, one more step, sampled inside
      its window if it is on that peer, leaves the breaker open and issues no token for the peer. */
  ghost predicate OpenAlwaysHolds(c: Config) {
    forall r, e, peer, instance: nat, since: nat ::
      Reachable(c, r) && Enabled(r, e) && OpenSince(r, peer, instance, since)
      && SampledBefore(e, peer, since + c.recoveryWindow) ==>
        OpenSince(Step(c, r, e), peer, instance, since) && TicketsOf(Step(c, r, e), peer) <= TicketsOf(r, peer)
  }

  /** All samples of the tripping run are 0 or 1, its acquisitions' all 0. */
  lemma {:induction false} FailuresAreEarly(n: nat)
    ensures |R.Failures(n)| == 2 * n
    ensures forall k :: 0 <= k < 2 * n ==> R.Failures(n)[k] == if k % 2 == 0 then R.Acquire(0, 0) else R.Fail(0, 1)
  {
    if n == 0 {
    } else {
      FailuresAreEarly(n - 1);
    }
  }

  lemma TrippedAlone(c: Config, peer: PeerKey) returns (w: R.World)
    ensures Reached(c, Only(peer, 0, w), map[0 := Life(0, R.Failures(R.Streak(c)))])
    ensures R.Tripping(c, R.Streak(c), w, R.Recovering(1, []))
  {
    var life := Life(0, R.Failures(R.Streak(c)));
    R.FailuresTrip(c, R.Streak(c));
    FailuresAreEarly(R.Streak(c));
    w := Alone(c, life).value;
    OrderlyRunsAreLives(c, peer, life);
  }

  /** An open circuit holds exactly when the recovery window is positive: with none, a request whose
      clock was read before the trip is admitted after it. */
  lemma {:induction false} OpenHoldsExactlyWithAWindow(c: Config)
    ensures OpenAlwaysHolds(c) <==> c.recoveryWindow > 0
  {
    if c.recoveryWindow > 0 {
      forall r, e, peer, instance: nat, since: nat
        | Reachable(c, r) && Enabled(r, e) && OpenSince(r, peer, instance, since)
          && SampledBefore(e, peer, since + c.recoveryWindow)
        ensures OpenSince(Step(c, r, e), peer, instance, since) && TicketsOf(Step(c, r, e), peer) <= TicketsOf(r, peer)
      {
        OpenHoldsStep(c, r, e, peer, instance, since);
      }
    } else {
      var peer, late := PeerKey("", ""), AcquireExisting(0, PeerKey("", ""), 0);
      var w := TrippedAlone(c, peer);
      var r := Only(peer, 0, w);
      assert Held(r, 0) == map[];
      assert OpenSince(r, peer, 0, 1) && Enabled(r, late) && SampledBefore(late, peer, 1 + c.recoveryWindow);
      assert !OpenSince(Step(c, r, late), peer, 0, 1);
    }
  }

  // ---------------------------------------------------------------------------------------
  // What an eviction changes for the next request
  // ---------------------------------------------------------------------------------------

  predicate ProbingAt(c: Config, b: Breaker, now: nat) {
    b.inner.state == HalfOpen && b.inner.halfOpenedAt.Some? && DurationSince(now, b.inner.halfOpenedAt.value) < c.halfOpenTimeout
  }

  lemma IdleDecision(c: Config, w: R.World, idleThreshold: nat, now: nat, u: nat)
    requires R.Inv(c, w) && IsIdle(c, w.breaker, idleThreshold, now) && now <= u
    ensures TryAcquire(c, w.breaker, u).1.Allowed? <==> !ProbingAt(c, w.breaker, u)
  {
  }

  lemma EvictedWasIdle(c: Config, r: Registry, peer: PeerKey, idleThreshold: nat, now: nat)
    requires peer in r.slots && Enabled(r, RemoveIfIdle(peer, idleThreshold, now))
    requires peer !in Step(c, r, RemoveIfIdle(peer, idleThreshold, now)).slots
    ensures IsIdle(c, r.slots[peer].breaker, idleThreshold, now)
  {
  }

  /** The recreated breaker admits every first request. An evicted breaker would have admitted it too,
      at any time from the eviction on, exactly when it is not HalfOpen inside its probe timeout. */
  lemma {:induction false} EvictionKeepsTheDecisionExactly(c: Config, es: seq<Event>, peer: PeerKey, idleThreshold: nat,
                                                           now: nat, u: nat, born: nat)
    requires Run(c, es).Some? && peer in Run(c, es).value.slots && now <= u
    requires Enabled(Run(c, es).value, RemoveIfIdle(peer, idleThreshold, now))
    requires peer !in Step(c, Run(c, es).value, RemoveIfIdle(peer, idleThreshold, now)).slots
    ensures TryAcquire(c, New(born), u).1.Allowed?
    ensures var b := Run(c, es).value.slots[peer].breaker; TryAcquire(c, b, u).1.Allowed? <==> !ProbingAt(c, b, u)
  {
    StandingFacts(c, es, peer);
    EvictedWasIdle(c, Run(c, es).value, peer, idleThreshold, now);
    IdleDecision(c, InstanceWorld(Run(c, es).value, peer), idleThreshold, now, u);
  }

  /** Sweeps with this idle threshold never evict a breaker that would have turned the next request away. */
  ghost predicate EvictionIsHarmless(c: Config, idleThreshold: nat) {
    forall r, peer, now: nat ::
      Reachable(c, r) && Enabled(r, RemoveIfIdle(peer, idleThreshold, now)) && peer in r.slots
      && IsIdle(c, r.slots[peer].breaker, idleThreshold, now) ==>
        TryAcquire(c, r.slots[peer].breaker, now).1.Allowed?
  }

  /** The breaker trips, is probed at `t`, turns away a late request with an old clock sample, and has
      the probe released without an outcome: it looks idle since that old sample while it probes. */
  function AbandonedProbe(c: Config, t: nat): Life {
    Life(0, R.ProbedAt(c, t) + [R.Acquire(1, 0)] + [R.Free(0)])
  }

  lemma {:induction false} AbandonedProbeRuns(c: Config, t: nat)
    requires c.halfOpenTimeout > 0 && DurationSince(t, 1) >= c.recoveryWindow
    ensures Alone(c, AbandonedProbe(c, t)).Some?
    ensures Alone(c, AbandonedProbe(c, t)).value.clock <= Max(1, t)
    ensures var i := Alone(c, AbandonedProbe(c, t)).value.breaker.inner;
            i.inFlight == 0 && i.state == HalfOpen && i.halfOpenedAt == Some(t) && i.lastActivity == 0
  {
    var es := R.ProbedAt(c, t);
    R.ProbedAtIs(c, t);
    var probing := R.Run(c, 0, es).value;
    R.RunSnoc(c, 0, es, R.Acquire(1, 0));
    var late := R.Step(c, probing, R.Acquire(1, 0));
    assert late.held == probing.held;
    R.RunSnoc(c, 0, es + [R.Acquire(1, 0)], R.Free(0));
  }

  lemma AbandonedProbeIsOrderly(c: Config, t: nat)
    requires t >= 1
    ensures Orderly(AbandonedProbe(c, t))
    ensures AbandonedProbe(c, t).events[0].now == 0
  {
    FailuresAreEarly(R.Streak(c));
  }

  lemma ProbingLooksIdle(c: Config, idleThreshold: nat)
    requires c.halfOpenTimeout > 0
    ensures !EvictionIsHarmless(c, idleThreshold)
  {
    var peer, t := PeerKey("", ""), 1 + c.recoveryWindow + idleThreshold;
    var life := AbandonedProbe(c, t);
    AbandonedProbeRuns(c, t);
    AbandonedProbeIsOrderly(c, t);
    OrderlyRunsAreLives(c, peer, life);
    var r, b := Only(peer, 0, Alone(c, life).value), Alone(c, life).value.breaker;
    assert Reachable(c, r) && Enabled(r, RemoveIfIdle(peer, idleThreshold, t)) && r.slots[peer].breaker == b;
    assert IsIdle(c, b, idleThreshold, t) && !TryAcquire(c, b, t).1.Allowed?;
  }

  /** Whatever the idle threshold, eviction never changes the next decision exactly when probes have
      no timeout to wait for. */
  lemma {:induction false} EvictionIsHarmlessExactlyWithoutATimeout(c: Config, idleThreshold: nat)
    ensures EvictionIsHarmless(c, idleThreshold) <==> c.halfOpenTimeout == 0
  {
    if c.halfOpenTimeout > 0 {
      ProbingLooksIdle(c, idleThreshold);
    } else {
      forall r, peer, now: nat
        | Reachable(c, r) && Enabled(r, RemoveIfIdle(peer, idleThreshold, now)) && peer in r.slots
          && IsIdle(c, r.slots[peer].breaker, idleThreshold, now)
        ensures TryAcquire(c, r.slots[peer].breaker, now).1.Allowed?
      {
        var lives :| Reached(c, r, lives);
        var es :| Run(c, es) == Some(r) && Chronicle(c, es) == lives;
        StandingFacts(c, es, peer);
        IdleDecision(c, InstanceWorld(r, peer), idleThreshold, now, now);
      }
    }
  }

  // ---------------------------------------------------------------------------------------
  // The breakers alone, without instances and tickets
  // ---------------------------------------------------------------------------------------

  function Breakers(r: Registry): map<PeerKey, Breaker> {
    map p | p in r.slots :: r.slots[p].breaker
  }

  /** What one call does to the peers' breakers. */
  function Acquired(c: Config, m: map<PeerKey, Breaker>, peer: PeerKey, born: nat, now: nat): (map<PeerKey, Breaker>, Check) {
    var (b, check) := TryAcquire(c, if peer in m then m[peer] else New(born), now);
    (m[peer := b], check)
  }

  function Updated(m: map<PeerKey, Breaker>, peer: PeerKey, update: Breaker -> Breaker): map<PeerKey, Breaker> {
    if peer in m then m[peer := update(m[peer])] else m
  }

  function Removed(c: Config, m: map<PeerKey, Breaker>, peer: PeerKey, idleThreshold: nat, now: nat): map<PeerKey, Breaker> {
    if peer in m && IsIdle(c, m[peer], idleThreshold, now) then m - {peer} else m
  }

  /** A step of a run does to the breakers what the call it stands for does, hands out a token exactly
      when that call does, and presents the token that was issued. */
  lemma StepsAreCalls(c: Config, r: Registry, e: Event)
    requires Enabled(r, e)
    ensures var m, r' := Breakers(r), Step(c, r, e);
      match e
      case AcquireExisting(id, peer, now) =>
        && Breakers(r') == Acquired(c, m, peer, 0, now).0
        && (id in r'.tickets <==> Acquired(c, m, peer, 0, now).1.Allowed?)
        && (id in r'.tickets ==> Acquired(c, m, peer, 0, now).1 == Allowed(Token(r'.tickets[id].issued.generation)))
      case AcquireOrInsert(id, peer, born, now) =>
        && Breakers(r') == Acquired(c, m, peer, born, now).0
        && (id in r'.tickets <==> Acquired(c, m, peer, born, now).1.Allowed?)
        && (id in r'.tickets ==> Acquired(c, m, peer, born, now).1 == Allowed(Token(r'.tickets[id].issued.generation)))
      case Succeed(id, now) =>
        Breakers(r') == Updated(m, r.tickets[id].peer, b => RecordSuccess(b, Token(r.tickets[id].issued.generation), now))
      case Fail(id, now) =>
        Breakers(r') == Updated(m, r.tickets[id].peer, b => RecordFailure(c, b, Token(r.tickets[id].issued.generation), now))
      case Free(id) => Breakers(r') == Updated(m, r.tickets[id].peer, b => Release(b))
      case RemoveIfIdle(peer, idleThreshold, now) => Breakers(r') == Removed(c, m, peer, idleThreshold, now)
  {
  }
}

/** The registry as an object over breaker objects. */
module CircuitRegistry {
  import opened CircuitModel
  import opened Circuit
  import opened CircuitRegistryRuns

  class CircuitBreakerRegistry {
    const config: Config
    var breakers: map<PeerKey, CircuitBreaker>

    ghost predicate Valid()
      reads this
    {
      && (forall p :: p in breakers ==> breakers[p].config == config)
      && (forall p, q :: p in breakers && q in breakers && breakers[p] == breakers[q] ==> p == q)
    }

    ghost function Contents(): map<PeerKey, Breaker>
      reads this, breakers.Values
    {
      map p | p in breakers :: breakers[p].View()
    }

    constructor (config: Config)
      ensures Valid() && this.config == config && Contents() == map[]
    {
      this.config := config;
      breakers := map[];
    }

    method Precheck(peer: PeerKey, now: nat) returns (likely: bool)
      requires Valid()
      ensures likely == (peer !in Contents() || CircuitModel.Precheck(config, Contents()[peer], now))
    {
      likely := true;
      if peer in breakers {
        likely := breakers[peer].Peek(now);
      }
    }

    method TryAcquire(peer: PeerKey, born: nat, now: nat) returns (check: Check)
      requires Valid()
      modifies this, breakers.Values
      ensures Valid() && fresh(breakers.Values - old(breakers.Values))
      ensures forall p :: p in old(breakers) ==> p in breakers && breakers[p] == old(breakers[p])
      ensures Contents() == Acquired(config, old(Contents()), peer, born, now).0
      ensures check == Acquired(config, old(Contents()), peer, born, now).1
    {
      if peer !in breakers {
        var b := new CircuitBreaker(config, born);
        breakers := breakers[peer := b];
      }
      check := breakers[peer].Acquire(now);
    }

    method RecordSuccess(peer: PeerKey, token: Token, now: nat)
      requires Valid()
      modifies breakers.Values
      ensures Valid()
      ensures Contents() == Updated(old(Contents()), peer, b => CircuitModel.RecordSuccess(b, token, now))
    {
      if peer in breakers {
        breakers[peer].Succeed(token, now);
      }
    }

    method RecordFailure(peer: PeerKey, token: Token, now: nat)
      requires Valid()
      modifies breakers.Values
      ensures Valid()
      ensures Contents() == Updated(old(Contents()), peer, b => CircuitModel.RecordFailure(config, b, token, now))
    {
      if peer in breakers {
        breakers[peer].Fail(token, now);
      }
    }

    method Release(peer: PeerKey, token: Token)
      requires Valid()
      modifies breakers.Values
      ensures Valid()
      ensures Contents() == Updated(old(Contents()), peer, b => CircuitModel.Release(b))
    {
      if peer in breakers {
        breakers[peer].Free(token);
      }
    }

    ghost function IdlePeers(at: PeerKey -> nat, idleThreshold: nat): set<PeerKey>
      reads this, breakers.Values
    {
      set p | p in breakers && IsIdle(config, breakers[p].View(), idleThreshold, at(p))
    }

    /** The first phase of a sweep: the peers that look idle, each at the time it was looked at. */
    method Scan(idleThreshold: nat, at: PeerKey -> nat) returns (candidates: set<PeerKey>)
      requires Valid()
      ensures candidates == IdlePeers(at, idleThreshold)
    {
      candidates := {};
      var rest := breakers.Keys;
      while rest != {}
        invariant rest <= breakers.Keys
        invariant candidates == IdlePeers(at, idleThreshold) - rest
      {
        var p :| p in rest;
        var idle := breakers[p].Idle(idleThreshold, at(p));
        if idle {
          candidates := candidates + {p};
        }
        rest := rest - {p};
      }
    }

    /** `remove_if`: the predicate is evaluated under the lock that guards the removal. */
    method RemoveIf(peer: PeerKey, idleThreshold: nat, now: nat) returns (gone: bool)
      requires Valid()
      modifies this
      ensures Valid()
      ensures gone == (peer in old(breakers) && IsIdle(config, old(breakers[peer].View()), idleThreshold, now))
      ensures breakers == if gone then old(breakers) - {peer} else old(breakers)
      ensures Contents() == Removed(config, old(Contents()), peer, idleThreshold, now)
    {
      gone := false;
      if peer in breakers {
        gone := breakers[peer].Idle(idleThreshold, now);
      }
      if gone {
        breakers := breakers - {peer};
      }
    }

    /** The second phase: re-check and remove each candidate, counting the removals. */
    method Sweep(candidates: set<PeerKey>, idleThreshold: nat, at: PeerKey -> nat, ghost idle: set<PeerKey>)
      returns (removed: nat)
      requires Valid()
      requires forall p :: p in idle <==> p in breakers && IsIdle(config, breakers[p].View(), idleThreshold, at(p))
      modifies this
      ensures Valid()
      ensures forall p :: p in breakers <==> p in old(breakers) && p !in candidates * idle
      ensures forall p :: p in breakers ==> breakers[p] == old(breakers)[p]
      ensures removed == |candidates * idle|
    {
      removed := 0;
      var todo := candidates;
      ghost var gone := {};
      while todo != {}
        invariant todo <= candidates && Valid()
        invariant forall p :: p in gone <==> p in candidates && p !in todo && p in idle
        invariant forall p :: p in breakers <==> p in old(breakers) && p !in gone
        invariant forall p :: p in breakers ==> breakers[p] == old(breakers)[p]
        invariant removed == |gone|
      {
        var p :| p in todo;
        var wasIdle := RemoveIf(p, idleThreshold, at(p));
        if wasIdle {
          removed := removed + 1;
          gone := gone + {p};
        }
        todo := todo - {p};
      }
      assert gone == candidates * idle;
    }

    /** A sweep evicts exactly the peers that are idle at the scan and still idle when they are
        re-checked, and returns how many it removed. Each check reads the clock anew. */
    method EvictIdle(idleThreshold: nat, scanAt: PeerKey -> nat, removeAt: PeerKey -> nat) returns (removed: nat)
      requires Valid()
      modifies this
      ensures Valid()
      ensures var gone := old(IdlePeers(scanAt, idleThreshold) * IdlePeers(removeAt, idleThreshold));
              removed == |gone| && forall p :: p in breakers <==> p in old(breakers) && p !in gone
      ensures forall p :: p in breakers ==> breakers[p] == old(breakers)[p]
    {
      var candidates := Scan(idleThreshold, scanAt);
      removed := Sweep(candidates, idleThreshold, removeAt, IdlePeers(removeAt, idleThreshold));
    }
  }
}
