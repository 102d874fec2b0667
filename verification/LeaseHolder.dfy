/**
 What a lease is good for. The backend's calls told entry by entry, and the service law that goes
 with them: an instance that keeps asking at intervals shorter than the lease time, and is heard,
 is answered yes every time and leads on, and nobody else is granted anything meanwhile.
 */
module LeaseHolder {
  import opened Lease

  // ---- The backend, entry by entry -----------------------------------------------------

  /** The lease on `key` has an owner and has not run out. */
  predicate Held(store: Store, key: Key, now: Time) {
    key in store && now < store[key].expires
  }

  /** All other leases stay as they are, those that have run out being dropped. */
  ghost predicate OthersLive(store: Store, store': Store, key: Key, now: Time) {
    forall k | k != key :: (k in store' <==> Held(store, k, now)) && (k in store' ==> store'[k] == store[k])
  }

  /** A renewal succeeds exactly for the owner of a live lease, and then moves its expiry to the lease
      time from now; refused, it leaves a live lease to its owner. */
  lemma RenewExact(store: Store, key: Key, token: Token, ttl: Time, now: Time)
    ensures var (store', ok) := Renew(store, key, token, ttl, now);
            && (ok <==> Held(store, key, now) && store[key].owner == token)
            && (ok ==> key in store' && store'[key] == Entry(token, now + ttl))
            && (!ok ==> (key in store' <==> Held(store, key, now)) && (key in store' ==> store'[key] == store[key]))
            && OthersLive(store, store', key, now)
  {}

  /** An acquisition succeeds exactly when nobody holds the lease, and then runs for the lease time. */
  lemma AcquireExact(store: Store, key: Key, token: Token, ttl: Time, now: Time)
    ensures var (store', ok) := TryAcquire(store, key, token, ttl, now);
            && (ok <==> !Held(store, key, now))
            && key in store' && store'[key] == (if ok then Entry(token, now + ttl) else store[key])
            && OthersLive(store, store', key, now)
  {}

  /** The owner, and nobody else, can give a lease up. */
  lemma ReleaseExact(store: Store, key: Key, token: Token)
    ensures var store' := Release(store, key, token);
            && (key in store' <==> key in store && store[key].owner != token)
            && (forall k | k in store' :: k in store && store'[k] == store[k])
            && (forall k | k in store && k != key :: k in store')
  {}

  // ---- Staying leader ------------------------------------------------------------------

  /** The instance has the lease as far as it knows, or is about to be told so. */
  predicate Believes(x: Instance) {
    match x.phase
    case Acquiring => false
    case Waiting(call, ok, _) => ok && (call != ForAcquire ==> x.holdLease)
    case _ => x.holdLease
  }

  /** The lease is the instance's until `expires`, and it believes so. */
  predicate Leading(s: System, i: Token, expires: Time) {
    && i < |s.instances| && Believes(s.instances[i])
    && KEY in s.store && s.store[KEY] == Entry(i, expires)
  }

  /** The instance's own calls get through, and it does not give the lease up. */
  predicate GetsThrough(step: Step, i: Token) {
    && (step.Request? && step.i == i ==> step.reached)
    && (step.Reply? && step.i == i ==> step.heard)
    && (step.ReleaseCall? ==> step.i != i)
  }

  predicate Asks(step: Step, i: Token) {
    step.Request? && step.i == i
  }

  /** What a step from `s` to `s'` does for the leading instance: its request is answered yes, and if
      it is one of its tick's it is granted; nothing else is granted to anyone; its ticks renew, and
      on hearing of a grant it leads. */
  predicate Served(s: System, step: Step, s': System, i: Token) {
    && i < |s.instances| == |s'.instances|
    && (Asks(step, i) ==> s'.instances[i].phase.Waiting? && s'.instances[i].phase.ok)
    && s'.grants == (if Asks(step, i) && s.instances[i].phase == Renewing then s.grants + [Grant(i, s.now)] else s.grants)
    && (step == Tick(i) ==> s'.instances[i].phase == Renewing)
    && (step == RenewTick(i) ==> s'.instances[i].phase == Refreshing)
    && (step == Reply(i, true) && s.instances[i].phase.Waiting? && s.instances[i].phase.call != ForRefresh ==>
        s'.instances[i].phase.Bursting? && s'.decisions == s.decisions + [Decision(i, s.instances[i].phase.at, s.now)])
  }

  /** One step of anybody. */
  lemma StepLeads(s: System, ttl: Time, step: Step, i: Token, expires: Time)
    requires Enabled(s, step) && Leading(s, i, expires) && s.now < expires && GetsThrough(step, i)
    ensures Leading(Next(s, ttl, step), i, if Asks(step, i) then s.now + ttl else expires)
    ensures Served(s, step, Next(s, ttl, step), i)
  {
    hide Renew, TryAcquire, Release;
    match step
    case Wait(_) =>
    case Tick(_) =>
    case Request(j, _) => RequestLeads(s, ttl, step, i, expires);
    case Reply(_, _) =>
    case SubmitMarket(_) =>
    case EndBurst(_) =>
    case RenewTick(_) =>
    case ReleaseCall(j) => ReleaseExact(s.store, KEY, j);
  }

  lemma RequestLeads(s: System, ttl: Time, step: Step, i: Token, expires: Time)
    requires Enabled(s, step) && step.Request? && Leading(s, i, expires) && s.now < expires && GetsThrough(step, i)
    ensures Leading(Next(s, ttl, step), i, if Asks(step, i) then s.now + ttl else expires)
    ensures Served(s, step, Next(s, ttl, step), i)
  {
    hide Renew, TryAcquire;
    RenewExact(s.store, KEY, step.i, ttl, s.now);
    AcquireExact(s.store, KEY, step.i, ttl, s.now);
  }

  /** When the instance last asked the backend, up to step `k`. */
  ghost function LastAsked(trace: seq<Step>, states: seq<System>, i: Token, k: nat): Time
    requires k <= |trace| < |states|
  {
    if k == 0 then 0
    else if Asks(trace[k - 1], i) then states[k - 1].now
    else LastAsked(trace, states, i, k - 1)
  }

  /** The step leading to `s'` is a request of the instance that is answered yes. */
  predicate Obtains(step: Step, s': System, i: Token) {
    Asks(step, i) && i < |s'.instances| && s'.instances[i].phase.Waiting? && Believes(s'.instances[i])
  }

  /** From step `a` to step `b` the instance gets through, and asks again within the lease time. */
  ghost predicate Prompt(trace: seq<Step>, states: seq<System>, ttl: Time, i: Token, a: nat, b: nat)
    requires b <= |trace| < |states|
  {
    forall k | a <= k < b :: GetsThrough(trace[k], i) && states[k].now < LastAsked(trace, states, i, k) + ttl
  }

  /** Every grant of `after` that is not in `before` is the instance's. */
  predicate OnlyTo(before: seq<Grant>, after: seq<Grant>, i: Token) {
    |before| <= |after| && after[..|before|] == before && forall k | |before| <= k < |after| :: after[k].who == i
  }

  lemma RunStep(n: nat, ttl: Time, trace: seq<Step>, states: seq<System>, k: nat)
    requires IsRun(n, ttl, trace, states) && k < |trace|
    ensures |states| == |trace| + 1 && Enabled(states[k], trace[k]) && states[k + 1] == Next(states[k], ttl, trace[k])
  {
    hide Enabled, Next, Start;
  }

  /** Main result: from a grant on, for as long as it gets through and asks again within the lease
      time, an instance holds the lease, whatever all the others do, and every grant is its own. */
  lemma {:induction false} LeaderStays(n: nat, ttl: Time, trace: seq<Step>, states: seq<System>, i: Token, a: nat, b: nat)
    requires IsRun(n, ttl, trace, states) && 0 < a <= b <= |trace|
    requires Obtains(trace[a - 1], states[a], i) && Prompt(trace, states, ttl, i, a, b)
    ensures Leading(states[b], i, LastAsked(trace, states, i, b) + ttl)
    ensures OnlyTo(states[a].grants, states[b].grants, i)
    decreases b
  {
    hide Next, Enabled, Believes, IsRun, Leading, OnlyTo;
    if a == b {
      RunStep(n, ttl, trace, states, a - 1);
      GrantLeads(states[a - 1], ttl, trace[a - 1], i);
      NoMore(states[a].grants, i);
    } else {
      LeaderStays(n, ttl, trace, states, i, a, b - 1);
      RunStep(n, ttl, trace, states, b - 1);
      StepLeads(states[b - 1], ttl, trace[b - 1], i, LastAsked(trace, states, i, b - 1) + ttl);
      OneMore(states[a].grants, states[b - 1].grants, Grant(i, states[b - 1].now), i);
    }
  }

  lemma NoMore(gs: seq<Grant>, i: Token)
    ensures OnlyTo(gs, gs, i)
  {}

  lemma OneMore(before: seq<Grant>, after: seq<Grant>, g: Grant, i: Token)
    requires OnlyTo(before, after, i) && g.who == i
    ensures OnlyTo(before, after + [g], i)
  {}

  /** A request answered yes makes the instance the holder from then on. */
  lemma GrantLeads(s: System, ttl: Time, step: Step, i: Token)
    requires Enabled(s, step) && Obtains(step, Next(s, ttl, step), i)
    ensures Leading(Next(s, ttl, step), i, s.now + ttl)
  {
    hide Renew, TryAcquire;
    RenewExact(s.store, KEY, i, ttl, s.now);
    AcquireExact(s.store, KEY, i, ttl, s.now);
  }

  /** And so, at every step on the way, the instance is served: each of its ticks renews, is granted
      and leads, and nobody else is granted anything. */
  lemma EveryTickGranted(n: nat, ttl: Time, trace: seq<Step>, states: seq<System>, i: Token, a: nat, b: nat, k: nat)
    requires IsRun(n, ttl, trace, states) && 0 < a <= k < b <= |trace|
    requires Obtains(trace[a - 1], states[a], i) && Prompt(trace, states, ttl, i, a, b)
    ensures Served(states[k], trace[k], states[k + 1], i)
  {
    hide Next, Enabled, Believes, IsRun, Leading, OnlyTo, Served, GetsThrough;
    LeaderStays(n, ttl, trace, states, i, a, k);
    RunStep(n, ttl, trace, states, k);
    StepLeads(states[k], ttl, trace[k], i, LastAsked(trace, states, i, k) + ttl);
  }

  /** An instance that is refused, or does not hear, does not lead: after a renewal it tries to acquire,
      after anything else it takes itself to be without the lease. */
  lemma RefusedDoesNotLead(s: System, ttl: Time, i: Token, heard: bool)
    requires i < |s.instances| && s.instances[i].phase.Waiting? && !(s.instances[i].phase.ok && heard)
    ensures var s' := Next(s, ttl, Reply(i, heard));
            && s' == s.(instances := s'.instances) && |s'.instances| == |s.instances|
            && (s.instances[i].phase.call == ForRenew ==> s'.instances[i].phase == Acquiring)
            && (s.instances[i].phase.call != ForRenew ==> s'.instances[i] == Instance(false, Idle))
            && (forall j | 0 <= j < |s.instances| && j != i :: s'.instances[j] == s.instances[j])
  {}

  /** And a lease that has run out goes to the next instance that asks for it, whoever that is; one
      that has not goes to nobody else. */
  lemma TakenOverIff(s: System, ttl: Time, j: Token)
    requires j < |s.instances| && s.instances[j] == Instance(false, Idle)
    ensures var s' := Next(Next(s, ttl, Tick(j)), ttl, Request(j, true));
            if Held(s.store, KEY, s.now) then s'.grants == s.grants && KEY in s'.store && s'.store[KEY] == s.store[KEY]
            else s'.grants == s.grants + [Grant(j, s.now)] && KEY in s'.store && s'.store[KEY] == Entry(j, s.now + ttl)
  {
    hide TryAcquire;
    var s1 := Next(s, ttl, Tick(j));
    AcquireExact(s1.store, KEY, j, ttl, s1.now);
  }
}
