/**
 The leader lease: a set-if-absent key with an expiry, and the funding service loop that uses it,
 as a step system of any number of instances over one backend. Backend calls are atomic; each
 may fail before it reaches the backend, and its reply may come late or not at all.
 */
module Lease {

  type Time = nat
  type Token = nat
  type Key = string

  datatype Entry = Entry(owner: Token, expires: Time)

  type Store = map<Key, Entry>

  // ---- The backend ---------------------------------------------------------------------

  function Gc(store: Store, now: Time): Store {
    map k | k in store && store[k].expires > now :: store[k]
  }

  function TryAcquire(store: Store, key: Key, token: Token, ttl: Time, now: Time): (Store, bool) {
    var live := Gc(store, now);
    if key in live then (live, false) else (live[key := Entry(token, now + ttl)], true)
  }

  function Renew(store: Store, key: Key, token: Token, ttl: Time, now: Time): (Store, bool) {
    var live := Gc(store, now);
    if key in live && live[key].owner == token then (live[key := Entry(token, now + ttl)], true) else (live, false)
  }

  function Release(store: Store, key: Key, token: Token): Store {
    if key in store && store[key].owner == token then store - {key} else store
  }

  class MockBackend {
    var inner: Store

    constructor ()
      ensures inner == map[]
    {
      inner := map[];
    }

    method CollectExpired(now: Time)
      modifies this
      ensures inner == Gc(old(inner), now)
    {
      inner := map k | k in inner && inner[k].expires > now :: inner[k];
    }

    method Acquire(key: Key, token: Token, ttl: Time, now: Time) returns (ok: bool)
      modifies this
      ensures (inner, ok) == TryAcquire(old(inner), key, token, ttl, now)
    {
      CollectExpired(now);
      if key in inner {
        return false;
      }
      inner := inner[key := Entry(token, now + ttl)];
      return true;
    }

    method Extend(key: Key, token: Token, ttl: Time, now: Time) returns (ok: bool)
      modifies this
      ensures (inner, ok) == Renew(old(inner), key, token, ttl, now)
    {
      CollectExpired(now);
      if key in inner && inner[key].owner == token {
        inner := inner[key := Entry(token, now + ttl)];
        return true;
      }
      return false;
    }

    method Drop(key: Key, token: Token)
      modifies this
      ensures inner == Release(old(inner), key, token)
    {
      if key in inner && inner[key].owner == token {
        inner := inner - {key};
      }
    }
  }

  // ---- The service loop ----------------------------------------------------------------

  datatype Call = ForRenew | ForAcquire | ForRefresh

  /** Where an instance is in its loop. While it waits for a reply, `ok` is what the backend said and
      `at` when; a burst knows when its lease was granted and when the instance heard of it. */
  datatype Phase =
    | Idle
    | Renewing
    | Acquiring
    | Refreshing
    | Waiting(call: Call, ok: bool, at: Time)
    | Bursting(granted: Time, decided: Time)

  datatype Instance = Instance(holdLease: bool, phase: Phase)

  /** The backend grants a tick's call. */
  datatype Grant = Grant(who: Token, time: Time)

  /** The instance hears of a grant and leads. */
  datatype Decision = Decision(who: Token, granted: Time, time: Time)

  datatype Submission = Submission(who: Token, granted: Time, decided: Time, time: Time)

  /** Instance `i` uses token `i`. */
  datatype System = System(
    store: Store,
    instances: seq<Instance>,
    now: Time,
    grants: seq<Grant>,
    decisions: seq<Decision>,
    submissions: seq<Submission>)

  const KEY := "perplex:funding:leader"

  datatype Step =
    | Wait(dt: Time)
    | Tick(i: Token)
    | Request(i: Token, reached: bool)
    | Reply(i: Token, heard: bool)
    | SubmitMarket(i: Token)
    | EndBurst(i: Token)
    | RenewTick(i: Token)
    | ReleaseCall(i: Token)

  predicate Calling(phase: Phase) {
    phase == Renewing || phase == Acquiring || phase == Refreshing
  }

  predicate Enabled(s: System, step: Step) {
    match step
    case Wait(_) => true
    case Tick(i) => i < |s.instances| && s.instances[i].phase == Idle
    case Request(i, _) => i < |s.instances| && Calling(s.instances[i].phase)
    case Reply(i, _) => i < |s.instances| && s.instances[i].phase.Waiting?
    case SubmitMarket(i) => i < |s.instances| && s.instances[i].phase.Bursting?
    case EndBurst(i) => i < |s.instances| && s.instances[i].phase.Bursting?
    case RenewTick(i) => i < |s.instances| && s.instances[i].phase == Idle && s.instances[i].holdLease
    case ReleaseCall(i) => i < |s.instances| && s.instances[i].phase == Idle
  }

  function With(s: System, i: Token, hold: bool, phase: Phase): System
    requires i < |s.instances|
  {
    s.(instances := s.instances[i := Instance(hold, phase)])
  }

  /** The call has been made; a request that got lost counts as refused. */
  function Asked(s: System, i: Token, call: Call, reached: bool, r: (Store, bool)): System
    requires i < |s.instances|
  {
    var ok := reached && r.1;
    With(s, i, s.instances[i].holdLease, Waiting(call, ok, s.now))
      .(store := if reached then r.0 else s.store,
        grants := if ok && call != ForRefresh then s.grants + [Grant(i, s.now)] else s.grants)
  }

  /** The instance leads this tick: it may now submit for every market. */
  function Lead(s: System, i: Token, granted: Time): System
    requires i < |s.instances|
  {
    With(s, i, true, Bursting(granted, s.now)).(decisions := s.decisions + [Decision(i, granted, s.now)])
  }

  function Next(s: System, ttl: Time, step: Step): System
    requires Enabled(s, step)
  {
    match step
    case Wait(dt) => s.(now := s.now + dt)
    case Tick(i) => With(s, i, s.instances[i].holdLease, if s.instances[i].holdLease then Renewing else Acquiring)
    case Request(i, reached) =>
      (match s.instances[i].phase
       case Acquiring => Asked(s, i, ForAcquire, reached, TryAcquire(s.store, KEY, i, ttl, s.now))
       case Renewing => Asked(s, i, ForRenew, reached, Renew(s.store, KEY, i, ttl, s.now))
       case _ => Asked(s, i, ForRefresh, reached, Renew(s.store, KEY, i, ttl, s.now)))
    case Reply(i, heard) =>
      var w := s.instances[i].phase;
      (match w.call
       case ForRenew => if w.ok && heard then Lead(s, i, w.at) else With(s, i, s.instances[i].holdLease, Acquiring)
       case ForAcquire => if w.ok && heard then Lead(s, i, w.at) else With(s, i, false, Idle)
       case ForRefresh => With(s, i, w.ok && heard, Idle))
    case SubmitMarket(i) =>
      var b := s.instances[i].phase;
      s.(submissions := s.submissions + [Submission(i, b.granted, b.decided, s.now)])
    case EndBurst(i) => With(s, i, s.instances[i].holdLease, Idle)
    case RenewTick(i) => With(s, i, true, Refreshing)
    case ReleaseCall(i) => With(s.(store := Release(s.store, KEY, i)), i, false, Idle)
  }

  function Start(n: nat): System {
    System(map[], seq(n, _ => Instance(false, Idle)), 0, [], [], [])
  }

  /** `trace[k]` leads from `states[k]` to `states[k + 1]`. */
  ghost predicate IsRun(n: nat, ttl: Time, trace: seq<Step>, states: seq<System>) {
    && |states| == |trace| + 1 && states[0] == Start(n)
    && forall k | 0 <= k < |trace| :: Enabled(states[k], trace[k]) && states[k + 1] == Next(states[k], ttl, trace[k])
  }

  // ---- Safety --------------------------------------------------------------------------

  /** What the store says about a past grant: its owner is covered until the entry expires, and
      everybody else's lease time is over. */
  predicate Covered(store: Store, now: Time, ttl: Time, g: Grant) {
    && g.time <= now
    && (if KEY in store && store[KEY].owner == g.who then g.time + ttl <= store[KEY].expires else g.time + ttl <= now)
  }

  predicate AllCovered(store: Store, now: Time, ttl: Time, gs: seq<Grant>) {
    forall k | 0 <= k < |gs| :: Covered(store, now, ttl, gs[k])
  }

  predicate FarApart(gs: seq<Grant>, ttl: Time) {
    forall i, j | 0 <= i < j < |gs| && gs[i].who != gs[j].who :: gs[i].time + ttl <= gs[j].time
  }

  /** What an instance believes rests on a grant. */
  predicate InstanceBacked(s: System, i: Token)
    requires i < |s.instances|
  {
    match s.instances[i].phase
    case Waiting(call, ok, at) => ok && call != ForRefresh ==> Grant(i, at) in s.grants && at <= s.now
    case Bursting(granted, decided) => Decision(i, granted, decided) in s.decisions && decided <= s.now
    case _ => true
  }

  predicate DecisionBacked(s: System, d: Decision) {
    Grant(d.who, d.granted) in s.grants && d.granted <= d.time
  }

  predicate SubmissionBacked(s: System, x: Submission) {
    Decision(x.who, x.granted, x.decided) in s.decisions && x.decided <= x.time
  }

  predicate Backed(s: System) {
    && (forall i | 0 <= i < |s.instances| :: InstanceBacked(s, i))
    && (forall k | 0 <= k < |s.decisions| :: DecisionBacked(s, s.decisions[k]))
    && (forall k | 0 <= k < |s.submissions| :: SubmissionBacked(s, s.submissions[k]))
  }

  predicate Inv(s: System, ttl: Time) {
    AllCovered(s.store, s.now, ttl, s.grants) && FarApart(s.grants, ttl) && Backed(s)
  }

  lemma RenewCovers(store: Store, now: Time, ttl: Time, gs: seq<Grant>, i: Token)
    requires AllCovered(store, now, ttl, gs)
    ensures var r := Renew(store, KEY, i, ttl, now);
            AllCovered(r.0, now, ttl, gs) && (r.1 ==> KEY in r.0 && r.0[KEY] == Entry(i, now + ttl))
  {}

  lemma AcquireCovers(store: Store, now: Time, ttl: Time, gs: seq<Grant>, i: Token)
    requires AllCovered(store, now, ttl, gs)
    ensures var r := TryAcquire(store, KEY, i, ttl, now);
            AllCovered(r.0, now, ttl, gs) && (r.1 ==> KEY in r.0 && r.0[KEY] == Entry(i, now + ttl))
  {}

  /** Nothing that was backed loses its backing when only more is granted, decided or time passes. */
  lemma StillBacked(s: System, s': System, i: Token)
    requires Backed(s) && i < |s.instances| == |s'.instances| && s'.submissions == s.submissions && s.now <= s'.now
    requires forall g | g in s.grants :: g in s'.grants
    requires forall d | d in s.decisions :: d in s'.decisions
    requires forall d | d in s'.decisions && d !in s.decisions :: DecisionBacked(s', d)
    requires forall j | 0 <= j < |s.instances| && j != i :: s'.instances[j] == s.instances[j]
    requires InstanceBacked(s', i)
    ensures Backed(s')
  {
    forall j | 0 <= j < |s'.instances| ensures InstanceBacked(s', j) { if j != i { assert InstanceBacked(s, j); } }
    forall k | 0 <= k < |s'.decisions| ensures DecisionBacked(s', s'.decisions[k]) {
      var d := s'.decisions[k];
      assert d in s'.decisions;
      if d in s.decisions {
        var j :| 0 <= j < |s.decisions| && s.decisions[j] == d;
        assert DecisionBacked(s, d);
      }
    }
    forall k | 0 <= k < |s'.submissions| ensures SubmissionBacked(s', s'.submissions[k]) { assert SubmissionBacked(s, s.submissions[k]); }
  }

  /** A granted lease means that nobody else was granted one within the last `ttl`. */
  lemma GrantKeeps(store: Store, now: Time, ttl: Time, gs: seq<Grant>, i: Token)
    requires AllCovered(store, now, ttl, gs) && FarApart(gs, ttl) && KEY in store && store[KEY] == Entry(i, now + ttl)
    ensures AllCovered(store, now, ttl, gs + [Grant(i, now)]) && FarApart(gs + [Grant(i, now)], ttl)
  {
    var gs' := gs + [Grant(i, now)];
    forall k | 0 <= k < |gs'| ensures Covered(store, now, ttl, gs'[k]) { if k < |gs| { assert Covered(store, now, ttl, gs[k]); } }
    forall a, b | 0 <= a < b < |gs'| && gs'[a].who != gs'[b].who ensures gs'[a].time + ttl <= gs'[b].time {
      if b < |gs| { assert gs[a].time + ttl <= gs[b].time; } else { assert Covered(store, now, ttl, gs[a]); }
    }
  }

  lemma AskedKeeps(s: System, ttl: Time, i: Token, call: Call, reached: bool, r: (Store, bool))
    requires Inv(s, ttl) && i < |s.instances|
    requires AllCovered(r.0, s.now, ttl, s.grants) && (r.1 ==> KEY in r.0 && r.0[KEY] == Entry(i, s.now + ttl))
    ensures Inv(Asked(s, i, call, reached, r), ttl)
  {
    hide Backed;
    var s' := Asked(s, i, call, reached, r);
    if reached && r.1 && call != ForRefresh { GrantKeeps(r.0, s.now, ttl, s.grants, i); }
    StillBacked(s, s', i);
  }

  /** The releasing instance holds no lease, or was granted nothing within the lease time. */
  predicate Quiet(s: System, ttl: Time, i: Token) {
    KEY in s.store && s.store[KEY].owner == i ==>
      forall k | 0 <= k < |s.grants| && s.grants[k].who == i :: s.grants[k].time + ttl <= s.now
  }

  /** The service itself never releases; if it did, it would have to be quietly. */
  predicate Allowed(s: System, ttl: Time, step: Step) {
    Enabled(s, step) && (step.ReleaseCall? ==> Quiet(s, ttl, step.i))
  }

  lemma ReleaseKeeps(s: System, ttl: Time, i: Token)
    requires Inv(s, ttl) && i < |s.instances| && s.instances[i].phase == Idle && Quiet(s, ttl, i)
    ensures Inv(Next(s, ttl, ReleaseCall(i)), ttl)
  {
    hide Backed;
    var store' := Release(s.store, KEY, i);
    forall k | 0 <= k < |s.grants| ensures Covered(store', s.now, ttl, s.grants[k]) {
      assert Covered(s.store, s.now, ttl, s.grants[k]);
    }
    StillBacked(s, Next(s, ttl, ReleaseCall(i)), i);
  }

  lemma WaitKeeps(s: System, ttl: Time, dt: Time)
    requires Inv(s, ttl)
    ensures Inv(s.(now := s.now + dt), ttl)
  {
    var s' := s.(now := s.now + dt);
    forall k | 0 <= k < |s.grants| ensures Covered(s.store, s'.now, ttl, s.grants[k]) { assert Covered(s.store, s.now, ttl, s.grants[k]); }
    forall i | 0 <= i < |s.instances| ensures InstanceBacked(s', i) { assert InstanceBacked(s, i); }
    forall k | 0 <= k < |s.decisions| ensures DecisionBacked(s', s.decisions[k]) { assert DecisionBacked(s, s.decisions[k]); }
    forall k | 0 <= k < |s.submissions| ensures SubmissionBacked(s', s.submissions[k]) { assert SubmissionBacked(s, s.submissions[k]); }
  }

  lemma LeadKeeps(s: System, ttl: Time, i: Token, at: Time)
    requires Inv(s, ttl) && i < |s.instances| && Grant(i, at) in s.grants && at <= s.now
    ensures Inv(Lead(s, i, at), ttl)
  {
    hide Backed;
    var s' := Lead(s, i, at);
    assert s'.decisions[|s.decisions|] == Decision(i, at, s.now);
    StillBacked(s, s', i);
  }

  lemma MoveKeeps(s: System, ttl: Time, i: Token, hold: bool, phase: Phase)
    requires Inv(s, ttl) && i < |s.instances| && !phase.Waiting? && !phase.Bursting?
    ensures Inv(With(s, i, hold, phase), ttl)
  {
    hide Backed;
    StillBacked(s, With(s, i, hold, phase), i);
  }

  lemma SubmitKeeps(s: System, ttl: Time, i: Token)
    requires Inv(s, ttl) && i < |s.instances| && s.instances[i].phase.Bursting?
    ensures Inv(Next(s, ttl, SubmitMarket(i)), ttl)
  {
    var s' := Next(s, ttl, SubmitMarket(i));
    assert InstanceBacked(s, i);
    forall j | 0 <= j < |s.instances| ensures InstanceBacked(s', j) { assert InstanceBacked(s, j); }
    forall k | 0 <= k < |s.decisions| ensures DecisionBacked(s', s.decisions[k]) { assert DecisionBacked(s, s.decisions[k]); }
    forall k | 0 <= k < |s'.submissions| ensures SubmissionBacked(s', s'.submissions[k]) {
      if k < |s.submissions| { assert SubmissionBacked(s, s.submissions[k]); }
    }
  }

  lemma RequestKeeps(s: System, ttl: Time, i: Token, reached: bool)
    requires Inv(s, ttl) && Enabled(s, Request(i, reached))
    ensures Inv(Next(s, ttl, Request(i, reached)), ttl)
  {
    hide Inv, Renew, TryAcquire, Asked;
    InvCovered(s, ttl);
    AcquireCovers(s.store, s.now, ttl, s.grants, i);
    RenewCovers(s.store, s.now, ttl, s.grants, i);
    match s.instances[i].phase
    case Acquiring => AskedKeeps(s, ttl, i, ForAcquire, reached, TryAcquire(s.store, KEY, i, ttl, s.now));
    case Renewing => AskedKeeps(s, ttl, i, ForRenew, reached, Renew(s.store, KEY, i, ttl, s.now));
    case Refreshing => AskedKeeps(s, ttl, i, ForRefresh, reached, Renew(s.store, KEY, i, ttl, s.now));
  }

  lemma InvCovered(s: System, ttl: Time)
    requires Inv(s, ttl)
    ensures AllCovered(s.store, s.now, ttl, s.grants)
  {}

  lemma ReplyKeeps(s: System, ttl: Time, i: Token, heard: bool)
    requires Inv(s, ttl) && Enabled(s, Reply(i, heard))
    ensures Inv(Next(s, ttl, Reply(i, heard)), ttl)
  {
    var w := s.instances[i].phase;
    assert InstanceBacked(s, i);
    hide Inv, Lead, With;
    if w.ok && heard && w.call != ForRefresh {
      LeadKeeps(s, ttl, i, w.at);
    } else {
      MoveKeeps(s, ttl, i, s.instances[i].holdLease, Acquiring);
      MoveKeeps(s, ttl, i, false, Idle);
      MoveKeeps(s, ttl, i, true, Idle);
    }
  }

  lemma NextKeeps(s: System, ttl: Time, step: Step)
    requires Inv(s, ttl) && Allowed(s, ttl, step)
    ensures Inv(Next(s, ttl, step), ttl)
  {
    hide Inv, Quiet, With;
    match step
    case Wait(dt) => WaitKeeps(s, ttl, dt);
    case Tick(i) => MoveKeeps(s, ttl, i, s.instances[i].holdLease, if s.instances[i].holdLease then Renewing else Acquiring);
    case Request(i, reached) => RequestKeeps(s, ttl, i, reached);
    case Reply(i, heard) => ReplyKeeps(s, ttl, i, heard);
    case SubmitMarket(i) => SubmitKeeps(s, ttl, i);
    case EndBurst(i) => MoveKeeps(s, ttl, i, s.instances[i].holdLease, Idle);
    case RenewTick(i) => MoveKeeps(s, ttl, i, true, Refreshing);
    case ReleaseCall(i) => ReleaseKeeps(s, ttl, i);
  }

  /** Every release of the run is a quiet one; in particular runs without any. */
  ghost predicate QuietRun(ttl: Time, trace: seq<Step>, states: seq<System>) {
    |states| == |trace| + 1 && forall k | 0 <= k < |trace| && trace[k].ReleaseCall? :: Quiet(states[k], ttl, trace[k].i)
  }

  lemma {:induction false} RunKeeps(n: nat, ttl: Time, trace: seq<Step>, states: seq<System>, k: nat)
    requires IsRun(n, ttl, trace, states) && QuietRun(ttl, trace, states) && k < |states|
    ensures Inv(states[k], ttl)
  {
    hide Inv, Next, Quiet, Enabled;
    if k == 0 {
      StartsWell(n, ttl);
    } else {
      RunKeeps(n, ttl, trace, states, k - 1);
      NextKeeps(states[k - 1], ttl, trace[k - 1]);
    }
  }

  lemma StartsWell(n: nat, ttl: Time)
    ensures Inv(Start(n), ttl)
  {}

  /** Main result: in every run, grants to different instances are at least `ttl` apart. */
  lemma LeaseSafety(n: nat, ttl: Time, trace: seq<Step>, states: seq<System>, k: nat)
    requires IsRun(n, ttl, trace, states) && QuietRun(ttl, trace, states) && k < |states|
    ensures FarApart(states[k].grants, ttl)
  {
    RunKeeps(n, ttl, trace, states, k);
  }

  lemma GrantsOf(s: System, ttl: Time, a: Decision, b: Decision)
    requires Inv(s, ttl) && a in s.decisions && b in s.decisions && a.who != b.who
    ensures a.granted <= a.time && b.granted <= b.time && (a.granted + ttl <= b.granted || b.granted + ttl <= a.granted)
  {
    var k :| 0 <= k < |s.decisions| && s.decisions[k] == a;
    var l :| 0 <= l < |s.decisions| && s.decisions[l] == b;
    assert DecisionBacked(s, s.decisions[k]) && DecisionBacked(s, s.decisions[l]);
    var i :| 0 <= i < |s.grants| && s.grants[i] == Grant(a.who, a.granted);
    var j :| 0 <= j < |s.grants| && s.grants[j] == Grant(b.who, b.granted);
    if i < j { assert s.grants[i].time + ttl <= s.grants[j].time; }
  }

  /** Decisions are made when the reply arrives. If replies take at most `delay`, the decisions of
      different instances are at least the lease time less that delay apart; with immediate replies,
      the whole lease time. */
  lemma DecisionsApart(n: nat, ttl: Time, trace: seq<Step>, states: seq<System>, k: nat, delay: Time, a: Decision, b: Decision)
    requires IsRun(n, ttl, trace, states) && QuietRun(ttl, trace, states) && k < |states|
    requires forall d | d in states[k].decisions :: d.time <= d.granted + delay
    requires a in states[k].decisions && b in states[k].decisions && a.who != b.who
    ensures a.time + ttl <= b.time + delay || b.time + ttl <= a.time + delay
  {
    hide Inv;
    RunKeeps(n, ttl, trace, states, k);
    GrantsOf(states[k], ttl, a, b);
  }

  /** If every submission falls within `ttl` of the grant it relies on, the bursts of different
      instances never overlap: the one granted first is over before the other is even granted. */
  lemma BurstsDisjoint(n: nat, ttl: Time, trace: seq<Step>, states: seq<System>, k: nat, a: Submission, b: Submission)
    requires IsRun(n, ttl, trace, states) && QuietRun(ttl, trace, states) && k < |states|
    requires forall x | x in states[k].submissions :: x.time < x.granted + ttl
    requires a in states[k].submissions && b in states[k].submissions && a.who != b.who
    ensures a.time < b.granted || b.time < a.granted
  {
    var s := states[k];
    RunKeeps(n, ttl, trace, states, k);
    var i :| 0 <= i < |s.submissions| && s.submissions[i] == a;
    var j :| 0 <= j < |s.submissions| && s.submissions[j] == b;
    assert SubmissionBacked(s, s.submissions[i]) && SubmissionBacked(s, s.submissions[j]);
    GrantsOf(s, ttl, Decision(a.who, a.granted, a.decided), Decision(b.who, b.granted, b.decided));
  }

  // ---- Runs made by hand ---------------------------------------------------------------

  lemma RunGrows(n: nat, ttl: Time, trace: seq<Step>, states: seq<System>, step: Step)
    requires IsRun(n, ttl, trace, states) && Enabled(states[|trace|], step)
    ensures IsRun(n, ttl, trace + [step], states + [Next(states[|trace|], ttl, step)])
  {
    hide Next, Enabled, Start;
    var trace', states' := trace + [step], states + [Next(states[|trace|], ttl, step)];
    forall k | 0 <= k < |trace'| ensures Enabled(states'[k], trace'[k]) && states'[k + 1] == Next(states'[k], ttl, trace'[k]) {
      if k < |trace| { assert trace'[k] == trace[k] && states'[k] == states[k] && states'[k + 1] == states[k + 1]; }
    }
  }

  /** Some run of two instances ends here. */
  ghost predicate Reachable(ttl: Time, s: System) {
    exists trace: seq<Step>, states: seq<System> :: IsRun(2, ttl, trace, states) && states[|trace|] == s
  }

  lemma ReachableNext(ttl: Time, s: System, step: Step)
    requires Reachable(ttl, s) && Enabled(s, step)
    ensures Reachable(ttl, Next(s, ttl, step))
  {
    hide Next, Enabled;
    var trace: seq<Step>, states: seq<System> :| IsRun(2, ttl, trace, states) && states[|trace|] == s;
    RunGrows(2, ttl, trace, states, step);
    var states' := states + [Next(s, ttl, step)];
    assert states'[|trace + [step]|] == Next(s, ttl, step);
  }

  lemma StartReachable(ttl: Time)
    ensures Reachable(ttl, Start(2)) && Start(2) == System(map[], [Instance(false, Idle), Instance(false, Idle)], 0, [], [], [])
  {
    var trace: seq<Step>, states := [], [Start(2)];
    assert IsRun(2, ttl, trace, states) && states[|trace|] == Start(2);
  }

  /** The first of two instances has been granted the lease and does not know it yet. */
  function FirstGranted(ttl: Time): System {
    System(map[KEY := Entry(0, ttl)], [Instance(false, Waiting(ForAcquire, true, 0)), Instance(false, Idle)], 0, [Grant(0, 0)], [], [])
  }

  lemma FirstGrantedReachable(ttl: Time)
    requires ttl > 0
    ensures Reachable(ttl, FirstGranted(ttl))
  {
    hide Reachable;
    StartReachable(ttl);
    var s0 := Start(2);
    ReachableNext(ttl, s0, Tick(0));
    var s1 := Next(s0, ttl, Tick(0));
    ReachableNext(ttl, s1, Request(0, true));
    assert Next(s1, ttl, Request(0, true)) == FirstGranted(ttl);
  }

  // ---- Late replies --------------------------------------------------------------------

  /** Another instance can come to lead beside a burst exactly when the lease, counted from its grant
      and not from the decision, has run out. */
  lemma BurstAloneIff(s: System, ttl: Time, i: Token, j: Token)
    requires i < |s.instances| && j < |s.instances| && i != j && s.instances[i].phase.Bursting? && s.instances[j] == Instance(false, Idle)
    requires KEY in s.store && s.store[KEY] == Entry(i, s.instances[i].phase.granted + ttl)
    ensures var s' := Next(Next(Next(s, ttl, Tick(j)), ttl, Request(j, true)), ttl, Reply(j, true));
            s'.instances[i].phase == s.instances[i].phase && (s'.instances[j].phase.Bursting? <==> s.now >= s.instances[i].phase.granted + ttl)
  {
    var s1 := Next(s, ttl, Tick(j));
    assert s1.store == s.store && s1.now == s.now;
    assert KEY in Gc(s1.store, s1.now) <==> s.now < s.instances[i].phase.granted + ttl;
  }

  /** Keeping to the lease time counted from the decision is not enough: a reply that comes when the
      lease has run out starts a burst beside that of the next holder. */
  lemma LateReplyOverlaps(ttl: Time)
    requires ttl > 0
    ensures exists s :: Reachable(ttl, s) && Overlapping(s, ttl)
  {
    hide Reachable;
    FirstGrantedReachable(ttl);
    var s2 := FirstGranted(ttl);
    ReachableNext(ttl, s2, Wait(ttl));
    var s3 := Next(s2, ttl, Wait(ttl));
    ReachableNext(ttl, s3, Tick(1));
    var s4 := Next(s3, ttl, Tick(1));
    ReachableNext(ttl, s4, Request(1, true));
    var s5 := Next(s4, ttl, Request(1, true));
    SecondGranted(ttl, s4, s5);
    BothBurst(ttl, s5);
  }

  /** Two instances submit at one time, each within the lease time of its own decision. */
  ghost predicate Overlapping(s: System, ttl: Time) {
    exists a, b :: a in s.submissions && b in s.submissions && a.who != b.who && a.time == b.time
                   && a.time < a.decided + ttl && b.time < b.decided + ttl
  }

  /** Both wait for a reply; the first one's lease has run out. */
  predicate BothGranted(s: System, ttl: Time) {
    && s.now == ttl && s.decisions == [] && s.submissions == []
    && s.instances == [Instance(false, Waiting(ForAcquire, true, 0)), Instance(false, Waiting(ForAcquire, true, ttl))]
  }

  lemma SecondGranted(ttl: Time, s4: System, s5: System)
    requires ttl > 0 && s4 == Next(Next(FirstGranted(ttl), ttl, Wait(ttl)), ttl, Tick(1)) && s5 == Next(s4, ttl, Request(1, true))
    ensures BothGranted(s5, ttl)
  {
    assert s4.instances == [Instance(false, Waiting(ForAcquire, true, 0)), Instance(false, Acquiring)];
    assert KEY !in Gc(s4.store, ttl);
  }

  lemma BothBurst(ttl: Time, s: System)
    requires ttl > 0 && Reachable(ttl, s) && BothGranted(s, ttl)
    ensures exists s' :: Reachable(ttl, s') && Overlapping(s', ttl)
  {
    hide Reachable;
    var s1 := Next(s, ttl, Reply(0, true));
    ReachableNext(ttl, s, Reply(0, true));
    var s2 := Next(s1, ttl, Reply(1, true));
    ReachableNext(ttl, s1, Reply(1, true));
    var s3 := Next(s2, ttl, SubmitMarket(0));
    ReachableNext(ttl, s2, SubmitMarket(0));
    var s4 := Next(s3, ttl, SubmitMarket(1));
    ReachableNext(ttl, s3, SubmitMarket(1));
    assert s4.submissions == [Submission(0, 0, ttl, ttl), Submission(1, ttl, ttl, ttl)];
    assert s4.submissions[0] in s4.submissions && s4.submissions[1] in s4.submissions;
    assert Overlapping(s4, ttl);
  }

  // ---- Releasing -----------------------------------------------------------------------

  /** What happens if `i` releases and `j` ticks at once. */
  function AfterRelease(s: System, ttl: Time, i: Token, j: Token): System
    requires i < |s.instances| && j < |s.instances| && i != j
    requires s.instances[i].phase == Idle && s.instances[j] == Instance(false, Idle)
  {
    Next(Next(Next(s, ttl, ReleaseCall(i)), ttl, Tick(j)), ttl, Request(j, true))
  }

  /** A release is safe exactly when it is quiet: otherwise any other idle instance can be granted
      the lease at once, within the lease time of a grant already made. */
  lemma ReleaseSafeIff(s: System, ttl: Time, i: Token, j: Token)
    requires Inv(s, ttl) && i < |s.instances| && j < |s.instances| && i != j
    requires s.instances[i].phase == Idle && s.instances[j] == Instance(false, Idle)
    ensures FarApart(AfterRelease(s, ttl, i, j).grants, ttl) <==> Quiet(s, ttl, i)
  {
    var s1 := Next(s, ttl, ReleaseCall(i));
    var s2 := Next(s1, ttl, Tick(j));
    var s3 := AfterRelease(s, ttl, i, j);
    if Quiet(s, ttl, i) {
      NextKeeps(s, ttl, ReleaseCall(i));
      NextKeeps(s1, ttl, Tick(j));
      NextKeeps(s2, ttl, Request(j, true));
    } else {
      var k :| 0 <= k < |s.grants| && s.grants[k].who == i && s.grants[k].time + ttl > s.now;
      assert KEY !in s2.store;
      assert s3.grants == s.grants + [Grant(j, s.now)];
      assert s3.grants[k].who != s3.grants[|s.grants|].who;
    }
  }

  /** Two instances, the first of which has just led. */
  function OneHasLed(ttl: Time): System {
    System(map[KEY := Entry(0, ttl)], [Instance(true, Idle), Instance(false, Idle)], 0, [Grant(0, 0)], [Decision(0, 0, 0)], [])
  }

  lemma OneHasLedReachable(ttl: Time)
    requires ttl > 0
    ensures Reachable(ttl, OneHasLed(ttl)) && Inv(OneHasLed(ttl), ttl)
  {
    hide Reachable;
    FirstGrantedReachable(ttl);
    var s2 := FirstGranted(ttl);
    ReachableNext(ttl, s2, Reply(0, true));
    var s3 := Next(s2, ttl, Reply(0, true));
    ReachableNext(ttl, s3, EndBurst(0));
    assert Next(s3, ttl, EndBurst(0)) == OneHasLed(ttl);
    assert Grant(0, 0) in OneHasLed(ttl).grants;
  }

  /** A run of two instances in which a release that is not quiet puts two grants at one time. */
  lemma ReleaseBreaksSpacing(ttl: Time)
    requires ttl > 0
    ensures exists s :: Reachable(ttl, s) && !FarApart(s.grants, ttl)
  {
    OneHasLedReachable(ttl);
    hide Reachable;
    var s := OneHasLed(ttl);
    assert s.grants[0] == Grant(0, 0) && !Quiet(s, ttl, 0);
    ReleaseSafeIff(s, ttl, 0, 1);
    ReachableNext(ttl, s, ReleaseCall(0));
    ReachableNext(ttl, Next(s, ttl, ReleaseCall(0)), Tick(1));
    ReachableNext(ttl, Next(Next(s, ttl, ReleaseCall(0)), ttl, Tick(1)), Request(1, true));
    assert Reachable(ttl, AfterRelease(s, ttl, 0, 1));
  }

  // ---- In place ------------------------------------------------------------------------

  /** A number of service instances around one backend. */
  class Cluster {
    const backend: MockBackend
    const ttl: Time
    var instances: seq<Instance>
    var now: Time
    var grants: seq<Grant>
    var decisions: seq<Decision>
    var submissions: seq<Submission>

    ghost function View(): System
      reads this, backend
    {
      System(backend.inner, instances, now, grants, decisions, submissions)
    }

    constructor (n: nat, ttl: Time)
      ensures View() == Start(n) && this.ttl == ttl && fresh(backend)
    {
      backend := new MockBackend();
      this.ttl := ttl;
      instances := seq(n, _ => Instance(false, Idle));
      now, grants, decisions, submissions := 0, [], [], [];
    }

    method Move(i: Token, hold: bool, phase: Phase)
      requires i < |instances|
      modifies this
      ensures View() == With(old(View()), i, hold, phase)
    {
      instances := instances[i := Instance(hold, phase)];
    }

    method Ask(i: Token, reached: bool)
      requires Enabled(View(), Request(i, reached))
      modifies this, backend
      ensures View() == Next(old(View()), ttl, Request(i, reached))
    {
      hide TryAcquire, Renew;
      var phase, ok := instances[i].phase, false;
      if reached {
        if phase == Acquiring {
          ok := backend.Acquire(KEY, i, ttl, now);
        } else {
          ok := backend.Extend(KEY, i, ttl, now);
        }
      }
      var call := if phase == Acquiring then ForAcquire else if phase == Renewing then ForRenew else ForRefresh;
      if ok && call != ForRefresh {
        grants := grants + [Grant(i, now)];
      }
      Move(i, instances[i].holdLease, Waiting(call, ok, now));
    }

    method Hear(i: Token, heard: bool)
      requires Enabled(View(), Reply(i, heard))
      modifies this
      ensures View() == Next(old(View()), ttl, Reply(i, heard))
    {
      var w := instances[i].phase;
      var yes := w.ok && heard;
      if w.call == ForRefresh {
        Move(i, yes, Idle);
      } else if yes {
        Move(i, true, Bursting(w.at, now));
        decisions := decisions + [Decision(i, w.at, now)];
      } else if w.call == ForRenew {
        Move(i, instances[i].holdLease, Acquiring);
      } else {
        Move(i, false, Idle);
      }
    }

    /** The arms of the service loop, one await at a time; a lost request or reply counts as `false`. */
    method Perform(step: Step)
      requires Enabled(View(), step)
      modifies this, backend
      ensures View() == Next(old(View()), ttl, step)
    {
      hide TryAcquire, Renew, Release, Asked;
      match step
      case Wait(dt) => now := now + dt;
      case Tick(i) => Move(i, instances[i].holdLease, if instances[i].holdLease then Renewing else Acquiring);
      case Request(i, reached) => Ask(i, reached);
      case Reply(i, heard) => Hear(i, heard);
      case SubmitMarket(i) =>
        var b := instances[i].phase;
        submissions := submissions + [Submission(i, b.granted, b.decided, now)];
      case EndBurst(i) => Move(i, instances[i].holdLease, Idle);
      case RenewTick(i) => Move(i, true, Refreshing);
      case ReleaseCall(i) =>
        backend.Drop(KEY, i);
        Move(i, false, Idle);
    }
  }

  /** Whatever schedule the instances run on, as long as none of them releases: their grants are at
      least the lease time apart. Steps that are not due are passed over. */
  method Operate(n: nat, ttl: Time, schedule: seq<Step>) returns (c: Cluster)
    requires forall k | 0 <= k < |schedule| :: !schedule[k].ReleaseCall?
    ensures FarApart(c.grants, ttl) && Inv(c.View(), ttl)
  {
    c := new Cluster(n, ttl);
    StartsWell(n, ttl);
    for k := 0 to |schedule|
      invariant fresh(c) && fresh(c.backend) && c.ttl == ttl && Inv(c.View(), ttl)
    {
      hide Inv, Next, Enabled;
      if Due(c.instances, schedule[k]) {
        DueIsEnabled(c.View(), schedule[k]);
        NextKeeps(c.View(), ttl, schedule[k]);
        c.Perform(schedule[k]);
      }
    }
  }

  predicate Due(instances: seq<Instance>, step: Step) {
    Enabled(System(map[], instances, 0, [], [], []), step)
  }

  lemma DueIsEnabled(s: System, step: Step)
    ensures Due(s.instances, step) == Enabled(s, step)
  {}
}
