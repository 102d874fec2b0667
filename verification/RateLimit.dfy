/**
 The token bucket, in its process-local form and in the Redis form whose keys expire after a
 minute. Tokens are exact reals, times are milliseconds.
 */
module RateLimit {
  import OrderTypes

  datatype Limit = Limit(capacity: nat, refillPerSec: nat)

  datatype Bucket = Bucket(tokens: real, updated: nat)

  datatype Verdict = Allowed(remaining: nat) | Denied(retryAfterSecs: nat)

  /** The integer just at or above `x`. */
  function Ceil(x: real): int {
    if (x.Floor as real) == x then x.Floor else x.Floor + 1
  }

  /** Tokens refilled in `ms` milliseconds. */
  function Credit(limit: Limit, ms: nat): real {
    (ms * limit.refillPerSec) as real / 1000.0
  }

  /** Tokens in the bucket once the time since the last check has been credited. Clock steps
      backwards credit nothing. */
  function Refilled(b: Bucket, limit: Limit, now: nat): real {
    var elapsed := if now >= b.updated then now - b.updated else 0;
    OrderTypes.Min(b.tokens + Credit(limit, elapsed), limit.capacity as real)
  }

  /** Largest 32-bit number: where the cast of an infinite wait saturates. */
  const FOREVER: nat := 0xFFFF_FFFF

  function RetryAfter(tokens: real, limit: Limit): nat {
    if limit.refillPerSec == 0 then FOREVER else
    var secs := Ceil((1.0 - tokens) / limit.refillPerSec as real);
    if secs < 1 then 1 else secs
  }

  function Check(b: Bucket, limit: Limit, now: nat): (Bucket, Verdict) {
    var tokens := Refilled(b, limit, now);
    if tokens >= 1.0 then
      (Bucket(tokens - 1.0, now), Allowed(if tokens - 1.0 < 0.0 then 0 else (tokens - 1.0).Floor))
    else
      (Bucket(tokens, now), Denied(RetryAfter(tokens, limit)))
  }

  function Fresh(limit: Limit, now: nat): Bucket {
    Bucket(limit.capacity as real, now)
  }

  type Key = string

  class InMemoryBucket {
    var inner: map<Key, Bucket>

    constructor ()
      ensures inner == map[]
    {
      inner := map[];
    }

    method CheckKey(key: Key, limit: Limit, now: nat) returns (v: Verdict)
      modifies this
      ensures var b := if key in old(inner) then old(inner)[key] else Fresh(limit, now);
              inner == old(inner)[key := Check(b, limit, now).0] && v == Check(b, limit, now).1
    {
      var entry := if key in inner then inner[key] else Fresh(limit, now);
      var elapsed := if now >= entry.updated then now - entry.updated else 0;
      var refilled := (elapsed * limit.refillPerSec) as real / 1000.0;
      var tokens := OrderTypes.Min(entry.tokens + refilled, limit.capacity as real);
      if tokens >= 1.0 {
        tokens := tokens - 1.0;
        v := Allowed(if tokens < 0.0 then 0 else tokens.Floor);
      } else {
        v := Denied(RetryAfter(tokens, limit));
      }
      inner := inner[key := Bucket(tokens, now)];
    }
  }

  // ---- Runs on one key -----------------------------------------------------------------

  predicate Nondecreasing(times: seq<nat>) {
    forall i, j | 0 <= i < j < |times| :: times[i] <= times[j]
  }

  function RunFrom(b: Bucket, limit: Limit, times: seq<nat>): (Bucket, seq<Verdict>)
    decreases |times|
  {
    if times == [] then (b, []) else
    var first := Check(b, limit, times[0]);
    var rest := RunFrom(first.0, limit, times[1..]);
    (rest.0, [first.1] + rest.1)
  }

  function CountAllowed(vs: seq<Verdict>): nat {
    if vs == [] then 0 else (if vs[0].Allowed? then 1 else 0) + CountAllowed(vs[1..])
  }

  predicate Sane(b: Bucket, limit: Limit) {
    0.0 <= b.tokens <= limit.capacity as real
  }

  lemma CheckIsSane(b: Bucket, limit: Limit, now: nat)
    requires Sane(b, limit)
    ensures Sane(Check(b, limit, now).0, limit) && Check(b, limit, now).0.updated == now
  {}

  lemma CreditAdds(limit: Limit, a: nat, b: nat)
    ensures Credit(limit, a + b) == Credit(limit, a) + Credit(limit, b)
  {
    assert (a + b) * limit.refillPerSec == a * limit.refillPerSec + b * limit.refillPerSec;
  }

  /** Time that passes over a series of clock readings, counting forward steps only. */
  function Forward(last: nat, times: seq<nat>): nat
    decreases |times|
  {
    if times == [] then 0 else (if times[0] >= last then times[0] - last else 0) + Forward(times[0], times[1..])
  }

  /** What a stretch of checks admits is paid for by the tokens at its start and the time that is
      credited. */
  lemma {:induction false} Spent(b: Bucket, limit: Limit, times: seq<nat>)
    requires Sane(b, limit)
    ensures CountAllowed(RunFrom(b, limit, times).1) as real <= b.tokens + Credit(limit, Forward(b.updated, times))
    decreases |times|
  {
    hide Credit, Check;
    if times == [] {
      CreditIsPositive(limit, 0);
    } else {
      var first, rest := Check(b, limit, times[0]), times[1..];
      CheckIsSane(b, limit, times[0]);
      Spent(first.0, limit, rest);
      CreditAdds(limit, if times[0] >= b.updated then times[0] - b.updated else 0, Forward(times[0], rest));
      CheckPays(b, limit, times[0]);
      CountCons(first.1, RunFrom(first.0, limit, rest).1);
    }
  }

  lemma CountCons(v: Verdict, vs: seq<Verdict>)
    ensures CountAllowed([v] + vs) == (if v.Allowed? then 1 else 0) + CountAllowed(vs)
  {
    assert ([v] + vs)[1..] == vs;
  }

  lemma CreditIsPositive(limit: Limit, ms: nat)
    ensures Credit(limit, ms) >= 0.0
  {}

  lemma CheckPays(b: Bucket, limit: Limit, now: nat)
    ensures var c := Check(b, limit, now);
            (if c.1.Allowed? then 1.0 else 0.0) + c.0.tokens <= b.tokens + Credit(limit, if now >= b.updated then now - b.updated else 0)
  {}

  /** For any clock, even one that steps back: a window of checks admits at most the capacity plus
      what the forward steps between its first and last reading refill. */
  lemma ForwardBound(b: Bucket, limit: Limit, times: seq<nat>)
    requires Sane(b, limit) && times != []
    ensures CountAllowed(RunFrom(b, limit, times).1) as real <=
            limit.capacity as real + Credit(limit, Forward(times[0], times[1..]))
  {
    hide Credit, Check;
    var first, rest := Check(b, limit, times[0]), times[1..];
    CheckIsSane(b, limit, times[0]);
    Spent(first.0, limit, rest);
    FirstPays(b, limit, times[0]);
    CountCons(first.1, RunFrom(first.0, limit, rest).1);
  }

  lemma {:induction false} ForwardIsElapsed(last: nat, times: seq<nat>)
    requires Nondecreasing([last] + times)
    ensures var end := ([last] + times)[|times|]; last <= end && Forward(last, times) == end - last
    decreases |times|
  {
    if times != [] {
      var all := [last] + times;
      assert all[0] <= all[1];
      assert [times[0]] + times[1..] == times;
      forall i, j | 0 <= i < j < |times| ensures times[i] <= times[j] { assert all[i + 1] <= all[j + 1]; }
      ForwardIsElapsed(times[0], times[1..]);
    }
  }

  /** Main result: with a clock that does not step back, any window of checks on one key admits at
      most the capacity plus what is refilled between its first and its last reading. */
  lemma RateBound(b: Bucket, limit: Limit, times: seq<nat>)
    requires Sane(b, limit) && Nondecreasing(times) && times != []
    ensures CountAllowed(RunFrom(b, limit, times).1) as real <=
            limit.capacity as real + Credit(limit, times[|times| - 1] - times[0])
  {
    hide Credit, RunFrom;
    ForwardBound(b, limit, times);
    assert [times[0]] + times[1..] == times;
    ForwardIsElapsed(times[0], times[1..]);
  }

  /** The object itself keeps the bound, whatever its other keys hold. */
  method CheckAll(bucket: InMemoryBucket, key: Key, limit: Limit, times: seq<nat>) returns (vs: seq<Verdict>)
    requires key in bucket.inner ==> Sane(bucket.inner[key], limit)
    modifies bucket
    ensures |vs| == |times|
    ensures times != [] ==> CountAllowed(vs) as real <= limit.capacity as real + Credit(limit, Forward(times[0], times[1..]))
    ensures forall k | k != key :: (k in bucket.inner <==> k in old(bucket.inner)) && (k in bucket.inner ==> bucket.inner[k] == old(bucket.inner)[k])
  {
    hide Check, Credit, RunFrom, CountAllowed, Forward;
    vs := [];
    if times == [] {
      return;
    }
    ghost var b0 := if key in bucket.inner then bucket.inner[key] else Fresh(limit, times[0]);
    ghost var b := b0;
    NoChecks(b0, limit);
    for i := 0 to |times|
      invariant |vs| == i
      invariant if i == 0 then b == b0 && bucket.inner == old(bucket.inner) else key in bucket.inner && b == bucket.inner[key]
      invariant RunFrom(b0, limit, times[..i]) == (b, vs)
      invariant forall k | k != key :: (k in bucket.inner <==> k in old(bucket.inner)) && (k in bucket.inner ==> bucket.inner[k] == old(bucket.inner)[k])
    {
      RunSnoc(b0, limit, times[..i], times[i]);
      assert times[..i + 1] == times[..i] + [times[i]];
      ghost var c := Check(b, limit, times[i]);
      var v := bucket.CheckKey(key, limit, times[i]);
      vs := vs + [v];
      b := c.0;
    }
    assert times[..|times|] == times;
    ForwardBound(b0, limit, times);
  }

  lemma NoChecks(b: Bucket, limit: Limit)
    ensures RunFrom(b, limit, []) == (b, [])
  {}

  lemma {:induction false} RunSnoc(b: Bucket, limit: Limit, times: seq<nat>, now: nat)
    ensures var before := RunFrom(b, limit, times);
            RunFrom(b, limit, times + [now]) == (Check(before.0, limit, now).0, before.1 + [Check(before.0, limit, now).1])
    decreases |times|
  {
    hide Check;
    if times == [] {
      var c := Check(b, limit, now);
      assert times + [now] == [now] && [now][1..] == [];
      assert RunFrom(c.0, limit, []) == (c.0, []);
      assert [c.1] + [] == [c.1] == [] + [c.1];
    } else {
      assert (times + [now])[1..] == times[1..] + [now];
      var first := Check(b, limit, times[0]);
      RunSnoc(first.0, limit, times[1..], now);
      var before := RunFrom(first.0, limit, times[1..]);
      assert [first.1] + (before.1 + [Check(before.0, limit, now).1]) == ([first.1] + before.1) + [Check(before.0, limit, now).1];
    }
  }

  lemma FirstPays(b: Bucket, limit: Limit, now: nat)
    ensures var c := Check(b, limit, now); (if c.1.Allowed? then 1.0 else 0.0) + c.0.tokens <= limit.capacity as real
  {}

  /** With a clock that steps back, first and last reading do not bound what is admitted: the time
      stepped back over is credited twice. */
  lemma ClockMustNotStepBack()
    ensures var limit, times := Limit(1, 1), [1000, 0, 1000];
            && CountAllowed(RunFrom(Fresh(limit, 1000), limit, times).1) == 2
            && 2.0 > limit.capacity as real + Credit(limit, times[2] - times[0])
  {
    var limit := Limit(1, 1);
    var b0 := Fresh(limit, 1000);
    var c1 := Check(b0, limit, 1000);
    var c2 := Check(c1.0, limit, 0);
    var c3 := Check(c2.0, limit, 1000);
    assert c1 == (Bucket(0.0, 1000), Allowed(0));
    assert c2.1.Denied? && c2.0 == Bucket(0.0, 0);
    assert c3.1 == Allowed(0);
    assert [1000, 0, 1000][1..] == [0, 1000] && [0, 1000][1..] == [1000] && [1000][1..] == [];
    assert RunFrom(c3.0, limit, []) == (c3.0, []);
    assert RunFrom(c2.0, limit, [1000]).1 == [c3.1];
    assert RunFrom(c1.0, limit, [0, 1000]).1 == [c2.1, c3.1];
    assert RunFrom(b0, limit, [1000, 0, 1000]).1 == [c1.1, c2.1, c3.1];
    assert [c1.1, c2.1, c3.1][1..] == [c2.1, c3.1] && [c2.1, c3.1][1..] == [c3.1] && [c3.1][1..] == [];
    assert CountAllowed([c3.1]) == 1;
    assert CountAllowed([c2.1, c3.1]) == 1;
  }

  // ---- Retrying ------------------------------------------------------------------------

  lemma CeilIsAbove(x: real)
    ensures x <= Ceil(x) as real
  {}

  lemma EnoughTime(need: real, refill: real, secs: real)
    requires refill > 0.0 && need / refill <= secs
    ensures need <= secs * refill
  {
    var q := need / refill;
    assert q * refill == need;
    assert (secs - q) * refill >= 0.0;
  }

  /** A client that waits as told, or longer, is let through exactly when the bucket can hold a token and is
      refilled at all. */
  lemma RetryWorksIff(b: Bucket, limit: Limit, now: nat, later: nat)
    requires Sane(b, limit) && Check(b, limit, now).1.Denied? && later >= now + 1000 * Check(b, limit, now).1.retryAfterSecs
    ensures Check(Check(b, limit, now).0, limit, later).1.Allowed? <==> limit.capacity >= 1 && limit.refillPerSec > 0
  {
    hide Credit, RetryAfter;
    var c := Check(b, limit, now);
    if limit.refillPerSec > 0 {
      WaitRefills(c.0.tokens, limit);
      CreditGrows(limit, 1000 * RetryAfter(c.0.tokens, limit), later - now);
    } else {
      NoCredit(limit, later - now);
    }
  }

  /** The announced wait earns the missing part of a token. */
  lemma WaitRefills(tokens: real, limit: Limit)
    requires limit.refillPerSec > 0
    ensures tokens + Credit(limit, 1000 * RetryAfter(tokens, limit)) >= 1.0
  {
    var secs, refill, need := RetryAfter(tokens, limit), limit.refillPerSec as real, 1.0 - tokens;
    CeilIsAbove(need / refill);
    EnoughTime(need, refill, secs as real);
    assert (1000 * secs * limit.refillPerSec) as real / 1000.0 == secs as real * refill;
  }

  lemma CreditGrows(limit: Limit, a: nat, b: nat)
    requires a <= b
    ensures Credit(limit, a) <= Credit(limit, b)
  {
    CreditAdds(limit, a, b - a);
    CreditIsPositive(limit, b - a);
  }

  lemma NoCredit(limit: Limit, ms: nat)
    requires limit.refillPerSec == 0
    ensures Credit(limit, ms) == 0.0
  {
    assert ms * limit.refillPerSec == 0;
  }

  // ---- Expiring keys -------------------------------------------------------------------

  const EXPIRY_MS := 60000

  /** The Redis form: the key, with its bucket, disappears a minute after the last check. */
  function CheckExpiring(stored: Bucket, limit: Limit, now: nat): (Bucket, Verdict) {
    Check(if now >= stored.updated + EXPIRY_MS then Fresh(limit, now) else stored, limit, now)
  }

  function RunExpiring(b: Bucket, limit: Limit, times: seq<nat>): (Bucket, seq<Verdict>)
    decreases |times|
  {
    if times == [] then (b, []) else
    var first := CheckExpiring(b, limit, times[0]);
    var rest := RunExpiring(first.0, limit, times[1..]);
    (rest.0, [first.1] + rest.1)
  }

  lemma RefillAfterMinute(limit: Limit, ms: nat)
    requires ms >= EXPIRY_MS && limit.capacity <= 60 * limit.refillPerSec
    ensures (ms * limit.refillPerSec) as real / 1000.0 >= limit.capacity as real
  {
    assert ms * limit.refillPerSec >= 60000 * limit.refillPerSec;
  }

  lemma ExpiryUnseen(b: Bucket, limit: Limit, now: nat)
    requires Sane(b, limit) && limit.capacity <= 60 * limit.refillPerSec
    ensures CheckExpiring(b, limit, now) == Check(b, limit, now)
  {
    if now >= b.updated + EXPIRY_MS {
      RefillAfterMinute(limit, now - b.updated);
      assert Refilled(Fresh(limit, now), limit, now) == limit.capacity as real == Refilled(b, limit, now);
    }
  }

  /** With enough refill per minute, the expiry never shows: both forms answer every run alike. */
  lemma {:induction false} ExpiryUnobservable(b: Bucket, limit: Limit, times: seq<nat>)
    requires Sane(b, limit) && limit.capacity <= 60 * limit.refillPerSec
    ensures RunExpiring(b, limit, times) == RunFrom(b, limit, times)
    decreases |times|
  {
    hide Check;
    if times != [] {
      ExpiryUnseen(b, limit, times[0]);
      CheckIsSane(b, limit, times[0]);
      ExpiryUnobservable(Check(b, limit, times[0]).0, limit, times[1..]);
    }
  }

  function Zeros(n: nat): seq<nat> {
    seq(n, _ => 0)
  }

  lemma CheckDrains(limit: Limit, left: nat)
    requires 1 <= left <= limit.capacity
    ensures Check(Bucket(left as real, 0), limit, 0).0 == Bucket((left - 1) as real, 0)
  {}

  /** `n` checks at once from a full bucket empty it by `n`, in both forms. */
  lemma {:induction false} Drain(limit: Limit, left: nat, n: nat, tail: seq<nat>)
    requires n <= left <= limit.capacity
    ensures |RunFrom(Bucket(left as real, 0), limit, Zeros(n) + tail).1| == n + |RunFrom(Bucket((left - n) as real, 0), limit, tail).1|
    ensures RunFrom(Bucket(left as real, 0), limit, Zeros(n) + tail).1[n..] == RunFrom(Bucket((left - n) as real, 0), limit, tail).1
    ensures |RunExpiring(Bucket(left as real, 0), limit, Zeros(n) + tail).1| == n + |RunExpiring(Bucket((left - n) as real, 0), limit, tail).1|
    ensures RunExpiring(Bucket(left as real, 0), limit, Zeros(n) + tail).1[n..] == RunExpiring(Bucket((left - n) as real, 0), limit, tail).1
    decreases n
  {
    hide Check;
    if n == 0 {
      assert Zeros(0) + tail == tail;
    } else {
      assert (Zeros(n) + tail)[0] == 0 && (Zeros(n) + tail)[1..] == Zeros(n - 1) + tail;
      CheckDrains(limit, left);
      Drain(limit, left - 1, n - 1, tail);
    }
  }

  /** Otherwise it does show: drain the bucket, wait a minute, and the answers differ. */
  lemma ExpiryObservable(limit: Limit)
    requires limit.capacity > 60 * limit.refillPerSec
    ensures var times := Zeros(limit.capacity) + [EXPIRY_MS];
            RunExpiring(Fresh(limit, 0), limit, times).1 != RunFrom(Fresh(limit, 0), limit, times).1
  {
    hide Check, CheckExpiring;
    var n, tail, empty := limit.capacity, [EXPIRY_MS], Bucket(0.0, 0);
    Drain(limit, n, n, tail);
    assert tail[1..] == [];
    assert RunFrom(empty, limit, tail).1 == [Check(empty, limit, EXPIRY_MS).1];
    assert RunExpiring(empty, limit, tail).1 == [CheckExpiring(empty, limit, EXPIRY_MS).1];
    AnswersDiffer(limit);
    assert RunExpiring(Fresh(limit, 0), limit, Zeros(n) + tail).1[n..][0] != RunFrom(Fresh(limit, 0), limit, Zeros(n) + tail).1[n..][0];
  }

  lemma AnswersDiffer(limit: Limit)
    requires limit.capacity > 60 * limit.refillPerSec
    ensures CheckExpiring(Bucket(0.0, 0), limit, EXPIRY_MS).1 != Check(Bucket(0.0, 0), limit, EXPIRY_MS).1
  {
    assert (60000 * limit.refillPerSec) as real / 1000.0 == (60 * limit.refillPerSec) as real;
  }
}
