/**
 What the token bucket lets through. A denied check costs nothing, so polling is as good as waiting;
 what a run admits is balanced to the token; and both numbers in an answer are exact: the checks
 that remain, and the shortest whole number of seconds to wait.
 */
module RateAdmits {
  import opened RateLimit

  // ---- Denials are free ----------------------------------------------------------------

  /** Looking in at `now` on the way to `later` does not change the tokens found there. */
  lemma RefillsThrough(b: Bucket, limit: Limit, now: nat, later: nat)
    requires b.updated <= now <= later
    ensures Refilled(Bucket(Refilled(b, limit, now), now), limit, later) == Refilled(b, limit, later)
  {
    CreditAdds(limit, now - b.updated, later - now);
    CreditIsPositive(limit, later - now);
  }

  /** A denied check costs nothing: what comes after is as if it had not been made. */
  lemma DeniedIsFree(b: Bucket, limit: Limit, now: nat, later: nat)
    requires b.updated <= now <= later && Check(b, limit, now).1.Denied?
    ensures Check(Check(b, limit, now).0, limit, later) == Check(b, limit, later)
  {
    hide Refilled, RetryAfter;
    RefillsThrough(b, limit, now, later);
  }

  /** The times of the checks that are let through. */
  function LetThrough(b: Bucket, limit: Limit, times: seq<nat>): seq<nat>
    decreases |times|
  {
    if times == [] then [] else
    var c := Check(b, limit, times[0]);
    (if c.1.Allowed? then [times[0]] else []) + LetThrough(c.0, limit, times[1..])
  }

  predicate From(start: nat, times: seq<nat>) {
    Nondecreasing(times) && forall i | 0 <= i < |times| :: start <= times[i]
  }

  lemma FromTail(start: nat, times: seq<nat>)
    requires From(start, times) && times != []
    ensures start <= times[0] && From(times[0], times[1..])
  {}

  lemma {:induction false} LetThroughFrom(b: Bucket, limit: Limit, times: seq<nat>, start: nat, end: nat)
    requires From(start, times) && forall i | 0 <= i < |times| :: times[i] <= end
    ensures forall i | 0 <= i < |LetThrough(b, limit, times)| :: start <= LetThrough(b, limit, times)[i] <= end
    decreases |times|
  {
    hide Check;
    if times != [] {
      FromTail(start, times);
      LetThroughFrom(Check(b, limit, times[0]).0, limit, times[1..], times[0], end);
    }
  }

  /** From a bucket or from the one a denied check has left of it: the same run. */
  lemma FreeBefore(b: Bucket, limit: Limit, now: nat, times: seq<nat>)
    requires b.updated <= now && Check(b, limit, now).1.Denied? && times != [] && now <= times[0]
    ensures RunFrom(Check(b, limit, now).0, limit, times) == RunFrom(b, limit, times)
  {
    hide Check;
    DeniedIsFree(b, limit, now, times[0]);
  }

  /** Main result: however often a client polls in between, it is let through as if it had made only
      the checks that succeed, and finds the same bucket and the same answer at any later time. */
  lemma {:induction false} PollingIsFree(b: Bucket, limit: Limit, times: seq<nat>, later: nat)
    requires From(b.updated, times) && b.updated <= later && forall i | 0 <= i < |times| :: times[i] <= later
    ensures var kept := LetThrough(b, limit, times);
            && CountAllowed(RunFrom(b, limit, kept).1) == |kept| == CountAllowed(RunFrom(b, limit, times).1)
            && Check(RunFrom(b, limit, kept).0, limit, later) == Check(RunFrom(b, limit, times).0, limit, later)
    decreases |times|
  {
    hide Check, From;
    if times != [] {
      var now, rest := times[0], times[1..];
      FromTail(b.updated, times);
      var c := Check(b, limit, now);
      ChecksAt(b, limit, now);
      PollingIsFree(c.0, limit, rest, later);
      LetThroughFrom(c.0, limit, rest, now, later);
      var kept := LetThrough(c.0, limit, rest);
      CountCons(c.1, RunFrom(c.0, limit, rest).1);
      if c.1.Allowed? {
        assert ([now] + kept)[1..] == kept;
        CountCons(c.1, RunFrom(c.0, limit, kept).1);
      } else {
        assert [] + kept == kept;
        if kept == [] {
          DeniedIsFree(b, limit, now, later);
        } else {
          FreeBefore(b, limit, now, kept);
        }
      }
    }
  }

  lemma ChecksAt(b: Bucket, limit: Limit, now: nat)
    ensures Check(b, limit, now).0.updated == now
  {}

  // ---- The balance of a run ------------------------------------------------------------

  function Elapsed(b: Bucket, now: nat): nat {
    if now >= b.updated then now - b.updated else 0
  }

  /** Refill that runs over the rim. */
  function Overflow(b: Bucket, limit: Limit, now: nat): real {
    var over := b.tokens + Credit(limit, Elapsed(b, now)) - limit.capacity as real;
    if over > 0.0 then over else 0.0
  }

  function Lost(b: Bucket, limit: Limit, times: seq<nat>): (lost: real)
    ensures lost >= 0.0
    decreases |times|
  {
    if times == [] then 0.0
    else Overflow(b, limit, times[0]) + Lost(Check(b, limit, times[0]).0, limit, times[1..])
  }

  /** Main result: tokens at the start and refill on the one side, checks let through, tokens at the
      end and overflow on the other. */
  lemma {:induction false} TokensBalance(b: Bucket, limit: Limit, times: seq<nat>)
    ensures var (end, vs) := RunFrom(b, limit, times);
            CountAllowed(vs) as real + end.tokens + Lost(b, limit, times) == b.tokens + Credit(limit, Forward(b.updated, times))
    decreases |times|
  {
    hide Check, Credit, Overflow;
    if times == [] {
      NoTime(limit);
    } else {
      var c, rest := Check(b, limit, times[0]), times[1..];
      ChecksAt(b, limit, times[0]);
      OneBalances(b, limit, times[0]);
      TokensBalance(c.0, limit, rest);
      CreditAdds(limit, Elapsed(b, times[0]), Forward(times[0], rest));
      CountCons(c.1, RunFrom(c.0, limit, rest).1);
    }
  }

  lemma NoTime(limit: Limit)
    ensures Credit(limit, 0) == 0.0
  {
    assert 0 * limit.refillPerSec == 0;
  }

  lemma OneBalances(b: Bucket, limit: Limit, now: nat)
    ensures var c := Check(b, limit, now);
            (if c.1.Allowed? then 1.0 else 0.0) + c.0.tokens + Overflow(b, limit, now) == b.tokens + Credit(limit, Elapsed(b, now))
  {
    hide Credit, RetryAfter;
  }

  /** The gaps between checks are too short to earn more than one token each. */
  predicate Frequent(limit: Limit, last: nat, times: seq<nat>)
    decreases |times|
  {
    times == [] || (Credit(limit, if times[0] >= last then times[0] - last else 0) <= 1.0 && Frequent(limit, times[0], times[1..]))
  }

  lemma FrequentStep(b: Bucket, limit: Limit, now: nat)
    requires 0.0 <= b.tokens < 1.0 && limit.capacity >= 2 && Credit(limit, Elapsed(b, now)) <= 1.0
    ensures var c := Check(b, limit, now); 0.0 <= c.0.tokens < 1.0 && Overflow(b, limit, now) == 0.0
  {
    hide Credit, RetryAfter;
    CreditIsPositive(limit, Elapsed(b, now));
  }

  lemma {:induction false} FrequentLosesNothing(b: Bucket, limit: Limit, times: seq<nat>)
    requires 0.0 <= b.tokens < 1.0 && limit.capacity >= 2 && Frequent(limit, b.updated, times)
    ensures Lost(b, limit, times) == 0.0 && 0.0 <= RunFrom(b, limit, times).0.tokens < 1.0
    decreases |times|
  {
    hide Check, Credit, Overflow;
    if times != [] {
      ChecksAt(b, limit, times[0]);
      FrequentStep(b, limit, times[0]);
      FrequentLosesNothing(Check(b, limit, times[0]).0, limit, times[1..]);
    }
  }

  /** The lower bound: a client out of tokens that checks often enough gets every whole token that is
      refilled meanwhile, no more and no fewer. */
  lemma FrequentGetsAll(b: Bucket, limit: Limit, times: seq<nat>)
    requires 0.0 <= b.tokens < 1.0 && limit.capacity >= 2 && Frequent(limit, b.updated, times)
    ensures CountAllowed(RunFrom(b, limit, times).1) == (b.tokens + Credit(limit, Forward(b.updated, times))).Floor
  {
    hide Credit, RunFrom, CountAllowed;
    TokensBalance(b, limit, times);
    FrequentLosesNothing(b, limit, times);
  }

  // ---- The numbers in an answer --------------------------------------------------------

  /** `k` checks at one time. */
  function AtOnce(now: nat, k: nat): (times: seq<nat>)
    ensures |times| == k && (k > 0 ==> times[0] == now)
  {
    seq(k, _ => now)
  }

  lemma OneAtOnce(t: real, limit: Limit, now: nat)
    requires 0.0 <= t <= limit.capacity as real
    ensures var c := Check(Bucket(t, now), limit, now);
            if t >= 1.0 then c.1.Allowed? && c.0 == Bucket(t - 1.0, now) else c.1.Denied? && c.0 == Bucket(t, now)
  {
    hide Credit, RetryAfter;
    NoTime(limit);
  }

  /** Of `k` checks at one time, as many are let through as there are whole tokens. */
  lemma {:induction false} BurstAdmits(t: real, limit: Limit, now: nat, k: nat)
    requires 0.0 <= t <= limit.capacity as real
    ensures CountAllowed(RunFrom(Bucket(t, now), limit, AtOnce(now, k)).1) == if k <= t.Floor then k else t.Floor
    decreases k
  {
    hide Check;
    if k > 0 {
      assert AtOnce(now, k)[1..] == AtOnce(now, k - 1);
      var c := Check(Bucket(t, now), limit, now);
      OneAtOnce(t, limit, now);
      CountCons(c.1, RunFrom(c.0, limit, AtOnce(now, k - 1)).1);
      BurstAdmits(if t >= 1.0 then t - 1.0 else t, limit, now, k - 1);
    }
  }

  /** The `remaining` of an answer: of any number of further checks at once, exactly that many are
      let through. */
  lemma RemainingExact(b: Bucket, limit: Limit, now: nat, k: nat)
    requires Sane(b, limit) && Check(b, limit, now).1.Allowed?
    ensures var (b', v) := Check(b, limit, now);
            CountAllowed(RunFrom(b', limit, AtOnce(now, k)).1) == if k <= v.remaining then k else v.remaining
  {
    hide RunFrom, CountAllowed, AtOnce;
    var c := Check(b, limit, now);
    CheckIsSane(b, limit, now);
    BurstAdmits(c.0.tokens, limit, now, k);
  }

  /** A new key admits its capacity at once, and no more. */
  lemma FreshAdmits(limit: Limit, now: nat, k: nat)
    ensures CountAllowed(RunFrom(Fresh(limit, now), limit, AtOnce(now, k)).1) == if k <= limit.capacity then k else limit.capacity
  {
    BurstAdmits(limit.capacity as real, limit, now, k);
  }

  lemma BelowCeil(n: int, x: real)
    requires n < Ceil(x)
    ensures (n as real) < x
  {}

  lemma TooEarly(need: real, refill: real, secs: real)
    requires refill > 0.0 && secs < need / refill
    ensures secs * refill < need
  {
    var q := need / refill;
    assert q * refill == need;
    assert (q - secs) * refill > 0.0;
  }

  /** The announced wait is the shortest in whole seconds: after any smaller number the check is
      still denied. */
  lemma RetryIsShortest(b: Bucket, limit: Limit, now: nat, secs: nat)
    requires Sane(b, limit) && limit.refillPerSec > 0 && Check(b, limit, now).1.Denied? && secs < Check(b, limit, now).1.retryAfterSecs
    ensures Check(Check(b, limit, now).0, limit, now + 1000 * secs).1.Denied?
  {
    hide Credit;
    var t, refill := Check(b, limit, now).0.tokens, limit.refillPerSec as real;
    if secs == 0 {
      NoTime(limit);
    } else {
      BelowCeil(secs, (1.0 - t) / refill);
      TooEarly(1.0 - t, refill, secs as real);
      WholeSeconds(limit, secs);
    }
  }

  lemma WholeSeconds(limit: Limit, secs: nat)
    ensures Credit(limit, 1000 * secs) == secs as real * limit.refillPerSec as real
  {
    assert (1000 * secs * limit.refillPerSec) as real == 1000.0 * (secs as real * limit.refillPerSec as real);
  }

  /** Without any refill the wait announced is the largest 32-bit number, and no wait is long enough. */
  lemma NeverRefilled(b: Bucket, limit: Limit, now: nat, later: nat)
    requires limit.refillPerSec == 0 && Check(b, limit, now).1.Denied?
    ensures Check(b, limit, now).1.retryAfterSecs == 4294967295
    ensures Check(Check(b, limit, now).0, limit, later).1.Denied?
  {
    hide Credit;
    NoCredit(limit, if later >= now then later - now else 0);
  }
}
