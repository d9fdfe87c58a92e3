/** The per-client token bucket (services/rate_limit.py).  Clock readings are parameters. */
module RateLimit {
  datatype Bucket = Bucket(tokens: real, updatedAt: real)

  function MaxR(a: real, b: real): (m: real) { if a < b then b else a }

  function MinR(a: real, b: real): (m: real) { if a < b then a else b }

  function Refilled(b: Bucket, now: real, rate: real, burst: real): (tokens: real) {
    MinR(burst, b.tokens + MaxR(0.0, now - b.updatedAt) * rate)
  }

  predicate Admits(b: Bucket, now: real, rate: real, burst: real) {
    Refilled(b, now, rate, burst) >= 1.0
  }

  function Charged(b: Bucket, now: real, rate: real, burst: real): (after: Bucket) {
    var tokens := Refilled(b, now, rate, burst);
    Bucket(if tokens < 1.0 then tokens else tokens - 1.0, now)
  }

  /** The answer and the bucket afterwards, from the level and the time of the bucket before. */
  predicate AnsweredInFields(before: Bucket, now: real, rate: real, burst: real, after: Bucket, allowed: bool) {
    var gain := if now < before.updatedAt then 0.0 else (now - before.updatedAt) * rate;
    var level := if before.tokens + gain > burst then burst else before.tokens + gain;
    && after.updatedAt == now
    && (level < 1.0 ==> !allowed && after.tokens == level)
    && (level >= 1.0 ==> allowed && after.tokens == level - 1.0)
  }

  class TokenBucket {
    var tokens: real
    var updatedAt: real

    constructor (capacity: real, now: real)
      ensures tokens == capacity && updatedAt == now
    {
      tokens, updatedAt := capacity, now;
    }

    function View(): (b: Bucket)
      reads this
    {
      Bucket(tokens, updatedAt)
    }

    /** Refill for the time since the last request, then take one token if there is one. */
    method Take(now: real, rate: real, burst: real) returns (allowed: bool)
      modifies this
      ensures allowed == Admits(old(View()), now, rate, burst) && View() == Charged(old(View()), now, rate, burst)
      ensures AnsweredInFields(old(View()), now, rate, burst, View(), allowed)
    {
      var elapsed := MaxR(0.0, now - updatedAt);
      tokens := MinR(burst, tokens + elapsed * rate);
      updatedAt := now;
      if tokens < 1.0 {
        return false;
      }
      tokens := tokens - 1.0;
      return true;
    }
  }

  class RateLimiter {
    const rate: real
    const burst: real
    var buckets: map<string, TokenBucket>

    constructor (rate: real, burst: real)
      ensures this.rate == rate && this.burst == burst && buckets == map[] && Valid()
    {
      this.rate, this.burst := rate, burst;
      buckets := map[];
    }

    /** Every client has a bucket of its own. */
    ghost predicate Valid()
      reads this
    {
      forall k, m :: k in buckets && m in buckets && k != m ==> buckets[k] != buckets[m]
    }

    /** The bucket a request of this client meets: its own, or a full one made at `created`. */
    ghost function Met(key: string, created: real): (b: Bucket)
      reads this, if key in buckets then {buckets[key]} else {}
    {
      if key in buckets then buckets[key].View() else Bucket(burst, created)
    }

    /** `now` is read before the lock is taken, `created` when a new bucket is made. */
    method Allow(key: string, now: real, created: real) returns (allowed: bool)
      requires Valid()
      modifies this, buckets.Values
      ensures Valid()
      ensures rate <= 0.0 || burst <= 0.0 ==>
                allowed && buckets == old(buckets) && forall k :: k in buckets ==> buckets[k].View() == old(buckets[k].View())
      ensures rate > 0.0 && burst > 0.0 ==>
                && allowed == Admits(old(Met(key, created)), now, rate, burst)
                && key in buckets && buckets[key].View() == Charged(old(Met(key, created)), now, rate, burst)
                && buckets.Keys == old(buckets.Keys) + {key}
                && forall k :: k in old(buckets) ==> buckets[k] == old(buckets[k])
      ensures rate > 0.0 && burst > 0.0 && key in old(buckets) ==>
                AnsweredInFields(old(buckets[key].View()), now, rate, burst, buckets[key].View(), allowed)
      ensures rate > 0.0 && burst > 0.0 && key !in old(buckets) ==>
                AnsweredInFields(Bucket(burst, created), now, rate, burst, buckets[key].View(), allowed)
      ensures forall k :: k in old(buckets) && k != key ==> buckets[k].View() == old(buckets[k].View())
    {
      if rate <= 0.0 || burst <= 0.0 {
        return true;
      }
      if key !in buckets {
        var fresh1 := new TokenBucket(burst, created);
        buckets := buckets[key := fresh1];
      }
      var bucket := buckets[key];
      allowed := bucket.Take(now, rate, burst);
    }
  }

  // --------------------------------------------------------- whole runs of one client

  /** The bucket after the first n requests, whose clock readings are `times` in lock order. */
  function After(times: seq<real>, n: nat, rate: real, burst: real): (b: Bucket)
    requires n <= |times| && times != []
  {
    if n == 0 then Bucket(burst, times[0]) else Charged(After(times, n - 1, rate, burst), times[n - 1], rate, burst)
  }

  predicate Admitted(times: seq<real>, n: nat, rate: real, burst: real)
    requires n < |times|
  {
    Admits(After(times, n, rate, burst), times[n], rate, burst)
  }

  predicate Answered(times: seq<real>, answers: seq<bool>, k: nat, rate: real, burst: real)
    requires k < |times| == |answers|
  {
    answers[k] == Admitted(times, k, rate, burst)
  }

  /** `answers` is what the client was told over the run. */
  ghost predicate Admitting(times: seq<real>, answers: seq<bool>, rate: real, burst: real) {
    |answers| == |times| && forall k :: 0 <= k < |times| ==> Answered(times, answers, k, rate, burst)
  }

  /** Yes answers among number i up to, not including, number j. */
  function Count(answers: seq<bool>, i: nat, j: nat): (c: nat)
    requires i <= j <= |answers|
    decreases j
  {
    if i == j then 0 else Count(answers, i, j - 1) + if answers[j - 1] then 1 else 0
  }

  /** Sum of the entries number i + 1 up to, not including, number j. */
  function Total(gains: seq<real>, i: nat, j: nat): (d: real)
    requires i < j <= |gains|
    decreases j
  {
    if j == i + 1 then 0.0 else Total(gains, i, j - 1) + gains[j - 1]
  }

  /** How far the clock moved forward before request k. */
  function Move(times: seq<real>, k: nat): (d: real)
    requires k < |times|
  {
    if k == 0 then 0.0 else MaxR(0.0, times[k] - times[k - 1])
  }

  function Gains(times: seq<real>, rate: real): (r: seq<real>)
    ensures |r| == |times|
  {
    seq(|times|, k requires 0 <= k < |times| => Move(times, k) * rate)
  }

  /** Forward movement of the clock from request i to request j - 1. */
  function Climb(times: seq<real>, i: nat, j: nat): (d: real)
    requires i < j <= |times|
    decreases j
  {
    if j == i + 1 then 0.0 else Climb(times, i, j - 1) + Move(times, j - 1)
  }

  lemma NonNegative(a: real, b: real)
    requires a >= 0.0 && b >= 0.0
    ensures a * b >= 0.0
  {
  }

  lemma {:induction false} TokensInRange(times: seq<real>, n: nat, rate: real, burst: real)
    requires rate > 0.0 && burst > 0.0 && n <= |times| && times != []
    ensures 0.0 <= After(times, n, rate, burst).tokens <= burst
    ensures After(times, n, rate, burst).updatedAt == if n == 0 then times[0] else times[n - 1]
  {
    if n > 0 {
      TokensInRange(times, n - 1, rate, burst);
      var b := After(times, n - 1, rate, burst);
      NonNegative(MaxR(0.0, times[n - 1] - b.updatedAt), rate);
    }
  }

  /** One request: what it spends and what it leaves were there before or came in since. */
  lemma ChargeBalances(b: Bucket, now: real, rate: real, burst: real)
    ensures var spent := if Admits(b, now, rate, burst) then 1.0 else 0.0;
            && spent + Charged(b, now, rate, burst).tokens <= burst
            && spent + Charged(b, now, rate, burst).tokens <= b.tokens + MaxR(0.0, now - b.updatedAt) * rate
  {
  }

  ghost predicate Balanced(answers: seq<bool>, tokens: seq<real>, gains: seq<real>, burst: real, k: nat)
    requires k < |answers| == |gains| && |tokens| == |answers| + 1
  {
    var spent := if answers[k] then 1.0 else 0.0;
    spent + tokens[k + 1] <= burst && (k > 0 ==> spent + tokens[k + 1] <= tokens[k] + gains[k])
  }

  /** The same over a stretch, with the balances given as plain sequences: tokens[k] is what request
      k finds, gains[k] what came in before it. */
  lemma {:induction false} Budget(answers: seq<bool>, tokens: seq<real>, gains: seq<real>, burst: real, i: nat, j: nat)
    requires i < j <= |answers| == |gains| && |tokens| == |answers| + 1
    requires forall k :: 0 <= k < |answers| ==> Balanced(answers, tokens, gains, burst, k)
    ensures Count(answers, i, j) as real + tokens[j] <= burst + Total(gains, i, j)
    decreases j
  {
    assert Balanced(answers, tokens, gains, burst, j - 1);
    if j == i + 1 {
      assert Count(answers, i, i) == 0;
    } else {
      Budget(answers, tokens, gains, burst, i, j - 1);
    }
  }

  lemma {:induction false} GainsAreClimb(times: seq<real>, rate: real, i: nat, j: nat)
    requires i < j <= |times|
    ensures Total(Gains(times, rate), i, j) == rate * Climb(times, i, j)
    decreases j
  {
    if j > i + 1 {
      GainsAreClimb(times, rate, i, j - 1);
      assert Gains(times, rate)[j - 1] == Move(times, j - 1) * rate;
    }
  }

  lemma RequestBalances(times: seq<real>, k: nat, rate: real, burst: real)
    requires rate > 0.0 && burst > 0.0 && k < |times|
    ensures var spent := if Admitted(times, k, rate, burst) then 1.0 else 0.0;
            && spent + After(times, k + 1, rate, burst).tokens <= burst
            && (k > 0 ==> spent + After(times, k + 1, rate, burst).tokens
                          <= After(times, k, rate, burst).tokens + Move(times, k) * rate)
  {
    ChargeBalances(After(times, k, rate, burst), times[k], rate, burst);
    TokensInRange(times, k, rate, burst);
  }

  ghost predicate NeverBack(times: seq<real>, i: nat, j: nat)
    requires j <= |times|
  {
    forall k, m :: i <= k <= m < j ==> times[k] <= times[m]
  }

  function Levels(times: seq<real>, n: nat, rate: real, burst: real): (r: seq<real>)
    requires n <= |times| && times != []
    ensures |r| == n + 1
  {
    if n == 0 then [burst] else Levels(times, n - 1, rate, burst) + [After(times, n, rate, burst).tokens]
  }

  lemma {:induction false} LevelAt(times: seq<real>, n: nat, k: nat, rate: real, burst: real)
    requires k <= n <= |times| && times != []
    ensures Levels(times, n, rate, burst)[k] == After(times, k, rate, burst).tokens
  {
    if k < n {
      LevelAt(times, n - 1, k, rate, burst);
    }
  }

  lemma GainAt(times: seq<real>, k: nat, rate: real)
    requires k < |times|
    ensures Gains(times, rate)[k] == Move(times, k) * rate
  {
  }

  lemma BalancedAt(times: seq<real>, answers: seq<bool>, tokens: seq<real>, gains: seq<real>, rate: real, burst: real, k: nat)
    requires rate > 0.0 && burst > 0.0 && k < |times| == |answers| == |gains| && |tokens| == |times| + 1
    requires Answered(times, answers, k, rate, burst) && gains[k] == Move(times, k) * rate
    requires tokens[k] == After(times, k, rate, burst).tokens && tokens[k + 1] == After(times, k + 1, rate, burst).tokens
    ensures Balanced(answers, tokens, gains, burst, k)
  {
    RequestBalances(times, k, rate, burst);
  }

  lemma Ledger(times: seq<real>, answers: seq<bool>, rate: real, burst: real, k: nat)
    requires rate > 0.0 && burst > 0.0 && k < |times| && Admitting(times, answers, rate, burst)
    ensures Balanced(answers, Levels(times, |times|, rate, burst), Gains(times, rate), burst, k)
  {
    assert Answered(times, answers, k, rate, burst);
    LevelAt(times, |times|, k, rate, burst);
    LevelAt(times, |times|, k + 1, rate, burst);
    GainAt(times, k, rate);
    BalancedAt(times, answers, Levels(times, |times|, rate, burst), Gains(times, rate), rate, burst, k);
  }

  /** Whatever the order of the clock readings, any stretch of requests admits at most the burst plus
      the rate times the forward movement of the clock within it. */
  lemma AdmittedWithinClimb(times: seq<real>, answers: seq<bool>, i: nat, j: nat, rate: real, burst: real)
    requires rate > 0.0 && burst > 0.0 && i < j <= |times| && Admitting(times, answers, rate, burst)
    ensures Count(answers, i, j) as real <= burst + rate * Climb(times, i, j)
  {
    var tokens := Levels(times, |times|, rate, burst);
    forall k | 0 <= k < |answers| ensures Balanced(answers, tokens, Gains(times, rate), burst, k) {
      Ledger(times, answers, rate, burst, k);
    }
    LevelAt(times, |times|, j, rate, burst);
    TokensInRange(times, j, rate, burst);
    Budget(answers, tokens, Gains(times, rate), burst, i, j);
    GainsAreClimb(times, rate, i, j);
  }

  lemma {:induction false} ClimbWhenOrdered(times: seq<real>, i: nat, j: nat)
    requires i < j <= |times|
    requires NeverBack(times, i, j)
    ensures Climb(times, i, j) == times[j - 1] - times[i]
    decreases j
  {
    if j > i + 1 {
      ClimbWhenOrdered(times, i, j - 1);
      assert times[j - 2] <= times[j - 1];
    }
  }

  /** The limit the setting promises, for every window of a run whose readings do not go back. */
  lemma AdmittedWithinWindow(times: seq<real>, answers: seq<bool>, i: nat, j: nat, rate: real, burst: real)
    requires rate > 0.0 && burst > 0.0 && i < j <= |times| && Admitting(times, answers, rate, burst)
    requires NeverBack(times, i, j)
    ensures Count(answers, i, j) as real <= burst + rate * (times[j - 1] - times[i])
  {
    AdmittedWithinClimb(times, answers, i, j, rate, burst);
    ClimbWhenOrdered(times, i, j);
  }

  /** The reading is taken before the lock, so a late thread may carry an early reading; then the
      same second refills the bucket twice. */
  lemma EarlyReadingBreaksWindow()
    ensures Admitting([10.0, 0.0, 10.0], [true, false, true], 0.1, 1.0)
    ensures Count([true, false, true], 0, 3) as real > 1.0 + 0.1 * (10.0 - 10.0)
  {
    var times, answers := [10.0, 0.0, 10.0], [true, false, true];
    assert After(times, 0, 0.1, 1.0) == Bucket(1.0, 10.0);
    assert After(times, 1, 0.1, 1.0) == Bucket(0.0, 10.0);
    assert After(times, 2, 0.1, 1.0) == Bucket(0.0, 0.0);
    assert Answered(times, answers, 0, 0.1, 1.0) && Answered(times, answers, 1, 0.1, 1.0) && Answered(times, answers, 2, 0.1, 1.0);
    assert Count(answers, 0, 1) == 1 && Count(answers, 0, 2) == 1;
  }

  /** The bound the setting promises, on every window of a run of one client. */
  ghost predicate WindowsBounded(times: seq<real>, answers: seq<bool>, rate: real, burst: real)
    requires |answers| == |times|
  {
    forall i, j :: 0 <= i < j <= |times| ==> WindowBounded(times, answers, rate, burst, i, j)
  }

  ghost predicate WindowBounded(times: seq<real>, answers: seq<bool>, rate: real, burst: real, i: nat, j: nat)
    requires i < j <= |times| == |answers|
  {
    Count(answers, i, j) as real <= burst + rate * (times[j - 1] - times[i])
  }

  /** ... whatever the settings. */
  ghost predicate AlwaysBounded(times: seq<real>) {
    forall rate: real, burst: real, answers: seq<bool> ::
      rate > 0.0 && burst > 0.0 && Admitting(times, answers, rate, burst) ==> WindowsBounded(times, answers, rate, burst)
  }

  function Told(times: seq<real>, n: nat, rate: real, burst: real): (answers: seq<bool>)
    requires n <= |times|
    ensures |answers| == n && forall k :: 0 <= k < n ==> answers[k] == Admitted(times, k, rate, burst)
  {
    if n == 0 then [] else Told(times, n - 1, rate, burst) + [Admitted(times, n - 1, rate, burst)]
  }

  lemma {:induction false} FirstStepBack(times: seq<real>, i: nat, j: nat) returns (k: nat)
    requires i < j < |times| && times[i] > times[j]
    ensures i <= k < j && times[k] > times[k + 1]
    decreases j
  {
    if times[j - 1] > times[j] {
      k := j - 1;
    } else {
      k := FirstStepBack(times, i, j - 1);
    }
  }

  lemma RateOverStep(d: real) returns (rate: real)
    requires d > 0.0
    ensures rate > 0.0 && rate * -d == -2.0
  {
    rate := 2.0 / d;
  }

  /** The bound holds for all settings exactly when the readings never go back in lock order. */
  lemma WindowsBoundedExactly(times: seq<real>)
    ensures AlwaysBounded(times) <==> NeverBack(times, 0, |times|)
  {
    if NeverBack(times, 0, |times|) {
      forall rate: real, burst: real, answers: seq<bool> | rate > 0.0 && burst > 0.0 && Admitting(times, answers, rate, burst)
        ensures WindowsBounded(times, answers, rate, burst)
      {
        forall i, j | 0 <= i < j <= |times| ensures WindowBounded(times, answers, rate, burst, i, j) {
          AdmittedWithinWindow(times, answers, i, j, rate, burst);
        }
      }
    } else {
      var i, j :| 0 <= i <= j < |times| && times[i] > times[j];
      BackBreaksBound(times, i, j);
    }
  }

  lemma BackBreaksBound(times: seq<real>, i: nat, j: nat)
    requires i < j < |times| && times[i] > times[j]
    ensures !AlwaysBounded(times)
  {
    var k := FirstStepBack(times, i, j);
    var rate := RateOverStep(times[k] - times[k + 1]);
    var answers := Told(times, |times|, rate, 1.0);
    forall n | 0 <= n < |times| ensures Answered(times, answers, n, rate, 1.0) {
    }
    assert Admitting(times, answers, rate, 1.0);
    assert times[k + 1] - times[k] == -(times[k] - times[k + 1]);
    assert !WindowBounded(times, answers, rate, 1.0, k, k + 2);
  }

  lemma RefillTakesTime(d: real, rate: real)
    requires rate > 0.0 && d * rate >= 1.0
    ensures d > 0.0
  {
  }

  /** A client that has been quiet for one refill period is admitted, unless the burst setting is
      below one, in which case nobody ever is. */
  lemma QuietClientAdmittedExactly(times: seq<real>, n: nat, rate: real, burst: real)
    requires rate > 0.0 && burst > 0.0 && 0 < n < |times|
    requires (times[n] - times[n - 1]) * rate >= 1.0
    ensures Admitted(times, n, rate, burst) <==> burst >= 1.0
  {
    TokensInRange(times, n, rate, burst);
    QuietBucket(After(times, n, rate, burst), times[n], rate, burst);
  }

  lemma QuietBucket(b: Bucket, now: real, rate: real, burst: real)
    requires rate > 0.0 && b.tokens >= 0.0 && (now - b.updatedAt) * rate >= 1.0
    ensures Admits(b, now, rate, burst) <==> burst >= 1.0
  {
    RefillTakesTime(now - b.updatedAt, rate);
  }
}
