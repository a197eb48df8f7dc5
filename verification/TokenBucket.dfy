/** The backend's write limiter: a token bucket, over exact seconds. */
module TokenBucket {
  datatype Bucket = Bucket(tokens: real, max: real, perSec: real, last: real)

  function Capped(x: real, max: real): real { if x > max then max else x }

  function Gain(b: Bucket, now: real): real { (now - b.last) * b.perSec }

  function Refilled(b: Bucket, now: real): real { Capped(b.tokens + Gain(b, now), b.max) }

  predicate Allows(b: Bucket, now: real) { Refilled(b, now) >= 1.0 }

  function After(b: Bucket, now: real): Bucket {
    b.(tokens := if Allows(b, now) then Refilled(b, now) - 1.0 else Refilled(b, now), last := now)
  }

  class RateLimiter {
    var tokens: real
    const max: real
    const perSec: real
    var last: real

    function State(): Bucket
      reads this
    {
      Bucket(tokens, max, perSec, last)
    }

    constructor (perSec: real, burst: real, now: real)
      ensures State() == Bucket(burst, burst, perSec, now)
      ensures burst >= 0.0 && perSec >= 0.0 ==> Run(State(), [])
    {
      this.tokens, this.max, this.perSec, this.last := burst, burst, perSec, now;
    }

    method Allow(now: real) returns (ok: bool)
      modifies this
      ensures ok == Allows(old(State()), now) && State() == After(old(State()), now)
    {
      ghost var refilled := Refilled(State(), now);
      tokens := tokens + (now - last) * perSec;
      if tokens > max {
        tokens := max;
      }
      assert tokens == refilled;
      last := now;
      if tokens >= 1.0 {
        tokens := tokens - 1.0;
        return true;
      }
      return false;
    }
  }

  // ---- runs of calls ----

  /** The bucket before call k of a run. */
  function Before(b: Bucket, times: seq<real>, k: nat): Bucket
    requires k <= |times|
  {
    if k == 0 then b else After(Before(b, times, k - 1), times[k - 1])
  }

  predicate AllowedAt(b: Bucket, times: seq<real>, k: nat)
    requires k < |times|
  {
    Allows(Before(b, times, k), times[k])
  }

  /** How many of the calls i..j (j excluded) are allowed. */
  function Allowed(b: Bucket, times: seq<real>, i: nat, j: nat): nat
    requires i <= j <= |times|
    decreases j
  {
    if i == j then 0 else Allowed(b, times, i, j - 1) + (if AllowedAt(b, times, j - 1) then 1 else 0)
  }

  /** A limiter as constructed, and calls in time order after it. */
  ghost predicate Run(b: Bucket, times: seq<real>) {
    && b.tokens == b.max && b.max >= 0.0 && b.perSec >= 0.0
    && (times != [] ==> times[0] >= b.last)
    && forall k :: 0 < k < |times| ==> times[k - 1] <= times[k]
  }

  // ---- the same bucket, on a meter of tokens earned so far ----

  /** meter[k + 1] is what has been earned by call k, and meter[0] what had been at the start. */
  ghost predicate Rising(meter: seq<real>) {
    |meter| > 0 && forall k :: 0 < k < |meter| ==> meter[k - 1] <= meter[k]
  }

  /** Tokens left before call k. */
  function Left(max: real, meter: seq<real>, k: nat): real
    requires k < |meter|
    decreases k, 0
  {
    if k == 0 then max
    else if Level(max, meter, k - 1) >= 1.0 then Level(max, meter, k - 1) - 1.0
    else Level(max, meter, k - 1)
  }

  /** Tokens call k is judged by. */
  function Level(max: real, meter: seq<real>, k: nat): real
    requires k + 1 < |meter|
    decreases k, 1
  {
    Capped(Left(max, meter, k) + (meter[k + 1] - meter[k]), max)
  }

  function Passed(max: real, meter: seq<real>, i: nat, j: nat): nat
    requires i <= j < |meter|
    decreases j
  {
    if i == j then 0 else Passed(max, meter, i, j - 1) + (if Level(max, meter, j - 1) >= 1.0 then 1 else 0)
  }

  lemma {:induction false} LeftInRange(max: real, meter: seq<real>, k: nat)
    requires max >= 0.0 && Rising(meter) && k < |meter|
    ensures 0.0 <= Left(max, meter, k) <= max
  {
    if k > 0 {
      LeftInRange(max, meter, k - 1);
    }
  }

  /** The level is no more than any window up to it has left over. */
  lemma {:induction false} LevelBelowWindow(max: real, meter: seq<real>, i: nat, k: nat)
    requires i <= k && k + 1 < |meter|
    ensures Level(max, meter, k) <= max + (meter[k + 1] - meter[i + 1]) - Passed(max, meter, i, k) as real
    decreases k
  {
    if i < k {
      LevelBelowWindow(max, meter, i, k - 1);
    }
  }

  /** And some window has exactly that left over: the one since the bucket was last full. */
  lemma {:induction false} LevelIsSomeWindow(max: real, meter: seq<real>, k: nat) returns (i: nat)
    requires Rising(meter) && k + 1 < |meter|
    ensures i <= k && Level(max, meter, k) == max + (meter[k + 1] - meter[i + 1]) - Passed(max, meter, i, k) as real
  {
    if Left(max, meter, k) + (meter[k + 1] - meter[k]) >= max {
      i := k;
    } else {
      i := LevelIsSomeWindow(max, meter, k - 1);
    }
  }

  lemma PassedInWindow(max: real, meter: seq<real>, i: nat, k: nat)
    requires max >= 0.0 && Rising(meter) && i <= k && k + 1 < |meter|
    ensures Passed(max, meter, i, k + 1) as real <= max + (meter[k + 1] - meter[i + 1])
  {
    LevelBelowWindow(max, meter, i, k);
    LeftInRange(max, meter, k);
  }

  predicate RoomFor(max: real, meter: seq<real>, i: nat, k: nat)
    requires i <= k && k + 1 < |meter|
  {
    Passed(max, meter, i, k) as real + 1.0 <= max + (meter[k + 1] - meter[i + 1])
  }

  lemma LevelIsRoom(max: real, meter: seq<real>, k: nat)
    requires Rising(meter) && k + 1 < |meter|
    ensures Level(max, meter, k) >= 1.0 <==> forall i: nat :: i <= k ==> RoomFor(max, meter, i, k)
  {
    forall i: nat | i <= k ensures Level(max, meter, k) >= 1.0 ==> RoomFor(max, meter, i, k) {
      LevelBelowWindow(max, meter, i, k);
    }
    var i := LevelIsSomeWindow(max, meter, k);
    assert RoomFor(max, meter, i, k) ==> Level(max, meter, k) >= 1.0;
  }

  // ---- the two views agree ----

  function LastCall(b: Bucket, times: seq<real>, k: nat): real
    requires k <= |times|
  {
    if k == 0 then b.last else times[k - 1]
  }

  function Worth(t: real, perSec: real): real { t * perSec }

  function Meter(b: Bucket, times: seq<real>): (meter: seq<real>)
    ensures |meter| == |times| + 1
  {
    seq(|times| + 1, k requires 0 <= k <= |times| => Worth(LastCall(b, times, k), b.perSec))
  }

  lemma MeterAt(b: Bucket, times: seq<real>, k: nat, t: real)
    requires k <= |times| && t == LastCall(b, times, k)
    ensures Meter(b, times)[k] == t * b.perSec
  {
    assert Meter(b, times)[k] == Worth(t, b.perSec);
  }

  lemma Spread(t: real, u: real, p: real)
    ensures (t - u) * p == t * p - u * p
    ensures t >= u && p >= 0.0 ==> t * p >= u * p
  {
    if t >= u && p >= 0.0 {
      assert (t - u) * p >= 0.0;
    }
  }

  lemma MeterRises(b: Bucket, times: seq<real>)
    requires Run(b, times)
    ensures Rising(Meter(b, times))
  {
    var meter := Meter(b, times);
    forall k | 0 < k < |meter| ensures meter[k - 1] <= meter[k] {
      MeterAt(b, times, k, LastCall(b, times, k));
      MeterAt(b, times, k - 1, LastCall(b, times, k - 1));
      Spread(LastCall(b, times, k), LastCall(b, times, k - 1), b.perSec);
    }
  }

  lemma Product(to: real, from: real, t: real, u: real, p: real)
    requires to == t * p && from == u * p
    ensures to - from == (t - u) * p
  {
    Spread(t, u, p);
  }

  lemma RefilledIsCapped(b: Bucket, now: real, to: real, from: real)
    requires to == now * b.perSec && from == b.last * b.perSec
    ensures Refilled(b, now) == Capped(b.tokens + (to - from), b.max)
  {
    assert Gain(b, now) == to - from by { Product(to, from, now, b.last, b.perSec); }
  }

  lemma RefilledOnMeter(b: Bucket, times: seq<real>, k: nat)
    requires k < |times| && b.last == LastCall(b, times, k)
    ensures Refilled(b, times[k]) == Capped(b.tokens + (Meter(b, times)[k + 1] - Meter(b, times)[k]), b.max)
  {
    MeterAt(b, times, k + 1, times[k]);
    MeterAt(b, times, k, b.last);
    RefilledIsCapped(b, times[k], Meter(b, times)[k + 1], Meter(b, times)[k]);
  }

  lemma RefilledIsLevel(b: Bucket, times: seq<real>, k: nat, left: real)
    requires k < |times| && left == Left(b.max, Meter(b, times), k)
    ensures Refilled(Bucket(left, b.max, b.perSec, LastCall(b, times, k)), times[k]) == Level(b.max, Meter(b, times), k)
  {
    var from, to := Meter(b, times)[k], Meter(b, times)[k + 1];
    assert Level(b.max, Meter(b, times), k) == Capped(left + (to - from), b.max);
    RefilledOnMeter(Bucket(left, b.max, b.perSec, LastCall(b, times, k)), times, k);
  }

  lemma {:induction false} BucketIsLeft(b: Bucket, times: seq<real>, k: nat)
    requires b.tokens == b.max && k <= |times|
    ensures Before(b, times, k) == Bucket(Left(b.max, Meter(b, times), k), b.max, b.perSec, LastCall(b, times, k))
  {
    if k > 0 {
      BucketIsLeft(b, times, k - 1);
      RefilledIsLevel(b, times, k - 1, Left(b.max, Meter(b, times), k - 1));
    }
  }

  lemma AllowedAtIsLevel(b: Bucket, times: seq<real>, k: nat)
    requires b.tokens == b.max && k < |times|
    ensures AllowedAt(b, times, k) <==> Level(b.max, Meter(b, times), k) >= 1.0
  {
    BucketIsLeft(b, times, k);
    RefilledIsLevel(b, times, k, Left(b.max, Meter(b, times), k));
  }

  lemma {:induction false} AllowedIsPassed(b: Bucket, times: seq<real>, i: nat, j: nat)
    requires b.tokens == b.max && i <= j <= |times|
    ensures Allowed(b, times, i, j) == Passed(b.max, Meter(b, times), i, j)
    decreases j
  {
    if i < j {
      AllowedIsPassed(b, times, i, j - 1);
      AllowedAtIsLevel(b, times, j - 1);
    }
  }

  /** Tokens earned between call i and call k. */
  lemma MeterSpan(b: Bucket, times: seq<real>, i: nat, k: nat)
    requires i <= k < |times|
    ensures Meter(b, times)[k + 1] - Meter(b, times)[i + 1] == (times[k] - times[i]) * b.perSec
  {
    MeterAt(b, times, k + 1, times[k]);
    MeterAt(b, times, i + 1, times[i]);
    Product(Meter(b, times)[k + 1], Meter(b, times)[i + 1], times[k], times[i], b.perSec);
  }

  /** n calls are within what the burst and the rate give from call i to call k. */
  predicate WithinRate(n: nat, b: Bucket, times: seq<real>, i: nat, k: nat)
    requires i <= k < |times|
  {
    n as real <= b.max + (times[k] - times[i]) * b.perSec
  }

  lemma WithinMeter(n: nat, b: Bucket, times: seq<real>, i: nat, k: nat)
    requires i <= k < |times|
    ensures WithinRate(n, b, times, i, k) <==> n as real <= b.max + (Meter(b, times)[k + 1] - Meter(b, times)[i + 1])
  {
    MeterSpan(b, times, i, k);
  }

  // ---- what the limiter promises ----

  /** The token count stays between empty and the burst. */
  lemma TokensInRange(b: Bucket, times: seq<real>, k: nat)
    requires Run(b, times) && k <= |times|
    ensures 0.0 <= Before(b, times, k).tokens <= b.max
  {
    MeterRises(b, times);
    BucketIsLeft(b, times, k);
    LeftInRange(b.max, Meter(b, times), k);
  }

  /** In any window of calls i..k, at most the burst plus the rate times its length are allowed. */
  lemma WindowBound(b: Bucket, times: seq<real>, i: nat, k: nat)
    requires Run(b, times) && i <= k < |times|
    ensures WithinRate(Allowed(b, times, i, k + 1), b, times, i, k)
  {
    MeterRises(b, times);
    AllowedIsPassed(b, times, i, k + 1);
    PassedInWindow(b.max, Meter(b, times), i, k);
    WithinMeter(Passed(b.max, Meter(b, times), i, k + 1), b, times, i, k);
  }

  /** The calls allowed from i up to, not counting, k leave room for k within burst plus rate. */
  predicate HasRoom(b: Bucket, times: seq<real>, i: nat, k: nat)
    requires i <= k < |times|
  {
    WithinRate(Allowed(b, times, i, k) + 1, b, times, i, k)
  }

  lemma RoomIsRoom(b: Bucket, times: seq<real>, i: nat, k: nat)
    requires b.tokens == b.max && i <= k < |times|
    ensures HasRoom(b, times, i, k) <==> RoomFor(b.max, Meter(b, times), i, k)
  {
    AllowedIsPassed(b, times, i, k);
    WithinMeter(Passed(b.max, Meter(b, times), i, k) + 1, b, times, i, k);
  }

  ghost predicate EveryWindowHasRoom(b: Bucket, times: seq<real>, k: nat)
    requires k < |times|
  {
    forall i: nat :: i <= k ==> HasRoom(b, times, i, k)
  }

  /** Exactly when a call is allowed: every window ending in it still has room for one more. */
  lemma AllowedExactlyWhen(b: Bucket, times: seq<real>, k: nat)
    requires Run(b, times) && k < |times|
    ensures AllowedAt(b, times, k) <==> EveryWindowHasRoom(b, times, k)
  {
    MeterRises(b, times);
    AllowedAtIsLevel(b, times, k);
    if AllowedAt(b, times, k) {
      forall i: nat | i <= k ensures HasRoom(b, times, i, k) {
        LevelIsRoom(b.max, Meter(b, times), k);
        RoomIsRoom(b, times, i, k);
      }
    } else {
      var i := FullWindow(b, times, k);
    }
  }

  lemma FullWindow(b: Bucket, times: seq<real>, k: nat) returns (i: nat)
    requires Run(b, times) && k < |times| && Level(b.max, Meter(b, times), k) < 1.0
    ensures i <= k && !HasRoom(b, times, i, k)
  {
    MeterRises(b, times);
    i := LevelIsSomeWindow(b.max, Meter(b, times), k);
    RoomIsRoom(b, times, i, k);
  }
}
