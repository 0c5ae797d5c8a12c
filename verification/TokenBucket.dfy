/** The O(1) limiter and the sliding-window check it is equal to. Amounts and seconds are reals. */
module TokenBucket {

  datatype Bucket = Bucket(capacity: real, tokens: real, rate: real, lastRefill: real)

  function Min(x: real, y: real): real { if x <= y then x else y }

  function Max(x: real, y: real): real { if x <= y then y else x }

  function NewBucket(capacity: real, rate: real, now: real): Bucket {
    Bucket(capacity, capacity, rate, now)
  }

  function Refill(b: Bucket, now: real): Bucket {
    if now <= b.lastRefill then b
    else b.(tokens := Min(b.capacity, b.tokens + (now - b.lastRefill) * b.rate), lastRefill := now)
  }

  datatype Request = Request(now: real, n: real)

  function Grants(b: Bucket, q: Request): bool {
    q.n <= Refill(b, q.now).tokens
  }

  function Serve(b: Bucket, q: Request): Bucket {
    var f := Refill(b, q.now);
    if Grants(b, q) then f.(tokens := f.tokens - q.n) else f
  }

  /** The bucket after the first `k` requests. */
  function After(b: Bucket, qs: seq<Request>, k: nat): Bucket
    requires k <= |qs|
  {
    if k == 0 then b else Serve(After(b, qs, k - 1), qs[k - 1])
  }

  /** The limiter as the object it is; the clock is read once per call. */
  class Limiter {
    const capacity: real
    const refillRate: real
    var tokens: real
    var lastRefill: real

    function View(): Bucket
      reads this
    {
      Bucket(capacity, tokens, refillRate, lastRefill)
    }

    constructor (capacity: real, refillRate: real, now: real)
      ensures View() == NewBucket(capacity, refillRate, now)
      ensures tokens == capacity && lastRefill == now && this.capacity == capacity && this.refillRate == refillRate
    {
      this.capacity, this.refillRate := capacity, refillRate;
      tokens, lastRefill := capacity, now;
    }

    method RefillLocked(now: real)
      modifies this
      ensures View() == Refill(old(View()), now)
    {
      var elapsed := now - lastRefill;
      if elapsed <= 0.0 {
        return;
      }
      tokens := tokens + elapsed * refillRate;
      if tokens > capacity {
        tokens := capacity;
      }
      lastRefill := now;
    }

    method AllowN(now: real, n: real) returns (ok: bool)
      modifies this
      ensures ok == Grants(old(View()), Request(now, n))
      ensures View() == Serve(old(View()), Request(now, n))
    {
      RefillLocked(now);
      if tokens >= n {
        tokens := tokens - n;
        return true;
      }
      return false;
    }
  }

  // ----- the reference: a check over every sliding window -------------------------------

  /** The latest reading among the first `k` requests and the creation: a clock that steps back is held. */
  ghost function Clock(start: real, qs: seq<Request>, k: nat): real
    requires k <= |qs|
  {
    if k == 0 then start else Max(Clock(start, qs, k - 1), qs[k - 1].now)
  }

  ghost function Granted(b: Bucket, qs: seq<Request>, i: nat): real
    requires i < |qs|
  {
    if Grants(After(b, qs, i), qs[i]) then qs[i].n else 0.0
  }

  /** What requests `j .. k` were granted in all. */
  ghost function Spent(b: Bucket, qs: seq<Request>, j: nat, k: nat): real
    requires j <= k <= |qs|
  {
    if j == k then 0.0 else Spent(b, qs, j, k - 1) + Granted(b, qs, k - 1)
  }

  /** What a limiter created at `start` has to give in the window from request `j` to request `k`. */
  ghost function Budget(capacity: real, rate: real, start: real, qs: seq<Request>, j: nat, k: nat): real
    requires j <= k < |qs|
  {
    capacity + rate * (Clock(start, qs, k + 1) - Clock(start, qs, j + 1))
  }

  ghost function Allowance(b: Bucket, qs: seq<Request>, j: nat, k: nat): real
    requires j <= k < |qs|
  {
    Budget(b.capacity, b.rate, b.lastRefill, qs, j, k)
  }

  /** A full bucket, a rate that does not drain, and no negative requests. */
  ghost predicate Sane(b: Bucket, qs: seq<Request>) {
    0.0 <= b.rate && b.tokens == b.capacity && forall i :: 0 <= i < |qs| ==> 0.0 <= qs[i].n
  }

  // ----- saturating levels, without any arithmetic but addition -------------------------

  /** The slack of the window from `j` to `k`: it opens full, then loses and gains without a cap. */
  ghost function Slack(cap: real, gain: nat -> real, loss: nat -> real, j: nat, k: nat): real
    requires j <= k
  {
    if j == k then cap else Slack(cap, gain, loss, j, k - 1) - loss(k - 1) + gain(k)
  }

  ghost predicate Saturating(cap: real, gain: nat -> real, loss: nat -> real, level: nat -> real, k: nat) {
    && level(0) == cap
    && forall i :: 0 < i <= k ==> level(i) == Min(cap, level(i - 1) - loss(i - 1) + gain(i))
  }

  /** A level that is cut off at `cap` in every step is the smallest of all uncut windows. */
  lemma {:induction false} LevelIsTightestWindow(cap: real, gain: nat -> real, loss: nat -> real, level: nat -> real, k: nat)
    requires Saturating(cap, gain, loss, level, k)
    ensures forall j :: 0 <= j <= k ==> level(k) <= Slack(cap, gain, loss, j, k)
    ensures exists j :: 0 <= j <= k && level(k) == Slack(cap, gain, loss, j, k)
  {
    assert Slack(cap, gain, loss, k, k) == cap;
    if k > 0 {
      LevelIsTightestWindow(cap, gain, loss, level, k - 1);
      var j :| 0 <= j <= k - 1 && level(k - 1) == Slack(cap, gain, loss, j, k - 1);
      assert level(k) == Slack(cap, gain, loss, j, k) || level(k) == Slack(cap, gain, loss, k, k);
    }
  }

  // ----- the bucket is such a level -----------------------------------------------------

  ghost function Level(b: Bucket, qs: seq<Request>, k: nat): real
    requires k < |qs|
  {
    Refill(After(b, qs, k), qs[k].now).tokens
  }

  ghost function Accrued(b: Bucket, qs: seq<Request>, k: nat): real
    requires k < |qs|
  {
    Inflow(After(b, qs, k), qs[k].now)
  }

  /** What flows into a bucket up to `now`, before it is cut off. */
  ghost function Inflow(b: Bucket, now: real): real {
    (Max(b.lastRefill, now) - b.lastRefill) * b.rate
  }

  lemma {:induction false} Bookkeeping(b: Bucket, qs: seq<Request>, k: nat)
    requires k <= |qs|
    ensures var a := After(b, qs, k);
            a.capacity == b.capacity && a.rate == b.rate && a.lastRefill == Clock(b.lastRefill, qs, k)
  {
    if k > 0 {
      Bookkeeping(b, qs, k - 1);
    }
  }

  /** One refill, cut off at the capacity, of a bucket that is not overfull. */
  lemma RefillSaturates(b: Bucket, now: real)
    requires 0.0 <= b.rate && b.tokens <= b.capacity
    ensures Refill(b, now).tokens == Min(b.capacity, b.tokens + Inflow(b, now))
    ensures Refill(b, now).tokens <= b.capacity
  {
  }

  lemma {:induction false} NeverOverfull(b: Bucket, qs: seq<Request>, k: nat)
    requires Sane(b, qs) && k <= |qs|
    ensures After(b, qs, k).tokens <= b.capacity
  {
    if k > 0 {
      NeverOverfull(b, qs, k - 1);
      Bookkeeping(b, qs, k - 1);
      RefillSaturates(After(b, qs, k - 1), qs[k - 1].now);
    }
  }

  lemma ServedLevel(b: Bucket, qs: seq<Request>, k: nat)
    requires 0 < k <= |qs|
    ensures After(b, qs, k).tokens == Level(b, qs, k - 1) - Granted(b, qs, k - 1)
  {
  }

  lemma RefilledLevel(b: Bucket, qs: seq<Request>, k: nat)
    requires Sane(b, qs) && k < |qs|
    ensures Level(b, qs, k) == Min(b.capacity, After(b, qs, k).tokens + Accrued(b, qs, k))
  {
    Bookkeeping(b, qs, k);
    NeverOverfull(b, qs, k);
    RefillSaturates(After(b, qs, k), qs[k].now);
  }

  lemma LevelMoves(b: Bucket, qs: seq<Request>, k: nat)
    requires Sane(b, qs) && 0 < k < |qs|
    ensures Level(b, qs, k) == Min(b.capacity, Level(b, qs, k - 1) - Granted(b, qs, k - 1) + Accrued(b, qs, k))
  {
    ServedLevel(b, qs, k);
    RefilledLevel(b, qs, k);
  }

  lemma FirstLevel(b: Bucket, qs: seq<Request>)
    requires Sane(b, qs) && 0 < |qs|
    ensures Level(b, qs, 0) == b.capacity
  {
  }

  lemma Distribute(r: real, x: real, y: real, z: real)
    ensures r * (x - z) == r * (y - z) + (x - y) * r
  {
  }

  lemma AllowanceGrows(b: Bucket, qs: seq<Request>, j: nat, k: nat)
    requires j < k < |qs|
    ensures Allowance(b, qs, j, k) == Allowance(b, qs, j, k - 1) + Accrued(b, qs, k)
  {
    Bookkeeping(b, qs, k);
    Distribute(b.rate, Clock(b.lastRefill, qs, k + 1), Clock(b.lastRefill, qs, k), Clock(b.lastRefill, qs, j + 1));
  }

  lemma {:induction false} SlackOfWindow(b: Bucket, qs: seq<Request>, gain: nat -> real, loss: nat -> real, j: nat, k: nat)
    requires j <= k < |qs|
    requires forall i :: 0 <= i < |qs| ==> gain(i) == Accrued(b, qs, i) && loss(i) == Granted(b, qs, i)
    ensures Slack(b.capacity, gain, loss, j, k) == Allowance(b, qs, j, k) - Spent(b, qs, j, k)
  {
    if j < k {
      SlackOfWindow(b, qs, gain, loss, j, k - 1);
      AllowanceGrows(b, qs, j, k);
    }
  }

  lemma FullBucketIsSlidingWindow(b: Bucket, qs: seq<Request>, k: nat)
    requires Sane(b, qs) && k < |qs|
    ensures Grants(After(b, qs, k), qs[k]) <==>
            forall j :: 0 <= j <= k ==> Spent(b, qs, j, k) + qs[k].n <= Allowance(b, qs, j, k)
  {
    var gain := (i: nat) => if i < |qs| then Accrued(b, qs, i) else 0.0;
    var loss := (i: nat) => if i < |qs| then Granted(b, qs, i) else 0.0;
    var level := (i: nat) => if i < |qs| then Level(b, qs, i) else 0.0;
    FirstLevel(b, qs);
    forall i | 0 < i <= k
      ensures level(i) == Min(b.capacity, level(i - 1) - loss(i - 1) + gain(i))
    {
      LevelMoves(b, qs, i);
    }
    LevelIsTightestWindow(b.capacity, gain, loss, level, k);
    forall j | 0 <= j <= k
      ensures Slack(b.capacity, gain, loss, j, k) == Allowance(b, qs, j, k) - Spent(b, qs, j, k)
    {
      SlackOfWindow(b, qs, gain, loss, j, k);
    }
  }

  /** A new limiter is full, whatever its capacity. */
  lemma NewIsSane(capacity: real, rate: real, start: real, qs: seq<Request>)
    requires 0.0 <= rate && forall i :: 0 <= i < |qs| ==> 0.0 <= qs[i].n
    ensures var b := NewBucket(capacity, rate, start);
            Sane(b, qs) && b.capacity == capacity && b.rate == rate && b.lastRefill == start
  {
  }

  /** From its creation on the limiter is the sliding-window check: a request is granted if and only if,
      for every earlier or current request, what has been granted since then plus this request stays
      within the capacity plus the refill of the time in between. */
  lemma BucketIsSlidingWindow(capacity: real, rate: real, start: real, qs: seq<Request>, k: nat)
    requires 0.0 <= rate && (forall i :: 0 <= i < |qs| ==> 0.0 <= qs[i].n) && k < |qs|
    ensures var b := NewBucket(capacity, rate, start);
            Grants(After(b, qs, k), qs[k]) <==>
            forall j :: 0 <= j <= k ==> Spent(b, qs, j, k) + qs[k].n <= Budget(capacity, rate, start, qs, j, k)
  {
    NewIsSane(capacity, rate, start, qs);
    FullBucketIsSlidingWindow(NewBucket(capacity, rate, start), qs, k);
  }

  /** The first request to a new limiter is granted exactly up to its capacity. */
  lemma FirstRequest(capacity: real, rate: real, start: real, q: Request)
    requires 0.0 <= rate
    ensures Grants(NewBucket(capacity, rate, start), q) <==> q.n <= capacity
  {
    if start < q.now {
      assert 0.0 <= (q.now - start) * rate;
    }
  }
}
