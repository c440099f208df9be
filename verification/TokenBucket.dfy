/**
  rate_limiter/token_bucket.py: a bucket that mints floor(elapsed * rate) tokens at each call and
  advances its refresh time by floor(minted / rate) milliseconds. The rate is the rational num / den
  per millisecond; times are whole milliseconds.
 */
module TokenBucket {
  datatype Rate = Rate(num: nat, den: nat) {
    ghost predicate Valid() { num > 0 && den > 0 }

    /** The rates at which the bucket limits: whole ones, and those of at most one token per millisecond. */
    predicate Limits()
      requires Valid()
    {
      num % den == 0 || num <= den
    }
  }

  function Minted(r: Rate, elapsed: nat): nat
    requires r.Valid()
  {
    elapsed * r.num / r.den
  }

  /** The time accounted to freshly minted tokens. */
  function Accounted(r: Rate, minted: nat): nat
    requires r.Valid()
  {
    minted * r.den / r.num
  }

  function Max(a: int, b: int): int { if a >= b then a else b }

  function Min(a: int, b: int): int { if a <= b then a else b }

  datatype Bucket = Bucket(last: int, consumed: nat)

  datatype Call = Call(now: int, requested: nat)

  function Elapsed(b: Bucket, now: int): nat {
    Max(0, now - b.last)
  }

  /** Time passes: mint, move the refresh time, and refill. */
  function Refill(capacity: nat, r: Rate, b: Bucket, now: int): Bucket
    requires r.Valid()
  {
    var minted := Minted(r, Elapsed(b, now));
    Bucket(now - (Elapsed(b, now) - Accounted(r, minted)), Max(0, Min(capacity, b.consumed) - minted))
  }

  predicate Grants(capacity: nat, r: Rate, b: Bucket, c: Call)
    requires r.Valid()
  {
    Refill(capacity, r, b, c.now).consumed + c.requested <= capacity
  }

  function After(capacity: nat, r: Rate, b: Bucket, c: Call): Bucket
    requires r.Valid()
  {
    var filled := Refill(capacity, r, b, c.now);
    if Grants(capacity, r, b, c) then filled.(consumed := filled.consumed + c.requested) else filled
  }

  class TokenBucketRateLimiter {
    var capacity: nat
    const rate: Rate
    var lastRefreshTime: int
    var consumedTokens: nat

    constructor (capacity: nat, rate: Rate)
      ensures this.capacity == capacity && this.rate == rate && Value() == Bucket(0, 0)
    {
      this.capacity, this.rate, lastRefreshTime, consumedTokens := capacity, rate, 0, 0;
    }

    function Value(): Bucket
      reads this
    {
      Bucket(lastRefreshTime, consumedTokens)
    }

    /** _acquire at time now. The capacity may have been lowered since the last call. */
    method Acquire(now: int, requestedNumber: nat) returns (ok: bool)
      requires rate.Valid()
      modifies this`lastRefreshTime, this`consumedTokens
      ensures ok == Grants(capacity, rate, old(Value()), Call(now, requestedNumber))
      ensures Value() == After(capacity, rate, old(Value()), Call(now, requestedNumber))
    {
      var timeElapsedMs: nat := Max(0, now - lastRefreshTime);
      var newGeneratedTokens := timeElapsedMs * rate.num / rate.den;
      lastRefreshTime := now - (timeElapsedMs - newGeneratedTokens * rate.den / rate.num);
      consumedTokens := Min(capacity, consumedTokens);
      consumedTokens := Max(0, consumedTokens - newGeneratedTokens);
      if consumedTokens + requestedNumber <= capacity {
        consumedTokens := consumedTokens + requestedNumber;
        return true;
      }
      return false;
    }
  }

  // ---- Arithmetic -------------------------------------------------------------------

  lemma DivBounds(a: nat, b: nat)
    requires b > 0
    ensures (a / b) * b <= a < (a / b) * b + b
  {
  }

  lemma MulLess(x: int, k: int, b: nat)
    ensures x < k ==> x * b + b <= k * b
  {
    if x < k {
      assert k * b == (x + 1) * b + (k - x - 1) * b;
    }
  }

  lemma DivAtLeast(a: nat, b: nat, k: nat)
    requires b > 0 && k * b <= a
    ensures k <= a / b
  {
    DivBounds(a, b);
    MulLess(a / b, k, b);
  }

  lemma DivAtMost(a: nat, b: nat, k: nat)
    requires b > 0 && a < k * b + b
    ensures a / b <= k
  {
    DivBounds(a, b);
    MulLess(k, a / b, b);
  }

  /** No more time is accounted than has passed, and no token is minted that the accounted time does not pay for in full. */
  lemma MintAccounts(r: Rate, e: nat)
    requires r.Valid()
    ensures Accounted(r, Minted(r, e)) <= e
    ensures Minted(r, e) * r.den >= Accounted(r, Minted(r, e)) * r.num
    ensures e * r.num < Minted(r, e) * r.den + r.den
  {
    var m := Minted(r, e);
    DivBounds(e * r.num, r.den);
    DivBounds(m * r.den, r.num);
    DivAtMost(m * r.den, r.num, e);
  }

  /** Tokens per Steep.1 milliseconds: the slope that bounds a limiting rate. */
  function Slope(r: Rate): (s: (nat, nat))
    requires r.Valid() && r.Limits()
    ensures s.0 > 0 && s.1 > 0
  {
    if r.num % r.den == 0 then (WholeRate(r), 1) else (1, Inverse(r))
  }

  function WholeRate(r: Rate): (k: nat)
    requires r.Valid() && r.num % r.den == 0
    ensures k > 0 && k * r.den == r.num
  {
    r.num / r.den
  }

  function Inverse(r: Rate): (d: nat)
    requires r.Valid() && r.num <= r.den
    ensures d > 0 && d * r.num <= r.den < d * r.num + r.num
  {
    DivBounds(r.den, r.num);
    DivAtLeast(r.den, r.num, 1);
    r.den / r.num
  }

  /** At a limiting rate, minted tokens are paid for at the slope. */
  lemma MintWithinSlope(r: Rate, e: nat)
    requires r.Valid() && r.Limits()
    ensures Slope(r).1 * Minted(r, e) <= Slope(r).0 * Accounted(r, Minted(r, e))
  {
    if r.num % r.den == 0 {
      WholeAccountsInFull(r.num, r.den, WholeRate(r), e);
    } else {
      InverseWithin(r.num, r.den, Inverse(r), Minted(r, e));
    }
  }

  lemma InverseWithin(num: nat, den: nat, d: nat, m: nat)
    requires num > 0 && d * num <= den
    ensures d * m <= m * den / num
  {
    MulMonotone(m, d * num, den);
    assert (d * m) * num == m * (d * num);
    DivAtLeast(m * den, num, d * m);
  }

  /** At every other rate, one millisecond mints a token and accounts for no time at all. */
  lemma MintForFree(r: Rate)
    requires r.Valid() && !r.Limits()
    ensures Minted(r, 1) >= 1 && Accounted(r, Minted(r, 1)) == 0
  {
    var m := Minted(r, 1);
    DivAtLeast(r.num, r.den, 1);
    DivBounds(r.num, r.den);
    assert m * r.den != r.num by {
      if m * r.den == r.num {
        MultipleHasNoRemainder(m, r.den);
      }
    }
    DivAtMost(m * r.den, r.num, 0);
  }

  lemma MultipleHasNoRemainder(m: nat, d: nat)
    requires d > 0
    ensures (m * d) % d == 0
  {
    DivBounds(m * d, d);
    DivAtLeast(m * d, d, m);
    DivAtMost(m * d, d, m);
  }

  // ---- Whole runs -------------------------------------------------------------------

  /** A clock that does not run backwards. */
  ghost predicate Ordered(calls: seq<Call>, from: int) {
    calls != [] ==> from <= calls[0].now && Ordered(calls[1..], calls[0].now)
  }

  ghost function Exec(capacity: nat, r: Rate, b: Bucket, calls: seq<Call>): Bucket
    requires r.Valid()
    decreases |calls|
  {
    if calls == [] then b else Exec(capacity, r, After(capacity, r, b, calls[0]), calls[1..])
  }

  /** The tokens a run hands out. */
  ghost function Granted(capacity: nat, r: Rate, b: Bucket, calls: seq<Call>): nat
    requires r.Valid()
    decreases |calls|
  {
    if calls == [] then 0
    else (if Grants(capacity, r, b, calls[0]) then calls[0].requested else 0)
         + Granted(capacity, r, After(capacity, r, b, calls[0]), calls[1..])
  }

  /** The tokens a run mints. */
  ghost function TotalMinted(capacity: nat, r: Rate, b: Bucket, calls: seq<Call>): nat
    requires r.Valid()
    decreases |calls|
  {
    if calls == [] then 0
    else Minted(r, Elapsed(b, calls[0].now)) + TotalMinted(capacity, r, After(capacity, r, b, calls[0]), calls[1..])
  }

  ghost function LastTime(calls: seq<Call>, from: int): int {
    if calls == [] then from else LastTime(calls[1..], calls[0].now)
  }

  /** With the clock not behind the refresh time, a call moves it to at most the present. */
  lemma CallMovesRefresh(capacity: nat, r: Rate, b: Bucket, c: Call)
    requires r.Valid() && b.last <= c.now
    ensures var b' := After(capacity, r, b, c);
      && b'.last == b.last + Accounted(r, Minted(r, c.now - b.last))
      && b.last <= b'.last <= c.now
  {
    MintAccounts(r, c.now - b.last);
  }

  /** After every call, whatever the clock does, the consumption is within the capacity. */
  lemma {:induction false} ConsumedWithinCapacity(capacity: nat, r: Rate, b: Bucket, calls: seq<Call>)
    requires r.Valid() && calls != []
    ensures 0 <= Exec(capacity, r, b, calls).consumed <= capacity
    decreases |calls|
  {
    if |calls| > 1 {
      ConsumedWithinCapacity(capacity, r, After(capacity, r, b, calls[0]), calls[1..]);
    }
  }

  lemma CallNeedsTokens(capacity: nat, r: Rate, b: Bucket, c: Call)
    requires r.Valid() && b.consumed <= capacity
    ensures (if Grants(capacity, r, b, c) then c.requested else 0) <=
            After(capacity, r, b, c).consumed - b.consumed + Minted(r, Elapsed(b, c.now))
    ensures After(capacity, r, b, c).consumed <= capacity
  {
  }

  /** Tokens handed out are tokens consumed at the end, less those consumed at the start, plus those minted. */
  lemma {:induction false} GrantsNeedTokens(capacity: nat, r: Rate, b: Bucket, calls: seq<Call>)
    requires r.Valid() && b.consumed <= capacity
    ensures Granted(capacity, r, b, calls) <= Exec(capacity, r, b, calls).consumed - b.consumed + TotalMinted(capacity, r, b, calls)
    decreases |calls|
  {
    if calls != [] {
      CallNeedsTokens(capacity, r, b, calls[0]);
      GrantsNeedTokens(capacity, r, After(capacity, r, b, calls[0]), calls[1..]);
    }
  }

  /** At a limiting rate, a run mints no more than its refresh time pays for. */
  lemma {:induction false} MintedWithinSlope(capacity: nat, r: Rate, b: Bucket, calls: seq<Call>)
    requires r.Valid() && r.Limits() && Ordered(calls, b.last)
    ensures Slope(r).1 * TotalMinted(capacity, r, b, calls) <= Slope(r).0 * (Exec(capacity, r, b, calls).last - b.last)
    ensures b.last <= Exec(capacity, r, b, calls).last <= LastTime(calls, b.last)
    decreases |calls|
  {
    if calls != [] {
      var b' := After(capacity, r, b, calls[0]);
      CallMovesRefresh(capacity, r, b, calls[0]);
      MintWithinSlope(r, calls[0].now - b.last);
      OrderedWeaken(calls[1..], calls[0].now, b'.last);
      MintedWithinSlope(capacity, r, b', calls[1..]);
      LastTimeWeaken(calls[1..], calls[0].now, b'.last);
      AddScaled(Slope(r).1, Slope(r).0, Minted(r, Elapsed(b, calls[0].now)), TotalMinted(capacity, r, b', calls[1..]),
                b'.last - b.last, Exec(capacity, r, b, calls).last - b'.last);
    }
  }

  lemma AddScaled(d: int, a: int, m1: int, m2: int, t1: int, t2: int)
    requires d * m1 <= a * t1 && d * m2 <= a * t2
    ensures d * (m1 + m2) <= a * (t1 + t2)
  {
  }

  lemma OrderedWeaken(calls: seq<Call>, from: int, from': int)
    requires Ordered(calls, from) && from' <= from
    ensures Ordered(calls, from')
  {
  }

  lemma LastTimeWeaken(calls: seq<Call>, from: int, from': int)
    requires from' <= from
    ensures LastTime(calls, from') <= LastTime(calls, from)
  {
  }

  /**
    The limit over any window of calls: from the first call of the window on, at most the capacity
    and what the time since that call's refresh time mints at the slope is handed out.
   */
  lemma WindowBound(capacity: nat, r: Rate, b: Bucket, calls: seq<Call>)
    requires r.Valid() && r.Limits() && calls != [] && Ordered(calls, b.last)
    ensures var first := After(capacity, r, b, calls[0]);
      Slope(r).1 * (Granted(capacity, r, b, calls) - capacity) <= Slope(r).0 * (LastTime(calls, b.last) - first.last)
  {
    var first := After(capacity, r, b, calls[0]);
    CallMovesRefresh(capacity, r, b, calls[0]);
    OrderedWeaken(calls[1..], calls[0].now, first.last);
    LastTimeWeaken(calls[1..], calls[0].now, first.last);
    ConsumedWithinCapacity(capacity, r, b, calls);
    ConsumedWithinCapacity(capacity, r, b, [calls[0]]);
    GrantsNeedTokens(capacity, r, first, calls[1..]);
    MintedWithinSlope(capacity, r, first, calls[1..]);
    var (a, d) := Slope(r);
    var total := TotalMinted(capacity, r, first, calls[1..]);
    var g := Granted(capacity, r, b, calls) - capacity;
    assert g <= total;
    MulMonotone(d, g, total);
    MulMonotone(a, Exec(capacity, r, first, calls[1..]).last - first.last, LastTime(calls, b.last) - first.last);
  }

  lemma MulMonotone(c: nat, x: int, y: int)
    requires x <= y
    ensures c * x <= c * y
  {
  }

  /** For whole rates and whole inverses: less than capacity + rate * (time between the calls) + 1. */
  lemma WindowBoundBetweenCalls(capacity: nat, r: Rate, b: Bucket, calls: seq<Call>)
    requires r.Valid() && (r.num % r.den == 0 || r.den % r.num == 0) && calls != [] && Ordered(calls, b.last)
    ensures (Granted(capacity, r, b, calls) - capacity - 1) * r.den < r.num * (LastTime(calls, b.last) - calls[0].now)
  {
    if r.den % r.num == 0 && r.num > r.den {
      MultipleAtLeast(r.den, r.num);
    }
    WindowBound(capacity, r, b, calls);
    var first := After(capacity, r, b, calls[0]);
    CallMovesRefresh(capacity, r, b, calls[0]);
    RefreshIsRecent(r, calls[0].now - b.last);
    ScaleSlope(r, Granted(capacity, r, b, calls) - capacity, LastTime(calls, b.last) - first.last);
    ShiftWindow(r.num, r.den, Granted(capacity, r, b, calls) - capacity, LastTime(calls, b.last), first.last, calls[0].now);
  }

  lemma ShiftWindow(num: nat, den: nat, g: int, t: int, first: int, now: int)
    requires g * den <= num * (t - first) && num * (now - first) < den
    ensures (g - 1) * den < num * (t - now)
  {
    assert num * (t - first) == num * (t - now) + num * (now - first);
    assert (g - 1) * den == g * den - den;
  }

  lemma MultipleAtLeast(a: nat, b: nat)
    requires b > 0 && a > 0 && a % b == 0
    ensures a >= b
  {
  }

  /** At such rates the refresh time lags by less than one token. */
  lemma RefreshIsRecent(r: Rate, e: nat)
    requires r.Valid() && (r.num % r.den == 0 || r.den % r.num == 0)
    ensures r.num * (e - Accounted(r, Minted(r, e))) < r.den
  {
    MintAccounts(r, e);
    AccountedInFull(r, e);
    Distribute(r.num, e, Accounted(r, Minted(r, e)));
  }

  lemma Distribute(n: int, a: int, b: int)
    ensures n * (a - b) == a * n - b * n
  {
  }

  /** At such rates whole tokens take a whole number of milliseconds, or one millisecond mints whole tokens. */
  lemma AccountedInFull(r: Rate, e: nat)
    requires r.Valid() && (r.num % r.den == 0 || r.den % r.num == 0)
    ensures Accounted(r, Minted(r, e)) * r.num == Minted(r, e) * r.den
  {
    if r.num % r.den == 0 {
      WholeAccountsInFull(r.num, r.den, WholeRate(r), e);
    } else {
      DivBounds(r.den, r.num);
      InverseAccountsInFull(r.num, r.den, r.den / r.num, Minted(r, e));
    }
  }

  lemma DivExact(a: nat, b: nat)
    requires b > 0
    ensures (a * b) / b == a
  {
    DivAtLeast(a * b, b, a);
    DivAtMost(a * b, b, a);
  }

  lemma WholeAccountsInFull(num: nat, den: nat, k: nat, e: nat)
    requires num > 0 && den > 0 && num == k * den
    ensures e * num / den == e * k
    ensures (e * k) * den / num == e
    ensures e * num == (e * k) * den
  {
    assert (e * k) * den == e * (k * den);
    DivExact(e * k, den);
    DivExact(e, num);
  }

  lemma InverseAccountsInFull(num: nat, den: nat, d: nat, m: nat)
    requires num > 0 && den > 0 && den == d * num
    ensures m * den / num == m * d
    ensures (m * d) * num == m * den
  {
    assert (m * d) * num == m * (d * num);
    DivExact(m * d, num);
  }

  lemma ScaleSlope(r: Rate, g: int, t: int)
    requires r.Valid() && r.Limits() && (r.num % r.den == 0 || r.den % r.num == 0)
    requires Slope(r).1 * g <= Slope(r).0 * t
    ensures g * r.den <= r.num * t
  {
    if r.num % r.den == 0 {
      var k := WholeRate(r);
      assert g * r.den <= (k * t) * r.den by {
        MulMonotone(r.den, g, k * t);
      }
      assert (k * t) * r.den == (k * r.den) * t;
    } else {
      var d := Inverse(r);
      DivBounds(r.den, r.num);
      assert d * r.num == r.den;
      MulMonotone(r.num, d * g, t);
      assert r.num * (d * g) == (d * r.num) * g;
    }
  }

  /** Polling often never loses a token: a run mints at least what the time it covers is worth. */
  lemma NothingLost(capacity: nat, r: Rate, b: Bucket, calls: seq<Call>)
    requires r.Valid() && calls != [] && Ordered(calls, b.last)
    ensures LastTime(calls, b.last) >= b.last
    ensures TotalMinted(capacity, r, b, calls) >= Minted(r, LastTime(calls, b.last) - b.last)
  {
    OrderedGrows(calls, b.last);
    MintedCovers(capacity, r, b, calls);
    MintedAtMost(r, LastTime(calls, b.last) - b.last, TotalMinted(capacity, r, b, calls));
  }

  lemma MintedAtMost(r: Rate, e: nat, k: nat)
    requires r.Valid() && e * r.num < k * r.den + r.den
    ensures Minted(r, e) <= k
  {
    DivAtMost(e * r.num, r.den, k);
  }

  lemma OrderedGrows(calls: seq<Call>, from: int)
    requires Ordered(calls, from)
    ensures LastTime(calls, from) >= from
  {
  }

  lemma {:induction false} MintedCovers(capacity: nat, r: Rate, b: Bucket, calls: seq<Call>)
    requires r.Valid() && calls != [] && Ordered(calls, b.last)
    ensures (LastTime(calls, b.last) - b.last) * r.num < TotalMinted(capacity, r, b, calls) * r.den + r.den
    decreases |calls|
  {
    var b' := After(capacity, r, b, calls[0]);
    var e: nat := calls[0].now - b.last;
    CallMovesRefresh(capacity, r, b, calls[0]);
    MintAccounts(r, e);
    if |calls| > 1 {
      OrderedWeaken(calls[1..], calls[0].now, b'.last);
      MintedCovers(capacity, r, b', calls[1..]);
      assert LastTime(calls[1..], b'.last) == LastTime(calls, b.last);
      AddCovered(r.num, r.den, Minted(r, e), TotalMinted(capacity, r, b', calls[1..]),
                 b'.last - b.last, LastTime(calls[1..], b'.last) - b'.last);
    }
  }

  lemma AddCovered(num: int, den: int, m1: int, m2: int, t1: int, t2: int)
    requires m1 * den >= t1 * num && t2 * num < m2 * den + den
    ensures (t1 + t2) * num < (m1 + m2) * den + den
  {
  }

  // ---- When a call is granted -------------------------------------------------------

  /** The last part of a run, from call i on, with the bucket it starts from. */
  ghost function Since(capacity: nat, r: Rate, b: Bucket, calls: seq<Call>, i: nat): (Bucket, seq<Call>)
    requires r.Valid() && i <= |calls|
  {
    (Exec(capacity, r, b, calls[..i]), calls[i..])
  }

  /** What was granted from call i on, less what was minted after that call: calls up to i count as in one instant. */
  ghost function Load(capacity: nat, r: Rate, b: Bucket, calls: seq<Call>, i: nat): int
    requires r.Valid() && i < |calls|
  {
    var (b1, part) := Since(capacity, r, b, calls, i);
    var (b2, rest) := Since(capacity, r, b, calls, i + 1);
    Granted(capacity, r, b1, part) - TotalMinted(capacity, r, b2, rest)
  }

  /** The same for the whole run and what had been consumed before it. */
  ghost function WholeLoad(capacity: nat, r: Rate, b: Bucket, calls: seq<Call>): int
    requires r.Valid()
  {
    b.consumed + Granted(capacity, r, b, calls) - TotalMinted(capacity, r, b, calls)
  }

  lemma LoadOfRest(capacity: nat, r: Rate, b: Bucket, calls: seq<Call>, i: nat)
    requires r.Valid() && i + 1 < |calls|
    ensures Load(capacity, r, b, calls, i + 1) == Load(capacity, r, After(capacity, r, b, calls[0]), calls[1..], i)
  {
    assert calls[..i + 1][0] == calls[0] && calls[..i + 1][1..] == calls[1..][..i];
    assert calls[..i + 2][0] == calls[0] && calls[..i + 2][1..] == calls[1..][..i + 1];
    assert calls[i + 1..] == calls[1..][i..] && calls[i + 2..] == calls[1..][i + 1..];
  }

  lemma FirstLoad(capacity: nat, r: Rate, b: Bucket, calls: seq<Call>)
    requires r.Valid() && calls != []
    ensures var b' := After(capacity, r, b, calls[0]);
      Load(capacity, r, b, calls, 0) == (if Grants(capacity, r, b, calls[0]) then calls[0].requested else 0)
        + Granted(capacity, r, b', calls[1..]) - TotalMinted(capacity, r, b', calls[1..])
  {
    assert calls[..0] == [] && calls[0..] == calls;
    assert calls[..1] == [calls[0]];
    ExecOne(capacity, r, b, calls[0]);
    ExecNone(capacity, r, b);
    GrantedFirst(capacity, r, b, calls);
  }

  lemma ExecOne(capacity: nat, r: Rate, b: Bucket, c: Call)
    requires r.Valid()
    ensures Exec(capacity, r, b, [c]) == After(capacity, r, b, c)
  {
    assert [c][1..] == [];
  }

  lemma ExecNone(capacity: nat, r: Rate, b: Bucket)
    requires r.Valid()
    ensures Exec(capacity, r, b, []) == b
  {
  }

  lemma GrantedFirst(capacity: nat, r: Rate, b: Bucket, calls: seq<Call>)
    requires r.Valid() && calls != []
    ensures Granted(capacity, r, b, calls) == (if Grants(capacity, r, b, calls[0]) then calls[0].requested else 0)
      + Granted(capacity, r, After(capacity, r, b, calls[0]), calls[1..])
  {
  }

  /** What is consumed at the end of a run is its greatest load. */
  lemma {:induction false} ConsumedIsGreatestLoad(capacity: nat, r: Rate, b: Bucket, calls: seq<Call>)
    requires r.Valid() && b.consumed <= capacity
    ensures var n := Exec(capacity, r, b, calls).consumed;
      && n >= WholeLoad(capacity, r, b, calls)
      && (forall i: nat :: i < |calls| ==> n >= Load(capacity, r, b, calls, i))
      && (n == WholeLoad(capacity, r, b, calls) || exists i: nat :: i < |calls| && n == Load(capacity, r, b, calls, i))
    decreases |calls|
  {
    if calls != [] {
      var b' := After(capacity, r, b, calls[0]);
      var n := Exec(capacity, r, b, calls).consumed;
      ConsumedIsGreatestLoad(capacity, r, b', calls[1..]);
      FirstLoad(capacity, r, b, calls);
      forall i: nat | i < |calls| ensures n >= Load(capacity, r, b, calls, i) {
        if i > 0 {
          LoadOfRest(capacity, r, b, calls, i - 1);
        }
      }
      if n != WholeLoad(capacity, r, b', calls[1..]) {
        var i: nat :| i < |calls| - 1 && n == Load(capacity, r, b', calls[1..], i);
        LoadOfRest(capacity, r, b, calls, i);
      } else {
        assert n == WholeLoad(capacity, r, b, calls) || n == Load(capacity, r, b, calls, 0);
      }
    }
  }

  /**
    Main result: after any run a call is granted if and only if no window ending with it hands out more
    than the capacity and what is minted in it after its first call; windows are the call alone, any last
    part of the run with the call, and the whole run, to which the consumption before it counts.
   */
  lemma GrantedExactly(capacity: nat, r: Rate, b: Bucket, calls: seq<Call>, c: Call)
    requires r.Valid() && b.consumed <= capacity
    ensures var last := Exec(capacity, r, b, calls);
      var minted := Minted(r, Elapsed(last, c.now));
      Grants(capacity, r, last, c) <==>
        && c.requested <= capacity
        && WholeLoad(capacity, r, b, calls) + c.requested <= capacity + minted
        && forall i: nat :: i < |calls| ==> Load(capacity, r, b, calls, i) + c.requested <= capacity + minted
  {
    ConsumedIsGreatestLoad(capacity, r, b, calls);
    if calls != [] {
      ConsumedWithinCapacity(capacity, r, b, calls);
    }
  }

  ghost function Requested(calls: seq<Call>): nat {
    if calls == [] then 0 else calls[0].requested + Requested(calls[1..])
  }

  lemma {:induction false} GrantedIsRequested(capacity: nat, r: Rate, b: Bucket, calls: seq<Call>)
    requires r.Valid() && b.consumed + Requested(calls) <= capacity
    ensures Granted(capacity, r, b, calls) == Requested(calls)
    decreases |calls|
  {
    if calls != [] {
      GrantedExactly(capacity, r, b, [], calls[0]);
      CallAdds(capacity, r, b, calls[0]);
      GrantedIsRequested(capacity, r, After(capacity, r, b, calls[0]), calls[1..]);
    }
  }

  lemma CallAdds(capacity: nat, r: Rate, b: Bucket, c: Call)
    requires r.Valid()
    ensures After(capacity, r, b, c).consumed <= b.consumed + c.requested
  {
  }

  lemma {:induction false} LoadIsGranted(capacity: nat, r: Rate, b: Bucket, calls: seq<Call>, i: nat)
    requires r.Valid() && i < |calls|
    ensures Load(capacity, r, b, calls, i) <= Granted(capacity, r, b, calls)
    decreases i
  {
    FirstLoad(capacity, r, b, calls);
    GrantedFirst(capacity, r, b, calls);
    if i > 0 {
      LoadOfRest(capacity, r, b, calls, i - 1);
      LoadIsGranted(capacity, r, After(capacity, r, b, calls[0]), calls[1..], i - 1);
    }
  }

  /** A fresh bucket refuses a call only when it would have handed out more than the capacity in all. */
  lemma RefusedMeansFull(capacity: nat, r: Rate, calls: seq<Call>, c: Call)
    requires r.Valid() && !Grants(capacity, r, Exec(capacity, r, Bucket(0, 0), calls), c)
    ensures Granted(capacity, r, Bucket(0, 0), calls) + c.requested > capacity
  {
    GrantedExactly(capacity, r, Bucket(0, 0), calls, c);
    forall i: nat | i < |calls|
      ensures Load(capacity, r, Bucket(0, 0), calls, i) <= Granted(capacity, r, Bucket(0, 0), calls)
    {
      LoadIsGranted(capacity, r, Bucket(0, 0), calls, i);
    }
  }

  /** A fresh bucket grants in full whatever adds up to at most the capacity, at whatever times it is asked. */
  lemma CapacityIsGranted(capacity: nat, r: Rate, calls: seq<Call>)
    requires r.Valid() && Requested(calls) <= capacity
    ensures Granted(capacity, r, Bucket(0, 0), calls) == Requested(calls)
  {
    GrantedIsRequested(capacity, r, Bucket(0, 0), calls);
  }

  // ---- Where the limit fails --------------------------------------------------------

  ghost function Burst(now: int, n: nat): seq<Call> {
    if n == 0 then [] else [Call(now, 1)] + Burst(now, n - 1)
  }

  /** At a rate that does not limit, one millisecond is worth as many tokens as one asks for. */
  lemma {:induction false} BurstIsGranted(capacity: nat, r: Rate, b: Bucket, n: nat)
    requires r.Valid() && !r.Limits() && capacity >= 1 && b.consumed <= 1
    ensures Granted(capacity, r, b, Burst(b.last + 1, n)) == n
    ensures Ordered(Burst(b.last + 1, n), b.last)
    ensures n > 0 ==> Burst(b.last + 1, n)[0].now == b.last + 1
    decreases n
  {
    if n > 0 {
      MintForFree(r);
      var calls := Burst(b.last + 1, n);
      assert calls[0] == Call(b.last + 1, 1) && calls[1..] == Burst(b.last + 1, n - 1);
      var b' := After(capacity, r, b, calls[0]);
      assert b'.last == b.last && b'.consumed == 1;
      BurstIsGranted(capacity, r, b', n - 1);
    }
  }

  ghost predicate WithinUpTo(capacity: nat, r: Rate, time: nat, bound: nat)
    requires r.Valid()
  {
    forall calls :: Ordered(calls, 0) && LastTime(calls, 0) <= time ==> Granted(capacity, r, Bucket(0, 0), calls) <= bound
  }

  /** Whether some bound holds for everything handed out up to a time. */
  ghost predicate BoundedUpTo(capacity: nat, r: Rate, time: nat)
    requires r.Valid()
  {
    exists bound: nat :: WithinUpTo(capacity, r, time, bound)
  }

  /** The bucket limits at all exactly at the limiting rates. */
  lemma LimitsExactly(capacity: nat, r: Rate)
    requires r.Valid() && capacity >= 1
    ensures (forall time: nat :: BoundedUpTo(capacity, r, time)) <==> r.Limits()
  {
    if r.Limits() {
      forall time: nat ensures BoundedUpTo(capacity, r, time) {
        LimitHolds(capacity, r, time);
      }
    } else {
      forall bound: nat ensures !WithinUpTo(capacity, r, 1, bound) {
        BurstIsGranted(capacity, r, Bucket(0, 0), bound + 1);
        BurstTime(1, bound + 1, 0);
      }
      assert !BoundedUpTo(capacity, r, 1);
    }
  }

  lemma {:induction false} BurstTime(now: int, n: nat, from: int)
    requires n > 0
    ensures LastTime(Burst(now, n), from) == now
  {
    assert Burst(now, n)[1..] == Burst(now, n - 1);
    if n > 1 {
      BurstTime(now, n - 1, now);
    }
  }

  lemma LimitHolds(capacity: nat, r: Rate, time: nat)
    requires r.Valid() && r.Limits()
    ensures WithinUpTo(capacity, r, time, capacity + Slope(r).0 * time)
  {
    var (a, d) := Slope(r);
    forall calls | Ordered(calls, 0) && LastTime(calls, 0) <= time
      ensures Granted(capacity, r, Bucket(0, 0), calls) <= capacity + a * time
    {
      var b := Bucket(0, 0);
      GrantsNeedTokens(capacity, r, b, calls);
      MintedWithinSlope(capacity, r, b, calls);
      if calls != [] {
        ConsumedWithinCapacity(capacity, r, b, calls);
      }
      MulMonotone(a, Exec(capacity, r, b, calls).last, time);
      AtMostScaled(d, TotalMinted(capacity, r, b, calls), a * time);
    }
  }

  lemma AtMostScaled(d: nat, x: nat, y: int)
    requires d >= 1 && d * x <= y
    ensures x <= y
  {
    MulMonotone(x, 1, d);
  }

  /** The smallest example: three tokens every two milliseconds, a thousand of them in the first. */
  lemma ThreeHalvesDoesNotLimit()
    ensures !Rate(3, 2).Limits()
    ensures exists calls :: Ordered(calls, 0) && LastTime(calls, 0) == 1 && Granted(1, Rate(3, 2), Bucket(0, 0), calls) == 1000
  {
    BurstIsGranted(1, Rate(3, 2), Bucket(0, 0), 1000);
    BurstTime(1, 1000, 0);
  }
}
