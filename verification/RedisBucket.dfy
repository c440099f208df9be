/**
  rate_limiter/redis_token_bucket.py: the Lua script as a transition of two stored keys that
  expire. Numbers are reals; the clock is shared by clients and store, and clients pass its whole
  seconds.
 */
module RedisBucket {
  import opened Wrappers

  datatype Limit = Limit(rate: real, capacity: real) {
    ghost predicate Valid() { rate > 0.0 && capacity > 0.0 }

    /** Twice the time to fill the bucket, in whole seconds. */
    function Ttl(): int
      requires rate > 0.0
    {
      (capacity / rate * 2.0).Floor
    }
  }

  /** A key with the clock at its last setex. */
  datatype Key = Absent | Stored(value: real, since: real)

  datatype Keys = Keys(tokens: Key, stamp: Key)

  /** InvalidExpire is the error setex raises for a time to live below one second. */
  datatype Reply = InvalidExpire | Reply(allowed: bool, newTokens: real)

  /** One run of the script; a gone key reads as nil. */
  datatype Call = Call(clock: real, requested: real, tokensGone: bool, stampGone: bool)

  function MaxReal(a: real, b: real): real { if a >= b then a else b }

  function MinReal(a: real, b: real): real { if a <= b then a else b }

  function Seen(k: Key, gone: bool): Option<real> {
    if k.Stored? && !gone then Some(k.value) else None
  }

  function Now(clock: real): real {
    clock.Floor as real
  }

  /** The tokens in the bucket before the request. */
  function Filled(l: Limit, tokens: Option<real>, stamp: Option<real>, now: real): real {
    var lastTokens := if tokens.None? then l.capacity else tokens.value;
    var lastRefreshed := if stamp.None? then 0.0 else stamp.value;
    MinReal(l.capacity, lastTokens + MaxReal(0.0, now - lastRefreshed) * l.rate)
  }

  function Script(l: Limit, k: Keys, c: Call): (Keys, Reply)
    requires l.rate > 0.0
  {
    var filled := Filled(l, Seen(k.tokens, c.tokensGone), Seen(k.stamp, c.stampGone), Now(c.clock));
    var allowed := filled >= c.requested;
    var left := if allowed then filled - c.requested else filled;
    if l.Ttl() <= 0 then (k, InvalidExpire)
    else (Keys(Stored(left, c.clock), Stored(Now(c.clock), c.clock)), Reply(allowed, left))
  }

  class Store {
    var keys: Keys

    constructor ()
      ensures keys == Keys(Absent, Absent)
    {
      keys := Keys(Absent, Absent);
    }

    /** The script, statement by statement. */
    method Eval(l: Limit, c: Call) returns (reply: Reply)
      requires l.rate > 0.0
      modifies this
      ensures (keys, reply) == Script(l, old(keys), c)
    {
      var fillTime := l.capacity / l.rate;
      var ttl := (fillTime * 2.0).Floor;
      var lastTokens := l.capacity;
      if keys.tokens.Stored? && !c.tokensGone {
        lastTokens := keys.tokens.value;
      }
      var lastRefreshed := 0.0;
      if keys.stamp.Stored? && !c.stampGone {
        lastRefreshed := keys.stamp.value;
      }
      var now := Now(c.clock);
      var delta := MaxReal(0.0, now - lastRefreshed);
      var filledTokens := MinReal(l.capacity, lastTokens + delta * l.rate);
      var newTokens := filledTokens;
      var allowed := filledTokens >= c.requested;
      if allowed {
        newTokens := filledTokens - c.requested;
      }
      if ttl <= 0 {
        return InvalidExpire;
      }
      keys := Keys(Stored(newTokens, c.clock), Stored(now, c.clock));
      return Reply(allowed, newTokens);
    }
  }

  // ---- Expiry -----------------------------------------------------------------------

  /** A key may be gone only once its time to live is over. */
  ghost predicate MayBeGone(l: Limit, k: Key, clock: real)
    requires l.rate > 0.0
  {
    k.Stored? ==> clock >= k.since + l.Ttl() as real
  }

  ghost predicate Legit(l: Limit, k: Keys, c: Call)
    requires l.rate > 0.0
  {
    && (c.tokensGone ==> MayBeGone(l, k.tokens, c.clock))
    && (c.stampGone ==> MayBeGone(l, k.stamp, c.clock))
  }

  function Immortal(c: Call): Call {
    c.(tokensGone := false, stampGone := false)
  }

  /** What every run keeps: both keys date from one call, and hold what that call could leave. */
  ghost predicate KeysOk(l: Limit, k: Keys, clock: real) {
    || (k.tokens == Absent && k.stamp == Absent)
    || (k.tokens.Stored? && k.stamp.Stored?
        && k.tokens.since == k.stamp.since && 0.0 <= k.tokens.since <= clock
        && k.stamp.value == Now(k.stamp.since)
        && 0.0 <= k.tokens.value <= l.capacity)
  }

  lemma AtLeastOne(x: real, rate: real)
    requires rate > 0.0
    ensures x * rate >= rate <==> x >= 1.0
  {
    if x >= 1.0 {
      assert (x - 1.0) * rate >= 0.0;
    } else {
      assert (1.0 - x) * rate > 0.0;
    }
  }

  lemma TtlRefills(l: Limit)
    requires l.Valid() && 2.0 * l.capacity >= l.rate
    ensures l.Ttl() >= 1
    ensures l.Ttl() as real * l.rate >= l.capacity
  {
    var x := l.capacity / l.rate * 2.0;
    assert x * l.rate == 2.0 * l.capacity;
    HalfOfFloor(x, l.capacity, l.rate);
  }

  lemma HalfOfFloor(x: real, capacity: real, rate: real)
    requires rate > 0.0 && x * rate == 2.0 * capacity && 2.0 * capacity >= rate
    ensures x.Floor >= 1 && x.Floor as real * rate >= capacity
  {
    AtLeastOne(x, rate);
    assert (x.Floor + 1) as real > 1.0;
    var n := x.Floor as real;
    assert n >= x / 2.0;
    ScaleUp(n, x / 2.0, rate);
    assert x / 2.0 * rate == x * rate / 2.0;
  }

  /** floor(t + ttl) >= floor(t) + ttl for whole ttl. */
  lemma WholeSecondsPass(since: real, clock: real, ttl: int)
    requires clock >= since + ttl as real
    ensures Now(clock) >= Now(since) + ttl as real
  {
    var a, b := since.Floor, clock.Floor;
    assert (b + 1) as real > (a + ttl) as real;
    assert b >= a + ttl;
    assert b as real >= (a + ttl) as real;
  }

  /** Enough time for a whole bucket fills it, whatever was read. */
  lemma FullAfter(l: Limit, tokens: Option<real>, stamp: Option<real>, now: real)
    requires l.Valid() && now >= 0.0 && now * l.rate >= l.capacity
    requires tokens.Some? ==> tokens.value >= 0.0
    requires stamp.Some? ==> now >= stamp.value && (now - stamp.value) * l.rate >= l.capacity
    ensures Filled(l, tokens, stamp, now) == l.capacity
  {
  }

  lemma NowIsNotNegative(clock: real)
    requires clock >= 0.0
    ensures Now(clock) >= 0.0
  {
    assert (clock.Floor + 1) as real > 0.0;
  }

  lemma EnoughTime(l: Limit, stamp: real, now: real)
    requires l.Valid() && l.Ttl() as real * l.rate >= l.capacity && now >= stamp + l.Ttl() as real && stamp >= 0.0
    ensures (now - stamp) * l.rate >= l.capacity && now * l.rate >= l.capacity
  {
    ScaleUp(now - stamp, l.Ttl() as real, l.rate);
    ScaleUp(now, now - stamp, l.rate);
  }

  /** After its time to live a bucket is full again, so losing either key, or both, changes nothing. */
  lemma ExpiredMeansFull(l: Limit, k: Keys, c: Call)
    requires l.Valid() && 2.0 * l.capacity >= l.rate
    requires KeysOk(l, k, c.clock) && Legit(l, k, c) && c.clock >= 0.0
    ensures Script(l, k, c) == Script(l, k, Immortal(c))
  {
    if k.tokens.Stored? && (c.tokensGone || c.stampGone) {
      TtlRefills(l);
      NowIsNotNegative(k.tokens.since);
      NowIsNotNegative(c.clock);
      WholeSecondsPass(k.tokens.since, c.clock, l.Ttl());
      var now := Now(c.clock);
      EnoughTime(l, k.stamp.value, now);
      FullAfter(l, Seen(k.tokens, false), Seen(k.stamp, false), now);
      FullAfter(l, Seen(k.tokens, c.tokensGone), Seen(k.stamp, c.stampGone), now);
    }
  }

  lemma ScaleUp(a: real, b: real, r: real)
    requires a >= b && r > 0.0
    ensures a * r >= b * r
  {
  }

  lemma ScriptKeeps(l: Limit, k: Keys, c: Call, clock: real)
    requires l.Valid() && KeysOk(l, k, clock) && 0.0 <= clock <= c.clock && c.requested >= 0.0
    requires KeysOk(l, k, c.clock)
    ensures KeysOk(l, Script(l, k, c).0, c.clock)
    ensures Script(l, k, c).1.Reply? ==> 0.0 <= Script(l, k, c).1.newTokens <= l.capacity
  {
    var filled := Filled(l, Seen(k.tokens, c.tokensGone), Seen(k.stamp, c.stampGone), Now(c.clock));
    var delta := MaxReal(0.0, Now(c.clock) - (if Seen(k.stamp, c.stampGone).None? then 0.0 else k.stamp.value));
    ScaleUp(delta, 0.0, l.rate);
    assert filled >= 0.0;
  }

  // ---- Whole runs -------------------------------------------------------------------

  ghost function Replies(l: Limit, k: Keys, calls: seq<Call>): seq<Reply>
    requires l.rate > 0.0
    decreases |calls|
  {
    if calls == [] then []
    else [Script(l, k, calls[0]).1] + Replies(l, Script(l, k, calls[0]).0, calls[1..])
  }

  /** Clock in order, nothing negative asked for, and keys gone only after their time to live. */
  ghost predicate LegitRun(l: Limit, k: Keys, calls: seq<Call>, clock: real)
    requires l.rate > 0.0
    decreases |calls|
  {
    calls != [] ==>
      && clock <= calls[0].clock && calls[0].requested >= 0.0
      && Legit(l, k, calls[0])
      && LegitRun(l, Script(l, k, calls[0]).0, calls[1..], calls[0].clock)
  }

  ghost function ImmortalRun(calls: seq<Call>): seq<Call> {
    if calls == [] then [] else [Immortal(calls[0])] + ImmortalRun(calls[1..])
  }

  /** Expiry is invisible: every run gives the replies of a store whose keys never expire. */
  lemma {:induction false} ExpiryIsInvisible(l: Limit, k: Keys, calls: seq<Call>, clock: real)
    requires l.Valid() && 2.0 * l.capacity >= l.rate
    requires 0.0 <= clock && KeysOk(l, k, clock) && LegitRun(l, k, calls, clock)
    ensures Replies(l, k, calls) == Replies(l, k, ImmortalRun(calls))
    decreases |calls|
  {
    if calls != [] {
      var c := calls[0];
      assert KeysOk(l, k, c.clock);
      ExpiredMeansFull(l, k, c);
      ScriptKeeps(l, k, c, clock);
      assert ImmortalRun(calls)[0] == Immortal(c) && ImmortalRun(calls)[1..] == ImmortalRun(calls[1..]);
      ExpiryIsInvisible(l, Script(l, k, c).0, calls[1..], c.clock);
    }
  }

  /** Below half a second of fill time every call fails; from there on none does. */
  lemma WorksExactly(l: Limit, k: Keys, c: Call)
    requires l.Valid()
    ensures Script(l, k, c).1.Reply? <==> 2.0 * l.capacity >= l.rate
    ensures Script(l, k, c).1.InvalidExpire? ==> Script(l, k, c).0 == k
  {
    if 2.0 * l.capacity >= l.rate {
      TtlRefills(l);
    } else {
      var x := l.capacity / l.rate * 2.0;
      assert x * l.rate == 2.0 * l.capacity;
      AtLeastOne(x, l.rate);
    }
  }

  // ---- What is allowed --------------------------------------------------------------

  ghost function KeysAfter(l: Limit, k: Keys, calls: seq<Call>): Keys
    requires l.rate > 0.0
    decreases |calls|
  {
    if calls == [] then k else KeysAfter(l, Script(l, k, calls[0]).0, calls[1..])
  }

  /** What a call takes out. */
  ghost function Taken(l: Limit, k: Keys, c: Call): real
    requires l.rate > 0.0
  {
    var reply := Script(l, k, c).1;
    if reply.Reply? && reply.allowed then c.requested else 0.0
  }

  /** What a run allows in all. */
  ghost function Allowed(l: Limit, k: Keys, calls: seq<Call>): real
    requires l.rate > 0.0
    decreases |calls|
  {
    if calls == [] then 0.0 else Taken(l, k, calls[0]) + Allowed(l, Script(l, k, calls[0]).0, calls[1..])
  }

  ghost function LastClock(calls: seq<Call>, clock: real): real {
    if calls == [] then clock else LastClock(calls[1..], calls[0].clock)
  }

  /** The tokens that keys stand for, and when they were counted. */
  ghost function Tokens(l: Limit, k: Keys): real {
    if k.tokens.Stored? then k.tokens.value else l.capacity
  }

  ghost function Stamp(k: Keys): real {
    if k.stamp.Stored? then k.stamp.value else 0.0
  }

  ghost function Grown(l: Limit, from: real, to: real): real {
    (to - from) * l.rate
  }

  lemma GrownAdds(l: Limit, a: real, b: real, c: real)
    ensures Grown(l, a, b) + Grown(l, b, c) == Grown(l, a, c)
  {
    assert (b - a) * l.rate + (c - b) * l.rate == (c - a) * l.rate;
  }

  /** What the capacity and the seconds since call i leave room for, after all that was allowed from it on. */
  ghost function Room(l: Limit, k: Keys, calls: seq<Call>, i: nat, now: real): real
    requires l.rate > 0.0 && i < |calls|
  {
    l.capacity + Grown(l, Now(calls[i].clock), now) - Allowed(l, KeysAfter(l, k, calls[..i]), calls[i..])
  }

  /** The same from the tokens the run started with. */
  ghost function WholeRoom(l: Limit, k: Keys, calls: seq<Call>, now: real): real
    requires l.rate > 0.0
  {
    Tokens(l, k) + Grown(l, Stamp(k), now) - Allowed(l, k, calls)
  }

  lemma RoomOfRest(l: Limit, k: Keys, calls: seq<Call>, i: nat, now: real)
    requires l.rate > 0.0 && i + 1 < |calls|
    ensures Room(l, k, calls, i + 1, now) == Room(l, Script(l, k, calls[0]).0, calls[1..], i, now)
  {
    assert calls[..i + 1][0] == calls[0] && calls[..i + 1][1..] == calls[1..][..i];
    assert calls[i + 1..] == calls[1..][i..];
  }

  lemma FirstRoom(l: Limit, k: Keys, calls: seq<Call>, now: real)
    requires l.rate > 0.0 && calls != []
    ensures Room(l, k, calls, 0, now) == l.capacity + Grown(l, Now(calls[0].clock), now) - Taken(l, k, calls[0])
      - Allowed(l, Script(l, k, calls[0]).0, calls[1..])
  {
    assert calls[..0] == [] && calls[0..] == calls;
  }

  lemma NowGrows(a: real, b: real)
    requires a <= b
    ensures Now(a) <= Now(b)
  {
    assert (b.Floor + 1) as real > a;
    assert b.Floor >= a.Floor;
  }

  /** One call: the bucket was full or has grown since its stamp, and what is taken goes off. */
  lemma CallTakes(l: Limit, k: Keys, c: Call, clock: real)
    requires l.Valid() && 2.0 * l.capacity >= l.rate
    requires 0.0 <= clock <= c.clock && KeysOk(l, k, clock) && Legit(l, k, c)
    ensures var (k', reply) := Script(l, k, c);
      var full := MinReal(l.capacity, Tokens(l, k) + Grown(l, Stamp(k), Now(c.clock)));
      && reply.Reply? && (reply.allowed <==> c.requested <= full)
      && Tokens(l, k') == full - Taken(l, k, c) == reply.newTokens && Stamp(k') == Now(c.clock)
  {
    WorksExactly(l, k, c);
    ExpiredMeansFull(l, k, c);
    if k.stamp.Stored? {
      NowGrows(k.stamp.since, c.clock);
    } else {
      NowGrows(0.0, c.clock);
    }
    FilledIsGrown(l, k, Now(c.clock));
    ScriptFrom(l, k, Immortal(c));
  }

  lemma FilledIsGrown(l: Limit, k: Keys, now: real)
    requires Stamp(k) <= now
    ensures Filled(l, Seen(k.tokens, false), Seen(k.stamp, false), now) == MinReal(l.capacity, Tokens(l, k) + Grown(l, Stamp(k), now))
  {
    assert MaxReal(0.0, now - Stamp(k)) == now - Stamp(k);
  }

  /** Reply and keys are as the filled bucket says. */
  lemma ScriptFrom(l: Limit, k: Keys, c: Call)
    requires l.rate > 0.0 && Script(l, k, c).1.Reply?
    ensures var (k', reply) := Script(l, k, c);
      var filled := Filled(l, Seen(k.tokens, c.tokensGone), Seen(k.stamp, c.stampGone), Now(c.clock));
      && (reply.allowed <==> c.requested <= filled)
      && reply.newTokens == filled - (if reply.allowed then c.requested else 0.0)
      && Tokens(l, k') == reply.newTokens && Stamp(k') == Now(c.clock)
  {
  }

  /** What is left after a run is the least room, counted from any call on or from the start. */
  lemma {:induction false} TokensAreLeastRoom(l: Limit, k: Keys, calls: seq<Call>, clock: real, now: real)
    requires l.Valid() && 2.0 * l.capacity >= l.rate
    requires 0.0 <= clock && KeysOk(l, k, clock) && LegitRun(l, k, calls, clock)
    ensures var last := KeysAfter(l, k, calls);
      var left := Tokens(l, last) + Grown(l, Stamp(last), now);
      && KeysOk(l, last, LastClock(calls, clock)) && LastClock(calls, clock) >= clock
      && left <= WholeRoom(l, k, calls, now)
      && (forall i: nat :: i < |calls| ==> left <= Room(l, k, calls, i, now))
      && (left == WholeRoom(l, k, calls, now) || exists i: nat :: i < |calls| && left == Room(l, k, calls, i, now))
    decreases |calls|
  {
    if calls != [] {
      var c := calls[0];
      var k' := Script(l, k, c).0;
      CallTakes(l, k, c, clock);
      ScriptKeeps(l, k, c, clock);
      TokensAreLeastRoom(l, k', calls[1..], c.clock, now);
      FirstRoom(l, k, calls, now);
      GrownAdds(l, Stamp(k), Now(c.clock), now);
      var last := KeysAfter(l, k, calls);
      var left := Tokens(l, last) + Grown(l, Stamp(last), now);
      assert WholeRoom(l, k', calls[1..], now) == MinReal(WholeRoom(l, k, calls, now), Room(l, k, calls, 0, now));
      forall i: nat | i < |calls| ensures left <= Room(l, k, calls, i, now) {
        if i > 0 {
          RoomOfRest(l, k, calls, i - 1, now);
        }
      }
      if left != WholeRoom(l, k', calls[1..], now) {
        var i: nat :| i < |calls| - 1 && left == Room(l, k', calls[1..], i, now);
        RoomOfRest(l, k, calls, i, now);
      }
    }
  }

  /**
    Main result: after any run, whatever has expired meanwhile, a call is allowed if and only if it asks for
    no more than the capacity and no more than there is room for, counted from every earlier call on and
    from the tokens at the start. It replies with what is then left.
   */
  lemma AllowedExactly(l: Limit, k: Keys, calls: seq<Call>, clock: real, c: Call)
    requires l.Valid() && 2.0 * l.capacity >= l.rate
    requires 0.0 <= clock && KeysOk(l, k, clock) && LegitRun(l, k, calls, clock)
    requires LastClock(calls, clock) <= c.clock && Legit(l, KeysAfter(l, k, calls), c)
    ensures var reply, now := Script(l, KeysAfter(l, k, calls), c).1, Now(c.clock);
      && reply.Reply?
      && (reply.allowed <==>
            && c.requested <= l.capacity && c.requested <= WholeRoom(l, k, calls, now)
            && forall i: nat :: i < |calls| ==> c.requested <= Room(l, k, calls, i, now))
  {
    TokensAreLeastRoom(l, k, calls, clock, Now(c.clock));
    CallTakes(l, KeysAfter(l, k, calls), c, LastClock(calls, clock));
  }

  lemma {:induction false} LastOfRun(l: Limit, k: Keys, calls: seq<Call>, clock: real)
    requires l.rate > 0.0 && calls != [] && LegitRun(l, k, calls, clock)
    ensures LastClock(calls, clock) == calls[|calls| - 1].clock
    decreases |calls|
  {
    if |calls| > 1 {
      LastOfRun(l, Script(l, k, calls[0]).0, calls[1..], calls[0].clock);
    }
  }

  lemma NoTimeGrowsNothing(l: Limit, now: real)
    ensures Grown(l, now, now) == 0.0
  {
  }

  lemma LeftIsNotNegative(l: Limit, k: Keys, clock: real)
    requires l.Valid() && KeysOk(l, k, clock)
    ensures Tokens(l, k) >= 0.0
  {
  }

  /**
    Main result: over every run, what is allowed from any call on adds up to at most the capacity and the
    rate times the whole seconds up to the last call.
   */
  lemma SpendingIsLimited(l: Limit, k: Keys, calls: seq<Call>, clock: real, i: nat)
    requires l.Valid() && 2.0 * l.capacity >= l.rate && i < |calls|
    requires 0.0 <= clock && KeysOk(l, k, clock) && LegitRun(l, k, calls, clock)
    ensures Allowed(l, KeysAfter(l, k, calls[..i]), calls[i..])
      <= l.capacity + Grown(l, Now(calls[i].clock), Now(calls[|calls| - 1].clock))
  {
    var now := Now(calls[|calls| - 1].clock);
    LastOfRun(l, k, calls, clock);
    TokensAreLeastRoom(l, k, calls, clock, now);
    LastStamp(l, k, calls, clock);
    NoTimeGrowsNothing(l, now);
    LeftIsNotNegative(l, KeysAfter(l, k, calls), LastClock(calls, clock));
    RoomIsKept(l, k, calls, i, now);
  }

  lemma RoomIsKept(l: Limit, k: Keys, calls: seq<Call>, i: nat, now: real)
    requires l.rate > 0.0 && i < |calls| && Room(l, k, calls, i, now) >= 0.0
    ensures Allowed(l, KeysAfter(l, k, calls[..i]), calls[i..]) <= l.capacity + Grown(l, Now(calls[i].clock), now)
  {
  }

  lemma {:induction false} LastStamp(l: Limit, k: Keys, calls: seq<Call>, clock: real)
    requires l.Valid() && 2.0 * l.capacity >= l.rate && calls != []
    requires 0.0 <= clock && KeysOk(l, k, clock) && LegitRun(l, k, calls, clock)
    ensures Stamp(KeysAfter(l, k, calls)) == Now(LastClock(calls, clock))
    decreases |calls|
  {
    CallTakes(l, k, calls[0], clock);
    ScriptKeeps(l, k, calls[0], clock);
    if |calls| > 1 {
      LastStamp(l, Script(l, k, calls[0]).0, calls[1..], calls[0].clock);
    }
  }

  /** A second call in the same second is answered from what the first one left. */
  lemma SameSecond(l: Limit, k: Keys, c: Call, d: Call, clock: real)
    requires l.Valid() && 2.0 * l.capacity >= l.rate && c.requested >= 0.0
    requires 0.0 <= clock <= c.clock <= d.clock && Now(d.clock) == Now(c.clock) && KeysOk(l, k, clock)
    requires Legit(l, k, c) && Legit(l, Script(l, k, c).0, d)
    ensures var (k', first) := Script(l, k, c);
      var second := Script(l, k', d).1;
      && first.Reply? && second.Reply? && (second.allowed <==> d.requested <= first.newTokens)
      && second.newTokens == first.newTokens - if second.allowed then d.requested else 0.0
  {
    CallTakes(l, k, c, clock);
    ScriptKeeps(l, k, c, clock);
    CallTakes(l, Script(l, k, c).0, d, c.clock);
  }
}
