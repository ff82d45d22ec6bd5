/**
 The per-IP token bucket of the signaling server as a function on values: a map from
 IP to bucket, one request step, one clean-up step, and runs of both.
 
 Time is in seconds and tokens are real numbers. The whole theory goes through one
 notion, `Level`: the seconds of refilling an IP has saved up at a given moment, at most
 the sixty that fill a bucket, whether or not the limiter still remembers it. A request
 costs 60/rate of them.
 */
module RateLimitModel {

  type Ip = string

  datatype Bucket = Bucket(tokens: real, lastLeak: real)

  type Buckets = map<Ip, Bucket>

  /** Seconds between two clean-ups, and the age at which a bucket is stale. */
  const INTERVAL := 300.0

  /** Tokens earned per second. */
  function Gain(rate: int): real {
    rate as real / 60.0
  }

  /** Tokens earned in some seconds. */
  function Granted(rate: int, seconds: real): real {
    seconds * Gain(rate)
  }

  function Cap(rate: int, tokens: real): real {
    if tokens > rate as real then rate as real else tokens
  }

  function Refilled(rate: int, b: Bucket, now: real): real {
    Cap(rate, b.tokens + Granted(rate, now - b.lastLeak))
  }

  /** One request: the new buckets and the decision. */
  function Allow(rate: int, m: Buckets, ip: Ip, now: real): (Buckets, bool) {
    if ip !in m then
      (m[ip := Bucket((rate - 1) as real, now)], true)
    else
      var t := Refilled(rate, m[ip], now);
      if t < 1.0 then (m[ip := Bucket(t, now)], false) else (m[ip := Bucket(t - 1.0, now)], true)
  }

  /** One clean-up tick: the buckets that survive it. */
  function Evict(m: Buckets, now: real): Buckets {
    map ip | ip in m && !(m[ip].lastLeak < now - INTERVAL) :: m[ip]
  }

  datatype Event = Request(ip: Ip, at: real) | Tick(at: real)

  function Next(rate: int, m: Buckets, e: Event): Buckets {
    match e
    case Request(ip, at) => Allow(rate, m, ip, at).0
    case Tick(at) => Evict(m, at)
  }

  function After(rate: int, m: Buckets, events: seq<Event>): Buckets
    decreases |events|
  {
    if events == [] then m else After(rate, Next(rate, m, events[0]), events[1..])
  }

  /** The decisions of a run, one for each request. */
  function Decide(rate: int, m: Buckets, events: seq<Event>): seq<bool>
    decreases |events|
  {
    if events == [] then []
    else
      (match events[0]
       case Request(ip, at) => [Allow(rate, m, ip, at).1]
       case Tick(_) => [])
      + Decide(rate, Next(rate, m, events[0]), events[1..])
  }

  /** The decisions a run takes on the requests of one IP. */
  function DecideFor(rate: int, m: Buckets, ip: Ip, events: seq<Event>): seq<bool>
    decreases |events|
  {
    if events == [] then []
    else
      (if events[0].Request? && events[0].ip == ip then [Allow(rate, m, ip, events[0].at).1] else [])
      + DecideFor(rate, Next(rate, m, events[0]), ip, events[1..])
  }

  function Count(decisions: seq<bool>): nat {
    if decisions == [] then 0 else (if decisions[0] then 1 else 0) + Count(decisions[1..])
  }

  /** The clock of a run starts no earlier than t and never goes back. */
  predicate Clocked(events: seq<Event>, t: real) {
    events == [] || (t <= events[0].at && Clocked(events[1..], events[0].at))
  }

  /** The time of the last event, or t if there is none. */
  ghost function LastTime(events: seq<Event>, t: real): real {
    if events == [] then t else events[|events| - 1].at
  }

  function NoTicks(events: seq<Event>): seq<Event> {
    if events == [] then []
    else (if events[0].Tick? then [] else [events[0]]) + NoTicks(events[1..])
  }

  function Only(ip: Ip, events: seq<Event>): seq<Event> {
    if events == [] then []
    else (if events[0].Request? && events[0].ip == ip then [events[0]] else []) + Only(ip, events[1..])
  }

  // ---- The level: seconds of refilling saved up ----

  function Full(seconds: real): real {
    if seconds > 60.0 then 60.0 else seconds
  }

  /** A limiter's tokens in seconds: what some tokens are worth, and the price of one request. */
  datatype Scale = Scale(worth: real -> real, price: real)

  /** The scale is that of the rate: refilling, the burst and the threshold all agree with it. */
  ghost predicate Fits(rate: int, c: Scale) {
    && rate >= 1
    && 0.0 < c.price <= 60.0
    && c.worth(rate as real - 1.0) == 60.0 - c.price
    && (forall b, now :: FitsRefill(rate, c, b, Refilled(rate, b, now), Full(c.worth(b.tokens) + (now - b.lastLeak))))
  }

  ghost predicate FitsRefill(rate: int, c: Scale, b: Bucket, tokens: real, saved: real) {
    && c.worth(tokens) == saved
    && c.worth(tokens - 1.0) == saved - c.price
    && (tokens < 1.0 <==> saved < c.price)
  }

  /** The seconds saved up by ip at time now; a forgotten IP has a full bucket. */
  ghost function Level(c: Scale, m: Buckets, ip: Ip, now: real): real {
    if ip in m then Full(c.worth(m[ip].tokens) + (now - m[ip].lastLeak)) else 60.0
  }

  /** What every bucket satisfies at time t, in seconds saved up. */
  ghost predicate Sound(c: Scale, m: Buckets, t: real) {
    forall ip | ip in m :: 0.0 <= c.worth(m[ip].tokens) <= 60.0 && m[ip].lastLeak <= t
  }

  /** Two limiters that no request at time t or later can tell apart by level. */
  ghost predicate SameLevels(c: Scale, m: Buckets, n: Buckets, t: real) {
    forall ip, u | t <= u :: Level(c, m, ip, u) == Level(c, n, ip, u)
  }

  lemma Associate(x: real, y: real, z: real)
    ensures x * y * z == x * (y * z)
  {
  }

  lemma TimesPrice(rate: int, price: real, x: real)
    requires price * rate as real == 60.0
    ensures Granted(rate, x) * price == x
  {
    Associate(x, Gain(rate), price);
    assert Gain(rate) * price == 1.0;
  }

  lemma Distribute(x: real, y: real, z: real)
    ensures (x + y) * z == x * z + y * z
  {
  }

  lemma Monotone(x: real, y: real, z: real)
    requires z > 0.0
    ensures x < y <==> x * z < y * z
  {
    if x < y {
      assert (y - x) * z > 0.0;
    } else {
      assert (x - y) * z >= 0.0;
    }
  }

  lemma EarnedInSeconds(rate: int, price: real, tokens: real, elapsed: real)
    requires rate >= 1 && price * rate as real == 60.0
    ensures (tokens + Granted(rate, elapsed)) * price == tokens * price + elapsed
  {
    TimesPrice(rate, price, elapsed);
    Distribute(tokens, Granted(rate, elapsed), price);
  }

  lemma RefillInSeconds(rate: int, price: real, b: Bucket, now: real, tokens: real)
    requires rate >= 1 && price > 0.0 && price * rate as real == 60.0 && tokens == Refilled(rate, b, now)
    ensures tokens * price == Full(b.tokens * price + (now - b.lastLeak))
  {
    EarnedInSeconds(rate, price, b.tokens, now - b.lastLeak);
    Monotone(rate as real, b.tokens + Granted(rate, now - b.lastLeak), price);
  }

  lemma Price(rate: int) returns (price: real)
    requires rate >= 1
    ensures 0.0 < price <= 60.0 && price * rate as real == 60.0
    ensures (rate as real - 1.0) * price == 60.0 - price
  {
    price := 60.0 / rate as real;
    Distribute(rate as real, -1.0, price);
  }

  /** One token is worth 60/rate seconds. */
  lemma ScaleOf(rate: int) returns (c: Scale)
    requires rate >= 1
    ensures Fits(rate, c) && c.price * rate as real == 60.0
  {
    var price := Price(rate);
    c := Scale((t: real) => t * price, price);
    forall b, now
      ensures FitsRefill(rate, c, b, Refilled(rate, b, now), Full(c.worth(b.tokens) + (now - b.lastLeak)))
    {
      RefillFits(rate, price, b, now);
      ScaledRefill(rate, c, b, Refilled(rate, b, now), Full(c.worth(b.tokens) + (now - b.lastLeak)));
    }
  }

  lemma ScaledRefill(rate: int, c: Scale, b: Bucket, tokens: real, saved: real)
    requires forall t :: c.worth(t) == t * c.price
    requires tokens * c.price == saved && (tokens - 1.0) * c.price == saved - c.price
    requires tokens < 1.0 <==> saved < c.price
    ensures FitsRefill(rate, c, b, tokens, saved)
  {
  }

  lemma RefillFits(rate: int, price: real, b: Bucket, now: real)
    requires rate >= 1 && price > 0.0 && price * rate as real == 60.0
    ensures var tokens, saved := Refilled(rate, b, now), Full(b.tokens * price + (now - b.lastLeak));
      && tokens * price == saved
      && (tokens - 1.0) * price == saved - price
      && (tokens < 1.0 <==> saved < price)
  {
    var tokens := Refilled(rate, b, now);
    RefillInSeconds(rate, price, b, now, tokens);
    Distribute(tokens, -1.0, price);
    Monotone(tokens, 1.0, price);
  }

  lemma LevelAdvances(c: Scale, m: Buckets, ip: Ip, t: real, u: real)
    requires Sound(c, m, t) && t <= u
    ensures Level(c, m, ip, u) == Full(Level(c, m, ip, t) + (u - t))
    ensures 0.0 <= Level(c, m, ip, t) <= Level(c, m, ip, u) <= 60.0
  {
  }

  // ---- One event, in terms of levels ----

  /** A request is decided by the level alone, and costs only its own IP, and only when allowed. */
  lemma RequestByLevel(rate: int, c: Scale, m: Buckets, ip: Ip, now: real)
    requires Fits(rate, c) && Sound(c, m, now)
    ensures var (n, ok) := Allow(rate, m, ip, now);
      && ok == (Level(c, m, ip, now) >= c.price)
      && Sound(c, n, now)
      && Level(c, n, ip, now) == Level(c, m, ip, now) - (if ok then c.price else 0.0)
      && forall other, u | other != ip :: Level(c, n, other, u) == Level(c, m, other, u)
  {
    if ip !in m {
      assert (rate - 1) as real == rate as real - 1.0;
    }
  }

  /** Dropping a stale bucket changes no level: it had refilled completely. */
  lemma EvictKeepsLevels(c: Scale, m: Buckets, now: real)
    requires Sound(c, m, now)
    ensures Sound(c, Evict(m, now), now)
    ensures SameLevels(c, m, Evict(m, now), now)
  {
  }

  ghost function Cost(rate: int, c: Scale, m: Buckets, ip: Ip, e: Event): real {
    if e.Request? && e.ip == ip && Allow(rate, m, ip, e.at).1 then c.price else 0.0
  }

  /** Any event lowers the level of ip by what ip is charged for it. */
  lemma EventByLevel(rate: int, c: Scale, m: Buckets, ip: Ip, e: Event, t: real)
    requires Fits(rate, c) && Sound(c, m, t) && t <= e.at
    ensures Sound(c, m, e.at) && Sound(c, Next(rate, m, e), e.at)
    ensures Level(c, Next(rate, m, e), ip, e.at) == Full(Level(c, m, ip, t) + (e.at - t)) - Cost(rate, c, m, ip, e)
    ensures forall u | e.at <= u ::
              Level(c, Next(rate, m, e), ip, u) == Full(Level(c, Next(rate, m, e), ip, e.at) + (u - e.at))
  {
    LevelAdvances(c, m, ip, t, e.at);
    assert Sound(c, m, e.at);
    match e {
      case Request(who, at) => RequestByLevel(rate, c, m, who, at);
      case Tick(at) => EvictKeepsLevels(c, m, at);
    }
    forall u | e.at <= u
      ensures Level(c, Next(rate, m, e), ip, u) == Full(Level(c, Next(rate, m, e), ip, e.at) + (u - e.at))
    {
      LevelAdvances(c, Next(rate, m, e), ip, e.at, u);
    }
  }

  /** Limiters that agree on an IP's level at time t agree on it for ever. */
  lemma SameFromNow(c: Scale, m: Buckets, n: Buckets, ip: Ip, t: real)
    requires Sound(c, m, t) && Sound(c, n, t) && Level(c, m, ip, t) == Level(c, n, ip, t)
    ensures forall u | t <= u :: Level(c, m, ip, u) == Level(c, n, ip, u)
  {
    forall u | t <= u ensures Level(c, m, ip, u) == Level(c, n, ip, u) {
      LevelAdvances(c, m, ip, t, u);
      LevelAdvances(c, n, ip, t, u);
    }
  }

  /** A clean-up forgets exactly the IPs that have been idle for more than five minutes. */
  lemma ForgetsIff(m: Buckets, now: real, ip: Ip)
    ensures ip in Evict(m, now) <==> ip in m && now - m[ip].lastLeak <= 300.0
    ensures ip in Evict(m, now) ==> Evict(m, now)[ip] == m[ip]
  {
  }

  /** Every request, allowed or not, counts as activity of its IP. */
  lemma RequestIsActivity(rate: int, m: Buckets, ip: Ip, now: real)
    ensures var n := Allow(rate, m, ip, now).0;
      ip in n && n[ip].lastLeak == now && forall other | other != ip :: (other in n <==> other in m)
                                                                          && (other in m ==> n[other] == m[other])
  {
  }

  // ---- Tokens ----

  /** Tokens within 0 and the burst, and a time not ahead of the clock. */
  predicate BucketInRange(rate: int, b: Bucket, t: real) {
    0.0 <= b.tokens <= rate as real && b.lastLeak <= t
  }

  ghost predicate InRange(rate: int, m: Buckets, t: real) {
    forall ip | ip in m :: BucketInRange(rate, m[ip], t)
  }

  lemma GrantedNotNegative(rate: int, seconds: real)
    requires rate >= 1 && seconds >= 0.0
    ensures Granted(rate, seconds) >= 0.0
  {
    assert Gain(rate) > 0.0;
  }

  lemma RefillInRange(rate: int, b: Bucket, now: real)
    requires rate >= 1 && BucketInRange(rate, b, now)
    ensures 0.0 <= Refilled(rate, b, now) <= rate as real
  {
    GrantedNotNegative(rate, now - b.lastLeak);
  }

  lemma RequestInRange(rate: int, m: Buckets, ip: Ip, now: real)
    requires rate >= 1 && InRange(rate, m, now)
    ensures InRange(rate, Allow(rate, m, ip, now).0, now)
  {
    if ip in m {
      RefillInRange(rate, m[ip], now);
    }
  }

  lemma NextInRange(rate: int, m: Buckets, e: Event, t: real)
    requires rate >= 1 && t <= e.at && InRange(rate, m, t)
    ensures InRange(rate, Next(rate, m, e), e.at)
  {
    forall ip | ip in m ensures BucketInRange(rate, m[ip], e.at) {
      assert BucketInRange(rate, m[ip], t);
    }
    if e.Request? {
      RequestInRange(rate, m, e.ip, e.at);
    }
  }

  /** In every run tokens stay within 0 and the burst, and no bucket is ahead of the clock. */
  lemma {:induction false} TokensStayInRange(rate: int, events: seq<Event>, m: Buckets, t: real)
    requires rate >= 1 && Clocked(events, t) && InRange(rate, m, t)
    ensures InRange(rate, After(rate, m, events), LastTime(events, t))
    decreases |events|
  {
    if events != [] {
      NextInRange(rate, m, events[0], t);
      TokensStayInRange(rate, events[1..], Next(rate, m, events[0]), events[0].at);
    }
  }

  // ---- Runs ----

  /** Limiters with equal levels take the same decisions for ever. */
  lemma {:induction false} SameLevelsSameDecisions(rate: int, c: Scale, m: Buckets, n: Buckets, t: real,
                                                   events: seq<Event>)
    requires Fits(rate, c) && Sound(c, m, t) && Sound(c, n, t) && SameLevels(c, m, n, t) && Clocked(events, t)
    ensures Decide(rate, m, events) == Decide(rate, n, events)
    decreases |events|
  {
    if events != [] {
      var e := events[0];
      assert Sound(c, m, e.at) && Sound(c, n, e.at);
      if e.Request? {
        RequestByLevel(rate, c, m, e.ip, e.at);
        RequestByLevel(rate, c, n, e.ip, e.at);
      }
      forall ip, u | e.at <= u ensures Level(c, Next(rate, m, e), ip, u) == Level(c, Next(rate, n, e), ip, u) {
        EventByLevel(rate, c, m, ip, e, t);
        EventByLevel(rate, c, n, ip, e, t);
      }
      EventByLevel(rate, c, m, "", e, t);
      EventByLevel(rate, c, n, "", e, t);
      SameLevelsSameDecisions(rate, c, Next(rate, m, e), Next(rate, n, e), e.at, events[1..]);
    }
  }

  lemma ClockedEarlier(events: seq<Event>, t: real, u: real)
    requires Clocked(events, t) && u <= t
    ensures Clocked(events, u)
  {
  }

  lemma {:induction false} NoTicksClocked(events: seq<Event>, t: real)
    requires Clocked(events, t)
    ensures Clocked(NoTicks(events), t)
  {
    if events != [] {
      var rest := events[1..];
      NoTicksClocked(rest, events[0].at);
      assert ([events[0]] + NoTicks(rest))[1..] == NoTicks(rest);
      ClockedEarlier(NoTicks(rest), events[0].at, t);
      assert [] + NoTicks(rest) == NoTicks(rest);
    }
  }

  lemma {:induction false} CleanupsAreInvisible(rate: int, c: Scale, m: Buckets, events: seq<Event>, t: real)
    requires Fits(rate, c) && Sound(c, m, t) && Clocked(events, t)
    ensures Decide(rate, m, events) == Decide(rate, m, NoTicks(events))
    decreases |events|
  {
    if events != [] {
      var e, rest := events[0], events[1..];
      EventByLevel(rate, c, m, "", e, t);
      CleanupsAreInvisible(rate, c, Next(rate, m, e), rest, e.at);
      NoTicksClocked(rest, e.at);
      if e.Tick? {
        EvictKeepsLevels(c, m, e.at);
        SameLevelsSameDecisions(rate, c, m, Evict(m, e.at), e.at, NoTicks(rest));
        assert NoTicks(events) == NoTicks(rest);
      } else {
        assert ([e] + NoTicks(rest))[1..] == NoTicks(rest);
      }
    }
  }

  /**
   From any two states in which every IP has the same seconds saved up, one limiter that
   cleans up and one that does not decide every later request alike.
   */
  lemma EvictionInvisibleFrom(rate: int, c: Scale, m: Buckets, n: Buckets, events: seq<Event>, t: real)
    requires Fits(rate, c) && Sound(c, m, t) && Sound(c, n, t) && SameLevels(c, m, n, t) && Clocked(events, t)
    ensures Decide(rate, m, events) == Decide(rate, n, NoTicks(events))
  {
    CleanupsAreInvisible(rate, c, m, events, t);
    NoTicksClocked(events, t);
    SameLevelsSameDecisions(rate, c, m, n, t, NoTicks(events));
  }

  /** Without a positive rate a forgotten IP is let in again where a remembered one is not. */
  lemma EvictionVisibleWithoutRate(rate: int)
    requires rate <= 0
    ensures var run := [Request("a", 0.0), Tick(301.0), Request("a", 302.0)];
      && Clocked(run, 0.0)
      && Decide(rate, map[], run) == [true, true]
      && Decide(rate, map[], NoTicks(run)) == [true, false]
  {
    var first, tick, again := Request("a", 0.0), Tick(301.0), Request("a", 302.0);
    var run := [first, tick, again];
    assert run[1..] == [tick, again] && [tick, again][1..] == [again] && [again][1..] == [];
    assert Clocked([again], 301.0) && Clocked([tick, again], 0.0);
    var m := Next(rate, map[], first);
    assert Next(rate, m, tick) == map[];
    assert Decide(rate, map[], [again]) == [true];
    assert Decide(rate, m, [tick, again]) == [true];
    assert NoTicks([again]) == [again] && NoTicks([tick, again]) == [again] && NoTicks(run) == [first, again];
    assert [first, again][1..] == [again];
    assert Gain(rate) <= 0.0 && 302.0 * Gain(rate) <= 0.0;
    assert Refilled(rate, m["a"], 302.0) < 1.0;
    assert Decide(rate, m, [again]) == [false];
  }

  /**
   Deleting stale buckets is invisible exactly for the positive rates: with one, every
   run with clean-ups decides every request as the limiter that never forgets; without
   one, some run does not.
   */
  lemma EvictionInvisible(rate: int)
    ensures rate >= 1 <==>
            forall events | Clocked(events, 0.0) ::
              Decide(rate, map[], events) == Decide(rate, map[], NoTicks(events))
  {
    if rate >= 1 {
      var c := ScaleOf(rate);
      forall events | Clocked(events, 0.0)
        ensures Decide(rate, map[], events) == Decide(rate, map[], NoTicks(events))
      {
        CleanupsAreInvisible(rate, c, map[], events, 0.0);
      }
    } else {
      EvictionVisibleWithoutRate(rate);
    }
  }

  lemma {:induction false} ClockedParts(a: seq<Event>, b: seq<Event>, t: real)
    ensures Clocked(a + b, t) <==> Clocked(a, t) && Clocked(b, LastTime(a, t))
    decreases |a|
  {
    if a == [] {
      assert a + b == b;
    } else {
      assert (a + b)[1..] == a[1..] + b;
      ClockedParts(a[1..], b, a[0].at);
    }
  }

  lemma {:induction false} Splits(rate: int, m: Buckets, a: seq<Event>, b: seq<Event>)
    ensures After(rate, m, a + b) == After(rate, After(rate, m, a), b)
    ensures Decide(rate, m, a + b) == Decide(rate, m, a) + Decide(rate, After(rate, m, a), b)
    decreases |a|
  {
    if a == [] {
      assert a + b == b;
    } else {
      assert (a + b)[1..] == a[1..] + b;
      Splits(rate, Next(rate, m, a[0]), a[1..], b);
    }
  }

  lemma {:induction false} AfterSound(rate: int, c: Scale, m: Buckets, events: seq<Event>, t: real)
    requires Fits(rate, c) && Sound(c, m, t) && Clocked(events, t)
    ensures Sound(c, After(rate, m, events), LastTime(events, t))
    decreases |events|
  {
    if events != [] {
      EventByLevel(rate, c, m, "", events[0], t);
      AfterSound(rate, c, Next(rate, m, events[0]), events[1..], events[0].at);
    }
  }

  /** A denied request costs nothing: the run without it takes every other decision the same. */
  lemma DeniedRequestIsFree(rate: int, before: seq<Event>, ip: Ip, at: real, rest: seq<Event>)
    requires rate >= 1 && Clocked(before + ([Request(ip, at)] + rest), 0.0)
    requires !Allow(rate, After(rate, map[], before), ip, at).1
    ensures var tail := Decide(rate, After(rate, map[], before + [Request(ip, at)]), rest);
      && Decide(rate, map[], before + ([Request(ip, at)] + rest)) == Decide(rate, map[], before) + ([false] + tail)
      && Decide(rate, map[], before + rest) == Decide(rate, map[], before) + tail
  {
    var c := ScaleOf(rate);
    var denied := [Request(ip, at)];
    var m := After(rate, map[], before);
    var n := Allow(rate, m, ip, at).0;
    assert (denied + rest)[1..] == rest && denied[1..] == [];
    ClockedParts(before, denied + rest, 0.0);
    Splits(rate, map[], before, denied + rest);
    Splits(rate, map[], before, rest);
    Splits(rate, map[], before, denied);
    assert After(rate, m, denied) == n;
    AfterSound(rate, c, map[], before, 0.0);
    assert Sound(c, m, at);
    RequestByLevel(rate, c, m, ip, at);
    forall who, u | at <= u ensures Level(c, m, who, u) == Level(c, n, who, u) {
      SameFromNow(c, m, n, ip, at);
    }
    SameLevelsSameDecisions(rate, c, m, n, at, rest);
  }

  /** Limiters that agree on one IP's level take the same decisions on that IP alone. */
  lemma DecideFirst(rate: int, m: Buckets, ip: Ip, at: real, rest: seq<Event>)
    ensures Decide(rate, m, [Request(ip, at)] + rest)
            == [Allow(rate, m, ip, at).1] + Decide(rate, Allow(rate, m, ip, at).0, rest)
  {
    assert ([Request(ip, at)] + rest)[1..] == rest;
  }

  lemma OnlyFirst(ip: Ip, events: seq<Event>)
    requires events != []
    ensures var e, rest := events[0], Only(ip, events[1..]);
      Only(ip, events) == if e.Request? && e.ip == ip then [Request(ip, e.at)] + rest else rest
  {
    assert [] + Only(ip, events[1..]) == Only(ip, events[1..]);
  }

  lemma {:induction false} OneIpByLevel(rate: int, c: Scale, m: Buckets, n: Buckets, ip: Ip, t: real,
                                        events: seq<Event>)
    requires Fits(rate, c) && Sound(c, m, t) && Sound(c, n, t) && Clocked(events, t)
    requires Level(c, m, ip, t) == Level(c, n, ip, t)
    ensures DecideFor(rate, m, ip, events) == Decide(rate, n, Only(ip, events))
    decreases |events|
  {
    if events != [] {
      var e, rest := events[0], events[1..];
      EventByLevel(rate, c, m, ip, e, t);
      SameFromNow(c, m, n, ip, t);
      OnlyFirst(ip, events);
      if e.Request? && e.ip == ip {
        EventByLevel(rate, c, n, ip, e, t);
        RequestByLevel(rate, c, m, ip, e.at);
        RequestByLevel(rate, c, n, ip, e.at);
        DecideFirst(rate, n, ip, e.at, Only(ip, rest));
        OneIpByLevel(rate, c, Next(rate, m, e), Allow(rate, n, ip, e.at).0, ip, e.at, rest);
      } else {
        LevelAdvances(c, m, ip, t, e.at);
        OneIpByLevel(rate, c, Next(rate, m, e), n, ip, e.at, rest);
      }
    }
  }

  /** IPs do not interfere: in a run with clean-ups, an IP is decided as if it were alone. */
  lemma IpsDoNotInterfere(rate: int, ip: Ip, events: seq<Event>)
    requires rate >= 1 && Clocked(events, 0.0)
    ensures DecideFor(rate, map[], ip, events) == Decide(rate, map[], Only(ip, events))
  {
    var c := ScaleOf(rate);
    OneIpByLevel(rate, c, map[], map[], ip, 0.0, events);
  }

  // ---- Windows ----

  /** What the allowed requests cost, in seconds. */
  function Paid(price: real, decisions: seq<bool>): real {
    if decisions == [] then 0.0 else (if decisions[0] then price else 0.0) + Paid(price, decisions[1..])
  }

  lemma {:induction false} PaidByCount(price: real, decisions: seq<bool>)
    ensures Paid(price, decisions) == Count(decisions) as real * price
  {
    if decisions != [] {
      PaidByCount(price, decisions[1..]);
      Distribute(1.0, Count(decisions[1..]) as real, price);
    }
  }

  lemma PaidFirst(rate: int, c: Scale, m: Buckets, ip: Ip, events: seq<Event>)
    requires events != []
    ensures Paid(c.price, DecideFor(rate, m, ip, events))
         == Cost(rate, c, m, ip, events[0]) + Paid(c.price, DecideFor(rate, Next(rate, m, events[0]), ip, events[1..]))
  {
    var tail := DecideFor(rate, Next(rate, m, events[0]), ip, events[1..]);
    assert ([true] + tail)[1..] == tail && ([false] + tail)[1..] == tail && [] + tail == tail;
  }

  /** The budget of a run: an IP never pays more than it had and earned. */
  lemma {:induction false} PaidByLevel(rate: int, c: Scale, m: Buckets, ip: Ip, t: real, events: seq<Event>)
    requires Fits(rate, c) && Sound(c, m, t) && Clocked(events, t)
    ensures Paid(c.price, DecideFor(rate, m, ip, events)) <= Level(c, m, ip, t) + (LastTime(events, t) - t)
    decreases |events|
  {
    LevelAdvances(c, m, ip, t, t);
    if events != [] {
      PaidFirst(rate, c, m, ip, events);
      EventByLevel(rate, c, m, ip, events[0], t);
      PaidByLevel(rate, c, Next(rate, m, events[0]), ip, events[0].at, events[1..]);
    }
  }

  lemma AtMost(n: real, budget: real, seconds: real, price: real)
    requires price > 0.0 && n * price <= seconds && budget * price == seconds
    ensures n <= budget
  {
    Monotone(budget, n, price);
  }

  lemma CountFromPaid(rate: int, price: real, decisions: seq<bool>, seconds: real)
    requires rate >= 1 && price > 0.0 && price * rate as real == 60.0 && Paid(price, decisions) <= 60.0 + seconds
    ensures Count(decisions) as real <= rate as real + Granted(rate, seconds)
  {
    PaidByCount(price, decisions);
    EarnedInSeconds(rate, price, rate as real, seconds);
    AtMost(Count(decisions) as real, rate as real + Granted(rate, seconds), 60.0 + seconds, price);
  }

  /**
   The window bound: in any run with clean-ups, the requests of one IP allowed from one
   event to a later one number at most the burst plus what the rate grants meanwhile.
   */
  lemma WindowBound(rate: int, before: seq<Event>, window: seq<Event>, ip: Ip)
    requires rate >= 1 && Clocked(before + window, 0.0) && window != []
    ensures Count(DecideFor(rate, After(rate, map[], before), ip, window)) as real
         <= rate as real + Granted(rate, window[|window| - 1].at - window[0].at)
  {
    var c := ScaleOf(rate);
    var decisions := PaidInWindow(rate, c, before, window, ip);
    CountFromPaid(rate, c.price, decisions, window[|window| - 1].at - window[0].at);
  }

  lemma PaidInWindow(rate: int, c: Scale, before: seq<Event>, window: seq<Event>, ip: Ip) returns (decisions: seq<bool>)
    requires Fits(rate, c) && Clocked(before + window, 0.0) && window != []
    ensures decisions == DecideFor(rate, After(rate, map[], before), ip, window)
    ensures Paid(c.price, decisions) <= 60.0 + (window[|window| - 1].at - window[0].at)
  {
    var m := After(rate, map[], before);
    decisions := DecideFor(rate, m, ip, window);
    ClockedParts(before, window, 0.0);
    AfterSound(rate, c, map[], before, 0.0);
    assert Sound(c, m, window[0].at);
    LevelAdvances(c, m, ip, window[0].at, window[0].at);
    PaidByLevel(rate, c, m, ip, window[0].at, window);
  }

  // ---- Spacing ----

  /** Successive requests of ip are at least `gap` seconds apart, the first no earlier than `from`. */
  predicate Spaced(gap: real, ip: Ip, events: seq<Event>, from: real) {
    events == [] ||
    if events[0].Request? && events[0].ip == ip
    then from <= events[0].at && Spaced(gap, ip, events[1..], events[0].at + gap)
    else Spaced(gap, ip, events[1..], from)
  }

  lemma {:induction false} SpacedFrom(rate: int, c: Scale, m: Buckets, ip: Ip, t: real, events: seq<Event>, from: real)
    requires Fits(rate, c) && Sound(c, m, t) && Clocked(events, t) && Spaced(c.price, ip, events, from)
    requires forall u | t <= u && from <= u :: Level(c, m, ip, u) >= c.price
    ensures forall ok | ok in DecideFor(rate, m, ip, events) :: ok
    decreases |events|
  {
    if events != [] {
      var e, rest := events[0], events[1..];
      EventByLevel(rate, c, m, ip, e, t);
      LevelAdvances(c, m, ip, t, e.at);
      if e.Request? && e.ip == ip {
        RequestByLevel(rate, c, m, ip, e.at);
        SpacedFrom(rate, c, Next(rate, m, e), ip, e.at, rest, e.at + c.price);
      } else {
        forall u | e.at <= u && from <= u ensures Level(c, Next(rate, m, e), ip, u) >= c.price {
          LevelAdvances(c, m, ip, e.at, u);
        }
        SpacedFrom(rate, c, Next(rate, m, e), ip, e.at, rest, from);
      }
    }
  }

  lemma PriceOf(rate: int, price: real)
    requires rate >= 1 && price * rate as real == 60.0
    ensures price == 60.0 / rate as real
  {
  }

  /** Requests spaced at least 60/rate seconds apart are never denied. */
  lemma SpacedRequestsNeverDenied(rate: int, ip: Ip, events: seq<Event>)
    requires rate >= 1 && Clocked(events, 0.0) && Spaced(60.0 / rate as real, ip, events, 0.0)
    ensures forall ok | ok in DecideFor(rate, map[], ip, events) :: ok
  {
    var c := ScaleOf(rate);
    PriceOf(rate, c.price);
    SpacedFrom(rate, c, map[], ip, 0.0, events, 0.0);
  }
}
