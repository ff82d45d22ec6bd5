/**
 The rate limiter described without buckets: a request is allowed exactly when no window that
 ends with it would hold more requests than the burst and the rate permit.
 */
module RateLimitExact {
  import opened RateLimitModel

  lemma {:induction false} DecideForParts(rate: int, m: Buckets, ip: Ip, a: seq<Event>, b: seq<Event>)
    ensures DecideFor(rate, m, ip, a + b) == DecideFor(rate, m, ip, a) + DecideFor(rate, After(rate, m, a), ip, b)
    decreases |a|
  {
    if a == [] {
      assert a + b == b;
    } else {
      assert (a + b)[0] == a[0] && (a + b)[1..] == a[1..] + b;
      var n := Next(rate, m, a[0]);
      DecideForParts(rate, n, ip, a[1..], b);
      var first := if a[0].Request? && a[0].ip == ip then [Allow(rate, m, ip, a[0].at).1] else [];
      var tail, later := DecideFor(rate, n, ip, a[1..]), DecideFor(rate, After(rate, n, a[1..]), ip, b);
      assert first + (tail + later) == first + tail + later;
    }
  }

  lemma {:induction false} PaidParts(price: real, a: seq<bool>, b: seq<bool>)
    ensures Paid(price, a + b) == Paid(price, a) + Paid(price, b)
  {
    if a == [] {
      assert a + b == b;
    } else {
      assert (a + b)[1..] == a[1..] + b;
      PaidParts(price, a[1..], b);
    }
  }

  /** The decisions of a run on ip from event k on. */
  function From(rate: int, events: seq<Event>, k: nat, ip: Ip): seq<bool>
    requires k <= |events|
  {
    DecideFor(rate, After(rate, map[], events[..k]), ip, events[k..])
  }

  /** Whether one more allowed request is more than a window of that many seconds permits. */
  predicate NoRoom(rate: int, decisions: seq<bool>, seconds: real) {
    Count(decisions) as real + 1.0 > rate as real + Granted(rate, seconds)
  }

  /** Whether allowing one more request of ip would break the bound of the window that starts with event k. */
  ghost predicate Exhausted(rate: int, events: seq<Event>, k: nat, ip: Ip, at: real) {
    k < |events| && NoRoom(rate, From(rate, events, k, ip), at - events[k].at)
  }

  lemma FromLater(rate: int, c: Scale, events: seq<Event>, e: Event, k: nat, ip: Ip)
    requires k <= |events|
    ensures Paid(c.price, From(rate, events + [e], k, ip))
            == Paid(c.price, From(rate, events, k, ip)) + Cost(rate, c, After(rate, map[], events), ip, e)
  {
    var m := After(rate, map[], events[..k]);
    assert (events + [e])[..k] == events[..k] && (events + [e])[k..] == events[k..] + [e];
    assert events == events[..k] + events[k..];
    Splits(rate, map[], events[..k], events[k..]);
    DecideForParts(rate, m, ip, events[k..], [e]);
    PaidParts(c.price, DecideFor(rate, m, ip, events[k..]), DecideFor(rate, After(rate, map[], events), ip, [e]));
    PaidFirst(rate, c, After(rate, map[], events), ip, [e]);
    assert [e][1..] == [];
  }

  lemma LevelAfter(rate: int, c: Scale, events: seq<Event>, e: Event, ip: Ip, t: real)
    requires Fits(rate, c) && Clocked(events, 0.0) && LastTime(events, 0.0) <= e.at <= t
    ensures var m := After(rate, map[], events);
      Level(c, After(rate, map[], events + [e]), ip, t)
      == Full(Level(c, m, ip, e.at) - Cost(rate, c, m, ip, e) + (t - e.at))
  {
    var m := After(rate, map[], events);
    AfterSound(rate, c, map[], events, 0.0);
    LevelAdvances(c, m, ip, LastTime(events, 0.0), e.at);
    EventByLevel(rate, c, m, ip, e, LastTime(events, 0.0));
    Splits(rate, map[], events, [e]);
    assert [e][1..] == [];
  }

  /** The level at time t of an IP whose bucket was last full at event k, or is full now. */
  ghost function SinceFull(rate: int, c: Scale, events: seq<Event>, ip: Ip, t: real, k: nat): real
    requires k <= |events|
  {
    if k == |events| then 60.0 else 60.0 + (t - events[k].at) - Paid(c.price, From(rate, events, k, ip))
  }

  lemma SinceFullLater(rate: int, c: Scale, init: seq<Event>, e: Event, ip: Ip, t: real, k: nat)
    requires k <= |init|
    ensures SinceFull(rate, c, init + [e], ip, t, k)
            == SinceFull(rate, c, init, ip, e.at, k) - Cost(rate, c, After(rate, map[], init), ip, e) + (t - e.at)
  {
    FromLater(rate, c, init, e, k, ip);
    if k == |init| {
      assert init[k..] == [] && (init + [e])[k] == e;
    } else {
      assert (init + [e])[k] == init[k];
    }
  }

  /**
   The level of an IP counts down from a full bucket: it is full now, or was at event k and has been
   neither capped nor reset since.
   */
  lemma {:induction false} LevelSinceFull(rate: int, c: Scale, events: seq<Event>, ip: Ip, t: real) returns (k: nat)
    requires Fits(rate, c) && Clocked(events, 0.0) && LastTime(events, 0.0) <= t
    ensures k <= |events| && Level(c, After(rate, map[], events), ip, t) == SinceFull(rate, c, events, ip, t, k)
    decreases |events|
  {
    k := |events|;
    if events != [] {
      var init, e := events[..|events| - 1], events[|events| - 1];
      assert events == init + [e];
      ClockedParts(init, [e], 0.0);
      var k0 := LevelSinceFull(rate, c, init, ip, e.at);
      LevelAfter(rate, c, init, e, ip, t);
      SinceFullLater(rate, c, init, e, ip, t, k0);
      if SinceFull(rate, c, events, ip, t, k0) < 60.0 {
        k := k0;
      }
    }
  }

  lemma Broken(rate: int, price: real, decisions: seq<bool>, seconds: real)
    requires rate >= 1 && price > 0.0 && price * rate as real == 60.0
    ensures 60.0 + seconds - Paid(price, decisions) < price
            <==> NoRoom(rate, decisions, seconds)
  {
    var count, budget := Count(decisions) as real, rate as real + Granted(rate, seconds);
    PaidByCount(price, decisions);
    EarnedInSeconds(rate, price, rate as real, seconds);
    assert budget * price == 60.0 + seconds;
    Distribute(count, 1.0, price);
    assert (count + 1.0) * price == Paid(price, decisions) + price;
    InSeconds(budget, count + 1.0, price, 60.0 + seconds, Paid(price, decisions) + price);
  }

  lemma InSeconds(x: real, y: real, price: real, xSeconds: real, ySeconds: real)
    requires price > 0.0 && x * price == xSeconds && y * price == ySeconds
    ensures x < y <==> xSeconds < ySeconds
  {
    Monotone(x, y, price);
  }

  lemma DeniedBreaksAWindow(rate: int, c: Scale, events: seq<Event>, ip: Ip, at: real) returns (k: nat)
    requires Fits(rate, c) && c.price * rate as real == 60.0
    requires Clocked(events, 0.0) && LastTime(events, 0.0) <= at
    requires Level(c, After(rate, map[], events), ip, at) < c.price
    ensures Exhausted(rate, events, k, ip, at)
  {
    k := LevelSinceFull(rate, c, events, ip, at);
    Broken(rate, c.price, From(rate, events, k, ip), at - events[k].at);
  }

  lemma NotExhausted(rate: int, price: real, events: seq<Event>, k: nat, ip: Ip, at: real)
    requires rate >= 1 && price > 0.0 && price * rate as real == 60.0 && k < |events|
    requires Paid(price, From(rate, events, k, ip)) + price <= 60.0 + (at - events[k].at)
    ensures !Exhausted(rate, events, k, ip, at)
  {
    Broken(rate, price, From(rate, events, k, ip), at - events[k].at);
  }

  lemma PaidWithRequest(rate: int, c: Scale, events: seq<Event>, k: nat, ip: Ip, at: real)
    requires Fits(rate, c) && k < |events| && Clocked(events, 0.0) && LastTime(events, 0.0) <= at
    requires Allow(rate, After(rate, map[], events), ip, at).1
    ensures Paid(c.price, From(rate, events, k, ip)) + c.price <= 60.0 + (at - events[k].at)
  {
    var e := Request(ip, at);
    FromLater(rate, c, events, e, k, ip);
    var window := events[k..] + [e];
    assert events + [e] == events[..k] + window;
    assert (events + [e])[..k] == events[..k] && (events + [e])[k..] == window;
    ClockedParts(events, [e], 0.0);
    var decisions := PaidInWindow(rate, c, events[..k], window, ip);
    assert window[0] == events[k] && window[|window| - 1] == e;
  }

  /**
   A request is allowed if and only if no window ending with it is exhausted: the limiter
   keeps the bound of every window, and denies only what would break one.
   */
  lemma AllowedIff(rate: int, events: seq<Event>, ip: Ip, at: real)
    requires rate >= 1 && Clocked(events, 0.0) && LastTime(events, 0.0) <= at
    ensures Allow(rate, After(rate, map[], events), ip, at).1 <==> forall k: nat :: !Exhausted(rate, events, k, ip, at)
  {
    var c := ScaleOf(rate);
    var m := After(rate, map[], events);
    AfterSound(rate, c, map[], events, 0.0);
    RequestByLevel(rate, c, m, ip, at);
    if Allow(rate, m, ip, at).1 {
      forall k: nat ensures !Exhausted(rate, events, k, ip, at) {
        if k < |events| {
          PaidWithRequest(rate, c, events, k, ip, at);
          NotExhausted(rate, c.price, events, k, ip, at);
        }
      }
    } else {
      var k := DeniedBreaksAWindow(rate, c, events, ip, at);
    }
  }
}
