/**
 The rate limiter as the server runs it: a map from IP to a bucket object that requests
 update in place, and a clean-up that deletes entries while walking the map. Each
 method is proved to be the step of the value model.
 */
module RateLimiterObjects {
  import Model = RateLimitModel

  class Bucket {
    var tokens: real
    var lastLeak: real

    constructor (tokens: real, lastLeak: real)
      ensures this.tokens == tokens && this.lastLeak == lastLeak
    {
      this.tokens, this.lastLeak := tokens, lastLeak;
    }

    ghost function Value(): Model.Bucket
      reads this
    {
      Model.Bucket(tokens, lastLeak)
    }
  }

  class RateLimiter {
    var buckets: map<string, Bucket>
    const rate: int
    const burst: int
    const interval: real

    /** No two IPs share a bucket object. */
    ghost predicate Valid()
      reads this
    {
      && burst == rate
      && interval == Model.INTERVAL
      && forall a, b | a in buckets && b in buckets && a != b :: buckets[a] != buckets[b]
    }

    ghost function Contents(): Model.Buckets
      reads this, buckets.Values
    {
      map ip | ip in buckets :: buckets[ip].Value()
    }

    constructor (ratePerMinute: int)
      ensures Valid() && rate == ratePerMinute && Contents() == map[] && buckets == map[]
    {
      buckets := map[];
      rate, burst, interval := ratePerMinute, ratePerMinute, Model.INTERVAL;
    }

    method Allow(ip: string, now: real) returns (allowed: bool)
      requires Valid()
      modifies this`buckets, buckets.Values
      ensures Valid()
      ensures fresh(buckets.Values - old(buckets.Values))
      ensures (Contents(), allowed) == Model.Allow(rate, old(Contents()), ip, now)
    {
      ghost var before := Contents();
      if ip !in buckets {
        var b := new Bucket((burst - 1) as real, now);
        assert b !in buckets.Values;
        buckets := buckets[ip := b];
        assert buckets.Values <= old(buckets.Values) + {b};
        assert Contents() == before[ip := b.Value()];
        return true;
      }
      var b := buckets[ip];
      var elapsed := now - b.lastLeak;
      b.lastLeak := now;
      var leakRate := rate as real / 60.0;
      assert elapsed * leakRate == Model.Granted(rate, elapsed);
      b.tokens := b.tokens + elapsed * leakRate;
      if b.tokens > burst as real {
        b.tokens := burst as real;
      }
      allowed := b.tokens >= 1.0;
      if allowed {
        b.tokens := b.tokens - 1.0;
      }
      assert Contents() == before[ip := b.Value()];
    }

    method Cleanup(now: real)
      requires Valid()
      modifies this`buckets
      ensures Valid()
      ensures buckets.Values <= old(buckets.Values)
      ensures Contents() == Model.Evict(old(Contents()), now)
    {
      var cutoff := now - interval;
      var todo := buckets.Keys;
      while todo != {}
        invariant todo <= buckets.Keys <= old(buckets.Keys)
        invariant forall ip | ip in buckets :: buckets[ip] == old(buckets)[ip]
        invariant forall ip | ip in old(buckets) && ip !in todo ::
                    ip in buckets <==> !(old(buckets)[ip].lastLeak < cutoff)
        decreases todo
      {
        var ip :| ip in todo;
        todo := todo - {ip};
        if buckets[ip].lastLeak < cutoff {
          buckets := buckets - {ip};
        }
      }
    }
  }
}
