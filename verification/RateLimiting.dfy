/**
 * Token buckets (shared/rate_limiting.py): one bucket over a trace, and the bounded in-process table.
 * Times are seconds, tokens are reals.
 */
module RateLimiting {
  import Sequences

  /** A constructor rejects non-positive settings. */
  datatype Config = Config(requestsPerMinute: int, burst: int, maxKeys: int) {
    predicate Valid() {
      requestsPerMinute > 0 && burst > 0 && maxKeys > 0
    }

    function Rate(): real {
      requestsPerMinute as real / 60.0
    }
  }

  datatype Bucket = Bucket(tokens: real, lastSeen: real)

  /** Granted, or refused with the delay after which to retry. */
  datatype Decision = Granted | Refused(retryAfter: real)

  function Min(a: real, b: real): real { if b < a then b else a }
  function Max(a: real, b: real): real { if b > a then b else a }

  function Refill(b: Bucket, now: real, c: Config): real {
    Min(c.burst as real, b.tokens + Max(0.0, now - b.lastSeen) * c.Rate())
  }

  function Draw(b: Bucket, now: real, c: Config): (Bucket, Decision)
    requires c.Valid()
  {
    var tokens := Refill(b, now, c);
    if tokens >= 1.0 then (Bucket(tokens - 1.0, now), Granted)
    else (Bucket(tokens, now), Refused((1.0 - tokens) / c.Rate()))
  }

  predicate Fits(b: Bucket, c: Config) {
    0.0 <= b.tokens <= c.burst as real
  }

  // ----- One bucket over a trace of request times -----

  predicate Monotone(start: real, times: seq<real>)
    decreases |times|
  {
    times == [] || (start <= times[0] && Monotone(times[0], times[1..]))
  }

  function Run(b: Bucket, times: seq<real>, c: Config): Bucket
    requires c.Valid()
    decreases |times|
  {
    if times == [] then b else Run(Draw(b, times[0], c).0, times[1..], c)
  }

  function GrantedCount(b: Bucket, times: seq<real>, c: Config): nat
    requires c.Valid()
    decreases |times|
  {
    if times == [] then 0
    else
      var (b', d) := Draw(b, times[0], c);
      (if d.Granted? then 1 else 0) + GrantedCount(b', times[1..], c)
  }

  lemma RateScales(a: real, b: real, c: Config)
    requires c.Valid() && a <= b
    ensures a * c.Rate() <= b * c.Rate()
    ensures c.Rate() > 0.0
  {
  }

  lemma RateAccrues(wait: real, c: Config)
    requires c.Valid() && wait >= 0.0
    ensures 0.0 <= wait * c.Rate()
  {
  }

  lemma DrawFits(b: Bucket, now: real, c: Config)
    requires c.Valid() && Fits(b, c)
    ensures var (b', d) := Draw(b, now, c);
            && Fits(b', c) && b'.lastSeen == now
            && b'.tokens + (if d.Granted? then 1.0 else 0.0) == Refill(b, now, c)
            && Refill(b, now, c) <= b.tokens + Max(0.0, now - b.lastSeen) * c.Rate()
            && Refill(b, now, c) <= c.burst as real
  {
    RateScales(0.0, Max(0.0, now - b.lastSeen), c);
  }

  lemma SplitInterval(from: real, mid: real, to: real, rate: real)
    ensures (mid - from) * rate + (to - mid) * rate == (to - from) * rate
  {
  }

  lemma {:induction false} MonotoneLast(start: real, times: seq<real>)
    requires times != [] && Monotone(start, times)
    ensures start <= times[|times| - 1]
    decreases |times|
  {
    if 1 < |times| {
      MonotoneLast(times[0], times[1..]);
    }
  }

  lemma CountFirst(b: Bucket, times: seq<real>, c: Config)
    requires c.Valid() && times != []
    ensures var (b', d) := Draw(b, times[0], c);
            GrantedCount(b, times, c) as real
            == (if d.Granted? then 1.0 else 0.0) + GrantedCount(b', times[1..], c) as real
  {
  }

  /** Every grant is paid for by the opening balance or by refill since then. */
  lemma {:induction false} GrantsPaid(b: Bucket, times: seq<real>, end: real, c: Config)
    requires c.Valid() && Fits(b, c)
    requires Monotone(b.lastSeen, times) && (if times == [] then b.lastSeen else times[|times| - 1]) <= end
    ensures GrantedCount(b, times, c) as real <= b.tokens + (end - b.lastSeen) * c.Rate()
    decreases |times|
  {
    hide Draw, Refill, Config.Rate, GrantedCount, Fits;
    if times == [] {
      NothingGranted(b, end, c);
    } else {
      var (b', d) := Draw(b, times[0], c);
      DrawFits(b, times[0], c);
      CountFirst(b, times, c);
      GrantsPaid(b', times[1..], end, c);
      PaidInTwoParts(if d.Granted? then 1.0 else 0.0, GrantedCount(b', times[1..], c) as real, b.tokens, b'.tokens,
                     b.lastSeen, times[0], end, c.Rate());
    }
  }

  lemma NothingGranted(b: Bucket, end: real, c: Config)
    requires c.Valid() && Fits(b, c) && b.lastSeen <= end
    ensures GrantedCount(b, [], c) as real <= b.tokens + (end - b.lastSeen) * c.Rate()
  {
    hide Config.Rate;
    RatePositive(c);
    OnlyAccrues(b.tokens, end - b.lastSeen, c.Rate());
  }

  lemma OnlyAccrues(tokens: real, wait: real, rate: real)
    requires tokens >= 0.0 && wait >= 0.0 && rate > 0.0
    ensures 0.0 <= tokens + wait * rate
  {
  }

  /** The grant at mid and those after it are paid for up to the end, when each part is. */
  lemma PaidInTwoParts(first: real, later: real, opening: real, left: real, from: real, mid: real, end: real, rate: real)
    requires from <= mid && left + first <= opening + Max(0.0, mid - from) * rate
    requires later <= left + (end - mid) * rate
    ensures first + later <= opening + (end - from) * rate
  {
    SplitInterval(from, mid, end, rate);
  }

  lemma {:induction false} GrantsFromRefill(b: Bucket, times: seq<real>, c: Config)
    requires c.Valid() && Fits(b, c) && times != [] && Monotone(b.lastSeen, times)
    ensures GrantedCount(b, times, c) as real
         <= Refill(b, times[0], c) + (times[|times| - 1] - times[0]) * c.Rate()
  {
    hide Draw, Refill, Config.Rate, GrantedCount;
    DrawFits(b, times[0], c);
    CountFirst(b, times, c);
    MonotoneLast(times[0], times);
    GrantsPaid(Draw(b, times[0], c).0, times[1..], times[|times| - 1], c);
  }

  /** At most burst + rate * T grants in any interval of length T, whatever the bucket held before. */
  lemma BurstBound(b: Bucket, times: seq<real>, start: real, length: real, c: Config)
    requires c.Valid() && Fits(b, c) && times != []
    requires Monotone(b.lastSeen, times)
    requires start <= times[0] && times[|times| - 1] <= start + length
    ensures GrantedCount(b, times, c) as real <= c.burst as real + length * c.Rate()
  {
    hide Draw, Refill, Config.Rate, GrantedCount, Monotone;
    GrantsFromRefill(b, times, c);
    DrawFits(b, times[0], c);
    RatePositive(c);
    BoundSum(GrantedCount(b, times, c) as real, Refill(b, times[0], c), c.burst as real,
             times[0], times[|times| - 1], start, length, c.Rate());
  }

  lemma BoundSum(granted: real, refilled: real, burst: real, first: real, last: real, start: real, length: real, rate: real)
    requires granted <= refilled + (last - first) * rate && refilled <= burst && rate > 0.0
    requires start <= first && last <= start + length
    ensures granted <= burst + length * rate
  {
    ScaleLeq(last - first, length, rate);
  }

  lemma RatePositive(c: Config)
    requires c.Valid()
    ensures c.Rate() > 0.0
  {
  }

  lemma ScaleLeq(a: real, b: real, rate: real)
    requires a <= b && rate > 0.0
    ensures a * rate <= b * rate
  {
  }

  /** Refilling in two steps is refilling once: asking too early costs nothing. */
  lemma RefillComposes(b: Bucket, mid: real, end: real, c: Config)
    requires c.Valid() && Fits(b, c) && b.lastSeen <= mid <= end
    ensures Refill(Bucket(Refill(b, mid, c), mid), end, c) == Refill(b, end, c)
  {
    RateScales(0.0, mid - b.lastSeen, c);
    RateScales(0.0, end - mid, c);
    assert (mid - b.lastSeen) * c.Rate() + (end - mid) * c.Rate() == (end - b.lastSeen) * c.Rate();
  }

  /** The retry delay is positive, sufficient and minimal, even if refused requests are repeated meanwhile. */
  lemma RetryDelayExact(b: Bucket, now: real, later: real, c: Config)
    requires c.Valid() && Fits(b, c) && b.lastSeen <= now <= later && Draw(b, now, c).1.Refused?
    ensures Draw(b, now, c).1.retryAfter > 0.0
    ensures Draw(Draw(b, now, c).0, later, c).1.Granted?
            <==> later >= now + Draw(b, now, c).1.retryAfter
    ensures Draw(Draw(b, now, c).0, later, c) == Draw(b, later, c)
  {
    RefillComposes(b, now, later, c);
    DrawFits(b, now, c);
    RatePositive(c);
    var tokens := Refill(b, now, c);
    DelayPositive(tokens, c.Rate());
    RefillReaches(tokens, later - now, c.Rate(), c.burst as real);
    hide Config.Rate;
  }

  lemma DelayPositive(tokens: real, rate: real)
    requires tokens < 1.0 && rate > 0.0
    ensures (1.0 - tokens) / rate > 0.0
  {
  }

  lemma RefillReaches(tokens: real, wait: real, rate: real, burst: real)
    requires tokens < 1.0 && rate > 0.0 && wait >= 0.0 && burst >= 1.0
    ensures Min(burst, tokens + Max(0.0, wait) * rate) >= 1.0 <==> wait >= (1.0 - tokens) / rate
  {
    var delay := (1.0 - tokens) / rate;
    assert delay * rate == 1.0 - tokens;
    if wait >= delay {
      ScaleLeq(delay, wait, rate);
    } else {
      StrictScale(wait, delay, rate);
    }
  }

  lemma StrictScale(a: real, b: real, rate: real)
    requires rate > 0.0 && a < b
    ensures a * rate < b * rate
  {
  }

  // ----- The bounded in-process table -----

  /** An insertion-ordered dictionary: keys from least to most recently consumed. */
  datatype Table = Table(order: seq<string>, buckets: map<string, Bucket>)

  function Remove(order: seq<string>, key: string): seq<string> {
    if order == [] then []
    else if order[0] == key then order[1..]
    else [order[0]] + Remove(order[1..], key)
  }

  function ConsumeKey(t: Table, key: string, now: real, c: Config): (Table, Decision)
    requires c.Valid()
  {
    var kept := Kept(t, key, c);
    var (bucket, decision) := Draw(if key in t.buckets then t.buckets[key] else Bucket(c.burst as real, now), now, c);
    (Table(kept.order + [key], kept.buckets[key := bucket]), decision)
  }

  /** The table without the key, or, when a new key finds it full, without its oldest entry. */
  function Kept(t: Table, key: string, c: Config): Table {
    if key in t.buckets then Table(Remove(t.order, key), t.buckets - {key})
    else if |t.buckets| >= c.maxKeys && t.order != [] then Table(t.order[1..], t.buckets - {t.order[0]})
    else t
  }

  ghost predicate Distinct(order: seq<string>) {
    forall i, j | 0 <= i < j < |order| :: order[i] != order[j]
  }

  ghost predicate TableInv(t: Table, c: Config) {
    && Distinct(t.order)
    && (forall k :: k in t.buckets <==> k in t.order)
    && |t.order| == |t.buckets| <= c.maxKeys
    && (forall k | k in t.buckets :: Fits(t.buckets[k], c))
  }

  class TokenBucketRateLimiter {
    const config: Config
    var table: Table

    constructor (config: Config)
      requires config.Valid()
      ensures this.config == config && table == Table([], map[]) && TableInv(table, config)
    {
      this.config, table := config, Table([], map[]);
    }

    method Consume(key: string, now: real) returns (decision: Decision)
      requires config.Valid() && TableInv(table, config)
      modifies this
      ensures (table, decision) == ConsumeKey(old(table), key, now, config)
      ensures TableInv(table, config)
    {
      hide TableInv, Config.Rate, Remove;
      ConsumeKeyKeeps(table, key, now, config);
      TableNonEmpty(table, config);
      RatePositive(config);
      var tokens, lastSeen;
      if key in table.buckets {
        tokens, lastSeen := table.buckets[key].tokens, table.buckets[key].lastSeen;
        table := Table(Remove(table.order, key), table.buckets - {key});
      } else {
        if |table.buckets| >= config.maxKeys {
          table := Table(table.order[1..], table.buckets - {table.order[0]});
        }
        tokens, lastSeen := config.burst as real, now;
      }
      ghost var bucket, kept := Bucket(tokens, lastSeen), table;
      tokens := Min(config.burst as real, tokens + Max(0.0, now - lastSeen) * config.Rate());
      assert tokens == Refill(bucket, now, config);
      hide Refill;
      assert ConsumeKey(old(table), key, now, config)
          == (Table(kept.order + [key], kept.buckets[key := Draw(bucket, now, config).0]),
              Draw(bucket, now, config).1);
      if tokens >= 1.0 {
        table := Table(table.order + [key], table.buckets[key := Bucket(tokens - 1.0, now)]);
        return Granted;
      }
      table := Table(table.order + [key], table.buckets[key := Bucket(tokens, now)]);
      return Refused((1.0 - tokens) / config.Rate());
    }
  }

  lemma TableNonEmpty(t: Table, c: Config)
    requires c.Valid() && TableInv(t, c)
    ensures |t.buckets| >= c.maxKeys ==> t.order != []
  {
  }

  lemma {:induction false} RemoveFacts(order: seq<string>, key: string)
    requires Distinct(order)
    ensures Distinct(Remove(order, key))
    ensures forall k :: k in Remove(order, key) <==> k in order && k != key
    ensures |Remove(order, key)| == if key in order then |order| - 1 else |order|
  {
    if order != [] {
      var rest := order[1..];
      RemoveFacts(rest, key);
      assert forall k :: k in order <==> k == order[0] || k in rest;
      assert order[0] !in rest;
    }
  }

  lemma {:induction false} DistinctSize(order: seq<string>, keys: set<string>)
    requires Distinct(order) && forall k :: k in keys <==> k in order
    ensures |keys| == |order|
  {
    if order == [] {
      assert keys == {};
    } else {
      assert forall k :: k in order <==> k == order[0] || k in order[1..];
      DistinctSize(order[1..], keys - {order[0]});
    }
  }

  /** The table never exceeds its limit, and its order and its buckets stay one dictionary. */
  lemma ConsumeKeyKeeps(t: Table, key: string, now: real, c: Config)
    requires c.Valid() && TableInv(t, c)
    ensures TableInv(ConsumeKey(t, key, now, c).0, c)
  {
    hide Draw, Refill, Config.Rate, Fits, Remove, Config.Valid, Kept, Distinct;
    var t' := ConsumeKey(t, key, now, c).0;
    KeptOrder(t, key, c);
    KeptFits(t, key, now, c);
    DistinctSnoc(Kept(t, key, c).order, key);
    DistinctSize(t'.order, t'.buckets.Keys);
  }

  lemma DistinctSnoc(order: seq<string>, key: string)
    requires Distinct(order) && key !in order
    ensures Distinct(order + [key]) && forall k :: k in order + [key] <==> k in order || k == key
  {
  }

  lemma KeptFits(t: Table, key: string, now: real, c: Config)
    requires c.Valid() && TableInv(t, c)
    ensures Fits(ConsumeKey(t, key, now, c).0.buckets[key], c)
  {
    DrawFits(if key in t.buckets then t.buckets[key] else Bucket(c.burst as real, now), now, c);
    hide Draw, Refill, Config.Rate, Fits, Remove;
  }

  lemma KeptOrder(t: Table, key: string, c: Config)
    requires c.Valid() && TableInv(t, c)
    ensures var kept := Kept(t, key, c);
            && Distinct(kept.order) && key !in kept.order && |kept.order| < c.maxKeys
            && (forall k :: k in kept.buckets <==> k in kept.order)
            && (forall k | k in kept.buckets :: k in t.buckets && kept.buckets[k] == t.buckets[k])
  {
    hide Fits, Remove, Distinct;
    RemoveFacts(t.order, key);
    if key !in t.buckets && |t.buckets| >= c.maxKeys {
      OldestGone(t.order);
    }
  }

  lemma OldestGone(order: seq<string>)
    requires Distinct(order) && order != []
    ensures Distinct(order[1..]) && order[0] !in order[1..]
    ensures forall k :: k in order <==> k == order[0] || k in order[1..]
  {
  }

  // ----- Traces over many keys -----

  datatype Request = Request(key: string, at: real)

  function RunTable(t: Table, requests: seq<Request>, c: Config): Table
    requires c.Valid()
    decreases |requests|
  {
    if requests == [] then t
    else
      var n := |requests| - 1;
      ConsumeKey(RunTable(t, requests[..n], c), requests[n].key, requests[n].at, c).0
  }

  /** The distinct keys of a trace from least to most recently consumed. */
  function Recency(requests: seq<Request>): seq<string>
    decreases |requests|
  {
    if requests == [] then []
    else
      var n := |requests| - 1;
      Remove(Recency(requests[..n]), requests[n].key) + [requests[n].key]
  }

  function Latest(order: seq<string>, limit: nat): seq<string> {
    if |order| <= limit then order else order[|order| - limit..]
  }

  lemma {:induction false} RecencyDistinct(requests: seq<Request>)
    ensures Distinct(Recency(requests))
    decreases |requests|
  {
    if requests != [] {
      var n := |requests| - 1;
      RecencyDistinct(requests[..n]);
      RemoveFacts(Recency(requests[..n]), requests[n].key);
    }
  }

  lemma {:induction false} RemoveConcat(a: seq<string>, b: seq<string>, key: string)
    requires key !in a
    ensures Remove(a + b, key) == a + Remove(b, key)
  {
    if a == [] {
      assert a + b == b && a + Remove(b, key) == Remove(b, key);
    } else {
      assert (a + b)[1..] == a[1..] + b;
      RemoveConcat(a[1..], b, key);
      assert a + Remove(b, key) == [a[0]] + (a[1..] + Remove(b, key));
    }
  }

  /** Touching a key in the recency order and cutting to the limit, in either order. */
  lemma LatestStep(order: seq<string>, key: string, limit: nat)
    requires Distinct(order) && limit >= 1
    ensures var kept := Latest(order, limit);
            Latest(Remove(order, key) + [key], limit)
            == (if key in kept then Remove(kept, key)
                else if |kept| >= limit then kept[1..] else kept) + [key]
  {
    hide Remove, Latest, Distinct;
    if |order| <= limit {
      LatestAll(order, key, limit);
    } else {
      var gone, kept := order[..|order| - limit], order[|order| - limit..];
      Sequences.SplitAt(order, |order| - limit);
      LatestOfConcat(gone, kept, limit);
      if key in kept {
        LatestAmongKept(gone, kept, key, limit);
      } else {
        LatestNewcomer(gone, kept, key, limit);
      }
    }
  }

  lemma LatestAll(order: seq<string>, key: string, limit: nat)
    requires Distinct(order) && limit >= 1 && |order| <= limit
    ensures Latest(order, limit) == order
    ensures Latest(Remove(order, key) + [key], limit)
            == (if key in order then Remove(order, key) else if |order| >= limit then order[1..] else order) + [key]
  {
    RemoveFacts(order, key);
    hide Remove, Distinct;
    if key !in order {
      RemoveAbsent(order, key);
      if |order| == limit {
        LatestOfConcat([order[0]], order[1..] + [key], limit);
        assert order + [key] == [order[0]] + (order[1..] + [key]);
      }
    }
  }

  lemma LatestAmongKept(gone: seq<string>, kept: seq<string>, key: string, limit: nat)
    requires Distinct(gone + kept) && |kept| == limit && key in kept
    ensures Latest(Remove(gone + kept, key) + [key], limit) == Remove(kept, key) + [key]
  {
    hide Remove;
    DistinctParts(gone, kept, key);
    RemoveFacts(kept, key);
    RemoveConcat(gone, kept, key);
    hide Latest, Distinct;
    Sequences.AppendAssociative(gone, Remove(kept, key), [key]);
    LatestOfConcat(gone, Remove(kept, key) + [key], limit);
  }

  lemma LatestNewcomer(gone: seq<string>, kept: seq<string>, key: string, limit: nat)
    requires Distinct(gone + kept) && |kept| == limit >= 1 && key !in kept
    ensures Latest(Remove(gone + kept, key) + [key], limit) == kept[1..] + [key]
  {
    hide Remove, Latest, Distinct;
    RemoveSplit(gone, kept, key);
    var rest := Remove(gone, key);
    assert (rest + kept) + [key] == (rest + [kept[0]]) + (kept[1..] + [key]);
    LatestOfConcat(rest + [kept[0]], kept[1..] + [key], limit);
  }

  lemma DistinctParts(a: seq<string>, b: seq<string>, key: string)
    requires Distinct(a + b) && key in b
    ensures key !in a && Distinct(b)
  {
    var j :| 0 <= j < |b| && b[j] == key;
    forall i | 0 <= i < |a| ensures a[i] != key {
      assert (a + b)[i] != (a + b)[|a| + j];
    }
    forall i, k | 0 <= i < k < |b| ensures b[i] != b[k] {
      assert (a + b)[|a| + i] != (a + b)[|a| + k];
    }
  }

  lemma LatestOfConcat(a: seq<string>, b: seq<string>, limit: nat)
    requires |b| == limit
    ensures Latest(a + b, limit) == b
  {
  }

  lemma {:induction false} RemoveAbsent(order: seq<string>, key: string)
    requires key !in order
    ensures Remove(order, key) == order
  {
    if order != [] {
      RemoveAbsent(order[1..], key);
    }
  }

  lemma {:induction false} RemoveSplit(a: seq<string>, b: seq<string>, key: string)
    requires key !in b
    ensures Remove(a + b, key) == Remove(a, key) + b
  {
    if a == [] {
      assert a + b == b;
      RemoveAbsent(b, key);
    } else {
      assert (a + b)[1..] == a[1..] + b;
      if a[0] != key {
        RemoveSplit(a[1..], b, key);
        assert [a[0]] + (Remove(a[1..], key) + b) == [a[0]] + Remove(a[1..], key) + b;
      }
    }
  }

  /** After any trace the table holds exactly the most recently consumed keys, in that order. */
  lemma {:induction false} TableKeepsMostRecent(requests: seq<Request>, c: Config)
    requires c.Valid()
    ensures var t := RunTable(Table([], map[]), requests, c);
            TableInv(t, c) && t.order == Latest(Recency(requests), c.maxKeys)
    decreases |requests|
  {
    if requests != [] {
      var n := |requests| - 1;
      TableKeepsMostRecent(requests[..n], c);
      RecencyDistinct(requests[..n]);
      var t := RunTable(Table([], map[]), requests[..n], c);
      ConsumeKeyKeeps(t, requests[n].key, requests[n].at, c);
      hide Draw, Fits, Remove, Latest;
      LatestStep(Recency(requests[..n]), requests[n].key, c.maxKeys);
    }
  }

  function TimesOf(requests: seq<Request>, key: string): seq<real> {
    if requests == [] then []
    else if requests[0].key == key then [requests[0].at] + TimesOf(requests[1..], key)
    else TimesOf(requests[1..], key)
  }

  function GrantsTo(t: Table, requests: seq<Request>, key: string, c: Config): nat
    requires c.Valid()
    decreases |requests|
  {
    if requests == [] then 0
    else
      var (t', d) := ConsumeKey(t, requests[0].key, requests[0].at, c);
      (if requests[0].key == key && d.Granted? then 1 else 0) + GrantsTo(t', requests[1..], key, c)
  }

  /** The key keeps its bucket throughout the trace. */
  ghost predicate NeverEvicted(t: Table, requests: seq<Request>, key: string, c: Config)
    requires c.Valid()
    decreases |requests|
  {
    && key in t.buckets
    && (requests != [] ==>
          NeverEvicted(ConsumeKey(t, requests[0].key, requests[0].at, c).0, requests[1..], key, c))
  }

  /** While a key is not evicted, the other keys do not influence its decisions. */
  lemma {:induction false} KeysIndependent(t: Table, requests: seq<Request>, key: string, c: Config)
    requires c.Valid() && TableInv(t, c) && NeverEvicted(t, requests, key, c)
    ensures GrantsTo(t, requests, key, c) == GrantedCount(t.buckets[key], TimesOf(requests, key), c)
    decreases |requests|
  {
    hide Draw, TableInv;
    if requests != [] {
      var r := requests[0];
      var t' := ConsumeKey(t, r.key, r.at, c).0;
      ConsumeKeyKeeps(t, r.key, r.at, c);
      KeysIndependent(t', requests[1..], key, c);
      BucketAfter(t, r.key, r.at, key, c);
      if r.key == key {
        assert TimesOf(requests, key)[1..] == TimesOf(requests[1..], key);
      }
    }
  }

  lemma BucketAfter(t: Table, key: string, now: real, other: string, c: Config)
    requires c.Valid() && TableInv(t, c) && other in t.buckets
    requires other in ConsumeKey(t, key, now, c).0.buckets
    ensures ConsumeKey(t, key, now, c).0.buckets[other]
         == if key == other then Draw(t.buckets[other], now, c).0 else t.buckets[other]
  {
    hide Draw, Fits, Remove;
  }

  // ----- Which keys keep their bucket, as a caller can see it -----

  predicate Asked(requests: seq<Request>, key: string) {
    exists r | r in requests :: r.key == key
  }

  /** The other keys asked for after the last request of the key. */
  function AskedSince(requests: seq<Request>, key: string): set<string>
    decreases |requests|
  {
    if requests == [] || requests[|requests| - 1].key == key then {}
    else AskedSince(requests[..|requests| - 1], key) + {requests[|requests| - 1].key}
  }

  /** Since its last request, fewer distinct other keys were asked for than the table holds. */
  predicate Recent(requests: seq<Request>, key: string, c: Config) {
    Asked(requests, key) && |AskedSince(requests, key)| < c.maxKeys
  }

  function LastAsked(requests: seq<Request>, key: string): real
    requires Asked(requests, key)
    decreases |requests|
  {
    var n := |requests| - 1;
    assert requests == requests[..n] + [requests[n]];
    if requests[n].key == key then requests[n].at else LastAsked(requests[..n], key)
  }

  function Behind(order: seq<string>, key: string): seq<string> {
    if order == [] then []
    else if order[0] == key then order[1..]
    else Behind(order[1..], key)
  }

  lemma {:induction false} BehindMembers(order: seq<string>, key: string)
    ensures |Behind(order, key)| <= |order| && Behind(order, key) == order[|order| - |Behind(order, key)|..]
    ensures key in order ==> |Behind(order, key)| < |order| && order[|order| - |Behind(order, key)| - 1] == key
  {
    if order != [] && order[0] != key {
      BehindMembers(order[1..], key);
    }
  }

  lemma {:induction false} BehindSnoc(order: seq<string>, x: string, key: string)
    requires key in order
    ensures Behind(order + [x], key) == Behind(order, key) + [x]
  {
    assert (order + [x])[1..] == order[1..] + [x];
    if order[0] != key {
      BehindSnoc(order[1..], x, key);
    }
  }

  lemma {:induction false} BehindRemove(order: seq<string>, x: string, key: string)
    requires Distinct(order) && x != key
    ensures Behind(Remove(order, x), key) == Remove(Behind(order, key), x)
  {
    if order == [] {
    } else if order[0] == x {
      BehindMembers(order[1..], key);
      RemoveAbsent(Behind(order[1..], key), x);
    } else {
      BehindRemove(order[1..], x, key);
      assert Remove(order, x)[1..] == Remove(order[1..], x);
    }
  }

  lemma RemoveMembers(order: seq<string>, x: string)
    requires Distinct(order)
    ensures forall k :: k in Remove(order, x) + [x] <==> k in order || k == x
  {
    RemoveFacts(order, x);
  }

  /** What stands behind a key in the order of recency is what was asked for since. */
  lemma {:induction false} BehindIsSince(requests: seq<Request>, key: string)
    requires Asked(requests, key)
    ensures key in Recency(requests)
    ensures forall k :: k in Behind(Recency(requests), key) <==> k in AskedSince(requests, key)
    decreases |requests|
  {
    hide Remove, Behind;
    var n := |requests| - 1;
    var init, x := requests[..n], requests[n].key;
    assert requests == init + [requests[n]];
    RecencyDistinct(init);
    RecencyDistinct(requests);
    RemoveMembers(Recency(init), x);
    if x == key {
      RemoveFacts(Recency(init), x);
      BehindLast(Remove(Recency(init), x), key);
    } else {
      BehindIsSince(init, key);
      BehindSnoc(Remove(Recency(init), x), x, key);
      BehindRemove(Recency(init), x, key);
      BehindDistinct(Recency(init), key);
      RemoveMembers(Behind(Recency(init), key), x);
    }
  }

  lemma {:induction false} BehindLast(order: seq<string>, key: string)
    requires key !in order
    ensures Behind(order + [key], key) == []
  {
    if order != [] {
      BehindLast(order[1..], key);
      assert (order + [key])[1..] == order[1..] + [key];
    }
  }

  lemma BehindDistinct(order: seq<string>, key: string)
    requires Distinct(order)
    ensures Distinct(Behind(order, key))
  {
    BehindMembers(order, key);
  }

  /** A key has a bucket exactly while it is recent. */
  lemma KeptWhileRecent(requests: seq<Request>, key: string, c: Config)
    requires c.Valid()
    ensures key in RunTable(Table([], map[]), requests, c).buckets <==> Recent(requests, key, c)
  {
    hide RunTable, Behind, Recency, AskedSince;
    TableKeepsMostRecent(requests, c);
    RecencyDistinct(requests);
    var order := Recency(requests);
    if Asked(requests, key) {
      BehindIsSince(requests, key);
      BehindMembers(order, key);
      BehindDistinct(order, key);
      DistinctSize(Behind(order, key), AskedSince(requests, key));
      InLatest(order, key, |order| - |Behind(order, key)| - 1, c.maxKeys);
    } else {
      NeverAsked(requests, key);
    }
  }

  lemma InLatest(order: seq<string>, key: string, p: nat, limit: nat)
    requires Distinct(order) && p < |order| && order[p] == key
    ensures key in Latest(order, limit) <==> |order| - 1 - p < limit
  {
    if |order| > limit {
      var tail := order[|order| - limit..];
      if |order| - 1 - p < limit {
        assert tail[p - (|order| - limit)] == key;
      }
      if key in tail {
        var j :| 0 <= j < |tail| && tail[j] == key;
        assert order[|order| - limit + j] == order[p];
      }
    }
  }

  lemma {:induction false} NeverAsked(requests: seq<Request>, key: string)
    requires !Asked(requests, key)
    ensures key !in Recency(requests)
    decreases |requests|
  {
    if requests != [] {
      var n := |requests| - 1;
      assert requests == requests[..n] + [requests[n]];
      NeverAsked(requests[..n], key);
      RecencyDistinct(requests[..n]);
      RemoveMembers(Recency(requests[..n]), requests[n].key);
    }
  }

  lemma RunSnoc(requests: seq<Request>, r: Request, c: Config)
    requires c.Valid()
    ensures RunTable(Table([], map[]), requests + [r], c)
            == ConsumeKey(RunTable(Table([], map[]), requests, c), r.key, r.at, c).0
  {
    assert (requests + [r])[..|requests|] == requests;
  }

  /** A key is never evicted exactly while it is recent all along. */
  lemma {:induction false} NeverEvictedVisible(before: seq<Request>, window: seq<Request>, key: string, c: Config)
    requires c.Valid()
    ensures NeverEvicted(RunTable(Table([], map[]), before, c), window, key, c)
            <==> forall i | 0 <= i <= |window| :: Recent(before + window[..i], key, c)
    decreases |window|
  {
    hide RunTable, ConsumeKey, Recent;
    KeptWhileRecent(before, key, c);
    assert before + window[..0] == before;
    if window != [] {
      var r := window[0];
      RunSnoc(before, r, c);
      NeverEvictedVisible(before + [r], window[1..], key, c);
      forall i | 0 <= i < |window| ensures (before + [r]) + window[1..][..i] == before + window[..i + 1] {
      }
      if forall i | 0 <= i <= |window| :: Recent(before + window[..i], key, c) {
        forall i | 0 <= i <= |window[1..]| ensures Recent((before + [r]) + window[1..][..i], key, c) {
          assert Recent(before + window[..i + 1], key, c);
        }
      }
      if forall i | 0 <= i <= |window[1..]| :: Recent((before + [r]) + window[1..][..i], key, c) {
        forall i | 0 <= i <= |window| ensures i > 0 ==> Recent(before + window[..i], key, c) {
          assert i > 0 ==> Recent((before + [r]) + window[1..][..i - 1], key, c);
        }
      }
    }
  }

  /** The bucket of a recent key was last seen at the last request of the key. */
  lemma {:induction false} LastSeenIsLastAsked(requests: seq<Request>, key: string, c: Config)
    requires c.Valid() && Recent(requests, key, c)
    ensures key in RunTable(Table([], map[]), requests, c).buckets
    ensures RunTable(Table([], map[]), requests, c).buckets[key].lastSeen == LastAsked(requests, key)
    decreases |requests|
  {
    KeptWhileRecent(requests, key, c);
    var n := |requests| - 1;
    var init, r := requests[..n], requests[n];
    assert requests == init + [r];
    RunSnoc(init, r, c);
    hide RunTable, Remove, Refill;
    if r.key != key {
      FewerSince(requests, key, c);
      LastSeenIsLastAsked(init, key, c);
    }
  }

  lemma FewerSince(requests: seq<Request>, key: string, c: Config)
    requires requests != [] && requests[|requests| - 1].key != key && Recent(requests, key, c)
    ensures Recent(requests[..|requests| - 1], key, c)
  {
    var n := |requests| - 1;
    var init := requests[..n];
    assert requests == init + [requests[n]];
    Smaller(AskedSince(init, key), AskedSince(requests, key));
  }

  lemma Smaller(a: set<string>, b: set<string>)
    requires a <= b
    ensures |a| <= |b|
  {
    assert b == a + (b - a);
  }

  /** Over a trace of any keys: a key that keeps its bucket gets at most burst + rate * T grants in time T. */
  lemma TraceBound(t: Table, requests: seq<Request>, key: string, start: real, length: real, c: Config)
    requires c.Valid() && TableInv(t, c) && key in t.buckets && NeverEvicted(t, requests, key, c)
    requires var times := TimesOf(requests, key);
             times != [] && Monotone(t.buckets[key].lastSeen, times)
             && start <= times[0] && times[|times| - 1] <= start + length
    ensures GrantsTo(t, requests, key, c) as real <= c.burst as real + length * c.Rate()
  {
    hide GrantsTo, NeverEvicted, Config.Rate, GrantedCount, TimesOf, Monotone;
    assert Fits(t.buckets[key], c);
    hide TableInv, Fits;
    KeysIndependent(t, requests, key, c);
    BurstBound(t.buckets[key], TimesOf(requests, key), start, length, c);
  }

  /** The same bound in terms of the requests alone: what came before, and the window that is counted. */
  lemma VisibleTraceBound(before: seq<Request>, window: seq<Request>, key: string, start: real, length: real, c: Config)
    requires c.Valid() && forall i | 0 <= i <= |window| :: Recent(before + window[..i], key, c)
    requires Asked(before, key) && TimesOf(window, key) != [] && Monotone(LastAsked(before, key), TimesOf(window, key))
    requires start <= TimesOf(window, key)[0] && TimesOf(window, key)[|TimesOf(window, key)| - 1] <= start + length
    ensures GrantsTo(RunTable(Table([], map[]), before, c), window, key, c) as real <= c.burst as real + length * c.Rate()
  {
    hide RunTable, NeverEvicted, GrantsTo, Recent, LastAsked, Config.Rate, TimesOf, Monotone;
    NeverEvictedVisible(before, window, key, c);
    assert before + window[..0] == before;
    LastSeenIsLastAsked(before, key, c);
    TableKeepsMostRecent(before, c);
    TraceBound(RunTable(Table([], map[]), before, c), window, key, start, length, c);
  }

  /** A key without a bucket meets the same bound from its first request on. */
  lemma FreshKeyBound(t: Table, requests: seq<Request>, key: string, start: real, length: real, c: Config)
    requires c.Valid() && TableInv(t, c) && key !in t.buckets && requests != [] && requests[0].key == key
    requires NeverEvicted(ConsumeKey(t, key, requests[0].at, c).0, requests[1..], key, c)
    requires var times := TimesOf(requests, key);
             times != [] && Monotone(times[0], times[1..])
             && start <= times[0] && times[|times| - 1] <= start + length
    ensures GrantsTo(t, requests, key, c) as real <= c.burst as real + length * c.Rate()
  {
    var full, t' := Bucket(c.burst as real, requests[0].at), ConsumeKey(t, key, requests[0].at, c).0;
    FreshBucket(t, key, requests[0].at, c);
    ConsumeKeyKeeps(t, key, requests[0].at, c);
    hide Draw, TableInv, Fits, Config.Rate, NeverEvicted;
    var times, rest := TimesOf(requests, key), TimesOf(requests[1..], key);
    assert times[0] == requests[0].at && times[1..] == rest;
    KeysIndependent(t', requests[1..], key, c);
    BurstBound(full, times, start, length, c);
  }

  lemma FreshBucket(t: Table, key: string, now: real, c: Config)
    requires c.Valid() && key !in t.buckets
    ensures var full, (t', d) := Bucket(c.burst as real, now), ConsumeKey(t, key, now, c);
            Fits(full, c) && key in t'.buckets && (t'.buckets[key], d) == Draw(full, now, c)
  {
  }

  lemma NewcomerGranted(t: Table, key: string, c: Config)
    requires c.Valid() && c.burst == 1 && c.maxKeys == 1 && key !in t.buckets
    requires t == Table([], map[]) || (|t.order| == 1 && t.buckets == map[t.order[0] := Bucket(0.0, 0.0)])
    ensures ConsumeKey(t, key, 0.0, c) == (Table([key], map[key := Bucket(0.0, 0.0)]), Granted)
  {
    hide Config.Rate;
    RatePositive(c);
    assert Max(0.0, 0.0 - 0.0) * c.Rate() == 0.0;
    var kept := Kept(t, key, c);
    assert kept.order == [] && kept.buckets == map[];
    assert kept.order + [key] == [key] && kept.buckets[key := Bucket(0.0, 0.0)] == map[key := Bucket(0.0, 0.0)];
    assert Draw(Bucket(1.0, 0.0), 0.0, c) == (Bucket(0.0, 0.0), Granted);
  }

  /** Without that condition the bound fails: a limiter for one key resets a client that alternates. */
  lemma EvictionResets()
    ensures var c := Config(60, 1, 1);
            var requests := [Request("a", 0.0), Request("b", 0.0), Request("a", 0.0)];
            c.Valid() && GrantsTo(Table([], map[]), requests, "a", c) == 2
  {
    var c := Config(60, 1, 1);
    var requests := [Request("a", 0.0), Request("b", 0.0), Request("a", 0.0)];
    var t0 := Table([], map[]);
    var (t1, d1) := ConsumeKey(t0, "a", 0.0, c);
    var (t2, d2) := ConsumeKey(t1, "b", 0.0, c);
    var (t3, d3) := ConsumeKey(t2, "a", 0.0, c);
    NewcomerGranted(t0, "a", c);
    NewcomerGranted(t1, "b", c);
    NewcomerGranted(t2, "a", c);
    hide ConsumeKey;
    assert GrantsTo(t2, requests[2..], "a", c) == 1;
    assert GrantsTo(t1, requests[1..], "a", c) == 1;
  }
}
