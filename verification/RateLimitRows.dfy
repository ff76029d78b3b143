/**
 * Token buckets in database rows shared by every replica (shared/rate_limiting.py): adoption of legacy
 * rows, the maintenance that deletes refilled rows, and the request quota of an organization
 * (shared/organization_saas.py).
 */
module RateLimitRows {
  import opened RateLimiting
  import opened Results

  datatype RowKey = RowKey(scope: string, keyHash: string)

  type Rows = map<RowKey, Bucket>

  const LEGACY := "legacy"

  /** One request in one transaction; a legacy row is adopted with its balance. */
  function DrawRow(rows: Rows, scope: string, keyHash: string, now: real, c: Config): (Rows, Decision)
    requires c.Valid()
  {
    var k, legacy := RowKey(scope, keyHash), RowKey(LEGACY, keyHash);
    if k in rows then
      var (b, d) := Draw(rows[k], now, c);
      (rows[k := b], d)
    else if legacy in rows then
      var (b, d) := Draw(rows[legacy], now, c);
      ((rows - {legacy})[k := b], d)
    else (rows[k := Bucket(c.burst as real - 1.0, now)], Granted)
  }

  function Horizon(c: Config): real
    requires c.Valid()
  {
    Max(300.0, c.burst as real / c.Rate())
  }

  predicate Expired(b: Bucket, now: real, c: Config)
    requires c.Valid()
  {
    b.lastSeen <= now - Horizon(c)
  }

  /** A bucket that expired has refilled completely. */
  lemma ExpiredIsFull(b: Bucket, now: real, later: real, c: Config)
    requires c.Valid() && Fits(b, c) && Expired(b, now, c) && now <= later
    ensures Refill(b, later, c) == c.burst as real
  {
    RatePositive(c);
    var wait, rate, burst := later - b.lastSeen, c.Rate(), c.burst as real;
    assert wait >= burst / rate;
    RefillFull(burst, wait, rate);
    hide Config.Rate;
  }

  lemma RefillFull(burst: real, wait: real, rate: real)
    requires rate > 0.0 && burst > 0.0 && wait >= burst / rate
    ensures wait * rate >= burst && wait > 0.0
  {
    assert (burst / rate) * rate == burst;
    ScaleLeq(burst / rate, wait, rate);
  }

  /**
   * Deleting an expired row leaves the next decision unchanged at every later time if and only if
   * no legacy row waits under the same key, or that legacy row already holds a token.
   */
  lemma NextDecisionUnchanged(rows: Rows, scope: string, keyHash: string, now: real, c: Config)
    requires c.Valid() && scope != LEGACY
    requires RowKey(scope, keyHash) in rows && Fits(rows[RowKey(scope, keyHash)], c)
    requires Expired(rows[RowKey(scope, keyHash)], now, c)
    ensures (forall later | later >= now ::
               DrawRow(rows - {RowKey(scope, keyHash)}, scope, keyHash, later, c).1
               == DrawRow(rows, scope, keyHash, later, c).1)
            <==> (RowKey(LEGACY, keyHash) in rows ==> Refill(rows[RowKey(LEGACY, keyHash)], now, c) >= 1.0)
  {
    var k, legacy := RowKey(scope, keyHash), RowKey(LEGACY, keyHash);
    hide Refill, Config.Rate, Horizon;
    forall later | later >= now
      ensures DrawRow(rows, scope, keyHash, later, c).1 == Granted
      ensures legacy in rows ==>
                (DrawRow(rows - {k}, scope, keyHash, later, c).1 == Granted
                 <==> Refill(rows[legacy], later, c) >= 1.0)
                && Refill(rows[legacy], now, c) <= Refill(rows[legacy], later, c)
      ensures legacy !in rows ==> DrawRow(rows - {k}, scope, keyHash, later, c).1 == Granted
    {
      ExpiredIsFull(rows[k], now, later, c);
      if legacy in rows {
        RefillMonotone(rows[legacy], now, later, c);
      }
    }
    if legacy in rows && Refill(rows[legacy], now, c) < 1.0 {
      assert DrawRow(rows - {k}, scope, keyHash, now, c).1 != Granted;
    }
  }

  lemma RefillMonotone(b: Bucket, now: real, later: real, c: Config)
    requires c.Valid() && now <= later
    ensures Refill(b, now, c) <= Refill(b, later, c)
  {
    RatePositive(c);
    ScaleLeq(Max(0.0, now - b.lastSeen), Max(0.0, later - b.lastSeen), c.Rate());
    hide Config.Rate;
  }

  // ----- What the rows promise each key -----

  /** The tokens a request for the key would find. */
  function Balance(rows: Rows, scope: string, keyHash: string, at: real, c: Config): real {
    var k, legacy := RowKey(scope, keyHash), RowKey(LEGACY, keyHash);
    if k in rows then Refill(rows[k], at, c)
    else if legacy in rows then Refill(rows[legacy], at, c)
    else c.burst as real
  }

  ghost predicate RowsFit(rows: Rows, c: Config) {
    forall k | k in rows :: Fits(rows[k], c)
  }

  /** A request depends on the balance alone, and leaves the other keys as they were. */
  lemma DrawsBalance(rows: Rows, scope: string, keyHash: string, at: real, c: Config)
    requires c.Valid() && scope != LEGACY
    ensures var balance := Balance(rows, scope, keyHash, at, c);
            var (rows', d) := DrawRow(rows, scope, keyHash, at, c);
            && d == (if balance >= 1.0 then Granted else Refused((1.0 - balance) / c.Rate()))
            && RowKey(scope, keyHash) in rows'
            && rows'[RowKey(scope, keyHash)] == Bucket(if balance >= 1.0 then balance - 1.0 else balance, at)
    ensures var rows' := DrawRow(rows, scope, keyHash, at, c).0;
            forall k: RowKey | k.keyHash != keyHash :: (k in rows' <==> k in rows) && (k in rows' ==> rows'[k] == rows[k])
  {
    hide Refill;
  }

  /** Both tables promise every key the same from now on. */
  ghost predicate SamePromise(rows: Rows, rows': Rows, scope: string, now: real, c: Config) {
    forall keyHash, at: real | at >= now :: Balance(rows, scope, keyHash, at, c) == Balance(rows', scope, keyHash, at, c)
  }

  datatype RowRequest = RowRequest(keyHash: string, at: real)

  function Decisions(rows: Rows, scope: string, requests: seq<RowRequest>, c: Config): seq<Decision>
    requires c.Valid()
    decreases |requests|
  {
    if requests == [] then []
    else
      var (rows', d) := DrawRow(rows, scope, requests[0].keyHash, requests[0].at, c);
      [d] + Decisions(rows', scope, requests[1..], c)
  }

  lemma PromiseStep(rows: Rows, rows': Rows, scope: string, r: RowRequest, now: real, c: Config)
    requires c.Valid() && scope != LEGACY && SamePromise(rows, rows', scope, now, c) && r.at >= now
    ensures DrawRow(rows, scope, r.keyHash, r.at, c).1 == DrawRow(rows', scope, r.keyHash, r.at, c).1
    ensures SamePromise(DrawRow(rows, scope, r.keyHash, r.at, c).0, DrawRow(rows', scope, r.keyHash, r.at, c).0, scope, now, c)
  {
    hide Refill, DrawRow, Config.Rate;
    DrawsBalance(rows, scope, r.keyHash, r.at, c);
    DrawsBalance(rows', scope, r.keyHash, r.at, c);
    var after, after' := DrawRow(rows, scope, r.keyHash, r.at, c).0, DrawRow(rows', scope, r.keyHash, r.at, c).0;
    forall keyHash, at: real | at >= now
      ensures Balance(after, scope, keyHash, at, c) == Balance(after', scope, keyHash, at, c)
    {
      assert Balance(rows, scope, keyHash, at, c) == Balance(rows', scope, keyHash, at, c);
    }
  }

  lemma {:induction false} SameDecisions(rows: Rows, rows': Rows, scope: string, requests: seq<RowRequest>, now: real, c: Config)
    requires c.Valid() && scope != LEGACY && SamePromise(rows, rows', scope, now, c)
    requires forall r | r in requests :: r.at >= now
    ensures Decisions(rows, scope, requests, c) == Decisions(rows', scope, requests, c)
    decreases |requests|
  {
    hide SamePromise, DrawRow;
    if requests != [] {
      var r := requests[0];
      PromiseStep(rows, rows', scope, r, now, c);
      SameDecisions(DrawRow(rows, scope, r.keyHash, r.at, c).0, DrawRow(rows', scope, r.keyHash, r.at, c).0,
                    scope, requests[1..], now, c);
    }
  }

  // ----- Collection -----

  /** The legacy row behind a deleted key, if there is one, is full. */
  predicate LegacyFull(rows: Rows, keyHash: string, now: real, c: Config) {
    RowKey(LEGACY, keyHash) in rows ==> Refill(rows[RowKey(LEGACY, keyHash)], now, c) == c.burst as real
  }

  lemma FullStaysFull(b: Bucket, now: real, later: real, c: Config)
    requires c.Valid() && now <= later && Refill(b, now, c) == c.burst as real
    ensures Refill(b, later, c) == c.burst as real
  {
    RefillMonotone(b, now, later, c);
  }

  /** What an expired row promises before it is deleted, and what is promised afterwards. */
  lemma DeletedBalance(rows: Rows, scope: string, deleted: set<RowKey>, now: real, locked: set<RowKey>, keyHash: string,
                       at: real, c: Config)
    requires c.Valid() && scope != LEGACY && RowsFit(rows, c) && deleted <= Candidates(rows, scope, now, locked, c) && at >= now
    ensures var k, legacy := RowKey(scope, keyHash), RowKey(LEGACY, keyHash);
            && (k !in deleted ==> Balance(rows - deleted, scope, keyHash, at, c) == Balance(rows, scope, keyHash, at, c))
            && (k in deleted ==>
                  && Balance(rows, scope, keyHash, at, c) == c.burst as real
                  && Balance(rows - deleted, scope, keyHash, at, c)
                     == if legacy in rows then Refill(rows[legacy], at, c) else c.burst as real)
  {
    hide Refill, Horizon, Config.Rate;
    var k := RowKey(scope, keyHash);
    if k in deleted {
      assert k in Candidates(rows, scope, now, locked, c);
      ExpiredIsFull(rows[k], now, at, c);
    }
    assert RowKey(LEGACY, keyHash) !in Candidates(rows, scope, now, locked, c);
  }

  /** A collection behind which every legacy row is full changes no later decision. */
  lemma CollectionChangesNothing(rows: Rows, scope: string, deleted: set<RowKey>, now: real, locked: set<RowKey>,
                                 requests: seq<RowRequest>, c: Config)
    requires c.Valid() && scope != LEGACY && RowsFit(rows, c) && deleted <= Candidates(rows, scope, now, locked, c)
    requires forall k | k in deleted :: LegacyFull(rows, k.keyHash, now, c)
    requires forall r | r in requests :: r.at >= now
    ensures Decisions(rows - deleted, scope, requests, c) == Decisions(rows, scope, requests, c)
  {
    hide Refill, Balance, Candidates, RowsFit;
    forall keyHash, at: real | at >= now
      ensures Balance(rows - deleted, scope, keyHash, at, c) == Balance(rows, scope, keyHash, at, c)
    {
      var k, legacy := RowKey(scope, keyHash), RowKey(LEGACY, keyHash);
      DeletedBalance(rows, scope, deleted, now, locked, keyHash, at, c);
      if k in deleted && legacy in rows {
        assert LegacyFull(rows, k.keyHash, now, c);
        FullStaysFull(rows[legacy], now, at, c);
      }
    }
    SameDecisions(rows - deleted, rows, scope, requests, now, c);
  }

  /** n requests for one key at one moment. */
  function Repeated(keyHash: string, at: real, n: nat): seq<RowRequest> {
    if n == 0 then [] else [RowRequest(keyHash, at)] + Repeated(keyHash, at, n - 1)
  }

  predicate AllGranted(decisions: seq<Decision>) {
    forall d | d in decisions :: d.Granted?
  }

  lemma BalanceAtMostBurst(rows: Rows, scope: string, keyHash: string, at: real, c: Config)
    requires c.Valid()
    ensures Balance(rows, scope, keyHash, at, c) <= c.burst as real
  {
  }

  /** Simultaneous requests are all granted exactly while the balance covers them. */
  lemma {:induction false} RepeatedGranted(rows: Rows, scope: string, keyHash: string, at: real, n: nat, c: Config)
    requires c.Valid() && scope != LEGACY
    ensures AllGranted(Decisions(rows, scope, Repeated(keyHash, at, n), c))
            <==> n == 0 || Balance(rows, scope, keyHash, at, c) >= n as real
    decreases n
  {
    hide DrawRow, Refill, Config.Rate;
    if n > 0 {
      DrawsBalance(rows, scope, keyHash, at, c);
      BalanceAtMostBurst(rows, scope, keyHash, at, c);
      var (rows', d) := DrawRow(rows, scope, keyHash, at, c);
      RefillNow(rows'[RowKey(scope, keyHash)], c);
      RepeatedGranted(rows', scope, keyHash, at, n - 1, c);
      var rest := Decisions(rows', scope, Repeated(keyHash, at, n - 1), c);
      assert Repeated(keyHash, at, n)[1..] == Repeated(keyHash, at, n - 1);
      FirstGranted(d, rest);
    }
  }

  lemma FirstGranted(d: Decision, rest: seq<Decision>)
    ensures AllGranted([d] + rest) <==> d.Granted? && AllGranted(rest)
  {
    assert forall x :: x in [d] + rest <==> x == d || x in rest;
  }

  lemma RefillNow(b: Bucket, c: Config)
    requires c.Valid()
    ensures b.tokens <= c.burst as real ==> Refill(b, b.lastSeen, c) == b.tokens
  {
  }

  lemma RepeatedAt(keyHash: string, at: real, n: nat)
    ensures forall r | r in Repeated(keyHash, at, n) :: r.at == at
  {
  }

  /**
   * Deleting the rows a maintenance picked changes no later decision, whatever is requested later, if
   * and only if the legacy row behind every deleted key, where there is one, is full.
   */
  lemma CollectionUnobservable(rows: Rows, scope: string, deleted: set<RowKey>, now: real, locked: set<RowKey>, c: Config)
    requires c.Valid() && scope != LEGACY && RowsFit(rows, c) && deleted <= Candidates(rows, scope, now, locked, c)
    ensures (forall requests: seq<RowRequest> | (forall r | r in requests :: r.at >= now) ::
               Decisions(rows - deleted, scope, requests, c) == Decisions(rows, scope, requests, c))
            <==> (forall k | k in deleted :: LegacyFull(rows, k.keyHash, now, c))
  {
    hide Balance, Decisions, Candidates, RowsFit, Refill;
    if forall k | k in deleted :: LegacyFull(rows, k.keyHash, now, c) {
      forall requests: seq<RowRequest> | forall r | r in requests :: r.at >= now
        ensures Decisions(rows - deleted, scope, requests, c) == Decisions(rows, scope, requests, c)
      {
        CollectionChangesNothing(rows, scope, deleted, now, locked, requests, c);
      }
    } else {
      var k :| k in deleted && !LegacyFull(rows, k.keyHash, now, c);
      PoorLegacySeen(rows, scope, deleted, now, locked, k, c);
    }
  }

  /** A burst of requests tells a poor legacy row from the full row that was deleted. */
  lemma PoorLegacySeen(rows: Rows, scope: string, deleted: set<RowKey>, now: real, locked: set<RowKey>, k: RowKey, c: Config)
    requires c.Valid() && scope != LEGACY && RowsFit(rows, c) && deleted <= Candidates(rows, scope, now, locked, c)
    requires k in deleted && !LegacyFull(rows, k.keyHash, now, c)
    ensures var requests := Repeated(k.keyHash, now, c.burst);
            && (forall r | r in requests :: r.at >= now)
            && Decisions(rows - deleted, scope, requests, c) != Decisions(rows, scope, requests, c)
  {
    hide Decisions, RowsFit, Config.Rate;
    assert k in Candidates(rows, scope, now, locked, c) && k == RowKey(scope, k.keyHash);
    hide Candidates;
    DeletedBalance(rows, scope, deleted, now, locked, k.keyHash, now, c);
    RepeatedGranted(rows, scope, k.keyHash, now, c.burst, c);
    RepeatedGranted(rows - deleted, scope, k.keyHash, now, c.burst, c);
    RepeatedAt(k.keyHash, now, c.burst);
  }

  /**
   * A concrete table of one row too many: the expired row is full, and the legacy row behind it holds one of
   * two tokens. Whatever its batch size, a collection deletes the expired row. The next decision is the same
   * without it, the one after it is not.
   */
  lemma LegacyRowLosesToken()
    ensures var c, k, other, legacy := Config(1, 2, 1), RowKey("api", "a"), RowKey("api", "b"), RowKey(LEGACY, "a");
            var rows: Rows := map[k := Bucket(0.0, 0.0), other := Bucket(2.0, 1000.0), legacy := Bucket(1.0, 1000.0)];
            var requests := [RowRequest("a", 1000.0), RowRequest("a", 1000.0)];
            && c.Valid()
            && (forall batchSize: nat, deleted | 1 <= batchSize ::
                  Collects(rows, "api", batchSize, 1000.0, {}, c, deleted) <==> deleted == {k})
            && Decisions(rows, "api", requests, c) == [Granted, Granted]
            && Decisions(rows - {k}, "api", requests, c) == [Granted, Refused(60.0)]
  {
    var c, k, other, legacy := Config(1, 2, 1), RowKey("api", "a"), RowKey("api", "b"), RowKey(LEGACY, "a");
    var rows: Rows := map[k := Bucket(0.0, 0.0), other := Bucket(2.0, 1000.0), legacy := Bucket(1.0, 1000.0)];
    OneTooMany(rows, k, other, c);
    var requests := [RowRequest("a", 1000.0), RowRequest("a", 1000.0)];
    assert c.Rate() == 1.0 / 60.0;
    assert Refill(Bucket(0.0, 0.0), 1000.0, c) == 2.0;
    assert Refill(Bucket(1.0, 1000.0), 1000.0, c) == 1.0 && Refill(Bucket(0.0, 1000.0), 1000.0, c) == 0.0;
    hide Refill, Decisions;
    DrawsBalance(rows, "api", "a", 1000.0, c);
    DrawsBalance(rows - {k}, "api", "a", 1000.0, c);
    var kept, adopted := DrawRow(rows, "api", "a", 1000.0, c).0, DrawRow(rows - {k}, "api", "a", 1000.0, c).0;
    assert kept[k] == Bucket(1.0, 1000.0) && adopted[k] == Bucket(0.0, 1000.0);
    DrawsBalance(kept, "api", "a", 1000.0, c);
    DrawsBalance(adopted, "api", "a", 1000.0, c);
    hide DrawRow, Balance;
    TwoDecisions(rows, "api", requests[0], requests[1], c);
    TwoDecisions(rows - {k}, "api", requests[0], requests[1], c);
  }

  lemma OneTooMany(rows: Rows, k: RowKey, other: RowKey, c: Config)
    requires c == Config(1, 2, 1) && k == RowKey("api", "a") && other == RowKey("api", "b")
    requires rows == map[k := Bucket(0.0, 0.0), other := Bucket(2.0, 1000.0), RowKey(LEGACY, "a") := Bucket(1.0, 1000.0)]
    ensures forall batchSize: nat, deleted | 1 <= batchSize ::
              Collects(rows, "api", batchSize, 1000.0, {}, c, deleted) <==> deleted == {k}
  {
    assert c.Rate() == 1.0 / 60.0;
    assert Horizon(c) == 300.0;
    assert Candidates(rows, "api", 1000.0, {}, c) == {k};
    assert Scoped(rows, "api") == {k, other};
    hide Candidates, Scoped;
    forall deleted: set<RowKey> | deleted <= {k} && |deleted| == 1 ensures deleted == {k} {
      Alone(deleted, k);
    }
  }

  lemma Alone(deleted: set<RowKey>, k: RowKey)
    requires deleted <= {k} && |deleted| == 1
    ensures deleted == {k}
  {
    var x :| x in deleted;
    assert x == k;
  }

  lemma TwoDecisions(rows: Rows, scope: string, a: RowRequest, b: RowRequest, c: Config)
    requires c.Valid()
    ensures var (rows', d) := DrawRow(rows, scope, a.keyHash, a.at, c);
            Decisions(rows, scope, [a, b], c) == [d, DrawRow(rows', scope, b.keyHash, b.at, c).1]
  {
    hide DrawRow;
    assert [a, b][1..] == [b] && [b][1..] == [];
    var rows' := DrawRow(rows, scope, a.keyHash, a.at, c).0;
    var rows2 := DrawRow(rows', scope, b.keyHash, b.at, c).0;
    assert Decisions(rows2, scope, [], c) == [];
    assert Decisions(rows', scope, [b], c) == [DrawRow(rows', scope, b.keyHash, b.at, c).1];
  }

  // ----- The bound over requests and collections -----

  datatype RowStep = Ask(keyHash: string, at: real) | Collect(deleted: set<RowKey>, locked: set<RowKey>, at: real)

  function StepRows(rows: Rows, scope: string, step: RowStep, c: Config): Rows
    requires c.Valid()
  {
    match step
    case Ask(keyHash, at) => DrawRow(rows, scope, keyHash, at, c).0
    case Collect(deleted, _, _) => rows - deleted
  }

  /** Times never go back, and a collection deletes nothing but candidates. */
  predicate Legal(rows: Rows, scope: string, steps: seq<RowStep>, from: real, c: Config)
    requires c.Valid()
    decreases |steps|
  {
    steps == []
    || (&& from <= steps[0].at
        && (steps[0].Collect? ==> steps[0].deleted <= Candidates(rows, scope, steps[0].at, steps[0].locked, c))
        && Legal(StepRows(rows, scope, steps[0], c), scope, steps[1..], steps[0].at, c))
  }

  function GrantsIn(rows: Rows, scope: string, steps: seq<RowStep>, keyHash: string, c: Config): nat
    requires c.Valid()
    decreases |steps|
  {
    if steps == [] then 0
    else
      var first := steps[0];
      (if first.Ask? && first.keyHash == keyHash && DrawRow(rows, scope, keyHash, first.at, c).1.Granted? then 1 else 0)
      + GrantsIn(StepRows(rows, scope, first, c), scope, steps[1..], keyHash, c)
  }

  lemma BalanceGrows(rows: Rows, scope: string, keyHash: string, from: real, to: real, c: Config)
    requires c.Valid() && from <= to && RowsFit(rows, c)
    ensures 0.0 <= Balance(rows, scope, keyHash, to, c) <= Balance(rows, scope, keyHash, from, c) + (to - from) * c.Rate()
  {
    hide Refill, Fits, Config.Rate;
    var k, legacy := RowKey(scope, keyHash), RowKey(LEGACY, keyHash);
    if k in rows {
      RefillGrows(rows[k], from, to, c);
    } else if legacy in rows {
      RefillGrows(rows[legacy], from, to, c);
    } else {
      RatePositive(c);
      Grows(c.burst as real, from, to, c.Rate());
    }
  }

  lemma Grows(balance: real, from: real, to: real, rate: real)
    requires from <= to && rate > 0.0
    ensures balance <= balance + (to - from) * rate
  {
    assert (to - from) * rate >= 0.0;
  }

  lemma RefillGrows(b: Bucket, from: real, to: real, c: Config)
    requires c.Valid() && from <= to && Fits(b, c)
    ensures 0.0 <= Refill(b, to, c) <= Refill(b, from, c) + (to - from) * c.Rate()
  {
    RatePositive(c);
    AccrualGrows(b.lastSeen, from, to, c.Rate());
    hide Config.Rate;
  }

  /** What accrues up to a later moment is at most what accrued before, plus the rate over the time between. */
  lemma AccrualGrows(since: real, from: real, to: real, rate: real)
    requires from <= to && rate > 0.0
    ensures 0.0 <= Max(0.0, to - since) * rate <= Max(0.0, from - since) * rate + (to - from) * rate
    ensures 0.0 <= (to - from) * rate
  {
    var before, after := Max(0.0, from - since), Max(0.0, to - since);
    ScaleLeq(0.0, to - from, rate);
    ScaleLeq(0.0, after, rate);
    ScaleLeq(after, before + (to - from), rate);
    Distribute(before, to - from, rate);
  }

  lemma Distribute(a: real, b: real, rate: real)
    ensures (a + b) * rate == a * rate + b * rate
  {
  }

  lemma StepKeepsFit(rows: Rows, scope: string, step: RowStep, c: Config)
    requires c.Valid() && scope != LEGACY && RowsFit(rows, c)
    ensures RowsFit(StepRows(rows, scope, step, c), c)
  {
    if step.Ask? {
      BalanceGrows(rows, scope, step.keyHash, step.at, step.at, c);
      BalanceAtMostBurst(rows, scope, step.keyHash, step.at, c);
      DrawsBalance(rows, scope, step.keyHash, step.at, c);
      hide Balance, Refill, Config.Rate;
    }
  }

  /** One step: what it grants a key, with what the key finds afterwards, is no more than what it found before. */
  lemma StepPaid(rows: Rows, scope: string, step: RowStep, keyHash: string, c: Config)
    requires c.Valid() && scope != LEGACY && RowsFit(rows, c)
    requires step.Collect? ==> step.deleted <= Candidates(rows, scope, step.at, step.locked, c)
    ensures Balance(StepRows(rows, scope, step, c), scope, keyHash, step.at, c)
            + (if step.Ask? && step.keyHash == keyHash && DrawRow(rows, scope, keyHash, step.at, c).1.Granted? then 1.0 else 0.0)
            <= Balance(rows, scope, keyHash, step.at, c)
  {
    hide RowsFit, Candidates, Refill, Config.Rate, DrawRow;
    match step {
      case Ask(asked, at) =>
        DrawsBalance(rows, scope, asked, at, c);
        BalanceAtMostBurst(rows, scope, keyHash, at, c);
        RefillNow(StepRows(rows, scope, step, c)[RowKey(scope, asked)], c);
      case Collect(deleted, locked, at) =>
        DeletedBalance(rows, scope, deleted, at, locked, keyHash, at, c);
        BalanceAtMostBurst(rows - deleted, scope, keyHash, at, c);
    }
  }

  /** Every grant is paid for by what the key found, or by refill since then. */
  lemma {:induction false} RowGrantsPaid(rows: Rows, scope: string, steps: seq<RowStep>, keyHash: string, from: real, end: real,
                                         c: Config)
    requires c.Valid() && scope != LEGACY && RowsFit(rows, c) && Legal(rows, scope, steps, from, c)
    requires (if steps == [] then from else steps[|steps| - 1].at) <= end && from <= end
    ensures GrantsIn(rows, scope, steps, keyHash, c) as real <= Balance(rows, scope, keyHash, from, c) + (end - from) * c.Rate()
    decreases |steps|
  {
    hide Balance, RowsFit, Candidates, StepRows, DrawRow, Config.Rate;
    if steps == [] {
      BalanceGrows(rows, scope, keyHash, from, end, c);
      BalanceGrows(rows, scope, keyHash, from, from, c);
      RateAccrues(end - from, c);
    } else {
      var first, rows' := steps[0], StepRows(rows, scope, steps[0], c);
      LastIsLatest(rows, scope, steps, from, c);
      StepKeepsFit(rows, scope, first, c);
      RowGrantsPaid(rows', scope, steps[1..], keyHash, first.at, end, c);
      StepPaid(rows, scope, first, keyHash, c);
      BalanceGrows(rows, scope, keyHash, from, first.at, c);
      SplitInterval(from, first.at, end, c.Rate());
    }
  }

  lemma {:induction false} LastIsLatest(rows: Rows, scope: string, steps: seq<RowStep>, from: real, c: Config)
    requires c.Valid() && steps != [] && Legal(rows, scope, steps, from, c)
    ensures steps[0].at <= steps[|steps| - 1].at
    decreases |steps|
  {
    hide StepRows, Candidates;
    if |steps| > 1 {
      LastIsLatest(StepRows(rows, scope, steps[0], c), scope, steps[1..], steps[0].at, c);
    }
  }

  /**
   * In any interval of length T a key is granted at most burst + rate * T requests, whatever other keys ask
   * and whatever is collected meanwhile.
   */
  lemma RowTraceBound(rows: Rows, scope: string, steps: seq<RowStep>, keyHash: string, start: real, length: real, c: Config)
    requires c.Valid() && scope != LEGACY && RowsFit(rows, c) && Legal(rows, scope, steps, start, c) && length >= 0.0
    requires steps != [] ==> steps[|steps| - 1].at <= start + length
    ensures GrantsIn(rows, scope, steps, keyHash, c) as real <= c.burst as real + length * c.Rate()
  {
    hide Legal, GrantsIn, Balance, RowsFit, Config.Rate;
    RowGrantsPaid(rows, scope, steps, keyHash, start, start + length, c);
    BalanceAtMostBurst(rows, scope, keyHash, start, c);
  }

  lemma DrawOutcome(record: Bucket, now: real, tokens: real, c: Config)
    requires c.Valid() && tokens == Min(c.burst as real, record.tokens + Max(0.0, now - record.lastSeen) * c.Rate())
    ensures c.Rate() > 0.0
    ensures Draw(record, now, c) == if tokens >= 1.0 then (Bucket(tokens - 1.0, now), Granted)
                                    else (Bucket(tokens, now), Refused((1.0 - tokens) / c.Rate()))
  {
    hide Config.Rate;
    RatePositive(c);
  }

  class DatabaseTokenBuckets {
    var rows: Rows

    method ConsumeOnce(scope: string, keyHash: string, now: real, c: Config) returns (decision: Decision)
      requires c.Valid()
      modifies this
      ensures (rows, decision) == DrawRow(old(rows), scope, keyHash, now, c)
    {
      hide Config.Rate, Draw, Refill;
      RatePositive(c);
      var k, legacy := RowKey(scope, keyHash), RowKey(LEGACY, keyHash);
      var record;
      if k in rows {
        record := rows[k];
      } else if legacy in rows {
        record := rows[legacy];
        rows := rows - {legacy};
      } else {
        rows := rows[k := Bucket((c.burst - 1) as real, now)];
        return Granted;
      }
      var tokens := Min(c.burst as real, record.tokens + Max(0.0, now - record.lastSeen) * c.Rate());
      DrawOutcome(record, now, tokens, c);
      if tokens >= 1.0 {
        rows := rows[k := Bucket(tokens - 1.0, now)];
        return Granted;
      }
      rows := rows[k := Bucket(tokens, now)];
      return Refused((1.0 - tokens) / c.Rate());
    }

    /** The oldest of some rows. */
    method Oldest(keys: set<RowKey>) returns (oldest: RowKey)
      requires keys != {} && keys <= rows.Keys
      ensures oldest in keys && forall k | k in keys :: rows[oldest].lastSeen <= rows[k].lastSeen
    {
      oldest :| oldest in keys;
      var rest := keys - {oldest};
      while rest != {}
        invariant rest <= keys && oldest in keys
        invariant forall k | k in keys && k !in rest :: rows[oldest].lastSeen <= rows[k].lastSeen
        decreases |rest|
      {
        var k :| k in rest;
        if rows[k].lastSeen < rows[oldest].lastSeen {
          oldest := k;
        }
        rest := rest - {k};
      }
    }

    /** Bounded maintenance: above the retention target, delete the oldest expired rows of the scope. */
    method CollectExpired(scope: string, batchSize: int, now: real, locked: set<RowKey>, c: Config)
      returns (accepted: bool, deleted: set<RowKey>)
      requires c.Valid()
      modifies this
      ensures accepted <==> 1 <= batchSize <= 4096
      ensures rows == old(rows) - deleted
      ensures !accepted ==> deleted == {}
      ensures accepted ==> Collects(old(rows), scope, batchSize, now, locked, c, deleted)
    {
      hide Horizon, Candidates, Picked;
      deleted := {};
      if batchSize < 1 || batchSize > 4096 {
        return false, {};
      }
      var overflow := Overflow(rows, scope, c);
      var rest := Candidates(rows, scope, now, locked, c);
      ghost var all, before := rest, rows;
      var limit := Least(batchSize, overflow);
      PickNone(before, scope, now, locked, c);
      while |deleted| < limit && rest != {}
        invariant Picked(before, all, deleted, rest) && |deleted| <= limit
        invariant rows == before - deleted
        decreases |rest|
      {
        RestRemains(before, all, deleted, rest);
        var k := Oldest(rest);
        PickOldest(before, all, deleted, rest, k);
        rest := rest - {k};
        deleted := deleted + {k};
        rows := rows - {k};
      }
      PickedAll(before, all, deleted, rest);
      accepted := true;
    }
  }

  /** What one collection deletes: the oldest candidates, as many as there are, overflow and the batch allows. */
  ghost predicate Collects(rows: Rows, scope: string, batchSize: nat, now: real, locked: set<RowKey>, c: Config,
                           deleted: set<RowKey>)
    requires c.Valid()
  {
    var candidates := Candidates(rows, scope, now, locked, c);
    && deleted <= candidates
    && |deleted| == Least(batchSize, Least(Overflow(rows, scope, c), |candidates|))
    && forall d, k | d in deleted && k in candidates - deleted :: rows[d].lastSeen <= rows[k].lastSeen
  }

  /** The deleted rows are the oldest of all the candidates, the rest still waits. */
  ghost predicate Picked(rows: Rows, all: set<RowKey>, deleted: set<RowKey>, rest: set<RowKey>) {
    && deleted !! rest && deleted + rest == all && all <= rows.Keys
    && forall d, k | d in deleted && k in rest :: rows[d].lastSeen <= rows[k].lastSeen
  }

  lemma PickNone(rows: Rows, scope: string, now: real, locked: set<RowKey>, c: Config)
    requires c.Valid()
    ensures Picked(rows, Candidates(rows, scope, now, locked, c), {}, Candidates(rows, scope, now, locked, c))
  {
    hide Horizon;
  }

  lemma RestRemains(rows: Rows, all: set<RowKey>, deleted: set<RowKey>, rest: set<RowKey>)
    requires Picked(rows, all, deleted, rest)
    ensures rest <= (rows - deleted).Keys
  {
  }

  lemma PickOldest(rows: Rows, all: set<RowKey>, deleted: set<RowKey>, rest: set<RowKey>, k: RowKey)
    requires Picked(rows, all, deleted, rest) && k in rest
    requires rest <= (rows - deleted).Keys
    requires forall x | x in rest :: (rows - deleted)[k].lastSeen <= (rows - deleted)[x].lastSeen
    ensures Picked(rows, all, deleted + {k}, rest - {k})
    ensures |deleted + {k}| == |deleted| + 1 && (rows - deleted) - {k} == rows - (deleted + {k})
  {
    assert forall x | x in rest :: (rows - deleted)[x] == rows[x];
  }

  lemma PickedAll(rows: Rows, all: set<RowKey>, deleted: set<RowKey>, rest: set<RowKey>)
    requires Picked(rows, all, deleted, rest)
    ensures deleted <= all && all - deleted == rest && |all| == |deleted| + |rest|
    ensures forall d, k | d in deleted && k in all - deleted :: rows[d].lastSeen <= rows[k].lastSeen
  {
  }

  function Least(a: nat, b: nat): nat { if a <= b then a else b }

  function Scoped(rows: Rows, scope: string): set<RowKey> {
    set k | k in rows && k.scope == scope
  }

  function Overflow(rows: Rows, scope: string, c: Config): nat
    requires c.Valid()
  {
    var count := |Scoped(rows, scope)|;
    if count > c.maxKeys then count - c.maxKeys else 0
  }

  function Candidates(rows: Rows, scope: string, now: real, locked: set<RowKey>, c: Config): set<RowKey>
    requires c.Valid()
  {
    set k | k in rows && k.scope == scope && Expired(rows[k], now, c) && k !in locked
  }

  // ----- The request quota of an organization -----

  /** One bucket per organization; the first request finds it full. */
  function Opening(bucket: Option<Bucket>, now: real, c: Config): Bucket {
    if bucket.Some? then bucket.value else Bucket(c.burst as real, now)
  }

  function DrawQuota(bucket: Option<Bucket>, now: real, c: Config): (Bucket, Decision)
    requires c.Valid()
  {
    Draw(Opening(bucket, now, c), now, c)
  }

  function QuotaGrants(bucket: Option<Bucket>, times: seq<real>, c: Config): nat
    requires c.Valid()
    decreases |times|
  {
    if times == [] then 0
    else
      var (b, d) := DrawQuota(bucket, times[0], c);
      (if d.Granted? then 1 else 0) + QuotaGrants(Some(b), times[1..], c)
  }

  lemma {:induction false} QuotaIsBucket(b: Bucket, times: seq<real>, c: Config)
    requires c.Valid()
    ensures QuotaGrants(Some(b), times, c) == GrantedCount(b, times, c)
    decreases |times|
  {
    if times != [] {
      QuotaIsBucket(Draw(b, times[0], c).0, times[1..], c);
    }
  }

  /** An organization is granted at most burst + rate * T requests in any interval of length T. */
  lemma QuotaBound(bucket: Option<Bucket>, times: seq<real>, start: real, length: real, c: Config)
    requires c.Valid() && times != [] && Fits(Opening(bucket, times[0], c), c)
    requires Monotone(Opening(bucket, times[0], c).lastSeen, times)
    requires start <= times[0] && times[|times| - 1] <= start + length
    ensures QuotaGrants(bucket, times, c) as real <= c.burst as real + length * c.Rate()
  {
    var b := Opening(bucket, times[0], c);
    QuotaIsBucket(Draw(b, times[0], c).0, times[1..], c);
    assert QuotaGrants(bucket, times, c) == GrantedCount(b, times, c);
    hide Draw, GrantedCount, QuotaGrants, Config.Rate;
    BurstBound(b, times, start, length, c);
  }

  /** A policy without a rate or a burst sets no quota. */
  datatype Quota = Quota(requestRate: Option<int>, requestBurst: Option<int>)

  class OrganizationQuota {
    var quota: Quota
    var bucket: Option<Bucket>

    predicate Enforced()
      reads this
    {
      quota.requestRate.Some? && quota.requestBurst.Some?
    }

    /** The limiter that the quota describes. */
    function Limiter(): Config
      requires Enforced()
      reads this
    {
      Config(quota.requestRate.value, quota.requestBurst.value, 1)
    }

    method ConsumeRequestQuota(now: real) returns (decision: Decision)
      requires Enforced() ==> Limiter().Valid()
      modifies this`bucket
      ensures !Enforced() ==> decision == Granted && bucket == old(bucket)
      ensures Enforced() ==>
                var (b, d) := DrawQuota(old(bucket), now, Limiter());
                bucket == Some(b) && decision == d
    {
      if quota.requestRate.None? || quota.requestBurst.None? {
        return Granted;
      }
      var rate, burst := quota.requestRate.value, quota.requestBurst.value;
      if bucket.None? {
        FullBucketGrants(now, Limiter());
        bucket := Some(Bucket(burst as real - 1.0, now));
        return Granted;
      }
      var refillRate := rate as real / 60.0;
      var elapsed := now - bucket.value.lastSeen;
      var tokens := Min(burst as real, bucket.value.tokens + Max(0.0, elapsed) * refillRate);
      assert tokens == Refill(bucket.value, now, Limiter());
      if tokens >= 1.0 {
        bucket := Some(Bucket(tokens - 1.0, now));
        return Granted;
      }
      bucket := Some(Bucket(tokens, now));
      return Refused((1.0 - tokens) / refillRate);
    }
  }

  lemma FullBucketGrants(now: real, c: Config)
    requires c.Valid()
    ensures Draw(Bucket(c.burst as real, now), now, c) == (Bucket(c.burst as real - 1.0, now), Granted)
  {
  }
}
