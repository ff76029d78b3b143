/**
 * The leased outbox (shared/inbox_outbox.py): rows that any number of sequential workers claim,
 * publish and finalise, with crashes and lease takeovers. Times are seconds.
 */
module Outbox {
  import Ordering
  import opened Results

  type Worker = string

  datatype Status = Pending | Publishing | Failed | Published | Dead

  datatype Row = Row(
    eventId: string, createdAt: real, status: Status, attempts: nat, availableAt: real,
    lockedAt: Option<real>, lockedBy: Option<Worker>, lastError: Option<string>,
    publishedAt: Option<real>, deadAt: Option<real>)

  datatype RetryPolicy = RetryPolicy(maxAttempts: int, baseDelay: real, maxDelay: real) {
    function DelayBefore(attempt: nat): real {
      var delay := baseDelay * Power2(if attempt == 0 then 0 else attempt - 1);
      if maxDelay <= delay then maxDelay else delay
    }

    /** The attempt that ends in a dead letter when it fails; a limit below one still allows one attempt. */
    function LastAttempt(): nat {
      if maxAttempts < 1 then 1 else maxAttempts
    }
  }

  function Power2(n: nat): real {
    if n == 0 then 1.0 else 2.0 * Power2(n - 1)
  }

  /** What the publisher did: success, or the error it raised. */
  datatype Outcome = Delivered | Refused(error: string)

  function NewRow(eventId: string, now: real): Row {
    Row(eventId, now, Pending, 0, now, None, None, None, None, None)
  }

  predicate Eligible(row: Row, now: real, cutoff: real) {
    || ((row.status.Pending? || row.status.Failed?) && row.availableAt <= now)
    || (row.status.Publishing? && row.lockedAt.Some? && row.lockedAt.value <= cutoff)
  }

  function Cutoff(now: real, leaseSeconds: int): real {
    now - (if leaseSeconds < 30 then 30.0 else leaseSeconds as real)
  }

  function ClaimRow(row: Row, worker: Worker, now: real): Row {
    row.(status := Publishing, lockedAt := Some(now), lockedBy := Some(worker))
  }

  function Settle(row: Row, now: real, outcome: Outcome, policy: RetryPolicy): Row {
    var attempted := row.(attempts := row.attempts + 1, lockedAt := None, lockedBy := None);
    match outcome
    case Delivered => attempted.(status := Published, publishedAt := Some(now), lastError := None)
    case Refused(error) =>
      if attempted.attempts >= policy.maxAttempts
      then attempted.(status := Dead, deadAt := Some(now), lastError := Some(error))
      else attempted.(status := Failed, lastError := Some(error),
                      availableAt := now + policy.DelayBefore(attempted.attempts))
  }

  predicate Holds(row: Row, worker: Worker) {
    row.status.Publishing? && row.lockedBy == Some(worker)
  }

  // ----- The table -----

  function CreatedAt(rows: seq<Row>, id: nat): real {
    if id < |rows| then rows[id].createdAt else 0.0
  }

  predicate Earlier(rows: seq<Row>, a: nat, b: nat) {
    CreatedAt(rows, a) < CreatedAt(rows, b) || (CreatedAt(rows, a) == CreatedAt(rows, b) && a <= b)
  }

  /** Ids of the rows a claim may take, oldest first; rows locked by another transaction are skipped. */
  function ClaimOrder(rows: seq<Row>, now: real, cutoff: real, locked: set<nat>): seq<nat> {
    OldestFirst(rows, EligibleIds(rows, |rows|, now, cutoff, locked))
  }

  function OldestFirst(rows: seq<Row>, ids: seq<nat>): seq<nat> {
    Ordering.Sort((a: nat, b: nat) => Earlier(rows, a, b), ids)
  }

  function EligibleIds(rows: seq<Row>, n: nat, now: real, cutoff: real, locked: set<nat>): seq<nat>
    requires n <= |rows|
  {
    if n == 0 then []
    else
      EligibleIds(rows, n - 1, now, cutoff, locked)
      + if Eligible(rows[n - 1], now, cutoff) && n - 1 !in locked then [n - 1] else []
  }

  function ClaimAll(rows: seq<Row>, ids: seq<nat>, worker: Worker, now: real): seq<Row> {
    seq(|rows|, i requires 0 <= i < |rows| => if i in ids then ClaimRow(rows[i], worker, now) else rows[i])
  }

  function Take(ids: seq<nat>, limit: nat): seq<nat> {
    if |ids| <= limit then ids else ids[..limit]
  }

  class OutboxTable {
    var rows: seq<Row>

    /** Enqueueing is idempotent by event id. */
    method Enqueue(eventId: string, now: real) returns (id: nat)
      modifies this
      ensures id < |rows| && rows[id].eventId == eventId
      ensures if exists r :: r in old(rows) && r.eventId == eventId
              then rows == old(rows)
              else rows == old(rows) + [NewRow(eventId, now)]
    {
      for i := 0 to |rows|
        invariant forall k | 0 <= k < i :: rows[k].eventId != eventId
      {
        if rows[i].eventId == eventId {
          assert rows[i] in rows;
          return i;
        }
      }
      id := |rows|;
      rows := rows + [NewRow(eventId, now)];
    }

    /** The claim transaction of one dispatch batch. */
    method Claim(worker: Worker, now: real, leaseSeconds: int, batchSize: nat, locked: set<nat>)
      returns (claimed: seq<nat>)
      modifies this
      ensures claimed == Take(ClaimOrder(old(rows), now, Cutoff(now, leaseSeconds), locked), batchSize)
      ensures rows == ClaimAll(old(rows), claimed, worker, now)
    {
      hide Eligible, ClaimRow, OldestFirst;
      var eligible: seq<nat> := [];
      var cutoff := Cutoff(now, leaseSeconds);
      for i := 0 to |rows|
        invariant eligible == EligibleIds(rows, i, now, cutoff, locked)
      {
        if Eligible(rows[i], now, cutoff) && i !in locked {
          eligible := eligible + [i];
        }
      }
      claimed := Take(OldestFirst(rows, eligible), batchSize);
      ClaimedEligible(rows, now, cutoff, locked, batchSize);
      ghost var before := rows;
      for k := 0 to |claimed|
        invariant rows == ClaimAll(before, claimed[..k], worker, now)
      {
        var id := claimed[k];
        assert id in claimed && claimed[..k + 1] == claimed[..k] + [id];
        ClaimTwice(before[id], worker, now);
        rows := rows[id := ClaimRow(rows[id], worker, now)];
      }
      assert claimed[..|claimed|] == claimed;
    }

    /** The transaction after the publisher returned: only the current holder records an outcome. */
    method Finalize(id: nat, worker: Worker, now: real, outcome: Outcome, policy: RetryPolicy)
      returns (recorded: bool)
      requires id < |rows|
      modifies this
      ensures recorded <==> Holds(old(rows)[id], worker)
      ensures rows == if recorded then old(rows)[id := Settle(old(rows)[id], now, outcome, policy)] else old(rows)
    {
      var record := rows[id];
      if !record.status.Publishing? || record.lockedBy != Some(worker) {
        return false;
      }
      record := record.(attempts := record.attempts + 1);
      match outcome {
        case Delivered =>
          record := record.(status := Published, publishedAt := Some(now), lastError := None);
        case Refused(error) =>
          record := record.(lastError := Some(error));
          if record.attempts >= policy.maxAttempts {
            record := record.(status := Dead, deadAt := Some(now));
          } else {
            record := record.(status := Failed, availableAt := now + policy.DelayBefore(record.attempts));
          }
      }
      rows := rows[id := record.(lockedAt := None, lockedBy := None)];
      return true;
    }

    /** Direct delivery of one record, without a claim. */
    method Deliver(id: nat, now: real, outcome: Outcome, policy: RetryPolicy) returns (ok: bool)
      requires id < |rows|
      modifies this
      ensures ok <==> outcome.Delivered?
      ensures rows == old(rows)[id := Settle(old(rows)[id], now, outcome, policy)]
    {
      var record := rows[id].(attempts := rows[id].attempts + 1);
      match outcome {
        case Refused(error) =>
          record := record.(lastError := Some(error));
          if record.attempts >= policy.maxAttempts {
            record := record.(status := Dead, deadAt := Some(now));
          } else {
            record := record.(status := Failed, availableAt := now + policy.DelayBefore(record.attempts));
          }
        case Delivered =>
          record := record.(status := Published, publishedAt := Some(now), lastError := None);
      }
      rows := rows[id := record.(lockedAt := None, lockedBy := None)];
      return outcome.Delivered?;
    }
  }

  lemma ClaimTwice(row: Row, worker: Worker, now: real)
    ensures ClaimRow(ClaimRow(row, worker, now), worker, now) == ClaimRow(row, worker, now)
  {
  }

  lemma {:induction false} EligibleIdsExact(rows: seq<Row>, n: nat, now: real, cutoff: real, locked: set<nat>, id: nat)
    requires n <= |rows|
    ensures id in EligibleIds(rows, n, now, cutoff, locked)
            <==> id < n && Eligible(rows[id], now, cutoff) && id !in locked
  {
    if n > 0 {
      EligibleIdsExact(rows, n - 1, now, cutoff, locked, id);
    }
  }

  /** A claim takes only eligible, unlocked rows. */
  lemma ClaimedEligible(rows: seq<Row>, now: real, cutoff: real, locked: set<nat>, limit: nat)
    ensures forall id | id in Take(ClaimOrder(rows, now, cutoff, locked), limit) ::
              id < |rows| && Eligible(rows[id], now, cutoff) && id !in locked
  {
    hide Eligible, Earlier, EligibleIds;
    var ids := EligibleIds(rows, |rows|, now, cutoff, locked);
    forall id | id in Take(ClaimOrder(rows, now, cutoff, locked), limit)
      ensures id < |rows| && Eligible(rows[id], now, cutoff) && id !in locked
    {
      assert id in ClaimOrder(rows, now, cutoff, locked);
      assert id in multiset(ids);
      EligibleIdsExact(rows, |rows|, now, cutoff, locked, id);
    }
  }

  lemma EarlierIsPreorder(rows: seq<Row>)
    ensures Ordering.TotalPreorder((a: nat, b: nat) => Earlier(rows, a, b))
  {
  }

  /** A row that could be claimed is left for later only by a full batch of rows created no later. */
  lemma OldestClaimed(rows: seq<Row>, now: real, cutoff: real, locked: set<nat>, limit: nat, id: nat)
    requires id < |rows| && Eligible(rows[id], now, cutoff) && id !in locked
    requires id !in Take(ClaimOrder(rows, now, cutoff, locked), limit)
    ensures var claimed := Take(ClaimOrder(rows, now, cutoff, locked), limit);
            && |claimed| == limit
            && forall c | c in claimed :: c < |rows| && rows[c].createdAt <= rows[id].createdAt
    ensures forall c | c in Take(ClaimOrder(rows, now, cutoff, locked), limit) :: Earlier(rows, c, id)
  {
    hide Eligible, Earlier, EligibleIds;
    var ids, order := EligibleIds(rows, |rows|, now, cutoff, locked), ClaimOrder(rows, now, cutoff, locked);
    var leq := (a: nat, b: nat) => Earlier(rows, a, b);
    EarlierIsPreorder(rows);
    Ordering.SortSorted(leq, ids);
    EligibleIdsExact(rows, |rows|, now, cutoff, locked, id);
    assert id in multiset(order);
    var j :| 0 <= j < |order| && order[j] == id;
    ClaimedEligible(rows, now, cutoff, locked, limit);
    forall c | c in Take(order, limit) ensures Earlier(rows, c, id) && CreatedAt(rows, c) <= CreatedAt(rows, id) {
      var i :| 0 <= i < limit && order[i] == c;
      assert i < j;
      assert leq(order[i], order[j]);
      EarlierCreated(rows, c, id);
    }
  }

  lemma EarlierCreated(rows: seq<Row>, a: nat, b: nat)
    requires Earlier(rows, a, b)
    ensures CreatedAt(rows, a) <= CreatedAt(rows, b)
  {
  }

  // ----- Runs of many workers -----

  /** What a worker is doing: the batch it claimed, and the outcome of the call in progress. */
  datatype Activity =
    | Idle
    | Working(lease: nat, now: real, remaining: seq<nat>, called: Option<Outcome>)

  /**
   * The table with its history: per row the lease under which it was last claimed, how often the
   * publisher succeeded for it, and the outcomes recorded on it.
   */
  datatype System = System(
    rows: seq<Row>, leases: seq<nat>, delivered: seq<nat>, outcomes: seq<seq<Outcome>>,
    nextLease: nat, workers: map<Worker, Activity>)

  datatype Step =
    | EnqueueStep(eventId: string, now: real)
    | ClaimStep(worker: Worker, now: real, leaseSeconds: int, batchSize: nat, locked: set<nat>)
    | PublishStep(worker: Worker, outcome: Outcome)
    | FinalizeStep(worker: Worker)
    | CrashStep(worker: Worker)

  const EMPTY := System([], [], [], [], 0, map[])

  function ActivityOf(s: System, w: Worker): Activity {
    if w in s.workers then s.workers[w] else Idle
  }

  predicate Known(s: System, eventId: string) {
    exists r :: r in s.rows && r.eventId == eventId
  }

  /** One atomic step; a step that is not enabled changes nothing. */
  function Next(s: System, step: Step, policy: RetryPolicy): System {
    match step
    case EnqueueStep(eventId, now) =>
      if Known(s, eventId) then s
      else s.(rows := s.rows + [NewRow(eventId, now)], leases := s.leases + [0], delivered := s.delivered + [0],
              outcomes := s.outcomes + [[]])
    case ClaimStep(w, now, leaseSeconds, batchSize, locked) =>
      if !ActivityOf(s, w).Idle? then s
      else DoClaim(s, w, now, Take(ClaimOrder(s.rows, now, Cutoff(now, leaseSeconds), locked), batchSize))
    case PublishStep(w, outcome) =>
      var a := ActivityOf(s, w);
      if a.Idle? || a.called.Some? || a.remaining == [] || a.remaining[0] >= |s.delivered| then s
      else DoPublish(s, w, a, outcome)
    case FinalizeStep(w) =>
      var a := ActivityOf(s, w);
      if a.Idle? || a.called.None? || a.remaining == [] || a.remaining[0] >= |s.rows|
         || a.remaining[0] >= |s.outcomes| then s
      else DoFinalize(s, w, a, policy)
    case CrashStep(w) =>
      s.(workers := s.workers[w := Idle])
  }

  function DoClaim(s: System, w: Worker, now: real, ids: seq<nat>): System {
    s.(rows := ClaimAll(s.rows, ids, w, now),
       leases := seq(|s.leases|, i requires 0 <= i < |s.leases| => if i in ids then s.nextLease else s.leases[i]),
       nextLease := s.nextLease + 1,
       workers := s.workers[w := Working(s.nextLease, now, ids, None)])
  }

  function DoPublish(s: System, w: Worker, a: Activity, outcome: Outcome): System
    requires a.Working? && a.remaining != [] && a.remaining[0] < |s.delivered|
  {
    var id := a.remaining[0];
    s.(delivered := if outcome.Delivered? then s.delivered[id := s.delivered[id] + 1] else s.delivered,
       workers := s.workers[w := a.(called := Some(outcome))])
  }

  function DoFinalize(s: System, w: Worker, a: Activity, policy: RetryPolicy): System
    requires a.Working? && a.called.Some? && a.remaining != []
    requires a.remaining[0] < |s.rows| && a.remaining[0] < |s.outcomes|
  {
    var id, rest := a.remaining[0], a.remaining[1..];
    var s' := s.(workers := s.workers[w := if rest == [] then Idle else a.(remaining := rest, called := None)]);
    if Holds(s.rows[id], w)
    then s'.(rows := s.rows[id := Settle(s.rows[id], a.now, a.called.value, policy)],
             outcomes := s.outcomes[id := s.outcomes[id] + [a.called.value]])
    else s'
  }

  function Exec(s: System, steps: seq<Step>, policy: RetryPolicy): System
    decreases |steps|
  {
    if steps == [] then s else Exec(Next(s, steps[0], policy), steps[1..], policy)
  }

  // ----- What every step keeps -----

  ghost predicate AllRefused(outs: seq<Outcome>) {
    forall i | 0 <= i < |outs| :: outs[i].Refused?
  }

  ghost predicate RowInv(row: Row, outs: seq<Outcome>, delivered: nat, policy: RetryPolicy) {
    && (row.status.Publishing? <==> row.lockedBy.Some?)
    && (row.lockedBy.Some? <==> row.lockedAt.Some?)
    && row.attempts == |outs| <= policy.LastAttempt()
    && (if row.status.Published?
        then outs != [] && outs[|outs| - 1].Delivered? && AllRefused(outs[..|outs| - 1]) && delivered >= 1
        else AllRefused(outs))
    && (row.status.Dead? <==> AllRefused(outs) && |outs| == policy.LastAttempt())
  }

  predicate Shaped(s: System) {
    |s.leases| == |s.delivered| == |s.outcomes| == |s.rows|
  }

  ghost predicate WorkerInv(s: System, w: Worker)
    requires Shaped(s)
  {
    var a := ActivityOf(s, w);
    a.Working? ==>
      && a.lease < s.nextLease
      && (forall id | id in a.remaining :: id < |s.rows|)
      && (forall id | id in a.remaining && Holds(s.rows[id], w) :: s.leases[id] == a.lease)
      && (a.called.Some? ==> a.remaining != [] && a.remaining[0] < |s.rows|)
      && (a.called == Some(Delivered) ==> s.delivered[a.remaining[0]] >= 1)
  }

  ghost predicate Inv(s: System, policy: RetryPolicy) {
    && Shaped(s)
    && (forall i, j | 0 <= i < j < |s.rows| :: s.rows[i].eventId != s.rows[j].eventId)
    && (forall id | 0 <= id < |s.rows| :: RowInv(s.rows[id], s.outcomes[id], s.delivered[id], policy))
    && (forall id | 0 <= id < |s.rows| :: s.leases[id] <= s.nextLease)
    && (forall w :: WorkerInv(s, w))
  }

  lemma ClaimKeeps(s: System, w: Worker, now: real, ids: seq<nat>, policy: RetryPolicy)
    requires Inv(s, policy) && ActivityOf(s, w).Idle?
    requires forall id | id in ids :: id < |s.rows| && !s.rows[id].status.Published? && !s.rows[id].status.Dead?
    ensures Inv(DoClaim(s, w, now, ids), policy)
  {
    var s' := DoClaim(s, w, now, ids);
    forall v ensures WorkerInv(s', v) {
      assert WorkerInv(s, v);
      assert v != w ==> ActivityOf(s', v) == ActivityOf(s, v);
    }
  }

  lemma PublishKeeps(s: System, w: Worker, outcome: Outcome, policy: RetryPolicy)
    requires Inv(s, policy)
    ensures Inv(Next(s, PublishStep(w, outcome), policy), policy)
  {
    var s', a := Next(s, PublishStep(w, outcome), policy), ActivityOf(s, w);
    assert WorkerInv(s, w);
    forall v ensures WorkerInv(s', v) {
      assert WorkerInv(s, v);
      assert v != w ==> ActivityOf(s', v) == ActivityOf(s, v);
    }
  }

  lemma SettleKeeps(row: Row, outs: seq<Outcome>, delivered: nat, now: real, outcome: Outcome, policy: RetryPolicy)
    requires RowInv(row, outs, delivered, policy) && row.status.Publishing?
    requires outcome.Delivered? ==> delivered >= 1
    ensures RowInv(Settle(row, now, outcome, policy), outs + [outcome], delivered, policy)
  {
    assert (outs + [outcome])[..|outs|] == outs;
    assert AllRefused(outs + [outcome]) <==> AllRefused(outs) && outcome.Refused? by {
      assert (outs + [outcome])[|outs|] == outcome;
      assert forall i | 0 <= i < |outs| :: (outs + [outcome])[i] == outs[i];
    }
  }

  lemma SettleReleases(row: Row, now: real, outcome: Outcome, policy: RetryPolicy)
    ensures var settled := Settle(row, now, outcome, policy);
            settled.eventId == row.eventId && !settled.status.Publishing?
  {
  }

  lemma FinalizeKeeps(s: System, w: Worker, policy: RetryPolicy)
    requires Inv(s, policy)
    ensures Inv(Next(s, FinalizeStep(w), policy), policy)
  {
    hide RowInv, Settle;
    var s', a := Next(s, FinalizeStep(w), policy), ActivityOf(s, w);
    assert WorkerInv(s, w);
    if a.Working? && a.called.Some? && Holds(s.rows[a.remaining[0]], w) {
      var id := a.remaining[0];
      SettleKeeps(s.rows[id], s.outcomes[id], s.delivered[id], a.now, a.called.value, policy);
      SettleReleases(s.rows[id], a.now, a.called.value, policy);
    }
    forall v ensures WorkerInv(s', v) {
      assert WorkerInv(s, v);
      assert v != w ==> ActivityOf(s', v) == ActivityOf(s, v);
      assert a.Working? && a.remaining != [] ==> forall id | id in a.remaining[1..] :: id in a.remaining;
    }
  }

  lemma EnqueueKeeps(s: System, eventId: string, now: real, policy: RetryPolicy)
    requires Inv(s, policy)
    ensures Inv(Next(s, EnqueueStep(eventId, now), policy), policy)
  {
    var s' := Next(s, EnqueueStep(eventId, now), policy);
    forall v ensures WorkerInv(s', v) {
      assert WorkerInv(s, v);
      assert ActivityOf(s', v) == ActivityOf(s, v);
    }
    if !Known(s, eventId) {
      forall i | 0 <= i < |s.rows| ensures s.rows[i].eventId != eventId {
        assert s.rows[i] in s.rows;
      }
    }
  }

  lemma ClaimStepKeeps(s: System, w: Worker, now: real, leaseSeconds: int, batchSize: nat, locked: set<nat>,
                       policy: RetryPolicy)
    requires Inv(s, policy)
    ensures Inv(Next(s, ClaimStep(w, now, leaseSeconds, batchSize, locked), policy), policy)
  {
    var ids := Take(ClaimOrder(s.rows, now, Cutoff(now, leaseSeconds), locked), batchSize);
    ClaimedEligible(s.rows, now, Cutoff(now, leaseSeconds), locked, batchSize);
    hide Inv, ClaimOrder, DoClaim, Take;
    if ActivityOf(s, w).Idle? {
      ClaimKeeps(s, w, now, ids, policy);
    }
  }

  lemma CrashKeeps(s: System, w: Worker, policy: RetryPolicy)
    requires Inv(s, policy)
    ensures Inv(Next(s, CrashStep(w), policy), policy)
  {
    hide RowInv;
    var s' := Next(s, CrashStep(w), policy);
    forall v ensures WorkerInv(s', v) {
      assert WorkerInv(s, v);
      assert v != w ==> ActivityOf(s', v) == ActivityOf(s, v);
    }
  }

  lemma StepKeeps(s: System, step: Step, policy: RetryPolicy)
    requires Inv(s, policy)
    ensures Inv(Next(s, step, policy), policy)
  {
    hide Inv, Next;
    match step {
      case EnqueueStep(eventId, now) => EnqueueKeeps(s, eventId, now, policy);
      case ClaimStep(w, now, leaseSeconds, batchSize, locked) =>
        ClaimStepKeeps(s, w, now, leaseSeconds, batchSize, locked, policy);
      case PublishStep(w, outcome) => PublishKeeps(s, w, outcome, policy);
      case FinalizeStep(w) => FinalizeKeeps(s, w, policy);
      case CrashStep(w) => CrashKeeps(s, w, policy);
    }
  }

  lemma {:induction false} ExecKeeps(s: System, steps: seq<Step>, policy: RetryPolicy)
    requires Inv(s, policy)
    ensures Inv(Exec(s, steps, policy), policy)
    decreases |steps|
  {
    hide Inv, Next;
    if steps != [] {
      StepKeeps(s, steps[0], policy);
      ExecKeeps(Next(s, steps[0], policy), steps[1..], policy);
    }
  }

  // ----- Main results, over every run from the empty table -----

  ghost predicate Reachable(s: System, policy: RetryPolicy) {
    exists steps :: s == Exec(EMPTY, steps, policy)
  }

  lemma ReachableInv(s: System, policy: RetryPolicy)
    requires Reachable(s, policy)
    ensures Inv(s, policy)
  {
    var steps :| s == Exec(EMPTY, steps, policy);
    ExecKeeps(EMPTY, steps, policy);
  }

  /** Locks, attempts and terminal states of every row after every run. */
  lemma OutboxRowsConsistent(s: System, id: nat, policy: RetryPolicy)
    requires Reachable(s, policy) && id < |s.rows|
    ensures Shaped(s)
    ensures var row := s.rows[id];
            && (row.status.Publishing? <==> row.lockedAt.Some?)
            && (row.status.Publishing? <==> row.lockedBy.Some?)
    ensures s.rows[id].attempts == |s.outcomes[id]| <= policy.LastAttempt()
    ensures s.rows[id].status.Published? ==> s.delivered[id] >= 1
    ensures s.rows[id].status.Dead? <==>
            s.rows[id].attempts == policy.LastAttempt() && s.outcomes[id][policy.LastAttempt() - 1].Refused?
  {
    ReachableInv(s, policy);
    assert RowInv(s.rows[id], s.outcomes[id], s.delivered[id], policy);
  }

  predicate Terminal(row: Row) {
    row.status.Published? || row.status.Dead?
  }

  lemma TerminalStep(s: System, step: Step, policy: RetryPolicy, id: nat)
    requires Inv(s, policy) && id < |s.rows| && Terminal(s.rows[id])
    ensures var s' := Next(s, step, policy);
            id < |s'.rows| && s'.rows[id] == s.rows[id] && Shaped(s') && s'.outcomes[id] == s.outcomes[id]
  {
    StepKeeps(s, step, policy);
    hide Inv, ClaimOrder, Take;
    assert Shaped(s) && Shaped(Next(s, step, policy)) by { InvShaped(s, policy); InvShaped(Next(s, step, policy), policy); }
    if step.ClaimStep? {
      ClaimedEligible(s.rows, step.now, Cutoff(step.now, step.leaseSeconds), step.locked, step.batchSize);
    }
  }

  lemma InvShaped(s: System, policy: RetryPolicy)
    requires Inv(s, policy)
    ensures Shaped(s)
  {
  }

  /** Published and dead are absorbing: no later step of any worker touches such a row. */
  lemma {:induction false} TerminalForever(s: System, steps: seq<Step>, policy: RetryPolicy, id: nat)
    requires Inv(s, policy) && id < |s.rows| && Terminal(s.rows[id])
    ensures var s' := Exec(s, steps, policy);
            id < |s'.rows| && s'.rows[id] == s.rows[id] && Shaped(s') && s'.outcomes[id] == s.outcomes[id]
    decreases |steps|
  {
    hide Inv, Next;
    if steps == [] {
      InvShaped(s, policy);
    } else {
      TerminalStep(s, steps[0], policy, id);
      StepKeeps(s, steps[0], policy);
      TerminalForever(Next(s, steps[0], policy), steps[1..], policy, id);
    }
  }

  /**
   * An outcome is only ever recorded under the lease the worker itself took: once another claim
   * has renewed the lease of a row, the late worker leaves that row exactly as it is.
   */
  lemma LostLeaseHarmless(s: System, w: Worker, policy: RetryPolicy)
    requires Reachable(s, policy)
    requires ActivityOf(s, w).Working? && ActivityOf(s, w).remaining != []
    ensures var a, s' := ActivityOf(s, w), Next(s, FinalizeStep(w), policy);
            var id := a.remaining[0];
            && id < |s.rows| && Shaped(s)
            && (s.leases[id] != a.lease ==> s'.rows == s.rows && s'.outcomes == s.outcomes)
            && (forall k | 0 <= k < |s.rows| && k != id :: s'.rows[k] == s.rows[k])
  {
    ReachableInv(s, policy);
    assert WorkerInv(s, w);
    assert ActivityOf(s, w).remaining[0] in ActivityOf(s, w).remaining;
  }

  /** Every unfinished event becomes claimable once enough time has passed, whatever the lease length. */
  lemma UnfinishedClaimable(s: System, id: nat, leaseSeconds: int, policy: RetryPolicy) returns (due: real)
    requires Reachable(s, policy) && id < |s.rows| && !Terminal(s.rows[id])
    ensures forall now: real, locked: set<nat> | now >= due && id !in locked ::
              id in ClaimOrder(s.rows, now, Cutoff(now, leaseSeconds), locked)
  {
    ReachableInv(s, policy);
    var row := s.rows[id];
    assert RowInv(row, s.outcomes[id], s.delivered[id], policy);
    due := if row.status.Publishing?
           then row.lockedAt.value + (if leaseSeconds < 30 then 30.0 else leaseSeconds as real)
           else row.availableAt;
    forall now: real, locked: set<nat> | now >= due && id !in locked
      ensures id in ClaimOrder(s.rows, now, Cutoff(now, leaseSeconds), locked)
    {
      EligibleIdsExact(s.rows, |s.rows|, now, Cutoff(now, leaseSeconds), locked, id);
      InClaimOrder(s.rows, now, Cutoff(now, leaseSeconds), locked, id);
    }
  }

  lemma InClaimOrder(rows: seq<Row>, now: real, cutoff: real, locked: set<nat>, id: nat)
    requires id in EligibleIds(rows, |rows|, now, cutoff, locked)
    ensures id in ClaimOrder(rows, now, cutoff, locked)
  {
    hide EligibleIds, Earlier;
    assert id in multiset(ClaimOrder(rows, now, cutoff, locked));
  }
}
