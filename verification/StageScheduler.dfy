/** Fair admission of ready stage runs under five concurrent limits (shared/stage_scheduler.py). */
module StageScheduler {
  import opened Arithmetic
  import opened Results
  import opened StageContracts
  import Ordering
  import Sequences

  type Positive = n: int | 1 <= n witness 1

  datatype Allocation = Allocation(
    runId: string, missionId: int, owner: string, stage: Stage, resourceClass: string, units: Positive)

  /** A queued run: the allocation it asks for and its creation time. */
  datatype Candidate = Candidate(run: Allocation, createdAt: int)

  datatype Limits = Limits(
    globalActive: Positive, perOwnerActive: Positive, perMissionActive: Positive,
    resourceActive: map<string, Positive>, ownerActive: map<string, Positive>)
  {
    function OwnerLimit(owner: string): Positive {
      if owner in ownerActive then ownerActive[owner] else perOwnerActive
    }
  }

  predicate KeyLeq(a: Candidate, b: Candidate) {
    a.createdAt < b.createdAt || (a.createdAt == b.createdAt && Ordering.StringLeq(a.run.runId, b.run.runId))
  }

  lemma KeyLeqTotalPreorder()
    ensures Ordering.TotalPreorder(KeyLeq)
  {
    Ordering.StringLeqTotalPreorder();
    assert forall x: string, y: string :: Ordering.StringLeq(x, y) || Ordering.StringLeq(y, x);
    forall x, y, z | KeyLeq(x, y) && KeyLeq(y, z) ensures KeyLeq(x, z) {
      if x.createdAt == z.createdAt {
        Ordering.StringLeqTransitive(x.run.runId, y.run.runId, z.run.runId);
      }
    }
  }

  // ----- What is running: counters as functions of the list of allocations -----

  type Load = seq<Allocation>

  function UnitsOf(load: Load): nat {
    if load == [] then 0 else UnitsOf(load[..|load| - 1]) + load[|load| - 1].units
  }

  function ClassUnits(load: Load, class_: string): nat {
    if load == [] then 0
    else
      ClassUnits(load[..|load| - 1], class_)
      + if load[|load| - 1].resourceClass == class_ then load[|load| - 1].units else 0
  }

  function OwnerCount(load: Load, owner: string): nat {
    if load == [] then 0
    else OwnerCount(load[..|load| - 1], owner) + if load[|load| - 1].owner == owner then 1 else 0
  }

  function OnMission(load: Load, mission: int): Load {
    if load == [] then []
    else OnMission(load[..|load| - 1], mission)
         + if load[|load| - 1].missionId == mission then [load[|load| - 1]] else []
  }

  function Available(run: Allocation, load: Load, limits: Limits): int {
    var spare := limits.globalActive - UnitsOf(load);
    if run.resourceClass in limits.resourceActive
    then Min(spare, limits.resourceActive[run.resourceClass] - ClassUnits(load, run.resourceClass))
    else spare
  }

  ghost predicate Admissible(run: Allocation, load: Load, limits: Limits) {
    && OwnerCount(load, run.owner) < limits.OwnerLimit(run.owner)
    && |OnMission(load, run.missionId)| < limits.perMissionActive
    && (forall a | a in OnMission(load, run.missionId) :: Independent(run.stage, a.stage))
    && Available(run, load, limits) > 0
  }

  /** Growing the load never makes a blocked run admissible: skipped runs stay skipped. */
  lemma BlockedForever(run: Allocation, load: Load, extra: Allocation, limits: Limits)
    requires Admissible(run, load + [extra], limits)
    ensures Admissible(run, load, limits)
  {
    assert (load + [extra])[..|load|] == load;
  }

  ghost predicate Blocked(queue: seq<Candidate>, load: Load, limits: Limits) {
    forall c | c in queue :: !Admissible(c.run, load, limits)
  }

  // ----- The reference schedule: rescan each owner's queue from its head -----

  datatype Selection = Selection(request: Candidate, granted: Candidate)

  datatype Progress = Progress(chosen: seq<Selection>, queues: map<string, seq<Candidate>>)

  function LoadAfter(active: Load, chosen: seq<Selection>): Load {
    if chosen == [] then active
    else LoadAfter(active, chosen[..|chosen| - 1]) + [chosen[|chosen| - 1].granted.run]
  }

  ghost function FirstAdmissible(queue: seq<Candidate>, load: Load, limits: Limits): (k: nat)
    ensures k <= |queue| && Blocked(queue[..k], load, limits)
    ensures k < |queue| ==> Admissible(queue[k].run, load, limits)
  {
    if queue == [] || Admissible(queue[0].run, load, limits) then 0
    else
      var k := 1 + FirstAdmissible(queue[1..], load, limits);
      assert forall c | c in queue[..k] :: c == queue[0] || c in queue[1..][..k - 1];
      k
  }

  function Grant(c: Candidate, load: Load, limits: Limits): Candidate
    requires Available(c.run, load, limits) > 0
  {
    c.(run := c.run.(units := Min(c.run.units, Available(c.run, load, limits))))
  }

  ghost function Visit(owner: string, st: Progress, active: Load, limits: Limits): (st': Progress)
    requires owner in st.queues
    ensures st'.queues.Keys == st.queues.Keys
  {
    var load, queue := LoadAfter(active, st.chosen), st.queues[owner];
    var k := FirstAdmissible(queue, load, limits);
    if k == |queue| then st
    else Progress(st.chosen + [Selection(queue[k], Grant(queue[k], load, limits))],
                  st.queues[owner := queue[..k] + queue[k + 1..]])
  }

  ghost predicate Owners(order: seq<string>, st: Progress) {
    forall o | o in order :: o in st.queues
  }

  /** One turn for every owner; an owner keeps its place while it still has queued runs. */
  ghost function Round(order: seq<string>, st: Progress, active: Load, limits: Limits): (r: (Progress, seq<string>))
    requires Owners(order, st)
    ensures Owners(r.1, r.0) && r.0.queues.Keys == st.queues.Keys
  {
    if order == [] then (st, [])
    else
      var st1 := Visit(order[0], st, active, limits);
      var r := Round(order[1..], st1, active, limits);
      (r.0, (if st1.queues[order[0]] != [] then [order[0]] else []) + r.1)
  }

  ghost function Queued(order: seq<string>, st: Progress): nat
    requires Owners(order, st)
  {
    if order == [] then 0 else |st.queues[order[0]]| + Queued(order[1..], st)
  }

  ghost predicate Distinct(order: seq<string>) {
    forall i, j | 0 <= i < j < |order| :: order[i] != order[j]
  }

  ghost function Rounds(order: seq<string>, st: Progress, active: Load, limits: Limits): Progress
    requires Owners(order, st) && Distinct(order)
    decreases Queued(order, st)
  {
    if order == [] || UnitsOf(LoadAfter(active, st.chosen)) >= limits.globalActive then st
    else
      var r := Round(order, st, active, limits);
      RoundShrinks(order, st, active, limits);
      RoundFrame(order, st, active, limits);
      RoundGrows(order, st, active, limits);
      if |r.0.chosen| == |st.chosen| then r.0 else Rounds(r.1, r.0, active, limits)
  }

  lemma QueuedUnchanged(order: seq<string>, st: Progress, st': Progress)
    requires Owners(order, st) && Owners(order, st')
    requires forall o | o in order :: st.queues[o] == st'.queues[o]
    ensures Queued(order, st) == Queued(order, st')
  {
    if order != [] {
      QueuedUnchanged(order[1..], st, st');
    }
  }

  lemma {:induction false} RoundFrame(order: seq<string>, st: Progress, active: Load, limits: Limits)
    requires Owners(order, st)
    ensures var r := Round(order, st, active, limits);
            && (forall o | o in r.1 :: o in order)
            && (Distinct(order) ==> Distinct(r.1))
            && (forall o | o in st.queues && o !in order :: r.0.queues[o] == st.queues[o])
  {
    hide FirstAdmissible, LoadAfter, Grant;
    if order != [] {
      var o, rest := order[0], order[1..];
      var st1 := Visit(o, st, active, limits);
      RoundFrame(rest, st1, active, limits);
      var r := Round(rest, st1, active, limits);
      assert forall o' | o' in rest :: o' in order;
      assert forall o' | o' in st.queues && o' != o :: st1.queues[o'] == st.queues[o'];
      if Distinct(order) {
        TailDistinct(order);
        DistinctHead(o, r.1);
      }
    }
  }

  lemma TailDistinct(order: seq<string>)
    requires Distinct(order) && order != []
    ensures Distinct(order[1..]) && order[0] !in order[1..]
  {
    assert forall i | 0 <= i < |order[1..]| :: order[1..][i] == order[i + 1];
  }

  lemma DistinctHead(o: string, order: seq<string>)
    requires Distinct(order) && o !in order
    ensures Distinct([o] + order) && Distinct([] + order)
  {
    Sequences.AppendNothing(order);
    Sequences.DistinctCons(o, order);
  }

  lemma {:induction false} RoundGrows(order: seq<string>, st: Progress, active: Load, limits: Limits)
    requires Owners(order, st)
    ensures st.chosen <= Round(order, st, active, limits).0.chosen
  {
    hide FirstAdmissible, LoadAfter, Grant;
    if order != [] {
      RoundGrows(order[1..], Visit(order[0], st, active, limits), active, limits);
    }
  }

  /** Only owners whose queue ran empty leave the rotation. */
  lemma {:induction false} RoundDropsEmpty(order: seq<string>, st: Progress, active: Load, limits: Limits)
    requires Owners(order, st) && Distinct(order)
    ensures var r := Round(order, st, active, limits);
            forall o | o in order && o !in r.1 :: r.0.queues[o] == []
  {
    hide FirstAdmissible, LoadAfter, Grant;
    if order != [] {
      var st1 := Visit(order[0], st, active, limits);
      RoundDropsEmpty(order[1..], st1, active, limits);
      RoundFrame(order[1..], st1, active, limits);
    }
  }

  /** Every pick removes one queued run, so the outer loop ends. */
  lemma {:induction false} RoundShrinks(order: seq<string>, st: Progress, active: Load, limits: Limits)
    requires Owners(order, st) && Distinct(order)
    ensures var r := Round(order, st, active, limits);
            Queued(r.1, r.0) + |r.0.chosen| == Queued(order, st) + |st.chosen|
  {
    hide FirstAdmissible, LoadAfter, Grant, Distinct;
    if order != [] {
      var o, rest := order[0], order[1..];
      var st1 := Visit(o, st, active, limits);
      TailDistinct(order);
      QueuedUnchanged(rest, st, st1);
      RoundShrinks(rest, st1, active, limits);
      RoundFrame(rest, st1, active, limits);
      var r := Round(rest, st1, active, limits);
      Sequences.ConsTail(o, r.1);
      Sequences.AppendNothing(r.1);
    }
  }

  function OwnerQueue(sorted: seq<Candidate>, owner: string): seq<Candidate> {
    if sorted == [] then []
    else OwnerQueue(sorted[..|sorted| - 1], owner)
         + if sorted[|sorted| - 1].run.owner == owner then [sorted[|sorted| - 1]] else []
  }

  /** Owners by their oldest queued run, as the insertion order of the grouping dictionary. */
  function OwnerOrder(sorted: seq<Candidate>): seq<string> {
    if sorted == [] then []
    else
      var order, owner := OwnerOrder(sorted[..|sorted| - 1]), sorted[|sorted| - 1].run.owner;
      if owner in order then order else order + [owner]
  }

  function OwnerQueues(sorted: seq<Candidate>): map<string, seq<Candidate>> {
    map o | o in OwnerOrder(sorted) :: OwnerQueue(sorted, o)
  }

  lemma {:induction false} OwnerOrderDistinct(sorted: seq<Candidate>)
    ensures Distinct(OwnerOrder(sorted))
    ensures forall c | c in sorted :: c.run.owner in OwnerOrder(sorted)
    ensures forall o :: OwnerQueue(sorted, o) != [] <==> o in OwnerOrder(sorted)
  {
    if sorted != [] {
      OwnerOrderDistinct(sorted[..|sorted| - 1]);
      assert forall c | c in sorted :: c == sorted[|sorted| - 1] || c in sorted[..|sorted| - 1];
    }
  }

  ghost function Schedule(candidates: seq<Candidate>, active: Load, limits: Limits): Progress {
    var sorted := Ordering.Sort(KeyLeq, candidates);
    OwnerOrderDistinct(sorted);
    Rounds(OwnerOrder(sorted), Progress([], OwnerQueues(sorted)), active, limits)
  }

  // ----- Invariants of the schedule -----

  function Requests(chosen: seq<Selection>, owner: string): seq<Candidate> {
    if chosen == [] then []
    else Requests(chosen[..|chosen| - 1], owner)
         + if chosen[|chosen| - 1].request.run.owner == owner then [chosen[|chosen| - 1].request] else []
  }

  /** Every pick was admissible when it was made, and was granted what was then available. */
  ghost predicate Sound(chosen: seq<Selection>, active: Load, limits: Limits) {
    forall t | 0 <= t < |chosen| ::
      var load := LoadAfter(active, chosen[..t]);
      Admissible(chosen[t].request.run, load, limits) && chosen[t].granted == Grant(chosen[t].request, load, limits)
  }

  ghost predicate Accounted(st: Progress, sorted: seq<Candidate>) {
    forall o | o in st.queues ::
      multiset(Requests(st.chosen, o)) + multiset(st.queues[o]) == multiset(OwnerQueue(sorted, o))
  }

  /** Picks of one owner are in key order, and whatever could still be picked comes after them. */
  ghost predicate InOrder(st: Progress, active: Load, limits: Limits) {
    forall o | o in st.queues ::
      && Ordering.SortedBy(KeyLeq, Requests(st.chosen, o))
      && Ordering.SortedBy(KeyLeq, st.queues[o])
      && forall x, c | x in Requests(st.chosen, o) && c in st.queues[o] ::
           Admissible(c.run, LoadAfter(active, st.chosen), limits) ==> KeyLeq(x, c)
  }

  /** No run that stays behind could have been admitted before a later pick of its owner. */
  ghost predicate HeadFirst(st: Progress, active: Load, limits: Limits) {
    forall t, c | 0 <= t < |st.chosen| && st.chosen[t].request.run.owner in st.queues
                  && c in st.queues[st.chosen[t].request.run.owner]
                  && Admissible(c.run, LoadAfter(active, st.chosen[..t]), limits) ::
      KeyLeq(st.chosen[t].request, c)
  }

  function Picks(chosen: seq<Selection>, owner: string): nat {
    |Requests(chosen, owner)|
  }

  /** An owner gets a second pick over another only when the other has nothing admissible left. */
  ghost predicate Fair(st: Progress, active: Load, limits: Limits) {
    forall t, o | 0 <= t < |st.chosen| && o in st.queues
                  && Picks(st.chosen[..t], st.chosen[t].request.run.owner) > Picks(st.chosen, o) ::
      Blocked(st.queues[o], LoadAfter(active, st.chosen[..t]), limits)
  }

  ghost predicate OwnQueues(st: Progress) {
    && (forall o, c | o in st.queues && c in st.queues[o] :: c.run.owner == o)
    && (forall s | s in st.chosen :: s.request.run.owner in st.queues)
  }

  ghost predicate Inv(st: Progress, sorted: seq<Candidate>, active: Load, limits: Limits) {
    && OwnQueues(st)
    && Sound(st.chosen, active, limits)
    && Accounted(st, sorted)
    && InOrder(st, active, limits)
    && Fair(st, active, limits)
    && HeadFirst(st, active, limits)
  }

  /** During round r: whoever still waits has at most r picks, and fewer only if it is blocked. */
  ghost predicate Turns(st: Progress, waiting: seq<string>, r: nat, active: Load, limits: Limits) {
    forall o | o in st.queues ::
      var turns := if o in waiting then r else r + 1;
      && Picks(st.chosen, o) <= turns
      && (Picks(st.chosen, o) < turns ==> Blocked(st.queues[o], LoadAfter(active, st.chosen), limits))
  }

  lemma ChosenSnoc(chosen: seq<Selection>, s: Selection, active: Load, owner: string)
    ensures LoadAfter(active, chosen + [s]) == LoadAfter(active, chosen) + [s.granted.run]
    ensures Requests(chosen + [s], owner)
         == Requests(chosen, owner) + if s.request.run.owner == owner then [s.request] else []
  {
    Sequences.DropSnoc(chosen, s);
  }

  lemma BlockedLater(queue: seq<Candidate>, load: Load, extra: Allocation, limits: Limits)
    requires Blocked(queue, load, limits)
    ensures Blocked(queue, load + [extra], limits)
  {
    forall c | c in queue ensures !Admissible(c.run, load + [extra], limits) {
      if Admissible(c.run, load + [extra], limits) {
        BlockedForever(c.run, load, extra, limits);
      }
    }
  }

  /** The visit that picks: queue position k, known to be the first admissible one. */
  ghost predicate Pick(owner: string, st: Progress, st': Progress, k: nat, active: Load, limits: Limits) {
    && owner in st.queues
    && k < |st.queues[owner]|
    && var queue, load := st.queues[owner], LoadAfter(active, st.chosen);
       && Blocked(queue[..k], load, limits)
       && Admissible(queue[k].run, load, limits)
       && st' == Progress(st.chosen + [Selection(queue[k], Grant(queue[k], load, limits))],
                          st.queues[owner := queue[..k] + queue[k + 1..]])
  }

  lemma VisitCases(owner: string, st: Progress, active: Load, limits: Limits) returns (k: nat)
    requires owner in st.queues
    ensures var st' := Visit(owner, st, active, limits);
            || (k == |st.queues[owner]| && st' == st
                && Blocked(st.queues[owner], LoadAfter(active, st.chosen), limits))
            || Pick(owner, st, st', k, active, limits)
  {
    k := FirstAdmissible(st.queues[owner], LoadAfter(active, st.chosen), limits);
    assert st.queues[owner][..|st.queues[owner]|] == st.queues[owner];
  }

  lemma PickRemoves(queue: seq<Candidate>, k: nat)
    requires k < |queue|
    ensures var rest := queue[..k] + queue[k + 1..];
            && multiset([queue[k]]) + multiset(rest) == multiset(queue)
            && (forall c | c in rest :: c in queue)
            && (forall c | c in queue :: c == queue[k] || c in rest)
  {
    assert queue == queue[..k] + [queue[k]] + queue[k + 1..];
  }

  lemma PickKeepsOwners(owner: string, st: Progress, st': Progress, k: nat, active: Load, limits: Limits)
    requires Pick(owner, st, st', k, active, limits) && OwnQueues(st)
    ensures OwnQueues(st')
  {
    hide Blocked, Admissible, Grant, LoadAfter;
    PickRemoves(st.queues[owner], k);
  }

  lemma AccountStep(taken: seq<Candidate>, queue: seq<Candidate>, k: nat, all: seq<Candidate>)
    requires k < |queue| && multiset(taken) + multiset(queue) == multiset(all)
    ensures multiset(taken + [queue[k]]) + multiset(queue[..k] + queue[k + 1..]) == multiset(all)
  {
    PickRemoves(queue, k);
  }

  lemma PickKeepsAccounts(owner: string, st: Progress, st': Progress, k: nat, sorted: seq<Candidate>,
                          active: Load, limits: Limits)
    requires Pick(owner, st, st', k, active, limits) && OwnQueues(st) && Accounted(st, sorted)
    ensures Accounted(st', sorted)
  {
    hide Blocked, Admissible, Grant, LoadAfter, OwnerQueue, Requests;
    var s := st'.chosen[|st.chosen|];
    assert s.request in st.queues[owner];
    forall o | o in st'.queues
      ensures multiset(Requests(st'.chosen, o)) + multiset(st'.queues[o]) == multiset(OwnerQueue(sorted, o))
    {
      ChosenSnoc(st.chosen, s, active, o);
      if o == owner {
        AccountStep(Requests(st.chosen, o), st.queues[o], k, OwnerQueue(sorted, o));
      } else {
        assert Requests(st.chosen, o) + [] == Requests(st.chosen, o);
      }
    }
  }

  lemma PickKeepsSound(owner: string, st: Progress, st': Progress, k: nat, active: Load, limits: Limits)
    requires Pick(owner, st, st', k, active, limits) && Sound(st.chosen, active, limits)
    ensures Sound(st'.chosen, active, limits)
  {
    hide Admissible, Grant, LoadAfter, Blocked;
    forall t | 0 <= t < |st'.chosen| ensures st'.chosen[..t] == st.chosen[..t] {
    }
    Sequences.PrefixAll(st.chosen);
  }

  lemma PickKeepsOrder(owner: string, st: Progress, st': Progress, k: nat, active: Load, limits: Limits)
    requires Pick(owner, st, st', k, active, limits) && OwnQueues(st) && InOrder(st, active, limits)
    ensures InOrder(st', active, limits)
  {
    var s, load := st'.chosen[|st.chosen|], LoadAfter(active, st.chosen);
    hide Grant, Available, LoadAfter, Requests, Admissible, KeyLeq;
    forall o | o in st'.queues
      ensures Ordering.SortedBy(KeyLeq, Requests(st'.chosen, o))
      ensures Ordering.SortedBy(KeyLeq, st'.queues[o])
      ensures forall x, c | x in Requests(st'.chosen, o) && c in st'.queues[o] ::
                Admissible(c.run, LoadAfter(active, st'.chosen), limits) ==> KeyLeq(x, c)
    {
      ChosenSnoc(st.chosen, s, active, o);
      forall c: Candidate | Admissible(c.run, LoadAfter(active, st'.chosen), limits)
        ensures Admissible(c.run, load, limits)
      {
        BlockedForever(c.run, load, s.granted.run, limits);
      }
      if o == owner {
        var queue := st.queues[o];
        RemainderAfter(queue, k, load, limits);
        assert queue[k] in queue;
      }
    }
  }

  /** In a sorted queue whose first k runs are blocked, what is still admissible follows the k-th. */
  lemma RemainderAfter(queue: seq<Candidate>, k: nat, load: Load, limits: Limits)
    requires k < |queue| && Ordering.SortedBy(KeyLeq, queue) && Blocked(queue[..k], load, limits)
    ensures var rest := queue[..k] + queue[k + 1..];
            && Ordering.SortedBy(KeyLeq, rest)
            && (forall c | c in rest :: c in queue)
            && (forall c | c in rest && Admissible(c.run, load, limits) :: KeyLeq(queue[k], c))
  {
    hide Admissible, KeyLeq;
    PickRemoves(queue, k);
    forall c | c in queue[k + 1..] ensures KeyLeq(queue[k], c) {
      var i :| 0 <= i < |queue[k + 1..]| && queue[k + 1..][i] == c;
      assert queue[k + 1 + i] == c;
    }
  }

  /** The newest pick: its owner had at most r picks, so a rival further behind is blocked. */
  lemma NewestPickFair(owner: string, waiting: seq<string>, r: nat, st: Progress, rival: string,
                       active: Load, limits: Limits)
    requires owner in waiting && owner in st.queues && rival in st.queues
    requires Turns(st, waiting, r, active, limits)
    requires Picks(st.chosen, owner) > Picks(st.chosen, rival)
    ensures Blocked(st.queues[rival], LoadAfter(active, st.chosen), limits)
  {
    hide Blocked, LoadAfter, Picks;
    assert Picks(st.chosen, owner) <= r;
  }

  lemma PickKeepsFair(owner: string, waiting: seq<string>, r: nat, st: Progress, st': Progress, k: nat,
                      active: Load, limits: Limits)
    requires Pick(owner, st, st', k, active, limits) && OwnQueues(st)
    requires Fair(st, active, limits) && Turns(st, waiting, r, active, limits) && owner in waiting
    ensures Fair(st', active, limits)
  {
    hide Pick, OwnQueues, Picks, LoadAfter, Turns, Blocked;
    var s := PickFacts(owner, st, st', k, active, limits);
    var n := |st.chosen|;
    Sequences.PrefixAll(st.chosen);
    Sequences.DropSnoc(st.chosen, s);
    forall t, o | 0 <= t < |st'.chosen| && o in st'.queues
                  && Picks(st'.chosen[..t], st'.chosen[t].request.run.owner) > Picks(st'.chosen, o)
      ensures Blocked(st'.queues[o], LoadAfter(active, st'.chosen[..t]), limits)
    {
      MorePicks(st.chosen, s, active, o);
      assert st'.chosen[..t] == st.chosen[..t];
      if t == n {
        NewestPickFair(owner, waiting, r, st, o, active, limits);
      } else {
        assert Blocked(st.queues[o], LoadAfter(active, st.chosen[..t]), limits);
      }
      BlockedWithin(st.queues[o], st'.queues[o], LoadAfter(active, st.chosen[..t]), limits);
    }
  }

  lemma PickKeepsHeads(owner: string, st: Progress, st': Progress, k: nat, active: Load, limits: Limits)
    requires Pick(owner, st, st', k, active, limits) && OwnQueues(st)
    requires HeadFirst(st, active, limits) && InOrder(st, active, limits)
    ensures HeadFirst(st', active, limits)
  {
    hide Pick, OwnQueues, LoadAfter, Blocked, InOrder, Admissible, KeyLeq;
    NewestIsHead(owner, st, st', k, active, limits);
    var s := PickFacts(owner, st, st', k, active, limits);
    Sequences.PrefixAll(st.chosen);
    Sequences.DropSnoc(st.chosen, s);
    forall t, c | 0 <= t < |st'.chosen| && st'.chosen[t].request.run.owner in st'.queues
                  && c in st'.queues[st'.chosen[t].request.run.owner]
                  && Admissible(c.run, LoadAfter(active, st'.chosen[..t]), limits)
      ensures KeyLeq(st'.chosen[t].request, c)
    {
      assert st'.chosen[..t] == st.chosen[..t];
    }
  }

  lemma NewestIsHead(owner: string, st: Progress, st': Progress, k: nat, active: Load, limits: Limits)
    requires Pick(owner, st, st', k, active, limits) && InOrder(st, active, limits)
    ensures st'.chosen[..|st.chosen|] == st.chosen
    ensures forall c | c in st'.queues[owner] && Admissible(c.run, LoadAfter(active, st.chosen), limits) ::
              KeyLeq(st'.chosen[|st.chosen|].request, c)
  {
    hide Admissible, Grant, LoadAfter, Requests, KeyLeq;
    RemainderAfter(st.queues[owner], k, LoadAfter(active, st.chosen), limits);
  }

  lemma PickFacts(owner: string, st: Progress, st': Progress, k: nat, active: Load, limits: Limits) returns (s: Selection)
    requires Pick(owner, st, st', k, active, limits) && OwnQueues(st)
    ensures st'.chosen == st.chosen + [s] && s.request.run.owner == owner
    ensures owner in st.queues && st'.queues.Keys == st.queues.Keys
    ensures forall o, c | o in st'.queues && c in st'.queues[o] :: c in st.queues[o]
  {
    hide Blocked, Admissible, LoadAfter;
    s := st'.chosen[|st.chosen|];
    PickRemoves(st.queues[owner], k);
    assert st.queues[owner][k] in st.queues[owner];
  }

  lemma MorePicks(chosen: seq<Selection>, s: Selection, active: Load, owner: string)
    ensures Picks(chosen + [s], owner) >= Picks(chosen, owner)
  {
    hide LoadAfter, Requests;
    ChosenSnoc(chosen, s, active, owner);
  }

  lemma BlockedWithin(queue: seq<Candidate>, part: seq<Candidate>, load: Load, limits: Limits)
    requires Blocked(queue, load, limits) && forall c | c in part :: c in queue
    ensures Blocked(part, load, limits)
  {
    hide Admissible;
  }

  lemma PickKeepsTurns(owner: string, waiting: seq<string>, r: nat, st: Progress, st': Progress, k: nat,
                       active: Load, limits: Limits)
    requires Pick(owner, st, st', k, active, limits) && OwnQueues(st)
    requires Turns(st, [owner] + waiting, r, active, limits) && owner !in waiting
    ensures Turns(st', waiting, r, active, limits)
  {
    var s := st'.chosen[|st.chosen|];
    forall o | o in st'.queues
      ensures var turns := if o in waiting then r else r + 1;
              && Picks(st'.chosen, o) <= turns
              && (Picks(st'.chosen, o) < turns ==> Blocked(st'.queues[o], LoadAfter(active, st'.chosen), limits))
    {
      ChosenSnoc(st.chosen, s, active, o);
      assert s.request.run.owner == owner;
      if o == owner {
        assert o in [owner] + waiting;
        assert st.queues[o][k] in st.queues[o];
        assert !Blocked(st.queues[o], LoadAfter(active, st.chosen), limits);
      } else if Blocked(st.queues[o], LoadAfter(active, st.chosen), limits) {
        BlockedLater(st.queues[o], LoadAfter(active, st.chosen), s.granted.run, limits);
      }
    }
  }

  lemma IdleKeepsTurns(owner: string, waiting: seq<string>, r: nat, st: Progress, active: Load, limits: Limits)
    requires owner in st.queues && Blocked(st.queues[owner], LoadAfter(active, st.chosen), limits)
    requires Turns(st, [owner] + waiting, r, active, limits)
    ensures Turns(st, waiting, r, active, limits)
  {
    hide Blocked, LoadAfter;
    forall o | o in st.queues && o !in waiting && o in [owner] + waiting ensures o == owner {
    }
  }

  lemma VisitKeeps(owner: string, waiting: seq<string>, r: nat, st: Progress, sorted: seq<Candidate>,
                   active: Load, limits: Limits)
    requires owner in st.queues && owner !in waiting
    requires Inv(st, sorted, active, limits) && Turns(st, [owner] + waiting, r, active, limits)
    ensures Inv(Visit(owner, st, active, limits), sorted, active, limits)
    ensures Turns(Visit(owner, st, active, limits), waiting, r, active, limits)
  {
    var k := VisitCases(owner, st, active, limits);
    var st' := Visit(owner, st, active, limits);
    hide Visit, FirstAdmissible, Blocked, Sound, Accounted, InOrder, Fair, OwnQueues, LoadAfter, Grant, Available, Turns,
         HeadFirst;
    if st' == st {
      IdleKeepsTurns(owner, waiting, r, st, active, limits);
    } else {
      PickKeepsOwners(owner, st, st', k, active, limits);
      PickKeepsAccounts(owner, st, st', k, sorted, active, limits);
      PickKeepsSound(owner, st, st', k, active, limits);
      PickKeepsOrder(owner, st, st', k, active, limits);
      PickKeepsFair(owner, [owner] + waiting, r, st, st', k, active, limits);
      PickKeepsTurns(owner, waiting, r, st, st', k, active, limits);
      PickKeepsHeads(owner, st, st', k, active, limits);
    }
  }

  lemma {:induction false} RoundKeeps(order: seq<string>, r: nat, st: Progress, sorted: seq<Candidate>,
                                      active: Load, limits: Limits)
    requires Owners(order, st) && Distinct(order)
    requires Inv(st, sorted, active, limits) && Turns(st, order, r, active, limits)
    ensures var st' := Round(order, st, active, limits).0;
            Inv(st', sorted, active, limits) && Turns(st', [], r, active, limits)
  {
    hide Visit, Inv;
    if order != [] {
      assert order == [order[0]] + order[1..];
      VisitKeeps(order[0], order[1..], r, st, sorted, active, limits);
      RoundKeeps(order[1..], r, Visit(order[0], st, active, limits), sorted, active, limits);
    }
  }

  /** Nothing left in a queue could still be admitted. */
  ghost predicate Exhausted(st: Progress, active: Load, limits: Limits) {
    forall o | o in st.queues :: Blocked(st.queues[o], LoadAfter(active, st.chosen), limits)
  }

  lemma {:induction false} RoundsKeep(order: seq<string>, r: nat, st: Progress, sorted: seq<Candidate>,
                                      active: Load, limits: Limits)
    requires Owners(order, st) && Distinct(order)
    requires forall o | o in st.queues && o !in order :: st.queues[o] == []
    requires Inv(st, sorted, active, limits) && Turns(st, order, r, active, limits)
    ensures var st' := Rounds(order, st, active, limits);
            && st'.queues.Keys == st.queues.Keys
            && Inv(st', sorted, active, limits)
            && Exhausted(st', active, limits)
    decreases Queued(order, st)
  {
    hide Round, Inv, Visit;
    if order != [] && UnitsOf(LoadAfter(active, st.chosen)) < limits.globalActive {
      var next := Round(order, st, active, limits);
      RoundShrinks(order, st, active, limits);
      RoundFrame(order, st, active, limits);
      RoundGrows(order, st, active, limits);
      RoundDropsEmpty(order, st, active, limits);
      RoundKeeps(order, r, st, sorted, active, limits);
      if |next.0.chosen| > |st.chosen| {
        assert Turns(next.0, next.1, r + 1, active, limits);
        RoundsKeep(next.1, r + 1, next.0, sorted, active, limits);
      } else {
        assert next.0.chosen == st.chosen;
      }
    }
  }

  lemma {:induction false} OwnerQueueSorted(sorted: seq<Candidate>, owner: string)
    requires Ordering.SortedBy(KeyLeq, sorted)
    ensures Ordering.SortedBy(KeyLeq, OwnerQueue(sorted, owner))
    ensures forall c | c in OwnerQueue(sorted, owner) :: c in sorted && c.run.owner == owner
  {
    if sorted != [] {
      var n := |sorted| - 1;
      OwnerQueueSorted(sorted[..n], owner);
      hide KeyLeq;
      forall c | c in OwnerQueue(sorted[..n], owner) ensures KeyLeq(c, sorted[n]) {
        var i :| 0 <= i < n && sorted[..n][i] == c;
        assert KeyLeq(sorted[i], sorted[n]);
      }
    }
  }

  lemma InitialInvariant(sorted: seq<Candidate>, active: Load, limits: Limits)
    requires Ordering.SortedBy(KeyLeq, sorted)
    ensures var st := Progress([], OwnerQueues(sorted));
            Inv(st, sorted, active, limits) && Turns(st, OwnerOrder(sorted), 0, active, limits)
  {
    hide KeyLeq, Blocked, Admissible, OwnerQueue, OwnerOrder;
    var st := Progress([], OwnerQueues(sorted));
    forall o | o in st.queues
      ensures Ordering.SortedBy(KeyLeq, st.queues[o])
      ensures forall c | c in st.queues[o] :: c.run.owner == o
    {
      OwnerQueueSorted(sorted, o);
    }
  }

  lemma ScheduleInvariant(candidates: seq<Candidate>, active: Load, limits: Limits)
    ensures var st := Schedule(candidates, active, limits);
            && (forall c | c in candidates :: c.run.owner in st.queues)
            && Inv(st, Ordering.Sort(KeyLeq, candidates), active, limits)
            && Exhausted(st, active, limits)
  {
    var sorted := Ordering.Sort(KeyLeq, candidates);
    KeyLeqTotalPreorder();
    Ordering.SortSorted(KeyLeq, candidates);
    InitialInvariant(sorted, active, limits);
    OwnerOrderDistinct(sorted);
    hide Inv, Turns, Exhausted, KeyLeq, Rounds, OwnerOrder, OwnerQueue, Ordering.Sort;
    forall c | c in candidates ensures c in sorted {
      assert c in multiset(sorted);
    }
    RoundsKeep(OwnerOrder(sorted), 0, Progress([], OwnerQueues(sorted)), sorted, active, limits);
  }

  // ----- Main results -----

  /** The allocations in force after the schedule: the active ones, then each granted run. */
  ghost function FinalLoad(candidates: seq<Candidate>, active: Load, limits: Limits): Load {
    LoadAfter(active, Schedule(candidates, active, limits).chosen)
  }

  ghost predicate WithinLimits(load: Load, active: Load, limits: Limits) {
    && UnitsOf(load) <= Max(limits.globalActive, UnitsOf(active))
    && (forall r | r in limits.resourceActive ::
          ClassUnits(load, r) <= Max(limits.resourceActive[r], ClassUnits(active, r)))
    && (forall o :: OwnerCount(load, o) <= Max(limits.OwnerLimit(o), OwnerCount(active, o)))
    && (forall m :: |OnMission(load, m)| <= Max(limits.perMissionActive, |OnMission(active, m)|))
  }

  /** Every pair on one mission that involves a newly selected run is independent in the graph. */
  ghost predicate NewPairsIndependent(load: Load, active: Load) {
    forall i, j | 0 <= i < j < |load| && |active| <= j && load[i].missionId == load[j].missionId ::
      Independent(load[j].stage, load[i].stage)
  }

  lemma {:induction false} SoundWithinLimits(chosen: seq<Selection>, active: Load, limits: Limits)
    requires Sound(chosen, active, limits)
    ensures WithinLimits(LoadAfter(active, chosen), active, limits)
  {
    if chosen != [] {
      var n := |chosen| - 1;
      var earlier := chosen[..n];
      SoundPrefix(chosen, active, limits);
      SoundWithinLimits(earlier, active, limits);
      var load, s := LoadAfter(active, earlier), chosen[n];
      assert Admissible(s.request.run, load, limits) && s.granted == Grant(s.request, load, limits);
      GrantWithinLimits(s.request, load, active, limits);
    }
  }

  lemma SoundPrefix(chosen: seq<Selection>, active: Load, limits: Limits)
    requires chosen != [] && Sound(chosen, active, limits)
    ensures Sound(chosen[..|chosen| - 1], active, limits)
  {
    hide Admissible, Grant, LoadAfter;
    var earlier := chosen[..|chosen| - 1];
    forall t | 0 <= t < |earlier| ensures earlier[..t] == chosen[..t] {
    }
  }

  lemma GrantWithinLimits(c: Candidate, load: Load, active: Load, limits: Limits)
    requires WithinLimits(load, active, limits) && Admissible(c.run, load, limits)
    ensures WithinLimits(load + [Grant(c, load, limits).run], active, limits)
  {
    var next := load + [Grant(c, load, limits).run];
    assert next[..|next| - 1] == load;
  }

  lemma {:induction false} OnMissionContains(load: Load, i: nat)
    requires i < |load|
    ensures load[i] in OnMission(load, load[i].missionId)
  {
    if i < |load| - 1 {
      OnMissionContains(load[..|load| - 1], i);
    }
  }

  lemma {:induction false} SoundPairsIndependent(chosen: seq<Selection>, active: Load, limits: Limits)
    requires Sound(chosen, active, limits)
    ensures |LoadAfter(active, chosen)| == |active| + |chosen|
    ensures NewPairsIndependent(LoadAfter(active, chosen), active)
  {
    if chosen != [] {
      var n := |chosen| - 1;
      SoundPrefix(chosen, active, limits);
      SoundPairsIndependent(chosen[..n], active, limits);
      var load, s := LoadAfter(active, chosen[..n]), chosen[n];
      assert Admissible(s.request.run, load, limits) && s.granted == Grant(s.request, load, limits);
      forall i | 0 <= i < |load| && load[i].missionId == s.granted.run.missionId
        ensures Independent(s.granted.run.stage, load[i].stage)
      {
        OnMissionContains(load, i);
      }
    }
  }

  /** Safety: no limit is exceeded beyond the load that was already there, for any active set. */
  lemma ScheduleIsSafe(candidates: seq<Candidate>, active: Load, limits: Limits)
    ensures WithinLimits(FinalLoad(candidates, active, limits), active, limits)
    ensures NewPairsIndependent(FinalLoad(candidates, active, limits), active)
    ensures forall s | s in Schedule(candidates, active, limits).chosen ::
              && s.granted == s.request.(run := s.request.run.(units := s.granted.run.units))
              && 1 <= s.granted.run.units <= s.request.run.units
  {
    ScheduleInvariant(candidates, active, limits);
    var chosen := Schedule(candidates, active, limits).chosen;
    hide Schedule, WithinLimits, NewPairsIndependent, Exhausted, InOrder, Fair, Accounted, OwnQueues, HeadFirst;
    SoundWithinLimits(chosen, active, limits);
    SoundPairsIndependent(chosen, active, limits);
    forall s | s in chosen
      ensures s.granted == s.request.(run := s.request.run.(units := s.granted.run.units))
      ensures s.granted.run.units <= s.request.run.units
    {
      var t :| 0 <= t < |chosen| && chosen[t] == s;
      GrantShape(chosen, t, active, limits);
    }
  }

  lemma GrantShape(chosen: seq<Selection>, t: nat, active: Load, limits: Limits)
    requires Sound(chosen, active, limits) && t < |chosen|
    ensures var s := chosen[t];
            && s.granted == s.request.(run := s.request.run.(units := s.granted.run.units))
            && s.granted.run.units <= s.request.run.units
  {
    var load := LoadAfter(active, chosen[..t]);
    hide LoadAfter;
    assert chosen[t].granted == Grant(chosen[t].request, load, limits);
  }

  function AllRequests(chosen: seq<Selection>): seq<Candidate> {
    seq(|chosen|, i requires 0 <= i < |chosen| => chosen[i].request)
  }

  lemma {:induction false} RequestsCount(chosen: seq<Selection>, c: Candidate)
    ensures multiset(AllRequests(chosen))[c] == multiset(Requests(chosen, c.run.owner))[c]
  {
    if chosen == [] {
      assert AllRequests(chosen) == [];
    } else {
      var n := |chosen| - 1;
      RequestsCount(chosen[..n], c);
      assert AllRequests(chosen) == AllRequests(chosen[..n]) + [chosen[n].request];
    }
  }

  lemma {:induction false} OwnerQueueCount(sorted: seq<Candidate>, c: Candidate)
    ensures multiset(sorted)[c] == multiset(OwnerQueue(sorted, c.run.owner))[c]
  {
    if sorted != [] {
      var n := |sorted| - 1;
      OwnerQueueCount(sorted[..n], c);
      assert sorted == sorted[..n] + [sorted[n]];
    }
  }

  /** Counted with multiplicity, a candidate was either selected or is still in its owner's queue. */
  lemma CandidateConserved(candidates: seq<Candidate>, active: Load, limits: Limits, c: Candidate)
    requires c in candidates
    ensures var st := Schedule(candidates, active, limits);
            && c.run.owner in st.queues
            && multiset(candidates)[c] == multiset(AllRequests(st.chosen))[c] + multiset(st.queues[c.run.owner])[c]
  {
    ScheduleInvariant(candidates, active, limits);
    var sorted, st := Ordering.Sort(KeyLeq, candidates), Schedule(candidates, active, limits);
    RequestsCount(st.chosen, c);
    OwnerQueueCount(sorted, c);
    assert Accounted(st, sorted);
  }

  /** Each selection is a distinct candidate, and nothing that stays behind could still be admitted. */
  lemma ScheduleIsMaximal(candidates: seq<Candidate>, active: Load, limits: Limits)
    ensures var st := Schedule(candidates, active, limits);
            && multiset(AllRequests(st.chosen)) <= multiset(candidates)
            && forall c | c in multiset(candidates) - multiset(AllRequests(st.chosen)) ::
                 !Admissible(c.run, FinalLoad(candidates, active, limits), limits)
  {
    var st := Schedule(candidates, active, limits);
    ScheduleInvariant(candidates, active, limits);
    forall c | c in AllRequests(st.chosen) ensures c in candidates {
      SelectedIsCandidate(candidates, active, limits, c);
    }
    forall c: Candidate | c in multiset(AllRequests(st.chosen))
      ensures multiset(AllRequests(st.chosen))[c] <= multiset(candidates)[c]
    {
      CandidateConserved(candidates, active, limits, c);
    }
    forall c: Candidate | c in multiset(candidates) - multiset(AllRequests(st.chosen))
      ensures !Admissible(c.run, FinalLoad(candidates, active, limits), limits)
    {
      CandidateConserved(candidates, active, limits, c);
      assert c in st.queues[c.run.owner];
    }
  }

  lemma SelectedIsCandidate(candidates: seq<Candidate>, active: Load, limits: Limits, c: Candidate)
    requires c in AllRequests(Schedule(candidates, active, limits).chosen)
    ensures c in candidates
  {
    var sorted, st := Ordering.Sort(KeyLeq, candidates), Schedule(candidates, active, limits);
    ScheduleInvariant(candidates, active, limits);
    hide Schedule, InOrder, Fair, Sound, Exhausted, HeadFirst, Ordering.Sort;
    var i :| 0 <= i < |st.chosen| && st.chosen[i].request == c;
    assert st.chosen[i] in st.chosen;
    RequestsCount(st.chosen, c);
    OwnerQueueCount(sorted, c);
    assert c in multiset(AllRequests(st.chosen));
    assert Accounted(st, sorted);
    assert c in multiset(candidates);
  }

  /**
   * Selections of one owner come out by creation time, then run id, in spite of the rotation; and a run of
   * theirs that stays behind, though it comes earlier, was blocked when they were picked.
   */
  lemma {:induction false} ScheduleIsOrdered(candidates: seq<Candidate>, active: Load, limits: Limits)
    ensures var chosen := Schedule(candidates, active, limits).chosen;
            forall i, j | 0 <= i < j < |chosen| && chosen[i].request.run.owner == chosen[j].request.run.owner ::
              KeyLeq(chosen[i].request, chosen[j].request)
    ensures var chosen := Schedule(candidates, active, limits).chosen;
            forall t, c | 0 <= t < |chosen| && c in multiset(candidates) - multiset(AllRequests(chosen))
                          && c.run.owner == chosen[t].request.run.owner && !KeyLeq(chosen[t].request, c) ::
              !Admissible(c.run, LoadAfter(active, chosen[..t]), limits)
  {
    NoHeadSkipped(candidates, active, limits);
    var st := Schedule(candidates, active, limits);
    ScheduleInvariant(candidates, active, limits);
    forall i, j | 0 <= i < j < |st.chosen| && st.chosen[i].request.run.owner == st.chosen[j].request.run.owner
      ensures KeyLeq(st.chosen[i].request, st.chosen[j].request)
    {
      assert st.chosen[i] in st.chosen;
      var owner := st.chosen[i].request.run.owner;
      PositionInRequests(st.chosen, i, j, owner);
    }
  }

  lemma NoHeadSkipped(candidates: seq<Candidate>, active: Load, limits: Limits)
    ensures var chosen := Schedule(candidates, active, limits).chosen;
            forall t, c | 0 <= t < |chosen| && c in multiset(candidates) - multiset(AllRequests(chosen))
                          && c.run.owner == chosen[t].request.run.owner && !KeyLeq(chosen[t].request, c) ::
              !Admissible(c.run, LoadAfter(active, chosen[..t]), limits)
  {
    ScheduleInvariant(candidates, active, limits);
    hide Schedule, InOrder, Sound, Accounted, OwnQueues, Exhausted, Admissible, LoadAfter, Fair, KeyLeq, AllRequests;
    var st := Schedule(candidates, active, limits);
    forall t, c | 0 <= t < |st.chosen| && c in multiset(candidates) - multiset(AllRequests(st.chosen))
                  && c.run.owner == st.chosen[t].request.run.owner && !KeyLeq(st.chosen[t].request, c)
      ensures !Admissible(c.run, LoadAfter(active, st.chosen[..t]), limits)
    {
      assert c in candidates;
      CandidateConserved(candidates, active, limits, c);
      assert c in st.queues[c.run.owner];
    }
  }

  lemma {:induction false} RequestsPrefix(chosen: seq<Selection>, n: nat, owner: string)
    requires n <= |chosen|
    ensures Requests(chosen[..n], owner) <= Requests(chosen, owner)
  {
    if n < |chosen| {
      var m := |chosen| - 1;
      RequestsPrefix(chosen[..m], n, owner);
      assert chosen[..m][..n] == chosen[..n];
    } else {
      assert chosen[..n] == chosen;
    }
  }

  lemma PositionInRequests(chosen: seq<Selection>, i: nat, j: nat, owner: string)
    requires i < j < |chosen| && chosen[i].request.run.owner == owner == chosen[j].request.run.owner
    ensures var all := Requests(chosen, owner);
            exists a, b | 0 <= a < b < |all| :: all[a] == chosen[i].request && all[b] == chosen[j].request
  {
    var all := Requests(chosen, owner);
    var a, b := Picks(chosen[..i], owner), Picks(chosen[..j], owner);
    PickPosition(chosen, i, owner);
    PickPosition(chosen, j, owner);
    Sequences.PrefixOfPrefix(chosen, i + 1, j);
    RequestsPrefix(chosen[..j], i + 1, owner);
    hide Requests;
    assert a < b;
  }

  lemma PickPosition(chosen: seq<Selection>, i: nat, owner: string)
    requires i < |chosen| && chosen[i].request.run.owner == owner
    ensures var a := Picks(chosen[..i], owner);
            && Picks(chosen[..i + 1], owner) == a + 1 <= Picks(chosen, owner)
            && Requests(chosen, owner)[a] == chosen[i].request
  {
    Sequences.PrefixSnoc(chosen, i);
    ChosenSnoc(chosen[..i], chosen[i], [], owner);
    RequestsPrefix(chosen, i + 1, owner);
  }

  /**
   * Fairness: when an owner receives its pick number n + 2, every run that a rival with n picks
   * leaves unselected was already blocked by the load at that moment.
   */
  lemma ScheduleIsFair(candidates: seq<Candidate>, active: Load, limits: Limits, t: nat, rival: string, c: Candidate)
    requires var chosen := Schedule(candidates, active, limits).chosen;
             && t < |chosen|
             && Picks(chosen[..t + 1], chosen[t].request.run.owner) >= Picks(chosen, rival) + 2
             && c.run.owner == rival
             && c in multiset(candidates) - multiset(AllRequests(chosen))
    ensures var chosen := Schedule(candidates, active, limits).chosen;
            !Admissible(c.run, LoadAfter(active, chosen[..t]), limits)
  {
    ScheduleInvariant(candidates, active, limits);
    CandidateConserved(candidates, active, limits, c);
    hide Schedule, InOrder, Sound, Accounted, OwnQueues, Exhausted, Admissible, LoadAfter, Fair, HeadFirst;
    FairAt(Schedule(candidates, active, limits), active, limits, t, rival, c);
  }

  lemma FairAt(st: Progress, active: Load, limits: Limits, t: nat, rival: string, c: Candidate)
    requires Fair(st, active, limits)
    requires t < |st.chosen| && rival in st.queues && c in st.queues[rival]
    requires Picks(st.chosen[..t + 1], st.chosen[t].request.run.owner) >= Picks(st.chosen, rival) + 2
    ensures !Admissible(c.run, LoadAfter(active, st.chosen[..t]), limits)
  {
    hide Requests, LoadAfter, Admissible;
    var owner := st.chosen[t].request.run.owner;
    Sequences.PrefixSnoc(st.chosen, t);
    ChosenSnoc(st.chosen[..t], st.chosen[t], [], owner);
    assert Blocked(st.queues[rival], LoadAfter(active, st.chosen[..t]), limits);
  }

  // ----- The scheduler itself -----

  /** The four running totals the scheduler keeps beside the list of allocations. */
  datatype Counters = Counters(
    owners: map<string, nat>, missions: map<int, Load>, resources: map<string, nat>, units: nat)

  function Get<K, V>(m: map<K, V>, key: K, default: V): V {
    if key in m then m[key] else default
  }

  ghost predicate Tallies(counters: Counters, load: Load) {
    && (forall o :: Get(counters.owners, o, 0) == OwnerCount(load, o))
    && (forall m :: Get(counters.missions, m, []) == OnMission(load, m))
    && (forall r :: Get(counters.resources, r, 0) == ClassUnits(load, r))
    && counters.units == UnitsOf(load)
  }

  function Tally(c: Counters, a: Allocation): Counters {
    Counters(c.owners[a.owner := Get(c.owners, a.owner, 0) + 1],
             c.missions[a.missionId := Get(c.missions, a.missionId, []) + [a]],
             c.resources[a.resourceClass := Get(c.resources, a.resourceClass, 0) + a.units],
             c.units + a.units)
  }

  lemma TallyStep(c: Counters, load: Load, a: Allocation)
    requires Tallies(c, load)
    ensures Tallies(Tally(c, a), load + [a])
  {
    assert (load + [a])[..|load|] == load;
  }

  method CountActive(active: Load) returns (counters: Counters)
    ensures Tallies(counters, active)
  {
    counters := Counters(map[], map[], map[], 0);
    assert Tallies(counters, []);
    hide Tallies;
    for i := 0 to |active|
      invariant Tallies(counters, active[..i])
    {
      TallyStep(counters, active[..i], active[i]);
      counters := Tally(counters, active[i]);
      Sequences.PrefixSnoc(active, i);
    }
    Sequences.PrefixAll(active);
  }

  method AllIndependent(stage: Stage, sameMission: Load) returns (independent: bool)
    ensures independent <==> forall a | a in sameMission :: Independent(stage, a.stage)
  {
    hide Independent;
    for i := 0 to |sameMission|
      invariant forall k | 0 <= k < i :: Independent(stage, sameMission[k].stage)
    {
      var one := StagesAreIndependent(stage, sameMission[i].stage);
      if !one {
        assert sameMission[i] in sameMission;
        return false;
      }
    }
    return true;
  }

  /** The admission test on the head of a queue. */
  method TryAdmit(current: Candidate, counters: Counters, limits: Limits, ghost load: Load)
    returns (granted: Option<Candidate>)
    requires Tallies(counters, load)
    ensures granted.Some? <==> Admissible(current.run, load, limits)
    ensures granted.Some? ==> granted.value == Grant(current, load, limits)
  {
    var run := current.run;
    var sameMission := Get(counters.missions, run.missionId, []);
    var availableUnits := limits.globalActive - counters.units;
    if run.resourceClass in limits.resourceActive {
      availableUnits := Min(availableUnits,
                            limits.resourceActive[run.resourceClass] - Get(counters.resources, run.resourceClass, 0));
    }
    assert availableUnits == Available(run, load, limits);
    granted := None;
    if Get(counters.owners, run.owner, 0) < limits.OwnerLimit(run.owner) && |sameMission| < limits.perMissionActive {
      var independent := AllIndependent(run.stage, sameMission);
      if independent && availableUnits > 0 {
        granted := Some(current.(run := run.(units := Min(run.units, availableUnits))));
      }
    }
  }

  /** Rotates a queue until its head is admissible; a full turn restores it. */
  method ScanQueue(queue: seq<Candidate>, counters: Counters, limits: Limits, ghost load: Load)
    returns (granted: Option<Candidate>, rotated: seq<Candidate>, skipped: nat)
    requires Tallies(counters, load)
    ensures skipped <= |queue| && rotated == queue[skipped..] + queue[..skipped]
    ensures Blocked(queue[..skipped], load, limits)
    ensures granted.None? ==> skipped == |queue|
    ensures granted.Some? ==> skipped < |queue| && Admissible(queue[skipped].run, load, limits)
                              && granted.value == Grant(queue[skipped], load, limits)
  {
    hide Admissible, Grant, Blocked, Tallies;
    rotated, skipped := queue, 0;
    NothingBlocked(queue, load, limits);
    while skipped < |queue|
      invariant skipped <= |queue| && rotated == queue[skipped..] + queue[..skipped]
      invariant Blocked(queue[..skipped], load, limits)
    {
      Sequences.RotateOne(queue, skipped);
      granted := TryAdmit(rotated[0], counters, limits, load);
      if granted.Some? {
        return;
      }
      OneMoreBlocked(queue, skipped, load, limits);
      rotated, skipped := rotated[1..] + [rotated[0]], skipped + 1;
    }
    granted := None;
  }

  lemma NothingBlocked(queue: seq<Candidate>, load: Load, limits: Limits)
    ensures Blocked(queue[..0], load, limits) && queue[0..] + queue[..0] == queue
  {
  }

  lemma OneMoreBlocked(queue: seq<Candidate>, i: nat, load: Load, limits: Limits)
    requires i < |queue| && Blocked(queue[..i], load, limits) && !Admissible(queue[i].run, load, limits)
    ensures Blocked(queue[..i + 1], load, limits)
  {
    hide Admissible;
    Sequences.PrefixSnoc(queue, i);
  }

  /** A rotated queue: the skipped prefix of the reference queue was moved behind it, all of it blocked. */
  ghost predicate RotationOf(actual: seq<Candidate>, reference: seq<Candidate>, k: nat, load: Load, limits: Limits) {
    k <= |reference| && actual == reference[k..] + reference[..k] && Blocked(reference[..k], load, limits)
  }

  ghost predicate Rotated(actual: seq<Candidate>, reference: seq<Candidate>, load: Load, limits: Limits) {
    exists k :: RotationOf(actual, reference, k, load, limits)
  }

  /** The pick found in the rotated queue is the one a rescan of the reference queue would find. */
  lemma RotatedPick(actual: seq<Candidate>, reference: seq<Candidate>, k: nat, j: nat,
                    load: Load, extra: Allocation, limits: Limits)
    requires RotationOf(actual, reference, k, load, limits)
    requires j < |actual| && Blocked(actual[..j], load, limits) && Admissible(actual[j].run, load, limits)
    ensures k + j < |reference| && reference[k + j] == actual[j]
    ensures FirstAdmissible(reference, load, limits) == k + j
    ensures RotationOf(actual[j + 1..] + actual[..j], reference[..k + j] + reference[k + j + 1..], k + j,
                       load + [extra], limits)
  {
    RotatedPrefix(actual, reference, k, j, load, limits);
    hide Admissible, FirstAdmissible, Blocked;
    var i := k + j;
    FirstAdmissibleIs(reference, i, load, limits);
    BlockedLater(reference[..i], load, extra, limits);
    RotationSlices(reference, k, j);
  }

  lemma RotatedPrefix(actual: seq<Candidate>, reference: seq<Candidate>, k: nat, j: nat, load: Load, limits: Limits)
    requires RotationOf(actual, reference, k, load, limits)
    requires j < |actual| && Blocked(actual[..j], load, limits) && Admissible(actual[j].run, load, limits)
    ensures k + j < |reference| && reference[k + j] == actual[j] && Blocked(reference[..k + j], load, limits)
  {
    BlockedPrefix(reference, k, load, limits);
    BlockedPrefix(actual, j, load, limits);
    hide Admissible, FirstAdmissible;
    var n := |reference| - k;
    assert forall p | 0 <= p < |actual| :: actual[p] == if p < n then reference[k + p] else reference[p - n];
    var i := k + j;
    forall x | x in reference[..i] ensures !Admissible(x.run, load, limits) {
      var p :| 0 <= p < i && reference[p] == x;
      assert p >= k ==> x == actual[p - k];
    }
  }

  lemma RotationSlices<T>(reference: seq<T>, k: nat, j: nat)
    requires k + j < |reference|
    ensures var actual, i := reference[k..] + reference[..k], k + j;
            var rest := reference[..i] + reference[i + 1..];
            rest[..i] == reference[..i] && actual[j + 1..] + actual[..j] == rest[i..] + rest[..i]
  {
    var actual, i := reference[k..] + reference[..k], k + j;
    var rest := reference[..i] + reference[i + 1..];
    assert rest[..i] == reference[..i] && rest[i..] == reference[i + 1..];
    assert actual[j + 1..] == reference[i + 1..] + reference[..k];
    assert actual[..j] == reference[k..i];
    assert reference[..i] == reference[..k] + reference[k..i];
  }

  lemma FirstAdmissibleIs(queue: seq<Candidate>, i: nat, load: Load, limits: Limits)
    requires i <= |queue| && Blocked(queue[..i], load, limits)
    requires i < |queue| ==> Admissible(queue[i].run, load, limits)
    ensures FirstAdmissible(queue, load, limits) == i
  {
    BlockedPrefix(queue, i, load, limits);
    BlockedPrefix(queue, FirstAdmissible(queue, load, limits), load, limits);
    hide Admissible;
  }

  lemma BlockedPrefix(queue: seq<Candidate>, n: nat, load: Load, limits: Limits)
    requires n <= |queue| && Blocked(queue[..n], load, limits)
    ensures forall p | 0 <= p < n :: !Admissible(queue[p].run, load, limits)
  {
    hide Admissible;
    forall p | 0 <= p < n ensures !Admissible(queue[p].run, load, limits) {
      assert queue[p] in queue[..n];
    }
  }

  lemma RotatedBlocked(actual: seq<Candidate>, reference: seq<Candidate>, load: Load, limits: Limits)
    requires Rotated(actual, reference, load, limits) && Blocked(actual, load, limits)
    ensures FirstAdmissible(reference, load, limits) == |reference|
  {
    hide Admissible;
    var k: nat :| RotationOf(actual, reference, k, load, limits);
    forall c | c in reference ensures c in actual {
      assert reference == reference[..k] + reference[k..];
    }
    assert reference[..|reference|] == reference;
    FirstAdmissibleIs(reference, |reference|, load, limits);
  }

  lemma RotatedLater(actual: seq<Candidate>, reference: seq<Candidate>, load: Load, extra: Allocation, limits: Limits)
    requires Rotated(actual, reference, load, limits)
    ensures Rotated(actual, reference, load + [extra], limits)
  {
    hide Blocked;
    var k: nat :| RotationOf(actual, reference, k, load, limits);
    BlockedLater(reference[..k], load, extra, limits);
    assert RotationOf(actual, reference, k, load + [extra], limits);
  }

  ghost predicate AllRotated(actual: map<string, seq<Candidate>>, st: Progress, load: Load, limits: Limits) {
    && actual.Keys == st.queues.Keys
    && forall o | o in actual :: Rotated(actual[o], st.queues[o], load, limits)
  }

  /** One pick on the rotating queues is one pick of the reference schedule. */
  lemma PickRefines(owner: string, actual: map<string, seq<Candidate>>, j: nat, st: Progress,
                    active: Load, limits: Limits)
    requires owner in st.queues && AllRotated(actual, st, LoadAfter(active, st.chosen), limits)
    requires j < |actual[owner]| && Blocked(actual[owner][..j], LoadAfter(active, st.chosen), limits)
    requires Admissible(actual[owner][j].run, LoadAfter(active, st.chosen), limits)
    ensures var queue, load, st' := actual[owner], LoadAfter(active, st.chosen), Visit(owner, st, active, limits);
            && st'.chosen == st.chosen + [Selection(queue[j], Grant(queue[j], load, limits))]
            && AllRotated(actual[owner := queue[j + 1..] + queue[..j]], st', LoadAfter(active, st'.chosen), limits)
  {
    var queue, reference, load := actual[owner], st.queues[owner], LoadAfter(active, st.chosen);
    hide Admissible, FirstAdmissible, LoadAfter, Blocked, Grant;
    assert Rotated(queue, reference, load, limits);
    var k: nat :| RotationOf(queue, reference, k, load, limits);
    var extra := Grant(queue[j], load, limits).run;
    RotatedPick(queue, reference, k, j, load, extra, limits);
    hide RotationOf;
    var st', i := Visit(owner, st, active, limits), k + j;
    ChosenSnoc(st.chosen, Selection(queue[j], Grant(queue[j], load, limits)), active, owner);
    UpdateRotated(owner, actual, st, load, extra, limits,
                  queue[j + 1..] + queue[..j], reference[..i] + reference[i + 1..], st'.chosen);
  }

  lemma UpdateRotated(owner: string, actual: map<string, seq<Candidate>>, st: Progress,
                      load: Load, extra: Allocation, limits: Limits, queue: seq<Candidate>, reference: seq<Candidate>,
                      chosen: seq<Selection>)
    requires owner in st.queues && AllRotated(actual, st, load, limits)
    requires Rotated(queue, reference, load + [extra], limits)
    ensures AllRotated(actual[owner := queue], Progress(chosen, st.queues[owner := reference]), load + [extra], limits)
  {
    hide Rotated;
    forall o | o in st.queues && o != owner
      ensures Rotated(actual[o], st.queues[o], load + [extra], limits)
    {
      RotatedLater(actual[o], st.queues[o], load, extra, limits);
    }
  }

  lemma InitiallyRotated(queues: map<string, seq<Candidate>>, load: Load, limits: Limits)
    ensures AllRotated(queues, Progress([], queues), load, limits)
  {
    forall o | o in queues ensures Rotated(queues[o], queues[o], load, limits) {
      assert queues[o] == queues[o][0..] + queues[o][..0];
      assert RotationOf(queues[o], queues[o], 0, load, limits);
    }
  }

  ghost predicate Grouped(queues: map<string, seq<Candidate>>, order: seq<string>, sorted: seq<Candidate>) {
    && order == OwnerOrder(sorted)
    && (forall o :: o in queues <==> o in order)
    && (forall o | o in queues :: queues[o] == OwnerQueue(sorted, o))
  }

  lemma GroupStep(queues: map<string, seq<Candidate>>, order: seq<string>, sorted: seq<Candidate>, c: Candidate)
    requires Grouped(queues, order, sorted)
    ensures var owner := c.run.owner;
            Grouped(queues[owner := Get(queues, owner, []) + [c]],
                    if owner in queues then order else order + [owner], sorted + [c])
  {
    OwnerOrderDistinct(sorted);
    Sequences.DropSnoc(sorted, c);
    forall o | o in queues && o != c.run.owner ensures OwnerQueue(sorted + [c], o) == queues[o] {
      assert OwnerQueue(sorted, o) + [] == OwnerQueue(sorted, o);
    }
  }

  method GroupByOwner(sorted: seq<Candidate>) returns (queues: map<string, seq<Candidate>>, order: seq<string>)
    ensures queues == OwnerQueues(sorted) && order == OwnerOrder(sorted)
  {
    queues, order := map[], [];
    for i := 0 to |sorted|
      invariant Grouped(queues, order, sorted[..i])
    {
      var owner := sorted[i].run.owner;
      GroupStep(queues, order, sorted[..i], sorted[i]);
      Sequences.PrefixSnoc(sorted, i);
      if owner !in queues {
        order := order + [owner];
      }
      queues := queues[owner := Get(queues, owner, []) + [sorted[i]]];
    }
    Sequences.PrefixAll(sorted);
  }

  function Granted(chosen: seq<Selection>): seq<Candidate> {
    seq(|chosen|, i requires 0 <= i < |chosen| => chosen[i].granted)
  }

  lemma GrantedSnoc(chosen: seq<Selection>, s: Selection)
    ensures Granted(chosen + [s]) == Granted(chosen) + [s.granted]
  {
  }

  ghost predicate Tracks(selected: seq<Candidate>, counters: Counters, queues: map<string, seq<Candidate>>,
                         st: Progress, active: Load, limits: Limits) {
    && selected == Granted(st.chosen)
    && Tallies(counters, LoadAfter(active, st.chosen))
    && AllRotated(queues, st, LoadAfter(active, st.chosen), limits)
  }

  lemma TracksKeys(selected: seq<Candidate>, counters: Counters, queues: map<string, seq<Candidate>>,
                   st: Progress, active: Load, limits: Limits)
    requires Tracks(selected, counters, queues, st, active, limits)
    ensures queues.Keys == st.queues.Keys
    ensures Tallies(counters, LoadAfter(active, st.chosen))
    ensures counters.units == UnitsOf(LoadAfter(active, st.chosen))
  {
  }

  lemma SameLength(owner: string, selected: seq<Candidate>, counters: Counters,
                   queues: map<string, seq<Candidate>>, st: Progress, active: Load, limits: Limits)
    requires owner in st.queues && Tracks(selected, counters, queues, st, active, limits)
    ensures queues[owner] == [] <==> st.queues[owner] == []
  {
    hide Blocked, LoadAfter;
    assert Rotated(queues[owner], st.queues[owner], LoadAfter(active, st.chosen), limits);
    var k: nat :| RotationOf(queues[owner], st.queues[owner], k, LoadAfter(active, st.chosen), limits);
  }

  /** The turn that admits the run at position j of the rotated queue. */
  lemma TurnTracks(owner: string, j: nat, selected: seq<Candidate>, counters: Counters,
                   queues: map<string, seq<Candidate>>, st: Progress, active: Load, limits: Limits)
    requires owner in st.queues && owner in queues && Tracks(selected, counters, queues, st, active, limits)
    requires j < |queues[owner]| && Blocked(queues[owner][..j], LoadAfter(active, st.chosen), limits)
    requires Admissible(queues[owner][j].run, LoadAfter(active, st.chosen), limits)
    ensures var queue := queues[owner];
            var granted := Grant(queue[j], LoadAfter(active, st.chosen), limits);
            Turned(owner, selected + [granted], Tally(counters, granted.run),
                   queues[owner := queue[j + 1..] + queue[..j]], true, st, active, limits)
  {
    var queue, load := queues[owner], LoadAfter(active, st.chosen);
    var granted := Grant(queue[j], load, limits);
    PickRefines(owner, queues, j, st, active, limits);
    TallyStep(counters, load, granted.run);
    GrantedSnoc(st.chosen, Selection(queue[j], granted));
    ChosenSnoc(st.chosen, Selection(queue[j], granted), active, owner);
    SameLength(owner, selected + [granted], Tally(counters, granted.run),
               queues[owner := queue[j + 1..] + queue[..j]], Visit(owner, st, active, limits), active, limits);
  }

  lemma TurnIdles(owner: string, selected: seq<Candidate>, counters: Counters,
                  queues: map<string, seq<Candidate>>, st: Progress, active: Load, limits: Limits)
    requires owner in st.queues && owner in queues && Tracks(selected, counters, queues, st, active, limits)
    requires Blocked(queues[owner], LoadAfter(active, st.chosen), limits)
    ensures Turned(owner, selected, counters, queues, false, st, active, limits)
  {
    RotatedBlocked(queues[owner], st.queues[owner], LoadAfter(active, st.chosen), limits);
    SameLength(owner, selected, counters, queues, st, active, limits);
  }

  ghost predicate Turned(owner: string, selected: seq<Candidate>, counters: Counters, queues: map<string, seq<Candidate>>,
                         progress: bool, st: Progress, active: Load, limits: Limits)
  {
    && owner in st.queues && owner in queues
    && var st' := Visit(owner, st, active, limits);
       && Tracks(selected, counters, queues, st', active, limits)
       && (if progress then |st'.chosen| == |st.chosen| + 1 else st' == st)
       && (queues[owner] == [] <==> st'.queues[owner] == [])
  }

  /** One owner's turn: scan its queue, admit at most one run, and leave the skipped ones behind. */
  method TakeTurn(owner: string, selected: seq<Candidate>, counters: Counters,
                  queues: map<string, seq<Candidate>>, limits: Limits, ghost st: Progress, ghost active: Load)
    returns (selected': seq<Candidate>, counters': Counters, queues': map<string, seq<Candidate>>, progress: bool)
    requires owner in st.queues && Tracks(selected, counters, queues, st, active, limits)
    ensures Turned(owner, selected', counters', queues', progress, st, active, limits)
  {
    TracksKeys(selected, counters, queues, st, active, limits);
    var queue := queues[owner];
    ghost var load := LoadAfter(active, st.chosen);
    hide *;
    var granted, rotated, j := ScanQueue(queue, counters, limits, load);
    if granted.Some? {
      TurnTracks(owner, j, selected, counters, queues, st, active, limits);
      Sequences.RotationTail(queue, j);
      selected' := selected + [granted.value];
      counters' := Tally(counters, granted.value.run);
      queues' := queues[owner := rotated[1..]];
      progress := true;
    } else {
      assert queue[..j] == queue;
      TurnIdles(owner, selected, counters, queues, st, active, limits);
      selected', counters', queues', progress := selected, counters, queues, false;
    }
  }

  /** The round over `order` from `st` is `kept` so far and the round over `rest` from `now`. */
  ghost predicate Resumes(order: seq<string>, st: Progress, kept: seq<string>, rest: seq<string>, now: Progress,
                          active: Load, limits: Limits)
  {
    && Owners(order, st) && Owners(rest, now)
    && var whole, tail := Round(order, st, active, limits), Round(rest, now, active, limits);
       whole == (tail.0, kept + tail.1)
  }

  lemma ResumeStep(order: seq<string>, st: Progress, kept: seq<string>, rest: seq<string>, now: Progress,
                   active: Load, limits: Limits)
    requires rest != [] && Resumes(order, st, kept, rest, now, active, limits)
    ensures var next := Visit(rest[0], now, active, limits);
            Resumes(order, st, if next.queues[rest[0]] != [] then kept + [rest[0]] else kept, rest[1..], next, active, limits)
  {
    var next := Visit(rest[0], now, active, limits);
    var tail := Round(rest[1..], next, active, limits);
    hide Visit;
    assert Round(rest, now, active, limits)
        == (tail.0, (if next.queues[rest[0]] != [] then [rest[0]] else []) + tail.1);
    if next.queues[rest[0]] != [] {
      assert kept + ([rest[0]] + tail.1) == kept + [rest[0]] + tail.1;
    } else {
      assert [] + tail.1 == tail.1;
    }
  }

  method RunRound(order: seq<string>, selected: seq<Candidate>, counters: Counters,
                  queues: map<string, seq<Candidate>>, limits: Limits, ghost st: Progress, ghost active: Load)
    returns (order': seq<string>, selected': seq<Candidate>, counters': Counters,
             queues': map<string, seq<Candidate>>, progress: bool)
    requires Owners(order, st) && Tracks(selected, counters, queues, st, active, limits)
    ensures var r := Round(order, st, active, limits);
            && order' == r.1
            && Tracks(selected', counters', queues', r.0, active, limits)
            && (progress <==> |r.0.chosen| > |st.chosen|)
            && (!progress ==> r.0.chosen == st.chosen)
  {
    hide Visit, Tracks, Resumes, Round;
    order', selected', counters', queues', progress := order, selected, counters, queues, false;
    ghost var now, kept := st, [];
    RoundStart(order, st, active, limits);
    for i := 0 to |order|
      invariant order' == order[i..] + kept
      invariant now.queues.Keys == st.queues.Keys
      invariant Tracks(selected', counters', queues', now, active, limits)
      invariant Resumes(order, st, kept, order[i..], now, active, limits)
      invariant if progress then |now.chosen| > |st.chosen| else now.chosen == st.chosen
    {
      var owner := order'[0];
      order' := order'[1..];
      assert owner == order[i] && order[i..][1..] == order[i + 1..];
      ResumeStep(order, st, kept, order[i..], now, active, limits);
      ghost var next := Visit(owner, now, active, limits);
      var turn;
      selected', counters', queues', turn := TakeTurn(owner, selected', counters', queues', limits, now, active);
      progress := progress || turn;
      if queues'[owner] != [] {
        order', kept := order' + [owner], kept + [owner];
      }
      now := next;
    }
    assert order[|order|..] == [];
    RoundDone(order, st, kept, now, active, limits);
  }

  lemma RoundStart(order: seq<string>, st: Progress, active: Load, limits: Limits)
    requires Owners(order, st)
    ensures Resumes(order, st, [], order[0..], st, active, limits)
  {
    assert order[0..] == order;
    assert [] + Round(order, st, active, limits).1 == Round(order, st, active, limits).1;
  }

  lemma RoundDone(order: seq<string>, st: Progress, kept: seq<string>, now: Progress, active: Load, limits: Limits)
    requires Resumes(order, st, kept, [], now, active, limits)
    ensures Round(order, st, active, limits) == (now, kept)
  {
    assert kept + [] == kept;
  }

  /** The scheduler selects exactly what the reference schedule grants, in the same order. */
  method SelectStageCandidates(candidates: seq<Candidate>, active: Load, limits: Limits)
    returns (selected: seq<Candidate>)
    ensures selected == Granted(Schedule(candidates, active, limits).chosen)
  {
    selected := [];
    var counters := CountActive(active);
    if counters.units >= limits.globalActive {
      return;
    }
    var sorted := Ordering.Sort(KeyLeq, candidates);
    OwnerOrderDistinct(sorted);
    var queues, order := GroupByOwner(sorted);
    ghost var st := Progress([], queues);
    InitiallyRotated(queues, active, limits);
    assert Schedule(candidates, active, limits) == Rounds(order, st, active, limits);
    assert Tracks(selected, counters, queues, st, active, limits);
    hide Schedule, Tracks, Round, OwnerQueues, OwnerOrder, LoadAfter, UnitsOf;
    while order != [] && counters.units < limits.globalActive
      invariant Owners(order, st) && Distinct(order)
      invariant Tracks(selected, counters, queues, st, active, limits)
      invariant Rounds(order, st, active, limits) == Schedule(candidates, active, limits)
      decreases Queued(order, st)
    {
      TracksKeys(selected, counters, queues, st, active, limits);
      RoundShrinks(order, st, active, limits);
      RoundFrame(order, st, active, limits);
      RoundGrows(order, st, active, limits);
      ghost var next := Round(order, st, active, limits).0;
      var progress;
      order, selected, counters, queues, progress :=
        RunRound(order, selected, counters, queues, limits, st, active);
      st := next;
      if !progress {
        SelectedSoFar(selected, counters, queues, st, active, limits);
        return;
      }
    }
    TracksKeys(selected, counters, queues, st, active, limits);
    SelectedSoFar(selected, counters, queues, st, active, limits);
  }

  lemma SelectedSoFar(selected: seq<Candidate>, counters: Counters, queues: map<string, seq<Candidate>>,
                      st: Progress, active: Load, limits: Limits)
    requires Tracks(selected, counters, queues, st, active, limits)
    ensures selected == Granted(st.chosen)
  {
  }
}
