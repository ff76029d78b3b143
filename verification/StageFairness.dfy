/** Fairness of the schedule, turn by turn (shared/stage_scheduler.py). */
module StageFairness {
  import opened StageScheduler
  import Ordering
  import Sequences

  /** The first owner has its turn before the second in every round. */
  ghost predicate Before(first: seq<string>, a: string, b: string) {
    exists i, j :: 0 <= i < j < |first| && first[i] == a && first[j] == b
  }

  ghost function Lead(first: seq<string>, a: string, b: string): nat {
    if Before(first, a, b) then 1 else 0
  }

  ghost predicate SameOrder(order: seq<string>, first: seq<string>) {
    forall i, j | 0 <= i < j < |order| :: Before(first, order[i], order[j])
  }

  /**
   * After u picks it was the turn of an owner that had all its picks already: everyone before it was at most one
   * pick ahead, everyone else at most level, and all it leaves over was blocked.
   */
  ghost predicate YieldedAt(st: Progress, o: string, u: nat, first: seq<string>, active: Load, limits: Limits)
    requires o in st.queues
  {
    && u <= |st.chosen| && Picks(st.chosen[..u], o) == Picks(st.chosen, o)
    && Blocked(st.queues[o], LoadAfter(active, st.chosen[..u]), limits)
    && forall x | x in st.queues :: Picks(st.chosen[..u], x) <= Picks(st.chosen, o) + Lead(first, x, o)
  }

  ghost predicate Yielded(st: Progress, o: string, first: seq<string>, active: Load, limits: Limits)
    requires o in st.queues
  {
    exists u: nat :: YieldedAt(st, o, u, first, active, limits)
  }

  /** Whoever has fewer picks than turns yielded one of them. */
  ghost predicate Lag(st: Progress, waiting: seq<string>, r: nat, first: seq<string>, active: Load, limits: Limits) {
    forall o | o in st.queues && Picks(st.chosen, o) < (if o in waiting then r else r + 1) ::
      Yielded(st, o, first, active, limits)
  }

  /** Nobody is further ahead of a waiting owner than its place in the round explains. */
  ghost predicate Level(st: Progress, waiting: seq<string>, r: nat, first: seq<string>) {
    forall x, o | x in st.queues && o in waiting :: Picks(st.chosen, x) <= r + Lead(first, x, o)
  }

  lemma YieldNow(st: Progress, o: string, first: seq<string>, active: Load, limits: Limits)
    requires o in st.queues && Blocked(st.queues[o], LoadAfter(active, st.chosen), limits)
    requires forall x | x in st.queues :: Picks(st.chosen, x) <= Picks(st.chosen, o) + Lead(first, x, o)
    ensures Yielded(st, o, first, active, limits)
  {
    hide Blocked, LoadAfter, Picks, Lead;
    Sequences.PrefixAll(st.chosen);
    assert YieldedAt(st, o, |st.chosen|, first, active, limits);
  }

  lemma YieldKept(owner: string, st: Progress, st': Progress, k: nat, o: string, first: seq<string>, active: Load, limits: Limits)
    requires Pick(owner, st, st', k, active, limits) && OwnQueues(st)
    requires o in st.queues && o != owner && Yielded(st, o, first, active, limits)
    ensures o in st'.queues && Yielded(st', o, first, active, limits)
  {
    hide Pick, OwnQueues, Blocked, LoadAfter, Lead, Requests;
    var u: nat :| YieldedAt(st, o, u, first, active, limits);
    assert u <= |st.chosen|;
    var s := PickFacts(owner, st, st', k, active, limits);
    ChosenSnoc(st.chosen, s, active, o);
    OtherQueue(owner, st, st', k, o, active, limits);
    assert st'.chosen[..u] == st.chosen[..u];
    assert YieldedAt(st', o, u, first, active, limits);
  }

  lemma OtherQueue(owner: string, st: Progress, st': Progress, k: nat, o: string, active: Load, limits: Limits)
    requires Pick(owner, st, st', k, active, limits) && o in st.queues && o != owner
    ensures o in st'.queues && st'.queues[o] == st.queues[o]
  {
    hide Blocked, Admissible, LoadAfter;
  }

  lemma PickLag(owner: string, waiting: seq<string>, r: nat, st: Progress, st': Progress, k: nat, first: seq<string>,
                active: Load, limits: Limits)
    requires Pick(owner, st, st', k, active, limits) && OwnQueues(st) && owner !in waiting
    requires Turns(st, [owner] + waiting, r, active, limits) && Turns(st', waiting, r, active, limits)
    requires Lag(st, [owner] + waiting, r, first, active, limits)
    ensures Lag(st', waiting, r, first, active, limits)
  {
    var s := PickFacts(owner, st, st', k, active, limits);
    PickedHadAll(owner, waiting, r, st, st', k, active, limits);
    forall o | o in st'.queues && Picks(st'.chosen, o) < (if o in waiting then r else r + 1)
      ensures Yielded(st', o, first, active, limits)
    {
      ChosenSnoc(st.chosen, s, active, o);
      hide Pick, OwnQueues, Turns, Blocked, LoadAfter, Requests, Yielded;
      assert o != owner;
      assert o in [owner] + waiting <==> o in waiting;
      YieldKept(owner, st, st', k, o, first, active, limits);
    }
  }

  /** Who picks has used every earlier turn. */
  lemma PickedHadAll(owner: string, waiting: seq<string>, r: nat, st: Progress, st': Progress, k: nat,
                     active: Load, limits: Limits)
    requires Pick(owner, st, st', k, active, limits) && OwnQueues(st)
    requires Turns(st, [owner] + waiting, r, active, limits)
    ensures Picks(st.chosen, owner) == r && Picks(st'.chosen, owner) == r + 1
  {
    var s := PickFacts(owner, st, st', k, active, limits);
    ChosenSnoc(st.chosen, s, active, owner);
    hide Admissible, Requests, LoadAfter;
    assert owner in [owner] + waiting;
    assert st.queues[owner][k] in st.queues[owner];
  }

  lemma PickLevel(owner: string, waiting: seq<string>, r: nat, st: Progress, st': Progress, k: nat, first: seq<string>,
                  active: Load, limits: Limits)
    requires Pick(owner, st, st', k, active, limits) && OwnQueues(st)
    requires Turns(st, [owner] + waiting, r, active, limits)
    requires Level(st, [owner] + waiting, r, first) && SameOrder([owner] + waiting, first)
    ensures Level(st', waiting, r, first)
  {
    var s := PickFacts(owner, st, st', k, active, limits);
    PickedHadAll(owner, waiting, r, st, st', k, active, limits);
    hide Pick, OwnQueues, Turns, Requests, Before;
    forall x, o | x in st'.queues && o in waiting ensures Picks(st'.chosen, x) <= r + Lead(first, x, o) {
      ChosenSnoc(st.chosen, s, active, x);
      var j :| 0 <= j < |waiting| && waiting[j] == o;
      assert ([owner] + waiting)[0] == owner && ([owner] + waiting)[j + 1] == o;
      assert o in [owner] + waiting;
    }
  }

  lemma VisitYields(owner: string, waiting: seq<string>, r: nat, st: Progress, sorted: seq<Candidate>, first: seq<string>,
                    active: Load, limits: Limits)
    requires owner in st.queues && owner !in waiting && SameOrder([owner] + waiting, first)
    requires Inv(st, sorted, active, limits) && Turns(st, [owner] + waiting, r, active, limits)
    requires Lag(st, [owner] + waiting, r, first, active, limits) && Level(st, [owner] + waiting, r, first)
    ensures var st' := Visit(owner, st, active, limits);
            Lag(st', waiting, r, first, active, limits) && Level(st', waiting, r, first)
  {
    var k := VisitCases(owner, st, active, limits);
    VisitKeeps(owner, waiting, r, st, sorted, active, limits);
    var st' := Visit(owner, st, active, limits);
    hide Visit, Blocked, LoadAfter, Sound, Accounted, InOrder, Fair, HeadFirst, Turns, Pick, Lag, Level;
    if st' == st {
      IdleYields(owner, waiting, r, st, first, active, limits);
    } else {
      PickLag(owner, waiting, r, st, st', k, first, active, limits);
      PickLevel(owner, waiting, r, st, st', k, first, active, limits);
    }
  }

  lemma IdleYields(owner: string, waiting: seq<string>, r: nat, st: Progress, first: seq<string>, active: Load, limits: Limits)
    requires owner in st.queues && Blocked(st.queues[owner], LoadAfter(active, st.chosen), limits)
    requires Turns(st, [owner] + waiting, r, active, limits)
    requires Lag(st, [owner] + waiting, r, first, active, limits) && Level(st, [owner] + waiting, r, first)
    ensures Lag(st, waiting, r, first, active, limits) && Level(st, waiting, r, first)
  {
    hide Blocked, LoadAfter, Turns, Picks, Lead, Yielded;
    assert owner in [owner] + waiting;
    IdleBound(owner, waiting, r, st, active, limits);
    if Picks(st.chosen, owner) == r {
      YieldNow(st, owner, first, active, limits);
    }
    forall o | o in st.queues && o != owner ensures o in [owner] + waiting <==> o in waiting {
    }
  }

  lemma IdleBound(owner: string, waiting: seq<string>, r: nat, st: Progress, active: Load, limits: Limits)
    requires owner in st.queues && Turns(st, [owner] + waiting, r, active, limits)
    ensures Picks(st.chosen, owner) <= r
  {
    hide Blocked, LoadAfter, Picks;
    assert owner in [owner] + waiting;
  }

  lemma {:induction false} RoundYields(order: seq<string>, r: nat, st: Progress, sorted: seq<Candidate>, first: seq<string>,
                                       active: Load, limits: Limits)
    requires Owners(order, st) && Distinct(order) && SameOrder(order, first)
    requires Inv(st, sorted, active, limits) && Turns(st, order, r, active, limits)
    requires Lag(st, order, r, first, active, limits) && Level(st, order, r, first)
    ensures Lag(Round(order, st, active, limits).0, [], r, first, active, limits)
  {
    hide Visit, Inv, Turns, Lag, Level, SameOrder;
    if order != [] {
      var owner, rest := order[0], order[1..];
      assert order == [owner] + rest;
      TailDistinct(order);
      TailOrder(order, first);
      VisitKeeps(owner, rest, r, st, sorted, active, limits);
      VisitYields(owner, rest, r, st, sorted, first, active, limits);
      RoundYields(rest, r, Visit(owner, st, active, limits), sorted, first, active, limits);
    }
  }

  lemma TailOrder(order: seq<string>, first: seq<string>)
    requires order != [] && SameOrder(order, first)
    ensures SameOrder(order[1..], first)
  {
    hide Before;
  }

  /** The owners that stay in the rotation keep their places. */
  lemma {:induction false} RoundOrder(order: seq<string>, st: Progress, first: seq<string>, active: Load, limits: Limits)
    requires Owners(order, st) && SameOrder(order, first)
    ensures SameOrder(Round(order, st, active, limits).1, first)
  {
    hide Visit, Before;
    if order != [] {
      var o, rest := order[0], order[1..];
      var st1 := Visit(o, st, active, limits);
      TailOrder(order, first);
      RoundFrame(rest, st1, active, limits);
      RoundOrder(rest, st1, first, active, limits);
      var next := Round(rest, st1, active, limits).1;
      Sequences.AppendNothing(next);
      HeadOrder(order, next, first);
    }
  }

  lemma HeadOrder(order: seq<string>, next: seq<string>, first: seq<string>)
    requires order != [] && SameOrder(order, first) && SameOrder(next, first) && forall o | o in next :: o in order[1..]
    ensures SameOrder([order[0]] + next, first)
  {
    hide Before;
    var all := [order[0]] + next;
    forall i, j | 0 <= i < j < |all| ensures Before(first, all[i], all[j]) {
      assert all[j] == next[j - 1];
      if i == 0 {
        assert all[j] in next;
        var k :| 0 <= k < |order[1..]| && order[1..][k] == all[j];
        assert order[k + 1] == all[j];
      } else {
        assert all[i] == next[i - 1];
      }
    }
  }

  ghost predicate AtMost(st: Progress, r: nat) {
    forall o | o in st.queues :: Picks(st.chosen, o) <= r
  }

  ghost predicate AllYielded(st: Progress, first: seq<string>, active: Load, limits: Limits) {
    forall o | o in st.queues :: Yielded(st, o, first, active, limits)
  }

  /** When everybody with r picks is blocked, everybody has yielded. */
  lemma Stopped(st: Progress, order: seq<string>, r: nat, first: seq<string>, active: Load, limits: Limits)
    requires AtMost(st, r) && Lag(st, order, r, first, active, limits)
    requires forall o | o in st.queues :: Blocked(st.queues[o], LoadAfter(active, st.chosen), limits)
    ensures AllYielded(st, first, active, limits)
  {
    hide Blocked, LoadAfter, Picks, Lead, Yielded;
    forall o | o in st.queues ensures Yielded(st, o, first, active, limits) {
      if Picks(st.chosen, o) == r {
        YieldNow(st, o, first, active, limits);
      }
    }
  }

  /** The next round begins. */
  lemma NextRound(st: Progress, order: seq<string>, r: nat, first: seq<string>, active: Load, limits: Limits)
    requires Turns(st, [], r, active, limits) && Lag(st, [], r, first, active, limits)
    requires forall o | o in st.queues && o !in order :: st.queues[o] == []
    ensures AtMost(st, r + 1) && Level(st, order, r + 1, first) && Lag(st, order, r + 1, first, active, limits)
  {
    hide Picks, Lead, LoadAfter, Admissible, Yielded;
    forall o | o in st.queues && Picks(st.chosen, o) < (if o in order then r + 1 else r + 2)
      ensures Yielded(st, o, first, active, limits)
    {
      if Picks(st.chosen, o) == r + 1 {
        YieldNow(st, o, first, active, limits);
      }
    }
  }

  lemma {:induction false} RoundsYield(order: seq<string>, r: nat, st: Progress, sorted: seq<Candidate>, first: seq<string>,
                                       active: Load, limits: Limits)
    requires Owners(order, st) && Distinct(order) && SameOrder(order, first)
    requires forall o | o in st.queues && o !in order :: st.queues[o] == []
    requires Inv(st, sorted, active, limits) && Turns(st, order, r, active, limits)
    requires AtMost(st, r) && Lag(st, order, r, first, active, limits) && Level(st, order, r, first)
    ensures AllYielded(Rounds(order, st, active, limits), first, active, limits)
    decreases Queued(order, st)
  {
    hide Round, Inv, Visit, Turns, Lag, Level, SameOrder, AllYielded;
    if order == [] || UnitsOf(LoadAfter(active, st.chosen)) >= limits.globalActive {
      RoundsKeep(order, r, st, sorted, active, limits);
      Stopped(st, order, r, first, active, limits);
    } else {
      var next := Round(order, st, active, limits);
      RoundShrinks(order, st, active, limits);
      RoundFrame(order, st, active, limits);
      RoundGrows(order, st, active, limits);
      RoundDropsEmpty(order, st, active, limits);
      RoundOrder(order, st, first, active, limits);
      RoundKeeps(order, r, st, sorted, active, limits);
      RoundYields(order, r, st, sorted, first, active, limits);
      NextRound(next.0, next.1, r, first, active, limits);
      if |next.0.chosen| == |st.chosen| {
        assert next.0.chosen == st.chosen;
        LastRound(st, next.0, r, first, active, limits);
      } else {
        StillTurns(next.0, next.1, r, active, limits);
        RoundsYield(next.1, r + 1, next.0, sorted, first, active, limits);
      }
    }
  }

  lemma StillTurns(st: Progress, order: seq<string>, r: nat, active: Load, limits: Limits)
    requires Turns(st, [], r, active, limits)
    requires forall o | o in st.queues && o !in order :: st.queues[o] == []
    ensures Turns(st, order, r + 1, active, limits)
  {
    hide Picks, LoadAfter, Admissible;
  }

  /** A round without a pick: everybody yielded a turn in it. */
  lemma LastRound(before: Progress, st: Progress, r: nat, first: seq<string>, active: Load, limits: Limits)
    requires AtMost(before, r) && st.chosen == before.chosen && st.queues.Keys == before.queues.Keys
    requires Lag(st, [], r, first, active, limits)
    ensures AllYielded(st, first, active, limits)
  {
    hide Picks, Yielded;
  }

  lemma Beginning(sorted: seq<Candidate>, active: Load, limits: Limits)
    ensures var st, first := Progress([], OwnerQueues(sorted)), OwnerOrder(sorted);
            AtMost(st, 0) && Lag(st, first, 0, first, active, limits) && Level(st, first, 0, first) && SameOrder(first, first)
  {
    hide OwnerOrder, OwnerQueue, Lead;
  }

  /**
   * Fairness, turn by turn: for a run that stays behind there was a turn of its owner, after the last pick the owner
   * ever got, at which the run was blocked, with the owners before it at most one pick ahead and all others at most
   * level.
   */
  lemma BlockedAtOwnTurn(candidates: seq<Candidate>, active: Load, limits: Limits, c: Candidate) returns (u: nat)
    requires c in multiset(candidates) - multiset(AllRequests(Schedule(candidates, active, limits).chosen))
    ensures var st := Schedule(candidates, active, limits);
            var first := OwnerOrder(Ordering.Sort(KeyLeq, candidates));
            && u <= |st.chosen| && Picks(st.chosen[..u], c.run.owner) == Picks(st.chosen, c.run.owner)
            && !Admissible(c.run, LoadAfter(active, st.chosen[..u]), limits)
            && forall x | x in st.queues ::
                 Picks(st.chosen[..u], x) <= Picks(st.chosen, c.run.owner) + if Before(first, x, c.run.owner) then 1 else 0
  {
    var sorted := Ordering.Sort(KeyLeq, candidates);
    var st0, first := Progress([], OwnerQueues(sorted)), OwnerOrder(sorted);
    KeyLeqTotalPreorder();
    Ordering.SortSorted(KeyLeq, candidates);
    InitialInvariant(sorted, active, limits);
    OwnerOrderDistinct(sorted);
    Beginning(sorted, active, limits);
    CandidateConserved(candidates, active, limits, c);
    hide Inv, Turns, KeyLeq, Rounds, OwnerOrder, OwnerQueue, Ordering.Sort, Lag, Level, SameOrder, Before, AtMost;
    RoundsYield(first, 0, st0, sorted, first, active, limits);
    var st := Schedule(candidates, active, limits);
    assert c in st.queues[c.run.owner];
    hide Schedule, LoadAfter, Admissible, Requests;
    assert Yielded(st, c.run.owner, first, active, limits);
    u :| YieldedAt(st, c.run.owner, u, first, active, limits);
  }
}
