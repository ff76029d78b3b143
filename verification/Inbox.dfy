/**
 * The transactional inbox under Kafka redelivery (shared/inbox_outbox.py and the retry loop of
 * shared/kafka_reliability.py): replicas that handle, retry, dead-letter and commit offsets, over
 * one table whose unique key is the consumer group and event id.
 */
module Inbox {
  import opened Results

  /** The unique key of a receipt: consumer group and event id. */
  datatype Key = Key(consumerGroup: string, eventId: string)

  datatype Receipt = Processing | Completed

  /** A message at one offset; a poison message cannot be decoded. */
  datatype Message = Message(offset: nat, key: Key, poison: bool)

  type Replica = string

  datatype Phase =
    | Idle
    | Trying(message: Message, attempt: nat)
    | InTransaction(message: Message, attempt: nat, inserted: bool)
    | Handled(message: Message, attempt: nat)
    | Exhausted(message: Message)
    | DeadLettered(message: Message)

  /** effects counts, per key, the committed transactions in which the domain handler ran. */
  datatype System = System(
    receipts: map<Key, Receipt>, effects: map<Key, nat>, dead: set<Message>, committed: set<Message>,
    replicas: map<Replica, Phase>)

  datatype Step =
    | Receive(replica: Replica, message: Message)
    | Begin(replica: Replica)
    | CommitTransaction(replica: Replica, acknowledged: bool)
    | HandlerFails(replica: Replica)
    | CommitOffset(replica: Replica, ok: bool)
    | PublishDeadLetter(replica: Replica, confirmed: bool)
    | Crash(replica: Replica)

  function PhaseOf(s: System, r: Replica): Phase {
    if r in s.replicas then s.replicas[r] else Idle
  }

  function Effects(s: System, k: Key): nat {
    if k in s.effects then s.effects[k] else 0
  }

  function Goto(s: System, r: Replica, p: Phase): System {
    s.(replicas := s.replicas[r := p])
  }

  /** An exception in one attempt: the next attempt, or the dead-letter path after the last one. */
  function Retry(s: System, r: Replica, message: Message, attempt: nat, maxAttempts: nat): System {
    Goto(s, r, if attempt < maxAttempts then Trying(message, attempt + 1) else Exhausted(message))
  }

  /** A step that is not enabled in the replica's phase changes nothing. */
  function Next(s: System, step: Step, maxAttempts: nat): System {
    var r := step.replica;
    var p := PhaseOf(s, r);
    match step
    case Receive(_, message) => if p.Idle? && maxAttempts >= 1 then Goto(s, r, Trying(message, 1)) else s
    case Begin(_) =>
      if !p.Trying? then s
      else if p.message.poison then Retry(s, r, p.message, p.attempt, maxAttempts)
      else if p.message.key in s.receipts && s.receipts[p.message.key].Completed? then
        Goto(s, r, Handled(p.message, p.attempt))
      else Goto(s, r, InTransaction(p.message, p.attempt, p.message.key !in s.receipts))
    case CommitTransaction(_, acknowledged) =>
      if !p.InTransaction? then s
      else
        var k := p.message.key;
        if p.inserted && k in s.receipts then
          // The unique key was taken meanwhile: a duplicate only if that receipt is completed.
          if s.receipts[k].Completed? then Goto(s, r, Handled(p.message, p.attempt))
          else Retry(s, r, p.message, p.attempt, maxAttempts)
        else
          var s' := s.(receipts := s.receipts[k := Completed], effects := s.effects[k := Effects(s, k) + 1]);
          if acknowledged then Goto(s', r, Handled(p.message, p.attempt))
          else Retry(s', r, p.message, p.attempt, maxAttempts)
    case HandlerFails(_) =>
      if p.InTransaction? then Retry(s, r, p.message, p.attempt, maxAttempts) else s
    case CommitOffset(_, ok) =>
      if p.Handled? then
        if ok then Goto(s.(committed := s.committed + {p.message}), r, Idle)
        else Retry(s, r, p.message, p.attempt, maxAttempts)
      else if p.DeadLettered? then
        Goto(if ok then s.(committed := s.committed + {p.message}) else s, r, Idle)
      else s
    case PublishDeadLetter(_, confirmed) =>
      if !p.Exhausted? then s
      else if confirmed then Goto(s.(dead := s.dead + {p.message}), r, DeadLettered(p.message))
      else Goto(s, r, Idle)
    case Crash(_) => Goto(s, r, Idle)
  }

  function Exec(s: System, steps: seq<Step>, maxAttempts: nat): System
    decreases |steps|
  {
    if steps == [] then s else Exec(Next(s, steps[0], maxAttempts), steps[1..], maxAttempts)
  }

  /** The service starts on a table that may already hold receipts, some left incomplete by others. */
  function Start(receipts: map<Key, Receipt>): System {
    System(receipts, map[], {}, {}, map[])
  }

  predicate Done(s: System, k: Key) {
    k in s.receipts && s.receipts[k].Completed?
  }

  ghost predicate KeyInv(s: System, initial: map<Key, Receipt>, k: Key) {
    && (k in initial ==> k in s.receipts)
    && (k !in initial && k in s.receipts ==> Done(s, k))
    && (k !in initial ==> Effects(s, k) == if Done(s, k) then 1 else 0)
    && (k in initial && initial[k].Completed? ==> Done(s, k) && Effects(s, k) == 0)
    && (k in initial && Effects(s, k) > 0 ==> Done(s, k))
  }

  ghost predicate ReplicaInv(s: System, initial: map<Key, Receipt>, r: Replica, maxAttempts: nat) {
    var p := PhaseOf(s, r);
    && (p.Trying? || p.InTransaction? || p.Handled? ==> 1 <= p.attempt <= maxAttempts)
    && (p.InTransaction? && !p.inserted ==> p.message.key in initial && initial[p.message.key].Processing?)
    && (p.InTransaction? && p.inserted ==> p.message.key !in initial)
    && (p.Handled? ==> Done(s, p.message.key))
    && (p.DeadLettered? ==> p.message in s.dead)
  }

  ghost predicate Inv(s: System, initial: map<Key, Receipt>, maxAttempts: nat) {
    && (forall k :: KeyInv(s, initial, k))
    && (forall r :: ReplicaInv(s, initial, r, maxAttempts))
    && (forall m | m in s.committed :: Done(s, m.key) || m in s.dead)
  }

  /** No step undoes a completed receipt or a dead letter, or moves another replica. */
  lemma StepGrows(s: System, step: Step, maxAttempts: nat)
    ensures var s' := Next(s, step, maxAttempts);
            && (forall k | Done(s, k) :: Done(s', k))
            && s.dead <= s'.dead
            && forall r | r != step.replica :: PhaseOf(s', r) == PhaseOf(s, r)
  {
  }

  lemma StepKeepsKey(s: System, step: Step, initial: map<Key, Receipt>, maxAttempts: nat, k: Key)
    requires KeyInv(s, initial, k) && ReplicaInv(s, initial, step.replica, maxAttempts)
    ensures KeyInv(Next(s, step, maxAttempts), initial, k)
  {
  }

  lemma StepKeepsReplica(s: System, step: Step, initial: map<Key, Receipt>, maxAttempts: nat)
    requires forall k :: KeyInv(s, initial, k)
    requires ReplicaInv(s, initial, step.replica, maxAttempts)
    ensures ReplicaInv(Next(s, step, maxAttempts), initial, step.replica, maxAttempts)
  {
    var p := PhaseOf(s, step.replica);
    if p.Trying? || p.InTransaction? {
      assert KeyInv(s, initial, p.message.key);
    }
  }

  lemma StepKeepsCommitted(s: System, step: Step, initial: map<Key, Receipt>, maxAttempts: nat)
    requires ReplicaInv(s, initial, step.replica, maxAttempts)
    requires forall m | m in s.committed :: Done(s, m.key) || m in s.dead
    ensures var s' := Next(s, step, maxAttempts);
            forall m | m in s'.committed :: Done(s', m.key) || m in s'.dead
  {
    StepGrows(s, step, maxAttempts);
  }

  lemma StepKeeps(s: System, step: Step, initial: map<Key, Receipt>, maxAttempts: nat)
    requires Inv(s, initial, maxAttempts)
    ensures Inv(Next(s, step, maxAttempts), initial, maxAttempts)
  {
    hide Next, KeyInv;
    var s', r := Next(s, step, maxAttempts), step.replica;
    StepGrows(s, step, maxAttempts);
    assert ReplicaInv(s, initial, r, maxAttempts);
    StepKeepsReplica(s, step, initial, maxAttempts);
    StepKeepsCommitted(s, step, initial, maxAttempts);
    forall k ensures KeyInv(s', initial, k) {
      StepKeepsKey(s, step, initial, maxAttempts, k);
    }
    forall v ensures ReplicaInv(s', initial, v, maxAttempts) {
      assert ReplicaInv(s, initial, v, maxAttempts);
    }
  }

  lemma {:induction false} ExecKeeps(s: System, steps: seq<Step>, initial: map<Key, Receipt>, maxAttempts: nat)
    requires Inv(s, initial, maxAttempts)
    ensures Inv(Exec(s, steps, maxAttempts), initial, maxAttempts)
    decreases |steps|
  {
    hide Inv, Next;
    if steps != [] {
      StepKeeps(s, steps[0], initial, maxAttempts);
      ExecKeeps(Next(s, steps[0], maxAttempts), steps[1..], initial, maxAttempts);
    }
  }

  lemma RunInv(initial: map<Key, Receipt>, steps: seq<Step>, maxAttempts: nat)
    ensures Inv(Exec(Start(initial), steps, maxAttempts), initial, maxAttempts)
  {
    ExecKeeps(Start(initial), steps, initial, maxAttempts);
  }

  /**
   * Exactly-once effect, over every interleaving of replicas, retries, redeliveries, lost
   * acknowledgements and crashes: a receipt this path commits is completed, and the handler's
   * transaction committed exactly once for it.
   */
  lemma ExactlyOnce(initial: map<Key, Receipt>, steps: seq<Step>, maxAttempts: nat, k: Key)
    requires k !in initial
    ensures var s := Exec(Start(initial), steps, maxAttempts);
            && (k in s.receipts ==> s.receipts[k].Completed?)
            && Effects(s, k) == if k in s.receipts then 1 else 0
  {
    RunInv(initial, steps, maxAttempts);
    assert KeyInv(Exec(Start(initial), steps, maxAttempts), initial, k);
  }

  /** An offset is committed only when the effect is durable or the dead letter was confirmed. */
  lemma OffsetsSafe(initial: map<Key, Receipt>, steps: seq<Step>, maxAttempts: nat, m: Message)
    requires m in Exec(Start(initial), steps, maxAttempts).committed
    ensures var s := Exec(Start(initial), steps, maxAttempts);
            || m in s.dead
            || (m.key in s.receipts && s.receipts[m.key].Completed?
                && (m.key !in initial ==> Effects(s, m.key) == 1))
  {
    RunInv(initial, steps, maxAttempts);
    assert KeyInv(Exec(Start(initial), steps, maxAttempts), initial, m.key);
  }

  /** The run in which two replicas both find the same incomplete receipt. */
  function TwiceRun(k: Key): seq<Step> {
    var m := Message(0, k, false);
    [Receive("a", m), Receive("b", m), Begin("a"), Begin("b"), CommitTransaction("a", true), CommitTransaction("b", true)]
  }

  lemma IncompleteReceiptRunsTwice(initial: map<Key, Receipt>, maxAttempts: nat, k: Key)
    requires maxAttempts >= 1 && k in initial && initial[k].Processing?
    ensures Effects(Exec(Start(initial), TwiceRun(k), maxAttempts), k) == 2
  {
    var m := Message(0, k, false);
    var s0 := Start(initial);
    var s1 := Next(s0, Receive("a", m), maxAttempts);
    var s2 := Next(s1, Receive("b", m), maxAttempts);
    var s3 := Next(s2, Begin("a"), maxAttempts);
    var s4 := Next(s3, Begin("b"), maxAttempts);
    var s5 := Next(s4, CommitTransaction("a", true), maxAttempts);
    var s6 := Next(s5, CommitTransaction("b", true), maxAttempts);
    var run := TwiceRun(k);
    ExecOne(s0, run, maxAttempts);
    ExecOne(s1, run[1..], maxAttempts);
    ExecOne(s2, run[2..], maxAttempts);
    ExecOne(s3, run[3..], maxAttempts);
    ExecOne(s4, run[4..], maxAttempts);
    ExecOne(s5, run[5..], maxAttempts);
    assert Exec(s6, run[6..], maxAttempts) == s6;
  }

  lemma ExecOne(s: System, steps: seq<Step>, maxAttempts: nat)
    requires steps != []
    ensures Exec(s, steps, maxAttempts) == Exec(Next(s, steps[0], maxAttempts), steps[1..], maxAttempts)
  {
  }

  /**
   * The handler's transaction commits at most once per key in every run if and only if the table
   * did not start with an incomplete receipt for that key, which only another path can have written.
   */
  lemma AtMostOnceExactly(initial: map<Key, Receipt>, maxAttempts: nat, k: Key)
    requires maxAttempts >= 1
    ensures (forall steps :: Effects(Exec(Start(initial), steps, maxAttempts), k) <= 1)
            <==> !(k in initial && initial[k].Processing?)
  {
    if k in initial && initial[k].Processing? {
      IncompleteReceiptRunsTwice(initial, maxAttempts, k);
    } else {
      forall steps ensures Effects(Exec(Start(initial), steps, maxAttempts), k) <= 1 {
        RunInv(initial, steps, maxAttempts);
        assert KeyInv(Exec(Start(initial), steps, maxAttempts), initial, k);
      }
    }
  }

  // ----- The retry loop of one message -----

  class Broker {
    var committed: set<Message>
    var dead: set<Message>

    constructor ()
      ensures committed == {} && dead == {}
    {
      committed, dead := {}, {};
    }
  }

  /** What the outside world does to each attempt of one delivery. */
  datatype World = World(handlerOk: nat -> bool, commitOk: nat -> bool, deadLetterOk: bool, lastCommitOk: bool)

  datatype Verdict = Succeeded | SentToDeadLetter | Raised

  predicate Attempted(m: Message, world: World, attempt: nat) {
    !m.poison && world.handlerOk(attempt) && world.commitOk(attempt)
  }

  /**
   * The first attempt whose handler and offset commit both succeed ends the delivery; when there is
   * none among the allowed attempts the message goes to the dead-letter topic, and its offset is
   * committed only after that publication was confirmed.
   */
  method ProcessMessage(broker: Broker, m: Message, maxAttempts: nat, world: World)
    returns (verdict: Verdict, attempts: nat)
    modifies broker
    ensures verdict == Succeeded <==> exists k :: 1 <= k <= maxAttempts && Attempted(m, world, k)
    ensures verdict == Succeeded ==>
              && 1 <= attempts <= maxAttempts && Attempted(m, world, attempts)
              && (forall k | 1 <= k < attempts :: !Attempted(m, world, k))
              && broker.committed == old(broker.committed) + {m} && broker.dead == old(broker.dead)
    ensures verdict != Succeeded ==>
              && broker.dead == (if maxAttempts >= 1 && world.deadLetterOk then old(broker.dead) + {m} else old(broker.dead))
              && broker.committed == (if verdict == SentToDeadLetter then old(broker.committed) + {m}
                                      else old(broker.committed))
    ensures verdict == SentToDeadLetter ==> m in broker.dead
    ensures verdict == Raised && maxAttempts >= 1 ==> !world.deadLetterOk || !world.lastCommitOk
  {
    attempts := 0;
    while attempts < maxAttempts
      invariant attempts <= maxAttempts
      invariant forall k | 1 <= k <= attempts :: !Attempted(m, world, k)
      invariant broker.committed == old(broker.committed) && broker.dead == old(broker.dead)
    {
      attempts := attempts + 1;
      if !m.poison && world.handlerOk(attempts) && world.commitOk(attempts) {
        assert Attempted(m, world, attempts);
        broker.committed := broker.committed + {m};
        return Succeeded, attempts;
      }
    }
    if maxAttempts < 1 || !world.deadLetterOk {
      return Raised, attempts;
    }
    broker.dead := broker.dead + {m};
    if !world.lastCommitOk {
      return Raised, attempts;
    }
    broker.committed := broker.committed + {m};
    return SentToDeadLetter, attempts;
  }
}
