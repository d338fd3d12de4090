/** Speeding a pending transaction up (tokens/evm/contract.go) and what a queue slot stands for over
    any run of sends, pushes and sweeps (server/recheck.go). */
module Replacement {
  import opened Outcomes
  import opened Bytes
  import opened EvmRecheck

  /** A transaction of one account; the hash commits to all of it. */
  datatype Tx = Tx(account: seq<Byte>, nonce: nat, to: seq<Byte>, value: nat, gas: nat, gasPrice: nat, data: seq<Byte>)

  const GAS_LIMIT: nat := 300000

  /** SendWrap and SendUnWrap: the suggested price plus the configured percentage, rounded down. */
  function FirstTx(account: seq<Byte>, contract: seq<Byte>, nonce: nat, suggested: nat, upper: nat, data: seq<Byte>): Tx {
    Tx(account, nonce, contract, 0, GAS_LIMIT, suggested * (100 + upper) / 100, data)
  }

  /** The speed-up price: 20 percent more. */
  function SpeedUpPrice(suggested: nat, upper: nat): nat {
    suggested * (100 + upper + 20) / 100
  }

  /** What the node answers to CheckPendingAndSpeedUp: the lookup, the price, signing, sending. */
  datatype NodeAnswer = NodeAnswer(found: bool, pending: bool, suggested: Option<nat>, signed: bool, accepted: bool)

  /** Two transactions that differ in the gas price at most, the later one not being cheaper. */
  predicate Replaces(new': Tx, old': Tx) {
    new' == old'.(gasPrice := new'.gasPrice) && old'.gasPrice <= new'.gasPrice
  }

  /** The replacement that is sent off, if it comes to that. */
  function SpeedUp(tx: Tx, upper: nat, node: NodeAnswer): Option<Tx> {
    if node.found && node.pending && node.suggested.Some? && node.signed
       && SpeedUpPrice(node.suggested.value, upper) >= tx.gasPrice
    then Some(tx.(gasPrice := SpeedUpPrice(node.suggested.value, upper)))
    else None
  }

  /** What the sweep is told: the hash of the last transaction, and whether something went wrong. */
  function AnswerOf(tx: Tx, hashOf: Tx -> Hash, upper: nat, node: NodeAnswer): Answer {
    var faster := SpeedUp(tx, upper, node);
    Answered(hashOf(if faster.Some? then faster.value else tx),
             !((node.found && !node.pending) || (faster.Some? && node.accepted)))
  }

  /** CheckPendingAndSpeedUp for the transaction behind a hash: what it submits replaces that
      transaction, with the same account, nonce, target, value, gas and data and no lower price. */
  method CheckPendingAndSpeedUp(tx: Tx, hashOf: Tx -> Hash, upper: nat, node: NodeAnswer)
    returns (answer: Answer, submitted: Option<Tx>)
    ensures submitted == SpeedUp(tx, upper, node) && answer == AnswerOf(tx, hashOf, upper, node)
    ensures submitted.Some? ==> Replaces(submitted.value, tx)
    ensures submitted.Some? <==>
              && node.found && node.pending && node.suggested.Some? && node.signed
              && node.suggested.value * (120 + upper) / 100 >= tx.gasPrice
    ensures submitted.Some? ==> submitted.value.gasPrice == node.suggested.value * (120 + upper) / 100
  {
    if !node.found {
      return Answered(hashOf(tx), true), None;
    }
    if !node.pending {
      return Answered(hashOf(tx), false), None;
    }
    if node.suggested.None? {
      return Answered(hashOf(tx), true), None;
    }
    var gasPrice := node.suggested.value * (100 + upper + 20);
    gasPrice := gasPrice / 100;
    if gasPrice < tx.gasPrice {
      return Answered(hashOf(tx), true), None;
    }
    var faster := Tx(tx.account, tx.nonce, tx.to, tx.value, tx.gas, gasPrice, tx.data);
    if !node.signed {
      return Answered(hashOf(tx), true), None;
    }
    return Answered(hashOf(faster), !node.accepted), Some(faster);
  }

  ghost predicate NamesTransactions(hashOf: Tx -> Hash, txOf: Hash -> Tx) {
    forall t: Tx :: txOf(hashOf(t)) == t
  }

  /** The sweep looks at the entry and can sign. */
  predicate InWindow(sent: int, now: int, pendingTime: int) {
    sent != 0 && pendingTime <= now - sent <= 3 * pendingTime
  }

  /** The transaction is pending and everything up to sending the new one goes well. */
  predicate CanOffer(node: NodeAnswer) {
    node.found && node.pending && node.suggested.Some? && node.signed
  }

  /** When a turn replaces, and when it drops. It replaces exactly when a dearer transaction was offered
      and taken. It drops a transaction that is no longer pending; but it also drops one that still is,
      exactly when a dearer replacement was refused or an identical one was taken. */
  lemma DecisionIff(tx: Tx, hashOf: Tx -> Hash, txOf: Hash -> Tx, upper: nat, node: NodeAnswer,
                    chain: string, sent: int, now: int, pendingTime: int)
    requires NamesTransactions(hashOf, txOf) && InWindow(sent, now, pendingTime)
    ensures var action := Decide(Entry(hashOf(tx), chain, sent), now, pendingTime, AnswerOf(tx, hashOf, upper, node));
            && (action.Replace? <==>
                  CanOffer(node) && SpeedUpPrice(node.suggested.value, upper) > tx.gasPrice && node.accepted)
            && (node.found && !node.pending ==> action.Drop?)
            && (node.found && node.pending ==>
                  (action.Drop? <==>
                     CanOffer(node) &&
                     var price := SpeedUpPrice(node.suggested.value, upper);
                     || (price > tx.gasPrice && !node.accepted)
                     || (price == tx.gasPrice && node.accepted)))
            && (!node.found ==> action.Stop?)
  {
    var faster := SpeedUp(tx, upper, node);
    if faster.Some? {
      assert txOf(hashOf(faster.value)) == faster.value && txOf(hashOf(tx)) == tx;
    }
  }

  /** For every turn on a transaction that is pending, whatever its age and with the keystore readable
      or not: the sweep drops it exactly when it is older than three waiting periods, or in the waiting
      window under the condition of DecisionIff. */
  lemma PendingDropIff(tx: Tx, hashOf: Tx -> Hash, txOf: Hash -> Tx, upper: nat, keyReadable: bool, node: NodeAnswer,
                       chain: string, sent: int, now: int, pendingTime: nat)
    requires NamesTransactions(hashOf, txOf) && node.found && node.pending
    ensures var answer := if keyReadable then AnswerOf(tx, hashOf, upper, node) else KeyFailed;
            Decide(Entry(hashOf(tx), chain, sent), now, pendingTime, answer).Drop? <==>
              && sent != 0
              && (|| now - sent > 3 * pendingTime
                  || (&& InWindow(sent, now, pendingTime) && keyReadable && CanOffer(node)
                      && var price := SpeedUpPrice(node.suggested.value, upper);
                      || (price > tx.gasPrice && !node.accepted)
                      || (price == tx.gasPrice && node.accepted)))
  {
    if InWindow(sent, now, pendingTime) {
      DecisionIff(tx, hashOf, txOf, upper, node, chain, sent, now, pendingTime);
    }
  }

  /** Every turn, whatever the age, the keystore and the node say: when it replaces, when it drops, and
      that it leaves the entry alone otherwise. */
  lemma TurnIff(tx: Tx, hashOf: Tx -> Hash, txOf: Hash -> Tx, upper: nat, keyReadable: bool, node: NodeAnswer,
                chain: string, sent: int, now: int, pendingTime: nat)
    requires NamesTransactions(hashOf, txOf)
    ensures var action := Decide(Entry(hashOf(tx), chain, sent), now, pendingTime,
                                 if keyReadable then AnswerOf(tx, hashOf, upper, node) else KeyFailed);
            var looksAt := sent != 0 && pendingTime <= now - sent <= 3 * pendingTime && keyReadable;
            var canOffer := node.found && node.pending && node.suggested.Some? && node.signed;
            var price := if canOffer then SpeedUpPrice(node.suggested.value, upper) else 0;
            && (action.Replace? <==> looksAt && canOffer && price > tx.gasPrice && node.accepted)
            && (action.Replace? ==> action.hash == hashOf(tx.(gasPrice := price)))
            && (action.Drop? <==>
                  || (sent != 0 && now - sent > 3 * pendingTime)
                  || (looksAt && (|| (node.found && !node.pending)
                                  || (canOffer && price > tx.gasPrice && !node.accepted)
                                  || (canOffer && price == tx.gasPrice && node.accepted))))
  {
    if InWindow(sent, now, pendingTime) {
      DecisionIff(tx, hashOf, txOf, upper, node, chain, sent, now, pendingTime);
    }
  }

  /** A bridge transaction calls the contract and moves no coins; both prices are rounded down, the
      second from 20 percent more. */
  lemma PricesRoundDown(account: seq<Byte>, contract: seq<Byte>, nonce: nat, g: nat, upper: nat, data: seq<Byte>)
    ensures var p := FirstTx(account, contract, nonce, g, upper, data).gasPrice;
            100 * p <= g * (100 + upper) < 100 * p + 100
    ensures var tx := FirstTx(account, contract, nonce, g, upper, data);
            tx == Tx(account, nonce, contract, 0, 300000, tx.gasPrice, data)
    ensures var p := SpeedUpPrice(g, upper); 100 * p <= g * (100 + upper) + 20 * g < 100 * p + 100
  {
    assert g * (100 + upper + 20) == g * (100 + upper) + 20 * g;
  }

  /** So from a suggestion of 5 on, a speed-up at the suggestion of the first sending is strictly dearer. */
  lemma SpeedUpIsDearer(account: seq<Byte>, contract: seq<Byte>, nonce: nat, g: nat, upper: nat, data: seq<Byte>)
    requires g >= 5
    ensures SpeedUpPrice(g, upper) > FirstTx(account, contract, nonce, g, upper, data).gasPrice
  {
    PricesRoundDown(account, contract, nonce, g, upper, data);
  }

  /** A bridge transaction that still waits at the suggestion it was sent at: its speed-up is never
      refused as too cheap, and counts if the node takes it and rounding did not eat the 20 percent. A
      second speed-up at that suggestion rebuilds the very same transaction and never counts: the sweep
      forgets the order's transaction, pending as it is, if the node takes it again. */
  lemma RepeatedSuggestion(account: seq<Byte>, contract: seq<Byte>, nonce: nat, data: seq<Byte>, g: nat, upper: nat,
                           hashOf: Tx -> Hash, txOf: Hash -> Tx, first: NodeAnswer, second: NodeAnswer,
                           chain: string, sent: int, now: int, pendingTime: int)
    requires NamesTransactions(hashOf, txOf) && InWindow(sent, now, pendingTime)
    requires CanOffer(first) && first.suggested == Some(g) && CanOffer(second) && second.suggested == Some(g)
    ensures var tx := FirstTx(account, contract, nonce, g, upper, data);
            var faster := SpeedUp(tx, upper, first);
            && faster.Some?
            && (Decide(Entry(hashOf(tx), chain, sent), now, pendingTime, AnswerOf(tx, hashOf, upper, first)).Replace?
                <==> first.accepted && SpeedUpPrice(g, upper) > tx.gasPrice)
            && SpeedUp(faster.value, upper, second) == faster
            && Decide(Entry(hashOf(faster.value), chain, sent), now, pendingTime,
                      AnswerOf(faster.value, hashOf, upper, second))
               == if second.accepted then Drop else Action.Stop
  {
    assert g * (100 + upper + 20) == g * (100 + upper) + g * 20;
    var tx := FirstTx(account, contract, nonce, g, upper, data);
    DecisionIff(tx, hashOf, txOf, upper, first, chain, sent, now, pendingTime);
  }

  // ---------- slots ----------

  /** A queue slot with every transaction that was ever submitted for it, the one it stands for last. */
  datatype Slot = Slot(history: seq<Tx>, chain: string, time: int)

  /** The queue of slots, and the slots that were dropped. */
  datatype Slots = Slots(queue: seq<Slot>, dropped: seq<Slot>)

  /** A push of a freshly sent transaction, or a turn of the sweep on the head. */
  datatype Event =
    | Sent(tx: Tx, chain: string, now: int)
    | Turned(now: int, keyReadable: bool, upper: nat, node: NodeAnswer)

  function Current(s: Slot): Tx
    requires s.history != []
  {
    s.history[|s.history| - 1]
  }

  /** The slots as the queue of hashes sees them. */
  function Head(s: Slot, hashOf: Tx -> Hash): Entry
    requires s.history != []
  {
    Entry(hashOf(Current(s)), s.chain, s.time)
  }

  /** The turn gets as far as asking the node. */
  predicate Asks(s: Slot, e: Event, pendingTime: int)
    requires e.Turned?
  {
    InWindow(s.time, e.now, pendingTime) && e.keyReadable
  }

  function TurnAnswer(s: Slot, e: Event, hashOf: Tx -> Hash): Answer
    requires e.Turned? && s.history != []
  {
    if e.keyReadable then AnswerOf(Current(s), hashOf, e.upper, e.node) else KeyFailed
  }

  /** The slot with what the turn has submitted for it. */
  function Extended(s: Slot, e: Event, pendingTime: int): Slot
    requires e.Turned? && s.history != []
  {
    var faster := SpeedUp(Current(s), e.upper, e.node);
    if Asks(s, e, pendingTime) && faster.Some? then s.(history := s.history + [faster.value]) else s
  }

  ghost predicate Live(s: Slots) {
    forall i :: 0 <= i < |s.queue| ==> s.queue[i].history != []
  }

  function Step(s: Slots, e: Event, pendingTime: int, hashOf: Tx -> Hash): Slots
    requires Live(s)
  {
    match e
    case Sent(tx, chain, now) => s.(queue := s.queue + [Slot([tx], chain, now)])
    case Turned(now, _, _, _) =>
      if s.queue == [] then s
      else
        var head := s.queue[0];
        var after := Extended(head, e, pendingTime);
        match Decide(Head(head, hashOf), now, pendingTime, TurnAnswer(head, e, hashOf))
        case Stop => s.(queue := [after] + s.queue[1..])
        case Drop => Slots(s.queue[1..], s.dropped + [after])
        case Replace(_) => s.(queue := [after.(time := now)] + s.queue[1..])
  }

  /** All transactions of a slot replace the earlier ones: same account, nonce, target, value, gas and
      data, and prices that never fall. */
  ghost predicate Lineage(s: Slot) {
    s.history != [] && forall i, j :: 0 <= i <= j < |s.history| ==> Replaces(s.history[j], s.history[i])
  }

  ghost predicate AllLineages(s: Slots) {
    && (forall i :: 0 <= i < |s.queue| ==> Lineage(s.queue[i]))
    && (forall i :: 0 <= i < |s.dropped| ==> Lineage(s.dropped[i]))
  }

  lemma ExtensionKeepsLineage(s: Slot, e: Event, pendingTime: int)
    requires Lineage(s) && e.Turned?
    ensures Lineage(Extended(s, e, pendingTime))
  {
    var t := Extended(s, e, pendingTime);
    forall i, j | 0 <= i <= j < |t.history|
      ensures Replaces(t.history[j], t.history[i])
    {
      if j == |s.history| && i < j {
        assert Replaces(Current(s), s.history[i]);
      }
    }
  }

  lemma StepKeepsLineages(s: Slots, e: Event, pendingTime: int, hashOf: Tx -> Hash)
    requires Live(s) && AllLineages(s)
    ensures Live(Step(s, e, pendingTime, hashOf)) && AllLineages(Step(s, e, pendingTime, hashOf))
  {
    if e.Turned? && s.queue != [] {
      ExtensionKeepsLineage(s.queue[0], e, pendingTime);
    }
  }

  function Hashes(queue: seq<Slot>, hashOf: Tx -> Hash): seq<Entry>
    requires forall i :: 0 <= i < |queue| ==> queue[i].history != []
  {
    seq(|queue|, i requires 0 <= i < |queue| => Head(queue[i], hashOf))
  }

  /** What the node answers about the transaction behind a hash. */
  function AnswerAbout(head: Entry, e: Event, hashOf: Tx -> Hash, txOf: Hash -> Tx): Answer
    requires e.Turned?
  {
    if e.keyReadable then AnswerOf(txOf(head.hash), hashOf, e.upper, e.node) else KeyFailed
  }

  function ActionOf(q: seq<Entry>, e: Event, pendingTime: int, hashOf: Tx -> Hash, txOf: Hash -> Tx): Action
    requires q != [] && e.Turned?
  {
    Decide(q[0], e.now, pendingTime, AnswerAbout(q[0], e, hashOf, txOf))
  }

  /** The same event on the queue of hashes, which is all that the program holds. The node looks the
      transaction up by its hash. */
  function QueueStep(q: seq<Entry>, e: Event, pendingTime: int, hashOf: Tx -> Hash, txOf: Hash -> Tx): seq<Entry> {
    match e
    case Sent(tx, chain, now) => q + [Entry(hashOf(tx), chain, now)]
    case Turned(now, _, _, _) =>
      if q == [] then q else Apply(q, [], ActionOf(q, e, pendingTime, hashOf, txOf), now)
  }

  /** Nothing is lost by playing the pushes of a turn after it. */
  lemma PushesAfterTurn(q: seq<Entry>, pushed: seq<Entry>, action: Action, now: int)
    requires q != []
    ensures Apply(q, pushed, action, now) == Apply(q, [], action, now) + pushed
  {
    assert q[1..] + [] == q[1..];
  }

  /** The queue of a first slot and the others. */
  lemma HashesFirst(queue: seq<Slot>, hashOf: Tx -> Hash)
    requires queue != [] && forall i :: 0 <= i < |queue| ==> queue[i].history != []
    ensures Hashes(queue, hashOf) == [Head(queue[0], hashOf)] + Hashes(queue[1..], hashOf)
  {
  }

  /** A turn leaves the slots behind the head alone, and the slot at the head is called what the action
      makes of its entry. */
  lemma TurnRefinesHead(s: Slots, e: Event, pendingTime: int, hashOf: Tx -> Hash, txOf: Hash -> Tx)
    requires Live(s) && NamesTransactions(hashOf, txOf) && e.Turned? && s.queue != []
    ensures var head, after := s.queue[0], Extended(s.queue[0], e, pendingTime);
            match Decide(Head(head, hashOf), e.now, pendingTime, TurnAnswer(head, e, hashOf))
            case Stop => Head(after, hashOf) == Head(head, hashOf)
            case Drop => true
            case Replace(h) => Head(after.(time := e.now), hashOf) == Entry(h, head.chain, e.now)
  {
    var head := s.queue[0];
    var faster := SpeedUp(Current(head), e.upper, e.node);
    if faster.Some? {
      assert txOf(hashOf(faster.value)) == faster.value && txOf(hashOf(Current(head))) == Current(head);
    }
  }

  lemma TurnRefinesQueue(s: Slots, e: Event, pendingTime: int, hashOf: Tx -> Hash, txOf: Hash -> Tx)
    requires Live(s) && NamesTransactions(hashOf, txOf) && e.Turned? && s.queue != []
    ensures Live(Step(s, e, pendingTime, hashOf))
    ensures Hashes(Step(s, e, pendingTime, hashOf).queue, hashOf)
         == Apply(Hashes(s.queue, hashOf), [],
                  Decide(Head(s.queue[0], hashOf), e.now, pendingTime, TurnAnswer(s.queue[0], e, hashOf)), e.now)
  {
    var t := Step(s, e, pendingTime, hashOf);
    assert Live(t);
    HashesFirst(s.queue, hashOf);
    TurnRefinesHead(s, e, pendingTime, hashOf, txOf);
    if t.queue != s.queue[1..] {
      HashesFirst(t.queue, hashOf);
      assert t.queue[1..] == s.queue[1..];
    }
  }

  /** Slots with histories refine the queue of hashes, the hash of a kept slot included. */
  lemma StepRefinesQueue(s: Slots, e: Event, pendingTime: int, hashOf: Tx -> Hash, txOf: Hash -> Tx)
    requires Live(s) && NamesTransactions(hashOf, txOf)
    ensures Live(Step(s, e, pendingTime, hashOf))
    ensures Hashes(Step(s, e, pendingTime, hashOf).queue, hashOf)
         == QueueStep(Hashes(s.queue, hashOf), e, pendingTime, hashOf, txOf)
  {
    match e {
      case Sent(tx, chain, now) =>
        assert Hashes(s.queue + [Slot([tx], chain, now)], hashOf)
            == Hashes(s.queue, hashOf) + [Head(Slot([tx], chain, now), hashOf)];
      case Turned(_, _, _, _) =>
        if s.queue != [] {
          TurnRefinesQueue(s, e, pendingTime, hashOf, txOf);
          assert Hashes(s.queue, hashOf)[0] == Head(s.queue[0], hashOf);
          assert txOf(hashOf(Current(s.queue[0]))) == Current(s.queue[0]);
        }
    }
  }

  // ---------- whole runs ----------

  function Play(s: Slots, es: seq<Event>, pendingTime: int, hashOf: Tx -> Hash): (t: Slots)
    requires Live(s)
    ensures Live(t)
    decreases |es|
  {
    if es == [] then s
    else
      assert Live(Step(s, es[0], pendingTime, hashOf));
      Play(Step(s, es[0], pendingTime, hashOf), es[1..], pendingTime, hashOf)
  }

  function QueuePlay(q: seq<Entry>, es: seq<Event>, pendingTime: int, hashOf: Tx -> Hash, txOf: Hash -> Tx): seq<Entry>
    decreases |es|
  {
    if es == [] then q
    else QueuePlay(QueueStep(q, es[0], pendingTime, hashOf, txOf), es[1..], pendingTime, hashOf, txOf)
  }

  lemma {:induction false} RunKeepsLineages(s: Slots, es: seq<Event>, pendingTime: int, hashOf: Tx -> Hash)
    requires Live(s) && AllLineages(s)
    ensures AllLineages(Play(s, es, pendingTime, hashOf))
    decreases |es|
  {
    if es != [] {
      StepKeepsLineages(s, es[0], pendingTime, hashOf);
      RunKeepsLineages(Step(s, es[0], pendingTime, hashOf), es[1..], pendingTime, hashOf);
    }
  }

  /** After any run the program's queue of hashes is that of the slots: at every moment the hash in
      place i names the last transaction of slot i. */
  lemma {:induction false} RunRefinesQueue(s: Slots, es: seq<Event>, pendingTime: int, hashOf: Tx -> Hash, txOf: Hash -> Tx)
    requires Live(s) && NamesTransactions(hashOf, txOf)
    ensures Hashes(Play(s, es, pendingTime, hashOf).queue, hashOf)
         == QueuePlay(Hashes(s.queue, hashOf), es, pendingTime, hashOf, txOf)
    decreases |es|
  {
    if es != [] {
      StepRefinesQueue(s, es[0], pendingTime, hashOf, txOf);
      RunRefinesQueue(Step(s, es[0], pendingTime, hashOf), es[1..], pendingTime, hashOf, txOf);
    }
  }

  /** The age case on its own: sent at 1, a turn at 2 finds the transaction pending and no suggestion
      and stops; the next turn at 5 drops the transaction, which may well be mined later. */
  lemma AgedPendingForgotten(tx: Tx, chain: string, upper: nat, hashOf: Tx -> Hash, txOf: Hash -> Tx)
    requires NamesTransactions(hashOf, txOf)
    ensures var node := NodeAnswer(true, true, None, false, false);
            var es := [Sent(tx, chain, 1), Turned(2, true, upper, node)];
            && QueuePlay([], es, 1, hashOf, txOf) == [Entry(hashOf(tx), chain, 1)]
            && QueuePlay([], es + [Turned(5, true, upper, node)], 1, hashOf, txOf) == []
  {
    var node := NodeAnswer(true, true, None, false, false);
    var sent, early, late := Sent(tx, chain, 1), Turned(2, true, upper, node), Turned(5, true, upper, node);
    var q := [Entry(hashOf(tx), chain, 1)];
    assert QueueStep([], sent, 1, hashOf, txOf) == q && QueueStep(q, early, 1, hashOf, txOf) == q;
    assert QueueStep(q, late, 1, hashOf, txOf) == [];
    assert [sent, early][1..] == [early] && [early][1..] == [] && [late][1..] == [];
    assert QueuePlay(q, [early], 1, hashOf, txOf) == q;
    assert QueuePlay(q, [late], 1, hashOf, txOf) == [];
    QueuePlayConcat([], [sent, early], [late], 1, hashOf, txOf);
  }

  /** The clocks of a run start no earlier than `from`, never go back and end no later than `to`. */
  predicate Clocked(es: seq<Event>, from: int, to: int)
    decreases |es|
  {
    if es == [] then from <= to else from <= es[0].now && Clocked(es[1..], es[0].now, to)
  }

  lemma {:induction false} ClockedSpan(es: seq<Event>, from: int, to: int)
    requires Clocked(es, from, to)
    ensures from <= to
    decreases |es|
  {
    if es != [] {
      ClockedSpan(es[1..], es[0].now, to);
    }
  }

  /** Over any run whose clock does not go back, through any number of sweeps and with pushes before,
      in and between them, the timestamps behind the head stay sorted and none lies in the future. */
  lemma {:induction false} RunKeepsSorted(q: seq<Entry>, es: seq<Event>, from: int, to: int, pendingTime: int,
                                          hashOf: Tx -> Hash, txOf: Hash -> Tx)
    requires Clocked(es, from, to) && SortedBehindHead(q, from)
    ensures SortedBehindHead(QueuePlay(q, es, pendingTime, hashOf, txOf), to)
    decreases |es|
  {
    if es == [] {
    } else {
      var now := es[0].now;
      assert SortedBehindHead(q, now);
      if es[0].Turned? && q != [] {
        TurnKeepsSorted(q, [], ActionOf(q, es[0], pendingTime, hashOf, txOf), now);
      }
      RunKeepsSorted(QueueStep(q, es[0], pendingTime, hashOf, txOf), es[1..], now, to, pendingTime, hashOf, txOf);
    }
  }

  // ---------- a sweep is a run ----------

  lemma {:induction false} QueuePlayConcat(q: seq<Entry>, a: seq<Event>, b: seq<Event>, pendingTime: int,
                                           hashOf: Tx -> Hash, txOf: Hash -> Tx)
    ensures QueuePlay(q, a + b, pendingTime, hashOf, txOf)
         == QueuePlay(QueuePlay(q, a, pendingTime, hashOf, txOf), b, pendingTime, hashOf, txOf)
    decreases |a|
  {
    if a == [] {
      assert a + b == b;
    } else {
      assert (a + b)[1..] == a[1..] + b;
      QueuePlayConcat(QueueStep(q, a[0], pendingTime, hashOf, txOf), a[1..], b, pendingTime, hashOf, txOf);
    }
  }

  function Sends(ps: seq<(Tx, string)>, now: int): seq<Event> {
    seq(|ps|, i requires 0 <= i < |ps| => Sent(ps[i].0, ps[i].1, now))
  }

  function HashesOf(ps: seq<(Tx, string)>, hashOf: Tx -> Hash): seq<(Hash, string)> {
    seq(|ps|, i requires 0 <= i < |ps| => (hashOf(ps[i].0), ps[i].1))
  }

  lemma {:induction false} SendsPlay(q: seq<Entry>, ps: seq<(Tx, string)>, now: int, pendingTime: int,
                                     hashOf: Tx -> Hash, txOf: Hash -> Tx)
    ensures QueuePlay(q, Sends(ps, now), pendingTime, hashOf, txOf) == q + Stamped(HashesOf(ps, hashOf), now)
    decreases |ps|
  {
    var entries := Stamped(HashesOf(ps, hashOf), now);
    if ps == [] {
      assert q + entries == q;
    } else {
      assert Sends(ps, now)[1..] == Sends(ps[1..], now);
      SendsPlay(q + [entries[0]], ps[1..], now, pendingTime, hashOf, txOf);
      assert entries == [entries[0]] + Stamped(HashesOf(ps[1..], hashOf), now);
    }
  }

  /** What happens around a sweep, turn by turn: the keystore, the price margin, the node, and the
      transactions that are sent and pushed meanwhile. */
  datatype Surroundings = Surroundings(keyReadable: nat -> bool, upper: nat, nodes: nat -> NodeAnswer,
                                       sent: nat -> seq<(Tx, string)>)

  function TurnAt(c: Surroundings, now: int, i: nat): Event {
    Turned(now, c.keyReadable(i), c.upper, c.nodes(i))
  }

  /** The queue after turn i and the pushes in it. */
  function AfterTurn(q: seq<Entry>, c: Surroundings, now: int, pendingTime: int, hashOf: Tx -> Hash, txOf: Hash -> Tx,
                     i: nat): seq<Entry>
    requires q != []
  {
    Apply(q, Stamped(HashesOf(c.sent(i), hashOf), now), ActionOf(q, TurnAt(c, now, i), pendingTime, hashOf, txOf), now)
  }

  /** The events of a sweep from turn i on. */
  function SweepEvents(q: seq<Entry>, c: Surroundings, now: int, pendingTime: int, hashOf: Tx -> Hash, txOf: Hash -> Tx,
                       i: nat): seq<Event>
    requires pendingTime > 0
    decreases Aged(q, now, pendingTime)
  {
    if q == [] then []
    else
      [TurnAt(c, now, i)] + Sends(c.sent(i), now) +
      if ActionOf(q, TurnAt(c, now, i), pendingTime, hashOf, txOf).Drop? then
        DropReducesAged(q, Stamped(HashesOf(c.sent(i), hashOf), now), now, pendingTime);
        SweepEvents(AfterTurn(q, c, now, pendingTime, hashOf, txOf, i), c, now, pendingTime, hashOf, txOf, i + 1)
      else []
  }

  /** The world of the sweep gives the node's answers about the head of each turn, and its pushes. */
  ghost predicate Answers(w: World, q: seq<Entry>, c: Surroundings, now: int, pendingTime: int,
                          hashOf: Tx -> Hash, txOf: Hash -> Tx, i: nat)
    requires pendingTime > 0
    decreases Aged(q, now, pendingTime)
  {
    q == [] ||
    (&& w.answers(i) == AnswerAbout(q[0], TurnAt(c, now, i), hashOf, txOf)
     && w.pushed(i) == HashesOf(c.sent(i), hashOf)
     && if ActionOf(q, TurnAt(c, now, i), pendingTime, hashOf, txOf).Drop? then
          DropReducesAged(q, Stamped(HashesOf(c.sent(i), hashOf), now), now, pendingTime);
          Answers(w, AfterTurn(q, c, now, pendingTime, hashOf, txOf, i), c, now, pendingTime, hashOf, txOf, i + 1)
        else true)
  }

  lemma TurnPlays(q: seq<Entry>, c: Surroundings, now: int, pendingTime: int, hashOf: Tx -> Hash, txOf: Hash -> Tx, i: nat)
    requires q != []
    ensures QueuePlay(q, [TurnAt(c, now, i)] + Sends(c.sent(i), now), pendingTime, hashOf, txOf)
         == AfterTurn(q, c, now, pendingTime, hashOf, txOf, i)
  {
    var turn, entries := TurnAt(c, now, i), Stamped(HashesOf(c.sent(i), hashOf), now);
    var after := QueueStep(q, turn, pendingTime, hashOf, txOf);
    assert ([turn] + Sends(c.sent(i), now))[1..] == Sends(c.sent(i), now);
    SendsPlay(after, c.sent(i), now, pendingTime, hashOf, txOf);
    PushesAfterTurn(q, entries, ActionOf(q, turn, pendingTime, hashOf, txOf), now);
  }

  /** A sweep, with the answers of the node and the pushes of other goroutines in every turn, is a run
      of turns and sends. So what holds over all runs holds of the queue that RecheckEvmTx works on. */
  lemma {:induction false} SweepIsRun(w: World, q: seq<Entry>, c: Surroundings, now: int, pendingTime: int,
                                      hashOf: Tx -> Hash, txOf: Hash -> Tx, i: nat)
    requires pendingTime > 0 && Answers(w, q, c, now, pendingTime, hashOf, txOf, i)
    ensures Sweep(q, now, pendingTime, w, i).queue
         == QueuePlay(q, SweepEvents(q, c, now, pendingTime, hashOf, txOf, i), pendingTime, hashOf, txOf)
    decreases Aged(q, now, pendingTime)
  {
    if q != [] {
      var opening := [TurnAt(c, now, i)] + Sends(c.sent(i), now);
      var after := AfterTurn(q, c, now, pendingTime, hashOf, txOf, i);
      TurnPlays(q, c, now, pendingTime, hashOf, txOf, i);
      if ActionOf(q, TurnAt(c, now, i), pendingTime, hashOf, txOf).Drop? {
        DropReducesAged(q, Stamped(HashesOf(c.sent(i), hashOf), now), now, pendingTime);
        SweepIsRun(w, after, c, now, pendingTime, hashOf, txOf, i + 1);
        QueuePlayConcat(q, opening, SweepEvents(after, c, now, pendingTime, hashOf, txOf, i + 1), pendingTime, hashOf, txOf);
      } else {
        assert opening + [] == opening;
      }
    }
  }

  /** The sweep over slots: its queue of hashes is the one that RecheckEvmTx leaves behind. */
  lemma SweepOfSlots(s: Slots, w: World, c: Surroundings, now: int, pendingTime: int, hashOf: Tx -> Hash, txOf: Hash -> Tx)
    requires Live(s) && NamesTransactions(hashOf, txOf) && pendingTime > 0
    requires Answers(w, Hashes(s.queue, hashOf), c, now, pendingTime, hashOf, txOf, 0)
    ensures var q := Hashes(s.queue, hashOf);
            var es := SweepEvents(q, c, now, pendingTime, hashOf, txOf, 0);
            Hashes(Play(s, es, pendingTime, hashOf).queue, hashOf) == Sweep(q, now, pendingTime, w, 0).queue
  {
    var q := Hashes(s.queue, hashOf);
    SweepIsRun(w, q, c, now, pendingTime, hashOf, txOf, 0);
    RunRefinesQueue(s, SweepEvents(q, c, now, pendingTime, hashOf, txOf, 0), pendingTime, hashOf, txOf);
  }

  // ---------- one transaction per slot ----------

  /** A chain takes one transaction per account and nonce. */
  ghost predicate OnePerNonce(mined: set<Tx>) {
    forall t, u :: t in mined && u in mined && t.account == u.account && t.nonce == u.nonce ==> t == u
  }

  /** Over any run of sends, pushes and turns of the sweep, started on an empty queue: all transactions
      ever submitted for one slot, queued or dropped, agree in account, nonce, target, value, gas and
      data, their prices never fall, and at most one of them is mined. */
  lemma AtMostOneMined(es: seq<Event>, pendingTime: int, hashOf: Tx -> Hash, slot: Slot, mined: set<Tx>)
    requires var s := Play(Slots([], []), es, pendingTime, hashOf); slot in s.queue || slot in s.dropped
    requires OnePerNonce(mined)
    ensures forall i, j :: 0 <= i <= j < |slot.history| ==>
              && slot.history[j] == slot.history[i].(gasPrice := slot.history[j].gasPrice)
              && slot.history[i].gasPrice <= slot.history[j].gasPrice
              && (slot.history[i] in mined && slot.history[j] in mined ==> slot.history[i] == slot.history[j])
  {
    RunKeepsLineages(Slots([], []), es, pendingTime, hashOf);
    assert Lineage(slot);
    forall i, j | 0 <= i <= j < |slot.history|
      ensures Replaces(slot.history[j], slot.history[i])
    {
    }
  }
}
