/** What every run of OrderProtocol keeps. */
module OrderSafety {
  import opened Outcomes
  import opened SwapTable
  import opened OrderProtocol

  // ---------- ownership ----------

  /** The places where a non-EVM unwrap order can be worked on. */
  datatype Place = Thread(n: nat, k: nat) | Queued(n: nat, i: nat) | Rechecking(n: nat)

  /** A goroutine owns its order from the successful insert until it has pushed it. */
  predicate Deals(pc: Pc, x: Txid) {
    ((pc.Stored? && NonEvm(pc.o.path)) || pc.Signing? || pc.Signed?) && pc.o.x == x
  }

  predicate Owns(s: State, p: Place, x: Txid) {
    p.n < |s.nodes| &&
    var v := s.nodes[p.n];
    match p
    case Thread(_, k) => k < |v.threads| && Deals(v.threads[k], x)
    case Queued(_, i) => i < |v.queue| && v.queue[i] == x
    case Rechecking(_) => v.recheck == Some(x)
  }

  ghost predicate SingleOwner(s: State) {
    forall p, q, x :: Owns(s, p, x) && Owns(s, q, x) ==> p == q
  }

  ghost predicate OwnersHaveRows(s: State) {
    forall p, x :: Owns(s, p, x) ==> x in s.table
  }

  /** Where the owner at p was before the step. */
  function Before(s: State, a: Step, p: Place): Place
    requires Enabled(s, a)
  {
    match a
    case Push(n, k) => if p == Queued(n, |s.nodes[n].queue|) then Thread(n, k) else p
    case Pop(n) =>
      if p == Rechecking(n) then Queued(n, 0)
      else if p.Queued? && p.n == n then Queued(n, p.i + 1) else p
    case Judge(n, TryLater, _) => if p == Queued(n, |s.nodes[n].queue|) then Rechecking(n) else p
    case _ => p
  }

  /** An owner after a step was an owner before it, or has just inserted a row that was not there. */
  lemma OwnerTraces(s: State, a: Step, p: Place, x: Txid)
    requires Enabled(s, a) && Owns(Next(s, a), p, x)
    ensures Owns(s, Before(s, a, p), x)
         || (a.Store? && p == Thread(a.n, a.k) && x !in s.table && x in Next(s, a).table)
  {
    if !a.Advance? && p.n == a.n {
      assert Next(s, a).nodes[p.n] == NodeStep(s, a);
      match p {
        case Thread(_, k) => DealerTraces(s, a, k, x);
        case Queued(_, i) => QueuedTraces(s, a, i, x);
        case Rechecking(_) =>
      }
    }
  }

  lemma DealerTraces(s: State, a: Step, k: nat, x: Txid)
    requires Enabled(s, a) && !a.Advance? && k < |NodeStep(s, a).threads| && Deals(NodeStep(s, a).threads[k], x)
    ensures k < |s.nodes[a.n].threads|
    ensures Deals(s.nodes[a.n].threads[k], x)
         || (a.Store? && k == a.k && x !in s.table && x in TableStep(s, a))
  {
  }

  lemma QueuedTraces(s: State, a: Step, i: nat, x: Txid)
    requires Enabled(s, a) && !a.Advance? && i < |NodeStep(s, a).queue| && NodeStep(s, a).queue[i] == x
    ensures Owns(s, Before(s, a, Queued(a.n, i)), x)
  {
  }

  /** Two owners of one txid do not come from the same place. */
  lemma BeforeInjective(s: State, a: Step, p: Place, q: Place, x: Txid)
    requires Enabled(s, a) && Owns(Next(s, a), p, x) && Owns(Next(s, a), q, x)
    requires Before(s, a, p) == Before(s, a, q)
    ensures p == q
  {
  }

  lemma StepKeepsOwnership(s: State, a: Step)
    requires Enabled(s, a) && SingleOwner(s) && OwnersHaveRows(s)
    ensures SingleOwner(Next(s, a)) && OwnersHaveRows(Next(s, a))
  {
    var t := Next(s, a);
    forall p, q, x | Owns(t, p, x) && Owns(t, q, x)
      ensures p == q
    {
      OwnerTraces(s, a, p, x);
      OwnerTraces(s, a, q, x);
      if Owns(s, Before(s, a, p), x) && Owns(s, Before(s, a, q), x) {
        BeforeInjective(s, a, p, q, x);
      }
    }
    forall p, x | Owns(t, p, x)
      ensures x in t.table
    {
      OwnerTraces(s, a, p, x);
      RowStaysWithOwner(s, a, p, x);
    }
  }

  /** A row is deleted only by its owner, which then owns it no more. */
  lemma RowStaysWithOwner(s: State, a: Step, p: Place, x: Txid)
    requires Enabled(s, a) && SingleOwner(s) && OwnersHaveRows(s)
    ensures Owns(Next(s, a), p, x) && Owns(s, Before(s, a, p), x) ==> x in Next(s, a).table
  {
    if a.Judge? && a.verdict.Conflicting? {
      assert Owns(s, Rechecking(a.n), s.nodes[a.n].recheck.value);
    }
  }

  // ---------- the books of the table ----------

  /** Every insert is still in the table or was moved away. */
  ghost predicate RowsAddUp(s: State) {
    forall x :: s.history.inserts[x] == s.history.moves[x] + if x in s.table then 1 else 0
  }

  predicate NotYetSigned(pc: Pc, x: Txid) {
    pc.Stored? && NonEvm(pc.o.path) && pc.o.x == x
  }

  predicate NotYetSubmitted(pc: Pc, x: Txid) {
    NotYetSigned(pc, x) || (pc.Signing? && pc.o.x == x)
  }

  function ThreadAt(s: State, n: nat, k: nat): Pc {
    if HasThread(s, n, k) then s.nodes[n].threads[k] else Idle
  }

  /** Each insert pays for one request and one submission, and one that is still to come is unpaid. */
  ghost predicate AttemptsPaid(s: State) {
    && (forall x :: s.history.signs[x] <= s.history.inserts[x] && s.history.finals[x] <= s.history.inserts[x])
    && (forall n, k, x :: NotYetSigned(ThreadAt(s, n, k), x) ==> s.history.signs[x] < s.history.inserts[x])
    && (forall n, k, x :: NotYetSubmitted(ThreadAt(s, n, k), x) ==> s.history.finals[x] < s.history.inserts[x])
  }

  /** The step moves x to the error table. */
  predicate MovesAway(s: State, a: Step, x: Txid)
    requires Enabled(s, a)
  {
    a.Judge? && a.verdict.Conflicting? && !a.fault.Refused? && s.nodes[a.n].recheck == Some(x)
  }

  /** How a step moves the books of one txid. */
  lemma BooksMove(s: State, a: Step, x: Txid)
    requires Enabled(s, a)
    ensures var t := Next(s, a);
            && t.history.inserts[x] == s.history.inserts[x] + (if a.Store? && x !in s.table && x in t.table then 1 else 0)
            && t.history.signs[x] == s.history.signs[x] + (if a.Attempt? && NotYetSigned(ThreadAt(s, a.n, a.k), x) then 1 else 0)
            && t.history.finals[x] == s.history.finals[x] + (if a.Collect? && ThreadAt(s, a.n, a.k).o.x == x then 1 else 0)
            && t.history.moves[x] == s.history.moves[x] + (if MovesAway(s, a, x) then 1 else 0)
  {
  }

  /** How a step changes the table, for one txid. */
  lemma TableMoves(s: State, a: Step, x: Txid)
    requires Enabled(s, a)
    ensures x in Next(s, a).table <==>
              if MovesAway(s, a, x) then false else x in s.table || (a.Store? && x in Next(s, a).table)
  {
  }

  lemma StepKeepsRows(s: State, a: Step)
    requires Enabled(s, a) && OwnersHaveRows(s) && RowsAddUp(s)
    ensures RowsAddUp(Next(s, a))
  {
    forall x
      ensures Next(s, a).history.inserts[x] == Next(s, a).history.moves[x] + if x in Next(s, a).table then 1 else 0
    {
      BooksMove(s, a, x);
      TableMoves(s, a, x);
      assert s.history.inserts[x] == s.history.moves[x] + if x in s.table then 1 else 0;
      if MovesAway(s, a, x) {
        assert Owns(s, Rechecking(a.n), x);
      }
    }
  }

  /** A request still to come was to come before the step, or its row has just been inserted. */
  lemma UnpaidTraces(s: State, a: Step, n: nat, k: nat, x: Txid)
    requires Enabled(s, a) && NotYetSubmitted(ThreadAt(Next(s, a), n, k), x)
    ensures || (&& NotYetSubmitted(ThreadAt(s, n, k), x)
                && (NotYetSigned(ThreadAt(Next(s, a), n, k), x) ==> NotYetSigned(ThreadAt(s, n, k), x)))
            || (a.Store? && n == a.n && k == a.k && x !in s.table && x in Next(s, a).table)
  {
    if !a.Advance? && n == a.n {
      assert Next(s, a).nodes[n] == NodeStep(s, a) && Next(s, a).table == TableStep(s, a);
      UnpaidInNode(s, a, k, x);
    }
  }

  lemma UnpaidInNode(s: State, a: Step, k: nat, x: Txid)
    requires Enabled(s, a) && !a.Advance? && k < |NodeStep(s, a).threads|
    requires NotYetSubmitted(NodeStep(s, a).threads[k], x)
    ensures k < |s.nodes[a.n].threads|
    ensures var before, after := s.nodes[a.n].threads[k], NodeStep(s, a).threads[k];
            || (NotYetSubmitted(before, x) && (NotYetSigned(after, x) ==> NotYetSigned(before, x)))
            || (a.Store? && k == a.k && x !in s.table && x in TableStep(s, a))
  {
  }

  /** A request still to come is unpaid after any step: it is a new insert, or it was unpaid before
      and the step was not its own, so by single ownership not of its txid. */
  lemma PaymentOf(s: State, a: Step, n: nat, k: nat, x: Txid)
    requires Enabled(s, a) && SingleOwner(s) && AttemptsPaid(s)
    requires NotYetSubmitted(ThreadAt(Next(s, a), n, k), x)
    ensures Next(s, a).history.finals[x] < Next(s, a).history.inserts[x]
    ensures NotYetSigned(ThreadAt(Next(s, a), n, k), x) ==> Next(s, a).history.signs[x] < Next(s, a).history.inserts[x]
  {
    UnpaidTraces(s, a, n, k, x);
    BooksMove(s, a, x);
    assert s.history.signs[x] <= s.history.inserts[x] && s.history.finals[x] <= s.history.inserts[x];
    if NotYetSubmitted(ThreadAt(s, n, k), x) {
      assert Owns(s, Thread(n, k), x);
      if (a.Attempt? || a.Collect?) && Deals(ThreadAt(s, a.n, a.k), x) {
        assert Owns(s, Thread(a.n, a.k), x);
      }
    }
  }

  /** What a step asks for or submits was unpaid before it. */
  lemma CountsStayPaid(s: State, a: Step, x: Txid)
    requires Enabled(s, a) && AttemptsPaid(s)
    ensures Next(s, a).history.signs[x] <= Next(s, a).history.inserts[x]
    ensures Next(s, a).history.finals[x] <= Next(s, a).history.inserts[x]
  {
    BooksMove(s, a, x);
    assert s.history.signs[x] <= s.history.inserts[x] && s.history.finals[x] <= s.history.inserts[x];
    if a.Attempt? || a.Collect? {
      var pc := ThreadAt(s, a.n, a.k);
      assert NotYetSigned(pc, x) ==> s.history.signs[x] < s.history.inserts[x];
      assert NotYetSubmitted(pc, x) ==> s.history.finals[x] < s.history.inserts[x];
    }
  }

  lemma StepKeepsPayment(s: State, a: Step)
    requires Enabled(s, a) && SingleOwner(s) && AttemptsPaid(s)
    ensures AttemptsPaid(Next(s, a))
  {
    var t := Next(s, a);
    forall n, k, x | NotYetSubmitted(ThreadAt(t, n, k), x)
      ensures t.history.finals[x] < t.history.inserts[x]
      ensures NotYetSigned(ThreadAt(t, n, k), x) ==> t.history.signs[x] < t.history.inserts[x]
    {
      PaymentOf(s, a, n, k, x);
    }
    forall x
      ensures t.history.signs[x] <= t.history.inserts[x] && t.history.finals[x] <= t.history.inserts[x]
    {
      CountsStayPaid(s, a, x);
    }
  }

  // ---------- whole runs ----------

  ghost predicate Safe(s: State) {
    SingleOwner(s) && OwnersHaveRows(s) && RowsAddUp(s) && AttemptsPaid(s)
  }

  lemma InitiallySafe(s: State)
    requires Initial(s)
    ensures Safe(s)
  {
    forall p, x
      ensures !Owns(s, p, x)
    {
      if p.n < |s.nodes| {
        assert InitialNode(s.nodes[p.n]);
      }
    }
    forall n: nat, k: nat, x
      ensures !NotYetSubmitted(ThreadAt(s, n, k), x)
    {
      if HasThread(s, n, k) {
        assert InitialNode(s.nodes[n]);
      }
    }
  }

  lemma {:induction false} RunKeepsSafe(s: State, run: seq<Step>)
    requires Safe(s) && RunEnabled(s, run)
    ensures Safe(Run(s, run))
    decreases |run|
  {
    if run != [] {
      StepKeepsOwnership(s, run[0]);
      StepKeepsRows(s, run[0]);
      StepKeepsPayment(s, run[0]);
      RunKeepsSafe(Next(s, run[0]), run[1..]);
    }
  }

  /** Over every interleaving of all nodes, dedup resets and crashes: a txid on a non-EVM unwrap path
      has at most one owner among all nodes, every owner's row is in swap_order, and the group was
      asked to sign (or the Shimmer sender to send), and a signed transaction was submitted, at most
      once more than the order was moved to the error table. */
  lemma SingleOwnership(s: State, run: seq<Step>)
    requires Initial(s) && RunEnabled(s, run)
    ensures var t := Run(s, run);
            && SingleOwner(t) && OwnersHaveRows(t)
            && forall x :: t.history.signs[x] <= 1 + t.history.moves[x] && t.history.finals[x] <= 1 + t.history.moves[x]
  {
    InitiallySafe(s);
    RunKeepsSafe(s, run);
    var t := Run(s, run);
    forall x
      ensures t.history.signs[x] <= 1 + t.history.moves[x] && t.history.finals[x] <= 1 + t.history.moves[x]
    {
      assert t.history.inserts[x] == t.history.moves[x] + if x in t.table then 1 else 0;
      assert t.history.signs[x] <= t.history.inserts[x] && t.history.finals[x] <= t.history.inserts[x];
    }
  }

  // ---------- orders that lost their owner ----------

  /** A row without an owner: nobody deals the order, queues it or rechecks it. */
  ghost predicate Orphan(s: State, x: Txid) {
    x in s.table && forall p :: !Owns(s, p, x)
  }

  predicate HeldBy(v: Node, x: Txid) {
    || (exists k :: 0 <= k < |v.threads| && Deals(v.threads[k], x))
    || x in v.queue || v.recheck == Some(x)
  }

  /** The goroutine at k has the order x of a non-EVM path in hand. */
  predicate InHand(s: State, n: nat, k: nat, x: Txid) {
    Deals(ThreadAt(s, n, k), x)
  }

  /** The steps that lose an order whose row stays behind: an insert whose acknowledgement is lost, a
      proposal or key that fails, a send or sign request that is refused, a signature that never comes
      or cannot be submitted, a conflict whose delete is refused, a process that stops. */
  predicate Strands(s: State, a: Step, x: Txid)
    requires Enabled(s, a)
  {
    match a
    case Store(n, k, fault) =>
      var o := s.nodes[n].threads[k].o;
      o.x == x && NonEvm(o.path) && x !in s.table && fault.AckLost?
    case GiveUp(n, k) => InHand(s, n, k, x)
    case Attempt(n, k, ok) => InHand(s, n, k, x) && !ok
    case Collect(n, k, ok) => InHand(s, n, k, x) && !ok
    case Judge(n, verdict, fault) => s.nodes[n].recheck == Some(x) && verdict.Conflicting? && fault.Refused?
    case Crash(n) => HeldBy(s.nodes[n], x)
    case _ => false
  }

  /** The ends that are meant: the order was sent by the one key, or the recheck found it on the ledger. */
  predicate Completes(s: State, a: Step, x: Txid)
    requires Enabled(s, a)
  {
    match a
    case Attempt(n, k, ok) => InHand(s, n, k, x) && ok && s.nodes[n].threads[k].o.path.UnwrapCenter?
    case Judge(n, verdict, _) => s.nodes[n].recheck == Some(x) && verdict.Landed?
    case _ => false
  }

  /** A row of an EVM path or of a wrap is only a record: no owner is ever set to it. */
  predicate FilesRecord(s: State, a: Step, x: Txid)
    requires Enabled(s, a)
  {
    a.Store? && var o := s.nodes[a.n].threads[a.k].o; o.x == x && !NonEvm(o.path) && x !in s.table && !a.fault.Refused?
  }

  lemma HeldMeansOwned(s: State, n: nat, x: Txid)
    requires n < |s.nodes|
    ensures HeldBy(s.nodes[n], x) <==> exists p: Place :: p.n == n && Owns(s, p, x)
  {
    var v := s.nodes[n];
    if HeldBy(v, x) {
      if k :| 0 <= k < |v.threads| && Deals(v.threads[k], x) {
        assert Owns(s, Thread(n, k), x);
      } else if i :| 0 <= i < |v.queue| && v.queue[i] == x {
        assert Owns(s, Queued(n, i), x);
      } else {
        assert Owns(s, Rechecking(n), x);
      }
    }
  }

  /** Where the owner at p is after a step that does not take the order from it. */
  function After(s: State, a: Step, p: Place): Place
    requires Enabled(s, a) && p.n < |s.nodes|
  {
    match a
    case Push(n, k) => if p == Thread(n, k) then Queued(n, |s.nodes[n].queue|) else p
    case Pop(n) =>
      if p.Queued? && p.n == n then (if p.i == 0 then Rechecking(n) else Queued(n, p.i - 1)) else p
    case Judge(n, TryLater, _) => if p == Rechecking(n) then Queued(n, |s.nodes[n].queue|) else p
    case _ => p
  }

  /** An owner stays an owner unless the step completes or strands its order, or moves it away. */
  lemma OwnerGoesOn(s: State, a: Step, p: Place, x: Txid)
    requires Enabled(s, a) && Owns(s, p, x)
    requires !Strands(s, a, x) && !Completes(s, a, x) && !MovesAway(s, a, x)
    ensures Owns(Next(s, a), After(s, a, p), x)
  {
    if a.Crash? {
      HeldMeansOwned(s, a.n, x);
    } else if !a.Advance? && p.n == a.n {
      assert Next(s, a).nodes[p.n] == NodeStep(s, a);
      match p {
        case Thread(_, k) => ThreadGoesOn(s, a, k, x);
        case Queued(_, i) => QueuedGoesOn(s, a, i, x);
        case Rechecking(_) => RecheckGoesOn(s, a, x);
      }
    }
  }

  lemma DealerGoesOn(s: State, a: Step, k: nat, x: Txid)
    requires Enabled(s, a) && !a.Advance? && !a.Crash? && Owns(s, Thread(a.n, k), x)
    requires !Strands(s, a, x) && !Completes(s, a, x)
    ensures var v := NodeStep(s, a);
            if a == Push(a.n, k) then v.queue == s.nodes[a.n].queue + [x]
            else k < |v.threads| && Deals(v.threads[k], x)
  {
  }

  lemma ThreadGoesOn(s: State, a: Step, k: nat, x: Txid)
    requires Enabled(s, a) && !a.Advance? && !a.Crash? && Owns(s, Thread(a.n, k), x)
    requires !Strands(s, a, x) && !Completes(s, a, x)
    ensures Owns(Next(s, a), After(s, a, Thread(a.n, k)), x)
  {
    assert Next(s, a).nodes[a.n] == NodeStep(s, a);
    DealerGoesOn(s, a, k, x);
  }

  lemma RecheckGoesOn(s: State, a: Step, x: Txid)
    requires Enabled(s, a) && !a.Advance? && !a.Crash? && Owns(s, Rechecking(a.n), x)
    requires !Strands(s, a, x) && !Completes(s, a, x) && !MovesAway(s, a, x)
    ensures Owns(Next(s, a), After(s, a, Rechecking(a.n)), x)
  {
    assert Next(s, a).nodes[a.n] == NodeStep(s, a);
  }

  lemma QueuedGoesOn(s: State, a: Step, i: nat, x: Txid)
    requires Enabled(s, a) && !a.Advance? && !a.Crash? && Owns(s, Queued(a.n, i), x)
    ensures Owns(Next(s, a), After(s, a, Queued(a.n, i)), x)
  {
  }

  /** Who loses x in such a step. */
  lemma LoserOf(s: State, a: Step, x: Txid) returns (q: Place)
    requires Enabled(s, a) && !a.Store? && (Strands(s, a, x) || Completes(s, a, x))
    ensures q.n == a.n && Owns(s, q, x)
    ensures !a.Crash? ==> q == if a.Judge? then Rechecking(a.n) else Thread(a.n, a.k)
  {
    if a.Crash? {
      HeldMeansOwned(s, a.n, x);
      q :| q.n == a.n && Owns(s, q, x);
    } else {
      q := if a.Judge? then Rechecking(a.n) else Thread(a.n, a.k);
    }
  }

  /** After any of these steps nobody owns x. */
  lemma OwnerIsLost(s: State, a: Step, x: Txid)
    requires Enabled(s, a) && Safe(s)
    requires Strands(s, a, x) || Completes(s, a, x) || FilesRecord(s, a, x)
    ensures Orphan(Next(s, a), x)
  {
    if !a.Store? {
      var q := LoserOf(s, a, x);
    }
    forall p
      ensures !Owns(Next(s, a), p, x)
    {
      if Owns(Next(s, a), p, x) {
        OwnerTraces(s, a, p, x);
      }
    }
  }

  /** A step leaves a row without an owner exactly when it strands the order, completes it, or files
      the row of an order that is never owned. */
  lemma OrphanedIff(s: State, a: Step, x: Txid)
    requires Enabled(s, a) && Safe(s) && !Orphan(s, x)
    ensures Orphan(Next(s, a), x) <==> Strands(s, a, x) || Completes(s, a, x) || FilesRecord(s, a, x)
  {
    if Strands(s, a, x) || Completes(s, a, x) || FilesRecord(s, a, x) {
      OwnerIsLost(s, a, x);
    } else {
      TableMoves(s, a, x);
      if x in s.table && !MovesAway(s, a, x) {
        var p :| Owns(s, p, x);
        OwnerGoesOn(s, a, p, x);
      } else if a.Store? && x in Next(s, a).table {
        assert Owns(Next(s, a), Thread(a.n, a.k), x);
      }
    }
  }

  /** Some step of the run strands the order, completes it or files a mere record. */
  predicate LosesOwner(s: State, run: seq<Step>, x: Txid)
    requires RunEnabled(s, run)
    decreases |run|
  {
    run != [] &&
    (Strands(s, run[0], x) || Completes(s, run[0], x) || FilesRecord(s, run[0], x) || LosesOwner(Next(s, run[0]), run[1..], x))
  }

  /** At the end of a run a row stands without an owner if and only if such a step occurred: nothing
      else loses an order, and nothing takes one up again. */
  lemma {:induction false} OrphanAfterRunIff(s: State, run: seq<Step>, x: Txid)
    requires RunEnabled(s, run) && Safe(s) && !Orphan(s, x)
    ensures Orphan(Run(s, run), x) <==> LosesOwner(s, run, x)
    decreases |run|
  {
    if run != [] {
      var a, t := run[0], Next(s, run[0]);
      OrphanedIff(s, a, x);
      if Orphan(t, x) {
        OrphanForever(t, run[1..], x);
      } else {
        StepKeepsOwnership(s, a);
        StepKeepsRows(s, a);
        StepKeepsPayment(s, a);
        OrphanAfterRunIff(t, run[1..], x);
      }
    }
  }

  lemma OrphanStays(s: State, a: Step, x: Txid)
    requires Enabled(s, a) && Orphan(s, x)
    ensures var t := Next(s, a);
            Orphan(t, x) && t.history.signs[x] == s.history.signs[x] && t.history.finals[x] == s.history.finals[x] && t.history.moves[x] == s.history.moves[x]
  {
    forall p
      ensures !Owns(Next(s, a), p, x)
    {
      if Owns(Next(s, a), p, x) {
        OwnerTraces(s, a, p, x);
      }
    }
    if a.Attempt? || a.Collect? {
      assert !Owns(s, Thread(a.n, a.k), x);
    } else if a.Judge? {
      assert !Owns(s, Rechecking(a.n), x);
    }
  }

  /** The row blocks the non-EVM order for good: in every continuation, whatever events or error
      records arrive on whatever node, the txid is never signed, submitted or moved on a non-EVM path
      again. (A wrap or an EVM order goes on without its row, so nothing is said about those.) */
  lemma {:induction false} OrphanForever(s: State, run: seq<Step>, x: Txid)
    requires RunEnabled(s, run) && Orphan(s, x)
    ensures var t := Run(s, run);
            Orphan(t, x) && t.history.signs[x] == s.history.signs[x] && t.history.finals[x] == s.history.finals[x] && t.history.moves[x] == s.history.moves[x]
    decreases |run|
  {
    if run != [] {
      OrphanStays(s, run[0], x);
      OrphanForever(Next(s, run[0]), run[1..], x);
    }
  }

  /** So a stranded order is stranded for every later run of every node: its row stays, and it is
      never signed, submitted or moved to the error table again. */
  lemma StrandedForever(s: State, a: Step, x: Txid, run: seq<Step>)
    requires Enabled(s, a) && Safe(s) && Strands(s, a, x) && RunEnabled(Next(s, a), run)
    ensures var t, u := Next(s, a), Run(Next(s, a), run);
            Orphan(u, x) && u.history.signs[x] == t.history.signs[x] && u.history.finals[x] == t.history.finals[x] && u.history.moves[x] == t.history.moves[x]
  {
    OwnerIsLost(s, a, x);
    OrphanForever(Next(s, a), run, x);
  }

  /** In particular the order of a node that stops while it owns it. */
  lemma CrashStrands(s: State, p: Place, x: Txid, run: seq<Step>)
    requires Safe(s) && Owns(s, p, x) && RunEnabled(Next(s, Crash(p.n)), run)
    ensures var t := Run(Next(s, Crash(p.n)), run);
            x in t.table && t.history.signs[x] == s.history.signs[x] && t.history.finals[x] == s.history.finals[x] && t.history.moves[x] == s.history.moves[x]
  {
    HeldMeansOwned(s, p.n, x);
    StrandedForever(s, Crash(p.n), x, run);
  }
}
