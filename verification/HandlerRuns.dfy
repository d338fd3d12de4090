/** A handler call (OrderHandlers) is a run of protocol steps (OrderProtocol), and when such a call
    leaves a row behind that nobody will work on. */
module HandlerRuns {
  import opened Outcomes
  import opened SwapTable
  import opened NodeVars
  import opened OrderProtocol
  import opened OrderSafety
  import opened OrderHandlers

  /** The steps of a call once its row is stored. */
  function StepsFromStored(n: nat, k: nat, path: Path, env: Environment): seq<Step> {
    if !env.keyReadable || (path.UnwrapSmpc? && !env.created) then [GiveUp(n, k)]
    else
      match path
      case UnwrapCenter => [Attempt(n, k, env.send.Some?)]
      case UnwrapSmpc =>
        if !env.signAccepted then [Attempt(n, k, false)]
        else if FirstSignature(env, 0).None? then [Attempt(n, k, true), GiveUp(n, k)]
        else if SubmittedHash(env).None? then [Attempt(n, k, true), Collect(n, k, false)]
        else [Attempt(n, k, true), Collect(n, k, true), Push(n, k)]
      case _ => if env.send.Some? then [Attempt(n, k, true), Record(n, k)] else [Attempt(n, k, false)]
  }

  /** A call starts with an event, or with an error record that passed `Exist`. */
  predicate Arrival(a: Step) {
    a.Arrive? || a.ArriveFromRecord?
  }

  /** The steps of a whole call. */
  function HandlerSteps(arrive: Step, dealed: set<Txid>, table: set<Txid>, symbolFits: bool, env: Environment): seq<Step>
    requires Arrival(arrive)
  {
    var n, k, path, x := arrive.n, arrive.k, arrive.path, arrive.x;
    if !symbolFits || (path.UnwrapSmpc? && !env.accountsOnline) then [arrive, GiveUp(n, k)]
    else if x in dealed then [arrive, Check(n, k)]
    else
      [arrive, Check(n, k), Store(n, k, env.fault)] +
      if NonEvm(path) && !Inserted(table, x, env.fault).1 then [] else StepsFromStored(n, k, path, env)
  }

  /** A place in the code without the origin of the order. */
  function Plain(pc: Pc): Pc {
    match pc
    case Idle => Idle
    case Fresh(o) => Fresh(o.(origin := Event))
    case Checked(o) => Checked(o.(origin := Event))
    case Stored(o) => Stored(o.(origin := Event))
    case Signing(o) => Signing(o.(origin := Event))
    case Signed(o) => Signed(o.(origin := Event))
    case Sent(o) => Sent(o.(origin := Event))
  }

  function ViewOf(s: State, n: nat, k: nat): View
    requires HasThread(s, n, k)
  {
    var v := s.nodes[n];
    View(Plain(v.threads[k]), v.dealed, s.table, v.attempts, v.recorded, v.queue, s.now)
  }

  /** The steps of a handler, in terms of the view. */
  function ViewStep(w: View, a: Step): Option<View> {
    match a
    case Arrive(_, _, path, x) => if w.pc.Idle? then Some(w.(pc := Fresh(Order(path, x, Event)))) else None
    case ArriveFromRecord(_, _, path, x) =>
      if w.pc.Idle? && x !in w.recorded then Some(w.(pc := Fresh(Order(path, x, Event)))) else None
    case GiveUp(_, _) => if w.pc.Fresh? || w.pc.Stored? || w.pc.Signing? then Some(w.(pc := Idle)) else None
    case Check(_, _) =>
      if !w.pc.Fresh? then None
      else
        var (dealed, first) := CheckDealt(w.dealed, w.pc.o.x);
        Some(w.(pc := if first then Checked(w.pc.o) else Idle, dealed := dealed))
    case Store(_, _, fault) =>
      if !w.pc.Checked? then None
      else
        var (table, ok) := Inserted(w.table, w.pc.o.x, fault);
        Some(w.(pc := if ok || !NonEvm(w.pc.o.path) then Stored(w.pc.o) else Idle, table := table))
    case Attempt(_, _, ok) =>
      if !w.pc.Stored? then None
      else
        var o := w.pc.o;
        Some(w.(pc := if !ok || o.path.UnwrapCenter? then Idle else if o.path.UnwrapSmpc? then Signing(o) else Sent(o),
                attempts := w.attempts + multiset{o.x}))
    case Collect(_, _, ok) => if w.pc.Signing? then Some(w.(pc := if ok then Signed(w.pc.o) else Idle)) else None
    case Push(_, _) => if w.pc.Signed? then Some(w.(pc := Idle, queue := w.queue + [w.pc.o.x])) else None
    case Record(_, _) => if w.pc.Sent? then Some(w.(pc := Idle, recorded := w.recorded[w.pc.o.x := w.now])) else None
    case _ => None
  }

  function ViewRun(w: View, steps: seq<Step>): Option<View>
    decreases |steps|
  {
    if steps == [] then Some(w)
    else if ViewStep(w, steps[0]).None? then None
    else ViewRun(ViewStep(w, steps[0]).value, steps[1..])
  }

  lemma ViewFollowsStep(s: State, a: Step, n: nat, k: nat)
    requires HasThread(s, n, k) && OfThread(a, n, k) && ViewStep(ViewOf(s, n, k), a).Some?
    ensures Enabled(s, a) && HasThread(Next(s, a), n, k)
    ensures Some(ViewOf(Next(s, a), n, k)) == ViewStep(ViewOf(s, n, k), a)
  {
  }

  predicate OfThread(a: Step, n: nat, k: nat) {
    match a
    case Arrive(m, j, _, _) => m == n && j == k
    case ArriveFromRecord(m, j, _, _) => m == n && j == k
    case GiveUp(m, j) => m == n && j == k
    case Check(m, j) => m == n && j == k
    case Store(m, j, _) => m == n && j == k
    case Attempt(m, j, _) => m == n && j == k
    case Collect(m, j, _) => m == n && j == k
    case Push(m, j) => m == n && j == k
    case Record(m, j) => m == n && j == k
    case _ => false
  }

  /** A run of one goroutine's steps is a run of the protocol. */
  lemma {:induction false} ViewFollowsRun(s: State, steps: seq<Step>, n: nat, k: nat)
    requires HasThread(s, n, k) && (forall a :: a in steps ==> OfThread(a, n, k))
    requires ViewRun(ViewOf(s, n, k), steps).Some?
    ensures RunEnabled(s, steps) && HasThread(Run(s, steps), n, k)
    ensures Some(ViewOf(Run(s, steps), n, k)) == ViewRun(ViewOf(s, n, k), steps)
    decreases |steps|
  {
    if steps != [] {
      ViewFollowsStep(s, steps[0], n, k);
      ViewFollowsRun(Next(s, steps[0]), steps[1..], n, k);
    }
  }

  lemma {:induction false} ViewRunConcat(w: View, a: seq<Step>, b: seq<Step>)
    requires ViewRun(w, a).Some?
    ensures ViewRun(w, a + b) == ViewRun(ViewRun(w, a).value, b)
    decreases |a|
  {
    if a == [] {
      assert a + b == b;
    } else {
      assert (a + b)[1..] == a[1..] + b;
      ViewRunConcat(ViewStep(w, a[0]).value, a[1..], b);
    }
  }

  lemma ViewRunShort(w: View, a: Step, b: Step, c: Step)
    ensures ViewRun(w, [a]) == ViewStep(w, a)
    ensures ViewStep(w, a).Some? ==> ViewRun(w, [a, b]) == ViewStep(ViewStep(w, a).value, b)
    ensures ViewRun(w, [a, b]).Some? ==> ViewRun(w, [a, b, c]) == ViewStep(ViewRun(w, [a, b]).value, c)
  {
    assert [a][1..] == [] && [a, b][1..] == [b] && [b][1..] == [] && [a, b, c][1..] == [b, c] && [b, c][1..] == [c];
    assert [c][1..] == [];
    assert ViewRun(w, [a]) == ViewStep(w, a);
    if ViewStep(w, a).Some? {
      var v := ViewStep(w, a).value;
      assert ViewRun(v, [b]) == ViewStep(v, b);
      if ViewStep(v, b).Some? {
        assert ViewRun(ViewStep(v, b).value, [c]) == ViewStep(ViewStep(v, b).value, c);
      }
    }
  }

  /** The view at the end of a call, from a stored row on. */
  lemma StoredPart(w: View, n: nat, k: nat, env: Environment)
    requires w.pc.Stored? && w.now == env.now
    ensures var o := w.pc.o;
            var attempted := env.keyReadable && (o.path.UnwrapSmpc? ==> env.created);
            ViewRun(w, StepsFromStored(n, k, o.path, env)) == Some(w.(
              pc := Idle,
              attempts := if attempted then w.attempts + multiset{o.x} else w.attempts,
              recorded := if attempted && !NonEvm(o.path) && env.send.Some? then w.recorded[o.x := env.now] else w.recorded,
              queue := if attempted && o.path.UnwrapSmpc? && SubmittedHash(env).Some? then w.queue + [o.x] else w.queue))
  {
    var steps := StepsFromStored(n, k, w.pc.o.path, env);
    ViewRunShort(w, steps[0], if |steps| > 1 then steps[1] else steps[0], if |steps| > 2 then steps[2] else steps[0]);
    assert steps == if |steps| == 1 then [steps[0]] else if |steps| == 2 then [steps[0], steps[1]]
                    else [steps[0], steps[1], steps[2]];
  }

  lemma HandlerEnds(w: View, arrive: Step, symbolFits: bool, env: Environment)
    requires w.pc.Idle? && w.now == env.now && Arrival(arrive)
    requires arrive.ArriveFromRecord? ==> arrive.x !in w.recorded
    ensures ViewRun(w, HandlerSteps(arrive, w.dealed, w.table, symbolFits, env))
         == Some(CallEnds(w, arrive.path, arrive.x, symbolFits, env))
  {
    var n, k, path, x := arrive.n, arrive.k, arrive.path, arrive.x;
    var check, store := Check(n, k), Store(n, k, env.fault);
    ViewRunShort(w, arrive, GiveUp(n, k), store);
    ViewRunShort(w, arrive, check, store);
    if symbolFits && (path.UnwrapSmpc? ==> env.accountsOnline) && x !in w.dealed {
      var u := ViewRun(w, [arrive, check, store]).value;
      ViewRunConcat(w, [arrive, check, store],
        if NonEvm(path) && !Inserted(w.table, x, env.fault).1 then [] else StepsFromStored(n, k, path, env));
      if !(NonEvm(path) && !Inserted(w.table, x, env.fault).1) {
        assert u.pc == Stored(Order(path, x, Event));
        StoredPart(u, n, k, env);
      }
    }
  }

  lemma StepsAreOfThread(arrive: Step, dealed: set<Txid>, table: set<Txid>, symbolFits: bool, env: Environment)
    requires Arrival(arrive)
    ensures forall a :: a in HandlerSteps(arrive, dealed, table, symbolFits, env) ==> OfThread(a, arrive.n, arrive.k)
  {
    assert forall a :: a in StepsFromStored(arrive.n, arrive.k, arrive.path, env) ==> OfThread(a, arrive.n, arrive.k);
  }

  /** An uninterrupted call is a run of the protocol: its steps are enabled one after the other, and
      they change the node and the table exactly as DealOrder does for an event and DealTxErrorRecord
      for a record that no recorded send blocks. */
  lemma HandlerIsRun(s: State, arrive: Step, symbolFits: bool, env: Environment)
    requires Arrival(arrive) && Enabled(s, arrive) && s.now == env.now
    ensures var n, k := arrive.n, arrive.k;
            var steps := HandlerSteps(arrive, s.nodes[n].dealed, s.table, symbolFits, env);
            && RunEnabled(s, steps)
            && HasThread(Run(s, steps), n, k)
            && ViewOf(Run(s, steps), n, k) == CallEnds(ViewOf(s, n, k), arrive.path, arrive.x, symbolFits, env)
  {
    var n, k := arrive.n, arrive.k;
    HandlerEnds(ViewOf(s, n, k), arrive, symbolFits, env);
    StepsAreOfThread(arrive, s.nodes[n].dealed, s.table, symbolFits, env);
    ViewFollowsRun(s, HandlerSteps(arrive, s.nodes[n].dealed, s.table, symbolFits, env), n, k);
  }

  // ---------- calls that leave a row behind ----------

  /** Only the goroutine k of node n, and the variables that a handler writes, may differ. */
  ghost predicate OthersSame(s: State, t: State, n: nat, k: nat) {
    && n < |s.nodes| == |t.nodes|
    && (forall m :: 0 <= m < |s.nodes| && m != n ==> t.nodes[m] == s.nodes[m])
    && t.nodes[n].recheck == s.nodes[n].recheck && |t.nodes[n].threads| == |s.nodes[n].threads|
    && (forall j :: 0 <= j < |s.nodes[n].threads| && j != k ==> t.nodes[n].threads[j] == s.nodes[n].threads[j])
  }

  lemma StepOfThread(s: State, a: Step, n: nat, k: nat)
    requires n < |s.nodes| && Enabled(s, a) && OfThread(a, n, k)
    ensures OthersSame(s, Next(s, a), n, k)
  {
    assert a.n == n && a.k == k && !a.Advance?;
    assert Next(s, a).nodes == s.nodes[n := NodeStep(s, a)];
    assert NodeStep(s, a).threads == s.nodes[n].threads[k := NodeStep(s, a).threads[k]];
  }

  lemma {:induction false} RunOfThread(s: State, steps: seq<Step>, n: nat, k: nat)
    requires n < |s.nodes| && RunEnabled(s, steps) && (forall a :: a in steps ==> OfThread(a, n, k))
    ensures OthersSame(s, Run(s, steps), n, k)
    decreases |steps|
  {
    if steps != [] {
      StepOfThread(s, steps[0], n, k);
      RunOfThread(Next(s, steps[0]), steps[1..], n, k);
    }
  }

  /** A call for a txid that has no row leaves one that nobody owns exactly when it gets past the
      checks, its row is written, and it does not end with a submitted transaction in the recheck
      queue. On the group-signed path that is every failure after the insert. */
  lemma CallLeavesOrphanIff(s: State, arrive: Step, symbolFits: bool, env: Environment)
    requires Safe(s) && Arrival(arrive) && Enabled(s, arrive) && s.now == env.now && arrive.x !in s.table
    ensures var dealed, path, x := s.nodes[arrive.n].dealed, arrive.path, arrive.x;
            var steps := HandlerSteps(arrive, dealed, s.table, symbolFits, env);
            && RunEnabled(s, steps)
            && (Orphan(Run(s, steps), x) <==>
                && Passes(path, symbolFits, env, dealed, x) && !env.fault.Refused?
                && !(&& path.UnwrapSmpc? && Attempts(path, symbolFits, env, dealed, s.table, x)
                     && SubmittedHash(env).Some?))
  {
    var n, k, x := arrive.n, arrive.k, arrive.x;
    var steps := HandlerSteps(arrive, s.nodes[n].dealed, s.table, symbolFits, env);
    HandlerIsRun(s, arrive, symbolFits, env);
    StepsAreOfThread(arrive, s.nodes[n].dealed, s.table, symbolFits, env);
    RunOfThread(s, steps, n, k);
    OrphanAfterView(s, Run(s, steps), n, k, arrive.path, x, symbolFits, env);
  }

  lemma OrphanAfterView(s: State, t: State, n: nat, k: nat, path: Path, x: Txid, symbolFits: bool, env: Environment)
    requires OwnersHaveRows(s) && x !in s.table && HasThread(s, n, k) && s.nodes[n].threads[k].Idle?
    requires OthersSame(s, t, n, k) && HasThread(t, n, k)
    requires ViewOf(t, n, k) == CallEnds(ViewOf(s, n, k), path, x, symbolFits, env)
    ensures var dealed := s.nodes[n].dealed;
            Orphan(t, x) <==>
              && Passes(path, symbolFits, env, dealed, x) && !env.fault.Refused?
              && !(&& path.UnwrapSmpc? && Attempts(path, symbolFits, env, dealed, s.table, x)
                   && SubmittedHash(env).Some?)
  {
    CallEndsInTable(ViewOf(s, n, k), path, x, symbolFits, env);
    assert s.nodes[n].queue + [] == s.nodes[n].queue;
    OrphanAfterCallIff(s, t, n, k, x);
  }

  /** What a call does to the row of a new txid, and to the queue. */
  lemma CallEndsInTable(w: View, path: Path, x: Txid, symbolFits: bool, env: Environment)
    requires w.pc.Idle? && x !in w.table
    ensures var v := CallEnds(w, path, x, symbolFits, env);
            && (x in v.table <==> Passes(path, symbolFits, env, w.dealed, x) && !env.fault.Refused?)
            && v.pc.Idle?
            && v.queue == w.queue + if && path.UnwrapSmpc? && Attempts(path, symbolFits, env, w.dealed, w.table, x)
                                       && SubmittedHash(env).Some? then [x] else []
  {
    assert w.queue + [] == w.queue;
  }

  /** When others stay as they were, a new txid has an owner only in the queue that the call extended. */
  lemma OrphanAfterCallIff(s: State, t: State, n: nat, k: nat, x: Txid)
    requires OwnersHaveRows(s) && x !in s.table && OthersSame(s, t, n, k)
    requires HasThread(t, n, k) && t.nodes[n].threads[k].Idle?
    requires t.nodes[n].queue == s.nodes[n].queue || t.nodes[n].queue == s.nodes[n].queue + [x]
    ensures Orphan(t, x) <==> x in t.table && t.nodes[n].queue == s.nodes[n].queue
  {
    var old' := s.nodes[n].queue;
    if t.nodes[n].queue == old' {
      forall p
        ensures !Owns(t, p, x)
      {
        assert !Owns(s, p, x);
      }
    } else {
      assert Owns(t, Queued(n, |old'|), x);
    }
  }

  /** For instance from the start: a first unwrap order whose proposal cannot be built (no funds, no
      answer from the node) leaves its row behind, and is never signed, submitted or moved in any
      continuation, whatever error records come in. */
  lemma FailedProposalStrands(s: State, n: nat, k: nat, x: Txid, env: Environment, later: seq<Step>)
    requires Initial(s) && HasThread(s, n, k) && s.now == env.now
    requires env.accountsOnline && env.fault.Fine? && !env.created
    ensures var steps := [Arrive(n, k, UnwrapSmpc, x), Check(n, k), Store(n, k, Fine), GiveUp(n, k)];
            && RunEnabled(s, steps)
            && (RunEnabled(Run(s, steps), later) ==>
                  var t := Run(Run(s, steps), later);
                  Orphan(t, x) && t.history.signs[x] == t.history.finals[x] == t.history.moves[x] == 0)
  {
    var arrive := Arrive(n, k, UnwrapSmpc, x);
    var steps := [arrive, Check(n, k), Store(n, k, Fine), GiveUp(n, k)];
    assert InitialNode(s.nodes[n]);
    InitiallySafe(s);
    CallLeavesOrphanIff(s, arrive, true, env);
    assert HandlerSteps(arrive, {}, {}, true, env) == steps;
    NoSignsBefore(s, steps);
    if RunEnabled(Run(s, steps), later) {
      OrphanForever(Run(s, steps), later, x);
    }
  }

  /** A wrap or an EVM order is not blocked by a row: unless the node has dealt it, it is sent, whether
      its row is there or not. */
  lemma RowBlocksNoEvmOrder(s: State, arrive: Step, env: Environment)
    requires Arrival(arrive) && Enabled(s, arrive) && s.now == env.now && !NonEvm(arrive.path)
    requires arrive.x !in s.nodes[arrive.n].dealed && env.keyReadable
    ensures var n, steps := arrive.n, HandlerSteps(arrive, s.nodes[arrive.n].dealed, s.table, true, env);
            && RunEnabled(s, steps)
            && n < |Run(s, steps).nodes|
            && Run(s, steps).nodes[n].attempts == s.nodes[n].attempts + multiset{arrive.x}
  {
    HandlerIsRun(s, arrive, true, env);
  }

  lemma {:induction false} NoSignsBefore(s: State, steps: seq<Step>)
    requires RunEnabled(s, steps) && forall a :: a in steps ==> a.Arrive? || a.Check? || a.Store? || a.GiveUp?
    ensures var t := Run(s, steps); t.history.signs == s.history.signs && t.history.finals == s.history.finals && t.history.moves == s.history.moves
    decreases |steps|
  {
    if steps != [] {
      NoSignsBefore(Next(s, steps[0]), steps[1..]);
    }
  }
}
