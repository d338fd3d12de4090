/** A tick of the recheck loop (IotaRecheck) is a run of protocol steps (OrderProtocol), whatever other
    goroutines push meanwhile. */
module RecheckRuns {
  import opened Outcomes
  import opened SwapTable
  import opened OrderProtocol
  import opened OrderSafety
  import opened IotaRecheck
  import opened OrderHandlers

  /** Goroutines ks of node n, all different, are about to push the orders of es. */
  predicate ReadyToPush(s: State, n: nat, ks: seq<nat>, es: seq<IotaRecheck.Entry>) {
    && |ks| == |es|
    && (forall i :: 0 <= i < |ks| ==> ThreadAt(s, n, ks[i]).Signed? && ThreadAt(s, n, ks[i]).o.x == es[i].order.txid)
    && (forall i, j :: 0 <= i < j < |ks| ==> ks[i] != ks[j])
  }

  function PushSteps(n: nat, ks: seq<nat>): seq<Step> {
    seq(|ks|, i requires 0 <= i < |ks| => Push(n, ks[i]))
  }

  lemma {:induction false} RunConcat(s: State, a: seq<Step>, b: seq<Step>)
    requires RunEnabled(s, a) && RunEnabled(Run(s, a), b)
    ensures RunEnabled(s, a + b) && Run(s, a + b) == Run(Run(s, a), b)
    decreases |a|
  {
    if a == [] {
      assert a + b == b;
    } else {
      assert (a + b)[1..] == a[1..] + b;
      RunConcat(Next(s, a[0]), a[1..], b);
    }
  }

  /** Pushes append to the queue in their order and touch no other goroutine. */
  lemma {:induction false} PushesRun(s: State, n: nat, ks: seq<nat>, es: seq<IotaRecheck.Entry>)
    requires n < |s.nodes| && ReadyToPush(s, n, ks, es)
    ensures RunEnabled(s, PushSteps(n, ks))
    ensures var t := Run(s, PushSteps(n, ks));
            && |t.nodes| == |s.nodes| && t.table == s.table && t.nodes[n].recheck == s.nodes[n].recheck
            && t.nodes[n].queue == s.nodes[n].queue + Txids(es)
            && forall k :: k !in ks ==> ThreadAt(t, n, k) == ThreadAt(s, n, k)
    decreases |ks|
  {
    if ks == [] {
      assert s.nodes[n].queue + Txids(es) == s.nodes[n].queue;
    } else {
      var steps := PushSteps(n, ks);
      var u := Next(s, steps[0]);
      assert steps[1..] == PushSteps(n, ks[1..]);
      assert ThreadAt(s, n, ks[0]).Signed? && Txids(es) == [es[0].order.txid] + Txids(es[1..]);
      assert forall k :: k != ks[0] ==> ThreadAt(u, n, k) == ThreadAt(s, n, k);
      PushesRun(u, n, ks[1..], es[1..]);
    }
  }

  /** The steps of one tick: the pushes before it, the pop, the pushes during the check, the verdict.
      A tick that finds the queue empty is its pushes only. */
  function TickSteps(n: nat, queue: seq<IotaRecheck.Entry>, t: Tick, before: seq<nat>, during: seq<nat>): seq<Step> {
    if queue + t.pushed == [] then PushSteps(n, during)
    else PushSteps(n, before) + CheckSteps(n, t, during)
  }

  function CheckSteps(n: nat, t: Tick, during: seq<nat>): seq<Step> {
    [Pop(n)] + PushSteps(n, during) + [Judge(n, t.answer, t.fault)]
  }

  /** A pop takes the head and touches no goroutine. */
  lemma PopStep(s: State, n: nat, q: seq<IotaRecheck.Entry>)
    requires n < |s.nodes| && s.nodes[n].recheck.None? && s.nodes[n].queue == Txids(q) && q != []
    ensures Enabled(s, Pop(n))
    ensures var u := Next(s, Pop(n));
            && |u.nodes| == |s.nodes| && u.table == s.table
            && u.nodes[n].recheck == Some(q[0].order.txid) && u.nodes[n].queue == Txids(q[1..])
            && forall k :: ThreadAt(u, n, k) == ThreadAt(s, n, k)
  {
    assert Txids(q)[1..] == Txids(q[1..]);
  }

  /** A verdict on the order e that was popped. */
  lemma JudgeStep(s: State, n: nat, q: seq<IotaRecheck.Entry>, e: IotaRecheck.Entry, verdict: Verdict, fault: DbFault)
    requires n < |s.nodes| && s.nodes[n].recheck == Some(e.order.txid) && s.nodes[n].queue == Txids(q)
    ensures Enabled(s, Judge(n, verdict, fault))
    ensures var u := Next(s, Judge(n, verdict, fault));
            && |u.nodes| == |s.nodes| && u.nodes[n].recheck.None?
            && u.nodes[n].queue == Txids(q + if verdict.TryLater? then [e] else [])
            && u.table == if verdict.Conflicting? then Deleted(s.table, e.order.txid, fault) else s.table
  {
    assert Txids(q + [e]) == Txids(q) + [e.order.txid];
    assert q + [] == q;
  }

  /** A pop after the pushes before, and the verdict after the pushes during. */
  lemma PopAndJudge(s: State, n: nat, q: seq<IotaRecheck.Entry>, t: Tick, during: seq<nat>)
    requires n < |s.nodes| && s.nodes[n].recheck.None? && s.nodes[n].queue == Txids(q) && q != []
    requires ReadyToPush(s, n, during, t.during)
    ensures RunEnabled(s, CheckSteps(n, t, during))
    ensures var u := Run(s, CheckSteps(n, t, during));
            && n < |u.nodes| && u.nodes[n].recheck.None?
            && u.nodes[n].queue == Txids(q[1..] + t.during + if t.answer.TryLater? then [q[0]] else [])
            && u.table == if t.answer.Conflicting? then Deleted(s.table, q[0].order.txid, t.fault) else s.table
  {
    var popped := Next(s, Pop(n));
    PopStep(s, n, q);
    PushesRun(popped, n, during, t.during);
    var pushed := Run(popped, PushSteps(n, during));
    assert Txids(q[1..]) + Txids(t.during) == Txids(q[1..] + t.during);
    JudgeStep(pushed, n, q[1..] + t.during, q[0], t.answer, t.fault);
    OneStep(s, Pop(n));
    OneStep(pushed, Judge(n, t.answer, t.fault));
    RunConcat(s, [Pop(n)], PushSteps(n, during));
    RunConcat(s, [Pop(n)] + PushSteps(n, during), [Judge(n, t.answer, t.fault)]);
  }

  lemma OneStep(s: State, a: Step)
    requires Enabled(s, a)
    ensures RunEnabled(s, [a]) && Run(s, [a]) == Next(s, a)
  {
    assert [a][1..] == [];
    assert Run(Next(s, a), []) == Next(s, a);
  }

  /** The tables hold the keys of the machine's table. */
  lemma JudgedKeys(d: Tables, q: seq<IotaRecheck.Entry>, t: Tick)
    ensures Judged(d, HeadOf(q), t).rows.Keys
         == if q != [] && t.answer.Conflicting? then Deleted(d.rows.Keys, q[0].order.txid, t.fault) else d.rows.Keys
  {
  }

  lemma SplitReady(s: State, n: nat, before: seq<nat>, during: seq<nat>, a: seq<IotaRecheck.Entry>, b: seq<IotaRecheck.Entry>)
    requires |before| == |a| && ReadyToPush(s, n, before + during, a + b)
    ensures ReadyToPush(s, n, before, a) && ReadyToPush(s, n, during, b)
    ensures forall i :: 0 <= i < |during| ==> during[i] !in before
  {
    assert forall i :: 0 <= i < |before| ==> (before + during)[i] == before[i] && (a + b)[i] == a[i];
    assert forall i :: 0 <= i < |during| ==> (before + during)[|before| + i] == during[i] && (a + b)[|before| + i] == b[i];
  }

  lemma TxidsConcat(a: seq<IotaRecheck.Entry>, b: seq<IotaRecheck.Entry>)
    ensures Txids(a + b) == Txids(a) + Txids(b)
  {
  }

  /** Goroutines that did not push meanwhile are still ready to. */
  lemma StillReady(s: State, u: State, n: nat, before: seq<nat>, during: seq<nat>, es: seq<IotaRecheck.Entry>)
    requires ReadyToPush(s, n, during, es) && forall i :: 0 <= i < |during| ==> during[i] !in before
    requires forall k :: k !in before ==> ThreadAt(u, n, k) == ThreadAt(s, n, k)
    ensures ReadyToPush(u, n, during, es)
  {
  }

  lemma BusyTick(s: State, n: nat, t: Tick, queue: seq<IotaRecheck.Entry>, before: seq<nat>, during: seq<nat>)
    requires n < |s.nodes| && s.nodes[n].recheck.None? && s.nodes[n].queue == Txids(queue)
    requires |before| == |t.pushed| && ReadyToPush(s, n, before + during, t.pushed + t.during)
    requires queue + t.pushed != []
    ensures var steps := TickSteps(n, queue, t, before, during);
            var q := queue + t.pushed;
            && RunEnabled(s, steps)
            && var u := Run(s, steps);
            && n < |u.nodes| && u.nodes[n].recheck.None?
            && u.nodes[n].queue == Txids(q[1..] + t.during + if t.answer.TryLater? then [q[0]] else [])
            && u.table == if t.answer.Conflicting? then Deleted(s.table, q[0].order.txid, t.fault) else s.table
  {
    SplitReady(s, n, before, during, t.pushed, t.during);
    PushesRun(s, n, before, t.pushed);
    var u := Run(s, PushSteps(n, before));
    TxidsConcat(queue, t.pushed);
    StillReady(s, u, n, before, during, t.during);
    PopAndJudge(u, n, queue + t.pushed, t, during);
    RunConcat(s, PushSteps(n, before), CheckSteps(n, t, during));
  }

  /** A tick of RecheckIota with any pushes of other goroutines before it and during its check is a run
      of the protocol: same queue, same keys in the table. */
  lemma RecheckIsRun(s: State, n: nat, t: Tick, queue: seq<IotaRecheck.Entry>, d: Tables, before: seq<nat>, during: seq<nat>)
    requires n < |s.nodes| && s.nodes[n].recheck.None? && s.nodes[n].queue == Txids(queue) && d.rows.Keys == s.table
    requires |before| == |t.pushed| && ReadyToPush(s, n, before + during, t.pushed + t.during)
    ensures var steps := TickSteps(n, queue, t, before, during);
            && RunEnabled(s, steps)
            && var u := Run(s, steps);
            && n < |u.nodes| && u.nodes[n].recheck.None?
            && u.nodes[n].queue == Txids(AfterTick(Books(queue, [], []), t).queue)
            && u.table == Judged(d, HeadOf(queue + t.pushed), t).rows.Keys
  {
    JudgedKeys(d, queue + t.pushed, t);
    if queue + t.pushed == [] {
      SplitReady(s, n, before, during, t.pushed, t.during);
      PushesRun(s, n, during, t.during);
      assert Txids(queue) + Txids(t.during) == Txids(t.during);
    } else {
      BusyTick(s, n, t, queue, before, during);
      assert (queue + t.pushed)[1..] + t.during + [] == (queue + t.pushed)[1..] + t.during;
    }
  }
}
