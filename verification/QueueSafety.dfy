/** What becomes of the orders that were pushed for recheck, in every state of every run of
    OrderProtocol (server/recheck.go, server/var.go). */
module QueueSafety {
  import opened Outcomes
  import opened SwapTable
  import opened OrderProtocol
  import opened OrderSafety

  /** How often x stands in a queue or is being rechecked, over all nodes. */
  function Waiting(nodes: seq<Node>, x: Txid): nat {
    if nodes == [] then 0 else Held(nodes[0])[x] + Waiting(nodes[1..], x)
  }

  lemma {:induction false} WaitingUpdate(nodes: seq<Node>, n: nat, v: Node, x: Txid)
    requires n < |nodes|
    ensures Waiting(nodes[n := v], x) + Held(nodes[n])[x] == Waiting(nodes, x) + Held(v)[x]
  {
    if n == 0 {
      assert nodes[0 := v][1..] == nodes[1..];
    } else {
      assert nodes[n := v][1..] == nodes[1..][n - 1 := v];
      WaitingUpdate(nodes[1..], n - 1, v, x);
    }
  }

  lemma {:induction false} NothingWaits(nodes: seq<Node>, x: Txid)
    requires forall n :: 0 <= n < |nodes| ==> InitialNode(nodes[n])
    ensures Waiting(nodes, x) == 0
  {
    if nodes != [] {
      assert InitialNode(nodes[0]);
      NothingWaits(nodes[1..], x);
    }
  }

  /** Every push is still waiting or has ended in exactly one of three ways. */
  predicate PushesAddUp(s: State, x: Txid) {
    s.history.pushes[x] == Waiting(s.nodes, x) + s.history.landed[x] + s.history.moves[x] + s.history.lost[x]
  }

  /** What a node holds after a step, and what the step writes into the books. */
  predicate HeldBalances(s: State, a: Step, x: Txid)
    requires Enabled(s, a) && !a.Advance?
  {
    var h, g := s.history, HistoryStep(s, a);
    Held(NodeStep(s, a))[x] + g.landed[x] + g.moves[x] + g.lost[x] + h.pushes[x]
    == Held(s.nodes[a.n])[x] + h.landed[x] + h.moves[x] + h.lost[x] + g.pushes[x]
  }

  lemma PopBalances(s: State, n: nat, x: Txid)
    requires Enabled(s, Pop(n))
    ensures HeldBalances(s, Pop(n), x)
  {
    var q := s.nodes[n].queue;
    assert q == [q[0]] + q[1..];
  }

  lemma JudgeBalances(s: State, n: nat, verdict: Verdict, fault: DbFault, x: Txid)
    requires Enabled(s, Judge(n, verdict, fault))
    ensures HeldBalances(s, Judge(n, verdict, fault), x)
  {
  }

  lemma PushBalances(s: State, n: nat, k: nat, x: Txid)
    requires Enabled(s, Push(n, k))
    ensures HeldBalances(s, Push(n, k), x)
  {
  }

  /** What a node holds for recheck changes as the books say. */
  lemma HeldMoves(s: State, a: Step, x: Txid)
    requires Enabled(s, a) && !a.Advance?
    ensures HeldBalances(s, a, x)
  {
    match a {
      case Pop(n) => PopBalances(s, n, x);
      case Judge(n, verdict, fault) => JudgeBalances(s, n, verdict, fault, x);
      case Push(n, k) => PushBalances(s, n, k, x);
      case _ =>
    }
  }

  lemma StepKeepsPushes(s: State, a: Step, x: Txid)
    requires Enabled(s, a) && PushesAddUp(s, x)
    ensures PushesAddUp(Next(s, a), x)
  {
    if !a.Advance? {
      HeldMoves(s, a, x);
      WaitingUpdate(s.nodes, a.n, NodeStep(s, a), x);
      assert Next(s, a).nodes == s.nodes[a.n := NodeStep(s, a)];
    }
  }

  lemma {:induction false} RunKeepsPushes(s: State, run: seq<Step>, x: Txid)
    requires RunEnabled(s, run) && PushesAddUp(s, x)
    ensures PushesAddUp(Run(s, run), x)
    decreases |run|
  {
    if run != [] {
      StepKeepsPushes(s, run[0], x);
      RunKeepsPushes(Next(s, run[0]), run[1..], x);
    }
  }

  /** A txid that is held has its owner there. */
  lemma HeldIsOwned(s: State, m: nat, x: Txid) returns (p: Place)
    requires m < |s.nodes| && Held(s.nodes[m])[x] > 0
    ensures p.n == m && Owns(s, p, x)
  {
    var v := s.nodes[m];
    if v.recheck == Some(x) {
      p := Rechecking(m);
    } else {
      var i :| 0 <= i < |v.queue| && v.queue[i] == x;
      p := Queued(m, i);
    }
  }

  lemma {:induction false} WaitingIsOwned(s: State, x: Txid, m: nat) returns (p: Place)
    requires m <= |s.nodes| && Waiting(s.nodes[m..], x) > 0
    ensures m <= p.n && Owns(s, p, x)
    decreases |s.nodes| - m
  {
    assert s.nodes[m..][0] == s.nodes[m] && s.nodes[m..][1..] == s.nodes[m + 1..];
    if Held(s.nodes[m])[x] > 0 {
      p := HeldIsOwned(s, m, x);
    } else {
      p := WaitingIsOwned(s, x, m + 1);
    }
  }

  lemma {:induction false} OneMember(q: seq<Txid>, x: Txid)
    requires forall i, j :: 0 <= i < j < |q| ==> !(q[i] == x && q[j] == x)
    ensures multiset(q)[x] <= 1
  {
    if q != [] {
      OneMember(q[1..], x);
      assert q == [q[0]] + q[1..];
      assert q[0] == x ==> x !in q[1..];
    }
  }

  lemma HeldOnce(s: State, m: nat, x: Txid)
    requires m < |s.nodes| && SingleOwner(s)
    ensures Held(s.nodes[m])[x] <= 1
  {
    var v := s.nodes[m];
    assert forall i :: 0 <= i < |v.queue| && v.queue[i] == x ==> Owns(s, Queued(m, i), x);
    OneMember(v.queue, x);
    assert v.recheck == Some(x) ==> Owns(s, Rechecking(m), x);
  }

  /** A txid with one owner at most waits once at most. */
  lemma {:induction false} OneOwnerWaitsOnce(s: State, x: Txid, m: nat)
    requires m <= |s.nodes| && SingleOwner(s)
    ensures Waiting(s.nodes[m..], x) <= 1
    decreases |s.nodes| - m
  {
    if m < |s.nodes| {
      assert s.nodes[m..][0] == s.nodes[m] && s.nodes[m..][1..] == s.nodes[m + 1..];
      OneOwnerWaitsOnce(s, x, m + 1);
      HeldOnce(s, m, x);
      if Held(s.nodes[m])[x] > 0 {
        var p := HeldIsOwned(s, m, x);
        if Waiting(s.nodes[m + 1..], x) > 0 {
          var q := WaitingIsOwned(s, x, m + 1);
        }
      }
    }
  }

  /** In every state of every run, between ticks or in the middle of one, on any number of nodes:
      every push of a txid is waiting (in one place at most), was found on the ledger, was moved to the
      error table, or was lost by a crash or a refused delete; exactly one of these. */
  lemma PushesConserved(s: State, run: seq<Step>, x: Txid)
    requires Initial(s) && RunEnabled(s, run)
    ensures var t := Run(s, run);
            && t.history.pushes[x] == Waiting(t.nodes, x) + t.history.landed[x] + t.history.moves[x] + t.history.lost[x]
            && Waiting(t.nodes, x) <= 1
  {
    NothingWaits(s.nodes, x);
    RunKeepsPushes(s, run, x);
    InitiallySafe(s);
    RunKeepsSafe(s, run);
    var t := Run(s, run);
    OneOwnerWaitsOnce(t, x, 0);
    assert t.nodes[0..] == t.nodes;
  }
}
