/** What every run of OrderProtocol keeps at a single node: attempts are bounded by dedup resets, and
    a sent EVM order is protected from error records for a day. */
module NodeSafety {
  import opened SwapTable
  import opened NodeVars
  import opened OrderProtocol

  // ---------- attempts and resets ----------

  /** The goroutine has passed the dedup check with x and may still send it. */
  function Charge(pc: Pc, x: Txid): nat {
    if (pc.Checked? || pc.Stored?) && pc.o.x == x then 1 else 0
  }

  function Pending(threads: seq<Pc>, x: Txid): nat {
    if threads == [] then 0 else Pending(threads[1..], x) + Charge(threads[0], x)
  }

  lemma {:induction false} PendingUpdate(threads: seq<Pc>, k: nat, pc: Pc, x: Txid)
    requires k < |threads|
    ensures Pending(threads[k := pc], x) + Charge(threads[k], x) == Pending(threads, x) + Charge(pc, x)
  {
    if k == 0 {
      assert threads[0 := pc][1..] == threads[1..];
    } else {
      assert threads[k := pc][1..] == threads[1..][k - 1 := pc];
      PendingUpdate(threads[1..], k - 1, pc, x);
    }
  }

  lemma {:induction false} PendingIdle(threads: seq<Pc>, x: Txid)
    requires forall k :: 0 <= k < |threads| ==> threads[k].Idle?
    ensures Pending(threads, x) == 0
  {
    if threads != [] {
      PendingIdle(threads[1..], x);
    }
  }

  /** Each passed check is paid for by a reset, except the one that the dealt set still remembers. */
  predicate Bounded(v: Node, x: Txid) {
    v.attempts[x] + Pending(v.threads, x) <= v.resets + if x in v.dealed then 1 else 0
  }

  lemma NodeKeepsBound(s: State, a: Step, x: Txid)
    requires Enabled(s, a) && !a.Advance? && Bounded(s.nodes[a.n], x)
    ensures Bounded(NodeStep(s, a), x)
  {
    var v, w := s.nodes[a.n], NodeStep(s, a);
    if a.Crash? {
      PendingIdle(w.threads, x);
    } else if w.threads != v.threads {
      PendingUpdate(v.threads, a.k, w.threads[a.k], x);
      assert w.threads == v.threads[a.k := w.threads[a.k]];
    }
  }

  // ---------- a day of protection ----------

  /** Every record younger than a day is still in the map, with its time or a later one. */
  ghost predicate RecordsKept(now: int, v: Node) {
    forall x, at :: (x, at) in v.records ==>
        at <= now && (now < at + DAY ==> x in v.recorded && v.recorded[x] >= at)
  }

  /** An order that came through an error record came a day or more after every record of its txid. */
  ghost predicate Late(o: Order) {
    o.origin.ErrorRecord? ==> forall at :: (o.x, at) in o.origin.known ==> o.origin.checkedAt >= at + DAY
  }

  ghost predicate AllLate(v: Node) {
    && (forall k :: 0 <= k < |v.threads| && !v.threads[k].Idle? ==> Late(v.threads[k].o))
    && (forall o :: o in v.errorSends ==> Late(o))
  }

  lemma NodeKeepsRecords(s: State, a: Step)
    requires Enabled(s, a) && !a.Advance? && RecordsKept(s.now, s.nodes[a.n])
    ensures RecordsKept(s.now, NodeStep(s, a))
  {
  }

  lemma NodeKeepsLate(s: State, a: Step)
    requires Enabled(s, a) && !a.Advance? && RecordsKept(s.now, s.nodes[a.n]) && AllLate(s.nodes[a.n])
    ensures AllLate(NodeStep(s, a))
  {
    var v, w := s.nodes[a.n], NodeStep(s, a);
    forall k | 0 <= k < |w.threads| && !w.threads[k].Idle?
      ensures Late(w.threads[k].o)
    {
      if w.threads[k] != v.threads[k] {
        assert !v.threads[k].Idle? ==> w.threads[k].o == v.threads[k].o;
      }
    }
  }

  // ---------- whole runs ----------

  ghost predicate NodeSafe(now: int, v: Node) {
    (forall x :: Bounded(v, x)) && RecordsKept(now, v) && AllLate(v)
  }

  ghost predicate NodesSafe(s: State) {
    forall n :: 0 <= n < |s.nodes| ==> NodeSafe(s.now, s.nodes[n])
  }

  lemma StepKeepsNodesSafe(s: State, a: Step)
    requires Enabled(s, a) && NodesSafe(s)
    ensures NodesSafe(Next(s, a))
  {
    var t := Next(s, a);
    if !a.Advance? {
      NodeKeepsRecords(s, a);
      NodeKeepsLate(s, a);
      forall x
        ensures Bounded(NodeStep(s, a), x)
      {
        NodeKeepsBound(s, a, x);
      }
    }
    forall n | 0 <= n < |t.nodes|
      ensures NodeSafe(t.now, t.nodes[n])
    {
      assert NodeSafe(s.now, s.nodes[n]);
    }
  }

  lemma {:induction false} RunKeepsNodesSafe(s: State, run: seq<Step>)
    requires NodesSafe(s) && RunEnabled(s, run)
    ensures NodesSafe(Run(s, run))
    decreases |run|
  {
    if run != [] {
      StepKeepsNodesSafe(s, run[0]);
      RunKeepsNodesSafe(Next(s, run[0]), run[1..]);
    }
  }

  lemma InitiallyNodesSafe(s: State)
    requires Initial(s)
    ensures NodesSafe(s)
  {
    forall n | 0 <= n < |s.nodes|
      ensures NodeSafe(s.now, s.nodes[n])
    {
      assert InitialNode(s.nodes[n]);
      forall x
        ensures Bounded(s.nodes[n], x)
      {
        PendingIdle(s.nodes[n].threads, x);
      }
    }
  }

  /** For every interleaving of the wrap, unwrap and error-record goroutines, a node attempts a txid at
      most once more than its dealt set was reset (a restart resets it too). */
  lemma AttemptsBoundedByResets(s: State, run: seq<Step>)
    requires Initial(s) && RunEnabled(s, run)
    ensures var t := Run(s, run);
            forall n, x {:trigger t.nodes[n].attempts[x]} ::
              0 <= n < |t.nodes| ==> t.nodes[n].attempts[x] <= 1 + t.nodes[n].resets
  {
    InitiallyNodesSafe(s);
    RunKeepsNodesSafe(s, run);
    var t := Run(s, run);
    forall n, x | 0 <= n < |t.nodes|
      ensures t.nodes[n].attempts[x] <= 1 + t.nodes[n].resets
    {
      assert NodeSafe(t.now, t.nodes[n]) && Bounded(t.nodes[n], x);
    }
  }

  /** However often the dealt set is cleared and whenever the sent map is swept: no send on account of
      an error record had its Exist check in the day [at, at + 86400) after a recorded send of the same
      txid that the check could see. */
  lemma DayLongProtection(s: State, run: seq<Step>)
    requires Initial(s) && RunEnabled(s, run)
    ensures var t := Run(s, run);
            forall n, o, at ::
              0 <= n < |t.nodes| && o in t.nodes[n].errorSends && o.origin.ErrorRecord? && (o.x, at) in o.origin.known
              ==> !(at <= o.origin.checkedAt < at + DAY)
  {
    InitiallyNodesSafe(s);
    RunKeepsNodesSafe(s, run);
    var t := Run(s, run);
    forall n, o, at | 0 <= n < |t.nodes| && o in t.nodes[n].errorSends && o.origin.ErrorRecord?
                      && (o.x, at) in o.origin.known
      ensures !(at <= o.origin.checkedAt < at + DAY)
    {
      assert NodeSafe(t.now, t.nodes[n]) && Late(o);
    }
  }
}
