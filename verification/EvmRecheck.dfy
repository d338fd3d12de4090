/** The queue of sent EVM transactions and the sweep that speeds up or drops them
    (server/var.go, server/recheck.go). */
module EvmRecheck {
  import opened Outcomes

  type Hash = nat

  datatype Entry = Entry(hash: Hash, chain: string, time: int)

  function Zip(hashes: seq<Hash>, chains: seq<string>, times: seq<int>): seq<Entry>
    requires |hashes| == |chains| == |times|
  {
    seq(|hashes|, i requires 0 <= i < |hashes| => Entry(hashes[i], chains[i], times[i]))
  }

  class SentEvmTxQueue {
    var txHashs: seq<Hash>
    var chains: seq<string>
    var times: seq<int>

    ghost predicate Valid()
      reads this
    {
      |txHashs| == |chains| == |times|
    }

    /** The three parallel slices are one queue of triples. */
    ghost function Entries(): seq<Entry>
      reads this
      requires Valid()
    {
      Zip(txHashs, chains, times)
    }

    constructor ()
      ensures Valid() && Entries() == []
    {
      txHashs, chains, times := [], [], [];
    }

    method Push(txHash: Hash, t: string, ts: int)
      requires Valid()
      modifies this
      ensures Valid() && Entries() == old(Entries()) + [Entry(txHash, t, ts)]
    {
      txHashs := txHashs + [txHash];
      chains := chains + [t];
      times := times + [ts];
    }

    method Pop()
      requires Valid()
      modifies this
      ensures Valid() && Entries() == if old(Entries()) == [] then [] else old(Entries())[1..]
    {
      if |txHashs| == 0 {
        return;
      }
      txHashs := txHashs[1..];
      chains := chains[1..];
      times := times[1..];
    }

    method Top() returns (e: Option<Entry>)
      requires Valid()
      ensures e == if Entries() == [] then None else Some(Entries()[0])
    {
      if |txHashs| == 0 {
        return None;
      }
      return Some(Entry(txHashs[0], chains[0], times[0]));
    }

    method UpdateTop(txHash: Hash, t: string, ts: int)
      requires Valid()
      modifies this
      ensures Valid()
      ensures Entries() == if old(Entries()) == [] then [] else [Entry(txHash, t, ts)] + old(Entries())[1..]
    {
      if |txHashs| == 0 {
        return;
      }
      txHashs := txHashs[0 := txHash];
      chains := chains[0 := t];
      times := times[0 := ts];
    }
  }

  /** What CheckPendingAndSpeedUp answers: a hash and whether there was an error. KeyFailed stands for
      a keystore that cannot be read. */
  datatype Answer = KeyFailed | Answered(hash: Hash, failed: bool)

  datatype Action = Stop | Drop | Replace(hash: Hash)

  /** The decision of one turn of the sweep about the entry at the head. */
  function Decide(e: Entry, now: int, pendingTime: int, a: Answer): Action {
    if e.time == 0 || now - e.time < pendingTime then Stop
    else if now - e.time > 3 * pendingTime then Drop
    else if a.KeyFailed? then Stop
    else if a.hash == e.hash then if a.failed then Stop else Drop
    else if a.failed then Drop
    else Replace(a.hash)
  }

  /** The effect of a turn on the queue: whatever was pushed meanwhile stands at the end, the action
      hits the entry that Top returned. */
  function Apply(q: seq<Entry>, pushed: seq<Entry>, action: Action, now: int): seq<Entry>
    requires q != []
  {
    match action
    case Stop => q + pushed
    case Drop => q[1..] + pushed
    case Replace(h) => [Entry(h, q[0].chain, now)] + q[1..] + pushed
  }

  /** The entries that a sweep at clock `now` looks at. */
  function Aged(q: seq<Entry>, now: int, pendingTime: int): nat {
    if q == [] then 0
    else Aged(q[..|q| - 1], now, pendingTime) + if now - q[|q| - 1].time >= pendingTime then 1 else 0
  }

  lemma {:induction false} AgedConcat(a: seq<Entry>, b: seq<Entry>, now: int, pendingTime: int)
    ensures Aged(a + b, now, pendingTime) == Aged(a, now, pendingTime) + Aged(b, now, pendingTime)
    decreases |b|
  {
    if b == [] {
      assert a + b == a;
    } else {
      assert (a + b)[..|a + b| - 1] == a + b[..|b| - 1];
      AgedConcat(a, b[..|b| - 1], now, pendingTime);
    }
  }

  lemma {:induction false} FreshIsNotAged(q: seq<Entry>, now: int, pendingTime: int)
    requires pendingTime > 0 && forall i :: 0 <= i < |q| ==> q[i].time == now
    ensures Aged(q, now, pendingTime) == 0
  {
    if q != [] {
      FreshIsNotAged(q[..|q| - 1], now, pendingTime);
    }
  }

  /** An entry that is dropped was aged, so the measure falls by one; an entry that is replaced ends
      the sweep. */
  lemma DropReducesAged(q: seq<Entry>, pushed: seq<Entry>, now: int, pendingTime: int)
    requires q != [] && now - q[0].time >= pendingTime > 0
    requires forall i :: 0 <= i < |pushed| ==> pushed[i].time == now
    ensures Aged(q[1..] + pushed, now, pendingTime) == Aged(q, now, pendingTime) - 1
  {
    AgedConcat([q[0]], q[1..], now, pendingTime);
    assert [q[0]] + q[1..] == q && [q[0]][..0] == [];
    AgedConcat(q[1..], pushed, now, pendingTime);
    FreshIsNotAged(pushed, now, pendingTime);
  }

  /** The environment of a sweep, turn by turn: what is pushed between Top and the action, and the answers. */
  datatype World = World(pushed: nat -> seq<(Hash, string)>, answers: nat -> Answer)

  function Stamped(es: seq<(Hash, string)>, now: int): seq<Entry> {
    seq(|es|, i requires 0 <= i < |es| => Entry(es[i].0, es[i].1, now))
  }

  /** The queue after a sweep, the turns it took and the replacements it made. */
  datatype Swept = Swept(queue: seq<Entry>, turns: nat, replaced: nat)

  /** A whole sweep from turn i on, at a frozen clock. */
  function Sweep(q: seq<Entry>, now: int, pendingTime: int, w: World, i: nat): Swept
    requires pendingTime > 0
    decreases Aged(q, now, pendingTime)
  {
    if q == [] then Swept(q, i, 0)
    else
      var pushed := Stamped(w.pushed(i), now);
      var action := Decide(q[0], now, pendingTime, w.answers(i));
      var after := Apply(q, pushed, action, now);
      match action
      case Stop => Swept(after, i + 1, 0)
      case Replace(_) => Swept(after, i + 1, 1)
      case Drop =>
        assert Aged(after, now, pendingTime) < Aged(q, now, pendingTime) by {
          DropReducesAged(q, pushed, now, pendingTime);
        }
        Sweep(after, now, pendingTime, w, i + 1)
  }

  /** One turn: Top, the pushes of other goroutines, and the action. Pop and UpdateTop act on the entry
      that Top returned. */
  method Turn(q: SentEvmTxQueue, now: int, pendingTime: int, pushed: seq<(Hash, string)>, answer: Answer)
    returns (action: Action)
    requires q.Valid() && q.Entries() != []
    modifies q
    ensures q.Valid()
    ensures action == Decide(old(q.Entries()[0]), now, pendingTime, answer)
    ensures q.Entries() == Apply(old(q.Entries()), Stamped(pushed, now), action, now)
  {
    var top := q.Top();
    var e := top.value;
    PushAll(q, pushed, now);
    action := Decide(e, now, pendingTime, answer);
    match action {
      case Stop =>
      case Drop => q.Pop();
      case Replace(h) => q.UpdateTop(h, e.chain, now);
    }
  }

  /** recheckEvmTx, one tick: the three slices, the locks taken one call at a time, pushes from other
      goroutines in between. The sweep ends after at most one turn more than there were aged entries,
      and speeds up at most one transaction. */
  method RecheckEvmTx(q: SentEvmTxQueue, now: int, pendingTime: int, w: World) returns (turns: nat, replaced: nat)
    requires q.Valid() && pendingTime > 0
    modifies q
    ensures q.Valid() && Swept(q.Entries(), turns, replaced) == Sweep(old(q.Entries()), now, pendingTime, w, 0)
    ensures turns <= Aged(old(q.Entries()), now, pendingTime) + 1 && replaced <= 1
  {
    turns, replaced := 0, 0;
    while |q.txHashs| != 0
      invariant q.Valid()
      invariant Sweep(old(q.Entries()), now, pendingTime, w, 0) == Sweep(q.Entries(), now, pendingTime, w, turns)
      invariant turns + Aged(q.Entries(), now, pendingTime) <= Aged(old(q.Entries()), now, pendingTime)
      decreases Aged(q.Entries(), now, pendingTime)
    {
      ghost var before := q.Entries();
      var action := Turn(q, now, pendingTime, w.pushed(turns), w.answers(turns));
      turns := turns + 1;
      if action.Stop? {
        return;
      }
      if action.Replace? {
        replaced := 1;
        return;
      }
      DropReducesAged(before, Stamped(w.pushed(turns - 1), now), now, pendingTime);
    }
  }

  /** A sweep that finds a head younger than the waiting time looks no further: the queue stays as it
      is, with what was pushed meanwhile, and nothing is replaced. */
  lemma YoungHeadStays(q: seq<Entry>, now: int, pendingTime: int, w: World, i: nat)
    requires pendingTime > 0 && q != [] && now - q[0].time < pendingTime
    ensures Sweep(q, now, pendingTime, w, i) == Swept(q + Stamped(w.pushed(i), now), i + 1, 0)
  {
  }

  /** What a turn does to a queue with head e: nothing but to let the pushes in, or e leaves, or e gets
      the new hash and the present time; never anything to the entries behind it. */
  lemma ApplyMeans(e: Entry, rest: seq<Entry>, pushed: seq<Entry>, action: Action, now: int)
    ensures var after := Apply([e] + rest, pushed, action, now);
            && (action.Stop? ==> after == [e] + rest + pushed)
            && (action.Drop? ==> after == rest + pushed)
            && (action.Replace? ==> after == [Entry(action.hash, e.chain, now)] + rest + pushed)
  {
    assert ([e] + rest)[1..] == rest;
  }

  /** The head was replaced, or it is to stay and is not older than three waiting times. */
  predicate HeadIsSettled(r: Swept, now: int, pendingTime: int, w: World) {
    r.queue == [] ||
    var head := r.queue[0];
    if r.replaced > 0 then head.time == now
    else
      && r.turns > 0
      && Decide(head, now, pendingTime, w.answers(r.turns - 1)).Stop?
      && (head.time == 0 || now - head.time <= 3 * pendingTime)
  }

  /** A sweep goes on until the queue is empty or its head is settled. */
  lemma {:induction false} SweepGoesOn(q: seq<Entry>, now: int, pendingTime: int, w: World, i: nat)
    requires pendingTime > 0
    ensures HeadIsSettled(Sweep(q, now, pendingTime, w, i), now, pendingTime, w)
    decreases Aged(q, now, pendingTime)
  {
    if q != [] {
      var pushed, action := Stamped(w.pushed(i), now), Decide(q[0], now, pendingTime, w.answers(i));
      if action.Drop? {
        DropReducesAged(q, pushed, now, pendingTime);
        SweepGoesOn(Apply(q, pushed, action, now), now, pendingTime, w, i + 1);
      } else {
        HeadAfterTurn(q, pushed, action, now);
      }
    }
  }

  lemma HeadAfterTurn(q: seq<Entry>, pushed: seq<Entry>, action: Action, now: int)
    requires q != [] && !action.Drop?
    ensures var after := Apply(q, pushed, action, now);
            after != [] && after[0] == if action.Stop? then q[0] else Entry(action.hash, q[0].chain, now)
  {
  }

  method PushAll(q: SentEvmTxQueue, es: seq<(Hash, string)>, now: int)
    requires q.Valid()
    modifies q
    ensures q.Valid() && q.Entries() == old(q.Entries()) + Stamped(es, now)
  {
    for i := 0 to |es|
      invariant q.Valid() && q.Entries() == old(q.Entries()) + Stamped(es[..i], now)
    {
      q.Push(es[i].0, es[i].1, now);
    }
    assert es[..|es|] == es;
  }

  // ---------- order of the timestamps ----------

  /** Behind the head the timestamps are sorted, and none lies in the future. The head may be younger
      than its followers: it is re-stamped when it is sped up. */
  predicate SortedBehindHead(q: seq<Entry>, now: int) {
    && (forall i :: 0 <= i < |q| ==> q[i].time <= now)
    && (forall i, j :: 1 <= i <= j < |q| ==> q[i].time <= q[j].time)
  }

  /** Every turn keeps the order, as long as pushes are stamped when they enter the queue. */
  lemma TurnKeepsSorted(q: seq<Entry>, pushed: seq<(Hash, string)>, action: Action, now: int)
    requires q != [] && SortedBehindHead(q, now)
    ensures SortedBehindHead(Apply(q, Stamped(pushed, now), action, now), now)
  {
    var es := Stamped(pushed, now);
    var after := Apply(q, es, action, now);
    var offset := if action.Drop? then 1 else 0;
    assert forall i :: 1 <= i < |after| ==>
        after[i] == if i + offset < |q| then q[i + offset] else es[i + offset - |q|];
  }

  lemma {:induction false} SweepKeepsSorted(q: seq<Entry>, now: int, pendingTime: int, w: World, i: nat)
    requires pendingTime > 0 && SortedBehindHead(q, now)
    ensures SortedBehindHead(Sweep(q, now, pendingTime, w, i).queue, now)
    decreases Aged(q, now, pendingTime)
  {
    if q != [] {
      var action := Decide(q[0], now, pendingTime, w.answers(i));
      TurnKeepsSorted(q, w.pushed(i), action, now);
      if action.Drop? {
        DropReducesAged(q, Stamped(w.pushed(i), now), now, pendingTime);
        SweepKeepsSorted(Apply(q, Stamped(w.pushed(i), now), action, now), now, pendingTime, w, i + 1);
      }
    }
  }
}
