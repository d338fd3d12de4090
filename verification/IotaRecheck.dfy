/** The queue of sent IOTA transactions and its recheck loop (server/var.go, server/recheck.go). */
module IotaRecheck {
  import opened Outcomes
  import opened SwapTable

  /** An order and the token it was sent with travel together. */
  datatype Entry = Entry(order: Row, token: string)

  function Zip(orders: seq<Row>, ts: seq<string>): seq<Entry>
    requires |orders| == |ts|
  {
    seq(|orders|, i requires 0 <= i < |orders| => Entry(orders[i], ts[i]))
  }

  class SentIotaTx {
    var orders: seq<Row>
    var ts: seq<string>

    ghost predicate Valid()
      reads this
    {
      |orders| == |ts|
    }

    /** The two parallel slices are one queue of pairs. */
    ghost function Entries(): seq<Entry>
      reads this
      requires Valid()
    {
      Zip(orders, ts)
    }

    constructor ()
      ensures Valid() && Entries() == []
    {
      orders, ts := [], [];
    }

    method Push(order: Row, t: string)
      requires Valid()
      modifies this
      ensures Valid() && Entries() == old(Entries()) + [Entry(order, t)]
    {
      orders := orders + [order];
      ts := ts + [t];
    }

    method Pop() returns (e: Option<Entry>)
      requires Valid()
      modifies this
      ensures Valid()
      ensures old(Entries()) == [] ==> e == None && Entries() == []
      ensures old(Entries()) != [] ==> e == Some(old(Entries())[0]) && Entries() == old(Entries())[1..]
    {
      if |orders| == 0 {
        return None;
      }
      e := Some(Entry(orders[0], ts[0]));
      orders := orders[1..];
      ts := ts[1..];
    }
  }

  /** One tick of the loop: what other goroutines push first and while the check runs, and the answer. */
  datatype Tick = Tick(pushed: seq<Entry>, during: seq<Entry>, answer: Verdict, fault: DbFault)

  /** What the loop has done with an order: UpdateChainRecord with state 1, MoveOrderToError with state 2. */
  datatype Books = Books(queue: seq<Entry>, landed: seq<Entry>, conflicting: seq<Entry>)

  /** The effect of one tick on the queue and on the resolved orders. */
  function AfterTick(b: Books, t: Tick): Books {
    var q := b.queue + t.pushed;
    if q == [] then b.(queue := t.during)
    else
      var rest := q[1..] + t.during;
      match t.answer
      case TryLater => b.(queue := rest + [q[0]])
      case Landed => b.(queue := rest, landed := b.landed + [q[0]])
      case Conflicting => b.(queue := rest, conflicting := b.conflicting + [q[0]])
  }

  function AfterTicks(b: Books, ts: seq<Tick>): Books {
    if ts == [] then b else AfterTick(AfterTicks(b, ts[..|ts| - 1]), ts[|ts| - 1])
  }

  /** swap_order and the error table. */
  datatype Tables = Tables(rows: map<Txid, Row>, errors: seq<Row>)

  function HeadOf(q: seq<Entry>): Option<Entry> {
    if q == [] then None else Some(q[0])
  }

  /** What one tick writes about the order it has popped. */
  function Judged(d: Tables, popped: Option<Entry>, t: Tick): Tables {
    if popped.None? || t.answer.TryLater? || t.fault.Refused? then d
    else
      var o := popped.value.order;
      if t.answer.Conflicting? then Tables(d.rows - {o.txid}, d.errors + [o.(state := 2)])
      else if o.txid !in d.rows then d
      else d.(rows := d.rows[o.txid := d.rows[o.txid].(hash := o.hash, state := 1)])
  }

  /** What the ticks write, if the queue and the books start as b. */
  function TablesAfter(d: Tables, b: Books, ts: seq<Tick>): Tables {
    if ts == [] then d
    else
      var front, last := ts[..|ts| - 1], ts[|ts| - 1];
      Judged(TablesAfter(d, b, front), HeadOf(AfterTicks(b, front).queue + last.pushed), last)
  }

  /** What a tick writes, case by case: a landed order has its hash and state 1 in the row it has, a
      conflicting one leaves the table and stands in state 2 at the end of the error table, no other
      row is touched, and a refusal or "try later" writes nothing. */
  lemma JudgedMeans(d: Tables, e: Entry, t: Tick)
    ensures var r, x := Judged(d, Some(e), t), e.order.txid;
            && (forall y :: y != x ==> (y in r.rows <==> y in d.rows) && (y in d.rows ==> r.rows[y] == d.rows[y]))
            && (t.fault == Refused || t.answer == TryLater ==> r == d)
            && (t.fault != Refused && t.answer == Landed ==>
                  && r.errors == d.errors && (x in r.rows <==> x in d.rows)
                  && (x in d.rows ==> r.rows[x] == d.rows[x].(hash := e.order.hash, state := 1)))
            && (t.fault != Refused && t.answer == Conflicting ==>
                  x !in r.rows && r.errors == d.errors + [e.order.(state := 2)])
  {
  }

  /** What a tick does with the order e at the head: it stays behind what is pushed meanwhile, or joins
      the landed or the conflicting ones. */
  lemma TickMeans(b: Books, t: Tick, e: Entry, rest: seq<Entry>)
    requires b.queue + t.pushed == [e] + rest
    ensures var a := AfterTick(b, t);
            && (t.answer == TryLater ==> a == b.(queue := rest + t.during + [e]))
            && (t.answer == Landed ==> a == b.(queue := rest + t.during, landed := b.landed + [e]))
            && (t.answer == Conflicting ==> a == b.(queue := rest + t.during, conflicting := b.conflicting + [e]))
  {
    assert (b.queue + t.pushed)[1..] == rest;
  }

  method PushAll(q: SentIotaTx, es: seq<Entry>)
    requires q.Valid()
    modifies q
    ensures q.Valid() && q.Entries() == old(q.Entries()) + es
  {
    for i := 0 to |es|
      invariant q.Valid() && q.Entries() == old(q.Entries()) + es[..i]
    {
      q.Push(es[i].order, es[i].token);
    }
    assert es[..|es|] == es;
  }

  /** One tick: pop, ask, and push back or write the outcome to the database. */
  method RecheckOnce(q: SentIotaTx, db: Database, t: Tick) returns (popped: Option<Entry>)
    requires q.Valid() && db.Valid()
    modifies q, db
    ensures q.Valid() && db.Valid()
    ensures var waiting := old(q.Entries()) + t.pushed;
            popped == HeadOf(waiting)
    ensures q.Entries() == AfterTick(Books(old(q.Entries()), [], []), t).queue
    ensures Tables(db.swapOrder, db.errorOrder) == Judged(Tables(old(db.swapOrder), old(db.errorOrder)), popped, t)
  {
    PushAll(q, t.pushed);
    popped := q.Pop();
    PushAll(q, t.during);
    if popped.Some? {
      var e := popped.value;
      match t.answer {
        case TryLater => q.Push(e.order, e.token);
        case Landed =>
          var _ := db.UpdateChainRecord(e.order.(state := 1), t.fault);
        case Conflicting =>
          var _ := db.MoveOrderToError(e.order.(state := 2), t.fault);
          assert t.fault.Refused? || db.swapOrder == old(db.swapOrder) - {e.order.txid};
      }
    } else {
      assert [] + t.during == t.during;
    }
  }

  /** RecheckIota over any number of ticks, with any pushes in between: the queue, the resolved orders
      and both tables are those of the specification, and only rows of conflicting orders leave. */
  method RecheckIota(q: SentIotaTx, db: Database, ts: seq<Tick>)
    returns (landed: seq<Entry>, conflicting: seq<Entry>)
    requires q.Valid() && db.Valid()
    modifies q, db
    ensures q.Valid() && db.Valid()
    ensures Books(q.Entries(), landed, conflicting) == AfterTicks(Books(old(q.Entries()), [], []), ts)
    ensures Tables(db.swapOrder, db.errorOrder)
         == TablesAfter(Tables(old(db.swapOrder), old(db.errorOrder)), Books(old(q.Entries()), [], []), ts)
    ensures db.swapOrder.Keys <= old(db.swapOrder.Keys)
    ensures forall x :: x in old(db.swapOrder.Keys) && x !in db.swapOrder.Keys ==> HasTxid(conflicting, x)
  {
    landed, conflicting := [], [];
    for i := 0 to |ts|
      invariant q.Valid() && db.Valid()
      invariant Books(q.Entries(), landed, conflicting) == AfterTicks(Books(old(q.Entries()), [], []), ts[..i])
      invariant Tables(db.swapOrder, db.errorOrder)
             == TablesAfter(Tables(old(db.swapOrder), old(db.errorOrder)), Books(old(q.Entries()), [], []), ts[..i])
    {
      assert ts[..i + 1][..i] == ts[..i];
      var popped := RecheckOnce(q, db, ts[i]);
      if popped.Some? && ts[i].answer.Landed? {
        landed := landed + [popped.value];
      } else if popped.Some? && ts[i].answer.Conflicting? {
        conflicting := conflicting + [popped.value];
      }
    }
    assert ts[..|ts|] == ts;
    OnlyConflictingLeave(Tables(old(db.swapOrder), old(db.errorOrder)), old(q.Entries()), ts);
  }

  ghost predicate HasTxid(es: seq<Entry>, x: Txid) {
    exists i :: 0 <= i < |es| && es[i].order.txid == x
  }

  lemma TxidAppended(es: seq<Entry>, e: Entry)
    ensures HasTxid(es + [e], e.order.txid)
    ensures forall x :: HasTxid(es, x) ==> HasTxid(es + [e], x)
  {
    var more := es + [e];
    assert more[|es|] == e;
    forall x | HasTxid(es, x)
      ensures HasTxid(more, x)
    {
      var i :| 0 <= i < |es| && es[i].order.txid == x;
      assert more[i].order.txid == x;
    }
  }

  /** Rows leave the table only for conflicting orders, and none come in. */
  lemma {:induction false} OnlyConflictingLeave(d: Tables, q: seq<Entry>, ts: seq<Tick>)
    ensures var after := TablesAfter(d, Books(q, [], []), ts).rows.Keys;
            && after <= d.rows.Keys
            && forall x :: x in d.rows.Keys && x !in after ==> HasTxid(AfterTicks(Books(q, [], []), ts).conflicting, x)
  {
    if ts != [] {
      var front, last := ts[..|ts| - 1], ts[|ts| - 1];
      var b := AfterTicks(Books(q, [], []), front);
      OnlyConflictingLeave(d, q, front);
      if b.queue + last.pushed != [] {
        TxidAppended(b.conflicting, (b.queue + last.pushed)[0]);
      }
    }
  }

  /** Unless the database refuses, the error table grows by exactly the conflicting orders, in state 2
      and in the order in which they were found. */
  lemma {:induction false} ErrorsAreConflicting(d: Tables, q: seq<Entry>, ts: seq<Tick>)
    requires forall i :: 0 <= i < |ts| ==> !ts[i].fault.Refused?
    ensures var conflicting := AfterTicks(Books(q, [], []), ts).conflicting;
            TablesAfter(d, Books(q, [], []), ts).errors ==
            d.errors + seq(|conflicting|, i requires 0 <= i < |conflicting| => conflicting[i].order.(state := 2))
  {
    if ts != [] {
      ErrorsAreConflicting(d, q, ts[..|ts| - 1]);
    }
  }

  /** Every push of a run, in order. */
  function Pushes(ts: seq<Tick>): seq<Entry> {
    if ts == [] then [] else Pushes(ts[..|ts| - 1]) + ts[|ts| - 1].pushed + ts[|ts| - 1].during
  }

  function All(b: Books): multiset<Entry> {
    multiset(b.queue) + multiset(b.landed) + multiset(b.conflicting)
  }

  lemma TickConserves(b: Books, t: Tick)
    ensures All(AfterTick(b, t)) == All(b) + multiset(t.pushed) + multiset(t.during)
  {
    var q := b.queue + t.pushed;
    var after := AfterTick(b, t);
    if q == [] {
      assert b.queue == [] && t.pushed == [];
      assert multiset(after.queue) == multiset(t.during);
    } else {
      assert multiset(q) == multiset(b.queue) + multiset(t.pushed);
      HeadAside(q, t.during, b.landed);
      HeadAside(q, t.during, b.conflicting);
      match t.answer {
        case TryLater =>
          assert multiset(after.queue) == multiset(q) + multiset(t.during);
        case Landed =>
          assert multiset(after.queue) + multiset(after.landed) == multiset(q) + multiset(t.during) + multiset(b.landed);
        case Conflicting =>
          assert multiset(after.queue) + multiset(after.conflicting)
              == multiset(q) + multiset(t.during) + multiset(b.conflicting);
      }
    }
    assert multiset(after.queue) + multiset(after.landed) + multiset(after.conflicting)
        == multiset(b.queue) + multiset(b.landed) + multiset(b.conflicting) + multiset(t.pushed) + multiset(t.during);
  }

  /** Taking the head of a queue to the end of it, or to another list, loses nothing. */
  lemma HeadAside(q: seq<Entry>, during: seq<Entry>, list: seq<Entry>)
    requires q != []
    ensures multiset(q[1..] + during + [q[0]]) == multiset(q) + multiset(during)
    ensures multiset(q[1..] + during) + multiset(list + [q[0]]) == multiset(q) + multiset(during) + multiset(list)
  {
    assert q == [q[0]] + q[1..];
  }

  /** With multiplicity, every order ever pushed is still queued or resolved in exactly one of the two
      ways, paired with the token it was pushed with. */
  lemma {:induction false} RecheckConserves(b: Books, ts: seq<Tick>)
    ensures All(AfterTicks(b, ts)) == All(b) + multiset(Pushes(ts))
  {
    if ts != [] {
      RecheckConserves(b, ts[..|ts| - 1]);
      TickConserves(AfterTicks(b, ts[..|ts| - 1]), ts[|ts| - 1]);
    }
  }

  predicate Quiet(ts: seq<Tick>) {
    forall i :: 0 <= i < |ts| ==> ts[i].pushed == [] && ts[i].during == [] && ts[i].answer == TryLater
  }

  /** k "try later" answers rotate the queue by k. */
  lemma {:induction false} TryLaterRotates(b: Books, ts: seq<Tick>)
    requires Quiet(ts) && |ts| <= |b.queue|
    ensures AfterTicks(b, ts) == b.(queue := b.queue[|ts|..] + b.queue[..|ts|])
  {
    var n := |ts|;
    if n == 0 {
      assert b.queue[0..] + b.queue[..0] == b.queue;
    } else {
      TryLaterRotates(b, ts[..n - 1]);
      var q := b.queue[n - 1..] + b.queue[..n - 1];
      assert q + [] == q;
      assert q[1..] + [] + [q[0]] == b.queue[n..] + b.queue[..n];
    }
  }

  /** One "try later" for every queued order restores the original order: nobody is starved or overtaken. */
  lemma FullRoundRestores(b: Books, ts: seq<Tick>)
    requires Quiet(ts) && |ts| == |b.queue|
    ensures AfterTicks(b, ts) == b
  {
    TryLaterRotates(b, ts);
    assert b.queue[|ts|..] + b.queue[..|ts|] == b.queue;
  }
}
