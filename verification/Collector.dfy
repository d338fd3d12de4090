/** The selection loop itself: it walks the pages, appends to the builder in place and keeps the
    running sums. The four selectors of the source differ in the parameters of Selector only. */
module Collector {
  import opened Ledger
  import opened TxBuilder
  import opened Selection

  datatype Ending = Done | Restart | BadPage

  /** uint64 addition for base coins, big.Int addition for native tokens. */
  function Plus(kind: Kind, sum: nat, value: nat): nat {
    if kind.Base? then Wrap(sum + value) else sum + value
  }

  lemma MeasureAppend(kind: Kind, taken: seq<Utxo>, u: Utxo)
    ensures Measure(kind, taken + [u]) == Plus(kind, Measure(kind, taken), Value(kind, u.output))
    ensures Wrap(Sum(Base, taken + [u])) == Wrap(Wrap(Sum(Base, taken)) + u.output.deposit)
  {
    SumAppend(kind, taken, u);
    SumAppend(Base, taken, u);
    WrapOfWrap(Sum(Base, taken), u.output.deposit);
  }

  /** The inner loop over one page. It raises `getUtxosCount` only to leave the pass at once, so when
      a page begins the count is 0 and the give-up branch above 6 is never taken. */
  method AddPage(b: UnsignTransactionBuilder, sel: Selector, items: seq<Listed>,
                 sum0: nat, sumSmr0: nat, count0: nat, getUtxosCount0: nat,
                 ghost before: seq<Utxo>, ghost taken0: seq<Utxo>)
    returns (restart: bool, sum: nat, sumSmr: nat, count: nat, getUtxosCount: nat, ghost taken: seq<Utxo>)
    requires b.Valid() && b.added == before + taken0 && getUtxosCount0 == 0
    requires sum0 == Measure(sel.kind, taken0) && sumSmr0 == Wrap(Sum(Base, taken0)) && count0 == |taken0|
    modifies b`inputIds, b`inputs, b`added
    ensures b.Valid() && b.added == before + taken
    ensures sum == Measure(sel.kind, taken) && sumSmr == Wrap(Sum(Base, taken)) && count == |taken|
    ensures RunPage(sel, items, taken0) == if restart then Restarted(taken) else Finished(taken)
    ensures getUtxosCount == if restart then 1 else 0
  {
    restart, sum, sumSmr, count, taken := false, sum0, sumSmr0, count0, taken0;
    getUtxosCount := getUtxosCount0;
    var i := 0;
    while i < |items|
      invariant i <= |items| && getUtxosCount == 0
      invariant b.Valid() && b.added == before + taken
      invariant sum == Measure(sel.kind, taken) && sumSmr == Wrap(Sum(Base, taken)) && count == |taken|
      invariant RunPage(sel, items, taken0) == RunPage(sel, items[i..], taken)
    {
      var item := items[i];
      assert items[i..][1..] == items[i + 1..];
      if !Eligible(sel.kind, item.utxo.output) {
        i := i + 1;
        continue;
      }
      if sel.checksMeta && !item.live {
        getUtxosCount := getUtxosCount + 1;
        if getUtxosCount > 6 {
          assert false;
        }
        restart := true;
        return;
      }
      MeasureAppend(sel.kind, taken, item.utxo);
      b.AddInput(item.utxo);
      assert before + taken + [item.utxo] == before + (taken + [item.utxo]);
      sum := Plus(sel.kind, sum, Value(sel.kind, item.utxo.output));
      sumSmr := Wrap(sumSmr + item.utxo.output.deposit);
      count := count + 1;
      taken := taken + [item.utxo];
      if count >= sel.cap && sum >= sel.need {
        return;
      }
      i := i + 1;
    }
  }

  /** One pass over all pages. `getUtxosCount` is declared after the label GetUtxos, that is once a
      pass; the count that a restart takes along is forgotten. */
  method Collect(b: UnsignTransactionBuilder, sel: Selector, pages: seq<Page>)
    returns (end: Ending, sum: nat, sumSmr: nat)
    requires b.Valid()
    modifies b`inputIds, b`inputs, b`added
    ensures b.Valid()
    ensures var pass := RunPages(sel, pages, []);
            && b.added == old(b.added) + pass.taken
            && (end.Done? <==> pass.Finished?) && (end.Restart? <==> pass.Restarted?)
            && sum == Measure(sel.kind, pass.taken) && sumSmr == Wrap(Sum(Base, pass.taken))
  {
    ghost var taken: seq<Utxo> := [];
    var count, getUtxosCount := 0, 0;
    sum, sumSmr := 0, 0;
    for p := 0 to |pages|
      invariant b.Valid() && b.added == old(b.added) + taken
      invariant sum == Measure(sel.kind, taken) && sumSmr == Wrap(Sum(Base, taken)) && count == |taken|
      invariant getUtxosCount == 0
      invariant RunPages(sel, pages, []) == RunPages(sel, pages[p..], taken)
    {
      assert pages[p..][1..] == pages[p + 1..];
      if pages[p].BadIds? {
        end := BadPage;
        return;
      }
      var restart;
      restart, sum, sumSmr, count, getUtxosCount, taken :=
        AddPage(b, sel, pages[p].items, sum, sumSmr, count, getUtxosCount, old(b.added), taken);
      if restart {
        end := Restart;
        return;
      }
    }
    end := Done;
  }
}
