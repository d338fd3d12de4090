/** The input rules of TIP-20 (between 1 and 128 inputs, no output consumed twice) for what the
    two paths propose (tokens/iotasmr/send.go). The builder checks neither. */
module InputRules {
  import opened Outcomes
  import opened Bytes
  import opened Ledger
  import opened TxBuilder
  import opened Selection
  import opened IotaSend

  predicate Distinct(us: seq<Utxo>) {
    forall i, j :: 0 <= i < j < |us| ==> us[i].id != us[j].id
  }

  predicate Apart(a: seq<Utxo>, b: seq<Utxo>) {
    forall i, j :: 0 <= i < |a| && 0 <= j < |b| ==> a[i].id != b[j].id
  }

  predicate InputsValid(us: seq<Utxo>) {
    1 <= |us| <= MAX_INPUT_COUNT && Distinct(us)
  }

  lemma DistinctConcat(a: seq<Utxo>, b: seq<Utxo>)
    ensures Distinct(a + b) <==> Distinct(a) && Distinct(b) && Apart(a, b)
  {
    var c := a + b;
    if Distinct(c) {
      assert forall i :: 0 <= i < |a| ==> c[i] == a[i];
      assert forall i :: 0 <= i < |b| ==> c[|a| + i] == b[i];
      assert Distinct(b) by {
        forall i, j | 0 <= i < j < |b|
          ensures b[i].id != b[j].id
        {
          assert c[|a| + i].id != c[|a| + j].id;
        }
      }
      forall i, j | 0 <= i < |a| && 0 <= j < |b|
        ensures a[i].id != b[j].id
      {
        assert c[i].id != c[|a| + j].id;
      }
    }
  }

  lemma WithoutMiddle(a: seq<Utxo>, b: seq<Utxo>, c: seq<Utxo>)
    requires Distinct(a + (b + c))
    ensures Distinct(a + c)
  {
    DistinctConcat(a, b + c);
    DistinctConcat(b, c);
    assert forall j :: 0 <= j < |c| ==> (b + c)[|b| + j] == c[j];
    DistinctConcat(a, c);
  }

  // ---------- no output twice ----------

  /** A selection from pages that list every output once holds every output once. */
  lemma {:induction false} SelectionIsDistinct(sel: Selector, pages: seq<Page>, taken: seq<Utxo>)
    requires RunPages(sel, pages, taken).Finished? && Distinct(taken + AllEligible(sel.kind, pages))
    ensures Distinct(RunPages(sel, pages, taken).taken)
  {
    if pages == [] {
      assert taken + AllEligible(sel.kind, pages) == taken;
    } else {
      var t, behind := PageStep(sel, pages, taken);
      var later := AllEligible(sel.kind, pages[1..]);
      WithoutMiddle(t, behind, later);
      SelectionIsDistinct(sel, pages[1..], t);
    }
  }

  /** Each answer of the indexer lists an output at most once; two answers may list the same one. */
  predicate ListsOnce(queries: seq<Query>) {
    forall i :: 0 <= i < |queries| && queries[i].Pages? ==> Distinct(AllEligible(Base, queries[i].pages))
  }

  lemma {:induction false} LastPassIsDistinct(queries: seq<Query>, amount: nat, abandoned: seq<Utxo> := [])
    requires ListsOnce(queries) && RunBasic(queries, amount, abandoned).result.Ok?
    ensures Distinct(RunBasic(queries, amount, abandoned).taken)
  {
    var sel, pages := BasicSelector(amount), queries[0].pages;
    var pass := RunPages(sel, pages, []);
    if pass.Restarted? {
      assert forall i :: 0 <= i < |queries[1..]| ==> queries[1..][i] == queries[i + 1];
      LastPassIsDistinct(queries[1..], amount, abandoned + pass.taken);
    } else {
      assert [] + AllEligible(Base, pages) == AllEligible(Base, pages);
      SelectionIsDistinct(sel, pages, []);
    }
  }

  /** The same rules for the base-coin path, whose inputs are those of one selector call. */
  lemma BasicInputsValidIff(c: Call)
    requires RunBasic(c.view.basics, Wrap(c.amount)).result.Ok? && ListsOnce(c.view.basics)
    ensures var run := RunBasic(c.view.basics, Wrap(c.amount));
            InputsValid(run.abandoned + run.taken) <==>
              && 1 <= |run.abandoned| + |run.taken| <= MAX_INPUT_COUNT
              && Distinct(run.abandoned) && Apart(run.abandoned, run.taken)
  {
    var run := RunBasic(c.view.basics, Wrap(c.amount));
    LastPassIsDistinct(c.view.basics, Wrap(c.amount));
    DistinctConcat(run.abandoned, run.taken);
  }

  /** Token outputs and base-coin outputs are never the same output. */
  lemma KindsApart(id: TokenId, a: seq<Utxo>, b: seq<Utxo>)
    requires AllOf(Native(id), a) && AllOf(Base, b) && Consistent(a + b)
    ensures Apart(a, b)
  {
    forall i, j | 0 <= i < |a| && 0 <= j < |b|
      ensures a[i].id != b[j].id
    {
      assert (a + b)[i] == a[i] && (a + b)[|a| + j] == b[j];
    }
  }

  /** The inputs of a proposal are those that TIP-20 allows exactly when their number is, and no
      restart made the call take an output again. */
  lemma NativeInputsValidIff(c: Call, p: Protocol)
    requires c.WrappedServable(p) && Consistent(c.Taken() + c.Filled(p))
    requires Distinct(AllEligible(Native(c.token.tokenId), c.view.natives.pages)) && ListsOnce(c.view.basics)
    ensures var restarted, last := c.Abandoned(p), if c.ToppedUp(p) then c.TopUp().taken else [];
            InputsValid(c.Taken() + c.Filled(p)) <==>
              && 1 <= |c.Taken()| + |restarted| + |last| <= MAX_INPUT_COUNT
              && Distinct(restarted) && Apart(restarted, last)
  {
    var restarted, last := c.Abandoned(p), if c.ToppedUp(p) then c.TopUp().taken else [];
    var tokens := NativeSelector(c.token.tokenId);
    var all := AllEligible(tokens.kind, c.view.natives.pages);
    assert [] + all == all;
    SelectionIsDistinct(tokens, c.view.natives.pages, []);
    if c.ToppedUp(p) {
      LastPassIsDistinct(c.view.basics, 0);
    }
    EligibleSoFar(tokens, c.view.natives.pages, []);
    AllRunsEligible(c.view.basics, 0);
    KindsApart(c.token.tokenId, c.Taken(), c.Filled(p));
    assert c.Filled(p) == restarted + last;
    DistinctConcat(c.Taken(), c.Filled(p));
    DistinctConcat(restarted, last);
  }

  // ---------- how many ----------

  /** How many outputs a count-only selector takes, from the numbers of eligible outputs per page. */
  function Counted(kind: Kind, cap: nat, pages: seq<Page>, count: nat): nat
    requires cap >= 1
  {
    if pages == [] then count
    else
      var e := if pages[0].Page? then |EligibleIn(kind, pages[0].items)| else 0;
      Counted(kind, cap, pages[1..],
              if e == 0 then count else if count >= cap then count + 1 else if count + e <= cap then count + e else cap)
  }

  lemma {:induction false} CountedIs(sel: Selector, pages: seq<Page>, taken: seq<Utxo>)
    requires sel.need == 0 && sel.cap >= 1 && RunPages(sel, pages, taken).Finished?
    ensures |RunPages(sel, pages, taken).taken| == Counted(sel.kind, sel.cap, pages, |taken|)
  {
    if pages != [] {
      var e := EligibleIn(sel.kind, pages[0].items);
      PageTakesPrefix(sel, pages[0].items, taken);
      KeptByCount(sel, e, taken);
      CountedIs(sel, pages[1..], taken + e[..Kept(sel, e, taken)]);
    }
  }

  /** Without a restart the sizes of the pages decide: the token outputs taken from one list of pages
      and, if a top-up is needed, the base-coin outputs from the other must not pass 128 together. */
  lemma RestartFreeInputsValidIff(c: Call, p: Protocol, pages: seq<Page>)
    requires c.WrappedServable(p) && Consistent(c.Taken() + c.Filled(p))
    requires Distinct(AllEligible(Native(c.token.tokenId), c.view.natives.pages)) && ListsOnce(c.view.basics)
    requires c.ToppedUp(p) ==>
               c.view.basics != [] && c.view.basics[0] == Pages(pages) && RunPages(BasicSelector(0), pages, []).Finished?
    ensures InputsValid(c.Taken() + c.Filled(p)) <==>
              1 <= Counted(Native(c.token.tokenId), MAX_INPUT_COUNT, c.view.natives.pages, 0)
                   + (if c.ToppedUp(p) then Counted(Base, MAX_INPUT_COUNT, pages, 0) else 0) <= MAX_INPUT_COUNT
  {
    NativeInputsValidIff(c, p);
    CountedIs(NativeSelector(c.token.tokenId), c.view.natives.pages, []);
    if c.ToppedUp(p) {
      CountedIs(BasicSelector(0), pages, []);
    }
  }

  /** Without a restart the pages and the amount decide for the base-coin path: some output is eligible,
      and they are at most 128, or the first 128 pay the amount and nothing eligible stands on a page
      behind them. */
  lemma RestartFreeBasicValidIff(c: Call, pages: seq<Page>)
    requires c.view.basics != [] && c.view.basics[0] == Pages(pages) && ListsOnce(c.view.basics)
    requires RunPages(BasicSelector(Wrap(c.amount)), pages, []).Finished?
    requires RunBasic(c.view.basics, Wrap(c.amount)).result.Ok?
    ensures var run, all := RunBasic(c.view.basics, Wrap(c.amount)), AllEligible(Base, pages);
            InputsValid(run.abandoned + run.taken) <==>
              && all != []
              && (|| |all| <= MAX_INPUT_COUNT
                  || (&& Measure(Base, all[..MAX_INPUT_COUNT]) >= Wrap(c.amount)
                      && CapEndsPages(Base, MAX_INPUT_COUNT, pages, 0)))
  {
    var sel, all := BasicSelector(Wrap(c.amount)), AllEligible(Base, pages);
    assert [] + all == all;
    BasicInputsValidIff(c);
    WithinCapIff(sel, pages, []);
    MoreIsTaken(sel, pages, []);
  }

  // ---------- when the indexer keeps its order ----------

  /** A pass that does not fail starts with the first eligible output, if it takes anything. */
  lemma {:induction false} FirstIsTakenFirst(sel: Selector, pages: seq<Page>)
    requires var pass := RunPages(sel, pages, []); !pass.Failed? && pass.taken != []
    ensures AllEligible(sel.kind, pages) != []
    ensures RunPages(sel, pages, []).taken[0] == AllEligible(sel.kind, pages)[0]
  {
    PageStartsWithFirst(sel, pages[0].items, []);
    var page := RunPage(sel, pages[0].items, []);
    if page.Finished? && page.taken == [] {
      FirstIsTakenFirst(sel, pages[1..]);
      PageTakesPrefix(sel, pages[0].items, []);
    } else if page.Finished? {
      PassExtends(sel, pages[1..], page.taken);
    }
  }

  lemma {:induction false} PageStartsWithFirst(sel: Selector, items: seq<Listed>, taken: seq<Utxo>)
    ensures var t, e := RunPage(sel, items, taken).taken, EligibleIn(sel.kind, items);
            taken <= t && (|t| > |taken| ==> e != [] && t[|taken|] == e[0])
  {
    if items != [] {
      PageStartsWithFirst(sel, items[1..], taken);
      PageStartsWithFirst(sel, items[1..], taken + [items[0].utxo]);
    }
  }

  lemma {:induction false} PassExtends(sel: Selector, pages: seq<Page>, taken: seq<Utxo>)
    ensures taken <= RunPages(sel, pages, taken).taken
  {
    if pages != [] && pages[0].Page? {
      PageStartsWithFirst(sel, pages[0].items, taken);
      PassExtends(sel, pages[1..], RunPage(sel, pages[0].items, taken).taken);
    }
  }

  /** Every answer of the indexer lists u before any other eligible output. */
  predicate ListsFirst(queries: seq<Query>, u: Utxo) {
    forall i :: 0 <= i < |queries| && queries[i].Pages? ==>
      AllEligible(Base, queries[i].pages) != [] && AllEligible(Base, queries[i].pages)[0] == u
  }

  /** Then every pass that takes anything takes u. */
  lemma {:induction false} EveryPassTakesFirst(queries: seq<Query>, amount: nat, u: Utxo, abandoned: seq<Utxo> := [])
    requires ListsFirst(queries, u) && (abandoned != [] ==> u in abandoned)
    requires RunBasic(queries, amount, abandoned).result.Ok?
    ensures var run := RunBasic(queries, amount, abandoned);
            && (run.abandoned != [] ==> u in run.abandoned)
            && u in run.taken
  {
    var sel, pages := BasicSelector(amount), queries[0].pages;
    var pass := RunPages(sel, pages, []);
    if pass.taken != [] {
      FirstIsTakenFirst(sel, pages);
      assert u in pass.taken;
    }
    if pass.Restarted? {
      assert forall i :: 0 <= i < |queries[1..]| ==> queries[1..][i] == queries[i + 1];
      EveryPassTakesFirst(queries[1..], amount, u, abandoned + pass.taken);
    } else {
      MoreIsTaken(sel, pages, []);
    }
  }

  /** So as long as the indexer keeps one output in front, a restart that had taken anything is fatal:
      the inputs name an output twice exactly when an abandoned pass appended one. */
  lemma OrderedRestartsValidIff(queries: seq<Query>, amount: nat, u: Utxo)
    requires ListsOnce(queries) && ListsFirst(queries, u) && RunBasic(queries, amount).result.Ok?
    ensures var run := RunBasic(queries, amount);
            Distinct(run.abandoned + run.taken) <==> run.abandoned == []
  {
    var run := RunBasic(queries, amount);
    EveryPassTakesFirst(queries, amount, u);
    LastPassIsDistinct(queries, amount);
    DistinctConcat(run.abandoned, run.taken);
    assert run.abandoned == [] ==> run.abandoned + run.taken == run.taken;
    if run.abandoned != [] {
      var i :| 0 <= i < |run.abandoned| && run.abandoned[i] == u;
      var j :| 0 <= j < |run.taken| && run.taken[j] == u;
      assert run.abandoned[i].id == run.taken[j].id;
    }
  }

  /** And so for a whole proposal of the native path: besides the number of its inputs, only that no
      abandoned pass had appended one. */
  lemma OrderedNativeInputsValidIff(c: Call, p: Protocol, u: Utxo)
    requires c.WrappedServable(p) && Consistent(c.Taken() + c.Filled(p))
    requires Distinct(AllEligible(Native(c.token.tokenId), c.view.natives.pages)) && ListsOnce(c.view.basics)
    requires ListsFirst(c.view.basics, u)
    ensures InputsValid(c.Taken() + c.Filled(p)) <==>
              1 <= |c.Taken() + c.Filled(p)| <= MAX_INPUT_COUNT && c.Abandoned(p) == []
  {
    NativeInputsValidIff(c, p);
    if c.ToppedUp(p) {
      OrderedRestartsValidIff(c.view.basics, 0, u);
      LastPassIsDistinct(c.view.basics, 0);
      DistinctConcat(c.TopUp().abandoned, c.TopUp().taken);
    }
  }

  // ---------- proposals that break the rules ----------

  /** n base-coin outputs of one coin each. */
  function SmallDeposits(n: nat): seq<Listed> {
    seq(n, i requires 0 <= i < n => Listed(Deposit(i, 1), true))
  }

  lemma {:induction false} AllDeposits(n: nat, m: nat)
    requires m <= n
    ensures var e := EligibleIn(Base, SmallDeposits(n)[m..]);
            |e| == n - m && Units(e) && (forall i :: 0 <= i < |e| ==> e[i].id == m + i)
    decreases n - m
  {
    if m < n {
      AllDeposits(n, m + 1);
      assert SmallDeposits(n)[m..][1..] == SmallDeposits(n)[m + 1..];
    }
  }

  /** A page of live outputs is never abandoned. */
  lemma {:induction false} LiveFinishes(sel: Selector, items: seq<Listed>, taken: seq<Utxo>)
    requires forall i :: 0 <= i < |items| ==> items[i].live
    ensures RunPage(sel, items, taken).Finished?
  {
    if items != [] {
      LiveFinishes(sel, items[1..], taken);
      LiveFinishes(sel, items[1..], taken + [items[0].utxo]);
    }
  }

  lemma SmallPages(n: nat)
    ensures var pages := [Page(SmallDeposits(n))];
            var all := AllEligible(Base, pages);
            && |all| == n && Distinct(all) && Positive(Base, all) && Sum(Base, all) == n
            && forall need: nat :: RunPages(BasicSelector(need), pages, []).Finished?
  {
    var items := SmallDeposits(n);
    var e := EligibleIn(Base, items);
    AllDeposits(n, 0);
    UnitsSum(e);
    assert items[0..] == items && [Page(items)][1..] == [] && AllEligible(Base, [Page(items)][1..]) == [];
    assert AllEligible(Base, [Page(items)]) == e;
    forall need: nat
      ensures RunPages(BasicSelector(need), [Page(items)], []).Finished?
    {
      LiveFinishes(BasicSelector(need), items, []);
    }
  }

  /** n outputs of one coin for an amount of n, with n above 128: the call succeeds with n inputs. */
  lemma BasicPassesLimit(n: nat)
    requires MAX_INPUT_COUNT < n < U64
    ensures var queries := [Pages([Page(SmallDeposits(n))])];
            var run := RunBasic(queries, n);
            run.result == Ok(0) && run.abandoned == [] && ListsOnce(queries) && |run.taken| == n
  {
    SmallPages(n);
    AllIsNeeded(BasicSelector(n), [Page(SmallDeposits(n))]);
  }

  /** When everything eligible is worth exactly the need, everything is taken. */
  lemma AllIsNeeded(sel: Selector, pages: seq<Page>)
    requires RunPages(sel, pages, []).Finished? && Positive(sel.kind, AllEligible(sel.kind, pages))
    requires sel.need == Sum(sel.kind, AllEligible(sel.kind, pages)) && Fits(sel.kind, sel.need)
    ensures RunPages(sel, pages, []).taken == AllEligible(sel.kind, pages)
    ensures Measure(sel.kind, RunPages(sel, pages, []).taken) == sel.need
  {
    var all := AllEligible(sel.kind, pages);
    assert [] + all == all;
    SelectionIsComplete(sel, pages);
    NothingInvented(sel, pages, []);
    WorthAllMeansAll(sel, pages, []);
  }

  /** A restart that takes its output again. */
  lemma RestartRepeatsInput()
    ensures var u := Deposit(0, 10);
            var queries := [Pages([Page([Listed(u, true), Listed(Deposit(1, 10), false)])]), Pages([Page([Listed(u, true)])])];
            var run := RunBasic(queries, 10);
            run.result.Ok? && ListsOnce(queries) && !Distinct(run.abandoned + run.taken)
  {
    RestartKeepsInput();
    var u, v := Deposit(0, 10), Deposit(1, 10);
    var first, second := [Listed(u, true), Listed(v, false)], [Listed(u, true)];
    assert first[1..] == [Listed(v, false)] && second[1..] == [] && first[1..][1..] == [];
    assert EligibleIn(Base, first[1..]) == [v];
    assert AllEligible(Base, [Page(first)][1..]) == [] && AllEligible(Base, [Page(second)][1..]) == [];
    assert AllEligible(Base, [Page(first)]) == [u, v] && AllEligible(Base, [Page(second)]) == [u];
    assert ([u] + [u])[0].id == ([u] + [u])[1].id;
  }

  /** 128 outputs of one token each pay 128 tokens, but not the storage deposit: with the one base-coin
      output that does, there are 129 inputs. */
  lemma TopUpPassesLimit(address: seq<Byte>, to: seq<Byte>, tag: seq<Byte>, id: TokenId)
    ensures var p := Protocol(0, _ => 200);
            var c := Call(IotaSmrToken(address, id), to, 128, tag, LargePurse(p, id));
            c.WrappedServable(p) && |c.Taken() + c.Filled(p)| == 129
  {
    var p := Protocol(0, _ => 200);
    var c := Call(IotaSmrToken(address, id), to, 128, tag, LargePurse(p, id));
    AllCoinsTaken(id);
    OneDepositTaken(Deposit(128, 1000), 0);
    OneDeposit(Deposit(128, 1000));
  }

  function LargePurse(p: Protocol, id: TokenId): NodeView {
    NodeView(Some(p), Pages([Page(Coins(id, MAX_INPUT_COUNT))]), [Pages([Page([Listed(Deposit(128, 1000), true)])])])
  }

  lemma AllCoinsTaken(id: TokenId)
    ensures var pages := [Page(Coins(id, MAX_INPUT_COUNT))];
            var pass := RunPages(NativeSelector(id), pages, []);
            && pass.Finished? && |pass.taken| == 128
            && Sum(Native(id), pass.taken) == 128 && Sum(Base, pass.taken) == 128
  {
    var sel, items := NativeSelector(id), Coins(id, MAX_INPUT_COUNT);
    var e := EligibleIn(sel.kind, items);
    NoMetaFinishes(sel, items, []);
    assert items[0..] == items;
    CoinsAreEligible(id, 128, 0);
    PageTakesPrefix(sel, items, []);
    KeptByCount(sel, e, []);
    assert [] + e[..128] == e && [Page(items)][1..] == [];
    CoinsWorth(id, items);
    CoinsSum(id, e);
    CoinsDeposit(id, items);
    UnitsSum(e);
  }

  predicate Units(us: seq<Utxo>) {
    forall i :: 0 <= i < |us| ==> us[i].output.deposit == 1
  }

  lemma {:induction false} CoinsDeposit(id: TokenId, items: seq<Listed>)
    requires forall i :: 0 <= i < |items| ==> items[i].utxo.output.deposit == 1
    ensures Units(EligibleIn(Native(id), items))
  {
    if items != [] {
      CoinsDeposit(id, items[1..]);
    }
  }

  lemma {:induction false} UnitsSum(us: seq<Utxo>)
    requires Units(us)
    ensures Sum(Base, us) == |us|
  {
    if us != [] {
      UnitsSum(us[..|us| - 1]);
      assert us == us[..|us| - 1] + [us[|us| - 1]];
      SumAppend(Base, us[..|us| - 1], us[|us| - 1]);
    }
  }
}
