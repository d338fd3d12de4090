/** Building the unsigned unwrap transaction on IOTA/Shimmer (tokens/iotasmr/send.go). */
module IotaSend {
  import opened Outcomes
  import opened Bytes
  import opened Ledger
  import opened TxBuilder
  import opened Selection
  import opened Collector
  import opened NativeBooks

  const MAX_TAG_LENGTH: nat := 64

  /** The fields of the token that matter here; an empty token id means the base coin. */
  datatype IotaSmrToken = IotaSmrToken(address: seq<Byte>, tokenId: TokenId)

  datatype SendError = BadAddress | TagTooLong | NodeDown | IndexerFailed | NotEnough

  /** What the node and its indexer answer during one call: the protocol parameters, the native-token
      query, and one base-coin query per pass (a list that has run out answers with an error). */
  datatype NodeView = NodeView(info: Option<Protocol>, natives: Query, basics: seq<Query>)

  datatype Unsigned = Unsigned(hash: seq<Byte>, essence: Essence)

  // ---------- the base-coin selector and its restarts ----------

  function BasicSelector(amount: nat): Selector {
    Selector(Base, MAX_INPUT_COUNT, amount, true)
  }

  function NativeSelector(id: TokenId): Selector {
    Selector(Native(id), MAX_INPUT_COUNT, 0, false)
  }

  /** A call as a whole: the inputs appended by passes that were abandoned, those of the last pass,
      and what the call returns. */
  datatype BasicRun = BasicRun(abandoned: seq<Utxo>, taken: seq<Utxo>, result: Result<nat, SendError>)

  function RunBasic(queries: seq<Query>, amount: nat, abandoned: seq<Utxo> := []): BasicRun {
    if queries == [] || queries[0].Refused? then BasicRun(abandoned, [], Err(IndexerFailed))
    else
      match RunPages(BasicSelector(amount), queries[0].pages, [])
      case Failed(t) => BasicRun(abandoned, t, Err(IndexerFailed))
      case Restarted(t) => RunBasic(queries[1..], amount, abandoned + t)
      case Finished(t) => BasicRun(abandoned, t, Surplus(t, amount))
  }

  function Surplus(taken: seq<Utxo>, amount: nat): Result<nat, SendError> {
    if Measure(Base, taken) < amount then Err(NotEnough) else Ok(Measure(Base, taken) - amount)
  }

  /** One pass from the label GetUtxos on; None is the jump back to it. The builder is not cleared. */
  method OnePass(b: UnsignTransactionBuilder, query: Query, amount: nat) returns (r: Option<Result<nat, SendError>>)
    requires b.Valid()
    modifies b`inputIds, b`inputs, b`added
    ensures b.Valid()
    ensures query.Refused? ==> r == Some(Err(IndexerFailed)) && b.added == old(b.added)
    ensures query.Pages? ==>
              var pass := RunPages(BasicSelector(amount), query.pages, []);
              && b.added == old(b.added) + pass.taken
              && r == match pass
                      case Failed(_) => Some(Err(IndexerFailed))
                      case Restarted(_) => None
                      case Finished(t) => Some(Surplus(t, amount))
  {
    if query.Refused? {
      return Some(Err(IndexerFailed));
    }
    var end, sum, _ := Collect(b, BasicSelector(amount), query.pages);
    match end {
      case Done => r := Some(if sum < amount then Err(NotEnough) else Ok(sum - amount));
      case Restart => r := None;
      case BadPage => r := Some(Err(IndexerFailed));
    }
  }

  /** getBasiceUnSpentOutputs. A restart clears sum and count but not the builder. */
  method GetBasicUnspentOutputs(b: UnsignTransactionBuilder, queries: seq<Query>, amount: nat)
    returns (r: Result<nat, SendError>)
    requires b.Valid()
    modifies b`inputIds, b`inputs, b`added
    ensures b.Valid()
    ensures var run := RunBasic(queries, amount);
            r == run.result && b.added == old(b.added) + (run.abandoned + run.taken)
  {
    ghost var abandoned: seq<Utxo> := [];
    for attempt := 0 to |queries|
      invariant b.Valid() && b.added == old(b.added) + abandoned
      invariant RunBasic(queries, amount) == RunBasic(queries[attempt..], amount, abandoned)
    {
      assert queries[attempt..][1..] == queries[attempt + 1..];
      ghost var pass := if queries[attempt].Refused? then []
                        else RunPages(BasicSelector(amount), queries[attempt].pages, []).taken;
      var end := OnePass(b, queries[attempt], amount);
      assert b.added == old(b.added) + (abandoned + pass);
      if end.Some? {
        return end.value;
      }
      abandoned := abandoned + pass;
    }
    r := Err(IndexerFailed);
  }

  /** What was abandoned before only stands in front of what the rest of the call does. */
  lemma {:induction false} AbandonedInFront(queries: seq<Query>, amount: nat, before: seq<Utxo>)
    ensures var run := RunBasic(queries, amount);
            RunBasic(queries, amount, before) == run.(abandoned := before + run.abandoned)
  {
    assert before + [] == before;
    if queries != [] && queries[0].Pages? {
      var pass := RunPages(BasicSelector(amount), queries[0].pages, []);
      if pass.Restarted? {
        AbandonedInFront(queries[1..], amount, before + pass.taken);
        AbandonedInFront(queries[1..], amount, [] + pass.taken);
        assert [] + pass.taken == pass.taken;
        var rest := RunBasic(queries[1..], amount).abandoned;
        assert before + (pass.taken + rest) == (before + pass.taken) + rest;
      }
    }
  }

  /** A restart: whatever the pass had taken is abandoned, and the next answer is taken from scratch. */
  lemma RestartMeans(first: Query, later: seq<Query>, amount: nat)
    requires first.Pages? && RunPages(BasicSelector(amount), first.pages, []).Restarted?
    ensures var run := RunBasic(later, amount);
            RunBasic([first] + later, amount) ==
            run.(abandoned := RunPages(BasicSelector(amount), first.pages, []).taken + run.abandoned)
  {
    var taken := RunPages(BasicSelector(amount), first.pages, []).taken;
    assert ([first] + later)[1..] == later && [] + taken == taken;
    AbandonedInFront(later, amount, taken);
  }

  /** The last pass alone pays for the amount and the change. */
  lemma {:induction false} LastPassPays(queries: seq<Query>, amount: nat, abandoned: seq<Utxo> := [])
    requires RunBasic(queries, amount, abandoned).result.Ok?
    requires Sum(Base, RunBasic(queries, amount, abandoned).taken) < U64
    ensures var run := RunBasic(queries, amount, abandoned); Sum(Base, run.taken) == amount + run.result.value
  {
    var pass := RunPages(BasicSelector(amount), queries[0].pages, []);
    if pass.Restarted? {
      LastPassPays(queries[1..], amount, abandoned + pass.taken);
    }
  }

  /** Exact accounting over any number of restarts: the deposits of everything the call appended are
      the amount, the change it reports, and the inputs of the abandoned passes. So with positive
      deposits the books balance exactly when no abandoned pass had appended an input. */
  lemma ExactAccounting(queries: seq<Query>, amount: nat)
    requires RunBasic(queries, amount).result.Ok?
    requires Sum(Base, RunBasic(queries, amount).taken) < U64
    ensures var run := RunBasic(queries, amount);
            && Sum(Base, run.abandoned + run.taken) == amount + run.result.value + Sum(Base, run.abandoned)
            && (Positive(Base, run.abandoned) ==>
                  (Sum(Base, run.abandoned + run.taken) == amount + run.result.value <==> run.abandoned == []))
  {
    var run := RunBasic(queries, amount);
    LastPassPays(queries, amount);
    SumConcat(Base, run.abandoned, run.taken);
    if Positive(Base, run.abandoned) {
      PositiveSum(Base, run.abandoned);
    }
  }

  /** An output that only names a deposit. */
  function Deposit(id: OutputId, amount: nat): Utxo {
    Utxo(id, Basic(amount, [], None, None, None))
  }

  /** Such a run: the first pass takes an output of 10 and meets one that was spent meanwhile; the
      second takes the first output again. 20 are consumed for an amount of 10 and no change. */
  lemma RestartKeepsInput()
    ensures var u := Deposit(0, 10);
            var queries := [Pages([Page([Listed(u, true), Listed(Deposit(1, 10), false)])]), Pages([Page([Listed(u, true)])])];
            var run := RunBasic(queries, 10);
            && run.result == Ok(0) && run.abandoned == [u] && run.taken == [u]
            && Sum(Base, run.abandoned + run.taken) == 20
  {
    var u := Deposit(0, 10);
    var first, second := [Listed(u, true), Listed(Deposit(1, 10), false)], [Listed(u, true)];
    var queries := [Pages([Page(first)]), Pages([Page(second)])];
    OneDeposit(u);
    OneDepositTaken(u, 10);
    assert first[1..] == [Listed(Deposit(1, 10), false)];
    assert RunPage(BasicSelector(10), first, []) == Restarted([] + [u]);
    assert [] + [u] == [u] && queries[1..] == [Pages([Page(second)])];
    assert RunPages(BasicSelector(10), [Page(first)], []) == Restarted([u]);
    assert RunBasic(queries, 10) == RunBasic(queries[1..], 10, [u]);
    assert RunBasic(queries[1..], 10, [u]) == BasicRun([u], [u], Ok(0));
    SumAppend(Base, [u], u);
    assert [u] + [u] == [u, u];
  }

  lemma OneDeposit(u: Utxo)
    ensures Sum(Base, [u]) == u.output.deposit
  {
    SumAppend(Base, [], u);
    assert [] + [u] == [u];
  }

  /** A single page with a single live base-coin output. */
  lemma OneDepositTaken(u: Utxo, amount: nat)
    requires u.output.tokens == []
    ensures RunPages(BasicSelector(amount), [Page([Listed(u, true)])], []) == Finished([u])
  {
    var items := [Listed(u, true)];
    assert items[1..] == [] && [] + [u] == [u];
    assert RunPage(BasicSelector(amount), items, []) == Finished([u]);
    assert [Page(items)][1..] == [];
  }

  /** Every pass, however it ends, holds eligible outputs only. */
  lemma {:induction false} EligibleSoFar(sel: Selector, pages: seq<Page>, taken: seq<Utxo>)
    requires AllOf(sel.kind, taken)
    ensures AllOf(sel.kind, RunPages(sel, pages, taken).taken)
  {
    if pages != [] && pages[0].Page? {
      EligibleInPage(sel, pages[0].items, taken);
      var page := RunPage(sel, pages[0].items, taken);
      if page.Finished? {
        EligibleSoFar(sel, pages[1..], page.taken);
      }
    }
  }

  lemma {:induction false} EligibleInPage(sel: Selector, items: seq<Listed>, taken: seq<Utxo>)
    requires AllOf(sel.kind, taken)
    ensures AllOf(sel.kind, RunPage(sel, items, taken).taken)
  {
    if items != [] {
      EligibleInPage(sel, items[1..], taken);
      if Eligible(sel.kind, items[0].utxo.output) {
        EligibleInPage(sel, items[1..], taken + [items[0].utxo]);
      }
    }
  }

  /** A restart-free call is complete: it succeeds if and only if the eligible deposits of all pages
      cover the amount, and then it reports exactly the surplus of what it took. */
  lemma RestartFreeComplete(query: Query, later: seq<Query>, amount: nat)
    requires query.Pages? && RunPages(BasicSelector(amount), query.pages, []).Finished?
    requires Sum(Base, AllEligible(Base, query.pages)) < U64
    ensures var run := RunBasic([query] + later, amount);
            && run.abandoned == []
            && (run.result.Ok? <==> Sum(Base, AllEligible(Base, query.pages)) >= amount)
            && (run.result.Ok? ==> Sum(Base, run.taken) == amount + run.result.value)
  {
    SelectionIsComplete(BasicSelector(amount), query.pages);
  }

  /** The input count of the amount-0 call: a restart-free pass over k pages holds at most
      128 + k - 1 inputs. */
  lemma FillUpCountBound(query: Query, later: seq<Query>)
    requires query.Pages? && query.pages != [] && RunPages(BasicSelector(0), query.pages, []).Finished?
    ensures var run := RunBasic([query] + later, 0);
            |run.abandoned + run.taken| <= MAX_INPUT_COUNT + |query.pages| - 1
  {
    CountBound(BasicSelector(0), query.pages, [], 0);
  }

  // ---------- the native-token selector ----------

  /** What the native-token selector takes from a query it can read. */
  function NativeTaken(id: TokenId, natives: Query): seq<Utxo> {
    if natives.Pages? then RunPages(NativeSelector(id), natives.pages, []).taken else []
  }

  predicate NativeReadable(id: TokenId, natives: Query) {
    natives.Pages? && RunPages(NativeSelector(id), natives.pages, []).Finished?
  }

  /** The token selector stops on the count alone: over k pages it holds at most 128 + k - 1 inputs. */
  lemma NativeCountBound(id: TokenId, natives: Query)
    requires NativeReadable(id, natives) && natives.pages != []
    ensures |NativeTaken(id, natives)| <= MAX_INPUT_COUNT + |natives.pages| - 1
  {
    CountBound(NativeSelector(id), natives.pages, [], 0);
  }

  /** So it serves every amount that the pages hold exactly when no page overflows the count. */
  lemma NativeCompleteIff(id: TokenId, natives: Query)
    requires NativeReadable(id, natives) && Positive(Native(id), AllEligible(Native(id), natives.pages))
    ensures (forall amount: nat ::
               Serves(Native(id), NativeTaken(id, natives), AllEligible(Native(id), natives.pages), amount))
            <==> PagesFit(Native(id), MAX_INPUT_COUNT, natives.pages, 0)
  {
    var sel := NativeSelector(id);
    CountOnlyCompleteIff(sel, natives.pages);
    forall amount: nat
      ensures Serves(sel.kind, RunPages(sel, natives.pages, []).taken, AllEligible(sel.kind, natives.pages), amount)
           == Serves(Native(id), NativeTaken(id, natives), AllEligible(Native(id), natives.pages), amount)
    {
    }
  }

  /** getNativeTokenOutputs: returns the token change and the deposits that came along. */
  method GetNativeTokenOutputs(b: UnsignTransactionBuilder, id: TokenId, natives: Query, amount: nat)
    returns (r: Result<(nat, nat), SendError>)
    requires b.Valid()
    modifies b`inputIds, b`inputs, b`added
    ensures b.Valid() && b.added == old(b.added) + NativeTaken(id, natives)
    ensures var sum := Sum(Native(id), NativeTaken(id, natives));
            && (r.Ok? <==> NativeReadable(id, natives) && sum >= amount)
            && (r.Ok? ==> r.value == (sum - amount, Wrap(Sum(Base, NativeTaken(id, natives)))))
  {
    if natives.Refused? {
      return Err(IndexerFailed);
    }
    var end, sum, sumSmr := Collect(b, NativeSelector(id), natives.pages);
    if !end.Done? {
      return Err(IndexerFailed);
    }
    return if sum < amount then Err(NotEnough) else Ok((sum - amount, sumSmr));
  }

  // ---------- the outputs ----------

  const UNWRAP_NOTE: string := "Unwrap"

  /** The order's own output. */
  function OutputTo(tokens: seq<NativeToken>, deposit: nat, to: seq<Byte>, tag: seq<Byte>): Output {
    Basic(deposit, tokens, Some(to), Some(UNWRAP_NOTE), Some(tag))
  }

  lemma {:induction false} AllRunsEligible(queries: seq<Query>, amount: nat, abandoned: seq<Utxo> := [])
    requires AllOf(Base, abandoned)
    ensures var run := RunBasic(queries, amount, abandoned); AllOf(Base, run.abandoned + run.taken)
  {
    if queries != [] && queries[0].Pages? {
      EligibleSoFar(BasicSelector(amount), queries[0].pages, []);
      var pass := RunPages(BasicSelector(amount), queries[0].pages, []);
      if pass.Restarted? {
        AllRunsEligible(queries[1..], amount, abandoned + pass.taken);
      }
    }
  }

  /** One native-token call: what it is asked and what the node answers. */
  datatype Call = Call(token: IotaSmrToken, to: seq<Byte>, amount: nat, tag: seq<Byte>, view: NodeView) {
    function Taken(): seq<Utxo> {
      NativeTaken(token.tokenId, view.natives)
    }

    predicate Enough() {
      NativeReadable(token.tokenId, view.natives) && Sum(Native(token.tokenId), Taken()) >= amount
    }

    function TokenChange(): nat
      requires Enough()
    {
      Sum(Native(token.tokenId), Taken()) - amount
    }

    function Order(deposit: nat): Output {
      OutputTo([NativeToken(token.tokenId, amount)], deposit, to, tag)
    }

    function RentsIn(p: Protocol): Rents {
      RentsOf(p, Order(0), token.address, token.tokenId)
    }

    /** The top-up is made unless the deposits that came along are exactly what is needed. */
    predicate ToppedUp(p: Protocol)
      requires Enough()
    {
      WrappedNeed(RentsIn(p), TokenChange()) != Wrap(Sum(Base, Taken()))
    }

    function TopUp(): BasicRun {
      RunBasic(view.basics, 0)
    }

    /** What the top-up appends to the builder, and the part of it that is forgotten. */
    function Filled(p: Protocol): seq<Utxo>
      requires Enough()
    {
      if ToppedUp(p) then TopUp().abandoned + TopUp().taken else []
    }

    function Abandoned(p: Protocol): seq<Utxo>
      requires Enough()
    {
      if ToppedUp(p) then TopUp().abandoned else []
    }

    /** The base coins on hand after the top-up, in uint64. */
    function WrappedLeft(): nat
      requires TopUp().result.Ok?
    {
      Wrap(TopUp().result.value + Wrap(Sum(Base, Taken())))
    }

    predicate WrappedServable(p: Protocol) {
      && Enough()
      && (ToppedUp(p) ==>
            && TopUp().result.Ok?
            && WrappedLeft() >= Wrap(WrappedNeed(RentsIn(p), TokenChange()) + Wrap(RentsIn(p).baseChange)))
    }

    function WrappedOrderAndTokens(p: Protocol): seq<Output>
      requires Enough()
    {
      OrderOutputs(Order(Wrap(RentsIn(p).order)), token.address, token.tokenId, TokenChange(),
                   Wrap(RentsIn(p).tokenChange), None)
    }

    function WrappedOutputs(p: Protocol): seq<Output>
      requires WrappedServable(p)
    {
      WrappedOrderAndTokens(p) +
      if ToppedUp(p)
      then [Change(token.address, [], Wrap(WrappedLeft() + U64 - WrappedNeed(RentsIn(p), TokenChange())))]
      else []
    }

    /** The call can be served: the tokens are there and the base coins cover the rents. */
    predicate Servable(p: Protocol) {
      && Enough()
      && var need := Need(RentsIn(p), TokenChange());
      || need == Sum(Base, Taken())
      || (TopUp().result.Ok? &&
          TopUp().result.value + Sum(Base, Taken()) >= need + RentsIn(p).baseChange)
    }
  }

  /** The first half of getUnSignedTxDataNativeToken: the order, the token inputs and the token
      change. Returns needSmrAmount and leftSmrAmount. */
  method AddOrderAndTokens(b: UnsignTransactionBuilder, c: Call, p: Protocol)
    returns (r: Result<(nat, nat), SendError>)
    requires b.Valid() && b.added == [] && b.outputs == []
    modifies b`inputIds, b`inputs, b`added, b`outputs
    ensures b.Valid() && b.added == c.Taken()
    ensures r.Ok? <==> c.Enough()
    ensures r.Ok? ==>
              && r.value == (WrappedNeed(c.RentsIn(p), c.TokenChange()), Wrap(Sum(Base, c.Taken())))
              && b.outputs == c.WrappedOrderAndTokens(p)
  {
    var token, rents := c.token, c.RentsIn(p);
    var rentTo := Wrap(rents.order);
    b.AddOutput(c.Order(rentTo));
    var natives := GetNativeTokenOutputs(b, token.tokenId, c.view.natives, c.amount);
    if natives.Err? {
      return Err(natives.error);
    }
    var (leftToken, leftSmr) := natives.value;
    var needSmr := rentTo;
    if leftToken > 0 {
      var rentSelf := Wrap(rents.tokenChange);
      needSmr := Wrap(needSmr + rentSelf);
      b.AddOutput(Change(token.address, [NativeToken(token.tokenId, leftToken)], rentSelf));
    }
    r := Ok((needSmr, leftSmr));
  }

  /** The second half: the top-up, and the base-coin change. */
  method AddTopUp(b: UnsignTransactionBuilder, c: Call, p: Protocol, needSmr: nat, leftSmr: nat)
    returns (error: Option<SendError>)
    requires b.Valid() && c.Enough() && c.ToppedUp(p) && b.added == c.Taken() && b.outputs == c.WrappedOrderAndTokens(p)
    requires needSmr == WrappedNeed(c.RentsIn(p), c.TokenChange()) && leftSmr == Wrap(Sum(Base, c.Taken()))
    modifies b`inputIds, b`inputs, b`added, b`outputs
    ensures b.Valid() && b.added == c.Taken() + c.Filled(p)
    ensures error.None? <==> c.WrappedServable(p)
    ensures error.None? ==> b.outputs == c.WrappedOutputs(p)
  {
    var basic := GetBasicUnspentOutputs(b, c.view.basics, 0);
    if basic.Err? {
      return Some(basic.error);
    }
    var left := Wrap(basic.value + leftSmr);
    if left < Wrap(needSmr + Wrap(c.RentsIn(p).baseChange)) {
      return Some(NotEnough);
    }
    b.AddOutput(Change(c.token.address, [], Wrap(left + U64 - needSmr)));
    return None;
  }

  /** getUnSignedTxDataNativeToken, in uint64 arithmetic. */
  method GetUnsignedTxDataNativeToken(c: Call, p: Protocol, signingMessage: Essence -> seq<Byte>)
    returns (r: Result<Unsigned, SendError>)
    ensures r.Ok? <==> c.WrappedServable(p)
    ensures r.Ok? ==>
              var e := r.value.essence;
              && r.value.hash == signingMessage(e)
              && e.networkId == p.networkId
              && e.inputs == Ids(c.Taken() + c.Filled(p))
              && (Consistent(c.Taken() + c.Filled(p)) ==> e.commitment == Outputs(c.Taken() + c.Filled(p)))
              && e.outputs == c.WrappedOutputs(p)
  {
    var b := new UnsignTransactionBuilder(p.networkId);
    var begun := AddOrderAndTokens(b, c, p);
    if begun.Err? {
      return Err(begun.error);
    }
    var (needSmr, leftSmr) := begun.value;
    if needSmr != leftSmr {
      var error := AddTopUp(b, c, p, needSmr, leftSmr);
      if error.Some? {
        return Err(error.value);
      }
    }
    assert b.added == c.Taken() + c.Filled(p);
    var hash, essence := b.GetTxEssenceData(signingMessage);
    r := Ok(Unsigned(hash, essence));
  }

  /** Where the supply fits, no uint64 operation of the native path truncates. */
  lemma NothingTruncates(c: Call, p: Protocol)
    requires c.Enough()
    requires SupplyFits(c.RentsIn(p), c.Taken() + (c.TopUp().abandoned + c.TopUp().taken))
    ensures WrappedNeed(c.RentsIn(p), c.TokenChange()) == Need(c.RentsIn(p), c.TokenChange())
    ensures Wrap(Sum(Base, c.Taken())) == Sum(Base, c.Taken())
    ensures c.TopUp().result.Ok? ==>
              && Sum(Base, c.TopUp().taken) == c.TopUp().result.value
              && c.WrappedLeft() == c.TopUp().result.value + Sum(Base, c.Taken())
  {
    SumConcat(Base, c.Taken(), c.TopUp().abandoned + c.TopUp().taken);
    SumConcat(Base, c.TopUp().abandoned, c.TopUp().taken);
    if c.TopUp().result.Ok? {
      LastPassPays(c.view.basics, 0);
    }
  }

  /** On a ledger whose supply fits, the native path succeeds exactly when the call can be served, and
      then both currencies balance up to the inputs of abandoned passes, no foreign token is
      consumed, every output covers its own storage deposit, and the order comes first. */
  lemma NativePathBalances(c: Call, p: Protocol)
    requires c.Enough() ==> SupplyFits(c.RentsIn(p), c.Taken() + (c.TopUp().abandoned + c.TopUp().taken))
    ensures c.WrappedServable(p) <==> c.Servable(p)
    ensures c.Servable(p) ==>
              && Balanced(p, c.token.tokenId, c.WrappedOutputs(p), c.Taken() + c.Filled(p), c.Abandoned(p))
              && PaysOrder(c.Order(c.RentsIn(p).order), c.token.address, c.WrappedOutputs(p))
  {
    if c.Enough() {
      NothingTruncates(c, p);
      if c.Servable(p) {
        var rents, change := c.RentsIn(p), c.TokenChange();
        var top := if c.ToppedUp(p) then Some(c.TopUp().result.value) else None;
        if top.Some? {
          WrapDifference(c.WrappedLeft(), Need(rents, change));
          OutputsToppedUp(c.Order(rents.order), c.token.address, c.token.tokenId, change, rents.tokenChange,
                          BaseChange(rents, change, Sum(Base, c.Taken()), top).value);
        }
        assert c.WrappedOutputs(p) == OrderOutputs(c.Order(rents.order), c.token.address, c.token.tokenId, change,
          rents.tokenChange, BaseChange(rents, change, Sum(Base, c.Taken()), top));
        ServedCallBalances(c, p, top);
      }
    }
  }

  /** When there are at most 128 outputs of either kind and no restart, what the wallet holds decides:
      the tokens cover the amount, and the base coins that come with them are exactly the storage
      deposits of the order and the token change, or with all others cover these and that of a third
      output. */
  lemma SmallWalletServableIff(c: Call, p: Protocol, pages: seq<Page>)
    requires NativeReadable(c.token.tokenId, c.view.natives)
    requires c.view.basics != [] && c.view.basics[0] == Pages(pages) && RunPages(BasicSelector(0), pages, []).Finished?
    requires var all := AllEligible(Native(c.token.tokenId), c.view.natives.pages);
             |all| <= MAX_INPUT_COUNT && Sum(Base, all) + Sum(Base, AllEligible(Base, pages)) < U64
    requires |AllEligible(Base, pages)| <= MAX_INPUT_COUNT
    ensures var id, all := c.token.tokenId, AllEligible(Native(c.token.tokenId), c.view.natives.pages);
            var tokens, brought, others := Sum(Native(id), all), Sum(Base, all), Sum(Base, AllEligible(Base, pages));
            var need := Rent(p, OutputTo([NativeToken(id, 0)], 0, c.to, c.tag))
                        + if tokens > c.amount then Rent(p, Change(c.token.address, [NativeToken(id, 0)], 0)) else 0;
            c.Servable(p) <==>
              && tokens >= c.amount
              && (brought == need || brought + others >= need + Rent(p, Change(c.token.address, [], 0)))
  {
    var natives, coins := AllEligible(Native(c.token.tokenId), c.view.natives.pages), AllEligible(Base, pages);
    assert [] + natives == natives && [] + coins == coins;
    FewAreAllTaken(NativeSelector(c.token.tokenId), c.view.natives.pages, []);
    FewAreAllTaken(BasicSelector(0), pages, []);
    assert c.Taken() == natives && c.TopUp() == BasicRun([], coins, Surplus(coins, 0));
    SameShapeIff(c.Order(0), OutputTo([NativeToken(c.token.tokenId, 0)], 0, c.to, c.tag));
  }

  lemma ServedCallBalances(c: Call, p: Protocol, top: Option<nat>)
    requires c.Enough()
    requires Covered(c.RentsIn(p), c.TokenChange(), Sum(Base, c.Taken()), top)
    requires top.Some? <==> c.ToppedUp(p)
    requires top.Some? ==> Sum(Base, c.TopUp().taken) == top.value
    ensures var rents, change := c.RentsIn(p), c.TokenChange();
            var outputs := OrderOutputs(c.Order(rents.order), c.token.address, c.token.tokenId, change,
              rents.tokenChange, BaseChange(rents, change, Sum(Base, c.Taken()), top));
            && Balanced(p, c.token.tokenId, outputs, c.Taken() + c.Filled(p), c.Abandoned(p))
            && PaysOrder(c.Order(rents.order), c.token.address, outputs)
  {
    var order := c.Order(c.RentsIn(p).order);
    SumConcat(Base, c.TopUp().abandoned, c.TopUp().taken);
    AllRunsEligible(c.view.basics, 0);
    EligibleSoFar(NativeSelector(c.token.tokenId), c.view.natives.pages, []);
    assert ShapeOf(order) == ShapeOf(c.Order(0));
    assert RentsOf(p, order, c.token.address, c.token.tokenId) == c.RentsIn(p);
    BooksBalance(p, c.token.tokenId, c.amount, order, c.token.address, c.Taken(), c.Filled(p), c.Abandoned(p), top);
  }

  // ---------- the base-coin path ----------

  /** getUnSignedTxDataBasic. The amount is cut to its low 64 bits; the change is not checked against
      its storage deposit, so the outputs cover their rents only if the amounts happen to. */
  method GetUnsignedTxDataBasic(c: Call, p: Protocol, signingMessage: Essence -> seq<Byte>)
    returns (r: Result<Unsigned, SendError>)
    ensures var run := RunBasic(c.view.basics, Wrap(c.amount));
            && (r.Ok? <==> run.result.Ok?)
            && (r.Ok? ==>
                  var e := r.value.essence;
                  var consumed := run.abandoned + run.taken;
                  && r.value.hash == signingMessage(e)
                  && e.networkId == p.networkId
                  && e.inputs == Ids(consumed)
                  && (Consistent(consumed) ==> e.commitment == Outputs(consumed))
                  && e.outputs == BasicOutputs(c, OutputTo([], Wrap(c.amount), c.to, c.tag), run.result.value)
                  && PaysOrder(OutputTo([], Wrap(c.amount), c.to, c.tag), c.token.address, e.outputs)
                  && (Sum(Base, run.taken) < U64 ==>
                        Sum(Base, consumed) == Total(Base, e.outputs) + Sum(Base, run.abandoned))
                  && (CoversRent(p, e.outputs) <==>
                      && Wrap(c.amount) >= Rent(p, OutputTo([], 0, c.to, c.tag))
                      && (run.result.value == 0 || run.result.value >= Rent(p, Change(c.token.address, [], 0)))))
  {
    var sendAmount := Wrap(c.amount);
    var b := new UnsignTransactionBuilder(p.networkId);
    var output := OutputTo([], sendAmount, c.to, c.tag);
    var left := GetBasicUnspentOutputs(b, c.view.basics, sendAmount);
    if left.Err? {
      return Err(left.error);
    }
    b.AddOutput(output);
    if left.value > 0 {
      b.AddOutput(Change(c.token.address, [], left.value));
    }
    BasicOutputsWorth(c, p, output, left.value);
    ghost var run := RunBasic(c.view.basics, sendAmount);
    SumConcat(Base, run.abandoned, run.taken);
    if Sum(Base, run.taken) < U64 {
      LastPassPays(c.view.basics, sendAmount);
    }
    assert b.outputs == BasicOutputs(c, output, left.value);
    assert b.added == run.abandoned + run.taken;
    var hash, essence := b.GetTxEssenceData(signingMessage);
    r := Ok(Unsigned(hash, essence));
  }

  function BasicOutputs(c: Call, order: Output, left: nat): seq<Output> {
    [order] + if left > 0 then [Change(c.token.address, [], left)] else []
  }

  lemma BasicOutputsWorth(c: Call, p: Protocol, order: Output, left: nat)
    requires order == OutputTo([], order.deposit, c.to, c.tag)
    ensures var outputs := BasicOutputs(c, order, left);
            && Total(Base, outputs) == order.deposit + left
            && PaysOrder(order, c.token.address, outputs)
            && (CoversRent(p, outputs) <==>
                && order.deposit >= Rent(p, OutputTo([], 0, c.to, c.tag))
                && (left == 0 || left >= Rent(p, Change(c.token.address, [], 0))))
  {
    var outputs := BasicOutputs(c, order, left);
    TotalAppend(Base, [], order);
    TotalAppend(Base, [order], Change(c.token.address, [], left));
    assert [] + [order] == [order];
    assert outputs[0] == order && ShapeOf(order) == ShapeOf(OutputTo([], 0, c.to, c.tag));
    if left > 0 {
      assert outputs[1] == Change(c.token.address, [], left);
      assert ShapeOf(outputs[1]) == ShapeOf(Change(c.token.address, [], 0));
    }
  }

  /** For a restart-free call over at most 128 eligible outputs: what there is on the pages and the
      amount decide whether the call succeeds, what the change is, and whether both outputs cover their
      storage deposits. */
  lemma SmallCallCoversRentIff(c: Call, p: Protocol, pages: seq<Page>)
    requires c.view.basics != [] && c.view.basics[0] == Pages(pages)
    requires RunPages(BasicSelector(Wrap(c.amount)), pages, []).Finished?
    requires |AllEligible(Base, pages)| <= MAX_INPUT_COUNT && Sum(Base, AllEligible(Base, pages)) < U64
    ensures var order := OutputTo([], Wrap(c.amount), c.to, c.tag);
            var funds, result := Sum(Base, AllEligible(Base, pages)), RunBasic(c.view.basics, Wrap(c.amount)).result;
            && (result.Ok? <==> funds >= Wrap(c.amount))
            && (result.Ok? ==>
                  && result.value == funds - Wrap(c.amount)
                  && (CoversRent(p, BasicOutputs(c, order, result.value)) <==>
                      && Wrap(c.amount) >= Rent(p, OutputTo([], 0, c.to, c.tag))
                      && (funds == Wrap(c.amount) || funds - Wrap(c.amount) >= Rent(p, Change(c.token.address, [], 0)))))
  {
    var sel, all := BasicSelector(Wrap(c.amount)), AllEligible(Base, pages);
    assert [] + all == all;
    FewAreAllTaken(sel, pages, []);
    if Sum(Base, all) >= Wrap(c.amount) {
      BasicOutputsWorth(c, p, OutputTo([], Wrap(c.amount), c.to, c.tag), Sum(Base, all) - Wrap(c.amount));
    }
  }

  /** One base-coin output on one page. */
  function Purse(p: Protocol, funds: nat): NodeView {
    NodeView(Some(p), Query.Refused, [Pages([Page([Listed(Deposit(0, funds), true)])])])
  }

  lemma PurseServes(p: Protocol, funds: nat, amount: nat)
    requires amount <= funds < U64
    ensures RunBasic(Purse(p, funds).basics, amount).result == Ok(funds - amount)
  {
    OneDepositTaken(Deposit(0, funds), amount);
    OneDeposit(Deposit(0, funds));
  }

  /** A call that succeeds with a change below its storage deposit: 10 out of 11, at a deposit of 5. */
  lemma ChangeBelowRent(address: seq<Byte>, to: seq<Byte>, tag: seq<Byte>)
    ensures var p := Protocol(0, _ => 5);
            var c := Call(IotaSmrToken(address, EMPTY_TOKEN), to, 10, tag, Purse(p, 11));
            && RunBasic(c.view.basics, Wrap(c.amount)).result == Ok(1)
            && !CoversRent(p, BasicOutputs(c, OutputTo([], Wrap(c.amount), c.to, c.tag), 1))
  {
    var p := Protocol(0, _ => 5);
    PurseServes(p, 11, 10);
    BasicOutputsWorth(Call(IotaSmrToken(address, EMPTY_TOKEN), to, 10, tag, Purse(p, 11)), p, OutputTo([], 10, to, tag), 1);
  }

  // ---------- proposer and validator ----------

  datatype BaseTransaction = BaseTransaction(to: string, amount: nat, txid: seq<Byte>)

  datatype ReadError = WrongHash | WrongOutput | NoAddress

  /** getAmountFromOutput. */
  function AmountFromOutput(token: IotaSmrToken, o: Output): nat {
    if |o.tokens| == 1 && o.tokens[0].id == token.tokenId then o.tokens[0].amount else o.deposit
  }

  /** getTagDataFromFeature: no tag reads as the empty string. */
  function TagFromOutput(o: Output): seq<Byte>
    requires o.Basic?
  {
    if o.tag.Some? then o.tag.value else []
  }

  /** ValiditeUnWrapTxData: what a validator reads from a proposed essence. */
  function ValidateUnWrapTxData(token: IotaSmrToken, hash: seq<Byte>, e: Essence,
                                signingMessage: Essence -> seq<Byte>): Result<BaseTransaction, ReadError>
  {
    if hash != signingMessage(e) then Err(WrongHash)
    else if |e.outputs| < 1 || !e.outputs[0].Basic? then Err(WrongOutput)
    else if e.outputs[0].address.None? then Err(NoAddress)
    else
      var o := e.outputs[0];
      Ok(BaseTransaction(Prefixed(o.address.value), AmountFromOutput(token, o), TagFromOutput(o)))
  }

  /** The request is well formed and the node's answers let its path be served. */
  predicate Creatable(token: IotaSmrToken, ed25519Id: string, amount: nat, tag: seq<Byte>, view: NodeView) {
    && |FromHex(ed25519Id)| == 32 && |tag| <= MAX_TAG_LENGTH && view.info.Some?
    && if token.tokenId == EMPTY_TOKEN then RunBasic(view.basics, Wrap(amount)).result.Ok?
       else Call(token, FromHex(ed25519Id), amount, tag, view).WrappedServable(view.info.value)
  }

  /** An amount of 2^64 + 1 base coins is served by a purse of one coin, and reads back as 1. */
  lemma TruncatedAmount(p: Protocol, address: seq<Byte>, to: string, tag: seq<Byte>, hash: seq<Byte>, e: Essence,
                        signingMessage: Essence -> seq<Byte>)
    requires |FromHex(to)| == 32 && |tag| <= MAX_TAG_LENGTH && hash == signingMessage(e)
    requires var c := Call(IotaSmrToken(address, EMPTY_TOKEN), FromHex(to), U64 + 1, tag, Purse(p, 1));
             e.outputs == BasicOutputs(c, OutputTo([], Wrap(U64 + 1), FromHex(to), tag), 0)
    ensures var token := IotaSmrToken(address, EMPTY_TOKEN);
            && Creatable(token, to, U64 + 1, tag, Purse(p, 1))
            && ValidateUnWrapTxData(token, hash, e, signingMessage) == Ok(BaseTransaction(Prefixed(FromHex(to)), 1, tag))
  {
    WrapIsRemainder(U64 + 1);
    PurseServes(p, 1, 1);
  }

  /** CreateUnWrapTxData. Whatever it proposes, a validator of the same token reads back the address
      and the tag; and it reads back the amount of a native token, or the amount modulo 2^64 of base
      coins, so the amount itself exactly when no base-coin amount was truncated. */
  method CreateUnWrapTxData(token: IotaSmrToken, ed25519Id: string, amount: nat, tag: seq<Byte>, view: NodeView,
                            signingMessage: Essence -> seq<Byte>)
    returns (r: Result<Unsigned, SendError>)
    ensures |FromHex(ed25519Id)| != 32 ==> r == Err(BadAddress)
    ensures |FromHex(ed25519Id)| == 32 && |tag| > MAX_TAG_LENGTH ==> r == Err(TagTooLong)
    ensures r.Ok? <==> Creatable(token, ed25519Id, amount, tag, view)
    ensures r.Ok? ==>
              var read := ValidateUnWrapTxData(token, r.value.hash, r.value.essence, signingMessage);
              && read.Ok?
              && read.value.to == Prefixed(FromHex(ed25519Id)) && read.value.txid == tag
              && read.value.amount == (if token.tokenId != EMPTY_TOKEN then amount else amount % U64)
              && read.value.amount <= amount
              && (read.value.amount == amount <==> token.tokenId != EMPTY_TOKEN || amount < U64)
  {
    var addrBytes := FromHex(ed25519Id);
    if |addrBytes| != 32 {
      return Err(BadAddress);
    }
    if |tag| > MAX_TAG_LENGTH {
      return Err(TagTooLong);
    }
    if view.info.None? {
      return Err(NodeDown);
    }
    var c := Call(token, addrBytes, amount, tag, view);
    WrapIsRemainder(amount);
    if token.tokenId == EMPTY_TOKEN {
      r := GetUnsignedTxDataBasic(c, view.info.value, signingMessage);
    } else {
      r := GetUnsignedTxDataNativeToken(c, view.info.value, signingMessage);
    }
  }
}
