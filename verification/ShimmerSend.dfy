/** The centrally signed Shimmer sender (tokens/smr/send.go). Its transaction comes from the library
    builder, whose AddInput and AddOutput append just as the ones of TxBuilder do. */
module ShimmerSend {
  import opened Outcomes
  import opened Bytes
  import opened Ledger
  import opened TxBuilder
  import opened Selection
  import opened Collector
  import opened NativeBooks

  datatype SendError = BadAddress | NodeDown | IndexerFailed | NotEnough

  datatype ShimmerToken = ShimmerToken(address: seq<Byte>, tokenId: TokenId)

  /** One call and what the node answers: the protocol and the two indexer queries. */
  datatype Call = Call(token: ShimmerToken, to: seq<Byte>, amount: nat, natives: Query, basics: Query) {
    /** Stops on "count reached and sum reached". */
    function NativeSelector(): Selector {
      Selector(Native(token.tokenId), MAX_INPUT_COUNT, amount, false)
    }

    /** Stops on half the count alone. */
    function BaseSelector(): Selector {
      Selector(Base, MAX_INPUT_COUNT / 2, 0, false)
    }

    predicate Readable(q: Query, sel: Selector) {
      q.Pages? && RunPages(sel, q.pages, []).Finished?
    }

    function Taken(): seq<Utxo> {
      if natives.Pages? then RunPages(NativeSelector(), natives.pages, []).taken else []
    }

    function TopUp(): seq<Utxo> {
      if basics.Pages? then RunPages(BaseSelector(), basics.pages, []).taken else []
    }

    predicate Enough() {
      Readable(natives, NativeSelector()) && Sum(Native(token.tokenId), Taken()) >= amount
    }

    function TokenChange(): nat
      requires Enough()
    {
      Sum(Native(token.tokenId), Taken()) - amount
    }

    function Order(deposit: nat): Output {
      Basic(deposit, [NativeToken(token.tokenId, amount)], Some(to), None, None)
    }

    function RentsIn(p: Protocol): Rents {
      RentsOf(p, Order(0), token.address, token.tokenId)
    }

    predicate Exact(p: Protocol)
      requires Enough()
    {
      Need(RentsIn(p), TokenChange()) == Sum(Base, Taken())
    }

    /** The top-up is made unless the deposits that came along are exactly what is needed. */
    predicate ToppedUp(p: Protocol)
      requires Enough()
    {
      WrappedNeed(RentsIn(p), TokenChange()) != Wrap(Sum(Base, Taken()))
    }

    function Consumed(p: Protocol): seq<Utxo>
      requires Enough()
    {
      Taken() + if ToppedUp(p) then TopUp() else []
    }

    /** The base coins on hand after the top-up, in uint64. */
    function WrappedLeft(): nat {
      Wrap(Wrap(Sum(Base, TopUp())) + Wrap(Sum(Base, Taken())))
    }

    predicate WrappedServable(p: Protocol) {
      && Enough()
      && (ToppedUp(p) ==>
            && Readable(basics, BaseSelector())
            && WrappedLeft() >= Wrap(WrappedNeed(RentsIn(p), TokenChange()) + Wrap(RentsIn(p).baseChange)))
    }

    function WrappedOrderAndTokens(p: Protocol): seq<Output>
      requires Enough()
    {
      OrderOutputs(Order(Wrap(RentsIn(p).order)), token.address, token.tokenId, TokenChange(),
                   Wrap(RentsIn(p).tokenChange), None)
    }

    function WrappedOutputs(p: Protocol): seq<Output>
      requires WrappedServable(p)
    {
      WrappedOrderAndTokens(p) +
      if ToppedUp(p)
      then [Change(token.address, [], Wrap(WrappedLeft() + U64 - WrappedNeed(RentsIn(p), TokenChange())))]
      else []
    }

    /** The call can be served: the tokens are there and the base coins cover the rents. */
    predicate Servable(p: Protocol) {
      && Enough()
      && (Exact(p) ||
          (Readable(basics, BaseSelector()) &&
           Sum(Base, TopUp()) + Sum(Base, Taken()) >= Need(RentsIn(p), TokenChange()) + RentsIn(p).baseChange))
    }

    /** What the top-up reports, if it is made. */
    function Top(p: Protocol): Option<nat>
      requires Enough()
    {
      if Exact(p) then None else Some(Sum(Base, TopUp()))
    }

    /** The outputs of a served call. */
    function ExactOutputs(p: Protocol): seq<Output>
      requires Servable(p)
    {
      OrderOutputs(Order(RentsIn(p).order), token.address, token.tokenId, TokenChange(), RentsIn(p).tokenChange,
                   BaseChange(RentsIn(p), TokenChange(), Sum(Base, Taken()), Top(p)))
    }

    /** No uint64 of the call can overflow. */
    predicate Fits(p: Protocol) {
      SupplyFits(RentsIn(p), Taken() + TopUp())
    }
  }

  /** The value arithmetic of SendUnWrap, in uint64. */
  method SendUnWrap(c: Call, p: Protocol) returns (r: Result<Essence, SendError>)
    ensures r.Ok? <==> c.WrappedServable(p)
    ensures r.Ok? ==>
              && r.value.networkId == p.networkId
              && r.value.inputs == Ids(c.Consumed(p))
              && r.value.outputs == c.WrappedOutputs(p)
  {
    var b := new UnsignTransactionBuilder(p.networkId);
    var begun := AddOrderAndTokens(b, c, p);
    if begun.Err? {
      return Err(begun.error);
    }
    var (needSmr, leftSmr) := begun.value;
    if needSmr != leftSmr {
      if c.basics.Refused? {
        return Err(IndexerFailed);
      }
      var end, sum, _ := Collect(b, c.BaseSelector(), c.basics.pages);
      if !end.Done? {
        return Err(IndexerFailed);
      }
      var left := Wrap(sum + leftSmr);
      if left < Wrap(needSmr + Wrap(c.RentsIn(p).baseChange)) {
        return Err(NotEnough);
      }
      b.AddOutput(Change(c.token.address, [], Wrap(left + U64 - needSmr)));
    }
    assert b.added == c.Consumed(p);
    var _, essence := b.GetTxEssenceData(_ => []);
    r := Ok(essence);
  }

  /** The first half: the order, the token inputs and the token change. Returns needSmrAmount and
      leftSmrAmount. */
  method AddOrderAndTokens(b: UnsignTransactionBuilder, c: Call, p: Protocol)
    returns (r: Result<(nat, nat), SendError>)
    requires b.Valid() && b.added == [] && b.outputs == []
    modifies b`inputIds, b`inputs, b`added, b`outputs
    ensures b.Valid() && b.added == c.Taken()
    ensures r.Ok? <==> c.Enough()
    ensures r.Ok? ==>
              && r.value == (WrappedNeed(c.RentsIn(p), c.TokenChange()), Wrap(Sum(Base, c.Taken())))
              && b.outputs == c.WrappedOrderAndTokens(p)
  {
    var rentTo := Wrap(c.RentsIn(p).order);
    b.AddOutput(c.Order(rentTo));
    if c.natives.Refused? {
      return Err(IndexerFailed);
    }
    var end, sum, sumSmr := Collect(b, c.NativeSelector(), c.natives.pages);
    if !end.Done? {
      return Err(IndexerFailed);
    }
    if sum < c.amount {
      return Err(NotEnough);
    }
    var leftToken := sum - c.amount;
    var needSmr := rentTo;
    if leftToken > 0 {
      var rentSelf := Wrap(c.RentsIn(p).tokenChange);
      needSmr := Wrap(needSmr + rentSelf);
      b.AddOutput(Change(c.token.address, [NativeToken(c.token.tokenId, leftToken)], rentSelf));
    }
    r := Ok((needSmr, sumSmr));
  }

  /** Where the supply fits, SendUnWrap succeeds exactly when the call can be served, and then both
      currencies balance, no foreign token is consumed, every output covers its storage deposit and
      the first one is the order. */
  lemma SendBalances(c: Call, p: Protocol)
    requires c.Enough() ==> c.Fits(p)
    ensures c.WrappedServable(p) <==> c.Servable(p)
    ensures c.Servable(p) ==>
              && Balanced(p, c.token.tokenId, c.WrappedOutputs(p), c.Consumed(p), [])
              && PaysOrder(c.Order(c.RentsIn(p).order), c.token.address, c.WrappedOutputs(p))
  {
    if c.Enough() {
      SumConcat(Base, c.Taken(), c.TopUp());
      if c.Servable(p) {
        if c.ToppedUp(p) {
          WrapDifference(c.WrappedLeft(), Need(c.RentsIn(p), c.TokenChange()));
          OutputsToppedUp(c.Order(c.RentsIn(p).order), c.token.address, c.token.tokenId, c.TokenChange(),
                          c.RentsIn(p).tokenChange, c.WrappedLeft() - Need(c.RentsIn(p), c.TokenChange()));
        }
        assert c.WrappedOutputs(p) == c.ExactOutputs(p);
        ServedCallBalances(c, p);
      }
    }
  }

  lemma SelectedIsEligible(c: Call)
    ensures c.Readable(c.natives, c.NativeSelector()) ==> AllOf(Native(c.token.tokenId), c.Taken())
    ensures c.Readable(c.basics, c.BaseSelector()) ==> AllOf(Base, c.TopUp())
  {
    if c.Readable(c.natives, c.NativeSelector()) {
      NothingInvented(c.NativeSelector(), c.natives.pages, []);
      assert c.Taken()[0..] == c.Taken();
    }
    if c.Readable(c.basics, c.BaseSelector()) {
      NothingInvented(c.BaseSelector(), c.basics.pages, []);
      assert c.TopUp()[0..] == c.TopUp();
    }
  }

  lemma ServedCallBalances(c: Call, p: Protocol)
    requires c.Servable(p) && c.Fits(p)
    ensures Balanced(p, c.token.tokenId, c.ExactOutputs(p), c.Consumed(p), [])
    ensures PaysOrder(c.Order(c.RentsIn(p).order), c.token.address, c.ExactOutputs(p))
  {
    var order := c.Order(c.RentsIn(p).order);
    SumConcat(Base, c.Taken(), c.TopUp());
    SelectedIsEligible(c);
    assert ShapeOf(order) == ShapeOf(c.Order(0));
    assert RentsOf(p, order, c.token.address, c.token.tokenId) == c.RentsIn(p);
    BooksBalance(p, c.token.tokenId, c.amount, order, c.token.address, c.Taken(),
                 if c.Exact(p) then [] else c.TopUp(), [], c.Top(p));
  }

  /** When there are at most 128 token outputs and 64 base-coin outputs, what the wallet holds decides:
      the tokens cover the amount, and the base coins that come with them are exactly the storage
      deposits of the order and the token change, or with all others cover these and that of a third
      output. */
  lemma SmallWalletServableIff(c: Call, p: Protocol)
    requires c.Readable(c.natives, c.NativeSelector()) && c.Readable(c.basics, c.BaseSelector())
    requires |AllEligible(Native(c.token.tokenId), c.natives.pages)| <= 128 && |AllEligible(Base, c.basics.pages)| <= 64
    ensures var id, all := c.token.tokenId, AllEligible(Native(c.token.tokenId), c.natives.pages);
            var tokens, brought, others := Sum(Native(id), all), Sum(Base, all), Sum(Base, AllEligible(Base, c.basics.pages));
            var need := Rent(p, Basic(0, [NativeToken(id, 0)], Some(c.to), None, None))
                        + if tokens > c.amount then Rent(p, Change(c.token.address, [NativeToken(id, 0)], 0)) else 0;
            c.Servable(p) <==>
              && tokens >= c.amount
              && (brought == need || brought + others >= need + Rent(p, Change(c.token.address, [], 0)))
  {
    var natives, coins := AllEligible(Native(c.token.tokenId), c.natives.pages), AllEligible(Base, c.basics.pages);
    assert [] + natives == natives && [] + coins == coins;
    FewAreAllTaken(c.NativeSelector(), c.natives.pages, []);
    FewAreAllTaken(c.BaseSelector(), c.basics.pages, []);
    SameShapeIff(c.Order(0), Basic(0, [NativeToken(c.token.tokenId, 0)], Some(c.to), None, None));
  }

  /** The token selector is complete: the tokens are found exactly when all pages together hold them. */
  lemma TokensAreFound(c: Call)
    requires c.Readable(c.natives, c.NativeSelector())
    ensures c.Enough() <==> Sum(Native(c.token.tokenId), AllEligible(Native(c.token.tokenId), c.natives.pages)) >= c.amount
  {
    SelectionIsComplete(c.NativeSelector(), c.natives.pages);
  }

  /** The top-up over k pages holds at most 64 + k - 1 inputs. */
  lemma TopUpCountBound(c: Call)
    requires c.Readable(c.basics, c.BaseSelector()) && c.basics.pages != []
    ensures |c.TopUp()| <= 64 + |c.basics.pages| - 1
  {
    CountBound(c.BaseSelector(), c.basics.pages, [], 0);
  }
}
