/** From a user's unWrap event to the validators' vote: the event becomes an order
    (tokens/evm/detect.go), the order a proposal (server/detect.go, tokens/iotasmr/send.go), and every
    validator checks the proposal against the chain (server/accept.go, tokens/evm/contract.go). */
module Agreement {
  import opened Outcomes
  import opened Bytes
  import opened Ledger
  import opened TxBuilder
  import opened IotaSend
  import opened EvmCalldata

  /** An UnWrap log: the transaction, the two indexed topics and the data. */
  datatype UnWrapLog = UnWrapLog(txHash: seq<Byte>, fromTopic: seq<Byte>, toTopic: seq<Byte>, data: seq<Byte>)

  datatype SwapOrder = SwapOrder(txid: string, toToken: seq<Byte>, to: string, amount: nat)

  /** dealUnWrapEvent: empty data is reported as an error; data shorter than a word stops the listener. */
  function OrderFromLog(log: UnWrapLog): Result<SwapOrder, CheckError> {
    if |log.data| == 0 then Err(NotFound)
    else if |log.data| < 32 then Err(SliceFault)
    else Ok(SwapOrder(Prefixed(log.txHash), BeforeZero(log.data[..32]), ToHex(log.toTopic), SetBytes(log.data[32..])))
  }

  /** The proposing half of dealUnWrapOrder: an order for another token is refused. */
  method Propose(token: IotaSmrToken, symbol: seq<Byte>, order: SwapOrder, view: NodeView,
                 signingMessage: Essence -> seq<Byte>) returns (r: Option<Unsigned>)
    ensures r.Some? <==> order.toToken == symbol && Creatable(token, order.to, order.amount, FromHex(order.txid), view)
    ensures r.Some? ==>
              && |FromHex(order.to)| == 32
              && var read := ValidateUnWrapTxData(token, r.value.hash, r.value.essence, signingMessage);
              && read.Ok? && read.value.to == Prefixed(FromHex(order.to)) && read.value.txid == FromHex(order.txid)
              && read.value.amount <= order.amount
              && (read.value.amount == order.amount <==> token.tokenId != EMPTY_TOKEN || order.amount < U64)
  {
    if order.toToken != symbol {
      return None;
    }
    var made := CreateUnWrapTxData(token, order.to, order.amount, FromHex(order.txid), view, signingMessage);
    return if made.Ok? then Some(made.value) else None;
  }

  /** One validator's decision about a proposal: read it, fetch the unWrap transaction it names, and
      check that. `chain` finds a transaction by hash. */
  predicate Vet(token: IotaSmrToken, symbol: seq<Byte>, methods: Methods, hash: seq<Byte>, essence: Essence,
               signingMessage: Essence -> seq<Byte>, chain: seq<Byte> -> Option<ChainTx>)
  {
    var read := ValidateUnWrapTxData(token, hash, essence, signingMessage);
    read.Ok? &&
    CheckUnWrapTx(methods, chain(BytesToHash(read.value.txid)), read.value.to, symbol, read.value.amount).Ok?
  }

  /** Every proposal that is made from the log of a mined unWrap call passes every validator, as long
      as the log agrees with the calldata on receiver and symbol and claims no more than its amount.
      What the essence pays is the log's amount, unless a base-coin amount was truncated. */
  method ProposalsPass(token: IotaSmrToken, symbol: seq<Byte>, methods: Methods, log: UnWrapLog, view: NodeView,
                       signingMessage: Essence -> seq<Byte>, chain: seq<Byte> -> Option<ChainTx>,
                       symbolWord: seq<Byte>, called: nat, extra: seq<Byte>)
    returns (r: Option<Unsigned>)
    requires |log.txHash| == 32 && |log.toTopic| == 32 && |log.data| >= 32
    requires |symbolWord| == 32 && BeforeZero(symbolWord) == BeforeZero(log.data[..32])
    requires SetBytes(log.data[32..]) <= called < Pow256(32)
    requires var tx := chain(log.txHash);
             tx.Some? && !tx.value.pending && tx.value.data == UserUnWrap(methods, log.toTopic, symbolWord, called, extra)
    ensures r.Some? <==>
              && BeforeZero(log.data[..32]) == symbol
              && Creatable(token, ToHex(log.toTopic), SetBytes(log.data[32..]), log.txHash, view)
    ensures forall name: seq<Byte> :: |name| <= 32 && NoZero(name) && log.data[..32] == SymbolWord(name) ==>
              (r.Some? <==> name == symbol && Creatable(token, ToHex(log.toTopic), SetBytes(log.data[32..]), log.txHash, view))
    ensures r.Some? ==> Vet(token, symbol, methods, r.value.hash, r.value.essence, signingMessage, chain)
    ensures r.Some? ==>
              && r.value.essence.outputs != [] && r.value.essence.outputs[0].Basic?
              && r.value.essence.outputs[0].address == Some(log.toTopic)
              && (AmountFromOutput(token, r.value.essence.outputs[0]) == SetBytes(log.data[32..])
                  <==> token.tokenId != EMPTY_TOKEN || SetBytes(log.data[32..]) < U64)
  {
    var order := OrderFromLog(log).value;
    r := Propose(token, symbol, order, view, signingMessage);
    forall name: seq<Byte> | |name| <= 32 && NoZero(name) && log.data[..32] == SymbolWord(name)
      ensures BeforeZero(log.data[..32]) == name
    {
      SymbolIsCutOut(name);
    }
    FromHexRoundTrip(log.txHash);
    FromHexRoundTrip(log.toTopic);
    if r.Some? {
      PrefixedInjective(r.value.essence.outputs[0].address.value, log.toTopic);
      ReadingPasses(token, symbol, methods, r.value.hash, r.value.essence, signingMessage, chain,
                    log.txHash, log.toTopic, symbolWord, called, extra);
    }
  }

  /** A proposal that reads as (receiver, amount, transaction) passes if the transaction backs it. */
  lemma ReadingPasses(token: IotaSmrToken, symbol: seq<Byte>, methods: Methods, hash: seq<Byte>, essence: Essence,
                      signingMessage: Essence -> seq<Byte>, chain: seq<Byte> -> Option<ChainTx>,
                      txHash: seq<Byte>, to: seq<Byte>, symbolWord: seq<Byte>, called: nat, extra: seq<Byte>)
    requires |txHash| == 32 && |to| == 32 && |symbolWord| == 32 && BeforeZero(symbolWord) == symbol
    requires var read := ValidateUnWrapTxData(token, hash, essence, signingMessage);
             read.Ok? && read.value.to == Prefixed(to) && read.value.txid == txHash
             && read.value.amount <= called < Pow256(32)
    requires var tx := chain(txHash);
             tx.Some? && !tx.value.pending && tx.value.data == UserUnWrap(methods, to, symbolWord, called, extra)
    ensures Vet(token, symbol, methods, hash, essence, signingMessage, chain)
  {
    var read := ValidateUnWrapTxData(token, hash, essence, signingMessage).value;
    UnWrapReadBack(methods, to, symbolWord, called, extra, chain(txHash).value, to, symbol, read.amount);
  }

  lemma PrefixedInjective(a: seq<Byte>, b: seq<Byte>)
    requires Prefixed(a) == Prefixed(b)
    ensures a == b
  {
    FromHexRoundTrip(a);
    FromHexRoundTrip(b);
  }

  /** Conversely, a validator votes only for an essence whose first output pays a receiver, and names
      as its tag a transaction, such that the named transaction is a mined unWrap call to exactly that
      receiver with that symbol, covering at least that amount. */
  lemma VettedMeansCalled(token: IotaSmrToken, symbol: seq<Byte>, methods: Methods, hash: seq<Byte>, essence: Essence,
                          signingMessage: Essence -> seq<Byte>, chain: seq<Byte> -> Option<ChainTx>)
    requires Vet(token, symbol, methods, hash, essence, signingMessage, chain)
    ensures hash == signingMessage(essence)
    ensures essence.outputs != [] && essence.outputs[0].Basic? && essence.outputs[0].address.Some?
    ensures var o := essence.outputs[0];
            var tx := chain(BytesToHash(TagFromOutput(o)));
            && tx.Some? && !tx.value.pending && |tx.value.data| >= 68
            && tx.value.data[..4] == methods.unWrap
            && tx.value.data[4..36] == o.address.value
            && BeforeZero(tx.value.data[36..68]) == symbol
            && AmountFromOutput(token, o) <= SetBytes(tx.value.data[68..])
            && (if |o.tokens| == 1 && o.tokens[0].id == token.tokenId then o.tokens[0].amount else o.deposit)
               <= SetBytes(tx.value.data[68..])
            && (forall t :: o.tag == Some(t) && |t| == 32 ==> tx == chain(t))
  {
    FromHexRoundTrip(essence.outputs[0].address.value);
    var data := chain(BytesToHash(TagFromOutput(essence.outputs[0]))).value.data;
    assert data[4..][..32] == data[4..36] && data[4..][32..64] == data[36..68] && data[4..][64..] == data[68..];
  }
}
