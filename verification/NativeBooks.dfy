/** The two-currency bookkeeping that both native-token senders share: the order's output, the token
    change, the base-coin change, and why inputs and outputs balance. */
module NativeBooks {
  import opened Outcomes
  import opened Bytes
  import opened Ledger
  import opened Selection

  /** Change to the bridge's own address. */
  function Change(address: seq<Byte>, tokens: seq<NativeToken>, deposit: nat): Output {
    Basic(deposit, tokens, Some(address), None, None)
  }

  /** The storage deposits of the order's output, of the token change and of the base-coin change. */
  datatype Rents = Rents(order: nat, tokenChange: nat, baseChange: nat)

  function RentsOf(p: Protocol, order: Output, address: seq<Byte>, id: TokenId): Rents {
    Rents(Rent(p, order), Rent(p, Change(address, [NativeToken(id, 0)], 0)), Rent(p, Change(address, [], 0)))
  }

  function Need(r: Rents, tokenChange: nat): nat {
    r.order + if tokenChange > 0 then r.tokenChange else 0
  }

  /** The same in uint64. */
  function WrappedNeed(r: Rents, tokenChange: nat): nat {
    if tokenChange > 0 then Wrap(Wrap(r.order) + Wrap(r.tokenChange)) else Wrap(r.order)
  }

  /** The order, the token change if there is any, and the base-coin change if the call was topped up. */
  function OrderOutputs(order: Output, address: seq<Byte>, id: TokenId, tokenChange: nat,
                        tokenChangeDeposit: nat, baseChange: Option<nat>): seq<Output>
  {
    [order]
    + (if tokenChange > 0 then [Change(address, [NativeToken(id, tokenChange)], tokenChangeDeposit)] else [])
    + (if baseChange.Some? then [Change(address, [], baseChange.value)] else [])
  }

  lemma OutputsToppedUp(order: Output, address: seq<Byte>, id: TokenId, tokenChange: nat, deposit: nat, change: nat)
    ensures OrderOutputs(order, address, id, tokenChange, deposit, Some(change))
         == OrderOutputs(order, address, id, tokenChange, deposit, None) + [Change(address, [], change)]
  {
  }

  /** Every output holds at least its own storage deposit (TIP-19). */
  predicate CoversRent(p: Protocol, os: seq<Output>) {
    forall i :: 0 <= i < |os| ==> os[i].deposit >= Rent(p, os[i])
  }

  /** Nothing but the token and base coins is consumed. */
  predicate NoForeignToken(id: TokenId, us: seq<Utxo>) {
    forall i, j :: 0 <= i < |us| && 0 <= j < |us[i].output.tokens| ==> us[i].output.tokens[j].id == id
  }

  /** Outputs against the unspent outputs they consume: base coins balance up to the inputs of abandoned
      passes, every token whatever its id balances, no foreign token is consumed, every output covers
      its own rent. */
  ghost predicate Balanced(p: Protocol, id: TokenId, outputs: seq<Output>, consumed: seq<Utxo>, abandoned: seq<Utxo>) {
    && Sum(Base, consumed) == Total(Base, outputs) + Sum(Base, abandoned)
    && (forall x :: Sum(Native(x), consumed) == Total(Native(x), outputs))
    && NoForeignToken(id, consumed)
    && CoversRent(p, outputs)
  }

  /** The first output is the order, all others go back to the bridge. */
  predicate PaysOrder(order: Output, address: seq<Byte>, outputs: seq<Output>) {
    && |outputs| >= 1
    && outputs[0] == order
    && forall i :: 1 <= i < |outputs| ==> outputs[i].Basic? && outputs[i].address == Some(address)
  }

  lemma OneTokenValue(id: TokenId, amount: nat)
    ensures TokenAmount([NativeToken(id, amount)], id) == amount
    ensures TokenAmount([], id) == 0
  {
    assert [NativeToken(id, amount)][1..] == [];
  }

  lemma {:induction false} NoTokensNoValue(id: TokenId, us: seq<Utxo>)
    requires AllOf(Base, us)
    ensures Sum(Native(id), us) == 0
  {
    if us != [] {
      NoTokensNoValue(id, us[..|us| - 1]);
      assert us == us[..|us| - 1] + [us[|us| - 1]];
      SumAppend(Native(id), us[..|us| - 1], us[|us| - 1]);
    }
  }

  /** Outputs that hold one token only are worth nothing in another. */
  lemma {:induction false} OtherTokensNoValue(id: TokenId, x: TokenId, us: seq<Utxo>)
    requires AllOf(Native(id), us) && x != id
    ensures Sum(Native(x), us) == 0
  {
    if us != [] {
      var last := us[|us| - 1];
      OtherTokensNoValue(id, x, us[..|us| - 1]);
      assert us == us[..|us| - 1] + [last];
      SumAppend(Native(x), us[..|us| - 1], last);
      assert Eligible(Native(id), last.output) && last.output.tokens == [last.output.tokens[0]];
      OtherTokenValue(id, last.output.tokens[0].amount, x);
      assert last.output.tokens[0] == NativeToken(id, last.output.tokens[0].amount);
    }
  }

  lemma OtherTokenValue(id: TokenId, amount: nat, x: TokenId)
    requires x != id
    ensures TokenAmount([NativeToken(id, amount)], x) == 0 && TokenAmount([], x) == 0
  {
    assert [NativeToken(id, amount)][1..] == [];
  }

  /** What the outputs are worth in either currency. */
  lemma OutputsWorth(kind: Kind, order: Output, address: seq<Byte>, id: TokenId, tokenChange: nat,
                     tokenChangeDeposit: nat, baseChange: Option<nat>)
    ensures Total(kind, OrderOutputs(order, address, id, tokenChange, tokenChangeDeposit, baseChange))
         == Value(kind, order)
            + (if tokenChange > 0
               then Value(kind, Change(address, [NativeToken(id, tokenChange)], tokenChangeDeposit)) else 0)
            + (if baseChange.Some? then Value(kind, Change(address, [], baseChange.value)) else 0)
  {
    var second := Change(address, [NativeToken(id, tokenChange)], tokenChangeDeposit);
    var two := if tokenChange > 0 then [order, second] else [order];
    assert [order, second] == [order] + [second] && [order] == [] + [order];
    TotalAppend(kind, [], order);
    TotalAppend(kind, [order], second);
    if baseChange.Some? {
      TotalAppend(kind, two, Change(address, [], baseChange.value));
      assert two + [Change(address, [], baseChange.value)]
          == OrderOutputs(order, address, id, tokenChange, tokenChangeDeposit, baseChange);
    } else {
      assert two == OrderOutputs(order, address, id, tokenChange, tokenChangeDeposit, baseChange);
    }
  }

  /** An output's rent does not depend on its amounts. */
  lemma ChangeCoversRent(p: Protocol, id: TokenId, order: Output, address: seq<Byte>, tokenChange: nat, base: Option<nat>)
    requires order.deposit >= Rent(p, order)
    requires base.Some? ==> base.value >= RentsOf(p, order, address, id).baseChange
    ensures var outputs := OrderOutputs(order, address, id, tokenChange, RentsOf(p, order, address, id).tokenChange, base);
            CoversRent(p, outputs) && PaysOrder(order, address, outputs)
  {
    var deposit := RentsOf(p, order, address, id).tokenChange;
    assert ShapeOf(Change(address, [NativeToken(id, tokenChange)], deposit))
        == ShapeOf(Change(address, [NativeToken(id, 0)], 0));
    if base.Some? {
      assert ShapeOf(Change(address, [], base.value)) == ShapeOf(Change(address, [], 0));
    }
  }

  /** The base-coin change: what the top-up reported and the token outputs brought, less the need. */
  function BaseChange(r: Rents, tokenChange: nat, brought: nat, top: Option<nat>): Option<int> {
    if top.Some? then Some(top.value + brought - Need(r, tokenChange)) else None
  }

  /** The base coins cover the rents: exactly, or with a change that covers its own. */
  predicate Covered(r: Rents, tokenChange: nat, brought: nat, top: Option<nat>) {
    if top.Some? then BaseChange(r, tokenChange, brought, top).value >= r.baseChange
    else Need(r, tokenChange) == brought
  }

  /** The books balance. `taken` are the token outputs, `filled` what the top-up added to the builder
      (none if it was not called), `top` what the top-up reported, `abandoned` the inputs it forgot. */
  lemma BooksBalance(p: Protocol, id: TokenId, amount: nat, order: Output, address: seq<Byte>,
                     taken: seq<Utxo>, filled: seq<Utxo>, abandoned: seq<Utxo>, top: Option<nat>)
    requires order.Basic? && order.tokens == [NativeToken(id, amount)] && order.deposit == Rent(p, order)
    requires AllOf(Native(id), taken) && AllOf(Base, filled) && Sum(Native(id), taken) >= amount
    requires Sum(Base, filled) == Sum(Base, abandoned) + if top.Some? then top.value else 0
    requires Covered(RentsOf(p, order, address, id), Sum(Native(id), taken) - amount, Sum(Base, taken), top)
    ensures var r := RentsOf(p, order, address, id);
            var change := Sum(Native(id), taken) - amount;
            var outputs := OrderOutputs(order, address, id, change, r.tokenChange,
                                        BaseChange(r, change, Sum(Base, taken), top));
            Balanced(p, id, outputs, taken + filled, abandoned) && PaysOrder(order, address, outputs)
  {
    var r := RentsOf(p, order, address, id);
    var change := Sum(Native(id), taken) - amount;
    var base := BaseChange(r, change, Sum(Base, taken), top);
    ChangeCoversRent(p, id, order, address, change, base);
    OneTokenValue(id, amount);
    OneTokenValue(id, change);
    OutputsWorth(Base, order, address, id, change, r.tokenChange, base);
    SumConcat(Base, taken, filled);
    forall x
      ensures Sum(Native(x), taken + filled)
           == Total(Native(x), OrderOutputs(order, address, id, change, r.tokenChange, base))
    {
      TokenBalances(p, id, amount, order, address, taken, filled, base, x);
    }
    assert forall i :: 0 <= i < |taken + filled| ==>
        (taken + filled)[i] == if i < |taken| then taken[i] else filled[i - |taken|];
  }

  /** Every token balances: the call's own, and every other at nothing. */
  lemma TokenBalances(p: Protocol, id: TokenId, amount: nat, order: Output, address: seq<Byte>,
                      taken: seq<Utxo>, filled: seq<Utxo>, base: Option<nat>, x: TokenId)
    requires order.Basic? && order.tokens == [NativeToken(id, amount)]
    requires AllOf(Native(id), taken) && AllOf(Base, filled) && Sum(Native(id), taken) >= amount
    ensures Sum(Native(x), taken + filled)
         == Total(Native(x), OrderOutputs(order, address, id, Sum(Native(id), taken) - amount,
                                          RentsOf(p, order, address, id).tokenChange, base))
  {
    var change := Sum(Native(id), taken) - amount;
    OutputsWorth(Native(x), order, address, id, change, RentsOf(p, order, address, id).tokenChange, base);
    SumConcat(Native(x), taken, filled);
    NoTokensNoValue(x, filled);
    if x == id {
      OneTokenValue(id, amount);
      OneTokenValue(id, change);
    } else {
      OtherTokensNoValue(id, x, taken);
      OtherTokenValue(id, amount, x);
      OtherTokenValue(id, change, x);
    }
  }

  /** Deposits and rents stay below 2^64, as they do on a ledger whose supply does. */
  predicate SupplyFits(r: Rents, consumed: seq<Utxo>) {
    Sum(Base, consumed) < U64 && r.order + r.tokenChange + r.baseChange < U64
  }
}
