/** The part of the IOTA/Shimmer ledger that the senders touch: basic outputs holding base coins and
    native tokens, unspent outputs named by an id, and the storage-deposit rule of TIP-19. */
module Ledger {
  import opened Outcomes
  import opened Bytes

  const U64: nat := 0x1_0000_0000_0000_0000

  /** Output and foundry ids only matter through equality; 0 is the empty foundry id. */
  type OutputId = nat
  type TokenId = nat

  const EMPTY_TOKEN: TokenId := 0

  datatype NativeToken = NativeToken(id: TokenId, amount: nat)

  datatype Output =
    | Basic(deposit: nat, tokens: seq<NativeToken>, address: Option<seq<Byte>>,
            metadata: Option<string>, tag: Option<seq<Byte>>)
    | OtherOutput(deposit: nat, tokens: seq<NativeToken>)

  datatype Utxo = Utxo(id: OutputId, output: Output)

  /** The currency a selector collects. */
  datatype Kind = Base | Native(id: TokenId)

  function TokenAmount(tokens: seq<NativeToken>, id: TokenId): nat {
    if tokens == [] then 0
    else TokenAmount(tokens[1..], id) + if tokens[0].id == id then tokens[0].amount else 0
  }

  /** Every entry counts that has the id, wherever it stands. */
  lemma {:induction false} TokenAmountConcat(a: seq<NativeToken>, b: seq<NativeToken>, id: TokenId)
    ensures TokenAmount(a + b, id) == TokenAmount(a, id) + TokenAmount(b, id)
  {
    if a == [] {
      assert a + b == b;
    } else {
      assert (a + b)[1..] == a[1..] + b;
      TokenAmountConcat(a[1..], b, id);
    }
  }

  function Value(kind: Kind, o: Output): nat {
    match kind
    case Base => o.deposit
    case Native(id) => TokenAmount(o.tokens, id)
  }

  /** What a list of outputs is worth in one currency. */
  function Total(kind: Kind, os: seq<Output>): nat {
    if os == [] then 0 else Total(kind, os[..|os| - 1]) + Value(kind, os[|os| - 1])
  }

  function Outputs(us: seq<Utxo>): seq<Output> {
    seq(|us|, i requires 0 <= i < |us| => us[i].output)
  }

  function Ids(us: seq<Utxo>): seq<OutputId> {
    seq(|us|, i requires 0 <= i < |us| => us[i].id)
  }

  /** What a list of unspent outputs is worth in one currency. */
  function Sum(kind: Kind, us: seq<Utxo>): nat {
    Total(kind, Outputs(us))
  }

  lemma {:induction false} TotalConcat(kind: Kind, a: seq<Output>, b: seq<Output>)
    ensures Total(kind, a + b) == Total(kind, a) + Total(kind, b)
    decreases |b|
  {
    if b == [] {
      assert a + b == a;
    } else {
      assert (a + b)[..|a + b| - 1] == a + b[..|b| - 1];
      TotalConcat(kind, a, b[..|b| - 1]);
    }
  }

  lemma SumConcat(kind: Kind, a: seq<Utxo>, b: seq<Utxo>)
    ensures Sum(kind, a + b) == Sum(kind, a) + Sum(kind, b)
    ensures Outputs(a + b) == Outputs(a) + Outputs(b)
    ensures Ids(a + b) == Ids(a) + Ids(b)
  {
    assert Outputs(a + b) == Outputs(a) + Outputs(b);
    TotalConcat(kind, Outputs(a), Outputs(b));
  }

  lemma SumAppend(kind: Kind, a: seq<Utxo>, u: Utxo)
    ensures Sum(kind, a + [u]) == Sum(kind, a) + Value(kind, u.output)
  {
    SumConcat(kind, a, [u]);
    assert Outputs([u])[..0] == [];
  }

  lemma TotalAppend(kind: Kind, a: seq<Output>, o: Output)
    ensures Total(kind, a + [o]) == Total(kind, a) + Value(kind, o)
  {
    assert (a + [o])[..|a|] == a;
  }

  // ---------- storage deposit ----------

  /** The fields that decide the size of an output; amounts have a fixed width. */
  datatype Shape = Shape(tokens: nat, address: bool, metadata: nat, tag: nat)

  function ShapeOf(o: Output): Shape {
    match o
    case Basic(_, tokens, address, metadata, tag) =>
      Shape(|tokens|, address.Some?, if metadata.Some? then |metadata.value| else 0,
            if tag.Some? then |tag.value| else 0)
    case OtherOutput(_, tokens) => Shape(|tokens|, false, 0, 0)
  }

  /** Two basic outputs have the same size when they have as many tokens, an address both or neither, and
      metadata and tags of the same lengths; the amounts do not count. */
  lemma SameShapeIff(o: Output, o': Output)
    requires o.Basic? && o'.Basic?
    ensures ShapeOf(o) == ShapeOf(o') <==>
              && |o.tokens| == |o'.tokens| && o.address.Some? == o'.address.Some?
              && |TextOf(o.metadata)| == |TextOf(o'.metadata)| && |TextOf(o.tag)| == |TextOf(o'.tag)|
  {
  }

  /** No text reads as the empty one. */
  function TextOf<T>(text: Option<seq<T>>): seq<T> {
    if text.Some? then text.value else []
  }

  /** The node's protocol parameters: the network and the storage deposit of each shape, that is
      the price of a virtual byte times the number of virtual bytes. */
  datatype Protocol = Protocol(networkId: nat, storageDeposit: Shape -> nat)

  function Rent(p: Protocol, o: Output): nat {
    p.storageDeposit(ShapeOf(o))
  }

  /** The uint64 that an exact result is truncated to. */
  function Wrap(n: nat): (r: nat)
    ensures r < U64 && r <= n
  {
    if n < U64 then n else Wrap(n - U64)
  }

  /** Truncation is the remainder modulo 2^64. */
  lemma {:induction false} WrapIsRemainder(n: nat)
    ensures Wrap(n) == n % U64
  {
    if n >= U64 {
      WrapIsRemainder(n - U64);
    }
  }

  /** The uint64 difference of two uint64 is exact when it is not negative. */
  lemma WrapDifference(a: nat, b: nat)
    requires b <= a < U64
    ensures Wrap(a + U64 - b) == a - b
  {
  }

  /** Truncating early does not change a sum. */
  lemma WrapOfWrap(a: nat, b: nat)
    ensures Wrap(Wrap(a) + b) == Wrap(a + b)
  {
    if a >= U64 {
      WrapOfWrap(a - U64, b);
    }
  }
}
