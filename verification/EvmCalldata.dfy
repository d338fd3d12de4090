/** The calldata the bridge writes, and the checks that read it back (tokens/evm/contract.go). */
module EvmCalldata {
  import opened Outcomes
  import opened Bytes

  const ZERO_ADDRESS: seq<Byte> := Zeros(20)

  datatype CheckError = ZeroTo | NotFound | NotFailed | WrongSender | StillPending | WrongMethod
                      | WrongTxid | WrongAmount | WrongTo | WrongSymbol | SliceFault

  /** A method selector: the first four bytes of the Keccak hash of the signature. */
  type Selector4 = s: seq<Byte> | |s| == 4 witness [0, 0, 0, 0]

  /** The three selectors; that they differ is all that is used of Keccak. */
  datatype Methods = Methods(wrap: Selector4, send: Selector4, unWrap: Selector4)

  // ---------- writing ----------

  /** common.BytesToAddress: keep the last 20 bytes, pad on the left. */
  function BytesToAddress(s: seq<Byte>): seq<Byte> {
    LeftPad(if |s| > 20 then s[|s| - 20..] else s, 20)
  }

  /** common.BytesToHash: keep the last 32 bytes, pad on the left. */
  function BytesToHash(s: seq<Byte>): seq<Byte> {
    LeftPad(if |s| > 32 then s[|s| - 32..] else s, 32)
  }

  /** Long strings keep their end, short ones their value. */
  lemma LastBytesAreKept(s: seq<Byte>)
    ensures |BytesToHash(s)| == 32 && |BytesToAddress(s)| == 20
    ensures |s| >= 32 ==> BytesToHash(s) == s[|s| - 32..]
    ensures |s| <= 32 ==> SetBytes(BytesToHash(s)) == SetBytes(s)
    ensures |s| >= 20 ==> BytesToAddress(s) == s[|s| - 20..]
    ensures |s| <= 20 ==> SetBytes(BytesToAddress(s)) == SetBytes(s)
  {
    if |s| <= 32 {
      PaddedValue(s, 32);
    }
    if |s| <= 20 {
      PaddedValue(s, 20);
    }
  }

  predicate LastWord(data: seq<Byte>, word: seq<Byte>) {
    |word| == 32 <= |data| && data[|data| - 32..] == word
  }

  /** However the receiver is spelled, its 20 bytes are the end of the last word. */
  lemma SpelledReceiver(selector: Selector4, txid: seq<Byte>, amount: nat, to: string, s: seq<Byte>)
    requires |s| == 20 && Spelled(to, s)
    ensures BytesToAddress(FromHex(to)) == s
    ensures LastWord(Encode(selector, txid, amount, FromHex(to)), Zeros(12) + s)
  {
    FromHexOfSpelling(to, s);
    LastPart(selector + LeftPad(if |txid| > 32 then txid[..32] else txid, 32) + LeftPad(ToBytes(amount), 32), Zeros(12) + s);
  }

  lemma LastPart(front: seq<Byte>, word: seq<Byte>)
    requires |word| == 32
    ensures LastWord(front + word, word)
  {
  }

  /** The calldata of SendWrap and SendUnWrap: the selector and three padded words. A zero receiver is
      refused; a long txid keeps its first 32 bytes. */
  method BuildCalldata(selector: Selector4, txid: string, amount: nat, to: string)
    returns (r: Result<seq<Byte>, CheckError>)
    ensures BytesToAddress(FromHex(to)) == ZERO_ADDRESS ==> r == Err(ZeroTo)
    ensures BytesToAddress(FromHex(to)) != ZERO_ADDRESS ==>
              r == Ok(Encode(selector, FromHex(txid), amount, FromHex(to)))
    ensures forall s: seq<Byte> :: |s| == 20 && Spelled(to, s) ==>
              if s == ZERO_ADDRESS then r == Err(ZeroTo)
              else r.Ok? && LastWord(r.value, Zeros(12) + s)
  {
    forall s: seq<Byte> | |s| == 20 && Spelled(to, s)
      ensures BytesToAddress(FromHex(to)) == s
      ensures LastWord(Encode(selector, FromHex(txid), amount, FromHex(to)), Zeros(12) + s)
    {
      SpelledReceiver(selector, FromHex(txid), amount, to, s);
    }
    if BytesToAddress(FromHex(to)) == ZERO_ADDRESS {
      return Err(ZeroTo);
    }
    var txHash := FromHex(txid);
    if |txHash| > 32 {
      txHash := txHash[..32];
    }
    var data: seq<Byte> := [];
    data := data + selector;
    assert data == selector;
    data := data + LeftPad(txHash, 32);
    data := data + LeftPad(ToBytes(amount), 32);
    data := data + LeftPad(FromHex(to), 32);
    r := Ok(data);
  }

  function Encode(selector: Selector4, txid: seq<Byte>, amount: nat, to: seq<Byte>): seq<Byte> {
    selector + LeftPad(if |txid| > 32 then txid[..32] else txid, 32) + LeftPad(ToBytes(amount), 32) + LeftPad(to, 32)
  }

  /** The three words stand where the reader looks for them. */
  lemma EncodeLayout(selector: Selector4, txid: seq<Byte>, amount: nat, to: seq<Byte>)
    requires |txid| == 32 && amount < Pow256(32) && |to| == 20
    ensures var data := Encode(selector, txid, amount, to);
            && |data| == 100
            && data[..4] == selector
            && data[4..][..32] == txid
            && SetBytes(data[4..][32..64]) == amount
            && BytesToAddress(data[4..][64..]) == to
  {
    PaddedRoundTrip(amount, 32);
    var word := LeftPad(ToBytes(amount), 32);
    var data := Encode(selector, txid, amount, to);
    assert data[4..][..32] == txid;
    assert data[4..][32..64] == word;
    assert data[4..][64..] == Zeros(12) + to;
    assert (Zeros(12) + to)[12..] == to;
  }

  /** A txid of any length: a long one keeps its first 32 bytes, a short one its value as a number. So
      does the receiver, and the amount stands between them. */
  lemma EncodeWords(selector: Selector4, txid: seq<Byte>, amount: nat, to: seq<Byte>)
    requires amount < Pow256(32) && |to| <= 32
    ensures var data := Encode(selector, txid, amount, to);
            && |data| == 100
            && data[..4] == selector
            && (if |txid| >= 32 then data[4..36] == txid[..32] else SetBytes(data[4..36]) == SetBytes(txid))
            && SetBytes(data[36..68]) == amount
            && SetBytes(data[68..]) == SetBytes(to)
  {
    var word := if |txid| > 32 then txid[..32] else txid;
    PaddedRoundTrip(amount, 32);
    PaddedValue(word, 32);
    PaddedValue(to, 32);
    FourParts(selector, LeftPad(word, 32), LeftPad(ToBytes(amount), 32), LeftPad(to, 32));
  }

  lemma PaddedValue(s: seq<Byte>, k: nat)
    requires |s| <= k
    ensures |LeftPad(s, k)| == k && SetBytes(LeftPad(s, k)) == SetBytes(s)
  {
    SetBytesZeros(k - |s|, s);
  }

  lemma FourParts(a: seq<Byte>, b: seq<Byte>, c: seq<Byte>, d: seq<Byte>)
    requires |a| == 4 && |b| == 32 && |c| == 32
    ensures var data := a + b + c + d;
            data[..4] == a && data[4..36] == b && data[36..68] == c && data[68..] == d
  {
  }

  // ---------- reading a failed transaction back ----------

  /** A transaction as the chain reports it. */
  datatype ChainTx = ChainTx(sender: seq<Byte>, succeeded: bool, pending: bool, data: seq<Byte>)

  /** The decoding half of CheckTxFailed; `d` is -1 for unwrap and 1 for wrap, `hex` writes an
      address. Slices beyond the calldata stop the call. */
  function CheckCalldata(methods: Methods, data: seq<Byte>, txid: seq<Byte>, to: string, amount: nat, d: int,
                         hex: seq<Byte> -> string): Result<(), CheckError>
  {
    if |data| < 4 then Err(SliceFault)
    else if data[..4] != (if d == -1 then methods.send else methods.wrap) then Err(WrongMethod)
    else if |data| < 36 then Err(SliceFault)
    else if data[4..][..32] != txid then Err(WrongTxid)
    else if |data| < 68 then Err(SliceFault)
    else if SetBytes(data[4..][32..64]) != amount then Err(WrongAmount)
    else if to != hex(BytesToAddress(data[4..][64..])) then Err(WrongTo)
    else Ok(())
  }

  /** CheckTxFailed: success means that the transaction exists, failed, and was the bridge's. */
  function CheckTxFailed(methods: Methods, account: seq<Byte>, tx: Option<ChainTx>, txid: seq<Byte>, to: string,
                         amount: nat, d: int, hex: seq<Byte> -> string): Result<(), CheckError>
  {
    if tx.None? then Err(NotFound)
    else if tx.value.succeeded then Err(NotFailed)
    else if account != tx.value.sender then Err(WrongSender)
    else if tx.value.pending then Err(StillPending)
    else CheckCalldata(methods, tx.value.data, txid, to, amount, d, hex)
  }

  /** `hex` spells addresses so that FromHex reads them back, whatever the letter case (EIP-55). */
  ghost predicate Spells(hex: seq<Byte> -> string) {
    forall a: seq<Byte> :: |a| == 20 ==> FromHex(hex(a)) == a
  }

  /** The reader accepts what the writer wrote for exactly the order it was written for (same
      direction, txid, amount and receiver), and only when the transaction failed and was the bridge's. */
  lemma CalldataReadBack(methods: Methods, txid: seq<Byte>, amount: nat, to: seq<Byte>, d: int,
                         account: seq<Byte>, tx: ChainTx,
                         txid': seq<Byte>, amount': nat, to': seq<Byte>, d': int, hex: seq<Byte> -> string)
    requires |txid| == 32 && amount < Pow256(32) && |to| == 20 && |to'| == 20
    requires d in {-1, 1} && d' in {-1, 1} && methods.wrap != methods.send && Spells(hex)
    requires tx.data == Encode(if d == -1 then methods.send else methods.wrap, txid, amount, to)
    ensures CheckTxFailed(methods, account, Some(tx), txid', hex(to'), amount', d', hex).Ok?
            <==> && !tx.succeeded && tx.sender == account && !tx.pending
                 && d == d' && txid == txid' && amount == amount' && to == to'
  {
    EncodeLayout(if d == -1 then methods.send else methods.wrap, txid, amount, to);
    assert FromHex(hex(to)) == to && FromHex(hex(to')) == to';
  }

  /** The encoding is injective. */
  lemma EncodeInjective(s1: Selector4, txid1: seq<Byte>, amount1: nat, to1: seq<Byte>,
                        s2: Selector4, txid2: seq<Byte>, amount2: nat, to2: seq<Byte>)
    requires |txid1| == 32 && amount1 < Pow256(32) && |to1| == 20
    requires |txid2| == 32 && amount2 < Pow256(32) && |to2| == 20
    requires Encode(s1, txid1, amount1, to1) == Encode(s2, txid2, amount2, to2)
    ensures s1 == s2 && txid1 == txid2 && amount1 == amount2 && to1 == to2
  {
    EncodeLayout(s1, txid1, amount1, to1);
    EncodeLayout(s2, txid2, amount2, to2);
  }

  // ---------- reading the user's unwrap call ----------

  /** CheckUnWrapTx: the mined unWrap call names the receiver and the symbol and at least the amount.
      The amount is everything after the second word. */
  function CheckUnWrapTx(methods: Methods, tx: Option<ChainTx>, to: string, symbol: seq<Byte>, amount: nat)
    : Result<(), CheckError>
  {
    if tx.None? then Err(NotFound)
    else if tx.value.pending then Err(StillPending)
    else
      var data := tx.value.data;
      if |data| < 4 then Err(SliceFault)
      else if data[..4] != methods.unWrap then Err(WrongMethod)
      else if |data| < 36 then Err(SliceFault)
      else if FromHex(to) != data[4..][..32] then Err(WrongTo)
      else if |data| < 68 then Err(SliceFault)
      else if BeforeZero(data[4..][32..64]) != symbol then Err(WrongSymbol)
      else if SetBytes(data[4..][64..]) < amount then Err(WrongAmount)
      else Ok(())
  }

  /** The calldata of a user's unWrap(bytes32 to, bytes32 symbol, uint256 amount), with anything after it. */
  function UserUnWrap(methods: Methods, to: seq<Byte>, symbolWord: seq<Byte>, amount: nat, extra: seq<Byte>): seq<Byte> {
    methods.unWrap + to + symbolWord + LeftPad(ToBytes(amount), 32) + extra
  }

  /** On calldata that holds all arguments the check is about the four parts. */
  lemma CheckUnWrapParts(methods: Methods, tx: ChainTx, to: string, symbol: seq<Byte>, amount: nat)
    requires |tx.data| >= 68 && !tx.pending
    ensures CheckUnWrapTx(methods, Some(tx), to, symbol, amount).Ok? <==>
              && tx.data[..4] == methods.unWrap
              && FromHex(to) == tx.data[4..][..32]
              && BeforeZero(tx.data[4..][32..64]) == symbol
              && SetBytes(tx.data[4..][64..]) >= amount
  {
  }

  /** The same for a symbol that the user passes as a name: the check compares names. */
  lemma NamedReadBack(methods: Methods, to: seq<Byte>, name: seq<Byte>, amount: nat, tx: ChainTx,
                      to': seq<Byte>, symbol': seq<Byte>, amount': nat)
    requires |to| == 32 && NoZero(name) && |name| <= 32 && amount < Pow256(32)
    requires tx.data == UserUnWrap(methods, to, SymbolWord(name), amount, []) && !tx.pending
    ensures CheckUnWrapTx(methods, Some(tx), Prefixed(to'), symbol', amount').Ok?
            <==> to' == to && symbol' == name && amount' <= amount
  {
    SymbolIsCutOut(name);
    UnWrapReadBack(methods, to, SymbolWord(name), amount, [], tx, to', symbol', amount');
  }

  lemma UserUnWrapLayout(methods: Methods, to: seq<Byte>, symbolWord: seq<Byte>, amount: nat, extra: seq<Byte>)
    requires |to| == 32 && |symbolWord| == 32 && amount < Pow256(32)
    ensures var data := UserUnWrap(methods, to, symbolWord, amount, extra);
            && |data| == 100 + |extra|
            && data[..4] == methods.unWrap
            && data[4..][..32] == to
            && data[4..][32..64] == symbolWord
            && data[4..][64..] == LeftPad(ToBytes(amount), 32) + extra
  {
    PaddedRoundTrip(amount, 32);
  }

  /** A mined call passes the check for exactly its own receiver and symbol, and (when nothing trails
      the arguments) for exactly the amounts it covers. */
  lemma UnWrapReadBack(methods: Methods, to: seq<Byte>, symbolWord: seq<Byte>, amount: nat, extra: seq<Byte>,
                       tx: ChainTx, to': seq<Byte>, symbol': seq<Byte>, amount': nat)
    requires |to| == 32 && |symbolWord| == 32 && amount < Pow256(32)
    requires tx.data == UserUnWrap(methods, to, symbolWord, amount, extra) && !tx.pending
    ensures var ok := CheckUnWrapTx(methods, Some(tx), Prefixed(to'), symbol', amount').Ok?;
            && (to' == to && symbol' == BeforeZero(symbolWord) && amount' <= amount ==> ok)
            && (ok ==> to' == to && symbol' == BeforeZero(symbolWord))
            && (extra == [] ==> (ok ==> amount' <= amount))
  {
    var word := LeftPad(ToBytes(amount), 32);
    UserUnWrapLayout(methods, to, symbolWord, amount, extra);
    PaddedRoundTrip(amount, 32);
    FromHexRoundTrip(to');
    CheckUnWrapParts(methods, tx, Prefixed(to'), symbol', amount');
    SetBytesGrows(word, extra);
    assert extra == [] ==> word + extra == word;
  }
}
