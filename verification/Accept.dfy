/** The validators' acceptance loop (server/accept.go). */
module Accept {
  import opened Outcomes
  import opened Bytes
  import opened Ledger
  import opened TxBuilder
  import opened IotaSend
  import opened EvmCalldata
  import opened Agreement
  import opened Ballots

  const UNWRAP_METHOD: string := "unwrap"

  datatype MsgContext = MsgContext(srcToken: string, destToken: string, method_: string, txData: Essence, timestamp: int)

  /** A sign request of the group; a context that is not valid JSON reads as None. */
  datatype SignInfo = SignInfo(key: string, contexts: seq<Option<MsgContext>>, hashes: seq<string>)

  /** A source token can validate proposals if it is an IOTA/Shimmer token; the others answer with an error. */
  datatype Source = Validating(token: IotaSmrToken, symbol: seq<Byte>) | NotValidating

  /** A request when its turn comes: the clock, the chains of the destination tokens, and whether the
      keystore can be read. */
  datatype Request = Request(info: SignInfo, now: int, chains: (string, seq<Byte>) -> Option<ChainTx>, keyReadable: bool)

  datatype Tick = Unreachable | Infos(requests: seq<Request>)

  datatype Config = Config(sources: map<string, Source>, destinations: set<string>, overTime: int,
                           methods: Methods, signingMessage: Essence -> seq<Byte>)

  /** Everything the loop checks before it looks at acceptedTxes. */
  predicate Vetted(c: Config, q: Request) {
    && |q.info.contexts| == 1 && |q.info.hashes| == 1
    && q.info.contexts[0].Some?
    && var m := q.info.contexts[0].value;
    && q.now - m.timestamp <= c.overTime
    && m.srcToken in c.sources && m.destToken in c.destinations
    && m.method_ == UNWRAP_METHOD
    && c.sources[m.srcToken].Validating?
    && var s := c.sources[m.srcToken];
    Vet(s.token, s.symbol, c.methods, FromHex(q.info.hashes[0]), m.txData, c.signingMessage,
        hash => q.chains(m.destToken, hash))
  }

  /** A vote is for the signing message of an essence whose first output is backed by a mined unWrap
      call: the receiver and the symbol are the caller's, the amount is covered. */
  lemma VotesAreBacked(c: Config, q: Request)
    requires Vetted(c, q)
    ensures var m := q.info.contexts[0].value;
            var s := c.sources[m.srcToken];
            && FromHex(q.info.hashes[0]) == c.signingMessage(m.txData)
            && m.txData.outputs != [] && m.txData.outputs[0].Basic? && m.txData.outputs[0].address.Some?
            && var o := m.txData.outputs[0];
            var tx := q.chains(m.destToken, BytesToHash(TagFromOutput(o)));
            && tx.Some? && !tx.value.pending && |tx.value.data| >= 68
            && tx.value.data[..4] == c.methods.unWrap
            && tx.value.data[4..36] == o.address.value
            && BeforeZero(tx.value.data[36..68]) == s.symbol
            && AmountFromOutput(s.token, o) <= SetBytes(tx.value.data[68..])
  {
    var m := q.info.contexts[0].value;
    var s := c.sources[m.srcToken];
    VettedMeansCalled(s.token, s.symbol, c.methods, FromHex(q.info.hashes[0]), m.txData, c.signingMessage,
                      hash => q.chains(m.destToken, hash));
  }

  /** A request is vetted exactly when it is a single fresh unwrap request between known tokens, for the
      signing message of an essence whose first output pays an address, and the mined transaction that
      the output's tag names is an unWrap call of that receiver and symbol, for that amount or more. */
  lemma VettedIff(c: Config, q: Request, m: MsgContext, token: IotaSmrToken, symbol: seq<Byte>, o: Output)
    requires q.info.contexts == [Some(m)] && |q.info.hashes| == 1
    requires m.srcToken in c.sources && c.sources[m.srcToken] == Validating(token, symbol)
    requires m.txData.outputs != [] && m.txData.outputs[0] == o && o.Basic? && o.address.Some?
    ensures Vetted(c, q) <==>
              && q.now - m.timestamp <= c.overTime && m.destToken in c.destinations && m.method_ == "unwrap"
              && FromHex(q.info.hashes[0]) == c.signingMessage(m.txData)
              && var tx := q.chains(m.destToken, BytesToHash(if o.tag.Some? then o.tag.value else []));
              && tx.Some? && !tx.value.pending && |tx.value.data| >= 68
              && tx.value.data[..4] == c.methods.unWrap
              && tx.value.data[4..36] == o.address.value
              && BeforeZero(tx.value.data[36..68]) == symbol
              && (if |o.tokens| == 1 && o.tokens[0].id == token.tokenId then o.tokens[0].amount else o.deposit)
                 <= SetBytes(tx.value.data[68..])
  {
    FromHexRoundTrip(o.address.value);
    var tx := q.chains(m.destToken, BytesToHash(TagFromOutput(o)));
    if tx.Some? && |tx.value.data| >= 68 {
      var data := tx.value.data;
      assert data[4..][..32] == data[4..36] && data[4..][32..64] == data[36..68] && data[4..][64..] == data[68..];
    }
  }

  /** All requests in the order in which the loop sees them. */
  function Requests(ticks: seq<Tick>): seq<Request> {
    if ticks == [] then []
    else Requests(ticks[..|ticks| - 1])
         + if ticks[|ticks| - 1].Infos? then ticks[|ticks| - 1].requests else []
  }

  /** The ballot: what counts as a request, and the sign key that identifies a vote. */
  function RuleOf(c: Config): Rule<Request> {
    Rule((q: Request) => Vetted(c, q), (q: Request) => q.info.key)
  }

  ghost predicate Called(calls: seq<Request>, key: string) {
    exists i :: 0 <= i < |calls| && calls[i].info.key == key
  }

  /** What holds of the AcceptSign calls made so far, given the requests seen so far. */
  ghost predicate Sound(c: Config, calls: seq<Request>, seen: seq<Request>) {
    && (forall q :: q in calls ==> q in seen && Vetted(c, q))
    && (forall i, j :: 0 <= i < j < |calls| ==> calls[i].info.key != calls[j].info.key)
  }

  ghost predicate Complete(c: Config, calls: seq<Request>, seen: seq<Request>) {
    forall q :: q in seen && Vetted(c, q) ==> Called(calls, q.info.key)
  }

  /** The first vetted request of each key: one vote for each key of a vetted request, and no other. */
  lemma VotesSoundAndComplete(c: Config, seen: seq<Request>)
    ensures Sound(c, Firsts(RuleOf(c), seen), seen) && Complete(c, Firsts(RuleOf(c), seen), seen)
  {
    var rule := RuleOf(c);
    var votes := Firsts(rule, seen);
    VotesHaveDistinctKeys(rule, seen);
    assert forall i, j :: 0 <= i < j < |votes| ==> rule.key(votes[i]) != rule.key(votes[j]);
    forall q | q in votes
      ensures q in seen && Vetted(c, q)
    {
      VotedIffFirst(rule, seen, q);
      var i :| 0 <= i < |seen| && FirstOfKey(rule, seen, i) && seen[i] == q;
      assert rule.valid(q);
    }
    forall q | q in seen && Vetted(c, q)
      ensures Called(votes, q.info.key)
    {
      var i :| 0 <= i < |seen| && seen[i] == q;
      assert rule.valid(seen[i]) && rule.key(seen[i]) == q.info.key;
      KeyTakenIff(rule, seen, q.info.key);
      KeyIffCalled(rule, votes, q.info.key);
      var k :| 0 <= k < |votes| && rule.key(votes[k]) == q.info.key;
      assert votes[k].info.key == q.info.key;
    }
  }

  /** The inner loop: the requests of one tick, after `before` has been seen; rule.valid stands for all
      the checks of Vetted. It stops at a valid request with a new key when the keystore cannot be read. */
  method AcceptTick(rule: Rule<Request>, accepted0: set<string>, calls0: seq<Request>, infos: seq<Request>,
                    ghost before: seq<Request>)
    returns (acceptedTxes: set<string>, calls: seq<Request>, stopped: Option<nat>)
    requires calls0 == Firsts(rule, before) && accepted0 == Keys(rule, calls0)
    ensures stopped.None? ==> calls == Firsts(rule, before + infos) && acceptedTxes == Keys(rule, calls)
    ensures stopped.Some? ==>
              && stopped.value < |infos| && !infos[stopped.value].keyReadable && rule.valid(infos[stopped.value])
              && calls == Firsts(rule, before + infos[..stopped.value])
  {
    acceptedTxes, calls, stopped := accepted0, calls0, None;
    assert before + infos[..0] == before;
    for i := 0 to |infos|
      invariant calls == Firsts(rule, before + infos[..i]) && acceptedTxes == Keys(rule, calls)
    {
      var q := infos[i];
      ghost var seen := before + infos[..i];
      assert before + infos[..i + 1] == seen + [q] && (seen + [q])[..|seen|] == seen;
      if !rule.valid(q) || rule.key(q) in acceptedTxes {
        continue;
      }
      acceptedTxes := acceptedTxes + {rule.key(q)};
      if !q.keyReadable {
        stopped := Some(i);
        return;
      }
      KeysAppended(rule, calls, q);
      calls := calls + [q];
    }
    assert infos[..|infos|] == infos;
  }

  /** How a run over all requests can end: after all of them, or at one whose keystore cannot be read;
      `seen` is the number of requests dealt with. */
  ghost predicate Outcome(rule: Rule<Request>, all: seq<Request>, calls: seq<Request>, stopped: bool, seen: nat) {
    && seen <= |all| && calls == Firsts(rule, all[..seen])
    && if stopped then seen < |all| && !all[seen].keyReadable && rule.valid(all[seen]) else seen == |all|
  }

  /** The loop over any number of ticks, under any rule. */
  method AcceptTicks(rule: Rule<Request>, ticks: seq<Tick>) returns (calls: seq<Request>, stopped: bool, seen: nat)
    ensures Outcome(rule, Requests(ticks), calls, stopped, seen)
  {
    var acceptedTxes: set<string> := {};
    calls, stopped, seen := [], false, 0;
    for t := 0 to |ticks|
      invariant seen == |Requests(ticks[..t])|
      invariant calls == Firsts(rule, Requests(ticks[..t])) && acceptedTxes == Keys(rule, calls)
    {
      RequestsGrow(ticks, t);
      if ticks[t].Infos? {
        var stop;
        acceptedTxes, calls, stop := AcceptTick(rule, acceptedTxes, calls, ticks[t].requests, Requests(ticks[..t]));
        if stop.Some? {
          seen, stopped := seen + stop.value, true;
          StoppedOutcome(rule, ticks, t, stop.value, calls, seen);
          return;
        }
        seen := seen + |ticks[t].requests|;
      }
    }
    stopped := false;
    FullOutcome(rule, ticks, calls, seen);
  }

  lemma StoppedOutcome(rule: Rule<Request>, ticks: seq<Tick>, t: nat, i: nat, calls: seq<Request>, seen: nat)
    requires t < |ticks| && ticks[t].Infos? && i < |ticks[t].requests| && seen == |Requests(ticks[..t])| + i
    requires !ticks[t].requests[i].keyReadable && rule.valid(ticks[t].requests[i])
    requires calls == Firsts(rule, Requests(ticks[..t]) + ticks[t].requests[..i])
    ensures Outcome(rule, Requests(ticks), calls, true, seen)
  {
    SeenSoFar(ticks, t, i);
  }

  lemma FullOutcome(rule: Rule<Request>, ticks: seq<Tick>, calls: seq<Request>, seen: nat)
    requires calls == Firsts(rule, Requests(ticks[..|ticks|])) && seen == |Requests(ticks[..|ticks|])|
    ensures Outcome(rule, Requests(ticks), calls, false, seen)
  {
    assert ticks[..|ticks|] == ticks;
    assert Requests(ticks)[..seen] == Requests(ticks);
  }

  /** A single unwrap request that is not older than overTime. */
  predicate IsFreshUnwrap(q: Request, overTime: int) {
    && |q.info.contexts| == 1 && q.info.contexts[0].Some?
    && var m := q.info.contexts[0].value;
    m.method_ == "unwrap" && q.now - m.timestamp <= overTime
  }

  lemma VotesAreFresh(c: Config, calls: seq<Request>, seen: seq<Request>)
    requires Sound(c, calls, seen)
    ensures forall q :: q in calls ==> IsFreshUnwrap(q, c.overTime)
    ensures forall key :: (forall q :: q in seen && q.info.key == key ==> !IsFreshUnwrap(q, c.overTime)) ==>
              !Called(calls, key)
  {
    forall q | q in calls
      ensures q in seen && IsFreshUnwrap(q, c.overTime)
    {
      assert Vetted(c, q);
    }
  }

  /** The acceptance loop. It votes for the first vetted request of each key, and ends early only when
      the keystore cannot be read. So each key gets at most one AcceptSign call, each call is for a
      request that passed every check, and while the loop runs every request that passes has its key
      called. */
  method AcceptLoop(c: Config, ticks: seq<Tick>) returns (calls: seq<Request>, stopped: bool, seen: nat)
    ensures seen <= |Requests(ticks)| && calls == Firsts(RuleOf(c), Requests(ticks)[..seen])
    ensures if stopped then seen < |Requests(ticks)| && !Requests(ticks)[seen].keyReadable
            else seen == |Requests(ticks)|
    ensures forall q :: q in calls ==> IsFreshUnwrap(q, c.overTime)
    ensures forall key :: (forall q :: q in Requests(ticks) && q.info.key == key ==> !IsFreshUnwrap(q, c.overTime)) ==>
              !Called(calls, key)
    ensures Sound(c, calls, Requests(ticks))
    ensures !stopped ==> Complete(c, calls, Requests(ticks))
    ensures (forall i :: 0 <= i < |Requests(ticks)| ==> Requests(ticks)[i].keyReadable) ==> !stopped
  {
    calls, stopped, seen := AcceptTicks(RuleOf(c), ticks);
    VotesSoundAndComplete(c, Requests(ticks)[..seen]);
    VotesAreFresh(c, calls, Requests(ticks));
    assert !stopped ==> Requests(ticks)[..seen] == Requests(ticks);
  }

  lemma RequestsGrow(ticks: seq<Tick>, t: nat)
    requires t < |ticks|
    ensures ticks[t].Unreachable? ==> Requests(ticks[..t + 1]) == Requests(ticks[..t])
    ensures ticks[t].Infos? ==> Requests(ticks[..t + 1]) == Requests(ticks[..t]) + ticks[t].requests
  {
    assert ticks[..t + 1][..t] == ticks[..t];
    assert Requests(ticks[..t]) + [] == Requests(ticks[..t]);
  }

  /** The requests of the first ticks come first. */
  lemma {:induction false} RequestsPrefix(ticks: seq<Tick>, t: nat)
    requires t <= |ticks|
    ensures Requests(ticks[..t]) <= Requests(ticks)
    decreases |ticks|
  {
    if t == |ticks| {
      assert ticks[..t] == ticks;
    } else {
      RequestsPrefix(ticks[..|ticks| - 1], t);
      assert ticks[..|ticks| - 1][..t] == ticks[..t];
    }
  }

  /** The i-th request of tick t stands behind the i requests before it. */
  lemma SeenSoFar(ticks: seq<Tick>, t: nat, i: nat)
    requires t < |ticks| && ticks[t].Infos? && i < |ticks[t].requests|
    ensures var n := |Requests(ticks[..t])| + i;
            && n < |Requests(ticks)| && Requests(ticks)[n] == ticks[t].requests[i]
            && Requests(ticks)[..n] == Requests(ticks[..t]) + ticks[t].requests[..i]
  {
    RequestsGrow(ticks, t);
    RequestsPrefix(ticks, t + 1);
    var upTo := Requests(ticks[..t]) + ticks[t].requests;
    assert upTo[..|Requests(ticks[..t])| + i] == Requests(ticks[..t]) + ticks[t].requests[..i];
  }

  // ---------- one vote per unwrap transaction ----------

  /** The unwrap transaction that a vetted request pays for: the chain and the hash that its tag names. */
  function PaysFor(c: Config, q: Request): (string, seq<Byte>) {
    if Vetted(c, q) then
      VotesAreBacked(c, q);
      var m := q.info.contexts[0].value;
      (m.destToken, BytesToHash(TagFromOutput(m.txData.outputs[0])))
    else ("", [])
  }

  /** Votes are unique per sign key, but unique per unwrap transaction exactly when no two keys ask for
      the same one: acceptedTxes remembers keys, not transactions. */
  lemma OneVotePerTransactionIff(c: Config, seen: seq<Request>)
    ensures var rule, pays := RuleOf(c), (q: Request) => PaysFor(c, q);
            DistinctBy(pays, Firsts(rule, seen)) <==> KeysDiffer(rule, pays, seen)
  {
    VotesDifferIff(RuleOf(c), (q: Request) => PaysFor(c, q), seen);
  }

  /** A request for one coin to 32 bytes `to`, backed by a mined unWrap call with hash `txid`. */
  function SampleRequest(methods: Methods, signingMessage: Essence -> seq<Byte>, key: string,
                         to: seq<Byte>, txid: seq<Byte>): Request
  {
    var e := Essence(0, [], [OutputTo([], 1, to, txid)], []);
    var chain := ChainTx([], true, false, UserUnWrap(methods, to, Zeros(32), 1, []));
    Request(SignInfo(key, [Some(MsgContext("IOTA", "EVM", UNWRAP_METHOD, e, 0))], [Prefixed(signingMessage(e))]), 0,
            (_, hash) => if hash == txid then Some(chain) else None, true)
  }

  function SampleConfig(methods: Methods, signingMessage: Essence -> seq<Byte>): Config {
    Config(map["IOTA" := Validating(IotaSmrToken([], EMPTY_TOKEN), [])], {"EVM"}, 0, methods, signingMessage)
  }

  lemma SampleIsVetted(methods: Methods, signingMessage: Essence -> seq<Byte>, key: string, to: seq<Byte>, txid: seq<Byte>)
    requires |to| == 32 && |txid| == 32
    ensures Vetted(SampleConfig(methods, signingMessage), SampleRequest(methods, signingMessage, key, to, txid))
  {
    var e := Essence(0, [], [OutputTo([], 1, to, txid)], []);
    var q := SampleRequest(methods, signingMessage, key, to, txid);
    FromHexRoundTrip(signingMessage(e));
    OneBelowPow();
    ReadingPasses(IotaSmrToken([], EMPTY_TOKEN), [], methods, signingMessage(e), e, signingMessage,
                  hash => q.chains("EVM", hash), txid, to, Zeros(32), 1, []);
  }

  lemma OneBelowPow()
    ensures 1 < Pow256(32)
  {
    PowGrows(31);
  }

  lemma {:induction false} PowGrows(k: nat)
    ensures Pow256(k) >= 1
  {
    if k > 0 {
      PowGrows(k - 1);
    }
  }

  /** Such a pair: two keys, one unwrap transaction, two votes. */
  lemma TwoKeysTwoVotes(methods: Methods, signingMessage: Essence -> seq<Byte>, to: seq<Byte>, txid: seq<Byte>)
    requires |to| == 32 && |txid| == 32
    ensures var c := SampleConfig(methods, signingMessage);
            var q := SampleRequest(methods, signingMessage, "a", to, txid);
            var r := SampleRequest(methods, signingMessage, "b", to, txid);
            && Vetted(c, q) && Vetted(c, r)
            && Firsts(RuleOf(c), [q, r]) == [q, r] && PaysFor(c, q) == PaysFor(c, r)
  {
    var c := SampleConfig(methods, signingMessage);
    var q := SampleRequest(methods, signingMessage, "a", to, txid);
    var r := SampleRequest(methods, signingMessage, "b", to, txid);
    SampleIsVetted(methods, signingMessage, "a", to, txid);
    SampleIsVetted(methods, signingMessage, "b", to, txid);
    assert [q, r][..1] == [q] && [q][..0] == [];
    var rule := RuleOf(c);
    assert rule.valid(q) && rule.valid(r) && rule.key(q) == "a" && rule.key(r) == "b";
    assert Firsts(rule, [q]) == [q] && Keys(rule, [q]) == {"a"};
  }
}
