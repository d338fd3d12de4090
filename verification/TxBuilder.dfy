/** The unsigned-transaction builder and the unlock blocks (tokens/iotasmr/types.go). */
module TxBuilder {
  import opened Bytes
  import opened Ledger

  /** A transaction essence. The inputs commitment is a hash of the consumed outputs in input order;
      the list itself stands for it. */
  datatype Essence = Essence(networkId: nat, inputs: seq<OutputId>, outputs: seq<Output>,
                             commitment: seq<Output>)

  /** The ids of a list of unspent outputs name at most one output each. */
  predicate Consistent(us: seq<Utxo>) {
    forall i, j :: 0 <= i < |us| && 0 <= j < |us| && us[i].id == us[j].id ==> us[i].output == us[j].output
  }

  /** The map the builder should hold: the output that was added last under each id. */
  function Latest(us: seq<Utxo>): map<OutputId, Output> {
    if us == [] then map[] else Latest(us[..|us| - 1])[us[|us| - 1].id := us[|us| - 1].output]
  }

  /** The key set of the map is the set of ids in the essence, so the ordered lookup is total; when
      ids name outputs it finds, at every position, the output that was added there. */
  lemma {:induction false} LatestLookup(us: seq<Utxo>)
    ensures forall id :: id in Latest(us) <==> id in Ids(us)
    ensures Consistent(us) ==> forall i :: 0 <= i < |us| ==> Latest(us)[Ids(us)[i]] == us[i].output
  {
    if us != [] {
      var front, last := us[..|us| - 1], us[|us| - 1];
      LatestLookup(front);
      assert Ids(us) == Ids(front) + [last.id];
      if Consistent(us) {
        assert Consistent(front);
        forall i | 0 <= i < |us|
          ensures Latest(us)[Ids(us)[i]] == us[i].output
        {
          if i < |front| {
            assert us[i] == front[i] && Ids(front)[i] in Latest(front);
          }
        }
      }
    }
  }

  class UnsignTransactionBuilder {
    const networkId: nat
    var inputIds: seq<OutputId>
    var outputs: seq<Output>
    var inputs: map<OutputId, Output>
    ghost var added: seq<Utxo>  // every AddInput so far

    ghost predicate Valid()
      reads this
    {
      inputIds == Ids(added) && inputs == Latest(added)
    }

    constructor (networkId: nat)
      ensures Valid() && this.networkId == networkId
      ensures added == [] && outputs == []
    {
      this.networkId := networkId;
      inputIds, outputs, inputs := [], [], map[];
      added := [];
    }

    method AddInput(u: Utxo)
      requires Valid()
      modifies this`inputIds, this`inputs, this`added
      ensures Valid() && added == old(added) + [u]
    {
      inputIds := inputIds + [u.id];
      inputs := inputs[u.id := u.output];
      added := added + [u];
      assert added[..|added| - 1] == old(added);
    }

    method AddOutput(o: Output)
      requires Valid()
      modifies this`outputs
      ensures Valid() && outputs == old(outputs) + [o]
    {
      outputs := outputs + [o];
    }

    /** Looks every input up in order, commits to what it finds and hashes the essence. The lookup
        never misses, and when ids name outputs it is the list that was added, position by position. */
    method GetTxEssenceData(signingMessage: Essence -> seq<Byte>) returns (hash: seq<Byte>, txData: Essence)
      requires Valid()
      ensures hash == signingMessage(txData)
      ensures txData.networkId == networkId && txData.outputs == outputs && txData.inputs == Ids(added)
      ensures |txData.commitment| == |added|
      ensures forall i :: 0 <= i < |added| ==>
                txData.inputs[i] in inputs && txData.commitment[i] == inputs[txData.inputs[i]]
      ensures Consistent(added) ==> txData.commitment == Outputs(added)
    {
      LatestLookup(added);
      var ordered: seq<Output> := [];
      for i := 0 to |inputIds|
        invariant |ordered| == i
        invariant forall k :: 0 <= k < i ==> inputIds[k] in inputs && ordered[k] == inputs[inputIds[k]]
      {
        assert inputIds[i] in inputIds;
        ordered := ordered + [inputs[inputIds[i]]];
      }
      txData := Essence(networkId, inputIds, outputs, ordered);
      hash := signingMessage(txData);
    }
  }

  // ---------- unlocks ----------

  datatype Unlock = SignatureUnlock(signature: seq<Byte>) | ReferenceUnlock(reference: nat)

  /** The unlock rules of TIP-20: a reference points back at a signature, and no signature is
      carried twice. */
  predicate UnlocksValid(unlocks: seq<Unlock>) {
    && (forall i :: 0 <= i < |unlocks| && unlocks[i].ReferenceUnlock? ==>
          unlocks[i].reference < i && unlocks[unlocks[i].reference].SignatureUnlock?)
    && (forall i, j :: 0 <= i < j < |unlocks| && unlocks[i].SignatureUnlock? && unlocks[j].SignatureUnlock? ==>
          unlocks[i] != unlocks[j])
  }

  /** The signature that opens input i. */
  function SignatureFor(unlocks: seq<Unlock>, i: nat): seq<Byte>
    requires UnlocksValid(unlocks) && i < |unlocks|
  {
    match unlocks[i]
    case SignatureUnlock(s) => s
    case ReferenceUnlock(r) => unlocks[r].signature
  }

  /** The unlock loop of NewBlockBuilder. */
  method BuildUnlocks(inputs: seq<OutputId>, signature: seq<Byte>) returns (unlocks: seq<Unlock>)
    ensures |unlocks| == |inputs| && UnlocksValid(unlocks)
    ensures forall i :: 0 <= i < |unlocks| ==> (unlocks[i].SignatureUnlock? <==> i == 0)
    ensures forall i :: 0 <= i < |unlocks| ==> SignatureFor(unlocks, i) == signature
  {
    unlocks := [];
    for i := 0 to |inputs|
      invariant |unlocks| == i
      invariant forall k :: 0 <= k < i ==>
                  unlocks[k] == if k == 0 then SignatureUnlock(signature) else ReferenceUnlock(0)
    {
      if i == 0 {
        unlocks := unlocks + [SignatureUnlock(signature)];
      } else {
        unlocks := unlocks + [ReferenceUnlock(0)];
      }
    }
  }
}
