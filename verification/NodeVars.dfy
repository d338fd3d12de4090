/** The dedup maps of a node (server/var.go). The same functions are the atomic steps of OrderProtocol. */
module NodeVars {
  import opened SwapTable

  const DAY: int := 86400

  /** What Check does to the dealt set, and what it answers. */
  function CheckDealt(dealed: set<Txid>, x: Txid): (set<Txid>, bool) {
    if x in dealed then (dealed, false) else (dealed + {x}, true)
  }

  class DealedOrdersCheck {
    var dealed: map<Txid, bool>

    constructor ()
      ensures dealed == map[]
    {
      dealed := map[];
    }

    /** True for the first caller since the last reset only. */
    method Check(txid: Txid) returns (first: bool)
      modifies this
      ensures first <==> txid !in old(dealed.Keys)
      ensures dealed.Keys == old(dealed.Keys) + {txid}
      ensures (dealed.Keys, first) == CheckDealt(old(dealed.Keys), txid)
    {
      if txid in dealed {
        return false;
      }
      dealed := dealed[txid := true];
      assert dealed.Keys == old(dealed.Keys) + {txid};
      return true;
    }

    /** The daily ticker. */
    method Expired()
      modifies this
      ensures dealed.Keys == {}
    {
      dealed := map[];
    }
  }

  /** The entries that survive a sweep at clock `now`: those younger than a day. */
  function Unexpired(sent: map<Txid, int>, now: int): map<Txid, int> {
    map x | x in sent && now - DAY < sent[x] :: sent[x]
  }

  class SentEvmTxMap {
    var txHashes: map<Txid, int>

    constructor ()
      ensures txHashes == map[]
    {
      txHashes := map[];
    }

    method Push(tx: Txid, now: int)
      modifies this
      ensures txHashes == old(txHashes)[tx := now]
    {
      txHashes := txHashes[tx := now];
    }

    method Exist(tx: Txid) returns (exist: bool)
      ensures exist <==> tx in txHashes
    {
      exist := tx in txHashes;
    }

    /** The sweep copies the young entries into a new map, one at a time. */
    method Expired(now: int)
      modifies this
      ensures forall x :: x in txHashes <==> x in old(txHashes) && now < old(txHashes)[x] + 86400
      ensures forall x :: x in txHashes ==> txHashes[x] == old(txHashes)[x]
      ensures txHashes == Unexpired(old(txHashes), now)
    {
      var limit := now - DAY;
      var kept: map<Txid, int> := map[];
      var todo := txHashes.Keys;
      while todo != {}
        invariant todo <= txHashes.Keys
        invariant kept == map x | x in txHashes && x !in todo && limit < txHashes[x] :: txHashes[x]
        decreases |todo|
      {
        var tx :| tx in todo;
        todo := todo - {tx};
        if limit < txHashes[tx] {
          kept := kept[tx := txHashes[tx]];
        }
      }
      txHashes := kept;
    }
  }
}
