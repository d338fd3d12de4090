/** The shared SQL tables (model/swap.go, readme.md): `swap_order` has a unique key on `txid`. */
module SwapTable {
  type Txid = string

  datatype Row = Row(txid: Txid, srcToken: string, destToken: string, wrap: int, from_: string, to: string,
                     amount: string, hash: string, state: int, ts: int, org: string)

  /** How a statement or a transaction can end: done and acknowledged, done but reported as failed
      (the connection broke), or not done. */
  datatype DbFault = Fine | AckLost | Refused

  /** What CheckSentTx says about an order, and so what becomes of its row: true with an error is "try
      later", true without is "landed", false is a conflict. */
  datatype Verdict = TryLater | Landed | Conflicting

  /** The keys of the table after an insert, and whether the caller sees success. */
  function Inserted(keys: set<Txid>, x: Txid, fault: DbFault): (set<Txid>, bool) {
    if fault.Refused? || x in keys then (keys, false) else (keys + {x}, fault.Fine?)
  }

  /** The keys after a delete that ran inside a transaction. */
  function Deleted(keys: set<Txid>, x: Txid, fault: DbFault): set<Txid> {
    if fault.Refused? then keys else keys - {x}
  }

  class Database {
    var swapOrder: map<Txid, Row>
    var errorOrder: seq<Row>

    /** Rows are filed under their own txid. */
    ghost predicate Valid()
      reads this
    {
      forall x :: x in swapOrder ==> swapOrder[x].txid == x
    }

    constructor ()
      ensures Valid() && swapOrder == map[] && errorOrder == []
    {
      swapOrder, errorOrder := map[], [];
    }

    /** StoreSwapOrder: a new row has no hash and state 0; an empty `org` becomes IotaBee; a second row
        with the same txid is error 1062. */
    method StoreSwapOrder(wo: Row, fault: DbFault) returns (ok: bool)
      requires Valid()
      modifies this`swapOrder
      ensures Valid()
      ensures ok <==> wo.txid !in old(swapOrder) && fault == Fine
      ensures swapOrder.Keys == if fault == Refused then old(swapOrder.Keys) else old(swapOrder.Keys) + {wo.txid}
      ensures (swapOrder.Keys, ok) == Inserted(old(swapOrder.Keys), wo.txid, fault)
      ensures forall x :: x in old(swapOrder) ==> x in swapOrder && swapOrder[x] == old(swapOrder)[x]
      ensures ok ==>
                swapOrder[wo.txid] == wo.(org := if |wo.org| == 0 then "IotaBee" else wo.org, hash := "", state := 0)
    {
      ok := false;
      if !fault.Refused? && wo.txid !in swapOrder {
        var org := wo.org;
        if |org| == 0 {
          org := "IotaBee";
        }
        swapOrder := swapOrder[wo.txid := wo.(org := org, hash := "", state := 0)];
        assert swapOrder.Keys == old(swapOrder.Keys) + {wo.txid};
        ok := fault.Fine?;
      }
    }

    /** MoveOrderToError: delete and insert in one transaction, so either both happen or neither. */
    method MoveOrderToError(wo: Row, fault: DbFault) returns (ok: bool)
      requires Valid()
      modifies this
      ensures Valid()
      ensures swapOrder.Keys == if fault == Refused then old(swapOrder.Keys) else old(swapOrder.Keys) - {wo.txid}
      ensures swapOrder.Keys == Deleted(old(swapOrder.Keys), wo.txid, fault)
      ensures forall x :: x in swapOrder ==> swapOrder[x] == old(swapOrder)[x]
      ensures errorOrder == if fault.Refused? then old(errorOrder) else old(errorOrder) + [wo]
      ensures ok <==> fault.Fine?
    {
      if !fault.Refused? {
        swapOrder := swapOrder - {wo.txid};
        errorOrder := errorOrder + [wo];
      }
      ok := fault.Fine?;
    }

    /** UpdateChainRecord: touches hash and state of one row, and no key. */
    method UpdateChainRecord(wo: Row, fault: DbFault) returns (ok: bool)
      requires Valid()
      modifies this`swapOrder
      ensures Valid() && swapOrder.Keys == old(swapOrder.Keys)
      ensures forall x :: x in swapOrder && x != wo.txid ==> swapOrder[x] == old(swapOrder)[x]
      ensures wo.txid in swapOrder ==>
                swapOrder[wo.txid] == if fault.Refused? then old(swapOrder)[wo.txid]
                                      else old(swapOrder)[wo.txid].(hash := wo.hash, state := wo.state)
      ensures ok <==> fault.Fine?
    {
      if !fault.Refused? && wo.txid in swapOrder {
        swapOrder := swapOrder[wo.txid := swapOrder[wo.txid].(hash := wo.hash, state := wo.state)];
      }
      ok := fault.Fine?;
    }
  }
}
