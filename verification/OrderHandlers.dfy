/** The order handlers of one node run without interruption (server/detect.go): what one call does to
    the shared maps, the queues and the table, and when it sends. OrderProtocol cuts the same handlers
    into atomic steps. */
module OrderHandlers {
  import opened Outcomes
  import opened SwapTable
  import opened NodeVars
  import opened OrderProtocol
  import opened IotaRecheck
  import opened EvmRecheck

  /** The shared variables of a node. */
  class Shared {
    const dealedOrders: DealedOrdersCheck
    const sentIotaTxes: SentIotaTx
    const sentEvmUserTxes: SentEvmTxMap
    const sentEvmTxes: SentEvmTxQueue
    const db: Database
    ghost const Repr: set<object>

    constructor ()
      ensures Valid() && fresh(Repr)
    {
      dealedOrders := new DealedOrdersCheck();
      sentIotaTxes := new SentIotaTx();
      sentEvmUserTxes := new SentEvmTxMap();
      sentEvmTxes := new SentEvmTxQueue();
      db := new Database();
      Repr := {dealedOrders, sentIotaTxes, sentEvmUserTxes, sentEvmTxes, db};
    }

    ghost predicate Valid()
      reads Repr
    {
      && Repr == {dealedOrders, sentIotaTxes, sentEvmUserTxes, sentEvmTxes, db}
      && sentIotaTxes.Valid() && sentEvmTxes.Valid() && db.Valid()
    }

    /** The variables as an idle goroutine sees them at a given clock. */
    ghost function Seen(now: int, attempts: multiset<Txid>): View
      reads Repr
      requires Valid()
    {
      View(Idle, dealedOrders.dealed.Keys, db.swapOrder.Keys, attempts, sentEvmUserTxes.txHashes,
           Txids(sentIotaTxes.Entries()), now)
    }
  }

  function Txids(es: seq<IotaRecheck.Entry>): seq<Txid> {
    seq(|es|, i requires 0 <= i < |es| => es[i].order.txid)
  }

  /** What the outside world answers during a call. `send` is SendWrap or SendUnWrap and gives a hash;
      `polls` are the answers of GetSignStatus; `submit` is SendSignedTxData. */
  datatype Environment = Environment(accountsOnline: bool, now: int, fault: DbFault, keyReadable: bool,
                                     send: Option<Hash>, created: bool, signAccepted: bool,
                                     detectCount: nat, polls: nat -> seq<string>, submit: string -> Option<string>)

  /** The first signature that polls i, i + 1, ... bring. */
  function FirstSignature(env: Environment, i: nat): Option<string>
    decreases env.detectCount - i
  {
    if i >= env.detectCount then None
    else if env.polls(i) != [] then Some(env.polls(i)[0])
    else FirstSignature(env, i + 1)
  }

  /** Poll i is the first that brings signatures. */
  ghost predicate FirstPoll(env: Environment, i: nat) {
    i < env.detectCount && env.polls(i) != [] && forall k :: 0 <= k < i ==> env.polls(k) == []
  }

  lemma {:induction false} PollsFrom(env: Environment, i: nat, j: nat)
    requires i <= j && FirstPoll(env, j)
    ensures FirstSignature(env, i) == Some(env.polls(j)[0])
    decreases j - i
  {
    if i < j {
      PollsFrom(env, i + 1, j);
    }
  }

  lemma {:induction false} SilentFrom(env: Environment, i: nat)
    requires forall k :: i <= k < env.detectCount ==> env.polls(k) == []
    ensures FirstSignature(env, i) == None
    decreases env.detectCount - i
  {
    if i < env.detectCount {
      SilentFrom(env, i + 1);
    }
  }

  /** Some poll is the first, unless all are silent. */
  lemma {:induction false} FirstPollExists(env: Environment, i: nat)
    requires i <= env.detectCount && forall k :: 0 <= k < i ==> env.polls(k) == []
    ensures (exists j :: FirstPoll(env, j)) || forall k :: 0 <= k < env.detectCount ==> env.polls(k) == []
    decreases env.detectCount - i
  {
    if i < env.detectCount {
      if env.polls(i) == [] {
        FirstPollExists(env, i + 1);
      } else {
        assert FirstPoll(env, i);
      }
    }
  }

  /** A group-signed call obtains the hash id: the request is accepted, and the first signature that any
      poll brings is submitted with that result. */
  ghost predicate Obtains(env: Environment, id: string) {
    env.signAccepted && exists i :: FirstPoll(env, i) && env.submit(env.polls(i)[0]) == Some(id)
  }

  lemma SubmittedHashIff(env: Environment, id: string)
    ensures SubmittedHash(env) == Some(id) <==> Obtains(env, id)
  {
    FirstPollExists(env, 0);
    if j :| FirstPoll(env, j) {
      PollsFrom(env, 0, j);
      forall i | FirstPoll(env, i)
        ensures i == j
      {
        assert i < j ==> env.polls(i) == [];
        assert j < i ==> env.polls(j) == [];
      }
    } else {
      SilentFrom(env, 0);
    }
  }

  /** detectSignStatus: polls until signatures arrive, then submits the first one, once. */
  method DetectSignStatus(env: Environment) returns (txid: Option<string>, submissions: nat)
    ensures forall i :: 0 <= i < env.detectCount && env.polls(i) != [] && (forall k :: 0 <= k < i ==> env.polls(k) == [])
              ==> submissions == 1 && txid == env.submit(env.polls(i)[0])
    ensures (forall i :: 0 <= i < env.detectCount ==> env.polls(i) == []) ==> submissions == 0 && txid == None
    ensures submissions == if FirstSignature(env, 0).Some? then 1 else 0
    ensures txid == if FirstSignature(env, 0).Some? then env.submit(FirstSignature(env, 0).value) else None
  {
    for i := 0 to env.detectCount
      invariant FirstSignature(env, 0) == FirstSignature(env, i)
      invariant forall k :: 0 <= k < i ==> env.polls(k) == []
    {
      var rsvs := env.polls(i);
      if |rsvs| > 0 {
        txid := env.submit(rsvs[0]);
        return txid, 1;
      }
    }
    return None, 0;
  }

  /** The call gets past the dedup check. */
  predicate Passes(path: Path, symbolFits: bool, env: Environment, dealed: set<Txid>, x: Txid) {
    symbolFits && (path.UnwrapSmpc? ==> env.accountsOnline) && CheckDealt(dealed, x).1
  }

  /** The call asks for a send or for a signature: a non-EVM path needs its row to be stored, an EVM path does not. */
  predicate Attempts(path: Path, symbolFits: bool, env: Environment, dealed: set<Txid>, table: set<Txid>, x: Txid) {
    && Passes(path, symbolFits, env, dealed, x)
    && (NonEvm(path) ==> Inserted(table, x, env.fault).1)
    && (path.UnwrapSmpc? ==> env.created)
    && env.keyReadable
  }

  /** The hash of the submitted transaction, if a group-signed call gets that far. */
  function SubmittedHash(env: Environment): Option<string> {
    if env.signAccepted && FirstSignature(env, 0).Some? then env.submit(FirstSignature(env, 0).value) else None
  }

  /** What one goroutine sees and changes: its own place (without the origin of its order, on which no
      later step depends), its node's variables and the table. */
  datatype View = View(pc: Pc, dealed: set<Txid>, table: set<Txid>, attempts: multiset<Txid>,
                       recorded: map<Txid, int>, queue: seq<Txid>, now: int)

  /** The view at the end of a call: what is dealt, stored, attempted, recorded and queued. */
  function CallEnds(w: View, path: Path, x: Txid, symbolFits: bool, env: Environment): View {
    var attempted := Attempts(path, symbolFits, env, w.dealed, w.table, x);
    w.(pc := Idle,
       dealed := if symbolFits && (path.UnwrapSmpc? ==> env.accountsOnline) then CheckDealt(w.dealed, x).0 else w.dealed,
       table := if Passes(path, symbolFits, env, w.dealed, x) then Inserted(w.table, x, env.fault).0 else w.table,
       attempts := if attempted then w.attempts + multiset{x} else w.attempts,
       recorded := if attempted && !NonEvm(path) && env.send.Some? then w.recorded[x := env.now] else w.recorded,
       queue := if attempted && path.UnwrapSmpc? && SubmittedHash(env).Some? then w.queue + [x] else w.queue)
  }

  /** The end of a call, said with the map, the table, the answers and the polls themselves: which calls
      are dealt, stored, attempted, recorded and queued. */
  lemma CallMeans(w: View, path: Path, x: Txid, symbolFits: bool, env: Environment)
    ensures var v := CallEnds(w, path, x, symbolFits, env);
            var online := path == UnwrapSmpc ==> env.accountsOnline;
            var nonEvm := path == UnwrapCenter || path == UnwrapSmpc;
            var attempted := && symbolFits && online && x !in w.dealed
                             && (nonEvm ==> x !in w.table && env.fault == Fine)
                             && (path == UnwrapSmpc ==> env.created) && env.keyReadable;
            && v.pc == Idle && v.now == w.now
            && v.dealed == (if symbolFits && online then w.dealed + {x} else w.dealed)
            && v.table == (if symbolFits && online && x !in w.dealed && env.fault != Refused then w.table + {x} else w.table)
            && v.attempts == (if attempted then w.attempts + multiset{x} else w.attempts)
            && v.recorded == (if attempted && !nonEvm && env.send.Some? then w.recorded[x := env.now] else w.recorded)
            && v.queue == if attempted && path == UnwrapSmpc && exists id :: Obtains(env, id) then w.queue + [x] else w.queue
  {
    forall id
      ensures SubmittedHash(env) == Some(id) <==> Obtains(env, id)
    {
      SubmittedHashIff(env, id);
    }
    assert SubmittedHash(env).Some? ==> Obtains(env, SubmittedHash(env).value);
    assert x in w.dealed ==> w.dealed + {x} == w.dealed;
    assert x in w.table ==> w.table + {x} == w.table;
  }

  /** The first part of a call: the guards, the dedup check and the row. */
  method Admit(dealedOrders: DealedOrdersCheck, db: Database, path: Path, wo: Row, symbolFits: bool, env: Environment)
    returns (admitted: bool)
    requires db.Valid()
    modifies dealedOrders, db
    ensures db.Valid()
    ensures dealedOrders.dealed.Keys
         == if symbolFits && (path.UnwrapSmpc? ==> env.accountsOnline)
            then CheckDealt(old(dealedOrders.dealed.Keys), wo.txid).0 else old(dealedOrders.dealed.Keys)
    ensures var passes := Passes(path, symbolFits, env, old(dealedOrders.dealed.Keys), wo.txid);
            var (table, ok) := Inserted(old(db.swapOrder.Keys), wo.txid, env.fault);
            && db.swapOrder.Keys == (if passes then table else old(db.swapOrder.Keys))
            && admitted == (passes && (NonEvm(path) ==> ok))
  {
    if !symbolFits {
      return false;
    }
    if path.UnwrapSmpc? && !env.accountsOnline {
      return false;
    }
    var first := dealedOrders.Check(wo.txid);
    if !first {
      return false;
    }
    var stored := db.StoreSwapOrder(wo, env.fault);
    if !stored && NonEvm(path) {
      return false;
    }
    return true;
  }

  /** The last part of a group-signed unwrap: propose, collect the signature, submit, queue for recheck. */
  method SignWithGroup(q: SentIotaTx, wo: Row, symbol: string, env: Environment) returns (attempts: nat)
    requires q.Valid()
    modifies q
    ensures q.Valid() && attempts == if env.created && env.keyReadable then 1 else 0
    ensures q.Entries() == old(q.Entries()) +
              if attempts == 1 && SubmittedHash(env).Some?
              then [IotaRecheck.Entry(wo.(hash := SubmittedHash(env).value), symbol)] else []
    ensures forall id :: attempts == 1 && Obtains(env, id) ==>
              q.Entries() == old(q.Entries()) + [IotaRecheck.Entry(wo.(hash := id), symbol)]
    ensures !(attempts == 1 && exists id :: Obtains(env, id)) ==> q.Entries() == old(q.Entries())
    ensures Txids(q.Entries())
         == if attempts == 1 && SubmittedHash(env).Some? then Txids(old(q.Entries())) + [wo.txid]
            else Txids(old(q.Entries()))
  {
    attempts := 0;
    assert q.Entries() + [] == q.Entries();
    forall id
      ensures SubmittedHash(env) == Some(id) <==> Obtains(env, id)
    {
      SubmittedHashIff(env, id);
    }
    assert SubmittedHash(env).Some? ==> Obtains(env, SubmittedHash(env).value);
    if !env.created || !env.keyReadable {
      return;
    }
    attempts := 1;
    if !env.signAccepted {
      return;
    }
    var txid, _ := DetectSignStatus(env);
    if txid.Some? {
      q.Push(wo.(hash := txid.value), symbol);
    }
  }

  /** The last part of the other paths: send, and on an EVM chain queue the hash and record the txid. */
  method SendDirectly(q: SentEvmTxQueue, recorded: SentEvmTxMap, path: Path, x: Txid, symbol: string, env: Environment)
    returns (attempts: nat)
    requires q.Valid() && !path.UnwrapSmpc?
    modifies q, recorded
    ensures q.Valid() && attempts == if env.keyReadable then 1 else 0
    ensures var sent := attempts == 1 && !NonEvm(path) && env.send.Some?;
            && recorded.txHashes == (if sent then old(recorded.txHashes)[x := env.now] else old(recorded.txHashes))
            && q.Entries() == old(q.Entries()) + if sent then [EvmRecheck.Entry(env.send.value, symbol, env.now)] else []
  {
    attempts := 0;
    assert q.Entries() + [] == q.Entries();
    if !env.keyReadable {
      return;
    }
    attempts := 1;
    if env.send.Some? && !path.UnwrapCenter? {
      q.Push(env.send.value, symbol, env.now);
      recorded.Push(x, env.now);
    }
  }

  /** dealWrapOrder (path Wrap) and dealUnWrapOrder (the other paths). `symbol` is the target token's
      entry in the recheck queues. */
  method DealOrder(s: Shared, path: Path, wo: Row, symbolFits: bool, symbol: string, env: Environment)
    returns (attempts: nat)
    requires s.Valid()
    modifies s.Repr
    ensures s.Valid()
    ensures s.Seen(env.now, if attempts == 1 then multiset{wo.txid} else multiset{})
         == CallEnds(old(s.Seen(env.now, multiset{})), path, wo.txid, symbolFits, env)
    ensures s.sentEvmTxes.Entries()
         == old(s.sentEvmTxes.Entries()) +
            if attempts == 1 && !NonEvm(path) && env.send.Some?
            then [EvmRecheck.Entry(env.send.value, symbol, env.now)] else []
    ensures s.sentIotaTxes.Entries()
         == old(s.sentIotaTxes.Entries()) +
            if attempts == 1 && path.UnwrapSmpc? && SubmittedHash(env).Some?
            then [IotaRecheck.Entry(wo.(hash := SubmittedHash(env).value), symbol)] else []
  {
    var admitted := Admit(s.dealedOrders, s.db, path, wo, symbolFits, env);
    if !admitted {
      attempts := 0;
      assert s.sentEvmTxes.Entries() + [] == s.sentEvmTxes.Entries();
      assert s.sentIotaTxes.Entries() + [] == s.sentIotaTxes.Entries();
    } else if path.UnwrapSmpc? {
      attempts := SignWithGroup(s.sentIotaTxes, wo, symbol, env);
      assert s.sentEvmTxes.Entries() + [] == s.sentEvmTxes.Entries();
    } else {
      attempts := SendDirectly(s.sentEvmTxes, s.sentEvmUserTxes, path, wo.txid, symbol, env);
      assert s.sentIotaTxes.Entries() + [] == s.sentIotaTxes.Entries();
    }
  }

  /** dealTxErrorRecord: a record for a known coin whose user transaction checks out is dealt again,
      unless the node has recorded a send of its txid. */
  method DealTxErrorRecord(s: Shared, path: Path, coinKnown: bool, userTx: Option<Row>, symbolFits: bool,
                           symbol: string, env: Environment)
    returns (attempts: nat)
    requires s.Valid()
    modifies s.Repr
    ensures s.Valid()
    ensures var blocked := !coinKnown || userTx.None? || userTx.value.txid in old(s.sentEvmUserTxes.txHashes);
            && (blocked ==> attempts == 0)
            && s.Seen(env.now, if attempts == 1 then multiset{userTx.value.txid} else multiset{})
               == (if blocked then old(s.Seen(env.now, multiset{}))
                   else CallEnds(old(s.Seen(env.now, multiset{})), path, userTx.value.txid, symbolFits, env))
    ensures s.sentEvmTxes.Entries()
         == old(s.sentEvmTxes.Entries()) +
            if attempts == 1 && !NonEvm(path) && env.send.Some?
            then [EvmRecheck.Entry(env.send.value, symbol, env.now)] else []
    ensures s.sentIotaTxes.Entries()
         == old(s.sentIotaTxes.Entries()) +
            if attempts == 1 && path.UnwrapSmpc? && SubmittedHash(env).Some?
            then [IotaRecheck.Entry(userTx.value.(hash := SubmittedHash(env).value), symbol)] else []
  {
    attempts := 0;
    assert s.sentEvmTxes.Entries() + [] == s.sentEvmTxes.Entries();
    assert s.sentIotaTxes.Entries() + [] == s.sentIotaTxes.Entries();
    if !coinKnown || userTx.None? {
      return;
    }
    var exist := s.sentEvmUserTxes.Exist(userTx.value.txid);
    if exist {
      return;
    }
    attempts := DealOrder(s, path, userTx.value, symbolFits, symbol, env);
  }
}
