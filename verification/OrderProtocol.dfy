/** The order protocol of N bridge nodes over one shared table, as a transition system whose steps are
    the atomic actions of the source: a mutex-guarded method, a statement or transaction of the
    database, a send, a tick, a crash (server/detect.go, recheck.go, txerrdeal.go, var.go,
    model/swap.go). */
module OrderProtocol {
  import opened Outcomes
  import opened SwapTable
  import opened NodeVars

  /** wrap; unwrap to an EVM chain; unwrap signed by one key; unwrap signed by the group. */
  datatype Path = Wrap | UnwrapEvm | UnwrapCenter | UnwrapSmpc

  predicate NonEvm(p: Path) {
    p.UnwrapCenter? || p.UnwrapSmpc?
  }

  /** An order comes from a chain event, or from an error record that passed `Exist` at `checkedAt`
      when the node had made the records `known` since it started. */
  datatype Origin = Event | ErrorRecord(checkedAt: int, known: set<(Txid, int)>)

  datatype Order = Order(path: Path, x: Txid, origin: Origin)

  /** Where a goroutine is inside dealWrapOrder or dealUnWrapOrder. */
  datatype Pc =
    | Idle
    | Fresh(o: Order)    // entered, not yet checked
    | Checked(o: Order)  // dealedOrders.Check said yes
    | Stored(o: Order)   // past StoreSwapOrder
    | Signing(o: Order)  // smpc.Sign was accepted; polling the status
    | Signed(o: Order)   // SendSignedTxData succeeded; to be pushed
    | Sent(o: Order)     // an EVM send succeeded; to be recorded

  /** One node. The last four fields are history: resets of the dealt set (a restart is one), attempts
      to send or sign, records made since the start, sends made on account of error records. */
  datatype Node = Node(threads: seq<Pc>, dealed: set<Txid>, queue: seq<Txid>, recheck: Option<Txid>,
                       recorded: map<Txid, int>,
                       resets: nat, attempts: multiset<Txid>, records: set<(Txid, int)>, errorSends: set<Order>)

  /** What has happened so far, per txid: rows inserted, rows moved to the error table; on non-EVM paths
      sign or send requests and signed transactions submitted; of the orders pushed for recheck, those
      found on the ledger and those lost from a queue. */
  datatype History = History(inserts: multiset<Txid>, moves: multiset<Txid>, signs: multiset<Txid>, finals: multiset<Txid>,
                             pushes: multiset<Txid>, landed: multiset<Txid>, lost: multiset<Txid>)

  /** The clock, the table, all nodes, and the history. */
  datatype State = State(now: int, table: set<Txid>, nodes: seq<Node>, history: History)

  datatype Step =
    | Arrive(n: nat, k: nat, path: Path, x: Txid)
    | ArriveFromRecord(n: nat, k: nat, path: Path, x: Txid)
    | GiveUp(n: nat, k: nat)
    | Check(n: nat, k: nat)
    | Store(n: nat, k: nat, fault: DbFault)
    | Attempt(n: nat, k: nat, ok: bool)
    | Collect(n: nat, k: nat, ok: bool)
    | Push(n: nat, k: nat)
    | Record(n: nat, k: nat)
    | Pop(n: nat)
    | Judge(n: nat, verdict: Verdict, fault: DbFault)
    | ResetDealed(n: nat)
    | ExpireRecorded(n: nat)
    | Advance(seconds: nat)
    | Crash(n: nat)

  predicate HasThread(s: State, n: nat, k: nat) {
    n < |s.nodes| && k < |s.nodes[n].threads|
  }

  predicate Enabled(s: State, a: Step) {
    match a
    case Arrive(n, k, _, _) => HasThread(s, n, k) && s.nodes[n].threads[k].Idle?
    case ArriveFromRecord(n, k, _, x) =>
      HasThread(s, n, k) && s.nodes[n].threads[k].Idle? && x !in s.nodes[n].recorded
    case GiveUp(n, k) =>
      HasThread(s, n, k) && var pc := s.nodes[n].threads[k]; pc.Fresh? || pc.Stored? || pc.Signing?
    case Check(n, k) => HasThread(s, n, k) && s.nodes[n].threads[k].Fresh?
    case Store(n, k, _) => HasThread(s, n, k) && s.nodes[n].threads[k].Checked?
    case Attempt(n, k, _) => HasThread(s, n, k) && s.nodes[n].threads[k].Stored?
    case Collect(n, k, _) => HasThread(s, n, k) && s.nodes[n].threads[k].Signing?
    case Push(n, k) => HasThread(s, n, k) && s.nodes[n].threads[k].Signed?
    case Record(n, k) => HasThread(s, n, k) && s.nodes[n].threads[k].Sent?
    case Pop(n) => n < |s.nodes| && s.nodes[n].recheck.None? && s.nodes[n].queue != []
    case Judge(n, _, _) => n < |s.nodes| && s.nodes[n].recheck.Some?
    case ResetDealed(n) => n < |s.nodes|
    case ExpireRecorded(n) => n < |s.nodes|
    case Advance(_) => true
    case Crash(n) => n < |s.nodes|
  }

  function WithPc(v: Node, k: nat, pc: Pc): Node
    requires k < |v.threads|
  {
    v.(threads := v.threads[k := pc])
  }

  /** The orders that a node holds for recheck: the queue and the one that was popped. */
  function Held(v: Node): multiset<Txid> {
    multiset(v.queue) + if v.recheck.Some? then multiset{v.recheck.value} else multiset{}
  }

  /** A restarted process: empty maps and queues, no goroutine under way. */
  function Restarted(v: Node): Node {
    v.(threads := seq(|v.threads|, _ => Idle), dealed := {}, queue := [], recheck := None, recorded := map[],
       resets := v.resets + 1, records := {})
  }

  /** What a node does to itself. */
  function NodeStep(s: State, a: Step): Node
    requires Enabled(s, a) && !a.Advance?
  {
    var v := s.nodes[a.n];
    match a
    case Arrive(_, k, path, x) => WithPc(v, k, Fresh(Order(path, x, Event)))
    case ArriveFromRecord(_, k, path, x) => WithPc(v, k, Fresh(Order(path, x, ErrorRecord(s.now, v.records))))
    case GiveUp(_, k) => WithPc(v, k, Idle)
    case Check(_, k) =>
      var o := v.threads[k].o;
      var (dealed, first) := CheckDealt(v.dealed, o.x);
      WithPc(v, k, if first then Checked(o) else Idle).(dealed := dealed)
    case Store(_, k, fault) =>
      var o := v.threads[k].o;
      WithPc(v, k, if Inserted(s.table, o.x, fault).1 || !NonEvm(o.path) then Stored(o) else Idle)
    case Attempt(_, k, ok) =>
      var o := v.threads[k].o;
      WithPc(v, k, if !ok || o.path.UnwrapCenter? then Idle else if o.path.UnwrapSmpc? then Signing(o) else Sent(o))
      .(attempts := v.attempts + multiset{o.x},
        errorSends := if o.origin.ErrorRecord? then v.errorSends + {o} else v.errorSends)
    case Collect(_, k, ok) => WithPc(v, k, if ok then Signed(v.threads[k].o) else Idle)
    case Push(_, k) => WithPc(v, k, Idle).(queue := v.queue + [v.threads[k].o.x])
    case Record(_, k) =>
      var x := v.threads[k].o.x;
      WithPc(v, k, Idle).(recorded := v.recorded[x := s.now], records := v.records + {(x, s.now)})
    case Pop(_) => v.(queue := v.queue[1..], recheck := Some(v.queue[0]))
    case Judge(_, verdict, _) =>
      v.(recheck := None, queue := if verdict.TryLater? then v.queue + [v.recheck.value] else v.queue)
    case ResetDealed(_) => v.(dealed := {}, resets := v.resets + 1)
    case ExpireRecorded(_) => v.(recorded := Unexpired(v.recorded, s.now))
    case Crash(_) => Restarted(v)
  }

  function TableStep(s: State, a: Step): set<Txid>
    requires Enabled(s, a)
  {
    match a
    case Store(n, k, fault) => Inserted(s.table, s.nodes[n].threads[k].o.x, fault).0
    case Judge(n, Conflicting, fault) => Deleted(s.table, s.nodes[n].recheck.value, fault)
    case _ => s.table
  }

  function HistoryStep(s: State, a: Step): History
    requires Enabled(s, a) && !a.Advance?
  {
    var h, v := s.history, s.nodes[a.n];
    match a
    case Store(_, k, _) =>
      h.(inserts := if TableStep(s, a) == s.table then h.inserts else h.inserts + multiset{v.threads[k].o.x})
    case Attempt(_, k, _) =>
      h.(signs := if NonEvm(v.threads[k].o.path) then h.signs + multiset{v.threads[k].o.x} else h.signs)
    case Collect(_, k, _) => h.(finals := h.finals + multiset{v.threads[k].o.x})
    case Push(_, k) => h.(pushes := h.pushes + multiset{v.threads[k].o.x})
    case Judge(_, Conflicting, fault) =>
      if fault.Refused? then h.(lost := h.lost + multiset{v.recheck.value})
      else h.(moves := h.moves + multiset{v.recheck.value})
    case Judge(_, Landed, _) => h.(landed := h.landed + multiset{v.recheck.value})
    case Crash(_) => h.(lost := h.lost + Held(v))
    case _ => h
  }

  function Next(s: State, a: Step): State
    requires Enabled(s, a)
  {
    if a.Advance? then s.(now := s.now + a.seconds)
    else State(s.now, TableStep(s, a), s.nodes[a.n := NodeStep(s, a)], HistoryStep(s, a))
  }

  predicate RunEnabled(s: State, run: seq<Step>)
    decreases |run|
  {
    run == [] || (Enabled(s, run[0]) && RunEnabled(Next(s, run[0]), run[1..]))
  }

  function Run(s: State, run: seq<Step>): State
    requires RunEnabled(s, run)
    decreases |run|
  {
    if run == [] then s else Run(Next(s, run[0]), run[1..])
  }

  /** All processes have just started on an empty table. */
  predicate Initial(s: State) {
    && s.table == {}
    && s.history == History(multiset{}, multiset{}, multiset{}, multiset{}, multiset{}, multiset{}, multiset{})
    && forall n :: 0 <= n < |s.nodes| ==> InitialNode(s.nodes[n])
  }

  predicate InitialNode(v: Node) {
    && (forall k :: 0 <= k < |v.threads| ==> v.threads[k].Idle?)
    && v.dealed == {} && v.queue == [] && v.recheck == None && v.recorded == map[]
    && v.resets == 0 && v.attempts == multiset{} && v.records == {} && v.errorSends == {}
  }
}
