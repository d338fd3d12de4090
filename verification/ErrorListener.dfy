/** The listener for error records over restarts of its scanner (server/txerrdeal.go, tokens/txerr.go).
    A log whose data has not 96 bytes is reported as an item of Type 0; the listener then stops reading
    and starts a new scan at the head of that moment. `ok` says which logs have 96 bytes. */
module ErrorListener {
  import opened Outcomes
  import opened Scanner

  /** The logs that should be dealt with: not taken back, and of the right size. */
  function Good(logs: seq<Log>, ok: Log -> bool): seq<Log> {
    if logs == [] then []
    else
      var last := logs[|logs| - 1];
      Good(logs[..|logs| - 1], ok) + if !last.removed && ok(last) then [last] else []
  }

  /** What is handed on of the logs of a range, and whether one of them makes the listener stop. */
  datatype Dealt = Dealt(handed: seq<Log>, broke: bool)

  function DealLogs(logs: seq<Log>, ok: Log -> bool): Dealt {
    if logs == [] then Dealt([], false)
    else
      var d, last := DealLogs(logs[..|logs| - 1], ok), logs[|logs| - 1];
      if d.broke || last.removed then d
      else if ok(last) then d.(handed := d.handed + [last])
      else d.(broke := true)
  }

  /** The good logs behind the one that breaks. */
  function Behind(logs: seq<Log>, ok: Log -> bool): seq<Log> {
    if logs == [] || !DealLogs(logs[..|logs| - 1], ok).broke then []
    else
      var last := logs[|logs| - 1];
      Behind(logs[..|logs| - 1], ok) + if !last.removed && ok(last) then [last] else []
  }

  predicate Clean(logs: seq<Log>, ok: Log -> bool) {
    !DealLogs(logs, ok).broke
  }

  /** Every good log stands in front of the break or behind it. */
  lemma {:induction false} SplitAtBreak(logs: seq<Log>, ok: Log -> bool)
    ensures Good(logs, ok) == DealLogs(logs, ok).handed + Behind(logs, ok)
    ensures Clean(logs, ok) ==> Behind(logs, ok) == []
  {
    if logs != [] {
      SplitAtBreak(logs[..|logs| - 1], ok);
    }
  }

  lemma {:induction false} DealConcat(a: seq<Log>, b: seq<Log>, ok: Log -> bool)
    ensures var d, e := DealLogs(a, ok), DealLogs(b, ok);
            DealLogs(a + b, ok) == if d.broke then d else Dealt(d.handed + e.handed, e.broke)
    decreases |b|
  {
    if b == [] {
      assert a + b == a;
    } else {
      assert (a + b)[..|a + b| - 1] == a + b[..|b| - 1];
      DealConcat(a, b[..|b| - 1], ok);
    }
  }

  lemma {:induction false} GoodConcat(a: seq<Log>, b: seq<Log>, ok: Log -> bool)
    ensures Good(a + b, ok) == Good(a, ok) + Good(b, ok)
    decreases |b|
  {
    if b == [] {
      assert a + b == a;
    } else {
      assert (a + b)[..|a + b| - 1] == a + b[..|b| - 1];
      GoodConcat(a, b[..|b| - 1], ok);
    }
  }

  /** A log is good exactly if it was not taken back and has the right size. */
  lemma {:induction false} GoodIff(logs: seq<Log>, ok: Log -> bool, x: Log)
    ensures x in Good(logs, ok) <==> x in logs && !x.removed && ok(x)
  {
    if logs != [] {
      GoodIff(logs[..|logs| - 1], ok, x);
      assert logs == logs[..|logs| - 1] + [logs[|logs| - 1]];
    }
  }

  lemma GoodOne(log: Log, ok: Log -> bool)
    ensures Good([log], ok) == if !log.removed && ok(log) then [log] else []
    ensures DealLogs([log], ok) == Dealt(Good([log], ok), !log.removed && !ok(log))
  {
    assert [log][..0] == [];
  }

  /** The first log of the wrong size that was not taken back ends the range: what stands in front of it
      and is good is handed on. */
  lemma DealMeans(front: seq<Log>, wrong: Log, rest: seq<Log>, ok: Log -> bool)
    requires !wrong.removed && !ok(wrong) && forall x :: x in front ==> x.removed || ok(x)
    ensures DealLogs(front + [wrong] + rest, ok) == Dealt(Good(front, ok), true)
  {
    CleanIff(front, ok);
    SplitAtBreak(front, ok);
    GoodOne(wrong, ok);
    DealConcat(front, [wrong], ok);
    DealConcat(front + [wrong], rest, ok);
  }

  lemma {:induction false} CleanIff(logs: seq<Log>, ok: Log -> bool)
    ensures Clean(logs, ok) <==> forall x :: x in logs ==> x.removed || ok(x)
  {
    if logs != [] {
      var front, last := logs[..|logs| - 1], logs[|logs| - 1];
      CleanIff(front, ok);
      assert logs == front + [last];
    }
  }

  // ---------- one scan ----------

  /** A scan under way, or one that broke in the range [from, to]. */
  datatype Progress = Scanning(handed: seq<Log>, from: nat) | Broken(handed: seq<Log>, from: nat, to: nat)

  /** The blocks of one successful round. */
  function ScanRange(chain: Chain, ok: Log -> bool, handed: seq<Log>, from: nat, head: nat): Progress
    requires from <= head
  {
    var d := DealLogs(LogsIn(chain, from, head + 1), ok);
    if d.broke then Broken(handed + d.handed, from, head) else Scanning(handed + d.handed, head + 1)
  }

  function Scan(chain: Chain, ok: Log -> bool, start: nat, rounds: nat -> Round, n: nat): Progress {
    if n == 0 then Scanning([], start)
    else
      var p, r := Scan(chain, ok, start, rounds, n - 1), rounds(n - 1);
      if p.Broken? || r.HeadError? || r.height < p.from || r.filterFails then p
      else ScanRange(chain, ok, p.handed, p.from, r.height)
  }

  /** The loop over the logs of one range; once the listener has stopped reading, nothing gets through. */
  method HandRange(logs: seq<Log>, ok: Log -> bool, handed0: seq<Log>) returns (handed: seq<Log>, broke: bool)
    ensures handed == handed0 + DealLogs(logs, ok).handed && broke == DealLogs(logs, ok).broke
  {
    handed, broke := handed0, false;
    for i := 0 to |logs|
      invariant handed == handed0 + DealLogs(logs[..i], ok).handed && broke == DealLogs(logs[..i], ok).broke
    {
      assert logs[..i + 1][..i] == logs[..i];
      if broke || logs[i].removed {
        continue;
      }
      if !ok(logs[i]) {
        broke := true;
        continue;
      }
      handed := handed + [logs[i]];
    }
    assert logs[..|logs|] == logs;
  }

  /** The scanner, from its start to the present or to the log that ends it. */
  method ScanErrorRecords(chain: Chain, ok: Log -> bool, start: nat, rounds: nat -> Round, n: nat) returns (p: Progress)
    ensures p == Scan(chain, ok, start, rounds, n)
  {
    var fromHeight: nat, handed: seq<Log> := start, [];
    var broke: Option<nat> := None;
    for i := 0 to n
      invariant Scan(chain, ok, start, rounds, i)
             == if broke.Some? then Broken(handed, fromHeight, broke.value) else Scanning(handed, fromHeight)
    {
      var r := rounds(i);
      if broke.Some? || r.HeadError? || r.height < fromHeight || r.filterFails {
        continue;
      }
      var logs := LogsIn(chain, fromHeight, r.height + 1);
      var stop;
      handed, stop := HandRange(logs, ok, handed);
      if stop {
        broke := Some(r.height);
      } else {
        fromHeight := r.height + 1;
      }
    }
    p := if broke.Some? then Broken(handed, fromHeight, broke.value) else Scanning(handed, fromHeight);
  }

  // ---------- block by block ----------

  /** The good logs of the blocks from lo up to but not including hi. */
  function GoodIn(chain: Chain, ok: Log -> bool, lo: nat, hi: nat): seq<Log>
    requires lo <= hi
    decreases hi
  {
    if lo == hi then [] else GoodIn(chain, ok, lo, hi - 1) + Good(chain(hi - 1), ok)
  }

  ghost predicate CleanIn(chain: Chain, ok: Log -> bool, lo: nat, hi: nat) {
    forall k :: lo <= k < hi ==> Clean(chain(k), ok)
  }

  /** The first block from lo on, and before hi, that is not clean; hi if all are. */
  function BadBlock(chain: Chain, ok: Log -> bool, lo: nat, hi: nat): (b: nat)
    requires lo <= hi
    ensures lo <= b <= hi && CleanIn(chain, ok, lo, b) && (b < hi ==> !Clean(chain(b), ok))
    decreases hi
  {
    if lo == hi then hi
    else
      var b := BadBlock(chain, ok, lo, hi - 1);
      if b < hi - 1 then b else if Clean(chain(hi - 1), ok) then hi else hi - 1
  }

  lemma {:induction false} GoodInConcat(chain: Chain, ok: Log -> bool, a: nat, b: nat, c: nat)
    requires a <= b <= c
    ensures GoodIn(chain, ok, a, c) == GoodIn(chain, ok, a, b) + GoodIn(chain, ok, b, c)
    decreases c
  {
    if b < c {
      GoodInConcat(chain, ok, a, b, c - 1);
    }
  }

  lemma {:induction false} GoodOfBlocks(chain: Chain, ok: Log -> bool, lo: nat, hi: nat)
    requires lo <= hi
    ensures Good(LogsIn(chain, lo, hi), ok) == GoodIn(chain, ok, lo, hi)
    decreases hi
  {
    if lo < hi {
      GoodOfBlocks(chain, ok, lo, hi - 1);
      GoodConcat(LogsIn(chain, lo, hi - 1), chain(hi - 1), ok);
    }
  }

  /** The good logs in front of block b, and of block b those in front of the log that breaks. */
  function UpToBreak(chain: Chain, ok: Log -> bool, lo: nat, b: nat): seq<Log>
    requires lo <= b
  {
    GoodIn(chain, ok, lo, b) + DealLogs(chain(b), ok).handed
  }

  function DealtIn(chain: Chain, ok: Log -> bool, lo: nat, hi: nat): Dealt
    requires lo <= hi
  {
    var b := BadBlock(chain, ok, lo, hi);
    if b == hi then Dealt(GoodIn(chain, ok, lo, hi), false) else Dealt(UpToBreak(chain, ok, lo, b), true)
  }

  lemma DealtInGrows(chain: Chain, ok: Log -> bool, lo: nat, hi: nat)
    requires lo < hi
    ensures var d, e := DealtIn(chain, ok, lo, hi - 1), DealLogs(chain(hi - 1), ok);
            DealtIn(chain, ok, lo, hi) == if d.broke then d else Dealt(d.handed + e.handed, e.broke)
  {
    SplitAtBreak(chain(hi - 1), ok);
    var b := BadBlock(chain, ok, lo, hi - 1);
    assert b == hi - 1 ==> GoodIn(chain, ok, lo, hi) == GoodIn(chain, ok, lo, b) + Good(chain(b), ok);
  }

  /** What is handed on of a range: the good logs of the blocks in front of the first that is not clean,
      and of that block those in front of the log that breaks. */
  lemma {:induction false} RangeBreaks(chain: Chain, ok: Log -> bool, lo: nat, hi: nat)
    requires lo <= hi
    ensures DealLogs(LogsIn(chain, lo, hi), ok) == DealtIn(chain, ok, lo, hi)
    decreases hi
  {
    if lo < hi {
      RangeBreaks(chain, ok, lo, hi - 1);
      DealConcat(LogsIn(chain, lo, hi - 1), chain(hi - 1), ok);
      DealtInGrows(chain, ok, lo, hi);
    }
  }

  /** What a scan has handed on: everything good in the blocks behind it; if it broke, everything good
      in front of the log that broke it, in the first block that is not clean. */
  ghost predicate HandsOn(chain: Chain, ok: Log -> bool, start: nat, p: Progress) {
    start <= p.from && CleanIn(chain, ok, start, p.from) &&
    match p
    case Scanning(handed, from) => handed == GoodIn(chain, ok, start, from)
    case Broken(handed, from, to) =>
      && from <= to
      && var b := BadBlock(chain, ok, start, to + 1);
      && from <= b <= to && handed == UpToBreak(chain, ok, start, b)
  }

  /** Clean blocks in front do not change which block is the first that is not clean. */
  lemma {:induction false} CleanSkips(chain: Chain, ok: Log -> bool, lo: nat, mid: nat, hi: nat)
    requires lo <= mid <= hi && CleanIn(chain, ok, lo, mid)
    ensures BadBlock(chain, ok, lo, hi) == BadBlock(chain, ok, mid, hi)
    decreases hi
  {
    if mid < hi {
      CleanSkips(chain, ok, lo, mid, hi - 1);
    } else {
      assert BadBlock(chain, ok, lo, hi) == hi;
    }
  }

  lemma DealtInConcat(chain: Chain, ok: Log -> bool, lo: nat, mid: nat, hi: nat)
    requires lo <= mid <= hi && CleanIn(chain, ok, lo, mid)
    ensures DealtIn(chain, ok, lo, hi)
         == var d := DealtIn(chain, ok, mid, hi); Dealt(GoodIn(chain, ok, lo, mid) + d.handed, d.broke)
  {
    CleanSkips(chain, ok, lo, mid, hi);
    GoodInConcat(chain, ok, lo, mid, hi);
    UpToBreakConcat(chain, ok, lo, mid, BadBlock(chain, ok, mid, hi));
  }

  lemma UpToBreakConcat(chain: Chain, ok: Log -> bool, lo: nat, mid: nat, b: nat)
    requires lo <= mid <= b
    ensures UpToBreak(chain, ok, lo, b) == GoodIn(chain, ok, lo, mid) + UpToBreak(chain, ok, mid, b)
  {
    GoodInConcat(chain, ok, lo, mid, b);
    Associates(GoodIn(chain, ok, lo, mid), GoodIn(chain, ok, mid, b), DealLogs(chain(b), ok).handed);
  }

  lemma Associates(a: seq<Log>, b: seq<Log>, c: seq<Log>)
    ensures (a + b) + c == a + (b + c)
  {
  }

  lemma RangeHandsOn(chain: Chain, ok: Log -> bool, start: nat, p: Progress, head: nat)
    requires p.Scanning? && HandsOn(chain, ok, start, p) && p.from <= head
    ensures HandsOn(chain, ok, start, ScanRange(chain, ok, p.handed, p.from, head))
  {
    RangeBreaks(chain, ok, p.from, head + 1);
    DealtInConcat(chain, ok, start, p.from, head + 1);
    CleanSkips(chain, ok, start, p.from, head + 1);
  }

  lemma {:induction false} ScanHandsOn(chain: Chain, ok: Log -> bool, start: nat, rounds: nat -> Round, n: nat)
    ensures HandsOn(chain, ok, start, Scan(chain, ok, start, rounds, n))
  {
    if n > 0 {
      ScanHandsOn(chain, ok, start, rounds, n - 1);
      var p, r := Scan(chain, ok, start, rounds, n - 1), rounds(n - 1);
      if p.Scanning? && r.Head? && p.from <= r.height {
        RangeHandsOn(chain, ok, start, p, r.height);
      }
    }
  }

  // ---------- restarts ----------

  /** A scan: the head at which it starts (attempts to learn the head that fail only delay it), and its rounds. */
  datatype Session = Session(start: nat, rounds: nat -> Round, n: nat)

  function ProgressOf(chain: Chain, ok: Log -> bool, s: Session): Progress {
    Scan(chain, ok, s.start, s.rounds, s.n)
  }

  /** Everything that reaches dealTxErrorRecord, over all sessions. */
  function Listened(chain: Chain, ok: Log -> bool, ss: seq<Session>): seq<Log> {
    if ss == [] then [] else ProgressOf(chain, ok, ss[0]).handed + Listened(chain, ok, ss[1..])
  }

  method ListenTxErrorRecord(chain: Chain, ok: Log -> bool, ss: seq<Session>) returns (handed: seq<Log>)
    ensures handed == Listened(chain, ok, ss)
  {
    handed := [];
    for i := 0 to |ss|
      invariant Listened(chain, ok, ss) == handed + Listened(chain, ok, ss[i..])
    {
      ListenedStep(chain, ok, ss, i);
      var p := ScanErrorRecords(chain, ok, ss[i].start, ss[i].rounds, ss[i].n);
      Associates(handed, p.handed, Listened(chain, ok, ss[i + 1..]));
      handed := handed + p.handed;
    }
    assert handed + [] == handed;
  }

  lemma ListenedStep(chain: Chain, ok: Log -> bool, ss: seq<Session>, i: nat)
    requires i < |ss|
    ensures Listened(chain, ok, ss[i..])
         == Scan(chain, ok, ss[i].start, ss[i].rounds, ss[i].n).handed + Listened(chain, ok, ss[i + 1..])
  {
    assert ss[i..][0] == ss[i] && ss[i..][1..] == ss[i + 1..];
  }

  /** The block whose log broke a session. */
  function BrokenAt(chain: Chain, ok: Log -> bool, s: Session): nat
    requires ProgressOf(chain, ok, s).Broken?
  {
    ScanHandsOn(chain, ok, s.start, s.rounds, s.n);
    BadBlock(chain, ok, s.start, ProgressOf(chain, ok, s).to + 1)
  }

  /** A history: every session but the last broke, heads did not go back, and by now the listener has
      come back behind every block that broke it; before that it may have come back in front of it. */
  predicate Restarts(chain: Chain, ok: Log -> bool, ss: seq<Session>) {
    ss != [] &&
    if |ss| == 1 then ProgressOf(chain, ok, ss[0]).Scanning?
    else
      && ProgressOf(chain, ok, ss[0]).Broken?
      && ss[0].start <= ss[1].start
      && (ss[1].start <= BrokenAt(chain, ok, ss[0]) ==> ProgressOf(chain, ok, ss[1]).Broken?)
      && Restarts(chain, ok, ss[1..])
  }

  /** The next block to scan at the end of a history. */
  function EndOf(chain: Chain, ok: Log -> bool, ss: seq<Session>): (end: nat)
    requires Restarts(chain, ok, ss)
    ensures ss[0].start <= end
  {
    ScanHandsOn(chain, ok, ss[0].start, ss[0].rounds, ss[0].n);
    if |ss| == 1 then ProgressOf(chain, ok, ss[0]).from else EndOf(chain, ok, ss[1..])
  }

  /** The good logs of the gap that a break in block b leaves before a scan from `next` on: those behind
      it in its block, and those of the blocks in between. */
  function Gap(chain: Chain, ok: Log -> bool, b: nat, next: nat): seq<Log>
    requires b < next
  {
    Behind(chain(b), ok) + GoodIn(chain, ok, b + 1, next)
  }

  /** All that falls into the gaps of a history. */
  function Lost(chain: Chain, ok: Log -> bool, ss: seq<Session>): seq<Log>
    requires Restarts(chain, ok, ss)
  {
    if |ss| == 1 then []
    else
      var b := BrokenAt(chain, ok, ss[0]);
      (if b < ss[1].start then Gap(chain, ok, b, ss[1].start) else []) + Lost(chain, ok, ss[1..])
  }

  /** All that is handed on by sessions that start in front of the block that broke the one before. */
  function Repeated(chain: Chain, ok: Log -> bool, ss: seq<Session>): seq<Log>
    requires Restarts(chain, ok, ss)
  {
    if |ss| == 1 then []
    else
      (if BrokenAt(chain, ok, ss[0]) < ss[1].start then [] else ProgressOf(chain, ok, ss[1]).handed)
      + Repeated(chain, ok, ss[1..])
  }

  /** The good logs of all blocks, cut at a break and at the restart after it. */
  lemma CutAtGap(chain: Chain, ok: Log -> bool, start: nat, b: nat, next: nat, end: nat)
    requires start <= b < next <= end
    ensures GoodIn(chain, ok, start, end)
         == UpToBreak(chain, ok, start, b) + Gap(chain, ok, b, next) + GoodIn(chain, ok, next, end)
  {
    GoodInConcat(chain, ok, start, next, end);
    assert GoodIn(chain, ok, start, next) == UpToBreak(chain, ok, start, b) + Gap(chain, ok, b, next) by {
      CutAtBreak(chain, ok, start, b, next);
    }
  }

  lemma CutAtBreak(chain: Chain, ok: Log -> bool, start: nat, b: nat, next: nat)
    requires start <= b < next
    ensures GoodIn(chain, ok, start, next) == UpToBreak(chain, ok, start, b) + Gap(chain, ok, b, next)
  {
    GoodInConcat(chain, ok, start, b + 1, next);
    SplitAtBreak(chain(b), ok);
    var front, block := GoodIn(chain, ok, start, b), Good(chain(b), ok);
    assert GoodIn(chain, ok, start, b + 1) == front + block;
  }

  /** One break more: the parts of what there is against the parts that are handed on and lost. */
  lemma OneGapMore(before: seq<Log>, gap: seq<Log>, rest: seq<Log>, repeated: seq<Log>, listened: seq<Log>, lost: seq<Log>)
    requires |rest| + |repeated| == |listened| + |lost| && (lost == [] && repeated == [] ==> listened == rest)
    ensures |before + gap + rest| + |repeated| == |before + listened| + |gap + lost|
    ensures gap + lost == [] && repeated == [] ==> before + listened == before + gap + rest
  {
    if gap + lost == [] {
      assert |gap| == 0 && |lost| == 0;
      assert before + gap == before;
    }
  }

  /** One repetition more: the next session hands on again the end of what this one did. */
  lemma OneRepeatMore(before: seq<Log>, again: seq<Log>, rest: seq<Log>, repeated: seq<Log>, listened: seq<Log>, lost: seq<Log>)
    requires |rest| + |repeated| == |listened| + |lost| && (lost == [] && repeated == [] ==> listened == rest)
    ensures |before + rest| + |again + repeated| == |before + again + listened| + |lost|
    ensures lost == [] && again + repeated == [] ==> before + again + listened == before + rest
  {
    if again + repeated == [] {
      assert |again| == 0 && |repeated| == 0;
      assert before + again == before;
    }
  }

  /** What is handed on, less what is repeated, is what there is, less what fell into the gaps. */
  lemma {:induction false} GapsAndRepeats(chain: Chain, ok: Log -> bool, ss: seq<Session>)
    requires Restarts(chain, ok, ss)
    ensures var all := GoodIn(chain, ok, ss[0].start, EndOf(chain, ok, ss));
            && |all| + |Repeated(chain, ok, ss)| == |Listened(chain, ok, ss)| + |Lost(chain, ok, ss)|
            && (Lost(chain, ok, ss) == [] && Repeated(chain, ok, ss) == [] ==> Listened(chain, ok, ss) == all)
  {
    ScanHandsOn(chain, ok, ss[0].start, ss[0].rounds, ss[0].n);
    if |ss| == 1 {
      assert Listened(chain, ok, ss[1..]) == [];
    } else {
      GapsAndRepeats(chain, ok, ss[1..]);
      var b, next, end := BrokenAt(chain, ok, ss[0]), ss[1].start, EndOf(chain, ok, ss);
      if b < next {
        CutAtGap(chain, ok, ss[0].start, b, next, end);
        OneGapMore(ProgressOf(chain, ok, ss[0]).handed, Gap(chain, ok, b, next), GoodIn(chain, ok, next, end),
                   Repeated(chain, ok, ss[1..]), Listened(chain, ok, ss[1..]), Lost(chain, ok, ss[1..]));
      } else {
        NoWayPast(chain, ok, ss[0], ss[1]);
        GoodInConcat(chain, ok, ss[0].start, next, end);
        OneRepeatMore(GoodIn(chain, ok, ss[0].start, next), ProgressOf(chain, ok, ss[1]).handed,
                      GoodIn(chain, ok, next, end),
                      Repeated(chain, ok, ss[1..]), Listened(chain, ok, ss[1..]), Lost(chain, ok, ss[1..]));
      }
    }
  }

  /** No log twice. */
  ghost predicate NoDuplicates(logs: seq<Log>) {
    forall i, j :: 0 <= i < j < |logs| ==> logs[i] != logs[j]
  }

  lemma DuplicateFound(a: seq<Log>, b: seq<Log>, x: Log)
    requires x in a && x in b
    ensures !NoDuplicates(a + b)
  {
    var i :| 0 <= i < |a| && a[i] == x;
    var j :| 0 <= j < |b| && b[j] == x;
    assert (a + b)[i] == (a + b)[|a| + j];
  }

  lemma DuplicateKept(a: seq<Log>, b: seq<Log>)
    requires !NoDuplicates(b)
    ensures !NoDuplicates(a + b)
  {
    var i, j :| 0 <= i < j < |b| && b[i] == b[j];
    assert (a + b)[|a| + i] == (a + b)[|a| + j];
  }

  lemma {:induction false} RepeatsAreDuplicates(chain: Chain, ok: Log -> bool, ss: seq<Session>)
    requires Restarts(chain, ok, ss) && Repeated(chain, ok, ss) != []
    ensures !NoDuplicates(Listened(chain, ok, ss))
  {
    var h, rest := ProgressOf(chain, ok, ss[0]).handed, Listened(chain, ok, ss[1..]);
    if Repeated(chain, ok, ss[1..]) != [] {
      RepeatsAreDuplicates(chain, ok, ss[1..]);
      DuplicateKept(h, rest);
    } else {
      NoWayPast(chain, ok, ss[0], ss[1]);
      var again := ProgressOf(chain, ok, ss[1]).handed;
      assert again != [] && again[0] in h && rest == again + Listened(chain, ok, ss[1..][1..]);
      assert rest[0] == again[0];
      DuplicateFound(h, rest, again[0]);
    }
  }

  /** Over all restarts, every good error record from the first start to the present was handed on
      exactly once and in order if and only if no gap holds one and no repetition does: behind a log of
      the wrong size nothing good stands in its block, nor in any block before the head at which the
      listener came back; and if it came back in front, nothing good stood in front of that log. */
  lemma CoverageIff(chain: Chain, ok: Log -> bool, ss: seq<Session>)
    requires Restarts(chain, ok, ss)
    requires NoDuplicates(Good(LogsIn(chain, ss[0].start, EndOf(chain, ok, ss)), ok))
    ensures Listened(chain, ok, ss) == Good(LogsIn(chain, ss[0].start, EndOf(chain, ok, ss)), ok)
            <==> Lost(chain, ok, ss) == [] && Repeated(chain, ok, ss) == []
  {
    GapsAndRepeats(chain, ok, ss);
    GoodOfBlocks(chain, ok, ss[0].start, EndOf(chain, ok, ss));
    if Repeated(chain, ok, ss) != [] {
      RepeatsAreDuplicates(chain, ok, ss);
    }
  }

  /** A listener that comes back at or before the block that broke it meets the same log again: it gets
      no further, and what it hands on until then it has handed on before. */
  lemma NoWayPast(chain: Chain, ok: Log -> bool, s: Session, next: Session)
    requires ProgressOf(chain, ok, s).Broken? && s.start <= next.start <= BrokenAt(chain, ok, s)
    ensures var p, b := ProgressOf(chain, ok, next), BrokenAt(chain, ok, s);
            && p.from <= b
            && (p.Broken? ==>
                  && BrokenAt(chain, ok, next) == b
                  && ProgressOf(chain, ok, s).handed == GoodIn(chain, ok, s.start, next.start) + p.handed)
  {
    var b := BrokenAt(chain, ok, s);
    ScanHandsOn(chain, ok, s.start, s.rounds, s.n);
    ScanHandsOn(chain, ok, next.start, next.rounds, next.n);
    UpToBreakConcat(chain, ok, s.start, next.start, b);
    var p := ProgressOf(chain, ok, next);
    if p.Broken? {
      FirstIs(chain, ok, next.start, b, p.to + 1);
    }
  }

  lemma FirstIs(chain: Chain, ok: Log -> bool, lo: nat, b: nat, hi: nat)
    requires lo <= b && lo <= hi && CleanIn(chain, ok, lo, b) && !Clean(chain(b), ok)
    ensures BadBlock(chain, ok, lo, hi) < hi ==> BadBlock(chain, ok, lo, hi) == b
  {
  }

  /** A history that loses a record: the log of block 1 breaks the scan while the head is there; the good
      log of block 2 comes before the listener is back at head 3. */
  lemma RecordLost()
    ensures var broken, good := Log(0, false), Log(1, false);
            var chain: Chain := n => if n == 1 then [broken] else if n == 2 then [good] else [];
            var ok := (l: Log) => l.id == 1;
            var ss := [Session(1, Steady(1), 1), Session(3, Steady(3), 1)];
            && Restarts(chain, ok, ss) && EndOf(chain, ok, ss) == 4
            && Listened(chain, ok, ss) == [] && Good(LogsIn(chain, 1, 4), ok) == [good]
  {
    var broken, good := Log(0, false), Log(1, false);
    var chain: Chain := n => if n == 1 then [broken] else if n == 2 then [good] else [];
    var ok := (l: Log) => l.id == 1;
    var first, second := Session(1, Steady(1), 1), Session(3, Steady(3), 1);
    OneBlock(chain, 1);
    OneBlock(chain, 3);
    assert [broken][..0] == [] && DealLogs([broken], ok) == Dealt([], true);
    assert Scan(chain, ok, 1, Steady(1), 0) == Scanning([], 1) && Scan(chain, ok, 3, Steady(3), 0) == Scanning([], 3);
    assert ProgressOf(chain, ok, first) == Broken([], 1, 1);
    assert ProgressOf(chain, ok, second) == Scanning([], 4);
    assert BadBlock(chain, ok, 1, 2) == 1;
    assert [first, second][1..] == [second] && [second][1..] == [];
    GoodOfBlocks(chain, ok, 1, 4);
    assert Good([good], ok) == [good] by {
      assert [good][..0] == [];
    }
    assert Good([broken], ok) == [] by {
      assert [broken][..0] == [];
    }
    assert GoodIn(chain, ok, 1, 1) == [] && GoodIn(chain, ok, 1, 2) == [] && GoodIn(chain, ok, 1, 3) == [good];
  }
}
