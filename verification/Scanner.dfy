/** The block-range scanners (tokens/evm/detect.go with a cap, tokens/txerr.go without). */
module Scanner {
  import opened Outcomes

  /** A contract log; `removed` marks one that a reorganisation took back. */
  datatype Log = Log(id: nat, removed: bool)

  /** The matching logs of each block. */
  type Chain = nat -> seq<Log>

  /** One round: the head height or an error, and whether FilterLogs fails. */
  datatype Round = HeadError | Head(height: nat, filterFails: bool)

  /** What goes into the channel: a handled event, or an error that is only recorded. */
  datatype Item = Handled(log: Log) | Fault

  /** FilterLogs: the logs of the blocks from lo up to but not including hi, in order. */
  function LogsIn(chain: Chain, lo: nat, hi: nat): seq<Log>
    requires lo <= hi
    decreases hi
  {
    if lo == hi then [] else LogsIn(chain, lo, hi - 1) + chain(hi - 1)
  }

  lemma {:induction false} LogsInConcat(chain: Chain, a: nat, b: nat, c: nat)
    requires a <= b <= c
    ensures LogsIn(chain, a, c) == LogsIn(chain, a, b) + LogsIn(chain, b, c)
    decreases c
  {
    if b < c {
      LogsInConcat(chain, a, b, c - 1);
    }
  }

  function Events(out: seq<Item>): seq<Log> {
    if out == [] then []
    else Events(out[..|out| - 1]) + if out[|out| - 1].Handled? then [out[|out| - 1].log] else []
  }

  /** Logs that were not taken back. */
  function Standing(logs: seq<Log>): seq<Log> {
    if logs == [] then []
    else Standing(logs[..|logs| - 1]) + if logs[|logs| - 1].removed then [] else [logs[|logs| - 1]]
  }

  lemma {:induction false} StandingConcat(a: seq<Log>, b: seq<Log>)
    ensures Standing(a + b) == Standing(a) + Standing(b)
    decreases |b|
  {
    if b == [] {
      assert a + b == a;
    } else {
      assert (a + b)[..|a + b| - 1] == a + b[..|b| - 1];
      StandingConcat(a, b[..|b| - 1]);
    }
  }

  /** One log stands unless it was removed; with StandingConcat this says which logs stand, and in which order. */
  lemma StandingOne(log: Log)
    ensures Standing([log]) == if log.removed then [] else [log]
    ensures Standing([]) == []
  {
    assert [log][..0] == [];
  }

  lemma {:induction false} EventsConcat(a: seq<Item>, b: seq<Item>)
    ensures Events(a + b) == Events(a) + Events(b)
    decreases |b|
  {
    if b == [] {
      assert a + b == a;
    } else {
      assert (a + b)[..|a + b| - 1] == a + b[..|b| - 1];
      EventsConcat(a, b[..|b| - 1]);
    }
  }

  lemma EventsOne(log: Log)
    ensures Events([Handled(log)]) == [log] && Events([Fault]) == []
  {
    assert [Handled(log)][..0] == [] && [Fault][..0] == [];
  }

  /** The logs of one block. */
  lemma OneBlock(chain: Chain, b: nat)
    ensures LogsIn(chain, b, b) == [] && LogsIn(chain, b, b + 1) == chain(b)
  {
  }

  /** What the blocks from lo up to hi make a scanner hand on. */
  function Expected(chain: Chain, lo: nat, hi: nat, skipRemoved: bool): seq<Log>
    requires lo <= hi
  {
    if skipRemoved then Standing(LogsIn(chain, lo, hi)) else LogsIn(chain, lo, hi)
  }

  lemma ExpectedConcat(chain: Chain, a: nat, b: nat, c: nat, skipRemoved: bool)
    requires a <= b <= c
    ensures Expected(chain, a, c, skipRemoved) == Expected(chain, a, b, skipRemoved) + Expected(chain, b, c, skipRemoved)
  {
    LogsInConcat(chain, a, b, c);
    StandingConcat(LogsIn(chain, a, b), LogsIn(chain, b, c));
  }

  lemma FaultIsNoEvent(out: seq<Item>)
    ensures Events(out + [Fault]) == Events(out)
  {
    assert (out + [Fault])[..|out|] == out;
  }

  /** The last block of a round: the head, or fewer blocks when the head is more than `cap` away.
      Without a cap it is the head. */
  function ToHeight(from: nat, head: nat, cap: Option<nat>): int
    requires from <= head
  {
    if cap.Some? && head - from > cap.value then from + cap.value - 1 else head
  }

  /** The next block to scan after a round. */
  function NextHeight(from: nat, r: Round, cap: Option<nat>): (next: nat)
    ensures next >= from
  {
    if r.HeadError? || r.height < from || r.filterFails then from else ToHeight(from, r.height, cap) + 1
  }

  /** The next block to scan after n rounds. */
  function NextHeights(from: nat, rounds: nat -> Round, n: nat, cap: Option<nat>): (next: nat)
    ensures next >= from
  {
    if n == 0 then from else NextHeight(NextHeights(from, rounds, n - 1, cap), rounds(n - 1), cap)
  }

  /** Hands the logs of one range on, one by one; the uncapped scanner leaves removed ones out. */
  method HandleLogs(out0: seq<Item>, logs: seq<Log>, skipRemoved: bool) returns (out: seq<Item>)
    ensures Events(out) == Events(out0) + if skipRemoved then Standing(logs) else logs
  {
    out := out0;
    for i := 0 to |logs|
      invariant Events(out) == Events(out0) + if skipRemoved then Standing(logs[..i]) else logs[..i]
    {
      assert logs[..i + 1][..i] == logs[..i];
      if skipRemoved && logs[i].removed {
        continue;
      }
      assert (out + [Handled(logs[i])])[..|out|] == out;
      out := out + [Handled(logs[i])];
    }
    assert logs[..|logs|] == logs;
  }

  /** Both scanners, over any heads (also falling ones) and any failures: after n rounds, the events of
      all blocks in [start, from) have been handed on exactly once and in order, and nothing else. */
  method ScanBlock(chain: Chain, start: nat, rounds: nat -> Round, n: nat, cap: Option<nat>, skipRemoved: bool)
    returns (out: seq<Item>, from: nat)
    ensures from == NextHeights(start, rounds, n, cap)
    ensures Events(out) == Expected(chain, start, from, skipRemoved)
  {
    out, from := [], start;
    for i := 0 to n
      invariant from == NextHeights(start, rounds, i, cap)
      invariant Events(out) == Expected(chain, start, from, skipRemoved)
    {
      var r := rounds(i);
      if r.HeadError? {
        FaultIsNoEvent(out);
        out := out + [Fault];
        continue;
      }
      if r.height < from {
        continue;
      }
      var last: int := r.height;
      if cap.Some? && last - from > cap.value {
        last := from + cap.value - 1;
      }
      if r.filterFails {
        FaultIsNoEvent(out);
        out := out + [Fault];
        continue;
      }
      ExpectedConcat(chain, start, from, last + 1, skipRemoved);
      out := HandleLogs(out, LogsIn(chain, from, last + 1), skipRemoved);
      from := last + 1;
    }
  }

  /** One round: it stays where it is when the head cannot be read or lies behind or the logs cannot be
      had; otherwise it goes past the head, or by the cap when the head is more than the cap away. */
  lemma RoundMeans(from: nat, head: nat, cap: nat)
    ensures NextHeight(from, HeadError, Some(cap)) == NextHeight(from, HeadError, None) == from
    ensures NextHeight(from, Head(head, true), Some(cap)) == NextHeight(from, Head(head, true), None) == from
    ensures head < from ==> NextHeight(from, Head(head, false), Some(cap)) == NextHeight(from, Head(head, false), None) == from
    ensures head >= from ==> NextHeight(from, Head(head, false), None) == head + 1
    ensures from <= head <= from + cap ==> NextHeight(from, Head(head, false), Some(cap)) == head + 1
    ensures head > from + cap ==> NextHeight(from, Head(head, false), Some(cap)) == from + cap
  {
  }

  /** The ranges of the rounds that succeed. */
  function Ranges(start: nat, rounds: nat -> Round, n: nat, cap: Option<nat>): seq<(nat, int)> {
    if n == 0 then []
    else
      var from, r := NextHeights(start, rounds, n - 1, cap), rounds(n - 1);
      Ranges(start, rounds, n - 1, cap)
      + if r.HeadError? || r.height < from || r.filterFails then [] else [(from, ToHeight(from, r.height, cap))]
  }

  /** The ranges are consecutive and together are [start, end): each block lies in exactly one. */
  predicate Tiles(ranges: seq<(nat, int)>, start: nat, end: nat) {
    if ranges == [] then start == end
    else
      var last := ranges[|ranges| - 1];
      last.1 + 1 == end && start <= last.0 <= end && Tiles(ranges[..|ranges| - 1], start, last.0)
  }

  /** Tiles means: a block is in some range if and only if it is in [start, end), and in one only. */
  lemma {:induction false} TilesExactlyOnce(ranges: seq<(nat, int)>, start: nat, end: nat, block: nat)
    requires Tiles(ranges, start, end)
    ensures start <= end
    ensures start <= block < end <==> exists i :: 0 <= i < |ranges| && ranges[i].0 <= block <= ranges[i].1
    ensures forall i, j :: 0 <= i < j < |ranges| && ranges[i].0 <= block <= ranges[i].1
              ==> !(ranges[j].0 <= block <= ranges[j].1)
  {
    if ranges != [] {
      var n := |ranges| - 1;
      var front, last := ranges[..n], ranges[n];
      TilesExactlyOnce(front, start, last.0, block);
      assert forall i :: 0 <= i < n ==> ranges[i] == front[i];
      if exists i :: 0 <= i < |front| && front[i].0 <= block <= front[i].1 {
        var i :| 0 <= i < |front| && front[i].0 <= block <= front[i].1;
        assert ranges[i].0 <= block <= ranges[i].1;
      } else if last.0 <= block <= last.1 {
        assert ranges[n].0 <= block <= ranges[n].1;
      }
    }
  }

  /** Over any run, the successful ranges tile the blocks from start to the next one to scan, and with
      a cap none spans more than cap + 1 blocks. */
  lemma {:induction false} RangesTile(start: nat, rounds: nat -> Round, n: nat, cap: Option<nat>)
    ensures Tiles(Ranges(start, rounds, n, cap), start, NextHeights(start, rounds, n, cap))
    ensures cap.Some? ==> forall i :: 0 <= i < |Ranges(start, rounds, n, cap)| ==>
              Ranges(start, rounds, n, cap)[i].1 - Ranges(start, rounds, n, cap)[i].0 + 1 <= cap.value + 1
  {
    if n > 0 {
      RangesTile(start, rounds, n - 1, cap);
      var before, ranges := Ranges(start, rounds, n - 1, cap), Ranges(start, rounds, n, cap);
      assert ranges != before ==> ranges[..|ranges| - 1] == before;
    }
  }

  // ---------- catching up ----------

  /** Rounds that all succeed at the same head. */
  function Steady(head: nat): nat -> Round {
    _ => Head(head, false)
  }

  /** max(1, ceil(distance / cap)). */
  function RoundsNeeded(distance: nat, cap: nat): nat
    requires cap >= 1
  {
    if distance <= cap then 1 else (distance + cap - 1) / cap
  }

  /** The first round covers a full cap while the head is further away, and then one less is needed. */
  lemma RoundsNeededStep(distance: nat, cap: nat)
    requires distance > cap >= 1
    ensures RoundsNeeded(distance, cap) == 1 + RoundsNeeded(distance - cap, cap)
  {
    if distance - cap <= cap {
      DivUnique(distance + cap - 1, cap, 2);
    } else {
      var q := (distance - 1) / cap;
      DivUnique(distance + cap - 1, cap, q + 1);
    }
  }

  lemma DivUnique(a: nat, b: nat, q: nat)
    requires b >= 1 && q * b <= a < q * b + b
    ensures a / b == q
  {
    var r := a / b;
    assert a == r * b + a % b;
    if r < q {
      MulMonotone(r + 1, q, b);
    } else if r > q {
      MulMonotone(q + 1, r, b);
    }
  }

  lemma MulMonotone(x: nat, y: nat, b: nat)
    requires x <= y
    ensures x * b <= y * b
  {
  }

  /** At a head that stands still, catching up takes exactly max(1, ceil((head - from) / cap)) rounds:
      after that many the scanner is past the head, after fewer it is not. */
  lemma {:induction false} CatchUp(from: nat, head: nat, cap: nat, n: nat)
    requires cap >= 1 && from <= head
    ensures n >= RoundsNeeded(head - from, cap) ==> NextHeights(from, Steady(head), n, Some(cap)) == head + 1
    ensures n < RoundsNeeded(head - from, cap) ==>
              NextHeights(from, Steady(head), n, Some(cap)) == from + n * cap <= head
    decreases n
  {
    AtLeastOne(head - from, cap);
    if n > 0 {
      CatchUp(from, head, cap, n - 1);
      if n - 1 < RoundsNeeded(head - from, cap) {
        LastRound(head - from, cap, n - 1);
        MulStep(n, cap);
      }
    }
  }

  /** Whenever the head can be read it is the same; rounds may fail in either of the two ways. */
  ghost predicate StandsStill(rounds: nat -> Round, head: nat) {
    forall i :: rounds(i).Head? ==> rounds(i).height == head
  }

  /** The rounds among the first n in which nothing fails. */
  function Healthy(rounds: nat -> Round, n: nat): nat {
    if n == 0 then 0
    else Healthy(rounds, n - 1) + if rounds(n - 1).Head? && !rounds(n - 1).filterFails then 1 else 0
  }

  function Min(a: nat, b: nat): nat {
    if a <= b then a else b
  }

  /** Failures only delay: after any rounds the scanner is where as many steady rounds as there were
      healthy ones would have brought it, and it has scanned one range for each that was still needed. */
  lemma {:induction false} FailuresOnlyDelay(from: nat, head: nat, cap: nat, rounds: nat -> Round, n: nat)
    requires cap >= 1 && from <= head && StandsStill(rounds, head)
    ensures NextHeights(from, rounds, n, Some(cap)) == NextHeights(from, Steady(head), Healthy(rounds, n), Some(cap))
    ensures |Ranges(from, rounds, n, Some(cap))| == Min(Healthy(rounds, n), RoundsNeeded(head - from, cap))
  {
    AtLeastOne(head - from, cap);
    if n > 0 {
      FailuresOnlyDelay(from, head, cap, rounds, n - 1);
      CatchUp(from, head, cap, Healthy(rounds, n - 1));
    }
  }

  /** At a head that stands still, and whatever fails in between, the scanner is past the head exactly
      when it has had max(1, ceil((head - from) / cap)) successful rounds, which is exactly when that
      many rounds were healthy. */
  lemma CaughtUpIff(from: nat, head: nat, cap: nat, rounds: nat -> Round, n: nat)
    requires cap >= 1 && from <= head && StandsStill(rounds, head)
    ensures NextHeights(from, rounds, n, Some(cap)) == head + 1
            <==> |Ranges(from, rounds, n, Some(cap))| == RoundsNeeded(head - from, cap)
    ensures NextHeights(from, rounds, n, Some(cap)) == head + 1 <==> Healthy(rounds, n) >= RoundsNeeded(head - from, cap)
    ensures |Ranges(from, rounds, n, Some(cap))| <= RoundsNeeded(head - from, cap)
  {
    FailuresOnlyDelay(from, head, cap, rounds, n);
    CatchUp(from, head, cap, Healthy(rounds, n));
  }

  lemma MulStep(n: nat, cap: nat)
    requires n > 0
    ensures n * cap == (n - 1) * cap + cap
  {
  }

  /** After k full rounds, too few to be done, the rest is within the cap exactly when one more will do. */
  lemma {:induction false} LastRound(distance: nat, cap: nat, k: nat)
    requires cap >= 1 && k < RoundsNeeded(distance, cap)
    ensures k * cap <= distance
    ensures distance - k * cap <= cap <==> k + 1 == RoundsNeeded(distance, cap)
    decreases k
  {
    if distance > cap {
      RoundsNeededStep(distance, cap);
      if k > 0 {
        LastRound(distance - cap, cap, k - 1);
        MulStep(k, cap);
      } else {
        AtLeastOne(distance - cap, cap);
      }
    }
  }

  lemma AtLeastOne(distance: nat, cap: nat)
    requires cap >= 1
    ensures RoundsNeeded(distance, cap) >= 1
    decreases distance
  {
    if distance > cap {
      RoundsNeededStep(distance, cap);
      AtLeastOne(distance - cap, cap);
    }
  }

  /** A round with cap 0 and the head ahead covers an empty range, so the next one starts in the same place. */
  lemma {:induction false} ZeroCapStays(from: nat, head: nat, n: nat)
    requires 0 < from < head
    ensures NextHeights(from, Steady(head), n, Some(0)) == from
  {
    if n > 0 {
      ZeroCapStays(from, head, n - 1);
    }
  }

  /** At a head that stands still the scanner gets past it if and only if the cap is not 0, or nothing
      but the head is left to scan. */
  lemma CatchesUpIff(from: nat, head: nat, cap: nat)
    requires 0 < from <= head
    ensures (exists n: nat :: NextHeights(from, Steady(head), n, Some(cap)) == head + 1) <==> cap >= 1 || from == head
  {
    if cap >= 1 {
      CatchUp(from, head, cap, RoundsNeeded(head - from, cap));
    } else if from == head {
      assert NextHeights(from, Steady(head), 1, Some(cap)) == head + 1;
    } else {
      forall n: nat
        ensures NextHeights(from, Steady(head), n, Some(cap)) == from
      {
        ZeroCapStays(from, head, n);
      }
    }
  }
}
