/** Keeping the first valid request of each key, as a loop with a set of accepted keys does
    (server/accept.go), whatever makes a request valid. */
module Ballots {
  /** Which requests count, and what identifies a vote. */
  datatype Rule<!R> = Rule(valid: R -> bool, key: R -> string)

  function Keys<R>(rule: Rule<R>, calls: seq<R>): set<string> {
    if calls == [] then {} else Keys(rule, calls[..|calls| - 1]) + {rule.key(calls[|calls| - 1])}
  }

  /** The first valid request of each key, in the order in which they were seen. */
  function Firsts<R>(rule: Rule<R>, seen: seq<R>): seq<R> {
    if seen == [] then []
    else
      var votes, q := Firsts(rule, seen[..|seen| - 1]), seen[|seen| - 1];
      if rule.valid(q) && rule.key(q) !in Keys(rule, votes) then votes + [q] else votes
  }

  lemma KeysAppended<R>(rule: Rule<R>, calls: seq<R>, q: R)
    ensures Keys(rule, calls + [q]) == Keys(rule, calls) + {rule.key(q)}
  {
    assert (calls + [q])[..|calls|] == calls;
  }

  lemma {:induction false} KeyIffCalled<R>(rule: Rule<R>, calls: seq<R>, key: string)
    ensures key in Keys(rule, calls) <==> exists i :: 0 <= i < |calls| && rule.key(calls[i]) == key
  {
    if calls != [] {
      var front := calls[..|calls| - 1];
      KeyIffCalled(rule, front, key);
      assert forall i :: 0 <= i < |front| ==> front[i] == calls[i];
    }
  }

  /** Request i is the first valid one of its key. */
  predicate FirstOfKey<R>(rule: Rule<R>, seen: seq<R>, i: nat)
    requires i < |seen|
  {
    rule.valid(seen[i]) && forall k :: 0 <= k < i && rule.valid(seen[k]) ==> rule.key(seen[k]) != rule.key(seen[i])
  }

  lemma FirstInFront<R>(rule: Rule<R>, seen: seq<R>, i: nat)
    requires i < |seen| - 1
    ensures FirstOfKey(rule, seen[..|seen| - 1], i) <==> FirstOfKey(rule, seen, i)
  {
    var front := seen[..|seen| - 1];
    assert forall k :: 0 <= k <= i ==> front[k] == seen[k];
  }

  /** A key is taken exactly when a valid request with it was seen. */
  lemma {:induction false} KeyTakenIff<R>(rule: Rule<R>, seen: seq<R>, key: string)
    ensures key in Keys(rule, Firsts(rule, seen))
            <==> exists i :: 0 <= i < |seen| && rule.valid(seen[i]) && rule.key(seen[i]) == key
  {
    if seen != [] {
      var front, q := seen[..|seen| - 1], seen[|seen| - 1];
      KeyTakenIff(rule, front, key);
      KeysAppended(rule, Firsts(rule, front), q);
      assert forall i :: 0 <= i < |front| ==> front[i] == seen[i];
    }
  }

  lemma LastIsFirstIff<R>(rule: Rule<R>, seen: seq<R>)
    requires seen != []
    ensures var votes, q := Firsts(rule, seen[..|seen| - 1]), seen[|seen| - 1];
            FirstOfKey(rule, seen, |seen| - 1) <==> rule.valid(q) && rule.key(q) !in Keys(rule, votes)
  {
    var front, q := seen[..|seen| - 1], seen[|seen| - 1];
    KeyTakenIff(rule, front, rule.key(q));
    assert forall k :: 0 <= k < |front| ==> front[k] == seen[k];
  }

  /** q stands somewhere as the first valid request of its key. */
  ghost predicate IsAFirst<R>(rule: Rule<R>, seen: seq<R>, q: R) {
    exists i :: 0 <= i < |seen| && FirstOfKey(rule, seen, i) && seen[i] == q
  }

  lemma FirstsGrow<R>(rule: Rule<R>, seen: seq<R>, q: R)
    requires seen != []
    ensures IsAFirst(rule, seen, q) <==>
              IsAFirst(rule, seen[..|seen| - 1], q) || (FirstOfKey(rule, seen, |seen| - 1) && seen[|seen| - 1] == q)
  {
    var front, last := seen[..|seen| - 1], |seen| - 1;
    if IsAFirst(rule, front, q) {
      var i :| 0 <= i < |front| && FirstOfKey(rule, front, i) && front[i] == q;
      FirstInFront(rule, seen, i);
      assert seen[i] == q;
    }
    if IsAFirst(rule, seen, q) {
      var i :| 0 <= i < |seen| && FirstOfKey(rule, seen, i) && seen[i] == q;
      if i < last {
        FirstInFront(rule, seen, i);
        assert front[i] == q;
      }
    }
  }

  /** The votes are exactly the first valid requests of their keys. */
  lemma {:induction false} VotedIffFirst<R>(rule: Rule<R>, seen: seq<R>, q: R)
    ensures q in Firsts(rule, seen) <==> IsAFirst(rule, seen, q)
  {
    if seen != [] {
      VotedIffFirst(rule, seen[..|seen| - 1], q);
      LastIsFirstIff(rule, seen);
      FirstsGrow(rule, seen, q);
    }
  }

  ghost predicate DistinctKeys<R>(rule: Rule<R>, calls: seq<R>) {
    forall i, j :: 0 <= i < j < |calls| ==> rule.key(calls[i]) != rule.key(calls[j])
  }

  lemma {:induction false} VotesHaveDistinctKeys<R>(rule: Rule<R>, seen: seq<R>)
    ensures DistinctKeys(rule, Firsts(rule, seen))
  {
    if seen != [] {
      var votes, q := Firsts(rule, seen[..|seen| - 1]), seen[|seen| - 1];
      VotesHaveDistinctKeys(rule, seen[..|seen| - 1]);
      KeyIffCalled(rule, votes, rule.key(q));
    }
  }

  // ---------- votes that agree in something else than the key ----------

  ghost predicate DistinctBy<R(!new), T>(pays: R -> T, calls: seq<R>) {
    forall i, j :: 0 <= i < j < |calls| ==> pays(calls[i]) != pays(calls[j])
  }

  /** No two keys ask for the same thing: the first valid requests of two keys differ in it. */
  ghost predicate KeysDiffer<R(!new), T>(rule: Rule<R>, pays: R -> T, seen: seq<R>) {
    forall i, j :: 0 <= i < j < |seen| && FirstOfKey(rule, seen, i) && FirstOfKey(rule, seen, j) ==>
      pays(seen[i]) != pays(seen[j])
  }

  lemma AppendDistinct<R(!new), T>(pays: R -> T, calls: seq<R>, q: R)
    ensures DistinctBy(pays, calls + [q]) <==> DistinctBy(pays, calls) && forall v :: v in calls ==> pays(v) != pays(q)
  {
    var more := calls + [q];
    assert more[|calls|] == q;
    assert forall i :: 0 <= i < |calls| ==> more[i] == calls[i];
    if DistinctBy(pays, more) {
      forall i, j | 0 <= i < j < |calls|
        ensures pays(calls[i]) != pays(calls[j])
      {
        assert pays(more[i]) != pays(more[j]);
      }
    }
  }

  lemma KeysDifferInFront<R(!new), T>(rule: Rule<R>, pays: R -> T, seen: seq<R>)
    requires seen != [] && KeysDiffer(rule, pays, seen)
    ensures KeysDiffer(rule, pays, seen[..|seen| - 1])
  {
    var front := seen[..|seen| - 1];
    forall i, j | 0 <= i < j < |front| && FirstOfKey(rule, front, i) && FirstOfKey(rule, front, j)
      ensures pays(front[i]) != pays(front[j])
    {
      FirstInFront(rule, seen, i);
      FirstInFront(rule, seen, j);
    }
  }

  lemma KeysDifferGrows<R(!new), T>(rule: Rule<R>, pays: R -> T, seen: seq<R>)
    requires seen != []
    ensures var front, q := seen[..|seen| - 1], seen[|seen| - 1];
            KeysDiffer(rule, pays, seen) <==>
              && KeysDiffer(rule, pays, front)
              && (FirstOfKey(rule, seen, |seen| - 1) ==> forall v :: v in Firsts(rule, front) ==> pays(v) != pays(q))
  {
    var front, last := seen[..|seen| - 1], |seen| - 1;
    if KeysDiffer(rule, pays, seen) {
      KeysDifferInFront(rule, pays, seen);
      forall v | v in Firsts(rule, front) && FirstOfKey(rule, seen, last)
        ensures pays(v) != pays(seen[last])
      {
        VotedIffFirst(rule, front, v);
        var i :| 0 <= i < |front| && FirstOfKey(rule, front, i) && front[i] == v;
        FirstInFront(rule, seen, i);
      }
    }
    if KeysDiffer(rule, pays, front)
       && (FirstOfKey(rule, seen, last) ==> forall v :: v in Firsts(rule, front) ==> pays(v) != pays(seen[last])) {
      forall i, j | 0 <= i < j < |seen| && FirstOfKey(rule, seen, i) && FirstOfKey(rule, seen, j)
        ensures pays(seen[i]) != pays(seen[j])
      {
        FirstInFront(rule, seen, i);
        if j < last {
          FirstInFront(rule, seen, j);
          assert pays(front[i]) != pays(front[j]);
        } else {
          assert IsAFirst(rule, front, front[i]);
          VotedIffFirst(rule, front, front[i]);
        }
      }
    }
  }

  /** The votes differ in what they pay for exactly when no two keys ask for the same thing. */
  lemma {:induction false} VotesDifferIff<R(!new), T>(rule: Rule<R>, pays: R -> T, seen: seq<R>)
    ensures DistinctBy(pays, Firsts(rule, seen)) <==> KeysDiffer(rule, pays, seen)
  {
    if seen != [] {
      VotesDifferIff(rule, pays, seen[..|seen| - 1]);
      LastIsFirstIff(rule, seen);
      KeysDifferGrows(rule, pays, seen);
      AppendDistinct(pays, Firsts(rule, seen[..|seen| - 1]), seen[|seen| - 1]);
    }
  }
}
