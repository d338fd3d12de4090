/** Choosing inputs from the indexer's pages. The four selectors of the source (two in
    tokens/iotasmr/send.go, two in tokens/smr/send.go) are one loop with different parameters; this
    module states what the loop selects and when it fails although the funds are there. */
module Selection {
  import opened Outcomes
  import opened Ledger

  const MAX_INPUT_COUNT: nat := 128

  /** An output of a page; `live` is false when its metadata query fails or reports it spent. */
  datatype Listed = Listed(utxo: Utxo, live: bool)

  datatype Page = Page(items: seq<Listed>) | BadIds

  /** The answer to one indexer query. */
  datatype Query = Refused | Pages(pages: seq<Page>)

  /** kind: what is collected; cap and need: the break condition is "count >= cap and sum >= need";
      checksMeta: whether each output's metadata is queried. A selector that stops on the count
      alone has need 0. */
  datatype Selector = Selector(kind: Kind, cap: nat, need: nat, checksMeta: bool)

  /** Base-coin selectors skip outputs with native tokens; native-token selectors want exactly one
      token, the right one. */
  predicate Eligible(kind: Kind, o: Output) {
    match kind
    case Base => |o.tokens| == 0
    case Native(id) => |o.tokens| == 1 && o.tokens[0].id == id
  }

  /** The running `sum`: base coins wrap at 2^64, native tokens are big integers. */
  function Measure(kind: Kind, taken: seq<Utxo>): nat {
    if kind.Base? then Wrap(Sum(kind, taken)) else Sum(kind, taken)
  }

  predicate Stops(sel: Selector, taken: seq<Utxo>) {
    |taken| >= sel.cap && Measure(sel.kind, taken) >= sel.need
  }

  /** How a pass over the pages ends, with the inputs taken by then. */
  datatype PassEnd =
    | Finished(taken: seq<Utxo>)
    | Restarted(taken: seq<Utxo>)  // goto GetUtxos
    | Failed(taken: seq<Utxo>)     // the page's ids cannot be read

  function RunPage(sel: Selector, items: seq<Listed>, taken: seq<Utxo>): PassEnd {
    if items == [] then Finished(taken)
    else if !Eligible(sel.kind, items[0].utxo.output) then RunPage(sel, items[1..], taken)
    else if sel.checksMeta && !items[0].live then Restarted(taken)
    else
      var t := taken + [items[0].utxo];
      if Stops(sel, t) then Finished(t) else RunPage(sel, items[1..], t)
  }

  /** The break leaves the page only: the next page is read all the same. */
  function RunPages(sel: Selector, pages: seq<Page>, taken: seq<Utxo>): PassEnd
    decreases |pages|, 0
  {
    if pages == [] then Finished(taken)
    else if pages[0].BadIds? then Failed(taken)
    else AfterPage(sel, RunPage(sel, pages[0].items, taken), pages[1..])
  }

  function AfterPage(sel: Selector, page: PassEnd, rest: seq<Page>): PassEnd
    decreases |rest|, 1
  {
    match page
    case Finished(t) => RunPages(sel, rest, t)
    case _ => page
  }

  // ---------- what is there to select ----------

  function EligibleIn(kind: Kind, items: seq<Listed>): seq<Utxo> {
    if items == [] then []
    else if Eligible(kind, items[0].utxo.output) then [items[0].utxo] + EligibleIn(kind, items[1..])
    else EligibleIn(kind, items[1..])
  }

  function AllEligible(kind: Kind, pages: seq<Page>): seq<Utxo> {
    if pages == [] then []
    else (if pages[0].Page? then EligibleIn(kind, pages[0].items) else []) + AllEligible(kind, pages[1..])
  }

  lemma {:induction false} EligibleInIff(kind: Kind, items: seq<Listed>, u: Utxo)
    ensures u in EligibleIn(kind, items) <==>
              && (exists i :: 0 <= i < |items| && items[i].utxo == u)
              && match kind
                 case Base => u.output.tokens == []
                 case Native(id) => |u.output.tokens| == 1 && u.output.tokens[0].id == id
  {
    if items != [] {
      EligibleInIff(kind, items[1..], u);
      assert forall i :: 1 <= i < |items| ==> items[i] == items[1..][i - 1];
      assert (exists i :: 0 <= i < |items| && items[i].utxo == u)
          <==> items[0].utxo == u || exists i :: 0 <= i < |items[1..]| && items[1..][i].utxo == u;
    }
  }

  /** What can be selected is exactly what some page lists: for base coins the outputs without a token,
      for a token those that hold that one token and no other. */
  lemma {:induction false} AllEligibleIff(kind: Kind, pages: seq<Page>, u: Utxo)
    ensures u in AllEligible(kind, pages) <==>
              && (exists p, i :: 0 <= p < |pages| && pages[p].Page? && 0 <= i < |pages[p].items| && pages[p].items[i].utxo == u)
              && match kind
                 case Base => u.output.tokens == []
                 case Native(id) => |u.output.tokens| == 1 && u.output.tokens[0].id == id
  {
    if pages != [] {
      AllEligibleIff(kind, pages[1..], u);
      if pages[0].Page? {
        EligibleInIff(kind, pages[0].items, u);
      }
      assert forall p :: 1 <= p < |pages| ==> pages[p] == pages[1..][p - 1];
      ListedSomewhere(pages, u);
    }
  }

  ghost predicate ListedOn(pages: seq<Page>, u: Utxo) {
    exists p, i :: 0 <= p < |pages| && pages[p].Page? && 0 <= i < |pages[p].items| && pages[p].items[i].utxo == u
  }

  lemma ListedSomewhere(pages: seq<Page>, u: Utxo)
    requires pages != []
    ensures ListedOn(pages, u) <==>
              || (pages[0].Page? && exists i :: 0 <= i < |pages[0].items| && pages[0].items[i].utxo == u)
              || ListedOn(pages[1..], u)
  {
    if ListedOn(pages[1..], u) {
      var p, i :| 0 <= p < |pages[1..]| && pages[1..][p].Page? && 0 <= i < |pages[1..][p].items|
                  && pages[1..][p].items[i].utxo == u;
      assert pages[p + 1].items[i].utxo == u;
    }
    if p, i :| 0 < p < |pages| && pages[p].Page? && 0 <= i < |pages[p].items| && pages[p].items[i].utxo == u {
      assert pages[1..][p - 1].items[i].utxo == u;
    }
  }

  predicate AllOf(kind: Kind, us: seq<Utxo>) {
    forall i :: 0 <= i < |us| ==> Eligible(kind, us[i].output)
  }

  /** How many of a page's eligible outputs e are taken. */
  function Kept(sel: Selector, e: seq<Utxo>, taken: seq<Utxo>): (k: nat)
    ensures k <= |e|
  {
    if e == [] then 0
    else if Stops(sel, taken + [e[0]]) then 1
    else 1 + Kept(sel, e[1..], taken + [e[0]])
  }

  /** A page that is read to its end or left by the break contributes a prefix of its eligible
      outputs: all of them, or up to the first point where the stop condition holds. */
  lemma {:induction false} PageTakesPrefix(sel: Selector, items: seq<Listed>, taken: seq<Utxo>)
    requires RunPage(sel, items, taken).Finished?
    ensures var e := EligibleIn(sel.kind, items); var k := Kept(sel, e, taken);
            RunPage(sel, items, taken) == Finished(taken + e[..k]) && AllOf(sel.kind, e)
  {
    var e := EligibleIn(sel.kind, items);
    if items == [] {
      assert taken + e[..0] == taken;
    } else if Eligible(sel.kind, items[0].utxo.output) {
      var t := taken + [items[0].utxo];
      assert e[1..] == EligibleIn(sel.kind, items[1..]);
      if Stops(sel, t) {
        assert taken + e[..1] == t;
        EligibleOnly(sel.kind, items);
      } else {
        PageTakesPrefix(sel, items[1..], t);
        var k := Kept(sel, e[1..], t);
        assert taken + e[..k + 1] == t + e[1..][..k];
      }
    } else {
      PageTakesPrefix(sel, items[1..], taken);
    }
  }

  lemma {:induction false} EligibleOnly(kind: Kind, items: seq<Listed>)
    ensures AllOf(kind, EligibleIn(kind, items))
  {
    if items != [] {
      EligibleOnly(kind, items[1..]);
    }
  }

  /** A prefix that leaves something behind has met the stop condition. */
  lemma {:induction false} CutMeansStopped(sel: Selector, e: seq<Utxo>, taken: seq<Utxo>)
    ensures Kept(sel, e, taken) < |e| ==> Stops(sel, taken + e[..Kept(sel, e, taken)])
  {
    if e != [] {
      var t := taken + [e[0]];
      assert taken + e[..1] == t;
      if !Stops(sel, t) {
        CutMeansStopped(sel, e[1..], t);
        var k := Kept(sel, e[1..], t);
        assert taken + e[..k + 1] == t + e[1..][..k];
      }
    }
  }

  // ---------- how a pass ends, and what it takes ----------

  /** u is listed; and listed live, if the metadata is asked for. */
  ghost predicate TakenFrom(sel: Selector, items: seq<Listed>, u: Utxo) {
    exists live :: (sel.checksMeta ==> live) && Listed(u, live) in items
  }

  lemma TakenLater(sel: Selector, items: seq<Listed>, u: Utxo)
    requires items != []
    ensures TakenFrom(sel, items[1..], u) ==> TakenFrom(sel, items, u)
  {
    assert forall x :: x in items[1..] ==> x in items;
  }

  /** A page adds to what was taken; a selector that asks for metadata takes live outputs only, and
      leaves the page early only for an eligible output that is not live. */
  lemma {:induction false} PageMeans(sel: Selector, items: seq<Listed>, taken: seq<Utxo>)
    ensures var page := RunPage(sel, items, taken);
            && !page.Failed? && taken <= page.taken
            && (forall k :: |taken| <= k < |page.taken| ==> TakenFrom(sel, items, page.taken[k]))
            && (page.Restarted? ==> sel.checksMeta && HasDead(sel.kind, items))
  {
    if items != [] {
      var page, t := RunPage(sel, items, taken), taken + [items[0].utxo];
      var next := if Eligible(sel.kind, items[0].utxo.output) then t else taken;
      PageMeans(sel, items[1..], next);
      DeadLater(sel.kind, items);
      assert items[0] == Listed(items[0].utxo, items[0].live) && items[0] in items;
      forall k | |taken| <= k < |page.taken|
        ensures TakenFrom(sel, items, page.taken[k])
      {
        TakenLater(sel, items, page.taken[k]);
      }
    }
  }

  /** Some output that could be selected is reported spent, or its metadata cannot be had. */
  ghost predicate HasDead(kind: Kind, items: seq<Listed>) {
    exists i :: 0 <= i < |items| && !items[i].live && Eligible(kind, items[i].utxo.output)
  }

  lemma DeadLater(kind: Kind, items: seq<Listed>)
    requires items != []
    ensures HasDead(kind, items[1..]) ==> HasDead(kind, items)
  {
    if i :| 0 <= i < |items[1..]| && !items[1..][i].live && Eligible(kind, items[1..][i].utxo.output) {
      assert items[i + 1] == items[1..][i];
    }
  }

  lemma {:induction false} LivePageFinishes(sel: Selector, items: seq<Listed>, taken: seq<Utxo>)
    requires !sel.checksMeta || !HasDead(sel.kind, items)
    ensures RunPage(sel, items, taken).Finished?
  {
    if items != [] {
      DeadLater(sel.kind, items);
      assert sel.checksMeta && Eligible(sel.kind, items[0].utxo.output) ==> items[0].live;
      LivePageFinishes(sel, items[1..], taken);
      LivePageFinishes(sel, items[1..], taken + [items[0].utxo]);
    }
  }

  /** A pass fails only for a page whose ids cannot be read, and restarts only for a dead output. */
  lemma {:induction false} PassEndings(sel: Selector, pages: seq<Page>, taken: seq<Utxo>)
    ensures var pass := RunPages(sel, pages, taken);
            && (pass.Finished? ==> forall p :: 0 <= p < |pages| ==> pages[p].Page?)
            && (pass.Failed? ==> exists p :: 0 <= p < |pages| && pages[p].BadIds?)
            && (pass.Restarted? ==>
                  sel.checksMeta && exists p :: 0 <= p < |pages| && pages[p].Page? && HasDead(sel.kind, pages[p].items))
  {
    if pages != [] && pages[0].Page? {
      var page := RunPage(sel, pages[0].items, taken);
      PageMeans(sel, pages[0].items, taken);
      if page.Finished? {
        PassEndings(sel, pages[1..], page.taken);
        assert forall p :: 1 <= p < |pages| ==> pages[p] == pages[1..][p - 1];
        assert forall p :: 0 <= p < |pages[1..]| ==> pages[1..][p] == pages[p + 1];
      }
    }
  }

  /** And if there is neither, it ends. */
  lemma {:induction false} CleanPassFinishes(sel: Selector, pages: seq<Page>, taken: seq<Utxo>)
    requires forall p :: 0 <= p < |pages| ==> pages[p].Page? && (sel.checksMeta ==> !HasDead(sel.kind, pages[p].items))
    ensures RunPages(sel, pages, taken).Finished?
  {
    if pages != [] {
      LivePageFinishes(sel, pages[0].items, taken);
      CleanPassFinishes(sel, pages[1..], RunPage(sel, pages[0].items, taken).taken);
    }
  }

  /** Whatever a pass takes, however it ends, was listed; with metadata queries it was listed live. */
  lemma {:induction false} PassTakesListed(sel: Selector, pages: seq<Page>, taken: seq<Utxo>, k: nat)
    requires |taken| <= k < |RunPages(sel, pages, taken).taken|
    ensures exists p :: 0 <= p < |pages| && pages[p].Page? && TakenFrom(sel, pages[p].items, RunPages(sel, pages, taken).taken[k])
  {
    var page := RunPage(sel, pages[0].items, taken);
    PageMeans(sel, pages[0].items, taken);
    if k < |page.taken| {
      if page.Finished? {
        PassGoesOn(sel, pages[1..], page.taken);
      }
      assert RunPages(sel, pages, taken).taken[k] == page.taken[k];
    } else {
      PassTakesListed(sel, pages[1..], page.taken, k);
      var p :| 0 <= p < |pages[1..]| && pages[1..][p].Page?
               && TakenFrom(sel, pages[1..][p].items, RunPages(sel, pages, taken).taken[k]);
      assert pages[p + 1] == pages[1..][p];
    }
  }

  lemma {:induction false} PassGoesOn(sel: Selector, pages: seq<Page>, taken: seq<Utxo>)
    ensures taken <= RunPages(sel, pages, taken).taken
  {
    if pages != [] && pages[0].Page? {
      PageMeans(sel, pages[0].items, taken);
      PassGoesOn(sel, pages[1..], RunPage(sel, pages[0].items, taken).taken);
    }
  }

  // ---------- completeness of the count-and-sum selectors ----------

  /** No total of the selector's currency reaches 2^64 (the base-coin supply does not). */
  predicate Fits(kind: Kind, total: nat) {
    kind.Base? ==> total < U64
  }

  lemma Regroup(taken: seq<Utxo>, e: seq<Utxo>, k: nat, later: seq<Utxo>)
    requires k <= |e|
    ensures taken + (e + later) == (taken + e[..k]) + (e[k..] + later)
  {
  }

  /** One page: what is taken from it, what stays behind, and what that means for the sums. */
  lemma PageStep(sel: Selector, pages: seq<Page>, taken: seq<Utxo>) returns (t: seq<Utxo>, behind: seq<Utxo>)
    requires pages != [] && RunPages(sel, pages, taken).Finished?
    ensures var e := EligibleIn(sel.kind, pages[0].items); var k := Kept(sel, e, taken);
            t == taken + e[..k] && behind == e[k..] && AllOf(sel.kind, e)
    ensures RunPages(sel, pages, taken) == RunPages(sel, pages[1..], t)
    ensures taken + AllEligible(sel.kind, pages) == t + (behind + AllEligible(sel.kind, pages[1..]))
    ensures Sum(sel.kind, taken + AllEligible(sel.kind, pages))
         == Sum(sel.kind, t + AllEligible(sel.kind, pages[1..])) + Sum(sel.kind, behind)
    ensures behind != [] ==> Stops(sel, t)
  {
    var e := EligibleIn(sel.kind, pages[0].items);
    var k := Kept(sel, e, taken);
    t, behind := taken + e[..k], e[k..];
    var later := AllEligible(sel.kind, pages[1..]);
    PageTakesPrefix(sel, pages[0].items, taken);
    CutMeansStopped(sel, e, taken);
    Regroup(taken, e, k, later);
    SumConcat(sel.kind, t, behind + later);
    SumConcat(sel.kind, behind, later);
    SumConcat(sel.kind, t, later);
  }

  /** The selection extends what was taken before, by eligible outputs only, and is worth no more
      than everything there is. */
  lemma {:induction false} NothingInvented(sel: Selector, pages: seq<Page>, taken: seq<Utxo>)
    requires RunPages(sel, pages, taken).Finished?
    ensures var t := RunPages(sel, pages, taken).taken; var all := taken + AllEligible(sel.kind, pages);
            && taken <= t && AllOf(sel.kind, t[|taken|..])
            && |t| <= |all| && Sum(sel.kind, t) <= Sum(sel.kind, all)
  {
    if pages == [] {
      assert taken + AllEligible(sel.kind, pages) == taken;
    } else {
      var t, behind := PageStep(sel, pages, taken);
      var e := EligibleIn(sel.kind, pages[0].items);
      NothingInvented(sel, pages[1..], t);
      Extended(sel.kind, taken, e[..Kept(sel, e, taken)], RunPages(sel, pages[1..], t).taken);
    }
  }

  /** A list that was extended twice by eligible outputs was extended by eligible outputs. */
  lemma Extended(kind: Kind, a: seq<Utxo>, b: seq<Utxo>, final: seq<Utxo>)
    requires a + b <= final && AllOf(kind, b) && AllOf(kind, final[|a + b|..])
    ensures a <= final && AllOf(kind, final[|a|..])
  {
    assert final == (a + b) + final[|a + b|..];
    assert final[|a|..] == b + final[|a + b|..];
  }

  /** A selection that falls short of `need` has left nothing behind. */
  lemma {:induction false} ShortMeansAll(sel: Selector, pages: seq<Page>, taken: seq<Utxo>)
    requires RunPages(sel, pages, taken).Finished?
    requires Fits(sel.kind, Sum(sel.kind, taken + AllEligible(sel.kind, pages)))
    ensures var t := RunPages(sel, pages, taken).taken;
            Sum(sel.kind, t) < sel.need ==> t == taken + AllEligible(sel.kind, pages)
  {
    if pages == [] {
      assert taken + AllEligible(sel.kind, pages) == taken;
    } else {
      var t, behind := PageStep(sel, pages, taken);
      ShortMeansAll(sel, pages[1..], t);
      if behind == [] {
        assert behind + AllEligible(sel.kind, pages[1..]) == AllEligible(sel.kind, pages[1..]);
      } else {
        NothingInvented(sel, pages[1..], t);
        var final := RunPages(sel, pages[1..], t).taken;
        assert final == t + final[|t|..];
        SumConcat(sel.kind, t, final[|t|..]);
        assert Sum(sel.kind, final) >= Sum(sel.kind, t) >= Measure(sel.kind, t) >= sel.need;
      }
    }
  }

  /** A selector that stops on "count reached and sum reached" covers the need if and only if all the
      eligible outputs of all pages together cover it, although it leaves pages early. */
  lemma SelectionIsComplete(sel: Selector, pages: seq<Page>)
    requires RunPages(sel, pages, []).Finished?
    requires Fits(sel.kind, Sum(sel.kind, AllEligible(sel.kind, pages)))
    ensures var t := RunPages(sel, pages, []).taken;
            && Measure(sel.kind, t) == Sum(sel.kind, t)
            && AllOf(sel.kind, t)
            && (Measure(sel.kind, t) >= sel.need <==> Sum(sel.kind, AllEligible(sel.kind, pages)) >= sel.need)
  {
    var e := AllEligible(sel.kind, pages);
    assert [] + e == e;
    NothingInvented(sel, pages, []);
    ShortMeansAll(sel, pages, []);
    var t := RunPages(sel, pages, []).taken;
    assert t[0..] == t;
  }

  /** Up to the cap everything eligible is taken, whatever the need. */
  lemma {:induction false} FewAreAllTaken(sel: Selector, pages: seq<Page>, taken: seq<Utxo>)
    requires RunPages(sel, pages, taken).Finished? && |taken + AllEligible(sel.kind, pages)| <= sel.cap
    ensures RunPages(sel, pages, taken).taken == taken + AllEligible(sel.kind, pages)
  {
    if pages == [] {
      assert taken + AllEligible(sel.kind, pages) == taken;
    } else {
      var t, behind := PageStep(sel, pages, taken);
      var later := AllEligible(sel.kind, pages[1..]);
      assert |t| + |behind| + |later| <= sel.cap;
      FewAreAllTaken(sel, pages[1..], t);
      assert behind + later == later;
    }
  }

  // ---------- how often the cap is kept ----------

  /** Below the cap nothing stops a page; from the cap on it goes on exactly while the need is not met. */
  lemma {:induction false} KeptToCap(sel: Selector, e: seq<Utxo>, taken: seq<Utxo>)
    requires |taken| < sel.cap
    ensures var k := Kept(sel, e, taken);
            if |taken| + |e| < sel.cap then k == |e|
            else |taken| + k >= sel.cap
                 && (|taken| + k == sel.cap <==>
                       |taken| + |e| == sel.cap || Measure(sel.kind, (taken + e)[..sel.cap]) >= sel.need)
  {
    if e != [] {
      var t := taken + [e[0]];
      assert t + e[1..] == taken + e;
      if |t| < sel.cap {
        KeptToCap(sel, e[1..], t);
      } else {
        assert (taken + e)[..sel.cap] == t;
      }
    }
  }

  /** Pages that hold something eligible always bring at least one more input. */
  lemma {:induction false} MoreIsTaken(sel: Selector, pages: seq<Page>, taken: seq<Utxo>)
    requires RunPages(sel, pages, taken).Finished?
    ensures |RunPages(sel, pages, taken).taken| >= |taken|
    ensures |RunPages(sel, pages, taken).taken| == |taken| <==> AllEligible(sel.kind, pages) == []
  {
    if pages != [] {
      var t, _ := PageStep(sel, pages, taken);
      MoreIsTaken(sel, pages[1..], t);
    }
  }

  /** Once a page brings the count to the cap, no later page holds anything eligible. */
  predicate CapEndsPages(kind: Kind, cap: nat, pages: seq<Page>, count: nat) {
    pages == [] ||
    (pages[0].Page? &&
     var c := count + |EligibleIn(kind, pages[0].items)|;
     if c >= cap then AllEligible(kind, pages[1..]) == [] else CapEndsPages(kind, cap, pages[1..], c))
  }

  /** The first page, when it does not reach the cap. */
  lemma BelowCapStep(sel: Selector, pages: seq<Page>, taken: seq<Utxo>)
    requires pages != [] && RunPages(sel, pages, taken).Finished?
    requires |taken| + |EligibleIn(sel.kind, pages[0].items)| < sel.cap
    ensures var t := taken + EligibleIn(sel.kind, pages[0].items);
            && RunPages(sel, pages, taken) == RunPages(sel, pages[1..], t)
            && taken + AllEligible(sel.kind, pages) == t + AllEligible(sel.kind, pages[1..])
  {
    var e := EligibleIn(sel.kind, pages[0].items);
    PageTakesPrefix(sel, pages[0].items, taken);
    KeptToCap(sel, e, taken);
    assert e[..|e|] == e;
  }

  /** The page that reaches the cap: the total stays within it exactly when the page stops there (as it
      ends there, or as the need is met) and nothing eligible follows. */
  lemma AtCapStep(sel: Selector, pages: seq<Page>, taken: seq<Utxo>)
    requires pages != [] && RunPages(sel, pages, taken).Finished? && |taken| < sel.cap
    requires |taken| + |EligibleIn(sel.kind, pages[0].items)| >= sel.cap
    ensures var all := taken + AllEligible(sel.kind, pages);
            |RunPages(sel, pages, taken).taken| <= sel.cap <==>
              && AllEligible(sel.kind, pages[1..]) == []
              && (|all| == sel.cap || Measure(sel.kind, all[..sel.cap]) >= sel.need)
  {
    var e, later := EligibleIn(sel.kind, pages[0].items), AllEligible(sel.kind, pages[1..]);
    var t := taken + e[..Kept(sel, e, taken)];
    PageTakesPrefix(sel, pages[0].items, taken);
    KeptToCap(sel, e, taken);
    MoreIsTaken(sel, pages[1..], t);
    assert (taken + (e + later))[..sel.cap] == (taken + e)[..sel.cap];
  }

  /** A selection keeps to the cap exactly when everything eligible does, or the first `cap` outputs
      meet the need and stand at the end of what the pages hold, up to the rest of their page. */
  lemma {:induction false} WithinCapIff(sel: Selector, pages: seq<Page>, taken: seq<Utxo>)
    requires RunPages(sel, pages, taken).Finished? && |taken| < sel.cap
    ensures var all := taken + AllEligible(sel.kind, pages);
            |RunPages(sel, pages, taken).taken| <= sel.cap <==>
              || |all| <= sel.cap
              || (Measure(sel.kind, all[..sel.cap]) >= sel.need && CapEndsPages(sel.kind, sel.cap, pages, |taken|))
  {
    if pages != [] {
      var e := EligibleIn(sel.kind, pages[0].items);
      if |taken| + |e| < sel.cap {
        BelowCapStep(sel, pages, taken);
        WithinCapIff(sel, pages[1..], taken + e);
      } else {
        AtCapStep(sel, pages, taken);
      }
    }
  }

  // ---------- the count-only selectors ----------

  /** Closed form of the break on the count alone: fill up to the cap, or take one more. */
  lemma {:induction false} KeptByCount(sel: Selector, e: seq<Utxo>, taken: seq<Utxo>)
    requires sel.need == 0 && sel.cap >= 1
    ensures Kept(sel, e, taken) ==
            if |e| == 0 then 0
            else if |taken| >= sel.cap then 1
            else if |e| <= sel.cap - |taken| then |e| else sel.cap - |taken|
  {
    if e != [] && !Stops(sel, taken + [e[0]]) {
      KeptByCount(sel, e[1..], taken + [e[0]]);
    }
  }

  /** After k pages a count-only selector holds at most cap + k - 1 inputs: the break ends one page,
      and every later page adds one more before it breaks again. */
  lemma {:induction false} CountBound(sel: Selector, pages: seq<Page>, taken: seq<Utxo>, before: nat)
    requires sel.need == 0 && sel.cap >= 1
    requires RunPages(sel, pages, taken).Finished?
    requires |taken| <= if before == 0 then 0 else sel.cap + before - 1
    ensures |RunPages(sel, pages, taken).taken|
         <= if before + |pages| == 0 then 0 else sel.cap + before + |pages| - 1
  {
    if pages != [] {
      var e := EligibleIn(sel.kind, pages[0].items);
      PageTakesPrefix(sel, pages[0].items, taken);
      KeptByCount(sel, e, taken);
      CountBound(sel, pages[1..], taken + e[..Kept(sel, e, taken)], before + 1);
    }
  }

  /** Every page fits: with c eligible outputs before it, it brings at most one, or stays within the cap. */
  predicate PagesFit(kind: Kind, cap: nat, pages: seq<Page>, c: nat) {
    pages == [] ||
    (pages[0].Page? &&
     var e := |EligibleIn(kind, pages[0].items)|;
     && (e <= 1 || c + e <= cap)
     && PagesFit(kind, cap, pages[1..], c + e))
  }

  /** A count-only selector takes everything exactly when every page fits. */
  lemma {:induction false} CountOnlyTakesAll(sel: Selector, pages: seq<Page>, taken: seq<Utxo>)
    requires sel.need == 0 && sel.cap >= 1
    requires RunPages(sel, pages, taken).Finished?
    ensures var t := RunPages(sel, pages, taken).taken;
            && |t| <= |taken| + |AllEligible(sel.kind, pages)|
            && (t == taken + AllEligible(sel.kind, pages) <==> PagesFit(sel.kind, sel.cap, pages, |taken|))
  {
    if pages == [] {
      assert taken + AllEligible(sel.kind, pages) == taken;
    } else {
      var e := EligibleIn(sel.kind, pages[0].items);
      var k := Kept(sel, e, taken);
      var t := taken + e[..k];
      PageTakesPrefix(sel, pages[0].items, taken);
      KeptByCount(sel, e, taken);
      CountOnlyTakesAll(sel, pages[1..], t);
      if k == |e| {
        assert e[..k] == e;
        assert taken + AllEligible(sel.kind, pages) == t + AllEligible(sel.kind, pages[1..]);
      }
    }
  }

  /** Every eligible output is worth something (TIP-18 forbids empty native tokens). */
  predicate Positive(kind: Kind, us: seq<Utxo>) {
    forall i :: 0 <= i < |us| ==> Value(kind, us[i].output) > 0
  }

  lemma PositiveParts(kind: Kind, a: seq<Utxo>, b: seq<Utxo>)
    requires Positive(kind, a + b)
    ensures Positive(kind, a) && Positive(kind, b)
  {
    assert forall i :: 0 <= i < |a| ==> (a + b)[i] == a[i];
    assert forall i :: 0 <= i < |b| ==> (a + b)[|a| + i] == b[i];
  }

  /** A list of positive values has a positive sum unless it is empty. */
  lemma PositiveSum(kind: Kind, us: seq<Utxo>)
    requires Positive(kind, us)
    ensures us != [] ==> Sum(kind, us) > 0
  {
    if us != [] {
      assert Outputs(us)[|us| - 1] == us[|us| - 1].output;
    }
  }

  /** A selection is worth everything there is only if it is everything there is. */
  lemma {:induction false} WorthAllMeansAll(sel: Selector, pages: seq<Page>, taken: seq<Utxo>)
    requires RunPages(sel, pages, taken).Finished?
    requires Positive(sel.kind, AllEligible(sel.kind, pages))
    requires Sum(sel.kind, RunPages(sel, pages, taken).taken)
          == Sum(sel.kind, taken + AllEligible(sel.kind, pages))
    ensures RunPages(sel, pages, taken).taken == taken + AllEligible(sel.kind, pages)
  {
    if pages == [] {
      assert taken + AllEligible(sel.kind, pages) == taken;
    } else {
      var t, behind := PageStep(sel, pages, taken);
      var later := AllEligible(sel.kind, pages[1..]);
      PositivePage(sel.kind, pages, Kept(sel, EligibleIn(sel.kind, pages[0].items), taken));
      NothingInvented(sel, pages[1..], t);
      PositiveSum(sel.kind, behind);
      WorthAllMeansAll(sel, pages[1..], t);
      assert behind + later == later;
    }
  }

  /** What a page leaves behind and what later pages hold is positive if everything is. */
  lemma PositivePage(kind: Kind, pages: seq<Page>, k: nat)
    requires pages != [] && pages[0].Page? && k <= |EligibleIn(kind, pages[0].items)|
    requires Positive(kind, AllEligible(kind, pages))
    ensures Positive(kind, EligibleIn(kind, pages[0].items)[k..]) && Positive(kind, AllEligible(kind, pages[1..]))
  {
    var e := EligibleIn(kind, pages[0].items);
    PositiveParts(kind, e, AllEligible(kind, pages[1..]));
    assert e == e[..k] + e[k..];
    PositiveParts(kind, e[..k], e[k..]);
  }

  /** The selection covers the amount exactly when all there is covers it. */
  predicate Serves(kind: Kind, taken: seq<Utxo>, all: seq<Utxo>, amount: nat) {
    Measure(kind, taken) >= amount <==> Sum(kind, all) >= amount
  }

  /** The count-only native-token selector can miss funds that are there. It serves every amount
      exactly when every page fits. */
  lemma CountOnlyCompleteIff(sel: Selector, pages: seq<Page>)
    requires sel.kind.Native? && sel.need == 0 && sel.cap >= 1
    requires RunPages(sel, pages, []).Finished?
    requires Positive(sel.kind, AllEligible(sel.kind, pages))
    ensures (forall amount: nat ::
               Serves(sel.kind, RunPages(sel, pages, []).taken, AllEligible(sel.kind, pages), amount))
            <==> PagesFit(sel.kind, sel.cap, pages, 0)
  {
    var t := RunPages(sel, pages, []).taken;
    var all := AllEligible(sel.kind, pages);
    assert [] + all == all;
    NothingInvented(sel, pages, []);
    CountOnlyTakesAll(sel, pages, []);
    if Sum(sel.kind, t) < Sum(sel.kind, all) {
      assert !Serves(sel.kind, t, all, Sum(sel.kind, all));
    } else {
      WorthAllMeansAll(sel, pages, []);
    }
  }

  /** n outputs that hold one token each. */
  function Coins(id: TokenId, n: nat): seq<Listed> {
    seq(n, i requires 0 <= i < n => Listed(Utxo(i, Basic(1, [NativeToken(id, 1)], None, None, None)), true))
  }

  lemma {:induction false} CoinsAreEligible(id: TokenId, n: nat, m: nat)
    requires m <= n
    ensures |EligibleIn(Native(id), Coins(id, n)[m..])| == n - m
    decreases n - m
  {
    if m < n {
      CoinsAreEligible(id, n, m + 1);
      assert Coins(id, n)[m..][1..] == Coins(id, n)[m + 1..];
    }
  }

  predicate SingleCoins(id: TokenId, us: seq<Utxo>) {
    forall i :: 0 <= i < |us| ==> Value(Native(id), us[i].output) == 1
  }

  lemma {:induction false} CoinsSum(id: TokenId, us: seq<Utxo>)
    requires SingleCoins(id, us)
    ensures Sum(Native(id), us) == |us|
  {
    if us != [] {
      CoinsSum(id, us[..|us| - 1]);
      assert us == us[..|us| - 1] + [us[|us| - 1]];
      SumAppend(Native(id), us[..|us| - 1], us[|us| - 1]);
    }
  }

  lemma {:induction false} CoinsWorth(id: TokenId, items: seq<Listed>)
    requires forall i :: 0 <= i < |items| ==> items[i].utxo.output.tokens == [NativeToken(id, 1)]
    ensures SingleCoins(id, EligibleIn(Native(id), items))
  {
    if items != [] {
      CoinsWorth(id, items[1..]);
      var tokens := items[0].utxo.output.tokens;
      assert tokens[1..] == [];
      assert TokenAmount(tokens, id) == 1;
    }
  }

  /** A page that does not fit: 129 outputs of one token each. 128 are taken, so an amount of 129 is
      refused although it is there. */
  lemma CountOnlyMissesFunds(id: TokenId)
    ensures var sel := Selector(Native(id), MAX_INPUT_COUNT, 0, false);
            var pages := [Page(Coins(id, MAX_INPUT_COUNT + 1))];
            && RunPages(sel, pages, []).Finished?
            && Measure(sel.kind, RunPages(sel, pages, []).taken) == 128
            && Sum(sel.kind, AllEligible(sel.kind, pages)) == 129
  {
    var sel := Selector(Native(id), MAX_INPUT_COUNT, 0, false);
    var items := Coins(id, MAX_INPUT_COUNT + 1);
    var pages := [Page(items)];
    var e := EligibleIn(sel.kind, items);
    NoMetaFinishes(sel, items, []);
    assert items[0..] == items;
    CoinsAreEligible(id, 129, 0);
    PageTakesPrefix(sel, items, []);
    KeptByCount(sel, e, []);
    CoinsWorth(id, items);
    CoinsSum(id, e);
    CoinsSum(id, [] + e[..128]);
    assert AllEligible(sel.kind, pages[1..]) == [];
    assert AllEligible(sel.kind, pages) == e;
  }

  /** Without metadata queries a page is never abandoned. */
  lemma {:induction false} NoMetaFinishes(sel: Selector, items: seq<Listed>, taken: seq<Utxo>)
    requires !sel.checksMeta
    ensures RunPage(sel, items, taken).Finished?
  {
    if items != [] {
      NoMetaFinishes(sel, items[1..], taken);
      NoMetaFinishes(sel, items[1..], taken + [items[0].utxo]);
    }
  }
}
