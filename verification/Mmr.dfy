/**
 Maximal marginal relevance: a greedy selection that trades relevance against
 similarity to what is already selected. Similarity is any function of two keys.
 */
module Mmr {
  import opened Ordering

  datatype Scored = Scored(score: real, key: string)

  type Similarity = (string, string) -> real

  ghost predicate UniqueKeys(items: set<Scored>) {
    forall x, y :: x in items && y in items && x.key == y.key ==> x == y
  }

  predicate DistinctKeys(items: seq<Scored>) {
    forall i, j :: 0 <= i < j < |items| ==> items[i].key != items[j].key
  }

  function Keys(items: seq<Scored>): (keys: seq<string>)
    ensures |keys| == |items|
    ensures forall k :: 0 <= k < |items| ==> keys[k] == items[k].key
  {
    seq(|items|, k requires 0 <= k < |items| => items[k].key)
  }

  // ---- rank of a candidate ----

  function MaxSimilarity(similarity: Similarity, key: string, chosen: seq<string>): real
    requires chosen != []
  {
    var last := similarity(key, chosen[|chosen| - 1]);
    if |chosen| == 1 then last
    else
      var before := MaxSimilarity(similarity, key, chosen[..|chosen| - 1]);
      if before < last then last else before
  }

  /** It is the largest similarity: no selected item is more similar, and one is as similar. */
  lemma {:induction false} MaxSimilarityIs(similarity: Similarity, key: string, chosen: seq<string>)
    requires chosen != []
    ensures var highest := MaxSimilarity(similarity, key, chosen);
            && (forall j :: 0 <= j < |chosen| ==> similarity(key, chosen[j]) <= highest)
            && exists j :: 0 <= j < |chosen| && similarity(key, chosen[j]) == highest
  {
    var n := |chosen| - 1;
    if n > 0 {
      var early := chosen[..n];
      MaxSimilarityIs(similarity, key, early);
      assert forall j :: 0 <= j < n ==> chosen[j] == early[j];
      var j :| 0 <= j < n && similarity(key, early[j]) == MaxSimilarity(similarity, key, early);
      assert similarity(key, chosen[j]) == MaxSimilarity(similarity, key, early);
      assert similarity(key, chosen[n]) == similarity(key, chosen[|chosen| - 1]);
    } else {
      assert similarity(key, chosen[0]) == MaxSimilarity(similarity, key, chosen);
    }
  }

  function Weighted(weight: real, x: real): real { weight * x }

  function TradeOff(lam: real, score: real, similar: real): real {
    Weighted(lam, score) - Weighted(1.0 - lam, similar)
  }

  /** Marginal relevance; with nothing chosen yet it is the plain score. */
  function Marginal(similarity: Similarity, lam: real, chosen: seq<string>, x: Scored): real {
    if chosen == [] then x.score
    else TradeOff(lam, x.score, MaxSimilarity(similarity, x.key, chosen))
  }

  /** Higher marginal relevance first, then higher score, then smaller key. */
  predicate Precedes(similarity: Similarity, lam: real, chosen: seq<string>, x: Scored, y: Scored) {
    var mx, my := Marginal(similarity, lam, chosen, x), Marginal(similarity, lam, chosen, y);
    mx > my || (mx == my && (x.score > y.score || (x.score == y.score && Less(x.key, y.key))))
  }

  /** `x` is less similar than `y` to the selected item `y` is most similar to, and to every other one. */
  ghost predicate LessSimilar(similarity: Similarity, chosen: seq<string>, x: string, y: string) {
    exists j :: 0 <= j < |chosen| &&
      forall k :: 0 <= k < |chosen| ==> similarity(x, chosen[k]) < similarity(y, chosen[j])
  }

  /** With any weight on diversity, of two equally scored items the one less similar to the selection comes first. */
  lemma DiversityWins(similarity: Similarity, lam: real, chosen: seq<string>, x: Scored, y: Scored)
    requires chosen != [] && lam < 1.0 && x.score == y.score && LessSimilar(similarity, chosen, x.key, y.key)
    ensures Precedes(similarity, lam, chosen, x, y)
  {
    var mx, my := MaxSimilarity(similarity, x.key, chosen), MaxSimilarity(similarity, y.key, chosen);
    MaxSimilarityIs(similarity, x.key, chosen);
    MaxSimilarityIs(similarity, y.key, chosen);
    hide MaxSimilarity, TradeOff;
    assert mx < my;
    MoreDiverse(lam, x.score, mx, my);
  }

  /** With any weight on relevance, of two items as similar to everything selected the better scored one comes first. */
  lemma RelevanceWins(similarity: Similarity, lam: real, chosen: seq<string>, x: Scored, y: Scored)
    requires chosen != [] && lam > 0.0 && x.score > y.score
    requires forall k :: 0 <= k < |chosen| ==> similarity(x.key, chosen[k]) == similarity(y.key, chosen[k])
    ensures Precedes(similarity, lam, chosen, x, y)
  {
    var mx, my := MaxSimilarity(similarity, x.key, chosen), MaxSimilarity(similarity, y.key, chosen);
    MaxSimilarityIs(similarity, x.key, chosen);
    MaxSimilarityIs(similarity, y.key, chosen);
    hide MaxSimilarity, TradeOff;
    assert mx == my;
    MoreRelevant(lam, x.score, y.score, mx);
  }

  /** `chosen[j]` is the selected item most similar to `key`. */
  ghost predicate MostSimilar(similarity: Similarity, key: string, chosen: seq<string>, j: nat) {
    j < |chosen| && forall k :: 0 <= k < |chosen| ==> similarity(key, chosen[k]) <= similarity(key, chosen[j])
  }

  /** The order is by weighted score less weighted largest similarity, then by score, then by key. */
  lemma TradeOffDecides(similarity: Similarity, lam: real, chosen: seq<string>, x: Scored, y: Scored, i: nat, j: nat)
    requires MostSimilar(similarity, x.key, chosen, i) && MostSimilar(similarity, y.key, chosen, j)
    ensures var mx := lam * x.score - (1.0 - lam) * similarity(x.key, chosen[i]);
            var my := lam * y.score - (1.0 - lam) * similarity(y.key, chosen[j]);
            Precedes(similarity, lam, chosen, x, y) <==>
            mx > my || (mx == my && (x.score > y.score || (x.score == y.score && Less(x.key, y.key))))
  {
    MostSimilarIs(similarity, x.key, chosen, i);
    MostSimilarIs(similarity, y.key, chosen, j);
    hide MaxSimilarity, Less;
  }

  lemma MostSimilarIs(similarity: Similarity, key: string, chosen: seq<string>, j: nat)
    requires MostSimilar(similarity, key, chosen, j)
    ensures MaxSimilarity(similarity, key, chosen) == similarity(key, chosen[j])
  {
    MaxSimilarityIs(similarity, key, chosen);
    var k :| 0 <= k < |chosen| && similarity(key, chosen[k]) == MaxSimilarity(similarity, key, chosen);
  }

  lemma MoreDiverse(lam: real, score: real, a: real, b: real)
    requires lam < 1.0 && a < b
    ensures TradeOff(lam, score, a) > TradeOff(lam, score, b)
  {
    hide Weighted;
    Scaled(1.0 - lam, a, b);
  }

  lemma MoreRelevant(lam: real, s: real, t: real, similar: real)
    requires lam > 0.0 && s > t
    ensures TradeOff(lam, s, similar) > TradeOff(lam, t, similar)
  {
    hide Weighted;
    Scaled(lam, t, s);
  }

  lemma Scaled(weight: real, a: real, b: real)
    requires weight > 0.0 && a < b
    ensures Weighted(weight, a) < Weighted(weight, b)
  {
    var gap := b - a;
    assert weight * gap > 0.0;
    assert weight * (a + gap) == weight * a + weight * gap;
  }

  lemma PrecedesTotal(similarity: Similarity, lam: real, chosen: seq<string>, x: Scored, y: Scored)
    ensures x == y || Precedes(similarity, lam, chosen, x, y) || Precedes(similarity, lam, chosen, y, x)
    ensures !(Precedes(similarity, lam, chosen, x, y) && Precedes(similarity, lam, chosen, y, x))
  {
    LessTotal(x.key, y.key);
  }

  lemma PrecedesTransitive(similarity: Similarity, lam: real, chosen: seq<string>, x: Scored, y: Scored, z: Scored)
    requires Precedes(similarity, lam, chosen, x, y) && Precedes(similarity, lam, chosen, y, z)
    ensures Precedes(similarity, lam, chosen, x, z)
  {
    if Less(x.key, y.key) && Less(y.key, z.key) {
      LessTransitive(x.key, y.key, z.key);
    }
  }

  /** `b` comes before every other item. */
  ghost predicate IsBest(similarity: Similarity, lam: real, chosen: seq<string>, items: set<Scored>, b: Scored) {
    b in items && forall x :: x in items && x != b ==> Precedes(similarity, lam, chosen, b, x)
  }

  lemma {:induction false} BestExists(similarity: Similarity, lam: real, chosen: seq<string>, items: set<Scored>)
    requires items != {}
    ensures exists b :: IsBest(similarity, lam, chosen, items, b)
    decreases |items|
  {
    hide Precedes;
    var b :| b in items;
    var rest := items - {b};
    if rest == {} {
      assert items == {b};
      assert IsBest(similarity, lam, chosen, items, b);
    } else {
      BestExists(similarity, lam, chosen, rest);
      var r :| IsBest(similarity, lam, chosen, rest, r);
      PrecedesTotal(similarity, lam, chosen, b, r);
      if Precedes(similarity, lam, chosen, b, r) {
        forall x | x in rest && x != r ensures Precedes(similarity, lam, chosen, b, x) {
          PrecedesTransitive(similarity, lam, chosen, b, r, x);
        }
        assert IsBest(similarity, lam, chosen, items, b);
      } else {
        assert IsBest(similarity, lam, chosen, items, r);
      }
    }
  }

  lemma BestUnique(similarity: Similarity, lam: real, chosen: seq<string>, items: set<Scored>, a: Scored, b: Scored)
    requires IsBest(similarity, lam, chosen, items, a) && IsBest(similarity, lam, chosen, items, b)
    ensures a == b
  {
    hide Precedes;
    PrecedesTotal(similarity, lam, chosen, a, b);
  }

  // ---- specification: the greedy choice is a function of the set of candidates ----

  ghost function Best(similarity: Similarity, lam: real, chosen: seq<string>, items: set<Scored>): (b: Scored)
    requires items != {}
    ensures IsBest(similarity, lam, chosen, items, b)
  {
    BestExists(similarity, lam, chosen, items);
    var b :| IsBest(similarity, lam, chosen, items, b);
    b
  }

  /** The next `n` picks from `items` once `chosen` has been selected. */
  ghost function Greedy(similarity: Similarity, lam: real, chosen: seq<string>, items: set<Scored>, n: nat)
    : (picks: seq<Scored>)
    decreases n
  {
    if n == 0 || items == {} then []
    else
      var b := Best(similarity, lam, chosen, items);
      [b] + Greedy(similarity, lam, chosen + [b.key], items - {b}, n - 1)
  }

  lemma GreedyStep(similarity: Similarity, lam: real, chosen: seq<string>, items: set<Scored>, n: nat, b: Scored)
    requires n > 0 && IsBest(similarity, lam, chosen, items, b)
    ensures Greedy(similarity, lam, chosen, items, n) ==
            [b] + Greedy(similarity, lam, chosen + [b.key], items - {b}, n - 1)
  {
    BestUnique(similarity, lam, chosen, items, b, Best(similarity, lam, chosen, items));
  }

  lemma {:induction false} GreedyPicks(
      similarity: Similarity, lam: real, chosen: seq<string>, items: set<Scored>, n: nat)
    requires UniqueKeys(items)
    ensures var picks := Greedy(similarity, lam, chosen, items, n);
            && |picks| == (if n < |items| then n else |items|)
            && DistinctKeys(picks)
            && forall x :: x in picks ==> x in items
    decreases n
  {
    if n > 0 && items != {} {
      var b := Best(similarity, lam, chosen, items);
      GreedyPicks(similarity, lam, chosen + [b.key], items - {b}, n - 1);
      var rest := Greedy(similarity, lam, chosen + [b.key], items - {b}, n - 1);
      forall j | 0 <= j < |rest| ensures rest[j].key != b.key {
        assert rest[j] in rest;
      }
    }
  }

  /** A larger limit only adds picks at the end. */
  lemma {:induction false} GreedyPrefix(
      similarity: Similarity, lam: real, chosen: seq<string>, items: set<Scored>, m: nat, n: nat)
    requires m <= n
    ensures Greedy(similarity, lam, chosen, items, m) <= Greedy(similarity, lam, chosen, items, n)
    decreases m
  {
    if m > 0 && items != {} {
      var b := Best(similarity, lam, chosen, items);
      GreedyPrefix(similarity, lam, chosen + [b.key], items - {b}, m - 1, n - 1);
    }
  }

  predicate ByScore(x: Scored, y: Scored) {
    x.score > y.score || (x.score == y.score && Less(x.key, y.key))
  }

  /** Without a diversity term the picks are the best-scored items in order. */
  lemma {:induction false} PureRelevance(similarity: Similarity, chosen: seq<string>, items: set<Scored>, n: nat)
    ensures var picks := Greedy(similarity, 1.0, chosen, items, n);
            && (forall i, j :: 0 <= i < j < |picks| ==> ByScore(picks[i], picks[j]))
            && (forall i, j :: 0 <= i < j < |picks| ==> picks[i].score >= picks[j].score)
            && (forall x, y :: x in picks && y in items && y !in picks ==> ByScore(x, y) && x.score >= y.score)
            && (forall x :: x in picks ==> x in items)
    decreases n
  {
    if n > 0 && items != {} {
      var b := Best(similarity, 1.0, chosen, items);
      forall x | x in items && x != b ensures ByScore(b, x) {
        assert Precedes(similarity, 1.0, chosen, b, x);
      }
      PureRelevance(similarity, chosen + [b.key], items - {b}, n - 1);
      var rest := Greedy(similarity, 1.0, chosen + [b.key], items - {b}, n - 1);
      assert forall j :: 0 <= j < |rest| ==> rest[j] in rest && ByScore(b, rest[j]);
    }
  }

  // ---- the selection loop ----

  function SetOf(items: seq<Scored>): set<Scored> {
    set x | x in items
  }

  lemma DistinctIsUnique(items: seq<Scored>)
    requires DistinctKeys(items)
    ensures UniqueKeys(SetOf(items)) && |SetOf(items)| == |items|
  {
    if items != [] {
      var n := |items| - 1;
      DistinctIsUnique(items[..n]);
      assert SetOf(items) == SetOf(items[..n]) + {items[n]};
      assert items[n] !in SetOf(items[..n]);
    }
  }

  method MaxSimilarityTo(similarity: Similarity, key: string, chosen: seq<string>) returns (highest: real)
    requires chosen != []
    ensures highest == MaxSimilarity(similarity, key, chosen)
    ensures forall j :: 0 <= j < |chosen| ==> similarity(key, chosen[j]) <= highest
    ensures exists j :: 0 <= j < |chosen| && similarity(key, chosen[j]) == highest
  {
    highest := similarity(key, chosen[0]);
    assert chosen[..1] == [chosen[0]];
    for k := 1 to |chosen|
      invariant highest == MaxSimilarity(similarity, key, chosen[..k])
    {
      var next := similarity(key, chosen[k]);
      assert chosen[..k + 1][..k] == chosen[..k];
      if highest < next {
        highest := next;
      }
    }
    assert chosen[..|chosen|] == chosen;
    MaxSimilarityIs(similarity, key, chosen);
  }

  /** One pass over the remaining items finds the best one. */
  method FindBest(similarity: Similarity, lam: real, chosen: seq<string>, remaining: seq<Scored>)
    returns (best: Scored)
    requires chosen != [] && remaining != []
    ensures IsBest(similarity, lam, chosen, SetOf(remaining), best)
  {
    hide Precedes, Marginal, TradeOff, MaxSimilarity;
    best := remaining[0];
    MarginalIs(similarity, lam, chosen, best);
    var similar := MaxSimilarityTo(similarity, best.key, chosen);
    var bestMarginal := TradeOff(lam, best.score, similar);
    for k := 1 to |remaining|
      invariant best in remaining[..k] && bestMarginal == Marginal(similarity, lam, chosen, best)
      invariant forall j :: 0 <= j < k && remaining[j] != best ==> Precedes(similarity, lam, chosen, best, remaining[j])
    {
      var x := remaining[k];
      similar := MaxSimilarityTo(similarity, x.key, chosen);
      var marginal := TradeOff(lam, x.score, similar);
      MarginalIs(similarity, lam, chosen, x);
      if marginal > bestMarginal ||
         (marginal == bestMarginal && ByScore(x, best))
      {
        PrecedesIs(similarity, lam, chosen, x, best);
        forall j | 0 <= j < k && remaining[j] != best
          ensures Precedes(similarity, lam, chosen, x, remaining[j])
        {
          PrecedesTransitive(similarity, lam, chosen, x, best, remaining[j]);
        }
        best, bestMarginal := x, marginal;
      } else {
        PrecedesIs(similarity, lam, chosen, x, best);
        PrecedesTotal(similarity, lam, chosen, x, best);
      }
    }
  }

  lemma MarginalIs(similarity: Similarity, lam: real, chosen: seq<string>, x: Scored)
    requires chosen != []
    ensures Marginal(similarity, lam, chosen, x) ==
            TradeOff(lam, x.score, MaxSimilarity(similarity, x.key, chosen))
  {
  }

  lemma PrecedesIs(similarity: Similarity, lam: real, chosen: seq<string>, x: Scored, y: Scored)
    ensures Precedes(similarity, lam, chosen, x, y) <==>
            var mx, my := Marginal(similarity, lam, chosen, x), Marginal(similarity, lam, chosen, y);
            mx > my || (mx == my && ByScore(x, y))
  {
  }

  lemma {:induction false} SortedFirst(similarity: Similarity, lam: real, scored: seq<Scored>)
    requires scored != []
    ensures Sorted(scored, ByScore) != []
    ensures IsBest(similarity, lam, [], SetOf(scored), Sorted(scored, ByScore)[0])
  {
    var x, rest := scored[0], Sorted(scored[1..], ByScore);
    assert SetOf(scored) == {x} + SetOf(scored[1..]);
    if |scored| > 1 {
      SortedFirst(similarity, lam, scored[1..]);
      var h := rest[0];
      PrecedesTotal(similarity, lam, [], x, h);
      if !ByScore(h, x) && x != h {
        forall y | y in SetOf(scored[1..]) && y != h ensures Precedes(similarity, lam, [], x, y) {
          PrecedesTransitive(similarity, lam, [], x, h, y);
        }
      }
    }
  }

  lemma BestIsMember(similarity: Similarity, lam: real, chosen: seq<string>, items: seq<Scored>, b: Scored)
    requires IsBest(similarity, lam, chosen, SetOf(items), b)
    ensures b in items
  {
  }

  /** Drops every item with the key. */
  method Without(items: seq<Scored>, drop: Scored) returns (rest: seq<Scored>)
    requires drop in items
    ensures |rest| < |items| && SetOf(rest) == OtherKeys(SetOf(items), drop.key)
  {
    rest := [];
    for k := 0 to |items|
      invariant |rest| <= k && (drop in items[..k] ==> |rest| < k)
      invariant forall x :: x in rest <==> x in items[..k] && x.key != drop.key
    {
      assert items[..k + 1] == items[..k] + [items[k]];
      if items[k].key != drop.key {
        rest := rest + [items[k]];
      }
    }
    assert items[..|items|] == items;
  }

  function OtherKeys(items: set<Scored>, key: string): set<Scored> {
    set x | x in items && x.key != key
  }

  /** The picks of the loop: every pick also drops whatever shares its key. */
  ghost function Picks(similarity: Similarity, lam: real, chosen: seq<string>, items: set<Scored>, n: nat)
    : (picks: seq<Scored>)
    ensures |picks| <= n && forall x :: x in picks ==> x in items
    decreases n
  {
    if n == 0 || items == {} then []
    else
      var b := Best(similarity, lam, chosen, items);
      [b] + Picks(similarity, lam, chosen + [b.key], OtherKeys(items, b.key), n - 1)
  }

  lemma PicksStep(similarity: Similarity, lam: real, chosen: seq<string>, items: set<Scored>, n: nat, b: Scored)
    requires n > 0 && IsBest(similarity, lam, chosen, items, b)
    ensures Picks(similarity, lam, chosen, items, n) ==
            [b] + Picks(similarity, lam, chosen + [b.key], OtherKeys(items, b.key), n - 1)
  {
    BestUnique(similarity, lam, chosen, items, b, Best(similarity, lam, chosen, items));
  }

  /** When no two items share a key, these are the greedy picks. */
  lemma {:induction false} PicksAreGreedy(
      similarity: Similarity, lam: real, chosen: seq<string>, items: set<Scored>, n: nat)
    requires UniqueKeys(items)
    ensures Picks(similarity, lam, chosen, items, n) == Greedy(similarity, lam, chosen, items, n)
    decreases n
  {
    if n > 0 && items != {} {
      var b := Best(similarity, lam, chosen, items);
      assert OtherKeys(items, b.key) == items - {b};
      PicksAreGreedy(similarity, lam, chosen + [b.key], items - {b}, n - 1);
    }
  }

  /** What is selected: the best-scored item, which leaves equal entries behind, then the picks of the loop. */
  ghost function Selection(scored: seq<Scored>, similarity: Similarity, limit: int, lam: real): (keys: seq<string>)
    ensures |keys| <= if limit < 0 then 0 else limit
    ensures forall key :: key in keys ==> key in Keys(scored)
  {
    if limit <= 0 || scored == [] then []
    else
      SortedInput(similarity, lam, scored);
      var sorted := Sorted(scored, ByScore);
      FirstTaken(scored, sorted);
      var picks := Picks(similarity, lam, [sorted[0].key], SetOf(sorted[1..]), limit - 1);
      KeysFrom(picks, sorted[1..]);
      [sorted[0].key] + Keys(picks)
  }

  lemma SelectionIsGreedy(scored: seq<Scored>, similarity: Similarity, limit: int, lam: real)
    requires DistinctKeys(scored)
    ensures Selection(scored, similarity, limit, lam) ==
            Keys(Greedy(similarity, lam, [], SetOf(scored), if limit < 0 then 0 else limit))
  {
    hide Greedy, Picks, IsBest, Sorted, DistinctKeys, SetOf, ByScore, UniqueKeys;
    if limit > 0 && scored != [] {
      var sorted := Sorted(scored, ByScore);
      SortedInput(similarity, lam, scored);
      var first, rest := sorted[0], sorted[1..];
      FirstTaken(scored, sorted);
      DistinctIsUnique(rest);
      GreedyStep(similarity, lam, [], SetOf(scored), limit, first);
      assert [] + [first.key] == [first.key];
      PicksAreGreedy(similarity, lam, [first.key], SetOf(rest), limit - 1);
      KeysFirst(first, Picks(similarity, lam, [first.key], SetOf(rest), limit - 1));
    } else {
      NoneSelected(scored, similarity, limit, lam);
    }
  }

  lemma KeysFirst(x: Scored, picks: seq<Scored>)
    ensures Keys([x] + picks) == [x.key] + Keys(picks)
  {
  }

  lemma NoneSelected(scored: seq<Scored>, similarity: Similarity, limit: int, lam: real)
    requires limit <= 0 || scored == []
    ensures Keys(Greedy(similarity, lam, [], SetOf(scored), if limit < 0 then 0 else limit)) == []
  {
  }

  /** The greedy loop after the first pick. */
  method SelectRest(similarity: Similarity, lam: real, limit: nat, first: string, rest: seq<Scored>)
    returns (selected: seq<string>)
    requires limit > 0
    ensures selected == [first] + Keys(Picks(similarity, lam, [first], SetOf(rest), limit - 1))
  {
    hide Picks, IsBest, SetOf, OtherKeys;
    var remaining := rest;
    selected := [first];
    ghost var picks := [];
    while remaining != [] && |selected| < limit
      invariant selected == [first] + Keys(picks) && |picks| < limit
      invariant Picks(similarity, lam, [first], SetOf(rest), limit - 1) ==
                picks + Picks(similarity, lam, selected, SetOf(remaining), limit - 1 - |picks|)
      decreases |remaining|
    {
      var best := FindBest(similarity, lam, selected, remaining);
      assert best in remaining by { BestIsMember(similarity, lam, selected, remaining, best); }
      PicksStep(similarity, lam, selected, SetOf(remaining), limit - 1 - |picks|, best);
      remaining := Without(remaining, best);
      selected := selected + [best.key];
      picks := picks + [best];
    }
    PicksEnd(similarity, lam, selected, remaining, limit - 1 - |picks|);
  }

  lemma PicksEnd(similarity: Similarity, lam: real, chosen: seq<string>, remaining: seq<Scored>, n: nat)
    requires remaining == [] || n == 0
    ensures Picks(similarity, lam, chosen, SetOf(remaining), n) == []
  {
  }

  lemma KeysFrom(picks: seq<Scored>, items: seq<Scored>)
    requires forall x :: x in picks ==> x in items
    ensures forall key :: key in Keys(picks) ==> key in Keys(items)
  {
    forall key | key in Keys(picks) ensures key in Keys(items) {
      var k :| 0 <= k < |picks| && Keys(picks)[k] == key;
      assert picks[k] in items;
      var j :| 0 <= j < |items| && items[j] == picks[k];
      assert Keys(items)[j] == key;
    }
  }

  /** The selection; for distinct keys it is the picks of the specification, whatever order the input is in. */
  method Select(scored: seq<Scored>, similarity: Similarity, limit: int, lam: real) returns (selected: seq<string>)
    ensures selected == Selection(scored, similarity, limit, lam)
    ensures DistinctKeys(scored) ==>
              selected == Keys(Greedy(similarity, lam, [], SetOf(scored), if limit < 0 then 0 else limit))
  {
    if DistinctKeys(scored) {
      SelectionIsGreedy(scored, similarity, limit, lam);
    }
    hide Greedy, Sorted, DistinctKeys, SetOf, ByScore, Picks;
    if limit <= 0 || scored == [] {
      return [];
    }
    var remaining := Sorted(scored, ByScore);
    SortedInput(similarity, lam, scored);
    var first := remaining[0];
    selected := SelectRest(similarity, lam, limit, first.key, remaining[1..]);
  }

  lemma FirstTaken(scored: seq<Scored>, sorted: seq<Scored>)
    requires sorted != [] && forall x :: x in sorted ==> x in scored
    ensures sorted[0].key in Keys(scored) && forall key :: key in Keys(sorted[1..]) ==> key in Keys(scored)
    ensures DistinctKeys(sorted) ==> DistinctKeys(sorted[1..]) && SetOf(sorted[1..]) == SetOf(sorted) - {sorted[0]}
  {
    KeysFrom(sorted, scored);
    KeysFrom(sorted[1..], scored);
    assert Keys(sorted)[0] == sorted[0].key;
    assert sorted == [sorted[0]] + sorted[1..];
  }

  /** Sorting keeps the candidates and puts the first pick in front. */
  lemma SortedInput(similarity: Similarity, lam: real, scored: seq<Scored>)
    requires scored != []
    ensures var sorted := Sorted(scored, ByScore);
            && sorted != [] && (forall x :: x in sorted ==> x in scored)
            && (DistinctKeys(scored) ==> DistinctKeys(sorted) && SetOf(sorted) == SetOf(scored))
            && IsBest(similarity, lam, [], SetOf(scored), sorted[0])
  {
    hide IsBest, Sorted, DistinctKeys, SetOf, ByScore;
    SortedKeeps(scored, ByScore);
    SortedMembers(scored, ByScore);
    if DistinctKeys(scored) {
      SameMultiset(scored, Sorted(scored, ByScore));
    }
    SortedFirst(similarity, lam, scored);
  }

  lemma SameMultiset(a: seq<Scored>, b: seq<Scored>)
    requires multiset(a) == multiset(b) && DistinctKeys(a)
    ensures SetOf(a) == SetOf(b) && DistinctKeys(b)
  {
    forall x ensures x in a <==> x in b {
      assert x in a <==> x in multiset(a);
      assert x in b <==> x in multiset(b);
    }
    DistinctIsUnique(a);
    forall i, j | 0 <= i < j < |b| ensures b[i].key != b[j].key {
      assert b[i] in SetOf(a) && b[j] in SetOf(a);
      if b[i] == b[j] {
        assert b == b[..i] + [b[i]] + b[i + 1..j] + [b[j]] + b[j + 1..];
        assert multiset(a)[b[i]] >= 2;
        OccursOnce(a, b[i]);
      }
    }
  }

  lemma {:induction false} OccursOnce(a: seq<Scored>, x: Scored)
    requires DistinctKeys(a)
    ensures multiset(a)[x] <= 1
  {
    if a != [] {
      OccursOnce(a[1..], x);
      assert a == [a[0]] + a[1..];
      if a[0] == x && x in a[1..] {
        assert false;
      }
    }
  }

  // ---- what callers rely on ----

  /** As many distinct input keys as the limit allows. */
  lemma SelectionSize(scored: seq<Scored>, similarity: Similarity, lam: real, limit: nat)
    requires DistinctKeys(scored)
    ensures var picks := Greedy(similarity, lam, [], SetOf(scored), limit);
            && |picks| == (if limit < |scored| then limit else |scored|)
            && DistinctKeys(picks)
            && forall x :: x in picks ==> x in scored
  {
    DistinctIsUnique(scored);
    GreedyPicks(similarity, lam, [], SetOf(scored), limit);
  }

  /** The selection does not depend on the order of the input. */
  lemma OrderIndependent(a: seq<Scored>, b: seq<Scored>, similarity: Similarity, lam: real, limit: nat)
    requires DistinctKeys(a) && multiset(a) == multiset(b)
    ensures Keys(Greedy(similarity, lam, [], SetOf(a), limit)) == Keys(Greedy(similarity, lam, [], SetOf(b), limit))
  {
    SameMultiset(a, b);
  }
}
