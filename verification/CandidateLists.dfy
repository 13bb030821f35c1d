/** Lists of candidates: filtering, marking as dropped, prices, and the accounting invariant. */
module CandidateLists {
  import opened Messages
  import opened Segmentation
  import opened Candidates
  import opened Planner

  datatype Reason = Superseded | ForeignConversation | Duplicate | Budget | NotSelected

  datatype Drop = Drop(source: Source, reason: Reason)

  /** Dropped candidates by key: one entry, hence one reason, per key. */
  type Dropped = map<string, Drop>

  type Test = Candidate -> bool

  predicate Distinct(cs: seq<Candidate>) {
    forall i, j :: 0 <= i < j < |cs| ==> cs[i].key != cs[j].key
  }

  function KeySet(cs: seq<Candidate>): set<string> {
    set c | c in cs :: c.key
  }

  /** The candidates that pass the test, in order. */
  function Keep(cs: seq<Candidate>, test: Test): seq<Candidate> {
    if cs == [] then []
    else
      var n := |cs| - 1;
      Keep(cs[..n], test) + (if test(cs[n]) then [cs[n]] else [])
  }

  /** Records every candidate that fails the test under the given reason. */
  function Mark(dropped: Dropped, cs: seq<Candidate>, test: Test, reason: Reason): Dropped {
    if cs == [] then dropped
    else
      var n := |cs| - 1;
      var before := Mark(dropped, cs[..n], test, reason);
      if test(cs[n]) then before else before[cs[n].key := Drop(cs[n].source, reason)]
  }

  function PricesOf(cs: seq<Candidate>): (tokens: seq<nat>)
    ensures |tokens| == |cs| && forall k :: 0 <= k < |cs| ==> tokens[k] == cs[k].tokens
  {
    seq(|cs|, k requires 0 <= k < |cs| => cs[k].tokens)
  }

  function Tokens(cs: seq<Candidate>): nat {
    Sum(PricesOf(cs))
  }

  function Rendered(cs: seq<Candidate>): seq<Message> {
    if cs == [] then [] else Rendered(cs[..|cs| - 1]) + cs[|cs| - 1].render
  }

  // ---- laws of the list functions ----

  lemma {:induction false} KeepConcat(a: seq<Candidate>, b: seq<Candidate>, test: Test)
    ensures Keep(a + b, test) == Keep(a, test) + Keep(b, test)
  {
    if b == [] {
      assert a + b == a;
    } else {
      var n := |b| - 1;
      KeepConcat(a, b[..n], test);
      assert (a + b)[..|a + b| - 1] == a + b[..n];
    }
  }

  lemma {:induction false} KeepAll(cs: seq<Candidate>, test: Test)
    requires forall k :: 0 <= k < |cs| ==> test(cs[k])
    ensures Keep(cs, test) == cs
  {
    if cs != [] { KeepAll(cs[..|cs| - 1], test); }
  }

  lemma {:induction false} KeepNone(cs: seq<Candidate>, test: Test)
    requires forall k :: 0 <= k < |cs| ==> !test(cs[k])
    ensures Keep(cs, test) == []
  {
    if cs != [] { KeepNone(cs[..|cs| - 1], test); }
  }

  /** A filter whose rejects all fail the second test does not affect the second filter. */
  lemma {:induction false} KeepThrough(cs: seq<Candidate>, first: Test, second: Test)
    requires forall k :: 0 <= k < |cs| && second(cs[k]) ==> first(cs[k])
    ensures Keep(Keep(cs, first), second) == Keep(cs, second)
  {
    if cs != [] {
      var n := |cs| - 1;
      KeepThrough(cs[..n], first, second);
      KeepConcat(Keep(cs[..n], first), if first(cs[n]) then [cs[n]] else [], second);
      assert [cs[n]][..0] == [];
    }
  }

  lemma {:induction false} KeepMembers(cs: seq<Candidate>, test: Test)
    ensures forall c :: c in Keep(cs, test) <==> c in cs && test(c)
  {
    if cs != [] {
      var n := |cs| - 1;
      KeepMembers(cs[..n], test);
      assert forall c :: c in cs <==> c in cs[..n] || c == cs[n];
    }
  }

  lemma {:induction false} KeepDistinct(cs: seq<Candidate>, test: Test)
    requires Distinct(cs)
    ensures Distinct(Keep(cs, test))
  {
    if cs != [] {
      var n := |cs| - 1;
      KeepDistinct(cs[..n], test);
      KeepMembers(cs[..n], test);
      forall k | 0 <= k < |Keep(cs[..n], test)| ensures Keep(cs[..n], test)[k].key != cs[n].key {
        assert Keep(cs[..n], test)[k] in cs[..n];
      }
    }
  }

  lemma {:induction false} MarkKeys(dropped: Dropped, cs: seq<Candidate>, test: Test, reason: Reason)
    ensures Mark(dropped, cs, test, reason).Keys == dropped.Keys + (set c | c in cs && !test(c) :: c.key)
  {
    if cs != [] {
      var n := |cs| - 1;
      MarkKeys(dropped, cs[..n], test, reason);
      assert forall c :: c in cs <==> c in cs[..n] || c == cs[n];
    }
  }

  lemma SameKeySameCandidate(cs: seq<Candidate>, a: Candidate, b: Candidate)
    requires Distinct(cs) && a in cs && b in cs && a.key == b.key
    ensures a == b
  {
  }

  lemma DistinctConcat(a: seq<Candidate>, b: seq<Candidate>)
    requires Distinct(a) && Distinct(b) && KeySet(a) !! KeySet(b)
    ensures Distinct(a + b) && KeySet(a + b) == KeySet(a) + KeySet(b)
  {
    assert forall c :: c in a + b <==> c in a || c in b;
    forall i, j | 0 <= i < |a| && 0 <= j < |b| ensures a[i].key != b[j].key {
      assert a[i].key in KeySet(a) && b[j].key in KeySet(b);
    }
  }

  lemma TokensConcat(a: seq<Candidate>, b: seq<Candidate>)
    ensures Tokens(a + b) == Tokens(a) + Tokens(b)
  {
    SumConcat(PricesOf(a), PricesOf(b));
    assert PricesOf(a + b) == PricesOf(a) + PricesOf(b);
  }

  lemma TokensOne(c: Candidate)
    ensures Tokens([c]) == c.tokens
  {
    assert PricesOf([c]) == [c.tokens];
    assert Sum([c.tokens]) == c.tokens + Sum([c.tokens][1..]);
  }

  lemma {:induction false} RenderedConcat(a: seq<Candidate>, b: seq<Candidate>)
    ensures Rendered(a + b) == Rendered(a) + Rendered(b)
  {
    if b == [] {
      assert a + b == a;
    } else {
      var n := |b| - 1;
      RenderedConcat(a, b[..n]);
      assert (a + b)[..|a + b| - 1] == a + b[..n] && (a + b)[|a + b| - 1] == b[n];
      assert (Rendered(a) + Rendered(b[..n])) + b[n].render == Rendered(a) + (Rendered(b[..n]) + b[n].render);
    }
  }

  /** Candidates priced by their rendering cost together what they render together. */
  lemma {:induction false} RenderedCost(cost: Cost, cs: seq<Candidate>)
    requires forall c :: c in cs ==> Priced(cost, c) && !c.source.ToolDefinitions?
    ensures TotalCost(cost, Rendered(cs)) == Tokens(cs)
  {
    if cs != [] {
      var n := |cs| - 1;
      RenderedCost(cost, cs[..n]);
      TotalCostConcat(cost, Rendered(cs[..n]), cs[n].render);
      TokensConcat(cs[..n], [cs[n]]);
      TokensOne(cs[n]);
      assert cs == cs[..n] + [cs[n]];
    }
  }

  // ---- accounting ----

  /** Every key of `all` is held by exactly one live candidate or has exactly one drop entry. */
  ghost predicate Accounts(all: set<string>, live: seq<Candidate>, dropped: Dropped) {
    Distinct(live) && KeySet(live) !! dropped.Keys && KeySet(live) + dropped.Keys == all
  }

  /** Filtering out candidates and recording them keeps the account. */
  lemma FilterAccounts(all: set<string>, cs: seq<Candidate>, dropped: Dropped, test: Test, reason: Reason)
    requires Accounts(all, cs, dropped)
    ensures Accounts(all, Keep(cs, test), Mark(dropped, cs, test, reason))
  {
    KeepMembers(cs, test);
    KeepDistinct(cs, test);
    MarkKeys(dropped, cs, test, reason);
    var live, marked := KeySet(Keep(cs, test)), set c | c in cs && !test(c) :: c.key;
    forall c | c in cs ensures c.key in live || c.key in marked {
      if test(c) { assert c in Keep(cs, test); }
    }
    assert KeySet(cs) == live + marked;
  }
}
