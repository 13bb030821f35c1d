/**
 The context assembly engine: fuse every source into candidates, filter, remove
 duplicates, allocate the token budget tier by tier, and render the plan.
 */
module ContextEngine {
  import opened Messages
  import opened Segmentation
  import opened Candidates
  import opened Planner
  import opened CandidateLists
  import opened Ordering
  import Mmr

  datatype Engine = Engine(
    usable: nat,
    cost: Cost,
    texts: Texts,
    score: Candidate -> real,
    similarity: Mmr.Similarity,
    lam: real,
    maxItems: nat,
    retrievedBudget: nat)

  datatype Inputs = Inputs(
    history: seq<Message>,
    request: seq<Message>,
    tools: Option<nat>,             // price of the tool definitions, when there are any
    pinned: seq<Message>,
    retrieved: seq<RetrievedItem>,
    superseded: set<string>,
    conversation: Option<string>)

  datatype Assembly =
    | Overflow(required: nat, budget: nat)
    | Untrusted(key: string)
    | Ready(messages: seq<Message>, selected: seq<Candidate>, dropped: Dropped, tokens: nat)

  // ---- fusion ----

  function UnitCandidates(texts: Texts, units: seq<Unit>): (cs: seq<Candidate>)
    ensures |cs| == |units| && forall k :: 0 <= k < |units| ==> cs[k] == FromUnit(texts, units[k], k)
  {
    seq(|units|, k requires 0 <= k < |units| => FromUnit(texts, units[k], k))
  }

  function PinnedCandidates(e: Engine, pinned: seq<Message>): (cs: seq<Candidate>)
    ensures |cs| == |pinned| && forall k :: 0 <= k < |pinned| ==> cs[k] == FromPinned(e.texts, e.cost, pinned[k], k)
  {
    seq(|pinned|, k requires 0 <= k < |pinned| => FromPinned(e.texts, e.cost, pinned[k], k))
  }

  function RetrievedCandidates(e: Engine, items: seq<RetrievedItem>): (cs: seq<Candidate>)
    ensures |cs| == |items| && forall k :: 0 <= k < |items| ==> cs[k] == FromRetrieved(e.texts, e.cost, items[k])
  {
    seq(|items|, k requires 0 <= k < |items| => FromRetrieved(e.texts, e.cost, items[k]))
  }

  function RequestCandidates(e: Engine, request: seq<Message>, position: nat): seq<Candidate> {
    if request == [] then [] else [FromRequest(e.texts, e.cost, request, position)]
  }

  function ToolCandidates(tools: Option<nat>): seq<Candidate> {
    if tools.Some? then [FromTools(tools.value)] else []
  }

  function Fused(e: Engine, inputs: Inputs): seq<Candidate> {
    var units := Segment(e.cost, inputs.history);
    UnitCandidates(e.texts, units)
    + RequestCandidates(e, inputs.request, |units|)
    + ToolCandidates(inputs.tools)
    + PinnedCandidates(e, inputs.pinned)
    + RetrievedCandidates(e, inputs.retrieved)
  }

  method FuseCandidates(e: Engine, inputs: Inputs) returns (candidates: seq<Candidate>)
    ensures candidates == Fused(e, inputs)
  {
    hide FromUnit, FromRequest, FromPinned, FromRetrieved, Segment;
    var units := SegmentMessages(e.cost, inputs.history);
    candidates := [];
    for k := 0 to |units|
      invariant candidates == UnitCandidates(e.texts, units)[..k]
    {
      candidates := candidates + [FromUnit(e.texts, units[k], k)];
    }
    candidates := candidates + RequestCandidates(e, inputs.request, |units|) + ToolCandidates(inputs.tools);
    ghost var raw := candidates;
    for k := 0 to |inputs.pinned|
      invariant candidates == raw + PinnedCandidates(e, inputs.pinned)[..k]
    {
      candidates := candidates + [FromPinned(e.texts, e.cost, inputs.pinned[k], k)];
    }
    raw := candidates;
    for k := 0 to |inputs.retrieved|
      invariant candidates == raw + RetrievedCandidates(e, inputs.retrieved)[..k]
    {
      candidates := candidates + [FromRetrieved(e.texts, e.cost, inputs.retrieved[k])];
    }
  }

  // ---- filters ----

  predicate IsRetrieval(c: Candidate) { c.source.Memory? || c.source.Chunk? }

  function NotSuperseded(ids: set<string>): Test {
    (c: Candidate) => !(c.source.Memory? && c.key in ids)
  }

  function NotForeign(conversation: Option<string>): Test {
    (c: Candidate) => !(conversation.Some? && IsRetrieval(c) && c.conversation != conversation)
  }

  /** A filtering pass that records what it rejects. */
  method Filter(cs: seq<Candidate>, test: Test, reason: Reason, dropped: Dropped)
    returns (kept: seq<Candidate>, dropped': Dropped)
    ensures kept == Keep(cs, test) && dropped' == Mark(dropped, cs, test, reason)
  {
    kept, dropped' := [], dropped;
    for k := 0 to |cs|
      invariant kept == Keep(cs[..k], test) && dropped' == Mark(dropped, cs[..k], test, reason)
    {
      assert cs[..k + 1][..k] == cs[..k];
      if test(cs[k]) {
        kept := kept + [cs[k]];
      } else {
        dropped' := dropped'[cs[k].key := Drop(cs[k].source, reason)];
      }
    }
    assert cs[..|cs|] == cs;
  }

  // ---- duplicates ----

  predicate IsRaw(c: Candidate) { Tier(c.source) <= Tier(RecentTurn) }

  function RawTexts(cs: seq<Candidate>): set<string> {
    if cs == [] then {}
    else
      var n := |cs| - 1;
      RawTexts(cs[..n]) +
      if !IsRaw(cs[n]) then {}
      else (if cs[n].text != "" then {cs[n].text} else {}) + (set t | t in cs[n].contentTexts)
  }

  /** The candidate repeats raw text before it, or an earlier retrieval block. */
  predicate IsDuplicate(before: seq<Candidate>, c: Candidate) {
    && !IsRaw(c) && c.dedupText != ""
    && (c.dedupText in RawTexts(before) ||
        exists j :: 0 <= j < |before| && !IsRaw(before[j]) && before[j].dedupText == c.dedupText)
  }

  function WithoutDuplicates(cs: seq<Candidate>): seq<Candidate> {
    if cs == [] then []
    else
      var n := |cs| - 1;
      WithoutDuplicates(cs[..n]) + (if IsDuplicate(cs[..n], cs[n]) then [] else [cs[n]])
  }

  function MarkDuplicates(dropped: Dropped, cs: seq<Candidate>): Dropped {
    if cs == [] then dropped
    else
      var n := |cs| - 1;
      var before := MarkDuplicates(dropped, cs[..n]);
      if IsDuplicate(cs[..n], cs[n]) then before[cs[n].key := Drop(cs[n].source, Duplicate)] else before
  }

  /** Retrieval texts already met, kept or not, that no raw text covers. */
  ghost predicate SeenRetrieval(cs: seq<Candidate>, raw: set<string>, seen: set<string>) {
    forall t :: t in seen || t in raw <==>
      t in raw || (t != "" && exists j :: 0 <= j < |cs| && !IsRaw(cs[j]) && cs[j].dedupText == t)
  }

  /** The pass with its two sets of texts finds exactly the duplicates. */
  method Deduplicate(cs: seq<Candidate>, dropped: Dropped) returns (kept: seq<Candidate>, dropped': Dropped)
    ensures kept == WithoutDuplicates(cs) && dropped' == MarkDuplicates(dropped, cs)
  {
    NothingSeen();
    hide IsDuplicate, RawTexts, SeenRetrieval;
    var seenRaw: set<string>, seenRetrieval: set<string> := {}, {};
    kept, dropped' := [], dropped;
    for k := 0 to |cs|
      invariant kept == WithoutDuplicates(cs[..k]) && dropped' == MarkDuplicates(dropped, cs[..k])
      invariant seenRaw == RawTexts(cs[..k])
      invariant SeenRetrieval(cs[..k], seenRaw, seenRetrieval)
    {
      var c := cs[k];
      ghost var before := cs[..k];
      assert cs[..k + 1] == before + [c] && cs[..k + 1][..k] == before;
      SeenStep(before, c, seenRaw, seenRetrieval);
      if IsRaw(c) {
        seenRaw := seenRaw + ((if c.text != "" then {c.text} else {}) + (set t | t in c.contentTexts));
        kept := kept + [c];
      } else if c.dedupText == "" {
        kept := kept + [c];
      } else if c.dedupText in seenRaw || c.dedupText in seenRetrieval {
        dropped' := dropped'[c.key := Drop(c.source, Duplicate)];
      } else {
        seenRetrieval := seenRetrieval + {c.dedupText};
        kept := kept + [c];
      }
    }
    assert cs[..|cs|] == cs;
  }

  lemma NothingSeen()
    ensures RawTexts([]) == {} && SeenRetrieval([], {}, {})
  {
  }

  lemma SeenStep(before: seq<Candidate>, c: Candidate, raw: set<string>, seen: set<string>)
    requires raw == RawTexts(before) && SeenRetrieval(before, raw, seen)
    ensures IsDuplicate(before, c) <==> !IsRaw(c) && c.dedupText != "" && (c.dedupText in raw || c.dedupText in seen)
    ensures var own := (if c.text != "" then {c.text} else {}) + (set t | t in c.contentTexts);
            IsRaw(c) ==> RawTexts(before + [c]) == raw + own
    ensures IsRaw(c) ==> SeenRetrieval(before + [c], RawTexts(before + [c]), seen)
    ensures !IsRaw(c) ==> RawTexts(before + [c]) == raw
    ensures !IsRaw(c) && (c.dedupText == "" || IsDuplicate(before, c)) ==> SeenRetrieval(before + [c], raw, seen)
    ensures !IsRaw(c) && c.dedupText != "" ==> SeenRetrieval(before + [c], raw, seen + {c.dedupText})
  {
  }

  // ---- allocation ----

  predicate IsMandatory(c: Candidate) {
    !c.source.ToolDefinitions? && (Tier(c.source) <= Tier(Pinned) || c.source.CurrentRequest?)
  }

  predicate IsRecent(c: Candidate) { c.source.RecentTurn? }

  /** The price of the tool definitions among the candidates. */
  function ToolTokens(cs: seq<Candidate>): nat {
    if cs == [] then 0
    else if cs[|cs| - 1].source.ToolDefinitions? then cs[|cs| - 1].tokens
    else ToolTokens(cs[..|cs| - 1])
  }

  method Classify(cs: seq<Candidate>)
    returns (mandatory: seq<Candidate>, recent: seq<Candidate>, retrieval: seq<Candidate>, tools: nat)
    ensures mandatory == Keep(cs, IsMandatory) && recent == Keep(cs, IsRecent) && retrieval == Keep(cs, IsRetrieval)
    ensures tools == ToolTokens(cs)
  {
    mandatory, recent, retrieval, tools := [], [], [], 0;
    for k := 0 to |cs|
      invariant mandatory == Keep(cs[..k], IsMandatory)
      invariant recent == Keep(cs[..k], IsRecent)
      invariant retrieval == Keep(cs[..k], IsRetrieval)
      invariant tools == ToolTokens(cs[..k])
    {
      var c := cs[k];
      assert cs[..k + 1][..k] == cs[..k];
      if c.source.ToolDefinitions? {
        tools := c.tokens;
      } else if Tier(c.source) <= Tier(Pinned) {
        mandatory := mandatory + [c];
      } else if c.source.CurrentRequest? {
        mandatory := mandatory + [c];
      } else if c.source.RecentTurn? {
        recent := recent + [c];
      } else {
        retrieval := retrieval + [c];
      }
    }
    assert cs[..|cs|] == cs;
  }

  /** The longest suffix of the recent units that fits. */
  function Window(recent: seq<Candidate>, remaining: nat): (kept: seq<Candidate>)
    ensures Tokens(kept) <= remaining
  {
    var from := FitFrom(PricesOf(recent), remaining);
    assert PricesOf(recent[from..]) == PricesOf(recent)[from..];
    recent[from..]
  }

  /** The newest units that fit, taken greedily from the end, are the longest fitting suffix. */
  method KeepNewest(recent: seq<Candidate>, remaining: nat) returns (kept: seq<Candidate>)
    ensures kept == Window(recent, remaining)
  {
    var prices := PricesOf(recent);
    var from, used := |recent|, 0;
    assert prices[|recent|..] == [];
    while from > 0
      invariant 0 <= from <= |recent| && used == Sum(prices[from..]) <= remaining
    {
      assert prices[from - 1..] == [recent[from - 1].tokens] + prices[from..];
      assert prices[from - 1..][1..] == prices[from..];
      if used + recent[from - 1].tokens > remaining {
        break;
      }
      used := used + recent[from - 1].tokens;
      from := from - 1;
    }
    FitFromUnique(prices, remaining, from);
    kept := recent[from..];
  }

  // ---- retrieved blocks ----

  function ByKey(cs: seq<Candidate>): (table: map<string, Candidate>)
    ensures table.Keys == KeySet(cs)
    ensures forall key :: key in table ==> table[key] in cs && table[key].key == key
  {
    if cs == [] then map[]
    else
      var n := |cs| - 1;
      assert forall c :: c in cs <==> c in cs[..n] || c == cs[n];
      ByKey(cs[..n])[cs[n].key := cs[n]]
  }

  /** Scores are looked up by key, so candidates that share a key share the last one's score. */
  function ScoredOf(e: Engine, cs: seq<Candidate>): (scored: seq<Mmr.Scored>)
    ensures |scored| == |cs| && forall k :: 0 <= k < |cs| ==> scored[k].key == cs[k].key
    ensures Distinct(cs) ==> forall k :: 0 <= k < |cs| ==> scored[k].score == e.score(cs[k])
  {
    var table := ByKey(cs);
    seq(|cs|, k requires 0 <= k < |cs| => Mmr.Scored(e.score(table[cs[k].key]), cs[k].key))
  }

  /** The diversity ranking of the retrieval candidates. */
  ghost function Ranking(e: Engine, retrieval: seq<Candidate>): (keys: seq<string>)
    ensures forall k :: 0 <= k < |keys| ==> keys[k] in ByKey(retrieval)
    ensures |keys| <= e.maxItems
  {
    var scored := ScoredOf(e, retrieval);
    var limit := if e.maxItems < |retrieval| then e.maxItems else |retrieval|;
    var keys := Mmr.Selection(scored, e.similarity, limit, e.lam);
    RankedInTable(retrieval, scored, keys);
    keys
  }

  lemma RankedInTable(cs: seq<Candidate>, scored: seq<Mmr.Scored>, ranked: seq<string>)
    requires |scored| == |cs| && forall k :: 0 <= k < |cs| ==> scored[k].key == cs[k].key
    requires forall key :: key in ranked ==> key in Mmr.Keys(scored)
    ensures forall k :: 0 <= k < |ranked| ==> ranked[k] in ByKey(cs)
  {
    forall j | 0 <= j < |cs| ensures Mmr.Keys(scored)[j] in KeySet(cs) {
      assert cs[j] in cs;
    }
    forall k | 0 <= k < |ranked| ensures ranked[k] in KeySet(cs) {
      assert ranked[k] in Mmr.Keys(scored);
    }
  }

  predicate NoneTwice(keys: seq<string>) {
    forall i, j :: 0 <= i < j < |keys| ==> keys[i] != keys[j]
  }

  /** Among candidates with different keys, none is ranked twice. */
  lemma RankedOnce(e: Engine, retrieval: seq<Candidate>)
    requires Distinct(retrieval)
    ensures NoneTwice(Ranking(e, retrieval))
  {
    var scored := ScoredOf(e, retrieval);
    var limit := if e.maxItems < |retrieval| then e.maxItems else |retrieval|;
    assert Mmr.DistinctKeys(scored);
    hide Mmr.Selection, Mmr.Greedy, Mmr.SetOf;
    Mmr.SelectionIsGreedy(scored, e.similarity, limit, e.lam);
    Mmr.SelectionSize(scored, e.similarity, e.lam, limit);
  }

  /** Whole blocks in ranking order, skipping those that no longer fit. */
  function Packed(table: map<string, Candidate>, ranked: seq<string>, cap: nat): (picked: seq<Candidate>)
    requires forall k :: 0 <= k < |ranked| ==> ranked[k] in table
    ensures Tokens(picked) <= cap
  {
    if ranked == [] then []
    else
      var n := |ranked| - 1;
      var before := Packed(table, ranked[..n], cap);
      var c := table[ranked[n]];
      TokensConcat(before, [c]);
      TokensOne(c);
      if Tokens(before) + c.tokens <= cap then before + [c] else before
  }

  function Cap(e: Engine, remaining: nat): nat {
    if remaining < e.retrievedBudget then remaining else e.retrievedBudget
  }

  /** Blocks are retrieval candidates, within the item limit and the token cap. */
  ghost predicate WithinLimits(e: Engine, retrieval: seq<Candidate>, remaining: nat, picked: seq<Candidate>) {
    && |picked| <= e.maxItems && Tokens(picked) <= Cap(e, remaining)
    && forall c :: c in picked ==> c in retrieval
  }

  /** The ranking, when there is anything to rank and room for it. */
  ghost function Ranked(e: Engine, retrieval: seq<Candidate>, remaining: nat): (keys: seq<string>)
    ensures forall k :: 0 <= k < |keys| ==> keys[k] in ByKey(retrieval)
    ensures |keys| <= e.maxItems
  {
    if retrieval == [] || remaining == 0 || e.maxItems == 0 then [] else Ranking(e, retrieval)
  }

  ghost function Picked(e: Engine, retrieval: seq<Candidate>, remaining: nat): (picked: seq<Candidate>)
    ensures Tokens(picked) <= remaining
  {
    Packed(ByKey(retrieval), Ranked(e, retrieval, remaining), Cap(e, remaining))
  }

  lemma {:induction false} PackedFromTable(table: map<string, Candidate>, ranked: seq<string>, cap: nat)
    requires forall k :: 0 <= k < |ranked| ==> ranked[k] in table
    requires NoneTwice(ranked)
    requires forall key :: key in table ==> table[key].key == key
    ensures var picked := Packed(table, ranked, cap);
            && Distinct(picked)
            && forall c :: c in picked ==> c.key in ranked && table[c.key] == c
  {
    if ranked != [] {
      var n := |ranked| - 1;
      PackedFromTable(table, ranked[..n], cap);
      var before := Packed(table, ranked[..n], cap);
      forall k | 0 <= k < |before| ensures before[k].key != ranked[n] {
        assert before[k] in before;
      }
    }
  }

  /** Blocks are picked from the retrieval candidates within both limits, each at most once when keys differ. */
  lemma PickedFromRetrieval(e: Engine, retrieval: seq<Candidate>, remaining: nat)
    ensures WithinLimits(e, retrieval, remaining, Picked(e, retrieval, remaining))
    ensures Distinct(retrieval) ==> Distinct(Picked(e, retrieval, remaining))
  {
    var table, ranked := ByKey(retrieval), Ranked(e, retrieval, remaining);
    PackedMembers(table, ranked, Cap(e, remaining));
    if Distinct(retrieval) {
      RankedOnce(e, retrieval);
      PackedFromTable(table, ranked, Cap(e, remaining));
    }
  }

  lemma {:induction false} PackedMembers(table: map<string, Candidate>, ranked: seq<string>, cap: nat)
    requires forall k :: 0 <= k < |ranked| ==> ranked[k] in table
    ensures |Packed(table, ranked, cap)| <= |ranked|
    ensures forall c :: c in Packed(table, ranked, cap) ==> exists key :: key in table && table[key] == c
  {
    if ranked != [] {
      PackedMembers(table, ranked[..|ranked| - 1], cap);
    }
  }

  /** What packing records: every ranked block that did not fit when its turn came. */
  function PackDrops(table: map<string, Candidate>, ranked: seq<string>, cap: nat, dropped: Dropped): Dropped
    requires forall k :: 0 <= k < |ranked| ==> ranked[k] in table
  {
    if ranked == [] then dropped
    else
      var n := |ranked| - 1;
      var before, c := PackDrops(table, ranked[..n], cap, dropped), table[ranked[n]];
      if Tokens(Packed(table, ranked[..n], cap)) + c.tokens <= cap then before
      else before[ranked[n] := Drop(c.source, Budget)]
  }

  /** What is recorded at the end: every block neither picked nor recorded yet. */
  function Unpicked(retrieval: seq<Candidate>, picked: set<string>, dropped: Dropped): Dropped {
    if retrieval == [] then dropped
    else
      var n := |retrieval| - 1;
      var before, c := Unpicked(retrieval[..n], picked, dropped), retrieval[n];
      if c.key in picked || c.key in before then before else before[c.key := Drop(c.source, NotSelected)]
  }

  ghost function RetrievalDrops(e: Engine, retrieval: seq<Candidate>, remaining: nat, dropped: Dropped): Dropped {
    Unpicked(retrieval, KeySet(Picked(e, retrieval, remaining)),
             PackDrops(ByKey(retrieval), Ranked(e, retrieval, remaining), Cap(e, remaining), dropped))
  }

  /** The entry names a candidate with this key and the given reason. */
  ghost predicate Explains(entry: Drop, key: string, cs: seq<Candidate>, reason: Reason) {
    exists c :: c in cs && c.key == key && entry == Drop(c.source, reason)
  }

  /** Why a retrieval block was left out: ranked but too large, or never ranked. */
  ghost predicate LeftOut(
      dropped: Dropped, dropped': Dropped, retrieval: seq<Candidate>, picked: seq<Candidate>, ranked: seq<string>)
  {
    && dropped'.Keys == dropped.Keys + (KeySet(retrieval) - KeySet(picked))
    && (forall key :: key in dropped ==> dropped'[key] == dropped[key])
    && forall key :: key in dropped' && key !in dropped ==>
         Explains(dropped'[key], key, retrieval, if key in ranked then Budget else NotSelected)
  }

  method PickRetrieved(e: Engine, retrieval: seq<Candidate>, remaining: nat, dropped: Dropped)
    returns (picked: seq<Candidate>, dropped': Dropped)
    ensures picked == Picked(e, retrieval, remaining)
    ensures dropped' == RetrievalDrops(e, retrieval, remaining, dropped)
  {
    hide Packed, PackDrops, Unpicked, Ranking, KeySet;
    var table := ByKey(retrieval);
    if retrieval == [] || remaining == 0 || e.maxItems == 0 {
      NothingRanked(table, Cap(e, remaining), dropped);
      picked, dropped' := [], dropped;
    } else {
      var ranked := RankRetrieved(e, retrieval);
      picked, dropped' := PackRanked(table, ranked, Cap(e, remaining), dropped);
    }
    dropped' := MarkUnpicked(retrieval, KeySet(picked), dropped');
  }

  method RankRetrieved(e: Engine, retrieval: seq<Candidate>) returns (ranked: seq<string>)
    ensures ranked == Ranking(e, retrieval)
  {
    var limit := if e.maxItems < |retrieval| then e.maxItems else |retrieval|;
    ranked := Mmr.Select(ScoredOf(e, retrieval), e.similarity, limit, e.lam);
  }

  lemma NothingRanked(table: map<string, Candidate>, cap: nat, dropped: Dropped)
    ensures Packed(table, [], cap) == [] && PackDrops(table, [], cap, dropped) == dropped
  {
  }

  method MarkUnpicked(retrieval: seq<Candidate>, picked: set<string>, dropped: Dropped) returns (dropped': Dropped)
    ensures dropped' == Unpicked(retrieval, picked, dropped)
  {
    dropped' := dropped;
    for k := 0 to |retrieval|
      invariant dropped' == Unpicked(retrieval[..k], picked, dropped)
    {
      var c := retrieval[k];
      assert retrieval[..k + 1][..k] == retrieval[..k];
      if c.key !in picked && c.key !in dropped' {
        dropped' := dropped'[c.key := Drop(c.source, NotSelected)];
      }
    }
    assert retrieval[..|retrieval|] == retrieval;
  }

  // ---- the records, when keys differ ----

  /** With different keys, none of them recorded before, every block left out is recorded with its one reason. */
  lemma DropsExplained(e: Engine, retrieval: seq<Candidate>, remaining: nat, dropped: Dropped)
    requires Distinct(retrieval) && KeySet(retrieval) !! dropped.Keys
    ensures LeftOut(dropped, RetrievalDrops(e, retrieval, remaining, dropped), retrieval,
                    Picked(e, retrieval, remaining), Ranked(e, retrieval, remaining))
  {
    var table, ranked, picked := ByKey(retrieval), Ranked(e, retrieval, remaining), Picked(e, retrieval, remaining);
    assert AllNew(ranked, dropped) by { RankedOnce(e, retrieval); }
    hide Packed, PackDrops, Unpicked, Ranked, Ranking, KeySet, Explains, PackingLog, LeftOut, AllNew, Distinct;
    PackLogged(table, ranked, Cap(e, remaining), dropped);
    var packed := PackDrops(table, ranked, Cap(e, remaining), dropped);
    UnpickedExplained(retrieval, KeySet(picked), packed);
    LogExplains(retrieval, ranked, picked, dropped, packed, Unpicked(retrieval, KeySet(picked), packed));
  }

  lemma {:induction false} UnpickedExplained(retrieval: seq<Candidate>, picked: set<string>, dropped: Dropped)
    ensures var dropped' := Unpicked(retrieval, picked, dropped);
            && dropped'.Keys == dropped.Keys + (KeySet(retrieval) - picked)
            && (forall key :: key in dropped ==> dropped'[key] == dropped[key])
            && forall key :: key in dropped' && key !in dropped ==>
                 Explains(dropped'[key], key, retrieval, NotSelected)
  {
    if retrieval != [] {
      var n := |retrieval| - 1;
      UnpickedExplained(retrieval[..n], picked, dropped);
      assert retrieval == retrieval[..n] + [retrieval[n]];
      KeySetSnoc(retrieval[..n], retrieval[n]);
      hide KeySet;
    }
  }

  lemma LogExplains(
      retrieval: seq<Candidate>, ranked: seq<string>, picked: seq<Candidate>,
      dropped: Dropped, packed: Dropped, dropped': Dropped)
    requires PackingLog(ByKey(retrieval), ranked, KeySet(picked), dropped, packed)
    requires dropped'.Keys == packed.Keys + (KeySet(retrieval) - KeySet(picked))
    requires forall key :: key in packed ==> dropped'[key] == packed[key]
    requires forall key :: key in dropped' && key !in packed ==> Explains(dropped'[key], key, retrieval, NotSelected)
    ensures LeftOut(dropped, dropped', retrieval, picked, ranked)
  {
    var table := ByKey(retrieval);
    hide KeySet, Explains, ByKey;
    forall key | key in packed && key !in dropped
      ensures key in ranked && key in KeySet(retrieval) && Explains(packed[key], key, retrieval, Budget)
    {
      ExplainsOne(table[key], retrieval, Budget);
    }
    assert forall key :: key in dropped' && key !in packed ==> key !in ranked;
  }

  lemma ExplainsOne(c: Candidate, cs: seq<Candidate>, reason: Reason)
    requires c in cs
    ensures Explains(Drop(c.source, reason), c.key, cs, reason)
  {
  }

  lemma KeySetSnoc(cs: seq<Candidate>, c: Candidate)
    ensures KeySet(cs + [c]) == KeySet(cs) + {c.key}
  {
    assert forall x :: x in cs + [c] <==> x in cs || x == c;
  }

  lemma PackedStep(table: map<string, Candidate>, ranked: seq<string>, cap: nat, k: nat, dropped: Dropped)
    requires k < |ranked| && forall j :: 0 <= j < |ranked| ==> ranked[j] in table
    ensures var before, c := Packed(table, ranked[..k], cap), table[ranked[k]];
            var drops := PackDrops(table, ranked[..k], cap, dropped);
            if Tokens(before) + c.tokens <= cap
            then
              && Packed(table, ranked[..k + 1], cap) == before + [c]
              && PackDrops(table, ranked[..k + 1], cap, dropped) == drops
              && Tokens(before + [c]) == Tokens(before) + c.tokens
            else
              && Packed(table, ranked[..k + 1], cap) == before
              && PackDrops(table, ranked[..k + 1], cap, dropped) == drops[ranked[k] := Drop(c.source, Budget)]
  {
    assert ranked[..k + 1][..k] == ranked[..k];
    TokensConcat(Packed(table, ranked[..k], cap), [table[ranked[k]]]);
    TokensOne(table[ranked[k]]);
  }

  /** After the ranks `done`, of which `kept` were packed, the others are recorded as over budget. */
  ghost predicate PackingLog(
      table: map<string, Candidate>, done: seq<string>, kept: set<string>, dropped: Dropped, dropped': Dropped)
  {
    && (forall key :: key in kept ==> key in done)
    && (forall key :: key in dropped' <==> key in dropped || (key in done && key !in kept))
    && (forall key :: key in dropped ==> dropped'[key] == dropped[key])
    && forall key :: key in dropped' && key !in dropped ==>
         key in table && dropped'[key] == Drop(table[key].source, Budget)
  }

  /** No key is ranked twice or dropped before. */
  ghost predicate AllNew(ranked: seq<string>, dropped: Dropped) {
    NoneTwice(ranked) && forall k :: 0 <= k < |ranked| ==> ranked[k] !in dropped
  }

  lemma LogStep(
      table: map<string, Candidate>, ranked: seq<string>, k: nat, kept: set<string>,
      dropped: Dropped, dropped': Dropped)
    requires k < |ranked| && ranked[k] in table && ranked[k] !in dropped && ranked[k] !in ranked[..k]
    requires PackingLog(table, ranked[..k], kept, dropped, dropped')
    ensures PackingLog(table, ranked[..k + 1], kept + {ranked[k]}, dropped, dropped')
    ensures PackingLog(table, ranked[..k + 1], kept, dropped,
                       dropped'[ranked[k] := Drop(table[ranked[k]].source, Budget)])
  {
    assert ranked[..k + 1] == ranked[..k] + [ranked[k]];
  }

  lemma {:induction false} PackLogged(table: map<string, Candidate>, ranked: seq<string>, cap: nat, dropped: Dropped)
    requires forall k :: 0 <= k < |ranked| ==> ranked[k] in table
    requires forall key :: key in table ==> table[key].key == key
    requires AllNew(ranked, dropped)
    ensures PackingLog(table, ranked, KeySet(Packed(table, ranked, cap)), dropped,
                       PackDrops(table, ranked, cap, dropped))
  {
    if ranked != [] {
      var n := |ranked| - 1;
      var early := ranked[..n];
      assert ranked[..n + 1] == ranked && ranked[n] !in early;
      PackLogged(table, early, cap, dropped);
      PackedStep(table, ranked, cap, n, dropped);
      var before, drops := Packed(table, early, cap), PackDrops(table, early, cap, dropped);
      hide Packed, PackDrops, KeySet, PackingLog, Tokens;
      LogStep(table, ranked, n, KeySet(before), dropped, drops);
      KeySetSnoc(before, table[ranked[n]]);
    }
  }

  method PackRanked(table: map<string, Candidate>, ranked: seq<string>, cap: nat, dropped: Dropped)
    returns (picked: seq<Candidate>, dropped': Dropped)
    requires forall k :: 0 <= k < |ranked| ==> ranked[k] in table
    ensures picked == Packed(table, ranked, cap) && dropped' == PackDrops(table, ranked, cap, dropped)
  {
    picked, dropped' := [], dropped;
    var used := 0;
    assert Packed(table, ranked[..0], cap) == [] && Tokens([]) == 0;
    hide Packed, PackDrops, Tokens;
    NothingRanked(table, cap, dropped);
    assert ranked[..0] == [];
    for k := 0 to |ranked|
      invariant picked == Packed(table, ranked[..k], cap) && used == Tokens(picked)
      invariant dropped' == PackDrops(table, ranked[..k], cap, dropped)
    {
      var c := table[ranked[k]];
      PackedStep(table, ranked, cap, k, dropped);
      if used + c.tokens > cap {
        dropped' := dropped'[ranked[k] := Drop(c.source, Budget)];
      } else {
        picked := picked + [c];
        used := used + c.tokens;
      }
    }
    assert ranked[..|ranked|] == ranked;
  }

  // ---- rendering order ----

  predicate HeadBefore(a: Candidate, b: Candidate) {
    Tier(a.source) < Tier(b.source) ||
    (Tier(a.source) == Tier(b.source) && (a.position < b.position || (a.position == b.position && Less(a.key, b.key))))
  }

  /** Index of the request in the head, or its length when there is none. */
  function RequestIndex(head: seq<Candidate>): (k: nat)
    ensures k <= |head|
  {
    if head == [] || head[0].source.CurrentRequest? then 0 else 1 + RequestIndex(head[1..])
  }

  function RenderOrder(mandatory: seq<Candidate>, picked: seq<Candidate>, recent: seq<Candidate>): seq<Candidate> {
    var head := Sorted(mandatory, HeadBefore);
    var k := RequestIndex(head);
    if k == |head| then head + picked + recent
    else head[..k] + head[k + 1..] + picked + recent + [head[k]]
  }

  predicate Ascending(cs: seq<Candidate>, source: Source) {
    && (forall k :: 0 <= k < |cs| ==> cs[k].source == source)
    && forall i, j :: 0 <= i < j < |cs| ==> cs[i].position < cs[j].position
  }

  /** Instructions, then pinned messages, then blocks, then recent turns, then the request. */
  lemma RenderOrderIs(
      systems: seq<Candidate>, request: seq<Candidate>, pinned: seq<Candidate>,
      picked: seq<Candidate>, recent: seq<Candidate>)
    requires Ascending(systems, System) && Ascending(pinned, Pinned)
    requires |request| <= 1 && Ascending(request, CurrentRequest)
    ensures RenderOrder(systems + request + pinned, picked, recent) == systems + pinned + picked + recent + request
  {
    HeadIs(systems, request, pinned);
    hide Sorted;
    var base := systems + pinned;
    assert base + request == systems + pinned + request;
    RequestAt(base + request, |base|);
    if request == [] {
      assert base + request == base;
      assert base + picked + recent + request == base + picked + recent;
    } else {
      LastIsRequest(base, request);
    }
  }

  lemma LastIsRequest(base: seq<Candidate>, request: seq<Candidate>)
    requires |request| == 1
    ensures (base + request)[..|base|] + (base + request)[|base| + 1..] == base
    ensures [(base + request)[|base|]] == request
  {
  }

  lemma HeadIs(systems: seq<Candidate>, request: seq<Candidate>, pinned: seq<Candidate>)
    requires Ascending(systems, System) && Ascending(pinned, Pinned)
    requires |request| <= 1 && Ascending(request, CurrentRequest)
    ensures Sorted(systems + request + pinned, HeadBefore) == systems + pinned + request
  {
    var others := request + pinned;
    assert systems + request + pinned == systems + others;
    TailIs(request, pinned);
    hide Sorted;
    SortedPrefix(systems, others, HeadBefore);
    assert systems + (pinned + request) == systems + pinned + request;
  }

  lemma TailIs(request: seq<Candidate>, pinned: seq<Candidate>)
    requires Ascending(pinned, Pinned)
    requires |request| <= 1 && Ascending(request, CurrentRequest)
    ensures Sorted(request + pinned, HeadBefore) == pinned + request
  {
    SortedAlready(pinned, HeadBefore);
    if request == [] {
      assert request + pinned == pinned == pinned + request;
    } else {
      assert (request + pinned)[0] == request[0] && (request + pinned)[1..] == pinned;
      InsertLast(request[0], pinned, HeadBefore);
      assert [request[0]] == request;
    }
  }

  lemma {:induction false} RequestAt(head: seq<Candidate>, k: nat)
    requires k <= |head| && forall j :: 0 <= j < k ==> !head[j].source.CurrentRequest?
    requires k < |head| ==> head[k].source.CurrentRequest?
    ensures RequestIndex(head) == k
  {
    if k > 0 {
      RequestAt(head[1..], k - 1);
    }
  }
}
