/** Which retrieved items and interactions reach a plan, and why the others do not. */
module RetrievalLaws {
  import opened Messages
  import opened Segmentation
  import opened Candidates
  import opened CandidateLists
  import opened ContextEngine
  import opened ContextAssembly
  import Mmr

  /** With a conversation named, a plan holds nothing retrieved from another one, and never a superseded memory. */
  lemma OwnConversationOnly(e: Engine, inputs: Inputs, r: Assembly, c: Candidate)
    requires Assembled(e, inputs, r) && r.Ready? && c in r.selected && (c.source == Memory || c.source == Chunk)
    ensures inputs.conversation.Some? ==> c.conversation == inputs.conversation
    ensures c.source == Memory ==> c.key !in inputs.superseded
    ensures FromRelevant(e, inputs, c)
  {
    KeepMembers(r.selected, IsRetrieval);
    hide Keep, Tokens, BlocksChosen, Recorded, SelectionOrder, MandatoryPrice;
    assert c in Keep(r.selected, IsRetrieval);
  }

  // ---- what the raw part of the input says ----

  /** The text is that of an interaction, the request or a pinned message, or a content text of the history. */
  ghost predicate SaidRaw(e: Engine, inputs: Inputs, t: string) {
    || (exists u :: u in Segment(e.cost, inputs.history) && e.texts.ofMessages(u.messages) == t)
    || (exists m :: m in inputs.history && t in e.texts.ofContent(m))
    || (inputs.request != [] && e.texts.ofMessages(inputs.request) == t)
    || (exists m :: m in inputs.pinned && e.texts.ofMessages([m]) == t)
  }

  /** The item says what the raw part says, or what a relevant item listed before it says. */
  ghost predicate Repeats(e: Engine, inputs: Inputs, k: nat)
    requires k < |inputs.retrieved|
  {
    var t := Compared(e.texts, inputs.retrieved[k]);
    t != "" &&
    (SaidRaw(e, inputs, t) ||
     exists j :: 0 <= j < k && Relevant(inputs, inputs.retrieved[j]) && Compared(e.texts, inputs.retrieved[j]) == t)
  }

  /** The item stays in the running for a place in the plan. */
  ghost predicate Stays(e: Engine, inputs: Inputs, k: nat)
    requires k < |inputs.retrieved|
  {
    Relevant(inputs, inputs.retrieved[k]) && !Repeats(e, inputs, k)
  }

  /** Candidate `i` says the text. */
  predicate Says(c: Candidate, t: string) {
    IsRaw(c) && ((t != "" && c.text == t) || t in c.contentTexts)
  }

  lemma {:induction false} RawTextsExactly(cs: seq<Candidate>, t: string)
    ensures t in RawTexts(cs) <==> exists c :: c in cs && Says(c, t)
  {
    if cs != [] {
      var n := |cs| - 1;
      RawTextsExactly(cs[..n], t);
      assert forall c :: c in cs <==> c in cs[..n] || c == cs[n];
      assert t in RawTexts(cs) <==> t in RawTexts(cs[..n]) || Says(cs[n], t);
      hide RawTexts, Says;
    }
  }

  lemma {:induction false} ContentTextsExactly(texts: Texts, messages: seq<Message>, t: string)
    ensures t in ContentTexts(texts, messages) <==> exists m :: m in messages && t in texts.ofContent(m)
  {
    if messages != [] {
      var n := |messages| - 1;
      ContentTextsExactly(texts, messages[..n], t);
      assert forall m :: m in messages <==> m in messages[..n] || m == messages[n];
    }
  }

  lemma {:induction false} FlatMembers(units: seq<Unit>, m: Message)
    ensures m in Flat(units) <==> exists u :: u in units && m in u.messages
  {
    if units != [] {
      var n := |units| - 1;
      FlatMembers(units[..n], m);
      assert forall u :: u in units <==> u in units[..n] || u == units[n];
    }
  }

  /** The units hold the messages of the history and no others. */
  lemma SegmentMembers(cost: Cost, history: seq<Message>, m: Message)
    ensures m in history <==> exists u :: u in Segment(cost, history) && m in u.messages
  {
    SegmentFaithful(cost, history);
    hide Segment, Flat, Instructions, Ordinary;
    var flat := Flat(Segment(cost, history));
    SplitIsPermutation(history);
    SplitIsPermutation(flat);
    assert m in history <==> m in multiset(history);
    assert m in flat <==> m in multiset(flat);
    FlatMembers(Segment(cost, history), m);
  }

  /** The candidates that are not retrieved blocks, in fusion order. */
  function RawPart(e: Engine, inputs: Inputs): seq<Candidate> {
    UnitCandidates(e.texts, Segment(e.cost, inputs.history))
    + TheRequest(e, inputs) + ToolCandidates(inputs.tools) + PinnedCandidates(e, inputs.pinned)
  }

  lemma UnitsSay(e: Engine, history: seq<Message>, t: string)
    requires t != ""
    ensures (exists c :: c in UnitCandidates(e.texts, Segment(e.cost, history)) && Says(c, t)) <==>
            || (exists u :: u in Segment(e.cost, history) && e.texts.ofMessages(u.messages) == t)
            || (exists m :: m in history && t in e.texts.ofContent(m))
  {
    hide Segment;
    var units := Segment(e.cost, history);
    var cs := UnitCandidates(e.texts, units);
    forall k | 0 <= k < |units|
      ensures Says(cs[k], t) <==>
              e.texts.ofMessages(units[k].messages) == t ||
              exists m :: m in units[k].messages && t in e.texts.ofContent(m)
    {
      ContentTextsExactly(e.texts, units[k].messages, t);
    }
    hide Says, UnitCandidates;
    forall m ensures m in history <==> exists u :: u in units && m in u.messages {
      SegmentMembers(e.cost, history, m);
    }
    SomeUnitSays(e, units, cs, history, t);
  }

  lemma SomeUnitSays(e: Engine, units: seq<Unit>, cs: seq<Candidate>, history: seq<Message>, t: string)
    requires |units| == |cs|
    requires forall k :: 0 <= k < |units| ==>
               (Says(cs[k], t) <==>
                e.texts.ofMessages(units[k].messages) == t ||
                exists m :: m in units[k].messages && t in e.texts.ofContent(m))
    requires forall m :: m in history <==> exists u :: u in units && m in u.messages
    ensures (exists c :: c in cs && Says(c, t)) <==>
            || (exists u :: u in units && e.texts.ofMessages(u.messages) == t)
            || (exists m :: m in history && t in e.texts.ofContent(m))
  {
    hide Says;
    if c :| c in cs && Says(c, t) {
      var k :| 0 <= k < |cs| && cs[k] == c;
      assert units[k] in units;
    }
    if u :| u in units && e.texts.ofMessages(u.messages) == t {
      var k :| 0 <= k < |units| && units[k] == u;
      assert cs[k] in cs;
    }
    if m :| m in history && t in e.texts.ofContent(m) {
      var u :| u in units && m in u.messages;
      var k :| 0 <= k < |units| && units[k] == u;
      assert cs[k] in cs;
    }
  }

  lemma OthersSay(e: Engine, inputs: Inputs, t: string)
    requires t != ""
    ensures (exists c :: c in TheRequest(e, inputs) && Says(c, t)) <==>
            inputs.request != [] && e.texts.ofMessages(inputs.request) == t
    ensures forall c :: c in ToolCandidates(inputs.tools) ==> !Says(c, t)
  {
    hide Segment, FeedAll;
    if inputs.request != [] {
      assert TheRequest(e, inputs)[0] in TheRequest(e, inputs);
    }
  }

  lemma PinnedSay(e: Engine, pinned: seq<Message>, t: string)
    requires t != ""
    ensures (exists c :: c in PinnedCandidates(e, pinned) && Says(c, t)) <==>
            exists m :: m in pinned && e.texts.ofMessages([m]) == t
  {
    var cs := PinnedCandidates(e, pinned);
    assert forall k :: 0 <= k < |pinned| ==> (Says(cs[k], t) <==> e.texts.ofMessages([pinned[k]]) == t);
    hide PinnedCandidates, Says;
    if m :| m in pinned && e.texts.ofMessages([m]) == t {
      var k :| 0 <= k < |pinned| && pinned[k] == m;
      assert cs[k] in cs;
    }
    if c :| c in cs && Says(c, t) {
      var k :| 0 <= k < |cs| && cs[k] == c;
      assert pinned[k] in pinned;
    }
  }

  lemma RawSays(e: Engine, inputs: Inputs, t: string)
    requires t != ""
    ensures t in RawTexts(RawPart(e, inputs)) <==> SaidRaw(e, inputs, t)
  {
    RawTextsExactly(RawPart(e, inputs), t);
    UnitsSay(e, inputs.history, t);
    OthersSay(e, inputs, t);
    PinnedSay(e, inputs.pinned, t);
    hide Segment, RawTexts, Says, UnitCandidates, TheRequest, ToolCandidates, PinnedCandidates;
  }

  // ---- what survives the filters and the search for repetitions ----

  /** The relevant blocks among the first `n` items. */
  function RelevantBlocks(e: Engine, inputs: Inputs, n: nat): seq<Candidate>
    requires n <= |inputs.retrieved|
  {
    if n == 0 then []
    else
      var item := inputs.retrieved[n - 1];
      RelevantBlocks(e, inputs, n - 1) + if Relevant(inputs, item) then [FromRetrieved(e.texts, e.cost, item)] else []
  }

  /** The blocks that stay among the first `n` items. */
  ghost function StayingBlocks(e: Engine, inputs: Inputs, n: nat): seq<Candidate>
    requires n <= |inputs.retrieved|
  {
    if n == 0 then []
    else
      StayingBlocks(e, inputs, n - 1) +
      if Stays(e, inputs, n - 1) then [FromRetrieved(e.texts, e.cost, inputs.retrieved[n - 1])] else []
  }

  lemma RawPasses(e: Engine, inputs: Inputs, c: Candidate)
    requires c in RawPart(e, inputs)
    ensures IsRaw(c) && !IsRetrieval(c) && NotSuperseded(inputs.superseded)(c) && NotForeign(inputs.conversation)(c)
  {
    hide Segment;
  }

  lemma {:induction false} FiltersKeepRelevant(e: Engine, inputs: Inputs, n: nat)
    requires n <= |inputs.retrieved|
    ensures Keep(Keep(RetrievedCandidates(e, inputs.retrieved)[..n], NotSuperseded(inputs.superseded)),
                 NotForeign(inputs.conversation)) ==
            RelevantBlocks(e, inputs, n)
  {
    if n > 0 {
      FiltersKeepRelevant(e, inputs, n - 1);
      var cs := RetrievedCandidates(e, inputs.retrieved);
      var c, before := cs[n - 1], cs[..n - 1];
      BlockIs(e, inputs, inputs.retrieved[n - 1]);
      var p, q := NotSuperseded(inputs.superseded), NotForeign(inputs.conversation);
      hide FromRetrieved, NotSuperseded, NotForeign, Relevant, BlockOf, RetrievedCandidates;
      assert cs[..n][..n - 1] == before && cs[..n][n - 1] == c;
      var last := if p(c) then [c] else [];
      KeepConcat(Keep(before, p), last, q);
      assert Keep(last, q) == if p(c) && q(c) then [c] else [] by { assert [c][..0] == []; }
    }
  }

  lemma FusedParts(e: Engine, inputs: Inputs)
    ensures Fused(e, inputs) == RawPart(e, inputs) + RetrievedCandidates(e, inputs.retrieved)
  {
    hide Segment, UnitCandidates, RequestCandidates, ToolCandidates, PinnedCandidates, RetrievedCandidates;
  }

  lemma FiltersKeep(e: Engine, inputs: Inputs)
    ensures Keep(Keep(Fused(e, inputs), NotSuperseded(inputs.superseded)), NotForeign(inputs.conversation)) ==
            RawPart(e, inputs) + RelevantBlocks(e, inputs, |inputs.retrieved|)
  {
    hide Keep, Segment, UnitCandidates, TheRequest, ToolCandidates, PinnedCandidates, RetrievedCandidates;
    hide NotSuperseded, NotForeign, RelevantBlocks;
    var raw, cs := RawPart(e, inputs), RetrievedCandidates(e, inputs.retrieved);
    var p, q := NotSuperseded(inputs.superseded), NotForeign(inputs.conversation);
    FusedParts(e, inputs);
    hide RawPart, Fused;
    forall k | 0 <= k < |raw| ensures p(raw[k]) && q(raw[k]) { RawPasses(e, inputs, raw[k]); }
    KeepConcat(raw, cs, p);
    KeepAll(raw, p);
    KeepConcat(raw, Keep(cs, p), q);
    KeepAll(raw, q);
    FiltersKeepRelevant(e, inputs, |cs|);
    assert cs[..|cs|] == cs;
  }

  lemma {:induction false} RelevantAreBlocks(e: Engine, inputs: Inputs, n: nat)
    requires n <= |inputs.retrieved|
    ensures forall c :: c in RelevantBlocks(e, inputs, n) ==> !IsRaw(c)
  {
    if n > 0 {
      RelevantAreBlocks(e, inputs, n - 1);
      hide Relevant;
    }
  }

  lemma {:induction false} RelevantMembers(e: Engine, inputs: Inputs, n: nat, t: string)
    requires n <= |inputs.retrieved|
    ensures (exists c :: c in RelevantBlocks(e, inputs, n) && c.dedupText == t) <==>
            exists j :: 0 <= j < n &&
              Relevant(inputs, inputs.retrieved[j]) && Compared(e.texts, inputs.retrieved[j]) == t
  {
    if n > 0 {
      RelevantMembers(e, inputs, n - 1, t);
      var item := inputs.retrieved[n - 1];
      var block := FromRetrieved(e.texts, e.cost, item);
      assert block.dedupText == Compared(e.texts, item);
      hide FromRetrieved, Compared, Relevant;
      var before := RelevantBlocks(e, inputs, n - 1);
      var last := if Relevant(inputs, item) then [block] else [];
      assert RelevantBlocks(e, inputs, n) == before + last;
      hide RelevantBlocks;
      EitherSays(before, last, t);
    }
  }

  lemma EitherSays(a: seq<Candidate>, b: seq<Candidate>, t: string)
    ensures (exists c :: c in a + b && c.dedupText == t) <==>
            (exists c :: c in a && c.dedupText == t) || exists c :: c in b && c.dedupText == t
  {
    assert forall c :: c in a + b <==> c in a || c in b;
  }

  lemma {:induction false} RawTextsOfBlocks(raw: seq<Candidate>, blocks: seq<Candidate>)
    requires forall c :: c in blocks ==> !IsRaw(c)
    ensures RawTexts(raw + blocks) == RawTexts(raw)
  {
    if blocks == [] {
      assert raw + blocks == raw;
    } else {
      var n := |blocks| - 1;
      RawTextsOfBlocks(raw, blocks[..n]);
      assert (raw + blocks)[..|raw| + n] == raw + blocks[..n] && blocks[n] in blocks;
    }
  }

  /** Among the raw part and the relevant blocks before it, a block is a duplicate exactly when its item repeats. */
  lemma DuplicateExactly(e: Engine, inputs: Inputs, k: nat)
    requires k < |inputs.retrieved|
    ensures IsDuplicate(RawPart(e, inputs) + RelevantBlocks(e, inputs, k),
                        FromRetrieved(e.texts, e.cost, inputs.retrieved[k])) <==>
            Repeats(e, inputs, k)
  {
    var block, t := FromRetrieved(e.texts, e.cost, inputs.retrieved[k]), Compared(e.texts, inputs.retrieved[k]);
    assert block.dedupText == t && !IsRaw(block);
    var raw, before := RawPart(e, inputs), RelevantBlocks(e, inputs, k);
    forall c | c in raw ensures IsRaw(c) { RawPasses(e, inputs, c); }
    RelevantMembers(e, inputs, k, t);
    RelevantAreBlocks(e, inputs, k);
    hide FromRetrieved, Compared, Relevant, IsRaw, RawPart, RelevantBlocks, RawTexts, SaidRaw;
    RawTextsOfBlocks(raw, before);
    if t != "" {
      RawSays(e, inputs, t);
      BlockAmong(raw, before, t);
    }
  }

  lemma BlockAmong(raw: seq<Candidate>, blocks: seq<Candidate>, t: string)
    requires (forall c :: c in raw ==> IsRaw(c)) && forall c :: c in blocks ==> !IsRaw(c)
    ensures var all := raw + blocks;
            (exists j :: 0 <= j < |all| && !IsRaw(all[j]) && all[j].dedupText == t) <==>
            exists c :: c in blocks && c.dedupText == t
  {
    hide IsRaw;
    var all := raw + blocks;
    forall j | 0 <= j < |raw| ensures IsRaw(all[j]) { assert raw[j] in raw; }
    forall j | |raw| <= j < |all| ensures all[j] in blocks { assert all[j] == blocks[j - |raw|]; }
    if c :| c in blocks && c.dedupText == t {
      var i :| 0 <= i < |blocks| && blocks[i] == c;
      assert all[|raw| + i] == c;
    }
  }

  lemma {:induction false} RawStays(raw: seq<Candidate>)
    requires forall c :: c in raw ==> IsRaw(c)
    ensures WithoutDuplicates(raw) == raw
  {
    hide RawTexts, IsRaw;
    if raw != [] {
      RawStays(raw[..|raw| - 1]);
      assert raw[|raw| - 1] in raw;
    }
  }

  lemma {:induction false} DeduplicationKeeps(e: Engine, inputs: Inputs, n: nat)
    requires n <= |inputs.retrieved|
    ensures WithoutDuplicates(RawPart(e, inputs) + RelevantBlocks(e, inputs, n)) ==
            RawPart(e, inputs) + StayingBlocks(e, inputs, n)
  {
    hide FromRetrieved, Relevant, RawPart, IsDuplicate, Repeats, IsRaw, WithoutDuplicates;
    var raw := RawPart(e, inputs);
    if n == 0 {
      forall c | c in raw ensures IsRaw(c) { RawPasses(e, inputs, c); }
      RawStays(raw);
      assert raw + [] == raw;
    } else {
      DeduplicationKeeps(e, inputs, n - 1);
      DuplicateExactly(e, inputs, n - 1);
      var block := FromRetrieved(e.texts, e.cost, inputs.retrieved[n - 1]);
      var before, after := RelevantBlocks(e, inputs, n - 1), StayingBlocks(e, inputs, n - 1);
      assert before + [] == before && after + [] == after;
      if Relevant(inputs, inputs.retrieved[n - 1]) {
        assert raw + (before + [block]) == (raw + before) + [block];
        WithoutLast(raw + before, block);
        assert (raw + after) + [block] == raw + (after + [block]);
      }
    }
  }

  lemma WithoutLast(before: seq<Candidate>, c: Candidate)
    ensures WithoutDuplicates(before + [c]) ==
            WithoutDuplicates(before) + if IsDuplicate(before, c) then [] else [c]
  {
    hide IsDuplicate;
    assert (before + [c])[..|before|] == before;
  }

  /**
   What competes for the budget: every raw candidate, and in retrieval order the blocks of exactly the items that
   are relevant and repeat nothing.
   */
  lemma SurvivorsExactly(e: Engine, inputs: Inputs)
    ensures Survivors(e, inputs) == RawPart(e, inputs) + StayingBlocks(e, inputs, |inputs.retrieved|)
    ensures Keep(Survivors(e, inputs), IsRetrieval) == StayingBlocks(e, inputs, |inputs.retrieved|)
  {
    FiltersKeep(e, inputs);
    DeduplicationKeeps(e, inputs, |inputs.retrieved|);
    var raw, blocks := RawPart(e, inputs), StayingBlocks(e, inputs, |inputs.retrieved|);
    forall k | 0 <= k < |raw| ensures !IsRetrieval(raw[k]) { RawPasses(e, inputs, raw[k]); }
    StayingAreBlocks(e, inputs, |inputs.retrieved|);
    hide Keep, Fused, RawPart, StayingBlocks, RelevantBlocks, WithoutDuplicates;
    KeepConcat(raw, blocks, IsRetrieval);
    KeepNone(raw, IsRetrieval);
    KeepAll(blocks, IsRetrieval);
  }

  lemma {:induction false} StayingAreBlocks(e: Engine, inputs: Inputs, n: nat)
    requires n <= |inputs.retrieved|
    ensures forall k :: 0 <= k < |StayingBlocks(e, inputs, n)| ==> IsRetrieval(StayingBlocks(e, inputs, n)[k])
  {
    if n > 0 {
      StayingAreBlocks(e, inputs, n - 1);
      hide Stays;
    }
  }

  // ---- packing ----

  /** Blocks are decided in rank order, each by what was packed before it, and skipped only when it does not fit. */
  lemma {:induction false} PackedInRankOrder(table: map<string, Candidate>, ranked: seq<string>, cap: nat, k: nat)
    requires (forall j :: 0 <= j < |ranked| ==> ranked[j] in table) && k < |ranked|
    ensures var before, c, picked := Packed(table, ranked[..k], cap), table[ranked[k]], Packed(table, ranked, cap);
            && (if Tokens(before) + c.tokens <= cap then before + [c] <= picked else before <= picked)
            && Tokens(before) <= Tokens(picked)
  {
    hide Tokens;
    var n := |ranked| - 1;
    PackedStep(table, ranked, cap, n, map[]);
    assert ranked[..n + 1] == ranked;
    if k < n {
      PackedInRankOrder(table, ranked[..n], cap, k);
      assert ranked[..n][..k] == ranked[..k];
      hide Packed;
    }
  }

  /** No ranked block that was left out could still be added. */
  lemma NothingElseFits(e: Engine, retrieval: seq<Candidate>, remaining: nat, key: string)
    requires key in Ranked(e, retrieval, remaining)
    ensures var c, picked := ByKey(retrieval)[key], Picked(e, retrieval, remaining);
            c in picked || Tokens(picked) + c.tokens > remaining || Tokens(picked) + c.tokens > e.retrievedBudget
  {
    hide Ranked, Packed, Tokens;
    var table, ranked, cap := ByKey(retrieval), Ranked(e, retrieval, remaining), Cap(e, remaining);
    var k :| 0 <= k < |ranked| && ranked[k] == key;
    PackedInRankOrder(table, ranked, cap, k);
    var before, c := Packed(table, ranked[..k], cap), table[key];
    assert (before + [c])[|before|] == c;
  }

  /** The ranking is as long as the candidates and the item limit allow. */
  lemma RankedSize(e: Engine, retrieval: seq<Candidate>, remaining: nat)
    requires Distinct(retrieval) && remaining > 0
    ensures |Ranked(e, retrieval, remaining)| == if e.maxItems < |retrieval| then e.maxItems else |retrieval|
    ensures NoneTwice(Ranked(e, retrieval, remaining))
  {
    if retrieval != [] && e.maxItems > 0 {
      RankedOnce(e, retrieval);
      var scored := ScoredOf(e, retrieval);
      assert Mmr.DistinctKeys(scored);
      hide Mmr.Selection, Mmr.Greedy, Mmr.SetOf;
      var limit := if e.maxItems < |retrieval| then e.maxItems else |retrieval|;
      Mmr.SelectionIsGreedy(scored, e.similarity, limit, e.lam);
      Mmr.SelectionSize(scored, e.similarity, e.lam, limit);
    }
  }

  // ---- why an item is missing ----

  lemma {:induction false} Marked(dropped: Dropped, cs: seq<Candidate>, test: Test, reason: Reason, c: Candidate)
    requires Distinct(cs) && c in cs
    ensures var dropped' := Mark(dropped, cs, test, reason);
            if test(c) then c.key in dropped' <==> c.key in dropped
            else c.key in dropped' && dropped'[c.key] == Drop(c.source, reason)
    ensures test(c) && c.key in dropped ==> Mark(dropped, cs, test, reason)[c.key] == dropped[c.key]
  {
    var n := |cs| - 1;
    if c == cs[n] {
      if test(c) { Unmarked(dropped, cs[..n], test, reason, c.key); }
    } else {
      Marked(dropped, cs[..n], test, reason, c);
    }
  }

  lemma {:induction false} Unmarked(dropped: Dropped, cs: seq<Candidate>, test: Test, reason: Reason, key: string)
    requires forall k :: 0 <= k < |cs| ==> cs[k].key != key
    ensures var dropped' := Mark(dropped, cs, test, reason);
            (key in dropped' <==> key in dropped) && (key in dropped ==> dropped'[key] == dropped[key])
  {
    if cs != [] { Unmarked(dropped, cs[..|cs| - 1], test, reason, key); }
  }

  lemma {:induction false} MarkedDuplicates(dropped: Dropped, cs: seq<Candidate>, key: string)
    requires forall k :: 0 <= k < |cs| ==> cs[k].key != key
    ensures var dropped' := MarkDuplicates(dropped, cs);
            (key in dropped' <==> key in dropped) && (key in dropped ==> dropped'[key] == dropped[key])
  {
    hide IsDuplicate;
    if cs != [] { MarkedDuplicates(dropped, cs[..|cs| - 1], key); }
  }

  lemma {:induction false} MarkedDuplicate(dropped: Dropped, cs: seq<Candidate>, i: nat)
    requires Distinct(cs) && i < |cs| && cs[i].key !in dropped
    ensures var dropped', key := MarkDuplicates(dropped, cs), cs[i].key;
            if IsDuplicate(cs[..i], cs[i]) then key in dropped' && dropped'[key] == Drop(cs[i].source, Duplicate)
            else key !in dropped'
  {
    hide IsDuplicate;
    var n := |cs| - 1;
    if i < n {
      MarkedDuplicate(dropped, cs[..n], i);
      assert cs[..n][..i] == cs[..i];
    } else {
      MarkedDuplicates(dropped, cs[..n], cs[i].key);
    }
  }

  /** The reason an item is out of the running, if there is one. */
  ghost function EarlyReason(e: Engine, inputs: Inputs, k: nat): Option<Reason>
    requires k < |inputs.retrieved|
  {
    var item := inputs.retrieved[k];
    if item.isMemory && item.id in inputs.superseded then Some(Superseded)
    else if inputs.conversation.Some? && item.conversation != inputs.conversation.value then Some(ForeignConversation)
    else if Repeats(e, inputs, k) then Some(Duplicate)
    else None
  }

  function SourceOf(item: RetrievedItem): Source { if item.isMemory then Memory else Chunk }

  lemma {:induction false} RelevantPrefix(e: Engine, inputs: Inputs, k: nat, n: nat)
    requires k < n <= |inputs.retrieved| && Relevant(inputs, inputs.retrieved[k])
    ensures RelevantBlocks(e, inputs, k) + [FromRetrieved(e.texts, e.cost, inputs.retrieved[k])] <=
            RelevantBlocks(e, inputs, n)
  {
    hide FromRetrieved, Relevant;
    if k < n - 1 { RelevantPrefix(e, inputs, k, n - 1); }
  }

  /** A rejected key is absent from what passed. */
  lemma KeyGone(cs: seq<Candidate>, test: Test, c: Candidate)
    requires Distinct(cs) && c in cs && !test(c)
    ensures forall k :: 0 <= k < |Keep(cs, test)| ==> Keep(cs, test)[k].key != c.key
  {
    KeepMembers(cs, test);
    hide Keep;
    var kept := Keep(cs, test);
    forall k | 0 <= k < |kept| ensures kept[k].key != c.key {
      assert kept[k] in cs && test(kept[k]);
    }
  }

  lemma {:induction false} KeyStaysGone(cs: seq<Candidate>, test: Test, key: string)
    requires forall k :: 0 <= k < |cs| ==> cs[k].key != key
    ensures forall k :: 0 <= k < |Keep(cs, test)| ==> Keep(cs, test)[k].key != key
  {
    if cs != [] { KeyStaysGone(cs[..|cs| - 1], test, key); }
  }

  /** The entry for an item after the three stages. */
  ghost predicate Entered(dropped: Dropped, item: RetrievedItem, reason: Option<Reason>) {
    if reason.Some? then item.id in dropped && dropped[item.id] == Drop(SourceOf(item), reason.value)
    else item.id !in dropped
  }

  lemma FusedBlock(e: Engine, inputs: Inputs, k: nat)
    requires k < |inputs.retrieved|
    ensures FromRetrieved(e.texts, e.cost, inputs.retrieved[k]) in Fused(e, inputs)
  {
    FusedParts(e, inputs);
    hide Fused, RawPart, FromRetrieved;
    assert RetrievedCandidates(e, inputs.retrieved)[k] in RetrievedCandidates(e, inputs.retrieved);
  }

  lemma StageEntry(e: Engine, inputs: Inputs, k: nat)
    requires ProperIds(inputs.retrieved) && k < |inputs.retrieved|
    ensures Entered(StageDrops(e, inputs), inputs.retrieved[k], EarlyReason(e, inputs, k))
  {
    hide Fused, Keep, Mark, MarkDuplicates, ProperIds, Distinct, Repeats, RawPart, RelevantBlocks;
    var item := inputs.retrieved[k];
    var c := FromRetrieved(e.texts, e.cost, item);
    var p, q := NotSuperseded(inputs.superseded), NotForeign(inputs.conversation);
    var fused := Fused(e, inputs);
    FusedDistinct(e, inputs);
    FusedBlock(e, inputs, k);
    var current, first := Keep(fused, p), Mark(map[], fused, p, Superseded);
    Marked(map[], fused, p, Superseded, c);
    KeepDistinct(fused, p);
    var own, second := Keep(current, q), Mark(first, current, q, ForeignConversation);
    if !p(c) {
      KeyGone(fused, p, c);
      Unmarked(first, current, q, ForeignConversation, c.key);
      KeyStaysGone(current, q, c.key);
      MarkedDuplicates(second, own, c.key);
    } else {
      KeepMembers(fused, p);
      Marked(first, current, q, ForeignConversation, c);
      if !q(c) {
        KeyGone(current, q, c);
        MarkedDuplicates(second, own, c.key);
      } else {
        KeepDistinct(current, q);
        FiltersKeep(e, inputs);
        RelevantEntry(e, inputs, k, own, second);
      }
    }
  }

  lemma BlockNamed(e: Engine, item: RetrievedItem)
    ensures var c := FromRetrieved(e.texts, e.cost, item); c.source == SourceOf(item) && c.key == item.id
  {
  }

  lemma RelevantEntry(e: Engine, inputs: Inputs, k: nat, own: seq<Candidate>, dropped: Dropped)
    requires k < |inputs.retrieved| && Relevant(inputs, inputs.retrieved[k]) && Distinct(own)
    requires own == RawPart(e, inputs) + RelevantBlocks(e, inputs, |inputs.retrieved|)
    requires inputs.retrieved[k].id !in dropped
    ensures Entered(MarkDuplicates(dropped, own), inputs.retrieved[k],
                    if Repeats(e, inputs, k) then Some(Duplicate) else None)
  {
    hide MarkDuplicates, Distinct, Repeats, RawPart, RelevantBlocks, FromRetrieved, Relevant, IsDuplicate;
    var c := FromRetrieved(e.texts, e.cost, inputs.retrieved[k]);
    BlockNamed(e, inputs.retrieved[k]);
    RelevantPrefix(e, inputs, k, |inputs.retrieved|);
    var raw, before := RawPart(e, inputs), RelevantBlocks(e, inputs, k);
    var i := |raw| + |before|;
    PrefixAt(raw, before, c, RelevantBlocks(e, inputs, |inputs.retrieved|));
    MarkedDuplicate(dropped, own, i);
    DuplicateExactly(e, inputs, k);
  }

  lemma PrefixAt(raw: seq<Candidate>, before: seq<Candidate>, c: Candidate, all: seq<Candidate>)
    requires before + [c] <= all
    ensures var i := |raw| + |before|;
            i < |raw + all| && (raw + all)[i] == c && (raw + all)[..i] == raw + before
  {
    assert all[|before|] == (before + [c])[|before|];
    assert all[..|before|] == (before + [c])[..|before|];
  }

  /** Interactions left out of the window do not touch an item's entry. */
  lemma EntryBeforeBlocks(e: Engine, inputs: Inputs, k: nat, room: nat)
    requires ProperIds(inputs.retrieved) && k < |inputs.retrieved|
    ensures Entered(DropsBeforeBlocks(e, inputs, room), inputs.retrieved[k], EarlyReason(e, inputs, k))
  {
    hide Fused, Keep, Mark, ProperIds, Distinct, StageDrops, Window, EarlyReason, Segment, KeySet;
    var item := inputs.retrieved[k];
    StageEntry(e, inputs, k);
    FusedDistinct(e, inputs);
    FusedBlock(e, inputs, k);
    FusedRecent(e, inputs);
    KeepMembers(Fused(e, inputs), IsRecent);
    var c, recents := FromRetrieved(e.texts, e.cost, item), Recents(e, inputs);
    forall j | 0 <= j < |recents| ensures recents[j].key != c.key {
      assert recents[j] in recents && recents[j].source.RecentTurn? && !c.source.RecentTurn?;
      if recents[j].key == c.key { SameKeySameCandidate(Fused(e, inputs), recents[j], c); }
    }
    Unmarked(StageDrops(e, inputs), recents, InKeys(KeySet(Window(recents, room))), Budget, c.key);
  }

  lemma {:induction false} StayingMember(e: Engine, inputs: Inputs, k: nat, n: nat)
    requires k < n <= |inputs.retrieved| && Stays(e, inputs, k)
    ensures FromRetrieved(e.texts, e.cost, inputs.retrieved[k]) in StayingBlocks(e, inputs, n)
  {
    hide Stays, FromRetrieved;
    if k < n - 1 {
      StayingMember(e, inputs, k, n - 1);
    }
  }

  /**
   Every retrieved item is accounted for with the reason that fits it: superseded, from another conversation, a
   repetition, or competing, and then it is in the plan as its block or was left out for room or rank.
   */
  lemma ItemAccounted(e: Engine, inputs: Inputs, r: Assembly, k: nat)
    requires ProperIds(inputs.retrieved) && Assembled(e, inputs, r) && r.Ready? && k < |inputs.retrieved|
    ensures var item, reason := inputs.retrieved[k], EarlyReason(e, inputs, k);
            if reason.Some? then Entered(r.dropped, item, reason)
            else if item.id in r.dropped then
              exists why :: (why == Budget || why == NotSelected) && r.dropped[item.id] == Drop(SourceOf(item), why)
            else exists c :: c in r.selected && BlockOf(e, item, c)
  {
    hide Assembled, Keep, ProperIds, Distinct, DropsBeforeBlocks, Window, EarlyReason, KeySet, Ranked, Tokens,
      BlocksChosen, Survivors, LeftOut, FromRetrieved, BlockOf, Entered, MandatoryPrice, StageDrops, Fused;
    PlanParts(e, inputs, r);
    var item, room := inputs.retrieved[k], e.usable - MandatoryPrice(e, inputs);
    var dropped, retrieval := DropsBeforeBlocks(e, inputs, room), Keep(Survivors(e, inputs), IsRetrieval);
    EntryBeforeBlocks(e, inputs, k, room);
    if EarlyReason(e, inputs, k).None? {
      CompetingItem(e, inputs, k);
      var c := FromRetrieved(e.texts, e.cost, item);
      BlockIs(e, inputs, item);
      BlockNamed(e, item);
      SurvivorsAccount(e, inputs);
      KeepDistinct(Survivors(e, inputs), IsRetrieval);
      KeepMembers(r.selected, IsRetrieval);
      var left := room - Tokens(Window(Recents(e, inputs), room));
      BlocksPicked(e, inputs, room, Keep(r.selected, IsRetrieval), r.dropped);
      assert c.key !in dropped by { NotEntered(dropped, item); }
      BlockOutcome(retrieval, Keep(r.selected, IsRetrieval), dropped, r.dropped, Ranked(e, retrieval, left), c);
    } else {
      EntryStays(dropped, r.dropped, item, EarlyReason(e, inputs, k), retrieval, Keep(r.selected, IsRetrieval),
                 Ranked(e, retrieval, room - Tokens(Window(Recents(e, inputs), room))));
    }
  }

  lemma PlanParts(e: Engine, inputs: Inputs, r: Assembly)
    requires Assembled(e, inputs, r) && r.Ready?
    ensures var price := MandatoryPrice(e, inputs);
            && price <= e.usable
            && BlocksChosen(e, inputs, e.usable - price, Keep(r.selected, IsRetrieval), r.dropped)
            && (ProperIds(inputs.retrieved) ==> Recorded(e, inputs, e.usable - price, r.selected, r.dropped))
  {
    hide Keep, ProperIds, Window, Recents, Tokens, BlocksProper, BlocksChosen, Recorded, SelectionOrder, TotalCost,
      Flat, Instructions, Rendered, MandatoryPrice, RecentUnits;
  }

  lemma NotEntered(dropped: Dropped, item: RetrievedItem)
    requires Entered(dropped, item, None)
    ensures item.id !in dropped
  {
  }

  lemma EntryStays(
      dropped: Dropped, dropped': Dropped, item: RetrievedItem, reason: Option<Reason>,
      retrieval: seq<Candidate>, picked: seq<Candidate>, ranked: seq<string>)
    requires Entered(dropped, item, reason) && reason.Some? && LeftOut(dropped, dropped', retrieval, picked, ranked)
    ensures Entered(dropped', item, reason)
  {
  }

  lemma BlocksPicked(e: Engine, inputs: Inputs, room: nat, blocks: seq<Candidate>, dropped: Dropped)
    requires BlocksChosen(e, inputs, room, blocks, dropped)
    ensures forall c :: c in blocks ==> c in Keep(Survivors(e, inputs), IsRetrieval)
  {
    hide Keep, Survivors, Window, Recents, Tokens, RetrievalDrops, DropsBeforeBlocks, Picked;
    var left := room - Tokens(Window(Recents(e, inputs), room));
    PickedFromRetrieval(e, Keep(Survivors(e, inputs), IsRetrieval), left);
  }

  lemma CompetingItem(e: Engine, inputs: Inputs, k: nat)
    requires k < |inputs.retrieved| && EarlyReason(e, inputs, k).None?
    ensures FromRetrieved(e.texts, e.cost, inputs.retrieved[k]) in Keep(Survivors(e, inputs), IsRetrieval)
  {
    hide Keep, Survivors, Repeats, FromRetrieved;
    SurvivorsExactly(e, inputs);
    StayingMember(e, inputs, k, |inputs.retrieved|);
  }

  lemma BlockOutcome(
      retrieval: seq<Candidate>, picked: seq<Candidate>, dropped: Dropped, dropped': Dropped, ranked: seq<string>,
      c: Candidate)
    requires Distinct(retrieval) && c in retrieval && c.key !in dropped
    requires forall x :: x in picked ==> x in retrieval
    requires LeftOut(dropped, dropped', retrieval, picked, ranked)
    ensures if c.key in dropped' then exists why ::
              (why == Budget || why == NotSelected) && dropped'[c.key] == Drop(c.source, why)
            else c in picked
  {
    assert c.key in KeySet(retrieval);
    hide Distinct;
    if c.key in dropped' {
      var why := if c.key in ranked then Budget else NotSelected;
      assert Explains(dropped'[c.key], c.key, retrieval, why);
      var x :| x in retrieval && x.key == c.key && dropped'[c.key] == Drop(x.source, why);
      SameKeySameCandidate(retrieval, x, c);
    } else {
      var x :| x in picked && x.key == c.key;
      SameKeySameCandidate(retrieval, x, c);
    }
  }

  // ---- why an interaction is missing ----

  lemma {:induction false} UnitKept(texts: Texts, units: seq<Unit>, k: nat)
    requires k < |units| && units[k].kind != Instruction
    ensures FromUnit(texts, units[k], k) in Keep(UnitCandidates(texts, units), IsRecent)
  {
    KeepMembers(UnitCandidates(texts, units), IsRecent);
    assert UnitCandidates(texts, units)[k] in UnitCandidates(texts, units);
  }

  /** The recent candidates live through the stages, so no stage records them, and no block has their key. */
  lemma RecentUntouched(e: Engine, inputs: Inputs, c: Candidate)
    requires ProperIds(inputs.retrieved) && c in Recents(e, inputs)
    ensures Distinct(Recents(e, inputs))
    ensures c.key !in StageDrops(e, inputs) && c.key !in KeySet(Keep(Survivors(e, inputs), IsRetrieval))
  {
    hide Keep, Survivors, Segment, StageDrops, Fused, Distinct, ProperIds, Recents;
    SurvivorsAccount(e, inputs);
    SurvivorClasses(e, inputs);
    var cs := Survivors(e, inputs);
    KeepMembers(cs, IsRecent);
    KeepDistinct(cs, IsRecent);
    assert c.key in KeySet(cs) && c.key in KeySet(Recents(e, inputs));
    PartitionKeys(cs);
    hide KeySet;
  }

  /** Every interaction is in the plan whole, or recorded as over budget. */
  lemma TurnAccounted(e: Engine, inputs: Inputs, r: Assembly, k: nat)
    requires ProperIds(inputs.retrieved) && Assembled(e, inputs, r) && r.Ready?
    requires k < |Segment(e.cost, inputs.history)| && Segment(e.cost, inputs.history)[k].kind != Instruction
    ensures var key, unit := "unit:" + Decimal(k), Segment(e.cost, inputs.history)[k];
            if key in r.dropped then r.dropped[key] == Drop(RecentTurn, Budget)
            else exists c :: c in r.selected && c.key == key && c.render == unit.messages && c.tokens == unit.tokens
  {
    hide Assembled, Keep, ProperIds, Distinct, Window, KeySet, Ranked, Tokens, BlocksChosen, Survivors, LeftOut,
      MandatoryPrice, StageDrops, Fused, Segment, Mark, Accounts, Decimal, SelectionOrder;
    var unit, room := Segment(e.cost, inputs.history)[k], e.usable - MandatoryPrice(e, inputs);
    var c := FromUnit(e.texts, unit, k);
    assert c.source == RecentTurn && c.key == "unit:" + Decimal(k) && c.render == unit.messages;
    hide FromUnit;
    PlanParts(e, inputs, r);
    PlanOrder(e, inputs, r);
    UnitKept(e.texts, Segment(e.cost, inputs.history), k);
    RecentUntouched(e, inputs, c);
    var retrieval, recents := Keep(Survivors(e, inputs), IsRetrieval), Recents(e, inputs);
    var kept := Window(recents, room);
    Marked(StageDrops(e, inputs), recents, InKeys(KeySet(kept)), Budget, c);
    TurnOutcome(retrieval, Keep(r.selected, IsRetrieval), DropsBeforeBlocks(e, inputs, room), r.dropped,
                Ranked(e, retrieval, room - Tokens(kept)), c.key);
    if c.key in KeySet(kept) {
      WindowHolds(recents, room, c);
      assert c in r.selected by { OrderHolds(e, inputs, Keep(r.selected, IsRetrieval), kept, c); }
    }
  }

  lemma PlanOrder(e: Engine, inputs: Inputs, r: Assembly)
    requires Assembled(e, inputs, r) && r.Ready?
    ensures var price := MandatoryPrice(e, inputs);
            && price <= e.usable
            && r.selected == SelectionOrder(e, inputs, Keep(r.selected, IsRetrieval),
                                            Window(Recents(e, inputs), e.usable - price))
  {
    hide Keep, ProperIds, Window, Recents, Tokens, BlocksProper, BlocksChosen, Recorded, SelectionOrder, TotalCost,
      Flat, Instructions, Rendered, MandatoryPrice, RecentUnits;
  }

  /** Picking blocks leaves the entry of any other key as it is. */
  lemma TurnOutcome(
      retrieval: seq<Candidate>, picked: seq<Candidate>, dropped: Dropped, dropped': Dropped, ranked: seq<string>,
      key: string)
    requires LeftOut(dropped, dropped', retrieval, picked, ranked) && key !in KeySet(retrieval)
    ensures key in dropped' <==> key in dropped
    ensures key in dropped ==> dropped'[key] == dropped[key]
  {
    hide KeySet;
  }

  lemma WindowHolds(recents: seq<Candidate>, room: nat, c: Candidate)
    requires Distinct(recents) && c in recents && c.key in KeySet(Window(recents, room))
    ensures c in Window(recents, room)
  {
    hide Distinct;
    var x :| x in Window(recents, room) && x.key == c.key;
    assert x in recents;
    SameKeySameCandidate(recents, x, c);
  }

  lemma OrderHolds(e: Engine, inputs: Inputs, blocks: seq<Candidate>, kept: seq<Candidate>, c: Candidate)
    requires c in kept
    ensures c in SelectionOrder(e, inputs, blocks, kept)
  {
    hide Systems, TheRequest, PinnedCandidates;
  }
}
