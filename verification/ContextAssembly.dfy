/** Building a plan end to end, and what every plan satisfies. */
module ContextAssembly {
  import opened Messages
  import opened Segmentation
  import opened Candidates
  import Planner
  import opened CandidateLists
  import opened ContextEngine

  // ---- the unit candidates mirror the units ----

  predicate Mirrors(cs: seq<Candidate>, units: seq<Unit>) {
    && |cs| == |units|
    && forall k :: 0 <= k < |cs| ==> cs[k].render == units[k].messages && cs[k].tokens == units[k].tokens
  }

  lemma {:induction false} MirrorsRender(cs: seq<Candidate>, units: seq<Unit>)
    requires Mirrors(cs, units)
    ensures Rendered(cs) == Flat(units) && PricesOf(cs) == Planner.Prices(units)
  {
    if cs != [] {
      var n := |cs| - 1;
      MirrorsRender(cs[..n], units[..n]);
    }
  }

  lemma UnitIs(texts: Texts, unit: Unit, index: nat)
    ensures var c := FromUnit(texts, unit, index);
            && c.source == (if unit.kind.Instruction? then System else RecentTurn)
            && c.render == unit.messages && c.tokens == unit.tokens && c.position == index
  {
  }

  lemma {:induction false} SystemsMirrored(texts: Texts, units: seq<Unit>)
    ensures Mirrors(Keep(UnitCandidates(texts, units), IsMandatory), OfKind(units, true))
  {
    if units != [] {
      var n := |units| - 1;
      SystemsMirrored(texts, units[..n]);
      UnitIs(texts, units[n], n);
      hide FromUnit;
      var cs := UnitCandidates(texts, units);
      assert cs[..n] == UnitCandidates(texts, units[..n]);
    }
  }

  lemma {:induction false} SystemsAscend(texts: Texts, units: seq<Unit>)
    ensures var systems := Keep(UnitCandidates(texts, units), IsMandatory);
            Ascending(systems, System) && forall k :: 0 <= k < |systems| ==> systems[k].position < |units|
  {
    if units != [] {
      var n := |units| - 1;
      SystemsAscend(texts, units[..n]);
      UnitIs(texts, units[n], n);
      hide FromUnit;
      var cs, c := UnitCandidates(texts, units), FromUnit(texts, units[n], n);
      assert cs[..n] == UnitCandidates(texts, units[..n]) && cs[n] == c;
      var before := Keep(cs[..n], IsMandatory);
      assert Keep(cs, IsMandatory) == before + if IsMandatory(c) then [c] else [];
      hide Keep, UnitCandidates;
    }
  }

  lemma {:induction false} RecentsMirrored(texts: Texts, units: seq<Unit>)
    ensures Mirrors(Keep(UnitCandidates(texts, units), IsRecent), OfKind(units, false))
  {
    if units != [] {
      var n := |units| - 1;
      RecentsMirrored(texts, units[..n]);
      UnitIs(texts, units[n], n);
      hide FromUnit;
      var cs := UnitCandidates(texts, units);
      assert cs[..n] == UnitCandidates(texts, units[..n]);
    }
  }

  // ---- raw candidates pass every stage ----

  predicate IsTools(c: Candidate) { c.source.ToolDefinitions? }

  lemma {:induction false} DuplicatesAreDerived(cs: seq<Candidate>, test: Test)
    requires forall k :: 0 <= k < |cs| && test(cs[k]) ==> IsRaw(cs[k])
    ensures Keep(WithoutDuplicates(cs), test) == Keep(cs, test)
  {
    if cs != [] {
      var n := |cs| - 1;
      DuplicatesAreDerived(cs[..n], test);
      var last := if IsDuplicate(cs[..n], cs[n]) then [] else [cs[n]];
      KeepConcat(WithoutDuplicates(cs[..n]), last, test);
      assert [cs[n]][..0] == [];
    }
  }

  lemma {:induction false} ToolTokensKept(cs: seq<Candidate>)
    ensures ToolTokens(cs) ==
            var tools := Keep(cs, IsTools);
            if tools == [] then 0 else tools[|tools| - 1].tokens
  {
    if cs != [] {
      ToolTokensKept(cs[..|cs| - 1]);
    }
  }

  /** The candidates that reach allocation. */
  function Survivors(e: Engine, inputs: Inputs): seq<Candidate> {
    WithoutDuplicates(Keep(Keep(Fused(e, inputs), NotSuperseded(inputs.superseded)), NotForeign(inputs.conversation)))
  }

  lemma SurvivorsKeepRaw(e: Engine, inputs: Inputs, test: Test)
    requires forall c :: test(c) ==> IsRaw(c)
    ensures Keep(Survivors(e, inputs), test) == Keep(Fused(e, inputs), test)
  {
    hide Fused, Keep, WithoutDuplicates;
    var fused := Fused(e, inputs);
    var current := Keep(fused, NotSuperseded(inputs.superseded));
    var own := Keep(current, NotForeign(inputs.conversation));
    KeepThrough(fused, NotSuperseded(inputs.superseded), test);
    KeepThrough(current, NotForeign(inputs.conversation), test);
    DuplicatesAreDerived(own, test);
  }

  // ---- shape of the fused list ----

  function Systems(e: Engine, inputs: Inputs): seq<Candidate> {
    Keep(UnitCandidates(e.texts, Segment(e.cost, inputs.history)), IsMandatory)
  }

  function Recents(e: Engine, inputs: Inputs): seq<Candidate> {
    Keep(UnitCandidates(e.texts, Segment(e.cost, inputs.history)), IsRecent)
  }

  function TheRequest(e: Engine, inputs: Inputs): seq<Candidate> {
    RequestCandidates(e, inputs.request, |Segment(e.cost, inputs.history)|)
  }

  /** A filter of the fused list is the concatenation of the filters of its parts. */
  lemma KeepFused(e: Engine, inputs: Inputs, test: Test)
    ensures var units := Segment(e.cost, inputs.history);
            Keep(Fused(e, inputs), test) ==
            Keep(UnitCandidates(e.texts, units), test)
            + Keep(TheRequest(e, inputs), test)
            + Keep(ToolCandidates(inputs.tools), test)
            + Keep(PinnedCandidates(e, inputs.pinned), test)
            + Keep(RetrievedCandidates(e, inputs.retrieved), test)
  {
    hide Keep, Segment;
    var a := UnitCandidates(e.texts, Segment(e.cost, inputs.history));
    var b, c := TheRequest(e, inputs), ToolCandidates(inputs.tools);
    var d, r := PinnedCandidates(e, inputs.pinned), RetrievedCandidates(e, inputs.retrieved);
    KeepConcat(a, b, test);
    KeepConcat(a + b, c, test);
    KeepConcat(a + b + c, d, test);
    KeepConcat(a + b + c + d, r, test);
  }

  lemma FusedMandatory(e: Engine, inputs: Inputs)
    ensures Keep(Fused(e, inputs), IsMandatory) ==
            Systems(e, inputs) + TheRequest(e, inputs) + PinnedCandidates(e, inputs.pinned)
  {
    hide Keep, Segment, Fused;
    KeepFused(e, inputs, IsMandatory);
    KeepAll(TheRequest(e, inputs), IsMandatory);
    KeepNone(ToolCandidates(inputs.tools), IsMandatory);
    KeepAll(PinnedCandidates(e, inputs.pinned), IsMandatory);
    KeepNone(RetrievedCandidates(e, inputs.retrieved), IsMandatory);
  }

  lemma FusedRecent(e: Engine, inputs: Inputs)
    ensures Keep(Fused(e, inputs), IsRecent) == Recents(e, inputs)
  {
    hide Keep, Segment, Fused;
    KeepFused(e, inputs, IsRecent);
    KeepNone(TheRequest(e, inputs), IsRecent);
    KeepNone(ToolCandidates(inputs.tools), IsRecent);
    KeepNone(PinnedCandidates(e, inputs.pinned), IsRecent);
    KeepNone(RetrievedCandidates(e, inputs.retrieved), IsRecent);
  }

  lemma FusedTools(e: Engine, inputs: Inputs)
    ensures Keep(Fused(e, inputs), IsTools) == ToolCandidates(inputs.tools)
  {
    hide Keep, Segment, Fused;
    KeepFused(e, inputs, IsTools);
    KeepNone(UnitCandidates(e.texts, Segment(e.cost, inputs.history)), IsTools);
    KeepNone(TheRequest(e, inputs), IsTools);
    KeepAll(ToolCandidates(inputs.tools), IsTools);
    KeepNone(PinnedCandidates(e, inputs.pinned), IsTools);
    KeepNone(RetrievedCandidates(e, inputs.retrieved), IsTools);
  }

  // ---- keys of the fused list ----

  /** Retrieval ids are distinct and none is a key the engine uses itself. */
  ghost predicate ProperIds(items: seq<RetrievedItem>) {
    && (forall i, j :: 0 <= i < j < |items| ==> items[i].id != items[j].id)
    && forall k :: 0 <= k < |items| ==> !Reserved(items[k].id)
  }

  lemma FusedDistinct(e: Engine, inputs: Inputs)
    requires ProperIds(inputs.retrieved)
    ensures Distinct(Fused(e, inputs))
  {
    hide Segment, Decimal, UnitKey, PinnedKey, FromUnit, FromPinned, FromRetrieved, FromRequest;
    var a := UnitCandidates(e.texts, Segment(e.cost, inputs.history));
    var b, c := TheRequest(e, inputs), ToolCandidates(inputs.tools);
    var d, r := PinnedCandidates(e, inputs.pinned), RetrievedCandidates(e, inputs.retrieved);
    PartKeys(e, inputs);
    DistinctConcat(a, b);
    DistinctConcat(a + b, c);
    DistinctConcat(a + b + c, d);
    DistinctConcat(a + b + c + d, r);
  }

  lemma PartKeys(e: Engine, inputs: Inputs)
    requires ProperIds(inputs.retrieved)
    ensures var a := UnitCandidates(e.texts, Segment(e.cost, inputs.history));
            var b, c := TheRequest(e, inputs), ToolCandidates(inputs.tools);
            var d, r := PinnedCandidates(e, inputs.pinned), RetrievedCandidates(e, inputs.retrieved);
            && Distinct(a) && Distinct(b) && Distinct(c) && Distinct(d) && Distinct(r)
            && KeySet(a) !! KeySet(b) !! KeySet(c) !! KeySet(d) !! KeySet(r)
  {
    UnitKeys(e.texts, Segment(e.cost, inputs.history));
    PinnedKeys(e, inputs.pinned);
    hide Segment, IsUnitKey, IsPinnedKey, FromUnit, FromPinned, UnitCandidates, PinnedCandidates;
    forall key ensures !(IsUnitKey(key) && IsPinnedKey(key)) { KeysApart(key); }
    KeysApart(TOOLS_KEY);
  }

  lemma UnitKeys(texts: Texts, units: seq<Unit>)
    ensures Distinct(UnitCandidates(texts, units))
    ensures forall key :: key in KeySet(UnitCandidates(texts, units)) ==> IsUnitKey(key)
  {
    hide UnitKey;
    forall i: nat, j: nat ensures UnitKey(i) == UnitKey(j) ==> i == j { KeysInjective(i, j); }
  }

  lemma PinnedKeys(e: Engine, pinned: seq<Message>)
    ensures Distinct(PinnedCandidates(e, pinned))
    ensures forall key :: key in KeySet(PinnedCandidates(e, pinned)) ==> IsPinnedKey(key)
  {
    hide PinnedKey;
    forall i: nat, j: nat ensures PinnedKey(i) == PinnedKey(j) ==> i == j { KeysInjective(i, j); }
  }

  // ---- allocation ----

  datatype Allocation =
    | NoRoom(required: nat)
    | Allocated(ordered: seq<Candidate>, tools: nat, dropped: Dropped)

  function InKeys(keys: set<string>): Test {
    (c: Candidate) => c.key in keys
  }

  /** Mandatory candidates, then the newest turns that fit, then diverse blocks in what is left. */
  ghost predicate IsAllocation(e: Engine, cs: seq<Candidate>, dropped: Dropped, a: Allocation) {
    var mandatory, recent, retrieval := Keep(cs, IsMandatory), Keep(cs, IsRecent), Keep(cs, IsRetrieval);
    var price := Tokens(mandatory) + ToolTokens(cs);
    if price > e.usable then a == NoRoom(price)
    else
      var kept := Window(recent, e.usable - price);
      var left := e.usable - price - Tokens(kept);
      && a.Allocated? && a.tools == ToolTokens(cs)
      && a.ordered == RenderOrder(mandatory, Picked(e, retrieval, left), kept)
      && a.dropped ==
         RetrievalDrops(e, retrieval, left, Mark(dropped, recent, InKeys(KeySet(kept)), Budget))
  }

  method Allocate(e: Engine, cs: seq<Candidate>, dropped: Dropped) returns (a: Allocation)
    ensures IsAllocation(e, cs, dropped, a)
  {
    hide RenderOrder, Picked, RetrievalDrops, Window, Mark, Tokens, ToolTokens, KeySet;
    var mandatory, recent, retrieval, tools := Classify(cs);
    var price := Tokens(mandatory) + tools;
    if price > e.usable {
      return NoRoom(price);
    }
    var kept := KeepNewest(recent, e.usable - price);
    var _, dropped' := Filter(recent, InKeys(KeySet(kept)), Budget, dropped);
    var picked;
    picked, dropped' := PickRetrieved(e, retrieval, e.usable - price - Tokens(kept), dropped');
    return Allocated(RenderOrder(mandatory, picked, kept), tools, dropped');
  }

  lemma RecentApart(cs: seq<Candidate>, dropped: Dropped, test: Test)
    requires Distinct(cs) && KeySet(cs) !! dropped.Keys
    ensures KeySet(Keep(cs, IsRetrieval)) !! Mark(dropped, Keep(cs, IsRecent), test, Budget).Keys
  {
    PartitionKeys(cs);
    MarkKeys(dropped, Keep(cs, IsRecent), test, Budget);
    hide Keep, Mark, Distinct;
    assert forall c :: c in Keep(cs, IsRecent) ==> c.key in KeySet(Keep(cs, IsRecent));
  }

  /** The four classes of candidates share no key and cover all keys. */
  lemma PartitionKeys(cs: seq<Candidate>)
    requires Distinct(cs)
    ensures var m, r, b, t := Keep(cs, IsMandatory), Keep(cs, IsRecent), Keep(cs, IsRetrieval), Keep(cs, IsTools);
            && KeySet(m) !! KeySet(r) !! KeySet(b) !! KeySet(t)
            && KeySet(m) + KeySet(r) + KeySet(b) + KeySet(t) == KeySet(cs)
  {
    KeepMembers(cs, IsMandatory);
    KeepMembers(cs, IsRecent);
    KeepMembers(cs, IsRetrieval);
    KeepMembers(cs, IsTools);
    hide Keep;
    var m, r, b, t := Keep(cs, IsMandatory), Keep(cs, IsRecent), Keep(cs, IsRetrieval), Keep(cs, IsTools);
    forall x, y | x in cs && y in cs && x.key == y.key ensures x == y { SameKeySameCandidate(cs, x, y); }
    assert forall c :: c in cs ==> c in m || c in r || c in b || c in t;
  }

  lemma DistinctSplit(a: seq<Candidate>, b: seq<Candidate>)
    requires Distinct(a + b)
    ensures Distinct(a) && Distinct(b) && KeySet(a) !! KeySet(b) && KeySet(a + b) == KeySet(a) + KeySet(b)
  {
    forall i, j | 0 <= i < |a| && 0 <= j < |b| ensures a[i].key != b[j].key {
      assert (a + b)[i] == a[i] && (a + b)[|a| + j] == b[j];
    }
    forall i, j | 0 <= i < j < |a| ensures a[i].key != a[j].key {
      assert (a + b)[i] == a[i] && (a + b)[j] == a[j];
    }
    forall i, j | 0 <= i < j < |b| ensures b[i].key != b[j].key {
      assert (a + b)[|a| + i] == b[i] && (a + b)[|a| + j] == b[j];
    }
    assert forall c :: c in a + b <==> c in a || c in b;
  }

  // ---- the plan ----

  ghost predicate AllTrusted(cs: seq<Candidate>) {
    forall k :: 0 <= k < |cs| ==> RespectsTrust(cs[k])
  }

  lemma RenderStep(cs: seq<Candidate>, k: nat)
    requires k < |cs|
    ensures Rendered(cs[..k + 1]) == Rendered(cs[..k]) + cs[k].render
    ensures Tokens(cs[..k + 1]) == Tokens(cs[..k]) + cs[k].tokens
  {
    assert cs[..k + 1] == cs[..k] + [cs[k]] && cs[..k + 1][..k] == cs[..k];
    TokensConcat(cs[..k], [cs[k]]);
    TokensOne(cs[k]);
  }

  lemma NothingRendered()
    ensures Rendered([]) == [] && Tokens([]) == 0
  {
  }

  /** Renders the ordered candidates; both structural guards of the source are kept. */
  method MakePlan(e: Engine, ordered: seq<Candidate>, tools: nat, dropped: Dropped) returns (r: Assembly)
    ensures !AllTrusted(ordered) ==> r.Untrusted?
    ensures AllTrusted(ordered) ==>
              r == if Tokens(ordered) + tools > e.usable then Overflow(Tokens(ordered) + tools, e.usable)
                   else Ready(Rendered(ordered), ordered, dropped, Tokens(ordered) + tools)
  {
    hide Rendered, Tokens, RespectsTrust;
    var messages: seq<Message>, tokens := [], 0;
    NothingRendered();
    assert ordered[..0] == [];
    for k := 0 to |ordered|
      invariant forall j :: 0 <= j < k ==> RespectsTrust(ordered[j])
      invariant messages == Rendered(ordered[..k]) && tokens == Tokens(ordered[..k])
    {
      var c := ordered[k];
      if !RespectsTrust(c) {
        return Untrusted(c.key);
      }
      RenderStep(ordered, k);
      messages, tokens := messages + c.render, tokens + c.tokens;
    }
    assert ordered[..|ordered|] == ordered;
    tokens := tokens + tools;
    if tokens > e.usable {
      return Overflow(tokens, e.usable);
    }
    return Ready(messages, ordered, dropped, tokens);
  }

  // ---- what the candidates render and cost ----

  lemma PinnedRender(e: Engine, pinned: seq<Message>)
    ensures Rendered(PinnedCandidates(e, pinned)) == pinned
  {
    if pinned != [] {
      var n := |pinned| - 1;
      PinnedRender(e, pinned[..n]);
      assert PinnedCandidates(e, pinned)[..n] == PinnedCandidates(e, pinned[..n]);
      assert pinned[..n] + [pinned[n]] == pinned;
    }
  }

  lemma UnitsRender(e: Engine, inputs: Inputs)
    ensures Rendered(Systems(e, inputs)) == Instructions(inputs.history)
    ensures Mirrors(Recents(e, inputs), OfKind(Segment(e.cost, inputs.history), false))
    ensures Ascending(Systems(e, inputs), System)
  {
    var units := Segment(e.cost, inputs.history);
    SystemsMirrored(e.texts, units);
    SystemsAscend(e.texts, units);
    RecentsMirrored(e.texts, units);
    MirrorsRender(Systems(e, inputs), OfKind(units, true));
    SegmentFaithful(e.cost, inputs.history);
    KindsSplit(e.cost, units);
  }

  lemma RequestRender(e: Engine, inputs: Inputs)
    ensures Rendered(TheRequest(e, inputs)) == inputs.request
  {
    hide Segment;
    if inputs.request != [] {
      assert Rendered(TheRequest(e, inputs)[..0]) == [];
    }
  }

  ghost predicate Sound(cost: Cost, cs: seq<Candidate>) {
    forall k :: 0 <= k < |cs| ==> Priced(cost, cs[k]) && RespectsTrust(cs[k])
  }

  lemma UnitSound(cost: Cost, texts: Texts, unit: Unit, index: nat)
    requires unit.tokens == TotalCost(cost, unit.messages)
    ensures Priced(cost, FromUnit(texts, unit, index)) && RespectsTrust(FromUnit(texts, unit, index))
  {
  }

  lemma UnitsSound(e: Engine, history: seq<Message>)
    ensures Sound(e.cost, UnitCandidates(e.texts, Segment(e.cost, history)))
  {
    hide Segment, TotalCost, FromUnit, Priced, RespectsTrust;
    SegmentFaithful(e.cost, history);
    var units := Segment(e.cost, history);
    forall k | 0 <= k < |units|
      ensures Priced(e.cost, FromUnit(e.texts, units[k], k)) && RespectsTrust(FromUnit(e.texts, units[k], k))
    {
      assert WellFormed(e.cost, units[k]);
      UnitSound(e.cost, e.texts, units[k], k);
    }
  }

  lemma OthersSound(e: Engine, inputs: Inputs)
    ensures Sound(e.cost, TheRequest(e, inputs)) && Sound(e.cost, ToolCandidates(inputs.tools))
    ensures Sound(e.cost, PinnedCandidates(e, inputs.pinned))
    ensures Sound(e.cost, RetrievedCandidates(e, inputs.retrieved))
  {
    hide Segment;
    forall m: Message ensures TotalCost(e.cost, [m]) == e.cost(m) {
      assert TotalCost(e.cost, [m][..0]) == 0;
    }
    hide TotalCost;
  }

  /** Every fused candidate is priced by what it renders, and no derived block renders as an instruction. */
  lemma FusedSound(e: Engine, inputs: Inputs)
    ensures Sound(e.cost, Fused(e, inputs))
  {
    UnitsSound(e, inputs.history);
    OthersSound(e, inputs);
    hide Segment, UnitCandidates, RequestCandidates, ToolCandidates, PinnedCandidates, RetrievedCandidates, Priced,
      RespectsTrust;
    var a := UnitCandidates(e.texts, Segment(e.cost, inputs.history));
    var b, c := TheRequest(e, inputs), ToolCandidates(inputs.tools);
    var d, r := PinnedCandidates(e, inputs.pinned), RetrievedCandidates(e, inputs.retrieved);
    SoundConcat(e.cost, a, b);
    SoundConcat(e.cost, a + b, c);
    SoundConcat(e.cost, a + b + c, d);
    SoundConcat(e.cost, a + b + c + d, r);
  }

  lemma SoundConcat(cost: Cost, a: seq<Candidate>, b: seq<Candidate>)
    requires Sound(cost, a) && Sound(cost, b)
    ensures Sound(cost, a + b)
  {
  }

  lemma {:induction false} WithoutDuplicatesMembers(cs: seq<Candidate>)
    ensures forall c :: c in WithoutDuplicates(cs) ==> c in cs
  {
    if cs != [] {
      WithoutDuplicatesMembers(cs[..|cs| - 1]);
    }
  }

  /** What a kept retrieval block says is said by no other kept retrieval block. */
  ghost predicate NoRepeats(kept: seq<Candidate>) {
    forall i, j :: 0 <= i < j < |kept| && !IsRaw(kept[i]) && !IsRaw(kept[j]) && kept[j].dedupText != "" ==>
      kept[i].dedupText != kept[j].dedupText
  }

  lemma {:induction false} DuplicatesGone(cs: seq<Candidate>)
    ensures NoRepeats(WithoutDuplicates(cs))
  {
    hide RawTexts, IsRaw;
    if cs != [] {
      var n := |cs| - 1;
      DuplicatesGone(cs[..n]);
      if !IsDuplicate(cs[..n], cs[n]) {
        WithoutDuplicatesMembers(cs[..n]);
        var before := WithoutDuplicates(cs[..n]);
        assert forall i :: 0 <= i < |before| ==> before[i] in cs[..n];
        assert WithoutDuplicates(cs) == before + [cs[n]];
      }
    }
  }

  /** Exactly the blocks that repeat nothing listed before them stay. */
  lemma {:induction false} KeptExactly(cs: seq<Candidate>, k: nat)
    requires k < |cs| && Distinct(cs)
    ensures cs[k] in WithoutDuplicates(cs) <==> !IsDuplicate(cs[..k], cs[k])
  {
    hide IsDuplicate;
    var n := |cs| - 1;
    WithoutDuplicatesMembers(cs[..n]);
    if k < n {
      KeptExactly(cs[..n], k);
      assert cs[..n][..k] == cs[..k];
      assert cs[k] != cs[n];
    } else {
      assert cs[n] !in cs[..n];
    }
  }

  // ---- accounting through the stages ----

  lemma {:induction false} DuplicatesAccount(cs: seq<Candidate>, dropped: Dropped)
    requires Distinct(cs) && KeySet(cs) !! dropped.Keys
    ensures Accounts(KeySet(cs) + dropped.Keys, WithoutDuplicates(cs), MarkDuplicates(dropped, cs))
  {
    if cs == [] {
      assert KeySet([]) == {};
    } else {
      hide IsDuplicate, Distinct, KeySet;
      var n := |cs| - 1;
      assert cs == cs[..n] + [cs[n]];
      DistinctSplit(cs[..n], [cs[n]]);
      OneKey(cs[n]);
      DuplicatesAccount(cs[..n], dropped);
      var all := KeySet(cs[..n]) + dropped.Keys;
      var live, marked := WithoutDuplicates(cs[..n]), MarkDuplicates(dropped, cs[..n]);
      AccountMore(all, live, marked, cs[n], Duplicate);
      assert KeySet(cs) + dropped.Keys == all + {cs[n].key};
    }
  }

  lemma OneKey(c: Candidate)
    ensures KeySet([c]) == {c.key} && Distinct([c])
  {
  }

  /** A new key is accounted for by keeping its candidate or by dropping it. */
  lemma AccountMore(all: set<string>, live: seq<Candidate>, dropped: Dropped, c: Candidate, reason: Reason)
    requires Accounts(all, live, dropped) && c.key !in all
    ensures Accounts(all + {c.key}, live + [c], dropped)
    ensures Accounts(all + {c.key}, live, dropped[c.key := Drop(c.source, reason)])
  {
    hide Distinct, KeySet;
    OneKey(c);
    DistinctConcat(live, [c]);
  }

  function StageDrops(e: Engine, inputs: Inputs): Dropped {
    var fused := Fused(e, inputs);
    var current := Keep(fused, NotSuperseded(inputs.superseded));
    var superseded := Mark(map[], fused, NotSuperseded(inputs.superseded), Superseded);
    var own := Keep(current, NotForeign(inputs.conversation));
    MarkDuplicates(Mark(superseded, current, NotForeign(inputs.conversation), ForeignConversation), own)
  }

  lemma SurvivorsAccount(e: Engine, inputs: Inputs)
    requires ProperIds(inputs.retrieved)
    ensures Accounts(KeySet(Fused(e, inputs)), Survivors(e, inputs), StageDrops(e, inputs))
  {
    hide Fused, Keep, Mark, WithoutDuplicates, MarkDuplicates;
    var fused := Fused(e, inputs);
    var all := KeySet(fused);
    FusedDistinct(e, inputs);
    assert Accounts(all, fused, map[]);
    FilterAccounts(all, fused, map[], NotSuperseded(inputs.superseded), Superseded);
    var current := Keep(fused, NotSuperseded(inputs.superseded));
    var superseded := Mark(map[], fused, NotSuperseded(inputs.superseded), Superseded);
    FilterAccounts(all, current, superseded, NotForeign(inputs.conversation), ForeignConversation);
    DuplicatesAccount(Keep(current, NotForeign(inputs.conversation)),
                      Mark(superseded, current, NotForeign(inputs.conversation), ForeignConversation));
  }

  /** Allocation moves every non-tool candidate either into the order or into the drops. */
  lemma AllocationAccounts(
      all: set<string>, cs: seq<Candidate>, dropped: Dropped, kept: seq<Candidate>, picked: seq<Candidate>,
      dropped': Dropped, ranked: seq<string>)
    requires Accounts(all, cs, dropped)
    requires Distinct(picked) && KeySet(picked) <= KeySet(Keep(cs, IsRetrieval))
    requires Distinct(kept) && KeySet(kept) <= KeySet(Keep(cs, IsRecent))
    requires LeftOut(Mark(dropped, Keep(cs, IsRecent), InKeys(KeySet(kept)), Budget), dropped', Keep(cs, IsRetrieval),
                     picked, ranked)
    ensures var live := KeySet(Keep(cs, IsMandatory)) + KeySet(picked) + KeySet(kept);
            && KeySet(Keep(cs, IsMandatory)) !! KeySet(picked) !! KeySet(kept)
            && live !! dropped'.Keys
            && live + dropped'.Keys == all - KeySet(Keep(cs, IsTools))
  {
    hide Keep, Mark;
    PartitionKeys(cs);
    var recent := Keep(cs, IsRecent);
    MarkKeys(dropped, recent, InKeys(KeySet(kept)), Budget);
    hide Distinct;
    assert (set c | c in recent && !InKeys(KeySet(kept))(c) :: c.key) == KeySet(recent) - KeySet(kept);
    hide KeySet;
  }

  // ---- building a plan ----

  function ToolPrice(tools: Option<nat>): nat {
    if tools.Some? then tools.value else 0
  }

  /** What has to fit: instructions, request, pinned messages and tool definitions. */
  function MandatoryPrice(e: Engine, inputs: Inputs): nat {
    TotalCost(e.cost, Instructions(inputs.history)) + TotalCost(e.cost, inputs.request)
    + TotalCost(e.cost, inputs.pinned) + ToolPrice(inputs.tools)
  }

  /** The longest suffix of the interactions that fits beside the mandatory part. */
  function RecentUnits(cost: Cost, history: seq<Message>, room: nat): seq<Unit> {
    Planner.FitSuffix(OfKind(Segment(cost, history), false), room)
  }

  function SelectionOrder(e: Engine, inputs: Inputs, blocks: seq<Candidate>, kept: seq<Candidate>): seq<Candidate> {
    Systems(e, inputs) + PinnedCandidates(e, inputs.pinned) + blocks + kept + TheRequest(e, inputs)
  }

  /** The item belongs in this request: of the named conversation, if one is named, and no superseded memory. */
  predicate Relevant(inputs: Inputs, item: RetrievedItem) {
    && (inputs.conversation.Some? ==> item.conversation == inputs.conversation.value)
    && !(item.isMemory && item.id in inputs.superseded)
  }

  /** The text of an item that is compared when looking for repetitions. */
  function Compared(texts: Texts, item: RetrievedItem): string {
    if item.isMemory then texts.canonical(item.content) else texts.ofChunk(item.content)
  }

  /** The candidate is the item as a block: one user message that names its provenance, at its own price. */
  predicate BlockOf(e: Engine, item: RetrievedItem, c: Candidate) {
    var origin := if item.isMemory then "memory" else "chunk";
    var text := "[retrieved " + origin + ":" + item.kind + " id=" + item.id + "]" + "\n" + item.content;
    && c.source == (if item.isMemory then Memory else Chunk)
    && c.key == item.id && c.conversation == Some(item.conversation)
    && c.render == [map["role" := Str("user"), "content" := Str(text)]]
    && c.tokens == e.cost(c.render[0])
    && c.dedupText == Compared(e.texts, item)
  }

  /** The candidate is the block of a retrieved item that belongs in this request. */
  ghost predicate FromRelevant(e: Engine, inputs: Inputs, c: Candidate) {
    exists k :: 0 <= k < |inputs.retrieved| &&
      BlockOf(e, inputs.retrieved[k], c) && Relevant(inputs, inputs.retrieved[k])
  }

  /** Retrieved blocks in a plan: retrieved for this conversation, not superseded, within both caps. */
  ghost predicate BlocksProper(e: Engine, inputs: Inputs, blocks: seq<Candidate>) {
    && |blocks| <= e.maxItems && Tokens(blocks) <= e.retrievedBudget
    && forall c :: c in blocks ==> c in RetrievedCandidates(e, inputs.retrieved) && FromRelevant(e, inputs, c)
  }

  /** The blocks are the packed ranking of the surviving retrieval candidates, with the records that go with it. */
  ghost predicate BlocksChosen(e: Engine, inputs: Inputs, room: nat, blocks: seq<Candidate>, dropped: Dropped) {
    var retrieval, left := Keep(Survivors(e, inputs), IsRetrieval), room - Tokens(Window(Recents(e, inputs), room));
    && blocks == Picked(e, retrieval, left)
    && dropped == RetrievalDrops(e, retrieval, left, DropsBeforeBlocks(e, inputs, room))
  }

  /** Everything that was not selected is recorded, a block left out with its one reason. */
  ghost predicate Recorded(e: Engine, inputs: Inputs, room: nat, selected: seq<Candidate>, dropped: Dropped) {
    var retrieval, left := Keep(Survivors(e, inputs), IsRetrieval), room - Tokens(Window(Recents(e, inputs), room));
    && Accounts(KeySet(Fused(e, inputs)) - {TOOLS_KEY}, selected, dropped)
    && LeftOut(DropsBeforeBlocks(e, inputs, room), dropped, retrieval, Keep(selected, IsRetrieval),
               Ranked(e, retrieval, left))
  }

  /** Everything a build promises: when it overflows, and what a ready plan contains, costs and accounts for. */
  ghost predicate Assembled(e: Engine, inputs: Inputs, r: Assembly) {
    var price := MandatoryPrice(e, inputs);
    if price > e.usable then r == Overflow(price, e.usable)
    else
      r.Ready? &&
      var blocks := Keep(r.selected, IsRetrieval);
      && r.messages == Instructions(inputs.history) + inputs.pinned + Rendered(blocks)
                       + Flat(RecentUnits(e.cost, inputs.history, e.usable - price)) + inputs.request
      && r.tokens == TotalCost(e.cost, r.messages) + ToolPrice(inputs.tools)
      && r.tokens <= e.usable
      && BlocksProper(e, inputs, blocks)
      && r.selected == SelectionOrder(e, inputs, blocks, Window(Recents(e, inputs), e.usable - price))
      && BlocksChosen(e, inputs, e.usable - price, blocks, r.dropped)
      && (ProperIds(inputs.retrieved) ==> Recorded(e, inputs, e.usable - price, r.selected, r.dropped))
  }

  lemma SurvivorClasses(e: Engine, inputs: Inputs)
    ensures Keep(Survivors(e, inputs), IsMandatory) ==
            Systems(e, inputs) + TheRequest(e, inputs) + PinnedCandidates(e, inputs.pinned)
    ensures Keep(Survivors(e, inputs), IsRecent) == Recents(e, inputs)
    ensures Keep(Survivors(e, inputs), IsTools) == ToolCandidates(inputs.tools)
    ensures ToolTokens(Survivors(e, inputs)) == ToolPrice(inputs.tools)
  {
    hide Keep, Fused, Survivors, Segment, ToolTokens;
    SurvivorsKeepRaw(e, inputs, IsMandatory);
    SurvivorsKeepRaw(e, inputs, IsRecent);
    SurvivorsKeepRaw(e, inputs, IsTools);
    FusedMandatory(e, inputs);
    FusedRecent(e, inputs);
    FusedTools(e, inputs);
    ToolTokensKept(Survivors(e, inputs));
  }

  lemma MandatoryPriced(e: Engine, inputs: Inputs)
    ensures Tokens(Keep(Survivors(e, inputs), IsMandatory)) + ToolTokens(Survivors(e, inputs)) ==
            MandatoryPrice(e, inputs)
  {
    hide Keep, Survivors, Segment, ToolTokens, Rendered, TotalCost, Fused, Tokens;
    var systems, request, pinned := Systems(e, inputs), TheRequest(e, inputs), PinnedCandidates(e, inputs.pinned);
    SurvivorClasses(e, inputs);
    TokensConcat(systems + request, pinned);
    TokensConcat(systems, request);
    UnitsRender(e, inputs);
    RequestRender(e, inputs);
    PinnedRender(e, inputs.pinned);
    SystemsSound(e, inputs);
    OthersSound(e, inputs);
    RenderedCost(e.cost, systems);
    RenderedCost(e.cost, request);
    RenderedCost(e.cost, pinned);
  }

  lemma SystemsSound(e: Engine, inputs: Inputs)
    ensures Sound(e.cost, Systems(e, inputs)) && Sound(e.cost, Recents(e, inputs))
    ensures forall c :: c in Systems(e, inputs) ==> Priced(e.cost, c) && c.source.System?
    ensures forall c :: c in Recents(e, inputs) ==> Priced(e.cost, c) && c.source.RecentTurn?
  {
    hide Keep, Segment, Priced, RespectsTrust, UnitCandidates;
    UnitsSound(e, inputs.history);
    SoundKeep(e.cost, UnitCandidates(e.texts, Segment(e.cost, inputs.history)), IsMandatory);
    SoundKeep(e.cost, UnitCandidates(e.texts, Segment(e.cost, inputs.history)), IsRecent);
    UnitSources(e.texts, Segment(e.cost, inputs.history));
  }

  lemma UnitSources(texts: Texts, units: seq<Unit>)
    ensures forall c :: c in Keep(UnitCandidates(texts, units), IsMandatory) ==> c.source.System?
    ensures forall c :: c in Keep(UnitCandidates(texts, units), IsRecent) ==> c.source.RecentTurn?
  {
    KeepMembers(UnitCandidates(texts, units), IsMandatory);
    KeepMembers(UnitCandidates(texts, units), IsRecent);
  }

  lemma SoundKeep(cost: Cost, cs: seq<Candidate>, test: Test)
    requires Sound(cost, cs)
    ensures Sound(cost, Keep(cs, test))
  {
    KeepMembers(cs, test);
    hide Keep, Priced, RespectsTrust;
    var kept := Keep(cs, test);
    forall k | 0 <= k < |kept| ensures Priced(cost, kept[k]) && RespectsTrust(kept[k]) {
      assert kept[k] in cs;
    }
  }

  /** What the ordered candidates render. */
  lemma OrderRenders(e: Engine, inputs: Inputs, blocks: seq<Candidate>, room: nat)
    ensures Rendered(SelectionOrder(e, inputs, blocks, Window(Recents(e, inputs), room))) ==
            Instructions(inputs.history) + inputs.pinned + Rendered(blocks)
            + Flat(RecentUnits(e.cost, inputs.history, room)) + inputs.request
  {
    hide Keep, Segment, Rendered, Flat, Window, OfKind;
    var systems, pinned := Systems(e, inputs), PinnedCandidates(e, inputs.pinned);
    var kept := Window(Recents(e, inputs), room);
    RenderedConcat(systems, pinned);
    RenderedConcat(systems + pinned, blocks);
    RenderedConcat(systems + pinned + blocks, kept);
    RenderedConcat(systems + pinned + blocks + kept, TheRequest(e, inputs));
    UnitsRender(e, inputs);
    PinnedRender(e, inputs.pinned);
    RequestRender(e, inputs);
    WindowRenders(e, inputs, room);
  }

  lemma WindowRenders(e: Engine, inputs: Inputs, room: nat)
    ensures Rendered(Window(Recents(e, inputs), room)) == Flat(RecentUnits(e.cost, inputs.history, room))
  {
    hide Keep, Segment, Rendered, Flat, OfKind;
    var recents, others := Recents(e, inputs), OfKind(Segment(e.cost, inputs.history), false);
    UnitsRender(e, inputs);
    MirrorsRender(recents, others);
    var from := Planner.FitFrom(PricesOf(recents), room);
    MirrorsRender(recents[from..], others[from..]);
  }

  /** Only the blocks in the order are retrieval candidates. */
  lemma OrderBlocks(e: Engine, inputs: Inputs, blocks: seq<Candidate>, room: nat)
    requires forall k :: 0 <= k < |blocks| ==> IsRetrieval(blocks[k])
    ensures Keep(SelectionOrder(e, inputs, blocks, Window(Recents(e, inputs), room)), IsRetrieval) == blocks
  {
    SystemsSound(e, inputs);
    hide Keep, Segment, Priced, Sound;
    var systems, pinned := Systems(e, inputs), PinnedCandidates(e, inputs.pinned);
    var kept := Window(Recents(e, inputs), room);
    KeepConcat(systems, pinned, IsRetrieval);
    KeepConcat(systems + pinned, blocks, IsRetrieval);
    KeepConcat(systems + pinned + blocks, kept, IsRetrieval);
    KeepConcat(systems + pinned + blocks + kept, TheRequest(e, inputs), IsRetrieval);
    assert forall k :: 0 <= k < |kept| ==> kept[k] in Recents(e, inputs);
    KeepNone(systems, IsRetrieval);
    KeepNone(pinned, IsRetrieval);
    KeepNone(kept, IsRetrieval);
    KeepNone(TheRequest(e, inputs), IsRetrieval);
    KeepAll(blocks, IsRetrieval);
  }

  lemma OrderIs(e: Engine, inputs: Inputs, blocks: seq<Candidate>, kept: seq<Candidate>)
    ensures RenderOrder(Keep(Survivors(e, inputs), IsMandatory), blocks, kept) ==
            SelectionOrder(e, inputs, blocks, kept)
  {
    hide Keep, Survivors, Segment, RenderOrder;
    SurvivorClasses(e, inputs);
    UnitsRender(e, inputs);
    RenderOrderIs(Systems(e, inputs), TheRequest(e, inputs), PinnedCandidates(e, inputs.pinned), blocks, kept);
  }

  lemma OrderTokens(e: Engine, inputs: Inputs, blocks: seq<Candidate>, kept: seq<Candidate>)
    ensures Tokens(SelectionOrder(e, inputs, blocks, kept)) + ToolPrice(inputs.tools) ==
            MandatoryPrice(e, inputs) + Tokens(blocks) + Tokens(kept)
  {
    hide Keep, Survivors, Segment, Tokens, ToolTokens;
    var systems, request, pinned := Systems(e, inputs), TheRequest(e, inputs), PinnedCandidates(e, inputs.pinned);
    MandatoryPriced(e, inputs);
    SurvivorClasses(e, inputs);
    TokensConcat(systems, request);
    TokensConcat(systems + request, pinned);
    TokensConcat(systems, pinned);
    TokensConcat(systems + pinned, blocks);
    TokensConcat(systems + pinned + blocks, kept);
    TokensConcat(systems + pinned + blocks + kept, request);
  }

  /** Survivors among the retrieval candidates come from the retrieved items and passed both filters. */
  lemma SurvivingBlocks(e: Engine, inputs: Inputs, c: Candidate)
    requires c in Keep(Survivors(e, inputs), IsRetrieval)
    ensures c in RetrievedCandidates(e, inputs.retrieved) && IsRetrieval(c) && FromRelevant(e, inputs, c)
  {
    var fused := Fused(e, inputs);
    var current := Keep(fused, NotSuperseded(inputs.superseded));
    KeepMembers(Survivors(e, inputs), IsRetrieval);
    WithoutDuplicatesMembers(Keep(current, NotForeign(inputs.conversation)));
    KeepMembers(current, NotForeign(inputs.conversation));
    KeepMembers(fused, NotSuperseded(inputs.superseded));
    hide Keep, WithoutDuplicates, Segment, NotSuperseded, NotForeign;
    assert c in fused;
    var units := UnitCandidates(e.texts, Segment(e.cost, inputs.history));
    assert forall k :: 0 <= k < |units| ==> !IsRetrieval(units[k]);
    assert forall k :: 0 <= k < |inputs.pinned| ==> !IsRetrieval(PinnedCandidates(e, inputs.pinned)[k]);
    FilteredBlock(e, inputs, c);
  }

  /** The candidate built from an item is its block, and the two filters pass exactly the relevant ones. */
  lemma BlockIs(e: Engine, inputs: Inputs, item: RetrievedItem)
    ensures var c := FromRetrieved(e.texts, e.cost, item);
            && BlockOf(e, item, c)
            && (NotSuperseded(inputs.superseded)(c) && NotForeign(inputs.conversation)(c) <==> Relevant(inputs, item))
  {
  }

  lemma FilteredBlock(e: Engine, inputs: Inputs, c: Candidate)
    requires c in RetrievedCandidates(e, inputs.retrieved)
    requires NotSuperseded(inputs.superseded)(c) && NotForeign(inputs.conversation)(c)
    ensures FromRelevant(e, inputs, c)
  {
    hide NotSuperseded, NotForeign, BlockOf, Relevant, FromRetrieved;
    var k :| 0 <= k < |inputs.retrieved| && RetrievedCandidates(e, inputs.retrieved)[k] == c;
    BlockIs(e, inputs, inputs.retrieved[k]);
  }

  /** The stages' rejects and the turns outside the window, each with its reason. */
  ghost function DropsBeforeBlocks(e: Engine, inputs: Inputs, room: nat): Dropped {
    Mark(StageDrops(e, inputs), Recents(e, inputs), InKeys(KeySet(Window(Recents(e, inputs), room))), Budget)
  }

  lemma SelectionAccounts(
      e: Engine, inputs: Inputs, blocks: seq<Candidate>, room: nat, dropped': Dropped, ranked: seq<string>)
    requires ProperIds(inputs.retrieved)
    requires LeftOut(DropsBeforeBlocks(e, inputs, room), dropped', Keep(Survivors(e, inputs), IsRetrieval), blocks,
                     ranked)
    requires Distinct(blocks) && forall c :: c in blocks ==> c in Keep(Survivors(e, inputs), IsRetrieval)
    ensures Accounts(KeySet(Fused(e, inputs)) - {TOOLS_KEY},
                     SelectionOrder(e, inputs, blocks, Window(Recents(e, inputs), room)), dropped')
  {
    hide Keep, Survivors, Segment, Mark, StageDrops, Fused, LeftOut, ToolTokens, PinnedCandidates;
    var cs, kept := Survivors(e, inputs), Window(Recents(e, inputs), room);
    var all := KeySet(Fused(e, inputs));
    SurvivorsAccount(e, inputs);
    SurvivorClasses(e, inputs);
    KeepDistinct(cs, IsMandatory);
    KeepDistinct(cs, IsRecent);
    assert Distinct(kept) && KeySet(kept) <= KeySet(Recents(e, inputs));
    AllocationAccounts(all, cs, StageDrops(e, inputs), kept, blocks, dropped', ranked);
    var systems, request, pinned := Systems(e, inputs), TheRequest(e, inputs), PinnedCandidates(e, inputs.pinned);
    hide Distinct, Window;
    DistinctSplit(systems + request, pinned);
    DistinctSplit(systems, request);
    DistinctConcat(systems, pinned);
    DistinctConcat(systems + pinned, blocks);
    DistinctConcat(systems + pinned + blocks, kept);
    DistinctConcat(systems + pinned + blocks + kept, request);
    ToolsKey(e, inputs);
  }

  lemma ToolsKey(e: Engine, inputs: Inputs)
    requires ProperIds(inputs.retrieved)
    ensures KeySet(Fused(e, inputs)) - KeySet(ToolCandidates(inputs.tools)) == KeySet(Fused(e, inputs)) - {TOOLS_KEY}
  {
    if inputs.tools.None? {
      UnitKeys(e.texts, Segment(e.cost, inputs.history));
      PinnedKeys(e, inputs.pinned);
      KeysApart(TOOLS_KEY);
      hide Segment, UnitCandidates, PinnedCandidates, IsUnitKey, IsPinnedKey;
      assert TOOLS_KEY !in KeySet(Fused(e, inputs));
    }
  }

  /** What an allocation of the survivors looks like, in terms of the inputs. */
  ghost predicate GoodAllocation(e: Engine, inputs: Inputs, a: Allocation) {
    var price := MandatoryPrice(e, inputs);
    if price > e.usable then a == NoRoom(price)
    else
      && a.Allocated? && a.tools == ToolPrice(inputs.tools)
      && var blocks := Keep(a.ordered, IsRetrieval);
      && BlocksProper(e, inputs, blocks)
      && a.ordered == SelectionOrder(e, inputs, blocks, Window(Recents(e, inputs), e.usable - price))
      && Tokens(a.ordered) + a.tools <= e.usable
      && BlocksChosen(e, inputs, e.usable - price, blocks, a.dropped)
      && (ProperIds(inputs.retrieved) ==> Recorded(e, inputs, e.usable - price, a.ordered, a.dropped))
  }

  lemma AllocationIsGood(e: Engine, inputs: Inputs, a: Allocation)
    requires IsAllocation(e, Survivors(e, inputs), StageDrops(e, inputs), a)
    ensures GoodAllocation(e, inputs, a)
  {
    hide Keep, Survivors, Segment, Mark, StageDrops, Fused, Tokens, ToolTokens, RenderOrder, Window, Picked,
      RetrievalDrops, MandatoryPrice, Distinct, SelectionOrder, KeySet, Recorded, ProperIds, FromRelevant;
    var cs := Survivors(e, inputs);
    var price := MandatoryPrice(e, inputs);
    MandatoryPriced(e, inputs);
    SurvivorClasses(e, inputs);
    if price <= e.usable {
      var room := e.usable - price;
      var kept := Window(Recents(e, inputs), room);
      var blocks := Picked(e, Keep(cs, IsRetrieval), room - Tokens(kept));
      PickedFromRetrieval(e, Keep(cs, IsRetrieval), room - Tokens(kept));
      forall c | c in blocks
        ensures c in RetrievedCandidates(e, inputs.retrieved) && IsRetrieval(c) && FromRelevant(e, inputs, c)
      {
        SurvivingBlocks(e, inputs, c);
      }
      OrderIs(e, inputs, blocks, kept);
      OrderTokens(e, inputs, blocks, kept);
      OrderBlocks(e, inputs, blocks, room);
      if ProperIds(inputs.retrieved) {
        ProperAllocation(e, inputs, room, a.ordered, a.dropped);
      }
    }
  }

  lemma ProperAllocation(e: Engine, inputs: Inputs, room: nat, ordered: seq<Candidate>, dropped: Dropped)
    requires ProperIds(inputs.retrieved)
    requires ordered == SelectionOrder(e, inputs, Keep(ordered, IsRetrieval), Window(Recents(e, inputs), room))
    requires BlocksChosen(e, inputs, room, Keep(ordered, IsRetrieval), dropped)
    ensures Recorded(e, inputs, room, ordered, dropped)
  {
    hide Keep, Survivors, Segment, Mark, StageDrops, Fused, Tokens, ToolTokens, Window, Picked, RetrievalDrops,
      Distinct, LeftOut, SelectionOrder, KeySet, Ranked, ProperIds, DropsBeforeBlocks;
    SurvivorsAccount(e, inputs);
    SurvivorClasses(e, inputs);
    var retrieval, left := Keep(Survivors(e, inputs), IsRetrieval), room - Tokens(Window(Recents(e, inputs), room));
    KeepDistinct(Survivors(e, inputs), IsRetrieval);
    BlocksApart(e, inputs, room);
    PickedFromRetrieval(e, retrieval, left);
    DropsExplained(e, retrieval, left, DropsBeforeBlocks(e, inputs, room));
    SelectionAccounts(e, inputs, Keep(ordered, IsRetrieval), room, dropped, Ranked(e, retrieval, left));
  }

  lemma BlocksApart(e: Engine, inputs: Inputs, room: nat)
    requires ProperIds(inputs.retrieved)
    ensures KeySet(Keep(Survivors(e, inputs), IsRetrieval)) !! DropsBeforeBlocks(e, inputs, room).Keys
  {
    hide Keep, Survivors, Segment, Mark, StageDrops, Fused, Window, Distinct, KeySet, ProperIds;
    SurvivorsAccount(e, inputs);
    SurvivorClasses(e, inputs);
    RecentApart(Survivors(e, inputs), StageDrops(e, inputs), InKeys(KeySet(Window(Recents(e, inputs), room))));
  }

  lemma OrderSound(e: Engine, inputs: Inputs, blocks: seq<Candidate>, room: nat)
    requires forall c :: c in blocks ==> c in RetrievedCandidates(e, inputs.retrieved)
    ensures var order := SelectionOrder(e, inputs, blocks, Window(Recents(e, inputs), room));
            && AllTrusted(order)
            && Tokens(order) == TotalCost(e.cost, Rendered(order))
  {
    SystemsSound(e, inputs);
    OthersSound(e, inputs);
    hide Keep, Segment, Tokens, TotalCost, Rendered, RespectsTrust, Priced;
    var kept := Window(Recents(e, inputs), room);
    assert forall k :: 0 <= k < |kept| ==> kept[k] in Recents(e, inputs);
    assert forall k :: 0 <= k < |blocks| ==> blocks[k] in RetrievedCandidates(e, inputs.retrieved);
    assert Sound(e.cost, kept) && Sound(e.cost, blocks);
    var systems, pinned := Systems(e, inputs), PinnedCandidates(e, inputs.pinned);
    SoundConcat(e.cost, systems, pinned);
    SoundConcat(e.cost, systems + pinned, blocks);
    SoundConcat(e.cost, systems + pinned + blocks, kept);
    SoundConcat(e.cost, systems + pinned + blocks + kept, TheRequest(e, inputs));
    var order := SelectionOrder(e, inputs, blocks, kept);
    assert forall c :: c in order ==> !c.source.ToolDefinitions?;
    RenderedCost(e.cost, order);
  }

  /** Builds a plan; the overflow and trust guards of the rendering step never fire. */
  method Build(e: Engine, inputs: Inputs) returns (r: Assembly)
    ensures Assembled(e, inputs, r)
  {
    hide Keep, Mark, Segment, WithoutDuplicates, MarkDuplicates, Fused, Tokens, TotalCost, Rendered, Distinct, KeySet,
      IsAllocation, SelectionOrder, Window, RecentUnits, MandatoryPrice, AllTrusted, Instructions, Flat, BlocksChosen,
      Recorded, ProperIds, FromRelevant;
    var fused := FuseCandidates(e, inputs);
    var current, dropped := Filter(fused, NotSuperseded(inputs.superseded), Superseded, map[]);
    var own;
    own, dropped := Filter(current, NotForeign(inputs.conversation), ForeignConversation, dropped);
    var candidates;
    candidates, dropped := Deduplicate(own, dropped);
    var a := Allocate(e, candidates, dropped);
    AllocationIsGood(e, inputs, a);
    if a.NoRoom? {
      return Overflow(a.required, e.usable);
    }
    r := MakePlan(e, a.ordered, a.tools, a.dropped);
    ghost var blocks, room := Keep(a.ordered, IsRetrieval), e.usable - MandatoryPrice(e, inputs);
    OrderSound(e, inputs, blocks, room);
    OrderRenders(e, inputs, blocks, room);
  }
}
