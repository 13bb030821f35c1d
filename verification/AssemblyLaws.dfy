/** The engine against the fallback planner, and what a payload that fits turns into. */
module AssemblyLaws {
  import opened Messages
  import opened Segmentation
  import opened Candidates
  import opened Planner
  import opened CandidateLists
  import opened ContextEngine
  import opened ContextAssembly
  import opened SegmentationLaws

  /** Nothing pinned and nothing retrieved. */
  predicate Bare(inputs: Inputs) {
    inputs.pinned == [] && inputs.retrieved == []
  }

  /** What a build without pinned and retrieved items amounts to. */
  ghost predicate BarePlanned(
      cost: Cost, history: seq<Message>, request: seq<Message>, tools: nat, usable: nat, r: Assembly)
  {
    var price := TotalCost(cost, Instructions(history)) + TotalCost(cost, request) + tools;
    if price > usable then r == Assembly.Overflow(price, usable)
    else
      && r.Ready?
      && r.messages == Instructions(history) + Flat(RecentUnits(cost, history, usable - price)) + request
      && r.tokens == TotalCost(cost, r.messages) + tools
  }

  lemma BarePlan(e: Engine, inputs: Inputs, r: Assembly)
    requires Bare(inputs) && Assembled(e, inputs, r)
    ensures BarePlanned(e.cost, inputs.history, inputs.request, ToolPrice(inputs.tools), e.usable, r)
  {
    hide Keep, Segment, Fused, RecentUnits, Flat, Instructions, SelectionOrder, Recorded, BlocksChosen, Tokens,
      TotalCost, Distinct, FromRelevant;
    TotalCostNone(e.cost);
    if r.Ready? {
      var blocks := Keep(r.selected, IsRetrieval);
      assert |RetrievedCandidates(e, inputs.retrieved)| == 0;
      if blocks != [] { HasMember(blocks); }
      assert Instructions(inputs.history) + [] + [] == Instructions(inputs.history);
    }
  }

  lemma HasMember(cs: seq<Candidate>)
    requires cs != []
    ensures exists c :: c in cs
  {
    assert cs[0] in cs;
  }

  lemma InstructionUnitsCost(cost: Cost, history: seq<Message>)
    ensures var units := Segment(cost, history);
            && AllWellFormed(cost, units)
            && Flat(OfKind(units, true)) == Instructions(history)
            && Flat(OfKind(units, false)) == Ordinary(history)
            && UnitTokens(OfKind(units, true)) == TotalCost(cost, Instructions(history))
            && UnitTokens(OfKind(units, false)) == TotalCost(cost, Ordinary(history))
  {
    SegmentFaithful(cost, history);
    hide Segment, UnitTokens, TotalCost, Flat;
    var units := Segment(cost, history);
    KindsSplit(cost, units);
    OfKindWellFormed(cost, units, true);
    OfKindWellFormed(cost, units, false);
    UnitsCost(cost, OfKind(units, true));
    UnitsCost(cost, OfKind(units, false));
  }

  lemma {:induction false} OfKindWellFormed(cost: Cost, units: seq<Unit>, instruction: bool)
    requires AllWellFormed(cost, units)
    ensures AllWellFormed(cost, OfKind(units, instruction))
  {
    if units != [] {
      OfKindWellFormed(cost, units[..|units| - 1], instruction);
    }
  }

  /** `sent` is `planned` with the instructions of everything before the request moved stably to the front. */
  ghost predicate InstructionsMoved(
      planned: seq<Message>, sent: seq<Message>, history: seq<Message>, request: seq<Message>)
  {
    exists context ::
      && planned == context + request
      && Instructions(context) == Instructions(history)
      && sent == Instructions(context) + Ordinary(context) + request
  }

  /** The build and the planner's plan for the same input, with `reserved` on top of the budget and set aside again. */
  ghost predicate AgreesWithPlanner(
      cost: Cost, history: seq<Message>, request: seq<Message>, tools: nat, usable: nat, reserved: nat, r: Assembly)
  {
    var plan := PlanFor(cost, history, request, tools, usable + reserved, reserved);
    if plan.Overflow? then r.Overflow? && plan.required == r.required + reserved
    else
      && r.Ready?
      && r.tokens == plan.tokens + tools
      && InstructionsMoved(plan.messages, r.messages, history, request)
  }

  lemma BareAgrees(
      cost: Cost, history: seq<Message>, request: seq<Message>, tools: nat, usable: nat, reserved: nat, r: Assembly)
    requires BarePlanned(cost, history, request, tools, usable, r)
    ensures AgreesWithPlanner(cost, history, request, tools, usable, reserved, r)
  {
    hide Segment, RecentUnits, Flat, Instructions, Ordinary, TotalCost, UnitTokens, OfKind, Trim,
      AllWellFormed, FitSuffix, InstructionsMoved;
    InstructionUnitsCost(cost, history);
    var available := usable - tools - TotalCost(cost, request);
    if TotalCost(cost, Instructions(history)) <= available {
      var units := Segment(cost, history);
      var context := Flat(Trim(units, UnitTokens(units), available));
      KeptContext(cost, history, available);
      assert r.messages == Instructions(context) + Ordinary(context) + request;
      Moved(context, history, request);
      PlanPricedExactly(cost, history, request, tools, usable + reserved, reserved);
      SamePrice(cost, context, request);
    }
  }

  /**
   With the same budget beside the planner's reserve, both assemblers overflow together; otherwise
   both keep the same longest window, and the engine sends the planner's context with the
   history's instructions moved stably to the front, at the same price.
   */
  lemma EngineAgreesWithPlanner(e: Engine, inputs: Inputs, reserved: nat, r: Assembly)
    requires Bare(inputs) && Assembled(e, inputs, r)
    ensures AgreesWithPlanner(e.cost, inputs.history, inputs.request, ToolPrice(inputs.tools), e.usable, reserved, r)
  {
    hide AgreesWithPlanner;
    BarePlan(e, inputs, r);
    BareAgrees(e.cost, inputs.history, inputs.request, ToolPrice(inputs.tools), e.usable, reserved, r);
  }

  lemma Moved(context: seq<Message>, history: seq<Message>, request: seq<Message>)
    requires Instructions(context) == Instructions(history)
    ensures InstructionsMoved(context + request, Instructions(context) + Ordinary(context) + request, history, request)
  {
  }

  lemma KeptContext(cost: Cost, history: seq<Message>, available: int)
    requires TotalCost(cost, Instructions(history)) <= available
    ensures var units := Segment(cost, history);
            var context := Flat(Trim(units, UnitTokens(units), available));
            && Instructions(context) == Instructions(history)
            && Ordinary(context) ==
               Flat(RecentUnits(cost, history, available - TotalCost(cost, Instructions(history))))
  {
    hide Segment, Flat, Instructions, Ordinary, TotalCost, UnitTokens, OfKind, Trim, FitSuffix;
    var units := Segment(cost, history);
    InstructionUnitsCost(cost, history);
    TrimKeepsSuffix(units, 0, available);
    TrimWellFormed(cost, units, UnitTokens(units), available);
    KindsSplit(cost, Trim(units, UnitTokens(units), available));
  }

  lemma SamePrice(cost: Cost, context: seq<Message>, request: seq<Message>)
    ensures TotalCost(cost, Instructions(context) + Ordinary(context) + request) == TotalCost(cost, context + request)
  {
    CostSplit(cost, context);
    TotalCostConcat(cost, Instructions(context), Ordinary(context));
    TotalCostConcat(cost, Instructions(context) + Ordinary(context), request);
    TotalCostConcat(cost, context, request);
  }

  // ---- instructions are never dropped ----

  /** A ready plan of the engine holds every system and developer message of the history, each as often as it occurs. */
  lemma InstructionsSent(e: Engine, inputs: Inputs, r: Assembly, m: Message)
    requires Assembled(e, inputs, r) && r.Ready? && m in inputs.history
    requires "role" in m && (m["role"] == Str("system") || m["role"] == Str("developer"))
    ensures m in r.messages && multiset(r.messages)[m] >= multiset(inputs.history)[m]
  {
    hide BlocksProper, BlocksChosen, Recorded, SelectionOrder, Keep, Rendered, Flat, RecentUnits, Instructions, Tokens,
      TotalCost, MandatoryPrice;
    InstructionCopies(inputs.history, m);
    assert m in multiset(inputs.history) && m in multiset(r.messages);
  }

  /** So does every plan of the fallback planner. */
  lemma PlanSendsInstructions(
      cost: Cost, history: seq<Message>, request: seq<Message>, tools: nat, usable: int, reserved: nat, m: Message)
    requires PlanFor(cost, history, request, tools, usable, reserved).Planned? && m in history
    requires "role" in m && (m["role"] == Str("system") || m["role"] == Str("developer"))
    ensures var plan := PlanFor(cost, history, request, tools, usable, reserved);
            m in plan.messages && multiset(plan.messages)[m] >= multiset(history)[m]
  {
    var available := usable - tools - reserved - TotalCost(cost, request);
    InstructionUnitsCost(cost, history);
    hide Segment, Flat, Instructions, Ordinary, TotalCost, UnitTokens, OfKind, Trim, FitSuffix;
    var units := Segment(cost, history);
    var context := Flat(Trim(units, UnitTokens(units), available));
    KeptContext(cost, history, available);
    InstructionCopies(history, m);
    InstructionCopies(context, m);
    assert m in multiset(history) && multiset(context + request)[m] == multiset(context)[m] + multiset(request)[m];
    assert m in multiset(context + request);
  }

  // ---- a payload that fits ----

  /** No ordinary message comes before an instruction. */
  predicate InstructionsFirst(messages: seq<Message>) {
    forall i, j :: 0 <= i < j < |messages| && IsInstruction(messages[j]) ==> IsInstruction(messages[i])
  }

  lemma {:induction false} SplitMembers(messages: seq<Message>)
    ensures forall k :: 0 <= k < |Instructions(messages)| ==> IsInstruction(Instructions(messages)[k])
    ensures forall k :: 0 <= k < |Ordinary(messages)| ==> !IsInstruction(Ordinary(messages)[k])
    ensures |Instructions(messages)| + |Ordinary(messages)| == |messages|
  {
    if messages != [] {
      SplitMembers(messages[..|messages| - 1]);
    }
  }

  /** Moving instructions to the front changes nothing exactly when they are there already. */
  lemma {:induction false} SplitUnchanged(messages: seq<Message>)
    ensures Instructions(messages) + Ordinary(messages) == messages <==> InstructionsFirst(messages)
  {
    SplitMembers(messages);
    if messages != [] && InstructionsFirst(messages) {
      var n := |messages| - 1;
      SplitUnchanged(messages[..n]);
      assert messages[..n] + [messages[n]] == messages;
      if IsInstruction(messages[n]) {
        AllInstructions(messages);
      }
    }
  }

  lemma SeparateCost(cost: Cost, messages: seq<Message>)
    ensures var (history, request) := Separate(messages);
            TotalCost(cost, history) + TotalCost(cost, request) == TotalCost(cost, messages)
  {
    hide AfterLastUser, TrailingFrom, TotalCost;
    var after := AfterLastUser(messages);
    TotalCostNone(cost);
    if after > 0 {
      var end := TrailingFrom(messages, after);
      var a, b, c := messages[..after - 1], messages[after - 1..end], messages[end..];
      assert messages == a + b + c;
      TotalCostConcat(cost, a + b, c);
      TotalCostConcat(cost, a, b);
      TotalCostConcat(cost, a, c);
    }
  }

  lemma TotalCostNone(cost: Cost)
    ensures TotalCost(cost, []) == 0
  {
  }

  /** The payload's own order survives: no instruction after the request, and before it instructions come first. */
  predicate AlreadyOrdered(messages: seq<Message>) {
    var after := AfterLastUser(messages);
    if after == 0 then InstructionsFirst(messages)
    else !IsInstruction(messages[|messages| - 1]) && InstructionsFirst(messages[..after - 1])
  }

  lemma BareFits(cost: Cost, messages: seq<Message>, history: seq<Message>, request: seq<Message>,
                 tools: nat, usable: nat, r: Assembly)
    requires (history, request) == Separate(messages)
    requires TotalCost(cost, messages) + tools <= usable
    requires BarePlanned(cost, history, request, tools, usable, r)
    ensures r.Ready?
    ensures multiset(r.messages) == multiset(messages)
    ensures r.messages == messages <==> AlreadyOrdered(messages)
  {
    hide Segment, RecentUnits, Flat, Instructions, Ordinary, TotalCost, Separate, AlreadyOrdered;
    SeparateCost(cost, messages);
    CostSplit(cost, history);
    var price := TotalCost(cost, Instructions(history)) + TotalCost(cost, request) + tools;
    EverythingFits(cost, history, usable - price);
    assert r.messages == Instructions(history) + Ordinary(history) + request;
    SplitIsPermutation(history);
    SeparateKeeps(messages);
    OrderSurvives(messages);
  }

  /**
   A payload that fits is sent whole: the result is a permutation of it, and it is the payload
   itself exactly when the payload is already ordered.
   */
  lemma NothingLostWhenItFits(e: Engine, messages: seq<Message>, inputs: Inputs, r: Assembly)
    requires Bare(inputs) && (inputs.history, inputs.request) == Separate(messages)
    requires TotalCost(e.cost, messages) + ToolPrice(inputs.tools) <= e.usable
    requires Assembled(e, inputs, r)
    ensures r.Ready?
    ensures multiset(r.messages) == multiset(messages)
    ensures r.messages == messages <==> AlreadyOrdered(messages)
  {
    BarePlan(e, inputs, r);
    BareFits(e.cost, messages, inputs.history, inputs.request, ToolPrice(inputs.tools), e.usable, r);
  }

  lemma EverythingFits(cost: Cost, history: seq<Message>, room: nat)
    requires TotalCost(cost, Ordinary(history)) <= room
    ensures Flat(RecentUnits(cost, history, room)) == Ordinary(history)
  {
    hide Segment, Flat, Instructions, Ordinary, TotalCost, UnitTokens, OfKind;
    InstructionUnitsCost(cost, history);
    PricesFit(OfKind(Segment(cost, history), false), room);
  }

  lemma OrderSurvives(messages: seq<Message>)
    ensures var (history, request) := Separate(messages);
            Instructions(history) + Ordinary(history) + request == messages <==> AlreadyOrdered(messages)
  {
    var after := AfterLastUser(messages);
    if after == 0 {
      SplitUnchanged(messages);
      assert Instructions(messages) + Ordinary(messages) + [] == Instructions(messages) + Ordinary(messages);
    } else {
      RequestKeepsPlace(messages, after, TrailingFrom(messages, after));
    }
  }

  lemma RequestKeepsPlace(messages: seq<Message>, after: nat, end: nat)
    requires after == AfterLastUser(messages) > 0 && end == TrailingFrom(messages, after)
    ensures var history, request := messages[..after - 1] + messages[end..], messages[after - 1..end];
            Instructions(history) + Ordinary(history) + request == messages <==> AlreadyOrdered(messages)
  {
    hide AfterLastUser, TrailingFrom, Instructions, Ordinary, InstructionsFirst;
    var before, request := messages[..after - 1], messages[after - 1..end];
    var history := before + messages[end..];
    assert IsUser(messages[after - 1]) && !IsInstruction(messages[after - 1]);
    if end == |messages| {
      assert history == before;
      assert messages == before + request;
      SplitUnchanged(before);
      SplitMembers(before);
      var moved := Instructions(before) + Ordinary(before);
      assert |moved| == |before|;
      assert moved + request == messages ==> moved == before by {
        if moved + request == messages {
          assert (moved + request)[..|before|] == moved && messages[..|before|] == before;
        }
      }
    } else {
      var sent := Instructions(history) + Ordinary(history) + request;
      assert IsInstruction(messages[|messages| - 1]);
      assert !IsInstruction(request[|request| - 1]) && sent[|sent| - 1] == request[|request| - 1];
    }
  }
}
