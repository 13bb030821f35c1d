/** The fallback planner: keep instructions and the request, drop the oldest other units whole. */
module Planner {
  import opened Messages
  import opened Segmentation

  /** Either the smallest budget that would do, or the assembled context. */
  datatype Plan =
    | Overflow(required: int, budget: int)
    | Planned(messages: seq<Message>, tokens: nat, droppedUnits: nat, droppedTokens: nat)

  // ---- budget arithmetic shared by both assemblers ----

  function Sum(tokens: seq<nat>): nat {
    if tokens == [] then 0 else tokens[0] + Sum(tokens[1..])
  }

  /** The longest suffix whose sum fits `cap` starts here. */
  function FitFrom(tokens: seq<nat>, cap: nat): (from: nat)
    ensures from <= |tokens|
    ensures Sum(tokens[from..]) <= cap
    ensures from > 0 ==> Sum(tokens[from - 1..]) > cap
    decreases |tokens|
  {
    if Sum(tokens) <= cap then assert tokens[0..] == tokens; 0
    else
      var rest := FitFrom(tokens[1..], cap);
      assert tokens[1..][rest..] == tokens[rest + 1..];
      assert rest > 0 ==> tokens[1..][rest - 1..] == tokens[rest..];
      assert tokens[0..] == tokens;
      rest + 1
  }

  lemma {:induction false} SumConcat(a: seq<nat>, b: seq<nat>)
    ensures Sum(a + b) == Sum(a) + Sum(b)
  {
    if a == [] {
      assert a + b == b;
    } else {
      SumConcat(a[1..], b);
      assert (a + b)[1..] == a[1..] + b;
    }
  }

  lemma SuffixSum(tokens: seq<nat>, i: nat, j: nat)
    requires i <= j <= |tokens|
    ensures Sum(tokens[i..]) >= Sum(tokens[j..])
  {
    SumConcat(tokens[i..j], tokens[j..]);
    assert tokens[i..] == tokens[i..j] + tokens[j..];
  }

  /** Suffix sums shrink, so only one start leaves a maximal fitting suffix. */
  lemma FitFromUnique(tokens: seq<nat>, cap: nat, from: nat)
    requires from <= |tokens| && Sum(tokens[from..]) <= cap
    requires from > 0 ==> Sum(tokens[from - 1..]) > cap
    ensures from == FitFrom(tokens, cap)
  {
    var found := FitFrom(tokens, cap);
    if from < found {
      SuffixSum(tokens, from, found - 1);
    } else if found < from {
      SuffixSum(tokens, found, from - 1);
    }
  }

  function Prices(units: seq<Unit>): (tokens: seq<nat>)
    ensures |tokens| == |units| && forall k :: 0 <= k < |units| ==> tokens[k] == units[k].tokens
  {
    seq(|units|, k requires 0 <= k < |units| => units[k].tokens)
  }

  function UnitTokens(units: seq<Unit>): nat {
    Sum(Prices(units))
  }

  lemma UnitTokensConcat(a: seq<Unit>, b: seq<Unit>)
    ensures UnitTokens(a + b) == UnitTokens(a) + UnitTokens(b)
  {
    SumConcat(Prices(a), Prices(b));
    assert Prices(a + b) == Prices(a) + Prices(b);
  }

  lemma UnitTokensOne(u: Unit)
    ensures UnitTokens([u]) == u.tokens
  {
    assert Prices([u]) == [u.tokens];
    assert [u.tokens][1..] == [] && Sum([]) == 0;
    assert Sum([u.tokens]) == u.tokens + Sum([u.tokens][1..]);
  }

  lemma {:induction false} KindTokens(units: seq<Unit>)
    ensures UnitTokens(units) == UnitTokens(OfKind(units, true)) + UnitTokens(OfKind(units, false))
  {
    if units != [] {
      var n := |units| - 1;
      KindTokens(units[..n]);
      UnitTokensConcat(units[..n], [units[n]]);
      assert units == units[..n] + [units[n]];
      UnitTokensConcat(OfKind(units[..n], units[n].kind.Instruction?), [units[n]]);
      assert forall b :: OfKind(units[..n], b) + [] == OfKind(units[..n], b);
    }
  }

  // ---- dropping the oldest units ----

  /** What the dropping pass keeps, given the running total over everything not dropped yet. */
  function Trim(units: seq<Unit>, total: int, available: int): (kept: seq<Unit>)
    ensures |kept| <= |units|
  {
    if units == [] || total <= available then units
    else if units[0].kind.Instruction? then [units[0]] + Trim(units[1..], total, available)
    else Trim(units[1..], total - units[0].tokens, available)
  }

  /** The longest suffix of the units that fits. */
  function FitSuffix(units: seq<Unit>, cap: nat): seq<Unit> {
    units[FitFrom(Prices(units), cap)..]
  }

  /**
   `kept` has every instruction unit and the longest suffix of the other units that fits beside
   them; `passed` is the price of the instruction units already walked over.
   */
  ghost predicate KeepsSuffix(units: seq<Unit>, passed: nat, available: int, kept: seq<Unit>)
    requires passed + UnitTokens(OfKind(units, true)) <= available
  {
    && OfKind(kept, true) == OfKind(units, true)
    && OfKind(kept, false) == FitSuffix(OfKind(units, false), available - passed - UnitTokens(OfKind(units, true)))
    && passed + UnitTokens(kept) <= available
  }

  lemma {:induction false} TrimKeepsSuffix(units: seq<Unit>, passed: nat, available: int)
    requires passed + UnitTokens(OfKind(units, true)) <= available
    ensures KeepsSuffix(units, passed, available, Trim(units, passed + UnitTokens(units), available))
    decreases |units|
  {
    hide OfKind, UnitTokens, FitSuffix, KeepsSuffix;
    if passed + UnitTokens(units) <= available {
      KeepAll(units, passed, available);
    } else {
      assert units != [] by { NoUnits(); }
      var u, rest := units[0], units[1..];
      assert units == [u] + rest;
      UnitTokensConcat([u], rest);
      UnitTokensOne(u);
      SplitFirst(u, rest);
      if u.kind.Instruction? {
        UnitTokensConcat([u], OfKind(rest, true));
        TrimKeepsSuffix(rest, passed + u.tokens, available);
        KeepInstruction(u, rest, passed, available, Trim(rest, passed + UnitTokens(units), available));
      } else {
        TrimKeepsSuffix(rest, passed, available);
        DropOther(u, rest, passed, available, Trim(rest, passed + UnitTokens(rest), available));
      }
    }
  }

  lemma KeepAll(units: seq<Unit>, passed: nat, available: int)
    requires passed + UnitTokens(OfKind(units, true)) <= available
    requires passed + UnitTokens(units) <= available
    ensures KeepsSuffix(units, passed, available, units)
  {
    hide OfKind, UnitTokens, FitSuffix;
    KindTokens(units);
    PricesFit(OfKind(units, false), available - passed - UnitTokens(OfKind(units, true)));
  }

  lemma KeepInstruction(u: Unit, rest: seq<Unit>, passed: nat, available: int, kept: seq<Unit>)
    requires u.kind.Instruction?
    requires passed + u.tokens + UnitTokens(OfKind(rest, true)) <= available
    requires KeepsSuffix(rest, passed + u.tokens, available, kept)
    ensures passed + UnitTokens(OfKind([u] + rest, true)) <= available
    ensures KeepsSuffix([u] + rest, passed, available, [u] + kept)
  {
    hide OfKind, UnitTokens, FitSuffix;
    UnitTokensOne(u);
    UnitTokensConcat([u], OfKind(rest, true));
    UnitTokensConcat([u], kept);
    SplitFirst(u, rest);
    SplitFirst(u, kept);
  }

  lemma DropOther(u: Unit, rest: seq<Unit>, passed: nat, available: int, kept: seq<Unit>)
    requires !u.kind.Instruction?
    requires passed + UnitTokens(OfKind(rest, true)) <= available
    requires passed + UnitTokens([u] + rest) > available
    requires KeepsSuffix(rest, passed, available, kept)
    ensures passed + UnitTokens(OfKind([u] + rest, true)) <= available
    ensures KeepsSuffix([u] + rest, passed, available, kept)
  {
    hide OfKind, UnitTokens, FitSuffix;
    KindTokens([u] + rest);
    SplitFirst(u, rest);
    FitSkips(u, OfKind(rest, false), available - passed - UnitTokens(OfKind(rest, true)));
  }

  lemma NoUnits()
    ensures UnitTokens([]) == 0
  {
  }

  lemma SplitFirst(u: Unit, rest: seq<Unit>)
    ensures OfKind([u] + rest, true) == (if u.kind.Instruction? then [u] + OfKind(rest, true) else OfKind(rest, true))
    ensures OfKind([u] + rest, false) ==
            (if u.kind.Instruction? then OfKind(rest, false) else [u] + OfKind(rest, false))
  {
    OfKindConcat([u], rest, true);
    OfKindConcat([u], rest, false);
    OfKindOne(u, true);
    OfKindOne(u, false);
  }

  lemma PricesFit(units: seq<Unit>, cap: nat)
    requires UnitTokens(units) <= cap
    ensures FitSuffix(units, cap) == units
  {
    assert Prices(units)[0..] == Prices(units);
    FitFromUnique(Prices(units), cap, 0);
  }

  lemma FitSkips(u: Unit, rest: seq<Unit>, cap: nat)
    requires UnitTokens([u] + rest) > cap
    ensures FitSuffix([u] + rest, cap) == FitSuffix(rest, cap)
  {
    assert Prices([u] + rest)[1..] == Prices(rest);
    assert FitFrom(Prices([u] + rest), cap) == FitFrom(Prices(rest), cap) + 1;
  }

  // ---- the plan ----

  function PlanFor(
      cost: Cost, history: seq<Message>, request: seq<Message>, tools: nat, usable: int, reserved: nat): Plan
  {
    var units := Segment(cost, history);
    var requestTokens := TotalCost(cost, request);
    var mandatory := UnitTokens(OfKind(units, true)) + tools + reserved + requestTokens;
    if mandatory > usable then Overflow(mandatory, usable)
    else
      var kept := Trim(units, UnitTokens(units), usable - tools - reserved - requestTokens);
      var dropped := UnitTokens(units) - UnitTokens(kept);
      Planned(Flat(kept) + request, UnitTokens(kept) + requestTokens, |units| - |kept|,
              if dropped < 0 then 0 else dropped)
  }

  /** The units left in the slots that were not cleared. */
  function Present(slots: seq<Option<Unit>>): seq<Unit> {
    if slots == [] then []
    else
      var n := |slots| - 1;
      Present(slots[..n]) + (if slots[n].Some? then [slots[n].value] else [])
  }

  lemma {:induction false} PresentAll(slots: seq<Option<Unit>>, from: nat, units: seq<Unit>)
    requires |slots| == |units| && from <= |slots|
    requires forall k :: from <= k < |slots| ==> slots[k] == Some(units[k])
    ensures Present(slots) == Present(slots[..from]) + units[from..]
  {
    if from == |slots| {
      assert slots[..from] == slots;
    } else {
      var n := |slots| - 1;
      PresentAll(slots[..n], from, units[..n]);
      assert slots[..n][..from] == slots[..from];
      assert units[from..] == units[..n][from..] + [units[n]];
    }
  }

  lemma PresentStep(slots: seq<Option<Unit>>, k: nat)
    requires k < |slots|
    ensures Present(slots[..k + 1]) == Present(slots[..k]) + (if slots[k].Some? then [slots[k].value] else [])
  {
    assert slots[..k + 1][..k] == slots[..k];
  }

  lemma TrimStep(units: seq<Unit>, k: nat, total: int, available: int)
    requires k < |units| && total > available
    ensures Trim(units[k..], total, available) ==
            if units[k].kind.Instruction? then [units[k]] + Trim(units[k + 1..], total, available)
            else Trim(units[k + 1..], total - units[k].tokens, available)
  {
    assert units[k..][1..] == units[k + 1..];
  }

  lemma TrimDone(units: seq<Unit>, total: int, available: int)
    requires units == [] || total <= available
    ensures Trim(units, total, available) == units
  {
  }

  /** The pass in progress: what is left in the slots so far plus what the rest will keep. */
  ghost predicate Trimming(units: seq<Unit>, available: int, slots: seq<Option<Unit>>, position: nat, total: int) {
    && position <= |units| == |slots|
    && (forall k :: position <= k < |units| ==> slots[k] == Some(units[k]))
    && Present(slots[..position]) + Trim(units[position..], total, available) ==
       Trim(units, UnitTokens(units), available)
  }

  lemma TrimmingStarts(units: seq<Unit>, available: int, slots: seq<Option<Unit>>)
    requires |slots| == |units| && forall k :: 0 <= k < |units| ==> slots[k] == Some(units[k])
    ensures Trimming(units, available, slots, 0, UnitTokens(units))
  {
    hide Trim, UnitTokens;
    assert units[0..] == units && slots[..0] == [];
  }

  lemma TrimmingKeeps(units: seq<Unit>, available: int, slots: seq<Option<Unit>>, position: nat, total: int)
    requires Trimming(units, available, slots, position, total) && position < |units| && total > available
    requires units[position].kind.Instruction?
    ensures Trimming(units, available, slots, position + 1, total)
  {
    hide Trim, UnitTokens, Present;
    TrimStep(units, position, total, available);
    PresentStep(slots, position);
    var before, rest := Present(slots[..position]), Trim(units[position + 1..], total, available);
    assert (before + [units[position]]) + rest == before + ([units[position]] + rest);
  }

  lemma TrimmingDrops(units: seq<Unit>, available: int, slots: seq<Option<Unit>>, position: nat, total: int)
    requires Trimming(units, available, slots, position, total) && position < |units| && total > available
    requires !units[position].kind.Instruction?
    ensures Trimming(units, available, slots[position := None], position + 1, total - units[position].tokens)
  {
    hide Trim, UnitTokens, Present;
    TrimStep(units, position, total, available);
    var cleared := slots[position := None];
    PresentStep(cleared, position);
    assert cleared[..position] == slots[..position];
    assert Present(slots[..position]) + [] == Present(slots[..position]);
  }

  lemma TrimmingEnds(units: seq<Unit>, available: int, slots: seq<Option<Unit>>, position: nat, total: int)
    requires Trimming(units, available, slots, position, total)
    requires position == |units| || total <= available
    ensures Present(slots) == Trim(units, UnitTokens(units), available)
  {
    hide Trim, UnitTokens, Present;
    TrimDone(units[position..], total, available);
    PresentAll(slots, position, units);
  }

  /** The dropping pass over the slots, oldest first. */
  method DropOldest(units: seq<Unit>, available: int) returns (kept: seq<Unit>)
    ensures kept == Trim(units, UnitTokens(units), available)
  {
    hide Trim, UnitTokens, Present;
    var slots: seq<Option<Unit>> := seq(|units|, k requires 0 <= k < |units| => Some(units[k]));
    var total: int := UnitTokens(units);
    var position := 0;
    TrimmingStarts(units, available, slots);
    while position < |units|
      invariant 0 <= position <= |units| == |slots|
      invariant Trimming(units, available, slots, position, total)
    {
      hide Trimming;
      if total <= available {
        break;
      }
      var unit := units[position];
      if unit.kind.Instruction? {
        TrimmingKeeps(units, available, slots, position, total);
      } else {
        TrimmingDrops(units, available, slots, position, total);
        total := total - unit.tokens;
        slots := slots[position := None];
      }
      position := position + 1;
    }
    TrimmingEnds(units, available, slots, position, total);
    kept := Present(slots);
  }

  method PlanContext(cost: Cost, history: seq<Message>, request: seq<Message>, tools: nat, usable: int, reserved: nat)
    returns (plan: Plan)
    ensures plan == PlanFor(cost, history, request, tools, usable, reserved)
  {
    hide Segment, OfKind, UnitTokens, TotalCost, Flat, FitSuffix, Trim;
    var requestTokens := TotalCost(cost, request);
    var units := SegmentMessages(cost, history);
    var mandatory := UnitTokens(OfKind(units, true)) + tools + reserved + requestTokens;
    if mandatory > usable {
      return Overflow(mandatory, usable);
    }
    var available := usable - tools - reserved - requestTokens;
    var kept := DropOldest(units, available);
    var total := UnitTokens(kept) + requestTokens;
    TrimKeepsSuffix(units, 0, available);
    if total + tools > usable {
      assert false;
    }
    var dropped := UnitTokens(units) - UnitTokens(kept);
    return Planned(Flat(kept) + request, total, |units| - |kept|, if dropped < 0 then 0 else dropped);
  }

  lemma {:induction false} TrimWellFormed(cost: Cost, units: seq<Unit>, total: int, available: int)
    requires AllWellFormed(cost, units)
    ensures AllWellFormed(cost, Trim(units, total, available))
    decreases |units|
  {
    if units != [] && total > available {
      var total' := if units[0].kind.Instruction? then total else total - units[0].tokens;
      TrimWellFormed(cost, units[1..], total', available);
    }
  }

  /** Well-formed units cost what their messages cost. */
  lemma {:induction false} UnitsCost(cost: Cost, units: seq<Unit>)
    requires AllWellFormed(cost, units)
    ensures UnitTokens(units) == TotalCost(cost, Flat(units))
  {
    if units != [] {
      var n := |units| - 1;
      UnitsCost(cost, units[..n]);
      UnitTokensConcat(units[..n], [units[n]]);
      UnitTokensOne(units[n]);
      assert units == units[..n] + [units[n]];
      TotalCostConcat(cost, Flat(units[..n]), units[n].messages);
    }
  }

  lemma SegmentCost(cost: Cost, messages: seq<Message>)
    ensures UnitTokens(Segment(cost, messages)) == TotalCost(cost, messages)
  {
    SegmentFaithful(cost, messages);
    UnitsCost(cost, Segment(cost, messages));
    CostSplit(cost, messages);
    CostSplit(cost, Flat(Segment(cost, messages)));
  }

  /** A plan is priced by the messages it sends, leaves the reserve free, and accounts for what it dropped. */
  lemma PlanPricedExactly(
      cost: Cost, history: seq<Message>, request: seq<Message>, tools: nat, usable: int, reserved: nat)
    ensures var plan := PlanFor(cost, history, request, tools, usable, reserved);
            plan.Planned? ==>
              && plan.tokens == TotalCost(cost, plan.messages)
              && plan.tokens + tools + reserved <= usable
              && plan.droppedTokens + plan.tokens == TotalCost(cost, history) + TotalCost(cost, request)
  {
    hide Segment, OfKind, UnitTokens, TotalCost, Flat, FitSuffix, Trim;
    var units := Segment(cost, history);
    var requestTokens := TotalCost(cost, request);
    var available := usable - tools - reserved - requestTokens;
    if UnitTokens(OfKind(units, true)) <= available {
      var kept := Trim(units, UnitTokens(units), available);
      TrimKeepsSuffix(units, 0, available);
      SegmentFaithful(cost, history);
      TrimWellFormed(cost, units, UnitTokens(units), available);
      UnitsCost(cost, kept);
      TotalCostConcat(cost, Flat(kept), request);
      SegmentCost(cost, history);
      KindTokens(units);
      KindTokens(kept);
      SuffixTokens(OfKind(units, false), available - UnitTokens(OfKind(units, true)));
    }
  }

  lemma SuffixTokens(units: seq<Unit>, cap: nat)
    ensures UnitTokens(FitSuffix(units, cap)) <= UnitTokens(units)
  {
    var from := FitFrom(Prices(units), cap);
    UnitTokensConcat(units[..from], units[from..]);
    assert units == units[..from] + units[from..];
  }
}
