/** Units, the current request and the fallback plan, described on the messages themselves. */
module SegmentationLaws {
  import opened Messages
  import opened Segmentation
  import opened Planner

  predicate Role(m: Message, role: string) {
    "role" in m && m["role"] == Str(role)
  }

  predicate Instructs(m: Message) {
    Role(m, "system") || Role(m, "developer")
  }

  lemma RolesRead(m: Message)
    ensures IsInstruction(m) <==> Instructs(m)
    ensures IsUser(m) <==> Role(m, "user")
    ensures IsFollowUp(m) <==> !Instructs(m) && !Role(m, "user")
  {
  }

  lemma AllRolesRead()
    ensures forall m :: IsInstruction(m) <==> Instructs(m)
    ensures forall m :: IsUser(m) <==> Role(m, "user")
    ensures forall m :: IsFollowUp(m) <==> !Instructs(m) && !Role(m, "user")
  {
    forall m ensures IsInstruction(m) <==> Instructs(m) { RolesRead(m); }
    forall m ensures IsUser(m) <==> Role(m, "user") { RolesRead(m); }
    forall m ensures IsFollowUp(m) <==> !Instructs(m) && !Role(m, "user") { RolesRead(m); }
  }

  // ---- the two classes of messages ----

  /** `part` is what `messages` holds at the ascending positions `at`, which are those of the wanted class. */
  ghost predicate ReadAt(messages: seq<Message>, part: seq<Message>, at: seq<nat>, instructions: bool) {
    && |at| == |part| && (forall i, j :: 0 <= i < j < |at| ==> at[i] < at[j])
    && (forall j :: 0 <= j < |at| ==> at[j] < |messages| && part[j] == messages[at[j]])
    && forall k: nat :: k in at <==> k < |messages| && Instructs(messages[k]) == instructions
  }

  lemma {:induction false} PartReadAt(messages: seq<Message>, instructions: bool) returns (at: seq<nat>)
    ensures ReadAt(messages, if instructions then Instructions(messages) else Ordinary(messages), at, instructions)
  {
    if messages == [] {
      at := [];
    } else {
      var n := |messages| - 1;
      var before := PartReadAt(messages[..n], instructions);
      RolesRead(messages[n]);
      hide Instructs, ReadAt;
      at := before + if Instructs(messages[n]) == instructions then [n] else [];
      assert messages == messages[..n] + [messages[n]];
      ReadMore(messages[..n], if instructions then Instructions(messages[..n]) else Ordinary(messages[..n]), before,
               messages[n], instructions);
    }
  }

  lemma ReadMore(messages: seq<Message>, part: seq<Message>, at: seq<nat>, m: Message, instructions: bool)
    requires ReadAt(messages, part, at, instructions)
    ensures var wanted := Instructs(m) == instructions;
            ReadAt(messages + [m], part + (if wanted then [m] else []), at + (if wanted then [|messages|] else []),
                   instructions)
  {
    hide Instructs;
    var n := |messages|;
    var more := at + if Instructs(m) == instructions then [n] else [];
    assert forall k: nat :: k in more <==> k in at || (k == n && Instructs(m) == instructions);
    assert forall j :: 0 <= j < |at| ==> at[j] in at;
  }

  /** The instructions are the system and developer messages in their order, the ordinary messages all the others. */
  lemma SplitExactly(messages: seq<Message>)
    ensures exists at :: ReadAt(messages, Instructions(messages), at, true)
    ensures exists at :: ReadAt(messages, Ordinary(messages), at, false)
  {
    hide ReadAt;
    var at := PartReadAt(messages, true);
    var others := PartReadAt(messages, false);
  }

  /** Every copy of an instruction is among the instructions. */
  lemma {:induction false} InstructionCopies(messages: seq<Message>, m: Message)
    requires Instructs(m)
    ensures multiset(Instructions(messages))[m] == multiset(messages)[m]
  {
    RolesRead(m);
    hide Instructs;
    if messages != [] {
      var n := |messages| - 1;
      InstructionCopies(messages[..n], m);
      assert messages == messages[..n] + [messages[n]];
    }
  }

  // ---- prices ----

  /** The price of a list is the sum of the prices of its messages. */
  lemma PriceExactly(cost: Cost, a: seq<Message>, m: Message)
    ensures TotalCost(cost, []) == 0
    ensures TotalCost(cost, a + [m]) == TotalCost(cost, a) + cost(m)
  {
    assert (a + [m])[..|a|] == a;
  }

  // ---- the shape of a unit ----

  lemma UnitShape(cost: Cost, messages: seq<Message>, k: nat)
    requires k < |Segment(cost, messages)|
    ensures var u := Segment(cost, messages)[k];
            && u.messages != [] && u.tokens == TotalCost(cost, u.messages)
            && (u.kind == Instruction ==> |u.messages| == 1 && Instructs(u.messages[0]))
            && (u.kind == Turn ==> Role(u.messages[0], "user"))
            && (u.kind == Prefill ==> !Role(u.messages[0], "user") && !Instructs(u.messages[0]))
            && forall j :: 1 <= j < |u.messages| ==> !Role(u.messages[j], "user") && !Instructs(u.messages[j])
  {
    SegmentFaithful(cost, messages);
    AllRolesRead();
    hide Segment, Role, Instructs, IsUser, IsInstruction, IsFollowUp, TotalCost;
    assert WellFormed(cost, Segment(cost, messages)[k]);
  }

  // ---- the order of the units ----

  /** Each instruction as a unit of its own. */
  function Single(cost: Cost, instructions: seq<Message>): seq<Unit> {
    seq(|instructions|, k requires 0 <= k < |instructions| =>
      Unit(Instruction, [instructions[k]], TotalCost(cost, [instructions[k]])))
  }

  lemma {:induction false} OpenTurnScan(cost: Cost, before: seq<Message>, user: Message, body: seq<Message>)
    requires Role(user, "user") && forall k :: 0 <= k < |body| ==> !Role(body[k], "user")
    ensures FeedAll(cost, before + [user] + body) ==
            Scan(Segment(cost, before) + Single(cost, Instructions(body)), [], Some([user] + Ordinary(body)))
  {
    AllRolesRead();
    hide Role, Instructs, TotalCost;
    var all := before + [user] + body;
    if body == [] {
      hide FeedAll;
      FeedLast(cost, before, user);
      assert all == before + [user] && !IsInstruction(user);
      var early, single := Segment(cost, before), Single(cost, Instructions(body));
      assert single == [] && early + single == early && [user] + Ordinary(body) == [user];
    } else {
      var n := |body| - 1;
      OpenTurnScan(cost, before, user, body[..n]);
      hide FeedAll;
      FeedLast(cost, before + [user] + body[..n], body[n]);
      assert all == before + [user] + body[..n] + [body[n]];
      assert body == body[..n] + [body[n]] && !IsUser(body[n]);
      OpenTurnStep(cost, Segment(cost, before), user, body[..n], body[n]);
      hide IsInstruction, IsUser, Segment, Single, Instructions, Ordinary, Feed;
    }
  }

  lemma FeedLast(cost: Cost, messages: seq<Message>, m: Message)
    ensures FeedAll(cost, messages + [m]) == Feed(cost, FeedAll(cost, messages), m)
  {
    hide Feed;
    assert (messages + [m])[..|messages|] == messages;
  }

  lemma OpenTurnStep(cost: Cost, early: seq<Unit>, user: Message, body: seq<Message>, m: Message)
    requires !IsUser(m)
    ensures Feed(cost, Scan(early + Single(cost, Instructions(body)), [], Some([user] + Ordinary(body))), m) ==
            Scan(early + Single(cost, Instructions(body + [m])), [], Some([user] + Ordinary(body + [m])))
  {
    hide FeedAll, IsInstruction, IsUser, Single, Instructions, Ordinary, TotalCost;
    SplitSnoc(body, m);
    if IsInstruction(m) {
      SingleMore(cost, Instructions(body), m);
      var single, unit := Single(cost, Instructions(body)), Unit(Instruction, [m], TotalCost(cost, [m]));
      assert (early + single) + [unit] == early + (single + [unit]);
      assert Ordinary(body) + [] == Ordinary(body);
    } else {
      assert Instructions(body) + [] == Instructions(body);
      assert [user] + (Ordinary(body) + [m]) == ([user] + Ordinary(body)) + [m];
    }
  }

  lemma SingleMore(cost: Cost, instructions: seq<Message>, m: Message)
    ensures Single(cost, instructions + [m]) ==
            Single(cost, instructions) + [Unit(Instruction, [m], TotalCost(cost, [m]))]
  {
  }

  /** The last interaction comes last, after the instructions given during it. */
  lemma LastTurn(cost: Cost, before: seq<Message>, user: Message, body: seq<Message>)
    requires Role(user, "user") && forall k :: 0 <= k < |body| ==> !Role(body[k], "user")
    ensures var turn := [user] + Ordinary(body);
            Segment(cost, before + [user] + body) ==
            Segment(cost, before) + Single(cost, Instructions(body)) + [Unit(Turn, turn, TotalCost(cost, turn))]
  {
    OpenTurnScan(cost, before, user, body);
    hide FeedAll, Role, Instructs, Single;
  }

  /** No interaction, and no two neighbours that hold other messages. */
  predicate TurnFree(units: seq<Unit>) {
    && (forall k :: 0 <= k < |units| ==> units[k].kind != Turn)
    && forall k :: 0 < k < |units| ==> !(units[k - 1].kind == Prefill && units[k].kind == Prefill)
  }

  ghost predicate NoTurnYet(messages: seq<Message>, s: Scan) {
    && s.turn == None && Flat(s.units) + s.prefill == messages && TurnFree(s.units)
    && (s.units != [] ==> s.units[|s.units| - 1].kind == Instruction)
  }

  lemma {:induction false} NoTurnScan(cost: Cost, messages: seq<Message>)
    requires forall k :: 0 <= k < |messages| ==> !Role(messages[k], "user")
    ensures NoTurnYet(messages, FeedAll(cost, messages))
  {
    AllRolesRead();
    hide Role, Instructs, TotalCost, IsInstruction, IsUser, IsFollowUp;
    if messages != [] {
      var n := |messages| - 1;
      NoTurnScan(cost, messages[..n]);
      assert messages == messages[..n] + [messages[n]];
      NoTurnStep(cost, messages[..n], FeedAll(cost, messages[..n]), messages[n]);
    }
  }

  lemma NoTurnStep(cost: Cost, messages: seq<Message>, s: Scan, m: Message)
    requires NoTurnYet(messages, s) && !IsUser(m)
    ensures NoTurnYet(messages + [m], Feed(cost, s, m))
  {
    hide IsInstruction, IsUser, TotalCost, Flat, CloseTurn;
    if IsInstruction(m) {
      NoTurnClose(cost, messages, s);
      hide ClosePrefill;
      var closed := ClosePrefill(cost, s);
      FlatOne(closed.units, Unit(Instruction, [m], TotalCost(cost, [m])));
    } else {
      hide TurnFree;
      assert Flat(s.units) + (s.prefill + [m]) == (Flat(s.units) + s.prefill) + [m];
    }
  }

  lemma FlatOne(units: seq<Unit>, u: Unit)
    ensures Flat(units + [u]) == Flat(units) + u.messages
  {
    assert (units + [u])[..|units|] == units;
  }

  lemma NoTurnClose(cost: Cost, messages: seq<Message>, s: Scan)
    requires NoTurnYet(messages, s)
    ensures var closed := ClosePrefill(cost, s);
            closed.turn == None && closed.prefill == [] && Flat(closed.units) == messages && TurnFree(closed.units)
  {
    hide TotalCost;
    if s.prefill != [] {
      FlatOne(s.units, Unit(Prefill, s.prefill, TotalCost(cost, s.prefill)));
    } else {
      assert Flat(s.units) + [] == Flat(s.units);
    }
  }

  /** Before any user message the units follow the messages in order, runs of other messages staying together. */
  lemma BeforeAnyUser(cost: Cost, messages: seq<Message>)
    requires forall k :: 0 <= k < |messages| ==> !Role(messages[k], "user")
    ensures var units := Segment(cost, messages);
            Flat(units) == messages && TurnFree(units)
  {
    NoTurnScan(cost, messages);
    hide FeedAll, Flat, TotalCost, Role;
    NoTurnClose(cost, messages, FeedAll(cost, messages));
  }

  // ---- the current request ----

  /** `messages` is `before`, the request and trailing instructions; the history is all but the request. */
  ghost predicate CutOut(
      messages: seq<Message>, history: seq<Message>, request: seq<Message>, before: seq<Message>, after: seq<Message>)
  {
    && messages == before + request + after && history == before + after
    && request != [] && Role(request[0], "user") && !Instructs(request[|request| - 1])
    && (forall k :: 1 <= k < |request| ==> !Role(request[k], "user"))
    && forall k :: 0 <= k < |after| ==> Instructs(after[k])
  }

  /**
   Without a user message everything is history; otherwise the request runs from the last user message to the
   instructions that end the payload, and the rest is history in its order.
   */
  lemma SeparateExactly(messages: seq<Message>)
    ensures var (history, request) := Separate(messages);
            if forall k :: 0 <= k < |messages| ==> !Role(messages[k], "user") then history == messages && request == []
            else exists before, after :: CutOut(messages, history, request, before, after)
  {
    AllRolesRead();
    hide Role, Instructs, AfterLastUser, TrailingFrom;
    var cut := AfterLastUser(messages);
    if cut > 0 {
      assert !IsInstruction(messages[cut - 1]);
      hide IsUser, IsInstruction;
      var end := TrailingFrom(messages, cut);
      var (history, request) := Separate(messages);
      assert messages == messages[..cut - 1] + request + messages[end..];
      assert request[|request| - 1] == messages[end - 1];
      assert CutOut(messages, history, request, messages[..cut - 1], messages[end..]);
      assert Role(messages[cut - 1], "user");
    }
  }

  // ---- the plan ----

  /**
   Dropping stops at `cut`: what precedes it keeps its instructions only, and it could not have stopped before;
   `passed` is the price of the instructions already walked over.
   */
  ghost predicate CutAt(units: seq<Unit>, passed: nat, available: int, kept: seq<Unit>, cut: nat) {
    && cut <= |units| && kept == OfKind(units[..cut], true) + units[cut..]
    && (cut < |units| ==> passed + UnitTokens(kept) <= available)
    && (cut > 0 ==>
          passed + UnitTokens(OfKind(units[..cut - 1], true)) + UnitTokens(units[cut - 1..]) > available)
  }

  lemma {:induction false} TrimCut(units: seq<Unit>, passed: nat, available: int) returns (cut: nat)
    ensures CutAt(units, passed, available, Trim(units, passed + UnitTokens(units), available), cut)
    decreases |units|
  {
    hide UnitTokens, OfKind;
    cut := 0;
    if units == [] || passed + UnitTokens(units) <= available {
      NothingOfKind();
      assert units[..0] == [] && [] + units == units[0..];
    } else {
      var u, rest := units[0], units[1..];
      assert units == [u] + rest;
      UnitTokensConcat([u], rest);
      UnitTokensOne(u);
      var more := if u.kind.Instruction? then u.tokens else 0;
      var after := TrimCut(rest, passed + more, available);
      hide Trim;
      CutMore(u, rest, passed, available, Trim(rest, passed + more + UnitTokens(rest), available), after);
      cut := after + 1;
    }
  }

  lemma NothingOfKind()
    ensures OfKind([], true) == [] && OfKind([], false) == [] && UnitTokens([]) == 0
  {
  }

  lemma CutMore(u: Unit, rest: seq<Unit>, passed: nat, available: int, kept: seq<Unit>, cut: nat)
    requires CutAt(rest, passed + (if u.kind.Instruction? then u.tokens else 0), available, kept, cut)
    requires passed + UnitTokens([u] + rest) > available
    ensures CutAt([u] + rest, passed, available, (if u.kind.Instruction? then [u] else []) + kept, cut + 1)
  {
    hide UnitTokens, OfKind;
    var units, own := [u] + rest, if u.kind.Instruction? then [u] else [];
    assert units[..cut + 1] == [u] + rest[..cut] && units[cut + 1..] == rest[cut..];
    SplitFirst(u, rest[..cut]);
    assert own + (OfKind(rest[..cut], true) + rest[cut..]) == (own + OfKind(rest[..cut], true)) + rest[cut..];
    UnitTokensConcat(own, kept);
    UnitTokensOne(u);
    NothingOfKind();
    if cut == 0 {
      assert units[..0] == [] && units[0..] == units;
    } else {
      assert units[..cut] == [u] + rest[..cut - 1] && units[cut..] == rest[cut - 1..];
      SplitFirst(u, rest[..cut - 1]);
      UnitTokensConcat(own, OfKind(rest[..cut - 1], true));
    }
  }

  /** What a plan sends and how many interactions it dropped, for some cut of the units. */
  ghost predicate CutPlan(units: seq<Unit>, request: seq<Message>, available: int, plan: Plan, cut: nat)
    requires plan.Planned?
  {
    && cut <= |units|
    && CutAt(units, 0, available, OfKind(units[..cut], true) + units[cut..], cut)
    && plan.messages == Instructions(Flat(units[..cut])) + Flat(units[cut..]) + request
    && plan.droppedUnits == |OfKind(units[..cut], false)|
  }

  ghost predicate CutSomewhere(units: seq<Unit>, request: seq<Message>, available: int, plan: Plan)
    requires plan.Planned?
  {
    exists cut :: CutPlan(units, request, available, plan, cut)
  }

  /**
   A plan sends the units from some point on unchanged, of everything older only the instructions, and then the
   request; it drops as few units as the budget allows.
   */
  lemma PlanExactly(cost: Cost, history: seq<Message>, request: seq<Message>, tools: nat, usable: int, reserved: nat)
    ensures var plan, units := PlanFor(cost, history, request, tools, usable, reserved), Segment(cost, history);
            var available := usable - tools - reserved - TotalCost(cost, request);
            plan.Planned? ==> CutSomewhere(units, request, available, plan)
  {
    hide Segment, UnitTokens, OfKind, Trim, TotalCost, Flat, Instructions, CutAt;
    var units := Segment(cost, history);
    SegmentFaithful(cost, history);
    var available := usable - tools - reserved - TotalCost(cost, request);
    var cut := TrimCut(units, 0, available);
    var kept := Trim(units, UnitTokens(units), available);
    CutBounds(units, 0, available, kept, cut);
    FlatConcat(OfKind(units[..cut], true), units[cut..]);
    KindsSplit(cost, units[..cut]);
    KindsCount(units[..cut]);
    var plan := PlanFor(cost, history, request, tools, usable, reserved);
    if plan.Planned? {
      assert plan.messages == Flat(kept) + request;
      assert plan.droppedUnits == |units| - |kept|;
      assert CutPlan(units, request, available, plan, cut);
    }
  }

  lemma CutBounds(units: seq<Unit>, passed: nat, available: int, kept: seq<Unit>, cut: nat)
    requires CutAt(units, passed, available, kept, cut)
    ensures cut <= |units| && kept == OfKind(units[..cut], true) + units[cut..]
  {
  }

  lemma {:induction false} KindsCount(units: seq<Unit>)
    ensures |OfKind(units, true)| + |OfKind(units, false)| == |units|
  {
    if units != [] { KindsCount(units[..|units| - 1]); }
  }
}
