/** Splitting a message list into atomic interaction units and separating the current request. */
module Segmentation {
  import opened Messages

  /** Token estimate of one message; every result holds for any estimate. */
  type Cost = Message -> nat

  datatype Kind = Instruction | Turn | Prefill

  datatype Unit = Unit(kind: Kind, messages: seq<Message>, tokens: nat)

  predicate IsInstruction(m: Message) {
    Get(m, "role") == Str("system") || Get(m, "role") == Str("developer")
  }

  predicate IsUser(m: Message) {
    Get(m, "role") == Str("user")
  }

  function TotalCost(cost: Cost, messages: seq<Message>): nat {
    if messages == [] then 0
    else TotalCost(cost, messages[..|messages| - 1]) + cost(messages[|messages| - 1])
  }

  /** The instruction messages, in order. */
  function Instructions(messages: seq<Message>): seq<Message> {
    if messages == [] then []
    else
      var n := |messages| - 1;
      Instructions(messages[..n]) + (if IsInstruction(messages[n]) then [messages[n]] else [])
  }

  /** The other messages, in order. */
  function Ordinary(messages: seq<Message>): seq<Message> {
    if messages == [] then []
    else
      var n := |messages| - 1;
      Ordinary(messages[..n]) + (if IsInstruction(messages[n]) then [] else [messages[n]])
  }

  /** The messages of the units, one unit after another. */
  function Flat(units: seq<Unit>): seq<Message> {
    if units == [] then [] else Flat(units[..|units| - 1]) + units[|units| - 1].messages
  }

  /** The units of instructions, or the other units, in order. */
  function OfKind(units: seq<Unit>, instruction: bool): seq<Unit> {
    if units == [] then []
    else
      var n := |units| - 1;
      OfKind(units[..n], instruction) + (if units[n].kind.Instruction? == instruction then [units[n]] else [])
  }

  lemma {:induction false} OfKindConcat(a: seq<Unit>, b: seq<Unit>, instruction: bool)
    ensures OfKind(a + b, instruction) == OfKind(a, instruction) + OfKind(b, instruction)
  {
    if b == [] {
      assert a + b == a;
    } else {
      var n := |b| - 1;
      OfKindConcat(a, b[..n], instruction);
      assert (a + b)[..|a + b| - 1] == a + b[..n];
    }
  }

  lemma OfKindOne(u: Unit, instruction: bool)
    ensures OfKind([u], instruction) == if u.kind.Instruction? == instruction then [u] else []
  {
    assert [u][..0] == [];
  }

  /** Reference definition of the interactions: split at user messages, dropping what precedes the first. */
  function SplitAtUsers(messages: seq<Message>): seq<seq<Message>> {
    if messages == [] then []
    else
      var n := |messages| - 1;
      var before := SplitAtUsers(messages[..n]);
      if IsUser(messages[n]) then before + [[messages[n]]]
      else if before == [] then []
      else before[..|before| - 1] + [before[|before| - 1] + [messages[n]]]
  }

  function Turns(units: seq<Unit>): seq<seq<Message>> {
    if units == [] then []
    else
      var n := |units| - 1;
      Turns(units[..n]) + (if units[n].kind.Turn? then [units[n].messages] else [])
  }

  // ---- concatenation ----

  lemma {:induction false} TotalCostConcat(cost: Cost, a: seq<Message>, b: seq<Message>)
    ensures TotalCost(cost, a + b) == TotalCost(cost, a) + TotalCost(cost, b)
  {
    if b == [] {
      assert a + b == a;
    } else {
      var n := |b| - 1;
      TotalCostConcat(cost, a, b[..n]);
      assert (a + b)[..|a + b| - 1] == a + b[..n];
    }
  }

  lemma {:induction false} SplitConcat(a: seq<Message>, b: seq<Message>)
    ensures Instructions(a + b) == Instructions(a) + Instructions(b)
    ensures Ordinary(a + b) == Ordinary(a) + Ordinary(b)
  {
    if b == [] {
      assert a + b == a;
    } else {
      var n := |b| - 1;
      SplitConcat(a, b[..n]);
      assert (a + b)[..|a + b| - 1] == a + b[..n];
    }
  }

  lemma {:induction false} FlatConcat(a: seq<Unit>, b: seq<Unit>)
    ensures Flat(a + b) == Flat(a) + Flat(b)
  {
    if b == [] {
      assert a + b == a;
    } else {
      var n := |b| - 1;
      FlatConcat(a, b[..n]);
      assert (a + b)[..|a + b| - 1] == a + b[..n] && (a + b)[|a + b| - 1] == b[n];
      assert (Flat(a) + Flat(b[..n])) + b[n].messages == Flat(a) + (Flat(b[..n]) + b[n].messages);
    }
  }

  lemma {:induction false} SplitIsPermutation(messages: seq<Message>)
    ensures multiset(Instructions(messages) + Ordinary(messages)) == multiset(messages)
  {
    if messages != [] {
      var n := |messages| - 1;
      SplitIsPermutation(messages[..n]);
      assert messages == messages[..n] + [messages[n]];
    }
  }

  lemma {:induction false} AllOrdinary(messages: seq<Message>)
    requires forall k :: 0 <= k < |messages| ==> !IsInstruction(messages[k])
    ensures Ordinary(messages) == messages && Instructions(messages) == []
  {
    if messages != [] {
      AllOrdinary(messages[..|messages| - 1]);
    }
  }

  lemma {:induction false} AllInstructions(messages: seq<Message>)
    requires forall k :: 0 <= k < |messages| ==> IsInstruction(messages[k])
    ensures Instructions(messages) == messages && Ordinary(messages) == []
  {
    if messages != [] {
      AllInstructions(messages[..|messages| - 1]);
    }
  }

  // ---- segmentation ----

  datatype Scan = Scan(units: seq<Unit>, prefill: seq<Message>, turn: Option<seq<Message>>)

  function CloseTurn(cost: Cost, s: Scan): Scan {
    if s.turn.Some? && s.turn.value != [] then
      s.(units := s.units + [Unit(Turn, s.turn.value, TotalCost(cost, s.turn.value))], turn := None)
    else s
  }

  function ClosePrefill(cost: Cost, s: Scan): Scan {
    if s.prefill != [] then
      s.(units := s.units + [Unit(Prefill, s.prefill, TotalCost(cost, s.prefill))], prefill := [])
    else s
  }

  function Feed(cost: Cost, s: Scan, m: Message): Scan {
    if IsInstruction(m) then
      var closed := ClosePrefill(cost, s);
      closed.(units := closed.units + [Unit(Instruction, [m], TotalCost(cost, [m]))])
    else if IsUser(m) then ClosePrefill(cost, CloseTurn(cost, s)).(turn := Some([m]))
    else if s.turn.Some? then s.(turn := Some(s.turn.value + [m]))
    else s.(prefill := s.prefill + [m])
  }

  function FeedAll(cost: Cost, messages: seq<Message>): Scan {
    if messages == [] then Scan([], [], None)
    else Feed(cost, FeedAll(cost, messages[..|messages| - 1]), messages[|messages| - 1])
  }

  function Segment(cost: Cost, messages: seq<Message>): seq<Unit> {
    ClosePrefill(cost, CloseTurn(cost, FeedAll(cost, messages))).units
  }

  method SegmentMessages(cost: Cost, messages: seq<Message>) returns (units: seq<Unit>)
    ensures units == Segment(cost, messages)
  {
    units := [];
    var prefill: seq<Message> := [];
    var turn: Option<seq<Message>> := None;
    for k := 0 to |messages|
      invariant Scan(units, prefill, turn) == FeedAll(cost, messages[..k])
    {
      var m := messages[k];
      assert messages[..k + 1][..k] == messages[..k];
      if IsInstruction(m) {
        if prefill != [] {
          units, prefill := units + [Unit(Prefill, prefill, TotalCost(cost, prefill))], [];
        }
        units := units + [Unit(Instruction, [m], TotalCost(cost, [m]))];
      } else if IsUser(m) {
        if turn.Some? && turn.value != [] {
          units, turn := units + [Unit(Turn, turn.value, TotalCost(cost, turn.value))], None;
        }
        if prefill != [] {
          units, prefill := units + [Unit(Prefill, prefill, TotalCost(cost, prefill))], [];
        }
        turn := Some([m]);
      } else if turn.Some? {
        turn := Some(turn.value + [m]);
      } else {
        prefill := prefill + [m];
      }
    }
    assert messages[..|messages|] == messages;
    if turn.Some? && turn.value != [] {
      units := units + [Unit(Turn, turn.value, TotalCost(cost, turn.value))];
    }
    if prefill != [] {
      units := units + [Unit(Prefill, prefill, TotalCost(cost, prefill))];
    }
  }

  // ---- what the units are ----

  /** A message that continues an interaction. */
  predicate IsFollowUp(m: Message) {
    !IsInstruction(m) && !IsUser(m)
  }

  predicate IsTurn(messages: seq<Message>) {
    messages != [] && IsUser(messages[0]) && forall k :: 1 <= k < |messages| ==> IsFollowUp(messages[k])
  }

  predicate WellFormed(cost: Cost, u: Unit) {
    && u.tokens == TotalCost(cost, u.messages)
    && match u.kind
       case Instruction => |u.messages| == 1 && IsInstruction(u.messages[0])
       case Turn => IsTurn(u.messages)
       case Prefill => u.messages != [] && forall k :: 0 <= k < |u.messages| ==> IsFollowUp(u.messages[k])
  }

  predicate AllWellFormed(cost: Cost, units: seq<Unit>) {
    forall k :: 0 <= k < |units| ==> WellFormed(cost, units[k])
  }

  function OpenTurn(s: Scan): seq<Message> {
    if s.turn.Some? then s.turn.value else []
  }

  ghost predicate ScanInvariant(cost: Cost, messages: seq<Message>, s: Scan) {
    && AllWellFormed(cost, s.units)
    && (s.turn.Some? ==> IsTurn(s.turn.value) && s.prefill == [])
    && (forall k :: 0 <= k < |s.prefill| ==> IsFollowUp(s.prefill[k]))
    && Instructions(Flat(s.units)) == Instructions(messages)
    && Ordinary(Flat(s.units)) + s.prefill + OpenTurn(s) == Ordinary(messages)
    && Turns(s.units) + (if s.turn.Some? then [s.turn.value] else []) == SplitAtUsers(Ordinary(messages))
  }

  /** While scanning, no interaction has been emitted unless one is open. */
  ghost predicate Scanning(cost: Cost, messages: seq<Message>, s: Scan) {
    ScanInvariant(cost, messages, s) && (s.turn.None? ==> Turns(s.units) == [])
  }

  /** Emitting a unit adds its messages to what has been emitted. */
  lemma EmitUnit(cost: Cost, units: seq<Unit>, u: Unit)
    requires AllWellFormed(cost, units) && WellFormed(cost, u)
    ensures AllWellFormed(cost, units + [u])
    ensures Instructions(Flat(units + [u])) ==
            Instructions(Flat(units)) + (if u.kind.Instruction? then u.messages else [])
    ensures Ordinary(Flat(units + [u])) == Ordinary(Flat(units)) + (if u.kind.Instruction? then [] else u.messages)
    ensures Turns(units + [u]) == Turns(units) + (if u.kind.Turn? then [u.messages] else [])
  {
    assert (units + [u])[..|units|] == units;
    SplitConcat(Flat(units), u.messages);
    if u.kind.Instruction? {
      AllInstructions(u.messages);
    } else {
      assert forall k :: 0 <= k < |u.messages| ==> !IsInstruction(u.messages[k]);
      AllOrdinary(u.messages);
    }
  }

  lemma CloseTurnKeeps(cost: Cost, messages: seq<Message>, s: Scan)
    requires ScanInvariant(cost, messages, s)
    ensures ScanInvariant(cost, messages, CloseTurn(cost, s)) && CloseTurn(cost, s).turn.None?
  {
    hide Instructions, Ordinary, SplitAtUsers, Turns, Flat, TotalCost;
    if s.turn.Some? {
      EmitUnit(cost, s.units, Unit(Turn, s.turn.value, TotalCost(cost, s.turn.value)));
    }
  }

  lemma ClosePrefillKeeps(cost: Cost, messages: seq<Message>, s: Scan)
    requires ScanInvariant(cost, messages, s)
    ensures ScanInvariant(cost, messages, ClosePrefill(cost, s)) && ClosePrefill(cost, s).prefill == []
    ensures Turns(ClosePrefill(cost, s).units) == Turns(s.units)
  {
    hide Instructions, Ordinary, SplitAtUsers, Turns, Flat, TotalCost;
    if s.prefill != [] {
      EmitUnit(cost, s.units, Unit(Prefill, s.prefill, TotalCost(cost, s.prefill)));
    }
  }

  lemma SplitSnoc(messages: seq<Message>, m: Message)
    ensures Instructions(messages + [m]) == Instructions(messages) + (if IsInstruction(m) then [m] else [])
    ensures Ordinary(messages + [m]) == Ordinary(messages) + (if IsInstruction(m) then [] else [m])
    ensures var before := SplitAtUsers(messages);
            SplitAtUsers(messages + [m]) ==
            if IsUser(m) then before + [[m]]
            else if before == [] then []
            else before[..|before| - 1] + [before[|before| - 1] + [m]]
  {
    assert (messages + [m])[..|messages|] == messages;
  }

  lemma OneInstruction(cost: Cost, m: Message)
    requires IsInstruction(m)
    ensures WellFormed(cost, Unit(Instruction, [m], TotalCost(cost, [m])))
  {
  }

  lemma FeedInstruction(cost: Cost, messages: seq<Message>, s: Scan, m: Message)
    requires Scanning(cost, messages, s) && IsInstruction(m)
    ensures Scanning(cost, messages + [m], Feed(cost, s, m))
  {
    hide Instructions, Ordinary, SplitAtUsers, Turns, Flat, TotalCost;
    SplitSnoc(messages, m);
    ClosePrefillKeeps(cost, messages, s);
    var closed := ClosePrefill(cost, s);
    OneInstruction(cost, m);
    EmitUnit(cost, closed.units, Unit(Instruction, [m], TotalCost(cost, [m])));
    assert Ordinary(Flat(closed.units)) + [] == Ordinary(Flat(closed.units));
    assert Ordinary(messages) + [] == Ordinary(messages);
    assert Turns(closed.units) + [] == Turns(closed.units);
  }

  lemma FeedUser(cost: Cost, messages: seq<Message>, s: Scan, m: Message)
    requires Scanning(cost, messages, s) && !IsInstruction(m) && IsUser(m)
    ensures Scanning(cost, messages + [m], Feed(cost, s, m))
  {
    hide Instructions, Ordinary, SplitAtUsers, Turns, Flat, TotalCost;
    SplitSnoc(messages, m);
    SplitSnoc(Ordinary(messages), m);
    CloseTurnKeeps(cost, messages, s);
    ClosePrefillKeeps(cost, messages, CloseTurn(cost, s));
  }

  lemma FeedFollowUp(cost: Cost, messages: seq<Message>, s: Scan, m: Message)
    requires Scanning(cost, messages, s) && IsFollowUp(m)
    ensures Scanning(cost, messages + [m], Feed(cost, s, m))
  {
    hide Instructions, Ordinary, SplitAtUsers, Turns, Flat, TotalCost;
    SplitSnoc(messages, m);
    SplitSnoc(Ordinary(messages), m);
    var emitted, before := Ordinary(Flat(s.units)), Turns(s.units);
    if s.turn.Some? {
      assert emitted + s.prefill + (s.turn.value + [m]) == (emitted + s.prefill + s.turn.value) + [m];
      assert (before + [s.turn.value])[..|before|] == before;
    }
  }

  lemma FeedKeeps(cost: Cost, messages: seq<Message>, s: Scan, m: Message)
    requires Scanning(cost, messages, s)
    ensures Scanning(cost, messages + [m], Feed(cost, s, m))
  {
    if IsInstruction(m) {
      FeedInstruction(cost, messages, s, m);
    } else if IsUser(m) {
      FeedUser(cost, messages, s, m);
    } else {
      FeedFollowUp(cost, messages, s, m);
    }
  }

  lemma ScanStarts(cost: Cost)
    ensures Scanning(cost, [], FeedAll(cost, []))
  {
  }

  lemma {:induction false} FeedAllKeeps(cost: Cost, messages: seq<Message>)
    ensures Scanning(cost, messages, FeedAll(cost, messages))
  {
    hide Scanning, Feed;
    if messages == [] {
      ScanStarts(cost);
    } else {
      var n := |messages| - 1;
      FeedAllKeeps(cost, messages[..n]);
      FeedKeeps(cost, messages[..n], FeedAll(cost, messages[..n]), messages[n]);
      assert messages[..n] + [messages[n]] == messages;
    }
  }

  /**
   Segmentation loses, duplicates and reorders nothing within either class of messages, every
   unit is priced by its own messages, and its turns are exactly the interactions.
   */
  lemma SegmentFaithful(cost: Cost, messages: seq<Message>)
    ensures var units := Segment(cost, messages);
            && AllWellFormed(cost, units)
            && Instructions(Flat(units)) == Instructions(messages)
            && Ordinary(Flat(units)) == Ordinary(messages)
            && Turns(units) == SplitAtUsers(Ordinary(messages))
  {
    hide Instructions, Ordinary, SplitAtUsers, Turns, Flat, TotalCost;
    FeedAllKeeps(cost, messages);
    CloseTurnKeeps(cost, messages, FeedAll(cost, messages));
    ClosePrefillKeeps(cost, messages, CloseTurn(cost, FeedAll(cost, messages)));
  }

  /** Instruction units carry exactly the instruction messages, the other units the rest. */
  lemma {:induction false} KindsSplit(cost: Cost, units: seq<Unit>)
    requires AllWellFormed(cost, units)
    ensures Flat(OfKind(units, true)) == Instructions(Flat(units))
    ensures Flat(OfKind(units, false)) == Ordinary(Flat(units))
  {
    if units != [] {
      var n := |units| - 1;
      KindsSplit(cost, units[..n]);
      EmitUnit(cost, units[..n], units[n]);
      assert units[..n] + [units[n]] == units;
      assert OfKind(units, true) == OfKind(units[..n], true) + (if units[n].kind.Instruction? then [units[n]] else []);
      FlatConcat(OfKind(units[..n], true), if units[n].kind.Instruction? then [units[n]] else []);
      FlatConcat(OfKind(units[..n], false), if units[n].kind.Instruction? then [] else [units[n]]);
      assert Flat([units[n]]) == units[n].messages;
    }
  }

  // ---- the current request ----

  /** One past the last user message, or 0 when there is none. */
  function AfterLastUser(messages: seq<Message>): (n: nat)
    ensures n <= |messages|
    ensures n > 0 ==> IsUser(messages[n - 1])
    ensures forall k :: n <= k < |messages| ==> !IsUser(messages[k])
  {
    if messages == [] then 0
    else if IsUser(messages[|messages| - 1]) then |messages|
    else AfterLastUser(messages[..|messages| - 1])
  }

  /** Where the instructions that end the payload begin, not before `low`. */
  function TrailingFrom(messages: seq<Message>, low: nat): (end: nat)
    requires low <= |messages|
    ensures low <= end <= |messages|
    ensures forall k :: end <= k < |messages| ==> IsInstruction(messages[k])
    ensures end > low ==> !IsInstruction(messages[end - 1])
  {
    if |messages| > low && IsInstruction(messages[|messages| - 1])
    then TrailingFrom(messages[..|messages| - 1], low)
    else |messages|
  }

  /** The history and the current request of an inbound payload. */
  function Separate(messages: seq<Message>): (seq<Message>, seq<Message>) {
    var after := AfterLastUser(messages);
    if after == 0 then (messages, [])
    else
      var end := TrailingFrom(messages, after);
      (messages[..after - 1] + messages[end..], messages[after - 1..end])
  }

  method SeparateCurrentRequest(messages: seq<Message>) returns (history: seq<Message>, request: seq<Message>)
    ensures (history, request) == Separate(messages)
  {
    var lastUser := -1;
    var index := |messages| - 1;
    while index >= 0
      invariant -1 <= index < |messages|
      invariant forall k :: index < k < |messages| ==> !IsUser(messages[k])
    {
      if IsUser(messages[index]) {
        lastUser := index;
        break;
      }
      index := index - 1;
    }
    assert AfterLastUser(messages) == lastUser + 1;
    if lastUser == -1 {
      return messages, [];
    }
    var end := |messages|;
    var trailing: seq<Message> := [];
    while end - 1 > lastUser && IsInstruction(messages[end - 1])
      invariant lastUser < end <= |messages|
      invariant trailing == messages[end..]
      invariant forall k :: end <= k < |messages| ==> IsInstruction(messages[k])
    {
      trailing := [messages[end - 1]] + trailing;
      end := end - 1;
    }
    assert end == TrailingFrom(messages, lastUser + 1);
    return messages[..lastUser] + trailing, messages[lastUser..end];
  }

  /** Separation only moves trailing instructions: nothing is lost or duplicated. */
  lemma SeparateKeeps(messages: seq<Message>)
    ensures var (history, request) := Separate(messages);
            multiset(history + request) == multiset(messages)
  {
    hide AfterLastUser, TrailingFrom, IsUser, IsInstruction;
    var after := AfterLastUser(messages);
    if after > 0 {
      var end := TrailingFrom(messages, after);
      var a, b, c := messages[..after - 1], messages[after - 1..end], messages[end..];
      assert messages == a + b + c;
      assert multiset(a + b + c) == multiset(a) + multiset(b) + multiset(c);
      assert multiset(a + c + b) == multiset(a) + multiset(c) + multiset(b);
    }
  }

  /** There is a request exactly when there is a user message; it starts there and ends with no instruction. */
  lemma RequestShape(messages: seq<Message>)
    ensures var (history, request) := Separate(messages);
            && (request == [] <==> forall k :: 0 <= k < |messages| ==> !IsUser(messages[k]))
            && (request != [] ==> IsUser(request[0]) && !IsInstruction(request[|request| - 1]))
  {
    hide AfterLastUser, TrailingFrom;
    var after := AfterLastUser(messages);
    if after > 0 {
      var end := TrailingFrom(messages, after);
      assert IsUser(messages[after - 1]) && !IsInstruction(messages[after - 1]);
    }
  }

  // ---- prices ----

  lemma {:induction false} CostSplit(cost: Cost, messages: seq<Message>)
    ensures TotalCost(cost, messages) ==
            TotalCost(cost, Instructions(messages)) + TotalCost(cost, Ordinary(messages))
  {
    if messages != [] {
      var n := |messages| - 1;
      CostSplit(cost, messages[..n]);
      TotalCostConcat(cost, Instructions(messages[..n]), if IsInstruction(messages[n]) then [messages[n]] else []);
      TotalCostConcat(cost, Ordinary(messages[..n]), if IsInstruction(messages[n]) then [] else [messages[n]]);
      assert TotalCost(cost, [messages[n]]) == cost(messages[n]);
    }
  }
}
