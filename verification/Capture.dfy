/**
 Capturing a streamed assistant response: a bounded copy of the bytes, and the
 reconstruction of one message from interleaved fragments.
 */
module Capture {
  import opened Messages

  type Byte = x: int | 0 <= x < 256

  type Bytes = seq<Byte>

  // ---- the bounded buffer ----

  datatype Buffer = Buffer(bytes: Bytes, overflowed: bool)

  function Join(chunks: seq<Bytes>): Bytes {
    if chunks == [] then [] else Join(chunks[..|chunks| - 1]) + chunks[|chunks| - 1]
  }

  function Fed(limit: Option<nat>, b: Buffer, chunk: Bytes): Buffer {
    if b.overflowed then b
    else if limit.Some? && |b.bytes| + |chunk| > limit.value then b.(overflowed := true)
    else b.(bytes := b.bytes + chunk)
  }

  function FedAll(limit: Option<nat>, chunks: seq<Bytes>): Buffer {
    if chunks == [] then Buffer([], false)
    else Fed(limit, FedAll(limit, chunks[..|chunks| - 1]), chunks[|chunks| - 1])
  }

  /**
   The buffer never exceeds the limit, capture overflows exactly when the whole response does,
   and otherwise it holds exactly the response: how the response was chunked does not matter.
   */
  lemma {:induction false} BufferHoldsResponse(limit: Option<nat>, chunks: seq<Bytes>)
    ensures var b := FedAll(limit, chunks);
            && (limit.Some? ==> |b.bytes| <= limit.value)
            && (b.overflowed <==> limit.Some? && |Join(chunks)| > limit.value)
            && (!b.overflowed ==> b.bytes == Join(chunks))
  {
    if chunks != [] {
      BufferHoldsResponse(limit, chunks[..|chunks| - 1]);
    }
  }

  // ---- payloads ----

  /** Name and arguments, or name and input, of a tool call. */
  datatype Call = Call(name: string, body: string)

  /** One fragment of a tool call; empty strings stand for absent fields. */
  datatype Fragment = Fragment(
    index: nat, id: string, kind: string, extra: map<string, Json>, func: Option<Call>, custom: Option<Call>)

  /** One delta; empty strings stand for absent fields. */
  datatype Delta = Delta(
    role: string, content: string, refusal: string, reasoning: map<string, string>, fragments: seq<Fragment>)

  const NO_DELTA: Delta := Delta("", "", "", map[], [])

  /** The first choice of a payload; an absent part is an empty object. */
  datatype Choice = Choice(delta: Option<Delta>, message: Option<Delta>, finishReason: string)

  datatype Payload = Payload(usage: Option<Json>, model: string, choice: Option<Choice>)

  function DeltaOf(choice: Choice): Delta {
    if choice.delta.Some? then choice.delta.value
    else if choice.message.Some? then choice.message.value
    else NO_DELTA
  }

  // ---- accumulated state ----

  datatype Slot = Slot(id: string, kind: string, extra: map<string, Json>, func: Option<Call>, custom: Option<Call>)

  const NO_SLOT: Slot := Slot("", "", map[], None, None)

  datatype Heard = Heard(
    role: string,
    content: seq<string>,
    refusal: seq<string>,
    reasoning: map<string, seq<string>>,
    slots: map<nat, Slot>)

  const SILENCE: Heard := Heard("", [], [], map[], map[])

  const REASONING_ORDER: seq<string> := ["reasoning", "reasoning_content", "reasoning_text"]

  function Or(a: string, b: string): string { if a != "" then a else b }

  function MergeCall(so: Option<Call>, more: Option<Call>): Option<Call> {
    if more.None? then so
    else
      var base := if so.Some? then so.value else Call("", "");
      Some(Call(base.name + more.value.name, base.body + more.value.body))
  }

  /** A later id or type replaces an earlier one, unknown fields keep their first value, call texts grow. */
  function Merge(slot: Slot, f: Fragment): Slot {
    Slot(Or(f.id, slot.id), Or(f.kind, slot.kind), f.extra + slot.extra, MergeCall(slot.func, f.func),
         MergeCall(slot.custom, f.custom))
  }

  function SlotAt(slots: map<nat, Slot>, index: nat): Slot {
    if index in slots then slots[index] else NO_SLOT
  }

  function AddFragments(slots: map<nat, Slot>, fs: seq<Fragment>): map<nat, Slot> {
    if fs == [] then slots
    else
      var before := AddFragments(slots, fs[..|fs| - 1]);
      var f := fs[|fs| - 1];
      before[f.index := Merge(SlotAt(before, f.index), f)]
  }

  function AddPart(parts: seq<string>, part: string): seq<string> {
    if part != "" then parts + [part] else parts
  }

  function Said(texts: map<string, string>, key: string): string {
    if key in texts then texts[key] else ""
  }

  function PartsAt(parts: map<string, seq<string>>, key: string): seq<string> {
    if key in parts then parts[key] else []
  }

  /** Appends what the delta says under the first `n` reasoning keys. */
  function AddReasoning(parts: map<string, seq<string>>, texts: map<string, string>, n: nat): map<string, seq<string>>
    requires n <= |REASONING_ORDER|
  {
    if n == 0 then parts
    else
      var before := AddReasoning(parts, texts, n - 1);
      var key := REASONING_ORDER[n - 1];
      if Said(texts, key) != "" then before[key := PartsAt(before, key) + [Said(texts, key)]] else before
  }

  function Hear(h: Heard, d: Delta): Heard {
    Heard(Or(d.role, h.role), AddPart(h.content, d.content), AddPart(h.refusal, d.refusal),
          AddReasoning(h.reasoning, d.reasoning, |REASONING_ORDER|), AddFragments(h.slots, d.fragments))
  }

  function HearAll(ds: seq<Delta>): Heard {
    if ds == [] then SILENCE else Hear(HearAll(ds[..|ds| - 1]), ds[|ds| - 1])
  }

  // ---- the rebuilt message ----

  datatype ToolCall = ToolCall(id: string, kind: string, call: Call, extra: map<string, Json>)

  /** The assistant message; an empty list of tool calls is an absent field. */
  datatype Reply = Reply(
    role: string, content: Option<string>, reasoning: map<string, string>, toolCalls: seq<ToolCall>,
    refusal: Option<string>)

  function Concat(parts: seq<string>): string {
    if parts == [] then "" else Concat(parts[..|parts| - 1]) + parts[|parts| - 1]
  }

  function NonEmpty(text: string): Option<string> { if text != "" then Some(text) else None }

  function CallOr(call: Option<Call>): Call { if call.Some? then call.value else Call("", "") }

  function Rebuilt(slot: Slot): ToolCall {
    if slot.kind == "custom" || slot.custom.Some? then ToolCall(slot.id, "custom", CallOr(slot.custom), slot.extra)
    else ToolCall(slot.id, Or(slot.kind, "function"), CallOr(slot.func), slot.extra)
  }

  ghost predicate IsLeast(s: set<nat>, m: nat) { m in s && forall x :: x in s ==> m <= x }

  lemma {:induction false} LeastExists(s: set<nat>)
    requires s != {}
    ensures exists m :: IsLeast(s, m)
    decreases |s|
  {
    var x :| x in s;
    var rest := s - {x};
    assert forall y :: y in s ==> y == x || y in rest;
    if rest == {} {
      assert IsLeast(s, x);
    } else {
      LeastExists(rest);
      var m :| IsLeast(rest, m);
      if x <= m {
        assert IsLeast(s, x);
      } else {
        assert IsLeast(s, m);
      }
    }
  }

  /** The indices in increasing order. */
  function SortedIndices(s: set<nat>): (indices: seq<nat>)
    ensures forall k :: 0 <= k < |indices| ==> indices[k] in s
    decreases |s|
  {
    if s == {} then []
    else
      LeastExists(s);
      var m :| m in s && forall x :: x in s ==> m <= x;
      [m] + SortedIndices(s - {m})
  }

  /** The calls that got an id, in index order. */
  function CallsFrom(slots: map<nat, Slot>, indices: seq<nat>): seq<ToolCall>
    requires forall k :: 0 <= k < |indices| ==> indices[k] in slots
  {
    if indices == [] then []
    else
      var n := |indices| - 1;
      var slot := slots[indices[n]];
      CallsFrom(slots, indices[..n]) + (if slot.id != "" then [Rebuilt(slot)] else [])
  }

  function Build(h: Heard): Reply {
    Reply(Or(h.role, "assistant"),
          NonEmpty(Concat(h.content)),
          map key | key in h.reasoning && Concat(h.reasoning[key]) != "" :: Concat(h.reasoning[key]),
          CallsFrom(h.slots, SortedIndices(h.slots.Keys)),
          NonEmpty(Concat(h.refusal)))
  }

  // ---- what a sequence of deltas says, stream by stream ----

  function ContentOf(ds: seq<Delta>): string {
    if ds == [] then "" else ContentOf(ds[..|ds| - 1]) + ds[|ds| - 1].content
  }

  function RefusalOf(ds: seq<Delta>): string {
    if ds == [] then "" else RefusalOf(ds[..|ds| - 1]) + ds[|ds| - 1].refusal
  }

  function ReasoningOf(ds: seq<Delta>, key: string): string {
    if ds == [] then "" else ReasoningOf(ds[..|ds| - 1], key) + Said(ds[|ds| - 1].reasoning, key)
  }

  function RoleOf(ds: seq<Delta>): string {
    if ds == [] then "" else Or(ds[|ds| - 1].role, RoleOf(ds[..|ds| - 1]))
  }

  /** All fragments in arrival order. */
  function FragmentsOf(ds: seq<Delta>): seq<Fragment> {
    if ds == [] then [] else FragmentsOf(ds[..|ds| - 1]) + ds[|ds| - 1].fragments
  }

  /** The fragments of one index, in arrival order. */
  function Only(fs: seq<Fragment>, index: nat): seq<Fragment> {
    if fs == [] then []
    else
      var n := |fs| - 1;
      Only(fs[..n], index) + (if fs[n].index == index then [fs[n]] else [])
  }

  function SlotOf(fs: seq<Fragment>): Slot {
    if fs == [] then NO_SLOT else Merge(SlotOf(fs[..|fs| - 1]), fs[|fs| - 1])
  }

  lemma {:induction false} AddFragmentsConcat(slots: map<nat, Slot>, a: seq<Fragment>, b: seq<Fragment>)
    ensures AddFragments(slots, a + b) == AddFragments(AddFragments(slots, a), b)
  {
    if b == [] {
      assert a + b == a;
    } else {
      var n := |b| - 1;
      AddFragmentsConcat(slots, a, b[..n]);
      assert (a + b)[..|a + b| - 1] == a + b[..n];
    }
  }

  /** The slot of an index depends only on that index's fragments, however they are interleaved. */
  lemma {:induction false} SlotsByIndex(fs: seq<Fragment>, index: nat)
    ensures var slots := AddFragments(map[], fs);
            && (index in slots <==> Only(fs, index) != [])
            && SlotAt(slots, index) == SlotOf(Only(fs, index))
  {
    if fs != [] {
      var n := |fs| - 1;
      SlotsByIndex(fs[..n], index);
      var before := Only(fs[..n], index);
      assert (before + [fs[n]])[..|before|] == before && before + [] == before;
      hide Merge;
    }
  }

  lemma ConcatPart(parts: seq<string>, part: string)
    ensures Concat(AddPart(parts, part)) == Concat(parts) + part
  {
    if part != "" {
      assert (parts + [part])[..|parts|] == parts;
    }
  }

  lemma {:induction false} ReasoningStep(
      parts: map<string, seq<string>>, texts: map<string, string>, n: nat, key: string)
    requires n <= |REASONING_ORDER|
    ensures PartsAt(AddReasoning(parts, texts, n), key) ==
            if key in REASONING_ORDER[..n] then AddPart(PartsAt(parts, key), Said(texts, key)) else PartsAt(parts, key)
    ensures AddReasoning(parts, texts, n).Keys <= parts.Keys + (set k | k in REASONING_ORDER)
  {
    if n > 0 {
      ReasoningStep(parts, texts, n - 1, key);
      assert REASONING_ORDER[..n] == REASONING_ORDER[..n - 1] + [REASONING_ORDER[n - 1]];
      assert REASONING_ORDER[n - 1] !in REASONING_ORDER[..n - 1];
    }
  }

  /** Everything heard is the stream-by-stream reading of the deltas. */
  lemma {:induction false} HeardByStream(ds: seq<Delta>, key: string)
    ensures var h := HearAll(ds);
            && h.role == RoleOf(ds)
            && Concat(h.content) == ContentOf(ds)
            && Concat(h.refusal) == RefusalOf(ds)
            && (key in REASONING_ORDER ==> Concat(PartsAt(h.reasoning, key)) == ReasoningOf(ds, key))
            && h.reasoning.Keys <= (set k | k in REASONING_ORDER)
            && h.slots == AddFragments(map[], FragmentsOf(ds))
  {
    if ds != [] {
      var n := |ds| - 1;
      var h, d := HearAll(ds[..n]), ds[n];
      HeardByStream(ds[..n], key);
      ConcatPart(h.content, d.content);
      ConcatPart(h.refusal, d.refusal);
      ReasoningStep(h.reasoning, d.reasoning, |REASONING_ORDER|, key);
      assert REASONING_ORDER[..|REASONING_ORDER|] == REASONING_ORDER;
      ConcatPart(PartsAt(h.reasoning, key), Said(d.reasoning, key));
      AddFragmentsConcat(map[], FragmentsOf(ds[..n]), d.fragments);
    }
  }

  // ---- which of several values counts ----

  /** The value is the last one that is not empty, or empty when all are. */
  ghost predicate LastSaid(texts: seq<string>, value: string) {
    if forall k :: 0 <= k < |texts| ==> texts[k] == "" then value == ""
    else exists k :: LastAt(texts, value, k)
  }

  predicate LastAt(texts: seq<string>, value: string, k: nat) {
    k < |texts| && texts[k] == value != "" && forall j :: k < j < |texts| ==> texts[j] == ""
  }

  lemma LastSaidMore(texts: seq<string>, value: string, more: string)
    requires LastSaid(texts, value)
    ensures LastSaid(texts + [more], Or(more, value))
  {
    var all := texts + [more];
    if more != "" {
      assert all[|texts|] == more;
      assert LastAt(all, more, |texts|);
    } else if !(forall k :: 0 <= k < |texts| ==> texts[k] == "") {
      var k: nat :| LastAt(texts, value, k);
      assert LastAt(all, value, k) && all[k] != "";
    }
  }

  function Roles(ds: seq<Delta>): seq<string> { seq(|ds|, k requires 0 <= k < |ds| => ds[k].role) }

  function Ids(fs: seq<Fragment>): seq<string> { seq(|fs|, k requires 0 <= k < |fs| => fs[k].id) }

  function KindNames(fs: seq<Fragment>): seq<string> { seq(|fs|, k requires 0 <= k < |fs| => fs[k].kind) }

  /** The role heard is the last one given. */
  lemma {:induction false} RoleIsLast(ds: seq<Delta>)
    ensures LastSaid(Roles(ds), HearAll(ds).role)
  {
    if ds != [] {
      var n := |ds| - 1;
      RoleIsLast(ds[..n]);
      LastSaidMore(Roles(ds[..n]), HearAll(ds[..n]).role, ds[n].role);
      assert Roles(ds) == Roles(ds[..n]) + [ds[n].role];
      hide LastSaid, Or, AddReasoning, AddFragments;
    }
  }

  /** The id and the type of a call are the last ones given. */
  lemma {:induction false} SlotIsLast(fs: seq<Fragment>)
    ensures LastSaid(Ids(fs), SlotOf(fs).id) && LastSaid(KindNames(fs), SlotOf(fs).kind)
  {
    if fs != [] {
      var n := |fs| - 1;
      SlotIsLast(fs[..n]);
      LastSaidMore(Ids(fs[..n]), SlotOf(fs[..n]).id, fs[n].id);
      LastSaidMore(KindNames(fs[..n]), SlotOf(fs[..n]).kind, fs[n].kind);
      assert Ids(fs) == Ids(fs[..n]) + [fs[n].id] && KindNames(fs) == KindNames(fs[..n]) + [fs[n].kind];
      hide LastSaid, Or, MergeCall;
    }
  }

  /** An unknown field of a call keeps the first value given for it. */
  lemma {:induction false} ExtraIsFirst(fs: seq<Fragment>, key: string)
    ensures if forall k :: 0 <= k < |fs| ==> key !in fs[k].extra then key !in SlotOf(fs).extra
            else key in SlotOf(fs).extra && exists k :: FirstExtra(fs, key, SlotOf(fs).extra[key], k)
  {
    if fs != [] {
      hide MergeCall;
      var n := |fs| - 1;
      ExtraIsFirst(fs[..n], key);
      if key in SlotOf(fs[..n]).extra {
        var k: nat :| FirstExtra(fs[..n], key, SlotOf(fs[..n]).extra[key], k);
        assert FirstExtra(fs, key, SlotOf(fs).extra[key], k);
      } else if key in fs[n].extra {
        assert FirstExtra(fs, key, SlotOf(fs).extra[key], n);
      }
    }
  }

  predicate FirstExtra(fs: seq<Fragment>, key: string, value: Json, k: nat) {
    && k < |fs| && key in fs[k].extra && fs[k].extra[key] == value
    && forall j :: 0 <= j < k ==> key !in fs[j].extra
  }

  /** The rebuilt calls, at increasing indices: exactly the indices for which some id was given. */
  ghost predicate CallsAt(fs: seq<Fragment>, calls: seq<ToolCall>, indices: seq<nat>) {
    && Increasing(indices) && |calls| == |indices|
    && (forall k :: 0 <= k < |calls| ==> calls[k] == Rebuilt(SlotOf(Only(fs, indices[k]))) && calls[k].id != "")
    && forall f :: f in fs && f.id != "" ==> f.index in indices
  }

  /** Every call of the message has an id, every index that got an id is there, and they come in index order. */
  lemma CallsExactly(ds: seq<Delta>)
    ensures exists indices :: CallsAt(FragmentsOf(ds), Build(HearAll(ds)).toolCalls, indices)
  {
    hide HearAll, AddFragments, SlotOf, Rebuilt, FragmentsOf, SortedIndices, CallsFrom;
    HeardByStream(ds, "reasoning");
    var fs := FragmentsOf(ds);
    var slots := AddFragments(map[], fs);
    SortedExactly(slots.Keys);
    var indices := NamedCalls(slots, SortedIndices(slots.Keys));
    forall k | 0 <= k < |indices| ensures slots[indices[k]] == SlotOf(Only(fs, indices[k])) {
      SlotsByIndex(fs, indices[k]);
    }
    forall f | f in fs && f.id != "" ensures f.index in indices {
      SlotsByIndex(fs, f.index);
      OnlyHolds(fs, f);
      NamedSlot(Only(fs, f.index), f);
    }
    forall k | 0 <= k < |indices| ensures Rebuilt(slots[indices[k]]).id != "" {
      RebuiltId(slots[indices[k]]);
    }
    assert CallsAt(fs, Build(HearAll(ds)).toolCalls, indices);
  }

  lemma RebuiltId(slot: Slot)
    ensures Rebuilt(slot).id == slot.id
  {
  }

  lemma {:induction false} SortedExactly(s: set<nat>)
    ensures Increasing(SortedIndices(s)) && forall x :: x in s ==> x in SortedIndices(s)
    decreases |s|
  {
    if s != {} {
      var m := SortedIndices(s)[0];
      assert SortedIndices(s) == [m] + SortedIndices(s - {m});
      SortedExactly(s - {m});
    }
  }

  /** The indices whose slot has an id, in order, are those of the calls. */
  lemma {:induction false} NamedCalls(slots: map<nat, Slot>, all: seq<nat>) returns (indices: seq<nat>)
    requires Increasing(all) && forall k :: 0 <= k < |all| ==> all[k] in slots
    ensures Increasing(indices) && |indices| == |CallsFrom(slots, all)|
    ensures forall i :: i in indices <==> i in all && slots[i].id != ""
    ensures forall k :: 0 <= k < |indices| ==>
              indices[k] in slots && CallsFrom(slots, all)[k] == Rebuilt(slots[indices[k]])
  {
    hide Rebuilt;
    indices := [];
    if all != [] {
      var n := |all| - 1;
      var before := NamedCalls(slots, all[..n]);
      hide CallsFrom;
      assert all == all[..n] + [all[n]];
      NamedMore(slots, all[..n], before, all[n]);
      indices := before + if slots[all[n]].id != "" then [all[n]] else [];
    }
  }

  lemma NamedMore(slots: map<nat, Slot>, all: seq<nat>, before: seq<nat>, i: nat)
    requires Increasing(all + [i]) && i in slots && forall k :: 0 <= k < |all| ==> all[k] in slots
    requires Increasing(before) && forall j :: j in before <==> j in all && slots[j].id != ""
    ensures var named := if slots[i].id != "" then [i] else [];
            && Increasing(before + named)
            && (forall j :: j in before + named <==> j in all + [i] && slots[j].id != "")
            && CallsFrom(slots, all + [i]) ==
               CallsFrom(slots, all) + if slots[i].id != "" then [Rebuilt(slots[i])] else []
  {
    hide Rebuilt;
    forall k | 0 <= k < |before| ensures before[k] < i {
      assert before[k] in before;
      var j :| 0 <= j < |all| && all[j] == before[k];
      assert (all + [i])[j] < (all + [i])[|all|];
    }
    assert (all + [i])[..|all|] == all;
  }

  lemma {:induction false} OnlyHolds(fs: seq<Fragment>, f: Fragment)
    requires f in fs
    ensures f in Only(fs, f.index)
  {
    var n := |fs| - 1;
    if f != fs[n] { OnlyHolds(fs[..n], f); }
  }

  lemma {:induction false} NamedSlot(fs: seq<Fragment>, f: Fragment)
    requires f in fs && f.id != ""
    ensures SlotOf(fs).id != ""
  {
    var n := |fs| - 1;
    if f != fs[n] { NamedSlot(fs[..n], f); }
  }

  // ---- every way of cutting a message into deltas ----

  function NamesOf(fs: seq<Fragment>, custom: bool): string {
    if fs == [] then ""
    else
      var call := if custom then fs[|fs| - 1].custom else fs[|fs| - 1].func;
      NamesOf(fs[..|fs| - 1], custom) + CallOr(call).name
  }

  function BodiesOf(fs: seq<Fragment>, custom: bool): string {
    if fs == [] then ""
    else
      var call := if custom then fs[|fs| - 1].custom else fs[|fs| - 1].func;
      BodiesOf(fs[..|fs| - 1], custom) + CallOr(call).body
  }

  /** Unknown fields: the first value of each key. */
  function ExtraOf(fs: seq<Fragment>): map<string, Json> {
    if fs == [] then map[] else fs[|fs| - 1].extra + ExtraOf(fs[..|fs| - 1])
  }

  /** The fragments are a cutting of one tool call: id and type say nothing else, the texts add up. */
  ghost predicate CutsCall(fs: seq<Fragment>, call: ToolCall) {
    var custom := call.kind == "custom";
    && (forall k :: 0 <= k < |fs| ==>
          && (fs[k].id == "" || fs[k].id == call.id)
          && (fs[k].kind == "" || fs[k].kind == call.kind)
          && (if custom then fs[k].func.None? else fs[k].custom.None?))
    && (exists k :: 0 <= k < |fs| && fs[k].id == call.id)
    && (custom ==> exists k :: 0 <= k < |fs| && (fs[k].kind == "custom" || fs[k].custom.Some?))
    && (call.kind != "custom" && call.kind != "function" ==> exists k :: 0 <= k < |fs| && fs[k].kind == call.kind)
    && NamesOf(fs, custom) == call.call.name && BodiesOf(fs, custom) == call.call.body
    && ExtraOf(fs) == call.extra
  }

  /** A message as a provider can send it: no empty texts, every call has an id and a type. */
  ghost predicate Sendable(m: Reply) {
    && m.role != ""
    && m.content != Some("") && m.refusal != Some("")
    && (forall key :: key in m.reasoning ==> key in REASONING_ORDER && m.reasoning[key] != "")
    && forall k :: 0 <= k < |m.toolCalls| ==> m.toolCalls[k].id != "" && m.toolCalls[k].kind != ""
  }

  predicate Increasing(indices: seq<nat>) {
    forall i, j :: 0 <= i < j < |indices| ==> indices[i] < indices[j]
  }

  function Text(text: Option<string>): string { if text.Some? then text.value else "" }

  /** The deltas are a cutting of the message, its calls carrying the given indices. */
  ghost predicate Cuts(ds: seq<Delta>, m: Reply, indices: seq<nat>) {
    && Or(RoleOf(ds), "assistant") == m.role
    && ContentOf(ds) == Text(m.content) && RefusalOf(ds) == Text(m.refusal)
    && (forall key :: key in REASONING_ORDER ==> ReasoningOf(ds, key) == Said(m.reasoning, key))
    && |indices| == |m.toolCalls| && Increasing(indices)
    && (forall f :: f in FragmentsOf(ds) ==> f.index in indices)
    && forall k :: 0 <= k < |indices| ==> CutsCall(Only(FragmentsOf(ds), indices[k]), m.toolCalls[k])
  }

  lemma {:induction false} SlotTexts(fs: seq<Fragment>)
    ensures CallOr(SlotOf(fs).func) == Call(NamesOf(fs, false), BodiesOf(fs, false))
    ensures CallOr(SlotOf(fs).custom) == Call(NamesOf(fs, true), BodiesOf(fs, true))
    ensures SlotOf(fs).extra == ExtraOf(fs)
    ensures SlotOf(fs).custom.Some? <==> exists k :: 0 <= k < |fs| && fs[k].custom.Some?
  {
    if fs != [] {
      SlotTexts(fs[..|fs| - 1]);
    }
  }

  lemma {:induction false} SlotNames(fs: seq<Fragment>, id: string, kind: string)
    requires forall k :: 0 <= k < |fs| ==>
               (fs[k].id == "" || fs[k].id == id) && (fs[k].kind == "" || fs[k].kind == kind)
    ensures SlotOf(fs).id == id || SlotOf(fs).id == ""
    ensures SlotOf(fs).kind == kind || SlotOf(fs).kind == ""
    ensures (exists k :: 0 <= k < |fs| && fs[k].id == id) ==> SlotOf(fs).id == id
    ensures (exists k :: 0 <= k < |fs| && fs[k].kind == kind) ==> SlotOf(fs).kind == kind
  {
    if fs != [] {
      SlotNames(fs[..|fs| - 1], id, kind);
    }
  }

  lemma CutCallRebuilt(fs: seq<Fragment>, call: ToolCall)
    requires CutsCall(fs, call) && call.id != "" && call.kind != ""
    ensures fs != [] && SlotOf(fs).id == call.id && Rebuilt(SlotOf(fs)) == call
  {
    hide SlotOf, NamesOf, BodiesOf, ExtraOf;
    SlotTexts(fs);
    SlotNames(fs, call.id, call.kind);
    var slot := SlotOf(fs);
    if call.kind == "custom" {
      assert slot.kind == "custom" || slot.custom.Some?;
    } else {
      assert slot.custom.None?;
      assert Or(slot.kind, "function") == call.kind;
    }
  }

  lemma {:induction false} IndicesSorted(s: set<nat>, indices: seq<nat>)
    requires Increasing(indices) && s == (set k | k in indices)
    ensures SortedIndices(s) == indices
    decreases |indices|
  {
    if indices != [] {
      FirstIsLeast(s, indices);
      IndicesSorted(s - {indices[0]}, indices[1..]);
    } else {
      assert s == {};
    }
  }

  lemma FirstIsLeast(s: set<nat>, indices: seq<nat>)
    requires Increasing(indices) && indices != [] && s == (set k | k in indices)
    ensures IsLeast(s, indices[0])
    ensures s - {indices[0]} == (set k | k in indices[1..])
  {
    var rest := indices[1..];
    assert forall k :: k in indices <==> k == indices[0] || k in rest;
    assert indices[0] !in rest;
    assert forall j :: 0 <= j < |rest| ==> rest[j] == indices[j + 1];
  }

  lemma {:induction false} CallsRebuilt(slots: map<nat, Slot>, indices: seq<nat>, calls: seq<ToolCall>)
    requires |indices| == |calls|
    requires forall k :: 0 <= k < |indices| ==>
               indices[k] in slots && slots[indices[k]].id != "" && Rebuilt(slots[indices[k]]) == calls[k]
    ensures CallsFrom(slots, indices) == calls
  {
    if indices != [] {
      var n := |indices| - 1;
      CallsRebuilt(slots, indices[..n], calls[..n]);
      assert calls[..n] + [calls[n]] == calls;
    }
  }

  lemma CutCallsRebuilt(fs: seq<Fragment>, calls: seq<ToolCall>, indices: seq<nat>)
    requires |indices| == |calls| && Increasing(indices)
    requires forall f :: f in fs ==> f.index in indices
    requires forall k :: 0 <= k < |calls| ==> calls[k].id != "" && calls[k].kind != ""
    requires forall k :: 0 <= k < |indices| ==> CutsCall(Only(fs, indices[k]), calls[k])
    ensures var slots := AddFragments(map[], fs); CallsFrom(slots, SortedIndices(slots.Keys)) == calls
  {
    hide CutsCall, Rebuilt, SlotOf;
    var slots := AddFragments(map[], fs);
    forall k | 0 <= k < |indices|
      ensures indices[k] in slots && slots[indices[k]].id == calls[k].id && Rebuilt(slots[indices[k]]) == calls[k]
    {
      CutCallRebuilt(Only(fs, indices[k]), calls[k]);
      SlotsByIndex(fs, indices[k]);
    }
    forall i: nat ensures i in slots ==> i in indices {
      SlotsByIndex(fs, i);
      OnlyFrom(fs, i);
    }
    IndicesSorted(slots.Keys, indices);
    CallsRebuilt(slots, indices, calls);
  }

  lemma {:induction false} OnlyFrom(fs: seq<Fragment>, index: nat)
    ensures Only(fs, index) != [] ==> exists f :: f in fs && f.index == index
  {
    if fs != [] {
      var n := |fs| - 1;
      OnlyFrom(fs[..n], index);
      if Only(fs[..n], index) != [] {
        var f :| f in fs[..n] && f.index == index;
        assert f in fs;
      } else if fs[n].index == index {
        assert fs[n] in fs;
      }
    }
  }

  /**
   However a message is cut into deltas, interleaved across calls and in order within each text,
   it is rebuilt exactly.
   */
  lemma CuttingRebuilt(ds: seq<Delta>, m: Reply, indices: seq<nat>)
    requires Sendable(m) && Cuts(ds, m, indices)
    ensures Build(HearAll(ds)) == m
  {
    hide CutsCall, HearAll, AddFragments, RoleOf, ContentOf, RefusalOf, ReasoningOf, FragmentsOf, CallsFrom,
      SortedIndices;
    var h := HearAll(ds);
    HeardByStream(ds, "reasoning");
    CutCallsRebuilt(FragmentsOf(ds), m.toolCalls, indices);
    var rebuilt := Build(h).reasoning;
    forall key ensures key in rebuilt <==> key in m.reasoning
      ensures key in rebuilt ==> key in m.reasoning && rebuilt[key] == m.reasoning[key]
    {
      HeardByStream(ds, key);
    }
    assert rebuilt == m.reasoning;
  }

  // ---- the whole message in one delta is one such cutting ----

  function WholeFragment(call: ToolCall, index: nat): Fragment {
    if call.kind == "custom" then Fragment(index, call.id, call.kind, call.extra, None, Some(call.call))
    else Fragment(index, call.id, call.kind, call.extra, Some(call.call), None)
  }

  function WholeFragments(calls: seq<ToolCall>): (fs: seq<Fragment>)
    ensures |fs| == |calls| && forall k :: 0 <= k < |calls| ==> fs[k] == WholeFragment(calls[k], k)
  {
    seq(|calls|, k requires 0 <= k < |calls| => WholeFragment(calls[k], k))
  }

  function Whole(m: Reply): Delta {
    Delta(m.role, Text(m.content), Text(m.refusal), m.reasoning, WholeFragments(m.toolCalls))
  }

  lemma {:induction false} OnlyWhole(fs: seq<Fragment>, index: nat)
    requires forall k :: 0 <= k < |fs| ==> fs[k].index == k
    ensures Only(fs, index) == if index < |fs| then [fs[index]] else []
  {
    if fs != [] {
      OnlyWhole(fs[..|fs| - 1], index);
    }
  }

  lemma WholeCutsCall(call: ToolCall, index: nat)
    requires call.id != "" && call.kind != ""
    ensures CutsCall([WholeFragment(call, index)], call)
  {
    var f := WholeFragment(call, index);
    assert [f][..0] == [] && [f][0] == f;
    assert f.extra + map[] == f.extra;
    assert "" + call.call.name == call.call.name && "" + call.call.body == call.call.body;
  }

  /** Every message that can be sent has a cutting, so rebuilding is never about nothing. */
  lemma WholeIsCutting(m: Reply)
    requires Sendable(m)
    ensures Cuts([Whole(m)], m, seq(|m.toolCalls|, k => k))
  {
    hide CutsCall, RoleOf, ContentOf, RefusalOf, ReasoningOf, FragmentsOf, Only;
    var d, indices := Whole(m), seq(|m.toolCalls|, k => k);
    OneDeltaSays(d);
    forall f | f in d.fragments ensures f.index in indices {
      assert indices[f.index] == f.index;
    }
    forall key ensures ReasoningOf([d], key) == Said(m.reasoning, key) {
      OneDeltaReasons(d, key);
    }
    forall k | 0 <= k < |m.toolCalls| ensures CutsCall(Only(d.fragments, k), m.toolCalls[k]) {
      OnlyWhole(d.fragments, k);
      WholeCutsCall(m.toolCalls[k], k);
    }
  }

  lemma OneDeltaSays(d: Delta)
    ensures RoleOf([d]) == d.role && ContentOf([d]) == d.content && RefusalOf([d]) == d.refusal
    ensures FragmentsOf([d]) == d.fragments
  {
    assert [d][..0] == [] && [d][0] == d;
    assert "" + d.content == d.content && "" + d.refusal == d.refusal && [] + d.fragments == d.fragments;
  }

  lemma OneDeltaReasons(d: Delta, key: string)
    ensures ReasoningOf([d], key) == Said(d.reasoning, key)
  {
    assert [d][..0] == [] && [d][0] == d;
    assert "" + Said(d.reasoning, key) == Said(d.reasoning, key);
  }

  // ---- the capture object ----

  /** Response-level state that is not part of the message. */
  datatype Metadata = Metadata(finishReason: string, usage: Option<Json>, model: string)

  const NO_METADATA: Metadata := Metadata("", None, "")

  /** What the payloads so far amount to. */
  datatype Absorbed = Absorbed(heard: Heard, metadata: Metadata, anyChoice: bool)

  function Absorb(a: Absorbed, p: Payload): Absorbed {
    var usage := if p.usage.Some? then p.usage else a.metadata.usage;
    var model := Or(p.model, a.metadata.model);
    if p.choice.None? then a.(metadata := Metadata(a.metadata.finishReason, usage, model))
    else
      var choice := p.choice.value;
      Absorbed(Hear(a.heard, DeltaOf(choice)),
               Metadata(Or(choice.finishReason, a.metadata.finishReason), usage, model), true)
  }

  const NOTHING: Absorbed := Absorbed(SILENCE, NO_METADATA, false)

  function AbsorbMore(a: Absorbed, ps: seq<Payload>): Absorbed {
    if ps == [] then a else Absorb(AbsorbMore(a, ps[..|ps| - 1]), ps[|ps| - 1])
  }

  function AbsorbAll(ps: seq<Payload>): Absorbed { AbsorbMore(NOTHING, ps) }

  /** Absorbing in two goes is absorbing everything at once. */
  lemma {:induction false} AbsorbedInGoes(a: Absorbed, ps: seq<Payload>, qs: seq<Payload>)
    ensures AbsorbMore(AbsorbMore(a, ps), qs) == AbsorbMore(a, ps + qs)
  {
    if qs == [] {
      assert ps + qs == ps;
    } else {
      var n := |qs| - 1;
      AbsorbedInGoes(a, ps, qs[..n]);
      assert (ps + qs)[..|ps + qs| - 1] == ps + qs[..n];
    }
  }

  /** The deltas of the payloads that carry a choice. */
  function DeltasOf(ps: seq<Payload>): seq<Delta> {
    if ps == [] then []
    else
      var n := |ps| - 1;
      DeltasOf(ps[..n]) + (if ps[n].choice.Some? then [DeltaOf(ps[n].choice.value)] else [])
  }

  /** What the payload's first choice says: its delta, else its message, else nothing. */
  predicate Speaks(p: Payload, d: Delta) {
    p.choice.Some? &&
    var choice := p.choice.value;
    || choice.delta == Some(d)
    || (choice.delta.None? && choice.message == Some(d))
    || (choice.delta.None? && choice.message.None? && d == Delta("", "", "", map[], []))
  }

  /** The deltas are what the payloads with a choice say, one each and in order. */
  ghost predicate SpokenAt(ps: seq<Payload>, ds: seq<Delta>, at: seq<nat>) {
    && |at| == |ds| && Increasing(at)
    && (forall j :: 0 <= j < |at| ==> at[j] < |ps| && Speaks(ps[at[j]], ds[j]))
    && forall k: nat :: k < |ps| && ps[k].choice.Some? ==> k in at
  }

  lemma {:induction false} DeltasExactly(ps: seq<Payload>) returns (at: seq<nat>)
    ensures SpokenAt(ps, DeltasOf(ps), at)
  {
    at := [];
    if ps != [] {
      var n := |ps| - 1;
      at := DeltasExactly(ps[..n]);
      if ps[n].choice.Some? {
        assert Speaks(ps[n], DeltaOf(ps[n].choice.value));
        hide Speaks, DeltaOf;
        assert forall k: nat :: k in at + [n] <==> k in at || k == n;
        at := at + [n];
      }
    }
  }

  function Models(ps: seq<Payload>): seq<string> { seq(|ps|, k requires 0 <= k < |ps| => ps[k].model) }

  function FinishReasons(ps: seq<Payload>): seq<string> {
    seq(|ps|, k requires 0 <= k < |ps| => Finish(ps[k]))
  }

  predicate LastUsage(ps: seq<Payload>, usage: Option<Json>, k: nat) {
    k < |ps| && ps[k].usage == usage && usage.Some? && forall j :: k < j < |ps| ==> ps[j].usage.None?
  }

  ghost predicate UsageIsLast(ps: seq<Payload>, usage: Option<Json>) {
    if forall k :: 0 <= k < |ps| ==> ps[k].usage.None? then usage.None?
    else exists k :: LastUsage(ps, usage, k)
  }

  /** Usage, model and finish reason are each the last one present among the payloads. */
  lemma {:induction false} MetadataIsLast(ps: seq<Payload>)
    ensures var metadata := AbsorbAll(ps).metadata;
            && LastSaid(Models(ps), metadata.model) && LastSaid(FinishReasons(ps), metadata.finishReason)
            && UsageIsLast(ps, metadata.usage)
  {
    if ps == [] {
      assert |Models([])| == 0 && |FinishReasons([])| == 0;
    } else {
      hide LastSaid, UsageIsLast, Models, FinishReasons, AbsorbAll, Or;
      var n := |ps| - 1;
      var before, p := AbsorbAll(ps[..n]).metadata, ps[n];
      MetadataIsLast(ps[..n]);
      LastSaidMore(Models(ps[..n]), before.model, p.model);
      LastSaidMore(FinishReasons(ps[..n]), before.finishReason, Finish(p));
      UsageMore(ps[..n], before.usage, p);
      assert ps[..n] + [p] == ps;
      MetadataMore(ps[..n], p);
    }
  }

  function Finish(p: Payload): string { if p.choice.Some? then p.choice.value.finishReason else "" }

  lemma MetadataMore(ps: seq<Payload>, p: Payload)
    ensures Models(ps + [p]) == Models(ps) + [p.model] && FinishReasons(ps + [p]) == FinishReasons(ps) + [Finish(p)]
    ensures var before := AbsorbAll(ps).metadata;
            AbsorbAll(ps + [p]).metadata ==
            Metadata(Or(Finish(p), before.finishReason), if p.usage.Some? then p.usage else before.usage,
                     Or(p.model, before.model))
  {
    hide Hear, DeltaOf;
    assert (ps + [p])[..|ps|] == ps;
  }

  lemma UsageMore(ps: seq<Payload>, usage: Option<Json>, p: Payload)
    requires UsageIsLast(ps, usage)
    ensures UsageIsLast(ps + [p], if p.usage.Some? then p.usage else usage)
  {
    var all := ps + [p];
    assert all[|ps|] == p;
    if p.usage.Some? {
      assert LastUsage(all, p.usage, |ps|);
    } else if usage.Some? {
      var k: nat :| LastUsage(ps, usage, k);
      assert LastUsage(all, usage, k) && all[k].usage.Some?;
    }
  }

  /** The message a complete response stands for; `decode` reads the payloads out of the bytes. */
  function MessageOf(decode: Bytes -> seq<Payload>, response: Bytes): Option<Reply> {
    Outcome(AbsorbAll(decode(response)))
  }

  function Outcome(a: Absorbed): Option<Reply> {
    if a.anyChoice then Some(Build(a.heard)) else None
  }

  lemma {:induction false} AbsorbedDeltas(ps: seq<Payload>)
    ensures AbsorbAll(ps).heard == HearAll(DeltasOf(ps))
    ensures AbsorbAll(ps).anyChoice <==> DeltasOf(ps) != []
  {
    if ps != [] {
      var n := |ps| - 1;
      AbsorbedDeltas(ps[..n]);
      var before := DeltasOf(ps[..n]);
      if ps[n].choice.Some? {
        assert (before + [DeltaOf(ps[n].choice.value)])[..|before|] == before;
      } else {
        assert before + [] == before;
      }
    }
  }

  /** A response whose payloads are a cutting of a message is captured as that message. */
  lemma ResponseRebuilt(decode: Bytes -> seq<Payload>, response: Bytes, m: Reply, indices: seq<nat>)
    requires Sendable(m) && DeltasOf(decode(response)) != [] && Cuts(DeltasOf(decode(response)), m, indices)
    ensures MessageOf(decode, response) == Some(m)
  {
    AbsorbedDeltas(decode(response));
    CuttingRebuilt(DeltasOf(decode(response)), m, indices);
  }

  class AssistantCapture {
    const limit: Option<nat>
    var buffer: Bytes
    var overflowed: bool
    var role: string
    var content: seq<string>
    var refusal: seq<string>
    var reasoning: map<string, seq<string>>
    var slots: map<nat, Slot>
    var metadata: Metadata
    var anyChoice: bool

    ghost function State(): Absorbed
      reads this
    {
      Absorbed(Heard(role, content, refusal, reasoning, slots), metadata, anyChoice)
    }

    constructor (limit: Option<nat>)
      ensures this.limit == limit && buffer == [] && !overflowed
      ensures State() == AbsorbAll([])
    {
      this.limit := limit;
      buffer, overflowed := [], false;
      role, content, refusal, reasoning, slots := "", [], [], map[], map[];
      metadata, anyChoice := NO_METADATA, false;
    }

    method Feed(chunk: Bytes)
      modifies this`buffer, this`overflowed
      ensures Buffer(buffer, overflowed) == Fed(limit, old(Buffer(buffer, overflowed)), chunk)
    {
      if overflowed {
        return;
      }
      if limit.Some? {
        var projected := |buffer| + |chunk|;
        if projected > limit.value {
          overflowed := true;
          return;
        }
      }
      buffer := buffer + chunk;
    }

    method AbsorbPayload(p: Payload)
      modifies this`role, this`content, this`refusal, this`reasoning, this`slots, this`metadata, this`anyChoice
      ensures State() == Absorb(old(State()), p)
    {
      if p.usage.Some? {
        metadata := metadata.(usage := p.usage);
      }
      if p.model != "" {
        metadata := metadata.(model := p.model);
      }
      if p.choice.None? {
        return;
      }
      var choice := p.choice.value;
      anyChoice := true;
      HearDelta(DeltaOf(choice));
      if choice.finishReason != "" {
        metadata := metadata.(finishReason := choice.finishReason);
      }
    }

    method HearDelta(delta: Delta)
      modifies this`role, this`content, this`refusal, this`reasoning, this`slots
      ensures State().heard == Hear(old(State()).heard, delta)
    {
      if delta.role != "" {
        role := delta.role;
      }
      if delta.content != "" {
        content := content + [delta.content];
      }
      if delta.refusal != "" {
        refusal := refusal + [delta.refusal];
      }
      HearReasoning(delta.reasoning);
      HearFragments(delta.fragments);
    }

    method HearReasoning(texts: map<string, string>)
      modifies this`reasoning
      ensures reasoning == AddReasoning(old(reasoning), texts, |REASONING_ORDER|)
    {
      for n := 0 to |REASONING_ORDER|
        invariant reasoning == AddReasoning(old(reasoning), texts, n)
      {
        var key := REASONING_ORDER[n];
        if Said(texts, key) != "" {
          reasoning := reasoning[key := PartsAt(reasoning, key) + [Said(texts, key)]];
        }
      }
    }

    method HearFragments(fragments: seq<Fragment>)
      modifies this`slots
      ensures slots == AddFragments(old(slots), fragments)
    {
      for k := 0 to |fragments|
        invariant slots == AddFragments(old(slots), fragments[..k])
      {
        var f := fragments[k];
        assert fragments[..k + 1][..k] == fragments[..k];
        slots := slots[f.index := Merge(SlotAt(slots, f.index), f)];
      }
      assert fragments[..|fragments|] == fragments;
    }

    /** Reads the payloads out of the captured bytes and rebuilds the message. */
    method Finalize(decode: Bytes -> seq<Payload>) returns (message: Option<Reply>)
      modifies this`role, this`content, this`refusal, this`reasoning, this`slots, this`metadata, this`anyChoice
      ensures State() == if overflowed then old(State()) else AbsorbMore(old(State()), decode(buffer))
      ensures message == if overflowed then None else Outcome(State())
    {
      if overflowed {
        return None;
      }
      var ps := decode(buffer);
      for k := 0 to |ps|
        invariant State() == AbsorbMore(old(State()), ps[..k])
      {
        assert ps[..k + 1][..k] == ps[..k];
        AbsorbPayload(ps[k]);
      }
      assert ps[..|ps|] == ps;
      if !anyChoice {
        return None;
      }
      return Some(Build(Heard(role, content, refusal, reasoning, slots)));
    }
  }

  /**
   Passing a response through: every chunk is forwarded unchanged and in order; a message is handed
   on only when the stream completed within the limit, and then it depends only on the whole
   response. `completed` says whether the upstream ended normally after these chunks.
   */
  method PassThrough(chunks: seq<Bytes>, completed: bool, limit: Option<nat>, decode: Bytes -> seq<Payload>)
    returns (forwarded: seq<Bytes>, message: Option<Reply>, metadata: Metadata)
    ensures forwarded == chunks
    ensures var response := Join(chunks);
            var whole := completed && (limit.Some? ==> |response| <= limit.value);
            && message == (if whole then MessageOf(decode, response) else None)
            && metadata == (if whole then AbsorbAll(decode(response)).metadata else NO_METADATA)
  {
    var capture := new AssistantCapture(limit);
    forwarded := [];
    for k := 0 to |chunks|
      invariant forwarded == chunks[..k]
      invariant capture.limit == limit && capture.State() == AbsorbAll([])
      invariant Buffer(capture.buffer, capture.overflowed) == FedAll(limit, chunks[..k])
    {
      assert chunks[..k + 1][..k] == chunks[..k];
      capture.Feed(chunks[k]);
      forwarded := forwarded + [chunks[k]];
    }
    assert chunks[..|chunks|] == chunks;
    BufferHoldsResponse(limit, chunks);
    if !completed || capture.overflowed {
      return forwarded, None, NO_METADATA;
    }
    message := capture.Finalize(decode);
    metadata := capture.metadata;
  }
}
