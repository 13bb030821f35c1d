/**
 Chat messages as JSON objects, and the equivalence that decides when a client's
 copy of a message counts as a projection of the stored one.
 */
module Messages {

  datatype Option<+T> = None | Some(value: T)

  datatype Json =
    | Null
    | Bool(b: bool)
    | Num(n: real)
    | Str(s: string)
    | Arr(items: seq<Json>)
    | Obj(fields: map<string, Json>)

  /** A message is a JSON object; unknown fields are kept verbatim. */
  type Message = map<string, Json>

  const PRUNED_TOOL_RESULT: string := "[Old tool result content cleared]"
  const REASONING_KEYS: set<string> := {"reasoning_content", "reasoning", "reasoning_text"}
  const COMPACTION_WRAPPER: string :=
    "The conversation history before this point was compacted into the following summary:"

  /** A missing field and a null field read the same. */
  function Get(m: Message, key: string): Json {
    if key in m then m[key] else Null
  }

  predicate Truthy(v: Json) {
    match v
    case Null => false
    case Bool(b) => b
    case Num(n) => n != 0.0
    case Str(s) => s != ""
    case Arr(items) => items != []
    case Obj(fields) => fields != map[]
  }

  // ---- text content ----

  predicate IsTextPart(part: Json) {
    && part.Obj?
    && Get(part.fields, "type") == Str("text")
    && Get(part.fields, "text").Str?
  }

  /** The joined text of a list of parts, when every part is a text part. */
  function JoinText(parts: seq<Json>): Option<string> {
    if parts == [] then Some("")
    else if !IsTextPart(parts[0]) then None
    else
      match JoinText(parts[1..])
      case None => None
      case Some(rest) => Some(Get(parts[0].fields, "text").s + rest)
  }

  function TextContent(value: Json): Option<string> {
    match value
    case Str(s) => Some(s)
    case Arr(items) => JoinText(items)
    case _ => None
  }

  lemma {:induction false} JoinTextAppend(parts: seq<Json>, part: Json)
    ensures JoinText(parts + [part]) ==
            if JoinText(parts).None? || !IsTextPart(part) then None
            else Some(JoinText(parts).value + Get(part.fields, "text").s)
  {
    if parts == [] {
      assert parts + [part] == [part] && [part][1..] == [];
      assert JoinText([part][1..]) == Some("");
      assert IsTextPart(part) ==> Get(part.fields, "text").s + "" == "" + Get(part.fields, "text").s;
    } else {
      assert (parts + [part])[1..] == parts[1..] + [part];
      JoinTextAppend(parts[1..], part);
      if JoinText(parts + [part]).Some? {
        var head, rest := Get(parts[0].fields, "text").s, JoinText(parts[1..]).value;
        assert head + (rest + Get(part.fields, "text").s) == (head + rest) + Get(part.fields, "text").s;
      }
    }
  }

  lemma {:induction false} JoinTextRejects(parts: seq<Json>, k: nat)
    requires k < |parts| && !IsTextPart(parts[k])
    ensures JoinText(parts) == None
  {
    if k > 0 {
      JoinTextRejects(parts[1..], k - 1);
    }
  }

  /** The loop that collects the parts agrees with the recursive reading. */
  method ReadText(value: Json) returns (text: Option<string>)
    ensures text == TextContent(value)
  {
    if value.Str? {
      return Some(value.s);
    }
    if !value.Arr? {
      return None;
    }
    var joined := "";
    for k := 0 to |value.items|
      invariant JoinText(value.items[..k]) == Some(joined)
    {
      var part := value.items[k];
      if !IsTextPart(part) {
        JoinTextRejects(value.items, k);
        return None;
      }
      JoinTextAppend(value.items[..k], part);
      assert value.items[..k] + [part] == value.items[..k + 1];
      joined := joined + Get(part.fields, "text").s;
    }
    assert value.items[..|value.items|] == value.items;
    return Some(joined);
  }

  /** The parts are text parts, with these texts. */
  ghost predicate AreTexts(parts: seq<Json>, texts: seq<string>) {
    && |texts| == |parts|
    && forall k :: 0 <= k < |parts| ==>
         && parts[k].Obj?
         && "type" in parts[k].fields && parts[k].fields["type"] == Str("text")
         && "text" in parts[k].fields && parts[k].fields["text"] == Str(texts[k])
  }

  function OneAfterAnother(texts: seq<string>): string {
    if texts == [] then "" else texts[0] + OneAfterAnother(texts[1..])
  }

  /** A content reads as a text exactly when it is that string, or a list of text parts whose texts make it up. */
  lemma TextExactly(value: Json, text: string)
    ensures TextContent(value) == Some(text) <==>
            || value == Str(text)
            || (value.Arr? && exists texts :: AreTexts(value.items, texts) && text == OneAfterAnother(texts))
  {
    if value.Arr? {
      if TextContent(value) == Some(text) {
        var texts := TextsOf(value.items);
      }
      if texts :| AreTexts(value.items, texts) && text == OneAfterAnother(texts) {
        TextsRead(value.items, texts);
      }
    }
  }

  lemma {:induction false} TextsOf(parts: seq<Json>) returns (texts: seq<string>)
    requires JoinText(parts).Some?
    ensures AreTexts(parts, texts) && JoinText(parts) == Some(OneAfterAnother(texts))
  {
    if parts == [] {
      texts := [];
    } else {
      var rest := TextsOf(parts[1..]);
      texts := [parts[0].fields["text"].s] + rest;
      assert texts[1..] == rest;
      assert forall k :: 1 <= k < |parts| ==> parts[k] == parts[1..][k - 1] && texts[k] == rest[k - 1];
    }
  }

  lemma {:induction false} TextsRead(parts: seq<Json>, texts: seq<string>)
    requires AreTexts(parts, texts)
    ensures JoinText(parts) == Some(OneAfterAnother(texts))
  {
    if parts != [] {
      TextsRead(parts[1..], texts[1..]);
    }
  }

  // ---- canonical form and equivalence ----

  /** Drops the reasoning fields and flattens text parts; nothing else changes. */
  function Canonical(m: Message): Message {
    var bare := m - REASONING_KEYS;
    match TextContent(Get(bare, "content"))
    case Some(text) => bare["content" := Str(text)]
    case None => bare
  }

  /** Outside the content and the reasoning fields the two messages are identical. */
  ghost predicate SameElsewhere(a: Message, b: Message) {
    forall key :: key !in {"reasoning", "reasoning_content", "reasoning_text", "content"} ==>
      (key in a <==> key in b) && (key in a && key in b ==> a[key] == b[key])
  }

  /** Textual contents read the same; any other content is identical, including its absence. */
  ghost predicate SameContent(a: Message, b: Message) {
    var s, t := TextContent(Get(a, "content")), TextContent(Get(b, "content"));
    if s.Some? || t.Some? then s == t
    else ("content" in a <==> "content" in b) && Get(a, "content") == Get(b, "content")
  }

  /** Canonical forms agree exactly when the messages differ only in reasoning fields and in how text is split. */
  lemma CanonicalExactly(a: Message, b: Message)
    ensures Canonical(a) == Canonical(b) <==> SameElsewhere(a, b) && SameContent(a, b)
  {
    var left, right := Canonical(a), Canonical(b);
    assert Get(a - REASONING_KEYS, "content") == Get(a, "content");
    assert Get(b - REASONING_KEYS, "content") == Get(b, "content");
    if left == right {
      forall key | key !in {"reasoning", "reasoning_content", "reasoning_text", "content"}
        ensures (key in a <==> key in b) && (key in a && key in b ==> a[key] == b[key])
      {
        assert key in left <==> key in a;
        assert key in right <==> key in b;
      }
      assert Get(left, "content") == Get(right, "content");
    }
    if SameElsewhere(a, b) && SameContent(a, b) {
      assert left.Keys == right.Keys;
      assert left == right;
    }
  }

  /** `sent` carries the pruning placeholder for the same non-empty tool call. */
  predicate IsPruned(stored: Message, sent: Message) {
    && Get(stored, "role") == Get(sent, "role") == Str("tool")
    && Truthy(Get(stored, "tool_call_id"))
    && Get(stored, "tool_call_id") == Get(sent, "tool_call_id")
    && Get(sent, "content") == Str(PRUNED_TOOL_RESULT)
  }

  /** `sent` is what a client may send back for the stored message `stored`. */
  predicate Equivalent(stored: Message, sent: Message) {
    var left := Canonical(stored);
    var right := Canonical(sent);
    left == right || IsPruned(left, right)
  }

  /** Values that count as no tool call id at all. */
  ghost predicate Blank(v: Json) {
    v in {Null, Bool(false), Num(0.0), Str(""), Arr([]), Obj(map[])}
  }

  /** Both are results of the same tool call, and the one sent back only says that the output was cleared. */
  ghost predicate ClearedResult(stored: Message, sent: Message) {
    && "role" in stored && "role" in sent && stored["role"] == Str("tool") && sent["role"] == Str("tool")
    && "tool_call_id" in stored && "tool_call_id" in sent
    && stored["tool_call_id"] == sent["tool_call_id"] && !Blank(stored["tool_call_id"])
    && TextContent(Get(sent, "content")) == Some("[Old tool result content cleared]")
  }

  /** What a client may send back: the message but for reasoning and text splitting, or its cleared tool result. */
  lemma EquivalentExactly(stored: Message, sent: Message)
    ensures Equivalent(stored, sent) <==>
            (SameElsewhere(stored, sent) && SameContent(stored, sent)) || ClearedResult(stored, sent)
  {
    CanonicalExactly(stored, sent);
    CanonicalReads(stored);
    CanonicalReads(sent);
    hide Canonical, SameElsewhere, SameContent;
    assert IsPruned(Canonical(stored), Canonical(sent)) <==> ClearedResult(stored, sent);
  }

  lemma CanonicalReads(m: Message)
    ensures Get(Canonical(m), "role") == Get(m, "role") && Get(Canonical(m), "tool_call_id") == Get(m, "tool_call_id")
    ensures var text := TextContent(Get(m, "content"));
            forall s :: Get(Canonical(m), "content") == Str(s) <==> text == Some(s)
  {
    assert Get(m - REASONING_KEYS, "content") == Get(m, "content");
  }

  /** Results of different tool calls are never equivalent. */
  lemma EquivalentSameCall(stored: Message, sent: Message)
    requires Equivalent(stored, sent)
    ensures Get(stored, "tool_call_id") == Get(sent, "tool_call_id") && Get(stored, "role") == Get(sent, "role")
  {
    EquivalentExactly(stored, sent);
    hide Equivalent, SameContent;
    assert SameElsewhere(stored, sent) ==>
      (("tool_call_id" in stored <==> "tool_call_id" in sent) && ("role" in stored <==> "role" in sent));
  }

  lemma EquivalentReflexive(m: Message)
    ensures Equivalent(m, m)
  {
  }

  lemma CanonicalIdempotent(m: Message)
    ensures Canonical(Canonical(m)) == Canonical(m)
    ensures Equivalent(m, Canonical(m)) && Equivalent(Canonical(m), m)
  {
    var c := Canonical(m);
    assert c - REASONING_KEYS == c;
    assert Get(m - REASONING_KEYS, "content") == Get(m, "content");
    if TextContent(Get(m, "content")).Some? {
      assert c["content" := c["content"]] == c;
    }
  }

  lemma EquivalentTransitive(a: Message, b: Message, c: Message)
    requires Equivalent(a, b) && Equivalent(b, c)
    ensures Equivalent(a, c)
  {
  }

  /** A related pair is related the other way round exactly when nothing was pruned. */
  lemma EquivalentSymmetricExactly(a: Message, b: Message)
    requires Equivalent(a, b)
    ensures Equivalent(b, a) <==>
            || (SameElsewhere(a, b) && SameContent(a, b))
            || TextContent(Get(a, "content")) == Some("[Old tool result content cleared]")
  {
    EquivalentExactly(a, b);
    EquivalentExactly(b, a);
    hide Equivalent, TextContent;
    assert SameContent(a, b) <==> SameContent(b, a);
    assert SameElsewhere(a, b) <==> SameElsewhere(b, a);
    if SameElsewhere(a, b) && SameContent(a, b) {
      assert TextContent(Get(a, "content")) == TextContent(Get(b, "content"));
    }
  }

  lemma EquivalentNotSymmetric(output: string)
    requires output != PRUNED_TOOL_RESULT
    ensures var full := map["role" := Str("tool"), "tool_call_id" := Str("call"), "content" := Str(output)];
            var pruned := full["content" := Str(PRUNED_TOOL_RESULT)];
            Equivalent(full, pruned) && !Equivalent(pruned, full)
  {
    var full: Message := map["role" := Str("tool"), "tool_call_id" := Str("call"), "content" := Str(output)];
    var pruned := full["content" := Str(PRUNED_TOOL_RESULT)];
    assert full - REASONING_KEYS == full;
    assert pruned - REASONING_KEYS == pruned;
    assert Get(Canonical(full), "content") == Str(output);
    assert Get(Canonical(pruned), "content") == Str(PRUNED_TOOL_RESULT);
  }

  // ---- compaction summaries ----

  function Lower(c: char): char {
    if 'A' <= c <= 'Z' then c - 'A' + 'a' else c
  }

  predicate LowersTo(text: string, word: string) {
    |text| == |word| && forall k :: 0 <= k < |text| ==> Lower(text[k]) == word[k]
  }

  predicate Contains(text: string, part: string) {
    part <= text || (text != "" && Contains(text[1..], part))
  }

  lemma {:induction false} ContainsExactly(text: string, part: string)
    ensures Contains(text, part) <==> exists before, after :: text == before + part + after
  {
    if part <= text {
      assert text == [] + part + text[|part|..];
    } else if text != "" {
      ContainsExactly(text[1..], part);
      if Contains(text[1..], part) {
        var before, after :| text[1..] == before + part + after;
        assert text == ([text[0]] + before) + part + after;
      }
      if before, after :| text == before + part + after {
        assert before != [];
        assert text[1..] == before[1..] + part + after;
      }
    }
  }

  predicate IsCompactionSummary(m: Message) {
    || Get(m, "summary") == Bool(true)
    || (Get(m, "mode").Str? && LowersTo(Get(m, "mode").s, "compaction"))
    || (var metadata := Get(m, "metadata");
        metadata.Obj? &&
        (Get(metadata.fields, "compaction") == Bool(true) ||
         Get(metadata.fields, "compaction_continue") == Bool(true)))
    || (var text := TextContent(Get(m, "content"));
        text.Some? &&
        Contains(text.value, COMPACTION_WRAPPER) &&
        Contains(text.value, "<summary>") &&
        Contains(text.value, "</summary>"))
  }

  // ---- which messages are summaries ----

  /** The same letters, some of them perhaps upper case. */
  ghost predicate SameLetters(text: string, word: string) {
    |text| == |word| && forall k :: 0 <= k < |text| ==>
      text[k] == word[k] || ('a' <= word[k] <= 'z' && text[k] as int == word[k] as int - 32)
  }

  ghost predicate FlaggedSummary(m: Message) {
    "summary" in m && m["summary"] == Bool(true)
  }

  ghost predicate CompactionMode(m: Message) {
    "mode" in m && m["mode"].Str? && SameLetters(m["mode"].s, "compaction")
  }

  ghost predicate CompactionMetadata(m: Message) {
    "metadata" in m && m["metadata"].Obj? &&
    exists key :: key in {"compaction", "compaction_continue"} && key in m["metadata"].fields &&
                  m["metadata"].fields[key] == Bool(true)
  }

  ghost predicate Holds(text: string, part: string) { exists before, after :: text == before + part + after }

  ghost predicate WrappedSummary(m: Message) {
    var text := TextContent(Get(m, "content"));
    && text.Some?
    && Holds(text.value, "The conversation history before this point was compacted into the following summary:")
    && Holds(text.value, "<summary>") && Holds(text.value, "</summary>")
  }

  /** A summary is exactly a message with one of the four marks. */
  lemma SummaryExactly(m: Message)
    ensures IsCompactionSummary(m) <==>
            FlaggedSummary(m) || CompactionMode(m) || CompactionMetadata(m) || WrappedSummary(m)
  {
    if Get(m, "mode").Str? {
      assert LowersTo(Get(m, "mode").s, "compaction") <==> SameLetters(Get(m, "mode").s, "compaction");
    }
    var text := TextContent(Get(m, "content"));
    if text.Some? {
      ContainsExactly(text.value, COMPACTION_WRAPPER);
      ContainsExactly(text.value, "<summary>");
      ContainsExactly(text.value, "</summary>");
    }
    hide Contains, LowersTo, SameLetters, TextContent;
    var metadata := Get(m, "metadata");
    if metadata.Obj? {
      assert CompactionMetadata(m) <==>
        Get(metadata.fields, "compaction") == Bool(true) || Get(metadata.fields, "compaction_continue") == Bool(true);
    }
  }
}
