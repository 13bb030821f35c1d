/** Context sources normalised into candidates, as the assembly engine packs them. */
module Candidates {
  import opened Messages
  import opened Segmentation

  datatype Source = System | ToolDefinitions | Pinned | CurrentRequest | RecentTurn | Memory | Chunk

  /** Packing tier: a lower tier is packed earlier and dropped later. */
  function Tier(source: Source): nat {
    match source
    case System => 1
    case ToolDefinitions => 1
    case Pinned => 2
    case CurrentRequest => 3
    case RecentTurn => 4
    case Memory => 5
    case Chunk => 5
  }

  datatype Trust = TrustedInstruction | DerivedContext | UntrustedUserData

  function TrustOf(source: Source): Trust {
    match source
    case System => TrustedInstruction
    case ToolDefinitions => TrustedInstruction
    case Pinned => TrustedInstruction
    case CurrentRequest => UntrustedUserData
    case RecentTurn => UntrustedUserData
    case Memory => DerivedContext
    case Chunk => DerivedContext
  }

  datatype Candidate = Candidate(
    source: Source,
    key: string,
    tokens: nat,
    render: seq<Message>,
    text: string,
    contentTexts: seq<string>,
    dedupText: string,
    conversation: Option<string>,
    position: nat)

  datatype RetrievedItem =
    RetrievedItem(isMemory: bool, id: string, conversation: string, kind: string, content: string)

  /** Canonical texts used for duplicate detection; every result holds for any choice of them. */
  datatype Texts = Texts(
    ofMessages: seq<Message> -> string,
    ofContent: Message -> seq<string>,
    canonical: string -> string,
    ofChunk: string -> string)

  // ---- keys ----

  const CURRENT_REQUEST_KEY: string := "current_request"
  const TOOLS_KEY: string := "tool_definitions"

  function Digit(d: nat): char
    requires d < 10
  {
    "0123456789"[d]
  }

  function Decimal(n: nat): (text: string)
    ensures text != ""
  {
    if n < 10 then [Digit(n)] else Decimal(n / 10) + [Digit(n % 10)]
  }

  lemma {:induction false} DecimalInjective(a: nat, b: nat)
    requires Decimal(a) == Decimal(b)
    ensures a == b
  {
    var s, t := Decimal(a), Decimal(b);
    assert s[|s| - 1] == Digit(a % 10) && t[|t| - 1] == Digit(b % 10);
    assert a % 10 == b % 10;
    if a >= 10 && b >= 10 {
      assert s[..|s| - 1] == Decimal(a / 10) && t[..|t| - 1] == Decimal(b / 10);
      DecimalInjective(a / 10, b / 10);
    }
  }

  function UnitKey(index: nat): string { "unit:" + Decimal(index) }

  function PinnedKey(index: nat): string { "pinned:" + Decimal(index) }

  ghost predicate IsUnitKey(key: string) { exists i: nat :: key == UnitKey(i) }

  ghost predicate IsPinnedKey(key: string) { exists i: nat :: key == PinnedKey(i) }

  /** Keys the engine hands out itself; a retrieval id must not be one of them. */
  ghost predicate Reserved(key: string) {
    key == CURRENT_REQUEST_KEY || key == TOOLS_KEY || IsUnitKey(key) || IsPinnedKey(key)
  }

  lemma KeysInjective(i: nat, j: nat)
    ensures UnitKey(i) == UnitKey(j) ==> i == j
    ensures PinnedKey(i) == PinnedKey(j) ==> i == j
  {
    if UnitKey(i) == UnitKey(j) {
      assert UnitKey(i)[5..] == Decimal(i) && UnitKey(j)[5..] == Decimal(j);
      DecimalInjective(i, j);
    }
    if PinnedKey(i) == PinnedKey(j) {
      assert PinnedKey(i)[7..] == Decimal(i) && PinnedKey(j)[7..] == Decimal(j);
      DecimalInjective(i, j);
    }
  }

  /** The reserved keys of different sources never coincide. */
  lemma KeysApart(key: string)
    ensures !(IsUnitKey(key) && IsPinnedKey(key))
    ensures !IsUnitKey(CURRENT_REQUEST_KEY) && !IsUnitKey(TOOLS_KEY)
    ensures !IsPinnedKey(CURRENT_REQUEST_KEY) && !IsPinnedKey(TOOLS_KEY)
    ensures CURRENT_REQUEST_KEY != TOOLS_KEY
  {
    assert forall i: nat :: UnitKey(i)[0] == 'u' && PinnedKey(i)[0] == 'p';
    assert CURRENT_REQUEST_KEY[0] == 'c' && TOOLS_KEY[0] == 't';
  }

  // ---- candidate builders ----

  function FromUnit(texts: Texts, unit: Unit, index: nat): Candidate {
    Candidate(if unit.kind.Instruction? then System else RecentTurn, UnitKey(index), unit.tokens, unit.messages,
              texts.ofMessages(unit.messages), ContentTexts(texts, unit.messages), "", None, index)
  }

  function ContentTexts(texts: Texts, messages: seq<Message>): seq<string> {
    if messages == [] then []
    else ContentTexts(texts, messages[..|messages| - 1]) + texts.ofContent(messages[|messages| - 1])
  }

  function FromRequest(texts: Texts, cost: Cost, request: seq<Message>, position: nat): Candidate {
    Candidate(CurrentRequest, CURRENT_REQUEST_KEY, TotalCost(cost, request), request,
              texts.ofMessages(request), [], "", None, position)
  }

  function FromTools(tokens: nat): Candidate {
    Candidate(ToolDefinitions, TOOLS_KEY, tokens, [], "", [], "", None, 0)
  }

  function FromPinned(texts: Texts, cost: Cost, message: Message, index: nat): Candidate {
    Candidate(Pinned, PinnedKey(index), cost(message), [message], texts.ofMessages([message]), [], "", None, index)
  }

  /** A retrieved block renders as one user message with a provenance line. */
  function RetrievedMessage(item: RetrievedItem): Message {
    var origin := if item.isMemory then "memory" else "chunk";
    var header := "[retrieved " + origin + ":" + item.kind + " id=" + item.id + "]";
    map["role" := Str("user"), "content" := Str(header + "\n" + item.content)]
  }

  function FromRetrieved(texts: Texts, cost: Cost, item: RetrievedItem): Candidate {
    var message := RetrievedMessage(item);
    Candidate(if item.isMemory then Memory else Chunk, item.id, cost(message), [message],
              texts.canonical(message["content"].s), [],
              if item.isMemory then texts.canonical(item.content) else texts.ofChunk(item.content),
              Some(item.conversation), 0)
  }

  /** The price is the price of what is rendered; tool definitions render nothing. */
  ghost predicate Priced(cost: Cost, c: Candidate) {
    if c.source.ToolDefinitions? then c.render == [] else c.tokens == TotalCost(cost, c.render)
  }

  /** Derived blocks never render as trusted instructions. */
  predicate RespectsTrust(c: Candidate) {
    TrustOf(c.source).DerivedContext? && c.render != [] ==> Get(c.render[0], "role") != Str("system")
  }
}
