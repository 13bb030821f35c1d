/**
 Reconciling a client's history with the stored one: the scanning loops, the
 decision they feed, and the functions that specify them.
 */
module Reconciliation {
  import opened Messages

  type History = seq<Message>

  /** How many trailing positions the anchor scan looks back over. */
  const MAX_SCAN: nat := 128

  /** The decision; `from` is where the new tail of the client's history starts. */
  datatype Outcome =
    | Exact
    | Append(from: nat)
    | Truncate
    | Compacted(from: nat)
    | TruncateAppend(from: nat)
    | Conflict

  /** Where a block of the client's history matches the end of the stored one. */
  datatype Anchor = Anchor(storedStart: nat, sentStart: nat, sentEnd: nat)

  function Min(a: nat, b: nat): nat { if a < b then a else b }

  function Max(a: int, b: int): int { if a < b then b else a }

  /** The `n` messages of `sent` from `i` on repeat the `n` messages of `stored` from `p` on. */
  predicate Aligned(stored: History, p: nat, sent: History, i: nat, n: nat)
    requires p + n <= |stored| && i + n <= |sent|
  {
    forall j :: p <= j < p + n ==> Equivalent(stored[j], sent[j - p + i])
  }

  /** `sent` repeats `stored` message by message. */
  predicate Projects(stored: History, sent: History) {
    |stored| == |sent| && Aligned(stored, 0, sent, 0, |sent|)
  }

  predicate HasSummary(messages: History) {
    exists k :: 0 <= k < |messages| && IsCompactionSummary(messages[k])
  }

  // ---- specification of the scans ----

  /** `k` is the length of the longest common prefix. */
  predicate IsPrefixLen(stored: History, sent: History, k: nat) {
    && k <= |stored| && k <= |sent|
    && (forall j :: 0 <= j < k ==> Equivalent(stored[j], sent[j]))
    && (k < |stored| && k < |sent| ==> !Equivalent(stored[k], sent[k]))
  }

  function PrefixLen(stored: History, sent: History): (k: nat)
    ensures IsPrefixLen(stored, sent, k)
  {
    if stored == [] || sent == [] || !Equivalent(stored[0], sent[0]) then 0
    else
      var rest := PrefixLen(stored[1..], sent[1..]);
      assert forall j :: 1 <= j < rest + 1 ==> stored[j] == stored[1..][j - 1] && sent[j] == sent[1..][j - 1];
      rest + 1
  }

  /**
   `n` is the length of the longest run that matches backwards from the two ends
   without going below `floor` on either side.
   */
  predicate IsRun(stored: History, sent: History, storedEnd: nat, sentEnd: nat, floor: nat, n: nat)
    requires floor <= storedEnd <= |stored| && floor <= sentEnd <= |sent|
  {
    && n <= storedEnd - floor && n <= sentEnd - floor
    && Aligned(stored, storedEnd - n, sent, sentEnd - n, n)
    && (n < storedEnd - floor && n < sentEnd - floor ==>
          !Equivalent(stored[storedEnd - n - 1], sent[sentEnd - n - 1]))
  }

  function Run(stored: History, sent: History, storedEnd: nat, sentEnd: nat, floor: nat): (n: nat)
    requires floor <= storedEnd <= |stored| && floor <= sentEnd <= |sent|
    ensures IsRun(stored, sent, storedEnd, sentEnd, floor, n)
    decreases storedEnd
  {
    hide Equivalent;
    if storedEnd == floor || sentEnd == floor || !Equivalent(stored[storedEnd - 1], sent[sentEnd - 1]) then 0
    else
      var rest := Run(stored, sent, storedEnd - 1, sentEnd - 1, floor);
      rest + 1
  }

  /**
   The anchor is the latest position in the window whose message matches the last
   stored one, extended backwards as far as the messages match.
   */
  predicate IsAnchor(stored: History, sent: History, prefix: nat, lower: nat, anchor: Anchor)
    requires prefix < |stored| && prefix < lower
  {
    && lower <= anchor.sentEnd <= |sent|
    && anchor.sentStart < anchor.sentEnd
    && anchor.storedStart + (anchor.sentEnd - anchor.sentStart) == |stored|
    && IsRun(stored, sent, |stored|, anchor.sentEnd, prefix, anchor.sentEnd - anchor.sentStart)
    && forall e :: anchor.sentEnd <= e < |sent| ==> !Equivalent(stored[|stored| - 1], sent[e])
  }

  predicate NoAnchor(stored: History, sent: History, prefix: nat, lower: nat)
    requires prefix < |stored| && prefix < lower
  {
    forall e :: lower - 1 <= e < |sent| ==> !Equivalent(stored[|stored| - 1], sent[e])
  }

  function ScanLower(sent: History, prefix: nat): nat {
    Max(prefix + 1, |sent| - MAX_SCAN)
  }

  function ScanFrom(stored: History, sent: History, prefix: nat, lower: nat, sentEnd: nat): (r: Option<Anchor>)
    requires prefix < |stored| && prefix < lower && sentEnd <= |sent|
    requires forall e :: sentEnd <= e < |sent| ==> !Equivalent(stored[|stored| - 1], sent[e])
    ensures r.Some? ==> IsAnchor(stored, sent, prefix, lower, r.value)
    ensures r.None? ==> NoAnchor(stored, sent, prefix, lower)
    decreases sentEnd
  {
    if sentEnd < lower then None
    else
      var n := Run(stored, sent, |stored|, sentEnd, prefix);
      if n > 0 then Some(Anchor(|stored| - n, sentEnd - n, sentEnd))
      else ScanFrom(stored, sent, prefix, lower, sentEnd - 1)
  }

  function AnchorBeforeTail(stored: History, sent: History, prefix: nat): Option<Anchor> {
    if prefix >= |sent| || prefix >= |stored| then None
    else ScanFrom(stored, sent, prefix, ScanLower(sent, prefix), |sent|)
  }

  function SuffixMatch(stored: History, sent: History): Option<(nat, nat)> {
    var n := Run(stored, sent, |stored|, |sent|, 0);
    if n == 0 then None else Some((|stored| - n, |sent| - n))
  }

  // ---- the decision ----

  function Fallback(stored: History, sent: History): Outcome {
    var suffix := SuffixMatch(stored, sent);
    if suffix.Some? && suffix.value.1 == 0 && suffix.value.0 > 0 then Truncate else Conflict
  }

  /** The decision once both histories go on after the common prefix and differ there. */
  function Diverged(stored: History, sent: History, prefix: nat): Outcome
    requires prefix < |stored| && prefix < |sent|
  {
    match AnchorBeforeTail(stored, sent, prefix)
    case None => Fallback(stored, sent)
    case Some(a) =>
      if a.storedStart > prefix && HasSummary(sent[prefix..a.sentStart]) then Compacted(a.sentEnd)
      else if a.storedStart > prefix && a.sentStart == 0 then
        (if a.sentEnd == |sent| then Truncate else TruncateAppend(a.sentEnd))
      else Fallback(stored, sent)
  }

  function Reconcile(stored: History, sent: History): Outcome {
    if sent == [] then Exact
    else if stored == [] then Append(0)
    else
      var prefix := PrefixLen(stored, sent);
      if prefix == |sent| then (if |sent| == |stored| then Exact else Truncate)
      else if prefix == |stored| then Append(|stored|)
      else
        Diverged(stored, sent, prefix)
  }

  /** The messages a decision lets the store append. */
  function NewTail(sent: History, outcome: Outcome): History {
    match outcome
    case Append(from) => if from < |sent| then sent[from..] else []
    case Compacted(from) => if from < |sent| then sent[from..] else []
    case TruncateAppend(from) => if from < |sent| then sent[from..] else []
    case _ => []
  }

  /** The stored history after one reconciliation. */
  function After(stored: History, sent: History): History {
    stored + NewTail(sent, Reconcile(stored, sent))
  }

  // ---- uniqueness of what the scans find ----

  lemma PrefixLenUnique(stored: History, sent: History, k: nat)
    requires IsPrefixLen(stored, sent, k)
    ensures k == PrefixLen(stored, sent)
  {
  }

  lemma RunUnique(stored: History, sent: History, storedEnd: nat, sentEnd: nat, floor: nat, m: nat, n: nat)
    requires floor <= storedEnd <= |stored| && floor <= sentEnd <= |sent|
    requires IsRun(stored, sent, storedEnd, sentEnd, floor, m)
    requires IsRun(stored, sent, storedEnd, sentEnd, floor, n)
    ensures m == n
  {
  }

  lemma AnchorUnique(stored: History, sent: History, prefix: nat, anchor: Anchor)
    requires prefix < |stored| && prefix < |sent|
    requires IsAnchor(stored, sent, prefix, ScanLower(sent, prefix), anchor)
    ensures AnchorBeforeTail(stored, sent, prefix) == Some(anchor)
  {
    hide Equivalent;
    assert Equivalent(stored[|stored| - 1], sent[anchor.sentEnd - 1]);
    var found := AnchorBeforeTail(stored, sent, prefix);
    assert found.Some?;
    assert Equivalent(stored[|stored| - 1], sent[found.value.sentEnd - 1]);
    assert found.value.sentEnd == anchor.sentEnd;
    RunUnique(stored, sent, |stored|, anchor.sentEnd, prefix,
              anchor.sentEnd - anchor.sentStart, found.value.sentEnd - found.value.sentStart);
  }

  // ---- the loops ----

  method ComputePrefixLen(stored: History, sent: History) returns (index: nat)
    ensures index == PrefixLen(stored, sent)
  {
    var limit := Min(|stored|, |sent|);
    index := 0;
    while index < limit && Equivalent(stored[index], sent[index])
      invariant index <= limit
      invariant forall j :: 0 <= j < index ==> Equivalent(stored[j], sent[j])
    {
      index := index + 1;
    }
    PrefixLenUnique(stored, sent, index);
  }

  method ComputeRun(stored: History, sent: History, sentEnd: nat, floor: nat) returns (n: nat)
    requires floor <= |stored| && floor <= sentEnd <= |sent|
    ensures n == Run(stored, sent, |stored|, sentEnd, floor)
  {
    hide Equivalent;
    var p, i := |stored| - 1, sentEnd - 1;
    while p >= floor && i >= floor && Equivalent(stored[p], sent[i])
      invariant floor - 1 <= p < |stored| && floor - 1 <= i < sentEnd
      invariant |stored| - p == sentEnd - i
      invariant Aligned(stored, p + 1, sent, i + 1, sentEnd - 1 - i)
    {
      p, i := p - 1, i - 1;
    }
    n := sentEnd - 1 - i;
    RunUnique(stored, sent, |stored|, sentEnd, floor, n, Run(stored, sent, |stored|, sentEnd, floor));
  }

  method ComputeAnchor(stored: History, sent: History, prefix: nat) returns (r: Option<Anchor>)
    ensures r == AnchorBeforeTail(stored, sent, prefix)
  {
    hide Equivalent;
    if prefix >= |sent| || prefix >= |stored| {
      return None;
    }
    var lower := ScanLower(sent, prefix);
    var sentEnd := |sent|;
    while sentEnd >= lower
      invariant lower - 1 <= sentEnd <= |sent|
      invariant forall e :: sentEnd <= e < |sent| ==> !Equivalent(stored[|stored| - 1], sent[e])
      invariant AnchorBeforeTail(stored, sent, prefix) == ScanFrom(stored, sent, prefix, lower, sentEnd)
    {
      var n := ComputeRun(stored, sent, sentEnd, prefix);
      if n > 0 {
        return Some(Anchor(|stored| - n, sentEnd - n, sentEnd));
      }
      sentEnd := sentEnd - 1;
    }
    return None;
  }

  method ComputeSuffixMatch(stored: History, sent: History) returns (r: Option<(nat, nat)>)
    ensures r == SuffixMatch(stored, sent)
  {
    var n := ComputeRun(stored, sent, |sent|, 0);
    return if n == 0 then None else Some((|stored| - n, |sent| - n));
  }

  method ReconcileProjection(stored: History, sent: History) returns (outcome: Outcome)
    ensures outcome == Reconcile(stored, sent)
  {
    if sent == [] {
      return Exact;
    }
    if stored == [] {
      return Append(0);
    }
    var prefix := ComputePrefixLen(stored, sent);
    if prefix == |sent| {
      return if |sent| == |stored| then Exact else Truncate;
    }
    if prefix == |stored| {
      return Append(|stored|);
    }
    var anchor := ComputeAnchor(stored, sent, prefix);
    if anchor.Some? {
      var Anchor(storedStart, sentStart, sentEnd) := anchor.value;
      var gap := sent[prefix..sentStart];
      if storedStart > prefix {
        if HasSummary(gap) {
          return Compacted(sentEnd);
        }
        if sentStart == 0 {
          return if sentEnd == |sent| then Truncate else TruncateAppend(sentEnd);
        }
      }
    }
    var suffix := ComputeSuffixMatch(stored, sent);
    if suffix.Some? && suffix.value.1 == 0 && suffix.value.0 > 0 {
      return Truncate;
    }
    return Conflict;
  }
}
