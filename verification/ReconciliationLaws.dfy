/**
 What the reconciliation decision means: every outcome has an exact, scan-free
 justification, replaying a history changes nothing, and a reply is committed
 exactly when its history still ends where the store does.
 */
module ReconciliationLaws {
  import opened Messages
  import opened Reconciliation

  // ---- reference definition of the decision ----

  /** `sent[start..end]` repeats the end of `stored`, and nothing later in `sent` matches its last message. */
  ghost predicate EndsAt(stored: History, sent: History, start: nat, end: nat) {
    && start < end <= |sent| && end - start <= |stored|
    && |sent| <= end + 128
    && Aligned(stored, |stored| - (end - start), sent, start, end - start)
    && forall e :: end <= e < |sent| ==> !Equivalent(stored[|stored| - 1], sent[e])
  }

  /**
   The client replaced `stored[k..]` up to some block by a gap holding a summary:
   common prefix `k`, gap `sent[k..start]`, longest preserved block `sent[start..end]`.
   */
  ghost predicate CompactedAt(stored: History, sent: History, k: nat, start: nat, end: nat) {
    && IsPrefixLen(stored, sent, k)
    && k < start
    && EndsAt(stored, sent, start, end)
    && k < |stored| - (end - start)
    && !Equivalent(stored[|stored| - (end - start) - 1], sent[start - 1])
    && HasSummary(sent[k..start])
  }

  ghost predicate Accepted(stored: History, sent: History, outcome: Outcome)
    requires !outcome.Conflict?
  {
    match outcome
    case Exact => sent == [] || Projects(stored, sent)
    case Append(from) => from == |stored| < |sent| && Aligned(stored, 0, sent, 0, from)
    case Truncate =>
      && 0 < |sent| < |stored|
      && (Aligned(stored, 0, sent, 0, |sent|) || Aligned(stored, |stored| - |sent|, sent, 0, |sent|))
    case TruncateAppend(from) =>
      && from < |sent| && from < |stored|
      && EndsAt(stored, sent, 0, from)
      && !Equivalent(stored[0], sent[0])
    case Compacted(from) => exists k, start :: CompactedAt(stored, sent, k, start, from)
  }

  ghost predicate Justified(stored: History, sent: History, outcome: Outcome) {
    if outcome.Conflict? then forall o: Outcome :: !o.Conflict? ==> !Accepted(stored, sent, o)
    else Accepted(stored, sent, outcome)
  }

  // ---- the scans find what the reference definition asks for ----

  lemma EndsAtIsAnchor(stored: History, sent: History, k: nat, start: nat, end: nat)
    requires IsPrefixLen(stored, sent, k) && k < |stored| && k <= start
    requires EndsAt(stored, sent, start, end)
    requires k <= |stored| - (end - start)
    requires start == k || k == |stored| - (end - start) ||
             !Equivalent(stored[|stored| - (end - start) - 1], sent[start - 1])
    ensures AnchorBeforeTail(stored, sent, k) == Some(Anchor(|stored| - (end - start), start, end))
  {
    hide Equivalent, IsCompactionSummary, PrefixLen, Run, ScanFrom;
    AnchorUnique(stored, sent, k, Anchor(|stored| - (end - start), start, end));
  }

  lemma AnchorEndsAt(stored: History, sent: History, k: nat)
    requires k < |stored| && k < |sent|
    requires AnchorBeforeTail(stored, sent, k).Some?
    ensures var a := AnchorBeforeTail(stored, sent, k).value;
            && IsAnchor(stored, sent, k, ScanLower(sent, k), a)
            && EndsAt(stored, sent, a.sentStart, a.sentEnd)
            && k <= a.sentStart && k <= a.storedStart
  {
    hide Equivalent, IsCompactionSummary, PrefixLen, Run, ScanFrom;
  }

  /** The whole of `sent` repeats the end of `stored` exactly when the backward run reaches its start. */
  lemma WholeSuffix(stored: History, sent: History)
    ensures Run(stored, sent, |stored|, |sent|, 0) == |sent| <==>
            |sent| <= |stored| && Aligned(stored, |stored| - |sent|, sent, 0, |sent|)
  {
    hide Equivalent, IsCompactionSummary, PrefixLen, Run, ScanFrom;
    if |sent| <= |stored| && Aligned(stored, |stored| - |sent|, sent, 0, |sent|) {
      RunUnique(stored, sent, |stored|, |sent|, 0, |sent|, Run(stored, sent, |stored|, |sent|, 0));
    }
  }

  // ---- the decision is exactly what is justified ----

  lemma PrefixDecides(stored: History, sent: History)
    ensures var n := Min(|stored|, |sent|);
            Aligned(stored, 0, sent, 0, n) <==> PrefixLen(stored, sent) == n
  {
    hide Equivalent, IsCompactionSummary, PrefixLen, Run, ScanFrom;
    var n := Min(|stored|, |sent|);
    if Aligned(stored, 0, sent, 0, n) {
      PrefixLenUnique(stored, sent, n);
    }
  }

  /** A history that repeats the end of the store is truncated, however much of the start it also repeats. */
  lemma SuffixDiverged(stored: History, sent: History, k: nat)
    requires IsPrefixLen(stored, sent, k) && k < |sent| < |stored|
    requires Aligned(stored, |stored| - |sent|, sent, 0, |sent|)
    ensures Diverged(stored, sent, k) == Truncate
  {
    WholeSuffix(stored, sent);
    SuffixEndsAt(stored, sent, k);
    hide Equivalent, IsCompactionSummary, PrefixLen, Run, ScanFrom, Aligned, HasSummary;
    EndsAtIsAnchor(stored, sent, k, k, |sent|);
    EmptyHasNoSummary(sent[k..k]);
  }

  lemma SuffixEndsAt(stored: History, sent: History, k: nat)
    requires k < |sent| < |stored| && Aligned(stored, |stored| - |sent|, sent, 0, |sent|)
    ensures EndsAt(stored, sent, k, |sent|)
  {
    hide Equivalent;
  }

  lemma TruncateDecides(stored: History, sent: History)
    requires Accepted(stored, sent, Truncate)
    ensures Reconcile(stored, sent) == Truncate
  {
    hide Equivalent, PrefixLen, Diverged, Aligned;
    PrefixDecides(stored, sent);
    var k := PrefixLen(stored, sent);
    if k < |sent| {
      SuffixDiverged(stored, sent, k);
    }
  }

  lemma AnchoredDecides(stored: History, sent: History, outcome: Outcome)
    requires outcome.TruncateAppend? || outcome.Compacted?
    requires Accepted(stored, sent, outcome)
    ensures Reconcile(stored, sent) == outcome
  {
    hide Equivalent, IsCompactionSummary, PrefixLen, Run, ScanFrom, Aligned, HasSummary;
    if outcome.TruncateAppend? {
      PrefixLenUnique(stored, sent, 0);
      EndsAtIsAnchor(stored, sent, 0, 0, outcome.from);
      EmptyHasNoSummary(sent[0..0]);
    } else {
      var k, start :| CompactedAt(stored, sent, k, start, outcome.from);
      PrefixLenUnique(stored, sent, k);
      EndsAtIsAnchor(stored, sent, k, start, outcome.from);
    }
  }

  lemma EmptyHasNoSummary(messages: History)
    requires messages == []
    ensures !HasSummary(messages)
  {
  }

  lemma AcceptedDecides(stored: History, sent: History, outcome: Outcome)
    requires !outcome.Conflict? && Accepted(stored, sent, outcome)
    ensures Reconcile(stored, sent) == outcome
  {
    hide Equivalent, PrefixLen, Aligned, Diverged, HasSummary;
    PrefixDecides(stored, sent);
    match outcome
    case Exact =>
    case Append(from) =>
    case Truncate => TruncateDecides(stored, sent);
    case TruncateAppend(from) => AnchoredDecides(stored, sent, outcome);
    case Compacted(from) => AnchoredDecides(stored, sent, outcome);
  }

  lemma DivergedAccepted(stored: History, sent: History, k: nat)
    requires IsPrefixLen(stored, sent, k) && k < |stored| && k < |sent|
    requires !Diverged(stored, sent, k).Conflict?
    ensures Accepted(stored, sent, Diverged(stored, sent, k))
  {
    hide Equivalent, IsCompactionSummary, PrefixLen, Run, ScanFrom, Aligned, HasSummary;
    WholeSuffix(stored, sent);
    if AnchorBeforeTail(stored, sent, k).Some? {
      AnchorEndsAt(stored, sent, k);
      var a := AnchorBeforeTail(stored, sent, k).value;
      if a.storedStart > k && HasSummary(sent[k..a.sentStart]) {
        if a.sentStart == k { EmptyHasNoSummary(sent[k..a.sentStart]); }
        assert CompactedAt(stored, sent, k, a.sentStart, a.sentEnd);
      }
    }
  }

  lemma DecidedAccepted(stored: History, sent: History)
    requires !Reconcile(stored, sent).Conflict?
    ensures Accepted(stored, sent, Reconcile(stored, sent))
  {
    hide Equivalent, PrefixLen, Diverged, HasSummary;
    PrefixDecides(stored, sent);
    var k := PrefixLen(stored, sent);
    if k < |stored| && k < |sent| {
      DivergedAccepted(stored, sent, k);
    }
  }

  /** The decision is the one justified outcome: no other is justified, and a conflict means none is. */
  lemma DecisionCharacterised(stored: History, sent: History, outcome: Outcome)
    ensures Reconcile(stored, sent) == outcome <==> Justified(stored, sent, outcome)
  {
    hide Equivalent, IsCompactionSummary, PrefixLen, Run, ScanFrom;
    var decided := Reconcile(stored, sent);
    forall o: Outcome | !o.Conflict? && Accepted(stored, sent, o) ensures decided == o {
      AcceptedDecides(stored, sent, o);
    }
    if !decided.Conflict? {
      DecidedAccepted(stored, sent);
    }
  }

  /** A fork without a summary, however it goes on, never adds anything. */
  lemma ForkNeverAppends(stored: History, sent: History, k: nat)
    requires IsPrefixLen(stored, sent, k) && 0 < k < |stored| && k < |sent|
    requires !HasSummary(sent[k..])
    ensures NewTail(sent, Reconcile(stored, sent)) == []
  {
    hide Equivalent, IsCompactionSummary, PrefixLen, Run, ScanFrom;
    PrefixLenUnique(stored, sent, k);
    if AnchorBeforeTail(stored, sent, k).Some? {
      AnchorEndsAt(stored, sent, k);
      var gap := sent[k..AnchorBeforeTail(stored, sent, k).value.sentStart];
      assert forall j :: 0 <= j < |gap| ==> gap[j] == sent[k..][j];
    }
  }

  // ---- compaction ----

  /**
   A compacted history whose new tail fits the scan window is recognised and only the
   tail is appended; with a longer tail the same history is a conflict.
   */
  lemma CompactionRecognisedInWindow(stored: History, sent: History, k: nat, start: nat, end: nat)
    requires IsPrefixLen(stored, sent, k) && k < start < end <= |sent|
    requires k < |stored| - (end - start)
    requires HasSummary(sent[k..start])
    requires Aligned(stored, |stored| - (end - start), sent, start, end - start)
    requires !Equivalent(stored[|stored| - (end - start) - 1], sent[start - 1])
    requires forall e :: end <= e < |sent| ==> !Equivalent(stored[|stored| - 1], sent[e])
    ensures |sent| - end <= 128 ==> Reconcile(stored, sent) == Compacted(end)
    ensures |sent| - end > 128 ==> Reconcile(stored, sent) == Conflict
  {
    hide Equivalent, IsCompactionSummary, PrefixLen, Run, ScanFrom;
    PrefixLenUnique(stored, sent, k);
    if |sent| - end <= 128 {
      assert CompactedAt(stored, sent, k, start, end);
      AcceptedDecides(stored, sent, Compacted(end));
    } else {
      assert NoAnchor(stored, sent, k, ScanLower(sent, k));
      assert AnchorBeforeTail(stored, sent, k).None?;
    }
  }

  // ---- replay and reply ----

  /**
   Appending the tail after an anchor moves the anchor to the end of the same history,
   also when one more message that does not match the new end is sent after it.
   */
  lemma AnchorMoves(stored: History, sent: History, k: nat, a: Anchor, extra: History)
    requires IsPrefixLen(stored, sent, k) && k < |stored| && k < |sent|
    requires IsAnchor(stored, sent, k, ScanLower(sent, k), a)
    requires |extra| <= 1
    requires var grown := stored + sent[a.sentEnd..];
             extra == [] || !Equivalent(grown[|grown| - 1], extra[0])
    ensures var grown := stored + sent[a.sentEnd..];
            && PrefixLen(grown, sent + extra) == k
            && AnchorBeforeTail(grown, sent + extra, k) == Some(Anchor(a.storedStart, a.sentStart, |sent|))
  {
    hide Equivalent, IsCompactionSummary, PrefixLen, Run, ScanFrom, Aligned;
    var grown, longer := stored + sent[a.sentEnd..], sent + extra;
    GrownPrefix(stored, sent, k, sent[a.sentEnd..], extra);
    assert Aligned(grown, a.storedStart, longer, a.sentStart, |sent| - a.sentStart) by {
      GrownAligned(stored, sent, a, longer);
    }
    AnchorUnique(grown, longer, k, Anchor(a.storedStart, a.sentStart, |sent|));
  }

  lemma GrownPrefix(stored: History, sent: History, k: nat, tail: History, extra: History)
    requires IsPrefixLen(stored, sent, k) && k < |stored| && k < |sent|
    ensures IsPrefixLen(stored + tail, sent + extra, k) && PrefixLen(stored + tail, sent + extra) == k
  {
    hide Equivalent, PrefixLen;
    PrefixLenUnique(stored + tail, sent + extra, k);
  }

  lemma GrownAligned(stored: History, sent: History, a: Anchor, longer: History)
    requires a.sentStart <= a.sentEnd <= |sent| && sent <= longer
    requires a.storedStart + (a.sentEnd - a.sentStart) == |stored|
    requires Aligned(stored, a.storedStart, sent, a.sentStart, a.sentEnd - a.sentStart)
    ensures Aligned(stored + sent[a.sentEnd..], a.storedStart, longer, a.sentStart, |sent| - a.sentStart)
  {
    hide Equivalent;
    var grown := stored + sent[a.sentEnd..];
    forall j | a.storedStart <= j < |grown|
      ensures Equivalent(grown[j], longer[j - a.storedStart + a.sentStart])
    {
      if j < |stored| {
        assert Equivalent(stored[j], sent[j - a.storedStart + a.sentStart]);
      } else {
        EquivalentReflexive(grown[j]);
      }
    }
  }

  /** Replaying an accepted history is accepted again and adds nothing. */
  lemma ReplayAppendsNothing(stored: History, sent: History)
    requires !Reconcile(stored, sent).Conflict?
    ensures var stored' := After(stored, sent);
            && !Reconcile(stored', sent).Conflict?
            && After(stored', sent) == stored'
  {
    hide Equivalent, IsCompactionSummary, PrefixLen, Run, ScanFrom;
    var outcome := Reconcile(stored, sent);
    var stored' := After(stored, sent);
    DecidedAccepted(stored, sent);
    match outcome
    case Exact => assert stored' == stored;
    case Truncate => assert stored' == stored;
    case Append(from) =>
      forall j | 0 <= j < |sent| ensures Equivalent(stored'[j], sent[j]) {
        if j >= from { EquivalentReflexive(sent[j]); }
      }
      AcceptedDecides(stored', sent, Exact);
    case Compacted(from) => ReplayAnchored(stored, sent, PrefixLen(stored, sent));
    case TruncateAppend(from) => ReplayAnchored(stored, sent, PrefixLen(stored, sent));
  }

  lemma ReplayAnchored(stored: History, sent: History, k: nat)
    requires k == PrefixLen(stored, sent)
    requires Reconcile(stored, sent).Compacted? || Reconcile(stored, sent).TruncateAppend?
    ensures Reconcile(After(stored, sent), sent) ==
            if Reconcile(stored, sent).Compacted? then Compacted(|sent|) else Truncate
  {
    hide Equivalent, IsCompactionSummary, PrefixLen, Run, ScanFrom;
    var a := AnchorBeforeTail(stored, sent, k).value;
    AnchorEndsAt(stored, sent, k);
    assert sent + [] == sent;
    AnchorMoves(stored, sent, k, a, []);
    assert sent[|sent|..] == [];
    assert After(stored, sent) == stored + sent[a.sentEnd..];
  }

  /**
   The reply to `sent` can still be committed: the history it answers leads up to the end
   of the store, and the reply is not what the store ends with anyway.
   */
  ghost predicate Committable(stored: History, sent: History, reply: Message)
    requires sent != []
  {
    var outcome := Reconcile(stored, sent);
    var grown := After(stored, sent);
    match outcome
    case Exact => true
    case Append(_) => true
    case Compacted(_) => grown != [] && !Equivalent(grown[|grown| - 1], reply)
    case TruncateAppend(_) => grown != [] && !Equivalent(grown[|grown| - 1], reply)
    case Truncate => stored != [] && !Equivalent(stored[0], sent[0]) && !Equivalent(stored[|stored| - 1], reply)
    case Conflict => false
  }

  /**
   Reconciling the answered history again with the reply added appends exactly the reply
   when it is committable, and nothing at all otherwise.
   */
  lemma ReplyCommittedExactly(stored: History, sent: History, reply: Message)
    requires sent != [] && !Reconcile(stored, sent).Conflict?
    ensures var grown := After(stored, sent);
            NewTail(sent + [reply], Reconcile(grown, sent + [reply])) ==
            if Committable(stored, sent, reply) then [reply] else []
  {
    hide Equivalent, IsCompactionSummary, PrefixLen, Run, ScanFrom, Aligned, Diverged, HasSummary;
    DecidedAccepted(stored, sent);
    var grown := After(stored, sent);
    match Reconcile(stored, sent)
    case Exact =>
      assert grown == stored;
      ReplyToProjection(stored, sent, reply);
    case Append(from) =>
      ReplayAppendsNothing(stored, sent);
      assert Projects(grown, sent) by { AppendProjects(stored, sent, from); }
      ReplyToProjection(grown, sent, reply);
    case Compacted(from) => ReplyAnchored(stored, sent, reply);
    case TruncateAppend(from) => ReplyAnchored(stored, sent, reply);
    case Truncate =>
      assert grown == stored;
      if !Equivalent(stored[0], sent[0]) {
        ReplyToSuffix(stored, sent, reply);
      } else {
        ReplyToTruncated(stored, sent, reply);
      }
  }

  lemma AppendProjects(stored: History, sent: History, from: nat)
    requires from == |stored| < |sent| && Aligned(stored, 0, sent, 0, from)
    ensures Projects(stored + sent[from..], sent)
  {
    hide Equivalent;
    var grown := stored + sent[from..];
    forall j | 0 <= j < |sent| ensures Equivalent(grown[j], sent[j]) {
      if j >= from { EquivalentReflexive(sent[j]); }
    }
  }

  lemma ReplyToProjection(stored: History, sent: History, reply: Message)
    requires sent != [] && Projects(stored, sent)
    ensures Reconcile(stored, sent + [reply]) == Append(|sent|)
    ensures NewTail(sent + [reply], Append(|sent|)) == [reply]
  {
    hide Equivalent;
    assert Aligned(stored, 0, sent + [reply], 0, |sent|);
    AcceptedDecides(stored, sent + [reply], Append(|sent|));
  }

  /** When both histories end alike, only a plain extension appends anything. */
  lemma MatchingEndAppendsNothing(stored: History, sent: History, k: nat)
    requires IsPrefixLen(stored, sent, k) && k < |stored| && sent != []
    requires k < |sent| ==> Equivalent(stored[|stored| - 1], sent[|sent| - 1])
    ensures NewTail(sent, Reconcile(stored, sent)) == []
  {
    hide Equivalent, IsCompactionSummary, PrefixLen, Run, ScanFrom, Aligned, HasSummary;
    PrefixLenUnique(stored, sent, k);
    if k < |sent| && AnchorBeforeTail(stored, sent, k).Some? {
      AnchorEndsAt(stored, sent, k);
    }
  }

  lemma ReplyAnchored(stored: History, sent: History, reply: Message)
    requires Reconcile(stored, sent).Compacted? || Reconcile(stored, sent).TruncateAppend?
    ensures var grown := After(stored, sent);
            NewTail(sent + [reply], Reconcile(grown, sent + [reply])) ==
            if Equivalent(grown[|grown| - 1], reply) then [] else [reply]
  {
    hide Equivalent, IsCompactionSummary, PrefixLen, Run, ScanFrom, Aligned, HasSummary;
    var k := PrefixLen(stored, sent);
    AnchorEndsAt(stored, sent, k);
    var a := AnchorBeforeTail(stored, sent, k).value;
    var grown, longer := After(stored, sent), sent + [reply];
    assert grown == stored + sent[a.sentEnd..];
    if Equivalent(grown[|grown| - 1], reply) {
      MatchingEndAppendsNothing(grown, longer, k);
    } else {
      AnchorMoves(stored, sent, k, a, [reply]);
      assert longer[k..a.sentStart] == sent[k..a.sentStart];
      assert longer[|sent|..] == [reply];
    }
  }

  lemma ReplyToSuffix(stored: History, sent: History, reply: Message)
    requires Accepted(stored, sent, Truncate) && !Equivalent(stored[0], sent[0])
    ensures NewTail(sent + [reply], Reconcile(stored, sent + [reply])) ==
            if Equivalent(stored[|stored| - 1], reply) then [] else [reply]
  {
    hide Equivalent;
    var longer := sent + [reply];
    if Equivalent(stored[|stored| - 1], reply) {
      MatchingEndAppendsNothing(stored, longer, 0);
    } else {
      assert Aligned(stored, |stored| - |sent|, longer, 0, |sent|);
      AcceptedDecides(stored, longer, TruncateAppend(|sent|));
      assert longer[|sent|..] == [reply];
    }
  }

  lemma ReplyToTruncated(stored: History, sent: History, reply: Message)
    requires Accepted(stored, sent, Truncate) && Equivalent(stored[0], sent[0])
    ensures NewTail(sent + [reply], Reconcile(stored, sent + [reply])) == []
  {
    hide Equivalent, IsCompactionSummary, PrefixLen, Run, ScanFrom, HasSummary;
    var longer := sent + [reply];
    var k := PrefixLen(stored, longer);
    if k == |stored| {
      assert Reconcile(stored, longer) == Exact;
    } else if k == |longer| || Equivalent(stored[|stored| - 1], reply) {
      MatchingEndAppendsNothing(stored, longer, k);
    } else {
      assert Fallback(stored, longer) == Conflict;
      if k < |sent| {
        assert Aligned(stored, |stored| - |sent|, sent, 0, |sent|);
        assert EndsAt(stored, longer, k, |sent|);
        EndsAtIsAnchor(stored, longer, k, k, |sent|);
        EmptyHasNoSummary(longer[k..k]);
      }
    }
  }
}
