/**
 A whole session of one client, before and after it compacts its history: every turn sends the
 history so far, in whatever equivalent form the client now keeps it, plus new messages.
 */
module Sessions {
  import opened Messages
  import opened Reconciliation
  import opened ReconciliationLaws

  /** The history as the client now sends it, new messages, and the reply the model gives. */
  datatype Turn = Turn(view: History, news: History, reply: Message)

  /** The client's history leads up to the end of the store, in full or around a compacted gap. */
  ghost predicate Leads(stored: History, sent: History) {
    sent != [] && (Projects(stored, sent) || exists k, start :: CompactedAt(stored, sent, k, start, |sent|))
  }

  /** Every message may have been pruned or split anew, except in the gap that holds the summary. */
  ghost predicate Reprojects(stored: History, sent: History, view: History) {
    && Projects(sent, view)
    && (Projects(stored, sent) ||
        exists k: nat, start: nat :: KeepsGap(stored, sent, view, k, start))
  }

  ghost predicate KeepsGap(stored: History, sent: History, view: History, k: nat, start: nat) {
    CompactedAt(stored, sent, k, start, |sent|) && |view| == |sent| && view[k..start] == sent[k..start]
  }

  /**
   The turn can be told from what is stored. After a compaction the new messages must fit the scan
   window and must not repeat the last stored message; a full history needs nothing.
   */
  ghost predicate Fits(stored: History, sent: History, t: Turn) {
    && Reprojects(stored, sent, t.view)
    && (Projects(stored, sent) ||
        (stored != [] && Distinguished(stored, t.news) && Distinguished(stored + t.news, [t.reply])))
  }

  ghost predicate Distinguished(stored: History, news: History)
    requires stored != []
  {
    |news| <= 128 && forall k :: 0 <= k < |news| ==> !Equivalent(stored[|stored| - 1], news[k])
  }

  /** The two reconciliations of one turn. */
  function Serve(stored: History, t: Turn): History {
    After(After(stored, t.view + t.news), t.view + t.news + [t.reply])
  }

  function Said(t: Turn): History { t.news + [t.reply] }

  ghost predicate AllFit(stored: History, sent: History, turns: seq<Turn>)
    decreases |turns|
  {
    turns == [] ||
    (Fits(stored, sent, turns[0]) && AllFit(stored + Said(turns[0]), turns[0].view + Said(turns[0]), turns[1..]))
  }

  function ServeAll(stored: History, turns: seq<Turn>): History
    decreases |turns|
  {
    if turns == [] then stored else ServeAll(Serve(stored, turns[0]), turns[1..])
  }

  function SaidAll(turns: seq<Turn>): History {
    if turns == [] then [] else Said(turns[0]) + SaidAll(turns[1..])
  }

  // ---- a compacted history goes on ----

  lemma CompactedGoesOn(stored: History, sent: History, k: nat, start: nat, news: History)
    requires CompactedAt(stored, sent, k, start, |sent|) && Distinguished(stored, news)
    ensures After(stored, sent + news) == stored + news
    ensures CompactedAt(stored + news, sent + news, k, start, |sent + news|)
  {
    hide Equivalent, IsCompactionSummary, Aligned, HasSummary, Reconcile;
    var longer := sent + news;
    assert longer[k..start] == sent[k..start];
    assert longer[|sent|..] == news && sent[|sent|..] == [];
    GrownAligned(stored, sent, Anchor(|stored| - (|sent| - start), start, |sent|), longer);
    assert stored + [] == stored;
    assert CompactedAt(stored, longer, k, start, |sent|);
    AcceptedDecides(stored, longer, Compacted(|sent|));
    GrownAligned(stored, longer, Anchor(|stored| - (|sent| - start), start, |sent|), longer);
    assert IsPrefixLen(stored + news, longer, k);
  }

  // ---- a client may change the form of what it sends ----

  lemma ProjectsTransitive(stored: History, sent: History, view: History)
    requires Projects(stored, sent) && Projects(sent, view)
    ensures Projects(stored, view)
  {
    hide Equivalent;
    forall j | 0 <= j < |view| ensures Equivalent(stored[j], view[j]) {
      EquivalentTransitive(stored[j], sent[j], view[j]);
    }
  }

  /** Outside the gap every message may be sent in another equivalent form. */
  lemma CompactedReprojects(stored: History, sent: History, k: nat, start: nat, view: History)
    requires KeepsGap(stored, sent, view, k, start) && Projects(sent, view)
    ensures CompactedAt(stored, view, k, start, |view|)
  {
    hide Equivalent, IsCompactionSummary, HasSummary;
    forall j | 0 <= j < k ensures Equivalent(stored[j], view[j]) {
      EquivalentTransitive(stored[j], sent[j], view[j]);
    }
    var p := |stored| - (|sent| - start);
    forall j | p <= j < |stored| ensures Equivalent(stored[j], view[j - p + start]) {
      assert Equivalent(stored[j], sent[j - p + start]);
      EquivalentTransitive(stored[j], sent[j - p + start], view[j - p + start]);
    }
    assert view[k] == view[k..start][0] == sent[k];
    assert view[start - 1] == view[k..start][start - 1 - k] == sent[start - 1];
  }

  // ---- turns and sessions ----

  lemma FullTurn(stored: History, t: Turn)
    requires t.view != [] && Projects(stored, t.view)
    ensures Serve(stored, t) == stored + Said(t)
    ensures Projects(stored + Said(t), t.view + Said(t))
  {
    hide Equivalent, Reconcile;
    var longer := t.view + t.news;
    if t.news == [] {
      assert longer == t.view && stored + t.news == stored;
      AcceptedDecides(stored, longer, Exact);
    } else {
      assert Aligned(stored, 0, longer, 0, |stored|);
      AcceptedDecides(stored, longer, Append(|stored|));
      assert longer[|stored|..] == t.news;
      AppendProjects(stored, longer, |stored|);
    }
    ReplyToProjection(stored + t.news, longer, t.reply);
    assert stored + t.news + [t.reply] == stored + Said(t);
    ReplyProjects(stored + t.news, longer, t.reply);
    assert longer + [t.reply] == t.view + Said(t);
  }

  lemma ReplyProjects(stored: History, sent: History, reply: Message)
    requires Projects(stored, sent)
    ensures Projects(stored + [reply], sent + [reply])
  {
    EquivalentReflexive(reply);
    hide Equivalent;
    forall j | 0 <= j < |sent| + 1 ensures Equivalent((stored + [reply])[j], (sent + [reply])[j]) {
      if j < |sent| { assert Equivalent(stored[j], sent[j]); }
    }
  }

  lemma CompactedTurn(stored: History, k: nat, start: nat, t: Turn)
    requires CompactedAt(stored, t.view, k, start, |t.view|) && stored != []
    requires Distinguished(stored, t.news) && Distinguished(stored + t.news, [t.reply])
    ensures Serve(stored, t) == stored + Said(t)
    ensures CompactedAt(stored + Said(t), t.view + Said(t), k, start, |t.view + Said(t)|)
  {
    hide Equivalent, Reconcile, CompactedAt;
    CompactedGoesOn(stored, t.view, k, start, t.news);
    CompactedGoesOn(stored + t.news, t.view + t.news, k, start, [t.reply]);
    assert stored + t.news + [t.reply] == stored + Said(t);
    assert t.view + t.news + [t.reply] == t.view + Said(t);
  }

  /** A fitting turn stores its new messages and its reply, and the client's history still leads there. */
  lemma TurnServed(stored: History, sent: History, t: Turn)
    requires Leads(stored, sent) && Fits(stored, sent, t)
    ensures Serve(stored, t) == stored + Said(t)
    ensures Leads(stored + Said(t), t.view + Said(t))
  {
    hide Equivalent, CompactedAt, Serve, Aligned;
    if Projects(stored, sent) {
      ProjectsTransitive(stored, sent, t.view);
      FullTurn(stored, t);
    } else {
      var k: nat, start: nat :| KeepsGap(stored, sent, t.view, k, start);
      CompactedReprojects(stored, sent, k, start, t.view);
      CompactedTurn(stored, k, start, t);
    }
  }

  /**
   Over any number of turns, in full or after a compaction, the store holds every message said exactly
   once, in order and as it was first said, although the client never sends the compacted part again
   and may prune or split anew what it sends.
   */
  lemma {:induction false} SessionKeepsEverything(stored: History, sent: History, turns: seq<Turn>)
    requires Leads(stored, sent) && AllFit(stored, sent, turns)
    ensures ServeAll(stored, turns) == stored + SaidAll(turns)
    decreases |turns|
  {
    hide Leads, Fits, Serve, Said;
    if turns == [] {
      assert stored + [] == stored;
    } else {
      var t := turns[0];
      TurnServed(stored, sent, t);
      SessionKeepsEverything(stored + Said(t), t.view + Said(t), turns[1..]);
      assert stored + Said(t) + SaidAll(turns[1..]) == stored + (Said(t) + SaidAll(turns[1..]));
    }
  }

  /** A client that compacts where the store can see it leads on from there. */
  lemma CompactionLeads(stored: History, sent: History)
    requires Reconcile(stored, sent).Compacted?
    ensures Leads(After(stored, sent), sent)
  {
    hide Equivalent, IsCompactionSummary, PrefixLen, Run, ScanFrom, Aligned, HasSummary, Reconcile;
    ReplayAnchored(stored, sent, PrefixLen(stored, sent));
    DecidedAccepted(After(stored, sent), sent);
  }
}
