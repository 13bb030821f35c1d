/**
 The durable transcript of one conversation. Each method is one transaction that
 holds the conversation's row lock, so it runs as a single step.
 */
module ConversationStore {
  import opened Messages
  import opened Reconciliation
  import opened ReconciliationLaws

  datatype Row = Row(number: int, message: Message)

  /** What a reconciliation reports: the numbers of the inserted rows, or where the histories diverge. */
  datatype Report =
    | Inserted(numbers: seq<int>)
    | Divergence(index: nat, stored: Option<Message>, sent: Option<Message>)

  function MessagesOf(rows: seq<Row>): (messages: History)
    ensures |messages| == |rows|
    ensures forall k :: 0 <= k < |rows| ==> messages[k] == rows[k].message
  {
    seq(|rows|, k requires 0 <= k < |rows| => rows[k].message)
  }

  /** Rows are numbered 0, 1, 2, ... without gaps. */
  predicate Numbered(rows: seq<Row>) {
    forall k :: 0 <= k < |rows| ==> rows[k].number == k
  }

  /** The highest row number in use, or -1 for an empty conversation. */
  function MaxNumber(rows: seq<Row>): (top: int)
    ensures Numbered(rows) ==> top == |rows| - 1
  {
    if rows == [] then -1
    else
      var before := MaxNumber(rows[..|rows| - 1]);
      Max(before, rows[|rows| - 1].number)
  }

  function At(history: History, index: nat): Option<Message> {
    if index < |history| then Some(history[index]) else None
  }

  class Store {
    var rows: seq<Row>

    ghost predicate Valid()
      reads this
    {
      Numbered(rows)
    }

    ghost function Contents(): History
      reads this
    {
      MessagesOf(rows)
    }

    constructor ()
      ensures Valid() && Contents() == []
    {
      rows := [];
    }

    method InsertMessages(messages: History) returns (numbers: seq<int>)
      requires Valid()
      modifies this
      ensures Valid() && old(rows) <= rows
      ensures Contents() == old(Contents()) + messages
      ensures numbers == seq(|messages|, k requires 0 <= k < |messages| => |old(rows)| + k)
    {
      numbers := [];
      if messages == [] {
        return;
      }
      var number := MaxNumber(rows);
      for k := 0 to |messages|
        invariant Valid() && old(rows) <= rows && |rows| == |old(rows)| + k
        invariant number == |rows| - 1
        invariant forall j :: 0 <= j < k ==> rows[|old(rows)| + j].message == messages[j]
        invariant |numbers| == k && forall j :: 0 <= j < k ==> numbers[j] == |old(rows)| + j
      {
        number := number + 1;
        rows := rows + [Row(number, messages[k])];
        numbers := numbers + [number];
      }
    }

    method AppendMessages(messages: History) returns (numbers: seq<int>)
      requires Valid()
      modifies this
      ensures Valid() && old(rows) <= rows
      ensures Contents() == old(Contents()) + messages
      ensures |numbers| == |messages| && forall k :: 0 <= k < |numbers| ==> numbers[k] == |old(rows)| + k
    {
      numbers := InsertMessages(messages);
    }

    /** Reports the first divergent position on a conflict. */
    method ReconcileHistory(sent: History) returns (report: Report)
      requires Valid()
      modifies this
      ensures Valid() && old(rows) <= rows
      ensures Contents() == After(old(Contents()), sent)
      ensures report.Divergence? <==> Reconcile(old(Contents()), sent).Conflict?
      ensures report.Inserted? ==>
                && |report.numbers| == |rows| - |old(rows)|
                && forall k :: 0 <= k < |report.numbers| ==> report.numbers[k] == |old(rows)| + k
      ensures report.Divergence? ==>
                && IsPrefixLen(Contents(), sent, report.index)
                && report.stored == At(Contents(), report.index) && report.stored.Some?
                && report.sent == At(sent, report.index) && report.sent.Some?
    {
      hide Equivalent, IsCompactionSummary, PrefixLen;
      var stored := MessagesOf(rows);
      var outcome := ReconcileProjection(stored, sent);
      if outcome == Conflict {
        ConflictInsideBoth(stored, sent);
        var index := Min(|stored|, |sent|);
        for candidate := 0 to index
          invariant forall j :: 0 <= j < candidate ==> Equivalent(stored[j], sent[j])
        {
          if !Equivalent(stored[candidate], sent[candidate]) {
            PrefixLenUnique(stored, sent, candidate);
            return Divergence(candidate, At(stored, candidate), At(sent, candidate));
          }
        }
        PrefixLenUnique(stored, sent, index);
        return Divergence(index, At(stored, index), At(sent, index));
      }
      var numbers := InsertMessages(NewTail(sent, outcome));
      return Inserted(numbers);
    }

    /** The production override: same append decision, but a fixed index on a conflict. */
    method ReconcileProjected(sent: History) returns (report: Report)
      requires Valid()
      modifies this
      ensures Valid() && old(rows) <= rows
      ensures Contents() == After(old(Contents()), sent)
      ensures report.Divergence? <==> Reconcile(old(Contents()), sent).Conflict?
      ensures report.Inserted? ==>
                && |report.numbers| == |rows| - |old(rows)|
                && forall k :: 0 <= k < |report.numbers| ==> report.numbers[k] == |old(rows)| + k
      ensures report.Divergence? ==>
                && report.index == Min(|Contents()|, |sent|)
                && report.index != PrefixLen(Contents(), sent)
                && report.stored == At(Contents(), report.index) && report.sent == At(sent, report.index)
                && (report.stored.None? || report.sent.None?)
    {
      hide Equivalent, IsCompactionSummary, PrefixLen;
      var stored := MessagesOf(rows);
      var outcome := ReconcileProjection(stored, sent);
      if outcome == Conflict {
        ConflictInsideBoth(stored, sent);
        var index := Min(|stored|, |sent|);
        return Divergence(index, At(stored, index), At(sent, index));
      }
      var numbers := InsertMessages(NewTail(sent, outcome));
      return Inserted(numbers);
    }
  }

  /**
   A conflict always has a first divergence inside both histories, so the shorter length,
   which the production override reports, is never that position.
   */
  lemma ConflictInsideBoth(stored: History, sent: History)
    requires Reconcile(stored, sent).Conflict?
    ensures PrefixLen(stored, sent) < Min(|stored|, |sent|)
    ensures After(stored, sent) == stored
  {
    hide Equivalent, PrefixLen;
    assert After(stored, sent) == stored + [];
  }

  /**
   One request without other writers: reconcile the inbound history, run the model, reconcile
   again with the reply. `reply` is what the model answers, if anything.
   */
  method ChatCompletion(store: Store, sent: History, reply: Option<Message>) returns (served: bool)
    requires store.Valid() && sent != []
    modifies store
    ensures store.Valid() && old(store.rows) <= store.rows
    ensures served <==> !Reconcile(old(store.Contents()), sent).Conflict?
    ensures var before := old(store.Contents());
            store.Contents() ==
            After(before, sent) +
            (if reply.Some? && Committable(before, sent, reply.value) then [reply.value] else [])
  {
    hide Equivalent, IsCompactionSummary, PrefixLen, Diverged;
    var inbound := store.ReconcileProjected(sent);
    if inbound.Divergence? {
      return false;
    }
    if reply.Some? {
      ReplyCommittedExactly(old(store.Contents()), sent, reply.value);
      var outbound := store.ReconcileProjected(sent + [reply.value]);
    }
    return true;
  }
}
