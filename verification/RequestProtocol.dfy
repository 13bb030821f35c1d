/**
 Any number of concurrent chat requests against one conversation. Every request
 reconciles its history, runs the model, and reconciles again with the reply; the
 two store transactions of different requests interleave freely.
 */
module RequestProtocol {
  import opened Messages
  import opened Reconciliation
  import opened ReconciliationLaws

  datatype Phase =
    | Waiting               // inbound transaction still to come
    | Inferring             // inbound history accepted, model running
    | Detached              // store failed inbound; served without persistence
    | Rejected              // inbound history conflicts; no inference
    | Done

  datatype Step =
    | Inbound(id: nat)
    | InboundFails(id: nat)                 // infrastructure failure: nothing is written
    | Reply(id: nat, message: Message)      // the reply's transaction runs
    | NoReply(id: nat)                      // no message, or its transaction failed

  datatype State = State(stored: History, phases: seq<Phase>)

  predicate Enabled(s: State, step: Step) {
    step.id < |s.phases| &&
    match step
    case Inbound(id) => s.phases[id].Waiting?
    case InboundFails(id) => s.phases[id].Waiting?
    case Reply(id, _) => s.phases[id].Inferring?
    case NoReply(id) => s.phases[id].Inferring? || s.phases[id].Detached?
  }

  /** One atomic step; `histories[id]` is what request `id` sent. */
  function Next(histories: seq<History>, s: State, step: Step): State
    requires |histories| == |s.phases| && Enabled(s, step)
  {
    match step
    case Inbound(id) =>
      var conflict := Reconcile(s.stored, histories[id]).Conflict?;
      State(After(s.stored, histories[id]), s.phases[id := if conflict then Rejected else Inferring])
    case InboundFails(id) => s.(phases := s.phases[id := Detached])
    case Reply(id, message) =>
      State(After(s.stored, histories[id] + [message]), s.phases[id := Done])
    case NoReply(id) => s.(phases := s.phases[id := Done])
  }

  /** `steps` can be taken one after another from `s`. */
  ghost predicate Runs(histories: seq<History>, s: State, steps: seq<Step>)
    requires |histories| == |s.phases|
    decreases |steps|
  {
    steps == [] || (Enabled(s, steps[0]) && Runs(histories, Next(histories, s, steps[0]), steps[1..]))
  }

  ghost function Final(histories: seq<History>, s: State, steps: seq<Step>): State
    requires |histories| == |s.phases| && Runs(histories, s, steps)
    decreases |steps|
  {
    if steps == [] then s else Final(histories, Next(histories, s, steps[0]), steps[1..])
  }

  // ---- every run ----

  /** Whatever the requests send, stored messages are never changed, removed or reordered. */
  lemma {:induction false} StoredOnlyGrows(histories: seq<History>, s: State, steps: seq<Step>)
    requires |histories| == |s.phases| && Runs(histories, s, steps)
    ensures s.stored <= Final(histories, s, steps).stored
    decreases |steps|
  {
    hide Reconcile;
    if steps != [] {
      StoredOnlyGrows(histories, Next(histories, s, steps[0]), steps[1..]);
    }
  }

  ghost predicate Leads(histories: seq<History>, s: State, steps: seq<Step>, end: State) {
    |histories| == |s.phases| && Runs(histories, s, steps) && Final(histories, s, steps) == end
  }

  ghost predicate Reaches(histories: seq<History>, s: State, end: State) {
    exists steps :: Leads(histories, s, steps, end)
  }

  /** Whatever the others do, a request under way can end on its own, leaving the store and the others as they are. */
  lemma CanEnd(histories: seq<History>, s: State, id: nat)
    requires |histories| == |s.phases| && id < |s.phases| && s.phases[id] != Done && s.phases[id] != Rejected
    ensures Reaches(histories, s, s.(phases := s.phases[id := Done]))
  {
    hide Reconcile, Leads;
    var end := s.(phases := s.phases[id := Done]);
    if s.phases[id] == Waiting {
      var detached := s.(phases := s.phases[id := Detached]);
      assert detached.phases[id := Done] == end.phases;
      LeadsNowhere(histories, end);
      LeadsMore(histories, detached, NoReply(id), [], end);
      assert [NoReply(id)] + [] == [NoReply(id)];
      LeadsMore(histories, s, InboundFails(id), [NoReply(id)], end);
    } else {
      LeadsNowhere(histories, end);
      LeadsMore(histories, s, NoReply(id), [], end);
    }
  }

  lemma LeadsNowhere(histories: seq<History>, s: State)
    requires |histories| == |s.phases|
    ensures Leads(histories, s, [], s)
  {
  }

  lemma LeadsMore(histories: seq<History>, s: State, step: Step, steps: seq<Step>, end: State)
    requires |histories| == |s.phases| && Enabled(s, step) && Leads(histories, Next(histories, s, step), steps, end)
    ensures Leads(histories, s, [step] + steps, end)
  {
    hide Next;
    assert ([step] + steps)[1..] == steps;
  }

  // ---- identical concurrent requests ----

  predicate AnyInbound(steps: seq<Step>) {
    exists k :: 0 <= k < |steps| && steps[k].Inbound?
  }

  /** The replies whose transaction runs, in the order of those transactions. */
  function Replies(steps: seq<Step>): History {
    if steps == [] then []
    else (if steps[0].Reply? then [steps[0].message] else []) + Replies(steps[1..])
  }

  /** The store after some of the identical requests ran: history once, first reply once. */
  ghost function Expected(stored: History, sent: History, steps: seq<Step>): History
    requires |stored| <= |sent|
  {
    (if AnyInbound(steps) then stored + sent[|stored|..] else stored) +
    (if Replies(steps) == [] then [] else [Replies(steps)[0]])
  }

  /**
   Any interleaving of any number of requests that carry the same history, starting from a
   store that repeats a prefix of it: nobody is rejected, and the store ends with the history
   exactly once followed by the first reply only.
   */
  lemma IdenticalRequests(sent: History, stored: History, n: nat, steps: seq<Step>)
    requires sent != [] && |stored| <= |sent| && Aligned(stored, 0, sent, 0, |stored|)
    requires var histories := seq(n, _ => sent);
             Runs(histories, State(stored, seq(n, _ => Waiting)), steps)
    ensures var end := Final(seq(n, _ => sent), State(stored, seq(n, _ => Waiting)), steps);
            && Rejected !in end.phases
            && end.stored == Expected(stored, sent, steps)
  {
    BeforeInbound(seq(n, _ => sent), sent, State(stored, seq(n, _ => Waiting)), steps);
  }

  ghost predicate AllSend(histories: seq<History>, sent: History) {
    forall k :: 0 <= k < |histories| ==> histories[k] == sent
  }

  /** Nothing written yet: no request is past its inbound transaction. */
  lemma {:induction false} BeforeInbound(histories: seq<History>, sent: History, s: State, steps: seq<Step>)
    requires |histories| == |s.phases| && AllSend(histories, sent)
    requires sent != [] && |s.stored| <= |sent| && Aligned(s.stored, 0, sent, 0, |s.stored|)
    requires Rejected !in s.phases && Inferring !in s.phases
    requires Runs(histories, s, steps)
    ensures var end := Final(histories, s, steps);
            Rejected !in end.phases && end.stored == Expected(s.stored, sent, steps)
    decreases |steps|
  {
    hide Equivalent, Reconcile, Aligned;
    if steps != [] {
      var s' := Next(histories, s, steps[0]);
      if steps[0].Inbound? {
        InboundWrites(s.stored, sent);
        AfterInbound(histories, sent, s', steps[1..]);
      } else {
        BeforeInbound(histories, sent, s', steps[1..]);
        assert AnyInbound(steps) <==> AnyInbound(steps[1..]) by { AnyInboundTail(steps); }
      }
    }
  }

  /** The history is stored; no reply yet. */
  lemma {:induction false} AfterInbound(histories: seq<History>, sent: History, s: State, steps: seq<Step>)
    requires |histories| == |s.phases| && AllSend(histories, sent)
    requires sent != [] && Projects(s.stored, sent)
    requires Rejected !in s.phases
    requires Runs(histories, s, steps)
    ensures var end := Final(histories, s, steps);
            && Rejected !in end.phases
            && end.stored == s.stored + (if Replies(steps) == [] then [] else [Replies(steps)[0]])
    decreases |steps|
  {
    hide Equivalent, Reconcile, Aligned;
    if steps != [] {
      var s' := Next(histories, s, steps[0]);
      if steps[0].Reply? {
        ReplyToProjection(s.stored, sent, steps[0].message);
        AfterReply(histories, sent, s.stored, s', steps[1..]);
      } else {
        InboundWrites(s.stored, sent);
        AfterInbound(histories, sent, s', steps[1..]);
      }
    }
  }

  /** One reply is stored after the history; every later transaction leaves the store alone. */
  lemma {:induction false} AfterReply(
      histories: seq<History>, sent: History, base: History, s: State, steps: seq<Step>)
    requires |histories| == |s.phases| && AllSend(histories, sent)
    requires sent != [] && Projects(base, sent) && |s.stored| == |base| + 1 && base <= s.stored
    requires Rejected !in s.phases
    requires Runs(histories, s, steps)
    ensures var end := Final(histories, s, steps);
            Rejected !in end.phases && end.stored == s.stored
    decreases |steps|
  {
    hide Equivalent, Reconcile, Aligned;
    if steps != [] {
      LaterTransactions(base, s.stored, sent, if steps[0].Reply? then steps[0].message else map[]);
      AfterReply(histories, sent, base, Next(histories, s, steps[0]), steps[1..]);
    }
  }

  lemma AnyInboundTail(steps: seq<Step>)
    requires steps != [] && !steps[0].Inbound?
    ensures AnyInbound(steps) <==> AnyInbound(steps[1..])
  {
    if AnyInbound(steps) {
      var k :| 0 <= k < |steps| && steps[k].Inbound?;
      assert steps[1..][k - 1].Inbound?;
    }
  }

  lemma InboundWrites(stored: History, sent: History)
    requires sent != [] && |stored| <= |sent| && Aligned(stored, 0, sent, 0, |stored|)
    ensures !Reconcile(stored, sent).Conflict?
    ensures After(stored, sent) == stored + sent[|stored|..]
    ensures Projects(After(stored, sent), sent)
  {
    hide Equivalent;
    if |stored| < |sent| {
      AcceptedDecides(stored, sent, Append(|stored|));
      AppendProjects(stored, sent, |stored|);
    } else {
      AcceptedDecides(stored, sent, Exact);
      assert stored + [] == stored;
    }
  }

  lemma LaterTransactions(base: History, stored: History, sent: History, reply: Message)
    requires sent != [] && Projects(base, sent) && |stored| == |base| + 1 && base <= stored
    ensures !Reconcile(stored, sent).Conflict? && After(stored, sent) == stored
    ensures After(stored, sent + [reply]) == stored
  {
    hide Equivalent, Reconcile;
    assert Equivalent(base[0], sent[0]);
    assert Aligned(stored, 0, sent, 0, |sent|);
    AcceptedDecides(stored, sent, Truncate);
    ReplyToTruncated(stored, sent, reply);
  }
}
