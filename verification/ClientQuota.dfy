/**
 How many requests of one client are allowed, whatever conversation ids it sends. The client's own
 bucket aggregates its traffic as long as it is neither evicted nor forgotten too early; the exact
 settings under which it always does are proved.
 */
module ClientQuota {
  import opened Messages
  import opened RateLimiter

  /** Successive calls of the limiter: `tables[k]` before and `tables[k + 1]` after request `k`. */
  datatype Trace = Trace(tables: seq<Table>, requests: seq<Request>, decisions: seq<Decision>)

  /** Every call does what an admission does, at times after `early` that do not go back. */
  ghost predicate Serving(cfg: Config, early: real, run: Trace)
    requires cfg.rate > 0.0
  {
    && |run.tables| == |run.requests| + 1 && |run.decisions| == |run.requests|
    && Sane(cfg, run.tables[0], early)
    && (forall k :: 0 <= k < |run.requests| ==>
          Admitted(cfg, run.tables[k], run.requests[k], run.decisions[k], run.tables[k + 1]))
    && (forall k :: 0 <= k < |run.requests| ==> early < run.requests[k].now)
    && forall i, j :: 0 <= i < j < |run.requests| ==> run.requests[i].now <= run.requests[j].now
  }

  /** No two requests share a clock reading. */
  predicate Apart(requests: seq<Request>) {
    forall i, j :: 0 <= i < j < |requests| ==> requests[i].now < requests[j].now
  }

  predicate IsFrom(cfg: Config, r: Request, client: string) { ClientKey(cfg, r) == client }

  /** How many of the client's requests were allowed. */
  function AllowedFor(cfg: Config, requests: seq<Request>, decisions: seq<Decision>, client: string): nat
    requires |requests| == |decisions|
  {
    if requests == [] then 0
    else
      var n := |requests| - 1;
      AllowedFor(cfg, requests[..n], decisions[..n], client)
      + if decisions[n].Allowed? && IsFrom(cfg, requests[n], client) then 1 else 0
  }

  /** At most the burst plus the refill of the elapsed time. */
  ghost predicate WithinQuota(cfg: Config, run: Trace, client: string)
    requires |run.requests| == |run.decisions|
  {
    run.requests != [] ==>
      AllowedFor(cfg, run.requests, run.decisions, client) as real
      <= cfg.burst as real + Refill(cfg, run.requests[|run.requests| - 1].now - run.requests[0].now)
  }

  // ---- which buckets are younger ----

  /** Buckets used no earlier than the client's. */
  function Younger(t: Table, client: string): set<string>
    requires client in t.updated
  {
    set key | key in t.updated && key != client && t.updated[key] >= t.updated[client]
  }

  /** At most `n` buckets are younger than the client's, if it has one. */
  ghost predicate AtMostYounger(t: Table, client: string, n: int) {
    client in t.updated ==> |Younger(t, client)| <= n
  }

  /** When a bucket refills within its lifetime, a sweep changes no level. */
  lemma SweptLevel(cfg: Config, t: Table, client: string, now: real)
    requires Accepts(cfg) && Refill(cfg, cfg.ttl) >= cfg.burst as real && Sane(cfg, t, now)
    ensures Level(cfg, Swept(cfg, t, now), client, now) == Level(cfg, t, client, now)
  {
    hide Refill;
    if client in t.updated && client !in Swept(cfg, t, now).updated {
      RefillLaws(cfg, cfg.ttl, now - t.updated[client]);
    }
  }

  /** Too few younger buckets to push the client's out: it is not evicted. */
  lemma NotEvicted(cfg: Config, t: Table, key: string, now: real, roomy: Table, client: string)
    requires Accepts(cfg) && Sane(cfg, t, now) && MadeRoom(cfg, t, key, roomy)
    requires client in t.updated && |Younger(t, client)| <= cfg.maxIdentities - 2
    ensures client in roomy.updated
  {
    if client !in roomy.updated {
      assert roomy.updated.Keys <= Younger(t, client);
      FewerKeys(roomy.updated.Keys, Younger(t, client));
    }
  }

  lemma YoungerKept(cfg: Config, t: Table, now: real, client: string, n: int)
    requires AtMostYounger(t, client, n)
    ensures AtMostYounger(Swept(cfg, t, now), client, n)
  {
    var swept := Swept(cfg, t, now);
    if client in swept.updated {
      FewerKeys(Younger(swept, client), Younger(t, client));
    }
  }

  /** Another bucket's access cannot push the client's out: it is there already, or too few are younger. */
  ghost predicate Spared(cfg: Config, t: Table, key: string, client: string) {
    client in t.updated ==> key in t.updated || |Younger(t, client)| <= cfg.maxIdentities - 2
  }

  /** An access to another bucket leaves the client's level alone and adds at most one younger bucket. */
  lemma OtherAccess(
      cfg: Config, t: Table, before: real, key: string, now: real, granted: bool, t': Table, client: string)
    requires Accepts(cfg) && Refill(cfg, cfg.ttl) >= cfg.burst as real
    requires Sane(cfg, t, before) && before <= now && Consumed(cfg, t, key, now, granted, t') && key != client
    requires Spared(cfg, Swept(cfg, t, now), key, client)
    ensures Level(cfg, t', client, now) == Level(cfg, t, client, now)
    ensures client in Swept(cfg, t, now).updated <==> client in t'.updated
    ensures client in t'.updated ==>
              && client in t.updated && t'.updated[client] == t.updated[client]
              && Younger(t', client) <= Younger(t, client) + {key}
  {
    var swept := Swept(cfg, t, now);
    var roomy :| MadeRoom(cfg, swept, key, roomy) && (granted, t') == Take(cfg, roomy, key, now);
    SaneLater(cfg, t, before, now);
    SweptSane(cfg, t, before, now);
    SweptLevel(cfg, t, client, now);
    assert client in swept.updated ==> client in t.updated && swept.updated[client] == t.updated[client];
    assert client in swept.updated ==> Younger(swept, client) <= Younger(t, client);
    hide Swept, Refill, Sane;
    RoomSpares(cfg, swept, key, now, roomy, client);
    hide MadeRoom, Spared;
  }

  /** The room made for another bucket leaves the client's as it was. */
  lemma RoomSpares(cfg: Config, t: Table, key: string, now: real, roomy: Table, client: string)
    requires Accepts(cfg) && Sane(cfg, t, now) && MadeRoom(cfg, t, key, roomy) && Spared(cfg, t, key, client)
    ensures client in roomy.updated <==> client in t.updated
    ensures client in t.updated ==>
              roomy.updated[client] == t.updated[client] && Younger(roomy, client) <= Younger(t, client)
    ensures client in roomy.tokens <==> client in t.tokens
    ensures client in t.tokens ==> roomy.tokens[client] == t.tokens[client]
  {
    if client in t.updated && key !in t.updated {
      NotEvicted(cfg, t, key, now, roomy, client);
    }
  }

  /** The same, counted. */
  lemma OtherAccessCounted(
      cfg: Config, t: Table, before: real, key: string, now: real, granted: bool, t': Table, client: string, n: int)
    requires Accepts(cfg) && Refill(cfg, cfg.ttl) >= cfg.burst as real
    requires Sane(cfg, t, before) && before <= now && Consumed(cfg, t, key, now, granted, t') && key != client
    requires AtMostYounger(t, client, n) && n <= cfg.maxIdentities - 2
    ensures AtMostYounger(t', client, n + 1)
    ensures Level(cfg, t', client, now) == Level(cfg, t, client, now)
  {
    YoungerKept(cfg, t, now, client, n);
    hide Swept, Refill, Sane, Consumed, Level;
    OtherAccess(cfg, t, before, key, now, granted, t', client);
    if client in t'.updated {
      FewerKeys(Younger(t', client), Younger(t, client) + {key});
    }
  }

  lemma FirstAccess(cfg: Config, t: Table, before: real, client: string, now: real, granted: bool, t': Table)
    requires Accepts(cfg) && Sane(cfg, t, before) && before < now && Consumed(cfg, t, client, now, granted, t')
    ensures client in t'.updated && t'.updated[client] == now && Younger(t', client) == {}
    ensures now - t'.lastSweep < cfg.ttl / 2.0
  {
    SweptSane(cfg, t, before, now);
  }

  /** The client's own access pays for a grant. */
  lemma OwnPays(cfg: Config, t: Table, before: real, client: string, now: real, granted: bool, t': Table)
    requires Accepts(cfg) && Refill(cfg, cfg.ttl) >= cfg.burst as real
    requires Sane(cfg, t, before) && before <= now && Consumed(cfg, t, client, now, granted, t')
    ensures Level(cfg, t', client, now) + (if granted then 1.0 else 0.0) <= Level(cfg, t, client, now)
    ensures client in t'.updated && t'.updated[client] == now
  {
    var swept := Swept(cfg, t, now);
    var roomy :| MadeRoom(cfg, swept, client, roomy) && (granted, t') == Take(cfg, roomy, client, now);
    SaneLater(cfg, t, before, now);
    SweptLevel(cfg, t, client, now);
    LevelRange(cfg, t, client, now);
    RefillLaws(cfg, 0.0, 0.0);
    hide Swept, Sane, Younger, Refill;
  }

  // ---- one request ----

  predicate IsClientKey(key: string) { |key| > 0 && key[0] == 'c' }

  lemma KeysOfScopes(cfg: Config, r: Request)
    ensures IsClientKey(ClientKey(cfg, r))
    ensures HasConversation(r) ==> !IsClientKey(ConversationKey(cfg, r))
  {
  }

  /** An admission is its first access, followed by the conversation's when there is one and the first granted. */
  lemma AdmittedAccesses(cfg: Config, t: Table, r: Request, d: Decision, t': Table) returns (mid: Table)
    requires cfg.rate > 0.0 && Admitted(cfg, t, r, d, t')
    ensures Consumed(cfg, t, ClientKey(cfg, r), r.now, !(d.Refused? && d.scope.Client?), mid)
    ensures if HasConversation(r) && !(d.Refused? && d.scope.Client?)
            then Consumed(cfg, mid, ConversationKey(cfg, r), r.now, d.Allowed?, t')
            else mid == t'
  {
    hide Consumed, ClientKey, ConversationKey;
    if HasConversation(r) && !(d.Refused? && d.scope.Client?) {
      mid :| Consumed(cfg, t, ClientKey(cfg, r), r.now, true, mid)
        && Consumed(cfg, mid, ConversationKey(cfg, r), r.now, d.Allowed?, t');
    } else {
      mid := t';
    }
  }

  /** A request pays for being allowed; another client's request adds at most two younger buckets. */
  lemma RequestPays(
      cfg: Config, t: Table, before: real, r: Request, d: Decision, t': Table, client: string, n: int)
    requires Accepts(cfg) && Refill(cfg, cfg.ttl) >= cfg.burst as real && cfg.maxIdentities >= 2
    requires Sane(cfg, t, before) && before < r.now && Admitted(cfg, t, r, d, t') && IsClientKey(client)
    requires IsFrom(cfg, r, client) || (AtMostYounger(t, client, n) && n + 1 <= cfg.maxIdentities - 2)
    ensures Sane(cfg, t', r.now)
    ensures AtMostYounger(t', client, if IsFrom(cfg, r, client) then 1 else n + 2)
    ensures Level(cfg, t', client, r.now) + (if d.Allowed? && IsFrom(cfg, r, client) then 1.0 else 0.0)
            <= Level(cfg, t, client, r.now)
  {
    var granted := !(d.Refused? && d.scope.Client?);
    var key := ClientKey(cfg, r);
    KeysOfScopes(cfg, r);
    hide Consumed, Sane, Level, ClientKey, ConversationKey, IsClientKey, Refill;
    var mid := AdmittedAccesses(cfg, t, r, d, t');
    ConsumedKeepsBounds(cfg, t, before, key, r.now, granted, mid);
    if key == client {
      OwnPays(cfg, t, before, client, r.now, granted, mid);
      FirstAccess(cfg, t, before, client, r.now, granted, mid);
    } else {
      OtherAccessCounted(cfg, t, before, key, r.now, granted, mid, client, n);
    }
    if HasConversation(r) && granted {
      ConsumedKeepsBounds(cfg, mid, r.now, ConversationKey(cfg, r), r.now, d.Allowed?, t');
      OtherAccessCounted(cfg, mid, r.now, ConversationKey(cfg, r), r.now, d.Allowed?, t', client,
                         if key == client then 0 else n + 1);
    }
  }

  /** After a request that reaches its conversation's bucket, the client's bucket is there exactly with two places. */
  lemma ClientStaysExactly(cfg: Config, t: Table, before: real, r: Request, d: Decision, t': Table)
    requires Accepts(cfg) && Sane(cfg, t, before) && before < r.now && Admitted(cfg, t, r, d, t')
    requires HasConversation(r) && !(d.Refused? && d.scope.Client?)
    ensures ClientKey(cfg, r) in t'.updated <==> cfg.maxIdentities >= 2
  {
    KeysOfScopes(cfg, r);
    var key, other := ClientKey(cfg, r), ConversationKey(cfg, r);
    hide Consumed, ClientKey, ConversationKey;
    var mid := AdmittedAccesses(cfg, t, r, d, t');
    FirstAccess(cfg, t, before, key, r.now, true, mid);
    ConsumedKeepsBounds(cfg, t, before, key, r.now, true, mid);
    SecondAccess(cfg, mid, key, other, r.now, d.Allowed?, t');
  }

  lemma SecondAccess(cfg: Config, t: Table, client: string, key: string, now: real, granted: bool, t': Table)
    requires Accepts(cfg) && Sane(cfg, t, now) && Consumed(cfg, t, key, now, granted, t') && key != client
    requires client in t.updated && t.updated[client] == now && Younger(t, client) == {}
    requires now - t.lastSweep < cfg.ttl / 2.0
    ensures client in t'.updated <==> cfg.maxIdentities >= 2
  {
    var roomy :| MadeRoom(cfg, t, key, roomy) && (granted, t') == Take(cfg, roomy, key, now);
    if cfg.maxIdentities >= 2 {
      NotEvicted(cfg, t, key, now, roomy, client);
    } else {
      assert t.updated.Keys == {client} by {
        assert |t.updated.Keys - {client}| == 0;
      }
    }
  }

  /** Whichever of equally cold buckets goes, the client's stays: exactly when the access spares it. */
  lemma SafeExactly(cfg: Config, t: Table, key: string, now: real, client: string)
    requires Accepts(cfg) && Sane(cfg, t, now) && client in Swept(cfg, t, now).updated && key != client
    ensures (forall granted, t' :: Consumed(cfg, t, key, now, granted, t') ==> client in t'.updated) <==>
            Spared(cfg, Swept(cfg, t, now), key, client)
  {
    var swept := Swept(cfg, t, now);
    SweptSane(cfg, t, now, now);
    if Spared(cfg, swept, key, client) {
      forall granted, t' | Consumed(cfg, t, key, now, granted, t') ensures client in t'.updated {
        var roomy :| MadeRoom(cfg, swept, key, roomy) && (granted, t') == Take(cfg, roomy, key, now);
        if key !in swept.updated {
          NotEvicted(cfg, swept, key, now, roomy, client);
        }
      }
    } else {
      var roomy := Without(swept, {client});
      ClientGoes(cfg, swept, key, now, client);
      hide Swept, MadeRoom;
      var (granted, t') := Take(cfg, roomy, key, now);
      assert Consumed(cfg, t, key, now, granted, t');
      assert client !in t'.updated;
    }
  }

  lemma ClientGoes(cfg: Config, t: Table, key: string, now: real, client: string)
    requires Accepts(cfg) && Sane(cfg, t, now) && client in t.updated && key !in t.updated
    requires |Younger(t, client)| >= cfg.maxIdentities - 1
    ensures MadeRoom(cfg, t, key, Without(t, {client}))
  {
    var others := t.updated.Keys - {client};
    assert |others| == |t.updated| - 1;
    SameSet(Younger(t, client), others);
    var roomy := Without(t, {client});
    assert roomy.updated.Keys == others && |roomy.updated| == |others|;
    assert t.updated.Keys - others == {client};
  }

  lemma SameSet(a: set<string>, b: set<string>)
    requires a <= b && |a| >= |b|
    ensures a == b
  {
    assert b == a + (b - a);
  }

  // ---- every run ----

  /** Requests of others since the client's last one. */
  function Gap(cfg: Config, requests: seq<Request>, client: string): nat {
    if requests == [] || IsFrom(cfg, requests[|requests| - 1], client) then 0
    else Gap(cfg, requests[..|requests| - 1], client) + 1
  }

  /** The client asks first and then again before more than `m` requests of others. */
  predicate KeepsAsking(cfg: Config, requests: seq<Request>, client: string, m: nat) {
    requests != [] ==>
      && IsFrom(cfg, requests[0], client) && Gap(cfg, requests, client) <= m
      && KeepsAsking(cfg, requests[..|requests| - 1], client, m)
  }

  function Shorter(run: Trace, n: nat): Trace
    requires |run.tables| == |run.requests| + 1 && |run.decisions| == |run.requests| && n <= |run.requests|
  {
    Trace(run.tables[..n + 1], run.requests[..n], run.decisions[..n])
  }

  lemma ServedBefore(cfg: Config, early: real, run: Trace)
    requires cfg.rate > 0.0 && Serving(cfg, early, run) && run.requests != []
    ensures |run.tables| == |run.requests| + 1 && |run.decisions| == |run.requests|
    ensures var n := |run.requests| - 1;
            && Serving(cfg, early, Shorter(run, n))
            && Admitted(cfg, run.tables[n], run.requests[n], run.decisions[n], run.tables[n + 1])
            && early < run.requests[n].now
            && (n > 0 ==> run.requests[n - 1].now <= run.requests[n].now)
            && (n == 0 ==> Sane(cfg, run.tables[0], early))
  {
    hide Admitted, Sane;
  }

  /** The client's account after the run: what it was allowed plus what is left is covered. */
  ghost predicate Covered(cfg: Config, run: Trace, client: string)
    requires |run.tables| == |run.requests| + 1 && |run.decisions| == |run.requests| && run.requests != []
  {
    var n := |run.requests|;
    var start, end := run.requests[0].now, run.requests[n - 1].now;
    AllowedFor(cfg, run.requests, run.decisions, client) as real + Level(cfg, run.tables[n], client, end)
    <= Level(cfg, run.tables[0], client, start) + Refill(cfg, end - start)
  }

  lemma CoveredFirst(cfg: Config, run: Trace, client: string)
    requires |run.tables| == 2 && |run.decisions| == |run.requests| == 1 && Accepts(cfg)
    requires Level(cfg, run.tables[1], client, run.requests[0].now)
             + (if run.decisions[0].Allowed? && IsFrom(cfg, run.requests[0], client) then 1.0 else 0.0)
             <= Level(cfg, run.tables[0], client, run.requests[0].now)
    ensures Covered(cfg, run, client)
  {
    hide Level, IsFrom, Refill;
    RefillLaws(cfg, 0.0, 0.0);
    assert AllowedFor(cfg, run.requests[..0], run.decisions[..0], client) == 0;
  }

  lemma CoveredNext(cfg: Config, run: Trace, client: string)
    requires |run.tables| == |run.requests| + 1 && |run.decisions| == |run.requests| > 1 && Accepts(cfg)
    requires var n := |run.requests| - 1;
             var mid, now := run.requests[n - 1].now, run.requests[n].now;
             && Covered(cfg, Shorter(run, n), client)
             && Level(cfg, run.tables[n], client, now)
                <= Level(cfg, run.tables[n], client, mid) + Refill(cfg, now - mid)
             && Level(cfg, run.tables[n + 1], client, now)
                + (if run.decisions[n].Allowed? && IsFrom(cfg, run.requests[n], client) then 1.0 else 0.0)
                <= Level(cfg, run.tables[n], client, now)
    ensures Covered(cfg, run, client)
  {
    hide Level, IsFrom, Refill;
    var n := |run.requests| - 1;
    var start, mid, now := run.requests[0].now, run.requests[n - 1].now, run.requests[n].now;
    RefillLaws(cfg, mid - start, now - mid);
    assert (mid - start) + (now - mid) == now - start;
  }

  /** What holds after a run: a sane table, few younger buckets, and a covered account. */
  ghost predicate Accounted(cfg: Config, run: Trace, client: string)
    requires |run.tables| == |run.requests| + 1 && |run.decisions| == |run.requests| && run.requests != []
  {
    var n := |run.requests|;
    && Sane(cfg, run.tables[n], run.requests[n - 1].now)
    && AtMostYounger(run.tables[n], client, 1 + 2 * Gap(cfg, run.requests, client))
    && Covered(cfg, run, client)
  }

  lemma AccountedFirst(cfg: Config, early: real, run: Trace, client: string)
    requires Accepts(cfg) && Refill(cfg, cfg.ttl) >= cfg.burst as real && cfg.maxIdentities >= 2
    requires |run.tables| == 2 && |run.decisions| == |run.requests| == 1 && IsClientKey(client)
    requires Sane(cfg, run.tables[0], early) && early < run.requests[0].now
    requires Admitted(cfg, run.tables[0], run.requests[0], run.decisions[0], run.tables[1])
    requires IsFrom(cfg, run.requests[0], client)
    ensures Accounted(cfg, run, client)
  {
    hide Admitted, Sane, AtMostYounger, Level, Refill, IsFrom, IsClientKey, Covered;
    RequestPays(cfg, run.tables[0], early, run.requests[0], run.decisions[0], run.tables[1], client, 0);
    CoveredFirst(cfg, run, client);
  }

  lemma AccountedNext(cfg: Config, run: Trace, client: string, m: nat)
    requires Accepts(cfg) && Refill(cfg, cfg.ttl) >= cfg.burst as real && 2 * m + 2 <= cfg.maxIdentities
    requires |run.tables| == |run.requests| + 1 && |run.decisions| == |run.requests| > 1 && IsClientKey(client)
    requires var n := |run.requests| - 1;
             && Accounted(cfg, Shorter(run, n), client)
             && run.requests[n - 1].now < run.requests[n].now
             && Admitted(cfg, run.tables[n], run.requests[n], run.decisions[n], run.tables[n + 1])
    requires Gap(cfg, run.requests, client) <= m
    ensures Accounted(cfg, run, client)
  {
    hide Admitted, Sane, AtMostYounger, Level, Refill, IsFrom, IsClientKey, Covered;
    var n := |run.requests| - 1;
    var last, d, t, mid := run.requests[n], run.decisions[n], run.tables[n], run.requests[n - 1].now;
    var younger := 1 + 2 * Gap(cfg, run.requests[..n], client);
    LevelRises(cfg, t, client, mid, last.now);
    RequestPays(cfg, t, mid, last, d, run.tables[n + 1], client, younger);
    CoveredNext(cfg, run, client);
  }

  lemma {:induction false} QuotaPaid(cfg: Config, early: real, run: Trace, client: string, m: nat)
    requires Accepts(cfg) && Refill(cfg, cfg.ttl) >= cfg.burst as real && 2 * m + 2 <= cfg.maxIdentities
    requires Serving(cfg, early, run) && run.requests != [] && Apart(run.requests)
    requires KeepsAsking(cfg, run.requests, client, m)
    ensures Accounted(cfg, run, client)
    decreases |run.requests|
  {
    hide Serving, Admitted, Sane, Refill, IsClientKey, Accounted, Gap, ClientKey;
    ServedBefore(cfg, early, run);
    KeysOfScopes(cfg, run.requests[0]);
    if |run.requests| == 1 {
      AccountedFirst(cfg, early, run, client);
    } else {
      QuotaPaid(cfg, early, Shorter(run, |run.requests| - 1), client, m);
      AccountedNext(cfg, run, client, m);
    }
  }

  lemma CoveredIsQuota(cfg: Config, early: real, run: Trace, client: string)
    requires Accepts(cfg) && Serving(cfg, early, run) && run.requests != [] && Covered(cfg, run, client)
    requires Sane(cfg, run.tables[|run.requests|], run.requests[|run.requests| - 1].now)
    ensures WithinQuota(cfg, run, client)
  {
    var n := |run.requests|;
    var first, last := run.tables[0], run.tables[n];
    assert Sane(cfg, first, early) && early < run.requests[0].now;
    hide Serving, Level, AllowedFor, Sane, Refill;
    SaneLater(cfg, first, early, run.requests[0].now);
    LevelRange(cfg, first, client, run.requests[0].now);
    LevelRange(cfg, last, client, run.requests[n - 1].now);
  }

  /**
   However a client rotates its conversation ids, it is allowed at most its burst plus the refill of the
   elapsed time, if no two requests share a clock reading, buckets refill within their lifetime, and the
   table has room for what others ask between two of its requests.
   */
  lemma QuotaKept(cfg: Config, early: real, run: Trace, client: string, m: nat)
    requires Accepts(cfg) && cfg.ttl * cfg.rate >= cfg.burst as real && 2 * m + 2 <= cfg.maxIdentities
    requires Serving(cfg, early, run) && Apart(run.requests) && KeepsAsking(cfg, run.requests, client, m)
    ensures WithinQuota(cfg, run, client)
  {
    if run.requests != [] {
      assert Refill(cfg, cfg.ttl) == cfg.ttl * cfg.rate;
      QuotaPaid(cfg, early, run, client, m);
      hide Admitted, Sane, Refill, Covered, WithinQuota;
      CoveredIsQuota(cfg, early, run, client);
    }
  }

  // ---- a client on its own, at any readings ----

  predicate AllFrom(cfg: Config, requests: seq<Request>, client: string) {
    forall k :: 0 <= k < |requests| ==> IsFrom(cfg, requests[k], client)
  }

  /** A name that is not empty and not truncated. */
  predicate IsName(cfg: Config, name: string) { 0 < |name| <= cfg.maxKeyChars }

  function KeyOfConversation(name: string): string { "v\0" + name }

  function KeyOfClient(name: string): string { "c\0" + name }

  predicate IsConversationKey(cfg: Config, key: string) {
    |key| >= 2 && key == KeyOfConversation(key[2..]) && IsName(cfg, key[2..])
  }

  lemma ConversationKeys(cfg: Config, r: Request)
    requires HasConversation(r) && cfg.maxKeyChars >= 1
    ensures IsConversationKey(cfg, ConversationKey(cfg, r))
  {
    assert ConversationKey(cfg, r)[2..] == Normalize(cfg, r.conversation.value);
  }

  /** There are at least `n` different names. */
  ghost predicate Enough(cfg: Config, n: nat) {
    exists names: seq<string> :: |names| == n && Names(cfg, names)
  }

  predicate Names(cfg: Config, names: seq<string>) {
    && (forall k :: 0 <= k < |names| ==> IsName(cfg, names[k]))
    && forall i, j :: 0 <= i < j < |names| ==> names[i] != names[j]
  }

  lemma {:induction false} NamesOfKeys(cfg: Config, keys: set<string>) returns (names: seq<string>)
    requires forall key :: key in keys ==> IsConversationKey(cfg, key)
    ensures |names| == |keys| && Names(cfg, names)
    ensures forall k :: 0 <= k < |names| ==> KeyOfConversation(names[k]) in keys
    decreases |keys|
  {
    if keys == {} {
      names := [];
    } else {
      var key :| key in keys;
      names := NamesOfKeys(cfg, keys - {key});
      forall k | 0 <= k < |names| ensures names[k] != key[2..] {
        assert KeyOfConversation(names[k]) in keys - {key};
      }
      names := names + [key[2..]];
    }
  }

  lemma FewKeys(cfg: Config, keys: set<string>, n: nat)
    requires !Enough(cfg, n) && forall key :: key in keys ==> IsConversationKey(cfg, key)
    ensures |keys| < n
  {
    var names := NamesOfKeys(cfg, keys);
    if |keys| >= n {
      assert Names(cfg, names[..n]);
    }
  }

  /** The table is large enough for the burst, or there are too few names to fill it. */
  ghost predicate Roomy(cfg: Config) {
    cfg.maxIdentities > cfg.burst || !Enough(cfg, cfg.maxIdentities)
  }

  /**
   The client's bucket was used at the last reading; every bucket as young is a conversation's, and
   there are at most as many of them as tokens are missing.
   */
  ghost predicate Tight(cfg: Config, t: Table, client: string, now: real) {
    && client in t.updated && client in t.tokens && t.updated[client] == now
    && |Younger(t, client)| as real + t.tokens[client] <= cfg.burst as real
    && forall key :: key in Younger(t, client) ==> IsConversationKey(cfg, key)
  }

  lemma LevelNow(cfg: Config, t: Table, client: string, now: real)
    requires Accepts(cfg) && Sane(cfg, t, now) && client in t.updated && t.updated[client] == now
    ensures client in t.tokens && Level(cfg, t, client, now) == t.tokens[client]
  {
    hide Refill;
    RefillLaws(cfg, 0.0, 0.0);
  }

  /** The own access leaves a tight table tight, with one more token missing when it is granted. */
  lemma OwnAccessTight(cfg: Config, t: Table, before: real, client: string, now: real, granted: bool, t': Table)
    requires Accepts(cfg) && Refill(cfg, cfg.ttl) >= cfg.burst as real
    requires Sane(cfg, t, before) && before <= now && Consumed(cfg, t, client, now, granted, t')
    requires before < now || Tight(cfg, t, client, before)
    ensures Sane(cfg, t', now) && Tight(cfg, t', client, now)
    ensures granted ==> |Younger(t', client)| as real + t'.tokens[client] + 1.0 <= cfg.burst as real
    ensures now - t'.lastSweep < cfg.ttl / 2.0
  {
    hide Consumed, Sane, Level, Refill;
    OwnPays(cfg, t, before, client, now, granted, t');
    ConsumedKeepsBounds(cfg, t, before, client, now, granted, t');
    LevelNow(cfg, t', client, now);
    if before < now {
      FirstAccess(cfg, t, before, client, now, granted, t');
      SaneLater(cfg, t, before, now);
      LevelRange(cfg, t, client, now);
    } else {
      LevelNow(cfg, t, client, now);
      SameYounger(cfg, t, client, now, granted, t');
      FewerKeys(Younger(t', client), Younger(t, client));
    }
  }

  lemma SameYounger(cfg: Config, t: Table, client: string, now: real, granted: bool, t': Table)
    requires Accepts(cfg) && Sane(cfg, t, now) && Consumed(cfg, t, client, now, granted, t')
    requires client in t.updated && t.updated[client] == now
    ensures client in t'.updated && Younger(t', client) <= Younger(t, client)
    ensures now - t'.lastSweep < cfg.ttl / 2.0
  {
    SweptSane(cfg, t, now, now);
  }

  /** A tight table whose client was just granted a token survives the conversation's access. */
  lemma ConversationAccessTight(
      cfg: Config, t: Table, client: string, key: string, now: real, granted: bool, t': Table)
    requires Accepts(cfg) && Refill(cfg, cfg.ttl) >= cfg.burst as real && Roomy(cfg)
    requires Sane(cfg, t, now) && Tight(cfg, t, client, now) && now - t.lastSweep < cfg.ttl / 2.0
    requires |Younger(t, client)| as real + t.tokens[client] + 1.0 <= cfg.burst as real
    requires IsConversationKey(cfg, key) && key != client && Consumed(cfg, t, key, now, granted, t')
    ensures Sane(cfg, t', now) && Tight(cfg, t', client, now)
    ensures Level(cfg, t', client, now) == Level(cfg, t, client, now)
  {
    assert t.tokens[client] >= 0.0 && Swept(cfg, t, now) == t;
    hide Consumed, Sane, Level, Refill, Swept;
    if key !in t.updated {
      if cfg.maxIdentities <= cfg.burst {
        FewKeys(cfg, Younger(t, client) + {key}, cfg.maxIdentities);
      }
    }
    OtherAccess(cfg, t, now, key, now, granted, t', client);
    ConsumedKeepsBounds(cfg, t, now, key, now, granted, t');
    LevelNow(cfg, t, client, now);
    LevelNow(cfg, t', client, now);
    FewerKeys(Younger(t', client), Younger(t, client) + {key});
  }

  lemma SoloRequest(cfg: Config, t: Table, before: real, r: Request, d: Decision, t': Table, client: string)
    requires Accepts(cfg) && Refill(cfg, cfg.ttl) >= cfg.burst as real && Roomy(cfg)
    requires Sane(cfg, t, before) && before <= r.now && Admitted(cfg, t, r, d, t') && IsFrom(cfg, r, client)
    requires before < r.now || Tight(cfg, t, client, before)
    ensures Sane(cfg, t', r.now) && Tight(cfg, t', client, r.now)
    ensures Level(cfg, t', client, r.now) + (if d.Allowed? then 1.0 else 0.0) <= Level(cfg, t, client, r.now)
  {
    var granted := !(d.Refused? && d.scope.Client?);
    KeysOfScopes(cfg, r);
    if HasConversation(r) {
      ConversationKeys(cfg, r);
    }
    hide Consumed, Sane, Level, ClientKey, ConversationKey, IsClientKey, Refill, Tight, Roomy,
      IsConversationKey, Younger;
    var mid := AdmittedAccesses(cfg, t, r, d, t');
    OwnPays(cfg, t, before, client, r.now, granted, mid);
    OwnAccessTight(cfg, t, before, client, r.now, granted, mid);
    if HasConversation(r) && granted {
      ConversationAccessTight(cfg, mid, client, ConversationKey(cfg, r), r.now, d.Allowed?, t');
    }
  }

  ghost predicate SoloAccounted(cfg: Config, run: Trace, client: string)
    requires |run.tables| == |run.requests| + 1 && |run.decisions| == |run.requests| && run.requests != []
  {
    var n := |run.requests|;
    && Sane(cfg, run.tables[n], run.requests[n - 1].now)
    && Tight(cfg, run.tables[n], client, run.requests[n - 1].now)
    && Covered(cfg, run, client)
  }

  lemma SoloFirst(cfg: Config, early: real, run: Trace, client: string)
    requires Accepts(cfg) && Refill(cfg, cfg.ttl) >= cfg.burst as real && Roomy(cfg)
    requires |run.tables| == 2 && |run.decisions| == |run.requests| == 1
    requires Sane(cfg, run.tables[0], early) && early < run.requests[0].now
    requires Admitted(cfg, run.tables[0], run.requests[0], run.decisions[0], run.tables[1])
    requires IsFrom(cfg, run.requests[0], client)
    ensures SoloAccounted(cfg, run, client)
  {
    hide Admitted, Sane, Tight, Level, Refill, IsFrom, Covered, Roomy;
    SoloRequest(cfg, run.tables[0], early, run.requests[0], run.decisions[0], run.tables[1], client);
    CoveredFirst(cfg, run, client);
  }

  lemma SoloNext(cfg: Config, run: Trace, client: string)
    requires Accepts(cfg) && Refill(cfg, cfg.ttl) >= cfg.burst as real && Roomy(cfg)
    requires |run.tables| == |run.requests| + 1 && |run.decisions| == |run.requests| > 1
    requires var n := |run.requests| - 1;
             && SoloAccounted(cfg, Shorter(run, n), client)
             && run.requests[n - 1].now <= run.requests[n].now
             && Admitted(cfg, run.tables[n], run.requests[n], run.decisions[n], run.tables[n + 1])
             && IsFrom(cfg, run.requests[n], client)
    ensures SoloAccounted(cfg, run, client)
  {
    hide Admitted, Sane, Tight, Level, Refill, IsFrom, Covered, Roomy;
    var n := |run.requests| - 1;
    var last, d, t, mid := run.requests[n], run.decisions[n], run.tables[n], run.requests[n - 1].now;
    LevelRises(cfg, t, client, mid, last.now);
    SoloRequest(cfg, t, mid, last, d, run.tables[n + 1], client);
    CoveredNext(cfg, run, client);
  }

  lemma {:induction false} SoloPaid(cfg: Config, early: real, run: Trace, client: string)
    requires Accepts(cfg) && Refill(cfg, cfg.ttl) >= cfg.burst as real && Roomy(cfg)
    requires Serving(cfg, early, run) && run.requests != [] && AllFrom(cfg, run.requests, client)
    ensures SoloAccounted(cfg, run, client)
    decreases |run.requests|
  {
    hide Serving, Admitted, Sane, Refill, SoloAccounted, IsFrom, Roomy;
    ServedBefore(cfg, early, run);
    if |run.requests| == 1 {
      SoloFirst(cfg, early, run, client);
    } else {
      SoloPaid(cfg, early, Shorter(run, |run.requests| - 1), client);
      SoloNext(cfg, run, client);
    }
  }

  /**
   A client on its own is held to its quota whatever conversation ids it rotates through and however many
   requests share a clock reading, if buckets refill within their lifetime and the table holds more buckets
   than the burst has tokens.
   */
  lemma SoloKept(cfg: Config, early: real, run: Trace, client: string)
    requires Accepts(cfg) && cfg.ttl * cfg.rate >= cfg.burst as real && Roomy(cfg)
    requires Serving(cfg, early, run) && AllFrom(cfg, run.requests, client)
    ensures WithinQuota(cfg, run, client)
  {
    if run.requests != [] {
      assert Refill(cfg, cfg.ttl) == cfg.ttl * cfg.rate;
      SoloPaid(cfg, early, run, client);
      hide Admitted, Sane, Refill, Covered, WithinQuota, Tight, Roomy;
      CoveredIsQuota(cfg, early, run, client);
    }
  }
}
