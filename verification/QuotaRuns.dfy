/**
 Runs of a fresh limiter in which a client exceeds its quota, and the exact settings under which
 none does: with requests at different clock readings, and at any readings.
 */
module QuotaRuns {
  import opened Messages
  import opened RateLimiter
  import opened ClientQuota
  import Candidates

  // ---- building runs ----

  /** Time of the last request, or of the start. */
  function Clock(run: Trace): real {
    if run.requests == [] then 0.0 else run.requests[|run.requests| - 1].now
  }

  /** A run of a fresh limiter in which at least `n` requests of the client were allowed. */
  ghost predicate Built(cfg: Config, run: Trace, client: string, n: nat)
    requires cfg.rate > 0.0
  {
    && Serving(cfg, 0.0, run) && run.tables[0] == Empty(0.0)
    && Sane(cfg, run.tables[|run.requests|], Clock(run))
    && AllowedFor(cfg, run.requests, run.decisions, client) >= n
  }

  const IDLE: Trace := Trace([Empty(0.0)], [], [])

  /** The table after the run. */
  function Last(run: Trace): Table {
    if run.tables == [] then Empty(0.0) else run.tables[|run.tables| - 1]
  }

  lemma IdleBuilt(cfg: Config, client: string)
    requires cfg.rate > 0.0
    ensures Built(cfg, IDLE, client, 0)
  {
  }

  lemma FromBuilt(cfg: Config, run: Trace, client: string, n: nat)
    requires cfg.rate > 0.0 && Built(cfg, run, client, n)
    ensures |run.tables| == |run.requests| + 1 && |run.decisions| == |run.requests|
    ensures Sane(cfg, Last(run), Clock(run)) && 0.0 <= Clock(run)
  {
    hide Admitted, Sane;
  }

  function More(run: Trace, r: Request, d: Decision, t: Table): Trace {
    Trace(run.tables + [t], run.requests + [r], run.decisions + [d])
  }

  lemma OneMore(cfg: Config, run: Trace, r: Request, d: Decision, t: Table, client: string, n: nat)
    requires Accepts(cfg) && Built(cfg, run, client, n) && Clock(run) <= r.now && 0.0 < r.now
    requires Admitted(cfg, Last(run), r, d, t) && Sane(cfg, t, r.now)
    ensures Built(cfg, More(run, r, d, t), client, n + if d.Allowed? && IsFrom(cfg, r, client) then 1 else 0)
    ensures Clock(More(run, r, d, t)) == r.now && Last(More(run, r, d, t)) == t
  {
    hide Admitted, Sane, IsFrom;
    FromBuilt(cfg, run, client, n);
    ServingMore(cfg, run, r, d, t);
    hide Serving;
    var more := More(run, r, d, t);
    assert more.requests[..|run.requests|] == run.requests && more.decisions[..|run.requests|] == run.decisions;
  }

  lemma ServingMore(cfg: Config, run: Trace, r: Request, d: Decision, t: Table)
    requires cfg.rate > 0.0 && Serving(cfg, 0.0, run) && Clock(run) <= r.now && 0.0 < r.now
    requires Admitted(cfg, Last(run), r, d, t)
    ensures Serving(cfg, 0.0, More(run, r, d, t)) && More(run, r, d, t).tables[0] == run.tables[0]
  {
    hide Admitted, Sane;
    assert run.requests != [] ==> forall k :: 0 <= k < |run.requests| ==> run.requests[k].now <= Clock(run);
  }

  /** More allowed requests than the burst and the refill of the time they took. */
  lemma Exceeds(cfg: Config, run: Trace, client: string, n: nat, span: real)
    requires Accepts(cfg) && Built(cfg, run, client, n) && run.requests != []
    requires Clock(run) - run.requests[0].now <= span && n as real > cfg.burst as real + Refill(cfg, span)
    ensures !WithinQuota(cfg, run, client)
  {
    hide Refill, AllowedFor, Serving, Sane;
    FromBuilt(cfg, run, client, n);
    RefillLaws(cfg, Clock(run) - run.requests[0].now, span);
    assert Refill(cfg, Clock(run) - run.requests[0].now) <= Refill(cfg, span);
  }

  lemma ApartMore(requests: seq<Request>, r: Request)
    requires Apart(requests) && (requests != [] ==> requests[|requests| - 1].now < r.now)
    ensures Apart(requests + [r])
  {
    assert requests != [] ==> forall k :: 0 <= k < |requests| ==> requests[k].now <= requests[|requests| - 1].now;
  }

  lemma AskingMore(cfg: Config, requests: seq<Request>, r: Request, client: string, m: nat)
    requires KeepsAsking(cfg, requests, client, m)
    requires IsFrom(cfg, r, client) || (requests != [] && Gap(cfg, requests, client) < m)
    ensures KeepsAsking(cfg, requests + [r], client, m)
    ensures Gap(cfg, requests + [r], client) == if IsFrom(cfg, r, client) then 0 else Gap(cfg, requests, client) + 1
  {
    assert (requests + [r])[..|requests|] == requests;
  }

  lemma {:induction false} AskingAlone(cfg: Config, requests: seq<Request>, client: string)
    ensures AllFrom(cfg, requests, client) <==> KeepsAsking(cfg, requests, client, 0)
  {
    if requests != [] {
      var n := |requests| - 1;
      AskingAlone(cfg, requests[..n], client);
      assert requests == requests[..n] + [requests[n]];
    }
  }

  lemma {:induction false} AskingOften(cfg: Config, requests: seq<Request>, client: string, m: nat, n: nat)
    requires KeepsAsking(cfg, requests, client, m) && m <= n
    ensures KeepsAsking(cfg, requests, client, n)
  {
    if requests != [] {
      AskingOften(cfg, requests[..|requests| - 1], client, m, n);
    }
  }

  // ---- a bucket forgotten before it has refilled ----

  /** Only the client's bucket, with at least `n` tokens if it is there. */
  ghost predicate Alone(cfg: Config, t: Table, n: nat) {
    && t.updated.Keys <= {BURST_KEY} && SameKeys(t) && n <= cfg.burst
    && (BURST_KEY in t.tokens ==> t.tokens[BURST_KEY] >= n as real)
  }

  lemma AloneSwept(cfg: Config, t: Table, n: nat, now: real)
    requires Alone(cfg, t, n)
    ensures Alone(cfg, Swept(cfg, t, now), n)
  {
  }

  lemma AloneForgotten(cfg: Config, t: Table, before: real, now: real, n: nat)
    requires Accepts(cfg) && Alone(cfg, t, n) && Sane(cfg, t, before) && now - before > cfg.ttl
    ensures Alone(cfg, Swept(cfg, t, now), cfg.burst)
  {
  }

  lemma AloneStep(cfg: Config, t: Table, before: real, now: real, n: nat) returns (t': Table)
    requires Accepts(cfg) && Sane(cfg, t, before) && before < now && Alone(cfg, Swept(cfg, t, now), n) && n >= 1
    ensures Admitted(cfg, t, Request("", None, now), Allowed, t') && Sane(cfg, t', now) && Alone(cfg, t', n - 1)
  {
    var r, swept := Request("", None, now), Swept(cfg, t, now);
    assert ClientKey(cfg, r) == BURST_KEY;
    SweptSane(cfg, t, before, now);
    AloneLevel(cfg, swept, now, n);
    RoomForOne(cfg, swept);
    hide Swept, MadeRoom, Level, Sane;
    t' := Take(cfg, swept, BURST_KEY, now).1;
    assert (true, t') == Take(cfg, swept, BURST_KEY, now);
    assert Consumed(cfg, t, BURST_KEY, now, true, t');
    ConsumedKeepsBounds(cfg, t, before, BURST_KEY, now, true, t');
  }

  lemma AloneLevel(cfg: Config, t: Table, now: real, n: nat)
    requires Accepts(cfg) && Sane(cfg, t, now) && Alone(cfg, t, n)
    ensures Level(cfg, t, BURST_KEY, now) >= n as real
  {
    hide Refill;
    if BURST_KEY in t.updated {
      RefillLaws(cfg, 0.0, now - t.updated[BURST_KEY]);
    }
  }

  lemma RoomForOne(cfg: Config, t: Table)
    requires cfg.maxIdentities >= 1 && t.updated.Keys <= {BURST_KEY}
    ensures MadeRoom(cfg, t, BURST_KEY, t)
  {
    if BURST_KEY !in t.updated {
      assert t.updated.Keys == {};
      assert |t.updated| == |t.updated.Keys|;
    }
  }

  /** One client's requests at different readings, `n` of them allowed. */
  ghost predicate Solo(cfg: Config, run: Trace, n: nat)
    requires cfg.rate > 0.0
  {
    Built(cfg, run, BURST_KEY, n) && AllFrom(cfg, run.requests, BURST_KEY) && Apart(run.requests)
  }

  lemma SoloMore(cfg: Config, run: Trace, done: nat, r: Request, t: Table)
    requires Accepts(cfg) && Solo(cfg, run, done) && Clock(run) < r.now && IsFrom(cfg, r, BURST_KEY)
    requires Admitted(cfg, Last(run), r, Allowed, t) && Sane(cfg, t, r.now)
    ensures Solo(cfg, More(run, r, Allowed, t), done + 1)
    ensures Clock(More(run, r, Allowed, t)) == r.now && Last(More(run, r, Allowed, t)) == t
  {
    FromBuilt(cfg, run, BURST_KEY, done);
    hide Built, Admitted, Sane, IsFrom;
    OneMore(cfg, run, r, Allowed, t, BURST_KEY, done);
    ApartMore(run.requests, r);
  }

  lemma Asked(cfg: Config, run: Trace, done: nat, now: real, n: nat) returns (more: Trace)
    requires Accepts(cfg) && Solo(cfg, run, done) && Clock(run) < now && n >= 1
    requires Alone(cfg, Swept(cfg, Last(run), now), n)
    ensures Solo(cfg, more, done + 1) && Clock(more) == now && Alone(cfg, Last(more), n - 1)
    ensures more.requests != []
  {
    var r := Request("", None, now);
    assert IsFrom(cfg, r, BURST_KEY);
    FromBuilt(cfg, run, BURST_KEY, done);
    hide Solo, Admitted, Alone, Swept, Sane, IsFrom;
    var t := AloneStep(cfg, Last(run), Clock(run), now, n);
    SoloMore(cfg, run, done, r, t);
    more := More(run, r, Allowed, t);
  }

  /** A bucket with `n` tokens allows `n` more requests, however little time they take. */
  lemma {:induction false} Drained(cfg: Config, run: Trace, done: nat, n: nat, end: real) returns (more: Trace)
    requires Accepts(cfg) && Solo(cfg, run, done) && Clock(run) < end && Alone(cfg, Last(run), n)
    ensures Solo(cfg, more, done + n) && Clock(more) < end && Alone(cfg, Last(more), 0)
    ensures run.requests != [] || n > 0 ==> more.requests != []
    decreases n
  {
    hide Solo;
    if n == 0 {
      more := run;
    } else {
      var now := (Clock(run) + end) / 2.0;
      AloneSwept(cfg, Last(run), n, now);
      more := Asked(cfg, run, done, now, n);
      more := Drained(cfg, more, done + 1, n - 1, end);
    }
  }

  /** A whole second burst once the client's bucket has been forgotten. */
  lemma AnotherBurst(cfg: Config, run: Trace, done: nat, now: real, end: real) returns (more: Trace)
    requires Accepts(cfg) && Solo(cfg, run, done) && now - Clock(run) > cfg.ttl && now < end
    requires Alone(cfg, Last(run), 0)
    ensures Solo(cfg, more, done + cfg.burst) && Clock(more) < end && more.requests != []
  {
    FromBuilt(cfg, run, BURST_KEY, done);
    AloneForgotten(cfg, Last(run), Clock(run), now, 0);
    hide Solo, Alone, Swept, Sane;
    more := Asked(cfg, run, done, now, cfg.burst);
    more := Drained(cfg, more, done + 1, cfg.burst - 1, end);
  }

  /** A bucket forgotten before it has refilled is full too early. */
  lemma SweepMintsQuota(cfg: Config) returns (run: Trace)
    requires Accepts(cfg) && cfg.ttl * cfg.rate < cfg.burst as real
    ensures Serving(cfg, 0.0, run) && run.tables[0] == Empty(0.0)
    ensures AllFrom(cfg, run.requests, BURST_KEY) && Apart(run.requests)
    ensures !WithinQuota(cfg, run, BURST_KEY)
  {
    assert Refill(cfg, cfg.ttl) == cfg.ttl * cfg.rate;
    IdleBuilt(cfg, BURST_KEY);
    assert Solo(cfg, IDLE, 0) && Alone(cfg, Last(IDLE), cfg.burst);
    hide Refill, Alone, WithinQuota, Admitted, Sane, AllowedFor;
    var late := Moment(cfg);
    var pause := (late - cfg.ttl) / 2.0;
    run := Drained(cfg, IDLE, 0, cfg.burst, pause);
    run := AnotherBurst(cfg, run, cfg.burst, cfg.ttl + pause, late);
    Exceeds(cfg, run, BURST_KEY, cfg.burst + cfg.burst, late);
  }

  // ---- requests that share one reading ----

  /** Every bucket was used at the same reading. */
  ghost predicate Tied(t: Table, now: real) {
    SameKeys(t) && forall key :: key in t.updated ==> t.updated[key] == now
  }

  lemma TiedNotSwept(cfg: Config, t: Table, now: real)
    requires Accepts(cfg) && Tied(t, now)
    ensures var swept := Swept(cfg, t, now); swept.tokens == t.tokens && swept.updated == t.updated
  {
    assert Stale(cfg, t, now) == {};
    WithoutNone(t);
  }

  /** The table after making room for a new key, with `victim` as the bucket that goes if one has to. */
  function Room(cfg: Config, t: Table, victim: string): Table {
    if |t.updated| < cfg.maxIdentities then t else Without(t, {victim})
  }

  lemma TiedRoom(cfg: Config, t: Table, key: string, now: real, victim: string)
    requires Accepts(cfg) && Sane(cfg, t, now) && Tied(t, now) && key !in t.updated
    requires |t.updated| >= cfg.maxIdentities ==> victim in t.updated
    ensures MadeRoom(cfg, t, key, Room(cfg, t, victim))
  {
    if |t.updated| >= cfg.maxIdentities {
      RemoveOne(t.updated, victim);
      var roomy := Without(t, {victim});
      assert t.updated.Keys - roomy.updated.Keys == {victim};
    }
  }

  lemma RoomIs(cfg: Config, t: Table, now: real, victim: string)
    requires Tied(t, now)
    ensures var roomy := Room(cfg, t, victim);
            && Tied(roomy, now) && (forall k :: k in roomy.updated ==> k in t.tokens && roomy.tokens[k] == t.tokens[k])
            && roomy.updated.Keys ==
               if |t.updated| < cfg.maxIdentities then t.updated.Keys else t.updated.Keys - {victim}
  {
    WithoutIs(t, {victim});
  }

  lemma TakeNew(cfg: Config, t: Table, key: string, now: real)
    requires Accepts(cfg) && Tied(t, now) && key !in t.updated
    ensures var (granted, t') := Take(cfg, t, key, now);
            && granted && Tied(t', now) && t'.updated.Keys == t.updated.Keys + {key}
            && t'.tokens[key] == cfg.burst as real - 1.0
            && forall k :: k in t.updated ==> t'.tokens[k] == t.tokens[k]
  {
    var t' := Take(cfg, t, key, now).1;
    assert t'.tokens.Keys == t.tokens.Keys + {key} && t'.updated.Keys == t.updated.Keys + {key};
  }

  /** The keys of a table with `places` places after a new key came in. */
  function KeysAfter(keys: set<string>, places: nat, key: string, victim: string): set<string> {
    (if |keys| < places then keys else keys - {victim}) + {key}
  }

  lemma KeyEnters(keys: set<string>, places: nat, key: string, victim: string)
    ensures key in KeysAfter(keys, places, key, victim)
  {
  }

  lemma SizeOf(m: map<string, real>)
    ensures |m| == |m.Keys|
  {
  }

  /** The new bucket is in, with one token gone; the victim is out if there was no place; nothing else changed. */
  ghost predicate Entered(cfg: Config, t: Table, t': Table, key: string, victim: string, now: real) {
    && Tied(t', now)
    && t'.updated.Keys == KeysAfter(t.updated.Keys, cfg.maxIdentities, key, victim)
    && key in t'.tokens && t'.tokens[key] == cfg.burst as real - 1.0
    && forall k :: k in t'.updated && k != key ==> k in t.tokens && t'.tokens[k] == t.tokens[k]
  }

  lemma EnteredIs(cfg: Config, t: Table, key: string, now: real, victim: string)
    requires Accepts(cfg) && Tied(t, now) && key !in t.updated
    ensures var (granted, t') := Take(cfg, Room(cfg, t, victim), key, now);
            granted && Entered(cfg, t, t', key, victim, now)
  {
    RoomIs(cfg, t, now, victim);
    SizeOf(t.updated);
    hide Room, Take;
    TakeNew(cfg, Room(cfg, t, victim), key, now);
  }

  lemma EnteredSame(cfg: Config, t: Table, swept: Table, t': Table, key: string, victim: string, now: real)
    requires Entered(cfg, swept, t', key, victim, now) && swept.tokens == t.tokens && swept.updated == t.updated
    ensures Entered(cfg, t, t', key, victim, now)
  {
  }

  lemma IsConsumed(cfg: Config, t: Table, before: real, roomy: Table, key: string, now: real, granted: bool, t': Table)
    requires Accepts(cfg) && Sane(cfg, t, before) && before <= now
    requires MadeRoom(cfg, Swept(cfg, t, now), key, roomy) && (granted, t') == Take(cfg, roomy, key, now)
    ensures Consumed(cfg, t, key, now, granted, t') && Sane(cfg, t', now)
  {
    hide Swept, MadeRoom, Take, Sane;
    ConsumedKeepsBounds(cfg, t, before, key, now, granted, t');
  }

  lemma HasEntered(cfg: Config, t: Table, t': Table, key: string, victim: string, now: real)
    requires Entered(cfg, t, t', key, victim, now)
    ensures Tied(t', now) && key in t'.updated && key in t'.tokens && t'.tokens[key] == cfg.burst as real - 1.0
    ensures t'.updated.Keys == KeysAfter(t.updated.Keys, cfg.maxIdentities, key, victim)
  {
    KeyEnters(t.updated.Keys, cfg.maxIdentities, key, victim);
    assert key in t'.updated.Keys;
  }

  /** An access to a bucket that is not there: it is full, and the chosen victim makes room for it. */
  lemma NewAccess(cfg: Config, t: Table, key: string, now: real, victim: string) returns (t': Table)
    requires Accepts(cfg) && Sane(cfg, t, now) && Tied(t, now) && key !in t.updated
    requires |t.updated| >= cfg.maxIdentities ==> victim in t.updated
    ensures Consumed(cfg, t, key, now, true, t') && Sane(cfg, t', now) && Entered(cfg, t, t', key, victim, now)
  {
    var swept := Swept(cfg, t, now);
    TiedNotSwept(cfg, t, now);
    SweptSane(cfg, t, now, now);
    assert Tied(swept, now);
    hide Swept, MadeRoom, Room, Take, Sane, Entered, Consumed, Tied;
    TiedRoom(cfg, swept, key, now, victim);
    EnteredIs(cfg, swept, key, now, victim);
    t' := Take(cfg, Room(cfg, swept, victim), key, now).1;
    EnteredSame(cfg, t, swept, t', key, victim, now);
    IsConsumed(cfg, t, now, Room(cfg, swept, victim), key, now, true, t');
  }

  /** The bucket gave a token if it had one; nothing else changed. */
  ghost predicate Spent(t: Table, t': Table, key: string, granted: bool, now: real)
    requires key in t.tokens
  {
    && Tied(t', now) && t'.updated.Keys == t.updated.Keys && key in t'.updated
    && granted == (t.tokens[key] >= 1.0) && t'.tokens[key] == t.tokens[key] - (if granted then 1.0 else 0.0)
    && forall k :: k in t'.updated && k != key ==> k in t.tokens && t'.tokens[k] == t.tokens[k]
  }

  lemma SpentIs(cfg: Config, t: Table, key: string, now: real)
    requires Accepts(cfg) && Sane(cfg, t, now) && Tied(t, now) && key in t.updated
    ensures var (granted, t') := Take(cfg, t, key, now); Spent(t, t', key, granted, now)
  {
    LevelNow(cfg, t, key, now);
    hide Level;
    var t' := Take(cfg, t, key, now).1;
    assert t'.updated.Keys == t.updated.Keys && t'.tokens.Keys == t.tokens.Keys;
  }

  lemma SpentSame(t: Table, swept: Table, t': Table, key: string, granted: bool, now: real)
    requires key in t.tokens && swept.tokens == t.tokens && swept.updated == t.updated
    requires Spent(swept, t', key, granted, now)
    ensures Spent(t, t', key, granted, now)
  {
  }

  /** An access to a bucket that is there: it gives a token if it has one, and nothing moves. */
  lemma HitAccess(cfg: Config, t: Table, key: string, now: real) returns (granted: bool, t': Table)
    requires Accepts(cfg) && Sane(cfg, t, now) && Tied(t, now) && key in t.updated
    ensures Consumed(cfg, t, key, now, granted, t') && Sane(cfg, t', now) && Spent(t, t', key, granted, now)
  {
    var swept := Swept(cfg, t, now);
    TiedNotSwept(cfg, t, now);
    SweptSane(cfg, t, now, now);
    NoRoomNeeded(cfg, swept, key);
    hide Swept, MadeRoom, Take, Sane, Spent, Consumed;
    SpentIs(cfg, swept, key, now);
    granted := Take(cfg, swept, key, now).0;
    t' := Take(cfg, swept, key, now).1;
    SpentSame(t, swept, t', key, granted, now);
    IsConsumed(cfg, t, now, swept, key, now, granted, t');
  }

  lemma BothGranted(cfg: Config, t: Table, r: Request, mid: Table, t': Table)
    requires cfg.rate > 0.0 && HasConversation(r)
    requires Consumed(cfg, t, ClientKey(cfg, r), r.now, true, mid)
    requires Consumed(cfg, mid, ConversationKey(cfg, r), r.now, true, t')
    ensures Admitted(cfg, t, r, Allowed, t')
  {
    hide Consumed, ClientKey, ConversationKey;
  }

  lemma NamedKeys(cfg: Config, name: string, now: real)
    requires IsName(cfg, name)
    ensures ClientKey(cfg, Request(name, Some(name), now)) == KeyOfClient(name)
    ensures ClientKey(cfg, Request("", Some(name), now)) == BURST_KEY
    ensures ConversationKey(cfg, Request(name, Some(name), now)) == KeyOfConversation(name)
    ensures ConversationKey(cfg, Request("", Some(name), now)) == KeyOfConversation(name)
    ensures KeyOfClient(name) != BURST_KEY && KeyOfConversation(name) != BURST_KEY
    ensures KeyOfConversation(name) != KeyOfClient(name)
  {
    assert KeyOfConversation(name)[0] == 'v' && KeyOfClient(name)[0] == 'c' && BURST_KEY[0] == 'c';
  }

  lemma NamedAdmits(cfg: Config, t: Table, name: string, mid: Table, t': Table, now: real)
    requires cfg.rate > 0.0 && IsName(cfg, name) && Consumed(cfg, t, KeyOfClient(name), now, true, mid)
    requires Consumed(cfg, mid, KeyOfConversation(name), now, true, t')
    ensures Admitted(cfg, t, Request(name, Some(name), now), Allowed, t')
  {
    NamedKeys(cfg, name, now);
    hide Consumed, ClientKey, ConversationKey, Admitted;
    BothGranted(cfg, t, Request(name, Some(name), now), mid, t');
  }

  // ---- a client on its own fills the table ----

  /** As many places are free as names are left, less one. */
  ghost predicate Fills(cfg: Config, keys: set<string>, left: seq<string>) {
    && Names(cfg, left) && BURST_KEY in keys && |keys| + |left| == cfg.maxIdentities + 1
    && forall k :: 0 <= k < |left| ==> KeyOfConversation(left[k]) !in keys
  }

  /** The client's bucket also has a token for every name that is left. */
  ghost predicate Filling(cfg: Config, t: Table, left: seq<string>, now: real) {
    && Fills(cfg, t.updated.Keys, left) && Tied(t, now)
    && BURST_KEY in t.tokens && t.tokens[BURST_KEY] >= |left| as real
  }

  lemma FillsMore(cfg: Config, keys: set<string>, left: seq<string>)
    requires Fills(cfg, keys, left) && left != []
    ensures var after := KeysAfter(keys, cfg.maxIdentities, KeyOfConversation(left[0]), BURST_KEY);
            && after != {}
            && if |left| == 1 then BURST_KEY !in after else Fills(cfg, after, left[1..])
  {
    var key := KeyOfConversation(left[0]);
    assert key[0] == 'v' && BURST_KEY[0] == 'c';
    if |left| > 1 {
      assert |keys + {key}| == |keys| + 1;
      forall k | 0 <= k < |left[1..]| ensures KeyOfConversation(left[1..][k]) != key {
        OtherKeys(left[k + 1], left[0]);
      }
    } else {
      assert key in KeysAfter(keys, cfg.maxIdentities, key, BURST_KEY);
    }
  }

  lemma FillingMore(cfg: Config, mid: Table, t': Table, left: seq<string>, now: real)
    requires Fills(cfg, mid.updated.Keys, left) && left != []
    requires BURST_KEY in mid.tokens && mid.tokens[BURST_KEY] >= |left| as real - 1.0
    requires Entered(cfg, mid, t', KeyOfConversation(left[0]), BURST_KEY, now)
    ensures Emptied(t', now) || (|left| > 1 && Filling(cfg, t', left[1..], now))
    ensures |left| == 1 ==> Emptied(t', now)
  {
    FillsMore(cfg, mid.updated.Keys, left);
    assert KeyOfConversation(left[0])[0] == 'v' && BURST_KEY[0] == 'c';
    hide Fills, KeysAfter;
  }

  /** The client's bucket is gone from a table that still holds others. */
  ghost predicate Emptied(t: Table, now: real) {
    Tied(t, now) && BURST_KEY !in t.updated && t.updated.Keys != {}
  }

  /** One more conversation: it takes a place, or the client's own when none is left. */
  lemma FillOne(cfg: Config, t: Table, left: seq<string>, now: real) returns (t': Table)
    requires Accepts(cfg) && Sane(cfg, t, now) && Filling(cfg, t, left, now) && left != []
    ensures Admitted(cfg, t, Request("", Some(left[0]), now), Allowed, t') && Sane(cfg, t', now)
    ensures Emptied(t', now) || (|left| > 1 && Filling(cfg, t', left[1..], now))
    ensures |left| == 1 ==> Emptied(t', now)
  {
    hide Consumed, ClientKey, ConversationKey, Sane, Admitted, Fills, Tied, Entered, Spent, Emptied, KeyOfConversation;
    FillReady(cfg, t, left, now);
    var granted, mid := HitAccess(cfg, t, BURST_KEY, now);
    FillSpent(cfg, t, mid, left, granted, now);
    t' := NewAccess(cfg, mid, KeyOfConversation(left[0]), now, BURST_KEY);
    FillingMore(cfg, mid, t', left, now);
    NamedKeys(cfg, left[0], now);
    BothGranted(cfg, t, Request("", Some(left[0]), now), mid, t');
  }

  lemma FillReady(cfg: Config, t: Table, left: seq<string>, now: real)
    requires Filling(cfg, t, left, now) && left != []
    ensures Tied(t, now) && BURST_KEY in t.updated && BURST_KEY in t.tokens && IsName(cfg, left[0])
  {
    assert BURST_KEY in t.updated.Keys;
  }

  lemma FillSpent(cfg: Config, t: Table, mid: Table, left: seq<string>, granted: bool, now: real)
    requires Filling(cfg, t, left, now) && left != [] && Spent(t, mid, BURST_KEY, granted, now)
    ensures granted && Tied(mid, now) && Fills(cfg, mid.updated.Keys, left)
    ensures KeyOfConversation(left[0]) !in mid.updated
    ensures BURST_KEY in mid.updated && BURST_KEY in mid.tokens && mid.tokens[BURST_KEY] >= |left| as real - 1.0
  {
    assert KeyOfConversation(left[0]) !in mid.updated.Keys;
  }

  lemma FirstBucket(cfg: Config, now: real) returns (t: Table)
    requires Accepts(cfg) && now > 0.0
    ensures Consumed(cfg, Empty(0.0), BURST_KEY, now, true, t) && Sane(cfg, t, now) && Tied(t, now)
    ensures t.updated.Keys == {BURST_KEY} && BURST_KEY in t.tokens && t.tokens[BURST_KEY] == cfg.burst as real - 1.0
  {
    assert Sane(cfg, Empty(0.0), now) && Tied(Empty(0.0), now);
    hide Consumed, Sane;
    t := NewAccess(cfg, Empty(0.0), BURST_KEY, now, "");
    assert Empty(0.0).updated.Keys == {};
  }

  /** The first request of all, naming a conversation. */
  lemma FillFirst(cfg: Config, names: seq<string>, now: real) returns (t': Table)
    requires Accepts(cfg) && Names(cfg, names) && |names| == cfg.maxIdentities <= cfg.burst && now > 0.0
    ensures Admitted(cfg, Empty(0.0), Request("", Some(names[0]), now), Allowed, t') && Sane(cfg, t', now)
    ensures Emptied(t', now) || (|names| > 1 && Filling(cfg, t', names[1..], now))
    ensures |names| == 1 ==> Emptied(t', now)
  {
    NamedKeys(cfg, names[0], now);
    var key := KeyOfConversation(names[0]);
    hide Consumed, ClientKey, ConversationKey, Sane, Admitted;
    var mid := FirstBucket(cfg, now);
    forall k | 0 <= k < |names| ensures KeyOfConversation(names[k]) !in mid.updated.Keys {
      NamedKeys(cfg, names[k], now);
    }
    assert Fills(cfg, mid.updated.Keys, names);
    hide Fills, KeyOfConversation, Names;
    t' := NewAccess(cfg, mid, key, now, BURST_KEY);
    hide Entered, Filling, Emptied;
    FillingMore(cfg, mid, t', names, now);
    BothGranted(cfg, Empty(0.0), Request("", Some(names[0]), now), mid, t');
  }

  /** All at one reading, at least `n` requests of the client allowed, and at most `m` of others in between. */
  ghost predicate AtOnce(cfg: Config, run: Trace, n: nat, m: nat, now: real)
    requires cfg.rate > 0.0
  {
    && Built(cfg, run, BURST_KEY, n) && KeepsAsking(cfg, run.requests, BURST_KEY, m)
    && run.requests != [] && run.requests[0].now == now == Clock(run) && Tied(Last(run), now)
  }

  lemma AtOnceMore(cfg: Config, run: Trace, n: nat, m: nat, now: real, r: Request, d: Decision, t: Table)
    requires Accepts(cfg) && AtOnce(cfg, run, n, m, now) && r.now == now
    requires Admitted(cfg, Last(run), r, d, t) && Sane(cfg, t, now) && Tied(t, now)
    requires IsFrom(cfg, r, BURST_KEY) || Gap(cfg, run.requests, BURST_KEY) < m
    ensures var more := More(run, r, d, t);
            && AtOnce(cfg, more, n + (if d.Allowed? && IsFrom(cfg, r, BURST_KEY) then 1 else 0), m, now)
            && Last(more) == t
            && Gap(cfg, more.requests, BURST_KEY) ==
               if IsFrom(cfg, r, BURST_KEY) then 0 else Gap(cfg, run.requests, BURST_KEY) + 1
  {
    assert 0.0 < now by { hide Admitted, Sane; }
    hide Built, Admitted, Sane, IsFrom, KeepsAsking, Gap, Tied;
    OneMore(cfg, run, r, d, t, BURST_KEY, n);
    AskingMore(cfg, run.requests, r, BURST_KEY, m);
  }

  lemma AtOnceFirst(cfg: Config, r: Request, t: Table, m: nat)
    requires Accepts(cfg) && r.now > 0.0 && Admitted(cfg, Empty(0.0), r, Allowed, t) && Sane(cfg, t, r.now)
    requires Tied(t, r.now) && IsFrom(cfg, r, BURST_KEY)
    ensures var run := More(IDLE, r, Allowed, t);
            AtOnce(cfg, run, 1, m, r.now) && Last(run) == t && Gap(cfg, run.requests, BURST_KEY) == 0
  {
    IdleBuilt(cfg, BURST_KEY);
    hide Built, Admitted, Sane, IsFrom, Tied;
    OneMore(cfg, IDLE, r, Allowed, t, BURST_KEY, 0);
    AskingMore(cfg, [], r, BURST_KEY, m);
    assert [] + [r] == [r];
  }

  lemma FromAtOnce(cfg: Config, run: Trace, n: nat, m: nat, now: real)
    requires cfg.rate > 0.0 && AtOnce(cfg, run, n, m, now)
    ensures Sane(cfg, Last(run), now) && Tied(Last(run), now) && Clock(run) == now && 0.0 <= now
  {
    FromBuilt(cfg, run, BURST_KEY, n);
  }

  lemma {:induction false} FillUp(cfg: Config, run: Trace, n: nat, left: seq<string>, now: real) returns (more: Trace)
    requires Accepts(cfg) && AtOnce(cfg, run, n, 0, now) && Filling(cfg, Last(run), left, now) && left != []
    ensures AtOnce(cfg, more, n + 1, 0, now) && Emptied(Last(more), now)
    decreases |left|
  {
    var r := Request("", Some(left[0]), now);
    assert IsFrom(cfg, r, BURST_KEY);
    FromAtOnce(cfg, run, n, 0, now);
    hide AtOnce, Admitted, Sane, IsFrom;
    var t := FillOne(cfg, Last(run), left, now);
    hide Fills;
    AtOnceMore(cfg, run, n, 0, now, r, Allowed, t);
    more := More(run, r, Allowed, t);
    if !Emptied(t, now) {
      more := FillUp(cfg, more, n + 1, left[1..], now);
      AtLeast(cfg, more, n + 2, n + 1, 0, now);
    }
  }

  /** With `k` tokens in its bucket the client is allowed `k` more requests at the same reading. */
  lemma {:induction false} Spend(cfg: Config, run: Trace, n: nat, m: nat, now: real, k: nat) returns (more: Trace)
    requires Accepts(cfg) && AtOnce(cfg, run, n, m, now)
    requires BURST_KEY in Last(run).tokens && BURST_KEY in Last(run).updated
    requires Last(run).tokens[BURST_KEY] >= k as real
    ensures AtOnce(cfg, more, n + k, m, now)
    decreases k
  {
    if k == 0 {
      more := run;
    } else {
      var r := Request("", None, now);
      assert ClientKey(cfg, r) == BURST_KEY;
      FromAtOnce(cfg, run, n, m, now);
      hide AtOnce, Sane, Consumed;
      var granted, t := HitAccess(cfg, Last(run), BURST_KEY, now);
      AtOnceMore(cfg, run, n, m, now, r, Allowed, t);
      more := Spend(cfg, More(run, r, Allowed, t), n + 1, m, now, k - 1);
    }
  }

  /** Once its bucket is gone, the client is allowed a whole burst. */
  lemma SpendAgain(cfg: Config, run: Trace, n: nat, m: nat, now: real) returns (more: Trace)
    requires Accepts(cfg) && AtOnce(cfg, run, n, m, now)
    requires Emptied(Last(run), now)
    ensures AtOnce(cfg, more, n + cfg.burst, m, now)
  {
    var r := Request("", None, now);
    assert ClientKey(cfg, r) == BURST_KEY;
    var victim :| victim in Last(run).updated.Keys;
    FromAtOnce(cfg, run, n, m, now);
    hide AtOnce, Sane, Consumed, Entered, Tied;
    var t := NewAccess(cfg, Last(run), BURST_KEY, now, victim);
    HasEntered(cfg, Last(run), t, BURST_KEY, victim, now);
    AtOnceMore(cfg, run, n, m, now, r, Allowed, t);
    more := Spend(cfg, More(run, r, Allowed, t), n + 1, m, now, cfg.burst - 1);
  }

  /** At one reading the burst is spent and more is left over. */
  lemma AtOnceExceeds(cfg: Config, run: Trace, n: nat, m: nat, now: real)
    requires Accepts(cfg) && AtOnce(cfg, run, n, m, now) && n > cfg.burst
    ensures Serving(cfg, 0.0, run) && run.tables[0] == Empty(0.0) && KeepsAsking(cfg, run.requests, BURST_KEY, m)
    ensures !WithinQuota(cfg, run, BURST_KEY)
  {
    assert Refill(cfg, 0.0) == 0.0;
    hide Refill, WithinQuota, Admitted, Sane;
    Exceeds(cfg, run, BURST_KEY, n, 0.0);
  }

  /** With no more places than tokens, a client fills the table at one reading until its own bucket goes. */
  lemma TiesMintQuota(cfg: Config) returns (run: Trace)
    requires Accepts(cfg) && cfg.maxIdentities <= cfg.burst && Enough(cfg, cfg.maxIdentities)
    ensures Serving(cfg, 0.0, run) && run.tables[0] == Empty(0.0) && AllFrom(cfg, run.requests, BURST_KEY)
    ensures !WithinQuota(cfg, run, BURST_KEY)
  {
    var names: seq<string> :| |names| == cfg.maxIdentities && Names(cfg, names);
    var r := Request("", Some(names[0]), 1.0);
    assert IsFrom(cfg, r, BURST_KEY);
    hide AtOnce, Admitted, Sane, Fills, WithinQuota, Serving, Names, IsFrom;
    var t := FillFirst(cfg, names, 1.0);
    AtOnceFirst(cfg, r, t, 0);
    run := More(IDLE, r, Allowed, t);
    if !Emptied(t, 1.0) {
      run := FillUp(cfg, run, 1, names[1..], 1.0);
      AtLeast(cfg, run, 2, 1, 0, 1.0);
    }
    run := SpendAgain(cfg, run, 1, 0, 1.0);
    AtOnceExceeds(cfg, run, 1 + cfg.burst, 0, 1.0);
    AskingAlone(cfg, run.requests, BURST_KEY);
  }

  // ---- other clients crowd the client out at one reading ----

  /** The client's bucket is there, and enough names are left to fill the table. */
  ghost predicate Crowds(cfg: Config, keys: set<string>, left: seq<string>) {
    && Names(cfg, left) && BURST_KEY in keys && |keys| + |left| > cfg.maxIdentities
    && forall k :: 0 <= k < |left| ==> KeyOfClient(left[k]) !in keys && KeyOfConversation(left[k]) !in keys
  }

  ghost predicate Crowding(cfg: Config, t: Table, left: seq<string>, now: real) {
    Tied(t, now) && Crowds(cfg, t.updated.Keys, left)
  }

  /** Whose bucket goes when the other client's conversation comes in. */
  function SecondVictim(cfg: Config, keys: set<string>, name: string): string {
    if |keys| < cfg.maxIdentities then BURST_KEY else KeyOfClient(name)
  }

  /** Another client names a conversation: it pushes the client's bucket out, or takes two places. */
  lemma CrowdOne(cfg: Config, t: Table, left: seq<string>, now: real) returns (t': Table)
    requires Accepts(cfg) && Sane(cfg, t, now) && Crowding(cfg, t, left, now) && left != []
    ensures Admitted(cfg, t, Request(left[0], Some(left[0]), now), Allowed, t') && Sane(cfg, t', now)
    ensures Emptied(t', now) || Crowding(cfg, t', left[1..], now)
  {
    hide Sane, Crowding, Admitted, Consumed, Entered, Emptied, Tied, KeyOfClient, KeyOfConversation, SecondVictim,
      IsName;
    CrowdReady(cfg, t, left, now);
    var mid;
    mid, t' := CrowdEnter(cfg, t, left[0], now);
    CrowdingMore(cfg, t, mid, t', left, now);
    NamedAdmits(cfg, t, left[0], mid, t', now);
  }

  lemma CrowdEnter(cfg: Config, t: Table, name: string, now: real) returns (mid: Table, t': Table)
    requires Accepts(cfg) && Sane(cfg, t, now) && Tied(t, now) && IsName(cfg, name) && BURST_KEY in t.updated.Keys
    requires KeyOfClient(name) !in t.updated && KeyOfConversation(name) !in t.updated.Keys
    ensures Consumed(cfg, t, KeyOfClient(name), now, true, mid)
    ensures Consumed(cfg, mid, KeyOfConversation(name), now, true, t') && Sane(cfg, t', now)
    ensures Entered(cfg, t, mid, KeyOfClient(name), BURST_KEY, now)
    ensures Entered(cfg, mid, t', KeyOfConversation(name), SecondVictim(cfg, t.updated.Keys, name), now)
  {
    var first, second := KeyOfClient(name), KeyOfConversation(name);
    hide Consumed, Sane, KeyOfConversation, KeyOfClient, KeysAfter, SecondVictim, Entered, IsName, Tied;
    FirstEntry(cfg, t.updated.Keys, name);
    mid := NewAccess(cfg, t, first, now, BURST_KEY);
    HasEntered(cfg, t, mid, first, BURST_KEY, now);
    t' := NewAccess(cfg, mid, second, now, SecondVictim(cfg, t.updated.Keys, name));
  }

  lemma CrowdingMore(cfg: Config, t: Table, mid: Table, t': Table, left: seq<string>, now: real)
    requires Crowding(cfg, t, left, now) && left != []
    requires Entered(cfg, t, mid, KeyOfClient(left[0]), BURST_KEY, now)
    requires Entered(cfg, mid, t', KeyOfConversation(left[0]), SecondVictim(cfg, t.updated.Keys, left[0]), now)
    ensures Emptied(t', now) || Crowding(cfg, t', left[1..], now)
  {
    hide Entered, KeyOfClient, KeyOfConversation, KeysAfter, SecondVictim, Tied, Crowds;
    CrowdsMore(cfg, t.updated.Keys, left);
    HasEntered(cfg, t, mid, KeyOfClient(left[0]), BURST_KEY, now);
    HasEntered(cfg, mid, t', KeyOfConversation(left[0]), SecondVictim(cfg, t.updated.Keys, left[0]), now);
  }

  lemma CrowdReady(cfg: Config, t: Table, left: seq<string>, now: real)
    requires Crowding(cfg, t, left, now) && left != []
    ensures Tied(t, now) && BURST_KEY in t.updated && BURST_KEY in t.updated.Keys && IsName(cfg, left[0])
    ensures KeyOfClient(left[0]) !in t.updated && KeyOfConversation(left[0]) !in t.updated.Keys
  {
    assert BURST_KEY in t.updated.Keys && KeyOfClient(left[0]) !in t.updated.Keys;
  }

  lemma FirstEntry(cfg: Config, keys: set<string>, name: string)
    requires IsName(cfg, name) && BURST_KEY in keys && KeyOfConversation(name) !in keys
    ensures var after := KeysAfter(keys, cfg.maxIdentities, KeyOfClient(name), BURST_KEY);
            SecondVictim(cfg, keys, name) in after && KeyOfConversation(name) !in after
  {
    NamedKeys(cfg, name, 0.0);
  }

  lemma CrowdsMore(cfg: Config, keys: set<string>, left: seq<string>)
    requires Crowds(cfg, keys, left) && left != []
    ensures var first, second := KeyOfClient(left[0]), KeyOfConversation(left[0]);
            var after := KeysAfter(KeysAfter(keys, cfg.maxIdentities, first, BURST_KEY), cfg.maxIdentities, second,
                                   SecondVictim(cfg, keys, left[0]));
            after != {} && (BURST_KEY in after ==> Crowds(cfg, after, left[1..]))
  {
    var name := left[0];
    NamedKeys(cfg, name, 0.0);
    var first, second := KeyOfClient(name), KeyOfConversation(name);
    var mid, victim := KeysAfter(keys, cfg.maxIdentities, first, BURST_KEY), SecondVictim(cfg, keys, name);
    var after := KeysAfter(mid, cfg.maxIdentities, second, victim);
    KeyEnters(mid, cfg.maxIdentities, second, victim);
    TwoEntries(keys, cfg.maxIdentities, first, second, BURST_KEY);
    hide KeysAfter, KeyOfClient, KeyOfConversation;
    if BURST_KEY in after {
      forall k | 0 <= k < |left[1..]|
        ensures KeyOfClient(left[1..][k]) !in after && KeyOfConversation(left[1..][k]) !in after
      {
        OtherKeys(left[k + 1], name);
      }
    }
  }

  lemma TwoEntries(keys: set<string>, places: nat, first: string, second: string, client: string)
    requires first !in keys && second !in keys && first != second && client in keys
    ensures var after := KeysAfter(KeysAfter(keys, places, first, client), places, second,
                                   if |keys| < places then client else first);
            client in after ==> after == keys + {first, second} && |after| == |keys| + 2
  {
    if |keys| < places {
      var mid := keys + {first};
      assert |mid| == |keys| + 1;
      if |mid| < places {
        assert mid + {second} == keys + {first, second};
        assert |mid + {second}| == |mid| + 1;
      }
    }
  }

  lemma OtherKeys(a: string, b: string)
    requires a != b
    ensures KeyOfClient(a) != KeyOfClient(b) && KeyOfConversation(a) != KeyOfConversation(b)
    ensures KeyOfClient(a) != KeyOfConversation(b) && KeyOfConversation(a) != KeyOfClient(b)
  {
    assert KeyOfClient(a)[2..] == a && KeyOfClient(b)[2..] == b;
    assert KeyOfConversation(a)[2..] == a && KeyOfConversation(b)[2..] == b;
    assert KeyOfClient(a)[0] == 'c' && KeyOfConversation(b)[0] == 'v';
    assert KeyOfClient(b)[0] == 'c' && KeyOfConversation(a)[0] == 'v';
  }

  /** The client asks again; whether it is allowed does not matter. */
  lemma AskAgain(cfg: Config, run: Trace, n: nat, now: real, left: seq<string>) returns (more: Trace)
    requires Accepts(cfg) && AtOnce(cfg, run, n, 1, now) && Crowding(cfg, Last(run), left, now)
    ensures AtOnce(cfg, more, n, 1, now) && Crowding(cfg, Last(more), left, now)
    ensures Gap(cfg, more.requests, BURST_KEY) == 0
  {
    var r := Request("", None, now);
    assert ClientKey(cfg, r) == BURST_KEY;
    FromAtOnce(cfg, run, n, 1, now);
    assert BURST_KEY in Last(run).updated.Keys;
    hide AtOnce, Sane, Consumed, Crowds;
    var granted, t := HitAccess(cfg, Last(run), BURST_KEY, now);
    var d := if granted then Allowed else Refused(Client, SecondsUntilToken(cfg, t, BURST_KEY));
    AtOnceMore(cfg, run, n, 1, now, r, d, t);
    more := More(run, r, d, t);
    AtLeast(cfg, more, if granted then n + 1 else n, n, 1, now);
  }

  lemma AtLeast(cfg: Config, run: Trace, n: nat, fewer: nat, m: nat, now: real)
    requires cfg.rate > 0.0 && AtOnce(cfg, run, n, m, now) && fewer <= n
    ensures AtOnce(cfg, run, fewer, m, now)
  {
  }

  lemma {:induction false} CrowdOut(cfg: Config, run: Trace, n: nat, left: seq<string>, now: real)
    returns (more: Trace)
    requires Accepts(cfg) && AtOnce(cfg, run, n, 1, now) && Crowding(cfg, Last(run), left, now)
    requires Gap(cfg, run.requests, BURST_KEY) == 0
    ensures AtOnce(cfg, more, n, 1, now) && Emptied(Last(more), now)
    decreases |left|
  {
    FromAtOnce(cfg, run, n, 1, now);
    SizeOf(Last(run).updated);
    assert left != [];
    var r := Request(left[0], Some(left[0]), now);
    NamedKeys(cfg, left[0], now);
    assert !IsFrom(cfg, r, BURST_KEY);
    hide AtOnce, Sane, Admitted, Crowds, IsFrom, Gap;
    var t := CrowdOne(cfg, Last(run), left, now);
    AtOnceMore(cfg, run, n, 1, now, r, Allowed, t);
    more := More(run, r, Allowed, t);
    if !Emptied(t, now) {
      more := AskAgain(cfg, more, n, now, left[1..]);
      more := CrowdOut(cfg, more, n, left[1..], now);
    }
  }

  /** However large the table, with one other request between two of its own a client exceeds its quota. */
  lemma CrowdMintsQuota(cfg: Config) returns (run: Trace)
    requires Accepts(cfg) && Enough(cfg, cfg.maxIdentities)
    ensures Serving(cfg, 0.0, run) && run.tables[0] == Empty(0.0) && KeepsAsking(cfg, run.requests, BURST_KEY, 1)
    ensures !WithinQuota(cfg, run, BURST_KEY)
  {
    var names: seq<string> :| |names| == cfg.maxIdentities && Names(cfg, names);
    var r := Request("", None, 1.0);
    assert ClientKey(cfg, r) == BURST_KEY;
    hide AtOnce, Sane, WithinQuota, Serving, Consumed;
    var t := FirstBucket(cfg, 1.0);
    forall k | 0 <= k < |names|
      ensures KeyOfClient(names[k]) !in t.updated.Keys && KeyOfConversation(names[k]) !in t.updated.Keys
    {
      NamedKeys(cfg, names[k], 1.0);
    }
    assert Crowds(cfg, t.updated.Keys, names);
    hide Crowds, Names;
    AtOnceFirst(cfg, r, t, 1);
    run := More(IDLE, r, Allowed, t);
    run := CrowdOut(cfg, run, 1, names, 1.0);
    run := SpendAgain(cfg, run, 1, 1, 1.0);
    AtOnceExceeds(cfg, run, 1 + cfg.burst, 1, 1.0);
  }

  // ---- other clients push the client out at different readings ----

  /** The keys that requests under these names use, in order. */
  function KeyOrder(names: seq<string>): seq<string> {
    if names == [] then [] else [KeyOfClient(names[0]), KeyOfConversation(names[0])] + KeyOrder(names[1..])
  }

  lemma {:induction false} KeyOrderConcat(a: seq<string>, b: seq<string>)
    ensures KeyOrder(a + b) == KeyOrder(a) + KeyOrder(b)
  {
    if a == [] {
      assert a + b == b;
    } else {
      KeyOrderConcat(a[1..], b);
      assert (a + b)[1..] == a[1..] + b;
    }
  }

  predicate Different(order: seq<string>) {
    forall i, j :: 0 <= i < j < |order| ==> order[i] != order[j]
  }

  lemma {:induction false} KeyOrderDifferent(cfg: Config, names: seq<string>)
    requires Names(cfg, names)
    ensures |KeyOrder(names)| == 2 * |names| && Different(KeyOrder(names))
    ensures forall k :: 0 <= k < |KeyOrder(names)| ==>
              exists j :: 0 <= j < |names| && KeyOrder(names)[k] in {KeyOfClient(names[j]), KeyOfConversation(names[j])}
  {
    if names != [] {
      var rest := names[1..];
      KeyOrderDifferent(cfg, rest);
      NamedKeys(cfg, names[0], 0.0);
      var order := KeyOrder(rest);
      forall k | 0 <= k < |order|
        ensures order[k] != KeyOfClient(names[0]) && order[k] != KeyOfConversation(names[0])
        ensures exists j :: 0 <= j < |names| && order[k] in {KeyOfClient(names[j]), KeyOfConversation(names[j])}
      {
        var j :| 0 <= j < |rest| && order[k] in {KeyOfClient(rest[j]), KeyOfConversation(rest[j])};
        OtherKeys(rest[j], names[0]);
        assert names[j + 1] == rest[j];
      }
      assert KeyOrder(names)[0] in {KeyOfClient(names[0]), KeyOfConversation(names[0])};
      assert KeyOrder(names)[1] in {KeyOfClient(names[0]), KeyOfConversation(names[0])};
    }
  }

  function SetOf(keys: seq<string>): set<string> { set k | k in keys }

  /** The keys appear in the order of their last use. */
  ghost predicate InOrder(updated: map<string, real>, held: seq<string>) {
    && (forall k :: 0 <= k < |held| ==> held[k] in updated)
    && forall i, j :: 0 <= i < j < |held| ==> updated[held[i]] <= updated[held[j]]
  }

  /** The table holds exactly these keys, the least recently used first. */
  ghost predicate Lru(t: Table, held: seq<string>) {
    && Different(held) && SameKeys(t) && t.updated.Keys == SetOf(held) && InOrder(t.updated, held)
    && forall key :: key in t.updated ==> t.updated[key] >= 0.0
  }

  lemma {:induction false} DifferentSize(keys: seq<string>)
    requires Different(keys)
    ensures |SetOf(keys)| == |keys|
  {
    if keys != [] {
      var n := |keys| - 1;
      DifferentSize(keys[..n]);
      assert SetOf(keys) == SetOf(keys[..n]) + {keys[n]};
    }
  }

  lemma NotYetStale(cfg: Config, t: Table, now: real)
    requires Accepts(cfg) && now <= cfg.ttl && forall key :: key in t.updated ==> t.updated[key] >= 0.0
    ensures var swept := Swept(cfg, t, now); swept.tokens == t.tokens && swept.updated == t.updated
  {
    assert Stale(cfg, t, now) == {};
    WithoutNone(t);
  }

  /** The keys that stay when a new one comes in. */
  function Staying(cfg: Config, held: seq<string>): seq<string> {
    if |held| < cfg.maxIdentities || held == [] then held else held[1..]
  }

  function Oldest(held: seq<string>): string { if held == [] then "" else held[0] }

  lemma FirstOut(held: seq<string>)
    requires Different(held) && held != []
    ensures Different(held[1..]) && SetOf(held[1..]) == SetOf(held) - {held[0]} && |SetOf(held[1..])| == |held| - 1
  {
    assert held == [held[0]] + held[1..];
    DifferentSize(held[1..]);
  }

  lemma OrderLeft(updated: map<string, real>, left: map<string, real>, held: seq<string>)
    requires InOrder(updated, held) && held != [] && left.Keys == SetOf(held[1..])
    requires forall k :: k in left ==> k in updated && left[k] == updated[k]
    ensures InOrder(left, held[1..])
    ensures forall k :: k in left ==> updated[held[0]] <= updated[k]
  {
    var rest := held[1..];
    forall k | 0 <= k < |rest| ensures rest[k] in left && left[rest[k]] == updated[held[k + 1]] {
      assert rest[k] in SetOf(rest);
    }
    forall k | k in left ensures updated[held[0]] <= updated[k] {
      assert k in rest;
    }
  }

  lemma LruEvicts(cfg: Config, t: Table, held: seq<string>)
    requires Accepts(cfg) && Lru(t, held) && |held| == cfg.maxIdentities
    ensures var roomy := Without(t, {held[0]});
            && Lru(roomy, held[1..]) && t.updated.Keys - roomy.updated.Keys == {held[0]}
            && |roomy.updated| == cfg.maxIdentities - 1
            && forall k :: k in roomy.updated ==> t.updated[held[0]] <= t.updated[k]
  {
    var victim := held[0];
    var roomy := Without(t, {victim});
    WithoutIs(t, {victim});
    WithoutValues(t, {victim});
    FirstOut(held);
    SizeOf(roomy.updated);
    assert victim in SetOf(held);
    hide Without, Different, SetOf, InOrder;
    OrderLeft(t.updated, roomy.updated, held);
  }

  lemma LruRoom(cfg: Config, t: Table, held: seq<string>, key: string)
    requires Accepts(cfg) && Lru(t, held) && |held| <= cfg.maxIdentities && key !in held
    ensures var roomy := Room(cfg, t, Oldest(held));
            MadeRoom(cfg, t, key, roomy) && Lru(roomy, Staying(cfg, held)) && key !in t.updated
  {
    DifferentSize(held);
    SizeOf(t.updated);
    if |held| == cfg.maxIdentities {
      LruEvicts(cfg, t, held);
    }
  }

  lemma OrderMore(updated: map<string, real>, held: seq<string>, key: string, now: real)
    requires InOrder(updated, held) && key !in held && forall k :: k in updated ==> updated[k] <= now
    ensures InOrder(updated[key := now], held + [key])
  {
  }

  lemma LruTaken(cfg: Config, t: Table, held: seq<string>, key: string, now: real)
    requires Accepts(cfg) && Lru(t, held) && key !in held && now >= 0.0
    requires forall k :: k in t.updated ==> t.updated[k] <= now
    ensures var (granted, t') := Take(cfg, t, key, now); granted && Lru(t', held + [key])
  {
    var t' := Take(cfg, t, key, now).1;
    assert key !in SetOf(held) && SetOf(held + [key]) == SetOf(held) + {key};
    assert t'.updated.Keys == t.updated.Keys + {key} && t'.tokens.Keys == t.tokens.Keys + {key};
    OrderMore(t.updated, held, key, now);
    assert Different(held + [key]);
    hide InOrder, Different, SetOf;
  }

  lemma LruSwept(cfg: Config, t: Table, before: real, held: seq<string>, key: string, now: real) returns (roomy: Table)
    requires Accepts(cfg) && Sane(cfg, t, before) && 0.0 <= before <= now <= cfg.ttl
    requires Lru(t, held) && |held| <= cfg.maxIdentities && key !in held
    ensures MadeRoom(cfg, Swept(cfg, t, now), key, roomy) && Lru(roomy, Staying(cfg, held))
    ensures forall k :: k in roomy.updated ==> roomy.updated[k] <= now
  {
    var swept := Swept(cfg, t, now);
    NotYetStale(cfg, t, now);
    assert Lru(swept, held);
    SweptSane(cfg, t, before, now);
    hide Swept, MadeRoom, Lru, Room;
    LruRoom(cfg, swept, held, key);
    roomy := Room(cfg, swept, Oldest(held));
    RoomSane(cfg, swept, key, now, roomy);
  }

  /** An access to a key that is not held: its bucket is full, and the least recently used one makes room. */
  lemma LruAccess(cfg: Config, t: Table, before: real, held: seq<string>, key: string, now: real) returns (t': Table)
    requires Accepts(cfg) && Sane(cfg, t, before) && 0.0 <= before <= now <= cfg.ttl
    requires Lru(t, held) && |held| <= cfg.maxIdentities && key !in held
    ensures Consumed(cfg, t, key, now, true, t') && Sane(cfg, t', now) && Lru(t', Staying(cfg, held) + [key])
  {
    hide Swept, MadeRoom, Take, Sane, Lru, Consumed;
    var roomy := LruSwept(cfg, t, before, held, key, now);
    assert key !in Staying(cfg, held);
    LruTaken(cfg, roomy, Staying(cfg, held), key, now);
    t' := Take(cfg, roomy, key, now).1;
    IsConsumed(cfg, t, before, roomy, key, now, true, t');
  }

  function Rotated(keys: seq<string>): seq<string> { if keys == [] then [] else keys[1..] + [keys[0]] }

  predicate EndsWith(order: seq<string>, held: seq<string>) {
    |held| <= |order| && order[|order| - |held|..] == held
  }

  /** The next key of the order is not held; after its access the held keys still end the order. */
  lemma RotateOnce(cfg: Config, order: seq<string>, held: seq<string>)
    requires Different(order) && EndsWith(order, held) && |held| <= cfg.maxIdentities < |order|
    requires cfg.maxIdentities >= 1
    ensures order[0] !in held && Different(Rotated(order))
    ensures var held' := Staying(cfg, held) + [order[0]];
            EndsWith(Rotated(order), held') && |held'| <= cfg.maxIdentities
  {
    var stay := Staying(cfg, held);
    assert order[|order| - |stay|..] == stay;
    assert Rotated(order)[|order| - |stay| - 1..] == stay + [order[0]];
  }

  lemma RotatedNames(cfg: Config, names: seq<string>)
    requires Names(cfg, names)
    ensures Names(cfg, Rotated(names))
  {
  }

  lemma RotatedOrder(names: seq<string>)
    requires names != []
    ensures KeyOrder(Rotated(names)) == Rotated(Rotated(KeyOrder(names)))
  {
    var x, rest := names[0], names[1..];
    KeyOrderConcat(rest, [x]);
    assert [x][1..] == [] && KeyOrder([x]) == [KeyOfClient(x), KeyOfConversation(x)] + KeyOrder([]);
    hide KeyOfClient, KeyOfConversation;
    RotatedTwice(KeyOfClient(x), KeyOfConversation(x), KeyOrder(rest));
  }

  lemma RotatedTwice(a: string, b: string, rest: seq<string>)
    ensures Rotated(Rotated([a, b] + rest)) == rest + [a, b]
  {
    assert Rotated([a, b] + rest) == [b] + rest + [a];
  }

  /** The table holds the last keys that requests under these names, over and over, have used. */
  ghost predicate Thrashing(cfg: Config, t: Table, names: seq<string>, held: seq<string>) {
    && Names(cfg, names) && Lru(t, held) && |held| <= cfg.maxIdentities < 2 * |names|
    && EndsWith(KeyOrder(names), held)
  }

  /** The next name's request finds neither of its buckets, so it is allowed. */
  lemma ThrashOne(cfg: Config, t: Table, before: real, names: seq<string>, held: seq<string>, now: real)
    returns (t': Table, held': seq<string>)
    requires Accepts(cfg) && Sane(cfg, t, before) && 0.0 <= before <= now <= cfg.ttl
    requires Thrashing(cfg, t, names, held)
    ensures Admitted(cfg, t, Request(names[0], Some(names[0]), now), Allowed, t') && Sane(cfg, t', now)
    ensures Thrashing(cfg, t', Rotated(names), held')
  {
    var x := names[0];
    var first, second := KeyOfClient(x), KeyOfConversation(x);
    var middle := Staying(cfg, held) + [first];
    hide Names, KeyOrder, KeyOfClient, KeyOfConversation, ClientKey, ConversationKey, Lru, Sane, Consumed, Admitted,
      EndsWith, Staying, IsName;
    ThrashReady(cfg, names, held);
    held' := Staying(cfg, middle) + [second];
    var mid := LruAccess(cfg, t, before, held, first, now);
    t' := LruAccess(cfg, mid, now, middle, second, now);
    NamedAdmits(cfg, t, x, mid, t', now);
  }

  /** Neither key of the next name is held when its turn comes. */
  lemma ThrashReady(cfg: Config, names: seq<string>, held: seq<string>)
    requires cfg.maxIdentities >= 1 && Names(cfg, names) && |held| <= cfg.maxIdentities < 2 * |names|
    requires EndsWith(KeyOrder(names), held)
    ensures IsName(cfg, names[0]) && Names(cfg, Rotated(names)) && |Rotated(names)| == |names|
    ensures var first, second := KeyOfClient(names[0]), KeyOfConversation(names[0]);
            var middle := Staying(cfg, held) + [first];
            && first !in held && |middle| <= cfg.maxIdentities && second !in middle
            && |Staying(cfg, middle) + [second]| <= cfg.maxIdentities
            && EndsWith(KeyOrder(Rotated(names)), Staying(cfg, middle) + [second])
  {
    var x, order := names[0], KeyOrder(names);
    KeyOrderDifferent(cfg, names);
    RotatedNames(cfg, names);
    RotatedOrder(names);
    var first, second := KeyOfClient(x), KeyOfConversation(x);
    assert order[0] == first && Rotated(order)[0] == second && |Rotated(order)| == |order|;
    hide Names, KeyOrder, KeyOfClient, KeyOfConversation, Different, Staying, EndsWith;
    RotateOnce(cfg, order, held);
    RotateOnce(cfg, Rotated(order), Staying(cfg, held) + [first]);
  }

  /** At different readings, at least `n` requests of the client allowed, and `p` of others still before its next. */
  ghost predicate Paced(cfg: Config, run: Trace, n: nat, m: nat, p: nat, client: string)
    requires cfg.rate > 0.0
  {
    && Built(cfg, run, client, n) && Apart(run.requests) && KeepsAsking(cfg, run.requests, client, m)
    && if run.requests == [] then p == 0 else p <= m && Gap(cfg, run.requests, client) == m - p
  }

  /** Others still to ask before the client, after one more request. */
  function Before(p: nat, m: nat): nat { if p == 0 then m else p - 1 }

  lemma PacedMore(cfg: Config, run: Trace, n: nat, m: nat, p: nat, client: string, r: Request, t: Table)
    requires Accepts(cfg) && Paced(cfg, run, n, m, p, client) && Clock(run) < r.now
    requires IsFrom(cfg, r, client) <==> p == 0
    requires Admitted(cfg, Last(run), r, Allowed, t) && Sane(cfg, t, r.now)
    ensures var more := More(run, r, Allowed, t);
            && Paced(cfg, more, if p == 0 then n + 1 else n, m, Before(p, m), client)
            && Clock(more) == r.now && Last(more) == t
  {
    FromBuilt(cfg, run, client, n);
    hide Built, Sane, Admitted, IsFrom, KeepsAsking, Gap, Apart;
    OneMore(cfg, run, r, Allowed, t, client, n);
    ApartMore(run.requests, r);
    AskingMore(cfg, run.requests, r, client, m);
  }

  /** The requests so far, with the client's name at place `p` of those to come. */
  ghost predicate Thrashed(
      cfg: Config, run: Trace, n: nat, m: nat, names: seq<string>, held: seq<string>, p: nat, name: string)
    requires cfg.rate > 0.0
  {
    && Paced(cfg, run, n, m, p, KeyOfClient(name)) && Thrashing(cfg, Last(run), names, held)
    && |names| == m + 1 && p <= m && names[p] == name
  }

  lemma ThrashNext(
      cfg: Config, run: Trace, n: nat, m: nat, names: seq<string>, held: seq<string>, p: nat, name: string, now: real)
    returns (more: Trace, held': seq<string>)
    requires Accepts(cfg) && Thrashed(cfg, run, n, m, names, held, p, name) && Clock(run) < now <= cfg.ttl
    ensures Thrashed(cfg, more, if p == 0 then n + 1 else n, m, Rotated(names), held', Before(p, m), name)
    ensures Clock(more) == now && more.requests != []
  {
    var client, x := KeyOfClient(name), names[0];
    var r := Request(x, Some(x), now);
    FromBuilt(cfg, run, client, n);
    NamedKeys(cfg, x, now);
    assert IsFrom(cfg, r, client) <==> p == 0 by {
      if p > 0 { OtherKeys(x, name); }
    }
    var t;
    hide Sane, Admitted, Thrashing, IsFrom, Paced, KeyOfClient, ClientKey, ConversationKey;
    t, held' := ThrashOne(cfg, Last(run), Clock(run), names, held, now);
    PacedMore(cfg, run, n, m, p, client, r, t);
    more := More(run, r, Allowed, t);
  }

  lemma {:induction false} ThrashOn(
      cfg: Config, run: Trace, n: nat, m: nat, names: seq<string>, held: seq<string>, p: nat, name: string,
      goal: nat, end: real)
    returns (more: Trace)
    requires Accepts(cfg) && Thrashed(cfg, run, n, m, names, held, p, name) && Clock(run) < end <= cfg.ttl && n <= goal
    ensures Built(cfg, more, KeyOfClient(name), goal) && Apart(more.requests) && Clock(more) < end
    ensures KeepsAsking(cfg, more.requests, KeyOfClient(name), m)
    ensures n < goal || run.requests != [] ==> more.requests != []
    decreases goal - n, p
  {
    if n == goal {
      more := run;
    } else {
      hide Thrashed;
      var held';
      more, held' := ThrashNext(cfg, run, n, m, names, held, p, name, (Clock(run) + end) / 2.0);
      more := ThrashOn(cfg, more, if p == 0 then n + 1 else n, m, Rotated(names), held', Before(p, m), name, goal, end);
    }
  }

  /**
   With fewer places than a client and `m` others use between two of its requests, its bucket is gone
   whenever it asks again, at different readings too.
   */
  lemma EvictionMintsQuota(cfg: Config, m: nat) returns (run: Trace, client: string)
    requires Accepts(cfg) && cfg.maxIdentities < 2 * m + 2 && Enough(cfg, m + 1)
    ensures Serving(cfg, 0.0, run) && run.tables[0] == Empty(0.0)
    ensures Apart(run.requests) && KeepsAsking(cfg, run.requests, client, m) && !WithinQuota(cfg, run, client)
  {
    var names: seq<string> :| |names| == m + 1 && Names(cfg, names);
    client := KeyOfClient(names[0]);
    var half := 0.5 / cfg.rate;
    assert half > 0.0 && Refill(cfg, half) == 0.5;
    var end := if half < cfg.ttl then half else cfg.ttl;
    RefillLaws(cfg, end, half);
    hide Refill;
    IdleBuilt(cfg, client);
    assert Lru(Empty(0.0), []) && EndsWith(KeyOrder(names), []);
    hide Lru, Names, WithinQuota, Sane, Admitted, AllowedFor;
    run := ThrashOn(cfg, IDLE, 0, m, names, [], 0, names[0], cfg.burst + 1, end);
    Exceeds(cfg, run, client, cfg.burst + 1, end);
  }

  // ---- the exact conditions ----

  /**
   Every client that asks again before more than `m` requests of others is held to its quota; `apart`
   restricts this to runs in which no two requests share a reading.
   */
  ghost predicate HoldsQuota(cfg: Config, m: nat, apart: bool)
    requires cfg.rate > 0.0
  {
    forall early: real, run: Trace, client: string ::
      Serving(cfg, early, run) && (apart ==> Apart(run.requests)) && KeepsAsking(cfg, run.requests, client, m) ==>
        WithinQuota(cfg, run, client)
  }

  lemma Refutes(cfg: Config, m: nat, apart: bool, run: Trace, client: string)
    requires cfg.rate > 0.0 && Serving(cfg, 0.0, run) && (apart ==> Apart(run.requests))
    requires KeepsAsking(cfg, run.requests, client, m) && !WithinQuota(cfg, run, client)
    ensures !HoldsQuota(cfg, m, apart)
  {
    hide Admitted, Sane, WithinQuota, KeepsAsking;
  }

  lemma SweepRefutes(cfg: Config, m: nat, apart: bool)
    requires Accepts(cfg) && cfg.ttl * cfg.rate < cfg.burst as real
    ensures !HoldsQuota(cfg, m, apart)
  {
    hide Serving, WithinQuota, KeepsAsking, HoldsQuota;
    var run := SweepMintsQuota(cfg);
    AskingAlone(cfg, run.requests, BURST_KEY);
    AskingOften(cfg, run.requests, BURST_KEY, 0, m);
    Refutes(cfg, m, apart, run, BURST_KEY);
  }

  /** At different readings: exactly with room for what a client and `m` others use, and time to refill. */
  lemma ApartExactly(cfg: Config, m: nat)
    requires Accepts(cfg) && Enough(cfg, m + 1)
    ensures HoldsQuota(cfg, m, true) <==>
            cfg.maxIdentities >= 2 * m + 2 && cfg.ttl * cfg.rate >= cfg.burst as real
  {
    if cfg.maxIdentities >= 2 * m + 2 && cfg.ttl * cfg.rate >= cfg.burst as real {
      forall early: real, run: Trace, client: string
        | Serving(cfg, early, run) && Apart(run.requests) && KeepsAsking(cfg, run.requests, client, m)
        ensures WithinQuota(cfg, run, client)
      {
        hide WithinQuota, KeepsAsking, Admitted, Sane;
        QuotaKept(cfg, early, run, client, m);
      }
    } else if cfg.ttl * cfg.rate < cfg.burst as real {
      SweepRefutes(cfg, m, true);
    } else {
      hide Serving, WithinQuota, KeepsAsking, HoldsQuota;
      var run, client := EvictionMintsQuota(cfg, m);
      Refutes(cfg, m, true, run, client);
    }
  }

  /**
   At any readings, a client on its own: exactly with more places than tokens in a burst, or more than
   there are names, and time to refill.
   */
  lemma SoloExactly(cfg: Config)
    requires Accepts(cfg)
    ensures HoldsQuota(cfg, 0, false) <==>
            && (cfg.maxIdentities > cfg.burst || !Enough(cfg, cfg.maxIdentities))
            && cfg.ttl * cfg.rate >= cfg.burst as real
  {
    if Roomy(cfg) && cfg.ttl * cfg.rate >= cfg.burst as real {
      forall early: real, run: Trace, client: string
        | Serving(cfg, early, run) && KeepsAsking(cfg, run.requests, client, 0)
        ensures WithinQuota(cfg, run, client)
      {
        AskingAlone(cfg, run.requests, client);
        hide WithinQuota, KeepsAsking, Admitted, Sane, AllFrom, Roomy;
        SoloKept(cfg, early, run, client);
      }
    } else if cfg.ttl * cfg.rate < cfg.burst as real {
      SweepRefutes(cfg, 0, false);
    } else {
      hide Serving, WithinQuota, KeepsAsking, HoldsQuota;
      var run := TiesMintQuota(cfg);
      AskingAlone(cfg, run.requests, BURST_KEY);
      Refutes(cfg, 0, false, run, BURST_KEY);
    }
  }

  /** At any readings, with others asking in between, no table size is enough. */
  lemma NeverShared(cfg: Config, m: nat)
    requires Accepts(cfg) && m >= 1 && Enough(cfg, cfg.maxIdentities)
    ensures !HoldsQuota(cfg, m, false)
  {
    hide Serving, WithinQuota, KeepsAsking, HoldsQuota;
    var run := CrowdMintsQuota(cfg);
    AskingOften(cfg, run.requests, BURST_KEY, 1, m);
    Refutes(cfg, m, false, run, BURST_KEY);
  }

  // ---- how many names there are ----

  function Pow10(n: nat): nat { if n == 0 then 1 else 10 * Pow10(n - 1) }

  lemma {:induction false} DecimalLength(n: nat, digits: nat)
    requires n < Pow10(digits) && digits >= 1
    ensures |Candidates.Decimal(n)| <= digits
  {
    if n >= 10 {
      DecimalLength(n / 10, digits - 1);
    }
  }

  /** Numerals alone give as many names as there are numbers with that many digits. */
  lemma EnoughNames(cfg: Config, n: nat)
    requires cfg.maxKeyChars >= 1 && n <= Pow10(cfg.maxKeyChars)
    ensures Enough(cfg, n)
  {
    var names := seq(n, i requires 0 <= i < n => Candidates.Decimal(i));
    forall k | 0 <= k < n ensures IsName(cfg, names[k]) {
      DecimalLength(k, cfg.maxKeyChars);
    }
    forall i, j | 0 <= i < j < n ensures names[i] != names[j] {
      if names[i] == names[j] {
        Candidates.DecimalInjective(i, j);
      }
    }
    assert Names(cfg, names);
  }
}
