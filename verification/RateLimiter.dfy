/**
 Token-bucket rate limiter over one capped table, with LRU eviction at capacity and
 an amortised sweep of idle buckets. Time and tokens are reals; the clock readings
 are non-decreasing in the order in which the lock is taken.
 */
module RateLimiter {
  import opened Messages

  datatype Config = Config(rate: real, burst: nat, maxIdentities: nat, ttl: real, maxKeyChars: nat)

  /** The settings the constructor accepts. */
  predicate Accepts(cfg: Config) {
    cfg.rate > 0.0 && cfg.burst > 0 && cfg.maxIdentities >= 1 && cfg.ttl > 0.0 && cfg.maxKeyChars >= 1
  }

  /** The two tables and the time of the last sweep. */
  datatype Table = Table(tokens: map<string, real>, updated: map<string, real>, lastSweep: real)

  function Empty(now: real): Table { Table(map[], map[], now) }

  function Least(a: real, b: real): real { if a < b then a else b }

  // ---- one bucket access ----

  function Without(t: Table, keys: set<string>): Table {
    t.(tokens := t.tokens - keys, updated := t.updated - keys)
  }

  function Stale(cfg: Config, t: Table, now: real): set<string> {
    set key | key in t.updated && now - t.updated[key] > cfg.ttl
  }

  /** At most once per half lifetime, idle buckets are dropped. */
  function Swept(cfg: Config, t: Table, now: real): Table {
    if now - t.lastSweep >= cfg.ttl / 2.0 then Without(t, Stale(cfg, t, now)).(lastSweep := now) else t
  }

  /** Tokens that flow in over some time. */
  function Refill(cfg: Config, elapsed: real): real { elapsed * cfg.rate }

  lemma RefillLaws(cfg: Config, a: real, b: real)
    requires Accepts(cfg)
    ensures a <= b ==> Refill(cfg, a) <= Refill(cfg, b)
    ensures Refill(cfg, a + b) == Refill(cfg, a) + Refill(cfg, b)
    ensures Refill(cfg, 0.0) == 0.0
  {
    if a <= b {
      assert (b - a) * cfg.rate >= 0.0;
    }
  }

  /** Tokens available to `key` at time `now`; an unknown bucket is full. */
  function Level(cfg: Config, t: Table, key: string, now: real): real {
    if key in t.updated && key in t.tokens
    then Least(cfg.burst as real, t.tokens[key] + Refill(cfg, now - t.updated[key]))
    else cfg.burst as real
  }

  /** Takes one token if there is one, and records the access. */
  function Take(cfg: Config, t: Table, key: string, now: real): (bool, Table) {
    var level := Level(cfg, t, key, now);
    var granted := level >= 1.0;
    (granted, t.(tokens := t.tokens[key := if granted then level - 1.0 else level], updated := t.updated[key := now]))
  }

  /** At capacity the coldest buckets give way to a new key, one more than the excess. */
  ghost predicate MadeRoom(cfg: Config, t: Table, key: string, roomy: Table) {
    if key in t.updated || |t.updated| < cfg.maxIdentities then roomy == t
    else
      var victims := t.updated.Keys - roomy.updated.Keys;
      && roomy == Without(t, victims)
      && |roomy.updated| == cfg.maxIdentities - 1
      && forall v, k :: v in victims && k in roomy.updated ==> t.updated[v] <= t.updated[k]
  }

  /** One locked access: sweep if due, make room if needed, take a token if there is one. */
  ghost predicate Consumed(cfg: Config, t: Table, key: string, now: real, granted: bool, t': Table) {
    exists roomy :: MadeRoom(cfg, Swept(cfg, t, now), key, roomy) && (granted, t') == Take(cfg, roomy, key, now)
  }

  // ---- invariants of every run ----

  /** Same keys in both tables, capped; levels in range; nothing idle longer than the last sweep allows. */
  ghost predicate Sane(cfg: Config, t: Table, now: real) {
    && t.tokens.Keys == t.updated.Keys
    && |t.updated| <= cfg.maxIdentities
    && t.lastSweep <= now
    && (forall key :: key in t.tokens ==> 0.0 <= t.tokens[key] <= cfg.burst as real)
    && (forall key :: key in t.updated ==> t.updated[key] <= now)
    && (forall key :: key in t.updated ==> t.lastSweep - t.updated[key] <= cfg.ttl)
  }

  lemma WithoutFewer(t: Table, keys: set<string>)
    ensures |Without(t, keys).updated| <= |t.updated|
  {
    assert Without(t, keys).updated.Keys <= t.updated.Keys;
    FewerKeys(Without(t, keys).updated.Keys, t.updated.Keys);
  }

  lemma FewerKeys(a: set<string>, b: set<string>)
    requires a <= b
    ensures |a| <= |b|
  {
    assert b == a + (b - a);
  }

  lemma SweptSane(cfg: Config, t: Table, before: real, now: real)
    requires Accepts(cfg) && Sane(cfg, t, before) && before <= now
    ensures Sane(cfg, Swept(cfg, t, now), now)
    ensures now - Swept(cfg, t, now).lastSweep < cfg.ttl / 2.0
  {
    WithoutFewer(t, Stale(cfg, t, now));
  }

  lemma RoomSane(cfg: Config, t: Table, key: string, now: real, roomy: Table)
    requires Accepts(cfg) && Sane(cfg, t, now) && MadeRoom(cfg, t, key, roomy)
    ensures Sane(cfg, roomy, now) && roomy.lastSweep == t.lastSweep
    ensures key in roomy.updated || |roomy.updated| < cfg.maxIdentities
  {
  }

  lemma LevelRange(cfg: Config, t: Table, key: string, now: real)
    requires Accepts(cfg) && Sane(cfg, t, now)
    ensures 0.0 <= Level(cfg, t, key, now) <= cfg.burst as real
  {
    hide Refill;
    if key in t.updated {
      RefillLaws(cfg, 0.0, now - t.updated[key]);
    }
  }

  lemma TakeSane(cfg: Config, t: Table, key: string, now: real)
    requires Accepts(cfg) && Sane(cfg, t, now)
    requires key in t.updated || |t.updated| < cfg.maxIdentities
    ensures Sane(cfg, Take(cfg, t, key, now).1, now)
  {
    hide Level;
    LevelRange(cfg, t, key, now);
    var t' := Take(cfg, t, key, now).1;
    assert t'.updated.Keys == t.updated.Keys + {key};
    assert t'.tokens.Keys == t.tokens.Keys + {key};
  }

  /** Every access keeps the bounds, and right after it no bucket has been idle beyond one and a half lifetimes. */
  lemma ConsumedKeepsBounds(cfg: Config, t: Table, before: real, key: string, now: real, granted: bool, t': Table)
    requires Accepts(cfg) && Sane(cfg, t, before) && before <= now
    requires Consumed(cfg, t, key, now, granted, t')
    ensures Sane(cfg, t', now)
    ensures forall k :: k in t'.updated ==> now - t'.updated[k] <= 1.5 * cfg.ttl
  {
    var roomy :| MadeRoom(cfg, Swept(cfg, t, now), key, roomy) && (granted, t') == Take(cfg, roomy, key, now);
    SweptSane(cfg, t, before, now);
    RoomSane(cfg, Swept(cfg, t, now), key, now, roomy);
    TakeSane(cfg, roomy, key, now);
  }

  /**
   What one access decides and records, in full: a bucket counts unless a due sweep finds it idle for too long, a
   missing one is full, tokens flow in at the rate up to the burst, and a token is taken when there is a whole one.
   */
  lemma GrantedExactly(cfg: Config, t: Table, key: string, now: real, granted: bool, t': Table)
    requires Accepts(cfg) && Sane(cfg, t, now)
    requires Consumed(cfg, t, key, now, granted, t')
    ensures var level := Available(cfg, t, key, now);
            && (granted <==> level >= 1.0)
            && key in t'.updated && t'.updated[key] == now
            && key in t'.tokens && t'.tokens[key] == if granted then level - 1.0 else level
    ensures forall other :: other != key && other in t'.updated ==>
              && other in t.updated && t'.updated[other] == t.updated[other]
              && other in t'.tokens && t'.tokens[other] == t.tokens[other]
  {
    SaneKeys(cfg, t, now);
    hide Swept, MadeRoom, Sane, Level, Available;
    var roomy :| MadeRoom(cfg, Swept(cfg, t, now), key, roomy) && (granted, t') == Take(cfg, roomy, key, now);
    AvailableIsLevel(cfg, t, key, now, roomy);
    forall other | other in roomy.updated
      ensures other in t.updated && roomy.updated[other] == t.updated[other]
      ensures other in roomy.tokens && roomy.tokens[other] == t.tokens[other]
    {
      RoomKeeps(cfg, t, Access(key, now, granted), roomy, other);
    }
  }

  /** Tokens at hand, counted from the table before the access. */
  function Available(cfg: Config, t: Table, key: string, now: real): real
    requires t.tokens.Keys == t.updated.Keys
  {
    var most := cfg.burst as real;
    if key !in t.updated then most
    else
      var idle := now - t.updated[key];
      var forgotten := now - t.lastSweep >= cfg.ttl / 2.0 && idle > cfg.ttl;
      var flowed := t.tokens[key] + idle * cfg.rate;
      if forgotten || flowed > most then most else flowed
  }

  lemma AvailableIsLevel(cfg: Config, t: Table, key: string, now: real, roomy: Table)
    requires Accepts(cfg) && Sane(cfg, t, now) && MadeRoom(cfg, Swept(cfg, t, now), key, roomy)
    ensures Level(cfg, roomy, key, now) == Available(cfg, t, key, now)
  {
    hide MadeRoom, Sane, Swept;
    SaneKeys(cfg, t, now);
    SweptHolds(cfg, t, key, now);
    RoomHolds(cfg, Swept(cfg, t, now), key, roomy);
    RoomKeeps(cfg, t, Access(key, now, true), roomy, key);
  }

  lemma RoomHolds(cfg: Config, t: Table, key: string, roomy: Table)
    requires MadeRoom(cfg, t, key, roomy)
    ensures key in roomy.updated ==> key in t.updated
  {
  }

  lemma SweptHolds(cfg: Config, t: Table, key: string, now: real)
    ensures key in Swept(cfg, t, now).updated <==>
            key in t.updated && !(now - t.lastSweep >= cfg.ttl / 2.0 && now - t.updated[key] > cfg.ttl)
  {
  }

  // ---- how many tokens a bucket can grant ----

  datatype Access = Access(key: string, now: real, granted: bool)

  /** A run of accesses: `tables[k]` before and `tables[k + 1]` after access `k`, at non-decreasing times. */
  ghost predicate Run(cfg: Config, tables: seq<Table>, accesses: seq<Access>) {
    && |tables| == |accesses| + 1
    && (forall k :: 0 <= k < |accesses| ==>
          var a := accesses[k]; Consumed(cfg, tables[k], a.key, a.now, a.granted, tables[k + 1]))
    && (forall i, j :: 0 <= i < j < |accesses| ==> accesses[i].now <= accesses[j].now)
    && (accesses != [] ==> Sane(cfg, tables[0], accesses[0].now))
  }

  function Grants(accesses: seq<Access>, key: string): nat {
    if accesses == [] then 0
    else
      var last := accesses[|accesses| - 1];
      Grants(accesses[..|accesses| - 1], key) + if last.granted && last.key == key then 1 else 0
  }

  /** The access neither sweeps nor evicts the bucket. */
  ghost predicate Survives(cfg: Config, t: Table, now: real, t': Table, key: string) {
    key in t.updated ==> key in Swept(cfg, t, now).updated && key in t'.updated
  }

  lemma RunSane(cfg: Config, tables: seq<Table>, accesses: seq<Access>)
    requires Accepts(cfg) && Run(cfg, tables, accesses) && accesses != []
    ensures Sane(cfg, tables[|accesses|], accesses[|accesses| - 1].now)
  {
    var n := |accesses| - 1;
    if n > 0 {
      assert Run(cfg, tables[..n + 1], accesses[..n]);
      RunSane(cfg, tables[..n + 1], accesses[..n]);
      assert accesses[n - 1].now <= accesses[n].now;
      ConsumedKeepsBounds(cfg, tables[n], accesses[n - 1].now, accesses[n].key, accesses[n].now, accesses[n].granted,
                          tables[n + 1]);
    } else {
      var a := accesses[0];
      ConsumedKeepsBounds(cfg, tables[0], a.now, a.key, a.now, a.granted, tables[1]);
    }
  }

  /** A surviving bucket pays for every grant out of its level. */
  lemma AccessPays(cfg: Config, t: Table, a: Access, t': Table, key: string)
    requires Accepts(cfg) && Sane(cfg, t, a.now) && Consumed(cfg, t, a.key, a.now, a.granted, t')
    requires Survives(cfg, t, a.now, t', key)
    ensures Level(cfg, t', key, a.now) + (if a.granted && a.key == key then 1.0 else 0.0) <= Level(cfg, t, key, a.now)
  {
    hide Refill;
    var roomy :| MadeRoom(cfg, Swept(cfg, t, a.now), a.key, roomy) && (a.granted, t') == Take(cfg, roomy, a.key, a.now);
    RoomKeeps(cfg, t, a, roomy, key);
    LevelRange(cfg, t, key, a.now);
    RefillLaws(cfg, 0.0, 0.0);
  }

  lemma RoomKeeps(cfg: Config, t: Table, a: Access, roomy: Table, key: string)
    requires Accepts(cfg) && Sane(cfg, t, a.now) && MadeRoom(cfg, Swept(cfg, t, a.now), a.key, roomy)
    ensures key in roomy.updated ==>
              && key in t.updated && key in roomy.tokens
              && roomy.updated[key] == t.updated[key] && roomy.tokens[key] == t.tokens[key]
    ensures key == a.key && key in Swept(cfg, t, a.now).updated ==> key in roomy.updated
  {
  }

  lemma LevelRises(cfg: Config, t: Table, key: string, early: real, late: real)
    requires Accepts(cfg) && Sane(cfg, t, early) && early <= late
    ensures Level(cfg, t, key, late) <= Level(cfg, t, key, early) + Refill(cfg, late - early)
  {
    hide Refill;
    RefillLaws(cfg, 0.0, late - early);
    if key in t.updated {
      RefillLaws(cfg, early - t.updated[key], late - early);
      assert (early - t.updated[key]) + (late - early) == late - t.updated[key];
    }
  }

  /** Over any window in which the bucket is not removed, it grants at most its burst plus the refill. */
  lemma GrantsBounded(cfg: Config, tables: seq<Table>, accesses: seq<Access>, key: string)
    requires Accepts(cfg) && Run(cfg, tables, accesses) && accesses != []
    requires forall k :: 0 <= k < |accesses| ==> Survives(cfg, tables[k], accesses[k].now, tables[k + 1], key)
    ensures var start, end := accesses[0].now, accesses[|accesses| - 1].now;
            Grants(accesses, key) as real <= cfg.burst as real + Refill(cfg, end - start)
  {
    hide Consumed, Survives, Sane, Level, Refill;
    RunStartsSane(cfg, tables, accesses);
    GrantsPaid(cfg, tables, accesses, key);
    RunSane(cfg, tables, accesses);
    LevelRange(cfg, tables[|accesses|], key, accesses[|accesses| - 1].now);
    LevelRange(cfg, tables[0], key, accesses[0].now);
  }

  lemma {:induction false} GrantsPaid(cfg: Config, tables: seq<Table>, accesses: seq<Access>, key: string)
    requires Accepts(cfg) && Run(cfg, tables, accesses) && accesses != []
    requires forall k :: 0 <= k < |accesses| ==> Survives(cfg, tables[k], accesses[k].now, tables[k + 1], key)
    ensures var start, end := accesses[0].now, accesses[|accesses| - 1].now;
            Grants(accesses, key) as real + Level(cfg, tables[|accesses|], key, end)
            <= Level(cfg, tables[0], key, start) + Refill(cfg, end - start)
  {
    hide Consumed, Survives, Sane, Level, Refill;
    RefillLaws(cfg, 0.0, 0.0);
    var n := |accesses| - 1;
    var last := accesses[n];
    if n == 0 {
      AccessPays(cfg, tables[0], last, tables[1], key);
      assert Grants(accesses[..0], key) == 0;
    } else {
      var early, before := accesses[..n], tables[..n + 1];
      assert Run(cfg, before, early);
      GrantsPaid(cfg, before, early, key);
      RunSane(cfg, before, early);
      var start, mid := accesses[0].now, accesses[n - 1].now;
      SaneLater(cfg, tables[n], mid, last.now);
      LevelRises(cfg, tables[n], key, mid, last.now);
      AccessPays(cfg, tables[n], last, tables[n + 1], key);
      RefillLaws(cfg, mid - start, last.now - mid);
      assert (mid - start) + (last.now - mid) == last.now - start;
    }
  }

  lemma RunStartsSane(cfg: Config, tables: seq<Table>, accesses: seq<Access>)
    requires Run(cfg, tables, accesses) && accesses != []
    ensures Sane(cfg, tables[0], accesses[0].now)
  {
  }

  lemma SaneLater(cfg: Config, t: Table, early: real, late: real)
    requires Sane(cfg, t, early) && early <= late
    ensures Sane(cfg, t, late)
  {
  }

  // ---- admission ----

  datatype Scope = Client | Conversation

  datatype Decision =
    | Allowed
    | Refused(scope: Scope, retryAfter: int)

  datatype Request = Request(client: string, conversation: Option<string>, now: real)

  function Normalize(cfg: Config, key: string): string {
    if |key| <= cfg.maxKeyChars then key else key[..cfg.maxKeyChars]
  }

  function ClientKey(cfg: Config, r: Request): string { "c\0" + Normalize(cfg, r.client) }

  predicate HasConversation(r: Request) { r.conversation.Some? && r.conversation.value != "" }

  function ConversationKey(cfg: Config, r: Request): string
    requires HasConversation(r)
  {
    "v\0" + Normalize(cfg, r.conversation.value)
  }

  predicate SameStart(a: string, b: string, n: nat) {
    a == b || (|a| >= n && |b| >= n && forall k :: 0 <= k < n ==> a[k] == b[k])
  }

  /** Keys are short, and shared exactly when names agree up to the limit; clients and conversations never share. */
  lemma KeysShared(cfg: Config, r: Request, s: Request)
    ensures |ClientKey(cfg, r)| <= cfg.maxKeyChars + 2
    ensures ClientKey(cfg, r) == ClientKey(cfg, s) <==> SameStart(r.client, s.client, cfg.maxKeyChars)
    ensures HasConversation(s) ==> |ConversationKey(cfg, s)| <= cfg.maxKeyChars + 2
    ensures HasConversation(s) ==> ClientKey(cfg, r) != ConversationKey(cfg, s)
    ensures HasConversation(r) && HasConversation(s) ==>
              (ConversationKey(cfg, r) == ConversationKey(cfg, s) <==>
               SameStart(r.conversation.value, s.conversation.value, cfg.maxKeyChars))
  {
    hide Normalize, SameStart;
    var a, b := ClientKey(cfg, r), ClientKey(cfg, s);
    NamesShared(cfg, r.client, s.client);
    assert a[2..] == Normalize(cfg, r.client) && b[2..] == Normalize(cfg, s.client) && a[0] == 'c';
    if HasConversation(s) {
      var d := ConversationKey(cfg, s);
      NamesShared(cfg, s.conversation.value, s.conversation.value);
      assert d[2..] == Normalize(cfg, s.conversation.value) && d[0] == 'v';
      if HasConversation(r) {
        NamesShared(cfg, r.conversation.value, s.conversation.value);
        assert ConversationKey(cfg, r)[2..] == Normalize(cfg, r.conversation.value);
      }
    }
  }

  lemma NamesShared(cfg: Config, a: string, b: string)
    ensures |Normalize(cfg, a)| <= cfg.maxKeyChars
    ensures Normalize(cfg, a) == Normalize(cfg, b) <==> SameStart(a, b, cfg.maxKeyChars)
  {
    var n := cfg.maxKeyChars;
    if |a| >= n && |b| >= n {
      assert Normalize(cfg, a) == a[..n] && Normalize(cfg, b) == b[..n];
      assert a[..n] == b[..n] <==> forall k :: 0 <= k < n ==> a[k] == b[k];
    }
  }

  /** Whole seconds until the bucket holds a token again, at least one. */
  function SecondsUntilToken(cfg: Config, t: Table, key: string): int
    requires cfg.rate > 0.0
  {
    var tokens := if key in t.tokens then t.tokens[key] else cfg.burst as real;
    var deficit := 1.0 - tokens;
    if deficit <= 0.0 then 1
    else
      var seconds := (deficit / cfg.rate).Floor + 1;
      if seconds < 1 then 1 else seconds
  }

  /** Waiting the advised time is enough for a token; one second less reaches one token at most. */
  lemma RetryAfterSuffices(cfg: Config, t: Table, key: string)
    requires Accepts(cfg)
    ensures SecondsUntilToken(cfg, t, key) >= 1
    ensures if key in t.tokens && t.tokens[key] < 1.0 then
              var wait := SecondsUntilToken(cfg, t, key) as real;
              && t.tokens[key] + Refill(cfg, wait) >= 1.0
              && t.tokens[key] + Refill(cfg, wait - 1.0) <= 1.0
            else SecondsUntilToken(cfg, t, key) == 1
  {
    if key in t.tokens && t.tokens[key] < 1.0 {
      WaitSuffices(cfg, t, key);
    }
  }

  lemma WaitSuffices(cfg: Config, t: Table, key: string)
    requires Accepts(cfg) && key in t.tokens && t.tokens[key] < 1.0
    ensures var wait := SecondsUntilToken(cfg, t, key) as real;
            && wait >= 1.0
            && t.tokens[key] + Refill(cfg, wait) >= 1.0
            && t.tokens[key] + Refill(cfg, wait - 1.0) <= 1.0
  {
    var exact := (1.0 - t.tokens[key]) / cfg.rate;
    assert exact * cfg.rate == 1.0 - t.tokens[key];
    var wait := SecondsUntilToken(cfg, t, key);
    assert exact >= 0.0 && wait == exact.Floor + 1;
    RefillLaws(cfg, exact, wait as real);
    RefillLaws(cfg, (wait - 1) as real, exact);
  }

  /** An access while the table has room; `sweeps` says whether idle buckets expire. */
  function Consume(cfg: Config, sweeps: bool, t: Table, key: string, now: real): (bool, Table) {
    Take(cfg, if sweeps then Swept(cfg, t, now) else t, key, now)
  }

  /** Both buckets must grant; a refused request still pays for the bucket that granted. */
  function Admit(cfg: Config, sweeps: bool, t: Table, r: Request): (Decision, Table)
    requires cfg.rate > 0.0
  {
    var (clientOk, t1) := Consume(cfg, sweeps, t, ClientKey(cfg, r), r.now);
    if !clientOk then (Refused(Client, SecondsUntilToken(cfg, t1, ClientKey(cfg, r))), t1)
    else if !HasConversation(r) then (Allowed, t1)
    else
      var (conversationOk, t2) := Consume(cfg, sweeps, t1, ConversationKey(cfg, r), r.now);
      if conversationOk then (Allowed, t2)
      else (Refused(Conversation, SecondsUntilToken(cfg, t2, ConversationKey(cfg, r))), t2)
  }

  function Decisions(cfg: Config, sweeps: bool, t: Table, requests: seq<Request>): seq<Decision>
    requires cfg.rate > 0.0
    decreases |requests|
  {
    if requests == [] then []
    else
      var (decision, t') := Admit(cfg, sweeps, t, requests[0]);
      [decision] + Decisions(cfg, sweeps, t', requests[1..])
  }

  /** Clock readings do not go back. */
  predicate Timed(requests: seq<Request>, start: real) {
    && (forall k :: 0 <= k < |requests| ==> start <= requests[k].now)
    && forall i, j :: 0 <= i < j < |requests| ==> requests[i].now <= requests[j].now
  }

  /** Without an eviction, a locked access is the deterministic one. */
  lemma RoomyAccess(cfg: Config, t: Table, key: string, now: real, granted: bool, t': Table)
    requires Consumed(cfg, t, key, now, granted, t')
    requires key in Swept(cfg, t, now).updated || |Swept(cfg, t, now).updated| < cfg.maxIdentities
    ensures (granted, t') == Consume(cfg, true, t, key, now)
  {
  }

  // ---- when the sweep is invisible ----

  predicate SameKeys(t: Table) { t.tokens.Keys == t.updated.Keys }

  /** The sweeping table agrees with the other one, except for buckets idle for a whole lifetime. */
  ghost predicate Simulates(cfg: Config, swept: Table, full: Table, now: real) {
    && SameKeys(swept) && SameKeys(full)
    && (forall key :: key in swept.updated ==>
          key in full.updated && full.updated[key] == swept.updated[key] && full.tokens[key] == swept.tokens[key])
    && (forall key :: key in full.updated ==> full.updated[key] <= now && full.tokens[key] >= 0.0)
    && (forall key :: key in full.updated && key !in swept.updated ==> now - full.updated[key] >= cfg.ttl)
  }

  lemma SimulatesLater(cfg: Config, swept: Table, full: Table, early: real, late: real)
    requires Simulates(cfg, swept, full, early) && early <= late
    ensures Simulates(cfg, swept, full, late)
    ensures Simulates(cfg, Swept(cfg, swept, late), full, late)
  {
  }

  /** A bucket idle for a lifetime is full again, which is what a forgotten bucket counts as. */
  lemma SameLevel(cfg: Config, swept: Table, full: Table, key: string, now: real)
    requires Accepts(cfg) && Refill(cfg, cfg.ttl) >= cfg.burst as real && Simulates(cfg, swept, full, now)
    ensures Level(cfg, swept, key, now) == Level(cfg, full, key, now) >= 0.0
  {
    hide Refill;
    if key in full.updated {
      RefillLaws(cfg, 0.0, now - full.updated[key]);
      if key !in swept.updated {
        RefillLaws(cfg, cfg.ttl, now - full.updated[key]);
      }
    }
  }

  lemma ConsumeSimulates(cfg: Config, swept: Table, full: Table, key: string, before: real, now: real)
    requires Accepts(cfg) && Refill(cfg, cfg.ttl) >= cfg.burst as real
    requires Simulates(cfg, swept, full, before) && before <= now
    ensures var (a, swept') := Consume(cfg, true, swept, key, now);
            var (b, full') := Consume(cfg, false, full, key, now);
            a == b && Simulates(cfg, swept', full', now) && key in swept'.tokens && key in full'.tokens
            && swept'.tokens[key] == full'.tokens[key]
  {
    hide Level, Refill;
    SimulatesLater(cfg, swept, full, before, now);
    SameLevel(cfg, Swept(cfg, swept, now), full, key, now);
  }

  lemma {:induction false} SameDecisions(cfg: Config, swept: Table, full: Table, before: real, requests: seq<Request>)
    requires Accepts(cfg) && Refill(cfg, cfg.ttl) >= cfg.burst as real
    requires Simulates(cfg, swept, full, before) && Timed(requests, before)
    ensures Decisions(cfg, true, swept, requests) == Decisions(cfg, false, full, requests)
    decreases |requests|
  {
    hide Simulates, Consume, Refill;
    if requests != [] {
      var r := requests[0];
      ConsumeSimulates(cfg, swept, full, ClientKey(cfg, r), before, r.now);
      var (ok, swept1) := Consume(cfg, true, swept, ClientKey(cfg, r), r.now);
      var (_, full1) := Consume(cfg, false, full, ClientKey(cfg, r), r.now);
      if ok && HasConversation(r) {
        ConsumeSimulates(cfg, swept1, full1, ConversationKey(cfg, r), r.now, r.now);
      }
      SameDecisions(cfg, Admit(cfg, true, swept, r).1, Admit(cfg, false, full, r).1, r.now, requests[1..]);
    }
  }

  // ---- and when it is not ----

  predicate HasRoom(cfg: Config, t: Table, key: string, now: real) {
    key in Swept(cfg, t, now).updated || |Swept(cfg, t, now).updated| < cfg.maxIdentities
  }

  /** Neither access of the request finds the table full. */
  predicate RoomFor(cfg: Config, t: Table, r: Request) {
    && HasRoom(cfg, t, ClientKey(cfg, r), r.now)
    && var (ok, t1) := Consume(cfg, true, t, ClientKey(cfg, r), r.now);
       ok && HasConversation(r) ==> HasRoom(cfg, t1, ConversationKey(cfg, r), r.now)
  }

  predicate NeverFull(cfg: Config, t: Table, requests: seq<Request>)
    requires cfg.rate > 0.0
    decreases |requests|
  {
    requests == [] ||
    (RoomFor(cfg, t, requests[0]) && NeverFull(cfg, Admit(cfg, true, t, requests[0]).1, requests[1..]))
  }

  /** Expiry never changes a decision while the table has room. */
  ghost predicate SweepInvisible(cfg: Config)
    requires cfg.rate > 0.0
  {
    forall start: real, requests: seq<Request> ::
      Timed(requests, start) && NeverFull(cfg, Empty(start), requests) ==>
        Decisions(cfg, true, Empty(start), requests) == Decisions(cfg, false, Empty(start), requests)
  }

  function TableAfter(cfg: Config, sweeps: bool, t: Table, requests: seq<Request>): Table
    requires cfg.rate > 0.0
    decreases |requests|
  {
    if requests == [] then t else TableAfter(cfg, sweeps, Admit(cfg, sweeps, t, requests[0]).1, requests[1..])
  }

  lemma {:induction false} DecisionsConcat(cfg: Config, sweeps: bool, t: Table, a: seq<Request>, b: seq<Request>)
    requires cfg.rate > 0.0
    ensures Decisions(cfg, sweeps, t, a + b) ==
            Decisions(cfg, sweeps, t, a) + Decisions(cfg, sweeps, TableAfter(cfg, sweeps, t, a), b)
    ensures NeverFull(cfg, t, a + b) <==> NeverFull(cfg, t, a) && NeverFull(cfg, TableAfter(cfg, true, t, a), b)
    decreases |a|
  {
    hide Admit, RoomFor;
    if a == [] {
      assert a + b == b;
    } else {
      assert (a + b)[1..] == a[1..] + b;
      DecisionsConcat(cfg, sweeps, Admit(cfg, sweeps, t, a[0]).1, a[1..], b);
      DecisionsConcat(cfg, true, Admit(cfg, true, t, a[0]).1, a[1..], b);
    }
  }

  /** `n` requests of one client at one moment. */
  function Burst(n: nat, now: real): seq<Request> {
    if n == 0 then [] else [Request("", None, now)] + Burst(n - 1, now)
  }

  const BURST_KEY: string := "c\0"

  function One(tokens: real, at: real, lastSweep: real): Table {
    Table(map[BURST_KEY := tokens], map[BURST_KEY := at], lastSweep)
  }

  lemma BurstHead(n: nat, now: real)
    requires n > 0
    ensures Burst(n, now) != [] && Burst(n, now)[0] == Request("", None, now) && Burst(n, now)[1..] == Burst(n - 1, now)
  {
  }

  /** One request on the single bucket, with `level` tokens available to it. */
  lemma AdmitOne(cfg: Config, sweeps: bool, t: Table, now: real, level: real)
    requires Accepts(cfg)
    requires var base := if sweeps then Swept(cfg, t, now) else t;
             && base.updated.Keys <= {BURST_KEY} && SameKeys(base)
             && Level(cfg, base, BURST_KEY, now) == level
    ensures var (d, t') := Admit(cfg, sweeps, t, Request("", None, now));
            var base := if sweeps then Swept(cfg, t, now) else t;
            && t' == One(if level >= 1.0 then level - 1.0 else level, now, base.lastSweep)
            && (d.Allowed? <==> level >= 1.0)
  {
    var r := Request("", None, now);
    assert ClientKey(cfg, r) == BURST_KEY;
    var base := if sweeps then Swept(cfg, t, now) else t;
    var t' := Take(cfg, base, BURST_KEY, now).1;
    assert t'.tokens == map[BURST_KEY := t'.tokens[BURST_KEY]];
    assert t'.updated == map[BURST_KEY := now];
  }

  /** A bucket with enough tokens grants a whole burst at one moment. */
  lemma {:induction false} Drain(cfg: Config, sweeps: bool, x: real, now: real, lastSweep: real, n: nat)
    requires Accepts(cfg) && n as real <= x <= cfg.burst as real && now - lastSweep < cfg.ttl / 2.0
    ensures TableAfter(cfg, sweeps, One(x, now, lastSweep), Burst(n, now)) == One(x - n as real, now, lastSweep)
    ensures var ds := Decisions(cfg, sweeps, One(x, now, lastSweep), Burst(n, now));
            |ds| == n && forall k :: 0 <= k < n ==> ds[k].Allowed?
    decreases n
  {
    if n > 0 {
      hide Admit;
      BurstHead(n, now);
      var t := One(x, now, lastSweep);
      RefillLaws(cfg, 0.0, 0.0);
      AdmitOne(cfg, sweeps, t, now, x);
      Drain(cfg, sweeps, x - 1.0, now, lastSweep, n - 1);
    }
  }

  /** A bucket with fewer tokens than requests refuses the last of them. */
  lemma {:induction false} Starve(cfg: Config, x: real, now: real, lastSweep: real, n: nat)
    requires Accepts(cfg) && 0.0 <= x < n as real && x <= cfg.burst as real
    ensures var ds := Decisions(cfg, false, One(x, now, lastSweep), Burst(n, now));
            |ds| == n && n > 0 && ds[n - 1].Refused?
    decreases n
  {
    hide Admit;
    BurstHead(n, now);
    RefillLaws(cfg, 0.0, 0.0);
    AdmitOne(cfg, false, One(x, now, lastSweep), now, x);
    if n > 1 {
      Starve(cfg, if x >= 1.0 then x - 1.0 else x, now, lastSweep, n - 1);
    } else {
      assert Burst(0, now) == [];
    }
  }

  lemma FirstBurst(cfg: Config, sweeps: bool)
    requires Accepts(cfg)
    ensures TableAfter(cfg, sweeps, Empty(0.0), Burst(cfg.burst, 0.0)) == One(0.0, 0.0, 0.0)
  {
    hide Admit;
    BurstHead(cfg.burst, 0.0);
    AdmitOne(cfg, sweeps, Empty(0.0), 0.0, cfg.burst as real);
    Drain(cfg, sweeps, cfg.burst as real - 1.0, 0.0, 0.0, cfg.burst - 1);
  }

  /** After more than a lifetime the sweeping limiter has forgotten the drained bucket. */
  lemma LateForgotten(cfg: Config, late: real)
    requires Accepts(cfg) && late > cfg.ttl
    ensures var ds := Decisions(cfg, true, One(0.0, 0.0, 0.0), Burst(cfg.burst, late));
            |ds| == cfg.burst && ds[cfg.burst - 1].Allowed?
  {
    hide Admit;
    BurstHead(cfg.burst, late);
    assert Stale(cfg, One(0.0, 0.0, 0.0), late) == {BURST_KEY};
    AdmitOne(cfg, true, One(0.0, 0.0, 0.0), late, cfg.burst as real);
    Drain(cfg, true, cfg.burst as real - 1.0, late, late, cfg.burst - 1);
  }

  /** While the drained bucket has not refilled, the other limiter refuses the end of a second burst. */
  lemma LateRefused(cfg: Config, late: real)
    requires Accepts(cfg) && late > 0.0 && Refill(cfg, late) < cfg.burst as real
    ensures var ds := Decisions(cfg, false, One(0.0, 0.0, 0.0), Burst(cfg.burst, late));
            |ds| == cfg.burst && ds[cfg.burst - 1].Refused?
  {
    hide Admit, Refill;
    BurstHead(cfg.burst, late);
    RefillLaws(cfg, 0.0, late);
    var y := Refill(cfg, late);
    assert late - 0.0 == late && 0.0 + y == y;
    AdmitOne(cfg, false, One(0.0, 0.0, 0.0), late, y);
    if cfg.burst > 1 {
      Starve(cfg, if y >= 1.0 then y - 1.0 else y, late, 0.0, cfg.burst - 1);
    }
  }

  lemma RequestHasRoom(cfg: Config, t: Table, now: real)
    requires Accepts(cfg) && t.updated.Keys <= {BURST_KEY} && SameKeys(t)
    ensures RoomFor(cfg, t, Request("", None, now))
    ensures var t' := Admit(cfg, true, t, Request("", None, now)).1; t'.updated.Keys <= {BURST_KEY} && SameKeys(t')
  {
    var r, base := Request("", None, now), Swept(cfg, t, now);
    assert ClientKey(cfg, r) == BURST_KEY;
    assert base.updated.Keys <= {BURST_KEY} && SameKeys(base);
    if BURST_KEY !in base.updated {
      assert base.updated.Keys == {};
    }
    hide Swept, Level, Admit;
    AdmitOne(cfg, true, t, now, Level(cfg, base, BURST_KEY, now));
  }

  /** One client alone never fills the table. */
  lemma {:induction false} BurstHasRoom(cfg: Config, t: Table, n: nat, now: real)
    requires Accepts(cfg) && t.updated.Keys <= {BURST_KEY} && SameKeys(t)
    ensures NeverFull(cfg, t, Burst(n, now))
    decreases n
  {
    if n > 0 {
      BurstHead(n, now);
      RequestHasRoom(cfg, t, now);
      hide Admit, RoomFor;
      BurstHasRoom(cfg, Admit(cfg, true, t, Request("", None, now)).1, n - 1, now);
    }
  }

  lemma {:induction false} BurstTimed(n: nat, now: real)
    ensures |Burst(n, now)| == n && forall k :: 0 <= k < n ==> Burst(n, now)[k].now == now
  {
    if n > 0 { BurstTimed(n - 1, now); }
  }

  /** A moment after the lifetime and before a drained bucket is full again. */
  lemma Moment(cfg: Config) returns (late: real)
    requires Accepts(cfg) && Refill(cfg, cfg.ttl) < cfg.burst as real
    ensures late > cfg.ttl && Refill(cfg, late) < cfg.burst as real
  {
    var full := cfg.burst as real / cfg.rate;
    assert Refill(cfg, full) == cfg.burst as real;
    if full <= cfg.ttl { RefillLaws(cfg, full, cfg.ttl); }
    late := (cfg.ttl + full) / 2.0;
    RefillGap(cfg, late, full);
  }

  lemma RefillGap(cfg: Config, a: real, b: real)
    requires Accepts(cfg) && a < b
    ensures Refill(cfg, a) < Refill(cfg, b)
  {
    assert (b - a) * cfg.rate > 0.0;
  }

  lemma SweepShows(cfg: Config)
    requires Accepts(cfg) && Refill(cfg, cfg.ttl) < cfg.burst as real
    ensures !SweepInvisible(cfg)
  {
    hide Admit, Refill, Level, Decisions, NeverFull, TableAfter, Burst;
    var late := Moment(cfg);
    var a, b := Burst(cfg.burst, 0.0), Burst(cfg.burst, late);
    FirstBurst(cfg, true);
    FirstBurst(cfg, false);
    DecisionsConcat(cfg, true, Empty(0.0), a, b);
    DecisionsConcat(cfg, false, Empty(0.0), a, b);
    LateForgotten(cfg, late);
    LateRefused(cfg, late);
    BurstHasRoom(cfg, Empty(0.0), cfg.burst, 0.0);
    BurstHasRoom(cfg, One(0.0, 0.0, 0.0), cfg.burst, late);
    BurstTimed(cfg.burst, 0.0);
    BurstTimed(cfg.burst, late);
    assert Timed(a + b, 0.0);
    DecisionCount(cfg, true, Empty(0.0), a);
    DecisionCount(cfg, false, Empty(0.0), a);
    var last := 2 * cfg.burst - 1;
    assert Decisions(cfg, true, Empty(0.0), a + b)[last].Allowed?;
    assert Decisions(cfg, false, Empty(0.0), a + b)[last].Refused?;
  }

  lemma {:induction false} DecisionCount(cfg: Config, sweeps: bool, t: Table, requests: seq<Request>)
    requires cfg.rate > 0.0
    ensures |Decisions(cfg, sweeps, t, requests)| == |requests|
    decreases |requests|
  {
    hide Admit;
    if requests != [] {
      DecisionCount(cfg, sweeps, Admit(cfg, sweeps, t, requests[0]).1, requests[1..]);
    }
  }

  /** The sweep is invisible to every client exactly when a bucket refills completely within its lifetime. */
  lemma SweepInvisibleExactly(cfg: Config)
    requires Accepts(cfg)
    ensures SweepInvisible(cfg) <==> cfg.ttl * cfg.rate >= cfg.burst as real
  {
    assert Refill(cfg, cfg.ttl) == cfg.ttl * cfg.rate;
    hide Refill, Decisions, NeverFull;
    if Refill(cfg, cfg.ttl) >= cfg.burst as real {
      forall start: real, requests: seq<Request> | Timed(requests, start)
        ensures Decisions(cfg, true, Empty(start), requests) == Decisions(cfg, false, Empty(start), requests)
      {
        SameDecisions(cfg, Empty(start), Empty(start), start, requests);
      }
    } else {
      SweepShows(cfg);
    }
  }

  // ---- the limiter object ----

  ghost predicate IsColdest(updated: map<string, real>, key: string) {
    key in updated && forall k :: k in updated ==> updated[key] <= updated[k]
  }

  lemma {:induction false} ColdestExists(updated: map<string, real>)
    requires updated != map[]
    ensures exists key :: IsColdest(updated, key)
    decreases |updated|
  {
    var key :| key in updated;
    var rest := updated - {key};
    assert forall k :: k in updated ==> k == key || (k in rest && rest[k] == updated[k]);
    if rest == map[] {
      assert IsColdest(updated, key);
    } else {
      RemoveOne(updated, key);
      ColdestExists(rest);
      var cold :| IsColdest(rest, cold);
      if updated[key] <= updated[cold] {
        assert IsColdest(updated, key);
      } else {
        assert IsColdest(updated, cold);
      }
    }
  }

  /** Eviction in progress: the victims so far are all at least as cold as what is left. */
  ghost predicate Evicting(cfg: Config, t: Table, victims: set<string>, left: Table) {
    && victims <= t.updated.Keys && left == Without(t, victims)
    && (forall v, k :: v in victims && k in left.updated ==> t.updated[v] <= t.updated[k])
    && (victims != {} ==> |left.updated| >= cfg.maxIdentities - 1)
  }

  lemma EvictOne(cfg: Config, t: Table, victims: set<string>, left: Table, coldest: string)
    requires SameKeys(t) && Evicting(cfg, t, victims, left)
    requires IsColdest(left.updated, coldest) && |left.updated| >= cfg.maxIdentities
    ensures Evicting(cfg, t, victims + {coldest}, Without(left, {coldest}))
    ensures |Without(left, {coldest}).updated| == |left.updated| - 1
  {
    RemoveOne(left.updated, coldest);
    WithoutTwice(t, victims, {coldest});
    WithoutValues(t, victims);
    WithoutValues(left, {coldest});
    WithoutIs(left, {coldest});
    hide Without;
    var rest := Without(left, {coldest});
    forall v, k | v in victims + {coldest} && k in rest.updated ensures t.updated[v] <= t.updated[k] {
      assert k in left.updated && left.updated[k] == t.updated[k];
    }
  }

  lemma WithoutTwice(t: Table, a: set<string>, b: set<string>)
    ensures Without(Without(t, a), b) == Without(t, a + b)
  {
    assert t.tokens - a - b == t.tokens - (a + b);
    assert t.updated - a - b == t.updated - (a + b);
  }

  lemma WithoutValues(t: Table, keys: set<string>)
    ensures Without(t, keys).updated.Keys == t.updated.Keys - keys
    ensures forall k :: k in Without(t, keys).updated ==> k in t.updated && Without(t, keys).updated[k] == t.updated[k]
  {
  }

  lemma WithoutNone(t: Table)
    ensures Without(t, {}) == t
  {
    assert t.tokens - {} == t.tokens && t.updated - {} == t.updated;
  }

  lemma NothingEvicted(cfg: Config, t: Table)
    ensures Evicting(cfg, t, {}, t)
  {
    WithoutNone(t);
  }

  lemma EvictionDone(cfg: Config, t: Table, key: string, victims: set<string>, left: Table)
    requires key !in t.updated && cfg.maxIdentities >= 1
    requires Evicting(cfg, t, victims, left) && |left.updated| < cfg.maxIdentities
    ensures MadeRoom(cfg, t, key, left)
  {
    WithoutValues(t, victims);
    WithoutNone(t);
    hide Without;
    assert t.updated.Keys - left.updated.Keys == victims;
    if victims != {} {
      SmallerTable(t.updated, left.updated, victims);
    }
  }

  lemma SmallerTable(all: map<string, real>, left: map<string, real>, victims: set<string>)
    requires victims <= all.Keys && left.Keys == all.Keys - victims && victims != {}
    ensures |left| < |all|
  {
    assert all.Keys == left.Keys + victims && left.Keys !! victims;
    assert |all.Keys| == |left.Keys| + |victims|;
    assert |all| == |all.Keys| && |left| == |left.Keys|;
  }

  /** What one admission did to the table: one access, or two at the same moment. */
  ghost predicate Admitted(cfg: Config, t: Table, r: Request, d: Decision, t': Table)
    requires cfg.rate > 0.0
  {
    if d.Refused? && d.scope.Client? then
      && Consumed(cfg, t, ClientKey(cfg, r), r.now, false, t')
      && d.retryAfter == SecondsUntilToken(cfg, t', ClientKey(cfg, r))
    else if !HasConversation(r) then d.Allowed? && Consumed(cfg, t, ClientKey(cfg, r), r.now, true, t')
    else
      && (d.Refused? ==> d.retryAfter == SecondsUntilToken(cfg, t', ConversationKey(cfg, r)))
      && exists mid ::
           && Consumed(cfg, t, ClientKey(cfg, r), r.now, true, mid)
           && Consumed(cfg, mid, ConversationKey(cfg, r), r.now, d.Allowed?, t')
  }

  /** The buckets of a request, spelled out: an absent or empty conversation has none. */
  predicate NamesConversation(r: Request, conversation: string) {
    r.conversation == Some(conversation) && conversation != ""
  }

  /** The bucket was charged at this moment. */
  predicate Charged(t: Table, key: string, now: real) { key in t.updated && t.updated[key] == now && key in t.tokens }

  /**
   Who is charged and who is refused: the client always and first; the conversation, when one is named, exactly
   when the client was not refused; nobody else. Whoever is refused holds less than a token.
   */
  lemma AdmissionExactly(cfg: Config, t: Table, r: Request, d: Decision, t': Table)
    requires Accepts(cfg) && Sane(cfg, t, r.now) && Admitted(cfg, t, r, d, t')
    ensures d.Refused? && d.scope == Client <==> Available(cfg, t, ClientKey(cfg, r), r.now) < 1.0
    ensures d.Refused? && d.scope == Client ==>
              Charged(t', ClientKey(cfg, r), r.now) && t'.tokens[ClientKey(cfg, r)] < 1.0
    ensures d.Refused? && d.scope == Conversation ==> r.conversation.Some? && r.conversation.value != ""
    ensures forall v :: NamesConversation(r, v) && !(d.Refused? && d.scope == Client) ==>
              var key := "v\0" + Normalize(cfg, v);
              Charged(t', key, r.now) && (d.Refused? ==> t'.tokens[key] < 1.0)
    ensures forall key :: key in t'.updated && key != ClientKey(cfg, r) ==>
              (key in t.updated && t'.updated[key] == t.updated[key]) ||
              exists v :: NamesConversation(r, v) && key == "v\0" + Normalize(cfg, v)
  {
    hide Consumed, Sane, Available, Normalize;
    var client := ClientKey(cfg, r);
    if d.Refused? && d.scope == Client {
      GrantedExactly(cfg, t, client, r.now, false, t');
    } else if !HasConversation(r) {
      GrantedExactly(cfg, t, client, r.now, true, t');
    } else {
      var mid :| Consumed(cfg, t, client, r.now, true, mid) &&
                 Consumed(cfg, mid, ConversationKey(cfg, r), r.now, d.Allowed?, t');
      GrantedExactly(cfg, t, client, r.now, true, mid);
      ConsumedKeepsBounds(cfg, t, r.now, client, r.now, true, mid);
      GrantedExactly(cfg, mid, ConversationKey(cfg, r), r.now, d.Allowed?, t');
      assert NamesConversation(r, r.conversation.value);
    }
  }

  class Limiter {
    const cfg: Config
    var tokens: map<string, real>
    var updated: map<string, real>
    var lastSweep: real
    ghost var clock: real

    ghost function State(): Table
      reads this
    {
      Table(tokens, updated, lastSweep)
    }

    ghost predicate Valid()
      reads this
    {
      Accepts(cfg) && Sane(cfg, State(), clock)
    }

    constructor (cfg: Config, now: real)
      requires Accepts(cfg)
      ensures Valid() && this.cfg == cfg && State() == Empty(now) && clock == now
    {
      this.cfg := cfg;
      tokens, updated, lastSweep, clock := map[], map[], now, now;
    }

    method ExpireStale(now: real)
      modifies this`tokens, this`updated
      ensures State() == Without(old(State()), Stale(cfg, old(State()), now))
    {
      var stale := set key | key in updated && now - updated[key] > cfg.ttl;
      var pending := stale;
      WithoutNone(State());
      assert stale - stale == {};
      hide Without;
      while pending != {}
        invariant pending <= stale
        invariant State() == Without(old(State()), stale - pending)
        decreases |pending|
      {
        var key :| key in pending;
        WithoutIs(State(), {key});
        WithoutTwice(old(State()), stale - pending, {key});
        assert (stale - pending) + {key} == stale - (pending - {key});
        tokens, updated := tokens - {key}, updated - {key};
        pending := pending - {key};
      }
      assert stale - {} == stale;
    }

    method MakeRoom(key: string)
      requires Valid() && key !in updated
      modifies this`tokens, this`updated
      ensures MadeRoom(cfg, old(State()), key, State()) && Valid()
      ensures lastSweep == old(lastSweep)
    {
      ghost var victims: set<string> := {};
      NothingEvicted(cfg, State());
      hide Evicting, Without, Sane, MadeRoom;
      SaneKeys(cfg, State(), clock);
      SameSize(tokens, updated);
      while |tokens| >= cfg.maxIdentities
        invariant Evicting(cfg, old(State()), victims, State())
        invariant tokens.Keys == updated.Keys && |tokens| == |updated|
        decreases |tokens|
      {
        ColdestExists(updated);
        var coldest :| coldest in updated && forall k :: k in updated ==> updated[coldest] <= updated[k];
        EvictOne(cfg, old(State()), victims, State(), coldest);
        WithoutIs(State(), {coldest});
        tokens, updated := tokens - {coldest}, updated - {coldest};
        SameSize(tokens, updated);
        victims := victims + {coldest};
      }
      EvictionDone(cfg, old(State()), key, victims, State());
      RoomSane(cfg, old(State()), key, clock, State());
    }

    method ConsumeToken(key: string, now: real) returns (granted: bool)
      requires Valid() && clock <= now
      modifies this
      ensures Valid() && clock == now
      ensures Consumed(cfg, old(State()), key, now, granted, State())
    {
      hide Sane, MadeRoom;
      ghost var swept := Swept(cfg, State(), now);
      SweptSane(cfg, State(), clock, now);
      if now - lastSweep >= cfg.ttl / 2.0 {
        ExpireStale(now);
        lastSweep := now;
      }
      clock := now;
      assert State() == swept;
      if key !in updated {
        MakeRoom(key);
      } else {
        NoRoomNeeded(cfg, swept, key);
      }
      ghost var roomy := State();
      RoomSane(cfg, swept, key, now, roomy);
      TakeSane(cfg, roomy, key, now);
      SaneKeys(cfg, roomy, now);
      granted := TakeToken(key, now);
      assert MadeRoom(cfg, swept, key, roomy) && (granted, State()) == Take(cfg, roomy, key, now);
    }

    method TakeToken(key: string, now: real) returns (granted: bool)
      requires tokens.Keys == updated.Keys
      modifies this`tokens, this`updated
      ensures (granted, State()) == Take(cfg, old(State()), key, now)
    {
      var level := if key in updated then Least(cfg.burst as real, tokens[key] + Refill(cfg, now - updated[key]))
                   else cfg.burst as real;
      updated := updated[key := now];
      granted := level >= 1.0;
      tokens := tokens[key := if granted then level - 1.0 else level];
    }

    /** Admission of one request; `r.now` is the clock reading. */
    method AdmitRequest(r: Request) returns (d: Decision)
      requires Valid() && clock <= r.now
      modifies this
      ensures Valid() && clock == r.now
      ensures Admitted(cfg, old(State()), r, d, State())
    {
      hide Consumed, Sane;
      var ok := ConsumeToken(ClientKey(cfg, r), r.now);
      if !ok {
        return Refused(Client, SecondsUntilToken(cfg, Table(tokens, updated, lastSweep), ClientKey(cfg, r)));
      }
      if HasConversation(r) {
        ghost var mid := State();
        ok := ConsumeToken(ConversationKey(cfg, r), r.now);
        if !ok {
          var t := Table(tokens, updated, lastSweep);
          return Refused(Conversation, SecondsUntilToken(cfg, t, ConversationKey(cfg, r)));
        }
      }
      return Allowed;
    }
  }

  /** Settings out of range are rejected; null stands for the raised error. */
  method NewLimiter(cfg: Config, now: real) returns (limiter: Limiter?)
    ensures limiter == null <==> !Accepts(cfg)
    ensures limiter != null ==> fresh(limiter) && limiter.Valid() && limiter.cfg == cfg && limiter.State() == Empty(now)
  {
    if cfg.rate <= 0.0 || cfg.burst == 0 || cfg.maxIdentities < 1 || cfg.ttl <= 0.0 || cfg.maxKeyChars < 1 {
      return null;
    }
    limiter := new Limiter(cfg, now);
  }

  lemma NoRoomNeeded(cfg: Config, t: Table, key: string)
    requires key in t.updated
    ensures MadeRoom(cfg, t, key, t)
  {
  }

  lemma SaneKeys(cfg: Config, t: Table, now: real)
    requires Sane(cfg, t, now)
    ensures t.tokens.Keys == t.updated.Keys
  {
  }

  lemma WithoutIs(t: Table, keys: set<string>)
    ensures Without(t, keys) == Table(t.tokens - keys, t.updated - keys, t.lastSweep)
  {
  }

  lemma SameSize(a: map<string, real>, b: map<string, real>)
    requires a.Keys == b.Keys
    ensures |a| == |b|
  {
    assert |a| == |a.Keys| && |b| == |b.Keys|;
  }

  lemma RemoveOne(m: map<string, real>, key: string)
    requires key in m
    ensures |m - {key}| == |m| - 1
  {
    assert (m - {key}).Keys == m.Keys - {key};
    assert |m - {key}| == |(m - {key}).Keys|;
  }

  /** While the table has room, admission is the deterministic function of the table and the request. */
  lemma AdmittedWithRoom(cfg: Config, t: Table, r: Request, d: Decision, t': Table)
    requires Accepts(cfg) && Admitted(cfg, t, r, d, t') && RoomFor(cfg, t, r)
    ensures (d, t') == Admit(cfg, true, t, r)
  {
    hide Consumed, Consume, HasRoom;
    forall key, now, granted, a, b | Consumed(cfg, a, key, now, granted, b) && HasRoom(cfg, a, key, now)
      ensures (granted, b) == Consume(cfg, true, a, key, now)
    {
      HasRoomIs(cfg, a, key, now);
      RoomyAccess(cfg, a, key, now, granted, b);
    }
  }

  lemma HasRoomIs(cfg: Config, t: Table, key: string, now: real)
    requires HasRoom(cfg, t, key, now)
    ensures key in Swept(cfg, t, now).updated || |Swept(cfg, t, now).updated| < cfg.maxIdentities
  {
  }
}
