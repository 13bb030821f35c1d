/**
 The upstream circuit breaker, bounded retries, and all interleavings of the attempts
 that share one breaker. Every locked method is one step.
 */
module CircuitBreaker {
  import opened Messages

  datatype Config = Config(threshold: nat, reset: real)

  datatype Mode = Closed | Open | HalfOpen

  datatype Breaker = Breaker(mode: Mode, failures: nat, openedAt: real, probe: bool)

  const FRESH: Breaker := Breaker(Closed, 0, 0.0, false)

  // ---- transitions ----

  /** An open circuit half-opens once the reset time has passed. */
  function Refresh(cfg: Config, b: Breaker, now: real): Breaker {
    if b.mode.Open? && now - b.openedAt >= cfg.reset then b.(mode := HalfOpen) else b
  }

  /** Whether an attempt may start; a half-open circuit reserves its probe. */
  function Allow(cfg: Config, b: Breaker, now: real): (bool, Breaker) {
    var current := Refresh(cfg, b, now);
    match current.mode
    case Open => (false, current)
    case HalfOpen => if current.probe then (false, current) else (true, current.(probe := true))
    case Closed => (true, current)
  }

  function Success(b: Breaker): Breaker {
    Breaker(Closed, 0, b.openedAt, false)
  }

  function Failure(cfg: Config, b: Breaker, now: real): Breaker {
    var failures := b.failures + 1;
    if b.mode.HalfOpen? || (b.mode.Closed? && failures >= cfg.threshold)
    then Breaker(Open, failures, now, false)
    else Breaker(b.mode, failures, b.openedAt, false)
  }

  function Release(b: Breaker): Breaker {
    b.(probe := false)
  }

  // ---- the object ----

  class Circuit {
    const cfg: Config
    var mode: Mode
    var failures: nat
    var openedAt: real
    var probe: bool

    ghost function State(): Breaker
      reads this
    {
      Breaker(mode, failures, openedAt, probe)
    }

    constructor (cfg: Config)
      requires cfg.threshold >= 1
      ensures this.cfg == cfg && State() == FRESH
    {
      this.cfg := cfg;
      mode, failures, openedAt, probe := Closed, 0, 0.0, false;
    }

    method Transition(to: Mode, now: real)
      modifies this
      ensures State() ==
              match to
              case Open => Breaker(Open, old(failures), now, false)
              case Closed => Breaker(Closed, old(failures), old(openedAt), false)
              case HalfOpen => Breaker(HalfOpen, old(failures), old(openedAt), old(probe))
    {
      mode := to;
      if to == Open {
        openedAt, probe := now, false;
      } else if to == Closed {
        probe := false;
      }
    }

    method CurrentState(now: real) returns (m: Mode)
      modifies this
      ensures State() == Refresh(cfg, old(State()), now) && m == mode
    {
      if mode == Open && now - openedAt >= cfg.reset {
        Transition(HalfOpen, now);
      }
      m := mode;
    }

    method AllowAttempt(now: real) returns (granted: bool)
      modifies this
      ensures (granted, State()) == Allow(cfg, old(State()), now)
    {
      var m := CurrentState(now);
      if m == Open {
        return false;
      }
      if m == HalfOpen {
        if probe {
          return false;
        }
        probe := true;
        return true;
      }
      return true;
    }

    method RecordSuccess(now: real)
      modifies this
      ensures State() == Success(old(State()))
      ensures mode == Closed && failures == 0 && !probe
    {
      if mode != Closed {
        Transition(Closed, now);
      }
      failures := 0;
      probe := false;
    }

    method RecordFailure(now: real)
      modifies this
      ensures State() == Failure(cfg, old(State()), now)
      ensures failures == old(failures) + 1 && !probe
      ensures old(mode) == HalfOpen || (old(mode) == Closed && failures >= cfg.threshold) ==>
                mode == Open && openedAt == now
      ensures old(mode) == Open || (old(mode) == Closed && failures < cfg.threshold) ==>
                mode == old(mode) && openedAt == old(openedAt)
    {
      probe := false;
      failures := failures + 1;
      if mode == HalfOpen {
        Transition(Open, now);
      } else if mode == Closed && failures >= cfg.threshold {
        Transition(Open, now);
      }
    }

    method ReleaseProbe()
      modifies this`probe
      ensures State() == Release(old(State()))
    {
      probe := false;
    }
  }

  /** A threshold below one is rejected; null stands for the raised error. */
  method NewCircuit(cfg: Config) returns (circuit: Circuit?)
    ensures circuit == null <==> cfg.threshold < 1
    ensures circuit != null ==> fresh(circuit) && circuit.cfg == cfg && circuit.State() == FRESH
  {
    if cfg.threshold < 1 {
      return null;
    }
    circuit := new Circuit(cfg);
  }

  // ---- retries ----

  datatype Answer =
    | Answered                // any HTTP response
    | NeverSent               // connect failure: safe to retry
    | Lost                    // may have been delivered: never retried

  function Pow2(n: nat): nat { if n == 0 then 1 else 2 * Pow2(n - 1) }

  function BackoffCap(base: real, most: real, attempt: nat): real {
    var grown := base * (Pow2(attempt) as real);
    if grown < most then grown else most
  }

  /** Tries until something other than a connect failure happens, or the retries are used up. */
  method WithRetries(operation: nat -> Answer, maxRetries: nat, base: real, most: real)
    returns (answer: Answer, tries: nat, sleeps: seq<real>)
    requires base >= 0.0 && most >= 0.0
    ensures 1 <= tries <= maxRetries + 1 && answer == operation(tries - 1)
    ensures forall k :: 0 <= k < tries - 1 ==> operation(k).NeverSent?
    ensures answer.NeverSent? ==> tries == maxRetries + 1
    ensures |sleeps| == tries - 1
    ensures forall k :: 0 <= k < |sleeps| ==> 0.0 <= sleeps[k] <= BackoffCap(base, most, k)
  {
    sleeps := [];
    tries := 0;
    while true
      invariant 0 <= tries <= maxRetries && |sleeps| == tries
      invariant forall k :: 0 <= k < tries ==> operation(k).NeverSent?
      invariant forall k :: 0 <= k < |sleeps| ==> 0.0 <= sleeps[k] <= BackoffCap(base, most, k)
      decreases maxRetries - tries
    {
      answer := operation(tries);
      tries := tries + 1;
      if !answer.NeverSent? || tries == maxRetries + 1 {
        return;
      }
      CapNonNegative(base, most, tries - 1);
      var pause :| 0.0 <= pause <= BackoffCap(base, most, tries - 1);
      sleeps := sleeps + [pause];
    }
  }

  lemma CapNonNegative(base: real, most: real, attempt: nat)
    requires base >= 0.0 && most >= 0.0
    ensures BackoffCap(base, most, attempt) >= 0.0
  {
    assert base * (Pow2(attempt) as real) >= 0.0;
  }

  /** The bound starts at the base and doubles with every try until it reaches the cap. */
  lemma BackoffDoubles(base: real, most: real, attempt: nat)
    requires base >= 0.0 && most >= 0.0
    ensures BackoffCap(base, most, 0) == if base < most then base else most
    ensures var doubled := 2.0 * BackoffCap(base, most, attempt);
            BackoffCap(base, most, attempt + 1) == if doubled < most then doubled else most
  {
    assert base * (Pow2(attempt + 1) as real) == 2.0 * (base * (Pow2(attempt) as real));
  }

  datatype Sent = Refused | Response | Unavailable

  /** The breaker after one attempt that nobody interleaves with. */
  function AfterAttempt(cfg: Config, b: Breaker, asked: real, done: real, answer: Answer): Breaker {
    var (granted, b1) := Allow(cfg, b, asked);
    if !granted then Refresh(cfg, b1, done)
    else
      Release(match answer
              case Answered => Success(b1)
              case NeverSent => Failure(cfg, b1, done)
              case Lost => b1)
  }

  /** One guarded request: refused without a try, or tried and recorded by its last answer. */
  method ResilientSend(
      circuit: Circuit, operation: nat -> Answer, maxRetries: nat, base: real, most: real, asked: real, done: real)
    returns (sent: Sent, tries: nat)
    requires base >= 0.0 && most >= 0.0
    modifies circuit
    ensures sent.Refused? <==> !Allow(circuit.cfg, old(circuit.State()), asked).0
    ensures sent.Refused? <==> tries == 0
    ensures tries <= maxRetries + 1 && forall k :: 0 <= k < tries - 1 ==> operation(k).NeverSent?
    ensures tries > 0 ==> (sent.Response? <==> operation(tries - 1).Answered?)
    ensures var answer := if tries > 0 then operation(tries - 1) else Lost;
            circuit.State() == AfterAttempt(circuit.cfg, old(circuit.State()), asked, done, answer)
  {
    var granted := circuit.AllowAttempt(asked);
    if !granted {
      var _ := circuit.CurrentState(done);
      return Refused, 0;
    }
    var answer, n, _ := WithRetries(operation, maxRetries, base, most);
    match answer {
      case Answered =>
        circuit.RecordSuccess(done);
        sent := Response;
      case NeverSent =>
        circuit.RecordFailure(done);
        sent := Unavailable;
      case Lost =>
        sent := Unavailable;
    }
    circuit.ReleaseProbe();
    tries := n;
  }

  // ---- interleaved attempts ----

  datatype Stage =
    | Sending     // granted, outcome not recorded
    | Settled     // outcome recorded, release still to come

  datatype Step =
    | Ask(id: nat, now: real)
    | Look(now: real)                 // a caller reads the state
    | Succeed(id: nat)
    | Fail(id: nat, now: real)
    | Finish(id: nat)                 // the release every attempt ends with

  /**
   The breaker, the attempts under way, the last attempt granted while half-open, and the
   recorded outcomes (true for success) in order.
   */
  datatype World = World(b: Breaker, flying: map<nat, Stage>, prober: Option<nat>, outcomes: seq<bool>)

  const START: World := World(FRESH, map[], None, [])

  predicate Enabled(w: World, step: Step) {
    match step
    case Ask(id, _) => id !in w.flying
    case Look(_) => true
    case Succeed(id) => id in w.flying && w.flying[id].Sending?
    case Fail(id, _) => id in w.flying && w.flying[id].Sending?
    case Finish(id) => id in w.flying
  }

  predicate Granted(cfg: Config, w: World, step: Step) {
    step.Ask? && Allow(cfg, w.b, step.now).0
  }

  function Next(cfg: Config, w: World, step: Step): World
    requires Enabled(w, step)
  {
    match step
    case Ask(id, now) =>
      var (granted, b) := Allow(cfg, w.b, now);
      if granted then
        World(b, w.flying[id := Sending], if b.mode.HalfOpen? then Some(id) else w.prober, w.outcomes)
      else w.(b := b)
    case Look(now) => w.(b := Refresh(cfg, w.b, now))
    case Succeed(id) => w.(b := Success(w.b), flying := w.flying[id := Settled], outcomes := w.outcomes + [true])
    case Fail(id, now) =>
      w.(b := Failure(cfg, w.b, now), flying := w.flying[id := Settled], outcomes := w.outcomes + [false])
    case Finish(id) => w.(b := Release(w.b), flying := w.flying - {id})
  }

  ghost predicate Runs(cfg: Config, w: World, steps: seq<Step>)
    decreases |steps|
  {
    steps == [] || (Enabled(w, steps[0]) && Runs(cfg, Next(cfg, w, steps[0]), steps[1..]))
  }

  ghost function Final(cfg: Config, w: World, steps: seq<Step>): World
    requires Runs(cfg, w, steps)
    decreases |steps|
  {
    if steps == [] then w else Final(cfg, Next(cfg, w, steps[0]), steps[1..])
  }

  /** Length of the run of failures the outcomes end with. */
  function TrailingFailures(outcomes: seq<bool>): nat {
    if outcomes == [] || outcomes[|outcomes| - 1] then 0
    else TrailingFailures(outcomes[..|outcomes| - 1]) + 1
  }

  /**
   A reserved probe means half-open with the probing attempt still unrecorded; the failure count
   is the trailing run of failures; a closed circuit is below the threshold.
   */
  ghost predicate Invariant(cfg: Config, w: World) {
    && (w.b.probe ==>
          && w.b.mode.HalfOpen?
          && w.prober.Some? && w.prober.value in w.flying && w.flying[w.prober.value].Sending?)
    && w.b.failures == TrailingFailures(w.outcomes)
    && (w.b.mode.Closed? ==> w.b.failures < cfg.threshold)
  }

  lemma StepKeepsInvariant(cfg: Config, w: World, step: Step)
    requires cfg.threshold >= 1 && Invariant(cfg, w) && Enabled(w, step)
    ensures Invariant(cfg, Next(cfg, w, step))
  {
    var w' := Next(cfg, w, step);
    if step.Succeed? || step.Fail? {
      assert w'.outcomes[..|w'.outcomes| - 1] == w.outcomes;
    }
  }

  /** The invariant holds in every state any interleaving of attempts can reach. */
  lemma {:induction false} EveryRunKeepsInvariant(cfg: Config, w: World, steps: seq<Step>)
    requires cfg.threshold >= 1 && Invariant(cfg, w) && Runs(cfg, w, steps)
    ensures Invariant(cfg, Final(cfg, w, steps))
    decreases |steps|
  {
    hide Invariant;
    if steps != [] {
      StepKeepsInvariant(cfg, w, steps[0]);
      EveryRunKeepsInvariant(cfg, Next(cfg, w, steps[0]), steps[1..]);
    }
  }

  lemma StartsInvariant(cfg: Config)
    requires cfg.threshold >= 1
    ensures Invariant(cfg, START)
  {
  }

  /** With nothing under way, an attempt is refused only while the circuit is open and not yet due. */
  lemma IdleIsGranted(cfg: Config, w: World, id: nat, now: real)
    requires Invariant(cfg, w) && w.flying == map[]
    ensures Granted(cfg, w, Ask(id, now)) <==> !(w.b.mode.Open? && now - w.b.openedAt < cfg.reset)
  {
  }

  // ---- what failures and successes do to later attempts ----

  /** An open circuit grants nothing before it is due, unless a success is recorded. */
  lemma {:induction false} OpenRefuses(cfg: Config, w: World, steps: seq<Step>, k: nat)
    requires w.b.mode.Open? && Runs(cfg, w, steps) && k < |steps|
    requires forall j :: 0 <= j <= k && ReadsClock(steps[j]) ==> steps[j].now < w.b.openedAt + cfg.reset
    requires forall j :: 0 <= j < k ==> !steps[j].Succeed?
    ensures !Granted(cfg, Final(cfg, w, Prefix(cfg, w, steps, k)), steps[k])
    decreases |steps|
  {
    if k > 0 {
      OpenRefuses(cfg, Next(cfg, w, steps[0]), steps[1..], k - 1);
      PrefixTail(cfg, w, steps, k);
    }
  }

  /**
   A failure recorded while half-open reopens the circuit: whatever else happens, nobody is granted for the
   reset time from then on, unless a success is recorded.
   */
  lemma ProbeFailureReopens(cfg: Config, w: World, id: nat, t: real, steps: seq<Step>, k: nat)
    requires w.b.mode.HalfOpen? && id in w.flying && w.flying[id].Sending?
    requires Runs(cfg, Next(cfg, w, Fail(id, t)), steps) && k < |steps|
    requires forall j :: 0 <= j <= k && ReadsClock(steps[j]) ==> steps[j].now < t + cfg.reset
    requires forall j :: 0 <= j < k ==> !steps[j].Succeed?
    ensures var w' := Next(cfg, w, Fail(id, t)); !Granted(cfg, Final(cfg, w', Prefix(cfg, w', steps, k)), steps[k])
  {
    OpenRefuses(cfg, Next(cfg, w, Fail(id, t)), steps, k);
  }

  /** So does the failure that completes the threshold. */
  lemma ThresholdOpens(cfg: Config, w: World, id: nat, t: real, steps: seq<Step>, k: nat)
    requires w.b.mode.Closed? && w.b.failures + 1 >= cfg.threshold && id in w.flying && w.flying[id].Sending?
    requires Runs(cfg, Next(cfg, w, Fail(id, t)), steps) && k < |steps|
    requires forall j :: 0 <= j <= k && ReadsClock(steps[j]) ==> steps[j].now < t + cfg.reset
    requires forall j :: 0 <= j < k ==> !steps[j].Succeed?
    ensures var w' := Next(cfg, w, Fail(id, t)); !Granted(cfg, Final(cfg, w', Prefix(cfg, w', steps, k)), steps[k])
  {
    OpenRefuses(cfg, Next(cfg, w, Fail(id, t)), steps, k);
  }

  function Fails(steps: seq<Step>): nat {
    if steps == [] then 0 else (if steps[0].Fail? then 1 else 0) + Fails(steps[1..])
  }

  /** A closed circuit grants every attempt until enough failures are recorded. */
  lemma {:induction false} ClosedGrants(cfg: Config, w: World, steps: seq<Step>, k: nat)
    requires w.b.mode.Closed? && Runs(cfg, w, steps) && k < |steps| && steps[k].Ask?
    requires w.b.failures + Fails(steps[..k]) < cfg.threshold
    ensures Granted(cfg, Final(cfg, w, Prefix(cfg, w, steps, k)), steps[k])
    decreases |steps|
  {
    if k > 0 {
      assert steps[..k][1..] == steps[1..][..k - 1] && steps[..k][0] == steps[0];
      ClosedGrants(cfg, Next(cfg, w, steps[0]), steps[1..], k - 1);
      PrefixTail(cfg, w, steps, k);
    }
  }

  /** A success closes the circuit in any state: attempts are granted until a whole threshold of failures follows. */
  lemma SuccessCloses(cfg: Config, w: World, id: nat, steps: seq<Step>, k: nat)
    requires id in w.flying && w.flying[id].Sending?
    requires Runs(cfg, Next(cfg, w, Succeed(id)), steps) && k < |steps| && steps[k].Ask?
    requires Fails(steps[..k]) < cfg.threshold
    ensures var w' := Next(cfg, w, Succeed(id)); Granted(cfg, Final(cfg, w', Prefix(cfg, w', steps, k)), steps[k])
  {
    ClosedGrants(cfg, Next(cfg, w, Succeed(id)), steps, k);
  }

  /** The steps of one request that is sent to the end before anything else happens. */
  function AttemptSteps(granted: bool, id: nat, asked: real, done: real, answer: Answer): seq<Step> {
    if !granted then [Ask(id, asked), Look(done)]
    else
      match answer
      case Answered => [Ask(id, asked), Succeed(id), Finish(id)]
      case NeverSent => [Ask(id, asked), Fail(id, done), Finish(id)]
      case Lost => [Ask(id, asked), Finish(id)]
  }

  /** A guarded request is the run of its steps; a lost answer leaves mode and failures as the grant left them. */
  lemma AttemptIsRun(cfg: Config, w: World, id: nat, asked: real, done: real, answer: Answer)
    requires id !in w.flying
    ensures var steps := AttemptSteps(Granted(cfg, w, Ask(id, asked)), id, asked, done, answer);
            && Runs(cfg, w, steps)
            && Final(cfg, w, steps).b == AfterAttempt(cfg, w.b, asked, done, answer)
            && Final(cfg, w, steps).flying == w.flying
    ensures answer.Lost? && Granted(cfg, w, Ask(id, asked)) ==>
              var b, granted := AfterAttempt(cfg, w.b, asked, done, answer), Allow(cfg, w.b, asked).1;
              b.mode == granted.mode && b.failures == w.b.failures && b.openedAt == w.b.openedAt && !b.probe
  {
    var granted := Granted(cfg, w, Ask(id, asked));
    var w1 := Next(cfg, w, Ask(id, asked));
    if !granted {
      TwoSteps(cfg, w, Ask(id, asked), Look(done));
    } else {
      assert w1.flying - {id} == w.flying && Next(cfg, w1, Succeed(id)).flying - {id} == w.flying;
      assert Next(cfg, w1, Fail(id, done)).flying - {id} == w.flying;
      match answer
      case Answered => ThreeSteps(cfg, w, Ask(id, asked), Succeed(id), Finish(id));
      case NeverSent => ThreeSteps(cfg, w, Ask(id, asked), Fail(id, done), Finish(id));
      case Lost => TwoSteps(cfg, w, Ask(id, asked), Finish(id));
    }
  }

  lemma OneStep(cfg: Config, w: World, a: Step)
    requires Enabled(w, a)
    ensures Runs(cfg, w, [a]) && Final(cfg, w, [a]) == Next(cfg, w, a)
  {
    assert [a][1..] == [];
    assert Runs(cfg, Next(cfg, w, a), []);
  }

  lemma TwoSteps(cfg: Config, w: World, a: Step, b: Step)
    requires Enabled(w, a) && Enabled(Next(cfg, w, a), b)
    ensures Runs(cfg, w, [a, b]) && Final(cfg, w, [a, b]) == Next(cfg, Next(cfg, w, a), b)
  {
    hide Next;
    OneStep(cfg, Next(cfg, w, a), b);
    assert [a, b][1..] == [b];
  }

  lemma ThreeSteps(cfg: Config, w: World, a: Step, b: Step, c: Step)
    requires Enabled(w, a) && Enabled(Next(cfg, w, a), b) && Enabled(Next(cfg, Next(cfg, w, a), b), c)
    ensures Runs(cfg, w, [a, b, c])
    ensures Final(cfg, w, [a, b, c]) == Next(cfg, Next(cfg, Next(cfg, w, a), b), c)
  {
    hide Next;
    TwoSteps(cfg, Next(cfg, w, a), b, c);
    assert [a, b, c][1..] == [b, c];
  }

  // ---- the probe ----

  predicate RecordsOrReleases(step: Step) { step.Succeed? || step.Fail? || step.Finish? }

  /** Half-open with the probe taken: every asking attempt is refused until something is recorded or released. */
  lemma {:induction false} NoGrantUntilRecord(cfg: Config, w: World, steps: seq<Step>, k: nat)
    requires w.b.mode.HalfOpen? && w.b.probe && Runs(cfg, w, steps) && k < |steps|
    requires forall j :: 0 <= j < k ==> !RecordsOrReleases(steps[j])
    ensures !Granted(cfg, Final(cfg, w, Prefix(cfg, w, steps, k)), steps[k])
    decreases |steps|
  {
    if k > 0 {
      var w' := Next(cfg, w, steps[0]);
      NoGrantUntilRecord(cfg, w', steps[1..], k - 1);
      PrefixTail(cfg, w, steps, k);
    }
  }

  /** The first `k` steps of a run are a run. */
  ghost function Prefix(cfg: Config, w: World, steps: seq<Step>, k: nat): (prefix: seq<Step>)
    requires Runs(cfg, w, steps) && k <= |steps|
    ensures prefix == steps[..k] && Runs(cfg, w, prefix)
    decreases k
  {
    if k == 0 then []
    else
      var rest := Prefix(cfg, Next(cfg, w, steps[0]), steps[1..], k - 1);
      var prefix := [steps[0]] + rest;
      assert prefix[1..] == rest;
      prefix
  }

  lemma PrefixTail(cfg: Config, w: World, steps: seq<Step>, k: nat)
    requires Runs(cfg, w, steps) && 0 < k <= |steps|
    ensures Final(cfg, w, Prefix(cfg, w, steps, k)) ==
            Final(cfg, Next(cfg, w, steps[0]), Prefix(cfg, Next(cfg, w, steps[0]), steps[1..], k - 1))
  {
    var prefix := Prefix(cfg, w, steps, k);
    assert prefix[1..] == Prefix(cfg, Next(cfg, w, steps[0]), steps[1..], k - 1);
  }

  predicate ReadsClock(step: Step) { step.Ask? || step.Look? || step.Fail? }

  /** Clock readings start at `now` or later and do not go back. */
  predicate Timed(steps: seq<Step>, now: real) {
    steps != [] ==>
      if ReadsClock(steps[0]) then now <= steps[0].now && Timed(steps[1..], steps[0].now) else Timed(steps[1..], now)
  }

  /** From `now` on, as long as attempt `id` takes no step, nobody else is let through. */
  ghost predicate Exclusive(cfg: Config, w: World, id: nat, now: real) {
    forall steps: seq<Step>, k: nat ::
      Runs(cfg, w, steps) && Timed(steps, now) && k < |steps| && Quiet(steps, id) ==>
        !Granted(cfg, Final(cfg, w, Prefix(cfg, w, steps, k)), steps[k])
  }

  predicate Quiet(steps: seq<Step>, id: nat) {
    forall j :: 0 <= j < |steps| && !steps[j].Look? ==> steps[j].id != id
  }

  /**
   The promise that a half-open circuit lets exactly one caller through until its probe resolves
   holds exactly when the probe is the only attempt under way when it is granted.
   */
  lemma ProbeExclusiveExactly(cfg: Config, w: World, id: nat, now: real)
    requires Invariant(cfg, w) && id !in w.flying
    requires Granted(cfg, w, Ask(id, now)) && Allow(cfg, w.b, now).1.mode.HalfOpen?
    ensures Exclusive(cfg, Next(cfg, w, Ask(id, now)), id, now) <==> w.flying == map[]
  {
    var w' := Next(cfg, w, Ask(id, now));
    if w.flying == map[] {
      assert w'.flying.Keys == {id};
      forall steps: seq<Step>, k: nat | Runs(cfg, w', steps) && Timed(steps, now) && k < |steps| && Quiet(steps, id)
        ensures !Granted(cfg, Final(cfg, w', Prefix(cfg, w', steps, k)), steps[k])
      {
        AloneIsExclusive(cfg, w', id, steps, k);
      }
    } else {
      var other :| other in w.flying;
      StaleAttemptAdmitsAnother(cfg, w', id, other, now);
    }
  }

  lemma {:induction false} AloneIsExclusive(cfg: Config, w: World, id: nat, steps: seq<Step>, k: nat)
    requires w.b.mode.HalfOpen? && w.b.probe && w.flying.Keys == {id}
    requires Runs(cfg, w, steps) && k < |steps| && Quiet(steps, id)
    ensures !Granted(cfg, Final(cfg, w, Prefix(cfg, w, steps, k)), steps[k])
    decreases k
  {
    if k > 0 {
      assert !RecordsOrReleases(steps[0]);
      AloneIsExclusive(cfg, Next(cfg, w, steps[0]), id, steps[1..], k - 1);
      PrefixTail(cfg, w, steps, k);
    }
  }

  lemma StaleAttemptAdmitsAnother(cfg: Config, w: World, id: nat, other: nat, now: real)
    requires w.b.mode.HalfOpen? && id in w.flying && other in w.flying && other != id
    ensures !Exclusive(cfg, w, id, now)
  {
    var newcomer := FreshId(w.flying.Keys);
    var first, second := Finish(other), Ask(newcomer, now);
    var steps := [first, second];
    var w1 := Next(cfg, w, first);
    assert steps[1..] == [second] && [second][1..] == [];
    assert Runs(cfg, w1, [second]);
    assert Runs(cfg, w, steps);
    PrefixTail(cfg, w, steps, 1);
    assert Final(cfg, w, Prefix(cfg, w, steps, 1)) == w1;
    assert Granted(cfg, w1, second);
    assert Quiet(steps, id) && Timed(steps, now);
  }

  // ---- a run in which the promise fails ----

  /** `n` attempts, numbered from `first`, that are granted, fail to connect and finish. */
  function FailedAttempts(first: nat, n: nat): seq<Step>
    decreases n
  {
    if n == 0 then []
    else [Ask(first, 0.0), Fail(first, 0.0), Finish(first)] + FailedAttempts(first + 1, n - 1)
  }

  /** Attempt 0 keeps sending while as many attempts fail as it takes to open the circuit. */
  function StaleRun(cfg: Config): seq<Step> {
    [Ask(0, 0.0)] + FailedAttempts(1, cfg.threshold)
  }

  /** When the circuit that opened at time 0 is due. */
  function Due(cfg: Config): real { if cfg.reset < 0.0 then 0.0 else cfg.reset }

  ghost predicate OnlyStale(w: World) { !w.b.probe && w.flying == map[0 := Sending] }

  lemma {:induction false} FailedTimed(first: nat, n: nat)
    ensures Timed(FailedAttempts(first, n), 0.0)
    ensures forall k :: 0 <= k < |FailedAttempts(first, n)| && ReadsClock(FailedAttempts(first, n)[k]) ==>
              FailedAttempts(first, n)[k].now == 0.0
    decreases n
  {
    if n > 0 {
      FailedTimed(first + 1, n - 1);
      var steps, rest := FailedAttempts(first, n), FailedAttempts(first + 1, n - 1);
      assert steps[1..][1..][1..] == rest;
    }
  }

  lemma StepThen(cfg: Config, w: World, step: Step, rest: seq<Step>)
    requires Enabled(w, step) && Runs(cfg, Next(cfg, w, step), rest)
    ensures Runs(cfg, w, [step] + rest)
    ensures Final(cfg, w, [step] + rest) == Final(cfg, Next(cfg, w, step), rest)
  {
    assert ([step] + rest)[1..] == rest;
  }

  /** The world after one failing attempt; it opens the circuit if it reaches the threshold. */
  ghost function AfterFailure(cfg: Config, w: World): World {
    w.(b := Failure(cfg, w.b, 0.0), outcomes := w.outcomes + [false])
  }

  lemma OneFailure(cfg: Config, w: World, id: nat, rest: seq<Step>)
    requires id != 0 && OnlyStale(w) && w.b.mode.Closed? && Runs(cfg, AfterFailure(cfg, w), rest)
    ensures var steps := [Ask(id, 0.0), Fail(id, 0.0), Finish(id)] + rest;
            Runs(cfg, w, steps) && Final(cfg, w, steps) == Final(cfg, AfterFailure(cfg, w), rest)
  {
    var w1 := Next(cfg, w, Ask(id, 0.0));
    var w2 := Next(cfg, w1, Fail(id, 0.0));
    assert w2.flying - {id} == w.flying;
    assert Next(cfg, w2, Finish(id)) == AfterFailure(cfg, w);
    hide Runs, Final, Next;
    StepThen(cfg, w2, Finish(id), rest);
    StepThen(cfg, w1, Fail(id, 0.0), [Finish(id)] + rest);
    StepThen(cfg, w, Ask(id, 0.0), [Fail(id, 0.0)] + ([Finish(id)] + rest));
    assert [Ask(id, 0.0), Fail(id, 0.0), Finish(id)] + rest
        == [Ask(id, 0.0)] + ([Fail(id, 0.0)] + ([Finish(id)] + rest));
  }

  lemma {:induction false} FailuresOpen(cfg: Config, w: World, first: nat, n: nat)
    requires 0 < first && 0 < n && OnlyStale(w) && w.b.mode.Closed? && w.b.failures + n == cfg.threshold
    ensures Runs(cfg, w, FailedAttempts(first, n))
    ensures var end := Final(cfg, w, FailedAttempts(first, n));
            OnlyStale(end) && end.b.mode.Open? && end.b.openedAt == 0.0
    decreases n
  {
    if n > 1 {
      FailuresOpen(cfg, AfterFailure(cfg, w), first + 1, n - 1);
    }
    OneFailure(cfg, w, first, FailedAttempts(first + 1, n - 1));
  }

  /**
   For every threshold and reset time a fresh circuit reaches a half-open grant that is not exclusive:
   an attempt granted before the circuit opened is still under way.
   */
  lemma PromiseFails(cfg: Config, id: nat)
    requires cfg.threshold >= 1 && id != 0
    ensures Runs(cfg, START, StaleRun(cfg))
    ensures var w, ask := Final(cfg, START, StaleRun(cfg)), Ask(id, Due(cfg));
            && Enabled(w, ask) && Granted(cfg, w, ask) && Next(cfg, w, ask).b.mode.HalfOpen?
            && !Exclusive(cfg, Next(cfg, w, ask), id, ask.now)
    ensures Timed(StaleRun(cfg), 0.0) && forall k :: 0 <= k < |StaleRun(cfg)| && ReadsClock(StaleRun(cfg)[k]) ==>
              StaleRun(cfg)[k].now <= Due(cfg)
  {
    hide Exclusive;
    var first, rest := Ask(0, 0.0), FailedAttempts(1, cfg.threshold);
    assert StaleRun(cfg)[1..] == rest;
    FailuresOpen(cfg, Next(cfg, START, first), 1, cfg.threshold);
    var w := Final(cfg, START, StaleRun(cfg));
    StaleAttemptAdmitsAnother(cfg, Next(cfg, w, Ask(id, Due(cfg))), id, 0, Due(cfg));
    FailedTimed(1, cfg.threshold);
  }

  lemma {:induction false} FreshId(used: set<nat>) returns (id: nat)
    ensures id !in used && forall k :: k in used ==> k < id
    decreases |used|
  {
    if used == {} {
      id := 0;
    } else {
      var k :| k in used;
      assert forall x :: x in used ==> x == k || x in used - {k};
      id := FreshId(used - {k});
      if k >= id { id := k + 1; }
    }
  }
}
