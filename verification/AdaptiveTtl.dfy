/** The adaptive TTL controller of one gateway: classification, hysteresis and clamped steps. */
module AdaptiveTtl {
  import opened Basics
  import opened GatewayConfig

  const MINIMUM_SAMPLE_COUNT := 20
  const CONGESTED_READINGS_REQUIRED := 2
  const STABLE_READINGS_REQUIRED := 3
  const STABLE_THRESHOLD_RATIO := 0.9
  const INCREASE_STEP := 0.15
  const STRONG_INCREASE_STEP := 0.25
  const DECREASE_STEP := 0.2

  datatype LoadState = Disabled | Stable | Warning | Congested

  datatype Signals = Signals(p99LatencyMs: real, activeRequests: int, maxConcurrent: int, sampleCount: int)

  datatype Snapshot = Snapshot(
    factor: real, state: LoadState, stableReadings: nat, congestedReadings: nat, lastP99LatencyMs: real)

  /** The snapshot a gateway starts with, and the one that initialises the shared key. */
  const INITIAL_SNAPSHOT := Snapshot(INITIAL_FACTOR, Disabled, 0, 0, 0.0)

  function ResetSnapshot(enabled: bool): Snapshot {
    Snapshot(INITIAL_FACTOR, if enabled then Warning else Disabled, 0, 0, 0.0)
  }

  function Clamp(factor: real, minFactor: real, maxFactor: real): real {
    if factor < minFactor then minFactor
    else if factor > maxFactor then maxFactor
    else factor
  }

  predicate LatencyCongested(c: Config, s: Signals) {
    s.sampleCount >= MINIMUM_SAMPLE_COUNT && s.p99LatencyMs >= c.latencyThresholdMs as real
  }

  predicate ConcurrencyCongested(c: Config, s: Signals) {
    s.activeRequests >= c.concurrencyThreshold
  }

  function Classify(c: Config, s: Signals): LoadState {
    if LatencyCongested(c, s) || ConcurrencyCongested(c, s) then Congested
    else
      var concurrencyStable := s.activeRequests as real < c.concurrencyThreshold as real * STABLE_THRESHOLD_RATIO;
      var latencyStable := s.p99LatencyMs < c.latencyThresholdMs as real * STABLE_THRESHOLD_RATIO;
      if s.sampleCount < MINIMUM_SAMPLE_COUNT then if concurrencyStable then Stable else Warning
      else if latencyStable && concurrencyStable then Stable
      else Warning
  }

  /** The size of the step an increase takes, decided by the reading that triggers it. */
  function StepFor(c: Config, s: Signals): real {
    if LatencyCongested(c, s) && ConcurrencyCongested(c, s) then STRONG_INCREASE_STEP else INCREASE_STEP
  }

  predicate Raises(c: Config, n: Snapshot, s: Signals) {
    Classify(c, s) == Congested && n.congestedReadings + 1 >= CONGESTED_READINGS_REQUIRED
  }

  predicate Lowers(c: Config, n: Snapshot, s: Signals) {
    Classify(c, s) == Stable && n.stableReadings + 1 >= STABLE_READINGS_REQUIRED
  }

  /** One reading, as processSignals applies it. */
  function Process(c: Config, n: Snapshot, s: Signals): Snapshot {
    var factor := Clamp(n.factor, c.minFactor, c.maxFactor);
    match Classify(c, s)
    case Congested =>
      if Raises(c, n, s) then
        Snapshot(Clamp(factor + StepFor(c, s), c.minFactor, c.maxFactor), Congested, 0, 0, s.p99LatencyMs)
      else Snapshot(factor, Congested, 0, n.congestedReadings + 1, s.p99LatencyMs)
    case Stable =>
      if Lowers(c, n, s) then
        Snapshot(Clamp(factor - DECREASE_STEP, c.minFactor, c.maxFactor), Stable, 0, 0, s.p99LatencyMs)
      else Snapshot(factor, Stable, n.stableReadings + 1, 0, s.p99LatencyMs)
    case _ => Snapshot(factor, Warning, 0, 0, s.p99LatencyMs)
  }

  /** The first duration that does not fit Go's 63 bits. */
  const DURATION_LIMIT: Time := 0x8000_0000_0000_0000

  /** `time.Duration(seconds) * time.Second`, which wraps around. */
  function InSeconds(seconds: int): Time {
    (seconds * SECOND + DURATION_LIMIT) % (2 * DURATION_LIMIT) - DURATION_LIMIT
  }

  function InNanoseconds(baseSeconds: int, factor: real): real {
    InSeconds(baseSeconds) as real * factor
  }

  /** The product as a duration: truncated towards zero, and on common hardware the least one if too large. */
  function Scale(baseSeconds: int, factor: real): Time {
    var x := InNanoseconds(baseSeconds, factor);
    if x >= DURATION_LIMIT as real || x < -(DURATION_LIMIT as real) then -DURATION_LIMIT
    else if x >= 0.0 then x.Floor
    else -((-x).Floor)
  }

  /** The configured TTLs, in whole seconds, do not wrap around; the larger one decides. */
  predicate NoWrap(c: Config) {
    c.l2TtlSeconds * SECOND < DURATION_LIMIT
  }

  function EffectiveFactor(c: Config, n: Snapshot): real {
    if c.adaptiveTtlEnabled then Clamp(n.factor, c.minFactor, c.maxFactor) else INITIAL_FACTOR
  }

  function EffectiveTtls(c: Config, n: Snapshot): (Time, Time) {
    var f := EffectiveFactor(c, n);
    (Scale(c.l1TtlSeconds, f), Scale(c.l2TtlSeconds, f))
  }

  /** The controller object; every method is one critical section under its mutex. */
  class Controller {
    var currentFactor: real
    var currentState: LoadState
    var consecutiveStableReadings: nat
    var consecutiveCongestedReadings: nat
    var lastBackendP99LatencyMs: real

    function Current(): Snapshot
      reads this
    {
      Snapshot(currentFactor, currentState, consecutiveStableReadings,
               consecutiveCongestedReadings, lastBackendP99LatencyMs)
    }

    constructor ()
      ensures Current() == INITIAL_SNAPSHOT
    {
      currentFactor, currentState := INITIAL_FACTOR, Disabled;
      consecutiveStableReadings, consecutiveCongestedReadings := 0, 0;
      lastBackendP99LatencyMs := 0.0;
    }

    method ProcessSignals(config: Config, signals: Signals)
      modifies this
      ensures Current() == Process(config, old(Current()), signals)
    {
      var state := Classify(config, signals);
      lastBackendP99LatencyMs := signals.p99LatencyMs;
      currentFactor := Clamp(currentFactor, config.minFactor, config.maxFactor);
      currentState := state;
      if state == Congested {
        consecutiveStableReadings := 0;
        consecutiveCongestedReadings := consecutiveCongestedReadings + 1;
        if consecutiveCongestedReadings >= CONGESTED_READINGS_REQUIRED {
          var increaseStep := INCREASE_STEP;
          if LatencyCongested(config, signals) && ConcurrencyCongested(config, signals) {
            increaseStep := STRONG_INCREASE_STEP;
          }
          currentFactor := Clamp(currentFactor + increaseStep, config.minFactor, config.maxFactor);
          consecutiveCongestedReadings := 0;
        }
      } else if state == Stable {
        consecutiveCongestedReadings := 0;
        consecutiveStableReadings := consecutiveStableReadings + 1;
        if consecutiveStableReadings >= STABLE_READINGS_REQUIRED {
          currentFactor := Clamp(currentFactor - DECREASE_STEP, config.minFactor, config.maxFactor);
          consecutiveStableReadings := 0;
        }
      } else {
        consecutiveStableReadings := 0;
        consecutiveCongestedReadings := 0;
      }
    }

    /** The TTLs a request is served with, and the factor behind them. */
    method EffectiveCacheTtls(config: Config) returns (ttlL1: Time, ttlL2: Time, factor: real)
      ensures (ttlL1, ttlL2) == EffectiveTtls(config, Current()) && factor == EffectiveFactor(config, Current())
      ensures Sound(config) && NoWrap(config) ==>
                (0 <= ttlL1 <= ttlL2 <==> InNanoseconds(config.l2TtlSeconds, factor) < DURATION_LIMIT as real)
      ensures Sound(config) && NoWrap(config) && config.adaptiveTtlEnabled
              && InNanoseconds(config.l2TtlSeconds, config.maxFactor) < DURATION_LIMIT as real ==>
                Scale(config.l2TtlSeconds, config.minFactor) <= ttlL2 <= Scale(config.l2TtlSeconds, config.maxFactor)
      ensures Sound(config) && NoWrap(config) && !config.adaptiveTtlEnabled ==>
                ttlL1 == config.l1TtlSeconds * SECOND && ttlL2 == config.l2TtlSeconds * SECOND
    {
      if Sound(config) && NoWrap(config) {
        EffectiveTtlsOrdered(config, Current());
      }
      factor := INITIAL_FACTOR;
      if config.adaptiveTtlEnabled {
        factor := Clamp(currentFactor, config.minFactor, config.maxFactor);
      }
      ttlL1 := Scale(config.l1TtlSeconds, factor);
      ttlL2 := Scale(config.l2TtlSeconds, factor);
    }

    method SetDisabled()
      modifies this
      ensures Current() == INITIAL_SNAPSHOT
    {
      currentState, currentFactor := Disabled, INITIAL_FACTOR;
      consecutiveStableReadings, consecutiveCongestedReadings := 0, 0;
      lastBackendP99LatencyMs := 0.0;
    }

    method ApplySnapshot(snapshot: Snapshot)
      modifies this
      ensures Current() == snapshot
    {
      currentFactor, currentState := snapshot.factor, snapshot.state;
      consecutiveStableReadings := snapshot.stableReadings;
      consecutiveCongestedReadings := snapshot.congestedReadings;
      lastBackendP99LatencyMs := snapshot.lastP99LatencyMs;
    }
  }

  // ---------------------------------------------------------------------------------------------
  // Well-formed snapshots

  ghost predicate WellFormed(n: Snapshot) {
    && n.factor > 0.0
    && n.congestedReadings < CONGESTED_READINGS_REQUIRED
    && n.stableReadings < STABLE_READINGS_REQUIRED
    && (n.congestedReadings > 0 ==> n.state == Congested)
    && (n.stableReadings > 0 ==> n.state == Stable)
    && (n.state == Disabled ==> n.factor == INITIAL_FACTOR)
  }

  /** One reading leaves a well-formed snapshot, whatever it found. */
  lemma ProcessKeepsWellFormed(c: Config, n: Snapshot, s: Signals)
    requires Sound(c)
    ensures WellFormed(Process(c, n, s))
    ensures c.minFactor <= Process(c, n, s).factor <= c.maxFactor
  {
  }

  // ---------------------------------------------------------------------------------------------
  // Classification

  function Severity(s: LoadState): int {
    match s
    case Disabled => 0
    case Stable => 1
    case Warning => 2
    case Congested => 3
  }

  predicate NoLighter(a: Signals, b: Signals) {
    a.p99LatencyMs <= b.p99LatencyMs && a.activeRequests <= b.activeRequests && a.sampleCount <= b.sampleCount
  }

  /** More latency, more active requests and more samples never look less severe. */
  lemma ClassifyMonotone(c: Config, a: Signals, b: Signals)
    requires NoLighter(a, b)
    ensures Severity(Classify(c, a)) <= Severity(Classify(c, b))
    ensures StepFor(c, a) <= StepFor(c, b)
  {
  }

  /**
   The three outcomes in whole thresholds and tenths of them: they exclude each other, so the order in
   which they are tested does not matter, and nothing is between congested and the warning band.
   */
  lemma ClassifyExactly(c: Config, s: Signals)
    requires Sound(c)
    ensures Classify(c, s) == Congested <==>
              (s.sampleCount >= 20 && s.p99LatencyMs >= c.latencyThresholdMs as real)
              || s.activeRequests >= c.concurrencyThreshold
    ensures Classify(c, s) == Stable <==>
              10 * s.activeRequests < 9 * c.concurrencyThreshold
              && (s.sampleCount >= 20 ==> 10.0 * s.p99LatencyMs < 9.0 * c.latencyThresholdMs as real)
    ensures Classify(c, s) != Disabled
  {
  }

  /** What a reading leaves behind besides the factor and the counters, and the sizes of the steps. */
  lemma ReadingExactly(c: Config, n: Snapshot, s: Signals)
    requires Sound(c) && c.minFactor <= n.factor <= c.maxFactor
    requires n.congestedReadings < 2 && n.stableReadings < 3
    ensures
      var m := Process(c, n, s);
      && m.state == Classify(c, s) && m.lastP99LatencyMs == s.p99LatencyMs
      && m.congestedReadings == (if m.state == Congested && n.congestedReadings == 0 then 1 else 0)
      && m.stableReadings == (if m.state == Stable && n.stableReadings < 2 then n.stableReadings + 1 else 0)
      && (m.state == Congested && n.congestedReadings == 1 ==>
            var both := s.activeRequests >= c.concurrencyThreshold
              && s.sampleCount >= 20 && s.p99LatencyMs >= c.latencyThresholdMs as real;
            m.factor == MinR(c.maxFactor, n.factor + if both then 0.25 else 0.15))
      && (m.state == Stable && n.stableReadings == 2 ==>
            m.factor == -MinR(-c.minFactor, -(n.factor - 0.2)))
      && (m.congestedReadings + m.stableReadings > 0 || m.state == Warning ==> m.factor == n.factor)
  {
  }

  /**
   The band between stable and congested: with enough samples, load that was stable and is congested
   at the next reading has risen by more than a tenth of a threshold, in latency or in requests.
   */
  lemma HysteresisBand(c: Config, a: Signals, b: Signals)
    requires a.sampleCount >= MINIMUM_SAMPLE_COUNT
    requires Classify(c, a) == Stable && Classify(c, b) == Congested
    ensures || 10.0 * (b.p99LatencyMs - a.p99LatencyMs) > c.latencyThresholdMs as real
            || 10 * (b.activeRequests - a.activeRequests) > c.concurrencyThreshold
  {
  }

  // ---------------------------------------------------------------------------------------------
  // Runs of readings under one configuration

  function Feed(c: Config, n: Snapshot, rs: seq<Signals>): Snapshot
    decreases |rs|
  {
    if rs == [] then n else Feed(c, Process(c, n, rs[0]), rs[1..])
  }

  function Increases(c: Config, n: Snapshot, rs: seq<Signals>): nat
    decreases |rs|
  {
    if rs == [] then 0
    else (if Raises(c, n, rs[0]) then 1 else 0) + Increases(c, Process(c, n, rs[0]), rs[1..])
  }

  function Decreases(c: Config, n: Snapshot, rs: seq<Signals>): nat
    decreases |rs|
  {
    if rs == [] then 0
    else (if Lowers(c, n, rs[0]) then 1 else 0) + Decreases(c, Process(c, n, rs[0]), rs[1..])
  }

  /** Every increase has paid for two readings and every decrease for three, counters included. */
  lemma {:induction false} StepsArePaidFor(c: Config, n: Snapshot, rs: seq<Signals>)
    ensures 2 * Increases(c, n, rs) + Feed(c, n, rs).congestedReadings <= |rs| + n.congestedReadings
    ensures 3 * Decreases(c, n, rs) + Feed(c, n, rs).stableReadings <= |rs| + n.stableReadings
    ensures 2 * Increases(c, n, rs) + 3 * Decreases(c, n, rs)
          + Feed(c, n, rs).congestedReadings + Feed(c, n, rs).stableReadings
         <= |rs| + n.congestedReadings + n.stableReadings
    decreases |rs|
  {
    if rs != [] {
      StepsArePaidFor(c, Process(c, n, rs[0]), rs[1..]);
    }
  }

  lemma {:induction false} FactorMovesByCountedSteps(c: Config, n: Snapshot, rs: seq<Signals>)
    requires Sound(c) && rs != []
    ensures
      var f := Feed(c, n, rs).factor - Clamp(n.factor, c.minFactor, c.maxFactor);
      -DECREASE_STEP * Decreases(c, n, rs) as real <= f <= STRONG_INCREASE_STEP * Increases(c, n, rs) as real
    decreases |rs|
  {
    if |rs| > 1 {
      FactorMovesByCountedSteps(c, Process(c, n, rs[0]), rs[1..]);
    }
  }

  /** How far the factor can have moved after so many readings, whatever they were. */
  lemma FactorDriftBound(c: Config, n: Snapshot, rs: seq<Signals>)
    requires Sound(c) && rs != []
    ensures
      var f := Feed(c, n, rs).factor - Clamp(n.factor, c.minFactor, c.maxFactor);
      && -DECREASE_STEP * ((|rs| + n.stableReadings) / 3) as real <= f
      && f <= STRONG_INCREASE_STEP * ((|rs| + n.congestedReadings) / 2) as real
  {
    FactorMovesByCountedSteps(c, n, rs);
    StepsArePaidFor(c, n, rs);
    var up, down := Increases(c, n, rs), Decreases(c, n, rs);
    assert up <= (|rs| + n.congestedReadings) / 2;
    assert down <= (|rs| + n.stableReadings) / 3;
  }

  function Ceil(x: real): int {
    -((-x).Floor)
  }

  function MinR(a: real, b: real): real {
    if a < b then a else b
  }

  ghost predicate AllAre(c: Config, rs: seq<Signals>, state: LoadState) {
    forall i :: 0 <= i < |rs| ==> Classify(c, rs[i]) == state
  }

  /** A configuration change can leave the factor outside its range: the first reading clamps it. */
  predicate Clamped(c: Config, n: Snapshot, rs: seq<Signals>) {
    rs != [] || c.minFactor <= n.factor <= c.maxFactor
  }

  function Start(c: Config, n: Snapshot): real {
    Clamp(n.factor, c.minFactor, c.maxFactor)
  }

  /** Unbroken congestion raises the factor on every second reading, by a weak or a strong step. */
  lemma {:induction false} CongestionRaises(c: Config, n: Snapshot, rs: seq<Signals>)
    requires Sound(c) && Clamped(c, n, rs)
    requires n.congestedReadings < CONGESTED_READINGS_REQUIRED && AllAre(c, rs, Congested)
    ensures
      var k := (|rs| + n.congestedReadings) / 2;
      && Feed(c, n, rs).congestedReadings == (|rs| + n.congestedReadings) % 2
      && MinR(c.maxFactor, Start(c, n) + INCREASE_STEP * k as real) <= Feed(c, n, rs).factor
      && Feed(c, n, rs).factor <= MinR(c.maxFactor, Start(c, n) + STRONG_INCREASE_STEP * k as real)
    decreases |rs|
  {
    if rs != [] {
      assert Classify(c, rs[0]) == Congested;
      CongestionRaises(c, Process(c, n, rs[0]), rs[1..]);
    }
  }

  /** Unbroken stability lowers the factor on every third reading, down to the minimum. */
  lemma {:induction false} StabilityLowers(c: Config, n: Snapshot, rs: seq<Signals>)
    requires Sound(c) && Clamped(c, n, rs)
    requires n.stableReadings < STABLE_READINGS_REQUIRED && AllAre(c, rs, Stable)
    ensures
      var k := (|rs| + n.stableReadings) / 3;
      && Feed(c, n, rs).stableReadings == (|rs| + n.stableReadings) % 3
      && Feed(c, n, rs).factor == Clamp(Start(c, n) - DECREASE_STEP * k as real, c.minFactor, c.maxFactor)
    decreases |rs|
  {
    if rs != [] {
      assert Classify(c, rs[0]) == Stable;
      StabilityLowers(c, Process(c, n, rs[0]), rs[1..]);
    }
  }

  lemma StepsEnough(k: int, distance: real)
    requires k >= Ceil(distance / INCREASE_STEP)
    ensures INCREASE_STEP * k as real >= distance
  {
    assert k as real >= distance / INCREASE_STEP;
  }

  /** Under unbroken congestion the factor is at its maximum from this reading on. */
  lemma CongestionConverges(c: Config, n: Snapshot, rs: seq<Signals>)
    requires Sound(c) && Clamped(c, n, rs)
    requires n.congestedReadings < CONGESTED_READINGS_REQUIRED && AllAre(c, rs, Congested)
    requires |rs| >= 2 * Ceil((c.maxFactor - Start(c, n)) / INCREASE_STEP)
    ensures Feed(c, n, rs).factor == c.maxFactor
  {
    CongestionRaises(c, n, rs);
    StepsEnough((|rs| + n.congestedReadings) / 2, c.maxFactor - Start(c, n));
  }

  /** Under unbroken stability the factor is at its minimum from this reading on, and not before. */
  lemma StabilityConverges(c: Config, n: Snapshot, rs: seq<Signals>)
    requires Sound(c) && Clamped(c, n, rs)
    requires n.stableReadings < STABLE_READINGS_REQUIRED && AllAre(c, rs, Stable)
    ensures Feed(c, n, rs).factor == c.minFactor <==>
              (|rs| + n.stableReadings) / 3 >= Ceil((Start(c, n) - c.minFactor) / DECREASE_STEP)
  {
    StabilityLowers(c, n, rs);
    var k := (|rs| + n.stableReadings) / 3;
    var x := (Start(c, n) - c.minFactor) / DECREASE_STEP;
    assert k >= Ceil(x) <==> k as real >= x;
  }

  // ---------------------------------------------------------------------------------------------
  // When heavier load keeps the larger factor

  /**
   The controller under lighter load does not raise alone and the one under heavier load does not
   lower alone. Only classifications and counters decide this.
   */
  predicate NoLoneStep(c: Config, n: Snapshot, m: Snapshot, a: Signals, b: Signals) {
    (Raises(c, n, a) ==> Raises(c, m, b)) && (Lowers(c, m, b) ==> Lowers(c, n, a))
  }

  /** Whatever the two factors are, this reading does not put the smaller one in front. */
  ghost predicate KeepsOrder(c: Config, n: Snapshot, m: Snapshot, a: Signals, b: Signals) {
    forall f, g :: f <= g ==> Process(c, n.(factor := f), a).factor <= Process(c, m.(factor := g), b).factor
  }

  /** A heavier reading keeps the order of every two factors exactly when it causes no lone step. */
  lemma ReadingKeepsOrderExactly(c: Config, n: Snapshot, m: Snapshot, a: Signals, b: Signals)
    requires Sound(c) && NoLighter(a, b)
    ensures KeepsOrder(c, n, m, a, b) <==> NoLoneStep(c, n, m, a, b) || c.minFactor == c.maxFactor
  {
    ClassifyMonotone(c, a, b);
    if c.minFactor < c.maxFactor && !NoLoneStep(c, n, m, a, b) {
      var f := if Raises(c, n, a) && !Raises(c, m, b) then c.minFactor else c.maxFactor;
      assert Process(c, n.(factor := f), a).factor > Process(c, m.(factor := f), b).factor;
    }
  }

  ghost predicate NoLighterStream(a: seq<Signals>, b: seq<Signals>) {
    |a| == |b| && forall i :: 0 <= i < |a| ==> NoLighter(a[i], b[i])
  }

  ghost predicate InStep(c: Config, n: Snapshot, m: Snapshot, a: seq<Signals>, b: seq<Signals>)
    requires |a| == |b|
    decreases |a|
  {
    a != [] ==>
      && NoLoneStep(c, n, m, a[0], b[0])
      && InStep(c, Process(c, n, a[0]), Process(c, m, b[0]), a[1..], b[1..])
  }

  /** Heavier load reading by reading leaves a factor at least as large while no controller steps alone. */
  lemma {:induction false} HeavierLoadLargerFactor(
    c: Config, n: Snapshot, m: Snapshot, a: seq<Signals>, b: seq<Signals>)
    requires Sound(c) && NoLighterStream(a, b) && InStep(c, n, m, a, b)
    requires n.factor <= m.factor
    ensures Feed(c, n, a).factor <= Feed(c, m, b).factor
    decreases |a|
  {
    if a != [] {
      ClassifyMonotone(c, a[0], b[0]);
      HeavierLoadLargerFactor(c, Process(c, n, a[0]), Process(c, m, b[0]), a[1..], b[1..]);
    }
  }

  /** Reading by reading, whatever factors the two controllers have come to, the order is kept. */
  ghost predicate KeepsOrderThroughout(c: Config, n: Snapshot, m: Snapshot, a: seq<Signals>, b: seq<Signals>)
    requires |a| == |b|
  {
    forall k :: 0 <= k < |a| ==> KeepsOrder(c, Feed(c, n, a[..k]), Feed(c, m, b[..k]), a[k], b[k])
  }

  /** And that condition is exact: a lone step anywhere on the way can invert the order there. */
  lemma {:induction false} InStepExactly(c: Config, n: Snapshot, m: Snapshot, a: seq<Signals>, b: seq<Signals>)
    requires Sound(c) && c.minFactor < c.maxFactor && NoLighterStream(a, b)
    ensures InStep(c, n, m, a, b) <==> KeepsOrderThroughout(c, n, m, a, b)
    decreases |a|
  {
    if a != [] {
      var n', m' := Process(c, n, a[0]), Process(c, m, b[0]);
      ReadingKeepsOrderExactly(c, n, m, a[0], b[0]);
      InStepExactly(c, n', m', a[1..], b[1..]);
      ThroughoutSplits(c, n, m, a, b);
    }
  }

  lemma ThroughoutSplits(c: Config, n: Snapshot, m: Snapshot, a: seq<Signals>, b: seq<Signals>)
    requires |a| == |b| > 0
    ensures KeepsOrderThroughout(c, n, m, a, b) <==>
              && KeepsOrder(c, n, m, a[0], b[0])
              && KeepsOrderThroughout(c, Process(c, n, a[0]), Process(c, m, b[0]), a[1..], b[1..])
  {
    var n', m' := Process(c, n, a[0]), Process(c, m, b[0]);
    assert Feed(c, n, a[..0]) == n && Feed(c, m, b[..0]) == m;
    forall k | 0 < k < |a|
      ensures Feed(c, n, a[..k]) == Feed(c, n', a[1..][..k - 1])
      ensures Feed(c, m, b[..k]) == Feed(c, m', b[1..][..k - 1])
    {
      assert a[..k][1..] == a[1..][..k - 1] && b[..k][1..] == b[1..][..k - 1];
    }
    if KeepsOrder(c, n, m, a[0], b[0]) && KeepsOrderThroughout(c, n', m', a[1..], b[1..]) {
      forall k | 0 <= k < |a| ensures KeepsOrder(c, Feed(c, n, a[..k]), Feed(c, m, b[..k]), a[k], b[k]) {
        assert k > 0 ==>
            KeepsOrder(c, Feed(c, n', a[1..][..k - 1]), Feed(c, m', b[1..][..k - 1]), a[1..][k - 1], b[1..][k - 1]);
      }
    }
    if KeepsOrderThroughout(c, n, m, a, b) {
      forall k | 0 <= k < |a| - 1
        ensures KeepsOrder(c, Feed(c, n', a[1..][..k]), Feed(c, m', b[1..][..k]), a[1..][k], b[1..][k])
      {
        assert KeepsOrder(c, Feed(c, n, a[..k + 1]), Feed(c, m, b[..k + 1]), a[k + 1], b[k + 1]);
      }
    }
  }

  ghost predicate ClassifiedAlike(c: Config, a: seq<Signals>, b: seq<Signals>) {
    |a| == |b| && forall i :: 0 <= i < |a| ==> Classify(c, a[i]) == Classify(c, b[i])
  }

  lemma {:induction false} AlikeIsInStep(c: Config, n: Snapshot, m: Snapshot, a: seq<Signals>, b: seq<Signals>)
    requires ClassifiedAlike(c, a, b)
    requires n.congestedReadings == m.congestedReadings && n.stableReadings == m.stableReadings
    ensures InStep(c, n, m, a, b)
    decreases |a|
  {
    if a != [] {
      assert Classify(c, a[0]) == Classify(c, b[0]);
      AlikeIsInStep(c, Process(c, n, a[0]), Process(c, m, b[0]), a[1..], b[1..]);
    }
  }

  /** In particular when every reading is classified alike, so that only the step sizes can differ. */
  lemma AlikeLoadLargerFactor(c: Config, n: Snapshot, m: Snapshot, a: seq<Signals>, b: seq<Signals>)
    requires Sound(c) && NoLighterStream(a, b) && ClassifiedAlike(c, a, b)
    requires n.congestedReadings == m.congestedReadings && n.stableReadings == m.stableReadings
    requires n.factor <= m.factor
    ensures Feed(c, n, a).factor <= Feed(c, m, b).factor
  {
    AlikeIsInStep(c, n, m, a, b);
    HeavierLoadLargerFactor(c, n, m, a, b);
  }

  /**
   Without that condition heavier load can leave the smaller factor: it may spend its two congested
   readings early, on a weak step.
   */
  lemma HeavierLoadSmallerFactor()
    ensures
      var light := [Signals(0.0, 11, 12, 0), Signals(600.0, 11, 12, 20), Signals(600.0, 12, 12, 20)];
      var heavy := [Signals(0.0, 12, 12, 0), Signals(600.0, 11, 12, 20), Signals(600.0, 12, 12, 20)];
      && NoLighterStream(light, heavy) && !InStep(DEFAULT_CONFIG, INITIAL_SNAPSHOT, INITIAL_SNAPSHOT, light, heavy)
      && Feed(DEFAULT_CONFIG, INITIAL_SNAPSHOT, light).factor > Feed(DEFAULT_CONFIG, INITIAL_SNAPSHOT, heavy).factor
  {
    var light := [Signals(0.0, 11, 12, 0), Signals(600.0, 11, 12, 20), Signals(600.0, 12, 12, 20)];
    var heavy := [Signals(0.0, 12, 12, 0), Signals(600.0, 11, 12, 20), Signals(600.0, 12, 12, 20)];
    var c := DEFAULT_CONFIG;
    var l1, h1 := Process(c, INITIAL_SNAPSHOT, light[0]), Process(c, INITIAL_SNAPSHOT, heavy[0]);
    var l2, h2 := Process(c, l1, light[1]), Process(c, h1, heavy[1]);
    assert Feed(c, l2, light[2..]) == Process(c, l2, light[2]);
    assert Feed(c, h2, heavy[2..]) == Process(c, h2, heavy[2]);
    assert light[1..][1..] == light[2..] && heavy[1..][1..] == heavy[2..];
  }

  // ---------------------------------------------------------------------------------------------
  // Effective TTLs

  lemma InSecondsExactly(seconds: int)
    requires seconds >= 0
    ensures InSeconds(seconds) == seconds * SECOND <==> seconds * SECOND < DURATION_LIMIT
  {
  }

  lemma ProductGrows(x: real, y: real, f: real, g: real)
    requires 0.0 <= x <= y && 0.0 < f <= g
    ensures 0.0 <= x * f <= y * g
  {
    assert x * f <= y * f;
    assert y * f <= y * g;
  }

  lemma NanosecondsGrow(a: int, b: int, f: real, g: real)
    requires 0 <= a <= b && b * SECOND < DURATION_LIMIT && 0.0 < f <= g
    ensures 0.0 <= InNanoseconds(a, f) <= InNanoseconds(b, g)
  {
    InSecondsExactly(a);
    InSecondsExactly(b);
    ProductGrows(InSeconds(a) as real, InSeconds(b) as real, f, g);
  }

  lemma {:induction false} ScaleMonotone(a: int, b: int, factor: real)
    requires 0 <= a <= b && b * SECOND < DURATION_LIMIT && factor > 0.0
    ensures 0.0 <= InNanoseconds(a, factor) <= InNanoseconds(b, factor)
    ensures 0 <= Scale(a, factor) <= Scale(b, factor) <==> InNanoseconds(b, factor) < DURATION_LIMIT as real
  {
    NanosecondsGrow(a, b, factor, factor);
  }

  lemma ScaleGrows(a: int, f: real, g: real)
    requires 0 <= a * SECOND < DURATION_LIMIT && 0.0 < f <= g && InNanoseconds(a, g) < DURATION_LIMIT as real
    ensures Scale(a, f) <= Scale(a, g)
  {
    NanosecondsGrow(a, a, f, g);
  }

  lemma Unscaled(a: int)
    requires 0 <= a * SECOND < DURATION_LIMIT
    ensures Scale(a, INITIAL_FACTOR) == a * SECOND
  {
    InSecondsExactly(a);
  }

  lemma ScaledToZero(a: int, f: real)
    requires 0 <= a * SECOND < DURATION_LIMIT && f > 0.0
    ensures Scale(a, f) == 0 <==> InNanoseconds(a, f) < 1.0
  {
    NanosecondsGrow(a, a, f, f);
  }

  /**
   Unless the configured seconds wrap around, L1 does not outlive L2 and neither TTL is negative
   exactly when the scaled L2 TTL fits a duration. The L2 TTL is zero, which Redis takes as no expiry
   at all, exactly when the factor scales it below one nanosecond.
   */
  lemma EffectiveTtlsOrdered(c: Config, n: Snapshot)
    requires Sound(c) && NoWrap(c)
    ensures 0 <= EffectiveTtls(c, n).0 <= EffectiveTtls(c, n).1 <==>
              InNanoseconds(c.l2TtlSeconds, EffectiveFactor(c, n)) < DURATION_LIMIT as real
    ensures EffectiveTtls(c, n).1 == 0 <==>
              InNanoseconds(c.l2TtlSeconds, EffectiveFactor(c, n)) < 1.0
    ensures c.adaptiveTtlEnabled && InNanoseconds(c.l2TtlSeconds, c.maxFactor) < DURATION_LIMIT as real ==>
              Scale(c.l2TtlSeconds, c.minFactor) <= EffectiveTtls(c, n).1 <= Scale(c.l2TtlSeconds, c.maxFactor)
    ensures !c.adaptiveTtlEnabled ==>
              EffectiveTtls(c, n) == (c.l1TtlSeconds * SECOND, c.l2TtlSeconds * SECOND)
  {
    var f := EffectiveFactor(c, n);
    ScaleMonotone(c.l1TtlSeconds, c.l2TtlSeconds, f);
    ScaledToZero(c.l2TtlSeconds, f);
    if c.adaptiveTtlEnabled {
      if InNanoseconds(c.l2TtlSeconds, c.maxFactor) < DURATION_LIMIT as real {
        ScaledBetween(c.l2TtlSeconds, c.minFactor, f, c.maxFactor);
      }
    } else {
      Unscaled(c.l1TtlSeconds);
      Unscaled(c.l2TtlSeconds);
    }
  }

  lemma ScaledBetween(a: int, f: real, g: real, h: real)
    requires 0 <= a * SECOND < DURATION_LIMIT && 0.0 < f <= g <= h && InNanoseconds(a, h) < DURATION_LIMIT as real
    ensures Scale(a, f) <= Scale(a, g) <= Scale(a, h)
  {
    NanosecondsGrow(a, a, g, h);
    ScaleGrows(a, f, g);
    ScaleGrows(a, g, h);
  }

  /**
   The factor in force: one when the controller is disabled, otherwise the controller's own factor, or
   the bound it is nearest to when it lies outside the configured range.
   */
  predicate InForce(c: Config, n: Snapshot, g: real) {
    if !c.adaptiveTtlEnabled then g == 1.0
    else
      && c.minFactor <= g <= c.maxFactor
      && (c.minFactor <= n.factor <= c.maxFactor ==> g == n.factor)
      && (n.factor < c.minFactor ==> g == c.minFactor)
      && (n.factor > c.maxFactor ==> g == c.maxFactor)
  }

  /** The exact product, in nanoseconds. */
  function Exact(seconds: int, factor: real): real {
    (seconds * 1_000_000_000) as real * factor
  }

  /** `t` nanoseconds are `seconds` seconds times the factor, rounded down. */
  predicate ScaledDown(t: Time, seconds: int, factor: real) {
    t as real <= Exact(seconds, factor) < t as real + 1.0
  }

  lemma ExactIsInNanoseconds(a: int, f: real)
    requires 0 <= a * SECOND < DURATION_LIMIT
    ensures Exact(a, f) == InNanoseconds(a, f)
  {
    InSecondsExactly(a);
  }

  lemma ScaleRoundsDown(a: int, b: int, f: real)
    requires 0 <= a <= b && b * SECOND < DURATION_LIMIT && f > 0.0
    requires Exact(b, f) < DURATION_LIMIT as real
    ensures ScaledDown(Scale(a, f), a, f)
  {
    ExactIsInNanoseconds(a, f);
    ExactIsInNanoseconds(b, f);
    NanosecondsGrow(a, b, f, f);
  }

  /**
   Both TTLs are the configured seconds times the factor in force, rounded down to nanoseconds, as long
   as the larger of them fits a duration.
   */
  lemma EffectiveTtlsExactly(c: Config, n: Snapshot, g: real)
    requires Sound(c) && NoWrap(c) && InForce(c, n, g)
    requires Exact(c.l2TtlSeconds, g) < DURATION_LIMIT as real
    ensures ScaledDown(EffectiveTtls(c, n).0, c.l1TtlSeconds, g)
    ensures ScaledDown(EffectiveTtls(c, n).1, c.l2TtlSeconds, g)
  {
    assert g == EffectiveFactor(c, n);
    ScaleRoundsDown(c.l1TtlSeconds, c.l2TtlSeconds, g);
    ScaleRoundsDown(c.l2TtlSeconds, c.l2TtlSeconds, g);
  }

  /** Without that bound it goes wrong: the update endpoint accepts a TTL whose seconds wrap to a negative one. */
  lemma WrappedTtlIsNegative()
    ensures
      var c := DEFAULT_CONFIG.(l2TtlSeconds := 9_223_372_037);
      Validate(c) == Accepted && !NoWrap(c) && forall n :: EffectiveTtls(c, n).1 < 0 < EffectiveTtls(c, n).0
  {
    var c := DEFAULT_CONFIG.(l2TtlSeconds := 9_223_372_037);
    Unscaled(c.l1TtlSeconds);
    assert InSeconds(c.l2TtlSeconds) == -9_223_372_036_709_551_616;
  }

  lemma ZeroTtlAtMinimum(c: Config, n: Snapshot)
    requires Sound(c) && NoWrap(c) && c.adaptiveTtlEnabled && Start(c, n) == c.minFactor
    ensures EffectiveTtls(c, n).1 == 0 <==> InNanoseconds(c.l2TtlSeconds, c.minFactor) < 1.0
  {
    ScaledToZero(c.l2TtlSeconds, c.minFactor);
    assert EffectiveFactor(c, n) == c.minFactor;
  }

  /**
   Enough quiet readings in a row bring the L2 TTL to zero exactly when the minimum factor scales
   the configured one below a nanosecond.
   */
  lemma QuietLoadZeroTtlExactly(c: Config, n: Snapshot, rs: seq<Signals>)
    requires Sound(c) && NoWrap(c) && c.adaptiveTtlEnabled
    requires n.stableReadings < STABLE_READINGS_REQUIRED && AllAre(c, rs, Stable)
    requires (|rs| + n.stableReadings) / 3 >= Ceil((Start(c, n) - c.minFactor) / DECREASE_STEP)
    ensures EffectiveTtls(c, Feed(c, n, rs)).1 == 0 <==> InNanoseconds(c.l2TtlSeconds, c.minFactor) < 1.0
  {
    if rs != [] {
      StabilityConverges(c, n, rs);
    }
    ZeroTtlAtMinimum(c, Feed(c, n, rs));
  }

  /** The update endpoint accepts this one. */
  const TINY_FACTOR_CONFIG := DEFAULT_CONFIG.(adaptiveTtlEnabled := true, minFactor := 0.0000000000001)
  const QUIET := Signals(0.0, 0, 12, 0)

  /** With it, fifteen quiet readings from the start are enough. */
  lemma QuietLoadReachesZeroTtl()
    ensures Validate(TINY_FACTOR_CONFIG) == Accepted
    ensures EffectiveTtls(TINY_FACTOR_CONFIG, Feed(TINY_FACTOR_CONFIG, INITIAL_SNAPSHOT, seq(15, _ => QUIET))).1 == 0
  {
    var c, rs := TINY_FACTOR_CONFIG, seq(15, _ => QUIET);
    assert Classify(c, QUIET) == Stable;
    assert Ceil((INITIAL_FACTOR - c.minFactor) / DECREASE_STEP) <= 5;
    InSecondsExactly(c.l2TtlSeconds);
    QuietLoadZeroTtlExactly(c, INITIAL_SNAPSHOT, rs);
  }
}
