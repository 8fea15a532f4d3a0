/** The gateway configuration: its defaults and the checks of the update endpoint, in their order. */
module GatewayConfig {

  datatype Config = Config(
    l1MaxEntries: int,
    l2MaxEntries: int,
    l1TtlSeconds: int,
    l2TtlSeconds: int,
    singleFlightEnabled: bool,
    distributedLockEnabled: bool,
    earlyRefreshEnabled: bool,
    earlyRefreshBeta: real,
    backendTimeoutMs: int,
    adaptiveTtlEnabled: bool,
    minFactor: real,
    maxFactor: real,
    latencyThresholdMs: int,
    concurrencyThreshold: int,
    adjustmentIntervalMs: int)

  const INITIAL_FACTOR := 1.0

  function ApplyAdaptiveTtlDefaults(c: Config): Config {
    c.(minFactor := if c.minFactor <= 0.0 then 0.75 else c.minFactor,
       maxFactor := if c.maxFactor <= 0.0 then 4.0 else c.maxFactor,
       latencyThresholdMs := if c.latencyThresholdMs <= 0 then 500 else c.latencyThresholdMs,
       concurrencyThreshold := if c.concurrencyThreshold <= 0 then 12 else c.concurrencyThreshold,
       adjustmentIntervalMs := if c.adjustmentIntervalMs <= 0 then 5000 else c.adjustmentIntervalMs)
  }

  datatype Verdict =
    | Accepted
    | BadL1MaxEntries | BadL2MaxEntries | L1LargerThanL2
    | BadL1Ttl | BadL2Ttl | L1TtlLongerThanL2
    | BadBackendTimeout | BadBeta
    | BadMinFactor | MinFactorAboveOne | MaxFactorBelowOne | MaxBelowMin
    | BadLatencyThreshold | BadConcurrencyThreshold | BadAdjustmentInterval

  function Validate(c: Config): Verdict {
    if c.l1MaxEntries < 0 then BadL1MaxEntries
    else if c.l2MaxEntries <= 0 then BadL2MaxEntries
    else if c.l1MaxEntries > c.l2MaxEntries then L1LargerThanL2
    else if c.l1TtlSeconds <= 0 then BadL1Ttl
    else if c.l2TtlSeconds <= 0 then BadL2Ttl
    else if c.l1TtlSeconds > c.l2TtlSeconds then L1TtlLongerThanL2
    else if c.backendTimeoutMs <= 0 then BadBackendTimeout
    else if c.earlyRefreshBeta < 0.1 || c.earlyRefreshBeta > 10.0 then BadBeta
    else if c.minFactor <= 0.0 then BadMinFactor
    else if c.minFactor > INITIAL_FACTOR then MinFactorAboveOne
    else if c.maxFactor < INITIAL_FACTOR then MaxFactorBelowOne
    else if c.maxFactor < c.minFactor then MaxBelowMin
    else if c.latencyThresholdMs <= 0 then BadLatencyThreshold
    else if c.concurrencyThreshold <= 0 then BadConcurrencyThreshold
    else if c.adjustmentIntervalMs <= 0 then BadAdjustmentInterval
    else Accepted
  }

  /** What the caches, the lock and the controller rely on. */
  predicate Sound(c: Config) {
    && 0 <= c.l1MaxEntries <= c.l2MaxEntries && c.l2MaxEntries > 0
    && 0 < c.l1TtlSeconds <= c.l2TtlSeconds
    && c.backendTimeoutMs > 0
    && 0.1 <= c.earlyRefreshBeta <= 10.0
    && 0.0 < c.minFactor <= INITIAL_FACTOR <= c.maxFactor
    && c.latencyThresholdMs > 0 && c.concurrencyThreshold > 0 && c.adjustmentIntervalMs > 0
  }

  /**
   The update endpoint accepts exactly the sound configurations, and an accepted one is read back
   from the store unchanged by the defaults. One of its checks can never be the one that rejects.
   */
  lemma AcceptedIsSound(c: Config)
    ensures Validate(c) == Accepted <==> Sound(c)
    ensures Validate(c) == Accepted ==> ApplyAdaptiveTtlDefaults(c) == c
    ensures Validate(c) != MaxBelowMin
  {
  }

  /** The complaint that a verdict stands for, and its place in the order in which the endpoint looks. */
  function Complaint(c: Config, v: Verdict): (bool, nat) {
    match v
    case BadL1MaxEntries => (c.l1MaxEntries < 0, 1)
    case BadL2MaxEntries => (c.l2MaxEntries < 1, 2)
    case L1LargerThanL2 => (c.l2MaxEntries < c.l1MaxEntries, 3)
    case BadL1Ttl => (c.l1TtlSeconds < 1, 4)
    case BadL2Ttl => (c.l2TtlSeconds < 1, 5)
    case L1TtlLongerThanL2 => (c.l2TtlSeconds < c.l1TtlSeconds, 6)
    case BadBackendTimeout => (c.backendTimeoutMs < 1, 7)
    case BadBeta => (!(0.1 <= c.earlyRefreshBeta <= 10.0), 8)
    case BadMinFactor => (!(0.0 < c.minFactor), 9)
    case MinFactorAboveOne => (1.0 < c.minFactor, 10)
    case MaxFactorBelowOne => (c.maxFactor < 1.0, 11)
    case MaxBelowMin => (c.maxFactor < c.minFactor, 12)
    case BadLatencyThreshold => (c.latencyThresholdMs < 1, 13)
    case BadConcurrencyThreshold => (c.concurrencyThreshold < 1, 14)
    case BadAdjustmentInterval => (c.adjustmentIntervalMs < 1, 15)
    case Accepted => (true, 16)
  }

  /** The verdict is the first complaint that is justified. */
  lemma VerdictIsFirstComplaint(c: Config, v: Verdict)
    ensures Validate(c) == v <==>
              && Complaint(c, v).0
              && forall w :: Complaint(c, w).0 ==> Complaint(c, v).1 <= Complaint(c, w).1
  {
    assert Complaint(c, Validate(c)).0;
    forall w | Complaint(c, w).0 ensures Complaint(c, Validate(c)).1 <= Complaint(c, w).1 {
    }
  }

  /** The defaults repair exactly the adaptive fields that are not positive, and applying them again changes nothing. */
  lemma DefaultsRepair(c: Config)
    ensures
      var d := ApplyAdaptiveTtlDefaults(c);
      && ApplyAdaptiveTtlDefaults(d) == d
      && d.minFactor == (if c.minFactor > 0.0 then c.minFactor else 0.75)
      && d.maxFactor == (if c.maxFactor > 0.0 then c.maxFactor else 4.0)
      && d.latencyThresholdMs == (if c.latencyThresholdMs > 0 then c.latencyThresholdMs else 500)
      && d.concurrencyThreshold == (if c.concurrencyThreshold > 0 then c.concurrencyThreshold else 12)
      && d.adjustmentIntervalMs == (if c.adjustmentIntervalMs > 0 then c.adjustmentIntervalMs else 5000)
      && d.(minFactor := c.minFactor, maxFactor := c.maxFactor, latencyThresholdMs := c.latencyThresholdMs,
            concurrencyThreshold := c.concurrencyThreshold, adjustmentIntervalMs := c.adjustmentIntervalMs) == c
  {
  }

  const DEFAULT_CONFIG := Config(
    35, 70, 15, 30, false, false, false, 1.0, 7000, false, 0.75, 4.0, 500, 12, 5000)
}
