/**
  The data model of the per-backend assumption cache: its key, its entry,
  the configuration the cache reads, and the store itself.
 */
module AssumptionTypes {

  /** The C `int` used for both halves of the key and exported as int4. */
  newtype int32 = x: int | -0x8000_0000 <= x < 0x8000_0000

  datatype Option<+T> = None | Some(value: T)

  /**
    The estimation posture of the enclosing optimizer. Only two postures
    change what the cache does: `Disabled` (the cache must not be used at
    all) and `Frozen` (no new entries are created). `Learning` stands for
    every other posture, all of which behave alike here.
   */
  datatype Mode = Disabled | Frozen | Learning

  /**
    The global settings the cache reads: the `use_assumptions` switch,
    the optimizer posture, and the trust factor applied to a first-seen
    planner estimate.
   */
  datatype Config = Config(useAssumptions: bool, mode: Mode, selTrustFactor: real)

  /** The configurations the cache may be called under: a disabled posture with the feature on is a caller error. */
  predicate Ready(cfg: Config) {
    cfg.useAssumptions ==> cfg.mode != Disabled
  }

  /** A feature-space site: the feature space and the clause-set fingerprint. */
  datatype Key = Key(space: int32, hash: int32)

  /**
    One cached assumption. `cardinality` is the calibrated row count handed
    back to the planner, `plannerEstimation` the last raw estimate seen,
    `inPlan` records that the calibration went into a chosen plan and has
    not been confirmed since, and `counter` counts the calls that used it.
   */
  datatype Assumption = Assumption(cardinality: real, plannerEstimation: real, inPlan: bool, counter: nat)

  /** The cache: at most one assumption per key. */
  type Store = map<Key, Assumption>

  /** The cache before its first use (the hash table is created lazily, empty). */
  const EmptyStore: Store := map[]

  /** The factor applied to an unverified calibration that is asked for again. */
  const EscalationFactor: real := 10.0
}
