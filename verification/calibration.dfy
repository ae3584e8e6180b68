/**
  `do_assumption`: the state machine that turns a raw planner row estimate
  into the calibrated one, creating, reusing or escalating the entry for
  the feature-space site. `clamp` stands for the optimizer's
  `clamp_row_est`, which this model leaves abstract.
 */
module Calibration {
  import opened AssumptionTypes
  import opened AssumptionStore

  /** The calibrated row count returned to the planner, and the cache afterwards. */
  datatype Outcome = Outcome(estimate: real, store: Store)

  /** An unverified calibration `c` asked for again: ten-fold, then clamped. */
  function Escalate(clamp: real -> real, c: real): (e: real) {
    clamp(c * EscalationFactor)
  }

  /**
    The calls that hand `rows` straight back without touching the cache:
    the feature is off, or the key is unseen and the posture is frozen.
   */
  predicate PassesThrough(cfg: Config, store: Store, key: Key) {
    !cfg.useAssumptions || (key !in store && cfg.mode == Frozen)
  }

  /**
    The precondition of `do_assumption`: a disabled posture with the
    feature on is a caller error, and a zero fingerprint must never be
    inserted into the cache.
   */
  predicate CanAssume(cfg: Config, store: Store, space: int32, hash: int32) {
    && Ready(cfg)
    && (PassesThrough(cfg, store, Key(space, hash)) || Key(space, hash) in store || hash != 0)
  }

  /**
    The calibrated estimate for `rows` at the site `(space, hash)`.

    A pass-through call returns `rows` and leaves the cache alone. Any
    other call leaves an entry for the key whose calibrated cardinality is
    the result: on a miss a new entry seeded with `clamp(rows * trust)`;
    on a hit whose calibration went into a plan, the old cardinality
    escalated ten-fold (this happens in the frozen posture too, which
    only forbids creation); on any other hit, the old cardinality. Every
    such call clears `inPlan`, records `rows` as the last planner estimate
    and counts one more use. No other entry changes.
   */
  function DoAssumption(cfg: Config, clamp: real -> real, store: Store, space: int32, hash: int32, rows: real): (o: Outcome)
    requires CanAssume(cfg, store, space, hash)
    ensures PassesThrough(cfg, store, Key(space, hash)) ==> o == Outcome(rows, store)
    ensures !PassesThrough(cfg, store, Key(space, hash)) ==>
              && Key(space, hash) in o.store
              && o.estimate == o.store[Key(space, hash)].cardinality
              && o.store[Key(space, hash)].plannerEstimation == rows
              && !o.store[Key(space, hash)].inPlan
    ensures !PassesThrough(cfg, store, Key(space, hash)) && Key(space, hash) !in store ==>
              && o.store[Key(space, hash)].cardinality == clamp(rows * cfg.selTrustFactor)
              && o.store[Key(space, hash)].counter == 1
    ensures Key(space, hash) in store && store[Key(space, hash)].inPlan && cfg.useAssumptions ==>
              && o.store[Key(space, hash)].cardinality == Escalate(clamp, store[Key(space, hash)].cardinality)
              && o.store[Key(space, hash)].counter == store[Key(space, hash)].counter + 1
    ensures Key(space, hash) in store && !store[Key(space, hash)].inPlan && cfg.useAssumptions ==>
              && o.store[Key(space, hash)].cardinality == store[Key(space, hash)].cardinality
              && o.store[Key(space, hash)].counter == store[Key(space, hash)].counter + 1
    ensures o.store.Keys - {Key(space, hash)} == store.Keys - {Key(space, hash)}
    ensures forall k :: k in store && k != Key(space, hash) ==> k in o.store && o.store[k] == store[k]
  {
    var key := Key(space, hash);
    if !cfg.useAssumptions then
      Outcome(rows, store)
    else if key !in store && cfg.mode == Frozen then
      Outcome(rows, store)
    else
      var prior :=
        if key !in store then
          Assumption(clamp(rows * cfg.selTrustFactor), rows, false, 0)
        else if store[key].inPlan then
          // the previous calibration was used in a plan and never verified
          store[key].(cardinality := Escalate(clamp, store[key].cardinality), inPlan := false)
        else
          store[key];
      var used := prior.(plannerEstimation := rows, counter := prior.counter + 1);
      Outcome(used.cardinality, store[key := used])
  }

  /** Looking the key up right after a calibrating call finds the value that call returned. */
  lemma GetAfterCalibrate(cfg: Config, clamp: real -> real, store: Store, space: int32, hash: int32, rows: real)
    requires CanAssume(cfg, store, space, hash)
    requires !PassesThrough(cfg, store, Key(space, hash))
    ensures var o := DoAssumption(cfg, clamp, store, space, hash, rows);
            && GetAssumption(o.store, space, hash).Some?
            && GetAssumption(o.store, space, hash).value.cardinality == o.estimate
  {
  }

  /**
    A first calibration followed by a removal of the same key gives back
    the cache as it was, and the removal reports the key as found.
   */
  lemma CreateThenDropRestores(cfg: Config, clamp: real -> real, store: Store, space: int32, hash: int32, rows: real)
    requires CanAssume(cfg, store, space, hash)
    requires Key(space, hash) !in store && !PassesThrough(cfg, store, Key(space, hash))
    ensures DropAssumption(DoAssumption(cfg, clamp, store, space, hash, rows).store, space, hash) == Dropped(true, store)
  {
  }

  /**
    After a removal the next calibration for that key is a first sighting:
    it answers, and stores, exactly what it would on an empty cache.
   */
  lemma DropThenCalibrateIsFirstSeen(cfg: Config, clamp: real -> real, store: Store, space: int32, hash: int32, rows: real)
    requires Ready(cfg) && hash != 0
    ensures var dropped := DropAssumption(store, space, hash).store;
            var o := DoAssumption(cfg, clamp, dropped, space, hash, rows);
            var firstSeen := DoAssumption(cfg, clamp, EmptyStore, space, hash, rows);
            && o.estimate == firstSeen.estimate
            && GetAssumption(o.store, space, hash) == GetAssumption(firstSeen.store, space, hash)
  {
  }

  /**
    Asking twice with no plan marking in between returns the same
    calibrated value both times and counts two uses.
   */
  lemma ReuseIsStable(cfg: Config, clamp: real -> real, store: Store, space: int32, hash: int32, rows: real, rows': real)
    requires CanAssume(cfg, store, space, hash)
    requires !PassesThrough(cfg, store, Key(space, hash))
    ensures var first := DoAssumption(cfg, clamp, store, space, hash, rows);
            var second := DoAssumption(cfg, clamp, first.store, space, hash, rows');
            && second.estimate == first.estimate
            && second.store[Key(space, hash)].counter == first.store[Key(space, hash)].counter + 1
            && second.store.Keys == first.store.Keys
  {
  }

  /**
    Marking the calibration as used in a plan and then asking again
    escalates it: the answer is the old calibration times ten, clamped,
    and the mark is cleared.
   */
  lemma EscalationAfterMark(cfg: Config, clamp: real -> real, store: Store, space: int32, hash: int32, rows: real)
    requires Ready(cfg) && cfg.useAssumptions
    requires Key(space, hash) in store
    ensures var marked := MarkInPlan(store, space, hash);
            var o := DoAssumption(cfg, clamp, marked, space, hash, rows);
            && o.estimate == Escalate(clamp, store[Key(space, hash)].cardinality)
            && !o.store[Key(space, hash)].inPlan
  {
  }
}
