/**
  Sequences of calls on one backend's assumption cache: calibrations,
  plan markings made through the pointer `get_assumption` returns, and
  removals. Properties that span many calls are stated over `RunOps`.
 */
module Trace {
  import opened AssumptionTypes
  import opened AssumptionStore
  import opened Calibration

  /**
    A feature-space site with a nonzero fingerprint. Creation asserts a
    nonzero fingerprint, so a call with a zero one could only pass
    through, miss or break that assertion; runs leave such calls out.
   */
  type Site = k: Key | k.hash != 0 witness Key(0, 1)

  /** One call on the cache. */
  datatype Op =
    | Calibrate(site: Site, rows: real)
    | Mark(site: Site)
    | Drop(site: Site)

  /** What a call hands back to its caller. */
  datatype Reply = Estimate(rows: real) | Found(found: bool) | Marked

  datatype Step = Step(store: Store, reply: Reply)

  datatype Run = Run(store: Store, replies: seq<Reply>)

  /** The entry a lookup of `key` finds. */
  function At(store: Store, key: Key): (a: Option<Assumption>) {
    GetAssumption(store, key.space, key.hash)
  }

  /** One call: no key but the call's own gains an entry. */
  function Apply(cfg: Config, clamp: real -> real, store: Store, op: Op): (s: Step)
    requires Ready(cfg)
    ensures s.store.Keys <= store.Keys + {op.site}
  {
    match op
    case Calibrate(site, rows) =>
      var o := DoAssumption(cfg, clamp, store, site.space, site.hash, rows);
      Step(o.store, Estimate(o.estimate))
    case Mark(site) =>
      Step(MarkInPlan(store, site.space, site.hash), Marked)
    case Drop(site) =>
      var d := DropAssumption(store, site.space, site.hash);
      Step(d.store, Found(d.found))
  }

  /** One call leaves every entry under another key as it was. */
  lemma ApplyFrame(cfg: Config, clamp: real -> real, store: Store, op: Op, k: Key)
    requires Ready(cfg)
    requires k != op.site
    ensures At(Apply(cfg, clamp, store, op).store, k) == At(store, k)
  {
  }

  /** Runs the calls in order from `store`, collecting one reply per call. */
  function RunOps(cfg: Config, clamp: real -> real, store: Store, ops: seq<Op>): (t: Run)
    requires Ready(cfg)
    ensures |t.replies| == |ops|
    decreases |ops|
  {
    if ops == [] then
      Run(store, [])
    else
      var before := RunOps(cfg, clamp, store, ops[..|ops| - 1]);
      var last := Apply(cfg, clamp, before.store, ops[|ops| - 1]);
      Run(last.store, before.replies + [last.reply])
  }

  /** Running one more call is applying it to where the run got to. */
  lemma RunSnoc(cfg: Config, clamp: real -> real, store: Store, ops: seq<Op>, op: Op)
    requires Ready(cfg)
    ensures var before := RunOps(cfg, clamp, store, ops);
            var last := Apply(cfg, clamp, before.store, op);
            RunOps(cfg, clamp, store, ops + [op]) == Run(last.store, before.replies + [last.reply])
  {
    assert (ops + [op])[..|ops|] == ops;
  }

  /** The keys a call sequence names. */
  function KeysOf(ops: seq<Op>): (keys: set<Key>) {
    set op | op in ops :: op.site
  }

  /** No entry appears under a key that no call of the run named. */
  lemma {:induction false} RunOnlyAddsNamedKeys(cfg: Config, clamp: real -> real, store: Store, ops: seq<Op>)
    requires Ready(cfg)
    ensures RunOps(cfg, clamp, store, ops).store.Keys <= store.Keys + KeysOf(ops)
    decreases |ops|
  {
    if ops != [] {
      var init := ops[..|ops| - 1];
      var last := ops[|ops| - 1];
      assert ops == init + [last];
      RunSnoc(cfg, clamp, store, init, last);
      RunOnlyAddsNamedKeys(cfg, clamp, store, init);
      assert KeysOf(init) + {last.site} <= KeysOf(ops);
    }
  }

  /** The calls among `ops` that name `key`, in their original order. */
  function OnKey(ops: seq<Op>, key: Key): (r: seq<Op>)
    ensures |r| <= |ops|
    ensures forall op :: op in r ==> op in ops && op.site == key
    decreases |ops|
  {
    if ops == [] then
      []
    else
      var init := OnKey(ops[..|ops| - 1], key);
      assert forall op :: op in ops[..|ops| - 1] ==> op in ops;
      if ops[|ops| - 1].site == key then init + [ops[|ops| - 1]] else init
  }

  /** A call on `key` leaves under `key` what the entry under `key` alone determines. */
  lemma ApplyDependsOnlyOnKey(cfg: Config, clamp: real -> real, s1: Store, s2: Store, op: Op)
    requires Ready(cfg)
    requires At(s1, op.site) == At(s2, op.site)
    ensures At(Apply(cfg, clamp, s1, op).store, op.site) == At(Apply(cfg, clamp, s2, op).store, op.site)
    ensures Apply(cfg, clamp, s1, op).reply == Apply(cfg, clamp, s2, op).reply
  {
  }

  /**
    Entries are independent: what a run leaves under `key` is what the
    same run leaves there when every call on another key is left out.
   */
  lemma {:induction false} RunIsLocal(cfg: Config, clamp: real -> real, store: Store, ops: seq<Op>, key: Key)
    requires Ready(cfg)
    ensures At(RunOps(cfg, clamp, store, ops).store, key) == At(RunOps(cfg, clamp, store, OnKey(ops, key)).store, key)
    decreases |ops|
  {
    if ops != [] {
      var init := ops[..|ops| - 1];
      var last := ops[|ops| - 1];
      assert ops == init + [last];
      RunSnoc(cfg, clamp, store, init, last);
      RunIsLocal(cfg, clamp, store, init, key);
      var kept := OnKey(init, key);
      var full := RunOps(cfg, clamp, store, init).store;
      var part := RunOps(cfg, clamp, store, kept).store;
      if last.site == key {
        assert OnKey(ops, key) == kept + [last];
        RunSnoc(cfg, clamp, store, kept, last);
        ApplyDependsOnlyOnKey(cfg, clamp, full, part, last);
      } else {
        assert OnKey(ops, key) == kept;
        ApplyFrame(cfg, clamp, full, last, key);
      }
    }
  }

  /** Every entry has been used at least once and carries a nonzero fingerprint. */
  predicate WellFormed(store: Store) {
    forall k :: k in store ==> k.hash != 0 && store[k].counter >= 1
  }

  /** One call keeps the cache well-formed. */
  lemma ApplyKeepsWellFormed(cfg: Config, clamp: real -> real, store: Store, op: Op)
    requires Ready(cfg)
    requires WellFormed(store)
    ensures WellFormed(Apply(cfg, clamp, store, op).store)
  {
    var s := Apply(cfg, clamp, store, op).store;
    forall k | k in s ensures k.hash != 0 && s[k].counter >= 1 {
      if k != op.site {
        ApplyFrame(cfg, clamp, store, op, k);
      }
    }
  }

  /** A run from a well-formed cache leaves a well-formed cache. */
  lemma {:induction false} RunKeepsWellFormed(cfg: Config, clamp: real -> real, store: Store, ops: seq<Op>)
    requires Ready(cfg)
    requires WellFormed(store)
    ensures WellFormed(RunOps(cfg, clamp, store, ops).store)
    decreases |ops|
  {
    if ops != [] {
      var init := ops[..|ops| - 1];
      var last := ops[|ops| - 1];
      assert ops == init + [last];
      RunSnoc(cfg, clamp, store, init, last);
      RunKeepsWellFormed(cfg, clamp, store, init);
      ApplyKeepsWellFormed(cfg, clamp, RunOps(cfg, clamp, store, init).store, last);
    }
  }

  /** `clamp` never answers below `floor`, as `clamp_row_est` never answers below one row. */
  ghost predicate ClampFloor(clamp: real -> real, floor: real) {
    forall x :: clamp(x) >= floor
  }

  /** Every calibrated cardinality in the cache is at least `floor`. */
  predicate AtLeast(store: Store, floor: real) {
    forall k :: k in store ==> store[k].cardinality >= floor
  }

  /** A reply that is an estimate is at or above `floor`. */
  predicate EstimateAtLeast(reply: Reply, floor: real) {
    reply.Estimate? ==> reply.rows >= floor
  }

  /** One call keeps every cardinality at or above the floor, and answers at or above it. */
  lemma ApplyStaysAboveFloor(cfg: Config, clamp: real -> real, store: Store, op: Op, floor: real)
    requires Ready(cfg)
    requires ClampFloor(clamp, floor) && AtLeast(store, floor)
    requires op.Calibrate? ==> op.rows >= floor
    ensures AtLeast(Apply(cfg, clamp, store, op).store, floor)
    ensures EstimateAtLeast(Apply(cfg, clamp, store, op).reply, floor)
  {
    var s := Apply(cfg, clamp, store, op).store;
    forall k | k in s ensures s[k].cardinality >= floor {
      if k != op.site {
        ApplyFrame(cfg, clamp, store, op, k);
      }
    }
  }

  /**
    If `clamp` never answers below `floor`, the cache starts at or above
    it and every raw estimate handed in is at or above it, then every
    estimate a run hands back is at or above it, and so is every entry.
   */
  lemma {:induction false} RunStaysAboveFloor(cfg: Config, clamp: real -> real, store: Store, ops: seq<Op>, floor: real)
    requires Ready(cfg)
    requires ClampFloor(clamp, floor) && AtLeast(store, floor)
    requires forall op :: op in ops && op.Calibrate? ==> op.rows >= floor
    ensures AtLeast(RunOps(cfg, clamp, store, ops).store, floor)
    ensures forall i :: 0 <= i < |ops| ==> EstimateAtLeast(RunOps(cfg, clamp, store, ops).replies[i], floor)
    decreases |ops|
  {
    if ops != [] {
      var init := ops[..|ops| - 1];
      var last := ops[|ops| - 1];
      assert ops == init + [last];
      assert forall op :: op in init ==> op in ops;
      RunSnoc(cfg, clamp, store, init, last);
      RunStaysAboveFloor(cfg, clamp, store, init, floor);
      var before := RunOps(cfg, clamp, store, init);
      ApplyStaysAboveFloor(cfg, clamp, before.store, last, floor);
      var t := RunOps(cfg, clamp, store, ops);
      forall i | 0 <= i < |ops| ensures EstimateAtLeast(t.replies[i], floor) {
        if i < |init| {
          assert t.replies[i] == before.replies[i];
        }
      }
    }
  }

  /** Calls that only ask for the calibration at `site`, with whatever raw estimates. */
  predicate OnlyCalibrates(ops: seq<Op>, site: Site) {
    forall i :: 0 <= i < |ops| ==> ops[i].Calibrate? && ops[i].site == site
  }

  /** The entry, and the answer, after one more calibration of an unmarked entry. */
  lemma OneReuse(cfg: Config, clamp: real -> real, store: Store, ops: seq<Op>, site: Site, rows: real)
    requires Ready(cfg) && cfg.useAssumptions
    requires site in RunOps(cfg, clamp, store, ops).store
    requires !RunOps(cfg, clamp, store, ops).store[site].inPlan
    ensures var before := RunOps(cfg, clamp, store, ops);
            var e := before.store[site];
            var t := RunOps(cfg, clamp, store, ops + [Calibrate(site, rows)]);
            && site in t.store
            && t.store[site] == e.(plannerEstimation := rows, counter := e.counter + 1)
            && t.replies == before.replies + [Estimate(e.cardinality)]
  {
    RunSnoc(cfg, clamp, store, ops, Calibrate(site, rows));
  }

  /**
    Repeated calibration of a seen site whose calibration was not put
    into a plan hands back the stored cardinality every time, whatever
    raw estimates come in, leaves it as it is and counts every call.
   */
  lemma {:induction false} ReuseConverges(cfg: Config, clamp: real -> real, store: Store, site: Site, ops: seq<Op>)
    requires Ready(cfg) && cfg.useAssumptions
    requires site in store && !store[site].inPlan
    requires OnlyCalibrates(ops, site)
    ensures var t := RunOps(cfg, clamp, store, ops);
            && site in t.store
            && t.store[site].cardinality == store[site].cardinality
            && t.store[site].counter == store[site].counter + |ops|
            && !t.store[site].inPlan
            && forall i :: 0 <= i < |ops| ==> t.replies[i] == Estimate(store[site].cardinality)
    decreases |ops|
  {
    if ops != [] {
      var init := ops[..|ops| - 1];
      var last := ops[|ops| - 1];
      assert ops == init + [Calibrate(site, last.rows)];
      assert OnlyCalibrates(init, site);
      ReuseConverges(cfg, clamp, store, site, init);
      OneReuse(cfg, clamp, store, init, site, last.rows);
      var before := RunOps(cfg, clamp, store, init).replies;
      var after := RunOps(cfg, clamp, store, ops).replies;
      forall i | 0 <= i < |ops| ensures after[i] == Estimate(store[site].cardinality) {
        if i < |init| {
          assert after[i] == before[i];
        }
      }
    }
  }

  /** A calibration `c` escalated `n` times. */
  function Escalated(clamp: real -> real, c: real, n: nat): (e: real) {
    if n == 0 then c else Escalate(clamp, Escalated(clamp, c, n - 1))
  }

  /**
    The calls are `n` rounds of: the calibration at `site` is put into a
    plan, then asked for again with whatever raw estimate.
   */
  predicate AreRounds(ops: seq<Op>, site: Site, n: nat) {
    && |ops| == 2 * n
    && forall i :: 0 <= i < n ==> ops[2 * i] == Mark(site) && ops[2 * i + 1].Calibrate? && ops[2 * i + 1].site == site
  }

  /** Putting an existing entry's calibration into a plan sets its mark and answers `Marked`. */
  lemma OneMark(cfg: Config, clamp: real -> real, store: Store, ops: seq<Op>, site: Site)
    requires Ready(cfg)
    requires site in RunOps(cfg, clamp, store, ops).store
    ensures var before := RunOps(cfg, clamp, store, ops);
            var t := RunOps(cfg, clamp, store, ops + [Mark(site)]);
            && site in t.store
            && t.store[site] == before.store[site].(inPlan := true)
            && t.replies == before.replies + [Marked]
  {
    RunSnoc(cfg, clamp, store, ops, Mark(site));
  }

  /** Asking again for a marked calibration escalates it and clears the mark. */
  lemma OneEscalation(cfg: Config, clamp: real -> real, store: Store, ops: seq<Op>, site: Site, rows: real)
    requires Ready(cfg) && cfg.useAssumptions
    requires site in RunOps(cfg, clamp, store, ops).store
    requires RunOps(cfg, clamp, store, ops).store[site].inPlan
    ensures var before := RunOps(cfg, clamp, store, ops);
            var e := before.store[site];
            var t := RunOps(cfg, clamp, store, ops + [Calibrate(site, rows)]);
            && site in t.store
            && t.store[site] == Assumption(Escalate(clamp, e.cardinality), rows, false, e.counter + 1)
            && t.replies == before.replies + [Estimate(Escalate(clamp, e.cardinality))]
  {
    RunSnoc(cfg, clamp, store, ops, Calibrate(site, rows));
  }

  /**
    A calibration that keeps being put into plans without being confirmed
    grows ten-fold (then clamped) each time it is asked for again, whatever
    raw estimate comes in: after n rounds the entry holds the calibration
    escalated n times, with n more uses counted. This holds in the frozen
    posture too.
   */
  lemma {:induction false} EscalationCompounds(cfg: Config, clamp: real -> real, store: Store, site: Site, ops: seq<Op>, n: nat)
    requires Ready(cfg) && cfg.useAssumptions
    requires site in store
    requires AreRounds(ops, site, n)
    ensures var t := RunOps(cfg, clamp, store, ops);
            && site in t.store
            && t.store[site].cardinality == Escalated(clamp, store[site].cardinality, n)
            && t.store[site].counter == store[site].counter + n
            && (n > 0 ==> !t.store[site].inPlan)
            && (n > 0 ==> t.replies[2 * n - 1] == Estimate(Escalated(clamp, store[site].cardinality, n)))
  {
    if n > 0 {
      var prev := ops[..2 * n - 2];
      assert ops[2 * (n - 1)] == Mark(site) && ops[2 * (n - 1) + 1].Calibrate? && ops[2 * (n - 1) + 1].site == site;
      var rows := ops[2 * (n - 1) + 1].rows;
      assert ops == prev + [Mark(site)] + [Calibrate(site, rows)];
      assert AreRounds(prev, site, n - 1);
      EscalationCompounds(cfg, clamp, store, site, prev, n - 1);
      OneMark(cfg, clamp, store, prev, site);
      OneEscalation(cfg, clamp, store, prev + [Mark(site)], site, rows);
    }
  }
}
