# AQO assumption cache, modelled in Dafny

This project models the per-backend assumption cache of the AQO adaptive
query optimizer (`assumptions.c`). The cache maps a feature-space site
`(space, hash)` to one calibrated assumption. An assumption holds:

- the calibrated row count (`cardinality`), which is what the planner gets back;
- the last raw planner estimate seen (`planner_estimation`);
- the `inPlan` flag, set once the calibration was put into a chosen plan and not yet confirmed;
- a use counter.

The model has five modules:

- `AssumptionTypes` (`types.dfy`) holds the data model. It has the key, the
  entry, the configuration (`use_assumptions`, the optimizer posture and
  `sel_trust_factor`) and the store, which is an immutable `map`. The lazily
  created hash table becomes the empty map.
- `AssumptionStore` (`store.dfy`) models `get_assumption` and
  `drop_assumption`. `MarkInPlan` models a caller setting `inPlan` through
  the pointer `get_assumption` returns. No such caller is part of this
  model, but without one the escalation branch of `do_assumption` is
  unreachable.
- `Calibration` (`calibration.dfy`) models `do_assumption`. This is the state
  machine that passes an estimate through, creates an entry, reuses it or
  escalates it. `clamp_row_est` is a parameter `clamp: real -> real`.
- `Introspection` (`export.dfy`) models `store_assumptions`. It is a loop over
  the table that emits one row per entry. A reader function `Rebuild` turns
  the rows back into a cache.
- `Trace` (`trace.dfy`) runs sequences of calls. It states the properties
  that span calls: entries are independent, well-formedness is kept, the
  lower bound of `clamp` carries over, reuse is stable, and escalation
  compounds.

`assumptions.h:18-30` declares a list of candidate values per key, and
`assumptions.h:37` declares a three-argument `drop_assumption`.
`assumptions.c` keeps one calibration per key, its drop takes only the key,
and `store_assumptions` exports that calibration as `cardinality`. The model
follows `assumptions.c`.

## Model

| member | source | states |
|---|---|---|
| AssumptionStore.GetAssumption | assumptions.c:106-115 | An entry is found exactly when the key is in the cache, and it is the stored entry; no table means nothing is found |
| AssumptionStore.DropAssumption | assumptions.c:117-132 | Reports true exactly when the key was present; afterwards the key is absent, every other entry is unchanged, and a miss leaves the cache as it was |
| AssumptionStore.MarkInPlan | assumptions.c:106-115 | Writing `inPlan` through the handed-out entry sets the flag on that key only; a missing key yields no entry and changes nothing |
| AssumptionStore.GetAfterDrop | assumptions.c:117-132 | After a drop the key is not found, and lookups of every other key answer as before |
| AssumptionStore.DropIsIdempotent | assumptions.c:123-131 | A second drop of the same key reports false and changes nothing |
| Calibration.DoAssumption | assumptions.c:21-72 | Feature off, or an unseen key while frozen: returns `rows` and leaves the cache alone. A miss in any other enabled posture creates an entry with `clamp(rows * trust)`, not in a plan, counter 1. A hit with `inPlan` escalates to `clamp(cardinality * 10)` and clears the flag, also when frozen. A hit without it keeps the cardinality. Every non-passthrough call records `rows`, counts one use and returns the stored cardinality. No other key changes. |
| Calibration.GetAfterCalibrate | assumptions.c:41-71 | After a calibrating call, looking the key up finds the value the call returned |
| Calibration.CreateThenDropRestores | assumptions.c:44-55 | A first-seen creation followed by a drop of that key gives back the original cache and reports the key found |
| Calibration.DropThenCalibrateIsFirstSeen | assumptions.c:41-55 | After a drop, the next calibration of that key answers and stores exactly what it would on an empty cache |
| Calibration.ReuseIsStable | assumptions.c:62-71 | Two calibrations in a row with no plan marking return the same value, whatever the second raw estimate, and count one more use |
| Calibration.EscalationAfterMark | assumptions.c:56-61 | Marking an entry as used in a plan, then asking again, returns `clamp(old * 10)` and clears the mark |
| Introspection.StoreAssumptions | assumptions.c:74-104 | Emits exactly one row per cache entry, carrying that entry's key, cardinality, planner estimate, flag and counter, with no key twice; an unused cache yields no rows |
| Introspection.ExportRoundTrip | assumptions.c:87-100 | The rows lose nothing: reading them back gives the exported cache |
| Trace.ApplyFrame | assumptions.c:41-71 | Any single call (calibrate, mark, drop) leaves every entry under another key as it was |
| Trace.RunOnlyAddsNamedKeys | assumptions.c:44-55 | A sequence of calls creates entries only under keys that some call named |
| Trace.RunIsLocal | assumptions.c:41-71 | What a sequence of calls leaves under a key equals what the calls on that key alone leave there |
| Trace.RunKeepsWellFormed | assumptions.c:49-70 | Every entry keeps a nonzero fingerprint and a use count of at least one across any sequence of calls |
| Trace.RunStaysAboveFloor | assumptions.c:53-59 | If `clamp` never answers below a floor and raw estimates are at or above it, every stored cardinality and every answer stays at or above it |
| Trace.ReuseConverges | assumptions.c:62-71 | Repeated calibrations of an unmarked entry, with any raw estimates, answer its stored cardinality every time, keep it, and count each call |
| Trace.EscalationCompounds | assumptions.c:56-71 | After n rounds of "put into a plan, then ask again", with any raw estimates, the cardinality is the starting one escalated n times, the counter grows by n, the mark is clear, and the last answer is that escalated value, also when frozen |

## Left out

- The planner hooks in `cardinality_hooks.c` are not modelled; they only plumb PostgreSQL planner structures into these calls. `hash.h` and `cardinality_hooks.h` are declarations only.
- The multi-candidate layout and the three-argument drop declared in `assumptions.h` are not modelled, because `assumptions.c` does not implement them.
- The hash table creation (`hash_create`, memory contexts) is not modelled. The table is a map, and a table that was never created is the empty map. Get, drop and export cannot tell the two apart.
- `clamp_row_est` and IEEE double arithmetic are not modelled. Row counts are exact reals and `clamp` is an arbitrary function passed in.
- The optimizer posture type comes from `aqo.h`, which is not part of this model. Only `Disabled`, `Frozen` and "any other posture" are distinguished, because these are the only distinctions the cache makes.
- The two source assertions become preconditions: the disabled-posture check and the nonzero fingerprint on creation.
- The tuplestore output calls are not modelled. They are I/O, and the export returns the rows as a sequence instead.
- The iteration order of the hash table is left unspecified.
- Introspection.StoreAssumptions: exports `counter` as an unbounded natural, while the source writes it into a 32-bit column. Counter overflow is not modelled.
- Trace.RunStaysAboveFloor: takes the lower bound of `clamp` as a hypothesis, because the body of `clamp_row_est` is not part of this model.
- `Trace` runs use only sites with a nonzero fingerprint. Creation asserts a nonzero fingerprint (`assumptions.c:49`), so a call with a zero fingerprint can only pass through, miss, or fail that assertion; such calls are left out of runs.
- AssumptionStore.GetAssumption: returns a copy of the entry, not a pointer into the table. Writes through that pointer other than setting `inPlan` (`MarkInPlan`), and aliasing of the pointer across later calls, are not modelled.
- Concurrency is not modelled: each backend owns a private, single-threaded cache.
