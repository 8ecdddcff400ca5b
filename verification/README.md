# Procedure, query-statistics and TsFile-validation core of IoTDB, in Dafny

This project models three small pieces of Apache IoTDB and proves properties
of the models.

- **`SecondStateMachineProcedure`** is a three-step procedure run by the config node's procedure framework.
  - Step 1 adds one to a shared 32-bit accumulator.
  - Step 2 either advances or, when `throwAtIndex > 0`, catches its own exception and records a failure.
  - Step 3 subtracts one and ends the procedure.
  - The module also models the persistence codes of the states, the initial state and the rollback policy.
  - It models the branching of `acquireLock` and `releaseLock` around the environment's execute lock.
- **`QueryStatistics`** holds per-operation timing statistics of the query engine.
  - It has a tracing switch and a map from operation name to accumulated nanoseconds and a sample count.
  - It models `addCost`, `enableTracing` and `disableTracing`, plus the arithmetic of `OperationStatistic.toString`.
- **`TsFileResourceValidator`** performs compaction's resource-only validation of TsFile resources.
  - One resource is valid when it is complete and correct.
  - A list is valid when every element is, checked in order with early exit.
  - The overlap check is delegated.

Files:

- `common.dfy` (module `Common`) holds an `Option` type and the JVM's integer arithmetic.
  - `Wrap32` and `Wrap64` give two's-complement wrap-around of `int` and `long`.
  - `TruncDiv` gives Java's `/`, which truncates toward zero.
- `second_state_machine_procedure.dfy` holds the procedure: states and codes, the step function `ExecuteFromState`, a forward drive `Run`, and the lock callbacks.
- `query_statistics.dfy` holds the statistics object as an immutable value with one pure transition per public method.
  - It also has a replay of call sequences, the invariant `Valid`, and a reference definition of per-key totals (`CountOf`, `CostOf`).
- `tsfile_resource_validator.dfy` holds the validator.
  - The checks of `TsFileResourceUtils` are kept uninterpreted, as function values in a `Utils` record.

Inputs standing for code that is not part of this model:

- The lock class behind `getExecuteLock()` is abstract.
  - `AcquireLock` takes the lock as `tryLock` left it, plus whether `tryLock` succeeded.
  - `ReleaseLock` takes whether the lock's own `releaseLock` reported a change of ownership, and reports whether the wake was requested.
- `TsFileResourceUtils` is not part of this model.
  - Its checks are the `isComplete`, `isCorrect` and `hasNoOverlap` fields of `Utils`.
- The framework base class `StateMachineProcedure` is not part of this model.
  - A step returns the next state and the failure it records.
  - `Run` drives a procedure forward only. It stops when a step returns `NoMoreState` or records a failure.
- The `TestState` enumeration's source is not part of this model.
  - It is taken to have exactly the three values the switch handles, in the order `STEP_1, STEP_2, STEP_3`.

This class's `rollbackState` only logs, so nothing it does undoes step 1's increment. `FaultyRunStopsAtStep2` proves that, when the forward drive stops at the failed step 2, the accumulator holds its starting value plus one (wrapped to an `int`).

## Model

| member | source | states |
|---|---|---|
| `SecondStateMachineProcedure.GetStateId` | confignode/src/test/java/org/apache/iotdb/confignode/procedure/entity/SecondStateMachineProcedure.java:86-89 | every state's code is an ordinal below the number of states |
| `SecondStateMachineProcedure.GetState` | confignode/src/test/java/org/apache/iotdb/confignode/procedure/entity/SecondStateMachineProcedure.java:81-84 | a code decodes exactly when it is in `[0, 3)` (outside, the array lookup throws), and then to the state whose code it is |
| `SecondStateMachineProcedure.StateCodeRoundTrip` | confignode/src/test/java/org/apache/iotdb/confignode/procedure/entity/SecondStateMachineProcedure.java:81-89 | decoding a state's code gives the state back |
| `SecondStateMachineProcedure.GetStateIdInjective` | confignode/src/test/java/org/apache/iotdb/confignode/procedure/entity/SecondStateMachineProcedure.java:86-89 | two states share a code only if they are the same state |
| `SecondStateMachineProcedure.GetInitialState` | confignode/src/test/java/org/apache/iotdb/confignode/procedure/entity/SecondStateMachineProcedure.java:91-94 | the initial state has code 0, the least code of all states |
| `SecondStateMachineProcedure.IsRollbackSupported` | confignode/src/test/java/org/apache/iotdb/confignode/procedure/entity/SecondStateMachineProcedure.java:68-71 | rollback is supported in every state |
| `SecondStateMachineProcedure.NewProcedure` | confignode/src/test/java/org/apache/iotdb/confignode/procedure/entity/SecondStateMachineProcedure.java:36 | a new procedure keeps the given identifier, has `throwAtIndex` -1 (fault switch off), starts at the initial state and has no failure recorded |
| `SecondStateMachineProcedure.ExecuteFromState` | confignode/src/test/java/org/apache/iotdb/confignode/procedure/entity/SecondStateMachineProcedure.java:38-66 | only step 3 returns `NO_MORE_STATE`; the state moves forward by exactly one code unless it is step 3 or step 2 throws; a failure is recorded exactly when step 2 throws, and the state then stays at step 2; the accumulator changes by +1 at step 1 and -1 at step 3 modulo 2^32, and is untouched by step 2 |
| `SecondStateMachineProcedure.RunIsForward` | confignode/src/test/java/org/apache/iotdb/confignode/procedure/entity/SecondStateMachineProcedure.java:39-65 | any forward drive executes consecutive states starting at the current one, and ends with `NO_MORE_STATE` exactly when no failure was recorded |
| `SecondStateMachineProcedure.FaultFreeRunRestoresAccumulator` | confignode/src/test/java/org/apache/iotdb/confignode/procedure/entity/SecondStateMachineProcedure.java:43-58 | with `throwAtIndex <= 0`, a fresh procedure runs `STEP_1, STEP_2, STEP_3` and finishes without failure, and the accumulator ends at its starting value, including across the 32-bit wrap |
| `SecondStateMachineProcedure.FaultyRunStopsAtStep2` | confignode/src/test/java/org/apache/iotdb/confignode/procedure/entity/SecondStateMachineProcedure.java:43-65 | with `throwAtIndex > 0`, a fresh procedure runs `STEP_1, STEP_2` and stops at step 2 with the failure recorded and `HAS_MORE_STATE`, and the accumulator is its starting value plus one, wrapped to an `int` |
| `SecondStateMachineProcedure.AcquireLock` | confignode/src/test/java/org/apache/iotdb/confignode/procedure/entity/SecondStateMachineProcedure.java:96-111 | the answer is `LOCK_ACQUIRED` exactly when `tryLock` succeeded, and the waiters are then unchanged; otherwise the procedure is added once, at the tail, behind the unchanged earlier waiters; the owner is never touched |
| `SecondStateMachineProcedure.ReleaseLock` | confignode/src/test/java/org/apache/iotdb/confignode/procedure/entity/SecondStateMachineProcedure.java:113-124 | waiting procedures are woken exactly when the lock's release reported a change of ownership; otherwise owner and waiters are left alone |
| `SecondStateMachineProcedure.ContendedAcquiresQueueInOrder` | confignode/src/test/java/org/apache/iotdb/confignode/procedure/entity/SecondStateMachineProcedure.java:100-107 | procedures that fail `tryLock` one after another are queued in the order they asked, behind the existing waiters, and the owner is unchanged |
| `Common.Wrap32` | confignode/src/test/java/org/apache/iotdb/confignode/procedure/entity/SecondStateMachineProcedure.java:45-57 | the accumulator's `int` addition gives a 32-bit value congruent to the exact sum modulo 2^32, and equal to it when the sum fits |
| `QueryStatistics.Init` | server/src/main/java/org/apache/iotdb/db/query/control/QueryStatistics.java:43-45 | a new statistics object has tracing off and no entries, and so satisfies the invariant |
| `QueryStatistics.NewOperationStatistic` | server/src/main/java/org/apache/iotdb/db/query/control/QueryStatistics.java:105-108 | a new entry has zero time and zero samples |
| `QueryStatistics.AddTimeCost` | server/src/main/java/org/apache/iotdb/db/query/control/QueryStatistics.java:110-113 | one more sample; the total time grows by the cost modulo 2^64, and exactly by the cost when the sum fits in a `long` |
| `Common.Wrap64` | server/src/main/java/org/apache/iotdb/db/query/control/QueryStatistics.java:111 | the `long` total time is congruent to the exact sum modulo 2^64, and equal to it when the sum fits |
| `Common.Wrap64AddAssociates` | server/src/main/java/org/apache/iotdb/db/query/control/QueryStatistics.java:111 | adding to an already wrapped total gives the same `long` as summing exactly and wrapping once |
| `QueryStatistics.AddCostTo` | server/src/main/java/org/apache/iotdb/db/query/control/QueryStatistics.java:82-88 | while tracing is off the object is unchanged; while on, `key` becomes present, a new entry has one sample of `cost`, an existing one gains one sample and `cost` on its `long`-wrapped time, all other keys are unchanged, and the invariant is preserved |
| `QueryStatistics.Enable` | server/src/main/java/org/apache/iotdb/db/query/control/QueryStatistics.java:95-98 | tracing is on, the map is empty, and the invariant holds |
| `QueryStatistics.Disable` | server/src/main/java/org/apache/iotdb/db/query/control/QueryStatistics.java:90-93 | tracing is off, the map is empty, and the invariant holds |
| `QueryStatistics.ReplayKeepsValid` | server/src/main/java/org/apache/iotdb/db/query/control/QueryStatistics.java:43-98 | after any sequence of calls from a new object, the map is empty whenever tracing is off and every entry has at least one sample |
| `QueryStatistics.UnchargedKeyHasNoCost` | server/src/main/java/org/apache/iotdb/db/query/control/QueryStatistics.java:110-113 | a key with no `addCost` calls has accumulated no cost |
| `QueryStatistics.ChargeKey` | server/src/main/java/org/apache/iotdb/db/query/control/QueryStatistics.java:84-86 | one `addCost` while tracing moves a key's totals from `(n, wrap(c))` to `(n + 1, wrap(c + cost))`, whether or not the entry existed |
| `QueryStatistics.TotalsSinceEnable` | server/src/main/java/org/apache/iotdb/db/query/control/QueryStatistics.java:82-113 | after `enableTracing` and then only `addCost` calls, a key is present exactly when it was charged; its count is the number of its calls and its time is the sum of their costs wrapped to a `long` |
| `Common.TruncDiv` | server/src/main/java/org/apache/iotdb/db/query/control/QueryStatistics.java:117-126 | Java's `/` by a positive divisor rounds toward zero, on both signs of the dividend |
| `QueryStatistics.ToReport` | server/src/main/java/org/apache/iotdb/db/query/control/QueryStatistics.java:116-129 | a report exists exactly when the count is non-zero (zero makes the Java division throw); the time is the nanoseconds divided by 1000 and the average is that time divided by the count, both quotients pinned by two-sided bounds that round toward zero |
| `QueryStatistics.ReportAlwaysDefined` | server/src/main/java/org/apache/iotdb/db/query/control/QueryStatistics.java:84-126 | in every state reachable by calls, every stored entry can be reported: the average never divides by zero |
| `TsFileResourceValidator.ValidateTsFile` | iotdb-core/datanode/src/main/java/org/apache/iotdb/db/storageengine/dataregion/utils/validate/TsFileResourceValidator.java:32-36 | valid exactly when complete and correct; completeness is consulted first; correctness is consulted only if the file is complete, so an incomplete file is invalid whatever correctness would say |
| `TsFileResourceValidator.AllValidMeansEvery` | iotdb-core/datanode/src/main/java/org/apache/iotdb/db/storageengine/dataregion/utils/validate/TsFileResourceValidator.java:38-46 | the recursive list validity holds exactly when every element is valid |
| `TsFileResourceValidator.AllValidAppend` | iotdb-core/datanode/src/main/java/org/apache/iotdb/db/storageengine/dataregion/utils/validate/TsFileResourceValidator.java:38-46 | a concatenation is valid exactly when both parts are |
| `TsFileResourceValidator.ValidateTsFiles` | iotdb-core/datanode/src/main/java/org/apache/iotdb/db/storageengine/dataregion/utils/validate/TsFileResourceValidator.java:38-46 | true exactly when every resource is valid, and true for the empty list; on false, the last resource examined is the first invalid one and nothing after it is examined |
| `TsFileResourceValidator.ValidateTsFilesIsHasNoOverlap` | iotdb-core/datanode/src/main/java/org/apache/iotdb/db/storageengine/dataregion/utils/validate/TsFileResourceValidator.java:48-51 | the answer is exactly the overlap check's answer on the whole list |

## Left out

- Logging is left out: every `LOGGER` call and the `QUERY_STATISTICS_LOGGER` output are output only.
- `printQueryStatistics` and the scheduled "Query-Statistics-Print" thread are left out: they are a timer plus logging.
- Rendering the `toString` result as text is left out. `ToReport` models the numbers it prints, not the characters.
- `rollbackState` is left out: it only logs.
- The base class's rollback walk, failure storage, persistence and scheduler are left out: they are not part of this model.
- The lock class's `tryLock`, `releaseLock` and `wakeWaitingProcedures` are left out: they are not part of this model, and their results are inputs.
- `waitProcedure` is assumed to append the procedure at the tail of the wait queue; its code is not part of this model.
- Concurrency is left out: the `envLock` guard, the atomics and the concurrent hash map are modelled as one sequential step per method.
  - One consequence is not captured. A concurrent reader could observe an entry that `computeIfAbsent` has just created at `(0, 0)`, before `addTimeCost` runs. `ToReport` returns `None` for that input, where Java would throw.
- The singleton holders (`getInstance`, `QueryStatisticsHolder`, `ResourceOnlyCompactionValidatorHolder`) are left out. The statistics object is passed as an explicit value instead.
- QueryStatistics.AddCostTo: a `null` key is left out. With tracing on, `computeIfAbsent` throws a `NullPointerException` for it; the model's `string` key cannot be null.
- The operation-name constants (`PARSER`, `PLANNER` and the others) are left out: they are plain strings, and any string is a key.
- `UDFQueryRowWindowTransformer` is left out: it only delegates to collaborators that are not part of this model.
- QueryStatistics.AddTimeCost: `totalCount` is an unbounded count. Java's `AtomicLong` would wrap only after 2^63 increments, so the invariant `totalCount >= 1` ignores that overflow.
