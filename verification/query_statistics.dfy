/** Per-operation timing statistics of the query engine: a tracing switch
    and, while tracing, a map from operation name to the accumulated time
    (in nanoseconds, a wrapping Java `long`) and the number of samples.

    The object is modelled as a value and each public operation as a pure
    transition; the atomics and the concurrent map are sequential here. */
module QueryStatistics {
  import opened Common

  /** Accumulated cost of one operation. */
  datatype OperationStatistic = OperationStatistic(totalTime: Int64, totalCount: nat)

  /** The statistics object: the tracing switch and the per-key statistics. */
  datatype Statistics = Statistics(tracing: bool, operations: map<string, OperationStatistic>)

  /** What `toString` reports for one operation: total time in
      microseconds, sample count and average time in microseconds. */
  datatype Report = Report(timeMicros: Int64, count: nat, avgMicros: Int64)

  /** One call of the public interface. */
  datatype Call = AddCost(key: string, cost: Int64) | EnableTracing | DisableTracing

  /** The two facts the statistics object keeps: nothing is stored while
      tracing is off, and every stored entry has at least one sample. */
  ghost predicate Valid(s: Statistics) {
    && (!s.tracing ==> s.operations == map[])
    && (forall k :: k in s.operations ==> s.operations[k].totalCount >= 1)
  }

  /** A new statistics object: tracing off, no entries. */
  function Init(): (s: Statistics)
    ensures !s.tracing && |s.operations| == 0
    ensures Valid(s)
  {
    Statistics(false, map[])
  }

  /** A new per-operation statistic has no time and no samples. */
  function NewOperationStatistic(): (op: OperationStatistic)
    ensures op.totalTime == 0 && op.totalCount == 0
  {
    OperationStatistic(0, 0)
  }

  /** `addTimeCost`: one more sample, and the cost added to the total time
      with `long` wrap-around. */
  function AddTimeCost(op: OperationStatistic, cost: Int64): (r: OperationStatistic)
    ensures r.totalCount == op.totalCount + 1
    ensures (r.totalTime - (op.totalTime + cost)) % LongModulus == 0
    ensures LongMin <= op.totalTime + cost <= LongMax ==> r.totalTime == op.totalTime + cost
  {
    OperationStatistic(Wrap64(op.totalTime + cost), op.totalCount + 1)
  }

  /** `addCost`: ignored while tracing is off; otherwise creates the entry
      for `key` if it is missing and adds one sample of `cost` to it. */
  function AddCostTo(s: Statistics, key: string, cost: Int64): (r: Statistics)
    ensures !s.tracing ==> r == s
    ensures r.tracing == s.tracing
    ensures s.tracing ==> r.operations.Keys == s.operations.Keys + {key}
    ensures s.tracing ==> forall k :: k in s.operations && k != key ==> r.operations[k] == s.operations[k]
    ensures s.tracing && key !in s.operations ==>
      r.operations[key].totalCount == 1 && r.operations[key].totalTime == Wrap64(cost)
    ensures s.tracing && key in s.operations ==>
      r.operations[key].totalCount == s.operations[key].totalCount + 1
      && r.operations[key].totalTime == Wrap64(s.operations[key].totalTime + cost)
    ensures Valid(s) ==> Valid(r)
  {
    if s.tracing then
      var op := if key in s.operations then s.operations[key] else NewOperationStatistic();
      s.(operations := s.operations[key := AddTimeCost(op, cost)])
    else
      s
  }

  /** `enableTracing`: tracing on, all entries dropped. */
  function Enable(s: Statistics): (r: Statistics)
    ensures r.tracing && |r.operations| == 0
    ensures Valid(r)
  {
    Statistics(true, map[])
  }

  /** `disableTracing`: tracing off, all entries dropped. */
  function Disable(s: Statistics): (r: Statistics)
    ensures !r.tracing && |r.operations| == 0
    ensures Valid(r)
  {
    Statistics(false, map[])
  }

  /** The effect of one call. */
  function Apply(s: Statistics, c: Call): Statistics {
    match c
    case AddCost(key, cost) => AddCostTo(s, key, cost)
    case EnableTracing => Enable(s)
    case DisableTracing => Disable(s)
  }

  /** The effect of a sequence of calls, in order. */
  function Replay(s: Statistics, calls: seq<Call>): Statistics
    decreases |calls|
  {
    if calls == [] then s
    else Apply(Replay(s, calls[..|calls| - 1]), calls[|calls| - 1])
  }

  /** Every reachable state keeps both facts of `Valid`. */
  lemma {:induction false} ReplayKeepsValid(calls: seq<Call>)
    ensures Valid(Replay(Init(), calls))
    decreases |calls|
  {
    if calls != [] {
      ReplayKeepsValid(calls[..|calls| - 1]);
    }
  }

  // Reference definition: per-key totals of a run of calls

  /** Number of `addCost` calls for `key` in `calls`. */
  function CountOf(calls: seq<Call>, key: string): nat
    decreases |calls|
  {
    if calls == [] then 0
    else
      var last := calls[|calls| - 1];
      CountOf(calls[..|calls| - 1], key) + (if last.AddCost? && last.key == key then 1 else 0)
  }

  /** Exact sum of the costs of the `addCost` calls for `key` in `calls`. */
  function CostOf(calls: seq<Call>, key: string): int
    decreases |calls|
  {
    if calls == [] then 0
    else
      var last := calls[|calls| - 1];
      CostOf(calls[..|calls| - 1], key) + (if last.AddCost? && last.key == key then last.cost else 0)
  }

  /** True when `calls` holds no tracing switch. */
  predicate OnlyCosts(calls: seq<Call>) {
    forall i :: 0 <= i < |calls| ==> calls[i].AddCost?
  }

  /** A key never charged has no accumulated cost. */
  lemma {:induction false} UnchargedKeyHasNoCost(calls: seq<Call>, key: string)
    requires CountOf(calls, key) == 0
    ensures CostOf(calls, key) == 0
    decreases |calls|
  {
    if calls != [] {
      UnchargedKeyHasNoCost(calls[..|calls| - 1], key);
    }
  }

  /** After `enableTracing` and any number of `addCost` calls, a key is
      present exactly when it was charged, its count is the number of calls
      for it and its time is the sum of their costs (wrapped to a `long`). */
  lemma {:induction false} TotalsSinceEnable(s: Statistics, calls: seq<Call>, key: string)
    requires OnlyCosts(calls)
    ensures var r := Replay(Enable(s), calls);
      && r.tracing
      && (key in r.operations <==> CountOf(calls, key) > 0)
      && (key in r.operations ==>
            r.operations[key].totalCount == CountOf(calls, key)
            && r.operations[key].totalTime == Wrap64(CostOf(calls, key)))
    decreases |calls|
  {
    if calls != [] {
      var prefix := calls[..|calls| - 1];
      var last := calls[|calls| - 1];
      assert OnlyCosts(prefix) by {
        forall i | 0 <= i < |prefix| ensures prefix[i].AddCost? {
          assert prefix[i] == calls[i];
        }
      }
      TotalsSinceEnable(s, prefix, key);
      var before := Replay(Enable(s), prefix);
      assert Replay(Enable(s), calls) == AddCostTo(before, last.key, last.cost);
      if last.key == key {
        if CountOf(prefix, key) == 0 {
          UnchargedKeyHasNoCost(prefix, key);
        }
        ChargeKey(before, key, last.cost, CountOf(prefix, key), CostOf(prefix, key));
      }
    }
  }

  /** One `addCost` for `key` while tracing moves its totals from
      `(count, Wrap64(cost))` to `(count + 1, Wrap64(cost + c))`. */
  lemma ChargeKey(before: Statistics, key: string, c: Int64, count: nat, cost: int)
    requires before.tracing
    requires key in before.operations <==> count > 0
    requires key in before.operations ==>
      before.operations[key].totalCount == count && before.operations[key].totalTime == Wrap64(cost)
    requires count == 0 ==> cost == 0
    ensures var r := AddCostTo(before, key, c);
      key in r.operations
      && r.operations[key].totalCount == count + 1
      && r.operations[key].totalTime == Wrap64(cost + c)
  {
    if key in before.operations {
      Wrap64AddAssociates(cost, c);
    }
  }

  // toString

  /** `toString`: the total time in microseconds (nanoseconds divided by
      1000, truncated toward zero) and the average of that over the count,
      again truncated. A count of zero makes the Java division throw, which
      is `None` here. */
  function ToReport(op: OperationStatistic): (r: Option<Report>)
    ensures r.None? <==> op.totalCount == 0
    ensures r.Some? ==> r.value.count == op.totalCount
    ensures r.Some? && op.totalTime >= 0 ==>
      0 <= r.value.timeMicros * 1000 <= op.totalTime < r.value.timeMicros * 1000 + 1000
    ensures r.Some? && op.totalTime < 0 ==>
      r.value.timeMicros * 1000 - 1000 < op.totalTime <= r.value.timeMicros * 1000 <= 0
    ensures r.Some? && r.value.timeMicros >= 0 ==>
      0 <= r.value.avgMicros * op.totalCount <= r.value.timeMicros
        < r.value.avgMicros * op.totalCount + op.totalCount
    ensures r.Some? && r.value.timeMicros < 0 ==>
      r.value.avgMicros * op.totalCount - op.totalCount < r.value.timeMicros
        <= r.value.avgMicros * op.totalCount <= 0
  {
    if op.totalCount == 0 then None
    else
      var time := TruncDiv(op.totalTime, 1000);
      var avg := TruncDiv(time, op.totalCount);
      assert LongMin <= avg <= LongMax by { TruncDivShrinks(time, op.totalCount); }
      Some(Report(time, op.totalCount, avg))
  }

  /** In every reachable state every stored entry can be reported: the
      average never divides by zero. */
  lemma {:induction false} ReportAlwaysDefined(calls: seq<Call>, key: string)
    requires key in Replay(Init(), calls).operations
    ensures ToReport(Replay(Init(), calls).operations[key]).Some?
  {
    ReplayKeepsValid(calls);
  }
}
