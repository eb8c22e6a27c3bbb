// Aggregating the load metrics of several pods, in exact arithmetic.

module LoadMetrics {
  import opened Options
  import opened Reals

  datatype Percentile = Mean | P50 | P95 | P99 | Max | Min

  const PERCENTILES: set<Percentile> := {Mean, P50, P95, P99, Max, Min}
  const ERROR_LIMIT := 10

  /** The metrics of one pod, or an aggregate. An absent key is the default every reader of the
      dictionary uses, 0 or empty; `podCount` is only present in an aggregate. */
  datatype Metrics = Metrics(
    requests: real, rate: real, throughput: real,
    latencies: map<Percentile, real>,
    success: real,
    statusCodes: map<string, real>,
    bytesIn: real, bytesOut: real,
    errors: seq<string>,
    podCount: Option<nat>)

  /** The empty dictionary that no pods give. */
  const NO_METRICS := Metrics(0.0, 0.0, 0.0, map[], 0.0, map[], 0.0, 0.0, [], None)

  function Get<K>(m: map<K, real>, k: K): real { if k in m then m[k] else 0.0 }

  function Sum(f: Metrics -> real, list: seq<Metrics>): real
  {
    if list == [] then 0.0 else Sum(f, list[..|list| - 1]) + f(list[|list| - 1])
  }

  function Requests(): Metrics -> real { (m: Metrics) => m.requests }
  function Rate(): Metrics -> real { (m: Metrics) => m.rate }
  function Throughput(): Metrics -> real { (m: Metrics) => m.throughput }
  function BytesIn(): Metrics -> real { (m: Metrics) => m.bytesIn }
  function BytesOut(): Metrics -> real { (m: Metrics) => m.bytesOut }
  function Succeeded(): Metrics -> real { (m: Metrics) => m.success * m.requests }
  function Weighted(p: Percentile): Metrics -> real { (m: Metrics) => Get(m.latencies, p) * m.requests }

  /** The codes of both maps, with their counts added. */
  function Merge(a: map<string, real>, b: map<string, real>): map<string, real>
  {
    map k | k in a.Keys + b.Keys :: Get(a, k) + Get(b, k)
  }

  function Codes(list: seq<Metrics>): map<string, real>
  {
    if list == [] then map[] else Merge(Codes(list[..|list| - 1]), list[|list| - 1].statusCodes)
  }

  function Errors(list: seq<Metrics>): seq<string>
  {
    if list == [] then [] else Errors(list[..|list| - 1]) + list[|list| - 1].errors
  }

  function FirstErrors(errors: seq<string>): seq<string>
  {
    if |errors| <= ERROR_LIMIT then errors else errors[..ERROR_LIMIT]
  }

  function Latencies(list: seq<Metrics>): map<Percentile, real>
  {
    var total := Sum(Requests(), list);
    if total > 0.0 then map p | p in PERCENTILES :: Sum(Weighted(p), list) / total else map[]
  }

  function Aggregate(list: seq<Metrics>): Metrics
  {
    if list == [] then NO_METRICS
    else
      var total := Sum(Requests(), list);
      Metrics(
        total, Sum(Rate(), list), Sum(Throughput(), list),
        Latencies(list),
        if total > 0.0 then Sum(Succeeded(), list) / total else 0.0,
        Codes(list),
        Sum(BytesIn(), list), Sum(BytesOut(), list),
        FirstErrors(Errors(list)),
        Some(|list|))
  }

  /** `_aggregate_metrics`. */
  method AggregateMetrics(list: seq<Metrics>) returns (r: Metrics)
    ensures r == Aggregate(list)
  {
    if list == [] {
      return NO_METRICS;
    }
    var total := Sum(Requests(), list);
    var latencies: map<Percentile, real> := map[];
    if total > 0.0 {
      latencies := map p | p in PERCENTILES :: Sum(Weighted(p), list) / total;
    }
    var success := if total > 0.0 then Sum(Succeeded(), list) / total else 0.0;
    var codes: map<string, real> := map[];
    var errors: seq<string> := [];
    for i := 0 to |list|
      invariant codes == Codes(list[..i]) && errors == Errors(list[..i])
    {
      assert list[..i + 1][..i] == list[..i];
      codes := AddCodes(codes, list[i].statusCodes);
      errors := errors + list[i].errors;
    }
    assert list[..|list|] == list;
    r := Metrics(total, Sum(Rate(), list), Sum(Throughput(), list), latencies, success, codes,
                 Sum(BytesIn(), list), Sum(BytesOut(), list), FirstErrors(errors), Some(|list|));
  }

  /** The loop over the status codes of one pod. */
  method AddCodes(codes: map<string, real>, more: map<string, real>) returns (r: map<string, real>)
    ensures r == Merge(codes, more)
  {
    r := codes;
    var left := more.Keys;
    ghost var done: map<string, real> := map[];
    MergeUnit(codes);
    while left != {}
      invariant r == Merge(codes, done)
      invariant done.Keys == more.Keys - left && left <= more.Keys
      invariant forall k :: k in done ==> done[k] == more[k]
      decreases |left|
    {
      var k :| k in left;
      MergeOne(codes, done, k, more[k]);
      r := r[k := Get(r, k) + more[k]];
      done := done[k := more[k]];
      left := left - {k};
    }
    assert done == more;
  }

  lemma MergeUnit(a: map<string, real>)
    ensures Merge(a, map[]) == a && Merge(map[], a) == a
  {
  }

  lemma MergeOne(a: map<string, real>, b: map<string, real>, k: string, x: real)
    requires k !in b
    ensures Merge(a, b[k := x]) == Merge(a, b)[k := Get(Merge(a, b), k) + x]
  {
  }

  // ---- Aggregation is hierarchical

  function Concat(groups: seq<seq<Metrics>>): seq<Metrics>
  {
    if groups == [] then [] else Concat(groups[..|groups| - 1]) + groups[|groups| - 1]
  }

  function AggregateEach(groups: seq<seq<Metrics>>): seq<Metrics>
  {
    if groups == [] then [] else AggregateEach(groups[..|groups| - 1]) + [Aggregate(groups[|groups| - 1])]
  }

  ghost predicate NonNegative(list: seq<Metrics>)
  {
    forall i :: 0 <= i < |list| ==> list[i].requests >= 0.0
  }

  lemma {:induction false} SumJoin(f: Metrics -> real, a: seq<Metrics>, b: seq<Metrics>)
    ensures Sum(f, a + b) == Sum(f, a) + Sum(f, b)
  {
    if b == [] {
      assert a + b == a;
    } else {
      SumJoin(f, a, b[..|b| - 1]);
      assert (a + b)[..|a + b| - 1] == a + b[..|b| - 1];
    }
  }

  /** A quantity is additive when an aggregate carries the total of its pods. */
  ghost predicate Additive(f: Metrics -> real, groups: seq<seq<Metrics>>)
  {
    forall i :: 0 <= i < |groups| ==> f(Aggregate(groups[i])) == Sum(f, groups[i])
  }

  lemma {:induction false} AdditiveTotals(f: Metrics -> real, groups: seq<seq<Metrics>>)
    requires Additive(f, groups)
    ensures Sum(f, AggregateEach(groups)) == Sum(f, Concat(groups))
  {
    if groups != [] {
      var init, last := groups[..|groups| - 1], groups[|groups| - 1];
      AdditiveTotals(f, init);
      SumJoin(f, Concat(init), last);
      SumJoin(f, AggregateEach(init), [Aggregate(last)]);
      assert [Aggregate(last)][..0] == [];
    }
  }

  lemma {:induction false} RequestsNonNegative(list: seq<Metrics>)
    requires NonNegative(list)
    ensures Sum(Requests(), list) >= 0.0
    ensures Sum(Requests(), list) == 0.0 ==> forall i :: 0 <= i < |list| ==> list[i].requests == 0.0
  {
    if list != [] {
      RequestsNonNegative(list[..|list| - 1]);
    }
  }

  lemma {:induction false} WeightlessSum(f: Metrics -> real, list: seq<Metrics>)
    requires forall i :: 0 <= i < |list| ==> f(list[i]) == 0.0
    ensures Sum(f, list) == 0.0
  {
    if list != [] {
      WeightlessSum(f, list[..|list| - 1]);
    }
  }

  lemma DivideBack(x: real, total: real)
    requires total > 0.0
    ensures x / total * total == x
  {
  }

  lemma AggregateMeans(list: seq<Metrics>, p: Percentile)
    requires Sum(Requests(), list) > 0.0
    ensures list != [] && p in Aggregate(list).latencies
    ensures Get(Aggregate(list).latencies, p) == Sum(Weighted(p), list) / Sum(Requests(), list)
    ensures Aggregate(list).success == Sum(Succeeded(), list) / Sum(Requests(), list)
    ensures Aggregate(list).requests == Sum(Requests(), list)
  {
    assert list != [];
    hide Sum, Codes, Errors, FirstErrors;
    assert p in PERCENTILES;
  }

  lemma AggregateIdle(list: seq<Metrics>, p: Percentile)
    requires Sum(Requests(), list) == 0.0
    ensures Get(Aggregate(list).latencies, p) == 0.0 && Aggregate(list).success == 0.0
            && Aggregate(list).requests == 0.0
  {
    hide Sum, Codes, Errors, FirstErrors;
  }

  /** An aggregate carries the weighted sums of its pods, even when none of them had requests. */
  lemma WeightedAdditive(list: seq<Metrics>, p: Percentile)
    requires NonNegative(list)
    ensures Weighted(p)(Aggregate(list)) == Sum(Weighted(p), list)
    ensures Succeeded()(Aggregate(list)) == Sum(Succeeded(), list)
  {
    hide Sum, Aggregate;
    var total := Sum(Requests(), list);
    RequestsNonNegative(list);
    if total > 0.0 {
      AggregateMeans(list, p);
      DivideBack(Sum(Weighted(p), list), total);
      DivideBack(Sum(Succeeded(), list), total);
    } else {
      AggregateIdle(list, p);
      WeightlessSum(Weighted(p), list);
      WeightlessSum(Succeeded(), list);
    }
  }

  lemma {:induction false} ConcatMembers(groups: seq<seq<Metrics>>)
    requires forall i :: 0 <= i < |groups| ==> NonNegative(groups[i])
    ensures NonNegative(Concat(groups)) && NonNegative(AggregateEach(groups))
    ensures |AggregateEach(groups)| == |groups|
  {
    if groups != [] {
      var init, last := groups[..|groups| - 1], groups[|groups| - 1];
      ConcatMembers(init);
      RequestsNonNegative(last);
    }
  }

  // Status codes and errors

  lemma MergeAssociates(a: map<string, real>, b: map<string, real>, c: map<string, real>)
    ensures Merge(Merge(a, b), c) == Merge(a, Merge(b, c))
  {
  }

  lemma {:induction false} CodesJoin(a: seq<Metrics>, b: seq<Metrics>)
    ensures Codes(a + b) == Merge(Codes(a), Codes(b))
  {
    if b == [] {
      assert a + b == a;
      MergeUnit(Codes(a));
    } else {
      CodesJoin(a, b[..|b| - 1]);
      assert (a + b)[..|a + b| - 1] == a + b[..|b| - 1];
      MergeAssociates(Codes(a), Codes(b[..|b| - 1]), b[|b| - 1].statusCodes);
    }
  }

  lemma {:induction false} CodesHierarchical(groups: seq<seq<Metrics>>)
    ensures Codes(AggregateEach(groups)) == Codes(Concat(groups))
  {
    if groups != [] {
      var init, last := groups[..|groups| - 1], groups[|groups| - 1];
      CodesHierarchical(init);
      CodesJoin(Concat(init), last);
      assert Aggregate(last).statusCodes == Codes(last);
      assert (AggregateEach(init) + [Aggregate(last)])[..|AggregateEach(init)|] == AggregateEach(init);
    }
  }

  lemma {:induction false} ErrorsJoin(a: seq<Metrics>, b: seq<Metrics>)
    ensures Errors(a + b) == Errors(a) + Errors(b)
  {
    if b == [] {
      assert a + b == a;
    } else {
      var init, last := b[..|b| - 1], b[|b| - 1];
      ErrorsJoin(a, init);
      assert (a + b)[..|a + b| - 1] == a + init && (a + b)[|a + b| - 1] == last;
      assert Errors(a) + (Errors(init) + last.errors) == (Errors(a) + Errors(init)) + last.errors;
    }
  }

  lemma FirstErrorsJoin(a: seq<string>, a': seq<string>, b: seq<string>)
    requires FirstErrors(a) == FirstErrors(a')
    ensures FirstErrors(a' + FirstErrors(b)) == FirstErrors(a + b)
  {
    if |a| >= ERROR_LIMIT {
      assert |a'| >= ERROR_LIMIT;
      assert (a + b)[..ERROR_LIMIT] == a[..ERROR_LIMIT];
      assert (a' + FirstErrors(b))[..ERROR_LIMIT] == a'[..ERROR_LIMIT];
    } else {
      assert a == a';
    }
  }

  lemma {:induction false} ErrorsHierarchical(groups: seq<seq<Metrics>>)
    ensures FirstErrors(Errors(AggregateEach(groups))) == FirstErrors(Errors(Concat(groups)))
  {
    if groups != [] {
      var init, last := groups[..|groups| - 1], groups[|groups| - 1];
      ErrorsHierarchical(init);
      ErrorsJoin(Concat(init), last);
      assert Aggregate(last).errors == FirstErrors(Errors(last));
      FirstErrorsJoin(Errors(Concat(init)), Errors(AggregateEach(init)), Errors(last));
      assert (AggregateEach(init) + [Aggregate(last)])[..|AggregateEach(init)|] == AggregateEach(init);
    }
  }

  lemma PlainTotals(groups: seq<seq<Metrics>>)
    ensures var parts, all := AggregateEach(groups), Concat(groups);
            && Sum(Requests(), parts) == Sum(Requests(), all)
            && Sum(Rate(), parts) == Sum(Rate(), all)
            && Sum(Throughput(), parts) == Sum(Throughput(), all)
            && Sum(BytesIn(), parts) == Sum(BytesIn(), all)
            && Sum(BytesOut(), parts) == Sum(BytesOut(), all)
  {
    forall i | 0 <= i < |groups|
      ensures Requests()(Aggregate(groups[i])) == Sum(Requests(), groups[i])
      ensures Rate()(Aggregate(groups[i])) == Sum(Rate(), groups[i])
      ensures Throughput()(Aggregate(groups[i])) == Sum(Throughput(), groups[i])
      ensures BytesIn()(Aggregate(groups[i])) == Sum(BytesIn(), groups[i])
      ensures BytesOut()(Aggregate(groups[i])) == Sum(BytesOut(), groups[i])
    {
    }
    hide Sum, Aggregate;
    AdditiveTotals(Requests(), groups);
    AdditiveTotals(Rate(), groups);
    AdditiveTotals(Throughput(), groups);
    AdditiveTotals(BytesIn(), groups);
    AdditiveTotals(BytesOut(), groups);
  }

  lemma WeightedTotals(groups: seq<seq<Metrics>>)
    requires forall i :: 0 <= i < |groups| ==> NonNegative(groups[i])
    ensures forall p: Percentile :: Sum(Weighted(p), AggregateEach(groups)) == Sum(Weighted(p), Concat(groups))
    ensures Sum(Succeeded(), AggregateEach(groups)) == Sum(Succeeded(), Concat(groups))
  {
    hide Sum, Aggregate;
    forall p: Percentile ensures Sum(Weighted(p), AggregateEach(groups)) == Sum(Weighted(p), Concat(groups)) {
      forall i | 0 <= i < |groups| ensures Weighted(p)(Aggregate(groups[i])) == Sum(Weighted(p), groups[i]) {
        WeightedAdditive(groups[i], p);
      }
      AdditiveTotals(Weighted(p), groups);
    }
    forall i | 0 <= i < |groups| ensures Succeeded()(Aggregate(groups[i])) == Sum(Succeeded(), groups[i]) {
      WeightedAdditive(groups[i], Mean);
    }
    AdditiveTotals(Succeeded(), groups);
  }

  /** Aggregating the aggregates of any grouping of the pods (empty groups included) gives what
      aggregating all pods at once gives, in everything but the pod count. */
  lemma AggregationIsHierarchical(groups: seq<seq<Metrics>>)
    requires forall i :: 0 <= i < |groups| ==> NonNegative(groups[i])
    requires groups != []
    ensures Aggregate(AggregateEach(groups)) == Aggregate(Concat(groups)).(podCount := Some(|groups|))
  {
    hide Sum, Codes, Errors, FirstErrors, AggregateEach, Concat, Latencies, Aggregate, Weighted, Requests, Rate,
      Throughput, BytesIn, BytesOut, Succeeded;
    ConcatMembers(groups);
    PlainTotals(groups);
    WeightedTotals(groups);
    CodesHierarchical(groups);
    ErrorsHierarchical(groups);
    SameTotals(AggregateEach(groups), Concat(groups));
    hide Uncounted;
    AggregateIs(AggregateEach(groups));
    AggregateIs(Concat(groups));
  }

  // ---- What an aggregate holds, field by field

  /** The aggregate of one pod is that pod's metrics, with the first ten errors. */
  lemma AggregateOfOne(m: Metrics)
    ensures var a := Aggregate([m]);
            && a.requests == m.requests && a.rate == m.rate && a.throughput == m.throughput
            && a.bytesIn == m.bytesIn && a.bytesOut == m.bytesOut
            && a.statusCodes == m.statusCodes
            && a.errors == (if |m.errors| > 10 then m.errors[..10] else m.errors)
            && a.podCount == Some(1)
  {
    assert [m][..0] == [];
    assert Codes([m]) == Merge(map[], m.statusCodes);
    assert Errors([m]) == [] + m.errors == m.errors;
    MergeUnit(m.statusCodes);
    hide Sum, Codes, Errors, Latencies;
    SumOne(Requests(), m);
    SumOne(Rate(), m);
    SumOne(Throughput(), m);
    SumOne(BytesIn(), m);
    SumOne(BytesOut(), m);
  }

  /** Its means are the pod's own, if it had requests; a percentile the pod lacks counts as zero. */
  lemma MeansOfOne(m: Metrics, p: Percentile)
    ensures m.requests > 0.0 ==>
              && Aggregate([m]).success == m.success
              && p in Aggregate([m]).latencies
              && Aggregate([m]).latencies[p] == if p in m.latencies then m.latencies[p] else 0.0
    ensures m.requests <= 0.0 ==> Aggregate([m]).success == 0.0 && Aggregate([m]).latencies == map[]
  {
    hide Sum, Codes, Errors;
    SumOne(Requests(), m);
    if m.requests > 0.0 {
      SumOne(Weighted(p), m);
      SumOne(Succeeded(), m);
      AggregateMeans([m], p);
      hide Aggregate;
      assert Get(m.latencies, p) * m.requests / m.requests == Get(m.latencies, p);
      assert m.success * m.requests / m.requests == m.success;
    }
  }

  lemma SumOne(f: Metrics -> real, m: Metrics)
    ensures Sum(f, [m]) == f(m)
  {
    assert [m][..0] == [];
  }

  /** The aggregate of two groups of pods adds their totals and their counts code by code, and takes the
      first ten of their errors. */
  lemma AggregateOfTwo(a: seq<Metrics>, b: seq<Metrics>)
    requires a != [] && b != []
    ensures var x, y, all := Aggregate(a), Aggregate(b), Aggregate(a + b);
            && all.requests == x.requests + y.requests && all.rate == x.rate + y.rate
            && all.throughput == x.throughput + y.throughput
            && all.bytesIn == x.bytesIn + y.bytesIn && all.bytesOut == x.bytesOut + y.bytesOut
            && all.podCount == Some(|a| + |b|)
            && all.statusCodes.Keys == x.statusCodes.Keys + y.statusCodes.Keys
            && (forall k :: k in all.statusCodes ==>
                  all.statusCodes[k] == (if k in x.statusCodes then x.statusCodes[k] else 0.0)
                                        + (if k in y.statusCodes then y.statusCodes[k] else 0.0))
            && all.errors == (if |x.errors + y.errors| > 10 then (x.errors + y.errors)[..10] else x.errors + y.errors)
  {
    hide Sum, Codes, Errors, Latencies;
    SumJoin(Requests(), a, b);
    SumJoin(Rate(), a, b);
    SumJoin(Throughput(), a, b);
    SumJoin(BytesIn(), a, b);
    SumJoin(BytesOut(), a, b);
    CodesJoin(a, b);
    ErrorsJoin(a, b);
    FirstErrorsJoin(Errors(a), FirstErrors(Errors(a)), Errors(b));
  }

  /** Its means are those of all requests: weighted by requests they add, too. */
  lemma MeansOfTwo(a: seq<Metrics>, b: seq<Metrics>, p: Percentile)
    requires NonNegative(a) && NonNegative(b) && Sum(Requests(), a + b) > 0.0
    ensures var x, y, all := Aggregate(a), Aggregate(b), Aggregate(a + b);
            && p in all.latencies
            && all.latencies[p] * all.requests ==
                 (if p in x.latencies then x.latencies[p] * x.requests else 0.0)
                 + (if p in y.latencies then y.latencies[p] * y.requests else 0.0)
            && all.success * all.requests == x.success * x.requests + y.success * y.requests
  {
    hide Sum, Aggregate;
    WeightedAdditive(a, p);
    WeightedAdditive(b, p);
    WeightedAdditive(a + b, p);
    SumJoin(Weighted(p), a, b);
    SumJoin(Succeeded(), a, b);
    AggregateMeans(a + b, p);
  }

  function SuccessRate(total: real, succeeded: real): real { if total > 0.0 then succeeded / total else 0.0 }

  /** The aggregate without its pod count. */
  function Uncounted(list: seq<Metrics>): Metrics
  {
    Metrics(
      Sum(Requests(), list), Sum(Rate(), list), Sum(Throughput(), list), Latencies(list),
      SuccessRate(Sum(Requests(), list), Sum(Succeeded(), list)),
      Codes(list), Sum(BytesIn(), list), Sum(BytesOut(), list), FirstErrors(Errors(list)), None)
  }

  lemma AggregateIs(list: seq<Metrics>)
    ensures Aggregate(list) == Uncounted(list).(podCount := if list == [] then None else Some(|list|))
  {
    if list != [] {
      hide Sum, Codes, Errors, FirstErrors, Latencies;
    }
  }

  /** Metrics with the same totals aggregate to the same. */
  lemma SameTotals(a: seq<Metrics>, b: seq<Metrics>)
    requires Sum(Requests(), a) == Sum(Requests(), b) && Sum(Rate(), a) == Sum(Rate(), b)
    requires Sum(Throughput(), a) == Sum(Throughput(), b) && Sum(BytesIn(), a) == Sum(BytesIn(), b)
    requires Sum(BytesOut(), a) == Sum(BytesOut(), b) && Sum(Succeeded(), a) == Sum(Succeeded(), b)
    requires forall p: Percentile :: Sum(Weighted(p), a) == Sum(Weighted(p), b)
    requires Codes(a) == Codes(b) && FirstErrors(Errors(a)) == FirstErrors(Errors(b))
    ensures Uncounted(a) == Uncounted(b)
  {
    hide Sum, Codes, Errors, FirstErrors, Latencies, SuccessRate, Requests, Rate, Throughput, BytesIn, BytesOut,
      Succeeded;
    SameLatencies(a, b);
  }

  lemma SameLatencies(a: seq<Metrics>, b: seq<Metrics>)
    requires Sum(Requests(), a) == Sum(Requests(), b)
    requires forall p: Percentile :: Sum(Weighted(p), a) == Sum(Weighted(p), b)
    ensures Latencies(a) == Latencies(b)
  {
    hide Sum;
  }

  // ---- Means stay between the extremes

  lemma {:induction false} WeightedBounds(f: Metrics -> real, list: seq<Metrics>, lo: real, hi: real)
    requires NonNegative(list)
    requires forall i :: 0 <= i < |list| && list[i].requests > 0.0 ==>
               lo * list[i].requests <= f(list[i]) <= hi * list[i].requests
    requires forall i :: 0 <= i < |list| && list[i].requests == 0.0 ==> f(list[i]) == 0.0
    ensures lo * Sum(Requests(), list) <= Sum(f, list) <= hi * Sum(Requests(), list)
  {
    if list != [] {
      var init, last := list[..|list| - 1], list[|list| - 1];
      WeightedBounds(f, init, lo, hi);
      assert lo * (Sum(Requests(), init) + last.requests) == lo * Sum(Requests(), init) + lo * last.requests;
      assert hi * (Sum(Requests(), init) + last.requests) == hi * Sum(Requests(), init) + hi * last.requests;
    }
  }

  /** Each latency lies between any bounds on the latencies of the pods that had requests. */
  lemma LatencyWithinBounds(list: seq<Metrics>, p: Percentile, lo: real, hi: real)
    requires NonNegative(list) && Sum(Requests(), list) > 0.0
    requires forall i :: 0 <= i < |list| && list[i].requests > 0.0 ==> lo <= Get(list[i].latencies, p) <= hi
    ensures p in Aggregate(list).latencies && lo <= Aggregate(list).latencies[p] <= hi
  {
    hide Sum, Aggregate;
    forall i | 0 <= i < |list| && list[i].requests > 0.0
      ensures lo * list[i].requests <= Weighted(p)(list[i]) <= hi * list[i].requests
    {
      ScaleUp(lo, Get(list[i].latencies, p), list[i].requests);
      ScaleUp(Get(list[i].latencies, p), hi, list[i].requests);
    }
    WeightedBounds(Weighted(p), list, lo, hi);
    AggregateMeans(list, p);
    QuotientBetween(lo, Sum(Weighted(p), list), hi, Sum(Requests(), list));
  }

  /** So does the success rate. */
  lemma SuccessWithinBounds(list: seq<Metrics>, lo: real, hi: real)
    requires NonNegative(list) && Sum(Requests(), list) > 0.0
    requires forall i :: 0 <= i < |list| && list[i].requests > 0.0 ==> lo <= list[i].success <= hi
    ensures lo <= Aggregate(list).success <= hi
  {
    hide Sum, Aggregate;
    forall i | 0 <= i < |list| && list[i].requests > 0.0
      ensures lo * list[i].requests <= Succeeded()(list[i]) <= hi * list[i].requests
    {
      ScaleUp(lo, list[i].success, list[i].requests);
      ScaleUp(list[i].success, hi, list[i].requests);
    }
    WeightedBounds(Succeeded(), list, lo, hi);
    AggregateMeans(list, Mean);
    QuotientBetween(lo, Sum(Succeeded(), list), hi, Sum(Requests(), list));
  }
}
