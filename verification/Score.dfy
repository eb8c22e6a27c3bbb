// The verdict on an SLO query and the score of a scenario, in exact arithmetic.

module Score {
  import opened Options
  import opened Reals

  // ---- One SLO query

  /** A series of a query result. A sample is None when it does not parse as a number. */
  datatype Series = Values(samples: seq<Option<real>>) | Value(sample: Option<real>) | Bare

  /** What a series settles by itself: a positive sample fails the SLO, an instant value decides
      it either way, anything else leaves it open. */
  function Decides(s: Series): Option<bool>
  {
    match s
    case Values(samples) =>
      if exists i :: 0 <= i < |samples| && samples[i].Some? && samples[i].value > 0.0 then Some(false) else None
    case Value(sample) => Some(sample.Some? && sample.value == 0.0)
    case Bare => None
  }

  /** The verdict on a query result. */
  function Verdict(result: seq<Series>): Option<bool>
  {
    if result == [] then None
    else if Decides(result[0]).Some? then Decides(result[0])
    else
      var rest := Verdict(result[1..]);
      if rest.None? && result[0].Values? then Some(true) else rest
  }

  /** The first series that settles the matter gives the verdict. */
  lemma {:induction false} FirstDecides(result: seq<Series>, i: nat)
    requires i < |result| && Decides(result[i]).Some? && forall j :: 0 <= j < i ==> Decides(result[j]).None?
    ensures Verdict(result) == Decides(result[i])
  {
    hide Decides;
    if i > 0 {
      var rest := result[1..];
      assert rest[i - 1] == result[i];
      assert forall j :: 0 <= j < i - 1 ==> rest[j] == result[j + 1];
      FirstDecides(rest, i - 1);
    }
  }

  /** If none does, the SLO passed when there were samples at all, and is undecided when not. */
  lemma {:induction false} NoneDecides(result: seq<Series>)
    requires forall i :: 0 <= i < |result| ==> Decides(result[i]).None?
    ensures Verdict(result) == if exists i :: 0 <= i < |result| && result[i].Values? then Some(true) else None
  {
    hide Decides;
    if result != [] {
      var rest := result[1..];
      assert forall j :: 0 <= j < |rest| ==> rest[j] == result[j + 1];
      NoneDecides(rest);
      assert result == [result[0]] + rest;
    }
  }

  // ---- The verdict in terms of the samples

  /** Without an instant value: the SLO fails exactly when some sample is positive, passes when there
      are series of samples and none is, and is undecided without any. */
  lemma RangeVerdict(result: seq<Series>)
    requires forall i :: 0 <= i < |result| ==> !result[i].Value?
    ensures Verdict(result) == Some(false) <==>
            exists i, k :: 0 <= i < |result| && result[i].Values? && 0 <= k < |result[i].samples|
              && result[i].samples[k].Some? && result[i].samples[k].value > 0.0
    ensures Verdict(result) == None <==> forall i :: 0 <= i < |result| ==> result[i].Bare?
  {
    hide Verdict;
    if forall i :: 0 <= i < |result| ==> Decides(result[i]).None? {
      NoneDecides(result);
    } else {
      var n := FirstDecider(result, |result|);
      FirstDecides(result, n);
    }
  }

  /** With one: a positive sample in the series before the first instant value fails the SLO, else that
      value decides, and passes it only if it parses and is zero. */
  lemma InstantVerdict(result: seq<Series>, n: nat)
    requires n < |result| && result[n].Value? && forall i :: 0 <= i < n ==> !result[i].Value?
    ensures Verdict(result) ==
            if exists i, k :: 0 <= i < n && result[i].Values? && 0 <= k < |result[i].samples|
                 && result[i].samples[k].Some? && result[i].samples[k].value > 0.0
            then Some(false) else Some(result[n].sample == Some(0.0))
  {
    hide Verdict;
    if forall i :: 0 <= i < n ==> Decides(result[i]).None? {
      FirstDecides(result, n);
    } else {
      var m := FirstDecider(result, n);
      FirstDecides(result, m);
    }
  }

  /** The first series that settles the matter, if one of the first `n` does. */
  lemma {:induction false} FirstDecider(result: seq<Series>, n: nat) returns (i: nat)
    requires n <= |result| && exists i :: 0 <= i < n && Decides(result[i]).Some?
    ensures i < n && Decides(result[i]).Some? && forall j :: 0 <= j < i ==> Decides(result[j]).None?
    decreases n
  {
    hide Decides;
    if exists j :: 0 <= j < n - 1 && Decides(result[j]).Some? {
      i := FirstDecider(result, n - 1);
    } else {
      i := n - 1;
    }
  }

  /** `slo_passed`. */
  method SloPassed(result: seq<Series>) returns (passed: Option<bool>)
    ensures passed == Verdict(result)
  {
    hide Verdict;
    if result == [] {
      NoneDecides(result);
      return None;
    }
    var hasSamples := false;
    for i := 0 to |result|
      invariant forall j :: 0 <= j < i ==> Decides(result[j]).None?
      invariant hasSamples <==> exists j :: 0 <= j < i && result[j].Values?
    {
      match result[i]
      case Values(samples) =>
        hasSamples := true;
        for k := 0 to |samples|
          invariant forall m :: 0 <= m < k ==> !(samples[m].Some? && samples[m].value > 0.0)
        {
          if samples[k].Some? && samples[k].value > 0.0 {
            assert Decides(result[i]) == Some(false);
            FirstDecides(result, i);
            return Some(false);
          }
        }
      case Value(sample) =>
        FirstDecides(result, i);
        return Some(sample.Some? && sample.value == 0.0);
      case Bare =>
    }
    NoneDecides(result);
    passed := if hasSamples then Some(true) else None;
  }

  // ---- The score of one scenario

  /** An SLO definition; `weight` overrides the weight of its severity. */
  datatype Definition = Definition(severity: string, weight: Option<real>)

  datatype SloResult = SloResult(name: string, weight: real, passed: bool)

  function SeverityWeight(severity: string): real { if severity == "critical" then 3.0 else 1.0 }

  function Weight(d: Definition): real
  {
    if d.weight.Some? then d.weight.value else SeverityWeight(d.severity)
  }

  datatype Named<T> = Named(name: string, value: T)

  /** The SLO objects: evaluated definitions, then health checks, which are always critical. */
  function Evaluated(definitions: seq<Named<Definition>>, results: map<string, bool>): seq<SloResult>
  {
    if definitions == [] then []
    else
      var d := definitions[|definitions| - 1];
      Evaluated(definitions[..|definitions| - 1], results)
      + (if d.name in results then [SloResult(d.name, Weight(d.value), results[d.name])] else [])
  }

  function HealthChecks(checks: seq<Named<bool>>): seq<SloResult>
  {
    if checks == [] then []
    else
      var c := checks[|checks| - 1];
      HealthChecks(checks[..|checks| - 1]) + [SloResult(c.name, SeverityWeight("critical"), c.value)]
  }

  function Total(slos: seq<SloResult>): real
  {
    if slos == [] then 0.0 else Total(slos[..|slos| - 1]) + slos[|slos| - 1].weight
  }

  function Lost(slos: seq<SloResult>): real
  {
    if slos == [] then 0.0
    else Lost(slos[..|slos| - 1]) + (if slos[|slos| - 1].passed then 0.0 else slos[|slos| - 1].weight)
  }

  function Passing(slos: seq<SloResult>): (n: nat)
    ensures n <= |slos|
  {
    if slos == [] then 0 else Passing(slos[..|slos| - 1]) + (if slos[|slos| - 1].passed then 1 else 0)
  }

  /** Python's `int(x)`: towards zero. */
  function Truncate(x: real): int { if x >= 0.0 then x.Floor else -(-x).Floor }

  lemma TowardsZero(x: real)
    ensures var n := Truncate(x);
            if x >= 0.0 then n as real <= x < (n + 1) as real else (n - 1) as real < x <= n as real
  {
  }

  function ScoreOf(slos: seq<SloResult>): int
  {
    if Total(slos) == 0.0 then 0 else Truncate((Total(slos) - Lost(slos)) / Total(slos) * 100.0)
  }

  datatype Breakdown = Breakdown(total: real, lost: real, passed: nat, failed: nat)

  /** `calculate_resiliency_score`. */
  method CalculateScore(definitions: seq<Named<Definition>>, results: map<string, bool>, checks: seq<Named<bool>>)
      returns (score: int, breakdown: Breakdown)
    ensures var slos := Evaluated(definitions, results) + HealthChecks(checks);
            && score == ScoreOf(slos)
            && breakdown == Breakdown(Total(slos), Lost(slos), Passing(slos), |slos| - Passing(slos))
  {
    var slos: seq<SloResult> := [];
    for i := 0 to |definitions|
      invariant slos == Evaluated(definitions[..i], results)
    {
      assert definitions[..i + 1][..i] == definitions[..i];
      var d := definitions[i];
      if d.name !in results {
        continue;
      }
      slos := slos + [SloResult(d.name, Weight(d.value), results[d.name])];
    }
    assert definitions[..|definitions|] == definitions;
    for i := 0 to |checks|
      invariant slos == Evaluated(definitions, results) + HealthChecks(checks[..i])
    {
      assert checks[..i + 1][..i] == checks[..i];
      slos := slos + [SloResult(checks[i].name, SeverityWeight("critical"), checks[i].value)];
    }
    assert checks[..|checks|] == checks;
    score := ScoreOf(slos);
    breakdown := Breakdown(Total(slos), Lost(slos), Passing(slos), |slos| - Passing(slos));
  }

  /** What a list of SLOs is worth, what it loses, and how many pass, is the sum over its members. */
  lemma {:induction false} SumsAdd(a: seq<SloResult>, b: seq<SloResult>)
    ensures Total(a + b) == Total(a) + Total(b)
    ensures Lost(a + b) == Lost(a) + Lost(b)
    ensures Passing(a + b) == Passing(a) + Passing(b)
  {
    if b == [] {
      assert a + b == a;
    } else {
      SumsAdd(a, b[..|b| - 1]);
      assert (a + b)[..|a + b| - 1] == a + b[..|b| - 1];
    }
  }

  lemma SumsOfOne(slo: SloResult)
    ensures Total([slo]) == slo.weight
    ensures Lost([slo]) == if slo.passed then 0.0 else slo.weight
    ensures Passing([slo]) == if slo.passed then 1 else 0
    ensures Total([]) == 0.0 == Lost([]) && Passing([]) == 0
  {
    assert [slo][..0] == [];
  }

  /** Without points the score is 0. */
  lemma NoPointsScoreNothing(slos: seq<SloResult>)
    requires Total(slos) == 0.0
    ensures ScoreOf(slos) == 0
  {
  }

  ghost predicate NonNegative(slos: seq<SloResult>)
  {
    forall i :: 0 <= i < |slos| ==> slos[i].weight >= 0.0
  }

  lemma {:induction false} LostWithinTotal(slos: seq<SloResult>)
    requires NonNegative(slos)
    ensures 0.0 <= Lost(slos) <= Total(slos)
    ensures Lost(slos) == 0.0 <==> forall i :: 0 <= i < |slos| && slos[i].weight > 0.0 ==> slos[i].passed
  {
    if slos != [] {
      var init, last := slos[..|slos| - 1], slos[|slos| - 1];
      LostWithinTotal(init);
      assert slos == init + [last];
      assert forall i :: 0 <= i < |init| ==> slos[i] == init[i];
    }
  }

  /** The score is the whole percentage: the integer s with s <= 100 (total - lost) / total < s + 1. */
  lemma ScoreIsPercentage(slos: seq<SloResult>)
    requires NonNegative(slos) && Total(slos) > 0.0
    ensures var s := ScoreOf(slos);
            s as real * Total(slos) <= 100.0 * (Total(slos) - Lost(slos)) < (s + 1) as real * Total(slos)
  {
    hide Total, Lost, Truncate;
    LostWithinTotal(slos);
    Percentage(Total(slos), Total(slos) - Lost(slos));
  }

  lemma Percentage(total: real, kept: real)
    requires total > 0.0 && kept >= 0.0
    ensures var s := Truncate(kept / total * 100.0); s as real * total <= 100.0 * kept < (s + 1) as real * total
  {
    var q := kept / total;
    assert q * total == kept;
    NonNegativeFactor(q, total);
    var p := q * 100.0;
    var s := Truncate(p);
    assert p * total == 100.0 * kept;
    var t := (s + 1) as real;
    Bracket(s as real, p, t, total);
    assert 100.0 * kept < t * total;
  }

  /** Multiplying an interval by a positive number. */
  lemma Bracket(x: real, y: real, z: real, w: real)
    requires x <= y < z && w > 0.0
    ensures x * w <= y * w < z * w
  {
    assert (y - x) * w >= 0.0;
    assert (z - y) * w > 0.0;
  }

  /** What a bracket x..t around the percentage says about its ends. */
  lemma BracketEnds(x: real, t: real, total: real, lost: real)
    requires total > 0.0 && 0.0 <= lost <= total
    requires x * total <= 100.0 * (total - lost) < t * total
    ensures t > 0.0 && x <= 100.0
    ensures lost > 0.0 ==> x < 100.0
    ensures lost == 0.0 ==> t > 100.0
  {
    PositiveFactor(t, total);
    assert (100.0 - x) * total == 100.0 * total - x * total;
    NonNegativeFactor(100.0 - x, total);
    if lost > 0.0 {
      PositiveFactor(100.0 - x, total);
    } else {
      assert (t - 100.0) * total == t * total - 100.0 * total;
      PositiveFactor(t - 100.0, total);
    }
  }

  /** With nonnegative weights the score is within 0..100, and is 100 exactly when there are points
      and none was lost, that is when every SLO of positive weight passed. */
  lemma ScoreRange(slos: seq<SloResult>)
    requires NonNegative(slos)
    ensures 0 <= ScoreOf(slos) <= 100
    ensures ScoreOf(slos) == 100 <==>
            Total(slos) > 0.0 && forall i :: 0 <= i < |slos| && slos[i].weight > 0.0 ==> slos[i].passed
  {
    hide Total, Lost, Truncate;
    LostWithinTotal(slos);
    if Total(slos) > 0.0 {
      ScoreIsPercentage(slos);
      hide ScoreOf;
      BracketEnds(ScoreOf(slos) as real, (ScoreOf(slos) + 1) as real, Total(slos), Lost(slos));
    }
  }

  /** The same SLOs, none of which passes in `a` but fails in `b`. */
  ghost predicate NoWorse(a: seq<SloResult>, b: seq<SloResult>)
  {
    && |a| == |b|
    && forall i :: 0 <= i < |a| ==>
         a[i].name == b[i].name && a[i].weight == b[i].weight && (a[i].passed ==> b[i].passed)
  }

  lemma {:induction false} NoWorseSums(a: seq<SloResult>, b: seq<SloResult>)
    requires NonNegative(a) && NoWorse(a, b)
    ensures Total(a) == Total(b) && Lost(b) <= Lost(a) && NonNegative(b)
  {
    if a != [] {
      var n := |a| - 1;
      assert forall i :: 0 <= i < n ==> a[..n][i] == a[i] && b[..n][i] == b[i];
      NoWorseSums(a[..n], b[..n]);
    }
  }

  /** A score never falls when failing SLOs become passing. */
  lemma ScoreMonotone(a: seq<SloResult>, b: seq<SloResult>)
    requires NonNegative(a) && NoWorse(a, b)
    ensures ScoreOf(a) <= ScoreOf(b)
  {
    hide Total, Lost, Truncate;
    NoWorseSums(a, b);
    LostWithinTotal(a);
    if Total(a) > 0.0 {
      ScoreIsPercentage(a);
      ScoreIsPercentage(b);
      hide ScoreOf;
      Ordered(ScoreOf(a), ScoreOf(b), Total(a), Lost(a), Lost(b));
    }
  }

  lemma Ordered(x: int, y: int, total: real, more: real, less: real)
    requires total > 0.0 && less <= more
    requires x as real * total <= 100.0 * (total - more)
    requires 100.0 * (total - less) < (y + 1) as real * total
    ensures x <= y
  {
    assert 100.0 * (total - more) <= 100.0 * (total - less);
    assert (y + 1 - x) as real * total == (y + 1) as real * total - x as real * total;
    PositiveFactor((y + 1 - x) as real, total);
  }

  /** In terms of the query results: any set of SLOs may turn from failing to passing. */
  lemma {:induction false} BetterResults(definitions: seq<Named<Definition>>,
                                         r: map<string, bool>, r': map<string, bool>)
    requires r.Keys == r'.Keys && forall n :: n in r && r[n] ==> r'[n]
    ensures NoWorse(Evaluated(definitions, r), Evaluated(definitions, r'))
  {
    if definitions != [] {
      BetterResults(definitions[..|definitions| - 1], r, r');
    }
  }

  // ---- Which weights keep the score in range

  function Weights(slos: seq<SloResult>): (w: seq<real>)
    ensures |w| == |slos| && forall i :: 0 <= i < |w| ==> w[i] == slos[i].weight
  {
    if slos == [] then [] else Weights(slos[..|slos| - 1]) + [slos[|slos| - 1].weight]
  }

  function Sum(weights: seq<real>): real
  {
    if weights == [] then 0.0 else Sum(weights[..|weights| - 1]) + weights[|weights| - 1]
  }

  /** The sum of the positive weights. */
  function Gains(weights: seq<real>): real
  {
    if weights == [] then 0.0
    else Gains(weights[..|weights| - 1]) + (if weights[|weights| - 1] > 0.0 then weights[|weights| - 1] else 0.0)
  }

  /** The sum of the negative weights. */
  function Debts(weights: seq<real>): real
  {
    if weights == [] then 0.0
    else Debts(weights[..|weights| - 1]) + (if weights[|weights| - 1] < 0.0 then weights[|weights| - 1] else 0.0)
  }

  /** The weights balance: their total is zero, or the weights of the other sign are less than a
      hundredth of it. */
  predicate Balanced(weights: seq<real>)
  {
    var total := Sum(weights);
    total == 0.0 || (total > 0.0 && -100.0 * Debts(weights) < total) || (total < 0.0 && 100.0 * Gains(weights) < -total)
  }

  /** Whatever passes and fails, the score is within 0..100. */
  ghost predicate AlwaysInRange(weights: seq<real>)
  {
    forall slos :: Weights(slos) == weights ==> 0 <= ScoreOf(slos) <= 100
  }

  lemma {:induction false} LostBetween(slos: seq<SloResult>)
    ensures var w := Weights(slos);
            && Total(slos) == Sum(w) == Gains(w) + Debts(w)
            && Debts(w) <= Total(slos) - Lost(slos) <= Gains(w)
            && Debts(w) <= 0.0 <= Gains(w)
  {
    if slos != [] {
      var init := slos[..|slos| - 1];
      LostBetween(init);
      assert Weights(slos)[..|slos| - 1] == Weights(init);
    }
  }

  /** The passing and failing that keeps as much, or as little, as the weights allow. */
  function Extreme(weights: seq<real>, most: bool): (slos: seq<SloResult>)
    ensures |slos| == |weights| && Weights(slos) == weights
  {
    seq(|weights|, i requires 0 <= i < |weights| =>
          SloResult("", weights[i], if most then weights[i] > 0.0 else weights[i] < 0.0))
  }

  /** Where a truncated percentage leaves 0..100. */
  lemma PercentageBounds(total: real, kept: real)
    requires total != 0.0
    ensures var s := Truncate(kept / total * 100.0);
            && (s >= 0 <==> if total > 0.0 then 100.0 * kept > -total else 100.0 * kept < -total)
            && (s <= 100 <==> if total > 0.0 then 100.0 * kept < 101.0 * total else 100.0 * kept > 101.0 * total)
  {
    var q := kept / total * 100.0;
    assert q * total == 100.0 * kept by {
      assert kept / total * total == kept;
    }
    CompareScaled(-1.0, q, total);
    CompareScaled(q, 101.0, total);
    assert q > -1.0 <==> if total > 0.0 then 100.0 * kept > -total else 100.0 * kept < -total;
    assert q < 101.0 <==> if total > 0.0 then 100.0 * kept < 101.0 * total else 100.0 * kept > 101.0 * total;
    hide Truncate;
    TruncateBounds(q);
  }

  lemma TruncateBounds(q: real)
    ensures Truncate(q) >= 0 <==> q > -1.0
    ensures Truncate(q) <= 100 <==> q < 101.0
  {
  }

  /** The scores of all outcomes are in range exactly when the weights balance; in particular when
      none is negative, or when none is positive. */
  lemma InRangeIffBalanced(weights: seq<real>)
    ensures AlwaysInRange(weights) <==> Balanced(weights)
  {
    hide Sum, Gains, Debts, Total, Lost, Truncate, Weights;
    var total := Sum(weights);
    if Balanced(weights) {
      forall slos | Weights(slos) == weights ensures 0 <= ScoreOf(slos) <= 100 {
        LostBetween(slos);
        if total != 0.0 {
          PercentageBounds(total, Total(slos) - Lost(slos));
        }
      }
    } else {
      ExtremeScore(Extreme(weights, total < 0.0), total < 0.0);
    }
  }

  /** Unbalanced weights leave the range as soon as, with a positive total, exactly the SLOs of
      negative weight pass, or with a negative total those of positive weight. */
  lemma ExtremeScore(slos: seq<SloResult>, most: bool)
    requires !Balanced(Weights(slos)) && (most <==> Sum(Weights(slos)) < 0.0)
    requires forall i :: 0 <= i < |slos| ==>
             slos[i].passed == if most then slos[i].weight > 0.0 else slos[i].weight < 0.0
    ensures ScoreOf(slos) < 0
  {
    hide Sum, Gains, Debts, Total, Lost, Truncate, Weights;
    ExtremeSums(slos, most);
    LostBetween(slos);
    PercentageBounds(Total(slos), Total(slos) - Lost(slos));
  }

  lemma {:induction false} ExtremeSums(slos: seq<SloResult>, most: bool)
    requires forall i :: 0 <= i < |slos| ==>
             slos[i].passed == if most then slos[i].weight > 0.0 else slos[i].weight < 0.0
    ensures Total(slos) - Lost(slos) == if most then Gains(Weights(slos)) else Debts(Weights(slos))
  {
    if slos != [] {
      ExtremeSums(slos[..|slos| - 1], most);
      assert Weights(slos)[..|slos| - 1] == Weights(slos[..|slos| - 1]);
    }
  }

  /** Weights of one sign balance. */
  lemma {:induction false} OneSign(weights: seq<real>)
    ensures (forall i :: 0 <= i < |weights| ==> weights[i] >= 0.0) ==> Debts(weights) == 0.0 && Sum(weights) >= 0.0
    ensures (forall i :: 0 <= i < |weights| ==> weights[i] <= 0.0) ==> Gains(weights) == 0.0 && Sum(weights) <= 0.0
  {
    if weights != [] {
      OneSign(weights[..|weights| - 1]);
    }
  }

  lemma OneSignBalances(weights: seq<real>)
    requires (forall i :: 0 <= i < |weights| ==> weights[i] >= 0.0)
             || (forall i :: 0 <= i < |weights| ==> weights[i] <= 0.0)
    ensures Balanced(weights)
  {
    OneSign(weights);
  }

  /** A negative weight in the alert file is accepted, and need not balance: one failing SLO of
      weight 1 beside a passing one of weight -2 scores 200. */
  lemma NegativeWeightBreaksRange()
    ensures !Balanced([1.0, -2.0]) && !AlwaysInRange([1.0, -2.0])
    ensures ScoreOf([SloResult("a", 1.0, false), SloResult("b", -2.0, true)]) == 200
  {
    var w := [1.0, -2.0];
    assert w[..1] == [1.0] && [1.0][..0] == [];
    assert Sum([1.0]) == 1.0 && Gains([1.0]) == 1.0;
    assert Sum(w) == -1.0 && Gains(w) == 1.0;
    InRangeIffBalanced(w);
    var a, b := SloResult("a", 1.0, false), SloResult("b", -2.0, true);
    assert [a, b][..1] == [a] && [a][..0] == [];
    assert Total([a]) == 1.0 && Lost([a]) == 1.0;
    assert Total([a, b]) == -1.0 && Lost([a, b]) == 1.0;
    assert (-1.0 - 1.0) / -1.0 == 2.0;
  }

  // ---- SLOs without a result

  function Without(definitions: seq<Named<Definition>>, name: string): seq<Named<Definition>>
  {
    if definitions == [] then []
    else
      var d := definitions[|definitions| - 1];
      Without(definitions[..|definitions| - 1], name) + (if d.name == name then [] else [d])
  }

  /** An SLO without a result is scored as if it were not defined; it does not count as failed. */
  lemma {:induction false} MissingResultIsSkipped(definitions: seq<Named<Definition>>, results: map<string, bool>,
                                                  name: string)
    ensures Evaluated(definitions, results - {name}) == Evaluated(Without(definitions, name), results)
  {
    if definitions != [] {
      var init, d := definitions[..|definitions| - 1], definitions[|definitions| - 1];
      MissingResultIsSkipped(init, results, name);
      assert Evaluated(init, results - {name}) + [] == Evaluated(init, results - {name});
      assert Without(init, name) + [] == Without(init, name);
      if d.name != name {
        EvaluatedSnoc(Without(init, name), d, results);
      }
    }
  }

  lemma EvaluatedSnoc(definitions: seq<Named<Definition>>, d: Named<Definition>, results: map<string, bool>)
    ensures Evaluated(definitions + [d], results) ==
            Evaluated(definitions, results)
              + (if d.name in results then [SloResult(d.name, Weight(d.value), results[d.name])] else [])
  {
    assert (definitions + [d])[..|definitions|] == definitions;
  }
}
