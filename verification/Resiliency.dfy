// The resiliency report: SLOs from the alert file, scenario reports, the final score.

module Resiliency {
  import opened Options
  import opened Reals
  import opened Score

  /** An entry of the alert file: unusable, or with its description, severity and weight. */
  datatype Alert = Invalid | Alert(description: string, severity: string, weight: Option<real>)

  datatype Slo = Slo(name: string, severity: string, weight: Option<real>)

  function Lower(s: string): string
  {
    if s == "" then "" else [if 'A' <= s[0] <= 'Z' then s[0] - 'A' + 'a' else s[0]] + Lower(s[1..])
  }

  /** The name of the alert at an index: its description, or the index when there is none. */
  function NameOf(alerts: seq<Alert>, i: nat, fallback: nat -> string): string
    requires i < |alerts| && alerts[i].Alert?
  {
    if alerts[i].description != "" then alerts[i].description else fallback(i)
  }

  function Normalised(alerts: seq<Alert>, n: nat, fallback: nat -> string): seq<Slo>
    requires n <= |alerts|
  {
    if n == 0 then []
    else
      Normalised(alerts, n - 1, fallback)
      + (if alerts[n - 1].Invalid? then []
         else [Slo(NameOf(alerts, n - 1, fallback), Lower(alerts[n - 1].severity), alerts[n - 1].weight)])
  }

  /** The number of usable alerts among the first `n`. */
  function Usable(alerts: seq<Alert>, n: nat): nat
    requires n <= |alerts|
  {
    if n == 0 then 0 else Usable(alerts, n - 1) + (if alerts[n - 1].Alert? then 1 else 0)
  }

  /** The SLO list has one entry for each usable alert, in their order, each with its own fields: named
      by description, or by index when there is none, with the capitals A to Z of its severity made
      small. */
  lemma {:induction false} SlosAreAlerts(alerts: seq<Alert>, n: nat, fallback: nat -> string)
    requires n <= |alerts|
    ensures |Normalised(alerts, n, fallback)| == Usable(alerts, n)
    ensures forall i :: 0 <= i < n && alerts[i].Alert? ==>
              && Usable(alerts, i) < Usable(alerts, n)
              && IsSloOf(Normalised(alerts, n, fallback)[Usable(alerts, i)], alerts[i], fallback(i))
  {
    if n > 0 {
      hide Normalised, IsSloOf;
      SlosAreAlerts(alerts, n - 1, fallback);
      NormalisedStep(alerts, n, fallback);
    }
  }

  predicate IsSloOf(slo: Slo, alert: Alert, fallback: string)
    requires alert.Alert?
  {
    && slo.name == (if alert.description == "" then fallback else alert.description)
    && slo.weight == alert.weight
    && |slo.severity| == |alert.severity|
    && forall k: nat :: k < |slo.severity| ==>
         slo.severity[k] as int == alert.severity[k] as int + if 65 <= alert.severity[k] as int <= 90 then 32 else 0
  }

  lemma NormalisedStep(alerts: seq<Alert>, n: nat, fallback: nat -> string)
    requires 0 < n <= |alerts|
    ensures alerts[n - 1].Invalid? ==> Normalised(alerts, n, fallback) == Normalised(alerts, n - 1, fallback)
    ensures alerts[n - 1].Alert? ==>
              var all, init := Normalised(alerts, n, fallback), Normalised(alerts, n - 1, fallback);
              |all| == |init| + 1 && all[..|init|] == init && IsSloOf(all[|init|], alerts[n - 1], fallback(n - 1))
  {
    if alerts[n - 1].Alert? {
      LowerIs(alerts[n - 1].severity);
    }
  }

  lemma {:induction false} LowerIs(s: string)
    ensures |Lower(s)| == |s|
    ensures forall k :: 0 <= k < |s| ==>
              Lower(s)[k] as int == s[k] as int + if 65 <= s[k] as int <= 90 then 32 else 0
  {
    if s != "" {
      LowerIs(s[1..]);
    }
  }

  function Names(slos: seq<Slo>): set<string> { set s | s in slos :: s.name }

  /** The dictionary built from the list: a repeated name keeps its first place and its last value. */
  function AsDefinitions(slos: seq<Slo>): seq<Named<Definition>>
  {
    if slos == [] then []
    else Put(AsDefinitions(slos[..|slos| - 1]), slos[|slos| - 1].name,
             Definition(slos[|slos| - 1].severity, slos[|slos| - 1].weight))
  }

  function Put(items: seq<Named<Definition>>, name: string, d: Definition): seq<Named<Definition>>
  {
    if items == [] then [Named(name, d)]
    else if items[0].name == name then [Named(name, d)] + items[1..]
    else [items[0]] + Put(items[1..], name, d)
  }

  function Keys(items: seq<Named<Definition>>): set<string> { set i | i in items :: i.name }

  ghost predicate DistinctNames(items: seq<Named<Definition>>)
  {
    forall i, j :: 0 <= i < j < |items| ==> items[i].name != items[j].name
  }

  lemma KeysOfCons(item: Named<Definition>, rest: seq<Named<Definition>>)
    ensures Keys([item] + rest) == {item.name} + Keys(rest)
    ensures DistinctNames([item] + rest) <==> item.name !in Keys(rest) && DistinctNames(rest)
  {
    var all := [item] + rest;
    assert all[0] == item && forall i :: 0 <= i < |rest| ==> all[i + 1] == rest[i];
    forall n ensures n in Keys(all) <==> n in {item.name} + Keys(rest) {
      assert forall i :: i in all <==> i == item || i in rest;
    }
    hide DistinctNames;
    if DistinctNames(all) {
      ConsWasDistinct(item, rest);
    }
    if item.name !in Keys(rest) && DistinctNames(rest) {
      ConsIsDistinct(item, rest);
    }
  }

  lemma ConsWasDistinct(item: Named<Definition>, rest: seq<Named<Definition>>)
    requires DistinctNames([item] + rest)
    ensures item.name !in Keys(rest) && DistinctNames(rest)
  {
    var all := [item] + rest;
    forall i, j | 0 <= i < j < |rest| ensures rest[i].name != rest[j].name {
      assert all[i + 1].name != all[j + 1].name;
    }
    forall x | x in rest ensures x.name != item.name {
      var i :| 0 <= i < |rest| && rest[i] == x;
      assert all[0].name != all[i + 1].name;
    }
  }

  lemma ConsIsDistinct(item: Named<Definition>, rest: seq<Named<Definition>>)
    requires item.name !in Keys(rest) && DistinctNames(rest)
    ensures DistinctNames([item] + rest)
  {
    var all := [item] + rest;
    forall i, j | 0 <= i < j < |all| ensures all[i].name != all[j].name {
      assert all[j] == rest[j - 1] && rest[j - 1] in rest;
      assert i > 0 ==> all[i] == rest[i - 1];
    }
  }

  lemma {:induction false} PutKeeps(items: seq<Named<Definition>>, name: string, d: Definition)
    requires DistinctNames(items)
    ensures DistinctNames(Put(items, name, d)) && Keys(Put(items, name, d)) == Keys(items) + {name}
  {
    hide DistinctNames, Keys;
    if items == [] {
      assert [Named(name, d)] == [Named(name, d)] + [];
      KeysOfCons(Named(name, d), []);
      NoKeys();
    } else {
      var rest := items[1..];
      assert items == [items[0]] + rest;
      KeysOfCons(items[0], rest);
      if items[0].name == name {
        KeysOfCons(Named(name, d), rest);
      } else {
        PutKeeps(rest, name, d);
        KeysOfCons(items[0], Put(rest, name, d));
      }
    }
  }

  lemma NoKeys()
    ensures Keys([]) == {} && DistinctNames([])
  {
  }

  lemma {:induction false} DefinitionsAreNames(slos: seq<Slo>)
    ensures DistinctNames(AsDefinitions(slos)) && Keys(AsDefinitions(slos)) == Names(slos)
  {
    if slos != [] {
      var init, last := slos[..|slos| - 1], slos[|slos| - 1];
      DefinitionsAreNames(init);
      assert slos == init + [last];
      assert Names(slos) == Names(init) + {last.name};
      PutKeeps(AsDefinitions(init), last.name, Definition(last.severity, last.weight));
    }
  }

  lemma {:induction false} DistinctCount(items: seq<Named<Definition>>)
    requires DistinctNames(items)
    ensures |Keys(items)| == |items|
  {
    if items != [] {
      assert items == [items[0]] + items[1..];
      KeysOfCons(items[0], items[1..]);
      DistinctCount(items[1..]);
    }
  }

  /** Definitions that all have results are scored one by one. */
  lemma {:induction false} AllEvaluated(items: seq<Named<Definition>>, results: map<string, bool>)
    requires forall i :: 0 <= i < |items| ==> items[i].name in results
    ensures |Evaluated(items, results)| == |items|
    ensures forall i :: 0 <= i < |items| ==>
              Evaluated(items, results)[i] == SloResult(items[i].name, Weight(items[i].value), results[items[i].name])
  {
    if items != [] {
      AllEvaluated(items[..|items| - 1], results);
    }
  }

  /** What a query gives. */
  datatype Query = Raises | Answer(result: seq<Series>)

  /** Whether a query passes its SLO: one that raises fails it, one without data passes it. */
  predicate Passes(q: Query)
  {
    q.Answer? && (Verdict(q.result).None? || Verdict(q.result).value)
  }

  /** The results of the queries of a list of SLOs; a repeated name keeps the last one. */
  function Results(slos: seq<Slo>, queries: nat -> Query): (results: map<string, bool>)
    ensures results.Keys == Names(slos)
  {
    if slos == [] then map[]
    else
      var n := |slos| - 1;
      assert slos == slos[..n] + [slos[n]];
      assert Names(slos) == Names(slos[..n]) + {slos[n].name};
      Results(slos[..n], queries)[slos[n].name := Passes(queries(n))]
  }

  /** The SLO objects of a scenario. */
  function Objects(slos: seq<Slo>, queries: nat -> Query, checks: seq<Named<bool>>): seq<SloResult>
  {
    Evaluated(AsDefinitions(slos), Results(slos, queries)) + HealthChecks(checks)
  }

  /** A stored scenario report. */
  datatype Report = Report(name: string, score: int, weight: real, breakdown: Breakdown)

  datatype Summary = Summary(scenarios: map<string, int>, score: int, passed: nat, total: nat)

  function TotalWeight(reports: seq<Report>): real
  {
    if reports == [] then 0.0 else TotalWeight(reports[..|reports| - 1]) + reports[|reports| - 1].weight
  }

  function WeightedScores(reports: seq<Report>): real
  {
    if reports == [] then 0.0
    else WeightedScores(reports[..|reports| - 1]) + reports[|reports| - 1].score as real * reports[|reports| - 1].weight
  }

  function ScoresByName(reports: seq<Report>): map<string, int>
  {
    if reports == [] then map[]
    else ScoresByName(reports[..|reports| - 1])[reports[|reports| - 1].name := reports[|reports| - 1].score]
  }

  class Resiliency {
    const slos: seq<Slo>
    var reports: seq<Report>
    var summary: Option<Summary>

    /** `_normalise_alerts`: entries without expression or severity are skipped. */
    constructor (alerts: seq<Alert>, fallback: nat -> string)
      ensures slos == Normalised(alerts, |alerts|, fallback) && reports == [] && summary == None
    {
      var list: seq<Slo> := [];
      for i := 0 to |alerts|
        invariant list == Normalised(alerts, i, fallback)
      {
        if alerts[i].Invalid? {
          continue;
        }
        var name := if alerts[i].description != "" then alerts[i].description else fallback(i);
        list := list + [Slo(name, Lower(alerts[i].severity), alerts[i].weight)];
      }
      slos, reports, summary := list, [], None;
    }

    /** `evaluate_slos`; `queries` says what the query of each SLO gives. */
    method EvaluateSlos(queries: nat -> Query) returns (results: map<string, bool>)
      ensures results == Results(slos, queries)
    {
      results := map[];
      for i := 0 to |slos|
        invariant results == Results(slos[..i], queries)
      {
        assert slos[..i + 1][..i] == slos[..i];
        match queries(i)
        case Raises =>
          results := results[slos[i].name := false];
        case Answer(result) =>
          var passed := SloPassed(result);
          results := results[slos[i].name := passed.None? || passed.value];
      }
      assert slos[..|slos|] == slos;
    }

    /** `add_scenario_report`. */
    method AddScenarioReport(name: string, weight: real, checks: seq<Named<bool>>, queries: nat -> Query)
        returns (score: int)
      modifies this
      ensures summary == old(summary)
      ensures score == ScoreOf(Objects(slos, queries, checks))
      ensures var o := Objects(slos, queries, checks);
              reports == old(reports)
                         + [Report(name, score, weight, Breakdown(Total(o), Lost(o), Passing(o), |o| - Passing(o)))]
      ensures |Objects(slos, queries, checks)| == |Names(slos)| + |checks|
    {
      hide Evaluated, HealthChecks, AsDefinitions, Results, Names, Total, Lost, Passing, ScoreOf;
      var results := EvaluateSlos(queries);
      var breakdown;
      score, breakdown := CalculateScore(AsDefinitions(slos), results, checks);
      EveryNameCounts(slos, results);
      HealthChecksAre(checks);
      reports := reports + [Report(name, score, weight, breakdown)];
    }

    /** `finalize_report`; not `ok`: no reports (RuntimeError) or a zero total weight
        (ZeroDivisionError). */
    method FinalizeReport(queries: nat -> Query) returns (ok: bool)
      modifies this
      ensures reports == old(reports)
      ensures ok <==> reports != [] && TotalWeight(reports) != 0.0
      ensures !ok ==> summary == old(summary)
      ensures ok ==> summary == Some(Summary(
                ScoresByName(reports),
                Truncate(WeightedScores(reports) / TotalWeight(reports)),
                Passing(Evaluated(AsDefinitions(slos), Results(slos, queries))),
                |Names(slos)|))
    {
      if reports == [] || TotalWeight(reports) == 0.0 {
        return false;
      }
      var average := Truncate(WeightedScores(reports) / TotalWeight(reports));
      var results := EvaluateSlos(queries);
      var score, breakdown := CalculateScore(AsDefinitions(slos), results, []);
      EveryNameCounts(slos, results);
      assert Evaluated(AsDefinitions(slos), results) + HealthChecks([]) == Evaluated(AsDefinitions(slos), results);
      summary := Some(Summary(ScoresByName(reports), average, breakdown.passed, breakdown.passed + breakdown.failed));
      ok := true;
    }
  }

  /** Every distinct name is scored once, however often the alert file repeats it. */
  lemma EveryNameCounts(slos: seq<Slo>, results: map<string, bool>)
    requires results.Keys == Names(slos)
    ensures |Evaluated(AsDefinitions(slos), results)| == |Names(slos)|
  {
    DefinitionsAreNames(slos);
    DistinctCount(AsDefinitions(slos));
    var items := AsDefinitions(slos);
    assert forall i :: 0 <= i < |items| ==> items[i].name in Keys(items);
    AllEvaluated(items, results);
  }

  // ---- The score of a scenario, from the alert file and the queries

  ghost predicate FairDefinition(d: Definition) { d.weight.Some? ==> d.weight.value >= 0.0 }

  /** No alert has a negative weight. */
  ghost predicate Fair(slos: seq<Slo>)
  {
    forall i :: 0 <= i < |slos| ==> FairDefinition(Definition(slos[i].severity, slos[i].weight))
  }

  ghost predicate AllFair(items: seq<Named<Definition>>)
  {
    forall i :: 0 <= i < |items| ==> FairDefinition(items[i].value)
  }

  lemma {:induction false} PutFair(items: seq<Named<Definition>>, name: string, d: Definition)
    requires AllFair(items) && FairDefinition(d)
    ensures AllFair(Put(items, name, d))
  {
    hide FairDefinition;
    if items != [] && items[0].name != name {
      PutFair(items[1..], name, d);
    }
  }

  lemma {:induction false} DefinitionsFair(slos: seq<Slo>)
    requires Fair(slos)
    ensures AllFair(AsDefinitions(slos))
  {
    if slos != [] {
      var init, last := slos[..|slos| - 1], slos[|slos| - 1];
      DefinitionsFair(init);
      PutFair(AsDefinitions(init), last.name, Definition(last.severity, last.weight));
    }
  }

  lemma {:induction false} EvaluatedNonNegative(items: seq<Named<Definition>>, results: map<string, bool>)
    requires AllFair(items)
    ensures NonNegative(Evaluated(items, results))
  {
    if items != [] { EvaluatedNonNegative(items[..|items| - 1], results); }
  }

  lemma {:induction false} HealthChecksNonNegative(checks: seq<Named<bool>>)
    ensures NonNegative(HealthChecks(checks))
  {
    if checks != [] { HealthChecksNonNegative(checks[..|checks| - 1]); }
  }

  lemma ObjectsNonNegative(slos: seq<Slo>, queries: nat -> Query, checks: seq<Named<bool>>)
    requires Fair(slos)
    ensures NonNegative(Objects(slos, queries, checks))
  {
    DefinitionsFair(slos);
    EvaluatedNonNegative(AsDefinitions(slos), Results(slos, queries));
    HealthChecksNonNegative(checks);
    hide Evaluated, HealthChecks;
  }

  /** The weights a scenario with `m` health checks is scored by; they are known before any query. */
  function ScenarioWeights(slos: seq<Slo>, m: nat): (w: seq<real>)
    ensures |w| == |AsDefinitions(slos)| + m
  {
    var items := AsDefinitions(slos);
    seq(|items| + m, i requires 0 <= i < |items| + m =>
          if i < |items| then Weight(items[i].value) else SeverityWeight("critical"))
  }

  lemma {:induction false} HealthChecksAre(checks: seq<Named<bool>>)
    ensures |HealthChecks(checks)| == |checks|
    ensures forall i :: 0 <= i < |checks| ==>
              HealthChecks(checks)[i] == SloResult(checks[i].name, SeverityWeight("critical"), checks[i].value)
  {
    if checks != [] { HealthChecksAre(checks[..|checks| - 1]); }
  }

  /** Every definition has a result. */
  lemma DefinedHaveResults(slos: seq<Slo>, queries: nat -> Query)
    ensures forall i :: 0 <= i < |AsDefinitions(slos)| ==> AsDefinitions(slos)[i].name in Results(slos, queries)
  {
    hide AsDefinitions, Results, DistinctNames;
    var items := AsDefinitions(slos);
    DefinitionsAreNames(slos);
    assert forall i :: 0 <= i < |items| ==> items[i].name in Keys(items);
  }

  lemma ObjectAt(slos: seq<Slo>, queries: nat -> Query, checks: seq<Named<bool>>, i: nat)
    requires i < |AsDefinitions(slos)| + |checks|
    ensures var items, o := AsDefinitions(slos), Objects(slos, queries, checks);
            && |o| == |items| + |checks|
            && if i < |items| then
                 && items[i].name in Results(slos, queries)
                 && o[i] == SloResult(items[i].name, Weight(items[i].value), Results(slos, queries)[items[i].name])
               else
                 o[i] == SloResult(checks[i - |items|].name, SeverityWeight("critical"), checks[i - |items|].value)
  {
    hide Weight, SeverityWeight, Evaluated, HealthChecks, AsDefinitions, Results;
    DefinedHaveResults(slos, queries);
    AllEvaluated(AsDefinitions(slos), Results(slos, queries));
    HealthChecksAre(checks);
  }

  lemma ObjectCount(slos: seq<Slo>, queries: nat -> Query, checks: seq<Named<bool>>)
    ensures |Objects(slos, queries, checks)| == |AsDefinitions(slos)| + |checks|
  {
    hide Evaluated, HealthChecks, AsDefinitions, Results;
    DefinedHaveResults(slos, queries);
    AllEvaluated(AsDefinitions(slos), Results(slos, queries));
    HealthChecksAre(checks);
  }

  lemma WeightsAreKnown(slos: seq<Slo>, queries: nat -> Query, checks: seq<Named<bool>>)
    ensures Weights(Objects(slos, queries, checks)) == ScenarioWeights(slos, |checks|)
  {
    hide Weight, SeverityWeight, Weights, AsDefinitions, Results, Objects;
    ObjectCount(slos, queries, checks);
    var w, o := ScenarioWeights(slos, |checks|), Objects(slos, queries, checks);
    forall i | 0 <= i < |w| ensures Weights(o)[i] == w[i] {
      ObjectAt(slos, queries, checks, i);
    }
  }

  // ---- What each SLO and health check contributes

  lemma {:induction false} PutPlaces(items: seq<Named<Definition>>, name: string, d: Definition) returns (k: nat)
    ensures k < |Put(items, name, d)| && Put(items, name, d)[k] == Named(name, d)
  {
    if items == [] || items[0].name == name {
      k := 0;
    } else {
      k := PutPlaces(items[1..], name, d);
      k := k + 1;
    }
  }

  lemma {:induction false} PutElsewhere(items: seq<Named<Definition>>, name: string, d: Definition, k: nat)
    requires k < |items| && items[k].name != name
    ensures k < |Put(items, name, d)| && Put(items, name, d)[k] == items[k]
  {
    if k > 0 && items[0].name != name {
      PutElsewhere(items[1..], name, d, k - 1);
    }
  }

  lemma {:induction false} LastDefinition(slos: seq<Slo>, i: nat) returns (k: nat)
    requires i < |slos| && forall j :: i < j < |slos| ==> slos[j].name != slos[i].name
    ensures k < |AsDefinitions(slos)|
    ensures AsDefinitions(slos)[k] == Named(slos[i].name, Definition(slos[i].severity, slos[i].weight))
  {
    hide Put;
    var n := |slos| - 1;
    var d := Definition(slos[n].severity, slos[n].weight);
    if i == n {
      k := PutPlaces(AsDefinitions(slos[..n]), slos[n].name, d);
    } else {
      k := LastDefinition(slos[..n], i);
      PutElsewhere(AsDefinitions(slos[..n]), slos[n].name, d, k);
    }
  }

  lemma {:induction false} LastResult(slos: seq<Slo>, queries: nat -> Query, i: nat)
    requires i < |slos| && forall j :: i < j < |slos| ==> slos[j].name != slos[i].name
    ensures slos[i].name in Results(slos, queries) && Results(slos, queries)[slos[i].name] == Passes(queries(i))
  {
    hide Passes;
    if i < |slos| - 1 {
      LastResult(slos[..|slos| - 1], queries, i);
    }
  }

  /** Each name counts once, with the last SLO of that name: its own weight if it has one, else 3 points
      if it is critical and 1 if not; it passes unless its query raised or its verdict is negative. */
  lemma ObjectOfSlo(slos: seq<Slo>, queries: nat -> Query, checks: seq<Named<bool>>, i: nat) returns (k: nat)
    requires i < |slos| && forall j :: i < j < |slos| ==> slos[j].name != slos[i].name
    ensures k < |Names(slos)| && |Objects(slos, queries, checks)| == |Names(slos)| + |checks|
    ensures Objects(slos, queries, checks)[k].name == slos[i].name
    ensures Objects(slos, queries, checks)[k].weight ==
            if slos[i].weight.Some? then slos[i].weight.value else if slos[i].severity == "critical" then 3.0 else 1.0
    ensures Objects(slos, queries, checks)[k].passed <==>
            !queries(i).Raises? && Verdict(queries(i).result) != Some(false)
  {
    hide Evaluated, HealthChecks, AsDefinitions, Results, Objects, Names, DistinctNames, Verdict;
    DefinitionsAreNames(slos);
    DistinctCount(AsDefinitions(slos));
    ObjectCount(slos, queries, checks);
    k := LastDefinition(slos, i);
    LastResult(slos, queries, i);
    ObjectAt(slos, queries, checks, k);
  }

  /** The health checks follow, as critical SLOs. */
  lemma ObjectOfCheck(slos: seq<Slo>, queries: nat -> Query, checks: seq<Named<bool>>, i: nat)
    requires i < |checks|
    ensures |Objects(slos, queries, checks)| == |Names(slos)| + |checks|
    ensures Objects(slos, queries, checks)[|Names(slos)| + i] == SloResult(checks[i].name, 3.0, checks[i].value)
  {
    hide Evaluated, HealthChecks, AsDefinitions, Results, Objects, Names, DistinctNames;
    DefinitionsAreNames(slos);
    DistinctCount(AsDefinitions(slos));
    ObjectCount(slos, queries, checks);
    ObjectAt(slos, queries, checks, |Names(slos)| + i);
  }

  /** If the weights balance, a scenario scores between 0 and 100 whatever the queries give. */
  lemma ScenarioScoreRange(slos: seq<Slo>, queries: nat -> Query, checks: seq<Named<bool>>)
    requires Balanced(ScenarioWeights(slos, |checks|))
    ensures 0 <= ScoreOf(Objects(slos, queries, checks)) <= 100
  {
    hide Balanced, Objects, ScoreOf, Weights, ScenarioWeights;
    WeightsAreKnown(slos, queries, checks);
    InRangeIffBalanced(ScenarioWeights(slos, |checks|));
  }

  function WeightNamed(items: seq<Named<Definition>>, name: string): real
  {
    if items == [] then 0.0
    else if items[0].name == name then Weight(items[0].value)
    else WeightNamed(items[1..], name)
  }

  lemma {:induction false} WeightNamedIs(items: seq<Named<Definition>>, i: nat)
    requires DistinctNames(items) && i < |items|
    ensures WeightNamed(items, items[i].name) == Weight(items[i].value)
  {
    if i > 0 {
      assert items[0].name != items[i].name;
      assert forall j :: 0 <= j < |items| - 1 ==> items[1..][j] == items[j + 1];
      WeightNamedIs(items[1..], i - 1);
    }
  }

  lemma {:induction false} ResultsAre(slos: seq<Slo>, queries: nat -> Query, wanted: string -> bool)
    requires forall n: nat :: n < |slos| ==> Passes(queries(n)) == wanted(slos[n].name)
    ensures forall s :: s in Results(slos, queries) ==> Results(slos, queries)[s] == wanted(s)
  {
    hide Passes;
    if slos != [] {
      ResultsAre(slos[..|slos| - 1], queries, wanted);
    }
  }

  /** Queries that let exactly the SLOs of the wanted names pass. */
  function Asking(slos: seq<Slo>, wanted: string -> bool): nat -> Query
  {
    (n: nat) => if n < |slos| && wanted(slos[n].name) then Answer([]) else Raises
  }

  lemma AskingGives(slos: seq<Slo>, wanted: string -> bool)
    ensures forall s :: s in Names(slos) ==> Results(slos, Asking(slos, wanted))[s] == wanted(s)
  {
    ResultsAre(slos, Asking(slos, wanted), wanted);
  }

  /** The names whose passing takes the score to the end of its range that is in question. */
  function Extremal(items: seq<Named<Definition>>, most: bool): string -> bool
  {
    (name: string) => if most then WeightNamed(items, name) > 0.0 else WeightNamed(items, name) < 0.0
  }

  /** If they do not, some answers to the queries and some health checks give a score outside. So
      balance is the exact condition, and can be checked on the alert file alone. */
  lemma UnbalancedLeavesRange(slos: seq<Slo>, m: nat) returns (queries: nat -> Query, checks: seq<Named<bool>>)
    requires !Balanced(ScenarioWeights(slos, m))
    ensures |checks| == m && !(0 <= ScoreOf(Objects(slos, queries, checks)) <= 100)
  {
    hide Balanced, ScoreOf, Objects, Results, Asking, AsDefinitions, ScenarioWeights, Weights, Sum, WeightNamed;
    var items := AsDefinitions(slos);
    var most := Sum(ScenarioWeights(slos, m)) < 0.0;
    queries := Asking(slos, Extremal(items, most));
    checks := seq(m, i => Named("", most));
    AskingGives(slos, Extremal(items, most));
    ObjectCount(slos, queries, checks);
    WeightsAreKnown(slos, queries, checks);
    DefinitionsAreNames(slos);
    var o := Objects(slos, queries, checks);
    forall i | 0 <= i < |o| ensures o[i].passed == if most then o[i].weight > 0.0 else o[i].weight < 0.0 {
      ObjectAt(slos, queries, checks, i);
      if i < |items| {
        WeightNamedIs(items, i);
        assert items[i].name in Names(slos);
        assert o[i].passed == Extremal(items, most)(items[i].name);
      } else {
        assert checks[i - |items|] == Named("", most);
      }
    }
    ExtremeScore(o, most);
  }

  lemma {:induction false} ResultsMonotone(slos: seq<Slo>, q: nat -> Query, q': nat -> Query)
    requires forall n: nat :: Passes(q(n)) ==> Passes(q'(n))
    ensures forall n :: n in Results(slos, q) && Results(slos, q)[n] ==> Results(slos, q')[n]
  {
    hide Passes;
    if slos != [] {
      ResultsMonotone(slos[..|slos| - 1], q, q');
    }
  }

  /** If every query that passed still passes, the score of the scenario does not fall. */
  lemma ScenarioScoreMonotone(slos: seq<Slo>, q: nat -> Query, q': nat -> Query, checks: seq<Named<bool>>)
    requires Fair(slos) && forall n: nat :: Passes(q(n)) ==> Passes(q'(n))
    ensures ScoreOf(Objects(slos, q, checks)) <= ScoreOf(Objects(slos, q', checks))
  {
    hide Evaluated, HealthChecks, Passes, ScoreOf, AsDefinitions;
    ResultsMonotone(slos, q, q');
    BetterResults(AsDefinitions(slos), Results(slos, q), Results(slos, q'));
    ObjectsNonNegative(slos, q, checks);
    ScoreMonotone(Objects(slos, q, checks), Objects(slos, q', checks));
  }

  // ---- The final score

  /** The sums behind the final score are those over the reports; the summary keeps the last score of
      each scenario name. */
  lemma {:induction false} ReportSums(a: seq<Report>, b: seq<Report>)
    ensures TotalWeight(a + b) == TotalWeight(a) + TotalWeight(b)
    ensures WeightedScores(a + b) == WeightedScores(a) + WeightedScores(b)
    ensures ScoresByName(a + b) == ScoresByName(a) + ScoresByName(b)
  {
    if b == [] {
      assert a + b == a;
    } else {
      ReportSums(a, b[..|b| - 1]);
      assert (a + b)[..|a + b| - 1] == a + b[..|b| - 1];
    }
  }

  lemma SumsOfOneReport(r: Report)
    ensures TotalWeight([r]) == r.weight && WeightedScores([r]) == r.score as real * r.weight
    ensures ScoresByName([r]) == map[r.name := r.score]
    ensures TotalWeight([]) == 0.0 == WeightedScores([]) && ScoresByName([]) == map[]
  {
    assert [r][..0] == [];
  }

  ghost predicate ScoresBetween(reports: seq<Report>, lo: real, hi: real)
  {
    forall i :: 0 <= i < |reports| ==>
      reports[i].weight >= 0.0 && (reports[i].weight > 0.0 ==> lo <= reports[i].score as real <= hi)
  }

  lemma {:induction false} WeightedBounds(reports: seq<Report>, lo: real, hi: real)
    requires ScoresBetween(reports, lo, hi)
    ensures lo * TotalWeight(reports) <= WeightedScores(reports) <= hi * TotalWeight(reports)
  {
    if reports != [] {
      var init, last := reports[..|reports| - 1], reports[|reports| - 1];
      WeightedBounds(init, lo, hi);
      WeightedStep(lo, last.score as real, hi, TotalWeight(init), last.weight, WeightedScores(init));
    }
  }

  lemma WeightedStep(lo: real, s: real, hi: real, w: real, x: real, sum: real)
    requires x >= 0.0 && (x > 0.0 ==> lo <= s <= hi)
    requires lo * w <= sum <= hi * w
    ensures lo * (w + x) <= sum + s * x <= hi * (w + x)
  {
    if x == 0.0 {
      assert lo * x == 0.0 && s * x == 0.0 && hi * x == 0.0;
    } else {
      ScaleUp(lo, s, x);
      ScaleUp(s, hi, x);
    }
    assert lo * (w + x) == lo * w + lo * x;
    assert hi * (w + x) == hi * w + hi * x;
  }

  /** The final score lies between any whole bounds on the scores of the scenarios that carry weight,
      in particular between the least and the greatest of them. */
  lemma FinalScoreWithinBounds(reports: seq<Report>, lo: int, hi: int)
    requires ScoresBetween(reports, lo as real, hi as real)
    requires TotalWeight(reports) > 0.0
    ensures lo <= Truncate(WeightedScores(reports) / TotalWeight(reports)) <= hi
  {
    hide TotalWeight, WeightedScores, Truncate;
    WeightedBounds(reports, lo as real, hi as real);
    QuotientBetween(lo as real, WeightedScores(reports), hi as real, TotalWeight(reports));
    BetweenTruncated(lo, WeightedScores(reports) / TotalWeight(reports), hi);
  }

  lemma BetweenTruncated(lo: int, q: real, hi: int)
    requires lo as real <= q <= hi as real
    ensures lo <= Truncate(q) <= hi
  {
  }
}
