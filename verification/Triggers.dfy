// Polling triggers until they are satisfied or the time is up.

module Triggers {
  import opened Options

  datatype Mode = AllOf | AnyOf

  /** How waiting ends; an exception out of a trigger leaves the wait, be it a `ValueError` or not. */
  datatype Outcome = Met | TimedOut | EvaluationRaised(valueError: bool)

  /** What evaluating a trigger gives. */
  datatype Evaluation = Raises(valueError: bool) | Answers(met: bool)

  predicate Satisfied(mode: Mode, results: seq<bool>)
  {
    match mode
    case AllOf => forall i :: 0 <= i < |results| ==> results[i]
    case AnyOf => exists i :: 0 <= i < |results| && results[i]
  }

  function AsStates(results: seq<bool>): (r: seq<Option<bool>>)
    ensures |r| == |results| && forall i :: 0 <= i < |r| ==> r[i] == Some(results[i])
  {
    seq(|results|, i requires 0 <= i < |results| => Some(results[i]))
  }

  lemma StatesAre(states: seq<Option<bool>>, results: seq<bool>, before: seq<Option<bool>>)
    requires |states| == |before| >= |results|
    requires forall k :: 0 <= k < |results| ==> states[k] == Some(results[k])
    requires forall k :: |results| <= k < |states| ==> states[k] == before[k]
    ensures states == AsStates(results) + before[|results|..]
  {
  }

  // ---- Configuration

  datatype Kind = Command | Http | Prometheus | K8s

  /** A condition: its type, if any, and whether the class of that type accepts the other fields. */
  datatype Condition = Condition(kind: string, accepted: bool)

  datatype Conditions = Missing | NotAList | Listed(list: seq<Condition>)

  /** A numeric option, given or not. */
  datatype Setting = Absent | Number(value: real) | NotANumber

  datatype Config = Config(conditions: Conditions, mode: Option<string>, onTimeout: Option<string>,
                           timeout: Setting, interval: Setting)

  /** The `ValueError` of an unusable configuration, by what it complains about. */
  datatype Fault =
    NoConditions | ConditionsNotAList | BadMode | BadOnTimeout | NotNumeric | BadTimeout | BadInterval
      | BadCondition(index: nat)

  const DEFAULT_TIMEOUT := 300.0
  const DEFAULT_INTERVAL := 5.0

  function ParseMode(mode: string): Option<Mode>
  {
    if mode == "all_of" then Some(AllOf) else if mode == "any_of" then Some(AnyOf) else None
  }

  function ParseKind(kind: string): Option<Kind>
  {
    if kind == "command" then Some(Command)
    else if kind == "http" then Some(Http)
    else if kind == "prometheus" then Some(Prometheus)
    else if kind == "k8s" then Some(K8s)
    else None
  }

  function ModeOf(c: Config): Option<Mode> { ParseMode(if c.mode.Some? then c.mode.value else "all_of") }

  function OnTimeoutOf(c: Config): string { if c.onTimeout.Some? then c.onTimeout.value else "skip" }

  function ValueOf(s: Setting, default: real): real
  {
    if s.Number? then s.value else default
  }

  predicate Buildable(c: Condition) { ParseKind(c.kind).Some? && c.accepted }

  /** What a manager needs: conditions of known types that their classes accept, and settings in range. */
  predicate Usable(c: Config)
  {
    && c.conditions.Listed? && c.conditions.list != []
    && SettingsUsable(c)
    && forall i :: 0 <= i < |c.conditions.list| ==> Buildable(c.conditions.list[i])
  }

  predicate SettingsUsable(c: Config)
  {
    && ModeOf(c).Some?
    && OnTimeoutOf(c) in {"skip", "fail", "run_anyway"}
    && !c.timeout.NotANumber? && ValueOf(c.timeout, DEFAULT_TIMEOUT) > 0.0
    && !c.interval.NotANumber? && ValueOf(c.interval, DEFAULT_INTERVAL) > 0.0
  }

  /** The complaint is justified, and nothing that is checked before it is wrong. */
  ghost predicate Justified(c: Config, f: Fault)
  {
    match f
    case NoConditions => c.conditions.Missing? || (c.conditions.Listed? && c.conditions.list == [])
    case ConditionsNotAList => c.conditions.NotAList?
    case BadMode => c.conditions.Listed? && ModeOf(c).None?
    case BadOnTimeout => ModeOf(c).Some? && OnTimeoutOf(c) !in {"skip", "fail", "run_anyway"}
    case NotNumeric => c.timeout.NotANumber? || c.interval.NotANumber?
    case BadTimeout => !c.timeout.NotANumber? && !c.interval.NotANumber? && ValueOf(c.timeout, DEFAULT_TIMEOUT) <= 0.0
    case BadInterval => ValueOf(c.timeout, DEFAULT_TIMEOUT) > 0.0 && ValueOf(c.interval, DEFAULT_INTERVAL) <= 0.0
    case BadCondition(i) =>
      && SettingsUsable(c) && c.conditions.Listed? && i < |c.conditions.list|
      && !Buildable(c.conditions.list[i])
      && forall j :: 0 <= j < i ==> Buildable(c.conditions.list[j])
  }

  class TriggerManager {
    const mode: Mode
    const onTimeout: string
    const timeout: real
    const interval: real
    const triggers: seq<Kind>
    const size: nat
    var states: seq<Option<bool>>
    var now: real

    ghost predicate Valid() reads this
    {
      |states| == |triggers| == size > 0 && timeout > 0.0 && interval > 0.0
    }

    constructor (triggers: seq<Kind>, mode: Mode, onTimeout: string, timeout: real, interval: real, now: real)
      requires triggers != [] && timeout > 0.0 && interval > 0.0
      ensures Valid() && this.triggers == triggers && this.mode == mode && this.onTimeout == onTimeout
      ensures this.timeout == timeout && this.interval == interval && this.now == now
      ensures forall i :: 0 <= i < |states| ==> states[i] == None
    {
      this.mode, this.onTimeout, this.timeout, this.interval := mode, onTimeout, timeout, interval;
      this.triggers, this.size, this.now := triggers, |triggers|, now;
      this.states := seq(|triggers|, i => None);
    }

    /** Building a manager, check by check; null comes with the first complaint. A manager that is
        built has one trigger per condition, in order and of its type, none of them evaluated yet. */
    static method Build(c: Config, now: real) returns (m: TriggerManager?, fault: Option<Fault>)
      ensures m != null <==> Usable(c)
      ensures m == null <==> fault.Some?
      ensures fault.Some? ==> Justified(c, fault.value)
      // in particular, with a nonempty list of conditions the mode is looked at first, the conditions last
      ensures c.conditions.Listed? && c.conditions.list != [] ==>
                c.mode.Some? && c.mode.value !in {"all_of", "any_of"} ==> fault == Some(BadMode)
      ensures fault.Some? && fault.value.BadCondition? ==>
                && c.conditions.Listed? && fault.value.index < |c.conditions.list|
                && (c.conditions.list[fault.value.index].kind in {"command", "http", "prometheus", "k8s"} ==>
                      !c.conditions.list[fault.value.index].accepted)
      ensures m != null ==>
                && fresh(m) && m.Valid() && m.now == now
                && Some(m.mode) == ModeOf(c) && m.onTimeout == OnTimeoutOf(c)
                && m.timeout == ValueOf(c.timeout, DEFAULT_TIMEOUT)
                     && m.interval == ValueOf(c.interval, DEFAULT_INTERVAL)
                && |m.triggers| == |c.conditions.list|
                && (forall i :: 0 <= i < |m.triggers| ==> ParseKind(c.conditions.list[i].kind) == Some(m.triggers[i]))
                && (forall i :: 0 <= i < |m.states| ==> m.states[i] == None)
    {
      m := null;
      if c.conditions.Missing? || (c.conditions.Listed? && c.conditions.list == []) {
        return null, Some(NoConditions);
      }
      if !c.conditions.Listed? {
        return null, Some(ConditionsNotAList);
      }
      var mode := ModeOf(c);
      if mode.None? {
        return null, Some(BadMode);
      }
      if OnTimeoutOf(c) !in {"skip", "fail", "run_anyway"} {
        return null, Some(BadOnTimeout);
      }
      if c.timeout.NotANumber? || c.interval.NotANumber? {
        return null, Some(NotNumeric);
      }
      var timeout, interval := ValueOf(c.timeout, DEFAULT_TIMEOUT), ValueOf(c.interval, DEFAULT_INTERVAL);
      if timeout <= 0.0 {
        return null, Some(BadTimeout);
      }
      if interval <= 0.0 {
        return null, Some(BadInterval);
      }
      var triggers: seq<Kind> := [];
      var list := c.conditions.list;
      for i := 0 to |list|
        invariant |triggers| == i
        invariant forall j :: 0 <= j < i ==> Buildable(list[j]) && ParseKind(list[j].kind) == Some(triggers[j])
      {
        var kind := ParseKind(list[i].kind);
        if kind.None? || !list[i].accepted {
          return null, Some(BadCondition(i));
        }
        triggers := triggers + [kind.value];
      }
      m := new TriggerManager(triggers, mode.value, OnTimeoutOf(c), timeout, interval, now);
      fault := None;
    }

    /** One poll over all triggers, each taking any time. `evaluate` says what the trigger at an index
        gives, given its type. */
    method Poll(evaluate: (nat, Kind) -> Evaluation) returns (results: seq<bool>, raised: bool)
      requires Valid()
      modifies this
      ensures Valid() && now >= old(now) && |results| <= size
      ensures forall i :: 0 <= i < |results| ==> evaluate(i, triggers[i]) == Answers(results[i])
      ensures raised <==> |results| < size
      ensures raised ==> evaluate(|results|, triggers[|results|]).Raises?
      ensures states == AsStates(results) + old(states)[|results|..]
    {
      hide AsStates;
      ghost var before := states;
      results, raised := [], false;
      for i := 0 to size
        invariant |states| == size && now >= old(now) && |results| == i && !raised
        invariant forall k :: 0 <= k < i ==> evaluate(k, triggers[k]) == Answers(results[k])
        invariant forall k :: 0 <= k < i ==> states[k] == Some(results[k])
        invariant forall k :: i <= k < size ==> states[k] == before[k]
      {
        var spent: real :| spent >= 0.0;
        now := now + spent;
        var result := evaluate(i, triggers[i]);
        if result.Raises? {
          StatesAre(states, results, before);
          return results, true;
        }
        states := states[i := Some(result.met)];
        results := results + [result.met];
      }
      StatesAre(states, results, before);
    }

    /** `wait_for_triggers`; `evaluate(p)` is what the triggers give in poll p, `polls` are the
        results of the complete polls, in order. */
    method WaitForTriggers(evaluate: nat -> (nat, Kind) -> Evaluation)
        returns (outcome: Outcome, polls: seq<seq<bool>>)
      requires Valid()
      modifies this
      ensures Valid()
      // every poll reports what its triggers gave
      ensures forall i :: 0 <= i < |polls| ==> |polls[i]| == size
      ensures forall p, i :: 0 <= p < |polls| && 0 <= i < |polls[p]| ==>
                evaluate(p)(i, triggers[i]) == Answers(polls[p][i])
      ensures outcome.EvaluationRaised? ==>
                exists i: nat :: i < size && evaluate(|polls|)(i, triggers[i]) == Raises(outcome.valueError)
      // few polls: fewer than timeout / interval + 1
      ensures polls != [] ==> Span(|polls| - 1, interval) < timeout
      // success means that the last poll, and no earlier one, satisfied the mode
      ensures forall i :: 0 <= i < |polls| - 1 ==> !Satisfied(mode, polls[i])
      ensures outcome.Met? ==> polls != [] && Satisfied(mode, polls[|polls| - 1])
      ensures !outcome.Met? && polls != [] ==> !Satisfied(mode, polls[|polls| - 1])
      // failure is never reported before the deadline
      ensures outcome.TimedOut? ==> now >= old(now) + timeout
      // the stored states are those of the last poll
      ensures !outcome.EvaluationRaised? && polls != [] ==> states == AsStates(polls[|polls| - 1])
    {
      hide Span, Satisfied;
      var deadline := now + timeout;
      SpanSteps(0, interval);
      polls := [];
      while now < deadline
        invariant Valid() && now >= old(now)
        invariant forall i :: 0 <= i < |polls| ==> |polls[i]| == size && !Satisfied(mode, polls[i])
        invariant polls != [] ==> Span(|polls| - 1, interval) < timeout
        invariant now < deadline ==> Span(|polls|, interval) <= now - old(now)
        invariant polls != [] ==> states == AsStates(polls[|polls| - 1])
        invariant forall p, i :: 0 <= p < |polls| && 0 <= i < |polls[p]| ==>
                    evaluate(p)(i, triggers[i]) == Answers(polls[p][i])
        decreases PollsLeft(deadline - now, interval)
      {
        var t := now;
        var results, raised := Poll(evaluate(|polls|));
        if raised {
          var exception := evaluate(|polls|)(|results|, triggers[|results|]);
          return EvaluationRaised(exception.valueError), polls;
        }
        assert Span(|polls|, interval) < timeout;
        polls := polls + [results];
        assert Satisfied(mode, results) <==> if mode.AllOf? then forall i :: 0 <= i < |results| ==> results[i]
                                             else exists i :: 0 <= i < |results| && results[i] by {
          SatisfiedMeans(mode, results);
        }
        if mode.AllOf? && (forall i :: 0 <= i < |results| ==> results[i]) {
          return Met, polls;
        } else if mode.AnyOf? && (exists i :: 0 <= i < |results| && results[i]) {
          return Met, polls;
        }
        var remaining := deadline - now;
        if remaining <= 0.0 {
          break;
        }
        var asked := if interval <= remaining then interval else remaining;
        var oversleep: real :| oversleep >= 0.0;
        ghost var rested := now + asked + oversleep;
        FewerLeft(deadline - t, deadline - rested, interval);
        SpanSteps(|polls| - 1, interval);
        now := now + asked + oversleep;
      }
      outcome := TimedOut;
    }
  }

  /** What the main program does next: it starts the scenarios, skips them all, ends with exit code 1,
      or is left by an exception. */
  datatype Gate = Start | SkipAll | ExitWithFailure | Escapes

  /** The triggers before any chaos, from the configuration to what the main program does next, in terms of
      the configuration's own words. `outcome` is None when there is no manager to wait for. */
  method AwaitTriggers(config: Option<Config>, evaluate: nat -> (nat, Kind) -> Evaluation, now: real)
      returns (gate: Gate, outcome: Option<Outcome>, polls: seq<seq<bool>>)
    ensures config.None? ==> gate.Start? && outcome.None? && polls == []
    // a configuration that cannot be used ends the program, any other one is waited for
    ensures config.Some? ==>
              var c := config.value;
              outcome.Some? <==>
                && c.conditions.Listed? && c.conditions.list != []
                && (c.mode.None? || c.mode.value in {"all_of", "any_of"})
                && (c.onTimeout.None? || c.onTimeout.value in {"skip", "fail", "run_anyway"})
                && (c.timeout.Absent? || (c.timeout.Number? && c.timeout.value > 0.0))
                && (c.interval.Absent? || (c.interval.Number? && c.interval.value > 0.0))
                && forall i :: 0 <= i < |c.conditions.list| ==>
                     c.conditions.list[i].kind in {"command", "http", "prometheus", "k8s"}
                       && c.conditions.list[i].accepted
    ensures config.Some? && outcome.None? ==> gate.ExitWithFailure? && polls == []
    ensures outcome.Some? ==>
              && config.Some? && config.value.conditions.Listed?
              && var c, list := config.value, config.value.conditions.list;
              // in every complete poll each condition was evaluated by a trigger of its type
              && (forall p :: 0 <= p < |polls| ==> |polls[p]| == |list|)
              && (forall p, i :: 0 <= p < |polls| && 0 <= i < |polls[p]| ==>
                    && (list[i].kind == "command" ==> evaluate(p)(i, Command) == Answers(polls[p][i]))
                    && (list[i].kind == "http" ==> evaluate(p)(i, Http) == Answers(polls[p][i]))
                    && (list[i].kind == "prometheus" ==> evaluate(p)(i, Prometheus) == Answers(polls[p][i]))
                    && (list[i].kind == "k8s" ==> evaluate(p)(i, K8s) == Answers(polls[p][i])))
              // no poll before the last had the answers that the mode asks for, and the last one had them
              // exactly when the triggers were met
              && (forall p :: 0 <= p < |polls| - 1 ==>
                    if c.mode == Some("any_of") then true !in polls[p] else false in polls[p])
              && (outcome.value.Met? ==>
                    && polls != [] && gate.Start?
                    && if c.mode == Some("any_of") then true in polls[|polls| - 1] else false !in polls[|polls| - 1])
              && (!outcome.value.Met? && polls != [] ==>
                    if c.mode == Some("any_of") then true !in polls[|polls| - 1] else false in polls[|polls| - 1])
              // without them the program does what the configuration says, by default skip
              && (outcome.value.TimedOut? ==>
                    && (c.onTimeout.None? || c.onTimeout.value == "skip" ==> gate.SkipAll?)
                    && (c.onTimeout == Some("fail") ==> gate.ExitWithFailure?)
                    && (c.onTimeout == Some("run_anyway") ==> gate.Start?))
              && (outcome.value.EvaluationRaised? ==>
                    gate == if outcome.value.valueError then ExitWithFailure else Escapes)
              // the polls fit into the time, 300 seconds with 5 between two of them unless it says otherwise
              && (polls != [] ==>
                    Span(|polls| - 1, if c.interval.Number? then c.interval.value else 5.0)
                      < if c.timeout.Number? then c.timeout.value else 300.0)
  {
    hide Span, Satisfied;
    if config.None? {
      return Start, None, [];
    }
    var manager, fault := TriggerManager.Build(config.value, now);
    if manager == null {
      return ExitWithFailure, None, [];
    }
    var met;
    met, polls := manager.WaitForTriggers(evaluate);
    outcome := Some(met);
    forall p | 0 <= p < |polls|
      ensures Satisfied(manager.mode, polls[p]) <==>
              if config.value.mode == Some("any_of") then true in polls[p] else false !in polls[p]
    {
      SatisfiedMeans(manager.mode, polls[p]);
    }
    match met
    case Met => gate := Start;
    case EvaluationRaised(valueError) => gate := if valueError then ExitWithFailure else Escapes;
    case TimedOut =>
      if manager.onTimeout == "skip" {
        gate := SkipAll;
      } else if manager.onTimeout == "fail" {
        gate := ExitWithFailure;
      } else {
        gate := Start;
      }
  }

  /** The least time that `n` polls followed by a full sleep take. */
  function Span(n: nat, interval: real): real { n as real * interval }

  lemma SpanSteps(n: nat, interval: real)
    ensures Span(0, interval) == 0.0
    ensures Span(n + 1, interval) == Span(n, interval) + interval
  {
  }

  lemma SatisfiedMeans(mode: Mode, results: seq<bool>)
    ensures Satisfied(mode, results) <==> if mode.AllOf? then forall i :: 0 <= i < |results| ==> results[i]
                                          else exists i :: 0 <= i < |results| && results[i]
  {
  }

  /** How many polls can still begin when `left` seconds remain. */
  ghost function PollsLeft(left: real, interval: real): int
    requires interval > 0.0
  {
    if left > 0.0 then (left / interval).Floor + 1 else 0
  }

  lemma FewerLeft(before: real, after: real, interval: real)
    requires interval > 0.0 && before > 0.0
    requires after <= before - interval || after <= 0.0
    ensures 0 <= PollsLeft(after, interval) < PollsLeft(before, interval)
  {
    assert before / interval > 0.0;
    if after > 0.0 {
      assert before / interval - after / interval == (before - after) / interval;
      assert (before - after) / interval >= 1.0;
      assert after / interval > 0.0;
    }
  }

  function Ceiling(x: real): int { -(-x).Floor }

  /** The bound on the polls in the usual form. */
  lemma PollBound(n: nat, timeout: real, interval: real)
    requires n > 0 && interval > 0.0 && Span(n - 1, interval) < timeout
    ensures n <= Ceiling(timeout / interval)
  {
    var q := timeout / interval;
    assert q * interval == timeout;
    assert (q - (n - 1) as real) * interval > 0.0;
    assert q > (n - 1) as real;
  }
}
