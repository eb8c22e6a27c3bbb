// Killing containers in randomly picked pods.

module Containers {
  import opened Lists

  datatype Pod = Pod(name: string, namespace: string, containers: seq<string>)

  datatype Kill = Kill(pod: string, namespace: string, container: string)

  /** Killed: the list returned. NotEnough: either `RuntimeError` about too few containers.
      CommandRaised: an exception out of a kill command. */
  datatype Outcome = Killed(kills: seq<Kill>) | NotEnough | CommandRaised

  /** The pod has a container the scenario may kill; an empty target means any container. */
  predicate Matches(p: Pod, target: string)
  {
    if target == "" then p.containers != [] else target in p.containers
  }

  /** The container killed in a matching pod. */
  function Victim(p: Pod, target: string): string
    requires Matches(p, target)
  {
    if target == "" then p.containers[0] else target
  }

  function Matching(pods: seq<Pod>, target: string): nat
  {
    if pods == [] then 0 else (if Matches(pods[0], target) then 1 else 0) + Matching(pods[1..], target)
  }

  lemma {:induction false} MatchingRemove(pods: seq<Pod>, p: Pod, target: string)
    requires p in pods
    ensures Matching(Remove(pods, p), target) == Matching(pods, target) - (if Matches(p, target) then 1 else 0)
  {
    if pods[0] != p {
      MatchingRemove(pods[1..], p, target);
      assert Remove(pods, p)[1..] == Remove(pods[1..], p);
    }
  }

  /** What counts is the entries, one by one, that have a container of the wanted name, or any container
      when none is named. */
  lemma MatchingOne(p: Pod, target: string)
    ensures Matching([p], target) ==
            if (if target == "" then p.containers != [] else target in p.containers) then 1 else 0
    ensures Matching([], target) == 0
  {
    assert [p][1..] == [];
  }

  lemma {:induction false} MatchingAdds(a: seq<Pod>, b: seq<Pod>, target: string)
    ensures Matching(a + b, target) == Matching(a, target) + Matching(b, target)
  {
    if a == [] {
      assert a + b == b;
    } else {
      MatchingAdds(a[1..], b, target);
      assert (a + b)[1..] == a[1..] + b;
    }
  }

  lemma {:induction false} MatchingBound(pods: seq<Pod>, target: string)
    ensures Matching(pods, target) <= |pods|
  {
    if pods != [] {
      MatchingBound(pods[1..], target);
    }
  }

  /** What a kill command gives: an exception, an empty answer (it is done), or some text. */
  datatype Answer = Raises | Blank | Text

  const ATTEMPTS := 5

  /** `retry_container_killing`: an empty answer ends it, anything else is tried again, five times in
      all. `commands` are the kill commands of the scenario so far, `answers` says what the n-th gives. */
  method RetryContainerKilling(kill: Kill, answers: nat -> Answer, commands: seq<Kill>)
      returns (raised: bool, commands': seq<Kill>)
    ensures |commands| < |commands'| <= |commands| + 5 && commands <= commands'
    ensures forall n :: |commands| <= n < |commands'| ==> commands'[n] == kill
    ensures forall n: nat :: |commands| <= n < |commands'| - 1 ==> answers(n).Text?
    ensures raised <==> answers(|commands'| - 1).Raises?
    ensures answers(|commands'| - 1).Text? ==> |commands'| == |commands| + 5
  {
    raised, commands' := false, commands;
    var i := 0;
    while i < ATTEMPTS
      invariant 0 <= i <= ATTEMPTS && |commands'| == |commands| + i && commands <= commands' && !raised
      invariant forall n :: |commands| <= n < |commands'| ==> commands'[n] == kill
      invariant forall n: nat :: |commands| <= n < |commands'| ==> answers(n).Text?
    {
      var answer := answers(|commands'|);
      commands' := commands' + [kill];
      i := i + 1;
      match answer
      case Raises => return true, commands';
      case Blank => return;
      case Text =>
    }
  }

  /** Some command among the first `issued` raised. */
  ghost predicate SomeRaised(answers: nat -> Answer, issued: nat)
  {
    exists n: nat :: n < issued && answers(n).Raises?
  }

  /** The loop over the containers of the selected pod: kills the first that fits. */
  method KillIn(p: Pod, target: string, kills: seq<Kill>, answers: nat -> Answer, commands: seq<Kill>)
      returns (found: bool, kills': seq<Kill>, raised: bool, commands': seq<Kill>)
    requires !SomeRaised(answers, |commands|)
    ensures found <==> if target == "" then p.containers != [] else target in p.containers
    ensures !found ==> kills' == kills && commands' == commands && !raised
    ensures found ==>
              var kill := Kill(p.name, p.namespace, if target == "" then p.containers[0] else target);
              && kills' == kills + [kill]
              && commands < commands' && forall n :: |commands| <= n < |commands'| ==> commands'[n] == kill
    ensures raised <==> SomeRaised(answers, |commands'|)
  {
    found, kills', raised, commands' := false, kills, false, commands;
    for i := 0 to |p.containers|
      invariant !found && !raised && kills' == kills && commands' == commands
      invariant target !in p.containers[..i]
      invariant target == "" ==> i == 0
    {
      var c := p.containers[i];
      if target != "" {
        if c == target {
          kills' := kills' + [Kill(p.name, p.namespace, c)];
          raised, commands' := RetryContainerKilling(Kill(p.name, p.namespace, c), answers, commands);
          found := true;
          break;
        }
      } else {
        kills' := kills' + [Kill(p.name, p.namespace, c)];
        raised, commands' := RetryContainerKilling(Kill(p.name, p.namespace, c), answers, commands);
        found := true;
        break;
      }
      assert p.containers[..i + 1] == p.containers[..i] + [c];
    }
    assert p.containers[..|p.containers|] == p.containers;
  }

  /** Each kill is the fitting container of one pod entry, no entry being used twice. */
  ghost predicate FromDistinctPods(kills: seq<Kill>, victims: seq<Pod>, pods: seq<Pod>, target: string)
  {
    && |kills| == |victims|
    && multiset(victims) <= multiset(pods)
    && forall i :: 0 <= i < |kills| ==>
         Matches(victims[i], target)
           && kills[i] == Kill(victims[i].name, victims[i].namespace, Victim(victims[i], target))
  }

  /** The entries still in the list and those used come from the given ones. */
  ghost predicate Unused(left: seq<Pod>, victims: seq<Pod>, pods: seq<Pod>)
  {
    multiset(left) + multiset(victims) <= multiset(pods)
  }

  /** The commands issued are those for the listed kills, each at least once. */
  ghost predicate Commanded(commands: seq<Kill>, kills: seq<Kill>)
  {
    forall k :: k in commands <==> k in kills
  }

  lemma OneMoreCommanded(commands: seq<Kill>, kills: seq<Kill>, kill: Kill, commands': seq<Kill>)
    requires Commanded(commands, kills) && commands < commands'
    requires forall n :: |commands| <= n < |commands'| ==> commands'[n] == kill
    ensures Commanded(commands', kills + [kill])
  {
    assert commands'[|commands|] == kill;
    forall k ensures k in commands' <==> k in kills + [kill] {
      assert commands' == commands + commands'[|commands|..];
      assert k in commands <==> k in kills;
    }
  }

  lemma CommandsAre(commands: seq<Kill>, kills: seq<Kill>)
    requires Commanded(commands, kills)
    ensures forall k :: k in commands <==> k in kills
  {
  }

  /** `container_killing_in_pod` from the point at which the pods and their containers are known.
      Whatever the random picks, it succeeds exactly when enough pod entries have a fitting
      container, and then kills max(count, 0) containers in as many different entries. */
  method ContainerKillingInPod(pods: seq<Pod>, target: string, count: int, answers: nat -> Answer)
      returns (outcome: Outcome, victims: seq<Pod>, commands: seq<Kill>)
    ensures outcome.CommandRaised? <==> SomeRaised(answers, |commands|)
    ensures !outcome.CommandRaised? ==> (outcome.Killed? <==> Matching(pods, target) >= count)
    ensures outcome.Killed? ==>
              && |outcome.kills| == |victims| == (if count > 0 then count else 0)
              && multiset(victims) <= multiset(pods)
              && forall k :: k in commands <==> k in outcome.kills
    ensures outcome.Killed? ==>
              forall i :: 0 <= i < |victims| ==>
                && outcome.kills[i].pod == victims[i].name && outcome.kills[i].namespace == victims[i].namespace
                && victims[i].containers != []
                && outcome.kills[i].container == (if target == "" then victims[i].containers[0] else target)
                && outcome.kills[i].container in victims[i].containers
  {
    hide Matches, Victim, Matching, SomeRaised, FromDistinctPods, Unused, Remove, Commanded;
    var left := pods;
    var killed := 0;
    var kills: seq<Kill> := [];
    victims, commands := [], [];
    NothingYet(answers, pods, target);
    while killed < count
      invariant killed == |kills|
      invariant killed <= count || killed == 0
      invariant Matching(left, target) + killed == Matching(pods, target)
      invariant Unused(left, victims, pods)
      invariant FromDistinctPods(kills, victims, pods, target)
      invariant !SomeRaised(answers, |commands|)
      invariant Commanded(commands, kills)
      decreases |left|
    {
      MatchingBound(left, target);
      if left == [] {
        return NotEnough, victims, commands;
      }
      var pick: nat :| pick < |left|;
      var selected := left[pick];
      MatchingRemove(left, selected, target);
      MatchesMeans(selected, target);
      ghost var before, earlier := kills, commands;
      var found, raised;
      found, kills, raised, commands := KillIn(selected, target, kills, answers, commands);
      if raised {
        return CommandRaised, victims, commands;
      }
      if found {
        OneMoreVictim(before, victims, left, pods, target, selected);
        OneMoreCommanded(earlier, before, kills[|before|], commands);
        killed := killed + 1;
        victims := victims + [selected];
      } else {
        Dropped(victims, left, pods, selected);
      }
      left := Remove(left, selected);
      if !found && killed == 0 && left == [] {
        MatchingBound(left, target);
        return NotEnough, victims, commands;
      }
    }
    outcome := Killed(kills);
    KillsFit(kills, victims, pods, target);
    CommandsAre(commands, kills);
  }

  lemma MatchesMeans(p: Pod, target: string)
    ensures Matches(p, target) <==> if target == "" then p.containers != [] else target in p.containers
    ensures Matches(p, target) ==> Victim(p, target) == if target == "" then p.containers[0] else target
  {
  }

  lemma KillsFit(kills: seq<Kill>, victims: seq<Pod>, pods: seq<Pod>, target: string)
    requires FromDistinctPods(kills, victims, pods, target)
    ensures |kills| == |victims| && multiset(victims) <= multiset(pods)
    ensures forall i :: 0 <= i < |victims| ==>
              && kills[i].pod == victims[i].name && kills[i].namespace == victims[i].namespace
              && victims[i].containers != []
              && kills[i].container == (if target == "" then victims[i].containers[0] else target)
              && kills[i].container in victims[i].containers
  {
  }

  lemma Dropped(victims: seq<Pod>, left: seq<Pod>, pods: seq<Pod>, p: Pod)
    requires Unused(left, victims, pods) && p in left
    ensures Unused(Remove(left, p), victims, pods)
  {
    RemoveTakesOne(left, p);
  }

  lemma NothingYet(answers: nat -> Answer, pods: seq<Pod>, target: string)
    ensures !SomeRaised(answers, 0) && FromDistinctPods([], [], pods, target) && Unused(pods, [], pods)
    ensures Commanded([], [])
  {
  }

  lemma OneMoreVictim(kills: seq<Kill>, victims: seq<Pod>, left: seq<Pod>, pods: seq<Pod>, target: string, p: Pod)
    requires FromDistinctPods(kills, victims, pods, target) && Matches(p, target) && p in left
    requires Unused(left, victims, pods)
    ensures FromDistinctPods(kills + [Kill(p.name, p.namespace, Victim(p, target))], victims + [p], pods, target)
    ensures Unused(Remove(left, p), victims + [p], pods)
  {
    RemoveTakesOne(left, p);
    assert multiset(victims + [p]) == multiset(victims) + multiset{p};
    assert p in multiset(left);
    assert multiset{p} <= multiset(left);
  }
}
