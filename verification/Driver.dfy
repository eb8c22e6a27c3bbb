// The scenario driver: what becomes of the journal after each scenario, and what is reported.

module Driver {
  import opened Lists
  import opened Options
  import opened Text
  import opened Versions
  import opened Search
  import opened Journal
  import opened Recovery

  // ---- Registration

  /** `RollbackHandler`: registers callables in the context set for the current run. */
  class RollbackHandler {
    const scenarioType: string
    var context: Option<string>

    constructor (scenarioType: string)
      ensures this.scenarioType == scenarioType && context == None
    {
      this.scenarioType, context := scenarioType, None;
    }

    method SetContext(runUuid: string, now: nat)
      modifies this`context
      ensures context == Some(ContextDirectory(now, runUuid))
    {
      context := Some(ContextDirectory(now, runUuid));
    }

    method ClearContext()
      modifies this`context
      ensures context == None
    {
      context := None;
    }

    /** `set_rollback_callable`: serialization errors are logged, never raised. Without a context
        Python formats the directory name as `None`. */
    method SetRollbackCallable(store: VersionStore, content: string, how: Serialization) returns (stored: bool)
      requires store.Valid()
      modifies store`files, store`folders
      ensures store.Valid()
      ensures stored <==> how.Writes? && ContextName() !in store.plain
      ensures store.files ==
              Stored(old(store.files), store.plain, Asked(content, how), store.processTimestamp, store.processSuffix)
      ensures store.folders == if how.RaisesEarly? || ContextName() in store.plain then old(store.folders)
                               else old(store.folders) + {ContextName()}
    {
      stored := store.Serialize(Registration(ContextName(), scenarioType, content, how));
    }

    function ContextName(): string reads this
    {
      if context.None? then "None" else context.value
    }

    /** The registration a scenario asks for. */
    function Asked(content: string, how: Serialization): Registration reads this
    {
      Registration(ContextName(), scenarioType, content, how)
    }
  }

  /** A file registered for one type is what a rollback or cleanup of another type overlooks:
      the driver's pair covers it exactly when the types agree. */
  lemma CoveredIffSameType(now: nat, runUuid: string, v: Version, driverType: string)
    requires WellFormed(v) && driverType != ""
    ensures Qualifies(Path(ContextDirectory(now, runUuid), FileName(v)), Some(runUuid), Some(driverType))
            <==> driverType == v.scenarioType
  {
    hide IsVersionFile, IsContextDirectory;
    VersionRoundTrip(v, Some(driverType));
    ContextRoundTrip(now, runUuid, Some(runUuid));
  }

  // ---- The part of the store one run of one plugin may touch

  predicate BelongsTo(p: Path, uuid: string, t: string)
  {
    && IsContextDirectory(p.dir, Some(uuid))
    && (IsVersionFile(p.file, Some(t))
        || (EndsWith(p.file, EXECUTED) && IsVersionFile(DropLast(p.file, |EXECUTED|), Some(t))))
  }

  /** `t` is the type the driver rolls back, `h` the one the handler registers under. */
  predicate Touchable(p: Path, uuid: string, t: string, h: string)
  {
    BelongsTo(p, uuid, t) || BelongsTo(p, uuid, h) || (uuid == "" && p.dir == "None")
  }

  ghost predicate SameOutside(before: Files, after: Files, uuid: string, t: string, h: string)
  {
    forall p :: !Touchable(p, uuid, t, h) ==>
      (p in before <==> p in after) && (p in before ==> after[p] == before[p])
  }

  lemma AttemptStaysInside(before: Files, after: Files, a: Attempt, uuid: string, t: string, h: string)
    requires Attempted(before, after, a) && FoundPending(before, a, Some(uuid), Some(t))
    ensures SameOutside(before, after, uuid, t, h)
  {
    hide IsVersionFile, IsContextDirectory;
    forall p | !Touchable(p, uuid, t, h)
      ensures (p in before <==> p in after) && (p in before ==> after[p] == before[p])
    {
      forall q | q in a.marked ensures p != q && p != Executed(q) {
        assert q in Elements(a.found);
        assert BelongsTo(q, uuid, t);
        MarkBelongs(q, uuid, t);
      }
      MarkAllFrame(before, a.marked, p);
    }
  }

  lemma MarkBelongs(q: Path, uuid: string, t: string)
    requires BelongsTo(q, uuid, t) && IsVersionFile(q.file, Some(t))
    ensures BelongsTo(Executed(q), uuid, t)
  {
    hide IsVersionFile, IsContextDirectory;
    ExecutedIsNeverPending(q.file, Some(t));
    assert DropLast(q.file + EXECUTED, |EXECUTED|) == q.file;
  }

  lemma RegistrationStaysInside(now: nat, uuid: string, v: Version)
    requires WellFormed(v)
    ensures BelongsTo(Path(ContextDirectory(now, uuid), FileName(v)), uuid, v.scenarioType)
  {
    hide IsVersionFile, IsContextDirectory;
    VersionRoundTrip(v, Some(v.scenarioType));
    ContextRoundTrip(now, uuid, Some(uuid));
  }

  lemma RegistrationTouches(now: nat, uuid: string, v: Version, t: string, p: Path)
    requires WellFormed(v)
    requires p == Path(if uuid == "" then "None" else ContextDirectory(now, uuid), FileName(v))
    ensures Touchable(p, uuid, t, v.scenarioType)
  {
    RegistrationStaysInside(now, uuid, v);
  }

  lemma NoneIsNoContext()
    ensures forall uuid :: !IsContextDirectory("None", uuid)
  {
  }

  /** What a run may touch is its own: files of another run, and version files of another type, stay as
      they are. */
  lemma OthersUntouched(before: Files, after: Files, uuid: string, t: string, h: string, now: nat, other: string,
                        v: Version)
    requires SameOutside(before, after, uuid, t, h) && uuid != "" && t != "" && h != "" && WellFormed(v)
    requires other != uuid || (v.scenarioType != t && v.scenarioType != h)
    ensures var p := Path(ContextDirectory(now, other), FileName(v));
            (p in before <==> p in after) && (p in before ==> after[p] == before[p])
  {
    hide IsVersionFile, IsContextDirectory;
    var p := Path(ContextDirectory(now, other), FileName(v));
    ContextRoundTrip(now, other, Some(uuid));
    VersionRoundTrip(v, Some(t));
    VersionRoundTrip(v, Some(h));
    VersionRoundTrip(v, None);
    assert !Touchable(p, uuid, t, h);
  }

  // ---- run_scenarios

  /** An entry of the scenario list: a deprecated sub-list, or the path of a config file. */
  datatype Entry = SubList | ConfigFile(path: string)

  datatype Telemetry = Telemetry(scenario: string, scenarioType: string, exitStatus: int)

  /** How the plugin's `run` ends: a code, an `Exception`, or an exception that is not one
      (such as the `KeyboardInterrupt` of a chained signal handler). */
  datatype RunResult = Returned(code: int) | Failed | Interrupted

  /** The exit status of an entry whose config file was missing (None) or whose `run` ended so. */
  function Status(run: Option<RunResult>): int
  {
    if run.Some? && run.value.Returned? then run.value.code else 1
  }

  /** What a scenario does to the store while it runs: it registers a callable, or a signal handler that
      interrupts it rolls back, with what callables and renames do then. */
  datatype Act =
    | Register(content: string, how: Serialization)
    | SignalRollback(completes: Path -> bool, renames: Path -> bool)

  /** What the outside world does to one entry: whether its config file is missing, setting its
      parameters raises, what `run` does from the time `now` on and how it ends, what callables, renames
      and removals of version files do afterwards, and whether publishing the status raises. */
  datatype World = World(missing: bool, parametersFail: bool, now: nat, acts: seq<Act>, result: RunResult,
                         completes: Path -> bool, renames: Path -> bool, removable: Path -> bool,
                         publishFails: bool)

  function RunOf(w: World): Option<RunResult> { if w.missing then None else Some(w.result) }

  /** The number of entries before the first sub-list. */
  function Processed(scenarios: seq<Entry>): (n: nat)
    ensures n <= |scenarios|
    ensures forall i :: 0 <= i < n ==> scenarios[i].ConfigFile?
    ensures n < |scenarios| ==> scenarios[n].SubList?
  {
    if scenarios == [] || scenarios[0].SubList? then 0 else 1 + Processed(scenarios[1..])
  }

  /** The entries whose telemetry reports a non-zero exit status, in order. */
  function FailedOf(telemetries: seq<Telemetry>): seq<Entry>
  {
    if telemetries == [] then []
    else
      var last := telemetries[|telemetries| - 1];
      FailedOf(telemetries[..|telemetries| - 1]) + (if last.exitStatus != 0 then [ConfigFile(last.scenario)] else [])
  }

  class ScenarioPlugin {
    const types: seq<string>
    const handler: RollbackHandler
    const store: VersionStore

    constructor (types: seq<string>, scenarioType: string, store: VersionStore)
      requires types != []
      ensures this.types == types && this.store == store && fresh(handler)
      ensures handler.scenarioType == scenarioType && handler.context == None
    {
      this.types, this.store := types, store;
      handler := new RollbackHandler(scenarioType);
    }

    /** The directory that registrations of a run begun at `now` go to. */
    function RunDirectory(runUuid: string, now: nat): string
    {
      if runUuid == "" then "None" else ContextDirectory(now, runUuid)
    }

    /** How one act of a scenario changes the store. A signal without a complete context does nothing. */
    ghost predicate Does(before: Files, after: Files, runUuid: string, now: nat, act: Act)
      requires types != []
      reads this, store`plain
    {
      match act
      case Register(content, how) =>
        var r := Registration(RunDirectory(runUuid, now), handler.scenarioType, content, how);
        after == Stored(before, store.plain, r, store.processTimestamp, store.processSuffix)
      case SignalRollback(completes, renames) =>
        if runUuid == "" || types[0] == "" then after == before
        else exists a: Attempt ::
          && Attempted(before, after, a) && FoundPending(before, a, Some(runUuid), Some(types[0]))
          && Faithful(a, completes, renames) && (a.outcome.Disabled? <==> !store.auto)
          && (a.outcome.Unreadable? ==> exists n :: n in store.plain && IsContextDirectory(n, Some(runUuid)))
    }

    /** The store before the first act and after each of them. */
    ghost predicate Chain(states: seq<Files>, runUuid: string, now: nat, acts: seq<Act>)
      requires types != []
      reads this, store`plain
    {
      |states| == |acts| + 1
      && forall k :: 0 <= k < |acts| ==> Does(states[k], states[k + 1], runUuid, now, acts[k])
    }

    /** `run` under `set_rollback_context_decorator`: any sequence of registrations, and of
        rollbacks by a signal handler that interrupts it. */
    method Run(runUuid: string, now: nat, acts: seq<Act>) returns (ghost states: seq<Files>)
      requires types != [] && store.Valid() && handler.context == None
      modifies store`files, store`folders, handler`context
      ensures store.Valid() && handler.context == None
      ensures Chain(states, runUuid, now, acts)
      ensures states[0] == old(store.files) && states[|acts|] == store.files
      ensures SameOutside(old(store.files), store.files, runUuid, types[0], handler.scenarioType)
      ensures !store.auto ==> old(store.files).Keys <= store.files.Keys
    {
      hide IsVersionFile, IsContextDirectory, Attempted, FoundPending, ListingOf, Touchable, Does;
      if runUuid != "" {
        handler.SetContext(runUuid, now);
      }
      states := [store.files];
      for i := 0 to |acts|
        invariant store.Valid()
        invariant handler.ContextName() == RunDirectory(runUuid, now)
        invariant Chain(states, runUuid, now, acts[..i])
        invariant states[0] == old(store.files) && states[i] == store.files
        invariant SameOutside(old(store.files), store.files, runUuid, types[0], handler.scenarioType)
        invariant !store.auto ==> old(store.files).Keys <= store.files.Keys
      {
        ghost var before := store.files;
        Perform(runUuid, now, acts[i]);
        SameOutsideTrans(old(store.files), before, store.files, runUuid, types[0], handler.scenarioType);
        ChainSnoc(states, runUuid, now, acts[..i], acts[i], store.files);
        assert acts[..i + 1] == acts[..i] + [acts[i]];
        states := states + [store.files];
      }
      assert acts[..|acts|] == acts;
      handler.ClearContext();
    }

    lemma ChainSnoc(states: seq<Files>, runUuid: string, now: nat, acts: seq<Act>, act: Act, after: Files)
      requires types != [] && Chain(states, runUuid, now, acts)
      requires Does(states[|acts|], after, runUuid, now, act)
      ensures Chain(states + [after], runUuid, now, acts + [act])
    {
      hide Does;
    }

    method Perform(runUuid: string, now: nat, act: Act)
      requires types != [] && store.Valid() && handler.ContextName() == RunDirectory(runUuid, now)
      modifies store`files, store`folders
      ensures store.Valid()
      ensures Does(old(store.files), store.files, runUuid, now, act)
      ensures SameOutside(old(store.files), store.files, runUuid, types[0], handler.scenarioType)
      ensures !store.auto ==> old(store.files).Keys <= store.files.Keys
    {
      hide IsVersionFile, IsContextDirectory, Attempted, FoundPending, ListingOf, Touchable, Faithful;
      match act
      case Register(content, how) =>
        ghost var version := Version(handler.scenarioType, store.processTimestamp, store.processSuffix);
        RegistrationTouches(now, runUuid, version, types[0], Path(RunDirectory(runUuid, now), FileName(version)));
        var stored := handler.SetRollbackCallable(store, content, how);
      case SignalRollback(completes, renames) =>
        if runUuid != "" && types[0] != "" {
          var a := store.ExecuteRollback(Some(runUuid), Some(types[0]), false, completes, renames);
          AttemptStaysInside(old(store.files), store.files, a, runUuid, types[0], handler.scenarioType);
          if a.outcome.Disabled? {
            DisabledDoesNothing(old(store.files), store.files, a);
          }
        }
    }

    /** What a run that did `acts` makes of the store. */
    ghost predicate Ran(before: Files, after: Files, runUuid: string, w: World)
      requires types != []
      reads this, store`plain
    {
      exists states: seq<Files> ::
        Chain(states, runUuid, w.now, w.acts) && states[0] == before && states[|w.acts|] == after
    }

    /** What dealing with one run leaves behind, given the store right after it. */
    ghost predicate Settled(afterRun: Files, after: Files, runUuid: string, status: int)
      requires types != []
      reads this
    {
      if status == 0 then after == afterRun - Pending(afterRun, Some(runUuid), Some(types[0]))
      else if !store.auto then after == afterRun
      else exists a: Attempt ::
        a.outcome.Clean? && Attempted(afterRun, after, a) && FoundPending(afterRun, a, Some(runUuid), Some(types[0]))
    }

    lemma SettledMeansNonePending(afterRun: Files, after: Files, runUuid: string, status: int)
      requires types != [] && Settled(afterRun, after, runUuid, status) && (status == 0 || store.auto)
      ensures Pending(after, Some(runUuid), Some(types[0])) == {}
    {
      hide IsVersionFile, IsContextDirectory;
      if status != 0 {
        var a: Attempt :| a.outcome.Clean? && Attempted(afterRun, after, a)
          && FoundPending(afterRun, a, Some(runUuid), Some(types[0]));
        MarkAllPending(afterRun, a.marked, Some(runUuid), Some(types[0]));
      }
    }

    /** Every file that was pending after the run is still there with its content, or under its mark. */
    ghost predicate Kept(afterRun: Files, after: Files, runUuid: string)
      requires types != []
      reads this
    {
      forall p :: p in Pending(afterRun, Some(runUuid), Some(types[0])) ==>
        (p in after && after[p] == afterRun[p])
        || (store.auto && Executed(p) in after && after[Executed(p)] == afterRun[p])
    }

    lemma KeptAsIs(files: Files, runUuid: string)
      requires types != []
      ensures Kept(files, files, runUuid)
    {
    }

    /** Executing rollbacks loses none: those marked keep their content, and after a clean call all are. */
    lemma RollbackKeeps(afterRun: Files, after: Files, a: Attempt, runUuid: string)
      requires types != [] && Attempted(afterRun, after, a)
      requires FoundPending(afterRun, a, Some(runUuid), Some(types[0])) && (a.outcome.Disabled? <==> !store.auto)
      ensures Kept(afterRun, after, runUuid)
      ensures a.outcome.Clean? ==>
                forall p :: p in Pending(afterRun, Some(runUuid), Some(types[0])) ==>
                  p !in after && Executed(p) in after && after[Executed(p)] == afterRun[p]
    {
      hide IsVersionFile, IsContextDirectory, FoundPending, MarkAll;
      var u, t := Some(runUuid), Some(types[0]);
      AttemptEffect(afterRun, after, a, u, t);
      forall p | p in Pending(afterRun, u, t)
        ensures (p in after && after[p] == afterRun[p])
                || (store.auto && Executed(p) in after && after[Executed(p)] == afterRun[p])
        ensures a.outcome.Clean? ==> p !in after && Executed(p) in after && after[Executed(p)] == afterRun[p]
      {
        OneAttempt(afterRun, after, a, u, t, p);
      }
    }

    /** How an exception that leaves the driver's hands during an entry leaves the store. */
    ghost predicate CutShort(before: Files, after: Files, runUuid: string, w: World)
      requires types != []
      reads this, store`plain
    {
      !w.missing
      && if w.parametersFail then after == before
         else exists afterRun: Files ::
           && Ran(before, afterRun, runUuid, w)
           && (w.result.Interrupted? ==> after == afterRun)
           && (w.result != Returned(0) ==> Kept(afterRun, after, runUuid))
           && (w.result == Returned(0) ==>
                 forall p :: p in afterRun && p !in Pending(afterRun, Some(runUuid), Some(types[0])) ==>
                   p in after && after[p] == afterRun[p])
    }

    /** One existing scenario: run it, then clean up or roll back. Not `ok`: an exception
        left `run_scenarios`. */
    method RunOne(runUuid: string, w: World) returns (ok: bool, ghost afterRun: Files)
      requires types != [] && store.Valid() && handler.context == None && !w.missing
      modifies store`files, store`folders, handler`context
      ensures store.Valid() && handler.context == None
      ensures SameOutside(old(store.files), afterRun, runUuid, types[0], handler.scenarioType)
      ensures SameOutside(old(store.files), store.files, runUuid, types[0], handler.scenarioType)
      ensures !store.auto ==> old(store.files).Keys <= afterRun.Keys
      ensures ok ==> !w.parametersFail && !w.result.Interrupted?
      ensures ok ==> Ran(old(store.files), afterRun, runUuid, w)
      ensures ok ==> Settled(afterRun, store.files, runUuid, Status(Some(w.result)))
      ensures !ok ==> CutShort(old(store.files), store.files, runUuid, w)
      ensures (&& !w.parametersFail && !w.result.Interrupted?
               && (forall p :: w.completes(p) && w.renames(p) && w.removable(p))
               && !exists n :: n in store.plain && IsContextDirectory(n, Some(runUuid)))
              ==> ok
    {
      hide IsVersionFile, IsContextDirectory, ListingOf, Touchable, Attempted, FoundPending, Pending, SameOutside,
        Chain, MarkAll, Kept;
      SameOutsideRefl(store.files, runUuid, types[0], handler.scenarioType);
      afterRun := store.files;
      if w.parametersFail {
        return false, afterRun;
      }
      ghost var states := Run(runUuid, w.now, w.acts);
      afterRun := store.files;
      assert Ran(old(store.files), afterRun, runUuid, w);
      KeptAsIs(afterRun, runUuid);
      if w.result.Interrupted? {
        return false, afterRun;
      }
      if Status(Some(w.result)) == 0 {
        var removed;
        ok, removed := store.Cleanup(Some(runUuid), Some(types[0]), w.removable);
        RemovalStaysInside(afterRun, removed, runUuid, types[0], handler.scenarioType);
      } else {
        var a := store.ExecuteRollback(Some(runUuid), Some(types[0]), false, w.completes, w.renames);
        AttemptStaysInside(afterRun, store.files, a, runUuid, types[0], handler.scenarioType);
        RollbackKeeps(afterRun, store.files, a, runUuid);
        if a.outcome.Disabled? {
          DisabledDoesNothing(afterRun, store.files, a);
        }
        ok := a.outcome.Clean? || a.outcome.Disabled?;
      }
      SameOutsideTrans(old(store.files), afterRun, store.files, runUuid, types[0], handler.scenarioType);
    }

    /** How one entry changes the store: not at all when its config file is missing, else by its run
        and what dealing with it does. */
    ghost predicate Dealt(before: Files, after: Files, runUuid: string, w: World)
      requires types != []
      reads this, store`plain
    {
      if w.missing then after == before
      else exists afterRun: Files ::
        && Ran(before, afterRun, runUuid, w)
        && Settled(afterRun, after, runUuid, Status(Some(w.result)))
        && SameOutside(before, afterRun, runUuid, types[0], handler.scenarioType)
        && (!store.auto ==> before.Keys <= afterRun.Keys)
    }

    /** The record of the scenarios dealt with so far: what the world did, what was reported, and the
        store before the first and after each of them. */
    ghost predicate Recorded(scenarios: seq<Entry>, runUuid: string, worlds: seq<World>,
                             telemetries: seq<Telemetry>, states: seq<Files>)
      requires types != []
      reads this, store`plain
    {
      && |worlds| == |telemetries| == |states| - 1 <= |scenarios|
      && forall i | 0 <= i < |worlds| ::
           && scenarios[i].ConfigFile?
           && telemetries[i] == Telemetry(scenarios[i].path, types[0], Status(RunOf(worlds[i])))
           && SameOutside(states[i], states[i + 1], runUuid, types[0], handler.scenarioType)
           && Dealt(states[i], states[i + 1], runUuid, worlds[i])
    }

    /** What is reported: an entry has status 0 exactly when its `run` returned 0; another code that `run`
        returned is passed on, and everything else counts as 1. */
    lemma ReportedStatus(scenarios: seq<Entry>, runUuid: string, worlds: seq<World>, telemetries: seq<Telemetry>,
                         states: seq<Files>, i: nat)
      requires types != [] && Recorded(scenarios, runUuid, worlds, telemetries, states) && i < |worlds|
      ensures scenarios[i] == ConfigFile(telemetries[i].scenario) && telemetries[i].scenarioType == types[0]
      ensures telemetries[i].exitStatus == 0 <==> !worlds[i].missing && worlds[i].result == Returned(0)
      ensures !worlds[i].missing && worlds[i].result.Returned? ==> telemetries[i].exitStatus == worlds[i].result.code
      ensures worlds[i].missing || !worlds[i].result.Returned? ==> telemetries[i].exitStatus == 1
    {
      hide Dealt, SameOutside;
    }

    /** The failed list names, in order, exactly the entries that did not return 0; `which` are their
        places. */
    lemma {:induction false} FailedAreListed(scenarios: seq<Entry>, runUuid: string, worlds: seq<World>,
                                             telemetries: seq<Telemetry>, states: seq<Files>)
        returns (which: seq<nat>)
      requires types != [] && Recorded(scenarios, runUuid, worlds, telemetries, states)
      ensures |which| == |FailedOf(telemetries)|
      ensures forall k :: 0 <= k < |which| ==> which[k] < |worlds| && FailedOf(telemetries)[k] == scenarios[which[k]]
      ensures forall k, m :: 0 <= k < m < |which| ==> which[k] < which[m]
      ensures forall i: nat :: i in which <==> i < |worlds| && (worlds[i].missing || worlds[i].result != Returned(0))
      decreases |worlds|
    {
      if worlds == [] {
        which := [];
      } else {
        hide Dealt, SameOutside;
        var n := |worlds| - 1;
        which := FailedAreListed(scenarios, runUuid, worlds[..n], telemetries[..n], states[..n + 1]);
        ReportedStatus(scenarios, runUuid, worlds, telemetries, states, n);
        if worlds[n].missing || worlds[n].result != Returned(0) {
          assert forall k :: 0 <= k < |which| ==> which[k] in which;
          which := which + [n];
        }
      }
    }

    /** After a run that ended in any other way than by returning 0, no rollback is lost: every file
        that was pending right after the run is still pending with automatic rollback off, and under
        its mark with it on. */
    lemma FailureLosesNothing(scenarios: seq<Entry>, runUuid: string, worlds: seq<World>,
                              telemetries: seq<Telemetry>, states: seq<Files>, i: nat) returns (afterRun: Files)
      requires types != [] && Recorded(scenarios, runUuid, worlds, telemetries, states) && i < |worlds|
      requires !worlds[i].missing && worlds[i].result != Returned(0)
      ensures Ran(states[i], afterRun, runUuid, worlds[i])
      ensures !store.auto ==> states[i + 1] == afterRun
      ensures store.auto ==>
                forall p :: p in Pending(afterRun, Some(runUuid), Some(types[0])) ==>
                  && p !in states[i + 1] && Executed(p) in states[i + 1]
                  && states[i + 1][Executed(p)] == afterRun[p]
    {
      hide Ran, SameOutside, Attempted, FoundPending, Pending;
      var w := worlds[i];
      assert Dealt(states[i], states[i + 1], runUuid, w);
      afterRun :| Ran(states[i], afterRun, runUuid, w)
        && Settled(afterRun, states[i + 1], runUuid, Status(Some(w.result)));
      if store.auto {
        var a: Attempt :| a.outcome.Clean? && Attempted(afterRun, states[i + 1], a)
          && FoundPending(afterRun, a, Some(runUuid), Some(types[0]));
        RollbackKeeps(afterRun, states[i + 1], a, runUuid);
      }
    }

    /** After a run that returned 0, every file that was pending right after it is gone, and no other. */
    lemma SuccessCleansUp(scenarios: seq<Entry>, runUuid: string, worlds: seq<World>, telemetries: seq<Telemetry>,
                          states: seq<Files>, i: nat) returns (afterRun: Files)
      requires types != [] && Recorded(scenarios, runUuid, worlds, telemetries, states) && i < |worlds|
      requires !worlds[i].missing && worlds[i].result == Returned(0)
      ensures Ran(states[i], afterRun, runUuid, worlds[i])
      ensures states[i + 1] == afterRun - Pending(afterRun, Some(runUuid), Some(types[0]))
    {
      hide Ran, SameOutside, Attempted, FoundPending, Pending;
      var w := worlds[i];
      assert Dealt(states[i], states[i + 1], runUuid, w);
      afterRun :| Ran(states[i], afterRun, runUuid, w)
        && Settled(afterRun, states[i + 1], runUuid, Status(Some(w.result)));
    }

    /** The acts from `k + 1` on open no file. */
    predicate NothingWrittenAfter(acts: seq<Act>, k: nat)
    {
      forall j :: k < j < |acts| ==> acts[j].Register? && (acts[j].how.RaisesEarly? || acts[j].how.RaisesLate?)
    }

    /** The file that the registrations of a run begun at `now` go to. */
    function RunFile(runUuid: string, now: nat): Path
      reads this
    {
      Path(RunDirectory(runUuid, now),
           FileName(Version(handler.scenarioType, store.processTimestamp, store.processSuffix)))
    }

    lemma {:induction false} LastWritten(states: seq<Files>, runUuid: string, now: nat, acts: seq<Act>, k: nat, n: nat)
      requires types != [] && Chain(states, runUuid, now, acts)
      requires k < n <= |acts| && acts[k].Register? && acts[k].how.Writes?
      requires n == k + 1 || NothingWrittenAfter(acts, k)
      requires RunDirectory(runUuid, now) !in store.plain
      ensures RunFile(runUuid, now) in states[n] && states[n][RunFile(runUuid, now)] == acts[k].content
      decreases n
    {
      hide ContextDirectory, FileName;
      assert Does(states[n - 1], states[n], runUuid, now, acts[n - 1]);
      if k < n - 1 {
        LastWritten(states, runUuid, now, acts, k, n - 1);
      }
    }

    lemma OwnFileIsPending(files: Files, runUuid: string, now: nat)
      requires types != [] && runUuid != "" && handler.scenarioType == types[0] && store.Valid()
      requires RunFile(runUuid, now) in files
      ensures OwnFile(runUuid, now) == RunFile(runUuid, now)
      ensures OwnFile(runUuid, now) in Pending(files, Some(runUuid), Some(types[0]))
    {
      hide IsVersionFile, IsContextDirectory, FileName, ContextDirectory;
      VersionRoundTrip(Version(types[0], store.processTimestamp, store.processSuffix), Some(types[0]));
      ContextRoundTrip(now, runUuid, Some(runUuid));
    }

    /** A signal right after a registration undoes it at once, if automatic rollback is on and nothing
        raises: the callable has been executed and marked. */
    lemma SignalUndoes(states: seq<Files>, runUuid: string, now: nat, acts: seq<Act>, k: nat, signal: Act)
      requires types != [] && Chain(states, runUuid, now, acts)
      requires k + 1 < |acts| && acts[k].Register? && acts[k].how.Writes? && acts[k + 1] == signal
      requires signal.SignalRollback? && forall p :: signal.completes(p) && signal.renames(p)
      requires store.Valid() && store.auto && runUuid != "" && types[0] != "" && handler.scenarioType == types[0]
      requires RunDirectory(runUuid, now) !in store.plain
      requires !exists n :: n in store.plain && IsContextDirectory(n, Some(runUuid))
      ensures var p, after := OwnFile(runUuid, now), states[k + 2];
              p !in after && Executed(p) in after && after[Executed(p)] == acts[k].content
    {
      hide IsVersionFile, IsContextDirectory, FileName, ContextDirectory, FoundPending, MarkAll;
      LastWritten(states, runUuid, now, acts, k, k + 1);
      OwnFileIsPending(states[k + 1], runUuid, now);
      assert Does(states[k + 1], states[k + 2], runUuid, now, acts[k + 1]);
      var a: Attempt :|
        && Attempted(states[k + 1], states[k + 2], a)
        && FoundPending(states[k + 1], a, Some(runUuid), Some(types[0]))
        && Faithful(a, signal.completes, signal.renames) && (a.outcome.Disabled? <==> !store.auto)
        && (a.outcome.Unreadable? ==> exists n :: n in store.plain && IsContextDirectory(n, Some(runUuid)));
      OneAttempt(states[k + 1], states[k + 2], a, Some(runUuid), Some(types[0]), OwnFile(runUuid, now));
    }

    /** Without a run the file lands in a directory that no rollback, of any run or type, looks into. */
    lemma RegisteredWithoutRun(states: seq<Files>, now: nat, acts: seq<Act>, k: nat)
      requires types != [] && Chain(states, "", now, acts)
      requires k < |acts| && acts[k].Register? && acts[k].how.Writes? && NothingWrittenAfter(acts, k)
      requires "None" !in store.plain
      ensures var p, after := RunFile("", now), states[|acts|];
              && p.dir == "None" && p in after && after[p] == acts[k].content
              && forall uuid, t :: p !in Pending(after, uuid, t)
    {
      hide FileName, IsVersionFile;
      LastWritten(states, "", now, acts, k, |acts|);
      NoneIsNoContext();
    }

    /** What rollback is for. The callable that a scenario has registered last, under the type the driver
        uses: if the run returns 0 its file is removed; else it has been executed and marked with
        automatic rollback on, and stays pending with it off. */
    lemma RegisteredIsUndone(scenarios: seq<Entry>, runUuid: string, worlds: seq<World>, telemetries: seq<Telemetry>,
                             states: seq<Files>, i: nat, k: nat)
      requires types != [] && Recorded(scenarios, runUuid, worlds, telemetries, states) && i < |worlds|
      requires store.Valid() && runUuid != "" && handler.scenarioType == types[0]
      requires !worlds[i].missing && ContextDirectory(worlds[i].now, runUuid) !in store.plain
      requires k < |worlds[i].acts| && NothingWrittenAfter(worlds[i].acts, k)
      requires worlds[i].acts[k].Register? && worlds[i].acts[k].how.Writes?
      ensures var p, after, content := OwnFile(runUuid, worlds[i].now), states[i + 1], worlds[i].acts[k].content;
              if worlds[i].result == Returned(0) then p !in after
              else if store.auto then p !in after && Executed(p) in after && after[Executed(p)] == content
              else p in Pending(after, Some(runUuid), Some(types[0])) && after[p] == content
    {
      hide IsVersionFile, IsContextDirectory, FileName, ContextDirectory, Recorded, NothingWrittenAfter;
      var w := worlds[i];
      var afterRun: Files;
      if w.result == Returned(0) {
        afterRun := SuccessCleansUp(scenarios, runUuid, worlds, telemetries, states, i);
      } else {
        afterRun := FailureLosesNothing(scenarios, runUuid, worlds, telemetries, states, i);
      }
      var chain: seq<Files> :| Chain(chain, runUuid, w.now, w.acts) && chain[|w.acts|] == afterRun;
      LastWritten(chain, runUuid, w.now, w.acts, k, |w.acts|);
      OwnFileIsPending(afterRun, runUuid, w.now);
    }

    /** If an exception leaves the driver's hands during such an entry, the callable is not lost, unless the
        run had returned 0: its content is in its file or under the mark. */
    lemma RegisteredSurvivesCut(before: Files, after: Files, runUuid: string, w: World, k: nat)
      requires types != [] && CutShort(before, after, runUuid, w) && !w.parametersFail && w.result != Returned(0)
      requires store.Valid() && runUuid != "" && handler.scenarioType == types[0]
      requires ContextDirectory(w.now, runUuid) !in store.plain
      requires k < |w.acts| && NothingWrittenAfter(w.acts, k) && w.acts[k].Register? && w.acts[k].how.Writes?
      ensures var p := OwnFile(runUuid, w.now);
              (p in after && after[p] == w.acts[k].content)
              || (store.auto && Executed(p) in after && after[Executed(p)] == w.acts[k].content)
    {
      hide IsVersionFile, IsContextDirectory, FileName, ContextDirectory, NothingWrittenAfter, Pending;
      var afterRun: Files :| Ran(before, afterRun, runUuid, w) && Kept(afterRun, after, runUuid);
      var chain: seq<Files> :| Chain(chain, runUuid, w.now, w.acts) && chain[|w.acts|] == afterRun;
      LastWritten(chain, runUuid, w.now, w.acts, k, |w.acts|);
      OwnFileIsPending(afterRun, runUuid, w.now);
      var p := OwnFile(runUuid, w.now);
      assert p in Pending(afterRun, Some(runUuid), Some(types[0]));
      assert afterRun[p] == w.acts[k].content;
      assert Kept(afterRun, after, runUuid);
      assert (p in after && after[p] == afterRun[p])
             || (store.auto && Executed(p) in after && after[Executed(p)] == afterRun[p]);
    }

    /** After status 0, or another one with automatic rollback on, nothing of this run is pending. */
    lemma NonePendingAfter(scenarios: seq<Entry>, runUuid: string, worlds: seq<World>, telemetries: seq<Telemetry>,
                           states: seq<Files>, i: nat)
      requires types != [] && Recorded(scenarios, runUuid, worlds, telemetries, states) && i < |worlds|
      requires !worlds[i].missing && (worlds[i].result == Returned(0) || store.auto)
      ensures Pending(states[i + 1], Some(runUuid), Some(types[0])) == {}
    {
      hide Settled, SameOutside, Pending, Ran;
      assert Dealt(states[i], states[i + 1], runUuid, worlds[i]);
      var afterRun: Files :| Settled(afterRun, states[i + 1], runUuid, Status(Some(worlds[i].result)));
      SettledMeansNonePending(afterRun, states[i + 1], runUuid, Status(Some(worlds[i].result)));
    }

    /** With automatic rollback off, a later entry that does not succeed leaves every pending file. */
    lemma FailureKeepsPending(before: Files, after: Files, runUuid: string, w: World)
      requires types != [] && !store.auto && Dealt(before, after, runUuid, w) && (w.missing || w.result != Returned(0))
      ensures Pending(before, Some(runUuid), Some(types[0])) <= Pending(after, Some(runUuid), Some(types[0]))
    {
      hide IsVersionFile, IsContextDirectory, SameOutside, Ran;
    }

    /** With automatic rollback off, the rollback that a scenario left pending is still there after
        each later entry up to the j-th exactly when none of them succeeded: the cleanup of a later
        success takes the files of earlier failures of the same run and type along. */
    lemma RollbackSurvivesIff(scenarios: seq<Entry>, runUuid: string, worlds: seq<World>,
                              telemetries: seq<Telemetry>, states: seq<Files>, i: nat, j: nat, p: Path)
      requires types != [] && !store.auto && Recorded(scenarios, runUuid, worlds, telemetries, states)
      requires i <= j <= |worlds| && p in Pending(states[i], Some(runUuid), Some(types[0]))
      ensures (forall k :: i <= k <= j ==> p in Pending(states[k], Some(runUuid), Some(types[0]))) <==>
              (forall k :: i <= k < j ==> worlds[k].missing || worlds[k].result != Returned(0))
    {
      hide Pending, SameOutside, Dealt;
      if forall k :: i <= k < j ==> worlds[k].missing || worlds[k].result != Returned(0) {
        for k := i to j
          invariant forall m :: i <= m <= k ==> p in Pending(states[m], Some(runUuid), Some(types[0]))
        {
          assert Dealt(states[k], states[k + 1], runUuid, worlds[k]);
          FailureKeepsPending(states[k], states[k + 1], runUuid, worlds[k]);
        }
      }
      forall k | i <= k < j && !worlds[k].missing && worlds[k].result == Returned(0)
        ensures p !in Pending(states[k + 1], Some(runUuid), Some(types[0]))
      {
        NonePendingAfter(scenarios, runUuid, worlds, telemetries, states, k);
      }
    }

    /** A scenario that does `acts` and returns `code`, in a world without mishaps. */
    function Plain(now: nat, acts: seq<Act>, code: int): World
    {
      World(false, false, now, acts, Returned(code), _ => true, _ => true, _ => true, false)
    }

    /** Such a list: one scenario registers a rollback and fails, the next one succeeds; the rollback
        is pending after the first and gone after the second. */
    lemma LaterSuccessDeletes(runUuid: string, now: nat, content: string)
      requires types != [] && !store.auto && store.Valid() && runUuid != ""
      requires handler.scenarioType == types[0] && ContextDirectory(now, runUuid) !in store.plain
      ensures var p := OwnFile(runUuid, now);
              var states: seq<Files> := [map[], map[p := content], map[]];
              var first, second := Plain(now, [Register(content, Writes)], 1), Plain(now, [], 0);
              && Recorded([ConfigFile("first"), ConfigFile("second")], runUuid, [first, second],
                          [Telemetry("first", types[0], 1), Telemetry("second", types[0], 0)], states)
              && p in Pending(states[1], Some(runUuid), Some(types[0])) && p !in states[2]
    {
      hide IsVersionFile, IsContextDirectory, FileName, ContextDirectory;
      var v, p := Version(types[0], store.processTimestamp, store.processSuffix), OwnFile(runUuid, now);
      var none, one: Files := map[], map[p := content];
      var first, second := Plain(now, [Register(content, Writes)], 1), Plain(now, [], 0);
      VersionRoundTrip(v, Some(types[0]));
      ContextRoundTrip(now, runUuid, Some(runUuid));
      assert Pending(one, Some(runUuid), Some(types[0])) == {p};
      RegistrationStaysInside(now, runUuid, v);
      assert SameOutside(none, one, runUuid, types[0], handler.scenarioType);
      SameOutsideRefl(one, runUuid, types[0], handler.scenarioType);
      assert SameOutside(one, none, runUuid, types[0], handler.scenarioType);
      assert Ran(none, one, runUuid, first) by {
        assert Chain([none, one], runUuid, now, first.acts);
      }
      assert Ran(one, one, runUuid, second) by {
        assert Chain([one], runUuid, now, second.acts);
      }
      assert Settled(one, one, runUuid, 1);
      assert one - {p} == none;
      assert Settled(one, none, runUuid, 0);
      hide Ran, Settled, SameOutside, Pending;
      assert Dealt(none, one, runUuid, first);
      assert Dealt(one, none, runUuid, second);
    }

    /** The file that a registration under the driver's own type goes to. */
    function OwnFile(runUuid: string, now: nat): Path
      requires types != []
      reads this
    {
      Path(ContextDirectory(now, runUuid), FileName(Version(types[0], store.processTimestamp, store.processSuffix)))
    }

    lemma NothingRecorded(scenarios: seq<Entry>, runUuid: string, files: Files)
      requires types != []
      ensures Recorded(scenarios, runUuid, [], [], [files]) && FailedOf([]) == []
    {
    }

    lemma RecordOneMore(scenarios: seq<Entry>, runUuid: string, worlds: seq<World>, telemetries: seq<Telemetry>,
                        states: seq<Files>, w: World, after: Files)
      requires types != [] && Recorded(scenarios, runUuid, worlds, telemetries, states)
      requires |worlds| < |scenarios| && scenarios[|worlds|].ConfigFile?
      requires SameOutside(states[|worlds|], after, runUuid, types[0], handler.scenarioType)
      requires Dealt(states[|worlds|], after, runUuid, w)
      ensures Recorded(scenarios, runUuid, worlds + [w],
                       telemetries + [Telemetry(scenarios[|worlds|].path, types[0], Status(RunOf(w)))],
                       states + [after])
    {
      hide SameOutside, Dealt, Status;
    }

    /** `run_scenarios`. `raised` says that an exception left the method, which then returns nothing;
        `failed` and the record are those reached. */
    method RunScenarios(runUuid: string, scenarios: seq<Entry>, world: nat -> World)
        returns (failed: seq<Entry>, telemetries: seq<Telemetry>, raised: bool,
                 ghost worlds: seq<World>, ghost states: seq<Files>)
      requires types != [] && store.Valid() && handler.context == None
      modifies store`files, store`folders, handler`context
      ensures store.Valid() && handler.context == None
      ensures Recorded(scenarios, runUuid, worlds, telemetries, states)
      ensures states[0] == old(store.files)
      ensures SameOutside(old(store.files), store.files, runUuid, types[0], handler.scenarioType)
      ensures |worlds| <= Processed(scenarios) && (!raised ==> |worlds| == Processed(scenarios))
      ensures forall i :: 0 <= i < |worlds| ==> worlds[i] == world(i)
      ensures states[|worlds|] == store.files
              || (raised && |worlds| < Processed(scenarios)
                   && CutShort(states[|worlds|], store.files, runUuid, world(|worlds|)))
      // it raises only if something raises out of its hands
      ensures (&& (forall i: nat :: i < Processed(scenarios) && !world(i).missing ==>
                     && !world(i).parametersFail && !world(i).result.Interrupted? && !world(i).publishFails
                     && forall p :: world(i).completes(p) && world(i).renames(p) && world(i).removable(p))
               && !exists n :: n in store.plain && IsContextDirectory(n, Some(runUuid)))
              ==> !raised
      ensures failed == FailedOf(telemetries)
                        + (if !raised && |worlds| < |scenarios| then [scenarios[|worlds|]] else [])
    {
      hide IsVersionFile, IsContextDirectory, Attempted, FoundPending, ListingOf, Touchable, Pending, SameOutside,
        Settled, Ran, CutShort;
      hide Processed, Recorded, FailedOf, Status;
      NothingRecorded(scenarios, runUuid, store.files);
      failed, telemetries, raised, worlds, states := [], [], false, [], [store.files];
      SameOutsideRefl(store.files, runUuid, types[0], handler.scenarioType);
      for i := 0 to |scenarios|
        invariant store.Valid() && handler.context == None
        invariant SameOutside(old(store.files), store.files, runUuid, types[0], handler.scenarioType)
        invariant |worlds| == i && !raised && i <= Processed(scenarios)
        invariant forall j :: 0 <= j < i ==> worlds[j] == world(j)
        invariant Recorded(scenarios, runUuid, worlds, telemetries, states)
        invariant |states| == i + 1 && states[0] == old(store.files) && states[i] == store.files
        invariant failed == FailedOf(telemetries)
      {
        if scenarios[i].SubList? {
          failed := failed + [scenarios[i]];
          return;
        }
        ghost var before := store.files;
        var w := world(i);
        if !w.missing {
          var ok;
          ghost var afterRun;
          ok, afterRun := RunOne(runUuid, w);
          SameOutsideTrans(old(store.files), before, store.files, runUuid, types[0], handler.scenarioType);
          if !ok {
            raised := true;
            return;
          }
          assert Dealt(before, store.files, runUuid, w);
        } else {
          SameOutsideRefl(store.files, runUuid, types[0], handler.scenarioType);
        }
        RecordOneMore(scenarios, runUuid, worlds, telemetries, states, w, store.files);
        var status := Status(RunOf(w));
        if status != 0 {
          failed := failed + [scenarios[i]];
        }
        var entry := Telemetry(scenarios[i].path, types[0], status);
        FailedOfSnoc(telemetries, entry);
        telemetries, worlds, states := telemetries + [entry], worlds + [w], states + [store.files];
        if !w.missing && w.publishFails {
          raised := true;
          return;
        }
      }
    }
  }

  /** One call leaves the content of a pending file in place or under its mark. */
  lemma OneAttempt(before: Files, after: Files, a: Attempt, uuid: Option<string>, t: Option<string>, p: Path)
    requires Attempted(before, after, a) && FoundPending(before, a, uuid, t) && p in Pending(before, uuid, t)
    ensures if p in Elements(a.marked)
            then p !in after && Executed(p) in after && after[Executed(p)] == before[p]
            else p in after && after[p] == before[p]
    ensures a.outcome.Disabled? ==> a.marked == []
    ensures a.outcome.Clean? ==> p in Elements(a.marked)
  {
    hide IsVersionFile, IsContextDirectory, MarkAll;
    AttemptEffect(before, after, a, uuid, t);
    PendingIsVersionFile(before, uuid, t, p);
    if p in Elements(a.marked) {
      MarkAllMoves(before, a.marked, p);
    } else {
      MarkingKeeps(before, a.marked, p);
    }
  }

  lemma FailedOfSnoc(telemetries: seq<Telemetry>, t: Telemetry)
    ensures FailedOf(telemetries + [t]) ==
            FailedOf(telemetries) + (if t.exitStatus != 0 then [ConfigFile(t.scenario)] else [])
  {
    assert (telemetries + [t])[..|telemetries|] == telemetries;
  }

  lemma DisabledDoesNothing(before: Files, after: Files, a: Attempt)
    requires Attempted(before, after, a) && a.outcome.Disabled?
    ensures after == before
  {
  }

  lemma RemovalStaysInside(before: Files, removed: set<Path>, uuid: string, t: string, h: string)
    requires removed <= Pending(before, Some(uuid), Some(t))
    ensures SameOutside(before, before - removed, uuid, t, h)
  {
    hide IsVersionFile, IsContextDirectory;
  }

  lemma SameOutsideRefl(files: Files, uuid: string, t: string, h: string)
    ensures SameOutside(files, files, uuid, t, h)
  {
  }

  lemma SameOutsideTrans(a: Files, b: Files, c: Files, uuid: string, t: string, h: string)
    requires SameOutside(a, b, uuid, t, h) && SameOutside(b, c, uuid, t, h)
    ensures SameOutside(a, c, uuid, t, h)
  {
    hide IsVersionFile, IsContextDirectory;
  }
}
