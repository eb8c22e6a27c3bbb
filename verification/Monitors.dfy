// The main loop and the health-check threads: iterating, stopping, joining and draining.

module Monitors {
  import opened Options

  /** Where a worker thread stands: about to test the loop condition, in a pass over its targets
      (with the sleep after it), about to put its batch on the queue, or ended. */
  datatype WorkerPc = Testing | InPass | Publishing | Ended

  /** A worker; `skipped` says that its configuration made it return before monitoring, `died` that an
      exception ended it, and `passes` counts the passes it has begun. */
  datatype Worker = Worker(pc: WorkerPc, skipped: bool, died: bool, passes: nat)

  /** A plugin and its threads. `limit` is None for an endless run. One worker and a single
      `get_nowait` if `single`, else any number of workers and a drain of the whole queue. The
      queues hold the number of the worker whose batch it is. */
  datatype Plugin = Plugin(single: bool, limit: Option<nat>, current: nat, stopped: bool,
                           workers: seq<Worker>, queue: seq<nat>, drained: seq<nat>)

  /** Where the main thread stands; each value names the step it is about to take. */
  datatype MainPc =
    | Iterating
    | Incrementing(plugin: nat)
    | Stopping(plugin: nat)
    | Joining(plugin: nat, worker: nat)
    | Draining(plugin: nat)
    | Finished

  datatype State = State(main: MainPc, plugins: seq<Plugin>)

  datatype Move =
    | Work(plugin: nat, worker: nat)   // one step of a worker
    | Crash(plugin: nat, worker: nat)  // an exception that nothing catches ends a pass and the thread
    | Iterate                          // the main loop completes an iteration
    | Leave                            // the main loop ends: exhausted, STOP, or alerts
    | Proceed                          // the main thread takes its ordinary step

  // ---- Steps

  predicate Continues(p: Plugin)
  {
    (p.limit.None? || p.current < p.limit.value) && !p.stopped
  }

  function WorkerNext(p: Plugin, w: nat): Option<Plugin>
    requires w < |p.workers|
  {
    var k := p.workers[w];
    match k.pc
    case Testing =>
      if Continues(p) then Some(p.(workers := p.workers[w := k.(pc := InPass, passes := k.passes + 1)]))
      else Some(p.(workers := p.workers[w := k.(pc := Publishing)]))
    case InPass => Some(p.(workers := p.workers[w := k.(pc := Testing)]))
    case Publishing => Some(p.(workers := p.workers[w := k.(pc := Ended)], queue := p.queue + [w]))
    case Ended => None
  }

  /** A thread that dies in a pass publishes nothing. */
  function WorkerDies(p: Plugin, w: nat): Option<Plugin>
    requires w < |p.workers|
  {
    var k := p.workers[w];
    if k.pc.InPass? then Some(p.(workers := p.workers[w := k.(pc := Ended, died := true)])) else None
  }

  function Take(p: Plugin): Plugin
    requires p.queue != []
  {
    p.(drained := p.drained + [p.queue[0]], queue := p.queue[1..])
  }

  function MainNext(s: State): Option<State>
  {
    var n := |s.plugins|;
    match s.main
    case Iterating => None
    case Incrementing(p) =>
      if p >= n then Some(s.(main := Iterating))
      else Some(State(Incrementing(p + 1), s.plugins[p := s.plugins[p].(current := s.plugins[p].current + 1)]))
    case Stopping(p) =>
      if p >= n then Some(s.(main := Joining(0, 0)))
      else Some(State(Stopping(p + 1), s.plugins[p := s.plugins[p].(stopped := true)]))
    case Joining(p, w) =>
      if p >= n then Some(s.(main := Finished))
      else if w >= |s.plugins[p].workers| then Some(s.(main := Draining(p)))
      // join blocks until the thread has ended
      else if s.plugins[p].workers[w].pc.Ended? then Some(s.(main := Joining(p, w + 1)))
      else None
    case Draining(p) =>
      if p >= n then None
      else if s.plugins[p].queue == [] then Some(s.(main := Joining(p + 1, 0)))
      else
        var taken := s.plugins[p := Take(s.plugins[p])];
        if s.plugins[p].single then Some(State(Joining(p + 1, 0), taken)) else Some(State(s.main, taken))
    case Finished => None
  }

  function Next(s: State, m: Move): Option<State>
  {
    match m
    case Work(p, w) =>
      if p < |s.plugins| && w < |s.plugins[p].workers| then
        match WorkerNext(s.plugins[p], w)
        case None => None
        case Some(p') => Some(s.(plugins := s.plugins[p := p']))
      else None
    case Crash(p, w) =>
      if p < |s.plugins| && w < |s.plugins[p].workers| then
        match WorkerDies(s.plugins[p], w)
        case None => None
        case Some(p') => Some(s.(plugins := s.plugins[p := p']))
      else None
    case Iterate => if s.main.Iterating? then Some(s.(main := Incrementing(0))) else None
    case Leave => if s.main.Iterating? then Some(s.(main := Stopping(0))) else None
    case Proceed => MainNext(s)
  }

  predicate Initial(s: State)
  {
    && s.main.Iterating?
    && forall p :: 0 <= p < |s.plugins| ==>
         var g := s.plugins[p];
         && g.current == 0 && !g.stopped && g.queue == [] && g.drained == []
         && (g.single ==> |g.workers| == 1)
         && forall w :: 0 <= w < |g.workers| ==>
              g.workers[w].passes == 0 && !g.workers[w].died
                && g.workers[w].pc == (if g.workers[w].skipped then Ended else Testing)
  }

  ghost predicate Run(run: seq<State>, moves: seq<Move>)
  {
    && |run| == |moves| + 1 && Initial(run[0])
    && forall i :: 0 <= i < |moves| ==> Next(run[i], moves[i]) == Some(run[i + 1])
  }

  // ---- Invariants

  /** Every batch put so far, in order, whether still queued or drained. */
  function Put(p: Plugin): seq<nat> { p.drained + p.queue }

  predicate HasPublished(k: Worker) { k.pc.Ended? && !k.skipped && !k.died }

  ghost predicate PluginOk(p: Plugin)
  {
    && (p.single ==> |p.workers| == 1)
    && (forall w :: 0 <= w < |p.workers| && (p.workers[w].skipped || p.workers[w].died) ==> p.workers[w].pc.Ended?)
    && (forall w: nat :: w in Put(p) <==> w < |p.workers| && HasPublished(p.workers[w]))
    && (forall i, j :: 0 <= i < j < |Put(p)| ==> Put(p)[i] != Put(p)[j])
  }

  predicate AllEnded(p: Plugin)
  {
    forall w :: 0 <= w < |p.workers| ==> p.workers[w].pc.Ended?
  }

  predicate Settled(p: Plugin) { AllEnded(p) && p.queue == [] }

  predicate AfterStop(main: MainPc) { main.Joining? || main.Draining? || main.Finished? }

  predicate StoppedFrom(s: State)
  {
    && (AfterStop(s.main) ==> forall p :: 0 <= p < |s.plugins| ==> s.plugins[p].stopped)
    && (s.main.Stopping? ==> forall p :: 0 <= p < s.main.plugin && p < |s.plugins| ==> s.plugins[p].stopped)
  }

  predicate JoinedUpTo(s: State)
  {
    match s.main
    case Joining(p, w) =>
      && p <= |s.plugins|
      && (forall q :: 0 <= q < p ==> Settled(s.plugins[q]))
      && (if p == |s.plugins| then w == 0
          else w <= |s.plugins[p].workers| && forall k :: 0 <= k < w ==> s.plugins[p].workers[k].pc.Ended?)
    case Draining(p) =>
      && p < |s.plugins|
      && (forall q :: 0 <= q < p ==> Settled(s.plugins[q]))
      && AllEnded(s.plugins[p])
    case Finished => forall q :: 0 <= q < |s.plugins| ==> Settled(s.plugins[q])
    case _ => true
  }

  ghost predicate Inv(s: State)
  {
    && (forall p :: 0 <= p < |s.plugins| ==> PluginOk(s.plugins[p]))
    && StoppedFrom(s) && JoinedUpTo(s)
  }

  lemma WorkerKeeps(p: Plugin, w: nat)
    requires PluginOk(p) && w < |p.workers| && WorkerNext(p, w).Some?
    ensures PluginOk(WorkerNext(p, w).value)
    ensures !Settled(p)
  {
    var p' := WorkerNext(p, w).value;
    if p.workers[w].pc.Publishing? {
      assert w !in Put(p);
      assert Put(p') == Put(p) + [w];
    } else {
      assert Put(p') == Put(p);
    }
  }

  lemma DyingKeeps(p: Plugin, w: nat)
    requires PluginOk(p) && w < |p.workers| && WorkerDies(p, w).Some?
    ensures PluginOk(WorkerDies(p, w).value)
    ensures !Settled(p)
  {
    assert Put(WorkerDies(p, w).value) == Put(p);
  }

  lemma TwoZerosRepeat(xs: seq<nat>)
    requires forall i :: 0 <= i < |xs| ==> xs[i] == 0
    ensures |xs| >= 2 ==> exists i, j :: 0 <= i < j < |xs| && xs[i] == xs[j]
  {
    if |xs| >= 2 {
      assert xs[0] == xs[1];
    }
  }

  lemma TakeKeeps(p: Plugin)
    requires PluginOk(p) && p.queue != []
    ensures PluginOk(Take(p))
    ensures p.single ==> Take(p).queue == []
  {
    assert Put(Take(p)) == Put(p);
    if p.single {
      var all := Put(p);
      forall i | 0 <= i < |all| ensures all[i] == 0 {
        assert all[i] in Put(p);
      }
      TwoZerosRepeat(all);
    }
  }

  lemma NextKeeps(s: State, m: Move)
    requires Inv(s) && Next(s, m).Some?
    ensures Inv(Next(s, m).value)
  {
    PluginsKeep(s, m);
    MainKeeps(s, m);
  }

  lemma PluginsKeep(s: State, m: Move)
    requires (forall p :: 0 <= p < |s.plugins| ==> PluginOk(s.plugins[p])) && Next(s, m).Some?
    ensures forall p :: 0 <= p < |Next(s, m).value.plugins| ==> PluginOk(Next(s, m).value.plugins[p])
  {
    var s' := Next(s, m).value;
    match m
    case Work(p, w) =>
      WorkerKeeps(s.plugins[p], w);
    case Crash(p, w) =>
      DyingKeeps(s.plugins[p], w);
    case Proceed =>
      if s.main.Draining? && s.plugins[s.main.plugin].queue != [] {
        TakeKeeps(s.plugins[s.main.plugin]);
      } else {
        forall p | 0 <= p < |s'.plugins| ensures PluginOk(s'.plugins[p]) {
          assert Put(s'.plugins[p]) == Put(s.plugins[p]);
        }
      }
    case _ =>
  }

  lemma MainKeeps(s: State, m: Move)
    requires Inv(s) && Next(s, m).Some?
    ensures StoppedFrom(Next(s, m).value) && JoinedUpTo(Next(s, m).value)
  {
    hide PluginOk;
    match m
    case Work(p, w) => WorkerKeeps(s.plugins[p], w);
    case Crash(p, w) => DyingKeeps(s.plugins[p], w);
    case Proceed =>
      if s.main.Draining? && s.plugins[s.main.plugin].queue != [] {
        TakeKeeps(s.plugins[s.main.plugin]);
      }
    case _ =>
  }

  lemma InitialInv(s: State)
    requires Initial(s)
    ensures Inv(s)
  {
    forall p | 0 <= p < |s.plugins| ensures PluginOk(s.plugins[p]) {
      assert Put(s.plugins[p]) == [];
    }
  }

  lemma {:induction false} RunKeeps(run: seq<State>, moves: seq<Move>, i: nat)
    requires Run(run, moves) && i < |run|
    ensures Inv(run[i])
  {
    if i > 0 {
      hide Initial, Inv;
      RunKeeps(run, moves, i - 1);
      assert Next(run[i - 1], moves[i - 1]) == Some(run[i]);
      NextKeeps(run[i - 1], moves[i - 1]);
    } else {
      InitialInv(run[0]);
    }
  }

  /** When the main thread is done, each plugin's drain holds the batch of every worker that was
      neither skipped nor died exactly once and nothing else, and every worker has ended. */
  lemma DrainIsExact(run: seq<State>, moves: seq<Move>, p: nat)
    requires Run(run, moves) && run[|moves|].main.Finished? && p < |run[|moves|].plugins|
    ensures var g := run[|moves|].plugins[p];
            && AllEnded(g)
            && (forall w: nat :: w in g.drained <==> w < |g.workers| && !g.workers[w].skipped && !g.workers[w].died)
            && (forall i, j :: 0 <= i < j < |g.drained| ==> g.drained[i] != g.drained[j])
  {
    RunKeeps(run, moves, |moves|);
    var g := run[|moves|].plugins[p];
    assert Settled(g) && Put(g) == g.drained;
  }

  // ---- After the stop

  function WorkLeft(k: Worker): nat
  {
    match k.pc
    case Ended => 0
    case Publishing => 1
    case Testing => 2
    case InPass => 3
  }

  function WorkersLeft(workers: seq<Worker>): nat
  {
    if workers == [] then 0 else WorkLeft(workers[0]) + WorkersLeft(workers[1..])
  }

  /** Steps a plugin can still cause: its workers' own, each put that has to be drained, and the
      joins and the drain of the main thread. */
  function PluginLeft(p: Plugin): nat
  {
    2 * WorkersLeft(p.workers) + |p.queue| + |p.workers| + 2
  }

  function PluginsLeft(plugins: seq<Plugin>): nat
  {
    if plugins == [] then 0 else PluginLeft(plugins[0]) + PluginsLeft(plugins[1..])
  }

  /** How far the main thread has got, in the same units. */
  function MainDone(s: State): int
  {
    match s.main
    case Joining(p, w) => Passed(s.plugins, p) + (if p < |s.plugins| then w else 0)
    case Draining(p) => Passed(s.plugins, p) + (if p < |s.plugins| then |s.plugins[p].workers| + 1 else 0)
    case Finished => Passed(s.plugins, |s.plugins|) + 1
    case _ => 0
  }

  function Passed(plugins: seq<Plugin>, p: nat): int
  {
    if p == 0 then 0
    else Passed(plugins, p - 1) + (if p - 1 < |plugins| then |plugins[p - 1].workers| + 2 else 0)
  }

  function Measure(s: State): int { PluginsLeft(s.plugins) + 1 - MainDone(s) }

  lemma {:induction false} WorkersUpdate(workers: seq<Worker>, w: nat, k: Worker)
    requires w < |workers|
    ensures WorkersLeft(workers[w := k]) == WorkersLeft(workers) - WorkLeft(workers[w]) + WorkLeft(k)
  {
    if w > 0 {
      WorkersUpdate(workers[1..], w - 1, k);
      assert workers[w := k][1..] == workers[1..][w - 1 := k];
    }
  }

  lemma {:induction false} PluginsUpdate(plugins: seq<Plugin>, p: nat, g: Plugin)
    requires p < |plugins|
    ensures PluginsLeft(plugins[p := g]) == PluginsLeft(plugins) - PluginLeft(plugins[p]) + PluginLeft(g)
  {
    if p > 0 {
      PluginsUpdate(plugins[1..], p - 1, g);
      assert plugins[p := g][1..] == plugins[1..][p - 1 := g];
    }
  }

  lemma {:induction false} PassedSame(plugins: seq<Plugin>, plugins': seq<Plugin>, p: nat)
    requires |plugins| == |plugins'|
    requires forall q :: 0 <= q < |plugins| ==> |plugins[q].workers| == |plugins'[q].workers|
    ensures Passed(plugins, p) == Passed(plugins', p)
  {
    if p > 0 { PassedSame(plugins, plugins', p - 1); }
  }

  lemma {:induction false} PassedBelow(s: State, p: nat)
    requires p <= |s.plugins|
    ensures Passed(s.plugins, p) + PluginsLeft(s.plugins[p..]) <= PluginsLeft(s.plugins)
  {
    if p > 0 {
      PassedBelow(s, p - 1);
      assert s.plugins[p - 1..][1..] == s.plugins[p..] && s.plugins[p - 1..][0] == s.plugins[p - 1];
    } else {
      assert s.plugins[0..] == s.plugins;
    }
  }

  lemma MeasureIsNatural(s: State)
    requires Inv(s) && AfterStop(s.main)
    ensures Measure(s) >= 0
  {
    var p := match s.main case Joining(p, _) => p case Draining(p) => p case _ => |s.plugins|;
    PassedBelow(s, p);
    if p < |s.plugins| {
      assert s.plugins[p..][0] == s.plugins[p];
    }
  }

  /** Once stop_all has run, every step of any thread brings the end nearer. */
  lemma StepsRunOut(s: State, m: Move)
    requires Inv(s) && AfterStop(s.main) && Next(s, m).Some?
    ensures AfterStop(Next(s, m).value.main) && Measure(Next(s, m).value) < Measure(s)
  {
    if m.Work? || m.Crash? {
      WorkRunsOut(s, m);
    } else {
      ProceedRunsOut(s);
    }
  }

  /** A worker's step, or its death, leaves its plugin less to do. */
  lemma WorkerRunsOut(g: Plugin, w: nat, g': Plugin)
    requires w < |g.workers| && (WorkerNext(g, w) == Some(g') || WorkerDies(g, w) == Some(g'))
    requires !Continues(g)
    ensures |g'.workers| == |g.workers| && PluginLeft(g') < PluginLeft(g)
  {
    WorkersUpdate(g.workers, w, g'.workers[w]);
  }

  lemma WorkRunsOut(s: State, m: Move)
    requires StoppedFrom(s) && AfterStop(s.main) && (m.Work? || m.Crash?) && Next(s, m).Some?
    ensures Measure(Next(s, m).value) < Measure(s)
  {
    hide PluginsLeft, PluginLeft, MainDone, Passed, WorkerNext, WorkerDies;
    var s' := Next(s, m).value;
    WorkerRunsOut(s.plugins[m.plugin], m.worker, s'.plugins[m.plugin]);
    PluginsUpdate(s.plugins, m.plugin, s'.plugins[m.plugin]);
    SameDone(s, s');
  }

  lemma ProceedRunsOut(s: State)
    requires JoinedUpTo(s) && AfterStop(s.main) && MainNext(s).Some?
    ensures AfterStop(MainNext(s).value.main) && Measure(MainNext(s).value) < Measure(s)
  {
    var s' := MainNext(s).value;
    if s.main.Draining? && s.plugins[s.main.plugin].queue != [] {
      var p := s.main.plugin;
      PluginsUpdate(s.plugins, p, s'.plugins[p]);
      PassedSame(s.plugins, s'.plugins, p);
      PassedSame(s.plugins, s'.plugins, p + 1);
    }
  }

  lemma SameDone(s: State, s': State)
    requires s.main == s'.main && |s.plugins| == |s'.plugins|
    requires forall q :: 0 <= q < |s.plugins| ==> |s.plugins[q].workers| == |s'.plugins[q].workers|
    ensures MainDone(s) == MainDone(s')
  {
    match s.main
    case Joining(p, _) => PassedSame(s.plugins, s'.plugins, p);
    case Draining(p) => PassedSame(s.plugins, s'.plugins, p);
    case Finished => PassedSame(s.plugins, s'.plugins, |s.plugins|);
    case _ =>
  }

  /** No join waits for ever: until the main thread is done some thread can move, and the thread
      a join waits for is one of them. */
  lemma SomeoneCanMove(s: State)
    requires Inv(s) && AfterStop(s.main) && !s.main.Finished?
    ensures Next(s, Proceed).Some? ||
            (s.main.Joining? && Next(s, Work(s.main.plugin, s.main.worker)).Some?)
  {
  }

  /** Under every interleaving the run ends, within a bound fixed when the stop was complete;
      and where it ends, the main thread has joined and drained everything. */
  lemma {:induction false} StopLeadsToFinish(run: seq<State>, moves: seq<Move>, i: nat)
    requires Run(run, moves) && i < |run| && AfterStop(run[i].main)
    ensures |moves| - i <= Measure(run[i])
    ensures AfterStop(run[|moves|].main)
    ensures (forall m :: Next(run[|moves|], m).None?) ==> run[|moves|].main.Finished?
    decreases |run| - i
  {
    RunKeeps(run, moves, i);
    MeasureIsNatural(run[i]);
    if i == |moves| {
      if !run[i].main.Finished? {
        SomeoneCanMove(run[i]);
      }
    } else {
      assert Next(run[i], moves[i]) == Some(run[i + 1]);
      StepsRunOut(run[i], moves[i]);
      StopLeadsToFinish(run, moves, i + 1);
    }
  }

  /** A worker of a stopped plugin begins no further pass: it ends after the one it is in. */
  lemma {:induction false} NoFurtherPass(run: seq<State>, moves: seq<Move>, i: nat, j: nat, p: nat, w: nat)
    requires Run(run, moves) && i <= j < |run|
    requires p < |run[i].plugins| && w < |run[i].plugins[p].workers| && run[i].plugins[p].stopped
    ensures p < |run[j].plugins| && w < |run[j].plugins[p].workers| && run[j].plugins[p].stopped
    ensures run[j].plugins[p].workers[w].passes == run[i].plugins[p].workers[w].passes
    ensures !run[i].plugins[p].workers[w].pc.InPass? ==> !run[j].plugins[p].workers[w].pc.InPass?
    decreases j - i
  {
    if i < j {
      NoFurtherPass(run, moves, i, j - 1, p, w);
      assert Next(run[j - 1], moves[j - 1]) == Some(run[j]);
    }
  }

  /** The counters agree with the main loop: between iterations every plugin has counted each
      completed iteration once, so a worker with a limit goes on exactly while iterations are
      due and nobody has said stop. */
  ghost predicate Counted(s: State, completed: nat)
  {
    forall p :: 0 <= p < |s.plugins| ==>
      s.plugins[p].current ==
        if s.main.Incrementing? && p >= s.main.plugin then completed - 1 else completed
  }

  function Iterations(moves: seq<Move>): nat
  {
    if moves == [] then 0
    else Iterations(moves[..|moves| - 1]) + (if moves[|moves| - 1].Iterate? then 1 else 0)
  }

  lemma {:induction false} CountersFollowLoop(run: seq<State>, moves: seq<Move>)
    requires Run(run, moves)
    ensures Counted(run[|moves|], Iterations(moves))
  {
    if moves != [] {
      var n := |moves| - 1;
      CountersFollowLoop(run[..n + 1], moves[..n]);
      assert Next(run[n], moves[n]) == Some(run[n + 1]);
      hide Run, Iterations, WorkerNext, WorkerDies, Take;
      CountingStep(run[n], moves[n], Iterations(moves[..n]));
    }
  }

  lemma CountingStep(s: State, m: Move, completed: nat)
    requires Counted(s, completed) && Next(s, m).Some?
    ensures Counted(Next(s, m).value, completed + if m.Iterate? then 1 else 0)
  {
  }

  /** A worker begins a pass exactly when it tests its loop condition, nobody has said stop, and its
      plugin has counted fewer iterations than its limit, if it has one; else the test ends its loop. */
  lemma PassBegins(run: seq<State>, moves: seq<Move>, i: nat, p: nat, w: nat)
    requires Run(run, moves) && i < |moves| && moves[i] == Work(p, w)
    ensures p < |run[i].plugins| == |run[i + 1].plugins|
    ensures w < |run[i].plugins[p].workers| == |run[i + 1].plugins[p].workers|
    ensures var g, k, k' := run[i].plugins[p], run[i].plugins[p].workers[w], run[i + 1].plugins[p].workers[w];
            && (k'.pc.InPass? <==>
                  k.pc.Testing? && !g.stopped && (g.limit == None || g.current < g.limit.value))
            && k'.passes == (if k'.pc.InPass? then k.passes + 1 else k.passes)
            && (k.pc.Testing? && !k'.pc.InPass? ==> k'.pc.Publishing?)
  {
    assert Next(run[i], moves[i]) == Some(run[i + 1]);
  }

  /** So it begins passes while the main loop has completed fewer iterations than the limit, and none once
      the limit is reached and counted. */
  lemma LimitIsKept(run: seq<State>, moves: seq<Move>, i: nat, p: nat, w: nat)
    requires Run(run, moves) && i < |moves| && moves[i] == Work(p, w)
    requires p < |run[i].plugins| && run[i].plugins[p].limit.Some?
    ensures w < |run[i].plugins[p].workers| && p < |run[i + 1].plugins| && w < |run[i + 1].plugins[p].workers|
    ensures var limit, completed := run[i].plugins[p].limit.value, Iterations(moves[..i]);
            var k, k' := run[i].plugins[p].workers[w], run[i + 1].plugins[p].workers[w];
            && (k'.pc.InPass? ==> completed <= limit && (run[i].main.Incrementing? || completed < limit))
            && (k.pc.Testing? && !run[i].plugins[p].stopped && completed < limit ==> k'.pc.InPass?)
  {
    PassBegins(run, moves, i, p, w);
    CountersFollowLoop(run[..i + 1], moves[..i]);
    assert Counted(run[i], Iterations(moves[..i]));
  }

  // ---- The main thread between iterations and up to the joins

  /** The ordinary steps of the main thread. */
  function Proceeds(moves: seq<Move>): nat
  {
    if moves == [] then 0
    else Proceeds(moves[..|moves| - 1]) + (if moves[|moves| - 1].Proceed? then 1 else 0)
  }

  /** Whatever the workers do, once the main loop has ended the main thread tells one plugin after another
      to stop, and goes on to the joins with one step more than there are plugins. */
  lemma {:induction false} StopIsReached(run: seq<State>, moves: seq<Move>, i: nat, j: nat)
    requires Run(run, moves) && i < j <= |moves| && moves[i].Leave?
    ensures |run[j].plugins| == |run[i].plugins|
    ensures if Proceeds(moves[i + 1..j]) <= |run[i].plugins|
            then run[j].main == Stopping(Proceeds(moves[i + 1..j])) else AfterStop(run[j].main)
    decreases j
  {
    hide WorkerNext, WorkerDies, Take, Initial;
    assert Next(run[j - 1], moves[j - 1]) == Some(run[j]);
    if i + 1 < j {
      StopIsReached(run, moves, i, j - 1);
      assert moves[i + 1..j][..j - i - 2] == moves[i + 1..j - 1];
    }
  }

  /** After an iteration it counts the iteration at one plugin after another, and is back in its loop after
      as many steps. */
  lemma {:induction false} IterationIsCounted(run: seq<State>, moves: seq<Move>, i: nat, j: nat)
    requires Run(run, moves) && i < j <= |moves| && moves[i].Iterate?
    requires Proceeds(moves[i + 1..j]) <= |run[i].plugins|
             || (j > i + 1 && moves[j - 1].Proceed? && Proceeds(moves[i + 1..j]) == |run[i].plugins| + 1)
    ensures |run[j].plugins| == |run[i].plugins|
    ensures run[j].main == if Proceeds(moves[i + 1..j]) <= |run[i].plugins|
                           then Incrementing(Proceeds(moves[i + 1..j])) else Iterating
    decreases j
  {
    hide WorkerNext, WorkerDies, Take, Initial;
    assert Next(run[j - 1], moves[j - 1]) == Some(run[j]);
    if i + 1 < j {
      assert moves[i + 1..j][..j - i - 2] == moves[i + 1..j - 1];
      IterationIsCounted(run, moves, i, j - 1);
    }
  }

  /** Nobody says stop before the main loop has ended. */
  lemma {:induction false} StoppedOnlyAfterLeave(run: seq<State>, moves: seq<Move>, i: nat)
    requires Run(run, moves) && i < |run|
    ensures (run[i].main.Stopping? || AfterStop(run[i].main)) || forall p :: 0 <= p < |run[i].plugins| ==>
              !run[i].plugins[p].stopped
    ensures run[i].main.Stopping? || AfterStop(run[i].main) ==> exists k :: 0 <= k < i && moves[k].Leave?
  {
    if i > 0 {
      StoppedOnlyAfterLeave(run, moves, i - 1);
      assert Next(run[i - 1], moves[i - 1]) == Some(run[i]);
    }
  }
}
