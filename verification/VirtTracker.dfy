// The VM health monitor of one worker: check results are compressed into periods.

module VirtTracker {
  import opened Lists
  import opened Options

  type Clock = int

  datatype Status = Status(ssh: bool, ready: bool)

  predicate Healthy(s: Status) { s.ssh && s.ready }

  datatype CheckType = Both | SshAccess | VmiReady | AllHealthy

  /** `_compute_check_type`: the discriminator tells the two check results apart. */
  function ComputeCheckType(s: Status): (c: CheckType)
    ensures c.AllHealthy? <==> Healthy(s)
    ensures c.Both? || c.SshAccess? <==> !s.ssh
    ensures c.Both? || c.VmiReady? <==> !s.ready
  {
    if !s.ssh && !s.ready then Both
    else if !s.ssh then SshAccess
    else if !s.ready then VmiReady
    else AllHealthy
  }

  /** One check of one VM. `ssh` is None when the SSH check raised. `closedAt` and `openedAt` are
      what the clock says if this check closes an entry and then opens one; `node` and `newIp`
      are the addresses the VM has after the check. */
  datatype Reading = Reading(name: string, ssh: Option<bool>, ready: bool, node: string, newIp: string,
                             closedAt: Clock, openedAt: Clock)

  function StatusOf(r: Reading): Status
  {
    Status(r.ssh.Some? && r.ssh.value, r.ready)
  }

  datatype Entry = Entry(name: string, status: Status, checkType: CheckType, node: string, newIp: string, start: Clock)

  datatype Record = Record(name: string, status: Status, checkType: CheckType, node: string, newIp: string,
                           start: Clock, end: Clock, duration: int)

  function Open(r: Reading): Entry
  {
    Entry(r.name, StatusOf(r), ComputeCheckType(StatusOf(r)), r.node, r.newIp, r.openedAt)
  }

  function Stamp(e: Entry, end: Clock): Record
  {
    Record(e.name, e.status, e.checkType, e.node, e.newIp, e.start, end, end - e.start)
  }

  /** What `only_failures` lets through. */
  function Kept(only: bool, r: Record): seq<Record>
  {
    if only && Healthy(r.status) then [] else [r]
  }

  // ---- Run-length encoding of the checks of one VM

  /** The readings cut into maximal stretches of equal status. */
  function Runs(rs: seq<Reading>): seq<seq<Reading>>
  {
    if rs == [] then [] else Extend(Runs(rs[..|rs| - 1]), rs[|rs| - 1])
  }

  predicate Continues(runs: seq<seq<Reading>>, r: Reading)
  {
    runs != [] && runs[|runs| - 1] != [] && StatusOf(runs[|runs| - 1][0]) == StatusOf(r)
  }

  function Extend(runs: seq<seq<Reading>>, r: Reading): seq<seq<Reading>>
  {
    if Continues(runs, r) then runs[..|runs| - 1] + [runs[|runs| - 1] + [r]] else runs + [[r]]
  }

  function Flatten(runs: seq<seq<Reading>>): seq<Reading>
  {
    if runs == [] then [] else Flatten(runs[..|runs| - 1]) + runs[|runs| - 1]
  }

  predicate Uniform(run: seq<Reading>)
  {
    run != [] && forall j :: 0 <= j < |run| ==> StatusOf(run[j]) == StatusOf(run[0])
  }

  predicate Differ(run: seq<Reading>, next: seq<Reading>)
  {
    run != [] && next != [] && StatusOf(run[0]) != StatusOf(next[0])
  }

  /** A cut into nonempty stretches of one status each, neighbours differing. */
  ghost predicate Maximal(runs: seq<seq<Reading>>)
  {
    && (forall i :: 0 <= i < |runs| ==> Uniform(runs[i]))
    && (forall i :: 0 < i < |runs| ==> Differ(runs[i - 1], runs[i]))
  }

  lemma ExtendUniform(run: seq<Reading>, r: Reading)
    requires Uniform(run) && StatusOf(r) == StatusOf(run[0])
    ensures Uniform(run + [r]) && (run + [r])[0] == run[0]
  {
  }

  lemma ExtendKeeps(runs: seq<seq<Reading>>, r: Reading)
    requires Maximal(runs)
    ensures Maximal(Extend(runs, r)) && Extend(runs, r) != []
    ensures Flatten(Extend(runs, r)) == Flatten(runs) + [r]
  {
    var after, n := Extend(runs, r), |Extend(runs, r)| - 1;
    assert Flatten(after) == Flatten(after[..n]) + after[n];
    if Continues(runs, r) {
      ExtendUniform(runs[n], r);
      assert after[..n] == runs[..n];
      assert forall i :: 0 <= i < n ==> after[i] == runs[i];
    } else {
      assert after[..n] == runs;
      assert forall i :: 0 <= i < n ==> after[i] == runs[i];
    }
  }

  lemma {:induction false} RunsAreMaximal(rs: seq<Reading>)
    ensures Maximal(Runs(rs)) && Flatten(Runs(rs)) == rs
    ensures Runs(rs) == [] <==> rs == []
  {
    hide Runs, Maximal, Extend, Flatten;
    if rs == [] {
      NoRuns();
    } else {
      RunsAreMaximal(rs[..|rs| - 1]);
      RunsSnoc(rs[..|rs| - 1], rs[|rs| - 1]);
      ExtendKeeps(Runs(rs[..|rs| - 1]), rs[|rs| - 1]);
      assert rs == rs[..|rs| - 1] + [rs[|rs| - 1]];
    }
  }

  lemma NoRuns()
    ensures Runs([]) == [] && Maximal([]) && Flatten([]) == []
  {
  }

  lemma RunsSnoc(rs: seq<Reading>, r: Reading)
    ensures Runs(rs + [r]) == Extend(Runs(rs), r)
  {
    assert (rs + [r])[..|rs|] == rs;
  }

  lemma FlattenSnoc(runs: seq<seq<Reading>>, run: seq<Reading>)
    ensures Flatten(runs + [run]) == Flatten(runs) + run
  {
    assert (runs + [run])[..|runs|] == runs;
  }

  /** There is only one such cut. */
  lemma {:induction false} MaximalIsUnique(runs: seq<seq<Reading>>)
    requires Maximal(runs)
    ensures Runs(Flatten(runs)) == runs
    decreases |Flatten(runs)|
  {
    if runs != [] {
      hide Maximal, Flatten, Runs, Extend;
      var shorter, r := WithoutLast(runs);
      MaximalIsUnique(shorter);
      RunsSnoc(Flatten(shorter), r);
    }
  }

  /** A maximal cut without its last reading, which puts it back. */
  lemma WithoutLast(runs: seq<seq<Reading>>) returns (shorter: seq<seq<Reading>>, r: Reading)
    requires Maximal(runs) && runs != []
    ensures Maximal(shorter) && Flatten(runs) == Flatten(shorter) + [r] && Extend(shorter, r) == runs
  {
    hide Flatten;
    var n := |runs| - 1;
    var final := runs[n];
    var m := |final| - 1;
    r := final[m];
    assert Uniform(final);
    assert n > 0 ==> Differ(runs[n - 1], runs[n]);
    assert runs == runs[..n] + [final];
    FlattenSnoc(runs[..n], final);
    if m == 0 {
      shorter := runs[..n];
      assert final == [r];
    } else {
      assert final == final[..m] + [r];
      shorter := runs[..n] + [final[..m]];
      FlattenSnoc(runs[..n], final[..m]);
      assert forall i :: 0 <= i < n ==> shorter[i] == runs[i];
      assert Uniform(final[..m]);
      assert shorter[..n] == runs[..n];
    }
  }

  /** The record of a run that the reading `next` ended. */
  function Ended(run: seq<Reading>, next: Reading): Record
    requires run != []
  {
    var e := Open(run[0]);
    Stamp(if next.newIp != "" then e.(newIp := next.newIp) else e, next.closedAt)
  }

  /** The records of all runs but the last one. */
  function Closed(only: bool, runs: seq<seq<Reading>>): seq<Record>
    requires forall i :: 0 <= i < |runs| ==> runs[i] != []
  {
    if |runs| <= 1 then []
    else Closed(only, runs[..|runs| - 1]) + Kept(only, Ended(runs[|runs| - 2], runs[|runs| - 1][0]))
  }

  /** The records of a VM whose checks form `runs`, when monitoring stops at `end`. */
  function Periods(only: bool, runs: seq<seq<Reading>>, end: Clock): seq<Record>
    requires forall i :: 0 <= i < |runs| ==> runs[i] != []
  {
    if runs == [] then []
    else Closed(only, runs) + Kept(only, Stamp(Open(runs[|runs| - 1][0]), end))
  }

  // ---- The tracker as the worker keeps it

  /** `vm_tracker` with its insertion order, and `virt_check_telemetry`. */
  datatype Tracking = Tracking(entries: map<string, Entry>, order: seq<string>, telemetry: seq<Record>)

  function Close(only: bool, t: Tracking, name: string, newIp: string, end: Clock): Tracking
    requires name in t.entries
  {
    var e := if newIp != "" then t.entries[name].(newIp := newIp) else t.entries[name];
    Tracking(t.entries - {name}, Without(t.order, name), t.telemetry + Kept(only, Stamp(e, end)))
  }

  function Insert(t: Tracking, r: Reading): Tracking
  {
    t.(entries := t.entries[r.name := Open(r)], order := t.order + [r.name])
  }

  function Observe(only: bool, t: Tracking, r: Reading): Tracking
  {
    if r.name !in t.entries then Insert(t, r)
    else if StatusOf(r) != t.entries[r.name].status then Insert(Close(only, t, r.name, r.newIp, r.closedAt), r)
    else t
  }

  function Track(only: bool, rs: seq<Reading>): Tracking
  {
    if rs == [] then Tracking(map[], [], [])
    else Observe(only, Track(only, rs[..|rs| - 1]), rs[|rs| - 1])
  }

  /** The records appended for the entries still open, in the order of the dictionary. */
  function Finals(only: bool, t: Tracking, order: seq<string>, end: Clock): seq<Record>
    requires forall n :: n in order ==> n in t.entries
  {
    if order == [] then []
    else Finals(only, t, order[..|order| - 1], end) + Kept(only, Stamp(t.entries[order[|order| - 1]], end))
  }

  ghost predicate WellKept(t: Tracking)
  {
    && (forall n :: n in t.entries <==> n in t.order)
    && (forall i, j :: 0 <= i < j < |t.order| ==> t.order[i] != t.order[j])
    && (forall n :: n in t.entries ==> t.entries[n].name == n)
  }

  lemma ObserveKeeps(only: bool, t: Tracking, r: Reading)
    requires WellKept(t)
    ensures WellKept(Observe(only, t, r))
  {
    WithoutKeeps(t.order, r.name);
  }

  lemma {:induction false} TrackKeeps(only: bool, rs: seq<Reading>)
    ensures WellKept(Track(only, rs))
  {
    if rs != [] {
      TrackKeeps(only, rs[..|rs| - 1]);
      ObserveKeeps(only, Track(only, rs[..|rs| - 1]), rs[|rs| - 1]);
    }
  }

  /** A worker's monitoring loop (`_run_virt_check_batch`). `passes` are the rounds of checks it
      gets through before it is told to stop; `end` is the time at which it closes what is open. */
  class Worker {
    const onlyFailures: bool
    var tracker: map<string, Entry>
    var order: seq<string>
    var telemetry: seq<Record>

    ghost function View(): Tracking reads this { Tracking(tracker, order, telemetry) }

    constructor (onlyFailures: bool)
      ensures this.onlyFailures == onlyFailures && View() == Tracking(map[], [], [])
    {
      this.onlyFailures, tracker, order, telemetry := onlyFailures, map[], [], [];
    }

    /** `_close_tracker_entry`. */
    method CloseTrackerEntry(name: string, end: Clock, delete: bool)
      requires name in tracker
      modifies this
      ensures telemetry == old(telemetry) + Kept(onlyFailures, Stamp(old(tracker[name]), end))
      ensures tracker == if delete then old(tracker) - {name} else old(tracker)
      ensures order == if delete then Without(old(order), name) else old(order)
    {
      var record := Stamp(tracker[name], end);
      if !onlyFailures || !Healthy(record.status) {
        telemetry := telemetry + [record];
      }
      if delete {
        tracker := tracker - {name};
        order := Without(order, name);
      }
    }

    method MakeTrackerEntry(r: Reading)
      requires r.name !in tracker
      modifies this
      ensures View() == Insert(old(View()), r)
    {
      tracker := tracker[r.name := Open(r)];
      order := order + [r.name];
    }

    /** The body of the loop over the VMs, for one check. */
    method Check(r: Reading)
      requires r.name in tracker ==> tracker[r.name].name == r.name
      modifies this
      ensures View() == Observe(onlyFailures, old(View()), r)
    {
      var status := StatusOf(r);
      if r.name !in tracker {
        MakeTrackerEntry(r);
      } else if status.ssh != tracker[r.name].status.ssh || status.ready != tracker[r.name].status.ready {
        if r.newIp != "" {
          tracker := tracker[r.name := tracker[r.name].(newIp := r.newIp)];
        }
        CloseTrackerEntry(r.name, r.closedAt, true);
        assert tracker == old(tracker) - {r.name};
        MakeTrackerEntry(r);
      }
    }

    /** The loop over the VMs: one check of each. */
    method RunPass(pass: seq<Reading>, ghost done: seq<Reading>)
      requires View() == Track(onlyFailures, done)
      modifies this
      ensures View() == Track(onlyFailures, done + pass)
    {
      hide Track, Observe;
      assert done + pass[..0] == done;
      for v := 0 to |pass|
        invariant View() == Track(onlyFailures, done + pass[..v])
      {
        TrackKeeps(onlyFailures, done + pass[..v]);
        TrackSnoc(onlyFailures, done + pass[..v], pass[v]);
        assert done + pass[..v + 1] == done + pass[..v] + [pass[v]];
        Check(pass[v]);
      }
      assert pass[..|pass|] == pass;
    }

    method RunVirtCheckBatch(passes: seq<seq<Reading>>, end: Clock) returns (published: seq<Record>)
      requires View() == Tracking(map[], [], [])
      modifies this
      ensures published == Published(onlyFailures, FlattenPasses(passes), end)
    {
      for p := 0 to |passes|
        invariant View() == Track(onlyFailures, FlattenPasses(passes[..p]))
      {
        RunPass(passes[p], FlattenPasses(passes[..p]));
        assert passes[..p + 1][..p] == passes[..p];
      }
      assert passes[..|passes|] == passes;
      TrackKeeps(onlyFailures, FlattenPasses(passes));
      published := CloseAll(end);
    }

    /** The loop that records the final status of every open entry. */
    method CloseAll(end: Clock) returns (published: seq<Record>)
      requires WellKept(View())
      modifies this
      ensures published == old(telemetry) + Finals(onlyFailures, old(View()), old(order), end)
    {
      ghost var t := View();
      for i := 0 to |order|
        invariant tracker == t.entries && order == t.order
        invariant telemetry == t.telemetry + Finals(onlyFailures, t, order[..i], end)
      {
        assert order[..i + 1][..i] == order[..i];
        CloseTrackerEntry(order[i], end, false);
      }
      assert order[..|order|] == order;
      published := telemetry;
    }
  }

  /** The batch a worker publishes after the checks `rs`. */
  function Published(only: bool, rs: seq<Reading>, end: Clock): seq<Record>
  {
    var t := Track(only, rs);
    TrackKeeps(only, rs);
    t.telemetry + Finals(only, t, t.order, end)
  }

  lemma TrackSnoc(only: bool, rs: seq<Reading>, r: Reading)
    ensures Track(only, rs + [r]) == Observe(only, Track(only, rs), r)
  {
    assert (rs + [r])[..|rs|] == rs;
  }

  function FlattenPasses(passes: seq<seq<Reading>>): seq<Reading>
  {
    if passes == [] then [] else FlattenPasses(passes[..|passes| - 1]) + passes[|passes| - 1]
  }

  // ---- The tracker refines run-length encoding

  /** The checks of one VM, in order. */
  function Stream(rs: seq<Reading>, name: string): seq<Reading>
  {
    if rs == [] then []
    else Stream(rs[..|rs| - 1], name) + (if rs[|rs| - 1].name == name then [rs[|rs| - 1]] else [])
  }

  function RecordsOf(records: seq<Record>, name: string): seq<Record>
  {
    if records == [] then []
    else RecordsOf(records[..|records| - 1], name)
         + (if records[|records| - 1].name == name then [records[|records| - 1]] else [])
  }

  lemma {:induction false} RecordsOfJoin(a: seq<Record>, b: seq<Record>, name: string)
    ensures RecordsOf(a + b, name) == RecordsOf(a, name) + RecordsOf(b, name)
  {
    if b == [] {
      assert a + b == a;
    } else {
      RecordsOfJoin(a, b[..|b| - 1], name);
      assert (a + b)[..|a + b| - 1] == a + b[..|b| - 1];
    }
  }

  /** What the tracker holds about one VM whose checks so far form `runs`. */
  ghost predicate Tracks(only: bool, t: Tracking, name: string, runs: seq<seq<Reading>>)
  {
    && Maximal(runs)
    && RecordsOf(t.telemetry, name) == Closed(only, runs)
    && (name in t.entries <==> runs != [])
    && (runs != [] ==> t.entries[name] == Open(runs[|runs| - 1][0]))
  }

  lemma {:induction false} TrackIsEncoding(only: bool, rs: seq<Reading>, name: string)
    ensures Tracks(only, Track(only, rs), name, Runs(Stream(rs, name)))
  {
    if rs != [] {
      var init, r := rs[..|rs| - 1], rs[|rs| - 1];
      TrackIsEncoding(only, init, name);
      TrackKeeps(only, init);
      var mine := Stream(init, name);
      if r.name == name {
        OneMore(only, Track(only, init), name, Runs(mine), r);
        assert (mine + [r])[..|mine|] == mine;
        assert Runs(Stream(rs, name)) == Extend(Runs(mine), r);
      } else {
        OneOther(only, Track(only, init), name, r);
        assert Stream(rs, name) == mine;
      }
    }
  }

  /** A check of another VM leaves this one's entry and records alone. */
  lemma OneOther(only: bool, t: Tracking, name: string, r: Reading)
    requires WellKept(t) && r.name != name
    ensures var t' := Observe(only, t, r);
            && RecordsOf(t'.telemetry, name) == RecordsOf(t.telemetry, name)
            && (name in t'.entries <==> name in t.entries)
            && (name in t.entries ==> t'.entries[name] == t.entries[name])
  {
    if r.name in t.entries && StatusOf(r) != t.entries[r.name].status {
      var closed := Close(only, t, r.name, r.newIp, r.closedAt);
      RecordsOfJoin(t.telemetry, closed.telemetry[|t.telemetry|..], name);
      assert closed.telemetry == t.telemetry + closed.telemetry[|t.telemetry|..];
    }
  }

  lemma OneMore(only: bool, t: Tracking, name: string, runs: seq<seq<Reading>>, r: Reading)
    requires WellKept(t) && Tracks(only, t, name, runs) && r.name == name
    ensures Tracks(only, Observe(only, t, r), name, Extend(runs, r))
  {
    ExtendKeeps(runs, r);
    if runs != [] {
      var n := |runs| - 1;
      assert Uniform(runs[n]) && t.entries[name].status == StatusOf(runs[n][0]);
      if Continues(runs, r) {
        StillOpen(only, t, name, runs, r);
      } else {
        CloseOwn(only, t, name, r, runs[n]);
        ClosedSnoc(only, runs, r);
      }
    }
  }

  lemma StillOpen(only: bool, t: Tracking, name: string, runs: seq<seq<Reading>>, r: Reading)
    requires Tracks(only, t, name, runs) && runs != [] && Continues(runs, r)
    requires Maximal(Extend(runs, r))
    ensures Tracks(only, t, name, Extend(runs, r))
  {
    var runs', n := Extend(runs, r), |runs| - 1;
    assert runs'[..n] == runs[..n] && runs'[n] == runs[n] + [r];
    assert forall i :: 0 <= i <= n ==> Uniform(runs[i]) && Uniform(runs'[i]);
    ClosedIgnoresLength(only, runs, runs');
  }

  lemma ClosedSnoc(only: bool, runs: seq<seq<Reading>>, r: Reading)
    requires Maximal(runs) && runs != []
    ensures forall i :: 0 <= i <= |runs| ==> (runs + [[r]])[i] != []
    ensures Closed(only, runs + [[r]]) == Closed(only, runs) + Kept(only, Ended(runs[|runs| - 1], r))
  {
    var after := runs + [[r]];
    assert forall i :: 0 <= i < |runs| ==> after[i] == runs[i] && Uniform(runs[i]);
    assert after[..|after| - 1] == runs;
  }

  lemma CloseOwn(only: bool, t: Tracking, name: string, r: Reading, run: seq<Reading>)
    requires WellKept(t) && name in t.entries && r.name == name
    requires run != [] && t.entries[name] == Open(run[0]) && StatusOf(r) != t.entries[name].status
    ensures var t' := Observe(only, t, r);
            && RecordsOf(t'.telemetry, name) == RecordsOf(t.telemetry, name) + Kept(only, Ended(run, r))
            && name in t'.entries && t'.entries[name] == Open(r)
  {
    var record := Ended(run, r);
    RecordsOfJoin(t.telemetry, Kept(only, record), name);
    assert RecordsOf([record], name) == [record];
  }

  /** Closed records depend on how runs begin, not on how long the last one is. */
  lemma ClosedIgnoresLength(only: bool, runs: seq<seq<Reading>>, runs': seq<seq<Reading>>)
    requires runs != [] && |runs| == |runs'| && runs[..|runs| - 1] == runs'[..|runs| - 1]
    requires (forall i :: 0 <= i < |runs| ==> runs[i] != []) && (forall i :: 0 <= i < |runs| ==> runs'[i] != [])
    requires runs[|runs| - 1][0] == runs'[|runs| - 1][0]
    ensures Closed(only, runs) == Closed(only, runs')
  {
    assert |runs| > 1 ==> runs[|runs| - 2] == runs[..|runs| - 1][|runs| - 2] == runs'[|runs| - 2];
  }

  lemma {:induction false} FinalsOf(only: bool, t: Tracking, order: seq<string>, end: Clock, name: string)
    requires WellKept(t) && forall n :: n in order ==> n in t.entries
    requires forall i, j :: 0 <= i < j < |order| ==> order[i] != order[j]
    ensures RecordsOf(Finals(only, t, order, end), name) ==
            if name in order then Kept(only, Stamp(t.entries[name], end)) else []
  {
    if order != [] {
      var init, last := order[..|order| - 1], order[|order| - 1];
      assert order == init + [last];
      assert last !in init;
      FinalsOf(only, t, init, end, name);
      hide Kept, Stamp, Finals;
      var tail := Kept(only, Stamp(t.entries[last], end));
      FinalsSnoc(only, t, order, end);
      RecordsOfJoin(Finals(only, t, init, end), tail, name);
      KeptOf(only, t.entries[last], end, name);
    }
  }

  lemma FinalsSnoc(only: bool, t: Tracking, order: seq<string>, end: Clock)
    requires order != [] && forall n :: n in order ==> n in t.entries
    ensures Finals(only, t, order, end) ==
            Finals(only, t, order[..|order| - 1], end) + Kept(only, Stamp(t.entries[order[|order| - 1]], end))
  {
  }

  lemma KeptOf(only: bool, e: Entry, end: Clock, name: string)
    ensures var tail := Kept(only, Stamp(e, end)); RecordsOf(tail, name) == if e.name == name then tail else []
  {
    var r := Stamp(e, end);
    assert [r][..0] == [];
  }

  /** The published records of a VM are exactly the periods of the maximal runs of its checks;
      with `only_failures`, of the failing ones. */
  lemma PublishedIsEncoding(only: bool, rs: seq<Reading>, end: Clock, name: string)
    ensures Maximal(Runs(Stream(rs, name))) && Flatten(Runs(Stream(rs, name))) == Stream(rs, name)
    ensures RecordsOf(Published(only, rs, end), name) == Periods(only, Runs(Stream(rs, name)), end)
  {
    var t, mine := Track(only, rs), Stream(rs, name);
    TrackKeeps(only, rs);
    TrackIsEncoding(only, rs, name);
    RunsAreMaximal(mine);
    RecordsOfJoin(t.telemetry, Finals(only, t, t.order, end), name);
    FinalsOf(only, t, t.order, end, name);
  }

  // ---- What the periods look like

  /** The period of run `i`. */
  function Period(runs: seq<seq<Reading>>, i: nat, end: Clock): Record
    requires i < |runs| && forall i :: 0 <= i < |runs| ==> runs[i] != []
  {
    if i == |runs| - 1 then Stamp(Open(runs[i][0]), end) else Ended(runs[i], runs[i + 1][0])
  }

  /** The records of failed checks, in order. */
  function Failing(records: seq<Record>): seq<Record>
  {
    if records == [] then []
    else
      var last := records[|records| - 1];
      Failing(records[..|records| - 1]) + (if last.status.ssh && last.status.ready then [] else [last])
  }

  /** Without `only_failures` there is one record per run, in order; with it, exactly those of
      the unhealthy runs remain. */
  lemma OnePeriodPerRun(runs: seq<seq<Reading>>, end: Clock)
    requires forall i :: 0 <= i < |runs| ==> runs[i] != []
    ensures |Periods(false, runs, end)| == |runs|
    ensures forall i :: 0 <= i < |runs| ==> Periods(false, runs, end)[i] == Period(runs, i, end)
    ensures Periods(true, runs, end) == Failing(Periods(false, runs, end))
  {
    ClosedPeriods(runs, end);
    if runs != [] {
      hide Closed, Failing, Kept, Stamp;
      var closed, last := Closed(false, runs), Stamp(Open(runs[|runs| - 1][0]), end);
      KeptAll(last);
      assert Periods(false, runs, end) == closed + [last];
      FailingSnoc(closed, last);
    } else {
      assert Failing([]) == [];
    }
  }

  lemma KeptAll(r: Record)
    ensures Kept(false, r) == [r]
  {
  }

  lemma FailingSnoc(records: seq<Record>, r: Record)
    ensures Failing(records + [r]) == Failing(records) + Kept(true, r)
  {
    assert (records + [r])[..|records|] == records;
  }

  lemma {:induction false} FailingHas(records: seq<Record>)
    ensures forall r :: r in Failing(records) <==> r in records && !(r.status.ssh && r.status.ready)
  {
    if records != [] {
      var init, last := records[..|records| - 1], records[|records| - 1];
      FailingHas(init);
      assert records == init + [last];
    }
  }

  lemma {:induction false} ClosedPeriods(runs: seq<seq<Reading>>, end: Clock)
    requires forall i :: 0 <= i < |runs| ==> runs[i] != []
    ensures runs != [] ==> |Closed(false, runs)| == |runs| - 1
    ensures forall i :: 0 <= i < |Closed(false, runs)| ==>
            i < |runs| - 1 && Closed(false, runs)[i] == Period(runs, i, end)
    ensures Closed(true, runs) == Failing(Closed(false, runs))
  {
    if |runs| > 1 {
      var init := runs[..|runs| - 1];
      ClosedPeriods(init, end);
      var all, n := Closed(false, runs), |runs| - 1;
      assert all[..|all| - 1] == Closed(false, init);
      var ended := Ended(runs[n - 1], runs[n][0]);
      KeptAll(ended);
      assert all == Closed(false, init) + [ended];
      FailingSnoc(Closed(false, init), ended);
      hide Failing, Kept, Ended;
      forall i | 0 <= i < |all| ensures i < n && all[i] == Period(runs, i, end) {
        if i < n - 1 {
          assert all[i] == Closed(false, init)[i] == Period(init, i, end);
        } else {
          assert all[i] == Ended(runs[n - 1], runs[n][0]);
        }
      }
    } else {
      assert Closed(false, runs) == [];
    }
  }

  /** Under a clock that does not run backwards the periods of a VM follow one another. */
  ghost predicate Monotone(rs: seq<Reading>, end: Clock)
  {
    && (forall i :: 0 <= i < |rs| ==> rs[i].closedAt <= rs[i].openedAt <= end)
    && (forall i, j :: 0 <= i < j < |rs| ==> rs[i].openedAt <= rs[j].closedAt)
  }

  lemma PeriodsDoNotOverlap(runs: seq<seq<Reading>>, end: Clock, i: nat)
    requires Maximal(runs) && Monotone(Flatten(runs), end) && i < |runs|
    ensures var p := Period(runs, i, end);
            && p.start <= p.end <= end && p.duration == p.end - p.start
            && (i + 1 < |runs| ==>
                 p.end <= Period(runs, i + 1, end).start && p.status != Period(runs, i + 1, end).status)
  {
    HeadInFlatten(runs, i);
    if i + 1 < |runs| {
      HeadInFlatten(runs, i + 1);
      HeadsInOrder(runs, i);
    }
  }

  /** Where run `i` begins in the flattened readings. */
  function Offset(runs: seq<seq<Reading>>, i: nat): nat
    requires i <= |runs|
  {
    |Flatten(runs[..i])|
  }

  lemma {:induction false} HeadInFlatten(runs: seq<seq<Reading>>, i: nat)
    requires i < |runs| && forall i :: 0 <= i < |runs| ==> runs[i] != []
    ensures Offset(runs, i) < |Flatten(runs)| && Flatten(runs)[Offset(runs, i)] == runs[i][0]
    decreases |runs|
  {
    var n := |runs| - 1;
    if i < n {
      HeadInFlatten(runs[..n], i);
      assert runs[..n][..i] == runs[..i];
    }
  }

  lemma HeadsInOrder(runs: seq<seq<Reading>>, i: nat)
    requires i + 1 < |runs| && forall i :: 0 <= i < |runs| ==> runs[i] != []
    ensures Offset(runs, i) < Offset(runs, i + 1)
  {
    assert runs[..i + 1][..i] == runs[..i];
  }

  // ---- The published records of one VM

  /** Records that end after they start and do not overlap, up to the time `end`. */
  ghost predicate InOrder(records: seq<Record>, end: Clock)
  {
    && (forall i :: 0 <= i < |records| ==>
          records[i].start <= records[i].end <= end && records[i].duration == records[i].end - records[i].start)
    && (forall i, j :: 0 <= i < j < |records| ==> records[i].end <= records[j].start)
  }

  lemma {:induction false} StreamMonotone(rs: seq<Reading>, name: string, end: Clock)
    requires Monotone(rs, end)
    ensures Monotone(Stream(rs, name), end)
    ensures forall r :: r in Stream(rs, name) ==> r in rs
  {
    if rs != [] {
      var init, last := rs[..|rs| - 1], rs[|rs| - 1];
      StreamMonotone(init, name, end);
      var mine := Stream(init, name);
      forall i | 0 <= i < |mine| ensures mine[i].openedAt <= last.closedAt {
        assert mine[i] in init;
        var k :| 0 <= k < |init| && init[k] == mine[i];
        assert rs[k] == mine[i];
      }
      assert rs == init + [last];
    }
  }

  lemma {:induction false} PeriodBefore(runs: seq<seq<Reading>>, end: Clock, i: nat, j: nat)
    requires Maximal(runs) && Monotone(Flatten(runs), end) && i < j < |runs|
    ensures Period(runs, i, end).end <= Period(runs, j, end).start
    decreases j - i
  {
    hide Maximal, Flatten, Period, Monotone;
    MaximalNonempty(runs);
    PeriodsDoNotOverlap(runs, end, i);
    if i + 1 < j {
      PeriodsDoNotOverlap(runs, end, i + 1);
      PeriodBefore(runs, end, i + 1, j);
    }
  }

  lemma MaximalNonempty(runs: seq<seq<Reading>>)
    requires Maximal(runs)
    ensures forall i :: 0 <= i < |runs| ==> runs[i] != []
  {
    assert forall i :: 0 <= i < |runs| ==> Uniform(runs[i]);
  }

  lemma PeriodsInOrder(runs: seq<seq<Reading>>, end: Clock)
    requires Maximal(runs) && Monotone(Flatten(runs), end)
    requires forall i :: 0 <= i < |runs| ==> runs[i] != []
    ensures InOrder(Periods(false, runs, end), end)
  {
    hide Periods, Period, Maximal, Monotone, Flatten;
    OnePeriodPerRun(runs, end);
    var all := Periods(false, runs, end);
    forall i | 0 <= i < |all|
      ensures all[i].start <= all[i].end <= end && all[i].duration == all[i].end - all[i].start
    {
      PeriodsDoNotOverlap(runs, end, i);
    }
    forall i, j | 0 <= i < j < |all| ensures all[i].end <= all[j].start {
      PeriodBefore(runs, end, i, j);
    }
  }

  lemma {:induction false} FailingInOrder(records: seq<Record>, end: Clock)
    requires InOrder(records, end)
    ensures InOrder(Failing(records), end)
    ensures forall r :: r in Failing(records) ==> r in records
  {
    if records != [] {
      var init, last := records[..|records| - 1], records[|records| - 1];
      FailingInOrder(init, end);
      assert records == init + [last];
      forall i | 0 <= i < |Failing(init)| ensures Failing(init)[i].end <= last.start {
        assert Failing(init)[i] in init;
        var k :| 0 <= k < |init| && init[k] == Failing(init)[i];
        assert records[k] == init[k];
      }
    }
  }

  /** Under a clock that never runs backwards the published records of a VM, all or only the failing
      ones, are in order, do not overlap, and have their true durations. */
  lemma PublishedInOrder(only: bool, rs: seq<Reading>, end: Clock, name: string)
    requires Monotone(rs, end)
    ensures InOrder(RecordsOf(Published(only, rs, end), name), end)
  {
    hide InOrder, Monotone, Published, Periods, Maximal;
    var runs := Runs(Stream(rs, name));
    StreamMonotone(rs, name, end);
    PublishedIsEncoding(only, rs, end, name);
    MaximalNonempty(runs);
    PeriodsInOrder(runs, end);
    OnePeriodPerRun(runs, end);
    FailingInOrder(Periods(false, runs, end), end);
  }

  /** The record of a run of checks that began with `first` and was ended by the check `next`, or by
      the end of monitoring. */
  predicate Describes(p: Record, name: string, first: Reading, next: Option<Reading>, end: Clock)
  {
    && p.name == name
    && (p.status.ssh <==> first.ssh == Some(true)) && (p.status.ready <==> first.ready)
    && (p.checkType.AllHealthy? <==> p.status.ssh && p.status.ready)
    && (p.checkType.Both? <==> !p.status.ssh && !p.status.ready)
    && (p.checkType.SshAccess? <==> !p.status.ssh && p.status.ready)
    && p.node == first.node
    && p.newIp == (if next.Some? && next.value.newIp != "" then next.value.newIp else first.newIp)
    && p.start == first.openedAt
    && p.end == (if next.Some? then next.value.closedAt else end)
    && p.duration == p.end - p.start
  }

  lemma {:induction false} StreamNamed(rs: seq<Reading>, name: string)
    ensures forall r :: r in Stream(rs, name) <==> r in rs && r.name == name
  {
    if rs != [] {
      var init, last := rs[..|rs| - 1], rs[|rs| - 1];
      StreamNamed(init, name);
      assert rs == init + [last];
    }
  }

  /** The check that ended run `i`, if one did. */
  function NextCheck(runs: seq<seq<Reading>>, i: nat): Option<Reading>
  {
    if i + 1 < |runs| && runs[i + 1] != [] then Some(runs[i + 1][0]) else None
  }

  ghost predicate DescribeRuns(records: seq<Record>, name: string, runs: seq<seq<Reading>>, end: Clock)
  {
    && |records| == |runs|
    && forall i :: 0 <= i < |runs| ==>
         runs[i] != [] && Describes(records[i], name, runs[i][0], NextCheck(runs, i), end)
  }

  lemma PeriodDescribes(runs: seq<seq<Reading>>, i: nat, end: Clock)
    requires i < |runs| && forall i :: 0 <= i < |runs| ==> runs[i] != []
    ensures Describes(Period(runs, i, end), runs[i][0].name, runs[i][0], NextCheck(runs, i), end)
  {
  }

  lemma PeriodsDescribe(runs: seq<seq<Reading>>, end: Clock, name: string)
    requires forall i :: 0 <= i < |runs| ==> runs[i] != []
    requires forall r :: r in Flatten(runs) ==> r.name == name
    ensures DescribeRuns(Periods(false, runs, end), name, runs, end)
  {
    hide Periods, Period, Describes, Flatten, NextCheck;
    OnePeriodPerRun(runs, end);
    forall i | 0 <= i < |runs|
      ensures Describes(Periods(false, runs, end)[i], name, runs[i][0], NextCheck(runs, i), end)
    {
      PeriodDescribes(runs, i, end);
      HeadInFlatten(runs, i);
      assert runs[i][0] in Flatten(runs);
    }
  }

  /** What is published about a VM, field by field: one record for each run of its checks, or with
      `only_failures` for exactly those in which a check had failed. */
  lemma PublishedRecords(rs: seq<Reading>, end: Clock, name: string)
    ensures var runs, all := Runs(Stream(rs, name)), RecordsOf(Published(false, rs, end), name);
            && Maximal(runs) && Flatten(runs) == Stream(rs, name)
            && DescribeRuns(all, name, runs, end)
            && RecordsOf(Published(true, rs, end), name) == Failing(all)
  {
    hide Maximal, Published, Periods, DescribeRuns, Failing, Flatten, Runs, Stream, RecordsOf;
    var runs := Runs(Stream(rs, name));
    PublishedIsEncoding(false, rs, end, name);
    PublishedIsEncoding(true, rs, end, name);
    MaximalNonempty(runs);
    OnePeriodPerRun(runs, end);
    StreamNamed(rs, name);
    PeriodsDescribe(runs, end, name);
  }

  /** So with `only_failures` a record is published exactly when it would be without, and the SSH or
      the readiness check of its run had failed. */
  lemma OnlyFailuresPublished(rs: seq<Reading>, end: Clock, p: Record)
    ensures p in RecordsOf(Published(true, rs, end), p.name) <==>
            p in RecordsOf(Published(false, rs, end), p.name) && (!p.status.ssh || !p.status.ready)
  {
    hide Published, RecordsOf, Runs, Stream, Flatten, Maximal, Describes;
    PublishedRecords(rs, end, p.name);
    FailingHas(RecordsOf(Published(false, rs, end), p.name));
  }
}
