// Waiting for chaos jobs while taking finished ones off the list being iterated.

module JobWait {
  import opened Lists

  /** One status query: the job asked about, and whether it had succeeded or failed. A query that
      raises is swallowed and counts as unfinished. */
  datatype Inspection = Inspection(job: string, finished: bool)

  const PAUSE := 5.0

  function Finished(log: seq<Inspection>): seq<string>
  {
    if log == [] then []
    else Finished(log[..|log| - 1]) + (if log[|log| - 1].finished then [log[|log| - 1].job] else [])
  }

  /** Every job is either still in the list or was seen finished, and only once. */
  ghost predicate Accounted(jobs: seq<string>, left: seq<string>, log: seq<Inspection>)
  {
    multiset(jobs) == multiset(left) + multiset(Finished(log))
  }

  lemma InspectionAccounts(jobs: seq<string>, left: seq<string>, log: seq<Inspection>, job: string, finished: bool)
    requires Accounted(jobs, left, log) && job in left
    ensures Accounted(jobs, if finished then Remove(left, job) else left, log + [Inspection(job, finished)])
  {
    var all := log + [Inspection(job, finished)];
    assert all[..|log|] == log;
    assert multiset(Finished(log) + [job]) == multiset(Finished(log)) + multiset{job};
    assert job in multiset(left);
    RemoveTakesOne(left, job);
  }

  lemma AccountedCount(jobs: seq<string>, left: seq<string>, log: seq<Inspection>)
    requires Accounted(jobs, left, log)
    ensures |jobs| == |left| + |Finished(log)|
  {
    assert |multiset(jobs)| == |multiset(left)| + |multiset(Finished(log))|;
  }

  /** The log agrees with what the queries give: `answers(n)` says whether the n-th query is answered
      with a finished job. */
  ghost predicate Faithful(log: seq<Inspection>, answers: nat -> bool)
  {
    forall n :: 0 <= n < |log| ==> log[n].finished == answers(n)
  }

  lemma FaithfulMore(log: seq<Inspection>, answers: nat -> bool, job: string)
    requires Faithful(log, answers)
    ensures Faithful(log + [Inspection(job, answers(|log|))], answers)
  {
  }

  /** State of the wait: the counter, the list, the queries made and the clock. `checked` is the
      time of the last comparison with the deadline. */
  class Waiter {
    const deadline: real
    const started: real
    const joblen: nat
    ghost const jobs: seq<string>
    var count: nat
    var left: seq<string>
    var log: seq<Inspection>
    var now: real
    ghost var checked: real

    constructor (jobs: seq<string>, now: real, timeout: real)
      ensures this.jobs == jobs && joblen == |jobs| && started == now && deadline == now + timeout
      ensures left == jobs && count == 0 && log == [] && this.now == now && Valid()
    {
      this.jobs, this.joblen, this.started, this.deadline := jobs, |jobs|, now, now + timeout;
      this.left, this.count, this.log, this.now, this.checked := jobs, 0, [], now, now;
    }

    /** Nothing is lost or counted twice, and no query is made after the deadline has been seen
        to be over. */
    ghost predicate Valid() reads this
    {
      && count + |left| == joblen == |jobs|
      && Accounted(jobs, left, log)
      && now >= started + PAUSE * |log| as real
      && (log != [] ==> started + PAUSE * (|log| - 1) as real <= checked <= deadline)
    }

    /** The body of the inner loop for one job; false when the deadline has passed. */
    method Inspect(job: string, answers: nat -> bool) returns (ok: bool)
      requires Valid() && job in left && Faithful(log, answers)
      modifies this
      ensures |log| == |old(log)| + 1 && log[..|old(log)|] == old(log)
      ensures log[|old(log)|].job == job && Faithful(log, answers)
      ensures left == if log[|old(log)|].finished then Remove(old(left), job) else old(left)
      ensures count == if log[|old(log)|].finished then old(count) + 1 else old(count)
      ensures ok ==> Valid() && now >= old(now) + PAUSE && old(now) <= deadline
      ensures !ok ==> Overdue()
    {
      hide Accounted, Faithful, Remove;
      var finished := answers(|log|);
      InspectionAccounts(jobs, left, log, job, finished);
      FaithfulMore(log, answers, job);
      var spent: real :| spent >= 0.0;
      now := now + spent;
      ghost var before := log;
      log := log + [Inspection(job, finished)];
      assert log[..|before|] == before;
      if finished {
        count := count + 1;
        left := Remove(left, job);
      }
      if now > deadline {
        return false;
      }
      checked := now;
      var oversleep: real :| oversleep >= 0.0;
      now := now + PAUSE + oversleep;
      ok := true;
    }

    /** The exception is due: the deadline is over, and everything before it is accounted for. */
    ghost predicate Overdue() reads this
    {
      && now > deadline
      && count + |left| == |jobs|
      && Accounted(jobs, left, log)
      && (|log| >= 2 ==> PAUSE * (|log| - 2) as real <= deadline - started)
    }

    /** One pass of the inner loop. Python iterates by position over the shrinking list, so the
        job after a removed one waits for the next pass; still at least half are inspected. */
    method Pass(answers: nat -> bool) returns (ok: bool)
      requires Valid() && left != [] && Faithful(log, answers)
      modifies this
      ensures Faithful(log, answers)
      ensures ok ==> Valid() && now >= old(now) + PAUSE && old(now) <= deadline
      ensures ok ==> 2 * (|log| - |old(log)|) >= |old(left)|
      ensures !ok ==> Overdue()
    {
      var i := 0;
      ok := true;
      while i < |left|
        invariant Valid() && ok && Faithful(log, answers)
        invariant |log| == |old(log)| + i
        invariant i > 0 ==> now >= old(now) + PAUSE && old(now) <= deadline
        invariant now >= old(now)
        invariant |left| + i >= |old(left)|
        decreases |old(left)| + |left| - i
      {
        ok := Inspect(left[i], answers);
        if !ok {
          return;
        }
        i := i + 1;
      }
    }

    /** `wait_for_job`; `raised` is the "Starting pod failed" exception. */
    method WaitForJob(answers: nat -> bool) returns (raised: bool)
      requires Valid() && log == [] && now == started
      modifies this
      ensures forall n :: 0 <= n < |log| ==> log[n].finished == answers(n)
      ensures count + |left| == |jobs| && count == |Finished(log)|
      ensures multiset(left) + multiset(Finished(log)) == multiset(jobs)
      ensures !raised ==> left == [] && count == |jobs| && multiset(Finished(log)) == multiset(jobs)
      ensures raised ==> now > deadline
      ensures |log| >= 2 ==> 5.0 * (|log| - 2) as real <= deadline - started
    {
      raised := false;
      while count != joblen
        invariant Valid() && !raised && Faithful(log, answers)
        decreases deadline - now + 2.0 * PAUSE
      {
        var ok := Pass(answers);
        if !ok {
          raised := true;
          AccountedCount(jobs, left, log);
          return;
        }
      }
      AccountedCount(jobs, left, log);
    }
  }

  /** The finished jobs are those of the queries that were answered so, in order. */
  lemma {:induction false} FinishedAdds(a: seq<Inspection>, b: seq<Inspection>)
    ensures Finished(a + b) == Finished(a) + Finished(b)
  {
    if b == [] {
      assert a + b == a;
    } else {
      FinishedAdds(a, b[..|b| - 1]);
      assert (a + b)[..|a + b| - 1] == a + b[..|b| - 1];
    }
  }

  lemma FinishedOne(i: Inspection)
    ensures Finished([i]) == if i.finished then [i.job] else []
    ensures Finished([]) == []
  {
    assert [i][..0] == [];
  }

  /** The bound in the usual form: no more than floor(timeout / 5) + 2 queries. */
  lemma InspectionBound(n: nat, timeout: real)
    requires timeout >= 0.0
    requires n >= 2 ==> 5.0 * (n - 2) as real <= timeout
    ensures n <= (timeout / 5.0).Floor + 2
  {
    if n >= 2 {
      assert (n - 2) as real <= timeout / 5.0;
    }
  }
}
