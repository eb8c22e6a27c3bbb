// Splitting the VMs over worker threads, and gathering what the post-run workers found.

module Batches {
  import opened Options
  import opened VirtTracker

  /** `math.ceil(n / limit)` for a nonzero limit. */
  function CeilDiv(n: nat, limit: int): int
    requires limit != 0
  {
    if limit > 0 then (n + limit - 1) / limit else -(n / -limit)
  }

  /** Consecutive slices of `size` elements, the last one possibly shorter. */
  function Slices<T>(xs: seq<T>, size: nat): seq<seq<T>>
    requires size > 0
  {
    if xs == [] then []
    else if |xs| <= size then [xs]
    else [xs[..size]] + Slices(xs[size..], size)
  }

  function Concat<T>(parts: seq<seq<T>>): seq<T>
  {
    if parts == [] then [] else parts[0] + Concat(parts[1..])
  }

  lemma {:induction false} SlicesPartition<T>(xs: seq<T>, size: nat)
    requires size > 0
    ensures Concat(Slices(xs, size)) == xs
    ensures forall b :: b in Slices(xs, size) ==> 0 < |b| <= size
    ensures |Slices(xs, size)| == CeilDiv(|xs|, size)
  {
    hide CeilDiv, Slices, Concat;
    SlicesUnfold(xs, size);
    ConcatUnfold([], xs);
    if |xs| > size {
      SlicesPartition(xs[size..], size);
      ConcatUnfold(Slices(xs[size..], size), xs[..size]);
      assert xs[..size] + xs[size..] == xs;
      CeilStep(|xs|, size);
    } else if xs != [] {
      CeilOne(|xs|, size);
    } else {
      CeilNone(size);
    }
  }

  lemma SlicesUnfold<T>(xs: seq<T>, size: nat)
    requires size > 0
    ensures Slices(xs, size) == if xs == [] then [] else if |xs| <= size then [xs] + []
                                else [xs[..size]] + Slices(xs[size..], size)
  {
  }

  lemma ConcatUnfold<T>(rest: seq<seq<T>>, first: seq<T>)
    ensures Concat([first] + rest) == first + Concat(rest) && Concat<T>([]) == []
  {
    assert ([first] + rest)[1..] == rest;
  }

  /** All slices but the last one are full. */
  lemma {:induction false} SlicesFull<T>(xs: seq<T>, size: nat)
    requires size > 0
    ensures forall i :: 0 <= i < |Slices(xs, size)| - 1 ==> |Slices(xs, size)[i]| == size
  {
    if |xs| > size {
      SlicesFull(xs[size..], size);
    }
  }

  lemma CeilNone(size: nat)
    requires size > 0
    ensures CeilDiv(0, size) == 0
  {
    assert (size - 1) / size == 0;
  }

  lemma CeilOne(n: nat, size: nat)
    requires 0 < n <= size
    ensures CeilDiv(n, size) == 1
  {
    assert n + size - 1 == size * 1 + (n - 1);
  }

  lemma CeilStep(n: nat, size: nat)
    requires 0 < size <= n
    ensures CeilDiv(n, size) == 1 + CeilDiv(n - size, size)
  {
    var q := (n - size + size - 1) / size;
    assert n - size + size - 1 == size * q + (n - 1) % size;
    assert n + size - 1 == size * (q + 1) + (n - 1) % size;
    DivUnique(n + size - 1, size, q + 1, (n - 1) % size);
  }

  lemma MulSign(d: int, k: int)
    requires d >= 0
    ensures k >= 1 ==> d * k >= d
    ensures k <= -1 ==> d * k <= -d
  {
    assert d * k == d + d * (k - 1) == -d + d * (k + 1);
    assert k >= 1 ==> d * (k - 1) >= 0;
    assert k <= -1 ==> d * (k + 1) <= 0;
  }

  lemma DivUnique(a: nat, d: nat, q: nat, r: nat)
    requires d > 0 && a == d * q + r && r < d
    ensures a / d == q
  {
    var k := q - a / d;
    assert d * k == d * q - d * (a / d) == a % d - r;
    MulSign(d, k);
  }

  /** Slices of size ceil(n / limit) need no more than `limit` threads. */
  lemma AtMostLimit(n: nat, limit: nat)
    requires n > 0 && limit > 0
    ensures CeilDiv(n, limit) > 0
    ensures CeilDiv(n, CeilDiv(n, limit)) <= limit
  {
    var size := CeilDiv(n, limit);
    SizeCovers(n, limit, size);
    var k := CeilDiv(n, size);
    SizeCovers(n, size, k);
    assert size * (k - limit) == size * k - size * limit;
    MulSign(size, k - limit);
  }

  lemma SizeCovers(n: nat, d: nat, q: int)
    requires n > 0 && d > 0 && q == CeilDiv(n, d)
    ensures q > 0 && n <= d * q <= n + d - 1
  {
    assert n + d - 1 == d * q + (n + d - 1) % d;
    MulSign(d, q);
    assert q == 0 ==> d * q == 0;
  }

  /** Python's ceiling of n / limit, for limits of either sign. */
  lemma CeilBrackets(n: nat, limit: int)
    requires limit != 0
    ensures var q := CeilDiv(n, limit);
            if limit > 0 then limit * (q - 1) < n <= limit * q else limit * q <= n < limit * (q - 1)
  {
    if limit > 0 {
      CeilAbove(n, limit, CeilDiv(n, limit));
    } else {
      CeilBelow(n, -limit, n / -limit);
    }
  }

  lemma CeilAbove(n: nat, d: nat, q: int)
    requires d > 0 && q == (n + d - 1) / d
    ensures d * (q - 1) < n <= d * q
  {
    assert n + d - 1 == d * q + (n + d - 1) % d;
    assert d * (q - 1) == d * q - d;
  }

  lemma CeilBelow(n: nat, d: int, k: int)
    requires d > 0 && k == n / d
    ensures -d * -k <= n < -d * (-k - 1)
  {
    assert n == d * k + n % d;
    assert -d * -k == d * k;
    assert -d * (-k - 1) == d * k + d;
  }

  /** `batch_size` (None: the division by a zero limit raises) and the slicing of `batch_list`. */
  method BatchList<T>(vms: seq<T>, limit: int) returns (batches: Option<seq<seq<T>>>)
    ensures batches.None? <==> limit == 0
    ensures limit != 0 && (vms == [] || limit < 0) ==> batches == Some([])
    ensures limit > 0 && vms != [] ==>
              CeilDiv(|vms|, limit) > 0 && batches == Some(Slices(vms, CeilDiv(|vms|, limit)))
  {
    if limit == 0 {
      return None;
    }
    var size := CeilDiv(|vms|, limit);
    var slices: seq<seq<T>> := [];
    SizeSign(|vms|, limit);
    if size > 0 {
      var i := 0;
      ghost var cut := 0;
      while i < |vms|
        invariant 0 <= cut <= |vms| && 0 <= i && (i < |vms| ==> cut == i) && (i >= |vms| ==> cut == |vms|)
        invariant slices + Slices(vms[cut..], size) == Slices(vms, size)
      {
        var end := if i + size <= |vms| then i + size else |vms|;
        SliceOff(vms, i, size);
        slices := slices + [vms[i..end]];
        i, cut := i + size, end;
      }
      assert slices + [] == slices;
    }
    batches := Some(slices);
  }

  lemma SizeSign(n: nat, limit: int)
    requires limit != 0
    ensures CeilDiv(n, limit) > 0 <==> n > 0 && limit > 0
  {
    if limit < 0 {
      assert n / -limit >= 0;
    } else if n > 0 {
      AtMostLimit(n, limit);
    } else {
      assert (limit - 1) / limit == 0;
    }
  }

  lemma SliceOff<T>(vms: seq<T>, i: nat, size: nat)
    requires i < |vms| && size > 0
    ensures var end := if i + size <= |vms| then i + size else |vms|;
            Slices(vms[i..], size) == [vms[i..end]] + Slices(vms[end..], size)
  {
    var rest := vms[i..];
    if i + size < |vms| {
      assert rest[..size] == vms[i..i + size] && rest[size..] == vms[i + size..];
    } else {
      assert vms[i..|vms|] == rest && vms[|vms|..] == [];
    }
  }

  /** The batches partition the VM list, are nonempty, and are no more than the limit. */
  lemma BatchesPartition<T>(vms: seq<T>, limit: nat)
    requires limit > 0 && vms != []
    ensures var size := CeilDiv(|vms|, limit);
            && size > 0
            && Concat(Slices(vms, size)) == vms
            && |Slices(vms, size)| <= limit
            && (forall b :: b in Slices(vms, size) ==> 0 < |b| <= size)
            && forall i :: 0 <= i < |Slices(vms, size)| - 1 ==> |Slices(vms, size)[i]| == size
  {
    AtMostLimit(|vms|, limit);
    SlicesPartition(vms, CeilDiv(|vms|, limit));
    SlicesFull(vms, CeilDiv(|vms|, limit));
  }

  // ---- One post-run worker

  /** The failing VMs of a batch, as `_run_post_virt_check` reports them. */
  function Failures(batch: seq<Reading>, start: Clock): seq<Record>
  {
    if batch == [] then []
    else
      var r := batch[|batch| - 1];
      Failures(batch[..|batch| - 1], start)
      + (if Healthy(StatusOf(r)) then []
         else [Record(r.name, StatusOf(r), ComputeCheckType(StatusOf(r)), r.node, r.newIp, start, start, 0)])
  }

  method RunPostVirtCheck(batch: seq<Reading>, start: Clock) returns (telemetry: seq<Record>)
    ensures telemetry == Failures(batch, start)
  {
    telemetry := [];
    for v := 0 to |batch|
      invariant telemetry == Failures(batch[..v], start)
    {
      assert batch[..v + 1][..v] == batch[..v];
      var r := batch[v];
      var status := StatusOf(r);
      if !(status.ssh && status.ready) {
        telemetry := telemetry
          + [Record(r.name, status, ComputeCheckType(status), r.node, r.newIp, start, start, 0)];
      }
    }
    assert batch[..|batch|] == batch;
  }

  /** The record of a VM that failed the check `r` of a worker begun at `start`. */
  predicate Reports(p: Record, r: Reading, start: Clock)
  {
    && p.name == r.name
    && (p.status.ssh <==> r.ssh == Some(true)) && (p.status.ready <==> r.ready)
    && (p.checkType.Both? <==> !p.status.ssh && !p.status.ready)
    && (p.checkType.SshAccess? <==> !p.status.ssh && p.status.ready)
    && (p.checkType.VmiReady? <==> p.status.ssh && !p.status.ready)
    && p.node == r.node && p.newIp == r.newIp
    && p.start == start && p.end == start && p.duration == 0
  }

  /** The number of failing checks among the first `n`. */
  function FailingBefore(batch: seq<Reading>, n: nat): nat
    requires n <= |batch|
  {
    if n == 0 then 0
    else FailingBefore(batch, n - 1) + (if batch[n - 1].ssh == Some(true) && batch[n - 1].ready then 0 else 1)
  }

  /** A worker reports each VM whose SSH or readiness check failed, in order and with its own fields,
      and no other. */
  lemma {:induction false} FailuresAreReported(batch: seq<Reading>, start: Clock)
    ensures |Failures(batch, start)| == FailingBefore(batch, |batch|)
    ensures forall v :: 0 <= v < |batch| && (batch[v].ssh != Some(true) || !batch[v].ready) ==>
              && FailingBefore(batch, v) < |Failures(batch, start)|
              && Reports(Failures(batch, start)[FailingBefore(batch, v)], batch[v], start)
  {
    if batch != [] {
      hide Reports;
      var n := |batch| - 1;
      FailuresAreReported(batch[..n], start);
      forall v | 0 <= v <= n ensures FailingBefore(batch, v) == FailingBefore(batch[..n], v) {
        SameFailing(batch, batch[..n], v);
      }
      LastReported(batch, start);
    }
  }

  lemma LastReported(batch: seq<Reading>, start: Clock)
    requires batch != [] && |Failures(batch[..|batch| - 1], start)| == FailingBefore(batch, |batch| - 1)
    ensures var n, all := |batch| - 1, Failures(batch, start);
            && |all| == FailingBefore(batch, |batch|)
            && (forall i :: 0 <= i < FailingBefore(batch, n) ==> all[i] == Failures(batch[..n], start)[i])
            && (batch[n].ssh != Some(true) || !batch[n].ready ==>
                  |all| == FailingBefore(batch, n) + 1 && Reports(all[FailingBefore(batch, n)], batch[n], start))
  {
  }

  lemma {:induction false} SameFailing(a: seq<Reading>, b: seq<Reading>, n: nat)
    requires n <= |a| && n <= |b| && a[..n] == b[..n]
    ensures FailingBefore(a, n) == FailingBefore(b, n)
  {
    if n > 0 {
      assert a[..n][n - 1] == b[..n][n - 1];
      assert a[..n][..n - 1] == a[..n - 1] && b[..n][..n - 1] == b[..n - 1];
      SameFailing(a, b, n - 1);
    }
  }

  // ---- Gathering: join one thread, take one batch, for any schedule

  /** `queue` holds the numbers of the workers whose batch waits; `next` is the thread the main
      thread joins next, or has joined when `joined` is set. */
  datatype Gather = Gather(finished: set<nat>, queue: seq<nat>, next: nat, joined: bool, taken: seq<nat>)

  datatype Move = Finish(worker: nat) | Join | Take

  /** One step of `n` workers and the main thread; None when the move is not possible. */
  function GatherNext(n: nat, g: Gather, m: Move): Option<Gather>
  {
    match m
    case Finish(w) =>
      if w < n && w !in g.finished then Some(g.(finished := g.finished + {w}, queue := g.queue + [w])) else None
    case Join =>
      // join blocks until the thread has ended
      if g.next < n && !g.joined && g.next in g.finished then Some(g.(joined := true)) else None
    case Take =>
      // the code tolerates an empty queue by taking nothing
      if !g.joined then None
      else if g.queue == [] then Some(g.(next := g.next + 1, joined := false))
      else Some(g.(next := g.next + 1, joined := false, taken := g.taken + [g.queue[0]], queue := g.queue[1..]))
  }

  function Play(n: nat, moves: seq<Move>): Option<Gather>
  {
    if moves == [] then Some(Gather({}, [], 0, false, []))
    else match Play(n, moves[..|moves| - 1])
         case None => None
         case Some(g) => GatherNext(n, g, moves[|moves| - 1])
  }

  ghost predicate GatherInv(n: nat, g: Gather)
  {
    && (forall w :: w in g.finished ==> w < n)
    && (forall w :: w in g.taken + g.queue <==> w in g.finished)
    && (forall i, j :: 0 <= i < j < |g.taken + g.queue| ==> (g.taken + g.queue)[i] != (g.taken + g.queue)[j])
    && g.next <= n && (g.joined ==> g.next < n && g.next in g.finished)
    && (forall w :: 0 <= w < g.next ==> w in g.finished)
    && |g.taken| == g.next
  }

  function Members(xs: seq<nat>): set<nat> { set w | w in xs }

  function Below(n: nat): (r: set<nat>)
    ensures forall w: nat :: w in r <==> w < n
    ensures |r| == n
  {
    if n == 0 then {} else Below(n - 1) + {n - 1}
  }

  /** Because every joined worker has put its batch, a join always finds the queue nonempty. */
  lemma QueueNeverEmpty(n: nat, g: Gather)
    requires GatherInv(n, g) && g.joined
    ensures g.queue != []
  {
    if g.queue == [] {
      assert g.taken + g.queue == g.taken;
      var first := Below(g.next + 1);
      assert first <= g.finished;
      assert g.finished == Members(g.taken);
      DistinctCount(g.taken);
      SubsetCount(first, g.finished);
    }
  }

  lemma {:induction false} DistinctCount(xs: seq<nat>)
    requires forall i, j :: 0 <= i < j < |xs| ==> xs[i] != xs[j]
    ensures |Members(xs)| == |xs|
  {
    if xs != [] {
      var init, last := xs[..|xs| - 1], xs[|xs| - 1];
      DistinctCount(init);
      assert xs == init + [last];
      assert last !in init;
      assert Members(xs) == Members(init) + {last};
    } else {
      assert Members(xs) == {};
    }
  }

  lemma {:induction false} SubsetCount(a: set<nat>, b: set<nat>)
    requires a <= b
    ensures |a| <= |b|
    ensures |a| == |b| ==> a == b
  {
    assert b == a + (b - a);
    assert |b| == |a| + |b - a|;
  }

  lemma GatherKeeps(n: nat, g: Gather, m: Move)
    requires GatherInv(n, g) && GatherNext(n, g, m).Some?
    ensures GatherInv(n, GatherNext(n, g, m).value)
    ensures m.Take? ==> g.queue != []
  {
    var g' := GatherNext(n, g, m).value;
    match m
    case Finish(w) =>
      assert g'.taken + g'.queue == (g.taken + g.queue) + [w];
    case Join =>
    case Take =>
      QueueNeverEmpty(n, g);
      assert g'.taken + g'.queue == g.taken + g.queue;
  }

  lemma {:induction false} PlayKeeps(n: nat, moves: seq<Move>)
    requires Play(n, moves).Some?
    ensures GatherInv(n, Play(n, moves).value)
  {
    if moves != [] {
      PlayKeeps(n, moves[..|moves| - 1]);
      GatherKeeps(n, Play(n, moves[..|moves| - 1]).value, moves[|moves| - 1]);
    }
  }

  /** The moves still possible: one for each running thread, a join and a take for each thread left. */
  function MovesLeft(n: nat, g: Gather): int
  {
    n - |g.finished| + 2 * (n - g.next) - (if g.joined then 1 else 0)
  }

  /** Gathering never gets stuck and ends: until every thread has been joined and its batch taken some
      move is possible, and each move leaves one fewer. */
  lemma GatherProceeds(n: nat, moves: seq<Move>)
    requires Play(n, moves).Some?
    ensures var g := Play(n, moves).value;
            && g.next <= n && 0 <= MovesLeft(n, g) <= 3 * n - |moves|
            && (g.next < n ==> exists m :: GatherNext(n, g, m).Some?)
  {
    PlayKeeps(n, moves);
    MovesRunOut(n, moves);
    var g := Play(n, moves).value;
    FinishedBound(n, g);
    if g.next < n {
      assert GatherNext(n, g, if g.joined then Take else if g.next in g.finished then Join else Finish(g.next)).Some?;
    }
  }

  lemma {:induction false} MovesRunOut(n: nat, moves: seq<Move>)
    requires Play(n, moves).Some?
    ensures MovesLeft(n, Play(n, moves).value) == 3 * n - |moves|
  {
    if moves != [] {
      MovesRunOut(n, moves[..|moves| - 1]);
    }
  }

  lemma FinishedBound(n: nat, g: Gather)
    requires GatherInv(n, g)
    ensures |g.finished| <= n && (g.joined ==> g.next < n)
  {
    assert g.finished <= Below(n);
    SubsetCount(g.finished, Below(n));
  }

  /** The threads in the order in which they finished. */
  function Finishes(moves: seq<Move>): seq<nat>
  {
    if moves == [] then []
    else
      var last := moves[|moves| - 1];
      Finishes(moves[..|moves| - 1]) + (if last.Finish? then [last.worker] else [])
  }

  /** Batches are taken in the order in which the threads finished, not in that of the joins. */
  lemma {:induction false} TakenAsFinished(n: nat, moves: seq<Move>)
    requires Play(n, moves).Some?
    ensures Play(n, moves).value.taken + Play(n, moves).value.queue == Finishes(moves)
  {
    if moves != [] {
      var init, last := moves[..|moves| - 1], moves[|moves| - 1];
      TakenAsFinished(n, init);
      var g := Play(n, init).value;
      assert last.Take? && g.queue != [] ==> g.taken + g.queue == (g.taken + [g.queue[0]]) + g.queue[1..];
    }
  }

  /** The batches in the order they were taken, joined into one list. */
  function Collected<T>(results: seq<seq<T>>, taken: seq<nat>): seq<T>
    requires forall i :: 0 <= i < |taken| ==> taken[i] < |results|
  {
    if taken == [] then [] else Collected(results, taken[..|taken| - 1]) + results[taken[|taken| - 1]]
  }

  /** Whatever the schedule, once every thread has been joined the result holds every batch
      exactly once: it is the union, as multisets, of all the workers' results. */
  lemma GatherIsComplete<T>(results: seq<seq<T>>, moves: seq<Move>)
    requires Play(|results|, moves).Some? && Play(|results|, moves).value.next == |results|
    ensures var g := Play(|results|, moves).value;
            && (forall w: nat :: w in g.taken <==> w < |results|)
            && (forall i :: 0 <= i < |g.taken| ==> g.taken[i] < |results|)
            && multiset(Collected(results, g.taken)) == multiset(Concat(results))
  {
    var n := |results|;
    var g := Play(n, moves).value;
    PlayKeeps(n, moves);
    AllTaken(n, g);
    assert forall i :: 0 <= i < |g.taken| ==> g.taken[i] in g.taken;
    CollectedSum(results, g.taken, n);
    ConcatSum(results, n);
    assert results[..n] == results;
  }

  /** What the workers find: worker `w` checks batch `w`, having begun at `starts[w]`. */
  function AllFailures(batches: seq<seq<Reading>>, starts: seq<Clock>): (r: seq<seq<Record>>)
    requires |batches| == |starts|
    ensures |r| == |batches| && forall w :: 0 <= w < |r| ==> r[w] == Failures(batches[w], starts[w])
  {
    seq(|batches|, w requires 0 <= w < |batches| => Failures(batches[w], starts[w]))
  }

  /** Under every schedule the gathered list is empty, and so the return value is left alone,
      exactly when no VM of any batch failed its check. */
  lemma GatheredMeansFailure(batches: seq<seq<Reading>>, starts: seq<Clock>, moves: seq<Move>)
    requires |batches| == |starts|
    requires Play(|batches|, moves).Some? && Play(|batches|, moves).value.next == |batches|
    ensures var taken := Play(|batches|, moves).value.taken;
            && (forall i :: 0 <= i < |taken| ==> taken[i] < |batches|)
            && (Collected(AllFailures(batches, starts), taken) == [] <==>
                forall w, v :: 0 <= w < |batches| && 0 <= v < |batches[w]| ==> Healthy(StatusOf(batches[w][v])))
  {
    var results := AllFailures(batches, starts);
    GatherIsComplete(results, moves);
    var found := Collected(results, Play(|batches|, moves).value.taken);
    assert found == [] <==> multiset(found) == multiset{};
    assert Concat(results) == [] <==> multiset(Concat(results)) == multiset{};
    EmptyConcat(results);
    forall w | 0 <= w < |batches|
      ensures results[w] == [] <==> forall v :: 0 <= v < |batches[w]| ==> Healthy(StatusOf(batches[w][v]))
    {
      NoFailures(batches[w], starts[w]);
    }
  }

  lemma {:induction false} EmptyConcat<T>(parts: seq<seq<T>>)
    ensures Concat(parts) == [] <==> forall i :: 0 <= i < |parts| ==> parts[i] == []
  {
    if parts != [] {
      EmptyConcat(parts[1..]);
      assert forall i :: 0 < i < |parts| ==> parts[i] == parts[1..][i - 1];
      assert forall i :: 0 <= i < |parts[1..]| ==> parts[1..][i] == parts[i + 1];
    }
  }

  lemma {:induction false} NoFailures(batch: seq<Reading>, start: Clock)
    ensures Failures(batch, start) == [] <==> forall v :: 0 <= v < |batch| ==> Healthy(StatusOf(batch[v]))
  {
    if batch != [] {
      var init := batch[..|batch| - 1];
      NoFailures(init, start);
      assert batch == init + [batch[|batch| - 1]];
      assert forall v :: 0 <= v < |init| ==> init[v] == batch[v];
    }
  }

  lemma AllTaken(n: nat, g: Gather)
    requires GatherInv(n, g) && g.next == n
    ensures Members(g.taken) == Below(n)
    ensures forall i, j :: 0 <= i < j < |g.taken| ==> g.taken[i] != g.taken[j]
    ensures forall w: nat :: w in g.taken <==> w < n
  {
    assert forall i :: 0 <= i < |g.taken| ==> (g.taken + g.queue)[i] == g.taken[i];
    DistinctCount(g.taken);
    forall w | w in g.taken ensures w in Below(n) {
      assert w in g.taken + g.queue;
    }
    SubsetCount(Members(g.taken), Below(n));
    forall w: nat ensures w in g.taken <==> w < n {
      assert w in Members(g.taken) <==> w in Below(n);
    }
  }

  /** The multiset sum of the results of the workers in a set below `n`. */
  ghost function Sum<T>(results: seq<seq<T>>, workers: set<nat>, n: nat): multiset<T>
    requires n <= |results|
  {
    if n == 0 then multiset{}
    else Sum(results, workers, n - 1) + (if n - 1 in workers then multiset(results[n - 1]) else multiset{})
  }

  lemma {:induction false} SumAdd<T>(results: seq<seq<T>>, workers: set<nat>, w: nat, n: nat)
    requires n <= |results| && w !in workers && w < |results|
    ensures Sum(results, workers + {w}, n) ==
            Sum(results, workers, n) + (if w < n then multiset(results[w]) else multiset{})
  {
    if n > 0 {
      SumAdd(results, workers, w, n - 1);
    }
  }

  lemma {:induction false} CollectedSum<T>(results: seq<seq<T>>, taken: seq<nat>, n: nat)
    requires n == |results| && forall i :: 0 <= i < |taken| ==> taken[i] < n
    requires forall i, j :: 0 <= i < j < |taken| ==> taken[i] != taken[j]
    ensures multiset(Collected(results, taken)) == Sum(results, Members(taken), n)
  {
    if taken == [] {
      SumNone(results, n);
      assert Members(taken) == {};
    } else {
      var init, last := taken[..|taken| - 1], taken[|taken| - 1];
      assert taken == init + [last];
      CollectedSum(results, init, n);
      assert last !in init;
      SumAdd(results, Members(init), last, n);
      assert Members(taken) == Members(init) + {last};
    }
  }

  lemma {:induction false} SumNone<T>(results: seq<seq<T>>, n: nat)
    requires n <= |results|
    ensures Sum(results, {}, n) == multiset{}
  {
    if n > 0 { SumNone(results, n - 1); }
  }

  lemma {:induction false} ConcatSum<T>(results: seq<seq<T>>, n: nat)
    requires n <= |results|
    ensures multiset(Concat(results[..n])) == Sum(results, Below(|results|), n)
  {
    hide Concat, Sum;
    if n == 0 {
      NothingSummed(results);
    } else {
      ConcatSum(results, n - 1);
      ConcatSnoc(results[..n - 1], results[n - 1]);
      assert results[..n] == results[..n - 1] + [results[n - 1]];
      SumStep(results, n);
      var front := Concat(results[..n - 1]);
      assert multiset(front + results[n - 1]) == multiset(front) + multiset(results[n - 1]);
    }
  }

  lemma NothingSummed<T>(results: seq<seq<T>>)
    ensures Concat(results[..0]) == [] && Sum(results, Below(|results|), 0) == multiset{}
  {
  }

  lemma SumStep<T>(results: seq<seq<T>>, n: nat)
    requires 0 < n <= |results|
    ensures Sum(results, Below(|results|), n) == Sum(results, Below(|results|), n - 1) + multiset(results[n - 1])
  {
    hide Below;
    assert n - 1 in Below(|results|);
  }

  lemma {:induction false} ConcatSnoc<T>(parts: seq<seq<T>>, last: seq<T>)
    ensures Concat(parts + [last]) == Concat(parts) + last
  {
    if parts == [] {
      assert Concat([last]) == last + Concat([]);
    } else {
      ConcatSnoc(parts[1..], last);
      assert (parts + [last])[1..] == parts[1..] + [last];
    }
  }
}
