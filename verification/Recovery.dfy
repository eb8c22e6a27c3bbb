// Any number of rollback runs over one journal, each of which may fail part-way.

module Recovery {
  import opened Lists
  import opened Options
  import opened Text
  import opened Versions
  import opened Search
  import opened Journal
  import opened Listings

  /** Consecutive calls for one run and type, with no registration in between. */
  ghost predicate History(states: seq<Files>, attempts: seq<Attempt>, uuid: Option<string>, t: Option<string>)
  {
    && |states| == |attempts| + 1
    && forall i :: 0 <= i < |attempts| ==>
         Attempted(states[i], states[i + 1], attempts[i]) && FoundPending(states[i], attempts[i], uuid, t)
  }

  function MarkedIn(attempts: seq<Attempt>): set<Path>
  {
    if attempts == [] then {}
    else MarkedIn(attempts[..|attempts| - 1]) + Elements(attempts[|attempts| - 1].marked)
  }

  /** One call: only pending files run, newest first; those marked ran to completion and are a
      prefix; exactly they stop being pending, and after a clean call nothing is. */
  lemma AttemptEffect(before: Files, after: Files, a: Attempt, uuid: Option<string>, t: Option<string>)
    requires Attempted(before, after, a) && FoundPending(before, a, uuid, t)
    ensures a.marked <= a.returned <= a.found
    ensures Elements(a.marked) <= Elements(a.found) <= Pending(before, uuid, t)
    ensures NoDuplicates(a.marked) && forall p :: p in a.marked ==> p in before && IsVersionFile(p.file, None)
    ensures Pending(after, uuid, t) == Pending(before, uuid, t) - Elements(a.marked)
    ensures a.outcome.Clean? ==> Pending(after, uuid, t) == {}
    ensures Searched(a) && !a.outcome.Clean? ==> Elements(a.found[|a.marked|..]) == Pending(after, uuid, t)
  {
    hide IsVersionFile, IsContextDirectory, Key, Result, MarkAll;
    MarkAllPending(before, a.marked, uuid, t);
    assert forall i :: 0 <= i < |a.marked| ==> a.marked[i] == a.found[i];
    forall p | p in a.found ensures p in Pending(before, uuid, t) && IsVersionFile(p.file, None) {
      assert p in Elements(a.found);
      WeakerFilter(p.file, t);
    }
    if Searched(a) {
      assert a.found == a.marked + a.found[|a.marked|..];
    }
  }

  lemma WeakerFilter(name: string, t: Option<string>)
    requires IsVersionFile(name, t)
    ensures IsVersionFile(name, None)
  {
  }

  /** However the calls fail, every marked file leaves the pending set for good: nothing marked
      runs again, nothing unmarked is forgotten, and a clean call leaves nothing to do. */
  lemma {:induction false} CrashResume(states: seq<Files>, attempts: seq<Attempt>, uuid: Option<string>,
                                       t: Option<string>)
    requires History(states, attempts, uuid, t)
    ensures Pending(states[|attempts|], uuid, t) == Pending(states[0], uuid, t) - MarkedIn(attempts)
    ensures MarkedIn(attempts) <= Pending(states[0], uuid, t)
    ensures forall i, j :: 0 <= i < j < |attempts| ==> Elements(attempts[i].marked) !! Elements(attempts[j].found)
    ensures attempts != [] && attempts[|attempts| - 1].outcome.Clean? ==>
            MarkedIn(attempts) == Pending(states[0], uuid, t)
  {
    if attempts != [] {
      hide Pending, Key, Result, MarkAll;
      var n := |attempts| - 1;
      var earlier, last := attempts[..n], attempts[n];
      CrashResume(states[..n + 1], earlier, uuid, t);
      AttemptEffect(states[n], states[n + 1], last, uuid, t);
      forall i, j | 0 <= i < j < |attempts|
        ensures Elements(attempts[i].marked) !! Elements(attempts[j].found)
      {
        if j == n {
          MarkedInHas(earlier, i);
        } else {
          assert earlier[i] == attempts[i] && earlier[j] == attempts[j];
        }
      }
    }
  }

  lemma {:induction false} MarkedInHas(attempts: seq<Attempt>, i: nat)
    requires i < |attempts|
    ensures Elements(attempts[i].marked) <= MarkedIn(attempts)
  {
    if i < |attempts| - 1 {
      MarkedInHas(attempts[..|attempts| - 1], i);
    }
  }

  /** No rollback is lost: its content is either still pending or under the mark of its file. */
  lemma {:induction false} ContentSurvives(states: seq<Files>, attempts: seq<Attempt>,
                                           uuid: Option<string>, t: Option<string>, p: Path)
    requires History(states, attempts, uuid, t) && p in Pending(states[0], uuid, t)
    ensures var end := states[|attempts|];
            if p in MarkedIn(attempts)
            then Executed(p) in end && end[Executed(p)] == states[0][p]
            else p in end && end[p] == states[0][p]
  {
    if attempts != [] {
      hide IsVersionFile, IsContextDirectory, Key, Result, MarkAll, Pending;
      var n := |attempts| - 1;
      var earlier, last := attempts[..n], attempts[n];
      ContentSurvives(states[..n + 1], earlier, uuid, t, p);
      CrashResume(states[..n + 1], earlier, uuid, t);
      AttemptEffect(states[n], states[n + 1], last, uuid, t);
      PendingIsVersionFile(states[0], uuid, t, p);
      if p in last.marked {
        assert p in Elements(last.marked);
        MarkAllMoves(states[n], last.marked, p);
      } else {
        MarkingKeeps(states[n], last.marked, p);
      }
    }
  }

  lemma PendingIsVersionFile(files: Files, uuid: Option<string>, t: Option<string>, p: Path)
    requires p in Pending(files, uuid, t)
    ensures p in files && IsVersionFile(p.file, None)
  {
    WeakerFilter(p.file, t);
  }

  /** Marking other version files keeps a version file and its mark as they are. */
  lemma MarkingKeeps(files: Files, marked: seq<Path>, p: Path)
    requires IsVersionFile(p.file, None) && p !in marked
    requires forall q :: q in marked ==> IsVersionFile(q.file, None)
    ensures var after := MarkAll(files, marked);
            && (p in after <==> p in files) && (p in files ==> after[p] == files[p])
            && (Executed(p) in after <==> Executed(p) in files)
            && (Executed(p) in files ==> after[Executed(p)] == files[Executed(p)])
  {
    hide IsVersionFile, MarkAll;
    forall q | q in marked ensures p != Executed(q) && Executed(p) != Executed(q) && q != Executed(p) {
      VersionFileIsNoMark(p, q);
      VersionFileIsNoMark(q, p);
      ExecutedDisjoint(p, q, None, None);
    }
    MarkAllFrame(files, marked, p);
    MarkAllFrame(files, marked, Executed(p));
  }

  /** What a call found and no call from then on has marked, in the order it had. */
  function Unmarked(found: seq<Path>, marked: set<Path>): seq<Path>
  {
    Keep(found, Elements(found) - marked)
  }

  lemma {:induction false} KeepOrder(xs: seq<Path>, kept: set<Path>)
    requires NewestFirst(xs)
    ensures NewestFirst(Keep(xs, kept))
  {
    hide Key;
    if xs != [] {
      var init, last := xs[..|xs| - 1], xs[|xs| - 1];
      KeepOrder(init, kept);
      KeepHas(init, kept);
      forall p | p in init ensures Key(p) >= Key(last) {
        var i :| 0 <= i < |init| && init[i] == p;
        assert xs[i] == p;
      }
    }
  }

  /** The calls from `i` on, up to but not including `j`, as a history of their own. */
  lemma Since(states: seq<Files>, attempts: seq<Attempt>, uuid: Option<string>, t: Option<string>, i: nat, j: nat)
    requires History(states, attempts, uuid, t) && i <= j <= |attempts|
    ensures History(states[i..j + 1], attempts[i..j], uuid, t)
    ensures Pending(states[j], uuid, t) == Pending(states[i], uuid, t) - MarkedIn(attempts[i..j])
  {
    hide Attempted, FoundPending, Pending, MarkedIn;
    var s, a := states[i..j + 1], attempts[i..j];
    forall k | 0 <= k < |a| ensures Attempted(s[k], s[k + 1], a[k]) && FoundPending(s[k], a[k], uuid, t) {
      assert s[k] == states[i + k] && s[k + 1] == states[i + k + 1] && a[k] == attempts[i + k];
    }
    CrashResume(s, a, uuid, t);
  }

  /** Any later call finds exactly the files that the earlier one found and that have not been marked
      since. It processes them in the same order exactly when its listing shows files of one
      timestamp in the order they had. */
  lemma LaterCallFinds(states: seq<Files>, attempts: seq<Attempt>, uuid: Option<string>, t: Option<string>, i: nat,
                       j: nat)
    requires History(states, attempts, uuid, t) && i < j < |attempts|
    requires Searched(attempts[i]) && Searched(attempts[j])
    ensures var rest := Unmarked(attempts[i].found, MarkedIn(attempts[i..j]));
            && NoDuplicates(rest) && NewestFirst(rest)
            && Elements(rest) == Pending(states[j], uuid, t) == Elements(attempts[j].found)
            && (attempts[j].found == rest <==> SameTies(rest, ListedBy(attempts[j], uuid, t)))
  {
    hide IsVersionFile, IsContextDirectory, Key, Result, MarkAll, Pending, SortNewestFirst, SameTies, Keep, MarkedIn;
    var a, b, marked := attempts[i], attempts[j], MarkedIn(attempts[i..j]);
    assert FoundPending(states[i], a, uuid, t) && FoundPending(states[j], b, uuid, t);
    Since(states, attempts, uuid, t, i, j);
    KeepHas(a.found, Elements(a.found) - marked);
    KeepElements(a.found, Elements(a.found) - marked);
    KeepOrder(a.found, Elements(a.found) - marked);
    FoundIsSorted(states[j], b, uuid, t);
    SortedIff(ListedBy(b, uuid, t), Unmarked(a.found, marked));
  }

  /** So a later call resumes where the earlier one stopped, however the system lists the store then,
      exactly when no two of the files left have one timestamp. */
  lemma ResumesWhereItStopped(states: seq<Files>, attempts: seq<Attempt>, uuid: Option<string>, t: Option<string>,
                              i: nat, j: nat, l: seq<Listed>, folders: set<string>, plain: set<string>)
    requires History(states, attempts, uuid, t) && i < j < |attempts|
    requires Searched(attempts[i]) && Searched(attempts[j])
    requires ListingOf(Some(l), states[j], folders, plain) && folders !! plain
    requires !exists n :: n in plain && IsContextDirectory(n, uuid)
    ensures var rest := Unmarked(attempts[i].found, MarkedIn(attempts[i..j]));
            (forall other :: ListingOf(Some(other), states[j], folders, plain) ==>
              Result(Some(other), uuid, t) == Found(rest))
            <==> StrictlyNewestFirst(rest)
  {
    assert |states| == |attempts| + 1;
    hide History, ListingOf, Result, Keep, MarkedIn, IsContextDirectory;
    LaterCallFinds(states, attempts, uuid, t, i, j);
    EveryListingGivesIff(l, states[j], folders, plain, uuid, t, Unmarked(attempts[i].found, MarkedIn(attempts[i..j])));
  }

  // ---- Rollbacks that run again

  /** A callable that has returned runs again in a later call exactly when its file has not been
      marked in between. */
  lemma RunsAgainUnlessMarked(states: seq<Files>, attempts: seq<Attempt>, uuid: Option<string>, t: Option<string>,
                              i: nat, j: nat, p: Path)
    requires History(states, attempts, uuid, t) && i < j < |attempts| && Searched(attempts[j])
    requires p in attempts[i].returned
    ensures p in attempts[j].found <==> p !in MarkedIn(attempts[..j])
  {
    hide Pending, MarkedIn, IsVersionFile, IsContextDirectory, Key, Result, MarkAll;
    AttemptEffect(states[i], states[i + 1], attempts[i], uuid, t);
    ReturnedWasFound(attempts[i], p);
    Since(states, attempts, uuid, t, 0, i);
    Since(states, attempts, uuid, t, 0, j);
    assert FoundPending(states[j], attempts[j], uuid, t);
    assert p in Elements(attempts[j].found) <==> p in Pending(states[j], uuid, t);
    assert attempts[0..j] == attempts[..j] && attempts[0..i] == attempts[..i];
  }

  lemma ReturnedWasFound(a: Attempt, p: Path)
    requires a.returned <= a.found && p in a.returned
    ensures p in Elements(a.found)
  {
    var k :| 0 <= k < |a.returned| && a.returned[k] == p;
    assert a.found[k] == p;
  }

  /** In particular the next call runs again exactly the callable whose file could not be renamed. */
  lemma RunsAgainIffNotRenamed(before: Files, mid: Files, after: Files, a: Attempt, b: Attempt, uuid: Option<string>,
                               t: Option<string>, completes: Path -> bool, renames: Path -> bool)
    requires History([before, mid, after], [a, b], uuid, t) && Searched(b)
    requires Faithful(a, completes, renames)
    ensures forall p :: p in a.returned ==> (p in b.found <==> !renames(p))
    ensures (exists p :: p in a.returned && p in b.found) <==> a.outcome.RenameRaised?
  {
    hide Pending, IsVersionFile, IsContextDirectory, Key, Result, MarkAll;
    var states, attempts := [before, mid, after], [a, b];
    assert states[0] == before && states[1] == mid && attempts[0] == a && attempts[1] == b;
    AttemptEffect(before, mid, a, uuid, t);
    assert attempts[..1] == [a] && [a][..0] == [];
    assert MarkedIn([a]) == Elements(a.marked);
    forall p | p in a.returned
      ensures (p in b.found <==> p !in a.marked)
              && (p !in a.marked ==> a.outcome.RenameRaised? && p == a.found[|a.marked|])
    {
      RunsAgainUnlessMarked(states, attempts, uuid, t, 0, 1, p);
      assert p in Elements(a.marked) <==> p in a.marked;
      ReturnedUnmarked(before, mid, a, p);
    }
    if a.outcome.RenameRaised? {
      var p := a.found[|a.marked|];
      NotMarkedTwice(a);
      assert a.returned[|a.marked|] == p;
    }
  }

  lemma ReturnedUnmarked(before: Files, after: Files, a: Attempt, p: Path)
    requires Attempted(before, after, a) && p in a.returned
    ensures p in a.marked || (a.outcome.RenameRaised? && p == a.found[|a.marked|])
  {
    hide MarkAll;
    var k :| 0 <= k < |a.returned| && a.returned[k] == p;
    assert k < |a.marked| ==> a.marked[k] == p;
  }

  lemma NotMarkedTwice(a: Attempt)
    requires NoDuplicates(a.found) && a.marked <= a.found && |a.marked| < |a.found|
    ensures a.found[|a.marked|] !in a.marked
  {
    assert forall k :: 0 <= k < |a.marked| ==> a.marked[k] == a.found[k];
  }
}
