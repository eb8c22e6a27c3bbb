// Series of registrations in one process: what they leave, and the order in which it is undone.

module Registrations {
  import opened Lists
  import opened Options
  import opened Text
  import opened Versions
  import opened Search
  import opened Journal
  import opened Listings

  predicate ValidSuffix(suffix: string) { |suffix| == SUFFIX_LENGTH && IsAlnum(suffix) }

  predicate SameTarget(r: Registration, q: Registration)
  {
    r.context == q.context && r.scenarioType == q.scenarioType
  }

  /** Registrations share a file exactly when they agree on context and type. */
  lemma TargetIsFile(r: Registration, q: Registration, timestamp: nat, suffix: string)
    requires ValidSuffix(suffix)
    ensures PathOf(r, timestamp, suffix) == PathOf(q, timestamp, suffix) <==> SameTarget(r, q)
  {
    hide FileName;
    if PathOf(r, timestamp, suffix) == PathOf(q, timestamp, suffix) {
      FileNameInjective(Version(r.scenarioType, timestamp, suffix), Version(q.scenarioType, timestamp, suffix));
    }
  }

  function RegisterAll(files: Files, plain: set<string>, regs: seq<Registration>, timestamp: nat, suffix: string): Files
  {
    if regs == [] then files
    else Stored(RegisterAll(files, plain, regs[..|regs| - 1], timestamp, suffix), plain, regs[|regs| - 1], timestamp,
      suffix)
  }

  /** A registration `j` that wrote to the file of registration `i` and was not followed by another
      that did. */
  ghost predicate LastWriter(regs: seq<Registration>, plain: set<string>, i: nat, j: nat)
  {
    && i <= j < |regs| && SameTarget(regs[j], regs[i]) && Reaches(regs[j], plain)
    && forall k :: j < k < |regs| && SameTarget(regs[k], regs[i]) ==> !Reaches(regs[k], plain)
  }

  /** After any series of registrations, over any contexts and types, the file of registration `i`
      holds what the last one of the same context and type left there, be it a torn write. So a
      registration that was written survives exactly when no such one follows, or the last that
      follows left the same content. */
  lemma {:induction false} LastRegistrationWins(files: Files, plain: set<string>, regs: seq<Registration>,
                                                timestamp: nat, suffix: string, i: nat) returns (j: nat)
    requires ValidSuffix(suffix) && i < |regs| && Reaches(regs[i], plain)
    ensures LastWriter(regs, plain, i, j)
    ensures var after, p := RegisterAll(files, plain, regs, timestamp, suffix), PathOf(regs[i], timestamp, suffix);
            && p in after && after[p] == Left(regs[j]).value
            && (regs[i].how.Writes? ==>
                  (after[p] == regs[i].content <==> j == i || Left(regs[j]).value == regs[i].content))
            && (regs[j].how.Writes? ==> after[p] == regs[j].content)
            && (regs[j].how.WritesPartly? ==>
                  after[p] <= regs[j].content && (after[p] == regs[j].content || |after[p]| == regs[j].how.count))
  {
    hide PathOf, Left;
    var n := |regs| - 1;
    var last := regs[n];
    TargetIsFile(last, regs[i], timestamp, suffix);
    if Reaches(last, plain) && SameTarget(last, regs[i]) {
      j := n;
    } else {
      var init := regs[..n];
      assert init[i] == regs[i];
      j := LastRegistrationWins(files, plain, init, timestamp, suffix, i);
      assert init[j] == regs[j];
      forall k | j < k < |regs| && SameTarget(regs[k], regs[i]) ensures !Reaches(regs[k], plain) {
        assert k < n ==> init[k] == regs[k];
      }
    }
    WrittenIsLeft(regs[i]);
    WrittenIsLeft(regs[j]);
  }

  lemma WrittenIsLeft(r: Registration)
    ensures r.how.Writes? ==> Left(r) == Some(r.content)
    ensures r.how.WritesPartly? ==>
              && Left(r).Some? && Left(r).value <= r.content
              && (Left(r).value == r.content || |Left(r).value| == r.how.count)
  {
  }

  /** No other file changes. */
  lemma {:induction false} RegistrationsElsewhere(files: Files, plain: set<string>, regs: seq<Registration>,
                                                  timestamp: nat, suffix: string, p: Path)
    requires forall i :: 0 <= i < |regs| && Reaches(regs[i], plain) ==> p != PathOf(regs[i], timestamp, suffix)
    ensures var after := RegisterAll(files, plain, regs, timestamp, suffix);
            (p in after <==> p in files) && (p in files ==> after[p] == files[p])
  {
    if regs != [] {
      RegistrationsElsewhere(files, plain, regs[..|regs| - 1], timestamp, suffix, p);
    }
  }

  // ---- The order of the rollbacks

  /** All files of one process have one sort key, whatever their contexts and types. */
  lemma OneKeyPerProcess(r: Registration, timestamp: nat, suffix: string)
    requires ValidSuffix(suffix)
    ensures Key(PathOf(r, timestamp, suffix)) == timestamp
  {
    VersionRoundTrip(Version(r.scenarioType, timestamp, suffix), None);
  }

  /** The files of a store in the order in which they were last written, oldest first, after a series
      of registrations by one process; `order` is that of the files there were before. */
  function WrittenOrder(order: seq<Path>, plain: set<string>, regs: seq<Registration>, timestamp: nat,
                        suffix: string): seq<Path>
  {
    if regs == [] then order
    else
      var last := regs[|regs| - 1];
      var earlier := WrittenOrder(order, plain, regs[..|regs| - 1], timestamp, suffix);
      if Reaches(last, plain) then MoveToEnd(earlier, PathOf(last, timestamp, suffix)) else earlier
  }

  function MoveToEnd(order: seq<Path>, p: Path): seq<Path>
  {
    Keep(order, Elements(order) - {p}) + [p]
  }

  /** `order` lists the files of a store, each once. */
  ghost predicate Enumerates(order: seq<Path>, files: Files)
  {
    NoDuplicates(order) && Elements(order) == files.Keys
  }

  lemma MoveToEndHas(order: seq<Path>, p: Path)
    requires NoDuplicates(order)
    ensures NoDuplicates(MoveToEnd(order, p)) && Elements(MoveToEnd(order, p)) == Elements(order) + {p}
  {
    hide Keep;
    var front := Keep(order, Elements(order) - {p});
    KeepHas(order, Elements(order) - {p});
    KeepElements(order, Elements(order) - {p});
    assert p !in front by {
      assert p !in Elements(front);
    }
    assert forall x :: x in front + [p] <==> x in front || x == p;
    assert forall x :: x in front <==> x in Elements(front);
  }

  /** Registrations keep the order an enumeration of the store; so it can be followed through any
      number of processes. */
  lemma {:induction false} WrittenOrderEnumerates(order: seq<Path>, files: Files, plain: set<string>,
                                                  regs: seq<Registration>, timestamp: nat, suffix: string)
    requires Enumerates(order, files)
    ensures Enumerates(WrittenOrder(order, plain, regs, timestamp, suffix),
                       RegisterAll(files, plain, regs, timestamp, suffix))
  {
    if regs != [] {
      hide PathOf, MoveToEnd, NoDuplicates, Elements;
      var init, last := regs[..|regs| - 1], regs[|regs| - 1];
      WrittenOrderEnumerates(order, files, plain, init, timestamp, suffix);
      MoveToEndHas(WrittenOrder(order, plain, init, timestamp, suffix), PathOf(last, timestamp, suffix));
    }
  }

  /** The pending files in the order of their registration. */
  function PendingOrder(order: seq<Path>, files: Files, uuid: Option<string>, t: Option<string>): seq<Path>
  {
    Keep(order, Pending(files, uuid, t))
  }

  lemma PendingOrderHas(order: seq<Path>, files: Files, uuid: Option<string>, t: Option<string>)
    requires Enumerates(order, files)
    ensures NoDuplicates(PendingOrder(order, files, uuid, t))
    ensures Elements(PendingOrder(order, files, uuid, t)) == Pending(files, uuid, t)
  {
    hide Keep;
    assert Pending(files, uuid, t) <= files.Keys by {
      hide Qualifies;
    }
    hide Pending;
    KeepHas(order, Pending(files, uuid, t));
    KeepElements(order, Pending(files, uuid, t));
  }

  /** Newest registration first: a search gives the pending files in reverse order of registration,
      however the system lists the store, exactly when each was registered under a later timestamp
      than the one before. This can be read off the names alone. */
  lemma NewestRegistrationFirstIff(order: seq<Path>, files: Files, l: seq<Listed>, folders: set<string>,
                                   plain: set<string>, uuid: Option<string>, t: Option<string>)
    requires Enumerates(order, files)
    requires ListingOf(Some(l), files, folders, plain) && folders !! plain
    requires !exists n :: n in plain && IsContextDirectory(n, uuid)
    ensures var made := PendingOrder(order, files, uuid, t);
            (forall other :: ListingOf(Some(other), files, folders, plain) ==>
              Result(Some(other), uuid, t) == Found(Reverse(made)))
            <==> forall i, j :: 0 <= i < j < |made| ==> Key(made[i]) < Key(made[j])
  {
    hide Key, PendingOrder, ListingOf, Result, Pending, Enumerates, Reverse, IsContextDirectory;
    var made := PendingOrder(order, files, uuid, t);
    PendingOrderHas(order, files, uuid, t);
    ReverseNoDuplicates(made);
    ReverseElements(made);
    EveryListingGivesIff(l, files, folders, plain, uuid, t, Reverse(made));
    ReverseStrict(made);
  }

  lemma ReverseElements(made: seq<Path>)
    ensures Elements(Reverse(made)) == Elements(made)
  {
    forall p ensures p in Elements(Reverse(made)) <==> p in Elements(made) {
      ReverseHas(made, p);
    }
  }

  lemma ReverseStrict(made: seq<Path>)
    ensures StrictlyNewestFirst(Reverse(made)) <==> forall i, j :: 0 <= i < j < |made| ==> Key(made[i]) < Key(made[j])
  {
    hide Key, Reverse;
    var r, n := Reverse(made), |made| - 1;
    if forall i, j :: 0 <= i < j < |made| ==> Key(made[i]) < Key(made[j]) {
      forall i, j | 0 <= i < j < |r| ensures Key(r[i]) > Key(r[j]) {
        assert r[i] == made[n - i] && r[j] == made[n - j];
      }
    }
    if StrictlyNewestFirst(r) {
      forall i, j | 0 <= i < j < |made| ensures Key(made[i]) < Key(made[j]) {
        assert r[n - i] == made[i] && r[n - j] == made[j];
      }
    }
  }

  /** For what one process registered in an empty store that means: one pending file at most. */
  lemma OneProcessNewestFirstIff(regs: seq<Registration>, timestamp: nat, suffix: string,
                                 l: seq<Listed>, folders: set<string>, plain: set<string>,
                                 uuid: Option<string>, t: Option<string>)
    requires ValidSuffix(suffix)
    requires ListingOf(Some(l), RegisterAll(map[], plain, regs, timestamp, suffix), folders, plain) && folders !! plain
    requires !exists n :: n in plain && IsContextDirectory(n, uuid)
    ensures var files := RegisterAll(map[], plain, regs, timestamp, suffix);
            var made := PendingOrder(WrittenOrder([], plain, regs, timestamp, suffix), files, uuid, t);
            (forall other :: ListingOf(Some(other), files, folders, plain) ==>
              Result(Some(other), uuid, t) == Found(Reverse(made)))
            <==> |made| <= 1
  {
    hide ListingOf, Result, IsContextDirectory, Key, PendingOrder, PathOf, Reverse;
    var files := RegisterAll(map[], plain, regs, timestamp, suffix);
    var order := WrittenOrder([], plain, regs, timestamp, suffix);
    EmptyEnumerates();
    WrittenOrderEnumerates([], map[], plain, regs, timestamp, suffix);
    NewestRegistrationFirstIff(order, files, l, folders, plain, uuid, t);
    PendingOrderHas(order, files, uuid, t);
    var made := PendingOrder(order, files, uuid, t);
    forall i | 0 <= i < |made| ensures Key(made[i]) == timestamp {
      assert made[i] in Elements(made);
      OfThisProcess(plain, regs, timestamp, suffix, made[i]);
    }
    if |made| > 1 {
      assert Key(made[0]) == Key(made[1]);
    }
  }

  lemma EmptyEnumerates()
    ensures Enumerates([], map[])
  {
  }

  lemma {:induction false} OfThisProcess(plain: set<string>, regs: seq<Registration>, timestamp: nat, suffix: string,
                                         p: Path)
    requires ValidSuffix(suffix) && p in RegisterAll(map[], plain, regs, timestamp, suffix)
    ensures Key(p) == timestamp
  {
    hide Key, PathOf;
    if regs != [] {
      var last := regs[|regs| - 1];
      if p == PathOf(last, timestamp, suffix) {
        OneKeyPerProcess(last, timestamp, suffix);
      } else {
        OfThisProcess(plain, regs[..|regs| - 1], timestamp, suffix, p);
      }
    }
  }

  /** Such a run: two scenarios of one type in one process each register a rollback, in contexts of
      their own. The system may list the store so that the older one is undone first. */
  lemma OldestFirst(r: Registration, q: Registration, timestamp: nat, suffix: string, uuid: string, started: nat,
                    later: nat)
      returns (l: seq<Listed>)
    requires ValidSuffix(suffix) && started != later
    requires r.context == ContextDirectory(started, uuid) && q.context == ContextDirectory(later, uuid)
    requires r.scenarioType == q.scenarioType && r.how.Writes? && q.how.Writes?
    ensures var files := RegisterAll(map[], {}, [r, q], timestamp, suffix);
            && ListingOf(Some(l), files, {r.context, q.context}, {})
            && Result(Some(l), Some(uuid), Some(r.scenarioType)) ==
                 Found([PathOf(r, timestamp, suffix), PathOf(q, timestamp, suffix)])
  {
    var p, p' := PathOf(r, timestamp, suffix), PathOf(q, timestamp, suffix);
    l := [Listed(r.context, Folder([p.file])), Listed(q.context, Folder([p'.file]))];
    ContextsDiffer(started, later, uuid);
    TwoRegistered(r, q, timestamp, suffix);
    TwoListed(r, q, timestamp, suffix, l);
    TwoFound(r, q, timestamp, suffix, uuid, started, later, l);
  }

  lemma ContextsDiffer(a: nat, b: nat, uuid: string)
    requires a != b
    ensures ContextDirectory(a, uuid) != ContextDirectory(b, uuid)
  {
    ContextRoundTrip(a, uuid, None);
    ContextRoundTrip(b, uuid, None);
    ParseDecimal(a);
    ParseDecimal(b);
    hide ContextDirectory, Decimal, SplitOnce, Parse;
    assert [Decimal(a), uuid][0] == Decimal(a) && [Decimal(b), uuid][0] == Decimal(b);
  }

  lemma TwoRegistered(r: Registration, q: Registration, timestamp: nat, suffix: string)
    requires r.how.Writes? && q.how.Writes?
    ensures RegisterAll(map[], {}, [r, q], timestamp, suffix) ==
            map[PathOf(r, timestamp, suffix) := r.content][PathOf(q, timestamp, suffix) := q.content]
  {
    hide PathOf;
    assert [r, q][..1] == [r] && [r][..0] == [];
    assert RegisterAll(map[], {}, [r], timestamp, suffix) == map[PathOf(r, timestamp, suffix) := r.content];
  }

  lemma TwoListed(r: Registration, q: Registration, timestamp: nat, suffix: string, l: seq<Listed>)
    requires r.context != q.context
    requires l == [Listed(r.context, Folder([PathOf(r, timestamp, suffix).file])),
                   Listed(q.context, Folder([PathOf(q, timestamp, suffix).file]))]
    ensures ListingOf(Some(l),
                      map[PathOf(r, timestamp, suffix) := r.content][PathOf(q, timestamp, suffix) := q.content],
                      {r.context, q.context}, {})
  {
    hide FileName;
    var files := map[PathOf(r, timestamp, suffix) := r.content][PathOf(q, timestamp, suffix) := q.content];
    assert Names(l) == {r.context, q.context} by {
      assert l[0] in l && l[1] in l;
    }
    forall p ensures OnDisk(l, p) <==> p in files {
      assert OnDisk(l, p) <==>
        (p.dir == l[0].name && p.file in l[0].entry.files) || (p.dir == l[1].name && p.file in l[1].entry.files);
    }
    assert {r.context, q.context} + {} == {r.context, q.context};
  }

  lemma TwoFound(r: Registration, q: Registration, timestamp: nat, suffix: string, uuid: string, started: nat,
                 later: nat, l: seq<Listed>)
    requires ValidSuffix(suffix)
    requires r.context == ContextDirectory(started, uuid) && q.context == ContextDirectory(later, uuid)
    requires r.scenarioType == q.scenarioType
    requires l == [Listed(r.context, Folder([PathOf(r, timestamp, suffix).file])),
                   Listed(q.context, Folder([PathOf(q, timestamp, suffix).file]))]
    ensures Result(Some(l), Some(uuid), Some(r.scenarioType)) ==
            Found([PathOf(r, timestamp, suffix), PathOf(q, timestamp, suffix)])
  {
    hide IsVersionFile, IsContextDirectory, FileName, ContextDirectory, Key, SortNewestFirst, InFolders, InFolder,
      PathOf;
    var u, t := Some(uuid), Some(r.scenarioType);
    var p, p' := PathOf(r, timestamp, suffix), PathOf(q, timestamp, suffix);
    OneFound(r, timestamp, suffix, uuid, started);
    OneFound(q, timestamp, suffix, uuid, later);
    InFoldersSnoc([l[0]], l[1], OfRun(u), OfType(t));
    assert l == [l[0]] + [l[1]];
    assert InListing(l, u, t) == [p] + [p'] == [p, p'];
    OneKeyPerProcess(r, timestamp, suffix);
    OneKeyPerProcess(q, timestamp, suffix);
    TiesStayListed([p, p'], timestamp);
    assert Readable(l, OfRun(u));
  }

  lemma OneFound(r: Registration, timestamp: nat, suffix: string, uuid: string, started: nat)
    requires ValidSuffix(suffix) && r.context == ContextDirectory(started, uuid)
    ensures InFolders([Listed(r.context, Folder([PathOf(r, timestamp, suffix).file]))], OfRun(Some(uuid)),
            OfType(Some(r.scenarioType)))
            == [PathOf(r, timestamp, suffix)]
  {
    hide IsVersionFile, IsContextDirectory, FileName, ContextDirectory, InFolders, InFolder;
    var u, t, p := Some(uuid), Some(r.scenarioType), PathOf(r, timestamp, suffix);
    ContextRoundTrip(started, uuid, u);
    VersionRoundTrip(Version(r.scenarioType, timestamp, suffix), t);
    OneFolderListed(Listed(p.dir, Folder([p.file])), OfRun(u), OfType(t));
    InFolderOne(p.dir, p.file, OfType(t));
  }

  lemma OneFolderListed(e: Listed, passes: string -> bool, accepts: string -> bool)
    ensures InFolders([e], passes, accepts) ==
            if passes(e.name) && e.entry.Folder? then InFolder(e.name, e.entry.files, accepts) else []
  {
    assert [e][..0] == [];
  }

  /** Among files of one process no timestamp tells them apart: they are processed in listing order. */
  lemma OneProcessIsListingOrder(before: Files, a: Attempt, uuid: Option<string>, t: Option<string>,
                                 regs: seq<Registration>, timestamp: nat, suffix: string)
    requires FoundPending(before, a, uuid, t) && Searched(a) && ValidSuffix(suffix)
    requires forall p :: p in ListedBy(a, uuid, t) ==> exists r :: r in regs && p == PathOf(r, timestamp, suffix)
    ensures a.found == ListedBy(a, uuid, t)
  {
    hide Key, PathOf, FoundPending;
    forall p | p in ListedBy(a, uuid, t) ensures Key(p) == timestamp {
      var r :| r in regs && p == PathOf(r, timestamp, suffix);
      OneKeyPerProcess(r, timestamp, suffix);
    }
    FoundIsSorted(before, a, uuid, t);
    TiesStayListed(ListedBy(a, uuid, t), timestamp);
  }
}
