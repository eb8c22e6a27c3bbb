// The order of a search over every order in which the system may list the store.

module Listings {
  import opened Lists
  import opened Options
  import opened Text
  import opened Versions
  import opened Search
  import opened Journal

  /** Timestamps fall strictly. */
  ghost predicate StrictlyNewestFirst(order: seq<Path>)
  {
    forall i, j :: 0 <= i < j < |order| ==> Key(order[i]) > Key(order[j])
  }

  // ---- A listing read backwards is a listing too

  lemma ReverseHas<T>(xs: seq<T>, x: T)
    ensures x in Reverse(xs) <==> x in xs
  {
    hide Reverse;
    if x in xs {
      var i :| 0 <= i < |xs| && xs[i] == x;
      assert Reverse(xs)[|xs| - 1 - i] == x;
    }
  }

  lemma ReverseNoDuplicates<T>(xs: seq<T>)
    requires NoDuplicates(xs)
    ensures NoDuplicates(Reverse(xs))
  {
    hide Reverse;
  }

  lemma BackwardsIsListing(l: seq<Listed>, names: set<string>, files: Files, folders: set<string>)
    requires IsListing(l, names, files, folders)
    ensures IsListing(Backwards(l), names, files, folders)
  {
    DistinctBackwards(l);
    NamesBackwards(l);
    forall p ensures OnDisk(Backwards(l), p) <==> OnDisk(l, p) {
      OnDiskBackwards(l, p);
    }
    hide Backwards, Distinct, OnDisk, Names;
    var b, n := Backwards(l), |l| - 1;
    forall i | 0 <= i < |b| ensures b[i].entry.Folder? <==> b[i].name in folders {
      assert b[i] == EntryBackwards(l[n - i]);
    }
  }

  lemma DistinctBackwards(l: seq<Listed>)
    requires Distinct(l)
    ensures Distinct(Backwards(l))
  {
    hide Backwards, Reverse;
    var b, n := Backwards(l), |l| - 1;
    forall i, j | 0 <= i < j < |b| ensures b[i].name != b[j].name {
      assert b[i] == EntryBackwards(l[n - i]) && b[j] == EntryBackwards(l[n - j]);
    }
    forall i | 0 <= i < |b| && b[i].entry.Folder? ensures NoDuplicates(b[i].entry.files) {
      assert b[i] == EntryBackwards(l[n - i]);
      ReverseNoDuplicates(l[n - i].entry.files);
    }
  }

  lemma NamesBackwards(l: seq<Listed>)
    ensures Names(Backwards(l)) == Names(l)
  {
    hide Backwards, Reverse;
    var b, n := Backwards(l), |l| - 1;
    forall s | s in Names(b) ensures s in Names(l) {
      var i :| 0 <= i < |b| && b[i].name == s;
      assert b[i] == EntryBackwards(l[n - i]) && l[n - i] in l;
    }
    forall s | s in Names(l) ensures s in Names(b) {
      var i :| 0 <= i < |l| && l[i].name == s;
      assert b[n - i] == EntryBackwards(l[i]) && b[n - i] in b;
    }
  }

  lemma OnDiskBackwards(l: seq<Listed>, p: Path)
    ensures OnDisk(Backwards(l), p) <==> OnDisk(l, p)
  {
    hide Backwards, Reverse;
    var b, n := Backwards(l), |l| - 1;
    if OnDisk(b, p) {
      var i :| 0 <= i < |b| && b[i].name == p.dir && b[i].entry.Folder? && p.file in b[i].entry.files;
      assert b[i] == EntryBackwards(l[n - i]);
      ReverseHas(l[n - i].entry.files, p.file);
      assert l[n - i].name == p.dir;
    }
    if OnDisk(l, p) {
      var i :| 0 <= i < |l| && l[i].name == p.dir && l[i].entry.Folder? && p.file in l[i].entry.files;
      assert b[n - i] == EntryBackwards(l[i]);
      ReverseHas(l[i].entry.files, p.file);
      assert b[n - i].name == p.dir;
    }
  }

  // ---- When every listing gives one order

  /** Without a plain file of the run in the way, a search of any listing sorts its pending files. */
  lemma SearchSorts(listing: Option<seq<Listed>>, files: Files, folders: set<string>, plain: set<string>,
                    uuid: Option<string>, t: Option<string>)
    requires ListingOf(listing, files, folders, plain) && folders !! plain
    requires !exists n :: n in plain && IsContextDirectory(n, uuid)
    ensures var found := SortNewestFirst(if listing.None? then [] else InListing(listing.value, uuid, t));
            && Result(listing, uuid, t) == Found(found)
            && NoDuplicates(found) && NewestFirst(found) && Elements(found) == Pending(files, uuid, t)
  {
    hide IsContextDirectory, ListingOf, InListing, SortNewestFirst, NewestFirst, Pending;
    SearchIsPending(listing, files, folders, plain, uuid, t);
    assert listing.None? ==> SortNewestFirst([]) == [] by {
      NothingSorted();
    }
  }

  lemma NothingSorted()
    ensures SortNewestFirst([]) == []
  {
  }

  lemma NoElements<T>(xs: seq<T>)
    ensures Elements(xs) == {} ==> xs == []
  {
    if xs != [] {
      assert xs[0] in Elements(xs);
    }
  }

  lemma TailElements<T>(xs: seq<T>)
    requires xs != [] && NoDuplicates(xs)
    ensures Elements(xs[1..]) == Elements(xs) - {xs[0]} && NoDuplicates(xs[1..])
  {
    assert xs == [xs[0]] + xs[1..];
    assert forall i :: 0 <= i < |xs| - 1 ==> xs[1..][i] == xs[i + 1];
  }

  lemma HeadIsNewest(xs: seq<Path>, p: Path)
    requires xs != [] && NewestFirst(xs) && p in Elements(xs)
    ensures Key(xs[0]) >= Key(p)
    ensures StrictlyNewestFirst(xs) && Key(xs[0]) == Key(p) ==> p == xs[0]
  {
    hide Key;
    var i :| 0 <= i < |xs| && xs[i] == p;
  }

  lemma {:induction false} StrictOrderIsUnique(xs: seq<Path>, ys: seq<Path>)
    requires StrictlyNewestFirst(xs) && NewestFirst(xs) && NewestFirst(ys)
    requires NoDuplicates(xs) && NoDuplicates(ys) && Elements(xs) == Elements(ys)
    ensures xs == ys
  {
    hide Key;
    if xs == [] {
      NoElements(ys);
    } else {
      assert xs[0] in Elements(ys);
      assert ys[0] in Elements(xs);
      hide Elements;
      HeadIsNewest(xs, ys[0]);
      HeadIsNewest(ys, xs[0]);
      TailElements(xs);
      TailElements(ys);
      StrictOrderIsUnique(xs[1..], ys[1..]);
      assert xs == [xs[0]] + xs[1..] && ys == [ys[0]] + ys[1..];
    }
  }

  lemma OneAtATime(order: seq<Path>, listed: seq<Path>, k: nat)
    requires NoDuplicates(order) && SameTies(order, listed) && SameTies(order, Reverse(listed))
    ensures |AtTime(order, k)| <= 1
  {
    hide Key, AtTime, Reverse;
    AtTimeReverse(listed, k);
    AtTimeHas(order, k);
    assert AtTime(order, k) == AtTime(listed, k) && AtTime(order, k) == AtTime(Reverse(listed), k);
    SameBothWays(AtTime(order, k));
  }

  /** A list that sorts to the same as its reverse has no two files with one timestamp. */
  lemma BothWaysStrict(order: seq<Path>, listed: seq<Path>)
    requires NoDuplicates(order) && NewestFirst(order) && SameTies(order, listed) && SameTies(order, Reverse(listed))
    ensures StrictlyNewestFirst(order)
  {
    hide Key, AtTime, Reverse, SameTies;
    forall i, j | 0 <= i < j < |order| ensures Key(order[i]) > Key(order[j]) {
      var ties := AtTime(order, Key(order[i]));
      OneAtATime(order, listed, Key(order[i]));
      AtTimeHas(order, Key(order[i]));
      assert order[i] in ties;
      assert order[j] !in ties;
      assert order[j] in order;
    }
  }

  /** Every order in which the system may list a store gives the same search result exactly when its
      timestamps fall strictly; with two equal ones the backwards listing gives another. */
  lemma EveryListingGivesIff(l: seq<Listed>, files: Files, folders: set<string>, plain: set<string>,
                             uuid: Option<string>, t: Option<string>, order: seq<Path>)
    requires ListingOf(Some(l), files, folders, plain) && folders !! plain
    requires !exists n :: n in plain && IsContextDirectory(n, uuid)
    requires NoDuplicates(order) && Elements(order) == Pending(files, uuid, t)
    ensures (forall other :: ListingOf(Some(other), files, folders, plain) ==>
            Result(Some(other), uuid, t) == Found(order))
            <==> StrictlyNewestFirst(order)
  {
    hide IsContextDirectory, Result, Pending, InListing, SortNewestFirst, IsListing, Backwards, Key, AtTime, Elements;
    if StrictlyNewestFirst(order) {
      forall other | ListingOf(Some(other), files, folders, plain)
        ensures Result(Some(other), uuid, t) == Found(order) {
        SearchSorts(Some(other), files, folders, plain, uuid, t);
        StrictOrderIsUnique(order, SortNewestFirst(InListing(other, uuid, t)));
      }
    }
    if forall other :: ListingOf(Some(other), files, folders, plain) ==> Result(Some(other), uuid, t) == Found(order) {
      BackwardsIsListing(l, folders + plain, files, folders);
      var b := Backwards(l);
      assert ListingOf(Some(b), files, folders, plain);
      SearchSorts(Some(l), files, folders, plain, uuid, t);
      SearchSorts(Some(b), files, folders, plain, uuid, t);
      SortedIff(InListing(l, uuid, t), order);
      SortedIff(InListing(b, uuid, t), order);
      ListedBackwards(l, uuid, t);
      BothWaysStrict(order, InListing(l, uuid, t));
    }
  }

  lemma ListedBackwards(l: seq<Listed>, uuid: Option<string>, t: Option<string>)
    ensures InListing(Backwards(l), uuid, t) == Reverse(InListing(l, uuid, t))
  {
    InFoldersBackwards(l, OfRun(uuid), OfType(t));
  }
}
