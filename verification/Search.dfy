// Searching the versions directory: which files are pending, and in which order.

module Search {
  import opened Lists
  import opened Options
  import opened Text
  import opened Versions

  datatype Path = Path(dir: string, file: string)

  /** One entry of the versions directory, with what listing it would give. */
  datatype Entry = Folder(files: seq<string>) | NotAFolder
  datatype Listed = Listed(name: string, entry: Entry)

  /** `Raised` stands for the `NotADirectoryError` that listing a plain file raises. */
  datatype SearchResult = Found(files: seq<Path>) | Raised

  function Key(p: Path): nat { SortKey(p.file) }

  predicate Qualifies(p: Path, uuid: Option<string>, scenarioType: Option<string>)
  {
    IsContextDirectory(p.dir, uuid) && IsVersionFile(p.file, scenarioType)
  }

  // ---- Python's `sort(key=..., reverse=True)`: descending and stable

  function SortNewestFirst(paths: seq<Path>): seq<Path>
  {
    if paths == [] then [] else Insert(paths[0], SortNewestFirst(paths[1..]))
  }

  function Insert(p: Path, sorted: seq<Path>): seq<Path>
  {
    if sorted == [] || Key(p) >= Key(sorted[0]) then [p] + sorted
    else [sorted[0]] + Insert(p, sorted[1..])
  }

  ghost predicate NewestFirst(paths: seq<Path>)
  {
    forall i, j :: 0 <= i < j < |paths| ==> Key(paths[i]) >= Key(paths[j])
  }

  /** The files with timestamp `k`, in the order they stand. */
  function AtTime(paths: seq<Path>, k: nat): seq<Path>
  {
    if paths == [] then []
    else (if Key(paths[0]) == k then [paths[0]] else []) + AtTime(paths[1..], k)
  }

  lemma {:induction false} InsertPermutes(p: Path, sorted: seq<Path>)
    ensures multiset(Insert(p, sorted)) == multiset(sorted) + multiset{p}
  {
    hide Key;
    if sorted == [] || Key(p) >= Key(sorted[0]) {
      assert multiset([p] + sorted) == multiset{p} + multiset(sorted);
    } else {
      InsertPermutes(p, sorted[1..]);
      var rest := Insert(p, sorted[1..]);
      assert multiset([sorted[0]] + rest) == multiset{sorted[0]} + multiset(rest);
      assert sorted == [sorted[0]] + sorted[1..];
    }
  }

  lemma {:induction false} InsertSorts(p: Path, sorted: seq<Path>)
    requires NewestFirst(sorted)
    ensures NewestFirst(Insert(p, sorted))
  {
    hide Key;
    if sorted == [] || Key(p) >= Key(sorted[0]) {
      NewestFirstCons(p, sorted);
    } else {
      var rest := Insert(p, sorted[1..]);
      InsertSorts(p, sorted[1..]);
      forall q | q in rest ensures Key(sorted[0]) >= Key(q) {
        InsertPermutes(p, sorted[1..]);
        assert q in multiset(rest);
      }
      NewestFirstCons(sorted[0], rest);
    }
  }

  lemma NewestFirstCons(head: Path, rest: seq<Path>)
    requires NewestFirst(rest) && forall q :: q in rest ==> Key(head) >= Key(q)
    ensures NewestFirst([head] + rest)
  {
    hide Key;
  }

  lemma {:induction false} InsertKeepsTies(p: Path, sorted: seq<Path>, k: nat)
    requires NewestFirst(sorted)
    ensures AtTime(Insert(p, sorted), k) == (if Key(p) == k then [p] else []) + AtTime(sorted, k)
  {
    hide Key;
    if sorted != [] && Key(p) < Key(sorted[0]) {
      InsertKeepsTies(p, sorted[1..], k);
      if Key(p) == k {
        assert AtTime(sorted, k) == AtTime(sorted[1..], k);
      }
    }
  }

  /** The sorted list: a permutation, newest first, with ties left as they were listed. */
  lemma {:induction false} SortIsStable(paths: seq<Path>)
    ensures var r := SortNewestFirst(paths);
            && NewestFirst(r)
            && multiset(r) == multiset(paths)
            && forall k :: AtTime(r, k) == AtTime(paths, k)
  {
    hide Key, Insert;
    if paths != [] {
      SortIsStable(paths[1..]);
      assert paths == [paths[0]] + paths[1..];
      var rest := SortNewestFirst(paths[1..]);
      InsertSorts(paths[0], rest);
      InsertPermutes(paths[0], rest);
      forall k ensures AtTime(SortNewestFirst(paths), k) == AtTime(paths, k) {
        InsertKeepsTies(paths[0], rest, k);
      }
    }
  }

  /** Those three facts leave only one possible list. */
  lemma {:induction false} StableOrderIsUnique(xs: seq<Path>, ys: seq<Path>)
    requires NewestFirst(xs) && NewestFirst(ys)
    requires forall k :: AtTime(xs, k) == AtTime(ys, k)
    ensures xs == ys
  {
    hide Key;
    if xs == [] {
      assert ys != [] ==> AtTime(ys, Key(ys[0])) == AtTime(xs, Key(ys[0]));
    } else {
      assert AtTime(ys, Key(xs[0])) == AtTime(xs, Key(xs[0])) != [];
      HeadsAgree(xs, ys);
      HeadsAgree(ys, xs);
      var k := Key(xs[0]);
      assert AtTime(xs, k)[0] == xs[0] && AtTime(ys, k)[0] == ys[0];
      forall k' ensures AtTime(xs[1..], k') == AtTime(ys[1..], k') {
        var drop := if k' == k then 1 else 0;
        assert AtTime(xs[1..], k') == AtTime(xs, k')[drop..];
        assert AtTime(ys[1..], k') == AtTime(ys, k')[drop..];
      }
      StableOrderIsUnique(xs[1..], ys[1..]);
      assert xs == [xs[0]] + xs[1..] && ys == [ys[0]] + ys[1..];
    }
  }

  /** Files with the same timestamp stand in the same order in both lists. */
  ghost predicate SameTies(xs: seq<Path>, ys: seq<Path>)
  {
    forall k: nat :: AtTime(xs, k) == AtTime(ys, k)
  }

  /** So a sorted list is recognized by its order alone. */
  lemma SortedIff(listed: seq<Path>, order: seq<Path>)
    ensures SortNewestFirst(listed) == order <==> NewestFirst(order) && SameTies(order, listed)
  {
    hide Key, AtTime, NewestFirst, SortNewestFirst, Insert;
    SortIsStable(listed);
    assert SameTies(SortNewestFirst(listed), listed);
    if NewestFirst(order) && SameTies(order, listed) {
      forall k: nat ensures AtTime(SortNewestFirst(listed), k) == AtTime(order, k) {
        assert AtTime(order, k) == AtTime(listed, k);
      }
      StableOrderIsUnique(SortNewestFirst(listed), order);
    }
  }

  /** Files with one timestamp stay in listing order. */
  lemma {:induction false} TiesStayListed(paths: seq<Path>, k: nat)
    requires forall p :: p in paths ==> Key(p) == k
    ensures SortNewestFirst(paths) == paths
  {
    hide Key;
    if paths != [] {
      TiesStayListed(paths[1..], k);
      assert paths == [paths[0]] + paths[1..];
    }
  }

  lemma HeadsAgree(xs: seq<Path>, ys: seq<Path>)
    requires xs != [] && ys != [] && NewestFirst(xs)
    requires AtTime(xs, Key(ys[0])) == AtTime(ys, Key(ys[0]))
    ensures Key(xs[0]) >= Key(ys[0])
  {
    hide Key;
    assert AtTime(ys, Key(ys[0])) != [];
    var i := AtTimeOccurs(xs, Key(ys[0]));
  }

  lemma {:induction false} AtTimeOccurs(xs: seq<Path>, k: nat) returns (i: nat)
    requires AtTime(xs, k) != []
    ensures i < |xs| && Key(xs[i]) == k
  {
    hide Key;
    if Key(xs[0]) == k {
      i := 0;
    } else {
      i := AtTimeOccurs(xs[1..], k);
      i := i + 1;
    }
  }

  // ---- The search itself

  /** The accepted files of one folder, in listing order. */
  function InFolder(dir: string, files: seq<string>, accepts: string -> bool): seq<Path>
  {
    if files == [] then []
    else InFolder(dir, files[..|files| - 1], accepts)
         + (if accepts(files[|files| - 1]) then [Path(dir, files[|files| - 1])] else [])
  }

  /** The accepted files of all folders whose name passes, in listing order. */
  function InFolders(listing: seq<Listed>, passes: string -> bool, accepts: string -> bool): seq<Path>
  {
    if listing == [] then []
    else
      var last := listing[|listing| - 1];
      InFolders(listing[..|listing| - 1], passes, accepts)
      + (if passes(last.name) && last.entry.Folder? then InFolder(last.name, last.entry.files, accepts) else [])
  }

  predicate Readable(listing: seq<Listed>, passes: string -> bool)
  {
    forall i :: 0 <= i < |listing| && passes(listing[i].name) ==> listing[i].entry.Folder?
  }

  function OfRun(uuid: Option<string>): string -> bool { name => IsContextDirectory(name, uuid) }

  function OfType(scenarioType: Option<string>): string -> bool { name => IsVersionFile(name, scenarioType) }

  function InListing(listing: seq<Listed>, uuid: Option<string>, scenarioType: Option<string>): seq<Path>
  {
    InFolders(listing, OfRun(uuid), OfType(scenarioType))
  }

  /** What the search returns. `None` means that the versions directory does not exist. */
  function Result(listing: Option<seq<Listed>>, uuid: Option<string>, scenarioType: Option<string>): SearchResult
  {
    if listing.None? then Found([])
    else if !Readable(listing.value, OfRun(uuid)) then Raised
    else Found(SortNewestFirst(InListing(listing.value, uuid, scenarioType)))
  }

  /** `search_rollback_version_files`. */
  method SearchVersionFiles(listing: Option<seq<Listed>>, uuid: Option<string>, scenarioType: Option<string>)
      returns (r: SearchResult)
    ensures r == Result(listing, uuid, scenarioType)
  {
    if listing.None? {
      return Found([]);
    }
    var directories := ContextDirectories(listing.value, uuid);
    MatchingIsEnough(listing.value, OfRun(uuid), OfType(scenarioType));
    if directories == [] {
      return Found([]);
    }
    r := Collect(directories, OfRun(uuid), scenarioType);
  }

  method Collect(directories: seq<Listed>, ghost passes: string -> bool, scenarioType: Option<string>)
      returns (r: SearchResult)
    requires forall i :: 0 <= i < |directories| ==> passes(directories[i].name)
    ensures r == if Readable(directories, passes)
                 then Found(SortNewestFirst(InFolders(directories, passes, OfType(scenarioType)))) else Raised
  {
    var files: seq<Path> := [];
    for i := 0 to |directories|
      invariant files == InFolders(directories[..i], passes, OfType(scenarioType))
      invariant Readable(directories[..i], passes)
    {
      var directory := directories[i];
      assert directories[..i + 1] == directories[..i] + [directory];
      ReadableSnoc(directories[..i], directory, passes);
      if directory.entry.NotAFolder? {
        assert passes(directories[i].name);
        return Raised;
      }
      var found := FilesIn(directory.name, directory.entry.files, scenarioType);
      files := files + found;
    }
    assert directories[..|directories|] == directories;
    r := Found(SortNewestFirst(files));
  }

  method ContextDirectories(entries: seq<Listed>, uuid: Option<string>) returns (directories: seq<Listed>)
    ensures directories == Matching(entries, OfRun(uuid))
  {
    directories := [];
    for i := 0 to |entries|
      invariant directories == Matching(entries[..i], OfRun(uuid))
    {
      assert entries[..i + 1][..i] == entries[..i];
      if IsContextDirectory(entries[i].name, uuid) {
        directories := directories + [entries[i]];
      }
    }
    assert entries[..|entries|] == entries;
  }

  /** The inner loop of the search, over one folder. */
  method FilesIn(dir: string, names: seq<string>, scenarioType: Option<string>) returns (files: seq<Path>)
    ensures files == InFolder(dir, names, OfType(scenarioType))
  {
    files := [];
    for j := 0 to |names|
      invariant files == InFolder(dir, names[..j], OfType(scenarioType))
    {
      assert names[..j + 1][..j] == names[..j];
      SkippedNamesNeverQualify(names[j], scenarioType);
      if names[j] == "__pycache__" || EndsWith(names[j], EXECUTED) {
        continue;
      }
      if IsVersionFile(names[j], scenarioType) {
        files := files + [Path(dir, names[j])];
      }
    }
    assert names[..|names|] == names;
  }

  ghost function Matching(listing: seq<Listed>, passes: string -> bool): (r: seq<Listed>)
    ensures forall d :: d in r ==> passes(d.name)
  {
    if listing == [] then []
    else
      var last := listing[|listing| - 1];
      Matching(listing[..|listing| - 1], passes) + (if passes(last.name) then [last] else [])
  }

  lemma MatchingIsEnough(listing: seq<Listed>, passes: string -> bool, accepts: string -> bool)
    ensures Readable(listing, passes) <==> Readable(Matching(listing, passes), passes)
    ensures InFolders(listing, passes, accepts) == InFolders(Matching(listing, passes), passes, accepts)
  {
    MatchingReadable(listing, passes);
    MatchingFolders(listing, passes, accepts);
  }

  lemma {:induction false} MatchingReadable(listing: seq<Listed>, passes: string -> bool)
    ensures Readable(listing, passes) <==> Readable(Matching(listing, passes), passes)
  {
    if listing != [] {
      var init, last := listing[..|listing| - 1], listing[|listing| - 1];
      MatchingReadable(init, passes);
      assert listing == init + [last];
      assert Matching(init, passes) + [] == Matching(init, passes);
      hide Readable;
      ReadableSnoc(init, last, passes);
      ReadableSnoc(Matching(init, passes), last, passes);
    }
  }

  lemma {:induction false} MatchingFolders(listing: seq<Listed>, passes: string -> bool, accepts: string -> bool)
    ensures InFolders(listing, passes, accepts) == InFolders(Matching(listing, passes), passes, accepts)
  {
    if listing != [] {
      var init, last := listing[..|listing| - 1], listing[|listing| - 1];
      MatchingFolders(init, passes, accepts);
      var m := Matching(init, passes);
      assert (m + [last])[..|m|] == m && (m + [last])[|m|] == last;
      assert m + [] == m;
      hide InFolder;
    }
  }

  lemma ReadableSnoc(init: seq<Listed>, last: Listed, passes: string -> bool)
    ensures Readable(init + [last], passes) <==> Readable(init, passes) && (passes(last.name) ==> last.entry.Folder?)
  {
    var all := init + [last];
    assert all[|init|] == last;
    assert forall i :: 0 <= i < |init| ==> all[i] == init[i];
  }

  lemma SkippedNamesNeverQualify(name: string, scenarioType: Option<string>)
    ensures name == "__pycache__" || EndsWith(name, EXECUTED) ==> !IsVersionFile(name, scenarioType)
  {
    if EndsWith(name, EXECUTED) {
      assert name == name[..|name| - |EXECUTED|] + EXECUTED;
      ExecutedIsNeverPending(name[..|name| - |EXECUTED|], scenarioType);
    }
  }

  // ---- What a search finds, without reference to how it looks

  /** A directory listing never shows a name twice. */
  ghost predicate Distinct(listing: seq<Listed>)
  {
    && (forall i, j :: 0 <= i < j < |listing| ==> listing[i].name != listing[j].name)
    && (forall i :: 0 <= i < |listing| && listing[i].entry.Folder? ==> NoDuplicates(listing[i].entry.files))
  }

  ghost predicate OnDisk(listing: seq<Listed>, p: Path)
  {
    exists i :: 0 <= i < |listing| && listing[i].name == p.dir && listing[i].entry.Folder?
      && p.file in listing[i].entry.files
  }

  lemma {:induction false} InFolderOnce(dir: string, files: seq<string>, accepts: string -> bool)
    requires NoDuplicates(files)
    ensures NoDuplicates(InFolder(dir, files, accepts))
    ensures forall p :: p in InFolder(dir, files, accepts) <==> p.dir == dir && p.file in files && accepts(p.file)
  {
    if files != [] {
      var init, last := files[..|files| - 1], files[|files| - 1];
      InFolderOnce(dir, init, accepts);
      assert files == init + [last];
      assert last !in init;
    }
  }

  lemma OnDiskSnoc(init: seq<Listed>, last: Listed, p: Path)
    ensures OnDisk(init + [last], p) <==>
            OnDisk(init, p) || (p.dir == last.name && last.entry.Folder? && p.file in last.entry.files)
  {
    var all := init + [last];
    assert all[|init|] == last;
    assert forall i :: 0 <= i < |init| ==> all[i] == init[i];
  }

  lemma {:induction false} InFoldersOnce(listing: seq<Listed>, passes: string -> bool, accepts: string -> bool)
    requires Distinct(listing)
    ensures NoDuplicates(InFolders(listing, passes, accepts))
    ensures forall p :: p in InFolders(listing, passes, accepts) <==>
                        OnDisk(listing, p) && passes(p.dir) && accepts(p.file)
  {
    if listing != [] {
      var init, last := listing[..|listing| - 1], listing[|listing| - 1];
      InFoldersOnce(init, passes, accepts);
      assert listing == init + [last];
      if last.entry.Folder? {
        InFolderOnce(last.name, last.entry.files, accepts);
      }
      forall p ensures OnDisk(init, p) ==> p.dir != last.name {
        assert forall i :: 0 <= i < |init| ==> listing[i] == init[i] && init[i].name != last.name;
      }
      forall p ensures p in InFolders(listing, passes, accepts) <==>
        OnDisk(listing, p) && passes(p.dir) && accepts(p.file) {
        OnDiskSnoc(init, last, p);
      }
    }
  }

  /** A list in search order: newest first, ties as listed. */
  ghost predicate InSearchOrder(paths: seq<Path>, listed: seq<Path>)
  {
    NewestFirst(paths) && SameTies(paths, listed)
  }

  /** Every file passing both filters is returned exactly once and no other, newest first,
      with equal timestamps in listing order; and no other list would do. */
  lemma SearchFinds(listing: seq<Listed>, uuid: Option<string>, t: Option<string>)
    requires Distinct(listing) && Readable(listing, OfRun(uuid))
    ensures var files := Result(Some(listing), uuid, t).files;
            && NoDuplicates(files)
            && (forall p :: p in files <==> OnDisk(listing, p) && Qualifies(p, uuid, t))
            && InSearchOrder(files, InListing(listing, uuid, t))
            && (forall other :: InSearchOrder(other, InListing(listing, uuid, t)) ==> other == files)
  {
    var listed := InListing(listing, uuid, t);
    var files := Result(Some(listing), uuid, t).files;
    InFoldersOnce(listing, OfRun(uuid), OfType(t));
    SortIsStable(listed);
    SamePermutation(listed, files);
    forall other | InSearchOrder(other, listed) ensures other == files {
      StableOrderIsUnique(other, files);
    }
  }

  lemma SamePermutation<T>(xs: seq<T>, ys: seq<T>)
    requires multiset(xs) == multiset(ys) && NoDuplicates(xs)
    ensures NoDuplicates(ys) && |xs| == |ys| && forall p :: p in xs <==> p in ys
  {
    forall p ensures p in xs <==> p in ys {
      assert p in xs <==> p in multiset(xs);
      assert p in ys <==> p in multiset(ys);
    }
    assert |multiset(xs)| == |multiset(ys)|;
    forall i, j | 0 <= i < j < |ys| ensures ys[i] != ys[j] {
      if ys[i] == ys[j] {
        TwiceInMultiset(ys, i, j);
        OnceInMultiset(xs, ys[i]);
      }
    }
  }

  lemma TwiceInMultiset<T>(ys: seq<T>, i: int, j: int)
    requires 0 <= i < j < |ys| && ys[i] == ys[j]
    ensures multiset(ys)[ys[i]] >= 2
  {
    assert ys == ys[..i] + [ys[i]] + ys[i + 1..j] + [ys[j]] + ys[j + 1..];
  }

  lemma {:induction false} OnceInMultiset<T>(xs: seq<T>, x: T)
    requires NoDuplicates(xs)
    ensures multiset(xs)[x] <= 1
  {
    if xs != [] {
      OnceInMultiset(xs[1..], x);
      assert xs == [xs[0]] + xs[1..];
      assert xs[0] !in xs[1..];
    }
  }

  // ---- Listings read backwards

  lemma {:induction false} InFolderJoin(dir: string, a: seq<string>, b: seq<string>, accepts: string -> bool)
    ensures InFolder(dir, a + b, accepts) == InFolder(dir, a, accepts) + InFolder(dir, b, accepts)
  {
    if b == [] {
      assert a + b == a;
    } else {
      InFolderJoin(dir, a, b[..|b| - 1], accepts);
      assert (a + b)[..|a + b| - 1] == a + b[..|b| - 1];
    }
  }

  lemma {:induction false} InFolderReverse(dir: string, files: seq<string>, accepts: string -> bool)
    ensures InFolder(dir, Reverse(files), accepts) == Reverse(InFolder(dir, files, accepts))
  {
    if files != [] {
      var init, last := files[..|files| - 1], files[|files| - 1];
      InFolderReverse(dir, init, accepts);
      InFolderJoin(dir, [last], Reverse(init), accepts);
      InFolderOne(dir, last, accepts);
      ReverseJoin(InFolder(dir, init, accepts), InFolder(dir, [last], accepts));
    }
  }

  lemma InFolderOne(dir: string, file: string, accepts: string -> bool)
    ensures InFolder(dir, [file], accepts) == if accepts(file) then [Path(dir, file)] else []
    ensures Reverse(InFolder(dir, [file], accepts)) == InFolder(dir, [file], accepts)
  {
    assert [file][..0] == [];
  }

  function Backwards(l: seq<Listed>): (r: seq<Listed>)
    ensures |r| == |l|
    ensures forall i :: 0 <= i < |r| ==> r[i] == EntryBackwards(l[|l| - 1 - i])
  {
    if l == [] then [] else [EntryBackwards(l[|l| - 1])] + Backwards(l[..|l| - 1])
  }

  function EntryBackwards(e: Listed): Listed
  {
    if e.entry.Folder? then e.(entry := Folder(Reverse(e.entry.files))) else e
  }

  lemma InFoldersSnoc(l: seq<Listed>, e: Listed, passes: string -> bool, accepts: string -> bool)
    ensures InFolders(l + [e], passes, accepts) == InFolders(l, passes, accepts) + InFolders([e], passes, accepts)
  {
    assert (l + [e])[..|l|] == l && [e][..0] == [];
    hide InFolder;
  }

  lemma {:induction false} InFoldersJoin(a: seq<Listed>, b: seq<Listed>, passes: string -> bool,
                                         accepts: string -> bool)
    ensures InFolders(a + b, passes, accepts) == InFolders(a, passes, accepts) + InFolders(b, passes, accepts)
  {
    if b == [] {
      assert a + b == a;
    } else {
      hide InFolders;
      var init, last := b[..|b| - 1], b[|b| - 1];
      InFoldersJoin(a, init, passes, accepts);
      InFoldersSnoc(init, last, passes, accepts);
      InFoldersSnoc(a + init, last, passes, accepts);
      InitAndLast(b);
      Associates(a, init, [last]);
      Associates(InFolders(a, passes, accepts), InFolders(init, passes, accepts), InFolders([last], passes, accepts));
    }
  }

  lemma {:induction false} InFoldersBackwards(l: seq<Listed>, passes: string -> bool, accepts: string -> bool)
    ensures InFolders(Backwards(l), passes, accepts) == Reverse(InFolders(l, passes, accepts))
  {
    if l != [] {
      hide InFolders, Backwards, Reverse, EntryBackwards;
      var init, last := l[..|l| - 1], l[|l| - 1];
      assert l == init + [last];
      InFoldersBackwards(init, passes, accepts);
      BackwardsSnoc(init, last);
      InFoldersJoin([EntryBackwards(last)], Backwards(init), passes, accepts);
      InFoldersSnoc(init, last, passes, accepts);
      OneFolderBackwards(last, passes, accepts);
      ReverseJoin(InFolders(init, passes, accepts), InFolders([last], passes, accepts));
    }
  }

  lemma BackwardsSnoc(init: seq<Listed>, last: Listed)
    ensures Backwards(init + [last]) == [EntryBackwards(last)] + Backwards(init)
  {
    assert (init + [last])[..|init|] == init;
  }

  lemma OneFolderBackwards(e: Listed, passes: string -> bool, accepts: string -> bool)
    ensures InFolders([EntryBackwards(e)], passes, accepts) == Reverse(InFolders([e], passes, accepts))
  {
    assert [e][..0] == [] && [EntryBackwards(e)][..0] == [];
    if e.entry.Folder? {
      InFolderReverse(e.name, e.entry.files, accepts);
    }
  }

  lemma AtTimeCons(p: Path, rest: seq<Path>, k: nat)
    ensures AtTime([p] + rest, k) == (if Key(p) == k then [p] else []) + AtTime(rest, k)
  {
    hide Key;
    assert ([p] + rest)[1..] == rest;
  }

  lemma {:induction false} AtTimeJoin(xs: seq<Path>, ys: seq<Path>, k: nat)
    ensures AtTime(xs + ys, k) == AtTime(xs, k) + AtTime(ys, k)
  {
    if xs == [] {
      assert xs + ys == ys;
    } else {
      AtTimeJoin(xs[1..], ys, k);
      AtTimeJoinCons(xs[0], xs[1..], ys, k);
      assert xs == [xs[0]] + xs[1..];
    }
  }

  lemma AtTimeJoinCons(p: Path, rest: seq<Path>, ys: seq<Path>, k: nat)
    requires AtTime(rest + ys, k) == AtTime(rest, k) + AtTime(ys, k)
    ensures AtTime([p] + rest + ys, k) == AtTime([p] + rest, k) + AtTime(ys, k)
  {
    hide Key, AtTime;
    Associates([p], rest, ys);
    AtTimeCons(p, rest, k);
    AtTimeCons(p, rest + ys, k);
    Associates(if Key(p) == k then [p] else [], AtTime(rest, k), AtTime(ys, k));
  }

  lemma {:induction false} AtTimeReverse(xs: seq<Path>, k: nat)
    ensures AtTime(Reverse(xs), k) == Reverse(AtTime(xs, k))
  {
    if xs != [] {
      var init, last := xs[..|xs| - 1], xs[|xs| - 1];
      AtTimeReverse(init, k);
      assert xs == init + [last] && Reverse(xs) == [last] + Reverse(init);
      AtTimeOne(last, k);
      hide Key, AtTime, Reverse;
      AtTimeJoin(init, [last], k);
      AtTimeJoin([last], Reverse(init), k);
      ReverseJoin(AtTime(init, k), AtTime([last], k));
    }
  }

  lemma AtTimeOne(p: Path, k: nat)
    ensures AtTime([p], k) == Reverse(AtTime([p], k))
  {
    hide Key;
  }

  lemma {:induction false} AtTimeHas(xs: seq<Path>, k: nat)
    ensures forall p :: p in AtTime(xs, k) <==> p in xs && Key(p) == k
    ensures NoDuplicates(xs) ==> NoDuplicates(AtTime(xs, k))
  {
    hide Key;
    if xs != [] {
      AtTimeHas(xs[1..], k);
      assert xs == [xs[0]] + xs[1..];
      if NoDuplicates(xs) {
        assert xs[0] !in xs[1..] && NoDuplicates(xs[1..]);
      }
    }
  }
}
