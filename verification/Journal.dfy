// The rollback journal: version files are registered, executed and marked, or cleaned up.

module Journal {
  import opened Lists
  import opened Options
  import opened Text
  import opened Versions
  import opened Search

  type Files = map<Path, string>

  function Executed(p: Path): Path { Path(p.dir, p.file + EXECUTED) }

  /** `os.rename(p, p + ".executed")`; an older marked file of that name is overwritten. */
  function Mark(files: Files, p: Path): Files
  {
    if p in files then (files - {p})[Executed(p) := files[p]] else files
  }

  function MarkAll(files: Files, paths: seq<Path>): Files
  {
    if paths == [] then files else Mark(MarkAll(files, paths[..|paths| - 1]), paths[|paths| - 1])
  }

  /** The version files a search for this run and type has to find. */
  function Pending(files: Files, uuid: Option<string>, t: Option<string>): set<Path>
  {
    set p | p in files && Qualifies(p, uuid, t)
  }

  // ---- One call of execute_rollback_version_files

  datatype Outcome = Disabled | Unreadable | Clean | CallableRaised | RenameRaised

  /** What one call looked at and did: the directory listing, the files in processing order,
      those whose callable returned, and those renamed. */
  datatype Attempt = Attempt(listing: Option<seq<Listed>>, found: seq<Path>, returned: seq<Path>,
                             marked: seq<Path>, outcome: Outcome)

  function Names(l: seq<Listed>): set<string> { set e | e in l :: e.name }

  /** `l` lists the entries called `names` of a store, each once and completely. */
  ghost predicate IsListing(l: seq<Listed>, names: set<string>, files: Files, folders: set<string>)
  {
    && Distinct(l)
    && Names(l) == names
    && (forall i :: 0 <= i < |l| ==> (l[i].entry.Folder? <==> l[i].name in folders))
    && (forall p :: OnDisk(l, p) <==> p in files && p.dir in names)
  }

  lemma ListsNone(files: Files, folders: set<string>)
    ensures IsListing([], {}, files, folders)
  {
  }

  lemma ListsOneMore(l: seq<Listed>, names: set<string>, e: Listed, files: Files, folders: set<string>)
    requires IsListing(l, names, files, folders) && e.name !in names
    requires e.entry.Folder? <==> e.name in folders
    requires e.entry.Folder? ==>
               NoDuplicates(e.entry.files) && forall f :: f in e.entry.files <==> Path(e.name, f) in files
    requires e.entry.NotAFolder? ==> forall p :: p in files ==> p.dir != e.name
    ensures IsListing(l + [e], names + {e.name}, files, folders)
  {
    assert Names(l + [e]) == Names(l) + {e.name};
    forall p ensures OnDisk(l + [e], p) <==> p in files && p.dir in names + {e.name} {
      OnDiskSnoc(l, e, p);
    }
    assert forall i :: 0 <= i < |l| ==> l[i].name in Names(l);
  }

  /** `listing` is some order in which the operating system may list this store. */
  ghost predicate ListingOf(listing: Option<seq<Listed>>, files: Files, folders: set<string>, plain: set<string>)
  {
    if listing.None? then files == map[] && folders == {} && plain == {}
    else IsListing(listing.value, folders + plain, files, folders) && forall p :: p in files ==> p.dir in folders
  }

  /** What a search of the store for one run and type gives. */
  ghost predicate SearchOf(r: SearchResult, files: Files, plain: set<string>, uuid: Option<string>, t: Option<string>)
  {
    && (r.Raised? <==> exists n :: n in plain && IsContextDirectory(n, uuid))
    && (r.Found? ==>
          && NoDuplicates(r.files)
          && NewestFirst(r.files)
          && Elements(r.files) == Pending(files, uuid, t))
  }

  /** The effect of one call, read off its record. */
  ghost predicate Attempted(before: Files, after: Files, a: Attempt)
  {
    && after == MarkAll(before, a.marked)
    && match a.outcome
       case Disabled => a.found == [] && a.returned == [] && a.marked == []
       case Unreadable => a.found == [] && a.returned == [] && a.marked == []
       case Clean => a.returned == a.found && a.marked == a.found
       case CallableRaised =>
         |a.marked| < |a.found| && a.marked == a.found[..|a.marked|] && a.returned == a.marked
       case RenameRaised =>
         |a.marked| < |a.found| && a.marked == a.found[..|a.marked|] && a.returned == a.found[..|a.marked| + 1]
  }

  predicate Searched(a: Attempt) { !a.outcome.Disabled? && !a.outcome.Unreadable? }

  /** The files the call works on are the pending ones, each once, newest first. */
  ghost predicate FoundPending(before: Files, a: Attempt, uuid: Option<string>, t: Option<string>)
  {
    Searched(a) ==>
      && NoDuplicates(a.found)
      && NewestFirst(a.found)
      && Elements(a.found) == Pending(before, uuid, t)
      && Result(a.listing, uuid, t) == Found(a.found)
  }

  /** The record agrees with what callables and renames do: `completes` and `renames` say for each
      file whether its callable returns and whether renaming it succeeds. */
  ghost predicate Faithful(a: Attempt, completes: Path -> bool, renames: Path -> bool)
  {
    && (forall p :: p in a.returned ==> completes(p))
    && (forall p :: p in a.marked ==> renames(p))
    && (a.outcome.CallableRaised? ==> |a.marked| < |a.found| && !completes(a.found[|a.marked|]))
    && (a.outcome.RenameRaised? ==> |a.marked| < |a.found| && !renames(a.found[|a.marked|]))
  }

  // ---- Registering a rollback

  /** How serializing goes: it raises before or after creating the context directory, it opens the
      file, which empties it, and raises after `count` characters, or it writes all. */
  datatype Serialization = RaisesEarly | RaisesLate | WritesPartly(count: nat) | Writes

  datatype Registration = Registration(context: string, scenarioType: string, content: string, how: Serialization)

  /** What the registration leaves in its file, if it gets as far as opening it. */
  function Left(r: Registration): Option<string>
  {
    match r.how
    case Writes => Some(r.content)
    case WritesPartly(count) => Some(if count < |r.content| then r.content[..count] else r.content)
    case _ => None
  }

  /** A plain file in place of the context directory makes every registration raise. */
  predicate Reaches(r: Registration, plain: set<string>) { r.context !in plain && Left(r).Some? }

  /** The file of a registration: timestamp and suffix are those of the process. */
  function PathOf(r: Registration, timestamp: nat, suffix: string): Path
  {
    Path(r.context, FileName(Version(r.scenarioType, timestamp, suffix)))
  }

  function Stored(files: Files, plain: set<string>, r: Registration, timestamp: nat, suffix: string): Files
  {
    if Reaches(r, plain) then files[PathOf(r, timestamp, suffix) := Left(r).value] else files
  }

  class VersionStore {
    var files: Files
    var folders: set<string>
    var plain: set<string>
    const auto: bool
    const processTimestamp: nat
    const processSuffix: string

    ghost predicate Valid() reads this
    {
      && (forall p :: p in files ==> p.dir in folders)
      && folders !! plain
      && |processSuffix| == SUFFIX_LENGTH && IsAlnum(processSuffix)
    }

    constructor (auto: bool, timestamp: nat, suffix: string)
      requires |suffix| == SUFFIX_LENGTH && IsAlnum(suffix)
      ensures Valid() && files == map[] && folders == {} && plain == {}
      ensures this.auto == auto && processTimestamp == timestamp && processSuffix == suffix
    {
      files, folders, plain := map[], {}, {};
      this.auto, processTimestamp, processSuffix := auto, timestamp, suffix;
    }

    /** `os.listdir` on the versions directory and on its sub-directories, in any order.
        An absent directory is only possible while nothing has been stored. */
    method ListDirectories() returns (listing: Option<seq<Listed>>)
      requires Valid()
      ensures ListingOf(listing, files, folders, plain)
    {
      hide IsListing;
      var absent: bool := *;
      if files == map[] && folders == {} && plain == {} && absent {
        return None;
      }
      var left := folders + plain;
      var l: seq<Listed> := [];
      assert folders + plain - left == {};
      ListsNone(files, folders);
      while left != {}
        invariant left <= folders + plain
        invariant IsListing(l, folders + plain - left, files, folders)
        decreases |left|
      {
        var n :| n in left;
        var entry := NotAFolder;
        if n in folders {
          var names := ListFolder(n);
          entry := Folder(names);
        }
        ListsOneMore(l, folders + plain - left, Listed(n, entry), files, folders);
        l := l + [Listed(n, entry)];
        assert folders + plain - (left - {n}) == folders + plain - left + {n};
        left := left - {n};
      }
      assert folders + plain - left == folders + plain;
      listing := Some(l);
    }

    method ListFolder(dir: string) returns (names: seq<string>)
      requires Valid()
      ensures NoDuplicates(names)
      ensures forall f :: f in names <==> Path(dir, f) in files
    {
      var left := set p | p in files && p.dir == dir :: p.file;
      names := [];
      while left != {}
        invariant NoDuplicates(names)
        invariant forall f :: f in names ==> f !in left
        invariant forall f :: f in names || f in left <==> Path(dir, f) in files
        decreases |left|
      {
        var f :| f in left;
        names := names + [f];
        left := left - {f};
      }
    }

    method Find(uuid: Option<string>, t: Option<string>) returns (listing: Option<seq<Listed>>, r: SearchResult)
      requires Valid()
      ensures ListingOf(listing, files, folders, plain) && r == Result(listing, uuid, t)
      ensures SearchOf(r, files, plain, uuid, t)
    {
      listing := ListDirectories();
      r := SearchVersionFiles(listing, uuid, t);
      SearchIsPending(listing, files, folders, plain, uuid, t);
    }

    /** `execute_rollback_version_files`: callables and renames may each raise. */
    method ExecuteRollback(uuid: Option<string>, t: Option<string>, ignoreAuto: bool,
                           completes: Path -> bool, renames: Path -> bool)
        returns (a: Attempt)
      requires Valid()
      modifies this`files
      ensures Valid()
      ensures a.outcome.Disabled? <==> !ignoreAuto && !auto
      ensures Attempted(old(files), files, a) && FoundPending(old(files), a, uuid, t)
      ensures Faithful(a, completes, renames)
      ensures forall p :: p in a.marked ==> p in a.returned && completes(p) && renames(p)
      ensures Searched(a) ==>
                (a.outcome.Clean? <==> forall p :: p in Pending(old(files), uuid, t) ==> completes(p) && renames(p))
      ensures !a.outcome.Disabled? ==> ListingOf(a.listing, old(files), folders, plain)
      ensures !a.outcome.Disabled? ==>
              (a.outcome.Unreadable? <==> exists n :: n in plain && IsContextDirectory(n, uuid))
    {
      hide IsVersionFile, IsContextDirectory, ListingOf, NewestFirst, NoDuplicates, Pending, Result;
      if !ignoreAuto && !auto {
        return Attempt(None, [], [], [], Disabled);
      }
      var listing, result := Find(uuid, t);
      if result.Raised? {
        return Attempt(listing, [], [], [], Unreadable);
      }
      var found := result.files;
      for i := 0 to |found|
        invariant Valid()
        invariant files == MarkAll(old(files), found[..i])
        invariant forall p :: p in found[..i] ==> completes(p) && renames(p)
      {
        assert found[..i + 1] == found[..i] + [found[i]];
        assert found[..i + 1][..i] == found[..i];
        if !completes(found[i]) {
          return Attempt(listing, found, found[..i], found[..i], CallableRaised);
        }
        if !renames(found[i]) {
          return Attempt(listing, found, found[..i + 1], found[..i], RenameRaised);
        }
        files := Mark(files, found[i]);
      }
      assert found[..|found|] == found;
      a := Attempt(listing, found, found, found, Clean);
    }

    /** `cleanup_rollback_version_files`; `ok` is false when a removal (or the listing) raised. */
    method Cleanup(uuid: Option<string>, t: Option<string>, removable: Path -> bool)
          returns (ok: bool, removed: set<Path>)
      requires Valid()
      modifies this`files
      ensures Valid()
      ensures removed <= Pending(old(files), uuid, t)
      ensures files == old(files) - removed
      ensures ok ==> removed == Pending(old(files), uuid, t)
      ensures forall p :: p in removed ==> removable(p)
      ensures ok <==> (forall p :: p in Pending(old(files), uuid, t) ==> removable(p))
                      && !exists n :: n in plain && IsContextDirectory(n, uuid)
    {
      hide IsVersionFile, IsContextDirectory, ListingOf, NewestFirst, NoDuplicates, Pending, Result;
      removed := {};
      var listing, result := Find(uuid, t);
      if result.Raised? {
        return false, {};
      }
      var found := result.files;
      assert forall i :: 0 <= i < |found| ==> found[i] in Elements(found);
      for i := 0 to |found|
        invariant Valid()
        invariant removed <= Elements(found)
        invariant removed == Elements(found[..i])
        invariant forall p :: p in removed ==> removable(p)
        invariant files == old(files) - removed
      {
        if !removable(found[i]) {
          return false, removed;
        }
        assert found[..i + 1] == found[..i] + [found[i]];
        assert Elements(found[..i + 1]) == removed + {found[i]};
        assert files - {found[i]} == old(files) - (removed + {found[i]});
        files := files - {found[i]};
        removed := removed + {found[i]};
      }
      assert found[..|found|] == found;
      ok := true;
    }

    /** `Serializer.serialize_callable` for a version of this process; `stored` is false when it
        raised, which the handler logs and swallows. */
    method Serialize(r: Registration) returns (stored: bool)
      requires Valid()
      modifies this`files, this`folders
      ensures Valid()
      ensures stored <==> r.how.Writes? && r.context !in plain
      ensures files == Stored(old(files), plain, r, processTimestamp, processSuffix)
      ensures folders == if r.how.RaisesEarly? || r.context in plain then old(folders) else old(folders) + {r.context}
    {
      if r.how.RaisesEarly? || r.context in plain {
        return false;
      }
      folders := folders + {r.context};
      if r.how.RaisesLate? {
        return false;
      }
      var path := Path(r.context, FileName(Version(r.scenarioType, processTimestamp, processSuffix)));
      if r.how.WritesPartly? {
        files := files[path := if r.how.count < |r.content| then r.content[..r.how.count] else r.content];
        return false;
      }
      files := files[path := r.content];
      stored := true;
    }
  }

  /** The matching files in the order in which a call listed them. */
  function ListedBy(a: Attempt, uuid: Option<string>, t: Option<string>): seq<Path>
  {
    if a.listing.None? then [] else InListing(a.listing.value, uuid, t)
  }

  lemma FoundIsSorted(before: Files, a: Attempt, uuid: Option<string>, t: Option<string>)
    requires FoundPending(before, a, uuid, t) && Searched(a)
    ensures a.found == SortNewestFirst(ListedBy(a, uuid, t))
  {
    hide InListing, IsVersionFile, IsContextDirectory, Key;
  }

  /** Searching any listing of a store finds its pending files. */
  lemma SearchIsPending(listing: Option<seq<Listed>>, files: Files, folders: set<string>, plain: set<string>,
                        uuid: Option<string>, t: Option<string>)
    requires ListingOf(listing, files, folders, plain) && folders !! plain
    ensures SearchOf(Result(listing, uuid, t), files, plain, uuid, t)
  {
    hide IsVersionFile, IsContextDirectory, InListing, SortNewestFirst, Key;
    if listing.Some? {
      var l := listing.value;
      assert forall i :: 0 <= i < |l| ==> l[i].name in Names(l);
      if Readable(l, OfRun(uuid)) {
        SearchFinds(l, uuid, t);
        forall n | n in plain ensures !IsContextDirectory(n, uuid) {
          assert n in Names(l);
        }
        FoundArePending(l, files, folders, plain, uuid, t);
      } else {
        var i :| 0 <= i < |l| && OfRun(uuid)(l[i].name) && !l[i].entry.Folder?;
        assert IsContextDirectory(l[i].name, uuid);
      }
    }
  }

  lemma FoundArePending(l: seq<Listed>, files: Files, folders: set<string>, plain: set<string>,
                        uuid: Option<string>, t: Option<string>)
    requires ListingOf(Some(l), files, folders, plain) && Readable(l, OfRun(uuid))
    ensures Elements(Result(Some(l), uuid, t).files) == Pending(files, uuid, t)
  {
    hide Qualifies, Result, InListing, Readable, OnDisk;
    SearchFinds(l, uuid, t);
  }

  // ---- What marking does to a store

  lemma ExecutedDisjoint(p: Path, q: Path, uuid: Option<string>, t: Option<string>)
    ensures Executed(p).dir == p.dir && Executed(p).file == p.file + ".executed"
    ensures !Qualifies(Executed(p), uuid, t)
    ensures Executed(p) == Executed(q) ==> p == q
  {
    ExecutedIsNeverPending(p.file, t);
    if Executed(p) == Executed(q) {
      assert p.file == (p.file + EXECUTED)[..|p.file|];
      assert q.file == (q.file + EXECUTED)[..|q.file|];
    }
  }

  /** Marking takes exactly the marked files off the pending list. */
  lemma {:induction false} MarkAllPending(files: Files, paths: seq<Path>, uuid: Option<string>, t: Option<string>)
    ensures Pending(MarkAll(files, paths), uuid, t) == Pending(files, uuid, t) - Elements(paths)
  {
    hide Pending, Mark;
    if paths == [] {
      assert Elements(paths) == {};
    } else {
      var init, last := paths[..|paths| - 1], paths[|paths| - 1];
      MarkAllPending(files, init, uuid, t);
      MarkPending(MarkAll(files, init), last, uuid, t);
      assert paths == init + [last];
      assert Elements(paths) == Elements(init) + {last};
    }
  }

  lemma MarkPending(files: Files, p: Path, uuid: Option<string>, t: Option<string>)
    ensures Pending(Mark(files, p), uuid, t) == Pending(files, uuid, t) - {p}
  {
    ExecutedDisjoint(p, p, uuid, t);
    hide Qualifies;
  }

  /** A path that is neither marked nor the mark of one keeps its state. */
  lemma {:induction false} MarkAllFrame(files: Files, paths: seq<Path>, p: Path)
    requires p !in paths && forall q :: q in paths ==> p != Executed(q)
    ensures var after := MarkAll(files, paths);
            (p in after <==> p in files) && (p in files ==> after[p] == files[p])
  {
    if paths != [] {
      var init, last := paths[..|paths| - 1], paths[|paths| - 1];
      assert paths == init + [last];
      MarkAllFrame(files, init, p);
    }
  }

  lemma VersionFileIsNoMark(p: Path, q: Path)
    requires IsVersionFile(p.file, None)
    ensures p != Executed(q)
  {
    ExecutedIsNeverPending(q.file, None);
  }

  /** Marking loses no rollback: each content moves to the mark of its file. */
  lemma {:induction false} MarkAllMoves(files: Files, paths: seq<Path>, p: Path)
    requires NoDuplicates(paths) && p in paths
    requires forall q :: q in paths ==> q in files && IsVersionFile(q.file, None)
    ensures var after := MarkAll(files, paths);
            p !in after && Executed(p) in after && after[Executed(p)] == files[p]
  {
    var init, last := paths[..|paths| - 1], paths[|paths| - 1];
    assert paths == init + [last];
    forall q | q in paths ensures p != Executed(q) && last != Executed(q) {
      VersionFileIsNoMark(p, q);
      VersionFileIsNoMark(last, q);
    }
    ExecutedDisjoint(p, last, None, None);
    if p == last {
      MarkAllFrame(files, init, last);
    } else {
      MarkAllMoves(files, init, p);
    }
  }
}
