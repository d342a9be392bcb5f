/**
 * `FileTracker.get_modified_files` (file_tracker.py, identical under api/ and
 * ragdocs_api/): one scan of a documentation directory is split into new, modified
 * and deleted markdown files, and the tracker's metadata map is updated in place.
 * The directory walk is a list of (path, hash, mtime) entries and the clock a value.
 */
module Tracking {
  import opened Strings

  /** What the tracker remembers about one file. */
  datatype FileMetadata = FileMetadata(filePath: string, hash: string, lastModified: int, technology: string, lastIndexed: int)

  /** One file met by the directory walk: its path, the hash of its content and its modification time. */
  datatype ScanEntry = ScanEntry(path: string, hash: string, mtime: int)

  type Cache = map<string, FileMetadata>

  /** Only markdown files are tracked. */
  predicate IsMarkdown(path: string) {
    EndsWith(path, ".md")
  }

  /** A tracked file counts as modified when its hash differs or the scan saw a later mtime. */
  predicate Changed(m: FileMetadata, e: ScanEntry) {
    m.hash != e.hash || m.lastModified < e.mtime
  }

  /** No two entries of the walk name the same path. */
  predicate DistinctPaths(scan: seq<ScanEntry>) {
    forall i, j :: 0 <= i < j < |scan| ==> scan[i].path != scan[j].path
  }

  predicate Distinct(xs: seq<string>) {
    forall i, j :: 0 <= i < j < |xs| ==> xs[i] != xs[j]
  }

  function Elems(xs: seq<string>): set<string> {
    set x | x in xs
  }

  /** The state of the walk loop: the metadata map, the two result lists and `current_files`. */
  datatype Pass = Pass(cache: Cache, newFiles: seq<string>, modifiedFiles: seq<string>, current: set<string>)

  /** The walk loop after the first `n` entries, starting from `cache0`; `now` stands for `time.time()`. */
  function ScanPass(cache0: Cache, scan: seq<ScanEntry>, technology: string, now: int, n: nat): Pass
    requires n <= |scan|
  {
    if n == 0 then Pass(cache0, [], [], {})
    else
      var v := ScanPass(cache0, scan, technology, now, n - 1);
      var e := scan[n - 1];
      if !IsMarkdown(e.path) then v
      else if e.path !in v.cache then
        Pass(v.cache[e.path := FileMetadata(e.path, e.hash, e.mtime, technology, now)],
             v.newFiles + [e.path], v.modifiedFiles, v.current + {e.path})
      else if Changed(v.cache[e.path], e) then
        Pass(v.cache[e.path := v.cache[e.path].(hash := e.hash, lastModified := e.mtime, lastIndexed := now)],
             v.newFiles, v.modifiedFiles + [e.path], v.current + {e.path})
      else
        Pass(v.cache, v.newFiles, v.modifiedFiles, v.current + {e.path})
  }

  /** The files `deleted_files` lists: tracked under `technology` and not met by the walk. */
  function DeletedSet(v: Pass, technology: string): set<string> {
    set f | f in v.cache && f !in v.current && v.cache[f].technology == technology
  }

  /** The metadata map after a whole call. */
  function Rescanned(cache0: Cache, scan: seq<ScanEntry>, technology: string, now: int): Cache {
    var v := ScanPass(cache0, scan, technology, now, |scan|);
    v.cache - DeletedSet(v, technology)
  }

  class FileTracker {
    var fileMetadata: Cache

    /** A tracker whose cache file held `cached` (an empty map when the file is missing or unreadable). */
    constructor(cached: Cache)
      ensures fileMetadata == cached
    {
      fileMetadata := cached;
    }

    /**
     * Classifies the walked files: an untracked markdown file is new and gets tracked
     * under `technology`; a tracked one whose hash or mtime says it changed is modified
     * and gets the new hash and mtime; tracked files of `technology` that the walk did
     * not meet are deleted and forgotten. `deleted_files` follows the map's key order,
     * which the model leaves open: it is given as a list without repeats.
     */
    method GetModifiedFiles(scan: seq<ScanEntry>, technology: string, now: int)
      returns (newFiles: seq<string>, modifiedFiles: seq<string>, deletedFiles: seq<string>)
      modifies this
      ensures var v := ScanPass(old(fileMetadata), scan, technology, now, |scan|);
        && newFiles == v.newFiles
        && modifiedFiles == v.modifiedFiles
        && Distinct(deletedFiles) && Elems(deletedFiles) == DeletedSet(v, technology)
        && fileMetadata == Rescanned(old(fileMetadata), scan, technology, now)
    {
      ghost var cache0 := fileMetadata;
      var currentFiles: set<string> := {};
      newFiles := [];
      modifiedFiles := [];
      for i := 0 to |scan|
        invariant ScanPass(cache0, scan, technology, now, i) == Pass(fileMetadata, newFiles, modifiedFiles, currentFiles)
      {
        var entry := scan[i];
        if !IsMarkdown(entry.path) {
          continue;
        }
        currentFiles := currentFiles + {entry.path};
        if entry.path !in fileMetadata {
          newFiles := newFiles + [entry.path];
          fileMetadata := fileMetadata[entry.path := FileMetadata(entry.path, entry.hash, entry.mtime, technology, now)];
        } else {
          var metadata := fileMetadata[entry.path];
          if metadata.hash != entry.hash || metadata.lastModified < entry.mtime {
            modifiedFiles := modifiedFiles + [entry.path];
            fileMetadata := fileMetadata[entry.path := metadata.(hash := entry.hash, lastModified := entry.mtime, lastIndexed := now)];
          }
        }
      }
      deletedFiles := CollectDeleted(fileMetadata, currentFiles, technology);
      ghost var cache1 := fileMetadata;
      for k := 0 to |deletedFiles|
        invariant fileMetadata == cache1 - Elems(deletedFiles[..k])
      {
        assert Elems(deletedFiles[..k + 1]) == Elems(deletedFiles[..k]) + {deletedFiles[k]};
        fileMetadata := fileMetadata - {deletedFiles[k]};
      }
      assert deletedFiles[..|deletedFiles|] == deletedFiles;
    }
  }

  /**
   * The comprehension building `deleted_files`: the tracked paths of `technology` that
   * are not in `current`, each once, in an order the model leaves open.
   */
  method CollectDeleted(tracked: Cache, current: set<string>, technology: string) returns (deletedFiles: seq<string>)
    ensures Distinct(deletedFiles)
    ensures Elems(deletedFiles) == set f | f in tracked && f !in current && tracked[f].technology == technology
  {
    ghost var deleted := set f | f in tracked && f !in current && tracked[f].technology == technology;
    var keys := tracked.Keys;
    deletedFiles := [];
    while keys != {}
      invariant keys <= tracked.Keys
      invariant Distinct(deletedFiles)
      invariant forall f :: f in deletedFiles ==> f !in keys
      invariant Elems(deletedFiles) == deleted - keys
      decreases |keys|
    {
      var f :| f in keys;
      if f !in current && tracked[f].technology == technology {
        assert Elems(deletedFiles + [f]) == Elems(deletedFiles) + {f};
        deletedFiles := deletedFiles + [f];
      }
      keys := keys - {f};
    }
  }

  // ---------------------------------------------------------------------------
  // Reference definitions read off the walk and the old map alone

  /** The metadata a walked markdown file ends up with, from the old map and its entry. */
  function Absorb(cache0: Cache, e: ScanEntry, technology: string, now: int): FileMetadata {
    if e.path !in cache0 then FileMetadata(e.path, e.hash, e.mtime, technology, now)
    else if Changed(cache0[e.path], e) then
      cache0[e.path].(hash := e.hash, lastModified := e.mtime, lastIndexed := now)
    else cache0[e.path]
  }

  /** The markdown paths among the first `n` entries. */
  function Walked(scan: seq<ScanEntry>, n: nat): set<string>
    requires n <= |scan|
  {
    set i | 0 <= i < n && IsMarkdown(scan[i].path) :: scan[i].path
  }

  /** The untracked markdown paths among the first `n` entries, in walk order. */
  function NewInOrder(cache0: Cache, scan: seq<ScanEntry>, n: nat): seq<string>
    requires n <= |scan|
  {
    if n == 0 then []
    else
      var e := scan[n - 1];
      NewInOrder(cache0, scan, n - 1) + if IsMarkdown(e.path) && e.path !in cache0 then [e.path] else []
  }

  /** The tracked markdown paths among the first `n` entries that changed, in walk order. */
  function ModifiedInOrder(cache0: Cache, scan: seq<ScanEntry>, n: nat): seq<string>
    requires n <= |scan|
  {
    if n == 0 then []
    else
      var e := scan[n - 1];
      ModifiedInOrder(cache0, scan, n - 1) +
        if IsMarkdown(e.path) && e.path in cache0 && Changed(cache0[e.path], e) then [e.path] else []
  }

  /** `current_files` after `n` entries is the set of walked markdown paths. */
  lemma {:induction false} PassCurrent(cache0: Cache, scan: seq<ScanEntry>, technology: string, now: int, n: nat)
    requires n <= |scan|
    ensures ScanPass(cache0, scan, technology, now, n).current == Walked(scan, n)
  {
    if n > 0 {
      PassCurrent(cache0, scan, technology, now, n - 1);
      var e := scan[n - 1];
      assert Walked(scan, n) == Walked(scan, n - 1) + if IsMarkdown(e.path) then {e.path} else {};
    }
  }

  /** After `n` entries the map tracks the old paths and the walked markdown paths. */
  lemma {:induction false} PassKeys(cache0: Cache, scan: seq<ScanEntry>, technology: string, now: int, n: nat)
    requires n <= |scan|
    ensures ScanPass(cache0, scan, technology, now, n).cache.Keys == cache0.Keys + Walked(scan, n)
  {
    if n > 0 {
      PassKeys(cache0, scan, technology, now, n - 1);
      var e := scan[n - 1];
      assert Walked(scan, n) == Walked(scan, n - 1) + if IsMarkdown(e.path) then {e.path} else {};
    }
  }

  /** An entry whose path was not walked keeps its metadata. */
  lemma {:induction false} PassUntouched(cache0: Cache, scan: seq<ScanEntry>, technology: string, now: int, n: nat, p: string)
    requires n <= |scan| && p in cache0 && p !in Walked(scan, n)
    ensures p in ScanPass(cache0, scan, technology, now, n).cache
    ensures ScanPass(cache0, scan, technology, now, n).cache[p] == cache0[p]
  {
    if n > 0 {
      var e := scan[n - 1];
      assert Walked(scan, n) == Walked(scan, n - 1) + if IsMarkdown(e.path) then {e.path} else {};
      PassUntouched(cache0, scan, technology, now, n - 1, p);
    }
  }

  /** The path of entry `n` is not among the earlier walked paths when the walk names each path once. */
  lemma FreshPath(scan: seq<ScanEntry>, n: nat)
    requires n < |scan| && DistinctPaths(scan)
    ensures scan[n].path !in Walked(scan, n)
  {
  }

  /** Before entry `n` is visited, the map holds its old metadata, if any. */
  lemma BeforeVisit(cache0: Cache, scan: seq<ScanEntry>, technology: string, now: int, n: nat)
    requires n < |scan| && DistinctPaths(scan)
    ensures var c := ScanPass(cache0, scan, technology, now, n).cache;
      var p := scan[n].path;
      && (p in c <==> p in cache0)
      && (p in c ==> c[p] == cache0[p])
  {
    FreshPath(scan, n);
    PassKeys(cache0, scan, technology, now, n);
    if scan[n].path in cache0 {
      PassUntouched(cache0, scan, technology, now, n, scan[n].path);
    }
  }

  /**
   * When the walk names each path once, a walked markdown file carries, after `n`
   * entries, the metadata `Absorb` reads off its entry and the old map.
   */
  lemma {:induction false} PassAbsorbed(cache0: Cache, scan: seq<ScanEntry>, technology: string, now: int, n: nat, i: nat)
    requires i < n <= |scan| && DistinctPaths(scan) && IsMarkdown(scan[i].path)
    ensures scan[i].path in ScanPass(cache0, scan, technology, now, n).cache
    ensures ScanPass(cache0, scan, technology, now, n).cache[scan[i].path] == Absorb(cache0, scan[i], technology, now)
  {
    if i == n - 1 {
      BeforeVisit(cache0, scan, technology, now, i);
    } else {
      PassAbsorbed(cache0, scan, technology, now, n - 1, i);
      assert scan[i].path != scan[n - 1].path;
    }
  }

  /** When the walk names each path once, the two lists are the new and the changed paths in walk order. */
  lemma {:induction false} PassLists(cache0: Cache, scan: seq<ScanEntry>, technology: string, now: int, n: nat)
    requires n <= |scan| && DistinctPaths(scan)
    ensures ScanPass(cache0, scan, technology, now, n).newFiles == NewInOrder(cache0, scan, n)
    ensures ScanPass(cache0, scan, technology, now, n).modifiedFiles == ModifiedInOrder(cache0, scan, n)
  {
    if n > 0 {
      PassLists(cache0, scan, technology, now, n - 1);
      BeforeVisit(cache0, scan, technology, now, n - 1);
    }
  }

  /** A path is in the new list exactly when it is a walked markdown path that was not tracked. */
  lemma {:induction false} NewInOrderHas(cache0: Cache, scan: seq<ScanEntry>, n: nat, p: string)
    requires n <= |scan|
    ensures p in NewInOrder(cache0, scan, n) <==> p in Walked(scan, n) && p !in cache0
  {
    if n > 0 {
      NewInOrderHas(cache0, scan, n - 1, p);
      var e := scan[n - 1];
      assert Walked(scan, n) == Walked(scan, n - 1) + if IsMarkdown(e.path) then {e.path} else {};
    }
  }

  /** A path is in the modified list exactly when it was tracked and some walked entry for it changed. */
  lemma {:induction false} ModifiedInOrderHas(cache0: Cache, scan: seq<ScanEntry>, n: nat, p: string)
    requires n <= |scan|
    ensures p in ModifiedInOrder(cache0, scan, n) <==>
      p in cache0 && exists i :: 0 <= i < n && IsMarkdown(scan[i].path) && scan[i].path == p && Changed(cache0[p], scan[i])
  {
    if n > 0 {
      ModifiedInOrderHas(cache0, scan, n - 1, p);
    }
  }

  /** A walked markdown file is tracked after the call, with the metadata `Absorb` gives it. */
  lemma RescannedAt(cache0: Cache, scan: seq<ScanEntry>, technology: string, now: int, i: nat)
    requires DistinctPaths(scan) && i < |scan| && IsMarkdown(scan[i].path)
    ensures scan[i].path in Rescanned(cache0, scan, technology, now)
    ensures Rescanned(cache0, scan, technology, now)[scan[i].path] == Absorb(cache0, scan[i], technology, now)
  {
    var n := |scan|;
    PassAbsorbed(cache0, scan, technology, now, n, i);
    PassCurrent(cache0, scan, technology, now, n);
    assert scan[i].path in Walked(scan, n);
  }

  /** The map after the call, read off the old map and the walk. */
  lemma RescannedMeaning(cache0: Cache, scan: seq<ScanEntry>, technology: string, now: int)
    requires DistinctPaths(scan)
    ensures var c := Rescanned(cache0, scan, technology, now);
      var walked := Walked(scan, |scan|);
      && c.Keys == walked + set p | p in cache0 && p !in walked && cache0[p].technology != technology
      && (forall i :: 0 <= i < |scan| && IsMarkdown(scan[i].path) ==>
            scan[i].path in c && c[scan[i].path] == Absorb(cache0, scan[i], technology, now))
      && (forall p :: p in c && p !in walked ==> p in cache0 && c[p] == cache0[p])
  {
    var n := |scan|;
    var v := ScanPass(cache0, scan, technology, now, n);
    var walked := Walked(scan, n);
    PassKeys(cache0, scan, technology, now, n);
    PassCurrent(cache0, scan, technology, now, n);
    forall i | 0 <= i < n && IsMarkdown(scan[i].path)
      ensures scan[i].path in v.cache && v.cache[scan[i].path] == Absorb(cache0, scan[i], technology, now)
    {
      PassAbsorbed(cache0, scan, technology, now, n, i);
    }
    forall p | p in cache0 && p !in walked ensures p in v.cache && v.cache[p] == cache0[p] {
      PassUntouched(cache0, scan, technology, now, n, p);
    }
  }

  // ---------------------------------------------------------------------------
  // Properties of one call

  /** Every entry of the map is filed under its own path. */
  predicate KeyedByPath(cache: Cache) {
    forall p :: p in cache ==> cache[p].filePath == p
  }

  /** A call keeps every entry filed under its own path. */
  lemma KeyedByPathKept(cache0: Cache, scan: seq<ScanEntry>, technology: string, now: int)
    requires DistinctPaths(scan) && KeyedByPath(cache0)
    ensures KeyedByPath(Rescanned(cache0, scan, technology, now))
  {
    RescannedMeaning(cache0, scan, technology, now);
    var c := Rescanned(cache0, scan, technology, now);
    forall p | p in c ensures c[p].filePath == p {
      if p in Walked(scan, |scan|) {
        var i :| 0 <= i < |scan| && IsMarkdown(scan[i].path) && scan[i].path == p;
        RescannedAt(cache0, scan, technology, now, i);
      }
    }
  }

  /**
   * The hash-or-mtime rule: a walked markdown file is new exactly when it was not
   * tracked, and modified exactly when it was tracked and its hash differs or its
   * cached mtime is older. Afterwards it is tracked with the walked hash and keeps its
   * original technology (the call's technology only when it is new); its mtime is the
   * walked one unless nothing changed, in which case the whole cached entry, with an
   * mtime not older than the walked one, is kept.
   */
  lemma HashOrMtimeRule(cache0: Cache, scan: seq<ScanEntry>, technology: string, now: int, i: nat)
    requires DistinctPaths(scan) && i < |scan| && IsMarkdown(scan[i].path)
    ensures var v := ScanPass(cache0, scan, technology, now, |scan|);
      var c := Rescanned(cache0, scan, technology, now);
      var e := scan[i];
      && (e.path in v.newFiles <==> e.path !in cache0)
      && (e.path in v.modifiedFiles <==> e.path in cache0 && Changed(cache0[e.path], e))
      && e.path in c && c[e.path].hash == e.hash
      && c[e.path].technology == (if e.path in cache0 then cache0[e.path].technology else technology)
      && (e.path !in cache0 || Changed(cache0[e.path], e) ==> c[e.path].lastModified == e.mtime)
      && (e.path in cache0 && !Changed(cache0[e.path], e) ==>
            c[e.path] == cache0[e.path] && c[e.path].lastModified >= e.mtime)
  {
    var n := |scan|;
    var e := scan[i];
    PassLists(cache0, scan, technology, now, n);
    NewInOrderHas(cache0, scan, n, e.path);
    ModifiedInOrderHas(cache0, scan, n, e.path);
    assert e.path in Walked(scan, n);
    RescannedAt(cache0, scan, technology, now, i);
    if e.path in cache0 && Changed(cache0[e.path], scan[i]) {
      assert e.path in ModifiedInOrder(cache0, scan, n);
    }
  }

  /**
   * New, modified and deleted files are pairwise disjoint markdown paths; the first two
   * were walked, the deleted ones are exactly the files tracked under the call's
   * technology that were not walked.
   */
  lemma Partition(cache0: Cache, scan: seq<ScanEntry>, technology: string, now: int)
    requires DistinctPaths(scan)
    ensures var v := ScanPass(cache0, scan, technology, now, |scan|);
      var walked := Walked(scan, |scan|);
      var deleted := DeletedSet(v, technology);
      && (forall p :: p in v.newFiles ==> p in walked && IsMarkdown(p) && p !in v.modifiedFiles && p !in deleted)
      && (forall p :: p in v.modifiedFiles ==> p in walked && IsMarkdown(p) && p !in deleted)
      && deleted == set p | p in cache0 && p !in walked && cache0[p].technology == technology
  {
    var n := |scan|;
    var v := ScanPass(cache0, scan, technology, now, n);
    var walked := Walked(scan, n);
    PassLists(cache0, scan, technology, now, n);
    PassCurrent(cache0, scan, technology, now, n);
    PassKeys(cache0, scan, technology, now, n);
    forall p | p in v.newFiles
      ensures p in walked && IsMarkdown(p) && p !in v.modifiedFiles
    {
      NewInOrderHas(cache0, scan, n, p);
      ModifiedInOrderHas(cache0, scan, n, p);
      var i :| 0 <= i < n && IsMarkdown(scan[i].path) && scan[i].path == p;
    }
    forall p | p in v.modifiedFiles ensures p in walked && IsMarkdown(p) {
      ModifiedInOrderHas(cache0, scan, n, p);
    }
    forall p | p in cache0 && p !in walked ensures p in v.cache && v.cache[p] == cache0[p] {
      PassUntouched(cache0, scan, technology, now, n, p);
    }
  }

  /**
   * Deletion is scoped to the call's technology: a tracked file that the walk did not
   * meet is forgotten exactly when it belongs to that technology, and otherwise keeps
   * its entry unchanged.
   */
  lemma DeletionScoped(cache0: Cache, scan: seq<ScanEntry>, technology: string, now: int, p: string)
    requires DistinctPaths(scan) && p in cache0 && p !in Walked(scan, |scan|)
    ensures var c := Rescanned(cache0, scan, technology, now);
      && (p in c <==> cache0[p].technology != technology)
      && (p in c ==> c[p] == cache0[p])
  {
    var n := |scan|;
    PassCurrent(cache0, scan, technology, now, n);
    PassUntouched(cache0, scan, technology, now, n, p);
  }

  /** When the walk names each path once, the untracked paths are listed once each. */
  lemma {:induction false} NewInOrderDistinct(cache0: Cache, scan: seq<ScanEntry>, n: nat)
    requires n <= |scan| && DistinctPaths(scan)
    ensures Distinct(NewInOrder(cache0, scan, n))
  {
    if n > 0 {
      NewInOrderDistinct(cache0, scan, n - 1);
      var e := scan[n - 1];
      NewInOrderHas(cache0, scan, n - 1, e.path);
      FreshPath(scan, n - 1);
    }
  }

  /** When the walk names each path once, the changed paths are listed once each. */
  lemma {:induction false} ModifiedInOrderDistinct(cache0: Cache, scan: seq<ScanEntry>, n: nat)
    requires n <= |scan| && DistinctPaths(scan)
    ensures Distinct(ModifiedInOrder(cache0, scan, n))
  {
    if n > 0 {
      ModifiedInOrderDistinct(cache0, scan, n - 1);
      var e := scan[n - 1];
      ModifiedInOrderHas(cache0, scan, n - 1, e.path);
      FreshPath(scan, n - 1);
    }
  }

  /** The files `update_documentation` processes, new then modified, are listed once each. */
  lemma ProcessListDistinct(cache0: Cache, scan: seq<ScanEntry>, technology: string, now: int)
    requires DistinctPaths(scan)
    ensures var v := ScanPass(cache0, scan, technology, now, |scan|);
      Distinct(v.newFiles + v.modifiedFiles)
  {
    var v := ScanPass(cache0, scan, technology, now, |scan|);
    PassLists(cache0, scan, technology, now, |scan|);
    NewInOrderDistinct(cache0, scan, |scan|);
    ModifiedInOrderDistinct(cache0, scan, |scan|);
    Partition(cache0, scan, technology, now);
    var all := v.newFiles + v.modifiedFiles;
    forall i, j | 0 <= i < j < |all| ensures all[i] != all[j] {
      if i < |v.newFiles| && j >= |v.newFiles| {
        assert all[i] in v.newFiles;
        assert all[j] in v.modifiedFiles;
      }
    }
  }

  /** The new and modified lists follow the walk order. */
  lemma ScanOrder(cache0: Cache, scan: seq<ScanEntry>, technology: string, now: int)
    requires DistinctPaths(scan)
    ensures var v := ScanPass(cache0, scan, technology, now, |scan|);
      && v.newFiles == NewInOrder(cache0, scan, |scan|)
      && v.modifiedFiles == ModifiedInOrder(cache0, scan, |scan|)
  {
    PassLists(cache0, scan, technology, now, |scan|);
  }

  lemma EmptyWhenNoElement(xs: seq<string>)
    requires forall x :: x in xs ==> false
    ensures xs == []
  {
    if |xs| > 0 {
      HeadIn(xs);
    }
  }

  lemma HeadIn(xs: seq<string>)
    requires |xs| > 0
    ensures xs[0] in xs
  {
  }

  /**
   * Repeating a call with the same walk and technology finds nothing new, modified or
   * deleted, and leaves the map as the first call left it.
   */
  lemma Idempotent(cache0: Cache, scan: seq<ScanEntry>, technology: string, now: int, later: int)
    requires DistinctPaths(scan)
    ensures var c1 := Rescanned(cache0, scan, technology, now);
      var v2 := ScanPass(c1, scan, technology, later, |scan|);
      && v2.newFiles == [] && v2.modifiedFiles == [] && DeletedSet(v2, technology) == {}
      && Rescanned(c1, scan, technology, later) == c1
  {
    var n := |scan|;
    var c1 := Rescanned(cache0, scan, technology, now);
    var walked := Walked(scan, n);
    RescannedMeaning(cache0, scan, technology, now);
    var v2 := ScanPass(c1, scan, technology, later, n);
    PassLists(c1, scan, technology, later, n);
    PassKeys(c1, scan, technology, later, n);
    PassCurrent(c1, scan, technology, later, n);
    forall i | 0 <= i < n && IsMarkdown(scan[i].path)
      ensures scan[i].path in c1 && !Changed(c1[scan[i].path], scan[i])
    {
      RescannedAt(cache0, scan, technology, now, i);
    }
    forall p | p in v2.newFiles ensures false {
      NewInOrderHas(c1, scan, n, p);
    }
    forall p | p in v2.modifiedFiles ensures false {
      ModifiedInOrderHas(c1, scan, n, p);
    }
    EmptyWhenNoElement(v2.newFiles);
    EmptyWhenNoElement(v2.modifiedFiles);
    forall p | p in c1 ensures v2.cache[p] == c1[p] {
      if p in walked {
        var i :| 0 <= i < n && IsMarkdown(scan[i].path) && scan[i].path == p;
        PassAbsorbed(c1, scan, technology, later, n, i);
      } else {
        PassUntouched(c1, scan, technology, later, n, p);
      }
    }
    assert v2.cache == c1;
    assert DeletedSet(v2, technology) == {};
  }
}
