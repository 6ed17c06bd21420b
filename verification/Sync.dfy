// irods_sync as it runs: push, pull, filling a cache and draining the queue,
// against an iRODS zone and a local disk that are updated in place.
module Sync {
  import opened Wrappers
  import opened Avu
  import opened Names
  import opened Storage
  import opened CatalogTables
  import opened CatalogBase
  import opened Cache
  import opened Recovery
  import Protocol

  class IrodsZone {
    var objects: map<string, Blob>

    constructor ()
      ensures objects == map[]
    {
      objects := map[];
    }
  }

  /**
   * push: put, then fetch the object's checksum and compare. u is what iRODS
   * does; the upload is accepted or an error is raised.
   */
  method Push(zone: IrodsZone, local: Blob, target: string, u: Attempt) returns (accepted: bool)
    modifies zone
    ensures zone.objects == if u.stored.Some? then old(zone.objects)[target := u.stored.value] else old(zone.objects)
    ensures accepted <==> !u.raised && Protocol.Accepted(Some(local), u.answer)
  {
    if u.stored.Some? {
      zone.objects := zone.objects[target := u.stored.value];
    }
    if u.raised || u.answer.None? {
      return false;
    }
    match u.answer.value
    case NoChecksum => accepted := true;
    case _ => accepted := ChecksumMatches(local, u.answer.value);
  }

  // ------------------------------------------------------------------ ensure_cached

  predicate Sentinel(name: string) {
    name == PENDING || name == FAILED
  }

  /** The names to be pulled, given what is on disk: missing ones, each once, in order. */
  function Missing(names: seq<string>, root: string, onDisk: set<string>): seq<string> {
    if names == [] then [] else
      var before := Missing(names[..|names| - 1], root, onDisk);
      var name := names[|names| - 1];
      if Sentinel(name) || root + "/" + name in onDisk || name in before then before else before + [name]
  }

  lemma {:induction false} MissingMeans(names: seq<string>, root: string, onDisk: set<string>, name: string)
    ensures name in Missing(names, root, onDisk) <==> name in names && !Sentinel(name) && root + "/" + name !in onDisk
    ensures multiset(Missing(names, root, onDisk))[name] <= 1
  {
    if names != [] {
      var front := names[..|names| - 1];
      MissingMeans(front, root, onDisk, name);
      assert names == front + [names[|names| - 1]];
    }
  }

  /** The disk once the given names were fetched. */
  function Fetched(files: map<string, Blob>, root: string, irodsRoot: string, names: seq<string>,
                   objects: map<string, Blob>): map<string, Blob>
  {
    if names == [] then files else
      var name := names[|names| - 1];
      var before := Fetched(files, root, irodsRoot, names[..|names| - 1], objects);
      if Target(irodsRoot, name) in objects then before[root + "/" + name := objects[Target(irodsRoot, name)]] else before
  }

  function Paths(root: string, names: seq<string>): set<string> {
    if names == [] then {} else Paths(root, names[..|names| - 1]) + {root + "/" + names[|names| - 1]}
  }

  lemma {:induction false} FetchedKeys(files: map<string, Blob>, root: string, irodsRoot: string, names: seq<string>,
                                       objects: map<string, Blob>)
    requires forall i | 0 <= i < |names| :: Target(irodsRoot, names[i]) in objects
    ensures Fetched(files, root, irodsRoot, names, objects).Keys == files.Keys + Paths(root, names)
  {
    if names != [] {
      FetchedKeys(files, root, irodsRoot, names[..|names| - 1], objects);
    }
  }

  lemma {:induction false} PathsNameTheNames(root: string, names: seq<string>, name: string)
    ensures root + "/" + name in Paths(root, names) <==> name in names
  {
    if names != [] {
      var last := names[|names| - 1];
      PathsNameTheNames(root, names[..|names| - 1], name);
      assert names == names[..|names| - 1] + [last];
      assert (root + "/" + name)[|root| + 1..] == name && (root + "/" + last)[|root| + 1..] == last;
    }
  }

  lemma {:induction false} FetchedLeaves(files: map<string, Blob>, root: string, irodsRoot: string, names: seq<string>,
                                         objects: map<string, Blob>, path: string)
    requires forall i | 0 <= i < |names| :: root + "/" + names[i] != path
    ensures path in Fetched(files, root, irodsRoot, names, objects) <==> path in files
    ensures path in files ==> Fetched(files, root, irodsRoot, names, objects)[path] == files[path]
  {
    if names != [] {
      FetchedLeaves(files, root, irodsRoot, names[..|names| - 1], objects, path);
      assert root + "/" + names[|names| - 1] != path;
    }
  }

  lemma {:induction false} FetchedHas(files: map<string, Blob>, root: string, irodsRoot: string, names: seq<string>,
                                      objects: map<string, Blob>, name: string)
    requires name in names && Target(irodsRoot, name) in objects
    ensures root + "/" + name in Fetched(files, root, irodsRoot, names, objects)
    ensures Fetched(files, root, irodsRoot, names, objects)[root + "/" + name] == objects[Target(irodsRoot, name)]
  {
    var front, last := names[..|names| - 1], names[|names| - 1];
    assert names == front + [last];
    if name != last {
      FetchedHas(files, root, irodsRoot, front, objects, name);
      assert (root + "/" + name)[|root| + 1..] == name && (root + "/" + last)[|root| + 1..] == last;
    }
  }

  /** pull: one object into one local file. */
  method Pull(disk: LocalDisk, zone: IrodsZone, remote: string, dest: string, fails: bool, size: nat, now: int) returns (ok: bool)
    modifies disk
    ensures ok <==> !fails && remote in zone.objects
    ensures disk.Contents() == if ok then old(disk.Contents())[dest := zone.objects[remote]] else old(disk.Contents())
    ensures disk.files.Keys == old(disk.files).Keys + if ok then {dest} else {}
  {
    ok := !fails && remote in zone.objects;
    if ok {
      disk.Store(dest, zone.objects[remote], size, now);
    }
  }

  /** files' is files with the missing ones of the names, which are `pulled`, fetched. */
  ghost predicate Filled(files: map<string, Blob>, files': map<string, Blob>, root: string, irodsRoot: string,
                         names: seq<string>, pulled: seq<string>, objects: map<string, Blob>) {
    && pulled == Missing(names, root, files.Keys)
    && files' == Fetched(files, root, irodsRoot, pulled, objects)
    && (forall j | 0 <= j < |pulled| :: Target(irodsRoot, pulled[j]) in objects)
  }

  lemma OnDisk(files: map<string, Blob>, files': map<string, Blob>, root: string, irodsRoot: string,
               names: seq<string>, pulled: seq<string>, objects: map<string, Blob>, name: string)
    requires Filled(files, files', root, irodsRoot, names, pulled, objects)
    ensures root + "/" + name in files' <==> root + "/" + name in files || name in pulled
  {
    FetchedKeys(files, root, irodsRoot, pulled, objects);
    PathsNameTheNames(root, pulled, name);
  }

  lemma FilledSkip(files: map<string, Blob>, files': map<string, Blob>, root: string, irodsRoot: string,
                   names: seq<string>, pulled: seq<string>, objects: map<string, Blob>, name: string)
    requires Filled(files, files', root, irodsRoot, names, pulled, objects)
    requires Sentinel(name) || root + "/" + name in files'
    ensures Filled(files, files', root, irodsRoot, names + [name], pulled, objects)
  {
    OnDisk(files, files', root, irodsRoot, names, pulled, objects, name);
    assert (names + [name])[..|names|] == names;
  }

  lemma FilledPull(files: map<string, Blob>, files': map<string, Blob>, root: string, irodsRoot: string,
                   names: seq<string>, pulled: seq<string>, objects: map<string, Blob>, name: string)
    requires Filled(files, files', root, irodsRoot, names, pulled, objects)
    requires !Sentinel(name) && root + "/" + name !in files' && Target(irodsRoot, name) in objects
    ensures Filled(files, files'[root + "/" + name := objects[Target(irodsRoot, name)]],
                   root, irodsRoot, names + [name], pulled + [name], objects)
  {
    OnDisk(files, files', root, irodsRoot, names, pulled, objects, name);
    assert (names + [name])[..|names|] == names;
    assert (pulled + [name])[..|pulled|] == pulled;
  }

  /**
   * What filling a cache means: every real name is on disk, as it was if it was
   * there and as iRODS has it otherwise; nothing present changes; nothing else
   * appears.
   */
  lemma FilledMeans(files: map<string, Blob>, files': map<string, Blob>, root: string, irodsRoot: string,
                    names: seq<string>, pulled: seq<string>, objects: map<string, Blob>)
    requires Filled(files, files', root, irodsRoot, names, pulled, objects)
    ensures forall path | path in files :: path in files' && files'[path] == files[path]
    ensures forall name | name in names && !Sentinel(name) && root + "/" + name !in files ::
              && root + "/" + name in files'
              && Target(irodsRoot, name) in objects
              && files'[root + "/" + name] == objects[Target(irodsRoot, name)]
    ensures forall path | path in files' && path !in files ::
              exists name :: name in names && !Sentinel(name) && path == root + "/" + name
  {
    forall path | path in files ensures path in files' && files'[path] == files[path] {
      forall i | 0 <= i < |pulled| ensures root + "/" + pulled[i] != path {
        MissingMeans(names, root, files.Keys, pulled[i]);
      }
      FetchedLeaves(files, root, irodsRoot, pulled, objects, path);
    }
    forall name | name in names && !Sentinel(name) && root + "/" + name !in files
      ensures root + "/" + name in files' && Target(irodsRoot, name) in objects
      ensures files'[root + "/" + name] == objects[Target(irodsRoot, name)]
    {
      MissingMeans(names, root, files.Keys, name);
      FetchedHas(files, root, irodsRoot, pulled, objects, name);
    }
    forall path | path in files' && path !in files
      ensures exists name :: name in names && !Sentinel(name) && path == root + "/" + name
    {
      if forall i | 0 <= i < |pulled| :: root + "/" + pulled[i] != path {
        FetchedLeaves(files, root, irodsRoot, pulled, objects, path);
        assert false;
      }
      var i :| 0 <= i < |pulled| && root + "/" + pulled[i] == path;
      MissingMeans(names, root, files.Keys, pulled[i]);
    }
  }

  /**
   * ensure_cached. Pulls exactly the missing real names, in order, and leaves
   * every other file alone; when a pull fails it stops there, with exactly the
   * missing names before the failing one cached.
   */
  method EnsureCached(disk: LocalDisk, zone: IrodsZone, root: string, irodsRoot: string, expected: seq<string>,
                      pullFails: string -> bool, sizeOf: string -> nat, now: int)
    returns (pulled: seq<string>, ok: bool, ghost k: nat)
    modifies disk
    ensures k <= |expected|
    ensures Filled(old(disk.Contents()), disk.Contents(), root, irodsRoot, expected[..k], pulled, zone.objects)
    ensures forall i | 0 <= i < |pulled| :: !pullFails(pulled[i])
    ensures ok ==> k == |expected|
    ensures !ok ==> k < |expected| && !Sentinel(expected[k]) && root + "/" + expected[k] !in disk.files
                    && (pullFails(expected[k]) || Target(irodsRoot, expected[k]) !in zone.objects)
  {
    pulled := [];
    var i := 0;
    while i < |expected|
      invariant 0 <= i <= |expected|
      invariant Filled(old(disk.Contents()), disk.Contents(), root, irodsRoot, expected[..i], pulled, zone.objects)
      invariant forall j | 0 <= j < |pulled| :: !pullFails(pulled[j])
    {
      var name := expected[i];
      assert expected[..i + 1] == expected[..i] + [name];
      if Sentinel(name) || root + "/" + name in disk.files {
        FilledSkip(old(disk.Contents()), disk.Contents(), root, irodsRoot, expected[..i], pulled, zone.objects, name);
        i := i + 1;
        continue;
      }
      ghost var before := disk.Contents();
      var got := Pull(disk, zone, Target(irodsRoot, name), root + "/" + name, pullFails(name), sizeOf(name), now);
      if !got {
        return pulled, false, i;
      }
      FilledPull(old(disk.Contents()), before, root, irodsRoot, expected[..i], pulled, zone.objects, name);
      pulled := pulled + [name];
      i := i + 1;
    }
    assert expected[..i] == expected;
    ok, k := true, i;
  }

  // -------------------------------------------------------------- recover_pending_pushes

  /** The body of the loop, for one row. seen: the catalog and the zone after each operation. */
  method RecoverOne(catalog: CatalogStore, zone: IrodsZone, disk: LocalDisk, maxAttempts: int, row: PendingPush,
                    u: Attempt, before: Summary)
    returns (summary: Summary, ghost seen: seq<Site>)
    requires catalog.Valid()
    modifies catalog.Frame(), zone
    ensures catalog.Valid() && unchanged(disk)
    ensures var (site, outcome) := RecoverRow(Site(old(catalog.Tables()), old(zone.objects)), disk.Contents(), maxAttempts, row, u);
            Site(catalog.Tables(), zone.objects) == site && summary == Counted(before, outcome)
    ensures seen == RowTrace(Site(old(catalog.Tables()), old(zone.objects)), disk.Contents(), maxAttempts, row, u)
  {
    summary, seen := before, [];
    if row.snapshotId !in catalog.Tables().snapshots {
      catalog.DeletePendingPush(row.snapshotId);
      seen := seen + [Site(catalog.Tables(), zone.objects)];
      return summary.(orphaned := summary.orphaned + 1), seen;
    }
    if catalog.Tables().snapshots[row.snapshotId].parquetFile != PENDING {
      catalog.DeletePendingPush(row.snapshotId);
      seen := seen + [Site(catalog.Tables(), zone.objects)];
      return summary.(committed := summary.committed + 1), seen;
    }
    if row.attempts >= maxAttempts {
      var _ := catalog.UpdateSnapshotParquetFile(row.snapshotId, FAILED);
      seen := seen + [Site(catalog.Tables(), zone.objects)];
      catalog.DeletePendingPush(row.snapshotId);
      seen := seen + [Site(catalog.Tables(), zone.objects)];
      return summary.(failed := summary.failed + 1), seen;
    }
    if row.localPath !in disk.files {
      var _ := catalog.BumpPendingPushAttempt(row.snapshotId, Protocol.MissingFile(row));
      seen := seen + [Site(catalog.Tables(), zone.objects)];
      return summary.(missingLocal := summary.missingLocal + 1), seen;
    }
    var accepted := Push(zone, disk.files[row.localPath].content, row.irodsTarget, u);
    seen := seen + [Site(catalog.Tables(), zone.objects)];
    if !accepted {
      var _ := catalog.BumpPendingPushAttempt(row.snapshotId, u.error);
      seen := seen + [Site(catalog.Tables(), zone.objects)];
      return;
    }
    var _ := catalog.UpdateSnapshotParquetFile(row.snapshotId, BaseName(row.localPath));
    seen := seen + [Site(catalog.Tables(), zone.objects)];
    catalog.DeletePendingPush(row.snapshotId);
    seen := seen + [Site(catalog.Tables(), zone.objects)];
    summary := summary.(pushed := summary.pushed + 1);
  }

  /** Drains the queue. Row i meets the iRODS outcome weather(i). */
  method RecoverPendingPushes(catalog: CatalogStore, zone: IrodsZone, disk: LocalDisk, maxAttempts: int, limit: nat,
                              weather: nat -> Attempt)
    returns (summary: Summary, ghost seen: seq<Site>)
    requires catalog.Valid()
    modifies catalog.Frame(), zone
    ensures catalog.Valid()
    ensures var run := Run(Site(old(catalog.Tables()), old(zone.objects)), disk.Contents(), maxAttempts, limit, weather);
            && Site(catalog.Tables(), zone.objects) == run.After() && summary == Tally(run.Outcomes())
            && seen == RowsTrace(run.site, run.files, maxAttempts, run.Rows(), weather)
  {
    ghost var site := Site(catalog.Tables(), zone.objects);
    ghost var files := disk.Contents();
    var rows := ListPending(catalog.Tables(), limit);
    summary, seen := NOTHING, [];
    ghost var now: Site, outcomes: seq<Outcome> := site, [];
    for i := 0 to |rows|
      invariant catalog.Valid() && unchanged(disk)
      invariant (now, outcomes) == RecoverRows(site, files, maxAttempts, rows[..i], weather)
      invariant Site(catalog.Tables(), zone.objects) == now && summary == Tally(outcomes)
      invariant seen == RowsTrace(site, files, maxAttempts, rows[..i], weather)
    {
      assert disk.Contents() == files;
      OneRowMore(site, files, maxAttempts, rows, weather, i, now, outcomes);
      ghost var trace;
      summary, trace := RecoverOne(catalog, zone, disk, maxAttempts, rows[i], weather(i), summary);
      ghost var (after, outcome) := RecoverRow(now, files, maxAttempts, rows[i], weather(i));
      TallyMore(outcomes, outcome);
      now, outcomes, seen := after, outcomes + [outcome], seen + trace;
    }
    assert rows[..|rows|] == rows;
  }

  lemma OneRowMore(site: Site, files: map<string, Blob>, maxAttempts: int, rows: seq<PendingPush>, weather: nat -> Attempt,
                   i: nat, now: Site, outcomes: seq<Outcome>)
    requires i < |rows| && (now, outcomes) == RecoverRows(site, files, maxAttempts, rows[..i], weather)
    ensures RecoverRows(site, files, maxAttempts, rows[..i + 1], weather) ==
            var (after, outcome) := RecoverRow(now, files, maxAttempts, rows[i], weather(i));
            (after, outcomes + [outcome])
    ensures RowsTrace(site, files, maxAttempts, rows[..i + 1], weather) ==
            RowsTrace(site, files, maxAttempts, rows[..i], weather) + RowTrace(now, files, maxAttempts, rows[i], weather(i))
  {
    assert rows[..i + 1][..i] == rows[..i];
  }

  lemma TallyMore(outcomes: seq<Outcome>, outcome: Outcome)
    ensures Tally(outcomes + [outcome]) == Counted(Tally(outcomes), outcome)
  {
    assert (outcomes + [outcome])[..|outcomes|] == outcomes;
  }
}
