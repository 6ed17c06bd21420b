// DuckLakeClient: the facade that sequences catalog, lake, iRODS and cache.
module Client {
  import opened Wrappers
  import opened Avu
  import opened Names
  import opened Storage
  import opened WriteOrder
  import opened CatalogTables
  import opened CatalogBase
  import opened Cache
  import opened Lake
  import opened Recovery
  import opened Sync
  import Effective
  import Protocol
  import Recording

  const ENSURE_CACHED_LIMIT := 1000

  lemma StampTwice(project: string, sid: nat, changes: seq<Change>)
    ensures Stamp(project, sid, Stamp(project, sid, changes)) == Stamp(project, sid, changes)
  {
  }

  function Expected(t: Tables, project: string): seq<string> {
    var ids := ListSnapshots(t, project, ENSURE_CACHED_LIMIT, false);
    seq(|ids|, i requires 0 <= i < |ids| => t.snapshots[ids[i]].parquetFile)
  }

  /** The expected files are fetched, up to the first that cannot be. */
  ghost predicate CacheFilled(expected: seq<string>, root: string, irodsRoot: string, files: map<string, Blob>,
                              files': map<string, Blob>, objects: map<string, Blob>, pullFails: string -> bool,
                              pulled: seq<string>, k: nat) {
    && k <= |expected|
    && Filled(files, files', root, irodsRoot, expected[..k], pulled, objects)
    && (k < |expected| ==> pullFails(expected[k]) || Target(irodsRoot, expected[k]) !in objects)
  }

  class DuckLakeClient {
    const catalog: CatalogStore
    const disk: LocalDisk
    const cacheRoot: string
    const cacheCapBytes: nat
    const irodsSession: IrodsZone?
    var lakes: map<string, LakeStore>

    ghost predicate Valid()
      reads this, catalog.Frame()
    {
      && catalog.Valid()
      && forall p | p in lakes :: lakes[p].disk == disk && lakes[p].root == LakeRoot(p)
    }

    constructor (catalog: CatalogStore, disk: LocalDisk, cacheRoot: string, cacheCapBytes: nat, irodsSession: IrodsZone?)
      requires catalog.Valid()
      ensures Valid()
      ensures this.catalog == catalog && this.disk == disk && this.irodsSession == irodsSession
      ensures this.cacheRoot == cacheRoot && this.cacheCapBytes == cacheCapBytes
    {
      this.catalog, this.disk, this.cacheRoot := catalog, disk, cacheRoot;
      this.cacheCapBytes, this.irodsSession := cacheCapBytes, irodsSession;
      lakes := map[];
    }

    function LakeRoot(project: string): string {
      cacheRoot + "/" + project
    }

    /** Per-call session wins; the constructor's is the fallback. */
    function EffectiveSession(session: IrodsZone?): IrodsZone? {
      if session != null then session else irodsSession
    }

    function SessionFrame(session: IrodsZone?): set<object> {
      var s := EffectiveSession(session);
      if s == null then {} else {s}
    }

    method GetLake(project: string) returns (lake: LakeStore)
      requires Valid()
      modifies this`lakes
      ensures Valid() && catalog.Tables() == old(catalog.Tables())
      ensures lake.disk == disk && lake.root == LakeRoot(project)
    {
      if project !in lakes {
        var created := new LakeStore(disk, LakeRoot(project));
        lakes := lakes[project := created];
      }
      lake := lakes[project];
    }

    /** The call as the protocol's writer sees it. */
    function AsWriter(projectId: string, project: Project, actor: string, note: Option<string>, changes: seq<Change>,
                      session: bool): Protocol.Writer {
      Protocol.Writer(0, cacheRoot, projectId, project, actor, note, changes, session, Protocol.Begin)
    }

    /** The row was just created over the tables t. */
    ghost predicate JustCreated(t: Tables, x: Protocol.Writer, fate: Recording.Fate)
      reads this, catalog.Frame()
    {
      && catalog.Valid() && Constraints(t)
      && catalog.Tables() == Recording.WithRow(t, Recording.NewRow(t, x, fate, PENDING))
      && x.changes != []
      && x == AsWriter(x.projectId, x.project, x.actor, x.note, x.changes, x.session)
    }

    /** write_changes: the file of the new snapshot, or nothing. */
    method WriteFile(x: Protocol.Writer, sid: nat, lake: LakeStore, fate: Recording.Fate, size: nat)
      returns (relative: Option<string>, ghost rows: seq<Change>)
      requires x.changes != []
      requires lake.disk == disk && lake.root == LakeRoot(x.projectId)
      requires x == AsWriter(x.projectId, x.project, x.actor, x.note, x.changes, x.session)
      modifies disk
      ensures catalog.Tables() == old(catalog.Tables())
      ensures relative == if fate.writeFails then None else Some(SnapshotFile(sid))
      ensures fate.writeFails ==> disk.files == old(disk.files)
      ensures !fate.writeFails ==>
                && FileOf(rows, Stamp(x.projectId, sid, x.changes))
                && disk.Contents() == old(disk.Contents())[Protocol.FileKey(x, sid).path := Parquet(rows)]
    {
      var stamped := Stamp(x.projectId, sid, x.changes);
      StampTwice(x.projectId, sid, x.changes);
      relative, rows := lake.WriteChanges(x.projectId, sid, stamped, size, fate.createdAt, fate.writeFails);
      Unmoved(catalog);
    }

    /** Without a session: a failed write deletes the row again. */
    method RecordLocally(x: Protocol.Writer, lake: LakeStore, fate: Recording.Fate, size: nat, sid: nat, ghost t: Tables)
      returns (reply: Option<Snapshot>, ghost rows: seq<Change>, ghost seen: seq<Recording.Host>)
      requires JustCreated(t, x, fate) && !x.session && sid == t.nextId
      requires lake.disk == disk && lake.root == LakeRoot(x.projectId)
      modifies catalog.Frame(), disk
      ensures catalog.Valid()
      ensures !fate.writeFails ==> FileOf(rows, Stamp(x.projectId, sid, x.changes))
      ensures var call := Recording.After(Site(t, map[]), old(disk.Contents()), x, fate, rows);
              catalog.Tables() == call.site.tables && disk.Contents() == call.files && reply == call.reply
      ensures seen == Recording.TailTrace(Site(t, map[]), old(disk.Contents()), x, fate, rows)
    {
      Recording.NextIdIsNew(t);
      Recording.Renames(t, x, fate);
      var relative;
      seen := [];
      relative, rows := WriteFile(x, sid, lake, fate, size);
      if relative.None? {
        var _ := catalog.DeleteSnapshot(sid);
        assert !HasChildren(Recording.WithRow(t, Recording.NewRow(t, x, fate, PENDING)), sid);
        assert catalog.Tables().snapshots == t.snapshots && catalog.Tables().pending == t.pending;
        seen := seen + [Recording.Host(Site(catalog.Tables(), map[]), disk.Contents())];
        return None, rows, seen;
      }
      seen := seen + [Recording.Host(Site(catalog.Tables(), map[]), disk.Contents())];
      var done := catalog.UpdateSnapshotParquetFile(sid, relative.value);
      seen := seen + [Recording.Host(Site(catalog.Tables(), map[]), disk.Contents())];
      reply := Some(done.snapshot);
    }

    /**
     * With a session: queue, write, push, commit, dequeue. A failure leaves the
     * row to recovery. seen: the host after each operation, which is what a crash
     * between two of them leaves.
     */
    method RecordWithSession(x: Protocol.Writer, lake: LakeStore, zone: IrodsZone, fate: Recording.Fate, size: nat, sid: nat,
                             ghost t: Tables)
      returns (reply: Option<Snapshot>, ghost rows: seq<Change>, ghost seen: seq<Recording.Host>)
      requires JustCreated(t, x, fate) && x.session && sid == t.nextId
      requires lake.disk == disk && lake.root == LakeRoot(x.projectId)
      modifies catalog.Frame(), disk, zone
      ensures catalog.Valid()
      ensures !fate.writeFails ==> FileOf(rows, Stamp(x.projectId, sid, x.changes))
      ensures var call := Recording.After(Site(t, old(zone.objects)), old(disk.Contents()), x, fate, rows);
              && catalog.Tables() == call.site.tables && zone.objects == call.site.objects
              && disk.Contents() == call.files && reply == call.reply
      ensures seen == Recording.TailTrace(Site(t, old(zone.objects)), old(disk.Contents()), x, fate, rows)
    {
      Recording.NextIdIsNew(t);
      var localPath := Protocol.FileKey(x, sid).path;
      var target := Protocol.TargetOf(x.project, sid);
      var _ := catalog.InsertPendingPush(sid, localPath, target, fate.queuedAt);
      assert catalog.Tables().pending == t.pending[sid := Recording.QueueRow(t, x, fate)];
      assert unchanged(zone) && unchanged(disk);
      seen := [Recording.Host(Site(catalog.Tables(), zone.objects), disk.Contents())];
      var relative;
      relative, rows := WriteFile(x, sid, lake, fate, size);
      if relative.None? {
        return None, rows, seen;
      }
      seen := seen + [Recording.Host(Site(catalog.Tables(), zone.objects), disk.Contents())];
      assert localPath in disk.Contents();
      ghost var uploads;
      reply, uploads := PushAndCommit(x, zone, fate, rows, sid, relative.value, t);
      seen := seen + uploads;
    }

    /** Push, commit, dequeue; a push that is not accepted leaves the row queued. */
    method PushAndCommit(x: Protocol.Writer, zone: IrodsZone, fate: Recording.Fate, ghost rows: seq<Change>, sid: nat,
                         relative: string, ghost t: Tables)
      returns (reply: Option<Snapshot>, ghost seen: seq<Recording.Host>)
      requires catalog.Valid() && Constraints(t) && sid == t.nextId && relative == SnapshotFile(sid)
      requires catalog.Tables() == Recording.WithRow(t, Recording.NewRow(t, x, fate, PENDING))
                                     .(pending := t.pending[sid := Recording.QueueRow(t, x, fate)])
      requires Protocol.FileKey(x, sid).path in disk.files && disk.files[Protocol.FileKey(x, sid).path].content == Parquet(rows)
      modifies catalog.Frame(), zone
      ensures catalog.Valid() && unchanged(disk)
      ensures var put := AfterPut(Site(old(catalog.Tables()), old(zone.objects)), Protocol.TargetOf(x.project, sid), fate.upload.stored);
              var named := Recording.NewRow(t, x, fate, SnapshotFile(sid));
              && seen == Recording.UploadTrace(t, put, disk.Contents(), x, fate, rows)
              && zone.objects == put.objects
              && (if Recording.PushSucceeds(rows, fate) then catalog.Tables() == Recording.WithRow(t, named) && reply == Some(named)
                  else catalog.Tables() == old(catalog.Tables()) && reply.None?)
    {
      var accepted := Push(zone, disk.files[Protocol.FileKey(x, sid).path].content, Protocol.TargetOf(x.project, sid), fate.upload);
      Unmoved(catalog);
      seen := [Recording.Host(Site(catalog.Tables(), zone.objects), disk.Contents())];
      if !accepted {
        return None, seen;
      }
      var row;
      ghost var between;
      row, between := CommitAndDequeue(x, fate, sid, relative, t);
      seen := seen + [Recording.Host(Site(between, zone.objects), disk.Contents()),
                      Recording.Host(Site(catalog.Tables(), zone.objects), disk.Contents())];
      reply := Some(row);
    }

    /** The commit point, then the queue row goes. between: the catalog at the commit point. */
    method CommitAndDequeue(x: Protocol.Writer, fate: Recording.Fate, sid: nat, relative: string, ghost t: Tables)
      returns (row: Snapshot, ghost between: Tables)
      requires catalog.Valid() && Constraints(t) && sid == t.nextId && relative == SnapshotFile(sid)
      requires catalog.Tables() == Recording.WithRow(t, Recording.NewRow(t, x, fate, PENDING))
                                     .(pending := t.pending[sid := Recording.QueueRow(t, x, fate)])
      modifies catalog.Frame()
      ensures catalog.Valid()
      ensures row == Recording.NewRow(t, x, fate, SnapshotFile(sid))
      ensures catalog.Tables() == Recording.WithRow(t, row)
      ensures between == Recording.WithRow(t, row).(pending := old(catalog.Tables()).pending)
    {
      Recording.NextIdIsNew(t);
      Recording.Renames(t, x, fate);
      var done := catalog.UpdateSnapshotParquetFile(sid, relative);
      between := catalog.Tables();
      catalog.DeletePendingPush(sid);
      assert catalog.Tables().pending == t.pending;
      row := done.snapshot;
    }

    /**
     * record_changes. Refuses an empty batch and an unknown project without
     * touching anything; otherwise ends as Recording.After says, and on success
     * evicts from the cache when it has a cap.
     */
    method RecordChanges(projectId: string, actor: string, changes: seq<Change>, note: Option<string>, session: IrodsZone?,
                         fate: Recording.Fate, size: nat, unlinkFails: nat -> bool)
      returns (reply: Option<Snapshot>, ghost rows: seq<Change>, ghost filled: map<string, File>, ghost seen: seq<Recording.Host>)
      requires Valid()
      modifies this`lakes, catalog.Frame(), disk, SessionFrame(session)
      ensures Valid()
      ensures session != null && irodsSession != null && irodsSession != session ==> unchanged(irodsSession)
      ensures changes == [] || projectId !in old(catalog.Tables().projects) ==>
                && reply.None? && catalog.Tables() == old(catalog.Tables()) && disk.files == old(disk.files)
                && (EffectiveSession(session) != null ==> unchanged(EffectiveSession(session)))
      ensures changes != [] && projectId in old(catalog.Tables().projects) ==>
                var zone := EffectiveSession(session);
                var x := AsWriter(projectId, old(catalog.Tables().projects)[projectId], actor, note, changes, zone != null);
                var objects := if zone == null then map[] else old(zone.objects);
                var call := Recording.After(Site(old(catalog.Tables()), objects), old(disk.Contents()), x, fate, rows);
                && (!fate.writeFails ==> FileOf(rows, Stamp(projectId, old(catalog.Tables().nextId), changes)))
                && catalog.Tables() == call.site.tables
                && (zone != null ==> zone.objects == call.site.objects)
                && reply == call.reply
                && seen == Recording.CallTrace(Site(old(catalog.Tables()), objects), old(disk.Contents()), x, fate, rows)
                && ContentsOf(filled) == call.files
                && (if reply.Some? && cacheCapBytes != 0 then Evicted(filled, disk.files, cacheCapBytes, unlinkFails)
                    else disk.files == filled)
    {
      rows, filled, seen := [], disk.files, [];
      if changes == [] || projectId !in catalog.Tables().projects {
        return None, rows, filled, seen;
      }
      var zone := EffectiveSession(session);
      var x := AsWriter(projectId, catalog.Tables().projects[projectId], actor, note, changes, zone != null);
      reply, rows, seen := RecordNew(x, zone, fate, size);
      assert session != null && irodsSession != null && irodsSession != session ==> unchanged(irodsSession);
      filled := disk.files;
      if reply.Some? && cacheCapBytes != 0 {
        Evict(unlinkFails);
      }
    }

    /** From create_snapshot on. */
    method RecordNew(x: Protocol.Writer, zone: IrodsZone?, fate: Recording.Fate, size: nat)
      returns (reply: Option<Snapshot>, ghost rows: seq<Change>, ghost seen: seq<Recording.Host>)
      requires Valid() && x.projectId in catalog.Tables().projects && x.changes != [] && (x.session <==> zone != null)
      requires x == AsWriter(x.projectId, x.project, x.actor, x.note, x.changes, x.session)
      modifies this`lakes, catalog.Frame(), disk, if zone == null then {} else {zone}
      ensures Valid()
      ensures !fate.writeFails ==> FileOf(rows, Stamp(x.projectId, old(catalog.Tables()).nextId, x.changes))
      ensures var before := Site(old(catalog.Tables()), if zone == null then map[] else old(zone.objects));
              var call := Recording.After(before, old(disk.Contents()), x, fate, rows);
              && catalog.Tables() == call.site.tables && (zone != null ==> zone.objects == call.site.objects)
              && disk.Contents() == call.files && reply == call.reply
              && seen == Recording.CallTrace(before, old(disk.Contents()), x, fate, rows)
    {
      ghost var t := catalog.Tables();
      var parent := LatestSnapshotId(catalog.Tables(), x.projectId, false);
      var created := catalog.CreateSnapshot(x.projectId, x.actor, parent, x.note, PENDING, fate.createdAt);
      var lake := GetLake(x.projectId);
      assert unchanged(disk) && (zone != null ==> unchanged(zone));
      ghost var first := Recording.Host(Site(catalog.Tables(), if zone == null then map[] else zone.objects), disk.Contents());
      if zone == null {
        reply, rows, seen := RecordLocally(x, lake, fate, size, created.sid, t);
      } else {
        reply, rows, seen := RecordWithSession(x, lake, zone, fate, size, created.sid, t);
      }
      seen := [first] + seen;
    }

    /** Opportunistic, and only ever removes. */
    method Evict(unlinkFails: nat -> bool)
      requires cacheCapBytes != 0
      modifies disk
      ensures catalog.Tables() == old(catalog.Tables())
      ensures Evicted(old(disk.files), disk.files, cacheCapBytes, unlinkFails)
      ensures disk.files.Keys <= old(disk.files).Keys
    {
      var walk := Walk(disk);
      var evicted, order, k := EvictIfOver(disk, cacheCapBytes, walk, unlinkFails);
      Unmoved(catalog);
    }

    // ------------------------------------------------------------------ reading

    /** Fills the cache before a read; a failed pull is swallowed. */
    method EnsureProjectCached(project: string, row: Project, zone: IrodsZone, pullFails: string -> bool,
                               sizeOf: string -> nat, now: int)
      returns (ghost pulled: seq<string>, ghost k: nat)
      requires Valid()
      modifies disk
      ensures Valid() && catalog.Tables() == old(catalog.Tables())
      ensures CacheFilled(Expected(old(catalog.Tables()), project), LakeRoot(project), row.ducklakePath, old(disk.Contents()),
                          disk.Contents(), zone.objects, pullFails, pulled, k)
    {
      var expected := Expected(catalog.Tables(), project);
      if expected == [] {
        return [], 0;
      }
      var ok;
      pulled, ok, k := EnsureCached(disk, zone, LakeRoot(project), row.ducklakePath, expected, pullFails, sizeOf, now);
      Unmoved(catalog);
    }

    /**
     * The common part of the reads: look the project up, fill its cache when
     * there is a session, and take its lake. None is an unknown project.
     */
    method OpenProject(project: string, session: IrodsZone?, pullFails: string -> bool, sizeOf: string -> nat, now: int)
      returns (lake: Option<LakeStore>, ghost pulled: seq<string>, ghost k: nat)
      requires Valid()
      modifies this`lakes, disk
      ensures Valid() && catalog.Tables() == old(catalog.Tables())
      ensures lake.Some? <==> project in old(catalog.Tables()).projects
      ensures lake.Some? ==> lake.value.disk == disk && lake.value.root == LakeRoot(project)
      ensures EffectiveSession(session) == null || lake.None? ==> disk.files == old(disk.files)
      ensures EffectiveSession(session) != null && lake.Some? ==>
                CacheFilled(Expected(old(catalog.Tables()), project), LakeRoot(project),
                            old(catalog.Tables()).projects[project].ducklakePath,
                            old(disk.Contents()), disk.Contents(), EffectiveSession(session).objects, pullFails, pulled, k)
    {
      pulled, k := [], 0;
      if project !in catalog.Tables().projects {
        return None, pulled, k;
      }
      var zone := EffectiveSession(session);
      if zone != null {
        pulled, k := EnsureProjectCached(project, catalog.Tables().projects[project], zone, pullFails, sizeOf, now);
      }
      var found := GetLake(project);
      lake := Some(found);
    }

    /** get_avus_as_of. None is an unknown project or an unreadable lake. */
    method GetAvusAsOf(project: string, path: string, ts: int, session: IrodsZone?, pullFails: string -> bool,
                       sizeOf: string -> nat, now: int)
      returns (r: Option<seq<Change>>, ghost view: seq<Change>, ghost l: seq<Change>, ghost pulled: seq<string>, ghost k: nat)
      requires Valid()
      modifies this`lakes, disk
      ensures Valid() && catalog.Tables() == old(catalog.Tables())
      ensures r.Some? <==> project in old(catalog.Tables()).projects && Readable(disk.Contents(), LakeRoot(project))
      ensures EffectiveSession(session) == null || project !in old(catalog.Tables()).projects ==> disk.files == old(disk.files)
      ensures EffectiveSession(session) != null && project in old(catalog.Tables()).projects ==>
                CacheFilled(Expected(old(catalog.Tables()), project), LakeRoot(project),
                            old(catalog.Tables()).projects[project].ducklakePath,
                            old(disk.Contents()), disk.Contents(), EffectiveSession(session).objects, pullFails, pulled, k)
      ensures r.Some? ==>
                && multiset(view) == View(disk.Contents(), LakeRoot(project))
                && Newest(l, multiset(Keep(Effective.AsOf(project, path, ts), view)))
                && r.value == Projected(Effective.Window(l))
                && IsEffective(r.value, view, project, path, ts)
    {
      view, l := [], [];
      var lake;
      lake, pulled, k := OpenProject(project, session, pullFails, sizeOf, now);
      if lake.None? {
        return None, view, l, pulled, k;
      }
      r, view, l := lake.value.ReadEffectiveAvus(project, path, ts);
    }

    /** get_history. */
    method GetHistory(project: string, path: string, limit: nat, session: IrodsZone?, pullFails: string -> bool,
                      sizeOf: string -> nat, now: int)
      returns (r: Option<seq<Change>>, ghost view: seq<Change>, ghost h: seq<Change>, ghost pulled: seq<string>, ghost k: nat)
      requires Valid()
      modifies this`lakes, disk
      ensures Valid() && catalog.Tables() == old(catalog.Tables())
      ensures r.Some? <==> project in old(catalog.Tables()).projects && Readable(disk.Contents(), LakeRoot(project))
      ensures EffectiveSession(session) == null || project !in old(catalog.Tables()).projects ==> disk.files == old(disk.files)
      ensures EffectiveSession(session) != null && project in old(catalog.Tables()).projects ==>
                CacheFilled(Expected(old(catalog.Tables()), project), LakeRoot(project),
                            old(catalog.Tables()).projects[project].ducklakePath,
                            old(disk.Contents()), disk.Contents(), EffectiveSession(session).objects, pullFails, pulled, k)
      ensures r.Some? ==>
                && multiset(view) == View(disk.Contents(), LakeRoot(project))
                && IsHistory(h, view, project, path)
                && r.value <= h && (|r.value| == limit || r.value == h) && |r.value| <= limit
    {
      view, h := [], [];
      var lake;
      lake, pulled, k := OpenProject(project, session, pullFails, sizeOf, now);
      if lake.None? {
        return None, view, h, pulled, k;
      }
      r, view, h := lake.value.ReadHistory(project, path, limit);
    }

    /** diff: symmetric in its endpoints. */
    method Diff(project: string, fromSid: nat, toSid: nat, session: IrodsZone?, pullFails: string -> bool,
                sizeOf: string -> nat, now: int)
      returns (r: Option<seq<Change>>, ghost view: seq<Change>, ghost pulled: seq<string>, ghost k: nat)
      requires Valid()
      modifies this`lakes, disk
      ensures Valid() && catalog.Tables() == old(catalog.Tables())
      ensures r.Some? <==> project in old(catalog.Tables()).projects && Readable(disk.Contents(), LakeRoot(project))
      ensures EffectiveSession(session) == null || project !in old(catalog.Tables()).projects ==> disk.files == old(disk.files)
      ensures EffectiveSession(session) != null && project in old(catalog.Tables()).projects ==>
                CacheFilled(Expected(old(catalog.Tables()), project), LakeRoot(project),
                            old(catalog.Tables()).projects[project].ducklakePath,
                            old(disk.Contents()), disk.Contents(), EffectiveSession(session).objects, pullFails, pulled, k)
      ensures r.Some? ==>
                && multiset(view) == View(disk.Contents(), LakeRoot(project))
                && (fromSid <= toSid ==> IsDiff(r.value, view, project, fromSid, toSid))
                && (toSid <= fromSid ==> IsDiff(r.value, view, project, toSid, fromSid))
    {
      view := [];
      var lake;
      lake, pulled, k := OpenProject(project, session, pullFails, sizeOf, now);
      if lake.None? {
        return None, view, pulled, k;
      }
      r, view := lake.value.Diff(project, fromSid, toSid);
    }

    /** recover_pending_pushes. None: there is no session to push with. */
    method RecoverPendingPushes(session: IrodsZone?, maxAttempts: int, limit: nat, weather: nat -> Attempt)
      returns (summary: Option<Summary>, ghost seen: seq<Site>)
      requires Valid()
      modifies catalog.Frame(), SessionFrame(session)
      ensures Valid()
      ensures session != null && irodsSession != null && irodsSession != session ==> unchanged(irodsSession)
      ensures EffectiveSession(session) == null ==> summary.None? && catalog.Tables() == old(catalog.Tables())
      ensures var zone := EffectiveSession(session);
              zone != null ==>
                var run := Run(Site(old(catalog.Tables()), old(zone.objects)), disk.Contents(), maxAttempts, limit, weather);
                && Site(catalog.Tables(), zone.objects) == run.After() && summary == Some(Tally(run.Outcomes()))
                && seen == RowsTrace(run.site, run.files, maxAttempts, run.Rows(), weather)
    {
      seen := [];
      var zone := EffectiveSession(session);
      if zone == null {
        return None, seen;
      }
      var s;
      s, seen := Sync.RecoverPendingPushes(catalog, zone, disk, maxAttempts, limit, weather);
      summary := Some(s);
    }
  }
}
