// Crash-restartability of recovery: in fair weather every recovery, however
// often it is interrupted and started again, heads for one and the same state.
module Restart {
  import opened Wrappers
  import opened Avu
  import opened Names
  import opened Storage
  import opened CatalogTables
  import opened Protocol
  import opened Invariant
  import opened Safety
  import Recovery

  type Site = Recovery.Site

  // ------------------------------------------------------------ where recovery heads

  ghost predicate Due(t: Tables, s: nat) {
    s in t.pending && s in t.snapshots && t.snapshots[s].parquetFile == PENDING
  }

  ghost predicate IsTarget(t: Tables, o: string) {
    exists s :: Due(t, s) && t.pending[s].irodsTarget == o
  }

  ghost predicate TargetsDistinct(m: map<nat, PendingPush>) {
    forall s, u | s in m && u in m && m[s].irodsTarget == m[u].irodsTarget :: s == u
  }

  /** Every due snapshot committed under its file's name, and nothing queued. */
  function SettledTables(t: Tables): Tables {
    t.(pending := map[],
       snapshots := map s | s in t.snapshots ::
         if s in t.pending && t.snapshots[s].parquetFile == PENDING
         then t.snapshots[s].(parquetFile := BaseName(t.pending[s].localPath))
         else t.snapshots[s])
  }

  /** f is what recovery makes of a site when every upload goes through. */
  ghost predicate Settles(site: Site, files: map<string, Blob>, f: Site) {
    && f.tables == SettledTables(site.tables)
    && (forall s {:trigger Due(site.tables, s)} | Due(site.tables, s) ::
          Lookup(f.objects, site.tables.pending[s].irodsTarget) == Lookup(files, site.tables.pending[s].localPath))
    && (forall o {:trigger IsTarget(site.tables, o)} | !IsTarget(site.tables, o) :: Lookup(f.objects, o) == Lookup(site.objects, o))
  }

  lemma SettlesUnique(site: Site, files: map<string, Blob>, f: Site, g: Site)
    requires Settles(site, files, f) && Settles(site, files, g)
    ensures f == g
  {
    forall o ensures Lookup(f.objects, o) == Lookup(g.objects, o) {
      if IsTarget(site.tables, o) {
        var s :| Due(site.tables, s) && site.tables.pending[s].irodsTarget == o;
      }
    }
    forall o ensures o in f.objects <==> o in g.objects
             ensures o in f.objects ==> f.objects[o] == g.objects[o]
    {
      assert Lookup(f.objects, o) == Lookup(g.objects, o);
    }
    assert f.objects == g.objects;
  }

  lemma EmptyQueueIsSettled(site: Site, files: map<string, Blob>)
    requires site.tables.pending == map[]
    ensures Settles(site, files, site)
  {
    assert SettledTables(site.tables).snapshots == site.tables.snapshots;
  }

  lemma DropHeads(site: Site, files: map<string, Blob>, sid: nat, f: Site)
    requires !Due(site.tables, sid)
    requires Settles(Recovery.Do(site, DeletePending(sid)), files, f)
    ensures Settles(site, files, f)
  {
    var site' := Recovery.Do(site, DeletePending(sid));
    forall s ensures Due(site'.tables, s) <==> Due(site.tables, s) {}
    assert SettledTables(site'.tables).snapshots == SettledTables(site.tables).snapshots;
    forall o | !IsTarget(site.tables, o) ensures !IsTarget(site'.tables, o) {}
  }

  lemma PushHeads(site: Site, files: map<string, Blob>, sid: nat, f: Site)
    requires Due(site.tables, sid) && site.tables.pending[sid].localPath in files
    requires Settles(Recovery.AfterPut(site, site.tables.pending[sid].irodsTarget, Some(files[site.tables.pending[sid].localPath])), files, f)
    ensures Settles(site, files, f)
  {
  }

  lemma FlipHeads(site: Site, files: map<string, Blob>, sid: nat, f: Site)
    requires Due(site.tables, sid) && TargetsDistinct(site.tables.pending)
    requires Lookup(site.objects, site.tables.pending[sid].irodsTarget) == Lookup(files, site.tables.pending[sid].localPath)
    requires BaseName(site.tables.pending[sid].localPath) != PENDING
    requires Settles(Recovery.Do(site, UpdateParquetFile(sid, BaseName(site.tables.pending[sid].localPath))), files, f)
    ensures Settles(site, files, f)
  {
    var site' := Recovery.Do(site, UpdateParquetFile(sid, BaseName(site.tables.pending[sid].localPath)));
    forall s ensures Due(site'.tables, s) <==> Due(site.tables, s) && s != sid {}
    assert SettledTables(site'.tables).snapshots == SettledTables(site.tables).snapshots;
    forall o | !IsTarget(site.tables, o) ensures !IsTarget(site'.tables, o) {}
    assert !IsTarget(site'.tables, site.tables.pending[sid].irodsTarget);
  }

  // ------------------------------------------------------------- uninterrupted runs

  /** The row's file is there, and the upload stores it and is accepted. */
  predicate FairUpload(files: map<string, Blob>, row: PendingPush, u: Recovery.Attempt) {
    && row.localPath in files
    && !u.raised
    && u.stored == Some(files[row.localPath])
    && Accepted(Some(files[row.localPath]), u.answer)
  }

  lemma FairRowHeads(site: Site, files: map<string, Blob>, maxAttempts: int, row: PendingPush, u: Recovery.Attempt, f: Site)
    requires row.snapshotId in site.tables.pending && site.tables.pending[row.snapshotId] == row
    requires TargetsDistinct(site.tables.pending) && row.attempts < maxAttempts && BaseName(row.localPath) != PENDING
    requires Due(site.tables, row.snapshotId) ==> FairUpload(files, row, u)
    ensures var after := Recovery.RecoverRow(site, files, maxAttempts, row, u).0;
            && after.tables.pending == site.tables.pending - {row.snapshotId}
            && (Settles(after, files, f) ==> Settles(site, files, f))
  {
    var sid := row.snapshotId;
    var after := Recovery.RecoverRow(site, files, maxAttempts, row, u).0;
    Recovery.PendingEffect(site, files, maxAttempts, row, u);
    if Settles(after, files, f) {
      if Due(site.tables, sid) {
        var put := Recovery.AfterPut(site, row.irodsTarget, u.stored);
        var flipped := Recovery.Do(put, UpdateParquetFile(sid, BaseName(row.localPath)));
        assert after == Recovery.Do(flipped, DeletePending(sid));
        DropHeads(flipped, files, sid, f);
        FlipHeads(put, files, sid, f);
        PushHeads(site, files, sid, f);
      } else {
        DropHeads(site, files, sid, f);
      }
    }
  }

  lemma {:induction false} FairLoopHeads(site: Site, files: map<string, Blob>, maxAttempts: int, rows: seq<PendingPush>,
                                         weather: nat -> Recovery.Attempt, f: Site)
    requires Recovery.Listed(rows, site.tables.pending) && TargetsDistinct(site.tables.pending)
    requires forall i | 0 <= i < |rows| :: rows[i].attempts < maxAttempts && BaseName(rows[i].localPath) != PENDING
    requires forall i | 0 <= i < |rows| && Due(site.tables, rows[i].snapshotId) :: FairUpload(files, rows[i], weather(i))
    ensures var after := Recovery.RecoverRows(site, files, maxAttempts, rows, weather).0;
            && after.tables.pending == site.tables.pending - Recovery.Ids(rows)
            && (Settles(after, files, f) ==> Settles(site, files, f))
  {
    if rows != [] {
      var n := |rows| - 1;
      var before := Recovery.RecoverRows(site, files, maxAttempts, rows[..n], weather).0;
      FairLoopHeads(site, files, maxAttempts, rows[..n], weather, f);
      assert rows[n].snapshotId !in Recovery.Ids(rows[..n]);
      Recovery.LoopKeeps(site, files, maxAttempts, rows[..n], weather, rows[n].snapshotId);
      FairNextHeads(site, before, Recovery.Ids(rows[..n]), files, maxAttempts, rows[n], weather(n), f);
      IdsOfFront(rows);
    }
  }

  lemma FairNextHeads(site: Site, before: Site, done: set<nat>, files: map<string, Blob>, maxAttempts: int,
                      row: PendingPush, u: Recovery.Attempt, f: Site)
    requires before.tables.pending == site.tables.pending - done && TargetsDistinct(site.tables.pending)
    requires Recovery.SameRow(site.tables, before.tables, row.snapshotId)
    requires row.snapshotId in site.tables.pending && site.tables.pending[row.snapshotId] == row
    requires row.attempts < maxAttempts && BaseName(row.localPath) != PENDING
    requires Due(site.tables, row.snapshotId) ==> FairUpload(files, row, u)
    ensures var after := Recovery.RecoverRow(before, files, maxAttempts, row, u).0;
            && after.tables.pending == site.tables.pending - (done + {row.snapshotId})
            && (Settles(after, files, f) ==> Settles(before, files, f))
  {
    FairRowHeads(before, files, maxAttempts, row, u, f);
  }

  lemma IdsOfFront(rows: seq<PendingPush>)
    requires rows != []
    ensures Recovery.Ids(rows) == Recovery.Ids(rows[..|rows| - 1]) + {rows[|rows| - 1].snapshotId}
  {
    var n := |rows| - 1;
    forall i | 0 <= i < n ensures rows[i].snapshotId in Recovery.Ids(rows[..n]) { assert rows[..n][i] == rows[i]; }
  }

  /** Fair weather for a run over the whole queue. */
  ghost predicate FairRun(run: Recovery.Run) {
    && run.Valid()
    && run.limit >= |run.site.tables.pending|
    && TargetsDistinct(run.site.tables.pending)
    && (forall s | s in run.site.tables.pending ::
          run.site.tables.pending[s].attempts < run.maxAttempts && BaseName(run.site.tables.pending[s].localPath) != PENDING)
    && (forall i | 0 <= i < |run.Rows()| && Due(run.site.tables, run.Rows()[i].snapshotId) ::
          FairUpload(run.files, run.Rows()[i], run.weather(i)))
  }

  /** One uninterrupted run in fair weather settles everything. */
  lemma FairRunSettles(run: Recovery.Run)
    requires FairRun(run)
    ensures run.After().tables.pending == map[]
    ensures Settles(run.site, run.files, run.After())
  {
    FairRowsSettle(run.site, run.files, run.maxAttempts, run.Rows(), run.weather);
  }

  lemma FairRowsSettle(site: Site, files: map<string, Blob>, maxAttempts: int, rows: seq<PendingPush>,
                       weather: nat -> Recovery.Attempt)
    requires Lists(rows, site.tables.pending, site.tables.pending.Keys) && TargetsDistinct(site.tables.pending)
    requires forall s | s in site.tables.pending ::
               site.tables.pending[s].attempts < maxAttempts && BaseName(site.tables.pending[s].localPath) != PENDING
    requires forall i | 0 <= i < |rows| && Due(site.tables, rows[i].snapshotId) :: FairUpload(files, rows[i], weather(i))
    ensures var after := Recovery.RecoverRows(site, files, maxAttempts, rows, weather).0;
            after.tables.pending == map[] && Settles(site, files, after)
  {
    var m, after := site.tables.pending, Recovery.RecoverRows(site, files, maxAttempts, rows, weather).0;
    AllRows(m, rows);
    FairLoopHeads(site, files, maxAttempts, rows, weather, after);
    assert m - m.Keys == map[];
    EmptyQueueIsSettled(after, files);
  }

  lemma AllRows(m: map<nat, PendingPush>, rows: seq<PendingPush>)
    requires Lists(rows, m, m.Keys)
    ensures Recovery.Listed(rows, m) && Recovery.Ids(rows) == m.Keys
  {
    Recovery.ListsDistinct(rows, m, m.Keys);
    forall s | s in m ensures s in Recovery.Ids(rows) {
      var i :| 0 <= i < |rows| && rows[i].snapshotId == s;
    }
  }

  // ------------------------------------------------------------ interrupted recoveries

  function FilesOn(caches: map<Key, Blob>, host: nat): map<string, Blob> {
    map k | k in caches && k.host == host :: k.path := caches[k]
  }

  function SiteOf(st: Store): Site {
    Recovery.Site(st.tables, st.objects)
  }

  /** Every due file is on the host, and no row has used up its attempts. */
  ghost predicate Calm(st: Store, host: nat, maxAttempts: int) {
    && (forall s | s in st.tables.pending :: st.tables.pending[s].attempts < maxAttempts)
    && (forall s {:trigger Due(st.tables, s)} | Due(st.tables, s) :: Key(host, st.tables.pending[s].localPath) in st.caches)
  }

  /** Recovery steps only; uploads store the file and are accepted. A crash is Stop. */
  ghost predicate FairStep(w: World, l: Label, host: nat, maxAttempts: int) {
    match l
    case StartRecovery(_, h, m, _) => h == host && m == maxAttempts
    case Recovers(id, a) =>
      id in w.recoverers && w.recoverers[id].rows != [] ==>
        (match a
         case Push(stored, raised, _) => !raised && stored == Lookup(w.store.caches, RowKey(w.recoverers[id]))
         case VerifyPush(answer, _) => Accepted(Lookup(w.store.caches, RowKey(w.recoverers[id])), answer)
         case _ => true)
    case _ => false
  }

  /** A listed row is as the table has it, or was finished by somebody. */
  ghost predicate Current(t: Tables, row: PendingPush) {
    if row.snapshotId in t.pending then t.pending[row.snapshotId] == row
    else !(row.snapshotId in t.snapshots && t.snapshots[row.snapshotId].parquetFile == PENDING)
  }

  ghost predicate OnCourse(st: Store, r: Recoverer, host: nat, maxAttempts: int) {
    && r.host == host && r.maxAttempts == maxAttempts
    && (forall i | 0 <= i < |r.rows| :: Current(st.tables, r.rows[i]))
    && !r.stage.Bumping? && !r.stage.GivingUp?
    && (MidRow(r) && (r.stage.Verifying? || r.stage.Flipping?) ==>
          Lookup(st.objects, r.rows[0].irodsTarget) == Lookup(st.caches, RowKey(r)))
  }

  ghost predicate Recovering(w: World, host: nat, maxAttempts: int) {
    && Calm(w.store, host, maxAttempts)
    && (forall k | k in w.recoverers :: OnCourse(w.store, w.recoverers[k], host, maxAttempts))
  }

  lemma FileOnHost(caches: map<Key, Blob>, host: nat, path: string)
    ensures Lookup(FilesOn(caches, host), path) == Lookup(caches, Key(host, path))
  {
    if Key(host, path) in caches { assert FilesOn(caches, host)[path] == caches[Key(host, path)]; }
  }

  lemma FilesOnPut(caches: map<Key, Blob>, host: nat, path: string, blob: Blob)
    ensures FilesOn(caches[Key(host, path) := blob], host) == FilesOn(caches, host)[path := blob]
  {
    var files := FilesOn(caches[Key(host, path) := blob], host);
    forall p ensures p in files <==> p in FilesOn(caches, host)[path := blob] {
      FileOnHost(caches[Key(host, path) := blob], host, p);
      FileOnHost(caches, host, p);
    }
    forall p | p in files ensures files[p] == FilesOn(caches, host)[path := blob][p] {
      FileOnHost(caches[Key(host, path) := blob], host, p);
      FileOnHost(caches, host, p);
    }
  }

  lemma QueueTargetsDistinct(st: Store)
    requires TablesOK(st)
    ensures TargetsDistinct(st.tables.pending)
    ensures forall s | s in st.tables.pending :: BaseName(st.tables.pending[s].localPath) != PENDING
  {
    var m := st.tables.pending;
    forall s, u | s in m && u in m && m[s].irodsTarget == m[u].irodsTarget ensures s == u {
      assert RowOK(st, m[s]) && RowOK(st, m[u]) && PendingReferences(st.tables, s) && PendingReferences(st.tables, u);
      Addressing("", "", st.entries[s].project.ducklakePath, s, "", "", st.entries[u].project.ducklakePath, u);
    }
    forall s | s in m ensures BaseName(m[s].localPath) != PENDING {
      assert RowOK(st, m[s]);
      SnapshotFileInjective(m[s].snapshotId, 0);
    }
  }

  /** What a fair step does to the rows and objects other recoverers rely on. */
  ghost predicate Gentle(st: Store, st': Store, target: string) {
    && st'.caches == st.caches
    && (forall row :: Current(st.tables, row) ==> Current(st'.tables, row))
    && (forall o | o != target :: Lookup(st'.objects, o) == Lookup(st.objects, o))
  }

  ghost predicate Heads(st: Store, st': Store, host: nat, f: Site) {
    Settles(SiteOf(st'), FilesOn(st'.caches, host), f) ==> Settles(SiteOf(st), FilesOn(st.caches, host), f)
  }

  ghost predicate Progress(env: Env, st: Store, r: Recoverer, a: RecovererAct, host: nat, maxAttempts: int, f: Site)
    requires r.rows != []
  {
    var (st', r') := RecovererStep(st, r, a);
    && r'.Some? && OnCourse(st', r'.value, host, maxAttempts)
    && Calm(st', host, maxAttempts)
    && Gentle(st, st', r.rows[0].irodsTarget)
    && Heads(st, st', host, f)
  }

  ghost predicate OnRow(env: Env, st: Store, r: Recoverer, a: RecovererAct, host: nat, maxAttempts: int) {
    && env.exclusive && TablesOK(st) && r.rows != []
    && RecovererOK(env, st, r) && RecovererMay(env, st, r, a)
    && Calm(st, host, maxAttempts) && OnCourse(st, r, host, maxAttempts)
  }

  lemma MidRowIsDue(env: Env, st: Store, r: Recoverer, a: RecovererAct, host: nat, maxAttempts: int)
    requires OnRow(env, st, r, a, host, maxAttempts) && MidRow(r) && !r.stage.Dropping?
    ensures Due(st.tables, r.rows[0].snapshotId) && st.tables.pending[r.rows[0].snapshotId] == r.rows[0]
    ensures RowKey(r) in st.caches
  {
    assert Current(st.tables, r.rows[0]);
    assert Due(st.tables, r.rows[0].snapshotId);
  }

  lemma LookProgress(env: Env, st: Store, r: Recoverer, host: nat, maxAttempts: int, f: Site)
    requires OnRow(env, st, r, Look, host, maxAttempts)
    ensures Progress(env, st, r, Look, host, maxAttempts, f)
  {
    assert Current(st.tables, r.rows[0]);
  }

  lemma CheckProgress(env: Env, st: Store, r: Recoverer, host: nat, maxAttempts: int, f: Site)
    requires OnRow(env, st, r, Check, host, maxAttempts)
    ensures Progress(env, st, r, Check, host, maxAttempts, f)
  {
    MidRowIsDue(env, st, r, Check, host, maxAttempts);
  }

  lemma DropGentle(st: Store, sid: nat, host: nat, maxAttempts: int, target: string)
    requires Calm(st, host, maxAttempts) && !(sid in st.tables.snapshots && st.tables.snapshots[sid].parquetFile == PENDING)
    ensures Calm(Issue(st, DeletePending(sid)), host, maxAttempts)
    ensures Gentle(st, Issue(st, DeletePending(sid)), target)
  {
    forall s | Due(Issue(st, DeletePending(sid)).tables, s) ensures Due(st.tables, s) {}
  }

  lemma DropProgress(env: Env, st: Store, r: Recoverer, host: nat, maxAttempts: int, f: Site)
    requires OnRow(env, st, r, Drop, host, maxAttempts)
    ensures Progress(env, st, r, Drop, host, maxAttempts, f)
  {
    var sid := r.rows[0].snapshotId;
    var st', r' := Issue(st, DeletePending(sid)), r.(stage := Next, rows := r.rows[1..]);
    DropGentle(st, sid, host, maxAttempts, r.rows[0].irodsTarget);
    forall i | 0 <= i < |r'.rows| ensures Current(st'.tables, r'.rows[i]) {
      assert Current(st.tables, r.rows[i + 1]);
    }
    if Settles(SiteOf(st'), FilesOn(st'.caches, host), f) {
      assert SiteOf(st') == Recovery.Do(SiteOf(st), DeletePending(sid));
      DropHeads(SiteOf(st), FilesOn(st.caches, host), sid, f);
    }
    assert RecovererStep(st, r, Drop) == (st', Some(r'));
  }

  lemma PushProgress(env: Env, st: Store, r: Recoverer, a: RecovererAct, host: nat, maxAttempts: int, f: Site)
    requires OnRow(env, st, r, a, host, maxAttempts) && a.Push?
    requires !a.raised && a.stored == Lookup(st.caches, RowKey(r))
    ensures Progress(env, st, r, a, host, maxAttempts, f)
  {
    MidRowIsDue(env, st, r, a, host, maxAttempts);
    var (st', r') := RecovererStep(st, r, a);
    assert st'.tables == st.tables;
    FileOnHost(st.caches, host, r.rows[0].localPath);
    if Settles(SiteOf(st'), FilesOn(st'.caches, host), f) {
      PushHeads(SiteOf(st), FilesOn(st.caches, host), r.rows[0].snapshotId, f);
    }
  }

  lemma FlipProgress(env: Env, st: Store, r: Recoverer, host: nat, maxAttempts: int, f: Site)
    requires OnRow(env, st, r, Flip, host, maxAttempts)
    ensures Progress(env, st, r, Flip, host, maxAttempts, f)
  {
    var sid := r.rows[0].snapshotId;
    MidRowIsDue(env, st, r, Flip, host, maxAttempts);
    QueueTargetsDistinct(st);
    FileOnHost(st.caches, host, r.rows[0].localPath);
    var (st', r') := RecovererStep(st, r, Flip);
    forall s | Due(st'.tables, s) ensures Due(st.tables, s) {}
    if Settles(SiteOf(st'), FilesOn(st'.caches, host), f) {
      FlipHeads(SiteOf(st), FilesOn(st.caches, host), sid, f);
    }
  }

  lemma ActProgress(env: Env, st: Store, r: Recoverer, a: RecovererAct, host: nat, maxAttempts: int, f: Site)
    requires OnRow(env, st, r, a, host, maxAttempts) && !a.Stop?
    requires a.Push? ==> !a.raised && a.stored == Lookup(st.caches, RowKey(r))
    requires a.VerifyPush? ==> Accepted(Lookup(st.caches, RowKey(r)), a.answer)
    ensures Progress(env, st, r, a, host, maxAttempts, f)
  {
    match a
    case Look => LookProgress(env, st, r, host, maxAttempts, f);
    case Drop => DropProgress(env, st, r, host, maxAttempts, f);
    case Check => CheckProgress(env, st, r, host, maxAttempts, f);
    case Push(_, _, _) => PushProgress(env, st, r, a, host, maxAttempts, f);
    case VerifyPush(_, _) => MidRowIsDue(env, st, r, a, host, maxAttempts);
    case Flip => FlipProgress(env, st, r, host, maxAttempts, f);
    case _ =>
  }

  // ------------------------------------------------------------------- whole runs

  /** A step taken by one recoverer leaves the others on course. */
  lemma OthersOnCourse(env: Env, w: World, id: nat, a: RecovererAct, st': Store, host: nat, maxAttempts: int)
    requires env.exclusive && Inv(env, w) && Enabled(env, w, Recovers(id, a)) && !a.Stop? && w.recoverers[id].rows != []
    requires Recovering(w, host, maxAttempts) && Gentle(w.store, st', w.recoverers[id].rows[0].irodsTarget)
    ensures forall k | k in w.recoverers && k != id :: OnCourse(st', w.recoverers[k], host, maxAttempts)
  {
    var r := w.recoverers[id];
    if MidRow(r) { RowIsPrivate(env, w, id); }
    assert RecovererOK(env, w.store, r);
    assert RowOK(w.store, r.rows[0]);
    forall k | k in w.recoverers && k != id ensures OnCourse(st', w.recoverers[k], host, maxAttempts) {
      var r' := w.recoverers[k];
      assert RecovererOK(env, w.store, r') && OnCourse(w.store, r', host, maxAttempts);
      if MidRow(r') {
        assert RowOK(w.store, r'.rows[0]);
        var p, p' := w.store.entries[r.rows[0].snapshotId].project, w.store.entries[r'.rows[0].snapshotId].project;
        Addressing("", "", p.ducklakePath, r.rows[0].snapshotId, "", "", p'.ducklakePath, r'.rows[0].snapshotId);
      }
    }
  }

  lemma FairRecovers(env: Env, w: World, id: nat, a: RecovererAct, host: nat, maxAttempts: int, f: Site)
    requires env.exclusive && Inv(env, w) && Enabled(env, w, Recovers(id, a)) && !a.Stop?
    requires Recovering(w, host, maxAttempts) && FairStep(w, Recovers(id, a), host, maxAttempts)
    ensures Recovering(Step(env, w, Recovers(id, a)), host, maxAttempts)
    ensures Heads(w.store, Step(env, w, Recovers(id, a)).store, host, f)
  {
    var r := w.recoverers[id];
    assert RecovererOK(env, w.store, r) && OnCourse(w.store, r, host, maxAttempts);
    ActProgress(env, w.store, r, a, host, maxAttempts, f);
    OthersOnCourse(env, w, id, a, RecovererStep(w.store, r, a).0, host, maxAttempts);
  }

  lemma FairStarts(env: Env, w: World, l: Label, host: nat, maxAttempts: int)
    requires Enabled(env, w, l) && l.StartRecovery?
    requires Recovering(w, host, maxAttempts) && FairStep(w, l, host, maxAttempts)
    ensures Recovering(Step(env, w, l), host, maxAttempts)
  {
    var rows := ListPending(w.store.tables, l.limit);
    forall i | 0 <= i < |rows| ensures Current(w.store.tables, rows[i]) {}
    var w' := Step(env, w, l);
    forall k | k in w'.recoverers ensures OnCourse(w'.store, w'.recoverers[k], host, maxAttempts) {
      assert k != l.id ==> OnCourse(w.store, w.recoverers[k], host, maxAttempts);
    }
  }

  lemma FairStepKeeps(env: Env, w: World, l: Label, host: nat, maxAttempts: int, f: Site)
    requires env.exclusive && Inv(env, w) && Enabled(env, w, l)
    requires Recovering(w, host, maxAttempts) && FairStep(w, l, host, maxAttempts)
    ensures Recovering(Step(env, w, l), host, maxAttempts)
    ensures Heads(w.store, Step(env, w, l).store, host, f)
  {
    if l.StartRecovery? {
      FairStarts(env, w, l, host, maxAttempts);
    } else if l.recovery.Stop? {
      var w' := Step(env, w, l);
      assert w' == w.(recoverers := w.recoverers - {l.id});
    } else {
      FairRecovers(env, w, l.id, l.recovery, host, maxAttempts, f);
    }
  }

  lemma FairStepAt(env: Env, ws: seq<World>, ls: seq<Label>, k: nat, host: nat, maxAttempts: int, f: Site)
    requires env.exclusive && Run(env, ws, ls) && k < |ls| && Inv(env, ws[k])
    requires Recovering(ws[k], host, maxAttempts) && FairStep(ws[k], ls[k], host, maxAttempts)
    ensures Recovering(ws[k + 1], host, maxAttempts) && Heads(ws[k].store, ws[k + 1].store, host, f)
  {
    RunStep(env, ws, ls, k);
    FairStepKeeps(env, ws[k], ls[k], host, maxAttempts, f);
  }

  lemma HeadsTwice(st: Store, mid: Store, st': Store, host: nat, f: Site)
    requires Heads(st, mid, host, f) && Heads(mid, st', host, f)
    ensures Heads(st, st', host, f)
  {
  }

  lemma {:induction false} HeadingKept(env: Env, ws: seq<World>, ls: seq<Label>, i: nat, j: nat, host: nat, maxAttempts: int, f: Site)
    requires env.exclusive && Run(env, ws, ls) && Init(ws[0]) && i <= j <= |ls|
    requires ws[i].recoverers == map[] && Calm(ws[i].store, host, maxAttempts)
    requires forall k | i <= k < j :: FairStep(ws[k], ls[k], host, maxAttempts)
    ensures Recovering(ws[j], host, maxAttempts)
    ensures Heads(ws[i].store, ws[j].store, host, f)
    decreases j
  {
    if i < j {
      HeadingKept(env, ws, ls, i, j - 1, host, maxAttempts, f);
      Reachable(env, ws, ls, j - 1);
      FairStepAt(env, ws, ls, j - 1, host, maxAttempts, f);
      HeadsTwice(ws[i].store, ws[j - 1].store, ws[j].store, host, f);
    }
  }

  /** Recovery steps leave the caches alone. */
  lemma {:induction false} CachesStay(env: Env, ws: seq<World>, ls: seq<Label>, i: nat, j: nat, host: nat, maxAttempts: int)
    requires Run(env, ws, ls) && i <= j <= |ls|
    requires forall k | i <= k < j :: FairStep(ws[k], ls[k], host, maxAttempts)
    ensures ws[j].store.caches == ws[i].store.caches
    decreases j
  {
    if i < j {
      CachesStay(env, ws, ls, i, j - 1, host, maxAttempts);
      RunStep(env, ws, ls, j - 1);
      FairStepSparesCaches(env, ws[j - 1], ls[j - 1], host, maxAttempts);
    }
  }

  lemma FairStepSparesCaches(env: Env, w: World, l: Label, host: nat, maxAttempts: int)
    requires Enabled(env, w, l) && FairStep(w, l, host, maxAttempts)
    ensures Step(env, w, l).store.caches == w.store.caches
  {
  }

  /** A recovery run over a store, on a host, with room for the whole queue and good uploads. */
  ghost predicate GoodRun(run: Recovery.Run, st: Store, host: nat) {
    && run.site == SiteOf(st)
    && run.files == FilesOn(st.caches, host)
    && run.limit >= |st.tables.pending|
    && (run.Valid() ==>
          forall i | 0 <= i < |run.Rows()| && Due(st.tables, run.Rows()[i].snapshotId) ::
            GoodUpload(run.files, run.Rows()[i], run.weather(i)))
  }

  /** The upload stores the file and is accepted. */
  predicate GoodUpload(files: map<string, Blob>, row: PendingPush, u: Recovery.Attempt) {
    !u.raised && u.stored == Lookup(files, row.localPath) && Accepted(Lookup(files, row.localPath), u.answer)
  }

  /** In a reachable, calm store good uploads are all a run needs. */
  lemma GoodRunIsFair(run: Recovery.Run, st: Store, host: nat)
    requires TablesOK(st) && Calm(st, host, run.maxAttempts) && GoodRun(run, st, host)
    ensures FairRun(run)
  {
    var m := st.tables.pending;
    QueueTargetsDistinct(st);
    forall s | s in m ensures m[s].snapshotId == s { assert PendingReferences(st.tables, s); }
    forall i | 0 <= i < |run.Rows()| && Due(st.tables, run.Rows()[i].snapshotId)
      ensures FairUpload(run.files, run.Rows()[i], run.weather(i))
    {
      var row := run.Rows()[i];
      assert row == m[row.snapshotId];
      FileOnHost(st.caches, host, row.localPath);
    }
  }

  /**
   * Crash-restartability. A crash left the state ws[i], with every due file on
   * the host and no row out of attempts. Whatever recoveries follow, interrupted
   * after any of their steps, started again any number of times, with any
   * limits, even several side by side: a rerun over what they leave empties the
   * queue and ends with exactly the catalog, queue and iRODS state of one
   * uninterrupted run over ws[i].
   */
  lemma InterruptedEqualsUninterrupted(env: Env, ws: seq<World>, ls: seq<Label>, i: nat, j: nat, host: nat,
                                       run: Recovery.Run, again: Recovery.Run)
    requires env.exclusive && Run(env, ws, ls) && Init(ws[0]) && i <= j <= |ls|
    requires ws[i].recoverers == map[] && Calm(ws[i].store, host, run.maxAttempts)
    requires forall k | i <= k < j :: FairStep(ws[k], ls[k], host, run.maxAttempts)
    requires GoodRun(run, ws[i].store, host)
    requires GoodRun(again, ws[j].store, host) && again.maxAttempts == run.maxAttempts
    ensures run.Valid() && again.Valid()
    ensures again.After() == run.After() && again.After().tables.pending == map[]
    ensures ws[j].store.tables.pending == map[] ==> SiteOf(ws[j].store) == run.After()
  {
    Reachable(env, ws, ls, i);
    Reachable(env, ws, ls, j);
    GoodRunIsFair(run, ws[i].store, host);
    HeadingKept(env, ws, ls, i, j, host, run.maxAttempts, SiteOf(ws[j].store));
    GoodRunIsFair(again, ws[j].store, host);
    CachesStay(env, ws, ls, i, j, host, run.maxAttempts);
    FairRunSettles(run);
    FairRunSettles(again);
    HeadingKept(env, ws, ls, i, j, host, run.maxAttempts, again.After());
    SettlesUnique(run.site, run.files, again.After(), run.After());
    if ws[j].store.tables.pending == map[] {
      EmptyQueueIsSettled(SiteOf(ws[j].store), FilesOn(ws[j].store.caches, host));
      SettlesUnique(run.site, run.files, SiteOf(ws[j].store), run.After());
    }
  }
}
