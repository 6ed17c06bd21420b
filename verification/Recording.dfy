// One record_changes call that nothing interleaves with: what it leaves, case
// by case, and that it is a run of the protocol's writer.
module Recording {
  import opened Wrappers
  import opened Avu
  import opened Names
  import opened Storage
  import opened WriteOrder
  import opened CatalogTables
  import opened Protocol
  import opened Recovery
  import opened Restart

  /** What the environment decides during a call: clocks, the write, the upload. */
  datatype Fate = Fate(createdAt: int, queuedAt: int, writeFails: bool, upload: Attempt)

  datatype Recording = Recording(site: Site, files: map<string, Blob>, reply: Option<Snapshot>)

  function NewRow(t: Tables, x: Writer, fate: Fate, file: string): Snapshot {
    Snapshot(x.projectId, fate.createdAt, x.actor, LatestSnapshotId(t, x.projectId, false), x.note, file)
  }

  function WithRow(t: Tables, row: Snapshot): Tables {
    t.(snapshots := t.snapshots[t.nextId := row], nextId := t.nextId + 1)
  }

  function QueueRow(t: Tables, x: Writer, fate: Fate): PendingPush {
    PendingPush(t.nextId, FileKey(x, t.nextId).path, TargetOf(x.project, t.nextId), 0, None, fate.queuedAt)
  }

  function WithFile(files: map<string, Blob>, t: Tables, x: Writer, rows: seq<Change>): map<string, Blob> {
    files[FileKey(x, t.nextId).path := Parquet(rows)]
  }

  function PushSucceeds(rows: seq<Change>, fate: Fate): bool {
    !fate.upload.raised && Accepted(Some(Parquet(rows)), fate.upload.answer)
  }

  /**
   * Where a call ends. Without a session a failed write undoes the row; with
   * one, a failure leaves the row pending and queued for recovery.
   */
  function After(site: Site, files: map<string, Blob>, x: Writer, fate: Fate, rows: seq<Change>): Recording {
    var t := site.tables;
    var pending := NewRow(t, x, fate, PENDING);
    var named := NewRow(t, x, fate, SnapshotFile(t.nextId));
    var queued := WithRow(t, pending).(pending := t.pending[t.nextId := QueueRow(t, x, fate)]);
    if !x.session then
      if fate.writeFails then Recording(site.(tables := t.(nextId := t.nextId + 1)), files, None)
      else Recording(site.(tables := WithRow(t, named)), WithFile(files, t, x, rows), Some(named))
    else if fate.writeFails then
      Recording(site.(tables := queued), files, None)
    else if !PushSucceeds(rows, fate) then
      Recording(AfterPut(site, TargetOf(x.project, t.nextId), fate.upload.stored).(tables := queued),
                WithFile(files, t, x, rows), None)
    else
      Recording(AfterPut(site, TargetOf(x.project, t.nextId), fate.upload.stored).(tables := WithRow(t, named)),
                WithFile(files, t, x, rows), Some(named))
  }

  /** What a call works on: the catalog and iRODS, and the files of its host. */
  datatype Host = Host(site: Site, files: map<string, Blob>)

  /** The hosts after each operation that follows create_snapshot, in order: what a crash can leave. */
  function TailTrace(site: Site, files: map<string, Blob>, x: Writer, fate: Fate, rows: seq<Change>): seq<Host> {
    var t, n := site.tables, site.tables.nextId;
    var pending, named := NewRow(t, x, fate, PENDING), NewRow(t, x, fate, SnapshotFile(n));
    var queued := site.(tables := WithRow(t, pending).(pending := t.pending[n := QueueRow(t, x, fate)]));
    var files' := WithFile(files, t, x, rows);
    var put := AfterPut(queued, TargetOf(x.project, n), fate.upload.stored);
    if !x.session && fate.writeFails then
      [Host(site.(tables := t.(nextId := n + 1)), files)]
    else if !x.session then
      [Host(site.(tables := WithRow(t, pending)), files'), Host(site.(tables := WithRow(t, named)), files')]
    else if fate.writeFails then
      [Host(queued, files)]
    else
      [Host(queued, files)] + ([Host(queued, files')] + UploadTrace(t, put, files', x, fate, rows))
  }

  /** From the put on: on success the commit, while the row is still queued, and then the dequeuing. */
  function UploadTrace(t: Tables, put: Site, files: map<string, Blob>, x: Writer, fate: Fate, rows: seq<Change>): seq<Host> {
    var named := WithRow(t, NewRow(t, x, fate, SnapshotFile(t.nextId)));
    if PushSucceeds(rows, fate) then
      [Host(put, files), Host(put.(tables := named.(pending := put.tables.pending)), files), Host(put.(tables := named), files)]
    else [Host(put, files)]
  }

  function CallTrace(site: Site, files: map<string, Blob>, x: Writer, fate: Fate, rows: seq<Change>): seq<Host> {
    [Host(site.(tables := WithRow(site.tables, NewRow(site.tables, x, fate, PENDING))), files)]
    + TailTrace(site, files, x, fate, rows)
  }

  // ------------------------------------------------------------- the writer's steps

  function Go(st: Store, x: Writer, acts: seq<WriterAct>): (Store, Option<Writer>)
    decreases |acts|
  {
    if acts == [] then (st, Some(x)) else
      var (st1, x1) := WriterStep(st, x, acts[0]);
      if x1.None? then (st1, None) else Go(st1, x1.value, acts[1..])
  }

  ghost predicate GoMay(env: Env, st: Store, x: Writer, acts: seq<WriterAct>)
    decreases |acts|
  {
    acts == [] ||
    (var (st1, x1) := WriterStep(st, x, acts[0]);
     WriterMay(env, st, x, acts[0])
     && (x1.Some? ==> GoMay(env, st1, x1.value, acts[1..]))
     && (x1.None? ==> |acts| == 1))
  }

  function HostOf(st: Store, host: nat): Host {
    Host(SiteOf(st), FilesOn(st.caches, host))
  }

  /** The steps that write to the catalog, the disk or iRODS. */
  predicate Writes(a: WriterAct) {
    a.Create? || a.Log? || a.Write? || a.RollBack? || a.Upload? || a.Commit? || a.DropLog?
  }

  /** The host after each writing step. */
  function Visited(st: Store, x: Writer, acts: seq<WriterAct>): seq<Host>
    decreases |acts|
  {
    if acts == [] then [] else
      var (st1, x1) := WriterStep(st, x, acts[0]);
      (if Writes(acts[0]) then [HostOf(st1, x.host)] else []) + if x1.None? then [] else Visited(st1, x1.value, acts[1..])
  }

  /** acts lead from (st, x) to (st', x') by way of the hosts seen. */
  ghost predicate Leads(env: Env, st: Store, x: Writer, acts: seq<WriterAct>, st': Store, x': Option<Writer>, seen: seq<Host>) {
    GoMay(env, st, x, acts) && Go(st, x, acts) == (st', x') && Visited(st, x, acts) == seen
  }

  lemma LeadsVia(env: Env, st: Store, x: Writer, a: WriterAct, st1: Store, x1: Writer, acts: seq<WriterAct>,
                 st': Store, x': Option<Writer>, seen: seq<Host>)
    requires WriterMay(env, st, x, a) && WriterStep(st, x, a) == (st1, Some(x1))
    requires Leads(env, st1, x1, acts, st', x', seen)
    ensures Leads(env, st, x, [a] + acts, st', x', (if Writes(a) then [HostOf(st1, x.host)] else []) + seen)
  {
    assert ([a] + acts)[1..] == acts;
  }

  lemma LeadsLast(env: Env, st: Store, x: Writer, a: WriterAct, st': Store)
    requires WriterMay(env, st, x, a) && WriterStep(st, x, a) == (st', None)
    ensures Leads(env, st, x, [a], st', None, if Writes(a) then [HostOf(st', x.host)] else [])
  {
  }

  function UploadActs(fate: Fate, rows: seq<Change>): seq<WriterAct> {
    var u := fate.upload;
    if u.raised then [Upload(u.stored, true)]
    else if !PushSucceeds(rows, fate) then [Upload(u.stored, false)] + [Verify(u.answer)]
    else [Upload(u.stored, false)] + ([Verify(u.answer)] + ([Commit] + [DropLog]))
  }

  /** The steps of a call, after the row was created. */
  function Tail(x: Writer, fate: Fate, rows: seq<Change>): seq<WriterAct> {
    if !x.session && fate.writeFails then [WriteFails] + [RollBack]
    else if !x.session then [Write(rows)] + [Commit]
    else if fate.writeFails then [Log(fate.queuedAt)] + [WriteFails]
    else [Log(fate.queuedAt)] + ([Write(rows)] + UploadActs(fate, rows))
  }

  function Acts(x: Writer, fate: Fate, rows: seq<Change>): seq<WriterAct> {
    [ReadParent] + ([Create(fate.createdAt)] + Tail(x, fate, rows))
  }

  /** The outcome is one the environment allows. */
  ghost predicate Plausible(env: Env, st: Store, x: Writer, fate: Fate, rows: seq<Change>) {
    var n := st.tables.nextId;
    var u := fate.upload;
    && x.stage.Begin?
    && FileOf(rows, Stamp(x.projectId, n, x.changes))
    && PutMay(env, Some(Parquet(rows)), u.stored, u.raised)
    && AnswerMay(PutObject(st.(written := st.written[n := rows]), TargetOf(x.project, n), u.stored), n, TargetOf(x.project, n), u.answer)
  }

  // ------------------------------------------------------- a call is a run of steps

  /** The store after create_snapshot. */
  function Created(st: Store, x: Writer, fate: Fate): Store {
    var n := st.tables.nextId;
    st.(tables := WithRow(st.tables, NewRow(st.tables, x, fate, PENDING)),
        entries := st.entries[n := Entry(x.projectId, x.project, Stamp(x.projectId, n, x.changes), x.session)])
  }

  function Written(st: Store, x: Writer, sid: nat, rows: seq<Change>): Store {
    st.(caches := st.caches[FileKey(x, sid) := Parquet(rows)], written := st.written[sid := rows])
  }

  /** The id a call is given is new to every table. */
  lemma NextIdIsNew(t: Tables)
    requires Constraints(t)
    ensures t.nextId !in t.snapshots && t.nextId !in t.pending
    ensures forall s | s in t.snapshots :: t.snapshots[s].parent != Some(t.nextId)
  {
    forall s | s in t.snapshots ensures s != t.nextId { assert References(t, s); }
    forall s | s in t.pending ensures s != t.nextId { assert PendingReferences(t, s); }
    forall s | s in t.snapshots ensures t.snapshots[s].parent != Some(t.nextId) { assert References(t, s); }
  }

  lemma Creates(env: Env, st: Store, x: Writer, fate: Fate, rows: seq<Change>, st': Store, x': Option<Writer>, seen: seq<Host>)
    requires x.stage.Begin? && x.projectId in st.tables.projects
    requires Leads(env, Created(st, x, fate), x.(stage := Allocated(st.tables.nextId)), Tail(x, fate, rows), st', x', seen)
    ensures Leads(env, st, x, Acts(x, fate, rows), st', x', [HostOf(Created(st, x, fate), x.host)] + seen)
  {
    var parent := LatestSnapshotId(st.tables, x.projectId, false);
    var with := x.(stage := HasParent(parent));
    LeadsVia(env, st, with, Create(fate.createdAt), Created(st, x, fate), x.(stage := Allocated(st.tables.nextId)),
             Tail(x, fate, rows), st', x', seen);
    LeadsVia(env, st, x, ReadParent, st, with, [Create(fate.createdAt)] + Tail(x, fate, rows), st', x',
             [HostOf(Created(st, x, fate), x.host)] + seen);
    assert [] + ([HostOf(Created(st, x, fate), x.host)] + seen) == [HostOf(Created(st, x, fate), x.host)] + seen;
  }

  lemma LocalWriteFails(env: Env, st: Store, x: Writer, fate: Fate, rows: seq<Change>) returns (st': Store)
    requires Constraints(st.tables) && x.stage.Begin? && !x.session && fate.writeFails
    ensures st' == Created(st, x, fate).(tables := st.tables.(nextId := st.tables.nextId + 1))
    ensures Leads(env, Created(st, x, fate), x.(stage := Allocated(st.tables.nextId)), Tail(x, fate, rows), st', None,
                  [HostOf(st', x.host)])
  {
    var n := st.tables.nextId;
    var st1 := Created(st, x, fate);
    NextIdIsNew(st.tables);
    var rolling := x.(stage := RollingBack(n));
    st' := Issue(st1, DeleteSnapshot(n));
    assert !HasChildren(st1.tables, n);
    assert st1.tables.snapshots - {n} == st.tables.snapshots && st.tables.pending - {n} == st.tables.pending;
    LeadsLast(env, st1, rolling, RollBack, st');
    LeadsVia(env, st1, x.(stage := Allocated(n)), WriteFails, st1, rolling, [RollBack], st', None, [HostOf(st', x.host)]);
    assert [] + [HostOf(st', x.host)] == [HostOf(st', x.host)];
  }

  /** The commit point of either mode. */
  function Named(st: Store, x: Writer, fate: Fate, before: Tables): Store {
    var n := before.nextId;
    st.(tables := st.tables.(snapshots := before.snapshots[n := NewRow(before, x, fate, SnapshotFile(n))]), named := st.named + {n})
  }

  lemma Renames(t: Tables, x: Writer, fate: Fate)
    ensures var pending, named := NewRow(t, x, fate, PENDING), NewRow(t, x, fate, SnapshotFile(t.nextId));
            && pending.(parquetFile := SnapshotFile(t.nextId)) == named
            && t.snapshots[t.nextId := pending][t.nextId := named] == t.snapshots[t.nextId := named]
  {
  }

  lemma LocalWrites(env: Env, st: Store, x: Writer, fate: Fate, rows: seq<Change>) returns (st': Store)
    requires x.stage.Begin? && !x.session && !fate.writeFails
    requires FileOf(rows, Stamp(x.projectId, st.tables.nextId, x.changes))
    ensures st' == Named(Written(Created(st, x, fate), x, st.tables.nextId, rows), x, fate, st.tables)
    ensures Leads(env, Created(st, x, fate), x.(stage := Allocated(st.tables.nextId)), Tail(x, fate, rows), st', None,
                  [HostOf(Written(Created(st, x, fate), x, st.tables.nextId, rows), x.host), HostOf(st', x.host)])
  {
    var n := st.tables.nextId;
    var st1 := Created(st, x, fate);
    var st2 := Written(st1, x, n, rows);
    st' := Named(st2, x, fate, st.tables);
    Renames(st.tables, x, fate);
    LeadsLast(env, st2, x.(stage := Wrote(n)), Commit, st');
    LeadsVia(env, st1, x.(stage := Allocated(n)), Write(rows), st2, x.(stage := Wrote(n)), [Commit], st', None,
             [HostOf(st', x.host)]);
  }

  function Queued(st: Store, x: Writer, fate: Fate): Store {
    var st1 := Created(st, x, fate);
    st1.(tables := st1.tables.(pending := st.tables.pending[st.tables.nextId := QueueRow(st.tables, x, fate)]))
  }

  lemma SessionQueues(env: Env, st: Store, x: Writer, fate: Fate, acts: seq<WriterAct>, st': Store, x': Option<Writer>, seen: seq<Host>)
    requires Constraints(st.tables) && x.stage.Begin? && x.session
    requires Leads(env, Queued(st, x, fate), x.(stage := Logged(st.tables.nextId)), acts, st', x', seen)
    ensures Leads(env, Created(st, x, fate), x.(stage := Allocated(st.tables.nextId)), [Log(fate.queuedAt)] + acts, st', x',
                  [HostOf(Queued(st, x, fate), x.host)] + seen)
  {
    NextIdIsNew(st.tables);
    LeadsVia(env, Created(st, x, fate), x.(stage := Allocated(st.tables.nextId)), Log(fate.queuedAt),
             Queued(st, x, fate), x.(stage := Logged(st.tables.nextId)), acts, st', x', seen);
  }

  lemma SessionWriteFails(env: Env, st: Store, x: Writer, fate: Fate, rows: seq<Change>) returns (st': Store)
    requires Constraints(st.tables) && x.stage.Begin? && x.session && fate.writeFails
    ensures st' == Queued(st, x, fate)
    ensures Leads(env, Created(st, x, fate), x.(stage := Allocated(st.tables.nextId)), Tail(x, fate, rows), st', None,
                  [HostOf(st', x.host)])
  {
    st' := Queued(st, x, fate);
    LeadsLast(env, st', x.(stage := Logged(st.tables.nextId)), WriteFails, st');
    SessionQueues(env, st, x, fate, [WriteFails], st', None, []);
    assert [HostOf(st', x.host)] + [] == [HostOf(st', x.host)];
  }

  /** What the upload and what follows it pass through. */
  function UploadSeen(put: Store, x: Writer, fate: Fate, rows: seq<Change>, before: Tables): seq<Host> {
    if PushSucceeds(rows, fate) then
      [HostOf(put, x.host), HostOf(Named(put, x, fate, before), x.host),
       HostOf(Issue(Named(put, x, fate, before), DeletePending(before.nextId)), x.host)]
    else [HostOf(put, x.host)]
  }

  /** From the written file on: the upload, its verification, the commit. */
  lemma SessionUploads(env: Env, st: Store, x: Writer, fate: Fate, rows: seq<Change>) returns (st': Store)
    requires Constraints(st.tables) && x.session && Plausible(env, st, x, fate, rows)
    ensures var n := st.tables.nextId;
            var put := PutObject(Written(Queued(st, x, fate), x, n, rows), TargetOf(x.project, n), fate.upload.stored);
            && st' == (if PushSucceeds(rows, fate) then Issue(Named(put, x, fate, st.tables), DeletePending(n)) else put)
            && Leads(env, Written(Queued(st, x, fate), x, n, rows), x.(stage := Wrote(n)), UploadActs(fate, rows), st', None,
                     UploadSeen(put, x, fate, rows, st.tables))
  {
    var n := st.tables.nextId;
    var st1 := Written(Queued(st, x, fate), x, n, rows);
    var u := fate.upload;
    var put := PutObject(st1, TargetOf(x.project, n), u.stored);
    if !PushSucceeds(rows, fate) {
      st' := put;
      UploadRefused(env, st1, x, fate, rows, n);
    } else {
      st' := CommitsAndDrops(env, put, x, fate, st.tables, u.answer);
      LeadsVia(env, st1, x.(stage := Wrote(n)), Upload(u.stored, false), put, x.(stage := Protocol.Uploaded(n)),
               [Verify(u.answer)] + ([Commit] + [DropLog]), st', None,
               [HostOf(Named(put, x, fate, st.tables), x.host), HostOf(st', x.host)]);
    }
  }

  lemma UploadRefused(env: Env, st: Store, x: Writer, fate: Fate, rows: seq<Change>, n: nat)
    requires x.session && !PushSucceeds(rows, fate) && Lookup(st.caches, FileKey(x, n)) == Some(Parquet(rows))
    requires PutMay(env, Some(Parquet(rows)), fate.upload.stored, fate.upload.raised)
    requires AnswerMay(PutObject(st, TargetOf(x.project, n), fate.upload.stored), n, TargetOf(x.project, n), fate.upload.answer)
    ensures var put := PutObject(st, TargetOf(x.project, n), fate.upload.stored);
            Leads(env, st, x.(stage := Wrote(n)), UploadActs(fate, rows), put, None, [HostOf(put, x.host)])
  {
    var u := fate.upload;
    var put := PutObject(st, TargetOf(x.project, n), u.stored);
    var wrote, uploaded := x.(stage := Wrote(n)), x.(stage := Protocol.Uploaded(n));
    if u.raised {
      LeadsLast(env, st, wrote, Upload(u.stored, true), put);
    } else {
      LeadsLast(env, put, uploaded, Verify(u.answer), put);
      LeadsVia(env, st, wrote, Upload(u.stored, false), put, uploaded, [Verify(u.answer)], put, None, []);
      assert [HostOf(put, x.host)] + [] == [HostOf(put, x.host)];
    }
  }

  lemma CommitsAndDrops(env: Env, put: Store, x: Writer, fate: Fate, before: Tables, answer: Option<Answer>) returns (st': Store)
    requires x.session && put.tables.snapshots == before.snapshots[before.nextId := NewRow(before, x, fate, PENDING)]
    requires AnswerMay(put, before.nextId, TargetOf(x.project, before.nextId), answer)
    requires Accepted(Lookup(put.caches, FileKey(x, before.nextId)), answer)
    ensures st' == Issue(Named(put, x, fate, before), DeletePending(before.nextId))
    ensures Leads(env, put, x.(stage := Protocol.Uploaded(before.nextId)), [Verify(answer)] + ([Commit] + [DropLog]), st', None,
                  [HostOf(Named(put, x, fate, before), x.host), HostOf(st', x.host)])
  {
    var n := before.nextId;
    st' := Commits(env, put, x, fate, before);
    var seen := [HostOf(Named(put, x, fate, before), x.host), HostOf(st', x.host)];
    LeadsVia(env, put, x.(stage := Protocol.Uploaded(n)), Verify(answer), put, x.(stage := Verified(n)), [Commit] + [DropLog], st', None, seen);
    assert [] + seen == seen;
  }

  lemma Commits(env: Env, st: Store, x: Writer, fate: Fate, before: Tables) returns (st': Store)
    requires x.session && st.tables.snapshots == before.snapshots[before.nextId := NewRow(before, x, fate, PENDING)]
    ensures st' == Issue(Named(st, x, fate, before), DeletePending(before.nextId))
    ensures Leads(env, st, x.(stage := Verified(before.nextId)), [Commit] + [DropLog], st', None,
                  [HostOf(Named(st, x, fate, before), x.host), HostOf(st', x.host)])
  {
    var n := before.nextId;
    var named := Named(st, x, fate, before);
    st' := Issue(named, DeletePending(n));
    Renames(before, x, fate);
    LeadsLast(env, named, x.(stage := Committed(n)), DropLog, st');
    LeadsVia(env, st, x.(stage := Verified(n)), Commit, named, x.(stage := Committed(n)), [DropLog], st', None, [HostOf(st', x.host)]);
  }

  /** st' is what After says of a call starting in st, and seen what TailTrace says. */
  ghost predicate Ends(st: Store, x: Writer, fate: Fate, rows: seq<Change>, st': Store, seen: seq<Host>) {
    var call := After(SiteOf(st), FilesOn(st.caches, x.host), x, fate, rows);
    && SiteOf(st') == call.site && FilesOn(st'.caches, x.host) == call.files
    && seen == TailTrace(SiteOf(st), FilesOn(st.caches, x.host), x, fate, rows)
  }

  lemma WrittenEnds(st: Store, x: Writer, fate: Fate, rows: seq<Change>, st': Store)
    requires !x.session && !fate.writeFails
    requires st' == Named(Written(Created(st, x, fate), x, st.tables.nextId, rows), x, fate, st.tables)
    ensures Ends(st, x, fate, rows, st',
                 [HostOf(Written(Created(st, x, fate), x, st.tables.nextId, rows), x.host), HostOf(st', x.host)])
  {
    FilesOnPut(st.caches, x.host, FileKey(x, st.tables.nextId).path, Parquet(rows));
  }

  lemma CommittedTables(st: Store, x: Writer, fate: Fate, t: Tables)
    requires Constraints(t) && st.tables == WithRow(t, NewRow(t, x, fate, PENDING)).(pending := t.pending[t.nextId := QueueRow(t, x, fate)])
    ensures Named(st, x, fate, t) ==
            st.(tables := WithRow(t, NewRow(t, x, fate, SnapshotFile(t.nextId))).(pending := st.tables.pending), named := st.named + {t.nextId})
    ensures Issue(Named(st, x, fate, t), DeletePending(t.nextId)) ==
            st.(tables := WithRow(t, NewRow(t, x, fate, SnapshotFile(t.nextId))), named := st.named + {t.nextId})
  {
    NextIdIsNew(t);
    assert t.pending[t.nextId := QueueRow(t, x, fate)] - {t.nextId} == t.pending;
  }

  lemma UploadEnds(st: Store, x: Writer, fate: Fate, rows: seq<Change>, st': Store)
    requires Constraints(st.tables) && x.session && !fate.writeFails
    requires var n := st.tables.nextId;
             var put := PutObject(Written(Queued(st, x, fate), x, n, rows), TargetOf(x.project, n), fate.upload.stored);
             st' == if PushSucceeds(rows, fate) then Issue(Named(put, x, fate, st.tables), DeletePending(n)) else put
    ensures var n := st.tables.nextId;
            var written := Written(Queued(st, x, fate), x, n, rows);
            var put := PutObject(written, TargetOf(x.project, n), fate.upload.stored);
            Ends(st, x, fate, rows, st',
                 [HostOf(Queued(st, x, fate), x.host)] + ([HostOf(written, x.host)] + UploadSeen(put, x, fate, rows, st.tables)))
  {
    var n := st.tables.nextId;
    var written := Written(Queued(st, x, fate), x, n, rows);
    var put := PutObject(written, TargetOf(x.project, n), fate.upload.stored);
    FilesOnPut(st.caches, x.host, FileKey(x, n).path, Parquet(rows));
    CommittedTables(put, x, fate, st.tables);
    assert st'.caches == put.caches == st.caches[FileKey(x, n) := Parquet(rows)];
    assert put.objects == AfterPut(SiteOf(st), TargetOf(x.project, n), fate.upload.stored).objects;
    SeenIsTrace(st, x, fate, rows, put);
  }

  lemma SeenIsTrace(st: Store, x: Writer, fate: Fate, rows: seq<Change>, put: Store)
    requires Constraints(st.tables) && x.session && !fate.writeFails
    requires put == PutObject(Written(Queued(st, x, fate), x, st.tables.nextId, rows), TargetOf(x.project, st.tables.nextId), fate.upload.stored)
    requires FilesOn(put.caches, x.host) == WithFile(FilesOn(st.caches, x.host), st.tables, x, rows)
    ensures [HostOf(Queued(st, x, fate), x.host)]
            + ([HostOf(Written(Queued(st, x, fate), x, st.tables.nextId, rows), x.host)] + UploadSeen(put, x, fate, rows, st.tables))
         == TailTrace(SiteOf(st), FilesOn(st.caches, x.host), x, fate, rows)
  {
    var files' := FilesOn(put.caches, x.host);
    var queued := SiteOf(st).(tables := Queued(st, x, fate).tables);
    SeenAfterPut(put, x, fate, rows, st.tables, files');
    assert SiteOf(put) == AfterPut(queued, TargetOf(x.project, st.tables.nextId), fate.upload.stored);
  }

  lemma SeenAfterPut(put: Store, x: Writer, fate: Fate, rows: seq<Change>, t: Tables, files: map<string, Blob>)
    requires Constraints(t) && FilesOn(put.caches, x.host) == files
    requires put.tables == WithRow(t, NewRow(t, x, fate, PENDING)).(pending := t.pending[t.nextId := QueueRow(t, x, fate)])
    ensures UploadSeen(put, x, fate, rows, t) == UploadTrace(t, SiteOf(put), files, x, fate, rows)
  {
    CommittedTables(put, x, fate, t);
  }

  lemma LocalFailEnds(st: Store, x: Writer, fate: Fate, rows: seq<Change>, st': Store)
    requires !x.session && fate.writeFails
    requires st' == Created(st, x, fate).(tables := st.tables.(nextId := st.tables.nextId + 1))
    ensures Ends(st, x, fate, rows, st', [HostOf(st', x.host)])
  {
  }

  lemma QueuedEnds(st: Store, x: Writer, fate: Fate, rows: seq<Change>)
    requires x.session && fate.writeFails
    ensures Ends(st, x, fate, rows, Queued(st, x, fate), [HostOf(Queued(st, x, fate), x.host)])
  {
  }

  lemma TailIsSteps(env: Env, st: Store, x: Writer, fate: Fate, rows: seq<Change>) returns (st': Store, seen: seq<Host>)
    requires Constraints(st.tables) && Plausible(env, st, x, fate, rows)
    ensures Leads(env, Created(st, x, fate), x.(stage := Allocated(st.tables.nextId)), Tail(x, fate, rows), st', None, seen)
    ensures Ends(st, x, fate, rows, st', seen)
  {
    var n := st.tables.nextId;
    if !x.session && fate.writeFails {
      st' := LocalWriteFails(env, st, x, fate, rows);
      seen := [HostOf(st', x.host)];
      LocalFailEnds(st, x, fate, rows, st');
    } else if !x.session {
      st' := LocalWrites(env, st, x, fate, rows);
      seen := [HostOf(Written(Created(st, x, fate), x, n, rows), x.host), HostOf(st', x.host)];
      WrittenEnds(st, x, fate, rows, st');
    } else if fate.writeFails {
      st' := SessionWriteFails(env, st, x, fate, rows);
      seen := [HostOf(st', x.host)];
      QueuedEnds(st, x, fate, rows);
    } else {
      st', seen := SessionIsSteps(env, st, x, fate, rows);
    }
  }

  lemma SessionIsSteps(env: Env, st: Store, x: Writer, fate: Fate, rows: seq<Change>) returns (st': Store, seen: seq<Host>)
    requires Constraints(st.tables) && Plausible(env, st, x, fate, rows) && x.session && !fate.writeFails
    ensures Leads(env, Created(st, x, fate), x.(stage := Allocated(st.tables.nextId)), Tail(x, fate, rows), st', None, seen)
    ensures Ends(st, x, fate, rows, st', seen)
  {
    var n := st.tables.nextId;
    st' := SessionUploads(env, st, x, fate, rows);
    UploadEnds(st, x, fate, rows, st');
    var queued := Queued(st, x, fate);
    var written := Written(queued, x, n, rows);
    var uploads := UploadSeen(PutObject(written, TargetOf(x.project, n), fate.upload.stored), x, fate, rows, st.tables);
    LeadsVia(env, queued, x.(stage := Logged(n)), Write(rows), written, x.(stage := Wrote(n)),
             UploadActs(fate, rows), st', None, uploads);
    SessionQueues(env, st, x, fate, [Write(rows)] + UploadActs(fate, rows), st', None, [HostOf(written, x.host)] + uploads);
    seen := [HostOf(queued, x.host)] + ([HostOf(written, x.host)] + uploads);
  }

  /**
   * An uninterrupted call is a run of the protocol's writer with the stated
   * outcome; what the host holds after each of its operations is what it holds
   * after the steps.
   */
  lemma {:induction false} CallIsSteps(env: Env, st: Store, x: Writer, fate: Fate, rows: seq<Change>) returns (st': Store)
    requires Constraints(st.tables) && x.projectId in st.tables.projects && Plausible(env, st, x, fate, rows)
    ensures Leads(env, st, x, Acts(x, fate, rows), st', None, CallTrace(SiteOf(st), FilesOn(st.caches, x.host), x, fate, rows))
    ensures var call := After(SiteOf(st), FilesOn(st.caches, x.host), x, fate, rows);
            SiteOf(st') == call.site && FilesOn(st'.caches, x.host) == call.files
  {
    var seen;
    st', seen := TailIsSteps(env, st, x, fate, rows);
    Creates(env, st, x, fate, rows, st', None, seen);
  }

  /** The columns the call was asked to store, whatever its file name came to be. */
  ghost predicate Asked(row: Snapshot, t: Tables, x: Writer, fate: Fate) {
    && row.project == x.projectId && row.actor == x.actor && row.note == x.note && row.ts == fate.createdAt
    && row.parent == LatestSnapshotId(t, x.projectId, false)
  }

  /**
   * What a call leaves in the catalog, column by column: on success the row
   * under its real name and nothing queued; with a session and a failure the
   * pending row and its queue entry, not yet tried; otherwise only a used id.
   */
  lemma ColumnsLeft(site: Site, files: map<string, Blob>, x: Writer, fate: Fate, rows: seq<Change>)
    requires Constraints(site.tables)
    ensures var t, call := site.tables, After(site, files, x, fate, rows);
            var n, t' := t.nextId, call.site.tables;
            && t'.nextId == n + 1
            && (forall s | s != n :: s in t'.snapshots <==> s in t.snapshots)
            && (forall s | s in t.snapshots :: t'.snapshots[s] == t.snapshots[s])
            && (call.reply.Some? ==>
                  && n in t'.snapshots && t'.snapshots[n] == call.reply.value && n !in t'.pending
                  && Asked(call.reply.value, t, x, fate)
                  && call.reply.value.parquetFile == "snapshot_" + Decimal(n) + ".parquet")
            && (call.reply.None? && !x.session ==> n !in t'.snapshots && n !in t'.pending)
            && (call.reply.None? && x.session ==>
                  && n in t'.snapshots && Asked(t'.snapshots[n], t, x, fate) && t'.snapshots[n].parquetFile == "pending"
                  && n in t'.pending && t'.pending[n].snapshotId == n
                  && t'.pending[n].localPath == LocalPath(x.root, x.projectId, SnapshotFile(n))
                  && t'.pending[n].irodsTarget == Target(x.project.ducklakePath, SnapshotFile(n))
                  && t'.pending[n].attempts == 0 && t'.pending[n].lastError.None? && t'.pending[n].createdAt == fate.queuedAt)
  {
    NextIdIsNew(site.tables);
  }
}
