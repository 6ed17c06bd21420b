// The push-before-commit write protocol as a labelled transition system: any
// number of writers (record_changes), recoverers (recover_pending_pushes),
// readers filling caches, evictions and crashes, interleaved one catalog
// statement, file operation or iRODS call at a time.
module Protocol {
  import opened Wrappers
  import opened Avu
  import opened Names
  import opened Storage
  import opened CatalogTables
  import opened WriteOrder

  /**
   * What the environment promises. exclusive: a recoverer takes up a row only
   * while no live writer or other recoverer is working on it. atomicPut: an
   * upload stores the local bytes or nothing.
   */
  datatype Env = Env(exclusive: bool, atomicPut: bool)

  predicate Dependable(env: Env) {
    env.exclusive || env.atomicPut
  }

  datatype Key = Key(host: nat, path: string)

  /** What record_changes was asked to store under an id. */
  datatype Entry = Entry(projectId: string, project: Project, changes: seq<Change>, session: bool)

  // entries, written and named are history: what each id stands for, the file
  // its writer produced, and the ids whose row ever carried a real name.
  datatype Store = Store(
    tables: Tables,
    caches: map<Key, Blob>,
    objects: map<string, Blob>,
    entries: map<nat, Entry>,
    written: map<nat, seq<Change>>,
    named: set<nat>)

  datatype WriterStage =
    | Begin
    | HasParent(parent: Option<nat>)
    | Allocated(sid: nat)
    | Logged(sid: nat)
    | Wrote(sid: nat)
    | Uploaded(sid: nat)
    | Verified(sid: nat)
    | Committed(sid: nat)
    | RollingBack(sid: nat)

  datatype Writer = Writer(
    host: nat,
    root: string,
    projectId: string,
    project: Project,
    actor: string,
    note: Option<string>,
    changes: seq<Change>,
    session: bool,
    stage: WriterStage)

  datatype RecovererStage =
    | Next
    | Dropping
    | GivingUp
    | Checking
    | Pushing
    | Verifying
    | Flipping
    | Bumping(error: string)

  datatype Recoverer = Recoverer(host: nat, maxAttempts: int, rows: seq<PendingPush>, stage: RecovererStage)

  datatype World = World(store: Store, writers: map<nat, Writer>, recoverers: map<nat, Recoverer>)

  datatype WriterAct =
    | ReadParent
    | Create(now: int)
    | Log(now: int)
    | Write(rows: seq<Change>)
    | WriteFails
    | RollBack
    | Upload(stored: Option<Blob>, raised: bool)
    | Verify(answer: Option<Answer>)
    | Commit
    | DropLog
    | Crash

  datatype RecovererAct =
    | Look
    | Drop
    | GiveUp
    | Check
    | Push(stored: Option<Blob>, raised: bool, error: string)
    | VerifyPush(answer: Option<Answer>, error: string)
    | Flip
    | Bump
    | Stop

  datatype Label =
    | Writes(id: nat, act: WriterAct)
    | Recovers(id: nat, recovery: RecovererAct)
    | Register(call: Call)
    | StartWriter(id: nat, writer: Writer)
    | StartRecovery(id: nat, host: nat, maxAttempts: int, limit: nat)
    | Evict(host: nat, paths: set<string>)
    | Pull(host: nat, root: string, projectId: string, sid: nat)

  // ------------------------------------------------------------------ helpers

  predicate HasSid(x: Writer) {
    !x.stage.Begin? && !x.stage.HasParent?
  }

  predicate MidRow(r: Recoverer) {
    !r.stage.Next? && r.rows != []
  }

  function TargetOf(p: Project, sid: nat): string {
    Target(p.ducklakePath, SnapshotFile(sid))
  }

  function FileKey(x: Writer, sid: nat): Key {
    Key(x.host, LocalPath(x.root, x.projectId, SnapshotFile(sid)))
  }

  function RowKey(r: Recoverer): Key
    requires r.rows != []
  {
    Key(r.host, r.rows[0].localPath)
  }

  function Lookup<K, V>(m: map<K, V>, k: K): Option<V> {
    if k in m then Some(m[k]) else None
  }

  /** push() accepts: the object is fetched and its checksum fits the local file. */
  predicate Accepted(local: Option<Blob>, answer: Option<Answer>) {
    answer.Some? && (answer.value.NoChecksum? || (local.Some? && ChecksumMatches(local.value, answer.value)))
  }

  /** What data_objects.put may do with the file it is given. */
  predicate PutMay(env: Env, local: Option<Blob>, stored: Option<Blob>, raised: bool) {
    && (local.None? ==> raised && stored.None?)
    && (!raised ==> stored.Some?)
    && (env.atomicPut ==> stored.None? || stored == local)
  }

  /** The server answers for what it stores; without a usable digest it stored the file intact. */
  predicate AnswerMay(st: Store, sid: nat, target: string, answer: Option<Answer>) {
    answer.Some? ==>
      && target in st.objects
      && Honest(answer.value, st.objects[target])
      && (!Verifiable(answer.value) ==> sid in st.written && st.objects[target] == Parquet(st.written[sid]))
  }

  function PutObject(st: Store, target: string, stored: Option<Blob>): Store {
    if stored.Some? then st.(objects := st.objects[target := stored.value]) else st
  }

  function Issue(st: Store, c: Call): Store {
    st.(tables := Postgres(st.tables, c).0)
  }

  // ------------------------------------------------------------------ writers

  /** The catalog statement a writer's step issues. */
  function WriterCall(x: Writer, a: WriterAct): Option<Call> {
    if a.Create? && x.stage.HasParent? then
      Some(CreateSnapshot(x.projectId, x.actor, x.stage.parent, x.note, PENDING, a.now))
    else if !HasSid(x) then None
    else if a.Log? then
      Some(InsertPending(x.stage.sid, FileKey(x, x.stage.sid).path, TargetOf(x.project, x.stage.sid), a.now))
    else if a.RollBack? then Some(DeleteSnapshot(x.stage.sid))
    else if a.Commit? then Some(UpdateParquetFile(x.stage.sid, SnapshotFile(x.stage.sid)))
    else if a.DropLog? then Some(DeletePending(x.stage.sid))
    else None
  }

  ghost predicate WriterMay(env: Env, st: Store, x: Writer, a: WriterAct) {
    match a
    case ReadParent => x.stage.Begin?
    case Create(_) => x.stage.HasParent?
    case Log(_) => x.session && x.stage.Allocated?
    case Write(rows) =>
      && (if x.session then x.stage.Logged? else x.stage.Allocated?)
      && FileOf(rows, Stamp(x.projectId, x.stage.sid, x.changes))
    case WriteFails => if x.session then x.stage.Logged? else x.stage.Allocated?
    case RollBack => x.stage.RollingBack?
    case Upload(stored, raised) =>
      x.session && x.stage.Wrote? && PutMay(env, Lookup(st.caches, FileKey(x, x.stage.sid)), stored, raised)
    case Verify(answer) => x.stage.Uploaded? && AnswerMay(st, x.stage.sid, TargetOf(x.project, x.stage.sid), answer)
    case Commit => if x.session then x.stage.Verified? else x.stage.Wrote?
    case DropLog => x.stage.Committed?
    case Crash => true
  }

  function ReadParentStep(st: Store, x: Writer): (Store, Option<Writer>) {
    (st, Some(x.(stage := HasParent(LatestSnapshotId(st.tables, x.projectId, false)))))
  }

  function CreateStep(st: Store, x: Writer, c: Call): (Store, Option<Writer>) {
    var (t, reply) := Postgres(st.tables, c);
    if reply.SnapshotRow? then
      var entry := Entry(x.projectId, x.project, Stamp(x.projectId, reply.sid, x.changes), x.session);
      (st.(tables := t, entries := st.entries[reply.sid := entry]), Some(x.(stage := Allocated(reply.sid))))
    else (st.(tables := t), None)
  }

  function LogStep(st: Store, x: Writer, sid: nat, c: Call): (Store, Option<Writer>) {
    var (t, reply) := Postgres(st.tables, c);
    (st.(tables := t), if reply.PendingRow? then Some(x.(stage := Logged(sid))) else None)
  }

  function WriteStep(st: Store, x: Writer, sid: nat, rows: seq<Change>): (Store, Option<Writer>) {
    (st.(caches := st.caches[FileKey(x, sid) := Parquet(rows)], written := st.written[sid := rows]),
     Some(x.(stage := Wrote(sid))))
  }

  function UploadStep(st: Store, x: Writer, sid: nat, stored: Option<Blob>, raised: bool): (Store, Option<Writer>) {
    (PutObject(st, TargetOf(x.project, sid), stored), if raised then None else Some(x.(stage := Uploaded(sid))))
  }

  function VerifyStep(st: Store, x: Writer, sid: nat, answer: Option<Answer>): (Store, Option<Writer>) {
    (st, if Accepted(Lookup(st.caches, FileKey(x, sid)), answer) then Some(x.(stage := Verified(sid))) else None)
  }

  function CommitStep(st: Store, x: Writer, sid: nat, c: Call): (Store, Option<Writer>) {
    var (t, reply) := Postgres(st.tables, c);
    if reply.SnapshotRow? then
      (st.(tables := t, named := st.named + {sid}), if x.session then Some(x.(stage := Committed(sid))) else None)
    else (st, None)
  }

  /** A step of record_changes; None when the call has returned or raised. */
  function WriterStep(st: Store, x: Writer, a: WriterAct): (Store, Option<Writer>) {
    var c := WriterCall(x, a);
    match a
    case ReadParent => ReadParentStep(st, x)
    case Create(_) => if c.Some? then CreateStep(st, x, c.value) else (st, None)
    case Log(_) => if c.Some? then LogStep(st, x, x.stage.sid, c.value) else (st, None)
    case Write(rows) => if HasSid(x) then WriteStep(st, x, x.stage.sid, rows) else (st, None)
    case WriteFails => (st, if x.session || !HasSid(x) then None else Some(x.(stage := RollingBack(x.stage.sid))))
    case RollBack => (if c.Some? then Issue(st, c.value) else st, None)
    case Upload(stored, raised) => if HasSid(x) then UploadStep(st, x, x.stage.sid, stored, raised) else (st, None)
    case Verify(answer) => if HasSid(x) then VerifyStep(st, x, x.stage.sid, answer) else (st, None)
    case Commit => if c.Some? then CommitStep(st, x, x.stage.sid, c.value) else (st, None)
    case DropLog => (if c.Some? then Issue(st, c.value) else st, None)
    case Crash => (st, None)
  }

  // ---------------------------------------------------------------- recoverers

  function RecovererCall(r: Recoverer, a: RecovererAct): Option<Call> {
    if !MidRow(r) then None else
      var row := r.rows[0];
      match a
      case Drop => Some(DeletePending(row.snapshotId))
      case GiveUp => Some(UpdateParquetFile(row.snapshotId, FAILED))
      case Flip => Some(UpdateParquetFile(row.snapshotId, BaseName(row.localPath)))
      case Bump => if r.stage.Bumping? then Some(BumpPending(row.snapshotId, r.stage.error)) else None
      case _ => None
  }

  ghost predicate RecovererMay(env: Env, st: Store, r: Recoverer, a: RecovererAct) {
    && (a.Stop? || r.rows != [])
    && match a
       case Look => r.stage.Next?
       case Drop => r.stage.Dropping?
       case GiveUp => r.stage.GivingUp?
       case Check => r.stage.Checking?
       case Push(stored, raised, _) => r.stage.Pushing? && PutMay(env, Lookup(st.caches, RowKey(r)), stored, raised)
       case VerifyPush(answer, _) =>
         r.stage.Verifying? && AnswerMay(st, r.rows[0].snapshotId, r.rows[0].irodsTarget, answer)
       case Flip => r.stage.Flipping?
       case Bump => r.stage.Bumping?
       case Stop => true
  }

  function MissingFile(row: PendingPush): string {
    "local parquet missing: " + row.localPath
  }

  function LookStep(st: Store, r: Recoverer, row: PendingPush): (Store, Option<Recoverer>) {
    var stage :=
      if row.snapshotId !in st.tables.snapshots then Dropping
      else if st.tables.snapshots[row.snapshotId].parquetFile != PENDING then Dropping
      else if row.attempts >= r.maxAttempts then GivingUp
      else Checking;
    (st, Some(r.(stage := stage)))
  }

  /** DropStep and BumpStep: the row is done with, and its table row deleted or bumped. */
  function RowDoneStep(st: Store, r: Recoverer, c: Call): (Store, Option<Recoverer>)
    requires r.rows != []
  {
    (Issue(st, c), Some(r.(stage := Next, rows := r.rows[1..])))
  }

  function GiveUpStep(st: Store, r: Recoverer, c: Call): (Store, Option<Recoverer>) {
    var (t, reply) := Postgres(st.tables, c);
    if reply.SnapshotRow? then (st.(tables := t), Some(r.(stage := Dropping))) else (st, None)
  }

  function FlipStep(st: Store, r: Recoverer, sid: nat, c: Call): (Store, Option<Recoverer>) {
    var (t, reply) := Postgres(st.tables, c);
    if reply.SnapshotRow? then (st.(tables := t, named := st.named + {sid}), Some(r.(stage := Dropping)))
    else (st, None)
  }

  /** A step of recover_pending_pushes; None when it has stopped or raised. */
  function RecovererStep(st: Store, r: Recoverer, a: RecovererAct): (Store, Option<Recoverer>) {
    if r.rows == [] then (st, None) else
      var row := r.rows[0];
      var c := RecovererCall(r, a);
      match a
      case Look => LookStep(st, r, row)
      case Drop => if c.Some? then RowDoneStep(st, r, c.value) else (st, None)
      case GiveUp => if c.Some? then GiveUpStep(st, r, c.value) else (st, None)
      case Check =>
        (st, Some(r.(stage := if RowKey(r) in st.caches then Pushing else Bumping(MissingFile(row)))))
      case Push(stored, raised, error) =>
        (PutObject(st, row.irodsTarget, stored), Some(r.(stage := if raised then Bumping(error) else Verifying)))
      case VerifyPush(answer, error) =>
        (st, Some(r.(stage := if Accepted(Lookup(st.caches, RowKey(r)), answer) then Flipping else Bumping(error))))
      case Flip => if c.Some? then FlipStep(st, r, row.snapshotId, c.value) else (st, None)
      case Bump => if c.Some? then RowDoneStep(st, r, c.value) else (st, None)
      case Stop => (st, None)
  }

  // ----------------------------------------------------------------- the system

  predicate Unclaimed(w: World, id: nat, sid: nat) {
    && (forall k | k in w.writers && HasSid(w.writers[k]) :: w.writers[k].stage.sid != sid)
    && (forall k | k in w.recoverers && k != id && MidRow(w.recoverers[k]) :: w.recoverers[k].rows[0].snapshotId != sid)
  }

  ghost predicate Enabled(env: Env, w: World, l: Label) {
    match l
    case Writes(id, a) => id in w.writers && WriterMay(env, w.store, w.writers[id], a)
    case Recovers(id, a) =>
      && id in w.recoverers
      && RecovererMay(env, w.store, w.recoverers[id], a)
      && (a.Look? && env.exclusive ==> Unclaimed(w, id, w.recoverers[id].rows[0].snapshotId))
    case Register(c) => c.RegisterProject?
    case StartWriter(id, x) =>
      && id !in w.writers
      && x.stage.Begin?
      && x.changes != []
      && x.projectId in w.store.tables.projects
      && x.project == w.store.tables.projects[x.projectId]
    case StartRecovery(id, host, maxAttempts, limit) => id !in w.recoverers && Keyed(w.store.tables.pending)
    case Evict(host, paths) => true
    case Pull(host, root, projectId, sid) =>
      && sid in w.store.named && sid in w.store.entries && w.store.entries[sid].projectId == projectId
      && projectId in w.store.tables.projects
      && TargetOf(w.store.tables.projects[projectId], sid) in w.store.objects
  }

  function Replace<V>(m: map<nat, V>, id: nat, v: Option<V>): map<nat, V> {
    if v.Some? then m[id := v.value] else m - {id}
  }

  function EvictFrom(caches: map<Key, Blob>, host: nat, paths: set<string>): map<Key, Blob> {
    map k | k in caches && !(k.host == host && k.path in paths) :: caches[k]
  }

  ghost function Step(env: Env, w: World, l: Label): World
    requires Enabled(env, w, l)
  {
    var st := w.store;
    match l
    case Writes(id, a) =>
      var (st', x) := WriterStep(st, w.writers[id], a);
      World(st', Replace(w.writers, id, x), w.recoverers)
    case Recovers(id, a) =>
      var (st', r) := RecovererStep(st, w.recoverers[id], a);
      World(st', w.writers, Replace(w.recoverers, id, r))
    case Register(c) => w.(store := Issue(st, c))
    case StartWriter(id, x) => w.(writers := w.writers[id := x])
    case StartRecovery(id, host, maxAttempts, limit) =>
      w.(recoverers := w.recoverers[id := Recoverer(host, maxAttempts, ListPending(st.tables, limit), Next)])
    case Evict(host, paths) => w.(store := st.(caches := EvictFrom(st.caches, host, paths)))
    case Pull(host, root, projectId, sid) =>
      var key := Key(host, LocalPath(root, projectId, SnapshotFile(sid)));
      w.(store := st.(caches := st.caches[key := st.objects[TargetOf(st.tables.projects[projectId], sid)]]))
  }

  // --------------------------------------------------------------------- runs

  ghost predicate Init(w: World) {
    w == World(Store(Tables(map[], map[], map[], 1), map[], map[], map[], map[], {}), map[], map[])
  }

  ghost predicate Advances(env: Env, ws: seq<World>, ls: seq<Label>, i: nat)
    requires i < |ls| < |ws|
  {
    Enabled(env, ws[i], ls[i]) && ws[i + 1] == Step(env, ws[i], ls[i])
  }

  ghost predicate Run(env: Env, ws: seq<World>, ls: seq<Label>) {
    && |ws| == |ls| + 1
    && forall i: nat {:trigger Advances(env, ws, ls, i)} | i < |ls| :: Advances(env, ws, ls, i)
  }
}
