// Each step of record_changes keeps the invariant.
module WriterSteps {
  import opened Wrappers
  import opened Avu
  import opened Names
  import opened Storage
  import opened CatalogTables
  import opened Protocol
  import opened Invariant
  import opened StoreSteps

  /** The id a writer works on, or is about to be given. */
  function Own(st: Store, x: Writer): nat {
    if HasSid(x) then x.stage.sid else st.tables.nextId
  }

  ghost predicate Kept(env: Env, st: Store, x: Writer, after: (Store, Option<Writer>)) {
    var (st', x') := after;
    && Sound(env, st, st', Own(st, x))
    && (x.session && Own(st, x) in st.tables.snapshots ==> Own(st, x) in st'.tables.snapshots)
    && (x'.Some? ==>
          && WriterOK(env, st', x'.value)
          && (HasSid(x'.value) ==> x'.value.stage.sid == Own(st, x)))
  }

  ghost predicate Ready(env: Env, st: Store, x: Writer, a: WriterAct) {
    StoreOK(env, st) && WriterOK(env, st, x) && WriterMay(env, st, x, a)
  }

  /** Between allocation and commit a writer goes on owning its row. */
  lemma StillOwns(env: Env, st: Store, st': Store, x: Writer, stage: WriterStage)
    requires WriterOK(env, st, x) && HasSid(x) && !x.stage.Committed?
    requires st'.entries == st.entries
    requires st'.tables.projects == st.tables.projects && st'.tables.snapshots == st.tables.snapshots
    ensures x.projectId in st'.tables.projects && x.project == st'.tables.projects[x.projectId]
    ensures Owns(env, st', x.(stage := stage), x.stage.sid)
  {
  }

  /** A row still pending was never committed, unless a recoverer overlapped. */
  lemma NotYetNamed(env: Env, st: Store, x: Writer)
    requires DurableOK(env, st) && WriterOK(env, st, x) && HasSid(x) && !x.stage.Committed?
    ensures env.exclusive || !x.session ==> x.stage.sid !in st.named
  {
    SnapshotFileInjective(x.stage.sid, x.stage.sid);
    if env.exclusive || !x.session {
      forall s | s in st.named ensures s != x.stage.sid { assert DurableAt(env, st, s); }
    }
  }

  lemma ReadParentKeeps(env: Env, st: Store, x: Writer)
    requires Ready(env, st, x, ReadParent)
    ensures Kept(env, st, x, ReadParentStep(st, x))
  {
    Unchanged(env, st, Own(st, x));
    var latest := LatestSnapshotId(st.tables, x.projectId, false);
    if latest.Some? { assert References(st.tables, latest.value); }
  }

  lemma CreateKeeps(env: Env, st: Store, x: Writer, now: int)
    requires Ready(env, st, x, Create(now))
    ensures Legal(st.tables, WriterCall(x, Create(now)).value)
    ensures Kept(env, st, x, WriterStep(st, x, Create(now)))
  {
    var c := WriterCall(x, Create(now)).value;
    var (st', x') := CreateStep(st, x, c);
    var n := st.tables.nextId;
    var entry := Entry(x.projectId, x.project, Stamp(x.projectId, n, x.changes), x.session);
    Created(env, st, st', entry, st'.tables.snapshots[n]);
    forall s | s in st.entries ensures s < n { assert EntryOK(st, s); }
  }

  lemma LogKeeps(env: Env, st: Store, x: Writer, now: int)
    requires Ready(env, st, x, Log(now))
    ensures Legal(st.tables, WriterCall(x, Log(now)).value)
    ensures Kept(env, st, x, WriterStep(st, x, Log(now)))
  {
    var sid := x.stage.sid;
    var row := PendingPush(sid, FileKey(x, sid).path, TargetOf(x.project, sid), 0, None, now);
    Addressing(x.root, x.projectId, "", sid, "", "", "", sid);
    LogRow(st, x, now, row);
    StillOwns(env, st, WriterStep(st, x, Log(now)).0, x, Logged(sid));
    if sid in st.tables.pending {
      Unchanged(env, st, sid);
    } else {
      Queued(env, st, row);
    }
  }

  /** insert_pending_push leaves an existing row alone. */
  lemma LogRow(st: Store, x: Writer, now: int, row: PendingPush)
    requires HasSid(x) && x.stage.sid in st.tables.snapshots
    requires row == PendingPush(x.stage.sid, FileKey(x, x.stage.sid).path, TargetOf(x.project, x.stage.sid), 0, None, now)
    ensures WriterStep(st, x, Log(now)) ==
            (if x.stage.sid in st.tables.pending then st
             else st.(tables := st.tables.(pending := st.tables.pending[x.stage.sid := row])),
             Some(x.(stage := Logged(x.stage.sid))))
  {
  }

  lemma WriteKeeps(env: Env, st: Store, x: Writer, rows: seq<Change>)
    requires Ready(env, st, x, Write(rows))
    ensures Kept(env, st, x, WriteStep(st, x, x.stage.sid, rows))
  {
    var sid := x.stage.sid;
    Addressing(x.root, x.projectId, "", sid, "", "", "", sid);
    FileWritten(env, st, sid, FileKey(x, sid), rows);
    StillOwns(env, st, WriteStep(st, x, sid, rows).0, x, Wrote(sid));
  }

  lemma RollBackKeeps(env: Env, st: Store, x: Writer)
    requires Ready(env, st, x, RollBack)
    ensures Legal(st.tables, WriterCall(x, RollBack).value)
    ensures Kept(env, st, x, WriterStep(st, x, RollBack))
  {
    NotYetNamed(env, st, x);
    RolledBack(env, st, x.stage.sid);
  }

  lemma UploadKeeps(env: Env, st: Store, x: Writer, stored: Option<Blob>, raised: bool)
    requires Ready(env, st, x, Upload(stored, raised))
    ensures Kept(env, st, x, UploadStep(st, x, x.stage.sid, stored, raised))
  {
    var sid := x.stage.sid;
    UploadedOK(env, st, x, stored, raised);
    NotYetNamed(env, st, x);
    Addressing(x.root, x.projectId, "", sid, "", "", "", sid);
    Put(env, st, sid, FileKey(x, sid), stored, raised);
  }

  lemma UploadedOK(env: Env, st: Store, x: Writer, stored: Option<Blob>, raised: bool)
    requires Ready(env, st, x, Upload(stored, raised))
    ensures WriterOK(env, UploadStep(st, x, x.stage.sid, stored, raised).0, x.(stage := Uploaded(x.stage.sid)))
  {
    StillOwns(env, st, UploadStep(st, x, x.stage.sid, stored, raised).0, x, Uploaded(x.stage.sid));
  }

  /** An accepted upload is intact. */
  lemma AcceptedIsExact(env: Env, st: Store, sid: nat, key: Key, answer: Option<Answer>)
    requires StoreOK(env, st) && sid in st.entries && sid in st.written && BaseName(key.path) == SnapshotFile(sid)
    requires AnswerMay(st, sid, TargetOf(st.entries[sid].project, sid), answer)
    requires Accepted(Lookup(st.caches, key), answer)
    ensures Exact(env, st, sid)
  {
    var stored := st.objects[TargetOf(st.entries[sid].project, sid)];
    if key in st.caches {
      assert CachedOK(env, st, key, sid);
      AcceptedExactlyWhenIntact(st.caches[key], stored, answer.value);
    }
  }

  lemma VerifyKeeps(env: Env, st: Store, x: Writer, answer: Option<Answer>)
    requires Ready(env, st, x, Verify(answer))
    ensures Kept(env, st, x, VerifyStep(st, x, x.stage.sid, answer))
  {
    var sid := x.stage.sid;
    Unchanged(env, st, sid);
    if Accepted(Lookup(st.caches, FileKey(x, sid)), answer) { VerifiedOK(env, st, x, answer); }
  }

  lemma VerifiedOK(env: Env, st: Store, x: Writer, answer: Option<Answer>)
    requires Ready(env, st, x, Verify(answer)) && Accepted(Lookup(st.caches, FileKey(x, x.stage.sid)), answer)
    ensures WriterOK(env, st, x.(stage := Verified(x.stage.sid)))
  {
    StillOwns(env, st, st, x, Verified(x.stage.sid));
    Addressing(x.root, x.projectId, "", x.stage.sid, "", "", "", x.stage.sid);
    AcceptedIsExact(env, st, x.stage.sid, FileKey(x, x.stage.sid), answer);
  }

  lemma CommitKeeps(env: Env, st: Store, x: Writer)
    requires Ready(env, st, x, Commit)
    ensures Kept(env, st, x, WriterStep(st, x, Commit))
  {
    Named(env, st, x.stage.sid);
  }

  lemma DropLogKeeps(env: Env, st: Store, x: Writer)
    requires Ready(env, st, x, DropLog)
    ensures Kept(env, st, x, WriterStep(st, x, DropLog))
  {
    Dequeued(env, st, x.stage.sid);
  }

  lemma {:induction false} WriterKeeps(env: Env, st: Store, x: Writer, a: WriterAct)
    requires Ready(env, st, x, a)
    ensures Kept(env, st, x, WriterStep(st, x, a))
    ensures WriterCall(x, a).Some? ==> Legal(st.tables, WriterCall(x, a).value)
  {
    match a
    case ReadParent => ReadParentKeeps(env, st, x);
    case Create(now) => CreateKeeps(env, st, x, now);
    case Log(now) => LogKeeps(env, st, x, now);
    case Write(rows) => WriteKeeps(env, st, x, rows);
    case WriteFails => Unchanged(env, st, Own(st, x));
    case RollBack => RollBackKeeps(env, st, x);
    case Upload(stored, raised) => UploadKeeps(env, st, x, stored, raised);
    case Verify(answer) => VerifyKeeps(env, st, x, answer);
    case Commit => CommitKeeps(env, st, x);
    case DropLog => DropLogKeeps(env, st, x);
    case Crash => Unchanged(env, st, Own(st, x));
  }
}
