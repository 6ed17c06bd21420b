// Safety of the write protocol over whole runs.
module Safety {
  import opened Wrappers
  import opened Avu
  import opened Names
  import opened Storage
  import opened CatalogTables
  import opened Protocol
  import opened Invariant
  import opened StoreSteps
  import opened WriterSteps
  import opened RecovererSteps

  // ------------------------------------------------------- the invariant is inductive

  lemma InitHolds(env: Env, w: World)
    requires Init(w)
    ensures Inv(env, w)
  {
  }

  /** The id a writer works on is nobody else's. */
  lemma OwnIsPrivate(env: Env, w: World, id: nat)
    requires Inv(env, w) && id in w.writers
    ensures forall k | k in w.writers && k != id && HasSid(w.writers[k]) ::
              w.writers[k].stage.sid != Own(w.store, w.writers[id])
    ensures env.exclusive ==> forall k | k in w.recoverers && MidRow(w.recoverers[k]) ::
              w.recoverers[k].rows[0].snapshotId != Own(w.store, w.writers[id])
  {
    forall k | k in w.writers && k != id && HasSid(w.writers[k])
      ensures w.writers[k].stage.sid != Own(w.store, w.writers[id])
    {
      assert WritersApart(w.writers[k], w.writers[id]) && WriterOK(env, w.store, w.writers[k]);
      assert EntryOK(w.store, w.writers[k].stage.sid);
    }
    forall k | env.exclusive && k in w.recoverers && MidRow(w.recoverers[k])
      ensures w.recoverers[k].rows[0].snapshotId != Own(w.store, w.writers[id])
    {
      assert Apart(w.writers[id], w.recoverers[k]) && RecovererOK(env, w.store, w.recoverers[k]);
      assert RowOK(w.store, w.recoverers[k].rows[0]);
      assert EntryOK(w.store, w.recoverers[k].rows[0].snapshotId);
    }
  }

  lemma WriterStepKept(env: Env, w: World, id: nat, a: WriterAct)
    requires Inv(env, w) && Enabled(env, w, Writes(id, a))
    ensures Kept(env, w.store, w.writers[id], WriterStep(w.store, w.writers[id], a))
  {
    assert WriterOK(env, w.store, w.writers[id]);
    WriterKeeps(env, w.store, w.writers[id], a);
  }

  lemma WritesKeep(env: Env, w: World, id: nat, a: WriterAct)
    requires Inv(env, w) && Enabled(env, w, Writes(id, a))
    ensures Inv(env, Step(env, w, Writes(id, a)))
  {
    var (st', x') := WriterStep(w.store, w.writers[id], a);
    WriterStepKept(env, w, id, a);
    WriterMoved(env, w, id, st', x');
  }

  /** One writer has moved and left the others' ids alone. */
  lemma WriterMoved(env: Env, w: World, id: nat, st': Store, x': Option<Writer>)
    requires Inv(env, w) && id in w.writers && Kept(env, w.store, w.writers[id], (st', x'))
    ensures Inv(env, World(st', Replace(w.writers, id, x'), w.recoverers))
  {
    WritesDisturbNobody(env, w, id, st');
    WritesStaySeparate(env, w, id, x');
    var w' := World(st', Replace(w.writers, id, x'), w.recoverers);
    forall k | k in w'.writers ensures WriterOK(env, w'.store, w'.writers[k]) {}
  }

  lemma WritesDisturbNobody(env: Env, w: World, id: nat, st': Store)
    requires Inv(env, w) && id in w.writers
    requires Evolves(env, w.store, st', Own(w.store, w.writers[id]))
    requires var own := Own(w.store, w.writers[id]);
             w.writers[id].session && own in w.store.tables.snapshots ==> own in st'.tables.snapshots
    ensures forall k | k in w.writers && k != id :: WriterOK(env, st', w.writers[k])
    ensures forall k | k in w.recoverers :: RecovererOK(env, st', w.recoverers[k])
  {
    var own := Own(w.store, w.writers[id]);
    OwnIsPrivate(env, w, id);
    forall k | k in w.writers && k != id ensures WriterOK(env, st', w.writers[k]) {
      assert WriterOK(env, w.store, w.writers[k]);
      WriterUndisturbed(env, w.store, st', own, w.writers[k]);
    }
    assert WriterOK(env, w.store, w.writers[id]);
    forall k | k in w.recoverers ensures RecovererOK(env, st', w.recoverers[k]) {
      var r := w.recoverers[k];
      assert RecovererOK(env, w.store, r);
      if MidRow(r) {
        assert RowOK(w.store, r.rows[0]);
        assert EntryOK(w.store, r.rows[0].snapshotId);
      }
      RecovererUndisturbed(env, w.store, st', own, r);
    }
  }

  lemma WritesStaySeparate(env: Env, w: World, id: nat, x': Option<Writer>)
    requires Inv(env, w) && id in w.writers
    requires x'.Some? && HasSid(x'.value) ==> x'.value.stage.sid == Own(w.store, w.writers[id])
    ensures Separate(env, Replace(w.writers, id, x'), w.recoverers)
  {
    OwnIsPrivate(env, w, id);
    var writers := Replace(w.writers, id, x');
    forall a, b | a in writers && b in writers && a != b ensures WritersApart(writers[a], writers[b]) {
      assert a != id && b != id ==> WritersApart(w.writers[a], w.writers[b]);
    }
    if env.exclusive {
      forall a, b | a in writers && b in w.recoverers ensures Apart(writers[a], w.recoverers[b]) {
        assert a != id ==> Apart(w.writers[a], w.recoverers[b]);
      }
    }
  }

  lemma RecoversKeep(env: Env, w: World, id: nat, a: RecovererAct)
    requires Inv(env, w) && Enabled(env, w, Recovers(id, a))
    ensures Inv(env, Step(env, w, Recovers(id, a)))
  {
    var r := w.recoverers[id];
    var (st', r') := RecovererStep(w.store, r, a);
    if a.Stop? {
      RecoveryStopKeeps(env, w, id);
    } else {
      RecovererStepKept(env, w, id, a);
      RecoversDisturbNobody(env, w, id, st');
      RecoversStaySeparate(env, w, id, a);
      var w' := World(st', w.writers, Replace(w.recoverers, id, r'));
      forall k | k in w'.recoverers ensures RecovererOK(env, w'.store, w'.recoverers[k]) {}
    }
  }

  lemma RecovererStepKept(env: Env, w: World, id: nat, a: RecovererAct)
    requires Inv(env, w) && Enabled(env, w, Recovers(id, a)) && !a.Stop?
    ensures w.recoverers[id].rows != [] && RKept(env, w.store, w.recoverers[id], RecovererStep(w.store, w.recoverers[id], a))
  {
    assert RecovererOK(env, w.store, w.recoverers[id]);
    RecovererKeeps(env, w.store, w.recoverers[id], a);
  }

  lemma RecoveryStopKeeps(env: Env, w: World, id: nat)
    requires Inv(env, w) && id in w.recoverers
    ensures Inv(env, w.(recoverers := w.recoverers - {id}))
  {
    var recoverers := w.recoverers - {id};
    forall k | k in recoverers ensures RecovererOK(env, w.store, recoverers[k]) {
      assert RecovererOK(env, w.store, w.recoverers[k]);
    }
    forall a, b | a in w.writers && b in recoverers ensures env.exclusive ==> Apart(w.writers[a], recoverers[b]) {
      assert env.exclusive ==> Apart(w.writers[a], w.recoverers[b]);
    }
    forall a, b | a in recoverers && b in recoverers && a != b
      ensures env.exclusive ==> RowsApart(recoverers[a], recoverers[b])
    {
      assert env.exclusive ==> RowsApart(w.recoverers[a], w.recoverers[b]);
    }
  }

  /** Mid-row, nobody else works on the row's id, if recovery is exclusive. */
  lemma RowIsPrivate(env: Env, w: World, id: nat)
    requires Inv(env, w) && env.exclusive && id in w.recoverers && MidRow(w.recoverers[id])
    ensures Unclaimed(w, id, w.recoverers[id].rows[0].snapshotId)
  {
    var sid := w.recoverers[id].rows[0].snapshotId;
    forall k | k in w.writers && HasSid(w.writers[k]) ensures w.writers[k].stage.sid != sid {
      assert Apart(w.writers[k], w.recoverers[id]);
    }
    forall k | k in w.recoverers && k != id && MidRow(w.recoverers[k])
      ensures w.recoverers[k].rows[0].snapshotId != sid
    {
      assert RowsApart(w.recoverers[k], w.recoverers[id]);
    }
  }

  lemma RecoversDisturbNobody(env: Env, w: World, id: nat, st': Store)
    requires Inv(env, w) && id in w.recoverers && w.recoverers[id].rows != []
    requires var sid := w.recoverers[id].rows[0].snapshotId;
             && Evolves(env, w.store, st', sid)
             && Shares(w.store, st', sid)
             && (env.exclusive && !MidRow(w.recoverers[id]) ==> Unclaimed(w, id, sid))
    ensures forall k | k in w.writers :: WriterOK(env, st', w.writers[k])
    ensures forall k | k in w.recoverers && k != id :: RecovererOK(env, st', w.recoverers[k])
  {
    var r := w.recoverers[id];
    var sid := r.rows[0].snapshotId;
    if env.exclusive && MidRow(r) { RowIsPrivate(env, w, id); }
    assert RecovererOK(env, w.store, r);
    assert RowOK(w.store, r.rows[0]);
    assert EntryOK(w.store, sid);
    forall k | k in w.writers ensures WriterOK(env, st', w.writers[k]) {
      assert WriterOK(env, w.store, w.writers[k]);
      WriterUndisturbed(env, w.store, st', sid, w.writers[k]);
    }
    forall k | k in w.recoverers && k != id ensures RecovererOK(env, st', w.recoverers[k]) {
      assert RecovererOK(env, w.store, w.recoverers[k]);
      RecovererUndisturbed(env, w.store, st', sid, w.recoverers[k]);
    }
  }

  lemma RecoversStaySeparate(env: Env, w: World, id: nat, a: RecovererAct)
    requires Inv(env, w) && Enabled(env, w, Recovers(id, a)) && w.recoverers[id].rows != []
    ensures Separate(env, w.writers, Replace(w.recoverers, id, RecovererStep(w.store, w.recoverers[id], a).1))
  {
    var r := w.recoverers[id];
    var recoverers := Replace(w.recoverers, id, RecovererStep(w.store, r, a).1);
    assert id in recoverers && MidRow(recoverers[id]) ==> recoverers[id].rows[0] == r.rows[0];
    if env.exclusive {
      if MidRow(r) { RowIsPrivate(env, w, id); }
      forall k, b | k in w.writers && b in recoverers ensures Apart(w.writers[k], recoverers[b]) {
        assert b != id ==> Apart(w.writers[k], w.recoverers[b]);
      }
      forall b, c | b in recoverers && c in recoverers && b != c ensures RowsApart(recoverers[b], recoverers[c]) {
        assert b != id && c != id ==> RowsApart(w.recoverers[b], w.recoverers[c]);
      }
    }
  }

  lemma StoreStepKeeps(env: Env, w: World, st': Store)
    requires Inv(env, w) && Sound(env, w.store, st', w.store.tables.nextId)
    requires st'.entries == w.store.entries
    ensures Inv(env, w.(store := st'))
  {
    var n := w.store.tables.nextId;
    forall s | s in w.store.entries ensures s < n { assert EntryOK(w.store, s); }
    forall k | k in w.writers ensures WriterOK(env, st', w.writers[k]) {
      assert WriterOK(env, w.store, w.writers[k]);
      WriterUndisturbed(env, w.store, st', n, w.writers[k]);
    }
    forall k | k in w.recoverers ensures RecovererOK(env, st', w.recoverers[k]) {
      assert RecovererOK(env, w.store, w.recoverers[k]);
      if MidRow(w.recoverers[k]) { assert RowOK(w.store, w.recoverers[k].rows[0]); }
      RecovererUndisturbed(env, w.store, st', n, w.recoverers[k]);
    }
  }

  lemma StartRecoveryKeeps(env: Env, w: World, l: Label)
    requires Inv(env, w) && l.StartRecovery? && Enabled(env, w, l)
    ensures Inv(env, Step(env, w, l))
  {
    var w' := Step(env, w, l);
    ListedRowsOK(w.store, l.limit);
    forall k | k in w'.writers ensures WriterOK(env, w'.store, w'.writers[k]) {
      assert WriterOK(env, w.store, w.writers[k]);
    }
    forall k | k in w'.recoverers ensures RecovererOK(env, w'.store, w'.recoverers[k]) {
      assert k != l.id ==> RecovererOK(env, w.store, w.recoverers[k]);
    }
    forall a, b | a in w'.writers && b in w'.recoverers ensures env.exclusive ==> Apart(w'.writers[a], w'.recoverers[b]) {
      assert env.exclusive && b != l.id ==> Apart(w.writers[a], w.recoverers[b]);
    }
    forall a, b | a in w'.recoverers && b in w'.recoverers && a != b
      ensures env.exclusive ==> RowsApart(w'.recoverers[a], w'.recoverers[b])
    {
      assert env.exclusive && a != l.id && b != l.id ==> RowsApart(w.recoverers[a], w.recoverers[b]);
    }
  }

  lemma ListedRowsOK(st: Store, limit: nat)
    requires TablesOK(st) && Keyed(st.tables.pending)
    ensures forall i | 0 <= i < |ListPending(st.tables, limit)| :: RowOK(st, ListPending(st.tables, limit)[i])
  {
    var rows := ListPending(st.tables, limit);
    forall i | 0 <= i < |rows| ensures RowOK(st, rows[i]) {
      assert RowOK(st, st.tables.pending[rows[i].snapshotId]);
    }
  }

  lemma StartWriterKeeps(env: Env, w: World, l: Label)
    requires Inv(env, w) && l.StartWriter? && Enabled(env, w, l)
    ensures Inv(env, Step(env, w, l))
  {
    var w' := Step(env, w, l);
    forall k | k in w'.writers ensures WriterOK(env, w'.store, w'.writers[k]) {
      assert k != l.id ==> WriterOK(env, w.store, w.writers[k]);
    }
    forall k | k in w'.recoverers ensures RecovererOK(env, w'.store, w'.recoverers[k]) {
      assert RecovererOK(env, w.store, w.recoverers[k]);
    }
    forall a, b | a in w'.writers && b in w'.writers && a != b ensures WritersApart(w'.writers[a], w'.writers[b]) {
      assert a != l.id && b != l.id ==> WritersApart(w.writers[a], w.writers[b]);
    }
    forall a, b | a in w'.writers && b in w'.recoverers ensures env.exclusive ==> Apart(w'.writers[a], w'.recoverers[b]) {
      assert env.exclusive && a != l.id ==> Apart(w.writers[a], w.recoverers[b]);
    }
  }

  /** One step of anybody keeps the invariant. */
  lemma StepKeeps(env: Env, w: World, l: Label)
    requires Inv(env, w) && Enabled(env, w, l)
    ensures Inv(env, Step(env, w, l))
  {
    var n := w.store.tables.nextId;
    match l
    case Writes(id, a) => WritesKeep(env, w, id, a);
    case Recovers(id, a) => RecoversKeep(env, w, id, a);
    case Register(c) =>
      Registered(env, w.store, c, n);
      StoreStepKeeps(env, w, Issue(w.store, c));
    case StartWriter(_, _) => StartWriterKeeps(env, w, l);
    case StartRecovery(_, _, _, _) => StartRecoveryKeeps(env, w, l);
    case Evict(host, paths) =>
      Evicted(env, w.store, host, paths, n);
      StoreStepKeeps(env, w, Step(env, w, l).store);
    case Pull(host, root, projectId, sid) =>
      Addressing(root, projectId, "", sid, "", "", "", sid);
      assert EntryOK(w.store, sid);
      Pulled(env, w.store, Key(host, LocalPath(root, projectId, SnapshotFile(sid))), sid, n);
      StoreStepKeeps(env, w, Step(env, w, l).store);
  }

  lemma RunStep(env: Env, ws: seq<World>, ls: seq<Label>, i: nat)
    requires Run(env, ws, ls) && i < |ls|
    ensures Enabled(env, ws[i], ls[i]) && ws[i + 1] == Step(env, ws[i], ls[i])
  {
    assert Advances(env, ws, ls, i);
  }

  lemma StepKeepsAt(env: Env, ws: seq<World>, ls: seq<Label>, i: nat)
    requires Run(env, ws, ls) && i < |ls| && Inv(env, ws[i])
    ensures Inv(env, ws[i + 1])
  {
    RunStep(env, ws, ls, i);
    StepKeeps(env, ws[i], ls[i]);
  }

  lemma {:induction false} Reachable(env: Env, ws: seq<World>, ls: seq<Label>, i: nat)
    requires Run(env, ws, ls) && Init(ws[0]) && i <= |ls|
    ensures Inv(env, ws[i])
  {
    if i == 0 {
      InitHolds(env, ws[0]);
    } else {
      Reachable(env, ws, ls, i - 1);
      StepKeepsAt(env, ws, ls, i - 1);
    }
  }

  /** A run goes on with any enabled step. */
  lemma Extend(env: Env, ws: seq<World>, ls: seq<Label>, l: Label) returns (ws': seq<World>, ls': seq<Label>)
    requires Run(env, ws, ls) && Enabled(env, ws[|ls|], l)
    ensures Run(env, ws', ls')
    ensures ws' == ws + [Step(env, ws[|ls|], l)] && ls' == ls + [l]
  {
    ws', ls' := ws + [Step(env, ws[|ls|], l)], ls + [l];
    forall i: nat | i < |ls'| ensures Advances(env, ws', ls', i) {
      assert i < |ls| ==> Advances(env, ws, ls, i);
    }
  }
}
