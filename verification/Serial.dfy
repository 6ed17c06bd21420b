// record_changes calls one after another, whatever fails: the parent chain of
// a project, and what a late recovery does to it.
module Serial {
  import opened Wrappers
  import opened Avu
  import opened Names
  import opened Storage
  import opened CatalogTables
  import opened Protocol
  import opened ProtocolTheorems
  import opened Recovery
  import opened Recording

  datatype Request = Request(writer: Writer, fate: Fate, rows: seq<Change>)

  /** The host after one call that nothing interleaves with. */
  function Served(h: Host, r: Request): Host {
    var call := After(h.site, h.files, r.writer, r.fate, r.rows);
    Host(call.site, call.files)
  }

  function History(h: Host, rs: seq<Request>): Host {
    if rs == [] then h else Served(History(h, rs[..|rs| - 1]), rs[|rs| - 1])
  }

  /** The row a call leaves, if any. */
  function RowLeft(t: Tables, r: Request): Option<Snapshot> {
    if r.fate.writeFails then if r.writer.session then Some(NewRow(t, r.writer, r.fate, PENDING)) else None
    else if r.writer.session && !PushSucceeds(r.rows, r.fate) then Some(NewRow(t, r.writer, r.fate, PENDING))
    else Some(NewRow(t, r.writer, r.fate, SnapshotFile(t.nextId)))
  }

  /** t' is t with the next id used up, and the row, if there is one, under it. */
  ghost predicate Grown(t: Tables, t': Tables, row: Option<Snapshot>) {
    && t'.projects == t.projects && t'.nextId == t.nextId + 1
    && t'.snapshots == (if row.Some? then t.snapshots[t.nextId := row.value] else t.snapshots)
    && (forall s | s in t'.pending && s != t.nextId :: s in t.pending && t'.pending[s] == t.pending[s])
    && (t.nextId in t'.pending && t.nextId !in t.pending ==> row.Some? && t'.pending[t.nextId].snapshotId == t.nextId)
  }

  lemma ServedGrows(h: Host, r: Request)
    ensures Grown(h.site.tables, Served(h, r).site.tables, RowLeft(h.site.tables, r))
  {
  }

  // ------------------------------------------------------------------ one chain

  function Settled(t: Tables, p: string): set<nat> {
    SnapshotIds(t, p, false)
  }

  /** From the newest settled snapshot, the parents are all the settled ones, newest first. */
  ghost predicate Chained(t: Tables, p: string)
    requires ParentsBelow(t)
  {
    var ids := Settled(t, p);
    ids != {} ==> Ancestry(t, MaxId(ids)) == NewestIds(ids, |ids|)
  }

  predicate Overtaken(t: Tables, s: nat)
    requires s in t.snapshots
  {
    exists m :: m in Settled(t, t.snapshots[s].project) && m > s
  }

  /** A pending snapshot that none has overtaken continues the chain. */
  ghost predicate Continues(t: Tables, s: nat)
    requires s in t.snapshots
  {
    t.snapshots[s].parquetFile == PENDING && !Overtaken(t, s) ==>
      t.snapshots[s].parent == LatestSnapshotId(t, t.snapshots[s].project, false)
  }

  ghost predicate OneChain(t: Tables) {
    && Constraints(t)
    && ParentsBelow(t)
    && (forall p :: Chained(t, p))
    && (forall s {:trigger Continues(t, s)} | s in t.snapshots :: Continues(t, s))
  }

  lemma {:induction false} AncestryFrame(t: Tables, t': Tables, s: nat)
    requires ParentsBelow(t) && ParentsBelow(t') && s in t.snapshots
    requires forall c | c in t.snapshots :: c in t'.snapshots && t'.snapshots[c].parent == t.snapshots[c].parent
    ensures Ancestry(t', s) == Ancestry(t, s)
    decreases s
  {
    if t.snapshots[s].parent.Some? {
      AncestryFrame(t, t', t.snapshots[s].parent.value);
    }
  }

  lemma MaxIdIs(s: set<nat>, m: nat)
    requires m in s && forall x | x in s :: x <= m
    ensures MaxId(s) == m
  {
  }

  /** Snapshots that keep their parents keep the chain, if the settled ones are the same. */
  lemma SameChain(t: Tables, t': Tables, p: string)
    requires ParentsBelow(t) && ParentsBelow(t') && Chained(t, p) && Settled(t', p) == Settled(t, p)
    requires forall c | c in t.snapshots :: c in t'.snapshots && t'.snapshots[c].parent == t.snapshots[c].parent
    ensures Chained(t', p)
  {
    if Settled(t, p) != {} { AncestryFrame(t, t', MaxId(Settled(t, p))); }
  }

  /** A newest snapshot whose parent was the newest extends it. */
  lemma LongerChain(t: Tables, t': Tables, p: string, n: nat)
    requires ParentsBelow(t) && ParentsBelow(t') && Chained(t, p) && n in t'.snapshots
    requires forall c | c in t.snapshots :: c in t'.snapshots && t'.snapshots[c].parent == t.snapshots[c].parent
    requires Settled(t', p) == Settled(t, p) + {n} && forall c | c in Settled(t, p) :: c < n
    requires t'.snapshots[n].parent == LatestSnapshotId(t, p, false)
    ensures Chained(t', p)
  {
    var ids := Settled(t, p);
    var ids' := ids + {n};
    MaxIdIs(ids', n);
    assert ids' - {n} == ids;
    if ids != {} { AncestryFrame(t, t', MaxId(ids)); }
  }

  // ---------------------------------------------------------------- one more call

  lemma GrownKeepsConstraints(t: Tables, t': Tables, row: Option<Snapshot>)
    requires Constraints(t) && ParentsBelow(t) && Grown(t, t', row)
    requires row.Some? ==> row.value.project in t.projects && row.value.parent == LatestSnapshotId(t, row.value.project, false)
    ensures Constraints(t') && ParentsBelow(t') && t.nextId !in t.snapshots
  {
    NextIdIsNew(t);
    forall s | s in t.snapshots ensures References(t, s) {}
    forall s | s in t'.snapshots ensures References(t', s) {
      if s != t.nextId { assert References(t, s); }
    }
    forall s | s in t'.pending ensures PendingReferences(t', s) {
      if s != t.nextId { assert PendingReferences(t, s); }
    }
  }

  lemma GrownSettled(t: Tables, t': Tables, row: Option<Snapshot>, p: string)
    requires t.nextId !in t.snapshots && Grown(t, t', row)
    ensures Settled(t', p) ==
            Settled(t, p) + if row.Some? && row.value.project == p && row.value.parquetFile != PENDING then {t.nextId} else {}
  {
  }

  lemma GrownChains(t: Tables, t': Tables, row: Option<Snapshot>, p: string)
    requires OneChain(t) && Constraints(t') && ParentsBelow(t') && t.nextId !in t.snapshots && Grown(t, t', row)
    requires row.Some? ==> row.value.parent == LatestSnapshotId(t, row.value.project, false)
    ensures Chained(t', p)
  {
    GrownSettled(t, t', row, p);
    assert Chained(t, p);
    if row.Some? && row.value.project == p && row.value.parquetFile != PENDING {
      forall c | c in Settled(t, p) ensures c < t.nextId { assert References(t, c); }
      LongerChain(t, t', p, t.nextId);
    } else {
      SameChain(t, t', p);
    }
  }

  lemma GrownContinues(t: Tables, t': Tables, row: Option<Snapshot>, s: nat)
    requires OneChain(t) && t.nextId !in t.snapshots && Grown(t, t', row) && s in t'.snapshots
    requires row.Some? ==> row.value.parent == LatestSnapshotId(t, row.value.project, false)
    ensures Continues(t', s)
  {
    var p := t'.snapshots[s].project;
    GrownSettled(t, t', row, p);
    if s != t.nextId {
      assert Continues(t, s) && References(t, s);
      if !Overtaken(t', s) {
        assert t.nextId !in Settled(t', p);
        assert Settled(t', p) == Settled(t, p);
      }
    }
  }

  lemma GrownOneChain(t: Tables, t': Tables, row: Option<Snapshot>)
    requires OneChain(t) && Grown(t, t', row)
    requires row.Some? ==> row.value.project in t.projects && row.value.parent == LatestSnapshotId(t, row.value.project, false)
    ensures OneChain(t')
  {
    GrownKeepsConstraints(t, t', row);
    forall p ensures Chained(t', p) { GrownChains(t, t', row, p); }
    forall s | s in t'.snapshots ensures Continues(t', s) { GrownContinues(t, t', row, s); }
  }

  /**
   * A serial history, whatever fails in it: with or without sessions, failed
   * writes and failed uploads included, the parent chain from the newest
   * settled snapshot of a project visits every settled snapshot of it, each
   * once, newest first.
   */
  lemma {:induction false} SerialChainVisitsAll(h: Host, rs: seq<Request>)
    requires Constraints(h.site.tables) && h.site.tables.snapshots == map[]
    requires forall k | 0 <= k < |rs| :: rs[k].writer.projectId in h.site.tables.projects
    ensures OneChain(History(h, rs).site.tables) && History(h, rs).site.tables.projects == h.site.tables.projects
  {
    if rs != [] {
      var before := History(h, rs[..|rs| - 1]);
      SerialChainVisitsAll(h, rs[..|rs| - 1]);
      ServedGrows(before, rs[|rs| - 1]);
      GrownOneChain(before.site.tables, Served(before, rs[|rs| - 1]).site.tables, RowLeft(before.site.tables, rs[|rs| - 1]));
    }
  }

  // -------------------------------------------------------------- a late recovery

  /**
   * A recovery that commits a snapshot of a serial history keeps the chain
   * exactly when no newer snapshot of the project was settled meanwhile. If one
   * was, the recovered snapshot is on no path from the newest.
   */
  lemma LateCommitForks(t: Tables, s: nat)
    requires OneChain(t) && s in t.snapshots && t.snapshots[s].parquetFile == PENDING
    ensures var t' := Postgres(t, UpdateParquetFile(s, SnapshotFile(s))).0;
            var p := t.snapshots[s].project;
            && ParentsBelow(t')
            && (Chained(t', p) <==> !Overtaken(t, s))
            && (Overtaken(t, s) ==> s !in Ancestry(t', MaxId(Settled(t', p))))
  {
    var t', p := Postgres(t, UpdateParquetFile(s, SnapshotFile(s))).0, t.snapshots[s].project;
    CommittedSettles(t, s);
    assert Chained(t, p) && Continues(t, s);
    if Overtaken(t, s) {
      Missed(t, t', p, s);
    } else {
      forall c | c in Settled(t, p) ensures c < s { assert c != s; }
      LongerChain(t, t', p, s);
    }
  }

  lemma CommittedSettles(t: Tables, s: nat)
    requires OneChain(t) && s in t.snapshots && t.snapshots[s].parquetFile == PENDING
    ensures var t' := Postgres(t, UpdateParquetFile(s, SnapshotFile(s))).0;
            ParentsBelow(t') && Settled(t', t.snapshots[s].project) == Settled(t, t.snapshots[s].project) + {s}
  {
    SnapshotFileInjective(s, s);
  }

  lemma Missed(t: Tables, t': Tables, p: string, s: nat)
    requires ParentsBelow(t) && ParentsBelow(t') && Chained(t, p) && s in t.snapshots && s !in Settled(t, p)
    requires forall c | c in t.snapshots :: c in t'.snapshots && t'.snapshots[c].parent == t.snapshots[c].parent
    requires Settled(t', p) == Settled(t, p) + {s}
    requires t.snapshots[s].project == p && Overtaken(t, s)
    ensures !Chained(t', p) && s !in Ancestry(t', MaxId(Settled(t', p)))
  {
    var ids, ids' := Settled(t, p), Settled(t', p);
    MaxIdIs(ids', MaxId(ids));
    AncestryFrame(t, t', MaxId(ids));
    var a := NewestIds(ids, |ids|);
    assert s !in a;
    assert |ids'| == |ids| + 1 && |NewestIds(ids', |ids'|)| == |ids'|;
  }
}
