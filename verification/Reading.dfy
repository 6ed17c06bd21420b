// The read path as the client runs it: filling a cache is a sequence of the
// protocol's pulls, so the protocol's theorems are about the client's answers.
module Reading {
  import opened Wrappers
  import opened Avu
  import opened Names
  import opened Storage
  import opened Effective
  import opened CatalogTables
  import opened Protocol
  import opened Invariant
  import opened Safety
  import opened Lake
  import opened ProtocolTheorems
  import opened EndToEnd
  import Client
  import Restart
  import Sync

  /** A name a reader of the project may pull. */
  ghost predicate PullableAs(st: Store, project: string, name: string, s: nat) {
    && name == SnapshotFile(s)
    && s in st.named && s in st.entries && st.entries[s].projectId == project
    && project in st.tables.projects
    && TargetOf(st.tables.projects[project], s) in st.objects
    && s in Listed(st.tables, project)
  }

  ghost predicate Pullable(st: Store, project: string, name: string) {
    exists s :: PullableAs(st, project, name, s)
  }

  /** A pull leaves everything but the caches alone. */
  lemma PullStep(env: Env, ws: seq<World>, ls: seq<Label>, host: nat, root: string, project: string, name: string)
    returns (ws': seq<World>, ls': seq<Label>, s: nat)
    requires Run(env, ws, ls) && Pullable(ws[|ls|].store, project, name)
    ensures Run(env, ws', ls') && PullableAs(ws[|ls|].store, project, name, s)
    ensures ls' == ls + [Pull(host, root, project, s)] && |ws'| == |ws| + 1 && ws'[..|ws|] == ws
    ensures var st := ws[|ls|].store;
            var target := Target(st.tables.projects[project].ducklakePath, name);
            ws'[|ls'|] == ws[|ls|].(store := st.(caches := st.caches[Key(host, root + "/" + project + "/" + name) := st.objects[target]]))
  {
    s :| PullableAs(ws[|ls|].store, project, name, s);
    ws', ls' := Extend(env, ws, ls, Pull(host, root, project, s));
  }

  /** The labels from |before| on pull the given names, in order. */
  ghost predicate Pulls(before: nat, ls: seq<Label>, host: nat, root: string, project: string, t: Tables, names: seq<string>) {
    |ls| == before + |names| && forall k | 0 <= k < |names| :: IsPull(ls[before + k], host, root, project, t, names[k])
  }

  ghost predicate IsPull(l: Label, host: nat, root: string, project: string, t: Tables, name: string) {
    l.Pull? && l == Pull(host, root, project, l.sid) && SnapshotFile(l.sid) == name && l.sid in Listed(t, project)
  }

  lemma PullableStill(st: Store, caches: map<Key, Blob>, project: string, name: string)
    requires Pullable(st, project, name)
    ensures Pullable(st.(caches := caches), project, name)
  {
    var s :| PullableAs(st, project, name, s);
    assert PullableAs(st.(caches := caches), project, name, s);
  }

  /** Fetching names one after another is a piece of the protocol's run. */
  lemma {:induction false} FetchIsPulls(env: Env, ws: seq<World>, ls: seq<Label>, host: nat, root: string, project: string,
                                        names: seq<string>) returns (ws': seq<World>, ls': seq<Label>)
    requires Run(env, ws, ls) && project in ws[|ls|].store.tables.projects
    requires forall n | n in names :: Pullable(ws[|ls|].store, project, n)
    ensures Run(env, ws', ls') && |ws| <= |ws'| && ws'[..|ws|] == ws && |ls| <= |ls'| && ls'[..|ls|] == ls
    ensures Pulls(|ls|, ls', host, root, project, ws[|ls|].store.tables, names)
    ensures ws'[|ls'|] == ws[|ls|].(store := ws[|ls|].store.(caches := ws'[|ls'|].store.caches))
    ensures Restart.FilesOn(ws'[|ls'|].store.caches, host) ==
            Sync.Fetched(Restart.FilesOn(ws[|ls|].store.caches, host), root + "/" + project,
                         ws[|ls|].store.tables.projects[project].ducklakePath, names, ws[|ls|].store.objects)
    decreases |names|
  {
    if names == [] {
      ws', ls' := ws, ls;
    } else {
      var n := |names| - 1;
      assert names == names[..n] + [names[n]];
      var ws1, ls1 := FetchIsPulls(env, ws, ls, host, root, project, names[..n]);
      PullableStill(ws[|ls|].store, ws1[|ls1|].store.caches, project, names[n]);
      ws', ls' := OneMore(env, ws, ls, ws1, ls1, host, root, project, names);
    }
  }

  lemma OneMore(env: Env, ws: seq<World>, ls: seq<Label>, ws1: seq<World>, ls1: seq<Label>, host: nat, root: string,
                project: string, names: seq<string>) returns (ws': seq<World>, ls': seq<Label>)
    requires names != [] && Run(env, ws, ls) && Run(env, ws1, ls1)
    requires |ws| <= |ws1| && ws1[..|ws|] == ws && |ls| <= |ls1| && ls1[..|ls|] == ls
    requires var st := ws[|ls|].store;
             var front, name := names[..|names| - 1], names[|names| - 1];
             && project in st.tables.projects
             && Pulls(|ls|, ls1, host, root, project, st.tables, front)
             && ws1[|ls1|] == ws[|ls|].(store := st.(caches := ws1[|ls1|].store.caches))
             && Restart.FilesOn(ws1[|ls1|].store.caches, host) ==
                  Sync.Fetched(Restart.FilesOn(st.caches, host), root + "/" + project, st.tables.projects[project].ducklakePath, front, st.objects)
             && Pullable(ws1[|ls1|].store, project, name)
    ensures Run(env, ws', ls') && |ws| <= |ws'| && ws'[..|ws|] == ws && |ls| <= |ls'| && ls'[..|ls|] == ls
    ensures Pulls(|ls|, ls', host, root, project, ws[|ls|].store.tables, names)
    ensures ws'[|ls'|] == ws[|ls|].(store := ws[|ls|].store.(caches := ws'[|ls'|].store.caches))
    ensures Restart.FilesOn(ws'[|ls'|].store.caches, host) ==
            Sync.Fetched(Restart.FilesOn(ws[|ls|].store.caches, host), root + "/" + project,
                         ws[|ls|].store.tables.projects[project].ducklakePath, names, ws[|ls|].store.objects)
  {
    var name := names[|names| - 1];
    var s;
    ws', ls', s := PullStep(env, ws1, ls1, host, root, project, name);
    var st := ws1[|ls1|].store;
    Restart.FilesOnPut(st.caches, host, root + "/" + project + "/" + name,
                       st.objects[Target(st.tables.projects[project].ducklakePath, name)]);
    assert ws'[..|ws|] == ws'[..|ws1|][..|ws|];
    PullsMore(|ls|, ls1, host, root, project, ws[|ls|].store.tables, names, s);
  }

  lemma PullsMore(before: nat, ls: seq<Label>, host: nat, root: string, project: string, t: Tables, names: seq<string>, s: nat)
    requires names != [] && Pulls(before, ls, host, root, project, t, names[..|names| - 1])
    requires SnapshotFile(s) == names[|names| - 1] && s in Listed(t, project)
    ensures Pulls(before, ls + [Pull(host, root, project, s)], host, root, project, t, names)
  {
    var more, n := ls + [Pull(host, root, project, s)], |names| - 1;
    forall k | 0 <= k < |names| ensures IsPull(more[before + k], host, root, project, t, names[k]) {
      if k < n {
        assert more[before + k] == ls[before + k] && names[..n][k] == names[k];
        assert IsPull(ls[before + k], host, root, project, t, names[..n][k]);
      } else {
        assert more[before + k] == Pull(host, root, project, s);
      }
    }
  }

  lemma PulledSomewhere(before: nat, ls: seq<Label>, host: nat, root: string, project: string, t: Tables, names: seq<string>, s: nat)
    requires Pulls(before, ls, host, root, project, t, names) && SnapshotFile(s) in names
    ensures exists k :: before <= k < |ls| && ls[k] == Pull(host, root, project, s)
  {
    var n :| 0 <= n < |names| && names[n] == SnapshotFile(s);
    assert IsPull(ls[before + n], host, root, project, t, names[n]);
    SnapshotFileInjective(ls[before + n].sid, s);
    assert ls[before + n] == Pull(host, root, project, s);
  }

  lemma PullsAreReading(ws: seq<World>, ls: seq<Label>, before: nat, host: nat, root: string, project: string, t: Tables,
                        names: seq<string>)
    requires |ws| > |ls| && Pulls(before, ls, host, root, project, t, names)
    ensures forall k | before <= k < |ls| :: ReaderStep(ws[k], ls[k], host, root, project, Listed(t, project))
  {
    forall k | before <= k < |ls| ensures ReaderStep(ws[k], ls[k], host, root, project, Listed(t, project)) {
      assert IsPull(ls[before + (k - before)], host, root, project, t, names[k - before]);
    }
  }

  lemma PullsAreAll(before: nat, ls: seq<Label>, host: nat, root: string, project: string, t: Tables, names: seq<string>)
    requires Pulls(before, ls, host, root, project, t, names)
    requires forall s | s in Listed(t, project) :: SnapshotFile(s) in names
    ensures AllPulled(ls, before, |ls|, host, root, project, Listed(t, project))
  {
    forall s | s in Listed(t, project) ensures exists k :: before <= k < |ls| && ls[k] == Pull(host, root, project, s) {
      PulledSomewhere(before, ls, host, root, project, t, names, s);
    }
  }

  /** What a completed fill pulls may be pulled. */
  lemma PulledArePullable(env: Env, st: Store, host: nat, project: string, files: map<string, Blob>,
                          files': map<string, Blob>, lakeRoot: string, pulled: seq<string>, name: string)
    requires StoreOK(env, st) && project in st.tables.projects && name in pulled
    requires Sync.Filled(files, files', lakeRoot, st.tables.projects[project].ducklakePath,
                         Client.Expected(st.tables, project), pulled, st.objects)
    ensures Pullable(st, project, name)
  {
    Sync.MissingMeans(Client.Expected(st.tables, project), lakeRoot, files.Keys, name);
    var s := NameOfRow(env, st, project, name);
    var k :| 0 <= k < |pulled| && pulled[k] == name;
    assert PullableAs(st, project, name, s);
  }

  /**
   * EnsureCached refines the protocol: a completed fill of a host's cache is a
   * run of pulls of listed snapshots, which leaves the host with the same files.
   */
  lemma FillIsPulls(env: Env, ws: seq<World>, ls: seq<Label>, host: nat, root: string, project: string,
                    files: map<string, Blob>, pulled: seq<string>) returns (ws': seq<World>, ls': seq<Label>)
    requires Run(env, ws, ls) && Init(ws[0])
    requires ReadySince(ws[|ls|], host, root + "/" + project, project, files, pulled)
    ensures Run(env, ws', ls') && |ws| <= |ws'| && ws'[..|ws|] == ws && |ls| <= |ls'| && ls'[..|ls|] == ls
    ensures Pulls(|ls|, ls', host, root, project, ws[|ls|].store.tables, pulled)
    ensures Restart.FilesOn(ws'[|ls'|].store.caches, host) == files
    ensures ws'[|ls'|] == ws[|ls|].(store := ws[|ls|].store.(caches := ws'[|ls'|].store.caches))
  {
    Reachable(env, ws, ls, |ls|);
    var st := ws[|ls|].store;
    forall n | n in pulled ensures Pullable(st, project, n) {
      PulledArePullable(env, st, host, project, Restart.FilesOn(st.caches, host), files, root + "/" + project, pulled, n);
    }
    ws', ls' := FetchIsPulls(env, ws, ls, host, root, project, pulled);
  }

  /** A fill of an empty cache pulls every listed snapshot. */
  lemma FreshFillPullsAll(st: Store, host: nat, root: string, project: string, files: map<string, Blob>, pulled: seq<string>, s: nat)
    requires Fresh(st, host) && s in Listed(st.tables, project)
    requires project in st.tables.projects
    requires Sync.Filled(Restart.FilesOn(st.caches, host), files, root + "/" + project,
                         st.tables.projects[project].ducklakePath, Client.Expected(st.tables, project), pulled, st.objects)
    ensures SnapshotFile(s) in pulled
  {
    ListedIsExpected(st.tables, project, s);
    Sync.MissingMeans(Client.Expected(st.tables, project), root + "/" + project,
                      Restart.FilesOn(st.caches, host).Keys, SnapshotFile(s));
  }

  /**
   * The answer of get_avus_as_of. On a host with an empty cache, after a fill
   * that completed, what the client's window query returns binds exactly the
   * triples that replaying the batches committed by then, up to T, binds.
   */
  lemma AnswerIsCommittedReplay(env: Env, ws: seq<World>, ls: seq<Label>, host: nat, root: string, project: string,
                                files: map<string, Blob>, pulled: seq<string>, path: string, ts: int,
                                view: seq<Change>, l: seq<Change>, log: seq<Change>, m: seq<Change>)
    requires Dependable(env) && Run(env, ws, ls) && Init(ws[0]) && Fresh(ws[|ls|].store, host)
    requires |SnapshotIds(ws[|ls|].store.tables, project, false)| <= 1000
    requires ReadySince(ws[|ls|], host, root + "/" + project, project, files, pulled)
    requires multiset(view) == View(files, root + "/" + project)
    requires Newest(l, multiset(Keep(AsOf(project, path, ts), view)))
    requires multiset(log) == Batches(ws[|ls|].store, EndToEnd.Committed(ws[|ls|].store.tables, project))
    requires Avu.Oldest(m, multiset(Keep(AsOf(project, path, ts), log))) && TiesAgree(multiset(m))
    ensures Bound(Window(l)) == Replay(m).Keys
    ensures forall c | c in Window(l) :: c in m && c.op.Add? && Latest(multiset(m), c)
  {
    var i := |ls|;
    var ws', ls' := FillIsPulls(env, ws, ls, host, root, project, files, pulled);
    assert ws'[i] == ws'[..|ws|][i] && ws'[0] == ws'[..|ws|][0];
    PullsAreReading(ws', ls', i, host, root, project, ws[i].store.tables, pulled);
    forall s | s in Listed(ws[i].store.tables, project) ensures SnapshotFile(s) in pulled {
      FreshFillPullsAll(ws[i].store, host, root, project, files, pulled, s);
    }
    PullsAreAll(i, ls', host, root, project, ws[i].store.tables, pulled);
    EffectiveIsCommittedReplay(env, ws', ls', i, |ls'|, host, root, project, path, ts, view, l, log, m);
  }
}
