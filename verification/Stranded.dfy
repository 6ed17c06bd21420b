// The gap between create_snapshot and insert_pending_push: a crash there leaves
// a pending row that is not queued, and nothing ever settles it.
module Stranded {
  import opened Wrappers
  import opened Avu
  import opened Names
  import opened CatalogTables
  import opened Protocol
  import opened Safety
  import opened ProtocolTheorems
  import opened Overlap

  /** No live writer or recoverer holds the row. */
  ghost predicate Unheld(w: World, s: nat) {
    && (forall k | k in w.writers && HasSid(w.writers[k]) :: w.writers[k].stage.sid != s)
    && (forall k | k in w.recoverers :: NotListed(w.recoverers[k], s))
  }

  /** Pending, not queued, and nobody is working on it. */
  ghost predicate IsStranded(w: World, s: nat) {
    var t := w.store.tables;
    && s in t.snapshots && s < t.nextId && t.snapshots[s].parquetFile == PENDING
    && s !in t.pending && Unheld(w, s)
  }

  ghost predicate NotListed(r: Recoverer, s: nat) {
    forall i | 0 <= i < |r.rows| :: r.rows[i].snapshotId != s
  }

  predicate Concerns(c: Call, s: nat) {
    match c
    case RegisterProject(_, _, _, _, _) => false
    case CreateSnapshot(_, _, _, _, _, _) => false
    case _ => c.sid == s
  }

  lemma CallSpares(t: Tables, c: Call, s: nat)
    requires s in t.snapshots && s < t.nextId && s !in t.pending && !Concerns(c, s)
    ensures var t' := Postgres(t, c).0;
            s in t'.snapshots && t'.snapshots[s] == t.snapshots[s] && s < t'.nextId && s !in t'.pending
  {
  }

  /** Nobody issues a call about the row. */
  lemma NobodyConcerned(env: Env, w: World, l: Label, s: nat)
    requires Enabled(env, w, l) && IsStranded(w, s) && LabelCall(w, l).Some?
    ensures !Concerns(LabelCall(w, l).value, s)
  {
    if l.Recovers? { assert NotListed(w.recoverers[l.id], s); }
  }

  /** Nobody takes it up: a new writer's id is a new one, and a recoverer lists queued rows. */
  lemma WritersSpare(env: Env, w: World, id: nat, a: WriterAct, s: nat)
    requires Enabled(env, w, Writes(id, a)) && IsStranded(w, s)
    ensures Unheld(Step(env, w, Writes(id, a)), s)
  {
    var x' := WriterStep(w.store, w.writers[id], a).1;
    assert x'.Some? && HasSid(x'.value) ==> x'.value.stage.sid != s;
  }

  lemma RecoverersSpare(env: Env, w: World, id: nat, a: RecovererAct, s: nat)
    requires Enabled(env, w, Recovers(id, a)) && IsStranded(w, s)
    ensures Unheld(Step(env, w, Recovers(id, a)), s)
  {
    assert NotListed(w.recoverers[id], s);
    var r' := RecovererStep(w.store, w.recoverers[id], a).1;
    assert r'.Some? ==> NotListed(r'.value, s);
  }

  lemma NobodyTakesUp(env: Env, w: World, l: Label, s: nat)
    requires Enabled(env, w, l) && IsStranded(w, s)
    ensures Unheld(Step(env, w, l), s)
  {
    match l
    case Writes(id, a) => WritersSpare(env, w, id, a, s);
    case Recovers(id, a) => RecoverersSpare(env, w, id, a, s);
    case StartRecovery(_, _, _, limit) =>
      assert NotListed(Recoverer(l.host, l.maxAttempts, ListPending(w.store.tables, limit), Next), s);
    case _ =>
  }

  lemma StepStrands(env: Env, w: World, l: Label, s: nat)
    requires Enabled(env, w, l) && IsStranded(w, s)
    ensures IsStranded(Step(env, w, l), s)
    ensures Step(env, w, l).store.tables.snapshots[s] == w.store.tables.snapshots[s]
  {
    NobodyTakesUp(env, w, l, s);
    StepTables(env, w, l);
    if LabelCall(w, l).Some? {
      NobodyConcerned(env, w, l, s);
      CallSpares(w.store.tables, LabelCall(w, l).value, s);
    }
  }

  /** No writer, recoverer or reader ever settles, queues or removes a stranded row. */
  lemma {:induction false} StrandedForever(env: Env, ws: seq<World>, ls: seq<Label>, i: nat, j: nat, s: nat)
    requires Run(env, ws, ls) && i <= j <= |ls| && IsStranded(ws[i], s)
    ensures IsStranded(ws[j], s) && ws[j].store.tables.snapshots[s] == ws[i].store.tables.snapshots[s]
    decreases j
  {
    if i < j {
      StrandedForever(env, ws, ls, i, j - 1, s);
      RunStep(env, ws, ls, j - 1);
      StepStrands(env, ws[j - 1], ls[j - 1], s);
    }
  }

  /** It happens in every environment: a crash right after create_snapshot. */
  lemma CrashStrands(env: Env) returns (ws: seq<World>, ls: seq<Label>)
    ensures Run(env, ws, ls) && Init(ws[0]) && IsStranded(ws[|ls|], 1)
    ensures ws[|ls|].store.tables.snapshots[1].parquetFile == "pending"
  {
    ws, ls := UntilCreated(env);
    ws, ls := Extend(env, ws, ls, Writes(0, Crash));
  }
}
