// The Quack client's statement runner: conflict retries, and the lock that
// keeps one statement in flight per store.
module Quack {
  import opened Wrappers
  import opened Binding

  /** What one execution does on the server. A conflict aborts without effect. */
  datatype Execution = Applied | Conflict | Failed(applied: bool)

  datatype Result = Returned | RaisedConflict | RaisedError | WrongCount | NeverTried

  /** A statement as the server runs it: its text, and the variables of its cursor. */
  datatype Statement = Statement(text: string, variables: map<string, string>)

  class QuackCatalogStore {
    const conflictRetries: int
    var locked: bool
    // The statements the server has applied.
    var log: seq<Statement>

    constructor (conflictRetries: int)
      ensures !locked && log == [] && this.conflictRetries == conflictRetries
    {
      this.conflictRetries, locked, log := conflictRetries, false, [];
    }

    /** On a fresh cursor: set a variable for each parameter, then execute. */
    method RunOnce(bound: string, params: seq<string>, e: Execution)
      requires locked
      modifies this`log
      ensures log == if e.Applied? || (e.Failed? && e.applied) then old(log) + [Statement(bound, Variables(params))] else old(log)
    {
      var variables: map<string, string> := map[];
      for i := 0 to |params|
        invariant variables == Variables(params[..i])
      {
        assert params[..i + 1][..i] == params[..i];
        variables := variables[Variable(i) := params[i]];
      }
      assert params[..|params|] == params;
      if e.Applied? || (e.Failed? && e.applied) {
        log := log + [Statement(bound, variables)];
      }
    }

    /**
     * _run. Attempts is the number of executions; each but the last conflicted.
     * The statement is applied once on return, not at all when a conflict or a
     * wrong parameter count is raised, and the lock is free on every exit.
     */
    method Run(sql: string, params: seq<string>, execution: nat -> Execution) returns (result: Result, ghost attempts: nat)
      requires !locked
      modifies this
      ensures !locked
      ensures Placeholders(sql) != |params| ==> result == WrongCount && attempts == 0 && log == old(log)
      ensures Placeholders(sql) == |params| && conflictRetries < 0 ==> result == NeverTried && attempts == 0 && log == old(log)
      ensures Placeholders(sql) == |params| && conflictRetries >= 0 ==>
                && 1 <= attempts <= conflictRetries + 1
                && (forall a | 0 <= a < attempts - 1 :: execution(a).Conflict?)
                && match execution(attempts - 1)
                   case Applied => result == Returned && log == old(log) + [Statement(Bound(sql), Variables(params))]
                   case Conflict => result == RaisedConflict && attempts == conflictRetries + 1 && log == old(log)
                   case Failed(applied) => result == RaisedError && log == old(log) + if applied then [Statement(Bound(sql), Variables(params))] else []
    {
      attempts := 0;
      var bound := BindAsVariables(sql, |params|);
      if bound.None? {
        return WrongCount, attempts;
      }
      var attempt := 0;
      while attempt < conflictRetries + 1
        invariant 0 <= attempt && if conflictRetries < 0 then attempt == 0 else attempt <= conflictRetries
        invariant attempts == attempt && !locked && log == old(log)
        invariant forall a | 0 <= a < attempt :: execution(a).Conflict?
        decreases conflictRetries + 1 - attempt
      {
        locked := true;
        attempts := attempts + 1;
        RunOnce(bound.value, params, execution(attempt));
        if execution(attempt).Applied? {
          locked := false;
          return Returned, attempts;
        }
        if !execution(attempt).Conflict? {
          locked := false;
          return RaisedError, attempts;
        }
        if attempt == conflictRetries {
          locked := false;
          return RaisedConflict, attempts;
        }
        locked := false;
        attempt := attempt + 1;
      }
      result := NeverTried;
    }
  }

  // ---------------------------------------------------------------- many threads

  /** Where a thread is in _run. Leaving: the statement is over, the lock still held. */
  datatype Thread =
    | Waiting(attempt: nat)
    | Holding(attempt: nat)
    | InFlight(attempt: nat)
    | Leaving(next: Thread)
    | Sleeping(attempt: nat)
    | Finished(result: Result, attempts: nat)

  // log: whose statement the server applied, in order.
  datatype Session = Session(lock: Option<nat>, threads: map<nat, Thread>, log: seq<nat>)

  datatype Label = Call(t: nat) | Acquire(t: nat) | Send(t: nat) | Finish(t: nat, e: Execution) | Release(t: nat) | Wake(t: nat)

  predicate Enabled(s: Session, l: Label) {
    if l.Call? then l.t !in s.threads else
      l.t in s.threads &&
      match l
      case Acquire(t) => s.threads[t].Waiting? && s.lock.None?
      case Send(t) => s.threads[t].Holding?
      case Finish(t, _) => s.threads[t].InFlight?
      case Release(t) => s.threads[t].Leaving?
      case Wake(t) => s.threads[t].Sleeping?
      case Call(_) => false
  }

  /** Where the exception handler sends a thread whose execution ended. */
  function AfterExecution(attempt: nat, e: Execution, retries: nat): Thread {
    match e
    case Applied => Finished(Returned, attempt + 1)
    case Failed(_) => Finished(RaisedError, attempt + 1)
    case Conflict => if attempt == retries then Finished(RaisedConflict, attempt + 1) else Sleeping(attempt)
  }

  function Step(s: Session, l: Label, retries: nat): Session
    requires Enabled(s, l)
  {
    match l
    case Call(t) => s.(threads := s.threads[t := Waiting(0)])
    case Acquire(t) => s.(lock := Some(t), threads := s.threads[t := Holding(s.threads[t].attempt)])
    case Send(t) => s.(threads := s.threads[t := InFlight(s.threads[t].attempt)])
    case Finish(t, e) =>
      s.(threads := s.threads[t := Leaving(AfterExecution(s.threads[t].attempt, e, retries))],
         log := s.log + if e.Applied? || (e.Failed? && e.applied) then [t] else [])
    case Release(t) => s.(lock := None, threads := s.threads[t := s.threads[t].next])
    case Wake(t) => s.(threads := s.threads[t := Waiting(s.threads[t].attempt + 1)])
  }

  ghost predicate Run(ss: seq<Session>, ls: seq<Label>, retries: nat) {
    && |ss| == |ls| + 1
    && ss[0] == Session(None, map[], [])
    && forall i | 0 <= i < |ls| :: Enabled(ss[i], ls[i]) && ss[i + 1] == Step(ss[i], ls[i], retries)
  }

  predicate HasLock(th: Thread) {
    th.Holding? || th.InFlight? || th.Leaving?
  }

  function Outcome(th: Thread): Option<Result> {
    match th
    case Leaving(next) => if next.Finished? then Some(next.result) else None
    case Finished(r, _) => Some(r)
    case _ => None
  }

  function Times(t: nat, log: seq<nat>): nat {
    multiset(log)[t]
  }

  /** Over within retries + 1 attempts; a conflict is raised only by the last of them. */
  predicate Ended(th: Thread, retries: nat) {
    th.Finished? && th.attempts <= retries + 1 && (th.result.RaisedConflict? ==> th.attempts == retries + 1)
  }

  ghost predicate ThreadOK(s: Session, t: nat, retries: nat)
    requires t in s.threads
  {
    var th := s.threads[t];
    && (HasLock(th) <==> s.lock == Some(t))
    && (th.Waiting? || th.Holding? || th.InFlight? ==> th.attempt <= retries)
    && (th.Sleeping? ==> th.attempt < retries)
    && (th.Leaving? ==> Ended(th.next, retries) || (th.next.Sleeping? && th.next.attempt < retries))
    && (th.Finished? ==> Ended(th, retries))
    && match Outcome(th)
       case Some(Returned) => Times(t, s.log) == 1
       case Some(RaisedError) => Times(t, s.log) <= 1
       case _ => Times(t, s.log) == 0
  }

  ghost predicate Sound(s: Session, retries: nat) {
    && (forall t {:trigger ThreadOK(s, t, retries)} | t in s.threads :: ThreadOK(s, t, retries))
    && (s.lock.Some? ==> s.lock.value in s.threads)
    && (forall t | t in s.log :: t in s.threads)
  }

  lemma StepKeeps(s: Session, l: Label, retries: nat)
    requires Sound(s, retries) && Enabled(s, l)
    ensures Sound(Step(s, l, retries), retries)
  {
    var s' := Step(s, l, retries);
    forall t | t in s'.threads ensures ThreadOK(s', t, retries) {
      if t in s.threads { assert ThreadOK(s, t, retries); }
      if l.t in s.threads { assert ThreadOK(s, l.t, retries); }
    }
  }

  lemma {:induction false} Reachable(ss: seq<Session>, ls: seq<Label>, retries: nat, i: nat)
    requires Run(ss, ls, retries) && i <= |ls|
    ensures Sound(ss[i], retries)
  {
    if i > 0 {
      Reachable(ss, ls, retries, i - 1);
      assert ss[i - 1 + 1] == Step(ss[i - 1], ls[i - 1], retries);
      StepKeeps(ss[i - 1], ls[i - 1], retries);
    }
  }

  /**
   * In every interleaving of any number of threads: at most one statement is in
   * flight; the lock is held by nobody else than the thread inside; a call that
   * returned was applied exactly once, one that raised a conflict or is still
   * trying not at all; no call makes more than retries + 1 attempts, and one
   * that raised a conflict made as many.
   */
  lemma ExactlyOnce(ss: seq<Session>, ls: seq<Label>, retries: nat, i: nat, t: nat, u: nat)
    requires Run(ss, ls, retries) && i <= |ls| && t in ss[i].threads && u in ss[i].threads
    ensures ss[i].threads[t].InFlight? && ss[i].threads[u].InFlight? ==> t == u
    ensures ss[i].threads[t].Finished? ==> ss[i].lock != Some(t)
    ensures ss[i].threads[t].Finished? && ss[i].threads[t].result.Returned? ==> Times(t, ss[i].log) == 1
    ensures ss[i].threads[t].Finished? && ss[i].threads[t].result.RaisedConflict? ==>
              Times(t, ss[i].log) == 0 && ss[i].threads[t].attempts == retries + 1
    ensures ss[i].threads[t].Finished? ==> ss[i].threads[t].attempts <= retries + 1
    ensures !ss[i].threads[t].Finished? && !ss[i].threads[t].Leaving? ==> Times(t, ss[i].log) == 0
    ensures ss[i].threads[t].InFlight? ==> ss[i].threads[t].attempt <= retries
  {
    Reachable(ss, ls, retries, i);
    assert ThreadOK(ss[i], t, retries) && ThreadOK(ss[i], u, retries);
  }
}
