/** The wait of a synchronous request: it ends when the row is finished or in error. A row that a stale
    cancel has set to canceled may never be, and the condition is exact. */
module SyncWaits {
  import opened Options
  import opened Jobs
  import opened Protocol
  import opened Obligations
  import opened StartOnce
  import opened Handlers

  predicate Lists(rows: seq<Job>, j: JobId) {
    exists i | 0 <= i < |rows| :: rows[i].id == j
  }

  /** A handler that can still write a final row for `j`: one that owes it something, one that may start it,
      a reconciler that has yet to visit or write it. */
  predicate Carrying(s: State, a: Act, j: JobId) {
    match a
    case StartRead(job) => job.id == j && j !in s.dirs
    case ReconcileLoop(rest) => Lists(rest, j)
    case ReconcileDecided(row, rest) => row.id == j || Lists(rest, j)
    case _ => Owes(a, j)
  }

  ghost predicate Carried(s: State, j: JobId) {
    exists p :: p in s.acts && Carrying(s, s.acts[p], j)
  }

  /** The loop of process_sync_job is over. */
  predicate Over(s: State, j: JobId) {
    j in s.db && (s.db[j].status == Finished || s.db[j].status == Error)
  }

  /** Nobody starts the job anew. */
  predicate NoStart(run: seq<Step>, j: JobId) {
    forall i | 0 <= i < |run| :: !(run[i].StartJob? && run[i].j == j)
  }

  // Nothing carries the job: its row stays canceled.

  ghost predicate Dormant(s: State, j: JobId) {
    Inv(s) && j in s.ids && (j in s.db ==> s.db[j].status == Canceled && !Carried(s, j))
  }

  lemma TailLists(rows: seq<Job>, j: JobId)
    requires rows != []
    ensures Lists(rows, j) <==> rows[0].id == j || Lists(rows[1..], j)
  {
    assert forall i | 0 <= i < |rows| - 1 :: rows[1..][i] == rows[i + 1];
    if Lists(rows, j) && rows[0].id != j {
      var i :| 0 <= i < |rows| && rows[i].id == j;
      assert rows[1..][i - 1].id == j;
    }
  }

  /** A step of a handler that does not carry `j` writes nothing but a canceled row for it, and does not
      come to carry it. */
  lemma StepOfDormant(c: Config, s: State, a: Act, reply: Reply, j: JobId)
    requires Consistent(a) && !Carrying(s, a, j) && StepOf(c, s, a, reply).Some?
    ensures var e := StepOf(c, s, a, reply).value;
      && (e.row.Some? && e.row.value.id == j ==> e.row.value.status == Canceled)
      && (e.next.Some? ==> !Carrying(s, e.next.value, j) && !e.next.value.StartRead?)
  {
    if a.ReconcileLoop? && a.rest != [] { TailLists(a.rest, j); }
  }

  lemma MoveIsDormant(c: Config, s: State, p: Pid, reply: Reply, j: JobId)
    requires Dormant(s, j) && j in s.db && Next(c, s, Advance(p, reply)).Some?
    ensures var t := Next(c, s, Advance(p, reply)).value;
      j in t.db && t.db[j].status == Canceled && (p in t.acts ==> !Carrying(t, t.acts[p], j))
  {
    assert ActOk(s, s.acts[p]) && !Carrying(s, s.acts[p], j);
    StepOfDormant(c, s, s.acts[p], reply, j);
  }

  lemma NewIsDormant(c: Config, s: State, step: Step, p: Pid, j: JobId)
    requires Dormant(s, j) && j in s.db && !step.Advance? && Next(c, s, step).Some? && NoStart([step], j)
    requires p in Next(c, s, step).value.acts && p !in s.acts
    ensures !Carrying(Next(c, s, step).value, Next(c, s, step).value.acts[p], j)
  {
    assert [step][0] == step;
    if step.StartJob? { assert RowOk(s, step.j); }
  }

  lemma StepIsDormant(c: Config, s: State, step: Step, j: JobId)
    requires Dormant(s, j) && Next(c, s, step).Some? && NoStart([step], j)
    ensures Dormant(Next(c, s, step).value, j)
  {
    var t := Next(c, s, step).value;
    StepKeepsInv(c, s, step);
    if j !in s.db {
      StepKeepsDeleted(c, s, step, j);
    } else if j in t.db {
      forall p | p in t.acts ensures !Carrying(t, t.acts[p], j) {
        if step.Advance? && step.p == p {
          MoveIsDormant(c, s, p, step.reply, j);
        } else if p in s.acts {
          assert !Carrying(s, s.acts[p], j);
          OtherIsDormant(c, s, step, p, j);
        } else {
          NewIsDormant(c, s, step, p, j);
        }
      }
      if step.Advance? { MoveIsDormant(c, s, step.p, step.reply, j); }
    }
  }

  lemma OtherIsDormant(c: Config, s: State, step: Step, p: Pid, j: JobId)
    requires Next(c, s, step).Some? && p in s.acts && !(step.Advance? && step.p == p) && j in Next(c, s, step).value.db
    requires !Carrying(s, s.acts[p], j) && j in s.ids
    ensures p in Next(c, s, step).value.acts && !Carrying(Next(c, s, step).value, s.acts[p], j)
    ensures Next(c, s, step).value.acts[p] == s.acts[p]
  {
  }

  lemma {:induction false} RunIsDormant(c: Config, s: State, run: seq<Step>, j: JobId)
    requires Dormant(s, j) && Exec(c, s, run).Some? && NoStart(run, j)
    ensures Dormant(Exec(c, s, run).value, j)
    decreases |run|
  {
    if run != [] {
      assert forall i | 0 <= i < |run| - 1 :: run[1..][i] == run[i + 1];
      StepIsDormant(c, s, run[0], j);
      RunIsDormant(c, Next(c, s, run[0]).value, run[1..], j);
    }
  }

  // Something carries it: its row can still end.

  /** Program steps to a final row when submissions and lookups raise. */
  function ToEnd(a: Act): nat {
    match a
    case StartRead(_) => 20
    case QueueDeferred(_) => 19
    case StartMade(_) => 18
    case QueueTask(_) => 18
    case QueueRun(_) => 17
    case QueueAdmitted(_) => 16
    case SyncCreated(_) => 16
    case SubmitTask(_) => 15
    case SubmitRun(_) => 14
    case SubmitFailed(_) => 13
    case SubmitCreated(_, _) => 12
    case SubmitSaved(_, _) => 11
    case PollAgain(_, _) => 11
    case PollTask(_, _) => 10
    case PollRead(_, _, _) => 9
    case ReconcileLoop(rest) => 2 * |rest|
    case ReconcileDecided(_, rest) => 2 * |rest| + 1
    case _ => 8
  }

  /** The reply that leads there soonest. */
  function EndingReply(a: Act): Reply {
    if a.SubmitRun? || a.PollRead? || a.ReconcileLoop? then Raises else Normal
  }

  predicate Reconciles(a: Act) {
    a.ReconcileLoop? || a.ReconcileDecided?
  }

  /** A step that leads on: it writes a final row for `j`, or what it comes to is nearer to that. */
  predicate LeadsOn(s: State, a: Act, e: Effect, j: JobId) {
    && e.created == None && (e.next.Some? && e.row.Some? && Ended(e.row.value) ==> Reconciles(a))
    && (e.next.Some? && Reconciles(e.next.value) ==> Reconciles(a))
    && ((e.row.Some? && e.row.value.id == j && Ended(e.row.value))
        || (e.next.Some? && Carrying(s, e.next.value, j) && !e.next.value.StartRead? && ToEnd(e.next.value) < ToEnd(a)))
  }

  lemma WatchLeadsOn(c: Config, s: State, a: Act, j: JobId)
    requires Consistent(a) && Carrying(s, a, j) && (a.ReconcileLoop? || a.ReconcileDecided? || a.PollRead?)
    ensures StepOf(c, s, a, EndingReply(a)).Some? && LeadsOn(s, a, StepOf(c, s, a, EndingReply(a)).value, j)
  {
    if a.ReconcileLoop? { TailLists(a.rest, j); }
  }

  lemma StepLeadsOn(c: Config, s: State, a: Act, j: JobId)
    requires Consistent(a) && Carrying(s, a, j) && j in s.db && Admits(c, s.argo)
    ensures StepOf(c, s, a, EndingReply(a)).Some? && LeadsOn(s, a, StepOf(c, s, a, EndingReply(a)).value, j)
  {
    if a.ReconcileLoop? || a.ReconcileDecided? || a.PollRead? { WatchLeadsOn(c, s, a, j); }
  }

  lemma EndStep(c: Config, s: State, p: Pid, j: JobId)
    requires Inv(s) && j in s.db && p in s.acts && Carrying(s, s.acts[p], j) && Admits(c, s.argo)
    ensures Next(c, s, Advance(p, EndingReply(s.acts[p]))).Some?
    ensures var t := Next(c, s, Advance(p, EndingReply(s.acts[p]))).value;
      && t.argo == s.argo && j in t.db && (forall q | q != p :: (q in t.acts <==> q in s.acts) && (q in s.acts ==> t.acts[q] == s.acts[q]))
      && (p in t.acts && Reconciles(t.acts[p]) ==> Reconciles(s.acts[p]))
      && ((Over(t, j) && (p in t.acts ==> Reconciles(s.acts[p]))) || (p in t.acts && Carrying(t, t.acts[p], j) && ToEnd(t.acts[p]) < ToEnd(s.acts[p])))
  {
    assert ActOk(s, s.acts[p]);
    StepLeadsOn(c, s, s.acts[p], j);
  }

  lemma {:induction false} DriveToEnd(c: Config, s: State, p: Pid, j: JobId) returns (run: seq<Step>, t: State)
    requires Inv(s) && j in s.db && p in s.acts && Carrying(s, s.acts[p], j) && Admits(c, s.argo)
    ensures Exec(c, s, run) == Some(t) && NoStart(run, j) && Over(t, j)
    ensures forall q | q != p :: (q in t.acts <==> q in s.acts) && (q in s.acts ==> t.acts[q] == s.acts[q])
    ensures p in t.acts ==> Reconciles(s.acts[p])
    decreases ToEnd(s.acts[p])
  {
    var step := Advance(p, EndingReply(s.acts[p]));
    EndStep(c, s, p, j);
    var u := Next(c, s, step).value;
    if Over(u, j) && (p in u.acts ==> Reconciles(s.acts[p])) {
      run, t := [step], u;
      assert run[1..] == [];
    } else {
      StepKeepsInv(c, s, step);
      var rest, end := DriveToEnd(c, u, p, j);
      run, t := [step] + rest, end;
      assert run[1..] == rest;
    }
  }

  /** A canceled row can still end, without a new start request, exactly when some handler carries it. So a
      synchronous request whose row is canceled with nothing carrying it waits for ever. */
  lemma CanceledEndsIff(c: Config, before: seq<Step>, j: JobId)
    requires Exec(c, INIT, before).Some?
    requires var s := Exec(c, INIT, before).value; j in s.db && s.db[j].status == Canceled
    ensures var s := Exec(c, INIT, before).value;
      (exists after :: Exec(c, s, after).Some? && NoStart(after, j) && Over(Exec(c, s, after).value, j)) <==> Carried(s, j)
  {
    RunKeepsInv(c, INIT, before);
    var s := Exec(c, INIT, before).value;
    if Carried(s, j) {
      var p :| p in s.acts && Carrying(s, s.acts[p], j);
      var drain, t := Drain(c, s);
      RunKeepsInv(c, s, drain);
      var rest, end := DriveToEnd(c, t, p, j);
      ExecConcat(c, s, drain, rest);
      assert NoStart(drain + rest, j);
    } else {
      assert RowOk(s, j) && Truthful(s, s.db[j]);
      forall after | Exec(c, s, after).Some? && NoStart(after, j) ensures !Over(Exec(c, s, after).value, j) {
        RunIsDormant(c, s, after, j);
      }
    }
  }

  /** A synchronous request and a cancel that has read its row. */
  lemma CancelPending(c: Config, job: Job) returns (run: seq<Step>, t: State)
    requires job == Job(0, true, Queued, None, NoMessage)
    ensures Exec(c, INIT, run) == Some(t) && 0 in t.db && t.argo == map[]
    ensures forall p :: p in t.acts <==> p == 0 || p == 1
    ensures t.acts[0] == SyncCreated(job) && t.acts[1] == CancelStopped(job.(status := Canceled))
  {
    var s1 := Next(c, INIT, SyncJob(0, 0)).value;
    var s2 := Next(c, s1, CancelJob(1, 0)).value;
    t := Next(c, s2, Advance(1, Normal)).value;
    ExecThree(c, INIT, SyncJob(0, 0), s1, CancelJob(1, 0), s2, Advance(1, Normal), t);
    run := [SyncJob(0, 0), CancelJob(1, 0), Advance(1, Normal)];
  }

  lemma CancelLands(c: Config, s: State, row: Job) returns (t: State)
    requires (forall p :: p in s.acts <==> p == 1) && s.acts[1] == CancelStopped(row) && row.id in s.db
    ensures Exec(c, s, [Advance(1, Normal)]) == Some(t) && row.id in t.db && t.db[row.id] == row && forall p :: p !in t.acts
  {
    t := Next(c, s, Advance(1, Normal)).value;
    ExecStep(c, s, Advance(1, Normal), t, []);
  }

  /** That does occur: a cancel reads the row of a synchronous job, the submission raises and the row is in
      error, and then the cancel writes. */
  lemma RequestCanWaitForEver(c: Config) returns (run: seq<Step>, t: State)
    requires Admits(c, map[])
    ensures Exec(c, INIT, run) == Some(t) && 0 in t.db && t.db[0].sync && t.db[0].status == Canceled && !Carried(t, 0)
  {
    var job := Job(0, true, Queued, None, NoMessage);
    var open, s := CancelPending(c, job);
    RunKeepsInv(c, INIT, open);
    var fail, u := DriveToEnd(c, s, 0, 0);
    t := CancelLands(c, u, job.(status := Canceled));
    ExecConcat(c, s, fail, [Advance(1, Normal)]);
    ExecConcat(c, INIT, open, fail + [Advance(1, Normal)]);
    run := open + (fail + [Advance(1, Normal)]);
  }
}
