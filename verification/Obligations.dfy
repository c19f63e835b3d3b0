/** What every step keeps, over every run: no job is lost, and what a row says about its
    workflow is true. No restriction on the run: cancels, deletions, synchronous jobs,
    failed lookups and stale writes are all allowed. */
module Obligations {
  import opened Options
  import opened Jobs
  import opened Protocol

  /** A task or handler that still owes job `j` its submission. */
  predicate PreSubmit(a: Act, j: JobId) {
    match a
    case QueueTask(job) => job.id == j
    case QueueRun(job) => job.id == j
    case QueueAdmitted(job) => job.id == j
    case QueueDeferred(job) => job.id == j
    case SyncCreated(job) => job.id == j
    case SubmitTask(job) => job.id == j
    case SubmitRun(job) => job.id == j
    case SubmitCreated(job, _) => job.id == j
    case SubmitFailed(job) => job.id == j
    case _ => false
  }

  /** A task or handler that still owes job `j` its final status. */
  predicate PostSubmit(a: Act, j: JobId) {
    match a
    case SubmitSaved(job, _) => job.id == j
    case PollTask(job, _) => job.id == j
    case PollRead(job, _, _) => job.id == j
    case PollDecided(row) => row.id == j
    case PollAgain(job, _) => job.id == j
    case _ => false
  }

  /** A started handler or task that has still to write the row `j` will run under. */
  predicate Ahead(a: Act, j: JobId) {
    (a.StartMade? && a.job.id == j) || PreSubmit(a, j)
  }

  /** A start request for `j` that has read the row but not yet made the workspace. */
  predicate Starting(a: Act, j: JobId) {
    a.StartRead? && a.job.id == j
  }

  /** An outstanding obligation towards `j`: a started handler, a task, or a poll. */
  predicate Owes(a: Act, j: JobId) {
    Ahead(a, j) || PostSubmit(a, j)
  }

  /** The workflow an act has in hand, with the job it is for. */
  function Holds(a: Act): Option<(JobId, WfName)> {
    match a
    case SubmitCreated(job, w) => Some((job.id, w))
    case SubmitSaved(job, w) => Some((job.id, w))
    case PollTask(job, w) => Some((job.id, w))
    case PollRead(job, w, _) => Some((job.id, w))
    case PollAgain(job, w) => Some((job.id, w))
    case _ => None
  }

  predicate Owns(s: State, j: JobId, w: WfName) {
    w in s.argo && s.argo[w].owner == j
  }

  ghost predicate Delivered(s: State, j: JobId) {
    exists w :: Owns(s, j, w) && s.argo[w].succeeded
  }

  /** A row, current or stale, tells the truth about its workflow. */
  ghost predicate Truthful(s: State, row: Job) {
    && row.id in s.ids && row.sync == s.ids[row.id]
    && (row.workflow.Some? ==> Owns(s, row.id, row.workflow.value))
    && (row.status == Running ==> row.workflow.Some?)
    && row.message != NoWorkflow
    && (row.status == Finished ==> Delivered(s, row.id))
  }

  ghost predicate AllTruthful(s: State, rows: seq<Job>) {
    forall i | 0 <= i < |rows| :: Truthful(s, rows[i])
  }

  /** Every row an act carries is truthful. */
  ghost predicate Carries(s: State, a: Act) {
    match a
    case PollRead(job, _, row) => Truthful(s, job) && Truthful(s, row)
    case PollDecided(row) => Truthful(s, row)
    case CancelStopped(row) => Truthful(s, row)
    case ReconcileLoop(rest) => AllTruthful(s, rest)
    case ReconcileDecided(row, rest) => Truthful(s, row) && AllTruthful(s, rest)
    case _ => Truthful(s, a.job)
  }

  predicate AllRunning(rows: seq<Job>) {
    forall i | 0 <= i < |rows| :: rows[i].status == Running
  }

  predicate Ended(row: Job) {
    row.status == Finished || row.status == Error
  }

  /** The row a handler holds has the status its program point implies. */
  predicate Consistent(a: Act) {
    match a
    case PollRead(job, _, row) => row.id == job.id
    case PollDecided(row) => Ended(row)
    case CancelStopped(row) => row.status == Canceled
    case ReconcileLoop(rest) => AllRunning(rest)
    case ReconcileDecided(row, rest) => Ended(row) && AllRunning(rest)
    case _ => true
  }

  ghost predicate ActOk(s: State, a: Act) {
    && Consistent(a)
    && Carries(s, a)
    && (Holds(a).Some? ==> Owns(s, Holds(a).value.0, Holds(a).value.1))
  }

  ghost predicate RowOk(s: State, j: JobId) {
    && j in s.db && s.db[j].id == j && Truthful(s, s.db[j])
    && (s.db[j].status == Queued ==> exists p :: p in s.acts && PreSubmit(s.acts[p], j))
    && (s.db[j].status == Running ==> exists p :: p in s.acts && PostSubmit(s.acts[p], j))
  }

  ghost predicate Inv(s: State) {
    && (forall j | j in s.db :: RowOk(s, j))
    && (forall p | p in s.acts :: ActOk(s, s.acts[p]))
    && (forall w | w in s.argo :: s.argo[w].owner in s.ids && (s.argo[w].phase == Succeeded ==> s.argo[w].succeeded))
  }

  /** The parts of the state a truthful row rests on only grow. */
  ghost predicate Grows(s: State, t: State) {
    && (forall j | j in s.ids :: j in t.ids && t.ids[j] == s.ids[j])
    && (forall w | w in s.argo :: w in t.argo && t.argo[w].owner == s.argo[w].owner
                                  && (s.argo[w].succeeded ==> t.argo[w].succeeded))
  }

  lemma TruthKept(s: State, t: State, row: Job)
    requires Grows(s, t) && Truthful(s, row)
    ensures Truthful(t, row)
  {
    if row.status == Finished {
      var w :| Owns(s, row.id, w) && s.argo[w].succeeded;
      assert Owns(t, row.id, w);
    }
  }

  lemma AllKept(s: State, t: State, rows: seq<Job>)
    requires Grows(s, t) && AllTruthful(s, rows)
    ensures AllTruthful(t, rows)
  {
    forall i | 0 <= i < |rows| ensures Truthful(t, rows[i]) { TruthKept(s, t, rows[i]); }
  }

  lemma ActKept(s: State, t: State, a: Act)
    requires Grows(s, t) && ActOk(s, a)
    ensures ActOk(t, a)
  {
    match a {
      case PollRead(job, _, row) => TruthKept(s, t, job); TruthKept(s, t, row);
      case PollDecided(row) => TruthKept(s, t, row);
      case CancelStopped(row) => TruthKept(s, t, row);
      case ReconcileLoop(rest) => AllKept(s, t, rest);
      case ReconcileDecided(row, rest) => TruthKept(s, t, row); AllKept(s, t, rest);
      case _ => TruthKept(s, t, a.job);
    }
  }

  lemma StepGrows(c: Config, s: State, step: Step)
    requires Next(c, s, step).Some?
    ensures Grows(s, Next(c, s, step).value)
  {
    if step.Advance? { CreatesFresh(c, s, s.acts[step.p], step.reply); }
  }

  lemma CreatesFresh(c: Config, s: State, a: Act, reply: Reply)
    requires StepOf(c, s, a, reply).Some?
    ensures var made := StepOf(c, s, a, reply).value.created;
      made.Some? ==> made.value.0 !in s.argo && a.SubmitRun? && a.job.id == made.value.1
  {
  }

  /** The handler that moves, when a handler does. */
  function Mover(step: Step): Option<Pid> {
    match step
    case SyncJob(p, _) => Some(p)
    case StartJob(p, _) => Some(p)
    case CancelJob(p, _) => Some(p)
    case Reconcile(p, _) => Some(p)
    case Advance(p, _) => Some(p)
    case _ => None
  }

  /** Only the handler that moves can change its own act. */
  lemma OthersKept(c: Config, s: State, step: Step, p: Pid)
    requires Next(c, s, step).Some? && Mover(step) != Some(p)
    ensures var t := Next(c, s, step).value; (p in t.acts <==> p in s.acts) && (p in s.acts ==> t.acts[p] == s.acts[p])
  {
  }

  lemma VerdictTrue(s: State, row: Job, w: WfName, v: Outcome)
    requires Inv(s) && Truthful(s, row) && Owns(s, row.id, w) && Verdict(s.argo[w]) == Some(v)
    ensures Truthful(s, Judged(row, v))
    ensures v.status == Finished || v.status == Error
  {
  }

  /** The rows a handler carries on to, or writes, are as truthful as those it read. */
  lemma NextActTrue(c: Config, s: State, a: Act, reply: Reply)
    requires Inv(s) && ActOk(s, a) && StepOf(c, s, a, reply).Some?
    ensures var e := StepOf(c, s, a, reply).value;
      (e.next.Some? && !a.SubmitRun? && !a.SubmitCreated? ==> ActOk(s, e.next.value)) &&
      (e.row.Some? ==> Truthful(s, e.row.value))
  {
    if a.PollTask? || a.PollRead? || a.PollDecided? || a.PollAgain? || a.ReconcileLoop? || a.ReconcileDecided? {
      WatcherActTrue(c, s, a, reply);
    }
  }

  lemma WatcherActTrue(c: Config, s: State, a: Act, reply: Reply)
    requires Inv(s) && ActOk(s, a) && StepOf(c, s, a, reply).Some?
    requires a.PollTask? || a.PollRead? || a.PollDecided? || a.PollAgain? || a.ReconcileLoop? || a.ReconcileDecided?
    ensures var e := StepOf(c, s, a, reply).value;
      (e.next.Some? ==> ActOk(s, e.next.value)) && (e.row.Some? ==> Truthful(s, e.row.value))
  {
    match a {
      case PollTask(job, w) => if job.id in s.db { assert RowOk(s, job.id); }
      case PollRead(job, w, row) => LookupOk(c, s, job, w, row, reply);
      case ReconcileLoop(rest) => if rest != [] { VisitOk(s, rest, reply); }
      case _ =>
    }
  }

  lemma LookupOk(c: Config, s: State, job: Job, w: WfName, row: Job, reply: Reply)
    requires Inv(s) && ActOk(s, PollRead(job, w, row))
    ensures StepOf(c, s, PollRead(job, w, row), reply).Some?
    ensures var e := StepOf(c, s, PollRead(job, w, row), reply).value; e.row == None && e.next.Some? && ActOk(s, e.next.value)
  {
    if Found(s, w, reply) && Verdict(s.argo[w]).Some? { VerdictTrue(s, row, w, Verdict(s.argo[w]).value); }
  }

  lemma VisitOk(s: State, rows: seq<Job>, reply: Reply)
    requires Inv(s) && rows != [] && ActOk(s, ReconcileLoop(rows))
    ensures ActOk(s, Visit(s, rows[0], rows[1..], reply))
  {
    var row := rows[0];
    assert AllTruthful(s, rows) && Truthful(s, row);
    if row.workflow.Some? && Found(s, row.workflow.value, reply) && Verdict(s.argo[row.workflow.value]).Some? {
      VerdictTrue(s, row, row.workflow.value, Verdict(s.argo[row.workflow.value]).value);
    }
  }

  /** The moving handler's next act is in order. */
  lemma MoverOk(c: Config, s: State, p: Pid, reply: Reply)
    requires Inv(s) && Next(c, s, Advance(p, reply)).Some?
    ensures var t := Next(c, s, Advance(p, reply)).value; p in t.acts ==> ActOk(t, t.acts[p])
  {
    var a := s.acts[p];
    var t := Next(c, s, Advance(p, reply)).value;
    var e := StepOf(c, s, a, reply).value;
    StepGrows(c, s, Advance(p, reply));
    NextActTrue(c, s, a, reply);
    if e.next.Some? {
      if a.SubmitRun? || a.SubmitCreated? {
        TruthKept(s, t, a.job);
      } else {
        ActKept(s, t, e.next.value);
      }
    }
  }

  /** What a handler owes before its step it owes after it, unless it writes the row. */
  lemma DebtKept(c: Config, s: State, a: Act, reply: Reply, j: JobId)
    requires StepOf(c, s, a, reply).Some? && Consistent(a)
    ensures var e := StepOf(c, s, a, reply).value;
      var writes := e.row.Some? && e.row.value.id == j;
      && (PreSubmit(a, j) && !writes ==> e.next.Some? && PreSubmit(e.next.value, j))
      && (PostSubmit(a, j) && !writes && j in s.db ==> e.next.Some? && PostSubmit(e.next.value, j))
      && (writes && e.row.value.status == Queued ==> e.next.Some? && PreSubmit(e.next.value, j))
      && (writes && e.row.value.status == Running ==> e.next.Some? && PostSubmit(e.next.value, j))
  {
  }

  /** A queued or running row keeps the obligation its status promises. */
  lemma RowKept(c: Config, s: State, step: Step, j: JobId)
    requires Inv(s) && Next(c, s, step).Some? && j in Next(c, s, step).value.db
    ensures RowOk(Next(c, s, step).value, j)
  {
    var t := Next(c, s, step).value;
    StepGrows(c, s, step);
    if step.Advance? && StepOf(c, s, s.acts[step.p], step.reply).value.row.Some?
       && StepOf(c, s, s.acts[step.p], step.reply).value.row.value.id == j {
      var a := s.acts[step.p];
      NextActTrue(c, s, a, step.reply);
      DebtKept(c, s, a, step.reply, j);
      TruthKept(s, t, t.db[j]);
      assert t.db[j].status == Queued ==> step.p in t.acts && PreSubmit(t.acts[step.p], j);
      assert t.db[j].status == Running ==> step.p in t.acts && PostSubmit(t.acts[step.p], j);
    } else if j !in s.db {
      assert step.SyncJob? ==> PreSubmit(t.acts[step.p], j);
    } else {
      assert RowOk(s, j) && t.db[j] == s.db[j];
      TruthKept(s, t, s.db[j]);
      if s.db[j].status == Queued {
        var q :| q in s.acts && PreSubmit(s.acts[q], j);
        if step.Advance? && step.p == q { DebtKept(c, s, s.acts[q], step.reply, j); } else { OthersKept(c, s, step, q); }
        assert q in t.acts && PreSubmit(t.acts[q], j);
      } else if s.db[j].status == Running {
        var q :| q in s.acts && PostSubmit(s.acts[q], j);
        if step.Advance? && step.p == q { DebtKept(c, s, s.acts[q], step.reply, j); } else { OthersKept(c, s, step, q); }
        assert q in t.acts && PostSubmit(t.acts[q], j);
      }
    }
  }

  lemma StepKeepsInv(c: Config, s: State, step: Step)
    requires Inv(s) && Next(c, s, step).Some?
    ensures Inv(Next(c, s, step).value)
  {
    var t := Next(c, s, step).value;
    StepGrows(c, s, step);
    forall j | j in t.db ensures RowOk(t, j) { RowKept(c, s, step, j); }
    forall p | p in t.acts ensures ActOk(t, t.acts[p]) {
      if Mover(step) != Some(p) {
        OthersKept(c, s, step, p);
        ActKept(s, t, s.acts[p]);
      } else {
        NewActOk(c, s, step, p);
      }
    }
    forall w | w in t.argo ensures t.argo[w].owner in t.ids && (t.argo[w].phase == Succeeded ==> t.argo[w].succeeded) {
      if step.Advance? {
        var a := s.acts[step.p];
        CreatesFresh(c, s, a, step.reply);
        assert ActOk(s, a);
      }
    }
  }

  lemma NewActOk(c: Config, s: State, step: Step, p: Pid)
    requires Inv(s) && Next(c, s, step).Some? && Mover(step) == Some(p) && p in Next(c, s, step).value.acts
    ensures ActOk(Next(c, s, step).value, Next(c, s, step).value.acts[p])
  {
    var t := Next(c, s, step).value;
    StepGrows(c, s, step);
    match step {
      case Advance(_, reply) => MoverOk(c, s, p, reply);
      case Reconcile(_, rows) =>
        forall i | 0 <= i < |rows| ensures Truthful(t, rows[i]) { assert RowOk(s, rows[i].id); TruthKept(s, t, rows[i]); }
      case SyncJob(_, _) =>
      case StartJob(_, j) => assert RowOk(s, j); TruthKept(s, t, s.db[j]);
      case CancelJob(_, j) => assert RowOk(s, j); TruthKept(s, t, s.db[j]);
    }
  }

  lemma {:induction false} RunKeepsInv(c: Config, s: State, run: seq<Step>)
    requires Inv(s) && Exec(c, s, run).Some?
    ensures Inv(Exec(c, s, run).value)
    decreases |run|
  {
    if run != [] {
      StepKeepsInv(c, s, run[0]);
      RunKeepsInv(c, Next(c, s, run[0]).value, run[1..]);
    }
  }

  /** No job is lost: a queued one has a handler or task on the way to submission, a running one a task
      on the way to its verdict. */
  lemma NoJobLost(c: Config, run: seq<Step>, j: JobId)
    requires Exec(c, INIT, run).Some? && j in Exec(c, INIT, run).value.db
    ensures var s := Exec(c, INIT, run).value;
      && (s.db[j].status == Queued ==> exists p :: p in s.acts && PreSubmit(s.acts[p], j))
      && (s.db[j].status == Running ==> exists p :: p in s.acts && PostSubmit(s.acts[p], j))
    ensures var s := Exec(c, INIT, run).value;
      && (s.db[j].status == Queued ==> exists p :: p in s.acts && var a := s.acts[p];
           (a.QueueTask? || a.QueueRun? || a.QueueAdmitted? || a.QueueDeferred? || a.SyncCreated?
            || a.SubmitTask? || a.SubmitRun? || a.SubmitCreated? || a.SubmitFailed?) && a.job.id == j)
      && (s.db[j].status == Running ==> exists p :: p in s.acts && var a := s.acts[p];
           ((a.SubmitSaved? || a.PollTask? || a.PollRead? || a.PollAgain?) && a.job.id == j) || (a.PollDecided? && a.row.id == j))
  {
    RunKeepsInv(c, INIT, run);
    assert RowOk(Exec(c, INIT, run).value, j);
  }

  /** A workflow is known to have succeeded only if Argo said so. */
  lemma {:induction false} SuccessWasReported(c: Config, s: State, run: seq<Step>, w: WfName)
    requires Exec(c, s, run).Some? && w in Exec(c, s, run).value.argo && Exec(c, s, run).value.argo[w].succeeded
    ensures (w in s.argo && s.argo[w].succeeded) || exists i, nodes :: 0 <= i < |run| && run[i] == PhaseChange(w, Succeeded, nodes)
    decreases |run|
  {
    if run != [] {
      var t := Next(c, s, run[0]).value;
      SuccessWasReported(c, t, run[1..], w);
      if i, nodes :| 0 <= i < |run| - 1 && run[1..][i] == PhaseChange(w, Succeeded, nodes) {
        assert run[i + 1] == PhaseChange(w, Succeeded, nodes);
      } else if !(w in s.argo && s.argo[w].succeeded) {
        assert run[0].PhaseChange? && run[0] == PhaseChange(w, Succeeded, run[0].nodes) by { OnlyNewsSucceeds(c, s, run[0], w); }
      }
    }
  }

  lemma OnlyNewsSucceeds(c: Config, s: State, step: Step, w: WfName)
    requires Next(c, s, step).Some? && w in Next(c, s, step).value.argo && Next(c, s, step).value.argo[w].succeeded
    ensures (w in s.argo && s.argo[w].succeeded) || (step.PhaseChange? && step.w == w && step.phase == Succeeded)
  {
  }

  /** Provenance of running and finished rows. */
  lemma RowsTellTheTruth(c: Config, run: seq<Step>, j: JobId)
    requires Exec(c, INIT, run).Some? && j in Exec(c, INIT, run).value.db
    ensures var s := Exec(c, INIT, run).value;
      && (s.db[j].status == Running ==> s.db[j].workflow.Some? && var w := s.db[j].workflow.value; w in s.argo && s.argo[w].owner == j)
      && (s.db[j].status == Finished ==>
          exists w, i, nodes :: w in s.argo && s.argo[w].owner == j && 0 <= i < |run| && run[i] == PhaseChange(w, Succeeded, nodes))
  {
    RunKeepsInv(c, INIT, run);
    var s := Exec(c, INIT, run).value;
    assert RowOk(s, j);
    if s.db[j].status == Finished {
      var w :| Owns(s, j, w) && s.argo[w].succeeded;
      SuccessWasReported(c, INIT, run, w);
    }
  }

  /** The reconciler's "no associated workflow" branch is dead code: no row it ever holds lacks a workflow. */
  lemma ReconcilerAlwaysHasWorkflow(c: Config, run: seq<Step>, p: Pid)
    requires Exec(c, INIT, run).Some? && p in Exec(c, INIT, run).value.acts
    ensures var a := Exec(c, INIT, run).value.acts[p];
      && (a.ReconcileLoop? ==> forall i | 0 <= i < |a.rest| :: a.rest[i].workflow.Some?)
      && (a.ReconcileDecided? ==> a.row.message != NoWorkflow)
  {
    RunKeepsInv(c, INIT, run);
    var s := Exec(c, INIT, run).value;
    assert ActOk(s, s.acts[p]);
    var a := s.acts[p];
    if a.ReconcileLoop? {
      forall i | 0 <= i < |a.rest| ensures a.rest[i].workflow.Some? { assert Truthful(s, a.rest[i]); }
    }
  }
}
