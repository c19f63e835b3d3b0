/** The poller and the reconciler race to write the row of a job, each from its own snapshot.
    As long as this job is neither cancelled nor deleted, its lookups succeed and the final phases of
    its workflow stay final, the race has no outcome: the row only climbs, stops at its first final
    status, and says what Argo says. What happens to other jobs does not matter. A synchronous job
    needs one thing more: that no start request for it gets past the mkdir. */
module Confluence {
  import opened Options
  import opened Jobs
  import opened Protocol
  import opened Obligations

  /** A step that leaves job `j` undisturbed, in the state it is taken in. */
  predicate Calm(s: State, step: Step, j: JobId) {
    match step
    case CancelJob(_, i) => i != j
    case DeleteJob(i) => i != j
    case WorkflowGone(w) => !Owns(s, j, w)
    case PhaseChange(w, _, _) =>
      Owns(s, j, w) ==> s.argo[w].phase == Pending || s.argo[w].phase == InProgress || s.argo[w].phase == Unknown
    case Advance(p, reply) => p in s.acts ==> CalmReply(s.acts[p], reply, j)
    case _ => true
  }

  /** A lookup made for `j` does not raise. */
  predicate CalmReply(a: Act, reply: Reply, j: JobId) {
    reply == Raises ==>
      && (a.PollRead? ==> a.job.id != j)
      && (a.ReconcileLoop? && a.rest != [] ==> a.rest[0].id != j)
  }

  /** A start request for the synchronous job `j` gets past the mkdir. */
  predicate Restarts(s: State, step: Step, j: JobId) {
    && step.Advance? && step.p in s.acts && Starting(s.acts[step.p], j)
    && step.reply != Raises && j !in s.dirs && j in s.ids && s.ids[j]
  }

  predicate Steady(s: State, step: Step, j: JobId) {
    Calm(s, step, j) && !Restarts(s, step, j)
  }

  function Rank(status: Status): nat {
    match status
    case Created => 0
    case Queued => 1
    case Running => 2
    case _ => 3
  }

  /** A row at one rung of the ladder, with the workflow and message that go with it. */
  predicate Waiting(row: Job, status: Status) {
    row == Job(row.id, row.sync, status, None, NoMessage)
  }

  predicate RunningOn(row: Job, w: WfName) {
    row == Job(row.id, row.sync, Running, Some(w), NoMessage)
  }

  /** A final row: what Argo's verdict on its workflow says, or an error before submission. */
  predicate Settled(s: State, row: Job) {
    match row.workflow
    case None => Waiting(row, Error)
    case Some(w) =>
      && Owns(s, row.id, w) && !s.argo[w].gone && Verdict(s.argo[w]).Some?
      && row == Judged(Job(row.id, row.sync, Running, Some(w), NoMessage), Verdict(s.argo[w]).value)
  }

  predicate RowSound(s: State, row: Job) {
    && row.id in s.ids && row.sync == s.ids[row.id]
    && match row.status
       case Created => Waiting(row, Created) && !row.sync
       case Queued => Waiting(row, Queued)
       case Running => row.workflow.Some? && RunningOn(row, row.workflow.value)
                       && Owns(s, row.id, row.workflow.value) && !s.argo[row.workflow.value].gone
       case Canceled => false
       case _ => Settled(s, row)
  }

  /** The current row of job `j` is past submission, on workflow `w`. */
  predicate On(s: State, j: JobId, w: WfName) {
    j in s.db && s.db[j].workflow == Some(w) && Rank(s.db[j].status) >= 2
  }

  /** A running snapshot of a row that is still on the same workflow. */
  predicate StaleRunning(s: State, row: Job) {
    && row.workflow.Some? && RunningOn(row, row.workflow.value) && On(s, row.id, row.workflow.value)
    && row.id in s.ids && row.sync == s.ids[row.id]
  }

  predicate AllStale(s: State, rows: seq<Job>, j: JobId) {
    forall i | 0 <= i < |rows| && rows[i].id == j :: StaleRunning(s, rows[i])
  }

  /** A row about to be written over a current row that is running or already equal to it. */
  predicate Final(s: State, row: Job) {
    && row.workflow.Some? && Settled(s, row) && On(s, row.id, row.workflow.value)
    && row.id in s.ids && row.sync == s.ids[row.id]
  }

  /** A batch job has its workspace once it is started. */
  predicate Housed(s: State, row: Job) {
    row.sync || row.id in s.dirs
  }

  /** The current row of the job is the waiting row the handler carries. */
  predicate Awaits(s: State, job: Job, status: Status) {
    Waiting(job, status) && job.id in s.db && s.db[job.id] == job && Housed(s, job)
  }

  /** A start request for `j` holds a created row, or the row of a job that has run already. */
  predicate StartSound(s: State, job: Job) {
    && job.id in s.db && s.db[job.id].sync == job.sync
    && (if job.sync then Rank(s.db[job.id].status) == 3 else
         (job.status == Created || job.id in s.dirs) && (job.status == Created ==> Waiting(job, Created)))
  }

  /** Whatever the act knows of `j` is so. */
  predicate ActSound(s: State, a: Act, j: JobId) {
    match a
    case StartRead(job) => job.id == j ==> StartSound(s, job)
    case StartMade(job) => job.id == j ==> Awaits(s, job, Created)
    case SubmitCreated(job, w) => job.id == j ==> Awaits(s, job, Queued) && Owns(s, j, w) && !s.argo[w].gone
    case SubmitSaved(job, w) => job.id == j ==> On(s, j, w)
    case PollTask(job, w) => job.id == j ==> On(s, j, w)
    case PollRead(job, w, row) =>
      && row.id == job.id
      && (job.id == j ==> On(s, j, w) && row.workflow == Some(w) && RowSound(s, row) && Rank(row.status) >= 2)
    case PollDecided(row) => row.id == j ==> Final(s, row)
    case PollAgain(job, w) => job.id == j ==> On(s, j, w)
    case CancelRead(job) => job.id != j
    case CancelStopped(row) => row.id != j
    case ReconcileLoop(rest) => AllStale(s, rest, j)
    case ReconcileDecided(row, rest) => (row.id == j ==> Final(s, row)) && AllStale(s, rest, j)
    case _ => a.job.id == j ==> Awaits(s, a.job, Queued)
  }

  ghost predicate Keyed(s: State) {
    forall i | i in s.db :: s.db[i].id == i
  }

  predicate JobSound(s: State, j: JobId) {
    j in s.db ==> s.db[j].id == j && RowSound(s, s.db[j]) && (Housed(s, s.db[j]) || s.db[j] == NewJob(j))
  }

  ghost predicate Sound(s: State, j: JobId) {
    && Keyed(s) && JobSound(s, j)
    && (forall p | p in s.acts :: ActSound(s, s.acts[p], j))
    && (forall p, q | p in s.acts && q in s.acts && Ahead(s.acts[p], j) && Ahead(s.acts[q], j) :: p == q)
  }

  /** How one row may change: upwards, with its workflow fixed once it has one, and not at all once final. */
  predicate Climbs(was: Job, now: Job) {
    && was.sync == now.sync
    && Rank(was.status) <= Rank(now.status)
    && (Rank(was.status) >= 2 ==> now.workflow == was.workflow)
    && (Rank(was.status) == 3 ==> now == was)
  }

  ghost predicate ArgoCalm(s: State, t: State, j: JobId) {
    forall w | Owns(s, j, w) :: Owns(t, j, w) && t.argo[w].gone == s.argo[w].gone && (Terminal(s.argo[w]) ==> t.argo[w] == s.argo[w])
  }

  /** What an undisturbed run does to the job. */
  ghost predicate Calmly(s: State, t: State, j: JobId) {
    && ArgoCalm(s, t, j)
    && (j in s.dirs ==> j in t.dirs)
    && (j in s.ids ==> j in t.ids && t.ids[j] == s.ids[j])
    && (j in s.db ==> j in t.db && Climbs(s.db[j], t.db[j]))
  }

  lemma SettledKept(s: State, t: State, row: Job)
    requires Calmly(s, t, row.id)
    ensures Settled(s, row) ==> Settled(t, row)
    ensures RowSound(s, row) ==> RowSound(t, row)
  {
  }

  lemma OnKept(s: State, t: State, j: JobId, w: WfName)
    requires Calmly(s, t, j) && On(s, j, w)
    ensures On(t, j, w)
  {
  }

  lemma StaleKept(s: State, t: State, rows: seq<Job>, j: JobId)
    requires Calmly(s, t, j) && AllStale(s, rows, j)
    ensures AllStale(t, rows, j)
  {
    forall i | 0 <= i < |rows| && rows[i].id == j ensures StaleRunning(t, rows[i]) {
      assert StaleRunning(s, rows[i]);
      OnKept(s, t, j, rows[i].workflow.value);
    }
  }

  lemma FinalKept(s: State, t: State, row: Job)
    requires Calmly(s, t, row.id) && Final(s, row)
    ensures Final(t, row)
  {
    SettledKept(s, t, row);
    OnKept(s, t, row.id, row.workflow.value);
  }

  /** An act stays sound while others move, if the waiting row it carries is left alone. */
  lemma SoundKept(s: State, t: State, a: Act, j: JobId)
    requires Calmly(s, t, j) && ActSound(s, a, j)
    requires Ahead(a, j) && j in s.db ==> t.db[j] == s.db[j]
    ensures ActSound(t, a, j)
  {
    match a {
      case PollRead(job, w, row) => if job.id == j { OnKept(s, t, j, w); SettledKept(s, t, row); }
      case PollDecided(row) => if row.id == j { FinalKept(s, t, row); }
      case ReconcileLoop(rest) => StaleKept(s, t, rest, j);
      case ReconcileDecided(row, rest) => if row.id == j { FinalKept(s, t, row); } StaleKept(s, t, rest, j);
      case _ =>
    }
  }

  /** A verdict reached from a running snapshot may be written whatever was written since. */
  lemma VerdictFinal(s: State, row: Job, w: WfName)
    requires JobSound(s, row.id) && On(s, row.id, w) && row.workflow == Some(w) && RowSound(s, row) && Rank(row.status) >= 2
    requires w in s.argo && Verdict(s.argo[w]).Some?
    ensures Final(s, Judged(row, Verdict(s.argo[w]).value))
  {
  }

  /** Writing a final row over the current one either climbs or changes nothing. */
  lemma FinalWriteClimbs(s: State, row: Job)
    requires JobSound(s, row.id) && Final(s, row)
    ensures row.id in s.db && Climbs(s.db[row.id], row) && RowSound(s, row)
  {
  }

  /** What a handler step may do to `j`: write a sound successor of the current row, which the handler
      either carries or has found past submission; create a new workflow; hand its row on. */
  ghost predicate Licit(s: State, a: Act, e: Effect, j: JobId) {
    && (e.row.Some? && e.row.value.id == j ==> GoodWrite(s, a, e.row.value))
    && (e.created.Some? ==> e.created.value.0 !in s.argo)
    && (e.next.Some? && Ahead(e.next.value, j) ==> Ahead(a, j) || (Starting(a, j) && j in s.db && !s.db[j].sync && j !in s.dirs))
  }

  predicate GoodWrite(s: State, a: Act, row: Job) {
    && row.id in s.db && Housed(s, row) && Climbs(s.db[row.id], row) && RowSound(s, row)
    && (Ahead(a, row.id) || Rank(s.db[row.id].status) >= 2)
  }

  lemma StepWrites(c: Config, s: State, a: Act, reply: Reply, j: JobId)
    requires Sound(s, j) && ActSound(s, a, j) && StepOf(c, s, a, reply).Some?
    ensures var e := StepOf(c, s, a, reply).value; e.row.Some? && e.row.value.id == j ==> GoodWrite(s, a, e.row.value)
  {
    if (a.PollDecided? || a.ReconcileDecided?) && a.row.id == j { FinalWriteClimbs(s, a.row); }
  }

  lemma StepCarries(c: Config, s: State, a: Act, reply: Reply, j: JobId)
    requires StepOf(c, s, a, reply).Some? && ActSound(s, a, j)
    requires Starting(a, j) ==> reply == Raises || j in s.dirs || (j in s.db && !s.db[j].sync)
    ensures var e := StepOf(c, s, a, reply).value;
      && (e.created.Some? ==> e.created.value.0 !in s.argo)
      && (e.next.Some? && Ahead(e.next.value, j) ==> Ahead(a, j) || (Starting(a, j) && j in s.db && !s.db[j].sync && j !in s.dirs))
  {
  }

  lemma StepLicit(c: Config, s: State, p: Pid, reply: Reply, j: JobId)
    requires Sound(s, j) && p in s.acts && Steady(s, Advance(p, reply), j) && StepOf(c, s, s.acts[p], reply).Some?
    ensures Licit(s, s.acts[p], StepOf(c, s, s.acts[p], reply).value, j)
  {
    assert ActSound(s, s.acts[p], j);
    StepWrites(c, s, s.acts[p], reply, j);
    StepCarries(c, s, s.acts[p], reply, j);
  }

  lemma PerformCalm(s: State, p: Pid, e: Effect, j: JobId)
    requires p in s.acts && Licit(s, s.acts[p], e, j)
    ensures Calmly(s, Perform(s, p, e), j)
  {
  }

  /** A waiting row some other handler carries is not written. */
  lemma OthersUntouched(s: State, p: Pid, e: Effect, q: Pid, j: JobId)
    requires Sound(s, j) && p in s.acts && Licit(s, s.acts[p], e, j)
    requires q in s.acts && q != p && Ahead(s.acts[q], j) && j in s.db
    ensures Perform(s, p, e).db[j] == s.db[j]
  {
    assert ActSound(s, s.acts[q], j);
  }

  lemma RowStaysSound(s: State, p: Pid, e: Effect, j: JobId)
    requires Sound(s, j) && p in s.acts && Licit(s, s.acts[p], e, j)
    ensures JobSound(Perform(s, p, e), j)
  {
    PerformCalm(s, p, e, j);
    if j in s.db { SettledKept(s, Perform(s, p, e), Perform(s, p, e).db[j]); }
  }

  lemma OthersSound(s: State, p: Pid, e: Effect, q: Pid, j: JobId)
    requires Sound(s, j) && p in s.acts && Licit(s, s.acts[p], e, j) && q in s.acts && q != p
    ensures ActSound(Perform(s, p, e), s.acts[q], j)
    ensures !(e.next.Some? && Ahead(e.next.value, j) && Ahead(s.acts[q], j))
  {
    assert ActSound(s, s.acts[q], j) && ActSound(s, s.acts[p], j);
    PerformCalm(s, p, e, j);
    if Ahead(s.acts[q], j) && j in s.db { OthersUntouched(s, p, e, q, j); }
    SoundKept(s, Perform(s, p, e), s.acts[q], j);
  }

  lemma PerformSound(s: State, p: Pid, e: Effect, j: JobId)
    requires Sound(s, j) && p in s.acts && Licit(s, s.acts[p], e, j)
    requires e.next.Some? ==> ActSound(Perform(s, p, e), e.next.value, j)
    ensures Sound(Perform(s, p, e), j)
  {
    var t := Perform(s, p, e);
    forall q | q in s.acts && q != p
      ensures ActSound(t, s.acts[q], j)
      ensures !(e.next.Some? && Ahead(e.next.value, j) && Ahead(s.acts[q], j))
    {
      OthersSound(s, p, e, q, j);
    }
    RowStaysSound(s, p, e, j);
  }

  lemma ReconcileOk(s: State, rows: seq<Job>, reply: Reply, j: JobId)
    requires JobSound(s, j) && rows != [] && AllStale(s, rows, j) && (reply == Raises ==> rows[0].id != j)
    ensures ActSound(s, Visit(s, rows[0], rows[1..], reply), j) && !Ahead(Visit(s, rows[0], rows[1..], reply), j)
  {
    var row := rows[0];
    assert AllStale(s, rows[1..], j) by {
      assert forall i | 0 <= i < |rows| - 1 :: rows[1..][i] == rows[i + 1];
    }
    if row.id == j {
      assert StaleRunning(s, row);
      var w := row.workflow.value;
      if Verdict(s.argo[w]).Some? { VerdictFinal(s, row, w); }
    }
  }

  lemma LookupSound(c: Config, s: State, a: Act, reply: Reply, j: JobId)
    requires JobSound(s, j) && a.PollRead? && ActSound(s, a, j) && (reply == Raises ==> a.job.id != j)
    ensures StepOf(c, s, a, reply).Some?
    ensures var e := StepOf(c, s, a, reply).value; e.next.Some? && ActSound(s, e.next.value, j) && !Ahead(e.next.value, j)
  {
    if a.job.id == j && Verdict(s.argo[a.wf]).Some? { VerdictFinal(s, a.row, a.wf); }
  }

  /** A look at Argo: the decision is sound where it is taken, and stays so. */
  lemma WatchMoves(c: Config, s: State, p: Pid, reply: Reply, j: JobId)
    requires Sound(s, j) && p in s.acts && (s.acts[p].PollRead? || s.acts[p].ReconcileLoop?) && CalmReply(s.acts[p], reply, j)
    ensures StepOf(c, s, s.acts[p], reply).Some?
    ensures var e := StepOf(c, s, s.acts[p], reply).value;
      e.next.Some? ==> ActSound(Perform(s, p, e), e.next.value, j)
  {
    var a := s.acts[p];
    assert ActSound(s, a, j);
    var e := StepOf(c, s, a, reply).value;
    if a.PollRead? { LookupSound(c, s, a, reply, j); } else if a.rest != [] { ReconcileOk(s, a.rest, reply, j); }
    if e.next.Some? {
      PerformCalm(s, p, e, j);
      SoundKept(s, Perform(s, p, e), e.next.value, j);
    }
  }

  predicate AfterSubmission(a: Act) {
    a.SubmitSaved? || a.PollTask? || a.PollAgain? || a.PollDecided? || a.ReconcileDecided?
  }

  /** After submission a handler only reads the row, or writes one that is final. */
  lemma LaterMoves(c: Config, s: State, p: Pid, reply: Reply, j: JobId)
    requires Sound(s, j) && p in s.acts && AfterSubmission(s.acts[p])
    ensures StepOf(c, s, s.acts[p], reply).Some?
    ensures var e := StepOf(c, s, s.acts[p], reply).value;
      e.next.Some? ==> ActSound(Perform(s, p, e), e.next.value, j)
  {
    var a := s.acts[p];
    assert ActSound(s, a, j);
    StepWrites(c, s, a, reply, j);
    var e := StepOf(c, s, a, reply).value;
    if a.ReconcileDecided? {
      PerformCalm(s, p, e, j);
      StaleKept(s, Perform(s, p, e), a.rest, j);
    }
  }

  predicate UpToSubmission(a: Act) {
    || a.StartRead? || a.StartMade? || a.QueueTask? || a.QueueRun? || a.QueueAdmitted? || a.QueueDeferred?
    || a.SyncCreated? || a.SubmitTask? || a.SubmitRun? || a.SubmitCreated? || a.SubmitFailed?
  }

  /** Up to submission the handler carries the current row with it. */
  lemma WaitingMoves(c: Config, s: State, p: Pid, reply: Reply, j: JobId)
    requires Sound(s, j) && p in s.acts && StepOf(c, s, s.acts[p], reply).Some? && Steady(s, Advance(p, reply), j)
    requires UpToSubmission(s.acts[p])
    ensures var e := StepOf(c, s, s.acts[p], reply).value;
      e.next.Some? ==> ActSound(Perform(s, p, e), e.next.value, j)
  {
    assert ActSound(s, s.acts[p], j);
  }

  /** The mover's next act, judged in the state after its step. */
  lemma NextActSound(c: Config, s: State, p: Pid, reply: Reply, j: JobId)
    requires Sound(s, j) && p in s.acts && Steady(s, Advance(p, reply), j) && StepOf(c, s, s.acts[p], reply).Some?
    ensures var e := StepOf(c, s, s.acts[p], reply).value;
      e.next.Some? ==> ActSound(Perform(s, p, e), e.next.value, j)
  {
    var a := s.acts[p];
    assert ActSound(s, a, j);
    if a.PollRead? || a.ReconcileLoop? {
      WatchMoves(c, s, p, reply, j);
    } else if AfterSubmission(a) {
      LaterMoves(c, s, p, reply, j);
    } else if UpToSubmission(a) {
      WaitingMoves(c, s, p, reply, j);
    }
  }

  lemma AdvanceSound(c: Config, s: State, p: Pid, reply: Reply, j: JobId)
    requires Sound(s, j) && Next(c, s, Advance(p, reply)).Some? && Steady(s, Advance(p, reply), j)
    ensures var t := Next(c, s, Advance(p, reply)).value; Sound(t, j) && Calmly(s, t, j)
  {
    var e := StepOf(c, s, s.acts[p], reply).value;
    StepLicit(c, s, p, reply, j);
    NextActSound(c, s, p, reply, j);
    PerformCalm(s, p, e, j);
    PerformSound(s, p, e, j);
  }

  /** A handler on its way to submission carries a row that exists. */
  lemma AheadMeansRow(s: State, p: Pid, j: JobId)
    requires Sound(s, j) && p in s.acts && Ahead(s.acts[p], j)
    ensures j in s.db
  {
    assert ActSound(s, s.acts[p], j);
  }

  /** A step that writes no row of `j`: it may create the job, with the handler that carries its row,
      start a handler that carries nothing, or bring news from Argo. */
  lemma QuietSound(s: State, t: State, j: JobId)
    requires Sound(s, j) && Keyed(t) && JobSound(t, j) && Calmly(s, t, j)
    requires j in s.db ==> t.db[j] == s.db[j]
    requires forall p | p in s.acts :: p in t.acts && t.acts[p] == s.acts[p]
    requires forall p | p in t.acts && p !in s.acts :: ActSound(t, t.acts[p], j)
    requires forall p, q | p in t.acts && q in t.acts && p !in s.acts && q !in s.acts :: p == q
    requires forall p | p in t.acts && p !in s.acts && Ahead(t.acts[p], j) :: j !in s.db
    ensures Sound(t, j)
  {
    forall p | p in s.acts ensures ActSound(t, t.acts[p], j) { SoundKept(s, t, s.acts[p], j); }
    forall p, q | p in t.acts && q in t.acts && Ahead(t.acts[p], j) && Ahead(t.acts[q], j) ensures p == q {
      if p in s.acts { AheadMeansRow(s, p, j); }
      if q in s.acts { AheadMeansRow(s, q, j); }
    }
  }

  /** The row of `j` after a request, and what else a request leaves alone. */
  lemma RequestCalm(c: Config, s: State, step: Step, j: JobId)
    requires Sound(s, j) && Calm(s, step, j) && !step.Advance? && Next(c, s, step).Some? && (j in s.ids ==> j in s.db)
    ensures var t := Next(c, s, step).value;
      Keyed(t) && JobSound(t, j) && Calmly(s, t, j) && (j in s.db ==> t.db[j] == s.db[j])
  {
    if j in s.db { SettledKept(s, Next(c, s, step).value, s.db[j]); }
  }

  /** The handler a request starts. */
  lemma NewHandlerSound(c: Config, s: State, step: Step, p: Pid, j: JobId)
    requires Sound(s, j) && Calm(s, step, j) && !step.Advance? && Next(c, s, step).Some? && (j in s.ids ==> j in s.db)
    requires p in Next(c, s, step).value.acts && p !in s.acts
    ensures var t := Next(c, s, step).value;
      Mover(step) == Some(p) && ActSound(t, t.acts[p], j) && (Ahead(t.acts[p], j) ==> j !in s.db)
  {
    var t := Next(c, s, step).value;
    RequestCalm(c, s, step, j);
    match step {
      case Reconcile(_, rows) =>
        forall i | 0 <= i < |rows| && rows[i].id == j ensures StaleRunning(t, rows[i]) { assert rows[i] == t.db[j]; }
      case _ =>
    }
  }

  lemma RequestSound(c: Config, s: State, step: Step, j: JobId)
    requires Sound(s, j) && Calm(s, step, j) && !step.Advance? && Next(c, s, step).Some? && (j in s.ids ==> j in s.db)
    ensures var t := Next(c, s, step).value; Sound(t, j) && Calmly(s, t, j)
  {
    var t := Next(c, s, step).value;
    RequestCalm(c, s, step, j);
    forall p | p in t.acts && p !in s.acts
      ensures Mover(step) == Some(p) && ActSound(t, t.acts[p], j) && (Ahead(t.acts[p], j) ==> j !in s.db)
    {
      NewHandlerSound(c, s, step, p, j);
    }
    forall p | p in s.acts ensures p in t.acts && t.acts[p] == s.acts[p] {
      if Mover(step) != Some(p) { OthersKept(c, s, step, p); }
    }
    QuietSound(s, t, j);
  }

  lemma StaysKnown(c: Config, s: State, step: Step, j: JobId)
    requires Calm(s, step, j) && Next(c, s, step).Some? && (j in s.ids ==> j in s.db)
    ensures var t := Next(c, s, step).value; j in t.ids ==> j in t.db
  {
  }

  lemma {:induction false} RunSound(c: Config, s: State, run: seq<Step>, j: JobId)
    requires Sound(s, j) && (j in s.ids ==> j in s.db)
    requires Exec(c, s, run).Some? && Along(c, s, run, (u, step) => Steady(u, step, j))
    ensures var t := Exec(c, s, run).value; Sound(t, j) && Calmly(s, t, j) && (j in t.ids ==> j in t.db)
    decreases |run|
  {
    if run != [] {
      var t := Next(c, s, run[0]).value;
      assert Steady(s, run[0], j);
      if run[0].Advance? { AdvanceSound(c, s, run[0].p, run[0].reply, j); } else { RequestSound(c, s, run[0], j); }
      StaysKnown(c, s, run[0], j);
      RunSound(c, t, run[1..], j);
    }
  }

  /** Between any two moments of a run that leaves job `j` undisturbed its row only climbs created,
      queued, running, final, and a final row is never written differently again. */
  lemma StatusOnlyClimbs(c: Config, before: seq<Step>, after: seq<Step>, j: JobId)
    requires Exec(c, INIT, before).Some? && Along(c, INIT, before, (u, step) => Steady(u, step, j)) && j in Exec(c, INIT, before).value.db
    requires var s := Exec(c, INIT, before).value; Exec(c, s, after).Some? && Along(c, s, after, (u, step) => Steady(u, step, j))
    ensures var s := Exec(c, INIT, before).value;
      var t := Exec(c, s, after).value;
      && j in t.db && t.db[j].status != Canceled && t.db[j].sync == s.db[j].sync
      && (s.db[j].status == Queued ==> t.db[j].status != Created)
      && (s.db[j].status == Running ==> t.db[j].status != Created && t.db[j].status != Queued && t.db[j].workflow == s.db[j].workflow)
      && (s.db[j].status == Finished || s.db[j].status == Error ==> t.db[j] == s.db[j])
  {
    RunSound(c, INIT, before, j);
    RunSound(c, Exec(c, INIT, before).value, after, j);
  }

  /** Whoever wrote it, from whatever snapshot, a final row carries Argo's verdict on its own
      workflow; without a workflow it is the error of a failed submission. */
  lemma FinalRowIsVerdict(c: Config, run: seq<Step>, j: JobId)
    requires Exec(c, INIT, run).Some? && Along(c, INIT, run, (u, step) => Steady(u, step, j)) && j in Exec(c, INIT, run).value.db
    requires var row := Exec(c, INIT, run).value.db[j]; row.status == Finished || row.status == Error
    ensures var s := Exec(c, INIT, run).value;
      var row := s.db[j];
      match row.workflow
      case None => row.status == Error && row.message == NoMessage
      case Some(w) =>
        && w in s.argo && s.argo[w].owner == j && !s.argo[w].gone
        && (s.argo[w].phase == Succeeded || s.argo[w].phase == Failed || s.argo[w].phase == Errored)
        && (s.argo[w].phase == Succeeded ==> row.status == Finished && row.message == NoMessage)
        && (s.argo[w].phase != Succeeded ==>
             && row.status == Error
             && row.message == if exists i | 0 <= i < |s.argo[w].nodes| :: MentionsOom(s.argo[w].nodes[i]) then OutOfMemory else JobFailed)
  {
    RunSound(c, INIT, run, j);
  }

  /** So two interleavings that see the same end of the workflow end on the same row. */
  lemma RaceHasNoOutcome(c: Config, left: seq<Step>, right: seq<Step>, j: JobId)
    requires Exec(c, INIT, left).Some? && Along(c, INIT, left, (u, step) => Steady(u, step, j)) && j in Exec(c, INIT, left).value.db
    requires Exec(c, INIT, right).Some? && Along(c, INIT, right, (u, step) => Steady(u, step, j)) && j in Exec(c, INIT, right).value.db
    requires var s := Exec(c, INIT, left).value; var t := Exec(c, INIT, right).value;
      && (s.db[j].status == Finished || s.db[j].status == Error) && (t.db[j].status == Finished || t.db[j].status == Error)
      && s.db[j].sync == t.db[j].sync && s.db[j].workflow == t.db[j].workflow
      && (s.db[j].workflow.Some? ==> var w := s.db[j].workflow.value;
           w in s.argo && w in t.argo && s.argo[w].phase == t.argo[w].phase
           && ((exists i | 0 <= i < |s.argo[w].nodes| :: MentionsOom(s.argo[w].nodes[i]))
               <==> exists i | 0 <= i < |t.argo[w].nodes| :: MentionsOom(t.argo[w].nodes[i])))
    ensures Exec(c, INIT, left).value.db[j] == Exec(c, INIT, right).value.db[j]
  {
    RunSound(c, INIT, left, j);
    RunSound(c, INIT, right, j);
  }

  // Where the promise ends for a synchronous job.

  /** Some steady continuation takes the row of `j` down again, or rewrites it once final. */
  ghost predicate CanFall(c: Config, t: State, j: JobId, row: Job) {
    exists after :: Exec(c, t, after).Some? && Along(c, t, after, (u, step) => Steady(u, step, j))
      && j in Exec(c, t, after).value.db && !Climbs(row, Exec(c, t, after).value.db[j])
  }

  lemma RestartFalls(c: Config, s: State, p: Pid, reply: Reply, j: JobId)
    requires Sound(s, j) && Next(c, s, Advance(p, reply)).Some? && Restarts(s, Advance(p, reply), j)
    ensures j in s.db && CanFall(c, Next(c, s, Advance(p, reply)).value, j, s.db[j])
  {
    assert ActSound(s, s.acts[p], j);
    var t := Next(c, s, Advance(p, reply)).value;
    var after := [Advance(p, Normal)];
    var u := Next(c, t, after[0]).value;
    assert after[1..] == [] && Exec(c, u, []) == Some(u);
    assert Exec(c, t, after) == Some(u);
    assert Along(c, u, after[1..], (v, step) => Steady(v, step, j));
    assert Along(c, t, after, (v, step) => Steady(v, step, j));
  }

  /** After a steady run, a calm step opens the way to a fall of the row of `j` exactly when it lets a start
      request for a synchronous job past the mkdir. */
  lemma RowCanFallIff(c: Config, run: seq<Step>, step: Step, j: JobId)
    requires Exec(c, INIT, run).Some? && Along(c, INIT, run, (u, x) => Steady(u, x, j)) && j in Exec(c, INIT, run).value.db
    requires var s := Exec(c, INIT, run).value; Calm(s, step, j) && Next(c, s, step).Some?
    ensures var s := Exec(c, INIT, run).value;
      CanFall(c, Next(c, s, step).value, j, s.db[j]) <==> Restarts(s, step, j)
  {
    RunSound(c, INIT, run, j);
    var s := Exec(c, INIT, run).value;
    var t := Next(c, s, step).value;
    if Restarts(s, step, j) {
      RestartFalls(c, s, step.p, step.reply, j);
    } else {
      if step.Advance? { AdvanceSound(c, s, step.p, step.reply, j); } else { RequestSound(c, s, step, j); }
      StaysKnown(c, s, step, j);
      forall after | Exec(c, t, after).Some? && Along(c, t, after, (u, x) => Steady(u, x, j)) && j in Exec(c, t, after).value.db
        ensures Climbs(s.db[j], Exec(c, t, after).value.db[j])
      {
        RunSound(c, t, after, j);
      }
    }
  }

  /** An undisturbed run from `s` to `t`. */
  ghost predicate Leads(c: Config, s: State, run: seq<Step>, t: State, j: JobId) {
    Exec(c, s, run) == Some(t) && Along(c, s, run, (u, step) => Calm(u, step, j))
  }

  lemma LeadsOn(c: Config, s: State, step: Step, t: State, rest: seq<Step>, u: State, j: JobId) returns (run: seq<Step>)
    requires Next(c, s, step) == Some(t) && Calm(s, step, j) && Leads(c, t, rest, u, j)
    ensures run == [step] + rest && Leads(c, s, run, u, j)
  {
    run := [step] + rest;
    assert run[1..] == rest;
  }

  /** Synchronous job 0 and nothing else, up to the given workspaces and handler. */
  function Alone(status: Status, dirs: set<JobId>, acts: map<Pid, Act>): State {
    State(map[0 := Job(0, true, status, None, NoMessage)], dirs, acts, map[], map[0 := true])
  }

  /** Its handler moves from one program point to the next. */
  lemma AloneMoves(c: Config, status: Status, a: Act, reply: Reply, b: Act, rest: seq<Step>, t: State) returns (run: seq<Step>)
    requires StepOf(c, Alone(status, {}, map[0 := a]), a, reply) == Some(Moves(b)) && CalmReply(a, reply, 0)
    requires Leads(c, Alone(status, {}, map[0 := b]), rest, t, 0)
    ensures Leads(c, Alone(status, {}, map[0 := a]), run, t, 0)
  {
    var s := Alone(status, {}, map[0 := a]);
    assert s.acts[0 := b] == map[0 := b];
    run := LeadsOn(c, s, Advance(0, reply), Alone(status, {}, map[0 := b]), rest, t, 0);
  }

  lemma FailureWritten(c: Config, job: Job) returns (run: seq<Step>)
    requires job == Job(0, true, Queued, None, NoMessage)
    ensures Leads(c, Alone(Queued, {}, map[0 := SubmitFailed(job)]), run, Alone(Error, {}, map[]), 0)
  {
    var s, t := Alone(Queued, {}, map[0 := SubmitFailed(job)]), Alone(Error, {}, map[]);
    assert s.acts - {0} == t.acts && s.db[0 := job.(status := Error)] == t.db;
    run := LeadsOn(c, s, Advance(0, Normal), t, [], t, 0);
  }

  lemma SubmissionRaises(c: Config) returns (run: seq<Step>)
    ensures Leads(c, INIT, run, Alone(Error, {}, map[]), 0)
  {
    var job := Job(0, true, Queued, None, NoMessage);
    var t := Alone(Error, {}, map[]);
    run := FailureWritten(c, job);
    run := AloneMoves(c, Queued, SubmitRun(job), Raises, SubmitFailed(job), run, t);
    run := AloneMoves(c, Queued, SubmitTask(job), Normal, SubmitRun(job), run, t);
    run := AloneMoves(c, Queued, SyncCreated(job), Normal, SubmitTask(job), run, t);
    run := LeadsOn(c, INIT, SyncJob(0, 0), Alone(Queued, {}, map[0 := SyncCreated(job)]), run, t, 0);
  }

  lemma StartQueuesAgain(c: Config) returns (run: seq<Step>)
    ensures Leads(c, Alone(Error, {}, map[]), run, Alone(Queued, {0}, map[0 := QueueRun(Job(0, true, Queued, None, NoMessage))]), 0)
  {
    var failed := Job(0, true, Error, None, NoMessage);
    var queued := failed.(status := Queued);
    var s, t := Alone(Error, {}, map[]), Alone(Queued, {0}, map[0 := QueueRun(queued)]);
    var s1, s2 := Alone(Error, {}, map[0 := StartRead(failed)]), Alone(Error, {0}, map[0 := StartMade(failed)]);
    assert s2.acts[0 := QueueRun(queued)] == t.acts && s2.db[0 := queued] == t.db;
    run := LeadsOn(c, s2, Advance(0, Normal), t, [], t, 0);
    assert s1.acts[0 := StartMade(failed)] == s2.acts && s1.dirs + {0} == s2.dirs;
    run := LeadsOn(c, s1, Advance(0, Normal), s2, run, t, 0);
    run := LeadsOn(c, s, StartJob(0, 0), s1, run, t, 0);
  }

  /** A run that disturbs nothing and yet rewrites a final row: a synchronous job whose submission
      raised is started, its workspace is made, and its row is queued again. */
  lemma FailedSyncJobRestarts(c: Config) returns (before: seq<Step>, after: seq<Step>)
    ensures Exec(c, INIT, before).Some? && Along(c, INIT, before, (u, step) => Calm(u, step, 0))
    ensures var s := Exec(c, INIT, before).value; Exec(c, s, after).Some? && Along(c, s, after, (u, step) => Calm(u, step, 0))
    ensures var s := Exec(c, INIT, before).value;
      && 0 in s.db && s.db[0].status == Error
      && 0 in Exec(c, s, after).value.db && Exec(c, s, after).value.db[0].status == Queued
  {
    before := SubmissionRaises(c);
    after := StartQueuesAgain(c);
  }
}
