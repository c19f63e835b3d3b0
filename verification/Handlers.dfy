/** What each handler does when nothing interferes, as a function of the state, and the run of
    the protocol it amounts to. */
module Handlers {
  import opened Options
  import opened Jobs
  import opened Protocol

  function Go(p: Pid): Step { Advance(p, Normal) }

  function Drop(s: State, p: Pid): State {
    s.(acts := s.acts - {p})
  }

  function Write(s: State, row: Job): State {
    s.(db := Modify(s.db, row))
  }

  lemma ExecStep(c: Config, s: State, step: Step, t: State, rest: seq<Step>)
    requires Next(c, s, step) == Some(t)
    ensures Exec(c, s, [step] + rest) == Exec(c, t, rest)
    ensures Exec(c, s, [step]) == Some(t)
  {
    assert ([step] + rest)[1..] == rest && [step][1..] == [];
  }

  lemma ExecThree(c: Config, s: State, x: Step, t: State, y: Step, u: State, z: Step, v: State)
    requires Next(c, s, x) == Some(t) && Next(c, t, y) == Some(u) && Next(c, u, z) == Some(v)
    ensures Exec(c, s, [x, y, z]) == Some(v)
  {
    ExecStep(c, u, z, v, []);
    ExecStep(c, t, y, u, [z]);
    ExecStep(c, s, x, t, [y, z]);
    assert [x] + [y, z] == [x, y, z] && [y] + [z] == [y, z];
  }

  /** The status test, and the row and act it leaves. */
  function Checked(c: Config, s: State, p: Pid, job: Job): State {
    Put(s, p, if Admits(c, s.argo) then SubmitTask(job) else QueueTask(job))
  }

  /** A check waits again exactly when the server is set, Argo lists something, and at least as many as the
      limit are running or pending; any other is on its way to submission. */
  lemma CheckedIs(c: Config, s: State, p: Pid, job: Job)
    ensures Checked(c, s, p, job).acts == s.acts[p :=
      if c.argoServer && (exists w :: w in s.argo && !s.argo[w].gone)
        && |set w | w in s.argo && !s.argo[w].gone && (s.argo[w].phase == InProgress || s.argo[w].phase == Pending)| >= c.limit
      then QueueTask(job) else SubmitTask(job)]
  {
    if w :| w in s.argo && !s.argo[w].gone { assert w in Listed(s.argo); }
    assert ActiveSet(s.argo) == set w | w in s.argo && !s.argo[w].gone && (s.argo[w].phase == InProgress || s.argo[w].phase == Pending);
  }

  /** The worker takes a check from the queue. */
  lemma CheckTaken(c: Config, s: State, p: Pid)
    requires p in s.acts && s.acts[p].QueueTask?
    ensures Exec(c, s, [Go(p)]) == Some(Put(s, p, QueueRun(s.acts[p].job)))
  {
    ExecStep(c, s, Go(p), Put(s, p, QueueRun(s.acts[p].job)), []);
  }

  lemma CheckRun(c: Config, s: State, p: Pid)
    requires p in s.acts && s.acts[p].QueueRun?
    ensures Exec(c, s, [Go(p), Go(p)]) == Some(Checked(c, s, p, s.acts[p].job))
  {
    var job := s.acts[p].job;
    var t := Put(s, p, if Admits(c, s.argo) then QueueAdmitted(job) else QueueDeferred(job));
    var u := Checked(c, s, p, job);
    assert t.acts[p := u.acts[p]] == u.acts;
    ExecStep(c, t, Go(p), u, []);
    ExecStep(c, s, Go(p), t, [Go(p)]);
    assert [Go(p)] + [Go(p)] == [Go(p), Go(p)];
  }

  function Started(c: Config, s: State, p: Pid, job: Job): State {
    var queued := job.(status := Queued);
    Checked(c, Write(s.(dirs := s.dirs + {job.id}), queued), p, queued)
  }

  lemma StartRun(c: Config, s: State, p: Pid, j: JobId)
    requires p !in s.acts && j in s.db && s.db[j].status != Queued && s.db[j].status != Running && s.db[j].id !in s.dirs
    ensures Exec(c, s, [StartJob(p, j), Go(p), Go(p)] + [Go(p), Go(p)]) == Some(Started(c, s, p, s.db[j]))
  {
    var job := s.db[j];
    var queued := job.(status := Queued);
    var s1 := Put(s, p, StartRead(job));
    var s2 := Put(s.(dirs := s.dirs + {job.id}), p, StartMade(job));
    var v := Write(s.(dirs := s.dirs + {job.id}), queued);
    var s3 := Put(v, p, QueueRun(queued));
    assert s1.acts[p := StartMade(job)] == s2.acts && s2.acts[p := QueueRun(queued)] == s3.acts;
    ExecThree(c, s, StartJob(p, j), s1, Go(p), s2, Go(p), s3);
    CheckRun(c, s3, p);
    var t := Started(c, s, p, job);
    assert s3.acts[p := t.acts[p]] == t.acts;
    ExecConcat(c, s, [StartJob(p, j), Go(p), Go(p)], [Go(p), Go(p)]);
  }

  /** A start whose workspace cannot be made leaves no trace. */
  lemma StartRefused(c: Config, s: State, p: Pid, j: JobId, made: Reply)
    requires p !in s.acts && j in s.db && s.db[j].status != Queued && s.db[j].status != Running
    requires made == Raises || s.db[j].id in s.dirs
    ensures Exec(c, s, [StartJob(p, j), Advance(p, made)]) == Some(s)
  {
    var s1 := Put(s, p, StartRead(s.db[j]));
    assert s1.acts - {p} == s.acts;
    ExecStep(c, s1, Advance(p, made), s, []);
    ExecStep(c, s, StartJob(p, j), s1, [Advance(p, made)]);
    assert [StartJob(p, j)] + [Advance(p, made)] == [StartJob(p, j), Advance(p, made)];
  }

  function Submitted(s: State, p: Pid, job: Job, w: WfName): State {
    var running := job.(status := Running, workflow := Some(w));
    Put(Write(s.(argo := s.argo[w := Fresh(job.id)]), running), p, PollTask(running, w))
  }

  lemma SubmitTaken(c: Config, s: State, p: Pid)
    requires p in s.acts && s.acts[p].SubmitTask?
    ensures Next(c, s, Go(p)) == Some(Put(s, p, SubmitRun(s.acts[p].job)))
  {
  }

  lemma SubmitMade(c: Config, s: State, p: Pid, w: WfName, job: Job)
    requires p in s.acts && w !in s.argo
    ensures Next(c, Put(s, p, SubmitRun(job)), Advance(p, Named(w)))
      == Some(Put(s.(argo := s.argo[w := Fresh(job.id)]), p, SubmitCreated(job, w)))
  {
    assert Put(s, p, SubmitRun(job)).acts[p := SubmitCreated(job, w)] == s.acts[p := SubmitCreated(job, w)];
  }

  lemma SubmitWritten(c: Config, v: State, p: Pid, w: WfName, job: Job)
    requires p in v.acts
    ensures var running := job.(status := Running, workflow := Some(w));
      Next(c, Put(v, p, SubmitCreated(job, w)), Go(p)) == Some(Put(Write(v, running), p, SubmitSaved(running, w)))
  {
    var running := job.(status := Running, workflow := Some(w));
    assert Put(v, p, SubmitCreated(job, w)).acts[p := SubmitSaved(running, w)] == v.acts[p := SubmitSaved(running, w)];
  }

  lemma SubmitRunTo(c: Config, s: State, p: Pid, w: WfName)
    requires p in s.acts && s.acts[p].SubmitTask? && w !in s.argo
    ensures Exec(c, s, [Go(p), Advance(p, Named(w)), Go(p)] + [Go(p)]) == Some(Submitted(s, p, s.acts[p].job, w))
  {
    var job := s.acts[p].job;
    var running := job.(status := Running, workflow := Some(w));
    var s1 := Put(s, p, SubmitRun(job));
    var v := s.(argo := s.argo[w := Fresh(job.id)]);
    var s2 := Put(v, p, SubmitCreated(job, w));
    var s3 := Put(Write(v, running), p, SubmitSaved(running, w));
    var t := Submitted(s, p, job, w);
    SubmitTaken(c, s, p);
    SubmitMade(c, s, p, w, job);
    SubmitWritten(c, v, p, w, job);
    ExecThree(c, s, Go(p), s1, Advance(p, Named(w)), s2, Go(p), s3);
    assert s3.acts[p := t.acts[p]] == t.acts;
    ExecStep(c, s3, Go(p), t, []);
    ExecConcat(c, s, [Go(p), Advance(p, Named(w)), Go(p)], [Go(p)]);
  }

  lemma SubmitRaises(c: Config, s: State, p: Pid)
    requires p in s.acts && s.acts[p].SubmitTask?
    ensures Exec(c, s, [Go(p), Advance(p, Raises), Go(p)]) == Some(Drop(Write(s, s.acts[p].job.(status := Error)), p))
  {
    var job := s.acts[p].job;
    var s1 := Put(s, p, SubmitRun(job));
    var s2 := Put(s, p, SubmitFailed(job));
    var t := Drop(Write(s, job.(status := Error)), p);
    assert s1.acts[p := s2.acts[p]] == s2.acts && s2.acts - {p} == t.acts;
    ExecThree(c, s, Go(p), s1, Advance(p, Raises), s2, Go(p), t);
  }

  /** What a lookup of workflow `w` makes of `row`; None when there is nothing to write yet. */
  function Decision(s: State, row: Job, w: WfName, reply: Reply): Option<Job> {
    if !Found(s, w, reply) then Some(Judged(row, Outcome(Error, WorkflowNotFound)))
    else
      match Verdict(s.argo[w])
      case None => None
      case Some(v) => Some(Judged(row, v))
  }

  /** What a lookup makes of a row, phase by phase. */
  lemma DecisionIs(s: State, row: Job, w: WfName, reply: Reply)
    ensures reply == Raises || w !in s.argo || s.argo[w].gone ==>
      Decision(s, row, w, reply) == Some(Job(row.id, row.sync, Error, row.workflow, WorkflowNotFound))
    ensures reply != Raises && w in s.argo && !s.argo[w].gone ==>
      && (s.argo[w].phase == Succeeded ==> Decision(s, row, w, reply) == Some(Job(row.id, row.sync, Finished, row.workflow, NoMessage)))
      && (s.argo[w].phase == Failed || s.argo[w].phase == Errored ==>
          Decision(s, row, w, reply) == Some(Job(row.id, row.sync, Error, row.workflow,
            if exists i | 0 <= i < |s.argo[w].nodes| :: MentionsOom(s.argo[w].nodes[i]) then OutOfMemory else JobFailed)))
      && (s.argo[w].phase == Pending || s.argo[w].phase == InProgress || s.argo[w].phase == Unknown ==> Decision(s, row, w, reply) == None)
  {
  }

  /** The poll ends with the decided row, or is back in the queue as it was. */
  function Polled(s: State, p: Pid, row: Job, w: WfName, reply: Reply): State {
    match Decision(s, row, w, reply)
    case None => s
    case Some(decided) => Drop(Write(s, decided), p)
  }

  /** What a poll leaves, phase by phase. */
  lemma PolledIs(s: State, p: Pid, row: Job, w: WfName, reply: Reply)
    requires row.id in s.db
    ensures var t := Polled(s, p, row, w, reply);
      if reply == Raises || w !in s.argo || s.argo[w].gone then
        t.db == s.db[row.id := Job(row.id, row.sync, Error, row.workflow, WorkflowNotFound)] && t.acts == s.acts - {p}
      else if s.argo[w].phase == Succeeded then
        t.db == s.db[row.id := Job(row.id, row.sync, Finished, row.workflow, NoMessage)] && t.acts == s.acts - {p}
      else if s.argo[w].phase == Failed || s.argo[w].phase == Errored then
        && t.db == s.db[row.id := Job(row.id, row.sync, Error, row.workflow,
          if exists i | 0 <= i < |s.argo[w].nodes| :: MentionsOom(s.argo[w].nodes[i]) then OutOfMemory else JobFailed)]
        && t.acts == s.acts - {p}
      else t == s
  {
    DecisionIs(s, row, w, reply);
  }

  /** The lookup, and then the write or the re-enqueue. */
  lemma LookupRun(c: Config, s: State, p: Pid, job: Job, w: WfName, row: Job, reply: Reply)
    requires p in s.acts && s.acts[p] == PollTask(job, w)
    ensures Exec(c, Put(s, p, PollRead(job, w, row)), [Advance(p, reply), Go(p)]) == Some(Polled(s, p, row, w, reply))
  {
    var s1 := Put(s, p, PollRead(job, w, row));
    var next := match Decision(s, row, w, reply) case None => PollAgain(job, w) case Some(decided) => PollDecided(decided);
    var s2 := Put(s, p, next);
    var t := Polled(s, p, row, w, reply);
    assert StepOf(c, s1, PollRead(job, w, row), reply) == Some(Moves(next));
    assert s1.acts[p := next] == s2.acts;
    assert Next(c, s1, Advance(p, reply)) == Some(s2);
    if next.PollAgain? {
      assert s2.acts[p := PollTask(job, w)] == s.acts;
    } else {
      assert s2.acts - {p} == s.acts - {p};
    }
    ExecStep(c, s2, Go(p), t, []);
    ExecStep(c, s1, Advance(p, reply), s2, [Go(p)]);
    assert [Advance(p, reply)] + [Go(p)] == [Advance(p, reply), Go(p)];
  }

  lemma PollRun(c: Config, s: State, p: Pid, reply: Reply)
    requires p in s.acts && s.acts[p].PollTask? && s.acts[p].job.id in s.db
    ensures Exec(c, s, [Go(p), Advance(p, reply), Go(p)]) == Some(Polled(s, p, s.db[s.acts[p].job.id], s.acts[p].wf, reply))
  {
    var job, w := s.acts[p].job, s.acts[p].wf;
    var row := s.db[job.id];
    ExecStep(c, s, Go(p), Put(s, p, PollRead(job, w, row)), [Advance(p, reply), Go(p)]);
    LookupRun(c, s, p, job, w, row, reply);
    assert [Go(p)] + [Advance(p, reply), Go(p)] == [Go(p), Advance(p, reply), Go(p)];
  }

  lemma PollOfDeleted(c: Config, s: State, p: Pid)
    requires p in s.acts && s.acts[p].PollTask? && s.acts[p].job.id !in s.db
    ensures Exec(c, s, [Go(p)]) == Some(Drop(s, p))
  {
    ExecStep(c, s, Go(p), Drop(s, p), []);
  }

  lemma CancelRun(c: Config, s: State, p: Pid, j: JobId, reply: Reply)
    requires p !in s.acts && j in s.db && (s.db[j].status == Queued || s.db[j].status == Running)
    ensures reply == Raises && s.db[j].status == Running && s.db[j].workflow.Some? ==>
      Exec(c, s, [CancelJob(p, j), Advance(p, reply)]) == Some(s)
    ensures !(reply == Raises && s.db[j].status == Running && s.db[j].workflow.Some?) ==>
      Exec(c, s, [CancelJob(p, j), Advance(p, reply), Go(p)]) == Some(Write(s, s.db[j].(status := Canceled)))
  {
    var job := s.db[j];
    var s1 := Put(s, p, CancelRead(job));
    assert s1.acts - {p} == s.acts;
    if reply == Raises && job.status == Running && job.workflow.Some? {
      ExecStep(c, s1, Advance(p, reply), s, []);
      ExecStep(c, s, CancelJob(p, j), s1, [Advance(p, reply)]);
      assert [CancelJob(p, j)] + [Advance(p, reply)] == [CancelJob(p, j), Advance(p, reply)];
    } else {
      var s2 := Put(s, p, CancelStopped(job.(status := Canceled)));
      assert s1.acts[p := s2.acts[p]] == s2.acts && s2.acts - {p} == s.acts;
      ExecThree(c, s, CancelJob(p, j), s1, Advance(p, reply), s2, Go(p), Write(s, job.(status := Canceled)));
    }
  }

  lemma ExecTwo(c: Config, s: State, x: Step, t: State, y: Step, u: State)
    requires Next(c, s, x) == Some(t) && Next(c, t, y) == Some(u)
    ensures Exec(c, s, [x, y]) == Some(u)
  {
    ExecStep(c, t, y, u, []);
    ExecStep(c, s, x, t, [y]);
    assert [x] + [y] == [x, y];
  }

  lemma StaleSteps(c: Config, s: State, p: Pid, reply: Reply)
    requires Next(c, s, Advance(p, reply)).Some? && Next(c, Next(c, s, Advance(p, reply)).value, Go(p)).Some?
    ensures Exec(c, s, [Advance(p, reply), Go(p)]) == Next(c, Next(c, s, Advance(p, reply)).value, Go(p))
  {
    var t := Next(c, s, Advance(p, reply)).value;
    ExecTwo(c, s, Advance(p, reply), t, Go(p), Next(c, t, Go(p)).value);
  }

  /** Whatever was written since a handler read the row, the handler writes back what it read, with the
      status it has come to: the canceller, */
  lemma StaleCancelWins(c: Config, s: State, p: Pid)
    requires p in s.acts && s.acts[p].CancelRead? && s.acts[p].job.id in s.db
    ensures var job, end := s.acts[p].job, Exec(c, s, [Go(p), Go(p)]);
      end.Some? && end.value.db == s.db[job.id := Job(job.id, job.sync, Canceled, job.workflow, job.message)]
  {
    StaleSteps(c, s, p, Normal);
  }

  /** the submission, */
  lemma StaleSubmitWins(c: Config, s: State, p: Pid, w: WfName)
    requires p in s.acts && s.acts[p].SubmitRun? && s.acts[p].job.id in s.db && w !in s.argo
    ensures var job, end := s.acts[p].job, Exec(c, s, [Advance(p, Named(w)), Go(p)]);
      end.Some? && end.value.db == s.db[job.id := Job(job.id, job.sync, Running, Some(w), job.message)]
  {
    StaleSteps(c, s, p, Named(w));
  }

  /** the poller, */
  lemma StalePollWins(c: Config, s: State, p: Pid)
    requires p in s.acts && s.acts[p].PollRead? && s.acts[p].row.id in s.db
    ensures var row, end := s.acts[p].row, Exec(c, s, [Advance(p, Raises), Go(p)]);
      end.Some? && end.value.db == s.db[row.id := Job(row.id, row.sync, Error, row.workflow, WorkflowNotFound)]
  {
    StaleSteps(c, s, p, Raises);
  }

  /** and the reconciler. */
  lemma StaleReconcileWins(c: Config, s: State, p: Pid)
    requires p in s.acts && s.acts[p].ReconcileLoop? && s.acts[p].rest != []
    requires s.acts[p].rest[0].workflow.Some? && s.acts[p].rest[0].id in s.db
    ensures var row, end := s.acts[p].rest[0], Exec(c, s, [Advance(p, Raises), Go(p)]);
      end.Some? && end.value.db == s.db[row.id := Job(row.id, row.sync, Error, row.workflow, WorkflowNotFound)]
  {
    StaleSteps(c, s, p, Raises);
  }

  /** The row the reconciler leaves behind, given how its lookup went. */
  function Reconciled(s: State, row: Job, reply: Reply): Job {
    match row.workflow
    case None => Judged(row, Outcome(Error, NoWorkflow))
    case Some(w) => match Decision(s, row, w, reply) case None => row case Some(decided) => decided
  }

  /** What the reconciler leaves of a row, phase by phase. */
  lemma ReconciledIs(s: State, row: Job, reply: Reply)
    ensures row.workflow == None ==> Reconciled(s, row, reply) == Job(row.id, row.sync, Error, None, NoWorkflow)
    ensures row.workflow.Some? ==>
      var w, now := row.workflow.value, Reconciled(s, row, reply);
      if reply == Raises || w !in s.argo || s.argo[w].gone then now == Job(row.id, row.sync, Error, row.workflow, WorkflowNotFound)
      else
        match s.argo[w].phase
        case Succeeded => now == Job(row.id, row.sync, Finished, row.workflow, NoMessage)
        case Failed => now == Job(row.id, row.sync, Error, row.workflow,
          if exists i | 0 <= i < |s.argo[w].nodes| :: MentionsOom(s.argo[w].nodes[i]) then OutOfMemory else JobFailed)
        case Errored => now == Job(row.id, row.sync, Error, row.workflow,
          if exists i | 0 <= i < |s.argo[w].nodes| :: MentionsOom(s.argo[w].nodes[i]) then OutOfMemory else JobFailed)
        case _ => now == row
  {
    if row.workflow.Some? { DecisionIs(s, row, row.workflow.value, reply); }
  }

  /** The reconciler's loop over the rows its query returned. */
  function Swept(s: State, rows: seq<Job>, replies: seq<Reply>): State
    requires |replies| == |rows|
    decreases |rows|
  {
    if rows == [] then s
    else Swept(Write(s, Reconciled(s, rows[0], replies[0])), rows[1..], replies[1..])
  }

  /** Each row still to visit is the current one. */
  predicate Current(s: State, rows: seq<Job>) {
    && (forall i | 0 <= i < |rows| :: rows[i].id in s.db && s.db[rows[i].id] == rows[i])
    && (forall i, k | 0 <= i < k < |rows| :: rows[i].id != rows[k].id)
  }

  lemma VisitCurrent(s: State, rows: seq<Job>, reply: Reply)
    requires rows != [] && Current(s, rows)
    ensures Current(Write(s, Reconciled(s, rows[0], reply)), rows[1..])
  {
    assert forall i | 0 <= i < |rows| - 1 :: rows[1..][i] == rows[i + 1] && rows[i + 1].id != rows[0].id;
  }

  lemma VisitAct(s: State, p: Pid, row: Job, rest: seq<Job>, reply: Reply)
    ensures var act := Visit(Put(s, p, ReconcileLoop([row] + rest)), row, rest, reply);
      (act == ReconcileLoop(rest) && Reconciled(s, row, reply) == row) || act == ReconcileDecided(Reconciled(s, row, reply), rest)
  {
  }

  /** A run in which only handler `p` moves. */
  predicate OnlyAdvances(run: seq<Step>, p: Pid) {
    forall i | 0 <= i < |run| :: run[i].Advance? && run[i].p == p
  }

  /** The run of one reconciler: its query, and then its own steps. */
  predicate IsReconciliation(run: seq<Step>, p: Pid, rows: seq<Job>) {
    run != [] && run[0] == Reconcile(p, rows) && OnlyAdvances(run[1..], p)
  }

  lemma VisitStep(c: Config, s: State, p: Pid, rows: seq<Job>, reply: Reply)
    requires p !in s.acts && rows != []
    ensures var at := Put(s, p, ReconcileLoop(rows));
      Next(c, at, Advance(p, reply)) == Some(Put(s, p, Visit(at, rows[0], rows[1..], reply)))
  {
    var at := Put(s, p, ReconcileLoop(rows));
    var act := Visit(at, rows[0], rows[1..], reply);
    assert at.acts[p := act] == Put(s, p, act).acts;
  }

  lemma WriteStep(c: Config, s: State, p: Pid, row: Job, rest: seq<Job>)
    requires p !in s.acts
    ensures Next(c, Put(s, p, ReconcileDecided(row, rest)), Go(p)) == Some(Put(Write(s, row), p, ReconcileLoop(rest)))
  {
    var mid := Put(s, p, ReconcileDecided(row, rest));
    assert mid.acts[p := ReconcileLoop(rest)] == Put(Write(s, row), p, ReconcileLoop(rest)).acts;
  }

  lemma VisitRun(c: Config, s: State, p: Pid, rows: seq<Job>, reply: Reply) returns (run: seq<Step>)
    requires p !in s.acts && rows != [] && Current(s, rows)
    ensures Exec(c, Put(s, p, ReconcileLoop(rows)), run) == Some(Put(Write(s, Reconciled(s, rows[0], reply)), p, ReconcileLoop(rows[1..])))
    ensures OnlyAdvances(run, p)
  {
    var row, rest := rows[0], rows[1..];
    assert rows == [row] + rest;
    var at := Put(s, p, ReconcileLoop(rows));
    var act := Visit(at, row, rest, reply);
    var mid := Put(s, p, act);
    VisitAct(s, p, row, rest, reply);
    VisitStep(c, s, p, rows, reply);
    ExecStep(c, at, Advance(p, reply), mid, []);
    if act.ReconcileLoop? {
      assert Write(s, Reconciled(s, row, reply)).db == s.db;
      run := [Advance(p, reply)];
    } else {
      var end := Put(Write(s, Reconciled(s, row, reply)), p, ReconcileLoop(rest));
      run := [Advance(p, reply)] + [Go(p)];
      WriteStep(c, s, p, Reconciled(s, row, reply), rest);
      ExecStep(c, mid, Go(p), end, []);
      ExecConcat(c, at, [Advance(p, reply)], [Go(p)]);
    }
  }

  lemma {:induction false} SweepRun(c: Config, s: State, p: Pid, rows: seq<Job>, replies: seq<Reply>) returns (run: seq<Step>)
    requires p !in s.acts && |replies| == |rows| && Current(s, rows)
    ensures Exec(c, Put(s, p, ReconcileLoop(rows)), run) == Some(Swept(s, rows, replies)) && OnlyAdvances(run, p)
    decreases |rows|
  {
    if rows == [] {
      run := [Go(p)];
      assert Put(s, p, ReconcileLoop(rows)).acts - {p} == s.acts;
      ExecStep(c, Put(s, p, ReconcileLoop(rows)), Go(p), s, []);
    } else {
      var t := Write(s, Reconciled(s, rows[0], replies[0]));
      var first := VisitRun(c, s, p, rows, replies[0]);
      VisitCurrent(s, rows, replies[0]);
      var rest := SweepRun(c, t, p, rows[1..], replies[1..]);
      run := first + rest;
      ExecConcat(c, Put(s, p, ReconcileLoop(rows)), first, rest);
    }
  }

  /** One turn of the loop. */
  lemma SweepNext(s: State, rows: seq<Job>, replies: seq<Reply>, k: nat)
    requires |replies| == |rows| && k < |rows| && Current(s, rows[k..])
    ensures var t := Write(s, Reconciled(s, rows[k], replies[k]));
      Current(t, rows[k + 1..]) && Swept(s, rows[k..], replies[k..]) == Swept(t, rows[k + 1..], replies[k + 1..])
  {
    assert rows[k..][1..] == rows[k + 1..] && replies[k..][1..] == replies[k + 1..];
    VisitCurrent(s, rows[k..], replies[k]);
  }

  /** Without interference one reconciliation is a run of the protocol. */
  lemma ReconcileRun(c: Config, s: State, p: Pid, rows: seq<Job>, replies: seq<Reply>) returns (run: seq<Step>)
    requires p !in s.acts && |replies| == |rows| && IsRunningRows(s.db, rows)
    ensures Exec(c, s, run) == Some(Swept(s, rows, replies)) && IsReconciliation(run, p, rows)
  {
    var sweep := SweepRun(c, s, p, rows, replies);
    ExecStep(c, s, Reconcile(p, rows), Put(s, p, ReconcileLoop(rows)), sweep);
    run := [Reconcile(p, rows)] + sweep;
    assert run[1..] == sweep;
  }

  lemma {:induction false} SweptFrame(s: State, rows: seq<Job>, replies: seq<Reply>)
    requires |replies| == |rows| && Current(s, rows)
    ensures var t := Swept(s, rows, replies); t.(db := s.db) == s && t.db.Keys == s.db.Keys
    decreases |rows|
  {
    if rows != [] {
      VisitCurrent(s, rows, replies[0]);
      SweptFrame(Write(s, Reconciled(s, rows[0], replies[0])), rows[1..], replies[1..]);
    }
  }

  lemma {:induction false} SweptOther(s: State, rows: seq<Job>, replies: seq<Reply>, j: JobId)
    requires |replies| == |rows| && j in s.db && forall i | 0 <= i < |rows| :: rows[i].id != j
    ensures j in Swept(s, rows, replies).db && Swept(s, rows, replies).db[j] == s.db[j]
    decreases |rows|
  {
    if rows != [] {
      assert forall i | 0 <= i < |rows| - 1 :: rows[1..][i] == rows[i + 1];
      SweptOther(Write(s, Reconciled(s, rows[0], replies[0])), rows[1..], replies[1..], j);
    }
  }

  lemma {:induction false} SweptRow(s: State, rows: seq<Job>, replies: seq<Reply>, i: nat)
    requires |replies| == |rows| && Current(s, rows) && i < |rows|
    ensures var t := Swept(s, rows, replies); rows[i].id in t.db && t.db[rows[i].id] == Reconciled(s, rows[i], replies[i])
    decreases |rows|
  {
    var u := Write(s, Reconciled(s, rows[0], replies[0]));
    VisitCurrent(s, rows, replies[0]);
    if i > 0 {
      SweptRow(u, rows[1..], replies[1..], i - 1);
      DecisionFrame(s, u, rows[i], replies[i]);
    } else {
      assert u.db[rows[0].id] == Reconciled(s, rows[0], replies[0]);
      assert forall k | 0 <= k < |rows| - 1 :: rows[1..][k] == rows[k + 1] && rows[k + 1].id != rows[0].id;
      SweptOther(u, rows[1..], replies[1..], rows[0].id);
    }
  }

  /** It leaves every row it visits as the lookups decided, and nothing else changed. */
  lemma SweptRows(s: State, rows: seq<Job>, replies: seq<Reply>)
    requires |replies| == |rows| && Current(s, rows)
    ensures var t := Swept(s, rows, replies);
      && t.(db := s.db) == s && t.db.Keys == s.db.Keys
      && (forall i | 0 <= i < |rows| :: t.db[rows[i].id] == Reconciled(s, rows[i], replies[i]))
      && (forall j | j in s.db && (forall i | 0 <= i < |rows| :: rows[i].id != j) :: t.db[j] == s.db[j])
  {
    SweptFrame(s, rows, replies);
    forall i | 0 <= i < |rows| ensures Swept(s, rows, replies).db[rows[i].id] == Reconciled(s, rows[i], replies[i]) {
      SweptRow(s, rows, replies, i);
    }
    forall j | j in s.db && (forall i | 0 <= i < |rows| :: rows[i].id != j) ensures Swept(s, rows, replies).db[j] == s.db[j] {
      SweptOther(s, rows, replies, j);
    }
  }

  /** A decision looks only at Argo. */
  lemma DecisionFrame(s: State, t: State, row: Job, reply: Reply)
    requires s.argo == t.argo
    ensures Reconciled(s, row, reply) == Reconciled(t, row, reply)
  {
  }
}
