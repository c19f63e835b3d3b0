/** The handlers as they are written: methods over the tables they share, each held to its
    specification and to the run of the protocol it is, and all of them to one invariant: no job is
    lost, and no batch job has two obligations or two workflows. */
module Backends {
  import opened Options
  import opened Jobs
  import opened Protocol
  import opened Obligations
  import opened StartOnce
  import opened Handlers

  /** What every undisturbed handler keeps. */
  ghost predicate Kept(s: State) {
    Inv(s) && forall j | Batch(s, j) :: Once(s, j)
  }

  /** No handler is part-way through: what is left to do waits in RQ. */
  predicate AtRest(acts: map<Pid, Act>) {
    forall p | p in acts :: acts[p].QueueTask? || acts[p].SubmitTask? || acts[p].PollTask?
  }

  lemma StaysAtRest(acts: map<Pid, Act>, p: Pid, a: Act)
    requires AtRest(acts) && (a.QueueTask? || a.SubmitTask? || a.PollTask?)
    ensures AtRest(acts[p := a])
  {
  }

  predicate NoDelete(run: seq<Step>) {
    forall i | 0 <= i < |run| :: !run[i].DeleteJob?
  }

  lemma {:induction false} NoDeleteIsQuiet(c: Config, s: State, run: seq<Step>, j: JobId)
    requires NoDelete(run)
    ensures Along(c, s, run, (u, step) => QuietDelete(u, step, j))
    decreases |run|
  {
    if run != [] && Next(c, s, run[0]).Some? { NoDeleteIsQuiet(c, Next(c, s, run[0]).value, run[1..], j); }
  }

  lemma RunIsKept(c: Config, s: State, run: seq<Step>)
    requires Kept(s) && Exec(c, s, run).Some? && NoDelete(run)
    ensures Kept(Exec(c, s, run).value)
  {
    RunKeepsInv(c, s, run);
    forall j | Batch(Exec(c, s, run).value, j) ensures Once(Exec(c, s, run).value, j) {
      NoDeleteIsQuiet(c, s, run, j);
      RunKeepsOnce(c, s, run, j);
    }
  }

  lemma StartIsKept(c: Config, s: State, p: Pid, j: JobId)
    requires Kept(s) && p !in s.acts && j in s.db && s.db[j].status != Queued && s.db[j].status != Running && s.db[j].id !in s.dirs
    ensures Exec(c, s, [StartJob(p, j), Go(p), Go(p)] + [Go(p), Go(p)]) == Some(Started(c, s, p, s.db[j]))
    ensures Kept(Started(c, s, p, s.db[j]))
  {
    StartRun(c, s, p, j);
    RunIsKept(c, s, [StartJob(p, j), Go(p), Go(p)] + [Go(p), Go(p)]);
  }

  lemma PollIsKept(c: Config, s: State, p: Pid, reply: Reply)
    requires Kept(s) && p in s.acts && s.acts[p].PollTask? && s.acts[p].job.id in s.db
    ensures Exec(c, s, [Go(p), Advance(p, reply), Go(p)]) == Some(Polled(s, p, s.db[s.acts[p].job.id], s.acts[p].wf, reply))
    ensures Kept(Polled(s, p, s.db[s.acts[p].job.id], s.acts[p].wf, reply))
  {
    PollRun(c, s, p, reply);
    RunIsKept(c, s, [Go(p), Advance(p, reply), Go(p)]);
  }

  /** A deletion between handlers overtakes no start request. */
  lemma DeleteIsKept(c: Config, s: State, j: JobId)
    requires Kept(s) && AtRest(s.acts) && j in s.db
    ensures Kept(Next(c, s, Step.DeleteJob(j)).value)
  {
    StepKeepsInv(c, s, Step.DeleteJob(j));
    forall i | Batch(Next(c, s, Step.DeleteJob(j)).value, i) ensures Once(Next(c, s, Step.DeleteJob(j)).value, i) {
      StepKeepsOnce(c, s, Step.DeleteJob(j), i);
    }
  }

  /** After a deletion, whatever run follows, the job stays deleted and is not submitted again. */
  lemma DeletedForGood(c: Config, s: State, j: JobId, run: seq<Step>)
    requires Kept(s) && j in s.ids && j !in s.db && Exec(c, s, run).Some?
    ensures var t := Exec(c, s, run).value; j !in t.db && (Batch(s, j) ==> !TwiceSubmitted(t, j))
  {
    DeletedStaysDeleted(c, s, run, j);
    if Batch(s, j) { RunKeepsOnce(c, s, run, j); }
  }

  datatype Response = Accepted | NotFound | BadRequest | Failure

  lemma ReconciliationKept(c: Config, s: State, run: seq<Step>, p: Pid, rows: seq<Job>)
    requires Kept(s) && Exec(c, s, run).Some? && IsReconciliation(run, p, rows)
    ensures Kept(Exec(c, s, run).value)
  {
    forall i | 0 <= i < |run| ensures !run[i].DeleteJob? { if i > 0 { assert run[i] == run[1..][i - 1]; } }
    RunIsKept(c, s, run);
  }

  /** The query's rows: the current running rows, each once. */
  lemma RunningRowsAre(db: map<JobId, Job>, rows: seq<Job>)
    requires forall j :: (exists i :: 0 <= i < |rows| && rows[i].id == j) <==> j in db && db[j].status == Running
    requires forall i | 0 <= i < |rows| :: rows[i].id in db
    requires forall i | 0 <= i < |rows| :: rows[i] == db[rows[i].id] && forall k | 0 <= k < i :: rows[k].id != rows[i].id
    ensures IsRunningRows(db, rows)
  {
    forall j | j in db && db[j].status == Running ensures db[j] in rows { var i :| 0 <= i < |rows| && rows[i].id == j; }
  }

  /** What a reconciliation leaves, row by row. */
  lemma SweptIs(s: State, rows: seq<Job>, replies: seq<Reply>)
    requires |replies| == |rows| && IsRunningRows(s.db, rows)
    ensures var db := Swept(s, rows, replies).db;
      db.Keys == s.db.Keys && forall j | j in db && s.db[j].status != Running :: db[j] == s.db[j]
    ensures forall i | 0 <= i < |rows| && rows[i].workflow.Some? ::
      var row, w, now := rows[i], rows[i].workflow.value, Swept(s, rows, replies).db[rows[i].id];
      if replies[i] == Raises || w !in s.argo || s.argo[w].gone then now == Job(row.id, row.sync, Error, row.workflow, WorkflowNotFound)
      else
        match s.argo[w].phase
        case Succeeded => now == Job(row.id, row.sync, Finished, row.workflow, NoMessage)
        case Failed => now == Job(row.id, row.sync, Error, row.workflow,
          if exists k | 0 <= k < |s.argo[w].nodes| :: MentionsOom(s.argo[w].nodes[k]) then OutOfMemory else JobFailed)
        case Errored => now == Job(row.id, row.sync, Error, row.workflow,
          if exists k | 0 <= k < |s.argo[w].nodes| :: MentionsOom(s.argo[w].nodes[k]) then OutOfMemory else JobFailed)
        case _ => now == row
  {
    SweptRows(s, rows, replies);
    forall i | 0 <= i < |rows| { ReconciledIs(s, rows[i], replies[i]); }
  }

  class Backend {
    const config: Config
    var db: map<JobId, Job>
    var dirs: set<JobId>
    var tasks: map<Pid, Act>
    var argo: map<WfName, Workflow>
    ghost var ids: map<JobId, bool>

    constructor (config: Config)
      ensures View() == INIT && this.config == config && Valid()
    {
      this.config := config;
      db, dirs, tasks, argo, ids := map[], {}, map[], map[], map[];
    }

    ghost function View(): State
      reads this
    {
      State(db, dirs, tasks, argo, ids)
    }

    ghost predicate Valid()
      reads this
    {
      Kept(View()) && AtRest(tasks)
    }

    /** What the invariant says of a job: a queued one waits for its check or its submission, a running
        one for its poll; a batch job waits for one thing at a time and owns one workflow at most. */
    lemma NothingIsLost(j: JobId)
      requires Valid() && j in db
      ensures db[j].status == Queued ==> exists p :: p in tasks && (tasks[p].QueueTask? || tasks[p].SubmitTask?) && tasks[p].job.id == j
      ensures db[j].status == Running ==> exists p :: p in tasks && tasks[p].PollTask? && tasks[p].job.id == j
      ensures Batch(View(), j) ==> forall p, q | p in tasks && q in tasks && tasks[p].job.id == j && tasks[q].job.id == j :: p == q
      ensures Batch(View(), j) ==> forall v, w | Owns(View(), j, v) && Owns(View(), j, w) :: v == w
    {
      assert RowOk(View(), j);
      if db[j].status == Queued {
        var p :| p in tasks && PreSubmit(tasks[p], j);
        assert tasks[p].job.id == j;
      }
      if db[j].status == Running {
        var p :| p in tasks && PostSubmit(tasks[p], j);
        assert tasks[p].job.id == j;
      }
      if Batch(View(), j) {
        forall p | p in tasks && tasks[p].job.id == j ensures Owes(tasks[p], j) { }
      }
    }

    /** create_job: the new job owes nothing and owns nothing. */
    method CreateJob(j: JobId)
      requires Valid() && j !in ids
      modifies this`db, this`ids
      ensures Valid() && db == old(db)[j := Job(j, false, Created, None, NoMessage)]
      ensures forall p | p in tasks :: !Owes(tasks[p], j)
      ensures forall w :: !Owns(View(), j, w)
      ensures Exec(config, old(View()), [Step.CreateJob(j)]) == Some(View())
    {
      ghost var s := View();
      db := db[j := NewJob(j)];
      ids := ids[j := false];
      ExecStep(config, s, Step.CreateJob(j), View(), []);
      FreshIdOnce(s, j);
      RunIsKept(config, s, [Step.CreateJob(j)]);
    }

    /** process_sync_job, up to its wait: the job is queued past the check. */
    method SyncJob(p: Pid, j: JobId)
      requires Valid() && j !in ids && p !in tasks
      modifies this`db, this`ids, this`tasks
      ensures Valid() && db == old(db)[j := Job(j, true, Queued, None, NoMessage)]
      ensures tasks == old(tasks)[p := SubmitTask(Job(j, true, Queued, None, NoMessage))]
      ensures Exec(config, old(View()), [Step.SyncJob(p, j)] + [Go(p)]) == Some(View())
    {
      ghost var s := View();
      var job := Job(j, true, Queued, None, NoMessage);
      db := db[j := job];
      ids := ids[j := true];
      ghost var t := Put(View(), p, SyncCreated(job));
      tasks := tasks[p := SubmitTask(job)];
      assert t.acts[p := SubmitTask(job)] == tasks;
      ExecStep(config, t, Go(p), View(), []);
      ExecStep(config, s, Step.SyncJob(p, j), t, [Go(p)]);
      RunIsKept(config, s, [Step.SyncJob(p, j)] + [Go(p)]);
    }

    /** queue_to_submit taken from RQ by the worker. */
    method TakeCheck(p: Pid)
      requires Valid() && p in tasks && tasks[p].QueueTask?
      modifies this`tasks
      ensures Valid() && View() == Checked(config, old(View()), p, old(tasks[p]).job)
      ensures Exec(config, old(View()), [Go(p)] + [Go(p), Go(p)]) == Some(View())
    {
      ghost var s := View();
      CheckTaken(config, s, p);
      tasks := tasks[p := QueueRun(tasks[p].job)];
      QueueToSubmit(p);
      ExecConcat(config, s, [Go(p)], [Go(p), Go(p)]);
      RunIsKept(config, s, [Go(p)] + [Go(p), Go(p)]);
      assert tasks == s.acts[p := tasks[p]];
      StaysAtRest(s.acts, p, tasks[p]);
    }

    /** queue_to_submit, run as task `p`. */
    method QueueToSubmit(p: Pid)
      requires p in tasks && tasks[p].QueueRun?
      modifies this`tasks
      ensures View() == Checked(config, old(View()), p, old(tasks[p]).job)
      ensures tasks == old(tasks)[p := if config.argoServer && (exists w :: w in argo && !argo[w].gone)
        && |set w | w in argo && !argo[w].gone && (argo[w].phase == InProgress || argo[w].phase == Pending)| >= config.limit
        then QueueTask(old(tasks[p]).job) else SubmitTask(old(tasks[p]).job)]
      ensures Exec(config, old(View()), [Go(p), Go(p)]) == Some(View())
    {
      CheckRun(config, View(), p);
      CheckedIs(config, View(), p, tasks[p].job);
      var job := tasks[p].job;
      if config.argoServer {
        var workflows := Listed(argo);
        if workflows == {} {
          tasks := tasks[p := SubmitTask(job)];
          return;
        }
        var filtered := ActiveSet(argo);
        if |filtered| >= config.limit {
          tasks := tasks[p := QueueTask(job)];
          return;
        }
      }
      tasks := tasks[p := SubmitTask(job)];
    }

    /** start_job; `made` says whether the file system let the workspace be made. */
    method StartJob(p: Pid, j: JobId, made: Reply) returns (response: Response)
      requires Valid() && p !in tasks
      modifies this`db, this`dirs, this`tasks
      ensures Valid()
      ensures response == NotFound <==> j !in old(db)
      ensures response == BadRequest <==> j in old(db) && (old(db[j]).status == Queued || old(db[j]).status == Running)
      ensures response != Accepted ==> View() == old(View())
      ensures response == Accepted <==>
        j in old(db) && old(db[j]).status != Queued && old(db[j]).status != Running && made != Raises && old(db[j].id !in dirs)
      ensures response == Accepted ==> View() == Started(config, old(View()), p, old(db[j]))
      ensures response == Accepted ==>
        var queued := Job(j, old(db[j]).sync, Queued, old(db[j]).workflow, old(db[j]).message);
        && db == old(db)[j := queued] && dirs == old(dirs) + {j}
        && tasks == old(tasks)[p := if config.argoServer && (exists w :: w in argo && !argo[w].gone)
          && |set w | w in argo && !argo[w].gone && (argo[w].phase == InProgress || argo[w].phase == Pending)| >= config.limit
          then QueueTask(queued) else SubmitTask(queued)]
      ensures response == Accepted ==> Exec(config, old(View()), [Step.StartJob(p, j), Go(p), Go(p)] + [Go(p), Go(p)]) == Some(View())
      ensures response == Failure ==> Exec(config, old(View()), [Step.StartJob(p, j), Advance(p, made)]) == Some(View())
    {
      if j !in db {
        return NotFound;
      }
      var job := db[j];
      if job.status == Queued || job.status == Running {
        return BadRequest;
      }
      if made == Raises || job.id in dirs {
        StartRefused(config, View(), p, j, made);
        return Failure;
      }
      StartIsKept(config, View(), p, j);
      assert RowOk(View(), j);
      Launch(p, job);
      return Accepted;
    }

    /** The rest of that handler, from the mkdir on. */
    method Launch(p: Pid, row: Job)
      requires p !in tasks
      modifies this`db, this`dirs, this`tasks
      ensures View() == Started(config, old(View()), p, row)
      ensures tasks == old(tasks)[p := tasks[p]] && (tasks[p].QueueTask? || tasks[p].SubmitTask?)
      ensures tasks[p] == if config.argoServer && (exists w :: w in argo && !argo[w].gone)
        && |set w | w in argo && !argo[w].gone && (argo[w].phase == InProgress || argo[w].phase == Pending)| >= config.limit
        then QueueTask(row.(status := Queued)) else SubmitTask(row.(status := Queued))
    {
      var job := row;
      dirs := dirs + {job.id};
      job := job.(status := Queued);
      db := Modify(db, job);
      tasks := tasks[p := QueueRun(job)];
      QueueToSubmit(p);
      assert tasks == old(tasks)[p := tasks[p]];
    }

    /** submit_job; `reply` names the created workflow, or says that creation raised. */
    method SubmitJob(p: Pid, reply: Reply)
      requires Valid() && p in tasks && tasks[p].SubmitTask?
      requires reply == Raises || (reply.Named? && reply.name !in argo)
      modifies this`db, this`tasks, this`argo
      ensures Valid()
      ensures reply == Raises ==> View() == Drop(Write(old(View()), old(tasks[p]).job.(status := Error)), p)
      ensures reply == Raises ==> Exec(config, old(View()), [Go(p), Advance(p, reply), Go(p)]) == Some(View())
      ensures reply == Raises ==>
        var job := old(tasks[p]).job;
        && db == (if job.id in old(db) then old(db)[job.id := Job(job.id, job.sync, Error, job.workflow, job.message)] else old(db))
        && tasks == old(tasks) - {p} && argo == old(argo)
      ensures reply.Named? ==> View() == Submitted(old(View()), p, old(tasks[p]).job, reply.name)
      ensures reply.Named? ==>
        var job := old(tasks[p]).job;
        var running := Job(job.id, job.sync, Running, Some(reply.name), job.message);
        && db == (if job.id in old(db) then old(db)[job.id := running] else old(db))
        && tasks == old(tasks)[p := PollTask(running, reply.name)]
        && argo == old(argo)[reply.name := Workflow(job.id, Pending, [], false, false)]
      ensures reply.Named? ==> Exec(config, old(View()), [Go(p), Advance(p, reply), Go(p)] + [Go(p)]) == Some(View())
    {
      ghost var s := View();
      var job := tasks[p].job;
      if reply == Raises {
        SubmitRaises(config, s, p);
        job := job.(status := Error);
        db := Modify(db, job);
        tasks := tasks - {p};
        RunIsKept(config, s, [Go(p), Advance(p, reply), Go(p)]);
        return;
      }
      SubmitRunTo(config, s, p, reply.name);
      RunIsKept(config, s, [Go(p), Advance(p, reply), Go(p)] + [Go(p)]);
      argo := argo[reply.name := Fresh(job.id)];
      job := job.(status := Running, workflow := Some(reply.name));
      db := Modify(db, job);
      tasks := tasks[p := PollTask(job, reply.name)];
    }

    /** poll_job_status; `reply` says whether the lookup raised. */
    method PollJobStatus(p: Pid, reply: Reply)
      requires Valid() && p in tasks && tasks[p].PollTask?
      modifies this`db, this`tasks
      ensures Valid()
      ensures old(tasks[p]).job.id !in old(db) ==>
        View() == Drop(old(View()), p) && Exec(config, old(View()), [Go(p)]) == Some(View())
      ensures old(tasks[p]).job.id in old(db) ==>
        && View() == Polled(old(View()), p, old(db[tasks[p].job.id]), old(tasks[p]).wf, reply)
        && Exec(config, old(View()), [Go(p), Advance(p, reply), Go(p)]) == Some(View())
    {
      var job, w := tasks[p].job, tasks[p].wf;
      if job.id !in db {
        PollOfDeleted(config, View(), p);
        RunIsKept(config, View(), [Go(p)]);
        tasks := tasks - {p};
        return;
      }
      PollIsKept(config, View(), p, reply);
      var decided := Judge(db[job.id], w, reply);
      match decided {
        case Some(existing) =>
          db := Modify(db, existing);
          tasks := tasks - {p};
        case None =>
          tasks := tasks[p := PollTask(job, w)];
          assert tasks == old(tasks);
      }
    }

    /** The rest of that task up to its write: the row as it should now read, None to poll again. */
    method Judge(row: Job, w: WfName, reply: Reply) returns (decided: Option<Job>)
      ensures decided == Decision(View(), row, w, reply)
    {
      var existing := row;
      if reply == Raises || w !in argo || argo[w].gone {
        return Some(existing.(status := Error, message := WorkflowNotFound));
      }
      var workflow := argo[w];
      if workflow.phase == Succeeded {
        return Some(existing.(status := Finished, message := NoMessage));
      } else if workflow.phase == Failed || workflow.phase == Errored {
        var oom := DetectOom(workflow.nodes);
        existing := existing.(message := if oom then OutOfMemory else JobFailed);
        return Some(existing.(status := Error));
      }
      return None;
    }

    /** cancel_job; `stopped` is Raises when the stop request failed other than by "not found". */
    method CancelJob(p: Pid, j: JobId, stopped: Reply) returns (response: Response)
      requires Valid() && p !in tasks && j in db
      modifies this`db
      ensures Valid()
      ensures response == BadRequest <==> old(db[j]).status != Queued && old(db[j]).status != Running
      ensures response == Failure <==> stopped == Raises && old(db[j]).status == Running && old(db[j]).workflow.Some?
      ensures response == BadRequest || response == Failure || response == Accepted
      ensures response != Accepted ==> View() == old(View())
      ensures response == Accepted ==> View() == Write(old(View()), old(db[j]).(status := Canceled))
      ensures response == Accepted ==> db == old(db)[j := Job(j, old(db[j]).sync, Canceled, old(db[j]).workflow, old(db[j]).message)]
      ensures response == Accepted ==> Exec(config, old(View()), [Step.CancelJob(p, j), Advance(p, stopped), Go(p)]) == Some(View())
      ensures response == Failure ==> Exec(config, old(View()), [Step.CancelJob(p, j), Advance(p, stopped)]) == Some(View())
    {
      var job := db[j];
      if job.status != Queued && job.status != Running {
        return BadRequest;
      }
      CancelRun(config, View(), p, j, stopped);
      if job.status == Running && job.workflow.Some? {
        if stopped == Raises {
          return Failure;
        }
      }
      RunIsKept(config, View(), [Step.CancelJob(p, j), Advance(p, stopped), Go(p)]);
      assert RowOk(View(), j);
      job := job.(status := Canceled);
      db := Modify(db, job);
      return Accepted;
    }

    /** delete_job: in no run that follows does the row come back, or a batch job get a second workflow. */
    method DeleteJob(j: JobId)
      requires Valid() && j in db
      modifies this`db, this`dirs
      ensures Valid() && db == old(db) - {j} && dirs == old(dirs) - {j}
      ensures forall run | Exec(config, View(), run).Some? ::
        j !in Exec(config, View(), run).value.db && (Batch(View(), j) ==> !TwiceSubmitted(Exec(config, View(), run).value, j))
      ensures Exec(config, old(View()), [Step.DeleteJob(j)]) == Some(View())
    {
      ghost var s := View();
      DeleteIsKept(config, s, j);
      assert RowOk(s, j) && Truthful(s, s.db[j]);
      dirs := dirs - {j};
      db := db - {j};
      ExecStep(config, s, Step.DeleteJob(j), View(), []);
      forall run | Exec(config, View(), run).Some?
        ensures j !in Exec(config, View(), run).value.db && (Batch(View(), j) ==> !TwiceSubmitted(Exec(config, View(), run).value, j))
      {
        DeletedForGood(config, View(), j, run);
      }
    }

    /** reconcile, over the rows its query returned; `replies` says how each lookup went. */
    method Reconcile(p: Pid, rows: seq<Job>, replies: seq<Reply>) returns (ghost run: seq<Step>)
      requires Valid() && p !in tasks && |replies| == |rows|
      requires forall j :: (exists i :: 0 <= i < |rows| && rows[i].id == j) <==> j in db && db[j].status == Running
      requires forall i | 0 <= i < |rows| :: rows[i] == db[rows[i].id] && forall k | 0 <= k < i :: rows[k].id != rows[i].id
      modifies this`db
      ensures Valid() && View() == Swept(old(View()), rows, replies)
      ensures Exec(config, old(View()), run) == Some(View()) && IsReconciliation(run, p, rows)
    {
      RunningRowsAre(db, rows);
      run := ReconcileRun(config, View(), p, rows, replies);
      ReconciliationKept(config, View(), run, p, rows);
      ghost var end := Swept(View(), rows, replies);
      var k := 0;
      while k < |rows|
        invariant 0 <= k <= |rows|
        invariant Current(View(), rows[k..])
        invariant Swept(View(), rows[k..], replies[k..]) == end
      {
        ghost var s := View();
        var job := rows[k];
        SweepNext(s, rows, replies, k);
        var judged := Visit(job, replies[k]);
        db := Modify(db, judged);
        assert View() == Write(s, Reconciled(s, job, replies[k]));
        k := k + 1;
      }
    }

    /** The body of that loop: the row as it should now read, unchanged if its workflow is still going. */
    method Visit(row: Job, reply: Reply) returns (job: Job)
      ensures job == Reconciled(View(), row, reply)
    {
      job := row;
      if job.workflow.None? {
        job := job.(status := Error, message := NoWorkflow);
        return;
      }
      var w := job.workflow.value;
      if reply == Raises || w !in argo || argo[w].gone {
        job := job.(status := Error, message := WorkflowNotFound);
        return;
      }
      var workflow := argo[w];
      if workflow.phase == Succeeded {
        job := job.(status := Finished, message := NoMessage);
      } else if workflow.phase == Failed || workflow.phase == Errored {
        var oom := DetectOom(workflow.nodes);
        job := job.(message := if oom then OutOfMemory else JobFailed);
        job := job.(status := Error);
      }
    }
  }
}
