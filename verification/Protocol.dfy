/** The job lifecycle as a transition system. API handlers, RQ tasks and the reconciler
    are split at every database read, database write, external call and enqueue, so any
    of them can act on a stale row. */
module Protocol {
  import opened Options
  import opened Jobs

  type Pid = nat

  /** A task waiting in RQ or a handler part-way through its body. The program points of
      one handler share a pid, and so does any RQ task a handler enqueues before it ends. */
  datatype Act =
    // start_job: row read and status test passed; workspace made
    | StartRead(job: Job)
    | StartMade(job: Job)
    // queue_to_submit: waiting in RQ; before the listing; after it, either way
    | QueueTask(job: Job)
    | QueueRun(job: Job)
    | QueueAdmitted(job: Job)
    | QueueDeferred(job: Job)
    // process_sync_job: row created
    | SyncCreated(job: Job)
    // submit_job: waiting; running; workflow created; creation raised; row written
    | SubmitTask(job: Job)
    | SubmitRun(job: Job)
    | SubmitCreated(job: Job, wf: WfName)
    | SubmitFailed(job: Job)
    | SubmitSaved(job: Job, wf: WfName)
    // poll_job_status: waiting; row read; row about to be written; about to re-enqueue
    | PollTask(job: Job, wf: WfName)
    | PollRead(job: Job, wf: WfName, row: Job)
    | PollDecided(row: Job)
    | PollAgain(job: Job, wf: WfName)
    // cancel_job: row read and status test passed; stop request sent
    | CancelRead(job: Job)
    | CancelStopped(row: Job)
    // reconcile: rows still to visit; a row about to be written
    | ReconcileLoop(rest: seq<Job>)
    | ReconcileDecided(row: Job, rest: seq<Job>)

  /** `ids` remembers every job id ever created and whether that job is synchronous. */
  datatype State = State(
    db: map<JobId, Job>,
    dirs: set<JobId>,
    acts: map<Pid, Act>,
    argo: map<WfName, Workflow>,
    ids: map<JobId, bool>)

  datatype Config = Config(argoServer: bool, limit: int)

  /** How an external call made by a handler turned out; Named gives a new workflow its name. */
  datatype Reply = Normal | Raises | Named(name: WfName)

  datatype Step =
    | CreateJob(j: JobId)
    | SyncJob(p: Pid, j: JobId)
    | StartJob(p: Pid, j: JobId)
    | CancelJob(p: Pid, j: JobId)
    | Reconcile(p: Pid, rows: seq<Job>)
    | DeleteJob(j: JobId)
    | Advance(p: Pid, reply: Reply)
    | PhaseChange(w: WfName, phase: Phase, nodes: seq<string>)
    | WorkflowGone(w: WfName)

  const INIT := State(map[], {}, map[], map[], map[])

  /** The row update; a row that has been deleted stays deleted. */
  function Modify(db: map<JobId, Job>, row: Job): map<JobId, Job> {
    if row.id in db then db[row.id := row] else db
  }

  function Listed(argo: map<WfName, Workflow>): set<WfName> {
    set w | w in argo && !argo[w].gone
  }

  function ActiveSet(argo: map<WfName, Workflow>): set<WfName> {
    set w | w in argo && Active(argo[w])
  }

  predicate Admits(c: Config, argo: map<WfName, Workflow>) {
    !c.argoServer || Listed(argo) == {} || |ActiveSet(argo)| < c.limit
  }

  /** Every row that is running, each once: what the reconciler's query returns. */
  predicate IsRunningRows(db: map<JobId, Job>, rows: seq<Job>) {
    && (forall i | 0 <= i < |rows| :: rows[i].id in db && db[rows[i].id] == rows[i] && rows[i].status == Running)
    && (forall i, k | 0 <= i < k < |rows| :: rows[i].id != rows[k].id)
    && (forall j | j in db && db[j].status == Running :: db[j] in rows)
  }

  predicate Found(s: State, w: WfName, reply: Reply) {
    reply != Raises && w in s.argo && !s.argo[w].gone
  }

  /** What one program step of a handler does: the program point it moves to (None when it
      ends), the row it writes, the workspace it makes and the workflow it creates. */
  datatype Effect = Effect(next: Option<Act>, row: Option<Job>, made: Option<JobId>, created: Option<(WfName, JobId)>)

  function Moves(a: Act): Effect { Effect(Some(a), None, None, None) }

  function Writes(row: Job, next: Option<Act>): Effect { Effect(next, Some(row), None, None) }

  const ENDS := Effect(None, None, None, None)

  /** One program step from the point `a`; None when it needs another kind of reply. */
  function StepOf(c: Config, s: State, a: Act, reply: Reply): Option<Effect> {
    match a
    case StartRead(job) =>
      if reply == Raises || job.id in s.dirs then Some(ENDS)
      else Some(Effect(Some(StartMade(job)), None, Some(job.id), None))
    case StartMade(job) =>
      var queued := job.(status := Queued);
      Some(Writes(queued, Some(QueueRun(queued))))
    case QueueTask(job) => Some(Moves(QueueRun(job)))
    case QueueRun(job) => Some(Moves(if Admits(c, s.argo) then QueueAdmitted(job) else QueueDeferred(job)))
    case QueueAdmitted(job) => Some(Moves(SubmitTask(job)))
    case QueueDeferred(job) => Some(Moves(QueueTask(job)))
    case SyncCreated(job) => Some(Moves(SubmitTask(job)))
    case SubmitTask(job) => Some(Moves(SubmitRun(job)))
    case SubmitRun(job) => (
      match reply
      case Normal => None
      case Raises => Some(Moves(SubmitFailed(job)))
      case Named(w) =>
        if w in s.argo then None else Some(Effect(Some(SubmitCreated(job, w)), None, None, Some((w, job.id)))))
    case SubmitCreated(job, w) =>
      var running := job.(status := Running, workflow := Some(w));
      Some(Writes(running, Some(SubmitSaved(running, w))))
    case SubmitFailed(job) => Some(Writes(job.(status := Error), None))
    case SubmitSaved(job, w) => Some(Moves(PollTask(job, w)))
    case PollTask(job, w) => Some(if job.id in s.db then Moves(PollRead(job, w, s.db[job.id])) else ENDS)
    case PollRead(job, w, row) => (
      if !Found(s, w, reply) then Some(Moves(PollDecided(Judged(row, Outcome(Error, WorkflowNotFound)))))
      else
        match Verdict(s.argo[w])
        case None => Some(Moves(PollAgain(job, w)))
        case Some(v) => Some(Moves(PollDecided(Judged(row, v)))))
    case PollDecided(row) => Some(Writes(row, None))
    case PollAgain(job, w) => Some(Moves(PollTask(job, w)))
    case CancelRead(job) =>
      if reply == Raises && job.status == Running && job.workflow.Some? then Some(ENDS)
      else Some(Moves(CancelStopped(job.(status := Canceled))))
    case CancelStopped(row) => Some(Writes(row, None))
    case ReconcileLoop(rest) => Some(if rest == [] then ENDS else Moves(Visit(s, rest[0], rest[1..], reply)))
    case ReconcileDecided(row, rest) => Some(Writes(row, Some(ReconcileLoop(rest))))
  }

  /** One turn of the reconciler's loop, up to its write. */
  function Visit(s: State, row: Job, rest: seq<Job>, reply: Reply): Act {
    match row.workflow
    case None => ReconcileDecided(Judged(row, Outcome(Error, NoWorkflow)), rest)
    case Some(w) =>
      if !Found(s, w, reply) then ReconcileDecided(Judged(row, Outcome(Error, WorkflowNotFound)), rest)
      else
        match Verdict(s.argo[w])
        case None => ReconcileLoop(rest)
        case Some(v) => ReconcileDecided(Judged(row, v), rest)
  }

  function Put(s: State, p: Pid, a: Act): State {
    s.(acts := s.acts[p := a])
  }

  function Fresh(owner: JobId): Workflow {
    Workflow(owner, Pending, [], false, false)
  }

  /** The effect of a program step of handler `p` on the shared state. */
  function Perform(s: State, p: Pid, e: Effect): State {
    State(
      if e.row.Some? then Modify(s.db, e.row.value) else s.db,
      if e.made.Some? then s.dirs + {e.made.value} else s.dirs,
      if e.next.Some? then s.acts[p := e.next.value] else s.acts - {p},
      if e.created.Some? then s.argo[e.created.value.0 := Fresh(e.created.value.1)] else s.argo,
      s.ids)
  }

  /** One step of the whole system; None when the step cannot happen in `s`. */
  function Next(c: Config, s: State, step: Step): Option<State> {
    match step
    case CreateJob(j) =>
      if j in s.ids then None
      else Some(s.(db := s.db[j := NewJob(j)], ids := s.ids[j := false]))
    case SyncJob(p, j) =>
      if j in s.ids || p in s.acts then None
      else
        var job := Job(j, true, Queued, None, NoMessage);
        Some(Put(s.(db := s.db[j := job], ids := s.ids[j := true]), p, SyncCreated(job)))
    case StartJob(p, j) =>
      if p in s.acts || j !in s.db || s.db[j].status == Queued || s.db[j].status == Running then None
      else Some(Put(s, p, StartRead(s.db[j])))
    case CancelJob(p, j) =>
      if p in s.acts || j !in s.db || (s.db[j].status != Queued && s.db[j].status != Running) then None
      else Some(Put(s, p, CancelRead(s.db[j])))
    case Reconcile(p, rows) =>
      if p in s.acts || !IsRunningRows(s.db, rows) then None else Some(Put(s, p, ReconcileLoop(rows)))
    case DeleteJob(j) =>
      if j !in s.db then None else Some(s.(db := s.db - {j}, dirs := s.dirs - {j}))
    case Advance(p, reply) => (
      if p !in s.acts then None
      else
        match StepOf(c, s, s.acts[p], reply)
        case None => None
        case Some(e) => Some(Perform(s, p, e)))
    case PhaseChange(w, phase, nodes) =>
      if w !in s.argo || s.argo[w].gone then None
      else
        var was := s.argo[w];
        Some(s.(argo := s.argo[w := was.(phase := phase, nodes := nodes, succeeded := was.succeeded || phase == Succeeded)]))
    case WorkflowGone(w) =>
      if w !in s.argo then None else Some(s.(argo := s.argo[w := s.argo[w].(gone := true)]))
  }

  /** The state a run ends in; None when one of its steps cannot happen. */
  function Exec(c: Config, s: State, run: seq<Step>): Option<State>
    decreases |run|
  {
    if run == [] then Some(s)
    else
      match Next(c, s, run[0])
      case None => None
      case Some(t) => Exec(c, t, run[1..])
  }

  /** Every step of the run, with the state it is taken in, satisfies `ok`. */
  ghost predicate Along(c: Config, s: State, run: seq<Step>, ok: (State, Step) -> bool)
    decreases |run|
  {
    run == [] || (ok(s, run[0]) && match Next(c, s, run[0]) case None => true case Some(t) => Along(c, t, run[1..], ok))
  }

  lemma {:induction false} ExecConcat(c: Config, s: State, a: seq<Step>, b: seq<Step>)
    ensures Exec(c, s, a + b) == match Exec(c, s, a) case None => None case Some(t) => Exec(c, t, b)
    decreases |a|
  {
    if a == [] {
      assert a + b == b;
    } else {
      assert (a + b)[0] == a[0] && (a + b)[1..] == a[1..] + b;
      match Next(c, s, a[0]) {
        case None =>
        case Some(t) => ExecConcat(c, t, a[1..], b);
      }
    }
  }
}
