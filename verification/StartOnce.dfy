/** A batch job is started once, owes at most one thing at a time and never owns two
    workflows, as long as no deletion overtakes a start request; and exactly then. */
module StartOnce {
  import opened Options
  import opened Jobs
  import opened Protocol
  import opened Obligations

  predicate Batch(s: State, j: JobId) {
    j in s.ids && !s.ids[j]
  }

  ghost predicate StartInFlight(s: State, j: JobId) {
    exists p :: p in s.acts && Starting(s.acts[p], j)
  }

  /** A deletion that overtakes no start request for the same job. */
  ghost predicate QuietDelete(s: State, step: Step, j: JobId) {
    step == DeleteJob(j) ==> !StartInFlight(s, j)
  }

  /** An obligation whose workflow does not exist yet. */
  predicate PreCreate(a: Act, j: JobId) {
    Ahead(a, j) && !a.SubmitCreated?
  }

  ghost predicate Once(s: State, j: JobId) {
    && (forall p, q | p in s.acts && q in s.acts && Owes(s.acts[p], j) && Owes(s.acts[q], j) :: p == q)
    && (forall v, w | Owns(s, j, v) && Owns(s, j, w) :: v == w)
    && (forall p, w | p in s.acts && PreCreate(s.acts[p], j) :: !Owns(s, j, w))
    && (forall p | p in s.acts && Owes(s.acts[p], j) && j in s.db :: j in s.dirs)
    && (forall w | Owns(s, j, w) && j in s.db :: j in s.dirs)
    && (forall p | p in s.acts && Starting(s.acts[p], j) :: j in s.db)
  }

  /** What a handler step may do to the obligations towards `j`: hand its own on, or take one
      on by making the workspace. */
  predicate Shifts(s: State, a: Act, e: Effect, j: JobId) {
    var starts := Starting(a, j) && e.made == Some(j) && j !in s.dirs;
    && (e.next.Some? ==> !Starting(e.next.value, j))
    && (e.next.Some? && Owes(e.next.value, j) ==> Owes(a, j) || starts)
    && (e.next.Some? && PreCreate(e.next.value, j) ==> PreCreate(a, j) || starts)
    && (e.created.Some? ==> e.created.value.0 !in s.argo)
    && (e.created.Some? && e.created.value.1 == j ==> PreCreate(a, j) && e.next.Some? && Owes(e.next.value, j) && !PreCreate(e.next.value, j))
  }

  lemma DebtMoves(c: Config, s: State, a: Act, reply: Reply, j: JobId)
    requires StepOf(c, s, a, reply).Some? && Consistent(a)
    ensures Shifts(s, a, StepOf(c, s, a, reply).value, j)
  {
  }

  lemma ShiftKeepsOnce(s: State, p: Pid, e: Effect, j: JobId)
    requires p in s.acts && Once(s, j) && Shifts(s, s.acts[p], e, j)
    ensures Once(Perform(s, p, e), j)
  {
    var a := s.acts[p];
    var t := Perform(s, p, e);
    assert forall w: WfName | Owns(t, j, w) :: Owns(s, j, w) || (e.created == Some((w, j)) && PreCreate(a, j));
    if p in t.acts && Owes(t.acts[p], j) && !Owes(a, j) {
      assert j in s.db && j !in s.dirs;
    }
  }

  lemma AdvanceKeepsOnce(c: Config, s: State, p: Pid, reply: Reply, j: JobId)
    requires Inv(s) && Once(s, j) && Next(c, s, Advance(p, reply)).Some?
    ensures Once(Next(c, s, Advance(p, reply)).value, j)
  {
    assert ActOk(s, s.acts[p]);
    DebtMoves(c, s, s.acts[p], reply, j);
    ShiftKeepsOnce(s, p, StepOf(c, s, s.acts[p], reply).value, j);
  }

  /** Nothing refers to a job id before the job is created. */
  lemma FreshIdOnce(s: State, j: JobId)
    requires Inv(s) && j !in s.ids
    ensures forall p | p in s.acts :: !Owes(s.acts[p], j) && !Starting(s.acts[p], j)
    ensures forall w :: !Owns(s, j, w)
  {
    forall p | p in s.acts ensures !Owes(s.acts[p], j) && !Starting(s.acts[p], j) { assert ActOk(s, s.acts[p]); }
  }

  /** A step that takes on no obligation and creates nothing for `j`. */
  ghost predicate Idle(s: State, t: State, j: JobId) {
    && (forall p | p in t.acts :: (p in s.acts && t.acts[p] == s.acts[p]) || !Owes(t.acts[p], j))
    && (forall p | p in t.acts && Starting(t.acts[p], j) :: j in t.db)
    && (forall w :: Owns(t, j, w) ==> Owns(s, j, w))
    && (j in t.db ==> j in s.db && (j in s.dirs ==> j in t.dirs))
  }

  lemma IdleKeepsOnce(s: State, t: State, j: JobId)
    requires Once(s, j) && Idle(s, t, j)
    ensures Once(t, j)
  {
  }

  /** Requests, deletions and changes in Argo move no handler. */
  lemma RequestIsIdle(c: Config, s: State, step: Step, j: JobId)
    requires Batch(s, j) && Once(s, j) && !step.Advance? && Next(c, s, step).Some? && QuietDelete(s, step, j)
    requires forall i | i in s.db :: s.db[i].id == i
    ensures Idle(s, Next(c, s, step).value, j)
  {
    var t := Next(c, s, step).value;
    forall p | p in t.acts
      ensures (p in s.acts && t.acts[p] == s.acts[p]) || !Owes(t.acts[p], j)
      ensures Starting(t.acts[p], j) ==> j in t.db
    {
      if Mover(step) != Some(p) { OthersKept(c, s, step, p); }
    }
  }

  lemma RequestKeepsOnce(c: Config, s: State, step: Step, j: JobId)
    requires Batch(s, j) && Once(s, j) && !step.Advance? && Next(c, s, step).Some? && QuietDelete(s, step, j)
    requires forall i | i in s.db :: s.db[i].id == i
    ensures Once(Next(c, s, step).value, j)
  {
    RequestIsIdle(c, s, step, j);
    IdleKeepsOnce(s, Next(c, s, step).value, j);
  }

  lemma StepKeepsOnce(c: Config, s: State, step: Step, j: JobId)
    requires Inv(s) && (Batch(s, j) ==> Once(s, j)) && Next(c, s, step).Some? && QuietDelete(s, step, j)
    ensures var t := Next(c, s, step).value; Batch(t, j) ==> Once(t, j)
  {
    if j !in s.ids {
      FreshIdOnce(s, j);
    } else if Batch(s, j) {
      if step.Advance? {
        AdvanceKeepsOnce(c, s, step.p, step.reply, j);
      } else {
        assert forall i | i in s.db :: RowOk(s, i);
        RequestKeepsOnce(c, s, step, j);
      }
    }
  }

  lemma {:induction false} RunKeepsOnce(c: Config, s: State, run: seq<Step>, j: JobId)
    requires Inv(s) && (Batch(s, j) ==> Once(s, j)) && Exec(c, s, run).Some?
    requires Along(c, s, run, (u, step) => QuietDelete(u, step, j))
    ensures var t := Exec(c, s, run).value; Inv(t) && (Batch(t, j) ==> Once(t, j))
    decreases |run|
  {
    if run != [] {
      StepKeepsInv(c, s, run[0]);
      StepKeepsOnce(c, s, run[0], j);
      RunKeepsOnce(c, Next(c, s, run[0]).value, run[1..], j);
    }
  }

  /** A batch job owes at most one thing at a time and owns at most one workflow. */
  lemma NoDoubleSubmission(c: Config, run: seq<Step>, j: JobId)
    requires Exec(c, INIT, run).Some? && Batch(Exec(c, INIT, run).value, j)
    requires Along(c, INIT, run, (u, step) => QuietDelete(u, step, j))
    ensures var s := Exec(c, INIT, run).value;
      && (forall p, q | p in s.acts && q in s.acts && Owes(s.acts[p], j) && Owes(s.acts[q], j) :: p == q)
      && (forall v, w | v in s.argo && w in s.argo && s.argo[v].owner == j && s.argo[w].owner == j :: v == w)
  {
    RunKeepsOnce(c, INIT, run, j);
    var s := Exec(c, INIT, run).value;
    assert forall w | w in s.argo && s.argo[w].owner == j :: Owns(s, j, w);
  }

  /** With `NoJobLost`: a batch job with nothing outstanding is neither queued nor running, and
      one that is queued or running has exactly one obligation, on the right side of submission. */
  lemma ExactlyOneObligation(c: Config, run: seq<Step>, j: JobId)
    requires Exec(c, INIT, run).Some? && Batch(Exec(c, INIT, run).value, j) && j in Exec(c, INIT, run).value.db
    requires Along(c, INIT, run, (u, step) => QuietDelete(u, step, j))
    ensures var s := Exec(c, INIT, run).value;
      && (s.db[j].status == Queued ==> exists p :: p in s.acts && PreSubmit(s.acts[p], j) && forall q | q in s.acts && Owes(s.acts[q], j) :: q == p)
      && (s.db[j].status == Running ==> exists p :: p in s.acts && PostSubmit(s.acts[p], j) && forall q | q in s.acts && Owes(s.acts[q], j) :: q == p)
  {
    NoJobLost(c, run, j);
    NoDoubleSubmission(c, run, j);
  }

  lemma StepKeepsDeleted(c: Config, s: State, step: Step, j: JobId)
    requires j in s.ids && j !in s.db && Next(c, s, step).Some?
    ensures var t := Next(c, s, step).value; j !in t.db && j in t.ids && t.ids[j] == s.ids[j]
    ensures QuietDelete(s, step, j)
  {
  }

  lemma {:induction false} DeletedStaysDeleted(c: Config, s: State, run: seq<Step>, j: JobId)
    requires j in s.ids && j !in s.db && Exec(c, s, run).Some?
    ensures Along(c, s, run, (u, step) => QuietDelete(u, step, j))
    ensures var t := Exec(c, s, run).value; j !in t.db && j in t.ids && t.ids[j] == s.ids[j]
    decreases |run|
  {
    if run != [] {
      var t := Next(c, s, run[0]).value;
      StepKeepsDeleted(c, s, run[0], j);
      DeletedStaysDeleted(c, t, run[1..], j);
    }
  }

  ghost predicate TwiceSubmitted(s: State, j: JobId) {
    exists v, w :: v != w && Owns(s, j, v) && Owns(s, j, w)
  }

  /** An obligation that can still lead to a workflow. */
  predicate Live(a: Act, j: JobId) {
    PreCreate(a, j) && !a.SubmitFailed?
  }

  /** A deleted job whose start requests in flight can lead to one workflow at most: one of them at most
      gets past the mkdir, and none has before there is a workspace. */
  ghost predicate Spent(s: State, j: JobId) {
    && j in s.ids && j !in s.db && (forall i | i in s.db :: s.db[i].id == i)
    && (forall v, w | Owns(s, j, v) && Owns(s, j, w) :: v == w)
    && (forall p, w | p in s.acts && Live(s.acts[p], j) :: !Owns(s, j, w))
    && (forall p, q | p in s.acts && q in s.acts && Live(s.acts[p], j) && Live(s.acts[q], j) :: p == q)
    && (forall p | p in s.acts && Live(s.acts[p], j) :: j in s.dirs)
    && (forall w | Owns(s, j, w) :: j in s.dirs)
  }

  /** What a handler step may do to the live obligations towards `j`. */
  predicate Spends(s: State, a: Act, e: Effect, j: JobId) {
    && (e.next.Some? && Live(e.next.value, j) ==> Live(a, j) || (e.made == Some(j) && j !in s.dirs))
    && (e.created.Some? ==> e.created.value.0 !in s.argo)
    && (e.created.Some? && e.created.value.1 == j ==> Live(a, j) && e.next.Some? && !Live(e.next.value, j))
  }

  lemma LiveMoves(c: Config, s: State, a: Act, reply: Reply, j: JobId)
    requires StepOf(c, s, a, reply).Some?
    ensures Spends(s, a, StepOf(c, s, a, reply).value, j)
  {
  }

  lemma PerformKeepsSpent(s: State, p: Pid, e: Effect, j: JobId)
    requires p in s.acts && Spent(s, j) && Spends(s, s.acts[p], e, j)
    ensures Spent(Perform(s, p, e), j)
  {
    var t := Perform(s, p, e);
    assert forall w: WfName | Owns(t, j, w) :: Owns(s, j, w) || (e.created == Some((w, j)) && Live(s.acts[p], j));
  }

  lemma StepKeepsSpent(c: Config, s: State, step: Step, j: JobId)
    requires Spent(s, j) && Next(c, s, step).Some?
    ensures Spent(Next(c, s, step).value, j)
  {
    var t := Next(c, s, step).value;
    if step.Advance? {
      LiveMoves(c, s, s.acts[step.p], step.reply, j);
      PerformKeepsSpent(s, step.p, StepOf(c, s, s.acts[step.p], step.reply).value, j);
    } else {
      forall p | p in t.acts ensures (p in s.acts && t.acts[p] == s.acts[p]) || !Live(t.acts[p], j) {
        if Mover(step) != Some(p) { OthersKept(c, s, step, p); }
      }
      assert forall w: WfName | Owns(t, j, w) :: Owns(s, j, w);
    }
  }

  lemma {:induction false} RunKeepsSpent(c: Config, s: State, run: seq<Step>, j: JobId)
    requires Spent(s, j) && Exec(c, s, run).Some?
    ensures Spent(Exec(c, s, run).value, j)
    decreases |run|
  {
    if run != [] {
      StepKeepsSpent(c, s, run[0], j);
      RunKeepsSpent(c, Next(c, s, run[0]).value, run[1..], j);
    }
  }

  /** Argo can always forget all it knows. */
  lemma {:induction false} Drain(c: Config, s: State) returns (run: seq<Step>, t: State)
    ensures Exec(c, s, run) == Some(t)
    ensures t.(argo := s.argo) == s && t.argo.Keys == s.argo.Keys && Listed(t.argo) == {}
    ensures forall w | w in s.argo :: t.argo[w].owner == s.argo[w].owner
    ensures forall i | 0 <= i < |run| :: run[i].WorkflowGone?
    decreases |Listed(s.argo)|
  {
    if Listed(s.argo) == {} {
      run, t := [], s;
    } else {
      var w :| w in Listed(s.argo);
      var u := Next(c, s, WorkflowGone(w)).value;
      assert Listed(u.argo) == Listed(s.argo) - {w};
      var rest, end := Drain(c, u);
      run, t := [WorkflowGone(w)] + rest, end;
      assert run[1..] == rest;
    }
  }

  /** The program steps between a live obligation and its workflow. */
  function ToGo(a: Act): nat {
    match a
    case QueueDeferred(_) => 6
    case StartMade(_) => 5
    case QueueTask(_) => 5
    case QueueRun(_) => 4
    case QueueAdmitted(_) => 3
    case SyncCreated(_) => 3
    case SubmitTask(_) => 2
    case _ => 1
  }

  /** A live obligation can be driven to the creation of workflow `w` when the pool admits it. */
  lemma {:induction false} Drive(c: Config, s: State, p: Pid, j: JobId, w: WfName) returns (run: seq<Step>, t: State)
    requires p in s.acts && Live(s.acts[p], j) && Admits(c, s.argo) && w !in s.argo
    ensures Exec(c, s, run) == Some(t) && t.argo == s.argo[w := Fresh(j)] && t.dirs == s.dirs && t.ids == s.ids && t.db.Keys == s.db.Keys
    ensures forall q | q in s.acts && q != p :: q in t.acts && t.acts[q] == s.acts[q]
    decreases ToGo(s.acts[p])
  {
    var step := Advance(p, if s.acts[p].SubmitRun? then Named(w) else Normal);
    var u := Next(c, s, step).value;
    if s.acts[p].SubmitRun? {
      run, t := [step], u;
      assert run[1..] == [];
    } else {
      var rest, end := Drive(c, u, p, j, w);
      run, t := [step] + rest, end;
      assert run[1..] == rest;
    }
  }

  /** A start request that finds no workspace can be driven to the creation of workflow `w` when the pool
      admits it. */
  lemma StartCanSubmit(c: Config, s: State, p: Pid, w: WfName) returns (run: seq<Step>, t: State)
    requires p in s.acts && s.acts[p].StartRead? && s.acts[p].job.id !in s.dirs && w !in s.argo && Admits(c, s.argo)
    ensures var j := s.acts[p].job.id;
      Exec(c, s, run) == Some(t) && t.argo == s.argo[w := Fresh(j)] && t.dirs == s.dirs + {j} && t.ids == s.ids && t.db.Keys == s.db.Keys
    ensures forall q | q in s.acts && q != p :: q in t.acts && t.acts[q] == s.acts[q]
  {
    var step := Advance(p, Normal);
    var u := Next(c, s, step).value;
    var rest, end := Drive(c, u, p, s.acts[p].job.id, w);
    run, t := [step] + rest, end;
    assert run[1..] == rest;
  }

  /** Something of the job is, or can become, a workflow. */
  ghost predicate Submittable(s: State, j: JobId) {
    (exists w :: Owns(s, j, w)) || exists p :: p in s.acts && Live(s.acts[p], j)
  }

  /** A live obligation becomes a workflow of the job, unless it has one. */
  lemma FirstWorkflow(c: Config, s: State, j: JobId) returns (run: seq<Step>, t: State, w: WfName)
    requires Submittable(s, j)
    ensures Exec(c, s, run) == Some(t) && Owns(t, j, w) && t.dirs == s.dirs && t.ids == s.ids
    ensures forall q | q in s.acts && Starting(s.acts[q], j) :: q in t.acts && t.acts[q] == s.acts[q]
  {
    if v :| Owns(s, j, v) {
      run, t, w := [], s, v;
    } else {
      var p :| p in s.acts && Live(s.acts[p], j);
      var drain, u := Drain(c, s);
      w := FreshName(u.argo);
      var rest, end := Drive(c, u, p, j, w);
      ExecConcat(c, s, drain, rest);
      run, t := drain + rest, end;
    }
  }

  lemma SubmitAgain(c: Config, s: State, j: JobId) returns (after: seq<Step>)
    requires j in s.db && StartInFlight(s, j) && Submittable(s, j)
    ensures var t := Next(c, s, DeleteJob(j)).value; Exec(c, t, after).Some? && TwiceSubmitted(Exec(c, t, after).value, j)
  {
    var t := Next(c, s, DeleteJob(j)).value;
    var p :| p in s.acts && Starting(s.acts[p], j);
    assert Submittable(t, j) by {
      if w :| Owns(s, j, w) { assert Owns(t, j, w); } else { var q :| q in s.acts && Live(s.acts[q], j); assert q in t.acts; }
    }
    var first, u, w := FirstWorkflow(c, t, j);
    var drain, x := Drain(c, u);
    var v := FreshName(x.argo);
    var second, end := StartCanSubmit(c, x, p, v);
    ExecConcat(c, u, drain, second);
    ExecConcat(c, t, first, drain + second);
    after := first + (drain + second);
    assert Owns(end, j, v) && Owns(end, j, w) && v != w;
  }

  lemma DeleteSpends(c: Config, s: State, j: JobId)
    requires Inv(s) && j in s.db && !Submittable(s, j)
    ensures Spent(Next(c, s, DeleteJob(j)).value, j)
  {
    var t := Next(c, s, DeleteJob(j)).value;
    assert RowOk(s, j) && Truthful(s, s.db[j]);
    forall i | i in t.db ensures t.db[i].id == i { assert RowOk(s, i); }
    forall w ensures !Owns(t, j, w) { assert !Owns(s, j, w); }
    forall p | p in t.acts ensures !Live(t.acts[p], j) { assert t.acts[p] == s.acts[p]; }
  }

  /** Where the start-once promise ends: deleting a batch job opens the way to a second submission exactly
      when a start request for it is still between its read and its mkdir, and the job has a workflow or
      an obligation that can still lead to one. */
  lemma DeleteReopensIff(c: Config, before: seq<Step>, j: JobId)
    requires Exec(c, INIT, before).Some?
    requires Along(c, INIT, before, (u, step) => QuietDelete(u, step, j))
    requires var s := Exec(c, INIT, before).value; Batch(s, j) && j in s.db
    ensures var s := Exec(c, INIT, before).value;
      var t := Next(c, s, DeleteJob(j)).value;
      (exists after :: Exec(c, t, after).Some? && TwiceSubmitted(Exec(c, t, after).value, j))
      <==> (exists p :: p in s.acts && s.acts[p].StartRead? && s.acts[p].job.id == j) && Submittable(s, j)
  {
    RunKeepsOnce(c, INIT, before, j);
    var s := Exec(c, INIT, before).value;
    var t := Next(c, s, DeleteJob(j)).value;
    assert StartInFlight(s, j) <==> exists p :: p in s.acts && s.acts[p].StartRead? && s.acts[p].job.id == j;
    if StartInFlight(s, j) && Submittable(s, j) {
      var after := SubmitAgain(c, s, j);
    } else if !Submittable(s, j) {
      DeleteSpends(c, s, j);
      forall after | Exec(c, t, after).Some? ensures !TwiceSubmitted(Exec(c, t, after).value, j) { RunKeepsSpent(c, t, after, j); }
    } else {
      StepKeepsInv(c, s, DeleteJob(j));
      StepKeepsOnce(c, s, DeleteJob(j), j);
      forall after | Exec(c, t, after).Some? ensures !TwiceSubmitted(Exec(c, t, after).value, j) {
        DeletedStaysDeleted(c, t, after, j);
        RunKeepsOnce(c, t, after, j);
      }
    }
  }

  lemma FreshName(argo: map<WfName, Workflow>) returns (w: WfName)
    ensures w !in argo
  {
    w := Above(argo.Keys);
  }

  lemma {:induction false} Above(names: set<WfName>) returns (w: WfName)
    ensures forall v | v in names :: v < w
  {
    if names == {} {
      w := 0;
    } else {
      var v :| v in names;
      var u := Above(names - {v});
      assert forall x | x in names :: x == v || x in names - {v};
      w := if v < u then u else v + 1;
    }
  }

  /** Such a deletion does occur: two start requests, the first carried through, the job
      deleted, the second carried through. */
  lemma DeleteCanDoubleSubmit() returns (c: Config, run: seq<Step>)
    ensures Exec(c, INIT, run).Some? && Batch(Exec(c, INIT, run).value, 0)
    ensures var s := Exec(c, INIT, run).value; exists v, w :: v != w && v in s.argo && w in s.argo && s.argo[v].owner == 0 && s.argo[w].owner == 0
  {
    c := Config(false, 1);
    var s1 := Next(c, INIT, CreateJob(0)).value;
    var s2 := Next(c, s1, StartJob(0, 0)).value;
    var s3 := Next(c, s2, StartJob(1, 0)).value;
    var open := [CreateJob(0), StartJob(0, 0), StartJob(1, 0)];
    assert Exec(c, s2, [StartJob(1, 0)]) == Some(s3) by { assert [StartJob(1, 0)][1..] == []; }
    assert open[1..][1..] == [StartJob(1, 0)];
    assert Exec(c, s1, open[1..]) == Some(s3);
    var first, s := StartCanSubmit(c, s3, 0, 0);
    ExecConcat(c, INIT, open, first);
    assert Owns(s, 0, 0) && Starting(s.acts[1], 0);
    var after := SubmitAgain(c, s, 0);
    var rest := [DeleteJob(0)] + after;
    assert rest[1..] == after;
    ExecConcat(c, INIT, open + first, rest);
    run := open + first + rest;
    DeletedStaysDeleted(c, Next(c, s, DeleteJob(0)).value, after, 0);
    var v, w :| v != w && Owns(Exec(c, INIT, run).value, 0, v) && Owns(Exec(c, INIT, run).value, 0, w);
  }
}
