/** How many workflows the throttle in `queue_to_submit` lets run at once. */
module Throttle {
  import opened Options
  import opened Jobs
  import opened Protocol

  /** Admitted, or synchronous and so not in need of it, but its workflow does not exist yet. */
  predicate Pending(a: Act) {
    a.SyncCreated? || a.QueueAdmitted? || a.SubmitTask? || a.SubmitRun?
  }

  function PendingSet(acts: map<Pid, Act>): set<Pid> {
    set p | p in acts && Pending(acts[p])
  }

  /** A step in which no inactive workflow comes back to life, and every admitting check is made while
      at most `b` submissions are pending. */
  predicate Throttled(c: Config, b: nat, s: State, step: Step) {
    match step
    case PhaseChange(w, phase, _) =>
      (phase == InProgress || phase == Phase.Pending) && w in s.argo && !s.argo[w].gone ==>
        s.argo[w].phase == InProgress || s.argo[w].phase == Phase.Pending
    case Advance(p, _) =>
      p in s.acts && s.acts[p].QueueRun?
        && |set w | w in s.argo && !s.argo[w].gone && (s.argo[w].phase == InProgress || s.argo[w].phase == Phase.Pending)| < c.limit ==>
          |set q | q in s.acts && (s.acts[q].SyncCreated? || s.acts[q].QueueAdmitted? || s.acts[q].SubmitTask? || s.acts[q].SubmitRun?)| <= b
    case _ => true
  }

  /** The synchronous requests of a run: each adds a submission that no check admits. */
  function Syncs(run: seq<Step>): nat {
    if run == [] then 0 else (if run[0].SyncJob? then 1 else 0) + Syncs(run[1..])
  }

  predicate Bounded(c: Config, b: nat, n: nat, s: State) {
    |ActiveSet(s.argo)| + |PendingSet(s.acts)| <= c.limit + b + n
  }

  lemma PendingAfter(acts: map<Pid, Act>, p: Pid, a: Act)
    ensures PendingSet(acts[p := a]) == if Pending(a) then PendingSet(acts) + {p} else PendingSet(acts) - {p}
    ensures PendingSet(acts - {p}) == PendingSet(acts) - {p}
  {
  }

  lemma PendingWith(acts: map<Pid, Act>, p: Pid, a: Act)
    requires p !in acts
    ensures |PendingSet(acts[p := a])| == |PendingSet(acts)| + if Pending(a) then 1 else 0
  {
    PendingAfter(acts, p, a);
    assert PendingSet(acts) - {p} == PendingSet(acts);
  }

  lemma NoneActive(argo: map<WfName, Workflow>)
    requires Listed(argo) == {}
    ensures ActiveSet(argo) == {}
  {
    assert ActiveSet(argo) <= Listed(argo);
  }

  /** A handler step adds a pending submission only by passing the check, and a workflow only by
      using one up. */
  predicate Fair(c: Config, s: State, a: Act, e: Effect) {
    && (e.created.Some? ==> a.SubmitRun? && e.created.value.0 !in s.argo && e.next.Some? && !Pending(e.next.value))
    && (e.next.Some? && Pending(e.next.value) ==> Pending(a) || (a.QueueRun? && Admits(c, s.argo)))
  }

  lemma StepFair(c: Config, s: State, a: Act, reply: Reply)
    requires StepOf(c, s, a, reply).Some?
    ensures Fair(c, s, a, StepOf(c, s, a, reply).value)
  {
  }

  lemma FairBounded(c: Config, b: nat, n: nat, s: State, p: Pid, e: Effect)
    requires c.argoServer && c.limit >= 1 && Bounded(c, b, n, s) && p in s.acts && Fair(c, s, s.acts[p], e)
    requires s.acts[p].QueueRun? && Admits(c, s.argo) ==> |PendingSet(s.acts)| <= b
    ensures Bounded(c, b, n, Perform(s, p, e))
  {
    var a := s.acts[p];
    var t := Perform(s, p, e);
    PendingAfter(s.acts, p, if e.next.Some? then e.next.value else a);
    if e.created.Some? {
      assert ActiveSet(t.argo) == ActiveSet(s.argo) + {e.created.value.0};
      assert p in PendingSet(s.acts);
    } else if a.QueueRun? && Admits(c, s.argo) {
      if Listed(s.argo) == {} { NoneActive(s.argo); }
    } else if e.next.Some? && Pending(e.next.value) {
      assert p in PendingSet(s.acts);
      assert PendingSet(s.acts) + {p} == PendingSet(s.acts);
    }
  }

  lemma AdvanceBounded(c: Config, b: nat, n: nat, s: State, p: Pid, reply: Reply)
    requires c.argoServer && c.limit >= 1 && Bounded(c, b, n, s)
    requires Throttled(c, b, s, Advance(p, reply)) && Next(c, s, Advance(p, reply)).Some?
    ensures Bounded(c, b, n, Next(c, s, Advance(p, reply)).value)
  {
    StepFair(c, s, s.acts[p], reply);
    SetsAre(s);
    if Listed(s.argo) == {} { NoneActive(s.argo); }
    FairBounded(c, b, n, s, p, StepOf(c, s, s.acts[p], reply).value);
  }

  /** News from Argo that wakes no workflow. */
  lemma NewsBounded(c: Config, b: nat, n: nat, s: State, t: State)
    requires Bounded(c, b, n, s) && t.acts == s.acts && ActiveSet(t.argo) <= ActiveSet(s.argo)
    ensures Bounded(c, b, n, t)
  {
    Smaller(ActiveSet(t.argo), ActiveSet(s.argo));
  }

  lemma RequestBounded(c: Config, b: nat, n: nat, s: State, step: Step)
    requires Bounded(c, b, n, s) && !step.Advance? && !step.PhaseChange? && !step.WorkflowGone? && Next(c, s, step).Some?
    ensures Bounded(c, b, if step.SyncJob? then n + 1 else n, Next(c, s, step).value)
  {
    match step {
      case SyncJob(p, j) => PendingWith(s.acts, p, SyncCreated(Job(j, true, Queued, None, NoMessage)));
      case StartJob(p, j) => PendingWith(s.acts, p, StartRead(s.db[j]));
      case CancelJob(p, j) => PendingWith(s.acts, p, CancelRead(s.db[j]));
      case Reconcile(p, rows) => PendingWith(s.acts, p, ReconcileLoop(rows));
      case _ =>
    }
  }

  lemma StepBounded(c: Config, b: nat, n: nat, s: State, step: Step)
    requires c.argoServer && c.limit >= 1 && Bounded(c, b, n, s) && Throttled(c, b, s, step) && Next(c, s, step).Some?
    ensures Bounded(c, b, if step.SyncJob? then n + 1 else n, Next(c, s, step).value)
  {
    if step.Advance? {
      AdvanceBounded(c, b, n, s, step.p, step.reply);
    } else if step.PhaseChange? || step.WorkflowGone? {
      NewsBounded(c, b, n, s, Next(c, s, step).value);
    } else {
      RequestBounded(c, b, n, s, step);
    }
  }

  lemma {:induction false} Smaller<T>(a: set<T>, b: set<T>)
    requires a <= b
    ensures |a| <= |b|
  {
    assert b == a + (b - a);
  }

  lemma {:induction false} RunBounded(c: Config, b: nat, n: nat, s: State, run: seq<Step>)
    requires c.argoServer && c.limit >= 1 && Bounded(c, b, n, s) && Exec(c, s, run).Some?
    requires Along(c, s, run, (u, step) => Throttled(c, b, u, step))
    ensures Bounded(c, b, n + Syncs(run), Exec(c, s, run).value)
    decreases |run|
  {
    if run != [] {
      StepBounded(c, b, n, s, run[0]);
      RunBounded(c, b, if run[0].SyncJob? then n + 1 else n, Next(c, s, run[0]).value, run[1..]);
    }
  }

  /** The bound: active workflows and pending submissions together. */
  lemma ThrottleBound(c: Config, b: nat, run: seq<Step>)
    requires c.argoServer && c.limit >= 1 && Exec(c, INIT, run).Some?
    requires Along(c, INIT, run, (u, step) => Throttled(c, b, u, step))
    ensures var s := Exec(c, INIT, run).value;
      |set w | w in s.argo && !s.argo[w].gone && (s.argo[w].phase == InProgress || s.argo[w].phase == Phase.Pending)|
      + |set p | p in s.acts && (s.acts[p].SyncCreated? || s.acts[p].QueueAdmitted? || s.acts[p].SubmitTask? || s.acts[p].SubmitRun?)|
        <= c.limit + b + |set i | 0 <= i < |run| && run[i].SyncJob?|
  {
    RunBounded(c, b, 0, INIT, run);
    SetsAre(Exec(c, INIT, run).value);
    SyncsAre(run);
  }

  /** The sets, member by member. */
  lemma SetsAre(s: State)
    ensures ActiveSet(s.argo) == set w | w in s.argo && !s.argo[w].gone && (s.argo[w].phase == InProgress || s.argo[w].phase == Phase.Pending)
    ensures PendingSet(s.acts)
      == set p | p in s.acts && (s.acts[p].SyncCreated? || s.acts[p].QueueAdmitted? || s.acts[p].SubmitTask? || s.acts[p].SubmitRun?)
  {
  }

  lemma {:induction false} SyncsLast(run: seq<Step>, step: Step)
    ensures Syncs(run + [step]) == Syncs(run) + if step.SyncJob? then 1 else 0
  {
    if run == [] {
      assert [] + [step] == [step] && [step][1..] == [];
    } else {
      assert (run + [step])[1..] == run[1..] + [step];
      SyncsLast(run[1..], step);
    }
  }

  lemma {:induction false} SyncsAre(run: seq<Step>)
    ensures Syncs(run) == |set i | 0 <= i < |run| && run[i].SyncJob?|
  {
    var all := set i | 0 <= i < |run| && run[i].SyncJob?;
    if run == [] {
      assert all == {};
    } else {
      var n := |run| - 1;
      var before := set i | 0 <= i < n && run[..n][i].SyncJob?;
      SyncsAre(run[..n]);
      SyncsLast(run[..n], run[n]);
      assert run == run[..n] + [run[n]];
      assert all == if run[n].SyncJob? then before + {n} else before;
    }
  }

  // The bound is attained: a run that admits b + 1 submissions before any of them is created, and
  // takes n synchronous requests besides.

  ghost predicate Ok(c: Config, b: nat, n: nat, s: State, run: seq<Step>, t: State) {
    Exec(c, s, run) == Some(t) && Along(c, s, run, (u, step) => Throttled(c, b, u, step)) && Syncs(run) == n
  }

  lemma {:induction false} OkConcat(c: Config, b: nat, m: nat, n: nat, s: State, x: seq<Step>, t: State, y: seq<Step>, u: State)
    requires Ok(c, b, m, s, x, t) && Ok(c, b, n, t, y, u)
    ensures Ok(c, b, m + n, s, x + y, u)
    decreases |x|
  {
    if x == [] {
      assert x + y == y;
    } else {
      assert (x + y)[0] == x[0] && (x + y)[1..] == x[1..] + y;
      OkConcat(c, b, Syncs(x[1..]), n, Next(c, s, x[0]).value, x[1..], t, y, u);
    }
  }

  lemma OkStep(c: Config, b: nat, n: nat, s: State, step: Step, t: State, rest: seq<Step>, u: State)
    requires Next(c, s, step) == Some(t) && Throttled(c, b, s, step) && Ok(c, b, n, t, rest, u)
    ensures Ok(c, b, if step.SyncJob? then n + 1 else n, s, [step] + rest, u)
  {
    assert ([step] + rest)[1..] == rest;
  }

  /** Jobs 0 to a + m - 1 are under way; the first `a` have their workflow, the rest are pending. */
  ghost predicate At(s: State, a: nat, m: nat) {
    && (forall j :: j in s.ids <==> 0 <= j < a + m)
    && (forall j :: j in s.dirs ==> 0 <= j < a + m)
    && (forall p :: p in s.acts <==> 0 <= p < a + m)
    && (forall p | 0 <= p < a :: !Pending(s.acts[p]))
    && (forall p | a <= p < a + m :: s.acts[p].SubmitTask? && s.acts[p].job.id == p)
    && (forall w :: w in s.argo <==> 0 <= w < a)
    && (forall w | w in s.argo :: Active(s.argo[w]))
  }

  ghost function Upto(lo: nat, n: nat): (r: set<nat>)
    ensures |r| == n
    ensures forall i :: i in r <==> lo <= i < lo + n
  {
    if n == 0 then {} else Upto(lo, n - 1) + {lo + n - 1}
  }

  lemma AtCounts(s: State, a: nat, m: nat)
    requires At(s, a, m)
    ensures |ActiveSet(s.argo)| == a && |PendingSet(s.acts)| == m
  {
    assert ActiveSet(s.argo) == Upto(0, a);
    assert PendingSet(s.acts) == Upto(a, m);
  }

  /** One more job is created and started, up to the check. */
  lemma Open(c: Config, b: nat, s: State, n: nat) returns (run: seq<Step>, t: State)
    requires n !in s.ids && n !in s.dirs && n !in s.acts
    ensures Ok(c, b, 0, s, run, t)
    ensures var queued := NewJob(n).(status := Queued);
      t == Put(s.(db := s.db[n := queued], ids := s.ids[n := false], dirs := s.dirs + {n}), n, QueueRun(queued))
  {
    var go := Advance(n, Normal);
    var job := NewJob(n);
    var queued := job.(status := Queued);
    var s1 := s.(db := s.db[n := job], ids := s.ids[n := false]);
    var s2 := Put(s1, n, StartRead(job));
    var s3 := Put(s1.(dirs := s.dirs + {n}), n, StartMade(job));
    t := Put(s1.(dirs := s.dirs + {n}, db := s.db[n := queued]), n, QueueRun(queued));
    assert Next(c, s, CreateJob(n)) == Some(s1);
    assert Next(c, s1, StartJob(n, n)) == Some(s2);
    assert s2.acts[n := StartMade(job)] == s3.acts;
    assert Next(c, s2, go) == Some(s3);
    assert s3.acts[n := QueueRun(queued)] == t.acts && s1.db[n := queued] == t.db;
    assert Next(c, s3, go) == Some(t);
    OkStep(c, b, 0, s3, go, t, [], t);
    OkStep(c, b, 0, s2, go, s3, [go] + [], t);
    OkStep(c, b, 0, s1, StartJob(n, n), s2, [go] + ([go] + []), t);
    run := [CreateJob(n)] + ([StartJob(n, n)] + ([go] + ([go] + [])));
    OkStep(c, b, 0, s, CreateJob(n), s1, [StartJob(n, n)] + ([go] + ([go] + [])), t);
  }

  /** A check that admits leads to a submission. */
  lemma Admit(c: Config, b: nat, s: State, n: nat) returns (run: seq<Step>, t: State)
    requires n in s.acts && s.acts[n].QueueRun? && |ActiveSet(s.argo)| < c.limit && |PendingSet(s.acts)| <= b
    ensures Ok(c, b, 0, s, run, t) && t == Put(s, n, SubmitTask(s.acts[n].job))
    ensures forall p | p != n :: (p in t.acts <==> p in s.acts) && (p in s.acts ==> t.acts[p] == s.acts[p])
  {
    var go := Advance(n, Normal);
    var s5 := Put(s, n, QueueAdmitted(s.acts[n].job));
    t := Put(s, n, SubmitTask(s.acts[n].job));
    SetsAre(s);
    assert Next(c, s, go) == Some(s5);
    assert s5.acts[n := SubmitTask(s.acts[n].job)] == t.acts;
    assert Next(c, s5, go) == Some(t);
    OkStep(c, b, 0, s5, go, t, [], t);
    run := [go] + ([go] + []);
    OkStep(c, b, 0, s, go, s5, [go] + [], t);
  }

  lemma PushAt(s: State, a: nat, m: nat, t: State, job: Job)
    requires At(s, a, m) && job.id == a + m
    requires t.ids == s.ids[job.id := false] && t.dirs == s.dirs + {job.id} && t.argo == s.argo
    requires job.id in t.acts && t.acts[job.id] == SubmitTask(job)
    requires forall p | p != job.id :: (p in t.acts <==> p in s.acts) && (p in s.acts ==> t.acts[p] == s.acts[p])
    ensures At(t, a, m + 1)
  {
  }

  lemma OpenAt(c: Config, b: nat, s: State, a: nat, m: nat) returns (run: seq<Step>, t: State, job: Job)
    requires At(s, a, m)
    ensures Ok(c, b, 0, s, run, t) && job.id == a + m && a + m in t.acts && t.acts[a + m] == QueueRun(job)
    ensures t.ids == s.ids[a + m := false] && t.dirs == s.dirs + {a + m} && t.argo == s.argo
    ensures forall p | p != a + m :: (p in t.acts <==> p in s.acts) && (p in s.acts ==> t.acts[p] == s.acts[p])
    ensures |PendingSet(t.acts)| == m
  {
    run, t := Open(c, b, s, a + m);
    job := t.acts[a + m].job;
    AtCounts(s, a, m);
    assert PendingSet(t.acts) == PendingSet(s.acts);
  }

  /** One more job is created, started and admitted. */
  lemma Push(c: Config, b: nat, s: State, a: nat, m: nat) returns (run: seq<Step>, t: State)
    requires At(s, a, m) && a < c.limit && m <= b
    ensures Ok(c, b, 0, s, run, t) && At(t, a, m + 1)
  {
    AtCounts(s, a, m);
    var r0, u, job := OpenAt(c, b, s, a, m);
    var r1, v := Admit(c, b, u, a + m);
    OkConcat(c, b, 0, 0, s, r0, u, r1, v);
    run, t := r0 + r1, v;
    PushAt(s, a, m, t, job);
  }

  /** The oldest pending submission gets its workflow. */
  lemma Pop(c: Config, b: nat, s: State, a: nat, m: nat) returns (run: seq<Step>, t: State)
    requires At(s, a, m) && m > 0
    ensures Ok(c, b, 0, s, run, t) && At(t, a + 1, m - 1)
  {
    var job := s.acts[a].job;
    var s1 := Put(s, a, SubmitRun(job));
    t := Put(s, a, SubmitCreated(job, a)).(argo := s.argo[a := Fresh(a)]);
    assert Next(c, s, Advance(a, Normal)) == Some(s1);
    assert s1.acts[a := SubmitCreated(job, a)] == t.acts;
    assert Next(c, s1, Advance(a, Named(a))) == Some(t);
    OkStep(c, b, 0, s1, Advance(a, Named(a)), t, [], t);
    run := [Advance(a, Normal)] + ([Advance(a, Named(a))] + []);
    OkStep(c, b, 0, s, Advance(a, Normal), s1, [Advance(a, Named(a))] + [], t);
  }

  lemma {:induction false} PushPop(c: Config, b: nat, n: nat) returns (run: seq<Step>, t: State)
    requires n < c.limit
    ensures Ok(c, b, 0, INIT, run, t) && At(t, n, 0)
  {
    if n == 0 {
      run, t := [], INIT;
    } else {
      var r0, t0 := PushPop(c, b, n - 1);
      var r1, t1 := Push(c, b, t0, n - 1, 0);
      OkConcat(c, b, 0, 0, INIT, r0, t0, r1, t1);
      var r2, t2 := Pop(c, b, t1, n - 1, 1);
      OkConcat(c, b, 0, 0, INIT, r0 + r1, t1, r2, t2);
      run, t := r0 + r1 + r2, t2;
    }
  }

  lemma {:induction false} PushMany(c: Config, b: nat, s: State, a: nat, k: nat) returns (run: seq<Step>, t: State)
    requires At(s, a, 0) && a < c.limit && k <= b + 1
    ensures Ok(c, b, 0, s, run, t) && At(t, a, k)
  {
    if k == 0 {
      run, t := [], s;
    } else {
      var r0, t0 := PushMany(c, b, s, a, k - 1);
      var r1, t1 := Push(c, b, t0, a, k - 1);
      OkConcat(c, b, 0, 0, s, r0, t0, r1, t1);
      run, t := r0 + r1, t1;
    }
  }

  lemma {:induction false} PopAll(c: Config, b: nat, s: State, a: nat, m: nat) returns (run: seq<Step>, t: State)
    requires At(s, a, m)
    ensures Ok(c, b, 0, s, run, t) && At(t, a + m, 0)
    decreases m
  {
    if m == 0 {
      run, t := [], s;
    } else {
      var r0, t0 := Pop(c, b, s, a, m);
      var r1, t1 := PopAll(c, b, t0, a + 1, m - 1);
      OkConcat(c, b, 0, 0, s, r0, t0, r1, t1);
      run, t := r0 + r1, t1;
    }
  }

  /** One more synchronous job is enqueued, past the check. */
  lemma AddSync(c: Config, b: nat, s: State, a: nat, m: nat) returns (run: seq<Step>, t: State)
    requires At(s, a, m)
    ensures Ok(c, b, 1, s, run, t) && At(t, a, m + 1)
  {
    var k := a + m;
    var job := Job(k, true, Queued, None, NoMessage);
    var u := Put(s.(db := s.db[k := job], ids := s.ids[k := true]), k, SyncCreated(job));
    t := Put(s.(db := s.db[k := job], ids := s.ids[k := true]), k, SubmitTask(job));
    assert Next(c, s, SyncJob(k, k)) == Some(u);
    assert u.acts[k := SubmitTask(job)] == t.acts;
    assert Next(c, u, Advance(k, Normal)) == Some(t);
    OkStep(c, b, 0, u, Advance(k, Normal), t, [], t);
    run := [SyncJob(k, k)] + ([Advance(k, Normal)] + []);
    OkStep(c, b, 0, s, SyncJob(k, k), u, [Advance(k, Normal)] + [], t);
  }

  lemma {:induction false} AddSyncs(c: Config, b: nat, s: State, a: nat, m: nat, n: nat) returns (run: seq<Step>, t: State)
    requires At(s, a, m)
    ensures Ok(c, b, n, s, run, t) && At(t, a, m + n)
    decreases n
  {
    if n == 0 {
      run, t := [], s;
    } else {
      var r0, t0 := AddSync(c, b, s, a, m);
      var r1, t1 := AddSyncs(c, b, t0, a, m + 1, n - 1);
      OkConcat(c, b, 1, n - 1, s, r0, t0, r1, t1);
      run, t := r0 + r1, t1;
    }
  }

  /** No smaller bound holds: for every limit, backlog and number of synchronous requests some run has
      as many workflows active at once as the bound allows. */
  lemma BoundAttained(c: Config, b: nat, n: nat) returns (run: seq<Step>)
    requires c.limit >= 1
    ensures Exec(c, INIT, run).Some? && Along(c, INIT, run, (u, step) => Throttled(c, b, u, step))
    ensures |set i | 0 <= i < |run| && run[i].SyncJob?| == n
    ensures var argo := Exec(c, INIT, run).value.argo;
      |set w | w in argo && !argo[w].gone && (argo[w].phase == InProgress || argo[w].phase == Phase.Pending)| == c.limit + b + n
  {
    var r0, t0 := PushPop(c, b, c.limit - 1);
    var r1, t1 := PushMany(c, b, t0, c.limit - 1, b + 1);
    OkConcat(c, b, 0, 0, INIT, r0, t0, r1, t1);
    var r2, t2 := AddSyncs(c, b, t1, c.limit - 1, b + 1, n);
    OkConcat(c, b, 0, n, INIT, r0 + r1, t1, r2, t2);
    var r3, t3 := PopAll(c, b, t2, c.limit - 1, b + 1 + n);
    OkConcat(c, b, n, 0, INIT, r0 + r1 + r2, t2, r3, t3);
    run := r0 + r1 + r2 + r3;
    AtCounts(t3, c.limit + b + n, 0);
    SetsAre(t3);
    SyncsAre(run);
  }
}
