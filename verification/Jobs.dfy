/** The job row, the Argo workflow and the verdict both pollers draw from one. */
module Jobs {
  import opened Options
  import opened Text

  type JobId = nat
  type WfName = nat

  datatype Status = Created | Queued | Running | Finished | Error | Canceled

  /** The user-facing messages the back end writes on a row. */
  datatype Message =
    | NoMessage
    | WorkflowNotFound
    | OutOfMemory
    | JobFailed
    | NoWorkflow

  /** A row of the jobs table; a task carries one of these as its snapshot. */
  datatype Job = Job(id: JobId, sync: bool, status: Status, workflow: Option<WfName>, message: Message)

  datatype Phase = Pending | InProgress | Succeeded | Failed | Errored | Unknown

  /** `nodes` holds the node messages. `succeeded` and `gone` are history: whether the
      workflow ever reached Succeeded, and whether Argo has dropped it. */
  datatype Workflow = Workflow(owner: JobId, phase: Phase, nodes: seq<string>, succeeded: bool, gone: bool)

  predicate Active(w: Workflow) {
    !w.gone && (w.phase == InProgress || w.phase == Pending)
  }

  predicate Terminal(w: Workflow) {
    w.phase == Succeeded || w.phase == Failed || w.phase == Errored
  }

  predicate MentionsOom(message: string) {
    Contains(Lower(message), "oomkilled") || Contains(Lower(message), "out of memory")
  }

  predicate OomKilled(nodes: seq<string>) {
    exists i | 0 <= i < |nodes| :: MentionsOom(nodes[i])
  }

  /** A message mentions one of the two texts, in any letter case. */
  lemma MentionsOomIff(message: string)
    ensures MentionsOom(message) <==>
      exists k | 0 <= k <= |message| :: SpelledAt(message, "oomkilled", k) || SpelledAt(message, "out of memory", k)
  {
    LowerContains(message, "oomkilled");
    LowerContains(message, "out of memory");
  }

  /** The scan over the node messages, in the pollers' own loop form. */
  method DetectOom(nodes: seq<string>) returns (oom: bool)
    ensures oom <==> exists i | 0 <= i < |nodes| :: MentionsOom(nodes[i])
    ensures oom <==> exists i, k | 0 <= i < |nodes| && 0 <= k <= |nodes[i]| ::
      SpelledAt(nodes[i], "oomkilled", k) || SpelledAt(nodes[i], "out of memory", k)
  {
    forall i | 0 <= i < |nodes| { MentionsOomIff(nodes[i]); }
    var k := 0;
    while k < |nodes|
      invariant 0 <= k <= |nodes|
      invariant forall i | 0 <= i < k :: !MentionsOom(nodes[i])
    {
      var text := Lower(nodes[k]);
      if Contains(text, "oomkilled") || Contains(text, "out of memory") {
        assert MentionsOom(nodes[k]);
        return true;
      }
      k := k + 1;
    }
    return false;
  }

  datatype Outcome = Outcome(status: Status, message: Message)

  /** What an observed workflow says about its job; None while it is still going. */
  function Verdict(w: Workflow): Option<Outcome> {
    match w.phase
    case Succeeded => Some(Outcome(Finished, NoMessage))
    case Failed => Some(Outcome(Error, if OomKilled(w.nodes) then OutOfMemory else JobFailed))
    case Errored => Some(Outcome(Error, if OomKilled(w.nodes) then OutOfMemory else JobFailed))
    case _ => None
  }

  function Judged(row: Job, v: Outcome): Job {
    row.(status := v.status, message := v.message)
  }

  function NewJob(j: JobId): Job {
    Job(j, false, Created, None, NoMessage)
  }
}
