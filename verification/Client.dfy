/** Starting, cancelling and signalling a job from outside. */
module Client {
  import opened Values
  import opened JobRecord
  import opened Program
  import opened StateStore
  import opened ExecutionContext
  import opened Queues
  import opened Lifecycle
  import opened Guarantees
  import opened JobViews

  class DozerClient {
    const queue: InMemoryWorkflowQueue

    constructor (queue: InMemoryWorkflowQueue)
      ensures this.queue == queue
    {
      this.queue := queue;
    }

    /** A new job, unless its input cannot be serialized; `env` is what it will meet. */
    method Start(input: Value, schedule: nat -> Choice) returns (job: Option<WorkflowJob>, env: Environment)
      requires queue.Valid()
      modifies queue`jobs, queue`counter
      ensures queue.Valid() && fresh(env) && env.schedule == schedule
      ensures job.Some? <==> Supported(input)
      ensures job.None? ==> queue.jobs == old(queue.jobs)
      ensures job.Some? ==>
                && fresh(job.value) && job.value.InStep() && job.value.id !in old(queue.jobs)
                && queue.jobs == old(queue.jobs)[job.value.id := job.value]
                && job.value.state.s == Pending && ViewOf(job.value, env, 0, []) == NEW_JOB
                && forall cfg, p :: Sound(cfg, p, ViewOf(job.value, env, 0, []))
    {
      env := new Environment(schedule);
      if !Supported(input) {
        return None, env;
      }
      var added := queue.Add(INITIAL);
      job := Some(added);
      forall cfg, p ensures Sound(cfg, p, NEW_JOB) {
        NewJobIsSound(cfg, p);
      }
    }

    /** True exactly when the job was still pending. A sound job stays sound, in memory and in the queue. */
    method Cancel(job: WorkflowJob, ghost env: Environment, ghost cursor: nat, ghost sent: seq<Value>)
      returns (cancelled: bool)
      requires job.InStep()
      modifies job.state, job
      ensures job.InStep() && (cancelled <==> old(job.state.s) == Pending)
      ensures cancelled ==> job.state.s == Cancelled && job.persisted == job.state.Rec()
      ensures cancelled ==>
                job.state.Rec() == old(job.state.Rec()).(s := Cancelled, r := None, e := Some("Workflow cancelled"))
      ensures !cancelled ==> job.state.Rec() == old(job.state.Rec()) && job.persisted == old(job.persisted)
      ensures ViewOf(job, env, cursor, sent) == Cancellation(old(ViewOf(job, env, cursor, sent)))
      ensures StaysSound(old(ViewOf(job, env, cursor, sent)), ViewOf(job, env, cursor, sent))
      ensures StaysSound(old(ViewOf(job, env, cursor, sent)), DiskViewOf(job, env, cursor, sent))
    {
      if job.state.s != Pending && job.state.s != Cancelled {
        cancelled := false;
      } else if job.state.s == Cancelled {
        cancelled := false;
      } else {
        var stateStore := new WorkflowStateStore(job, false, false);
        stateStore.MarkCancelled();
        cancelled := true;
      }
      CancelStaysSound(old(ViewOf(job, env, cursor, sent)), job, env, cursor, sent);
    }

    /** A delivered signal takes the job out of the delayed set. A sound job stays sound. */
    method SendSignal(
      job: WorkflowJob, signalName: string, payload: Value, env: Environment, ghost cursor: nat, ghost sent: seq<Value>)
      returns (r: Delivery)
      requires job.InStep()
      modifies job.state, job, env`first, queue`delayedJobs
      ensures job.InStep() && Answers(old(job.state.Rec()), signalName, payload, r)
      ensures r.Delivered? ==>
                && job.persisted == job.state.Rec() && job.state.ps == old(job.state.ps) - {signalName}
                && Resulted(
                     old(job.state.Rec()), job.state.Rec(), old(job.state.Rec()).ps[signalName].stepKey, payload)
      ensures !r.Delivered? ==> job.state.Rec() == old(job.state.Rec()) && job.persisted == old(job.persisted)
      ensures ViewOf(job, env, cursor, sent)
           == Lifecycle.Deliver(old(ViewOf(job, env, cursor, sent)), signalName, payload)
      ensures queue.delayedJobs == if r.Delivered? then old(queue.delayedJobs) - {job.id} else old(queue.delayedJobs)
      ensures StaysSound(old(ViewOf(job, env, cursor, sent)), ViewOf(job, env, cursor, sent))
      ensures StaysSound(old(ViewOf(job, env, cursor, sent)), DiskViewOf(job, env, cursor, sent))
    {
      r := Deliver(job, signalName, payload, env, cursor, sent);
      if r.Delivered? {
        queue.PromoteDelayed(job.id);
      }
      SignalStaysSound(old(ViewOf(job, env, cursor, sent)), signalName, payload, job, env, cursor, sent);
    }

    /** Hands the payload to the state store. */
    method Deliver(
      job: WorkflowJob, signalName: string, payload: Value, env: Environment, ghost cursor: nat, ghost sent: seq<Value>)
      returns (r: Delivery)
      requires job.InStep()
      modifies job.state, job, env`first
      ensures job.InStep() && Answers(old(job.state.Rec()), signalName, payload, r)
      ensures r.Delivered? ==>
                && job.persisted == job.state.Rec() && job.state.ps == old(job.state.ps) - {signalName}
                && Resulted(
                     old(job.state.Rec()), job.state.Rec(), old(job.state.Rec()).ps[signalName].stepKey, payload)
      ensures !r.Delivered? ==> job.state.Rec() == old(job.state.Rec()) && job.persisted == old(job.persisted)
      ensures ViewOf(job, env, cursor, sent)
           == Lifecycle.Deliver(old(ViewOf(job, env, cursor, sent)), signalName, payload)
    {
      var stateStore := new WorkflowStateStore(job, false, false);
      ghost var awaited := job.state.ps;
      r := stateStore.DeliverSignal(signalName, payload);
      if r.Delivered? {
        assert job.persisted == job.state.Rec();
        env.first := RecordFirst(env.first, awaited[signalName].stepKey, payload);
      }
    }
  }

  /** The name is not awaited; or it is, and the payload can be stored; or it cannot. */
  predicate Answers(rec: Record, name: string, payload: Value, r: Delivery) {
    && (r.NotPending? <==> name !in rec.ps) && (r.Delivered? <==> name in rec.ps && Supported(payload))
    && (r.PayloadRefused? <==> name in rec.ps && !Supported(payload))
  }

  /** For every workflow the job may belong to. */
  ghost predicate StaysSound(before: Job, after: Job) {
    forall cfg, p :: Sound(cfg, p, before) ==> Sound(cfg, p, after)
  }

  lemma CancelStaysSound(before: Job, job: WorkflowJob, env: Environment, cursor: nat, sent: seq<Value>)
    requires job.InStep() && ViewOf(job, env, cursor, sent) == Cancellation(before)
    ensures StaysSound(before, ViewOf(job, env, cursor, sent))
    ensures StaysSound(before, DiskViewOf(job, env, cursor, sent))
  {
    forall cfg, p | Sound(cfg, p, before)
      ensures Sound(cfg, p, ViewOf(job, env, cursor, sent)) && Sound(cfg, p, DiskViewOf(job, env, cursor, sent))
    {
      HappensSound(cfg, p, before, Event.Cancel);
      DiskIsSound(cfg, p, job, env, cursor, sent);
    }
  }

  lemma SignalStaysSound(
    before: Job, name: string, payload: Value, job: WorkflowJob, env: Environment, cursor: nat, sent: seq<Value>)
    requires job.InStep() && ViewOf(job, env, cursor, sent) == Deliver(before, name, payload)
    ensures StaysSound(before, ViewOf(job, env, cursor, sent))
    ensures StaysSound(before, DiskViewOf(job, env, cursor, sent))
  {
    forall cfg, p | Sound(cfg, p, before)
      ensures Sound(cfg, p, ViewOf(job, env, cursor, sent)) && Sound(cfg, p, DiskViewOf(job, env, cursor, sent))
    {
      HappensSound(cfg, p, before, Event.SendSignal(name, payload));
      DiskIsSound(cfg, p, job, env, cursor, sent);
    }
  }
}
