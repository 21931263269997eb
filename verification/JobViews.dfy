/** Jobs in memory and in the queue, as the lifecycle model sees them. */
module JobViews {
  import opened Values
  import opened JobRecord
  import opened Program
  import opened StateStore
  import opened ExecutionContext
  import opened Lifecycle
  import opened Guarantees

  ghost function WorldOf(rec: Record, env: Environment, cursor: nat): World
    reads env
  {
    World(rec, cursor, env.pos, env.first, env.started, env.retries)
  }

  /** `cursor` is where the job's last execution left the trace, `sent` what the result queue was offered. */
  ghost function ViewOf(job: WorkflowJob, env: Environment, cursor: nat, sent: seq<Value>): Job
    reads job, job.state, env
  {
    Job(WorldOf(job.state.Rec(), env, cursor), sent, job.persisted.s)
  }

  /** The job another process would load. */
  ghost function DiskViewOf(job: WorkflowJob, env: Environment, cursor: nat, sent: seq<Value>): Job
    reads job, env
  {
    Job(WorldOf(job.persisted, env, cursor), sent, job.persisted.s)
  }

  lemma DiskIsReload(job: WorkflowJob, env: Environment, cursor: nat, sent: seq<Value>)
    requires job.InStep()
    ensures DiskViewOf(job, env, cursor, sent) == Reloaded(ViewOf(job, env, cursor, sent))
  {}

  /** Sound in memory is sound in the queue. */
  lemma DiskIsSound(cfg: Config, p: Prog, job: WorkflowJob, env: Environment, cursor: nat, sent: seq<Value>)
    requires job.InStep() && Sound(cfg, p, ViewOf(job, env, cursor, sent))
    ensures Sound(cfg, p, DiskViewOf(job, env, cursor, sent))
  {
    DiskIsReload(job, env, cursor, sent);
    HappensSound(cfg, p, ViewOf(job, env, cursor, sent), Reload);
  }
}
