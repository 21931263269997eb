/** The workflow queue with its delayed jobs, and the result queue. */
module Queues {
  import opened Values
  import opened JobRecord
  import opened KeyEncoding
  import opened StateStore

  /** `${queueName}:${counter}` */
  function JobId(queueName: string, counter: nat): string {
    queueName + ":" + Decimal(counter)
  }

  lemma JobIdsDiffer(queueName: string, m: nat, n: nat)
    requires JobId(queueName, m) == JobId(queueName, n)
    ensures m == n
  {
    var head := queueName + ":";
    assert JobId(queueName, m)[|head|..] == Decimal(m) && JobId(queueName, n)[|head|..] == Decimal(n);
    assert Decimal(m) + "" == Decimal(m) && Decimal(n) + "" == Decimal(n);
    DecimalIsSelfDelimiting(m, "", n, "");
  }

  class InMemoryWorkflowQueue {
    const queueName: string
    var jobs: map<string, WorkflowJob>
    var delayedJobs: map<string, int>
    var counter: nat

    /** Every job has one of the ids given out so far. */
    ghost predicate Valid()
      reads this
    {
      forall id | id in jobs :: exists n :: 1 <= n <= counter && id == JobId(queueName, n)
    }

    constructor (queueName: string)
      ensures this.queueName == queueName && jobs == map[] && delayedJobs == map[] && counter == 0 && Valid()
    {
      this.queueName := queueName;
      jobs, delayedJobs, counter := map[], map[], 0;
    }

    /** A new job, under an id no other job has. */
    method Add(rec: Record) returns (job: WorkflowJob)
      requires Valid()
      modifies this`jobs, this`counter
      ensures Valid() && fresh(job) && fresh(job.state) && job.InStep()
      ensures job.id == queueName + ":" + Decimal(old(counter) + 1)
      ensures job.id !in old(jobs) && jobs == old(jobs)[job.id := job]
      ensures job.state.Rec() == job.persisted == rec
    {
      counter := counter + 1;
      var id := JobId(queueName, counter);
      forall n: nat | n < counter ensures JobId(queueName, n) != id {
        if JobId(queueName, n) == id {
          JobIdsDiffer(queueName, n, counter);
        }
      }
      job := new WorkflowJob(id, rec);
      jobs := jobs[id := job];
    }

    method Get(jobId: string) returns (job: Option<WorkflowJob>)
      ensures job.Some? <==> jobId in jobs
      ensures job.Some? ==> job.value == jobs[jobId]
    {
      job := if jobId in jobs then Some(jobs[jobId]) else None;
    }

    /** Only a job of this queue is delayed; a later time replaces an earlier one. */
    method MoveToDelayed(jobId: string, timestamp: int)
      modifies this`delayedJobs
      ensures delayedJobs == if jobId in jobs then old(delayedJobs)[jobId := timestamp] else old(delayedJobs)
    {
      if jobId in jobs {
        delayedJobs := delayedJobs[jobId := timestamp];
      }
    }

    method PromoteDelayed(jobId: string)
      modifies this`delayedJobs
      ensures delayedJobs == old(delayedJobs) - {jobId}
    {
      delayedJobs := delayedJobs - {jobId};
    }
  }

  datatype AddResult = Added | DuplicateJobId

  /** A queue keyed by job id in which the first payload wins; duplicates are ignored or rejected. */
  class ResultQueue {
    const rejectsDuplicates: bool
    var jobs: map<string, Value>
    /** All payloads ever offered for one id, oldest first. */
    ghost var offered: map<string, seq<Value>>

    ghost predicate Valid()
      reads this
    {
      && jobs.Keys == offered.Keys
      && forall id | id in jobs :: offered[id] != [] && jobs[id] == offered[id][0]
    }

    ghost function OfferedFor(id: string): seq<Value>
      reads this
    {
      if id in offered then offered[id] else []
    }

    constructor (rejectsDuplicates: bool)
      ensures this.rejectsDuplicates == rejectsDuplicates && Valid() && jobs == map[] && offered == map[]
    {
      this.rejectsDuplicates := rejectsDuplicates;
      jobs, offered := map[], map[];
    }

    method Add(payload: Value, jobId: string) returns (result: AddResult)
      requires Valid()
      modifies this
      ensures Valid()
      ensures jobs == if jobId in old(jobs) then old(jobs) else old(jobs)[jobId := payload]
      ensures offered == old(offered)[jobId := old(OfferedFor(jobId)) + [payload]]
      ensures result.DuplicateJobId? ==> jobId in old(jobs)
    {
      offered := offered[jobId := OfferedFor(jobId) + [payload]];
      if jobId in jobs {
        return if rejectsDuplicates then DuplicateJobId else Added;
      }
      jobs := jobs[jobId := payload];
      return Added;
    }
  }

  predicate IsNumeric(id: string) {
    id != [] && forall i | 0 <= i < |id| :: '0' <= id[i] <= '9'
  }

  /** Numeric ids are not allowed as custom job ids and get a prefix. */
  function ToWorkflowResultQueueJobId(workflowJobId: string): string {
    if IsNumeric(workflowJobId) then "#" + workflowJobId else workflowJobId
  }

  /** Two jobs share a result id exactly when one id is a number and the other is that number after '#'. */
  lemma ResultIdsCollide(a: string, b: string)
    requires a != b
    ensures ToWorkflowResultQueueJobId(a) == ToWorkflowResultQueueJobId(b)
            <==> (IsNumeric(a) && b == "#" + a) || (IsNumeric(b) && a == "#" + b)
  {
    if IsNumeric(a) && IsNumeric(b) {
      assert ("#" + a)[1..] == a && ("#" + b)[1..] == b;
    }
    forall id | IsNumeric(id) ensures !IsNumeric("#" + id) {
      assert ("#" + id)[0] == '#';
    }
  }

  /** Jobs of an in-memory queue never share a result id. */
  lemma InMemoryIdsKeepApart(queueName: string, m: nat, n: nat)
    ensures ToWorkflowResultQueueJobId(JobId(queueName, m)) == ToWorkflowResultQueueJobId(JobId(queueName, n))
            <==> m == n
  {
    var a, b := JobId(queueName, m), JobId(queueName, n);
    assert a[|queueName|] == ':' && b[|queueName|] == ':';
    if a == b {
      JobIdsDiffer(queueName, m, n);
    }
  }
}
