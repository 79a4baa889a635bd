/** The job queue: first in, first out, with a way back to the front. */
module JobQueue {
  class JobUnitQueue<Job> {
    var jobs: seq<Job>
    const empty: Job

    /** `empty` is what the default constructor of a job makes. */
    constructor (empty: Job)
      ensures jobs == [] && this.empty == empty
    {
      jobs := [];
      this.empty := empty;
    }

    method Put(job: Job)
      modifies this
      ensures jobs == old(jobs) + [job]
    {
      jobs := jobs + [job];
    }

    /** An empty queue yields an empty job. */
    method Get() returns (job: Job)
      modifies this
      ensures old(jobs) == [] ==> job == empty && jobs == []
      ensures old(jobs) != [] ==> [job] + jobs == old(jobs)
    {
      job := empty;
      if |jobs| > 0 {
        job := jobs[0];
        jobs := jobs[1..];
      }
    }

    method Unget(job: Job)
      modifies this
      ensures jobs == [job] + old(jobs)
    {
      jobs := [job] + jobs;
    }

    method Clear()
      modifies this
      ensures jobs == []
    {
      jobs := [];
    }

    method Size() returns (n: nat)
      ensures n == |jobs|
    {
      n := |jobs|;
    }

    /** The first half of `wait_for`: a queue with a job is not waited for. The second half, the wait on the
        condition variable, lets other threads in and ends with or without a timeout whatever the queue holds. */
    method MustWait() returns (wait: bool)
      ensures wait <==> jobs == []
    {
      wait := |jobs| == 0;
    }
  }
}
