/** The job queue drained with FOR UPDATE SKIP LOCKED (src/queue-worker.ts): any number of
    workers, each holding the row lock of its job until its transaction ends. */
module QueueWorker {
  import opened Wrappers

  type WorkerId = nat

  datatype Status = New | Done

  /** A job's id is its place in the table. */
  datatype Job = Job(status: Status, worker: Option<WorkerId>, processed: nat)

  datatype Pc =
    | Idle                // about to call claimOne
    | Holding(job: nat)   // row locked, UPDATE not yet sent
    | Updated(job: nat)   // UPDATE sent, not committed: nobody else sees it
    | SawNone             // claimOne said 'empty'; about to count
    | Exited
    | Died

  datatype Queue = Queue(jobs: seq<Job>, workers: map<WorkerId, Pc>)

  datatype Step =
    | AddJob
    | Spawn(id: WorkerId)
    | Claim(id: WorkerId)
    | Update(id: WorkerId)
    | Commit(id: WorkerId)
    | Count(id: WorkerId)
    | Die(id: WorkerId)  // a crash or a failed statement: the transaction rolls back

  /** The job whose row lock a worker at `pc` has. */
  function Held(pc: Pc): Option<nat> {
    if pc.Holding? || pc.Updated? then Some(pc.job) else None
  }

  ghost predicate Locked(q: Queue, job: nat) {
    exists w :: w in q.workers && Held(q.workers[w]) == Some(job)
  }

  /** How many jobs are still `new`. */
  function NewCount(jobs: seq<Job>): nat {
    if jobs == [] then 0
    else NewCount(jobs[..|jobs| - 1]) + if jobs[|jobs| - 1].status == New then 1 else 0
  }

  ghost predicate Claimable(q: Queue, job: nat) {
    job < |q.jobs| && q.jobs[job].status == New && !Locked(q, job)
  }

  /** ORDER BY id LIMIT 1: the first `new` row at or after `i` that nobody has locked. */
  ghost function FirstFree(q: Queue, i: nat): (r: Option<nat>)
    requires i <= |q.jobs|
    ensures r.Some? ==> i <= r.value && Claimable(q, r.value) && forall j :: i <= j < r.value ==> !Claimable(q, j)
    ensures r.None? ==> forall j :: i <= j ==> !Claimable(q, j)
    decreases |q.jobs| - i
  {
    if i == |q.jobs| then None
    else if Claimable(q, i) then Some(i)
    else FirstFree(q, i + 1)
  }

  function Goto(q: Queue, id: WorkerId, pc: Pc): Queue {
    q.(workers := q.workers[id := pc])
  }

  function Processed(job: Job, id: WorkerId): Job {
    Job(Done, Some(id), job.processed + 1)
  }

  ghost function Move(q: Queue, step: Step, id: WorkerId, pc: Pc): Queue {
    match step
    case Claim(_) =>
      if !pc.Idle? then q
      else
        var free := FirstFree(q, 0);
        Goto(q, id, if free.Some? then Holding(free.value) else SawNone)
    case Update(_) =>
      if pc.Holding? then Goto(q, id, Updated(pc.job)) else q
    case Commit(_) =>
      if pc.Updated? && pc.job < |q.jobs| then
        Goto(q.(jobs := q.jobs[pc.job := Processed(q.jobs[pc.job], id)]), id, Idle)
      else q
    case Count(_) =>
      if pc.SawNone? then Goto(q, id, if NewCount(q.jobs) == 0 then Exited else Idle) else q
    case Die(_) =>
      if pc.Exited? then q else Goto(q, id, Died)
    case _ => q
  }

  ghost function Apply(q: Queue, step: Step): Queue {
    match step
    case AddJob => q.(jobs := q.jobs + [Job(New, None, 0)])
    case Spawn(id) => if id in q.workers then q else Goto(q, id, Idle)
    case _ => if step.id in q.workers then Move(q, step, step.id, q.workers[step.id]) else q
  }

  ghost function Run(q: Queue, steps: seq<Step>): Queue {
    if steps == [] then q else Apply(Run(q, steps[..|steps| - 1]), steps[|steps| - 1])
  }

  const EMPTY := Queue([], map[])

  // ---- the invariant ----

  predicate JobSound(job: Job) {
    job.processed <= 1 && (job.status == Done <==> job.processed == 1) && (job.status == Done <==> job.worker.Some?)
  }

  ghost predicate HeldOnce(q: Queue) {
    forall v, w :: v in q.workers && w in q.workers && Held(q.workers[v]).Some? && Held(q.workers[v]) == Held(q.workers[w]) ==> v == w
  }

  ghost predicate HeldAreNew(q: Queue) {
    forall w :: w in q.workers && Held(q.workers[w]).Some? ==>
      Held(q.workers[w]).value < |q.jobs| && q.jobs[Held(q.workers[w]).value].status == New
  }

  ghost predicate Sound(q: Queue) {
    (forall i :: 0 <= i < |q.jobs| ==> JobSound(q.jobs[i])) && HeldOnce(q) && HeldAreNew(q)
  }

  lemma HeldIsThere(q: Queue, id: WorkerId, job: nat)
    requires HeldAreNew(q) && id in q.workers && Held(q.workers[id]) == Some(job)
    ensures job < |q.jobs| && q.jobs[job].status == New
  {
  }

  lemma ClaimKeeps(q: Queue, id: WorkerId)
    requires Sound(q) && id in q.workers && q.workers[id].Idle?
    ensures Sound(Apply(q, Claim(id)))
  {
    var free := FirstFree(q, 0);
    forall w | w in q.workers && Held(q.workers[w]).Some? ensures Held(q.workers[w]) != free {
      assert Locked(q, Held(q.workers[w]).value);
    }
  }

  lemma CommitKeeps(q: Queue, id: WorkerId)
    requires Sound(q) && id in q.workers && q.workers[id].Updated?
    ensures Sound(Apply(q, Commit(id)))
  {
    var done := q.workers[id].job;
    HeldIsThere(q, id, done);
    assert JobSound(q.jobs[done]);
  }

  /** The other steps give nobody a lock he did not have and leave every job as it was. */
  lemma OtherKeeps(q: Queue, step: Step)
    requires Sound(q) && !step.Claim? && !step.Commit?
    ensures Sound(Apply(q, step))
  {
    hide NewCount;
    var q' := Apply(q, step);
    assert forall w :: w in q'.workers && Held(q'.workers[w]).Some? ==> w in q.workers && Held(q'.workers[w]) == Held(q.workers[w]);
  }

  lemma ApplyKeeps(q: Queue, step: Step)
    requires Sound(q)
    ensures Sound(Apply(q, step))
  {
    hide Sound;
    if step.Claim? && step.id in q.workers && q.workers[step.id].Idle? {
      ClaimKeeps(q, step.id);
    } else if step.Commit? && step.id in q.workers && q.workers[step.id].Updated? {
      CommitKeeps(q, step.id);
    } else if !step.Claim? && !step.Commit? {
      OtherKeeps(q, step);
    }
  }

  lemma {:induction false} RunKeeps(q: Queue, steps: seq<Step>)
    requires Sound(q)
    ensures Sound(Run(q, steps))
  {
    hide Apply, Sound;
    if steps != [] {
      RunKeeps(q, steps[..|steps| - 1]);
      ApplyKeeps(Run(q, steps[..|steps| - 1]), steps[|steps| - 1]);
    }
  }

  // ---- counting ----

  predicate Drained(jobs: seq<Job>) {
    forall i :: 0 <= i < |jobs| ==> jobs[i].status == Done
  }

  lemma {:induction false} NoneNew(jobs: seq<Job>)
    ensures NewCount(jobs) == 0 <==> Drained(jobs)
  {
    if jobs != [] {
      var before := jobs[..|jobs| - 1];
      NoneNew(before);
      assert Drained(jobs) ==> Drained(before);
      assert forall i :: 0 <= i < |before| ==> jobs[i] == before[i];
    }
  }

  lemma {:induction false} DoneCounts(jobs: seq<Job>, i: nat, job: Job)
    requires i < |jobs| && jobs[i].status == New && job.status == Done
    ensures NewCount(jobs[i := job]) == NewCount(jobs) - 1
  {
    var before, last := jobs[..|jobs| - 1], jobs[|jobs| - 1];
    var after := jobs[i := job];
    if i == |jobs| - 1 {
      assert after[..|jobs| - 1] == before;
    } else {
      DoneCounts(before, i, job);
      assert after[..|jobs| - 1] == before[i := job];
    }
  }

  predicate Commits(q: Queue, step: Step) {
    step.Commit? && step.id in q.workers && q.workers[step.id].Updated?
  }

  /** Each commit takes exactly one job off the count; nothing but a new order adds to it. */
  lemma CountMoves(q: Queue, step: Step)
    requires Sound(q)
    ensures NewCount(Apply(q, step).jobs) ==
              NewCount(q.jobs) + (if step.AddJob? then 1 else 0) - (if Commits(q, step) then 1 else 0)
  {
    if step.AddJob? {
      assert (q.jobs + [Job(New, None, 0)])[..|q.jobs|] == q.jobs;
    } else if Commits(q, step) {
      var job := q.workers[step.id].job;
      HeldIsThere(q, step.id, job);
      DoneCounts(q.jobs, job, Processed(q.jobs[job], step.id));
    }
  }

  // ---- the theorems ----

  /** Whatever the workers do and wherever they crash, no job is processed twice, `done` says
      exactly that it was processed once, and no two workers ever hold the same job. */
  lemma {:induction false} EachJobOnce(steps: seq<Step>)
    ensures var q := Run(EMPTY, steps);
            && (forall i :: 0 <= i < |q.jobs| ==> q.jobs[i].processed == if q.jobs[i].status == Done then 1 else 0)
            && HeldOnce(q) && HeldAreNew(q)
  {
    RunKeeps(EMPTY, steps);
    var q := Run(EMPTY, steps);
    assert forall i :: 0 <= i < |q.jobs| ==> JobSound(q.jobs[i]);
  }

  /** SKIP LOCKED takes the first `new` job that no worker holds, and nothing only when there is none. */
  lemma ClaimTakesFirst(q: Queue, id: WorkerId)
    requires id in q.workers && q.workers[id].Idle?
    ensures var pc := Apply(q, Claim(id)).workers[id];
            && (pc.Holding? || pc.SawNone?)
            && (pc.Holding? ==> pc.job < |q.jobs| && q.jobs[pc.job].status == New && !Taken(q, pc.job))
            && forall j: nat :: j < |q.jobs| && (pc.SawNone? || j < pc.job) ==> q.jobs[j].status == Done || Taken(q, j)
  {
    var free := FirstFree(q, 0);
    forall j: nat ensures Taken(q, j) <==> Locked(q, j) {
    }
    assert free.Some? ==> Claimable(q, free.value);
    forall j: nat | j < |q.jobs| && (free.None? || j < free.value) ensures q.jobs[j].status == Done || Taken(q, j) {
      assert !Claimable(q, j);
    }
  }

  predicate Taken(q: Queue, job: nat) {
    exists w :: w in q.workers && (q.workers[w] == Holding(job) || q.workers[w] == Updated(job))
  }

  /** Step `k` is the commit of worker `w` for that job. */
  ghost predicate FinishedBy(steps: seq<Step>, k: nat, job: nat, w: WorkerId) {
    && k < |steps| && steps[k] == Commit(w)
    && var q := Run(EMPTY, steps[..k]); w in q.workers && q.workers[w] == Updated(job)
  }

  predicate DoneBy(q: Queue, job: nat, w: WorkerId) {
    job < |q.jobs| && q.jobs[job] == Job(Done, Some(w), 1)
  }

  lemma StepFinishes(q: Queue, step: Step, job: nat, w: WorkerId)
    requires Sound(q)
    ensures DoneBy(Apply(q, step), job, w) <==>
              DoneBy(q, job, w) || (step == Commit(w) && w in q.workers && q.workers[w] == Updated(job))
  {
    if step.Commit? && step.id in q.workers && q.workers[step.id].Updated? {
      HeldIsThere(q, step.id, q.workers[step.id].job);
      assert JobSound(q.jobs[q.workers[step.id].job]);
    }
  }

  /** In every run a job is done by a worker exactly when that worker committed it. */
  lemma {:induction false} DoneByIff(steps: seq<Step>, job: nat, w: WorkerId)
    ensures DoneBy(Run(EMPTY, steps), job, w) <==> exists k :: FinishedBy(steps, k, job, w)
  {
    hide Apply, Sound, DoneBy;
    if steps != [] {
      var before, last := steps[..|steps| - 1], |steps| - 1;
      DoneByIff(before, job, w);
      EmptySound();
      RunKeeps(EMPTY, before);
      StepFinishes(Run(EMPTY, before), steps[last], job, w);
      if k: nat :| FinishedBy(before, k, job, w) {
        assert before[..k] == steps[..k] && FinishedBy(steps, k, job, w);
      }
      if k: nat :| FinishedBy(steps, k, job, w) {
        assert k < last ==> before[..k] == steps[..k] && FinishedBy(before, k, job, w);
      }
      if DoneBy(Run(EMPTY, steps), job, w) && !DoneBy(Run(EMPTY, before), job, w) {
        assert FinishedBy(steps, last, job, w);
      }
    } else {
      NothingDone(job, w);
    }
  }

  lemma NothingDone(job: nat, w: WorkerId)
    ensures !DoneBy(EMPTY, job, w)
  {
  }

  lemma EmptySound()
    ensures Sound(EMPTY)
  {
  }

  predicate HasExited(q: Queue, id: WorkerId) {
    id in q.workers && q.workers[id] == Exited
  }

  lemma ExitStep(q: Queue, step: Step, id: WorkerId)
    requires !HasExited(q, id) && HasExited(Apply(q, step), id)
    ensures step == Count(id) && Drained(q.jobs) && Drained(Apply(q, step).jobs)
  {
    NoneNew(q.jobs);
  }

  /** A worker leaves its loop at one step of the run, and at that instant no job is `new`, not
      even one held by another worker. */
  lemma {:induction false} ExitsOnlyWhenDrained(steps: seq<Step>, id: WorkerId) returns (k: nat)
    requires HasExited(Run(EMPTY, steps), id)
    ensures k < |steps|
    ensures !HasExited(Run(EMPTY, steps[..k]), id) && HasExited(Run(EMPTY, steps[..k + 1]), id)
    ensures steps[k] == Count(id) && Drained(Run(EMPTY, steps[..k]).jobs) && Drained(Run(EMPTY, steps[..k + 1]).jobs)
  {
    hide Apply;
    assert steps != [];
    var before, last := steps[..|steps| - 1], steps[|steps| - 1];
    if HasExited(Run(EMPTY, before), id) {
      k := ExitsOnlyWhenDrained(before, id);
      assert before[..k] == steps[..k] && before[..k + 1] == steps[..k + 1];
    } else {
      k := |steps| - 1;
      assert steps[..k + 1] == steps;
      ExitStep(Run(EMPTY, before), last, id);
    }
  }

  // ---- no crash loses a job ----

  lemma {:induction false} RunJoins(q: Queue, a: seq<Step>, b: seq<Step>)
    ensures Run(Run(q, a), b) == Run(q, a + b)
  {
    hide Apply;
    if b == [] {
      assert a + b == a;
    } else {
      var last := |b| - 1;
      RunJoins(q, a, b[..last]);
      assert a + b == (a + b[..last]) + [b[last]];
    }
  }

  lemma RunOne(q: Queue, step: Step)
    ensures Run(q, [step]) == Apply(q, step)
  {
    hide Apply;
    assert [step][..0] == [];
  }

  /** The worker holding a job can always finish it. */
  lemma HolderFinishes(q: Queue, id: WorkerId) returns (steps: seq<Step>)
    requires Sound(q) && id in q.workers && (q.workers[id].Holding? || q.workers[id].Updated?)
    ensures var r := Run(q, steps);
            && NewCount(r.jobs) == NewCount(q.jobs) - 1 && Sound(r)
            && r.workers == q.workers[id := Idle] && |r.jobs| == |q.jobs|
  {
    hide NewCount;
    HeldIsThere(q, id, q.workers[id].job);
    var u := if q.workers[id].Holding? then Apply(q, Update(id)) else q;
    steps := if q.workers[id].Holding? then [Update(id)] else [];
    assert Run(q, steps) == u by { RunOne(q, Update(id)); }
    ApplyKeeps(q, Update(id));
    CountMoves(q, Update(id));
    CountMoves(u, Commit(id));
    ApplyKeeps(u, Commit(id));
    RunOne(u, Commit(id));
    RunJoins(q, steps, [Commit(id)]);
    steps := steps + [Commit(id)];
  }

  /** While a job is `new` some worker can finish one: its holder, or the idle worker. */
  lemma OneMoreDone(q: Queue, id: WorkerId) returns (steps: seq<Step>)
    requires Sound(q) && NewCount(q.jobs) > 0 && id in q.workers && q.workers[id].Idle?
    ensures var r := Run(q, steps);
            Sound(r) && NewCount(r.jobs) == NewCount(q.jobs) - 1 && id in r.workers && r.workers[id].Idle?
  {
    NoneNew(q.jobs);
    var job :| 0 <= job < |q.jobs| && q.jobs[job].status == New;
    if Locked(q, job) {
      var w :| w in q.workers && Held(q.workers[w]) == Some(job);
      steps := HolderFinishes(q, w);
    } else {
      assert Claimable(q, job);
      var claimed := Apply(q, Claim(id));
      assert claimed.workers[id].Holding? && claimed.jobs == q.jobs;
      ApplyKeeps(q, Claim(id));
      RunOne(q, Claim(id));
      var rest := HolderFinishes(claimed, id);
      RunJoins(q, [Claim(id)], rest);
      steps := [Claim(id)] + rest;
    }
  }

  /** From every reachable state, however many workers have died holding jobs, one idle worker and
      the workers still holding a job can finish everything, and the idle one then exits. */
  lemma {:induction false} CanAlwaysDrain(q: Queue, id: WorkerId) returns (steps: seq<Step>)
    requires Sound(q) && id in q.workers && q.workers[id].Idle?
    ensures var r := Run(q, steps); Drained(r.jobs) && id in r.workers && r.workers[id] == Exited
    decreases NewCount(q.jobs)
  {
    if NewCount(q.jobs) > 0 {
      var first := OneMoreDone(q, id);
      var rest := CanAlwaysDrain(Run(q, first), id);
      RunJoins(q, first, rest);
      steps := first + rest;
    } else {
      NoneNew(q.jobs);
      var looked := Apply(q, Claim(id));
      assert looked.workers[id] == SawNone;
      RunOne(q, Claim(id));
      RunOne(looked, Count(id));
      RunJoins(q, [Claim(id)], [Count(id)]);
      steps := [Claim(id)] + [Count(id)];
    }
  }

  // ---- the worker itself ----

  datatype ClaimResult = DoneOne | NothingFree | Failed

  predicate Free(jobs: seq<Job>, locked: set<nat>, job: nat) {
    job < |jobs| && jobs[job].status == New && job !in locked
  }

  class JobTable {
    var jobs: seq<Job>
    var locked: set<nat>  // rows other transactions hold

    constructor (jobs: seq<Job>, locked: set<nat>)
      ensures this.jobs == jobs && this.locked == locked
    {
      this.jobs, this.locked := jobs, locked;
    }

    /** claimOne: the first free job, processed and marked in one transaction. */
    method ClaimOne(worker: WorkerId, fails: bool) returns (result: ClaimResult, ghost job: nat)
      modifies this
      ensures locked == old(locked)
      ensures result == NothingFree <==> forall k: nat :: !Free(old(jobs), locked, k)
      ensures result != NothingFree ==> Free(old(jobs), locked, job) && forall k: nat :: k < job ==> !Free(old(jobs), locked, k)
      ensures result != NothingFree ==> (result == Failed <==> fails)
      ensures jobs == if result == DoneOne then old(jobs)[job := Job(Done, Some(worker), old(jobs)[job].processed + 1)] else old(jobs)
      ensures result != NothingFree ==> job < |old(jobs)| && old(jobs)[job].status == New && job !in locked
      ensures forall k: nat :: k < |old(jobs)| && (result == NothingFree || k < job) ==> old(jobs)[k].status == Done || k in locked
    {
      var i := 0;
      job := 0;
      while i < |jobs| && !Free(jobs, locked, i)
        invariant 0 <= i <= |jobs|
        invariant forall k: nat :: k < i ==> !Free(jobs, locked, k)
      {
        i := i + 1;
      }
      forall k: nat | k < i ensures jobs[k].status == Done || k in locked {
        assert !Free(jobs, locked, k);
      }
      if i == |jobs| {
        return NothingFree, 0;
      }
      job := i;
      if fails {
        return Failed, job;
      }
      jobs := jobs[i := Processed(jobs[i], worker)];
      result := DoneOne;
    }

    method CountNew() returns (n: nat)
      ensures n == NewCount(jobs)
    {
      n := 0;
      for i := 0 to |jobs|
        invariant n == NewCount(jobs[..i])
      {
        assert jobs[..i + 1][..i] == jobs[..i];
        if jobs[i].status == New {
          n := n + 1;
        }
      }
      assert jobs[..|jobs|] == jobs;
    }

    /** runWorker with no other worker about: every `new` job is processed, by this worker and
        once, no other job changes, and it takes one claim per job and one more. */
    method RunWorker(worker: WorkerId) returns (ghost claims: nat)
      requires locked == {}
      modifies this
      ensures Drained(jobs) && |jobs| == |old(jobs)| && locked == {}
      ensures forall i :: 0 <= i < |jobs| ==>
                jobs[i] == if old(jobs)[i].status == New then Job(Done, Some(worker), old(jobs)[i].processed + 1) else old(jobs)[i]
      ensures claims == NewCount(old(jobs)) + 1
    {
      ghost var start := jobs;
      claims := 0;
      while true
        invariant locked == {} && |jobs| == |start|
        invariant forall i :: 0 <= i < |jobs| ==>
                    jobs[i] == start[i] || (start[i].status == New && jobs[i] == Processed(start[i], worker))
        invariant claims + NewCount(jobs) == NewCount(start)
        decreases NewCount(jobs)
      {
        ghost var was := jobs;
        var result, job := ClaimOne(worker, false);
        claims := claims + 1;
        if result == NothingFree {
          forall i | 0 <= i < |jobs| ensures jobs[i].status == Done {
            assert !Free(was, locked, i);
          }
          NoneNew(jobs);
          var n := CountNew();
          if n == 0 {
            return;
          }
        } else {
          DoneCounts(was, job, jobs[job]);
        }
      }
    }
  }
}
