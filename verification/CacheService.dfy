/** CacheAside.get as it is written (src/redis/cache.ts), run with no other process in between:
    each command it sends is a step of the machine in CacheAside. */
module CacheService {
  import opened Wrappers
  import opened CacheAside

  /** Steps of this call's own, none of them a crash. */
  predicate OwnSteps(steps: seq<Step>, id: CallId) {
    forall k :: 0 <= k < |steps| ==> OwnStep(steps[k], id)
  }

  predicate OwnStep(step: Step, id: CallId) {
    !step.Crash? && !step.LockExpires? && !step.Evict? && step.id == id
  }

  function LoadResult(loaded: Loaded): CacheAside.Result {
    match loaded
    case Found(value) => Returned(Some(value))
    case Missing => Returned(None)
    case Threw => Raised
  }

  /** The entry after load() and a write that met `redis`. */
  function Filled(entry: Option<Value>, loaded: Loaded, redis: Redis): Option<Value> {
    if loaded.Found? && !redis.Down? then Some(loaded.value) else entry
  }

  predicate Answers(redis: nat -> Redis, n: nat) {
    redis(n).Fine?
  }

  /** Some poll, of the commands from `first` on, is answered. */
  predicate SomePollAnswered(redis: nat -> Redis, first: nat, polls: nat) {
    exists n :: first <= n < first + polls && Answers(redis, n)
  }

  function PollSteps(id: CallId, redis: nat -> Redis, first: nat, polls: nat): seq<Step> {
    if polls == 0 then [] else PollSteps(id, redis, first, polls - 1) + [Poll(id, redis(first + polls - 1))]
  }

  function FillSteps(id: CallId, loaded: Loaded, redis: Redis): seq<Step> {
    [Load(id, loaded)] + if loaded.Found? then [Write(id, redis)] else []
  }

  /** load() did not run. */
  predicate NoLoad(steps: seq<Step>) {
    forall k :: 0 <= k < |steps| ==> !steps[k].Load?
  }

  lemma {:induction false} PollsLoadNothing(id: CallId, redis: nat -> Redis, first: nat, polls: nat)
    ensures NoLoad(PollSteps(id, redis, first, polls)) && |PollSteps(id, redis, first, polls)| == polls
    ensures forall k :: 0 <= k < polls ==> PollSteps(id, redis, first, polls)[k] == Poll(id, redis(first + k))
  {
    if polls > 0 {
      PollsLoadNothing(id, redis, first, polls - 1);
    }
  }

  lemma RunOn(s: Sys, steps: seq<Step>, step: Step)
    ensures Run(s, steps + [step]) == Apply(Run(s, steps), step)
  {
    hide Apply;
    assert (steps + [step])[..|steps|] == steps;
  }

  /** The two keys of one cache entry, and the history of the machine they belong to. */
  class Cache {
    const singleFlight: bool
    var entry: Option<Value>
    var lock: Option<CallId>
    ghost var machine: Sys
    ghost var steps: seq<Step>

    constructor (singleFlight: bool)
      ensures Shows() && machine == Initial(singleFlight)
    {
      this.singleFlight := singleFlight;
      entry, lock, machine, steps := None, None, Initial(singleFlight), [];
    }

    ghost predicate Shows()
      reads this
    {
      machine.singleFlight == singleFlight && machine.entry == entry && machine.lock == lock
    }

    /** Where call `id` stands in the machine. */
    ghost predicate Stands(id: CallId, pc: Pc)
      reads this
    {
      Shows() && id in machine.calls && machine.calls[id] == pc
    }

    /** The machine makes one step. */
    ghost method Note(step: Step, start: Sys, id: CallId)
      requires machine == Run(start, steps) && OwnSteps(steps, id) && OwnStep(step, id)
      modifies this`machine, this`steps
      ensures machine == Apply(old(machine), step) && machine == Run(start, steps) && OwnSteps(steps, id)
      ensures steps == old(steps) + [step]
    {
      RunOn(start, steps, step);
      machine, steps := Apply(machine, step), steps + [step];
    }

    /** safe(GET): a value, or a miss when there is none or Redis does not answer. */
    method Read(redis: Redis) returns (hit: Option<Value>)
      ensures hit == if Hit(Sys(singleFlight, entry, lock, map[], 0, {}, 0), redis) then entry else None
    {
      hit := if redis.Fine? then entry else None;
    }

    /** fill(): load, then write what was found. */
    method Fill(id: CallId, leader: bool, loaded: Loaded, redis: Redis, ghost start: Sys) returns (r: CacheAside.Result)
      requires Stands(id, if leader then Loading else FallingBack)
      requires machine == Run(start, steps) && OwnSteps(steps, id)
      modifies this
      ensures Stands(id, if leader then Unlocking(r) else Done(r))
      ensures machine == Run(start, steps) && OwnSteps(steps, id)
      ensures r == LoadResult(loaded) && entry == Filled(old(entry), loaded, redis) && lock == old(lock)
      ensures match loaded
              case Found(value) => r == Returned(Some(value)) && entry == if redis.Down? then old(entry) else Some(value)
              case Missing => r == Returned(None) && entry == old(entry)
              case Threw => r == Raised && entry == old(entry)
      ensures steps == old(steps) + FillSteps(id, loaded, redis)
    {
      hide Run, OwnSteps;
      Note(Load(id, loaded), start, id);
      match loaded
      case Threw => return Raised;
      case Missing => return Returned(None);
      case Found(value) =>
        if !redis.Down? {
          entry := Some(value);
        }
        Note(Write(id, redis), start, id);
        return Returned(Some(value));
    }

    /** UNLOCK_LUA, whatever came of the call: a lock is removed only while it holds this call's token. */
    method Release(id: CallId, r: CacheAside.Result, redis: Redis, ghost start: Sys)
      requires Stands(id, Unlocking(r)) && machine == Run(start, steps) && OwnSteps(steps, id)
      modifies this
      ensures Stands(id, Done(r)) && machine == Run(start, steps) && OwnSteps(steps, id)
      ensures entry == old(entry) && lock == if old(lock) == Some(id) && !redis.Down? then None else old(lock)
      ensures steps == old(steps) + [Unlock(id, redis)]
    {
      hide Run, OwnSteps, AfterLoad;
      if lock == Some(id) && !redis.Down? {
        lock := None;
      }
      Note(Unlock(id, redis), start, id);
    }

    /** With the lock in hand: look again, load and write if need be, then unlock. */
    method Lead(id: CallId, redis: nat -> Redis, loaded: Loaded, ghost start: Sys) returns (r: CacheAside.Result)
      requires Stands(id, Rereading) && machine == Run(start, steps) && OwnSteps(steps, id)
      modifies this
      ensures Stands(id, Done(r)) && machine == Run(start, steps) && OwnSteps(steps, id)
      ensures if old(entry).Some? && redis(2).Fine? then r == Returned(old(entry)) && entry == old(entry)
              else r == LoadResult(loaded) && entry == Filled(old(entry), loaded, redis(3))
      ensures lock == if old(lock) == Some(id) && !redis(4).Down? then None else old(lock)
      ensures steps == old(steps) + [Reread(id, redis(2))]
                       + (if old(entry).Some? && redis(2).Fine? then [] else FillSteps(id, loaded, redis(3)))
                       + [Unlock(id, redis(4))]
    {
      hide Run, OwnSteps, AfterLoad, FillSteps;
      var again := Read(redis(2));
      Note(Reread(id, redis(2)), start, id);
      r := Returned(again);
      if again.None? {
        r := Fill(id, true, loaded, redis(3), start);
      }
      Release(id, r, redis(4), start);
    }

    /** Without it: poll until there is a value or no more time, then load after all. */
    method Wait(id: CallId, redis: nat -> Redis, loaded: Loaded, polls: nat, ghost start: Sys) returns (r: CacheAside.Result)
      requires Stands(id, Polling) && machine == Run(start, steps) && OwnSteps(steps, id)
      modifies this
      ensures Stands(id, Done(r)) && machine == Run(start, steps) && OwnSteps(steps, id)
      ensures lock == old(lock)
      ensures old(entry).Some? && SomePollAnswered(redis, 2, polls) ==>
                && r == Returned(old(entry)) && entry == old(entry)
                && exists n :: 0 < n <= polls && Answers(redis, 2 + n - 1) && !SomePollAnswered(redis, 2, n - 1)
                       && steps == old(steps) + PollSteps(id, redis, 2, n)
      ensures !(old(entry).Some? && SomePollAnswered(redis, 2, polls)) ==>
                && r == LoadResult(loaded) && entry == Filled(old(entry), loaded, redis(2 + polls))
                && steps == old(steps) + PollSteps(id, redis, 2, polls) + [GiveUpWaiting(id)] + FillSteps(id, loaded, redis(2 + polls))
    {
      hide Run, OwnSteps, AfterLoad, FillSteps;
      for i := 0 to polls
        invariant lock == old(lock) && entry == old(entry)
        invariant Stands(id, Polling) && machine == Run(start, steps) && OwnSteps(steps, id)
        invariant old(entry).Some? ==> !SomePollAnswered(redis, 2, i)
        invariant steps == old(steps) + PollSteps(id, redis, 2, i)
      {
        var v := Read(redis(2 + i));
        Note(Poll(id, redis(2 + i)), start, id);
        assert steps == old(steps) + PollSteps(id, redis, 2, i + 1);
        if v.Some? {
          assert Answers(redis, 2 + i);
          return Returned(v);
        }
      }
      Note(GiveUpWaiting(id), start, id);
      r := Fill(id, false, loaded, redis(2 + polls), start);
    }

    /** A miss: whoever gets the lock leads, everyone else waits. */
    method Contend(id: CallId, redis: nat -> Redis, loaded: Loaded, polls: nat, ghost start: Sys) returns (r: CacheAside.Result)
      requires Stands(id, Locking) && machine == Run(start, steps) && OwnSteps(steps, id) && NoLoad(steps)
      modifies this
      ensures Stands(id, Done(r)) && machine == Run(start, steps) && OwnSteps(steps, id)
      ensures var leads := old(lock).None? && redis(1).Fine?;
              var served := old(entry).Some? && if leads then redis(2).Fine? else SomePollAnswered(redis, 2, polls);
              && (served ==> r == Returned(old(entry)) && entry == old(entry) && NoLoad(steps))
              && (!served ==>
                    r == LoadResult(loaded) && entry == Filled(old(entry), loaded, redis(if leads then 3 else 2 + polls)))
      ensures lock == if old(lock).Some? then old(lock)
                      else if redis(1).Fine? then (if redis(4).Down? then Some(id) else None)
                      else if redis(1).ReplyLost? then Some(id)
                      else None
    {
      hide Run, OwnSteps, AfterLoad, PollSteps, FillSteps, SomePollAnswered, LoadResult, Filled;
      var got := lock.None? && redis(1).Fine?;
      if lock.None? && !redis(1).Down? {
        lock := Some(id);
      }
      Note(TryLock(id, redis(1)), start, id);
      if got {
        r := Lead(id, redis, loaded, start);
      } else {
        r := Wait(id, redis, loaded, polls, start);
        ManyPollsLoadNothing(id, redis, polls);
      }
    }

    /** get(): `redis(n)` is what happens to the n-th Redis command, `polls` how often there is time
        to look again. The call is a run of the machine that ends in its result. It returns what is
        cached, without loading, whenever some look at the cache is answered, and else what load()
        gave. */
    method Get(id: CallId, redis: nat -> Redis, loaded: Loaded, polls: nat) returns (r: CacheAside.Result)
      requires Shows() && id !in machine.calls
      modifies this
      ensures Stands(id, Done(r))
      ensures machine == Run(old(machine), steps) && OwnSteps(steps, id)
      ensures var leads := old(lock).None? && redis(1).Fine?;
              var served := old(entry).Some? &&
                (redis(0).Fine? || (singleFlight && if leads then redis(2).Fine? else SomePollAnswered(redis, 2, polls)));
              && (served ==> r == Returned(old(entry)) && entry == old(entry) && NoLoad(steps))
              && (!served ==>
                    && r == LoadResult(loaded)
                    && entry == Filled(old(entry), loaded, redis(if !singleFlight then 1 else if leads then 3 else 2 + polls)))
      ensures lock == if (old(entry).Some? && redis(0).Fine?) || !singleFlight || old(lock).Some? then old(lock)
                      else if redis(1).Fine? then (if redis(4).Down? then Some(id) else None)
                      else if redis(1).ReplyLost? then Some(id)
                      else None
    {
      hide Run, OwnSteps, AfterLoad, FillSteps, SomePollAnswered, LoadResult, Filled;
      ghost var start := machine;
      steps := [];
      Begins(start, id);
      Note(Call(id), start, id);
      var hit := Read(redis(0));
      Note(CacheAside.Read(id, redis(0)), start, id);
      if hit.Some? {
        return Returned(hit);
      }
      if !singleFlight {
        r := Fill(id, false, loaded, redis(1), start);
        return;
      }
      r := Contend(id, redis, loaded, polls, start);
    }
  }

  lemma ManyPollsLoadNothing(id: CallId, redis: nat -> Redis, polls: nat)
    ensures forall n :: 0 <= n <= polls ==> NoLoad(PollSteps(id, redis, 2, n))
  {
    forall n | 0 <= n <= polls ensures NoLoad(PollSteps(id, redis, 2, n)) {
      PollsLoadNothing(id, redis, 2, n);
    }
  }

  lemma Begins(s: Sys, id: CallId)
    ensures Run(s, []) == s && OwnSteps([], id)
  {
  }
}
