/** Single-flight cache-aside for one key (src/redis/cache.ts): any number of concurrent
    get() calls, each with its own lock token, interleaved command by command. */
module CacheAside {
  import opened Wrappers

  type CallId = nat  // also the call's lock token: a fresh UUID

  type Value = nat

  /** What happened to a Redis command: it took effect, it did not, or it did and the reply was lost. */
  datatype Redis = Fine | Down | ReplyLost

  /** What load() did. */
  datatype Loaded = Found(value: Value) | Missing | Threw

  datatype Result = Returned(value: Option<Value>) | Raised

  /** The next thing a call does. */
  datatype Pc =
    | Reading
    | Locking
    | Rereading
    | Loading
    | Writing(value: Value)
    | Unlocking(result: Result)
    | Polling
    | FallingBack
    | FallbackWriting(value: Value)
    | Done(result: Result)
    | Dead

  /** `loads`, `values` and `faults` are history: how often load() ran, what it found, and how
      many things went wrong. */
  datatype Sys = Sys(
    singleFlight: bool, entry: Option<Value>, lock: Option<CallId>, calls: map<CallId, Pc>,
    loads: nat, values: set<Value>, faults: nat)

  datatype Step =
    | Call(id: CallId)
    | Read(id: CallId, redis: Redis)
    | TryLock(id: CallId, redis: Redis)
    | Reread(id: CallId, redis: Redis)
    | Load(id: CallId, outcome: Loaded)
    | Write(id: CallId, redis: Redis)
    | Unlock(id: CallId, redis: Redis)
    | Poll(id: CallId, redis: Redis)
    | GiveUpWaiting(id: CallId)
    | Crash(id: CallId)
    | LockExpires
    | Evict

  function Initial(singleFlight: bool): Sys {
    Sys(singleFlight, None, None, map[], 0, {}, 0)
  }

  function Goto(s: Sys, id: CallId, pc: Pc): Sys {
    s.(calls := s.calls[id := pc])
  }

  function Blame(s: Sys, fault: bool): Sys {
    if fault then s.(faults := s.faults + 1) else s
  }

  predicate Hit(s: Sys, redis: Redis) {
    redis.Fine? && s.entry.Some?
  }

  function AfterLoad(s: Sys, id: CallId, outcome: Loaded, leader: bool): Sys {
    var loaded := Blame(s.(loads := s.loads + 1), !outcome.Found?);
    match outcome
    case Found(v) => Goto(loaded.(values := s.values + {v}), id, if leader then Writing(v) else FallbackWriting(v))
    case Missing => Goto(loaded, id, if leader then Unlocking(Returned(None)) else Done(Returned(None)))
    case Threw => Goto(loaded, id, if leader then Unlocking(Raised) else Done(Raised))
  }

  function Move(s: Sys, step: Step, id: CallId, pc: Pc): Sys {
    match step
    case Read(_, redis) =>
      if !pc.Reading? then s
      else if Hit(s, redis) then Goto(s, id, Done(Returned(s.entry)))
      else Blame(Goto(s, id, if s.singleFlight then Locking else FallingBack), !redis.Fine?)
    case TryLock(_, redis) =>
      if !pc.Locking? then s
      else if s.lock.None? && redis.Fine? then Goto(s.(lock := Some(id)), id, Rereading)
      else if s.lock.None? && redis.ReplyLost? then Blame(Goto(s.(lock := Some(id)), id, Polling), true)
      else Blame(Goto(s, id, Polling), !redis.Fine?)
    case Reread(_, redis) =>
      if !pc.Rereading? then s
      else if Hit(s, redis) then Goto(s, id, Unlocking(Returned(s.entry)))
      else Blame(Goto(s, id, Loading), !redis.Fine?)
    case Load(_, outcome) =>
      if pc.Loading? then AfterLoad(s, id, outcome, true)
      else if pc.FallingBack? then AfterLoad(s, id, outcome, false)
      else s
    case Write(_, redis) =>
      if pc.Writing? then
        Blame(Goto(if redis.Down? then s else s.(entry := Some(pc.value)), id, Unlocking(Returned(Some(pc.value)))), redis.Down?)
      else if pc.FallbackWriting? then
        Blame(Goto(if redis.Down? then s else s.(entry := Some(pc.value)), id, Done(Returned(Some(pc.value)))), redis.Down?)
      else s
    case Unlock(_, redis) =>
      // compare-and-delete: only a lock that still holds this call's token goes
      if !pc.Unlocking? then s
      else Blame(Goto(if s.lock == Some(id) && !redis.Down? then s.(lock := None) else s, id, Done(pc.result)), redis.Down?)
    case Poll(_, redis) =>
      if !pc.Polling? then s
      else if Hit(s, redis) then Goto(s, id, Done(Returned(s.entry)))
      else Blame(s, !redis.Fine?)
    case GiveUpWaiting(_) =>
      if pc.Polling? then Blame(Goto(s, id, FallingBack), true) else s
    case Crash(_) =>
      if pc.Done? || pc.Dead? then s else Blame(Goto(s, id, Dead), true)
    case _ => s
  }

  function Apply(s: Sys, step: Step): Sys {
    match step
    case Call(id) => if id in s.calls then s else Goto(s, id, Reading)
    case LockExpires => if s.lock.Some? then Blame(s.(lock := None), true) else s
    case Evict => if s.entry.Some? then Blame(s.(entry := None), true) else s
    case _ => if step.id in s.calls then Move(s, step, step.id, s.calls[step.id]) else s
  }

  function Run(s: Sys, steps: seq<Step>): Sys {
    if steps == [] then s else Apply(Run(s, steps[..|steps| - 1]), steps[|steps| - 1])
  }

  // ---- how often load() can run ----

  /** The call is bound to load: it has committed to it, or is about to reread without holding
      the lock any more. */
  predicate WillLoad(s: Sys, id: CallId) {
    id in s.calls && (s.calls[id].Loading? || s.calls[id].FallingBack? || (s.calls[id].Rereading? && s.lock != Some(id)))
  }

  function Bound(s: Sys): set<CallId> {
    set id | id in s.calls && WillLoad(s, id)
  }

  /** The entry is missing and no holder of the lock is on its way to write it, so one more call
      may yet take the lock and load. */
  predicate Vacant(s: Sys) {
    s.entry.None? &&
    !(s.lock.Some? && s.lock.value in s.calls && (s.calls[s.lock.value].Loading? || s.calls[s.lock.value].Writing?))
  }

  predicate Budget(s: Sys) {
    s.loads + |Bound(s)| + (if Vacant(s) then 1 else 0) <= 1 + s.faults
  }

  lemma BoundGrows(s: Sys, s': Sys, id: CallId)
    requires Bound(s') <= Bound(s) + {id}
    ensures |Bound(s')| <= |Bound(s)| + 1
    ensures id in Bound(s) ==> |Bound(s')| <= |Bound(s)|
    ensures id !in Bound(s') && id in Bound(s) ==> |Bound(s')| <= |Bound(s)| - 1
    ensures id !in Bound(s') ==> |Bound(s')| <= |Bound(s)|
  {
    SubsetSize(Bound(s'), Bound(s) + {id});
    if id !in Bound(s') {
      SubsetSize(Bound(s'), Bound(s) - {id});
    }
    assert id in Bound(s) ==> Bound(s) + {id} == Bound(s);
  }

  /** A step of call `id`, or the expiry of its lock, changes nobody else's prospects. */
  lemma OthersUnmoved(s: Sys, s': Sys, id: CallId)
    requires forall j :: j != id ==> (j in s.calls <==> j in s'.calls) && (j in s.calls ==> s'.calls[j] == s.calls[j])
    requires forall j :: j != id ==> (s.lock == Some(j) <==> s'.lock == Some(j))
    ensures Bound(s') <= Bound(s) + {id}
  {
  }

  function One(b: bool): nat {
    if b then 1 else 0
  }

  /** What a step of call `id` does to the budget, seen from that call alone. */
  predicate Afforded(s: Sys, s': Sys, id: CallId) {
    s'.loads + One(WillLoad(s', id)) + One(Vacant(s')) + s.faults
    <= s.loads + One(WillLoad(s, id)) + One(Vacant(s)) + s'.faults
  }

  lemma AffordedKeepsBudget(s: Sys, s': Sys, id: CallId)
    requires Budget(s) && Afforded(s, s', id) && OnlyOne(s, s', id)
    ensures Budget(s')
  {
    OthersUnmoved(s, s', id);
    BoundGrows(s, s', id);
    assert (id in Bound(s) <==> WillLoad(s, id)) && (id in Bound(s') <==> WillLoad(s', id));
    hide Bound, WillLoad, Vacant;
  }

  /** Between `s` and `s'` nobody but call `id` has moved. */
  ghost predicate OnlyOne(s: Sys, s': Sys, id: CallId) {
    && s'.singleFlight == s.singleFlight
    && (forall j :: j != id ==> (j in s.calls <==> j in s'.calls) && (j in s.calls ==> s'.calls[j] == s.calls[j]))
    && (forall j :: j != id ==> (s.lock == Some(j) <==> s'.lock == Some(j)))
  }

  lemma LoadMovesOne(s: Sys, id: CallId, outcome: Loaded)
    requires id in s.calls
    ensures OnlyOne(s, Move(s, Load(id, outcome), id, s.calls[id]), id)
  {
  }

  lemma CommandMovesOne(s: Sys, step: Step, id: CallId)
    requires id in s.calls && !step.Load?
    ensures OnlyOne(s, Move(s, step, id, s.calls[id]), id)
  {
    hide AfterLoad;
    var s' := Move(s, step, id, s.calls[id]);
    assert s'.calls == s.calls[id := s'.calls[id]];
    assert s'.lock == s.lock || (s.lock.None? && s'.lock == Some(id)) || (s.lock == Some(id) && s'.lock.None?);
  }

  lemma LoadAfforded(s: Sys, id: CallId, outcome: Loaded)
    requires id in s.calls
    ensures Afforded(s, Move(s, Load(id, outcome), id, s.calls[id]), id)
  {
  }

  /** A command to Redis, or a wait given up. */
  lemma CommandAfforded(s: Sys, step: Step, id: CallId)
    requires s.singleFlight && id in s.calls && !step.Load?
    ensures Afforded(s, Move(s, step, id, s.calls[id]), id)
  {
    hide AfterLoad;
  }

  lemma MoveKeepsBudget(s: Sys, step: Step, id: CallId)
    requires s.singleFlight && Budget(s) && id in s.calls && (step.Load? ==> step.id == id)
    ensures Move(s, step, id, s.calls[id]).singleFlight && Budget(Move(s, step, id, s.calls[id]))
  {
    hide Budget, Move, Afforded;
    if step.Load? {
      LoadMovesOne(s, id, step.outcome);
      LoadAfforded(s, id, step.outcome);
    } else {
      CommandMovesOne(s, step, id);
      CommandAfforded(s, step, id);
    }
    AffordedKeepsBudget(s, Move(s, step, id, s.calls[id]), id);
  }

  lemma ApplyKeepsBudget(s: Sys, step: Step)
    requires s.singleFlight && Budget(s)
    ensures Apply(s, step).singleFlight && Budget(Apply(s, step))
  {
    var s' := Apply(s, step);
    if step.LockExpires? {
      if s.lock.Some? {
        OthersUnmoved(s, s', s.lock.value);
        BoundGrows(s, s', s.lock.value);
      }
    } else if step.Evict? {
      assert Bound(s') == Bound(s);
    } else if step.Call? {
      OthersUnmoved(s, s', step.id);
      BoundGrows(s, s', step.id);
    } else if step.id in s.calls {
      MoveKeepsBudget(s, step, step.id);
    }
  }

  /** In every interleaving, load() runs at most once, and once more for each thing that went
      wrong: a lock that expired, an evicted entry, a failed Redis command, a waiter that gave
      up, a load that found nothing or threw, a crashed call. */
  lemma {:induction false} LoadsAreBounded(steps: seq<Step>)
    ensures Run(Initial(true), steps).singleFlight && Budget(Run(Initial(true), steps))
    ensures Run(Initial(true), steps).loads <= 1 + Run(Initial(true), steps).faults
  {
    if steps != [] {
      LoadsAreBounded(steps[..|steps| - 1]);
      ApplyKeepsBudget(Run(Initial(true), steps[..|steps| - 1]), steps[|steps| - 1]);
    }
  }

  // ---- where values come from ----

  /** A result that some load() produced; without faults, always a value. */
  predicate FromLoad(s: Sys, r: Result) {
    && (r.Returned? && r.value.Some? ==> r.value.value in s.values)
    && (s.faults == 0 ==> r.Returned? && r.value.Some?)
  }

  predicate CallSound(s: Sys, pc: Pc) {
    match pc
    case Writing(v) => v in s.values
    case FallbackWriting(v) => v in s.values
    case Unlocking(r) => FromLoad(s, r)
    case Done(r) => FromLoad(s, r)
    case _ => true
  }

  predicate ValuesSound(s: Sys) {
    && (s.entry.Some? ==> s.entry.value in s.values)
    && |s.values| <= s.loads
    && (forall id :: id in s.calls ==> CallSound(s, s.calls[id]))
  }

  /** What a call does itself: its own next step stays sound, and so does the entry. */
  lemma MoveValue(s: Sys, step: Step, id: CallId)
    requires (s.entry.Some? ==> s.entry.value in s.values) && |s.values| <= s.loads
    requires id in s.calls && CallSound(s, s.calls[id])
    ensures var s' := Move(s, step, id, s.calls[id]);
            && (s'.entry.Some? ==> s'.entry.value in s'.values) && |s'.values| <= s'.loads
            && id in s'.calls && CallSound(s', s'.calls[id])
            && s.values <= s'.values && s.faults <= s'.faults && s'.calls == s.calls[id := s'.calls[id]]
  {
    hide AfterLoad;
    if step.Load? && s.calls[id].Loading? {
      LoadValue(s, id, step.outcome, true);
    } else if step.Load? && s.calls[id].FallingBack? {
      LoadValue(s, id, step.outcome, false);
    }
  }

  lemma LoadValue(s: Sys, id: CallId, outcome: Loaded, leader: bool)
    requires |s.values| <= s.loads && id in s.calls
    ensures var s' := AfterLoad(s, id, outcome, leader);
            && s'.entry == s.entry && |s'.values| <= s'.loads
            && id in s'.calls && CallSound(s', s'.calls[id])
            && s.values <= s'.values && s.faults <= s'.faults && s'.calls == s.calls[id := s'.calls[id]]
  {
  }

  lemma CallStaysSound(s: Sys, s': Sys, pc: Pc)
    requires CallSound(s, pc) && s.values <= s'.values && s.faults <= s'.faults
    ensures CallSound(s', pc)
  {
  }

  lemma ApplyKeepsValues(s: Sys, step: Step)
    requires ValuesSound(s)
    ensures ValuesSound(Apply(s, step))
  {
    hide CallSound, Move;
    var s' := Apply(s, step);
    if step.Call? {
      if step.id !in s.calls {
        NewCallSound(s');
      }
    } else if !step.LockExpires? && !step.Evict? && step.id in s.calls {
      MoveValue(s, step, step.id);
    }
    forall id | id in s.calls && s'.calls[id] == s.calls[id] ensures CallSound(s', s'.calls[id]) {
      CallStaysSound(s, s', s.calls[id]);
    }
  }

  lemma NewCallSound(s: Sys)
    ensures CallSound(s, Reading)
  {
  }

  lemma {:induction false} ValuesComeFromLoads(singleFlight: bool, steps: seq<Step>)
    ensures ValuesSound(Run(Initial(singleFlight), steps))
  {
    if steps != [] {
      ValuesComeFromLoads(singleFlight, steps[..|steps| - 1]);
      ApplyKeepsValues(Run(Initial(singleFlight), steps[..|steps| - 1]), steps[|steps| - 1]);
    }
  }

  lemma SmallSet(a: set<Value>, v: Value, u: Value)
    requires |a| <= 1 && v in a && u in a
    ensures v == u
  {
    if v != u {
      SubsetSize({v, u}, a);
    }
  }

  /** Single flight: while nothing goes wrong, however many calls interleave and however, load()
      has run at most once and any two finished calls returned its one value. */
  lemma SingleFlight(steps: seq<Step>, a: CallId, b: CallId)
    requires var s := Run(Initial(true), steps);
             s.faults == 0 && a in s.calls && b in s.calls && s.calls[a].Done? && s.calls[b].Done?
    ensures var s := Run(Initial(true), steps);
            && s.loads <= 1
            && s.calls[a].result == s.calls[b].result
            && s.calls[a].result.Returned? && s.calls[a].result.value.Some?
            && s.values == {s.calls[a].result.value.value}
  {
    var s := Run(Initial(true), steps);
    LoadsAreBounded(steps);
    ValuesComeFromLoads(true, steps);
    assert CallSound(s, s.calls[a]) && CallSound(s, s.calls[b]);
    var v := s.calls[a].result.value.value;
    SmallSet(s.values, v, s.calls[b].result.value.value);
    forall u | u in s.values ensures u == v {
      SmallSet(s.values, v, u);
    }
  }

  /** Whatever goes wrong, with or without single flight, a call only ever returns what some
      load() of this key found. */
  lemma ReturnsAreLoaded(singleFlight: bool, steps: seq<Step>, id: CallId)
    requires var s := Run(Initial(singleFlight), steps);
             id in s.calls && s.calls[id].Done? && s.calls[id].result.Returned? && s.calls[id].result.value.Some?
    ensures var s := Run(Initial(singleFlight), steps); s.calls[id].result.value.value in s.values
  {
    ValuesComeFromLoads(singleFlight, steps);
    var s := Run(Initial(singleFlight), steps);
    assert CallSound(s, s.calls[id]);
  }

  /** A lock only goes by expiring or by the unlock of the very call whose token it holds, and a
      lock that is held is never overwritten. */
  lemma OnlyTheOwnerUnlocks(s: Sys, step: Step, owner: CallId)
    requires s.lock == Some(owner) && Apply(s, step).lock != Some(owner)
    ensures Apply(s, step).lock.None?
    ensures step.LockExpires? || (step.Unlock? && step.id == owner)
  {
  }
}
