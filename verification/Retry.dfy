/** withRetry (src/concurrency/lib.ts) around a read-modify-write of one row under REPEATABLE
    READ: each attempt reads its snapshot, takes the row lock to write, and commits or rolls back. */
module Retry {
  import opened Wrappers

  type CallId = nat

  /** SQLSTATE 40001 and 40P01, or anything else. */
  datatype Failure = Serialization | Deadlock | Other

  predicate Retryable(e: Failure) {
    e != Other
  }

  // ---- the loop ----

  function Budget(maxAttempts: int): nat {
    if maxAttempts > 1 then maxAttempts else 1
  }

  /** `attemptGives(k)` is what attempt `k` ends with: a committed result or an error. */
  method WithRetry<T>(attemptGives: nat -> Result<T, Failure>, maxAttempts: int)
    returns (r: Result<T, Failure>, attempts: nat)
    ensures r == attemptGives(attempts) && (attempts == 1 || 1 < attempts <= maxAttempts)
    ensures forall k :: 1 <= k < attempts ==>
              attemptGives(k).Err? && (attemptGives(k).error == Serialization || attemptGives(k).error == Deadlock)
    ensures r.Err? && (r.error == Serialization || r.error == Deadlock) ==> attempts >= maxAttempts
    ensures attempts <= Budget(maxAttempts)
  {
    attempts := 1;
    while true
      invariant 1 <= attempts <= Budget(maxAttempts)
      invariant forall k :: 1 <= k < attempts ==> attemptGives(k).Err? && Retryable(attemptGives(k).error)
      decreases Budget(maxAttempts) - attempts
    {
      r := attemptGives(attempts);
      if r.Err? && Retryable(r.error) && attempts < maxAttempts {
        attempts := attempts + 1;
      } else {
        return;
      }
    }
  }

  // ---- many calls on one row ----

  datatype Pc =
    | Ready
    | HasRead(seen: int, version: nat)
    | HasWritten(next: int)
    | Returned
    | Threw(committed: bool)  // committed: the answer to COMMIT was lost

  /** `bodies` is history: how often fn was entered. */
  datatype Call = Call(delta: int, maxAttempts: int, attempt: nat, pc: Pc, bodies: nat)

  /** `log` is history: the calls whose transaction committed, in order. */
  datatype Row = Row(value: int, version: nat, writer: Option<CallId>, calls: map<CallId, Call>, log: seq<CallId>)

  datatype Step =
    | Start(id: CallId, delta: int, maxAttempts: int)
    | Select(id: CallId)
    | Update(id: CallId)
    | Commit(id: CallId, acknowledged: bool)
    | Fail(id: CallId, error: Failure)

  predicate Active(pc: Pc) {
    !pc.Returned? && !pc.Threw?
  }

  function At(r: Row, id: CallId, pc: Pc): Row
    requires id in r.calls
  {
    r.(calls := r.calls[id := r.calls[id].(pc := pc)])
  }

  /** The catch block: roll back, then go round again or rethrow. */
  function Caught(r: Row, id: CallId, error: Failure): Row
    requires id in r.calls
  {
    var c := r.calls[id];
    var freed := if r.writer == Some(id) then r.(writer := None) else r;
    if Retryable(error) && c.attempt < c.maxAttempts then
      freed.(calls := freed.calls[id := c.(attempt := c.attempt + 1, pc := Ready)])
    else At(freed, id, Threw(false))
  }

  function Move(r: Row, step: Step, id: CallId): Row
    requires id in r.calls
  {
    var c := r.calls[id];
    match step
    case Select(_) =>
      if !c.pc.Ready? then r
      else r.(calls := r.calls[id := c.(pc := HasRead(r.value, r.version), bodies := c.bodies + 1)])
    case Update(_) =>
      // the first updater wins; a later one waits for it, then fails if it committed
      if !c.pc.HasRead? || r.writer.Some? then r
      else if r.version != c.pc.version then Caught(r, id, Serialization)
      else At(r.(writer := Some(id)), id, HasWritten(c.pc.seen + c.delta))
    case Commit(_, acknowledged) =>
      if !c.pc.HasWritten? then r
      else
        var done := if acknowledged then Returned else Threw(true);
        At(Row(c.pc.next, r.version + 1, None, r.calls, r.log + [id]), id, done)
    case Fail(_, error) =>
      if !Active(c.pc) then r else Caught(r, id, error)
    case _ => r
  }

  function Apply(r: Row, step: Step): Row {
    if step.Start? then
      if step.id in r.calls then r
      else r.(calls := r.calls[step.id := Call(step.delta, step.maxAttempts, 1, Ready, 0)])
    else if step.id in r.calls then Move(r, step, step.id)
    else r
  }

  function Run(r: Row, steps: seq<Step>): Row {
    if steps == [] then r else Apply(Run(r, steps[..|steps| - 1]), steps[|steps| - 1])
  }

  function Initial(start: int): Row {
    Row(start, 0, None, map[], [])
  }

  function Sum(calls: map<CallId, Call>, ids: seq<CallId>): int {
    if ids == [] then 0
    else
      var last := ids[|ids| - 1];
      Sum(calls, ids[..|ids| - 1]) + if last in calls then calls[last].delta else 0
  }

  // ---- the invariant ----

  predicate CallSound(r: Row, id: CallId)
    requires id in r.calls
  {
    var c := r.calls[id];
    && (c.pc.HasRead? ==> c.pc.version <= r.version && (c.pc.version == r.version ==> c.pc.seen == r.value))
    && (c.pc.HasWritten? ==> r.writer == Some(id) && c.pc.next == r.value + c.delta)
    && (id in r.log <==> c.pc == Returned || c.pc == Threw(true))
    && 1 <= c.attempt <= Budget(c.maxAttempts)
    && c.bodies + (if c.pc.Ready? then 1 else 0) <= c.attempt
  }

  predicate OnceEach(ids: seq<CallId>) {
    forall i, j :: 0 <= i < j < |ids| ==> ids[i] != ids[j]
  }

  ghost predicate Sound(start: int, r: Row) {
    && r.value == start + Sum(r.calls, r.log) && r.version == |r.log|
    && OnceEach(r.log) && (forall i :: 0 <= i < |r.log| ==> r.log[i] in r.calls)
    && (forall id :: id in r.calls ==> CallSound(r, id))
    && (r.writer.Some? ==> r.writer.value in r.calls && r.calls[r.writer.value].pc.HasWritten?)
  }

  lemma {:induction false} SumSame(a: map<CallId, Call>, b: map<CallId, Call>, ids: seq<CallId>)
    requires forall i :: 0 <= i < |ids| ==> ids[i] in a && ids[i] in b && a[ids[i]].delta == b[ids[i]].delta
    ensures Sum(a, ids) == Sum(b, ids)
  {
    if ids != [] {
      SumSame(a, b, ids[..|ids| - 1]);
    }
  }

  lemma CommitKeeps(start: int, r: Row, id: CallId, acknowledged: bool)
    requires Sound(start, r) && id in r.calls
    ensures Sound(start, Move(r, Commit(id, acknowledged), id))
  {
    var c, r' := r.calls[id], Move(r, Commit(id, acknowledged), id);
    assert CallSound(r, id);
    if c.pc.HasWritten? {
      assert r'.log[..|r.log|] == r.log;
      SumSame(r.calls, r'.calls, r.log);
      forall i, j | 0 <= i < j < |r'.log| ensures r'.log[i] != r'.log[j] {
        assert j == |r.log| ==> r'.log[i] in r.log;
      }
      forall k | k in r'.calls ensures CallSound(r', k) {
        assert CallSound(r, k);
      }
    }
  }

  /** A step that commits nothing. */
  lemma UncommittedKeeps(start: int, r: Row, r': Row)
    requires Sound(start, r)
    requires r'.value == r.value && r'.version == r.version && r'.log == r.log
    requires forall k :: k in r.calls ==> k in r'.calls && r'.calls[k].delta == r.calls[k].delta
    requires forall k :: k in r'.calls ==> CallSound(r', k)
    requires r'.writer.Some? ==> r'.writer.value in r'.calls && r'.calls[r'.writer.value].pc.HasWritten?
    ensures Sound(start, r')
  {
    hide CallSound;
    SumSame(r.calls, r'.calls, r.log);
  }

  function Changed(r: Row, id: CallId, c: Call, writer: Option<CallId>): Row {
    r.(calls := r.calls[id := c], writer := writer)
  }

  /** One call goes on to `c`, taking or giving up no lock but its own. */
  lemma OneCallKeeps(start: int, r: Row, id: CallId, c: Call, writer: Option<CallId>)
    requires Sound(start, r) && id in r.calls && c.delta == r.calls[id].delta
    requires writer == r.writer || r.writer.None? || r.writer == Some(id)
    requires writer.Some? ==> if writer == Some(id) then c.pc.HasWritten? else writer == r.writer
    requires CallSound(Changed(r, id, c, writer), id)
    ensures Sound(start, Changed(r, id, c, writer))
  {
    var r' := Changed(r, id, c, writer);
    forall k | k in r'.calls ensures CallSound(r', k) {
      if k != id {
        assert CallSound(r, k);
      }
    }
    hide CallSound, Sum, OnceEach;
    UncommittedKeeps(start, r, r');
  }

  lemma CaughtKeeps(start: int, r: Row, id: CallId, error: Failure)
    requires Sound(start, r) && id in r.calls && Active(r.calls[id].pc)
    ensures Sound(start, Caught(r, id, error))
  {
    assert CallSound(r, id);
    var r' := Caught(r, id, error);
    assert r' == Changed(r, id, r'.calls[id], r'.writer);
    hide Sum, OnceEach;
    OneCallKeeps(start, r, id, r'.calls[id], r'.writer);
  }

  lemma MoveKeeps(start: int, r: Row, step: Step)
    requires Sound(start, r) && step.id in r.calls && !step.Commit?
    ensures Sound(start, Move(r, step, step.id))
  {
    hide Caught, Sum, OnceEach;
    var id := step.id;
    var r' := Move(r, step, id);
    assert CallSound(r, id);
    var pc := r.calls[id].pc;
    if r' != r {
      if step.Select? || (step.Update? && pc.HasRead? && r.version == pc.version) {
        assert r' == Changed(r, id, r'.calls[id], r'.writer);
        OneCallKeeps(start, r, id, r'.calls[id], r'.writer);
      } else {
        CaughtKeeps(start, r, id, if step.Fail? then step.error else Serialization);
      }
    }
  }

  lemma StartKeeps(start: int, r: Row, step: Step)
    requires Sound(start, r) && step.id !in r.calls
    ensures Sound(start, Apply(r, step))
  {
    var r' := Apply(r, step);
    forall k | k in r'.calls ensures CallSound(r', k) {
      if k in r.calls {
        assert CallSound(r, k);
      } else {
        assert k !in r.log;
      }
    }
    UncommittedKeeps(start, r, r');
  }

  lemma ApplyKeeps(start: int, r: Row, step: Step)
    requires Sound(start, r)
    ensures Sound(start, Apply(r, step))
  {
    hide Sound, Move;
    if step.id !in r.calls {
      StartKeeps(start, r, step);
    } else if step.Commit? {
      CommitKeeps(start, r, step.id, step.acknowledged);
    } else {
      MoveKeeps(start, r, step);
    }
  }

  lemma {:induction false} RunKeeps(start: int, steps: seq<Step>)
    ensures Sound(start, Run(Initial(start), steps))
  {
    hide Apply;
    if steps != [] {
      RunKeeps(start, steps[..|steps| - 1]);
      ApplyKeeps(start, Run(Initial(start), steps[..|steps| - 1]), steps[|steps| - 1]);
    }
  }

  /** An attempt that fails rolls back, and is tried again exactly for the two codes that mean the
      transaction was sound, while attempts are left. */
  lemma FailMeans(r: Row, id: CallId, error: Failure)
    requires id in r.calls && Active(r.calls[id].pc)
    ensures var c, r' := r.calls[id], Apply(r, Fail(id, error));
            && r'.value == r.value && r'.version == r.version && r'.log == r.log
            && r'.writer == (if r.writer == Some(id) then None else r.writer)
            && r'.calls == r.calls[id := r'.calls[id]]
            && r'.calls[id] == if (error == Serialization || error == Deadlock) && c.attempt < c.maxAttempts
                               then Call(c.delta, c.maxAttempts, c.attempt + 1, Ready, c.bodies)
                               else c.(pc := Threw(false))
  {
  }

  // ---- the theorems ----

  /** No update is lost and none is applied twice: the value is the start plus, once each, the
      deltas of the calls that returned and of those that only lost the answer to their COMMIT. */
  lemma NoLostUpdate(start: int, steps: seq<Step>)
    ensures var r := Run(Initial(start), steps);
            && r.value == start + Sum(r.calls, r.log) && OnceEach(r.log)
            && (forall id :: id in r.calls ==> (id in r.log <==> r.calls[id].pc == Returned || r.calls[id].pc == Threw(true)))
  {
    RunKeeps(start, steps);
    var r := Run(Initial(start), steps);
    forall id | id in r.calls ensures id in r.log <==> r.calls[id].pc == Returned || r.calls[id].pc == Threw(true) {
      assert CallSound(r, id);
    }
  }

  /** Step `i` of the run committed for call `id`, and its answer was lost. */
  predicate AnswerLost(start: int, steps: seq<Step>, i: nat, id: CallId) {
    && i < |steps| && steps[i] == Commit(id, false)
    && var r := Run(Initial(start), steps[..i]);
       id in r.calls && r.calls[id].pc.HasWritten?
  }

  lemma ThrowsLost(r: Row, step: Step, id: CallId)
    ensures var r' := Apply(r, step);
            (id in r'.calls && r'.calls[id].pc == Threw(true)) <==>
              (id in r.calls && (r.calls[id].pc == Threw(true) || (step == Commit(id, false) && r.calls[id].pc.HasWritten?)))
  {
  }

  lemma {:induction false} ThrewCommittedIff(start: int, steps: seq<Step>, id: CallId)
    ensures var r := Run(Initial(start), steps);
            (id in r.calls && r.calls[id].pc == Threw(true)) <==> exists i :: AnswerLost(start, steps, i, id)
  {
    hide Apply;
    if steps != [] {
      var before, last := steps[..|steps| - 1], |steps| - 1;
      ThrewCommittedIff(start, before, id);
      ThrowsLost(Run(Initial(start), before), steps[last], id);
      if i: nat :| AnswerLost(start, before, i, id) {
        assert before[..i] == steps[..i] && AnswerLost(start, steps, i, id);
      }
      if i: nat :| AnswerLost(start, steps, i, id) {
        assert i < last ==> before[..i] == steps[..i] && AnswerLost(start, before, i, id);
      }
      if steps[last] == Commit(id, false) {
        assert AnswerLost(start, steps, last, id) <==>
               id in Run(Initial(start), before).calls && Run(Initial(start), before).calls[id].pc.HasWritten?;
      }
    }
  }

  /** A call that threw has contributed exactly when the answer to its COMMIT was lost; otherwise
      it left nothing. */
  lemma ThrownContributesIff(start: int, steps: seq<Step>, id: CallId)
    requires var r := Run(Initial(start), steps); id in r.calls && r.calls[id].pc.Threw?
    ensures id in Run(Initial(start), steps).log <==> exists i :: AnswerLost(start, steps, i, id)
  {
    RunKeeps(start, steps);
    assert CallSound(Run(Initial(start), steps), id);
    ThrewCommittedIff(start, steps, id);
  }

  /** It does happen: a call that throws although its delta is in the row. */
  lemma LostAnswer(start: int, delta: int) returns (steps: seq<Step>)
    ensures var r := Run(Initial(start), steps);
            r.value == start + delta && 0 in r.calls && r.calls[0].pc == Threw(true)
  {
    var r1 := Apply(Initial(start), Start(0, delta, 8));
    var r2 := Apply(r1, Select(0));
    var r3 := Apply(r2, Update(0));
    steps := [Start(0, delta, 8), Select(0), Update(0), Commit(0, false)];
    assert steps[..4] == steps && steps[..3][..2] == steps[..2] && steps[..2][..1] == steps[..1];
    assert Run(Initial(start), steps[..1]) == r1;
    assert Run(Initial(start), steps[..2]) == r2;
    assert Run(Initial(start), steps[..3]) == r3;
    assert Run(Initial(start), steps) == Apply(r3, Commit(0, false));
  }

  /** No body runs more often than the budget allows. */
  lemma BodiesBounded(start: int, steps: seq<Step>, id: CallId)
    requires id in Run(Initial(start), steps).calls
    ensures var c := Run(Initial(start), steps).calls[id]; c.bodies <= c.attempt <= Budget(c.maxAttempts)
  {
    RunKeeps(start, steps);
    assert CallSound(Run(Initial(start), steps), id);
  }

  lemma BodyRuns(maxAttempts: int, steps: seq<Step>)
    requires steps == [Start(0, 0, maxAttempts), Select(0)]
    ensures Run(Initial(0), steps).calls == map[0 := Call(0, maxAttempts, 1, HasRead(0, 0), 1)]
  {
    var first := steps[..1];
    assert first[..0] == [] && first[0] == steps[0];
    assert Run(Initial(0), first[..0]) == Initial(0);
    assert Run(Initial(0), first) == Apply(Initial(0), first[0]);
  }

  ghost predicate NeverExceeds(maxAttempts: int) {
    forall start, steps, id :: var r := Run(Initial(start), steps);
      id in r.calls && r.calls[id].maxAttempts == maxAttempts ==> r.calls[id].bodies <= maxAttempts
  }

  /** "At most maxAttempts" holds exactly when it is at least one: the body always runs once. */
  lemma AtMostIff(maxAttempts: int)
    ensures NeverExceeds(maxAttempts) <==> maxAttempts >= 1
  {
    if maxAttempts >= 1 {
      hide Run;
      forall start, steps, id |
        id in Run(Initial(start), steps).calls && Run(Initial(start), steps).calls[id].maxAttempts == maxAttempts
        ensures Run(Initial(start), steps).calls[id].bodies <= maxAttempts
      {
        BodiesBounded(start, steps, id);
      }
    } else {
      var steps := [Start(0, 0, maxAttempts), Select(0)];
      BodyRuns(maxAttempts, steps);
      var r := Run(Initial(0), steps);
      assert 0 in r.calls && r.calls[0].bodies > maxAttempts;
    }
  }

  // ---- enough attempts for everyone ----

  /** Nothing but write conflicts goes wrong, and every call may try `n` times. */
  predicate OnlyConflicts(steps: seq<Step>, n: nat) {
    forall i :: 0 <= i < |steps| ==> OnlyConflict(steps[i], n)
  }

  predicate OnlyConflict(step: Step, n: nat) {
    !step.Fail? && (step.Commit? ==> step.acknowledged) && (step.Start? ==> step.maxAttempts >= n)
  }

  /** Each further attempt of a call is paid for by another call's commit. */
  ghost predicate Paid(r: Row, n: nat) {
    forall id :: id in r.calls ==>
      var c := r.calls[id];
      && c.maxAttempts >= n && !c.pc.Threw?
      && (c.pc.Ready? ==> c.attempt <= r.version + 1)
      && (c.pc.HasRead? ==> c.attempt <= c.pc.version + 1)
  }

  lemma {:induction false} AtMostMembers(ids: seq<CallId>, within: set<CallId>)
    requires OnceEach(ids) && forall i :: 0 <= i < |ids| ==> ids[i] in within
    ensures |ids| <= |within|
  {
    if ids != [] {
      var last := ids[|ids| - 1];
      AtMostMembers(ids[..|ids| - 1], within - {last});
    }
  }

  /** A call that has not committed leaves room: fewer commits than calls. */
  lemma CommitsLeaveRoom(start: int, r: Row, id: CallId)
    requires Sound(start, r) && id in r.calls && Active(r.calls[id].pc)
    ensures r.version < |r.calls|
  {
    assert CallSound(r, id);
    AtMostMembers(r.log, r.calls.Keys - {id});
    assert |r.calls.Keys - {id}| == |r.calls| - 1;
  }

  lemma PaidStep(start: int, r: Row, step: Step, n: nat)
    requires Sound(start, r) && Paid(r, n) && OnlyConflict(step, n) && |r.calls| <= n
    ensures Paid(Apply(r, step), n)
  {
    hide Sum, OnceEach;
    if step.id in r.calls && r.calls[step.id].pc.HasRead? {
      assert CallSound(r, step.id);
      CommitsLeaveRoom(start, r, step.id);
    }
  }

  lemma {:induction false} CallsGrow(r: Row, step: Step)
    ensures |r.calls| <= |Apply(r, step).calls|
  {
    var r' := Apply(r, step);
    assert r.calls.Keys <= r'.calls.Keys;
    SubsetSize(r.calls.Keys, r'.calls.Keys);
  }

  /** With `n` calls on a row and at least `n` attempts for each, write conflicts alone never make
      a call throw. */
  lemma {:induction false} EnoughAttempts(start: int, steps: seq<Step>, n: nat)
    requires OnlyConflicts(steps, n) && |Run(Initial(start), steps).calls| <= n
    ensures var r := Run(Initial(start), steps);
            Paid(r, n) && forall id :: id in r.calls ==> !r.calls[id].pc.Threw?
  {
    hide Apply, OnlyConflict, Sound;
    if steps != [] {
      var before, last := steps[..|steps| - 1], steps[|steps| - 1];
      CallsGrow(Run(Initial(start), before), last);
      EnoughAttempts(start, before, n);
      RunKeeps(start, before);
      PaidStep(start, Run(Initial(start), before), last, n);
    }
  }
}
