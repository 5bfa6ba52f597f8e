/** The sliding-window rate limiter (src/redis/rate-limit.ts): one Lua script over a sorted
    set, and the client side that reads its answer. Times are milliseconds of the Redis
    clock, which does not run backwards. */
module RateLimit {
  import opened Wrappers

  type Time = nat

  /** What Redis keeps under one client's key: the scores of the set in ascending order, each
      admission having a member of its own, and when the key expires. */
  datatype Window = Window(scores: seq<Time>, expireAt: Time)

  const NO_KEY := Window([], 0)

  /** `Failed`: indexing the empty range raised a script error. */
  datatype Reply = Admitted(remaining: int) | Denied(retryMs: int) | Failed

  datatype Answer = Answer(allowed: bool, remaining: int, retryAfterSec: int)

  predicate Ascending(times: seq<Time>) {
    forall i, j :: 0 <= i < j < |times| ==> times[i] <= times[j]
  }

  /** How many leading scores are at or below the bound. */
  function Stale(scores: seq<Time>, bound: int): (n: nat)
    ensures n <= |scores|
    ensures forall i :: 0 <= i < n ==> scores[i] <= bound
    ensures n < |scores| ==> scores[n] > bound
  {
    if scores != [] && scores[0] <= bound then 1 + Stale(scores[1..], bound) else 0
  }

  /** ZREMRANGEBYSCORE key 0 bound: of an ascending set, a prefix goes. */
  function Drop(scores: seq<Time>, bound: int): seq<Time> {
    scores[Stale(scores, bound)..]
  }

  function RunScript(w: Window, now: Time, win: nat, limit: int): (Window, Reply) {
    var kept := Drop(w.scores, now - win);
    if |kept| < limit then
      (Window(kept + [now], now + win), Admitted(limit - |kept| - 1))
    else if kept == [] then
      (w.(scores := kept), Failed)
    else
      (w.(scores := kept), Denied(kept[0] + win - now))
  }

  /** Redis may delete the key at any moment from its expiry on. */
  function Expire(w: Window, now: Time): Window {
    if now >= w.expireAt then NO_KEY else w
  }

  /** Seconds in Retry-After: rounded up, at least one. */
  function RetrySeconds(retryMs: int): int {
    var ceil := -((-retryMs) / 1000);
    if ceil < 1 then 1 else ceil
  }

  // ---- the specification: a full log of admitted requests ----

  /** Earlier admissions in (now - win, now]. */
  function CountRecent(log: seq<Time>, now: Time, win: nat): nat {
    if log == [] then 0
    else CountRecent(log[..|log| - 1], now, win) + (if now - win < log[|log| - 1] <= now then 1 else 0)
  }

  predicate SpecAdmits(log: seq<Time>, now: Time, win: nat, limit: int) {
    CountRecent(log, now, win) < limit
  }

  /** The log is `gone + w.scores`: what the set still holds is the end of the log, and nothing
      that was pruned or has expired can matter at `now` or later. */
  ghost predicate Represents(w: Window, gone: seq<Time>, now: Time, win: nat) {
    && Ascending(w.scores)
    && (forall i :: 0 <= i < |gone| ==> gone[i] <= now - win)
    && (forall i :: 0 <= i < |w.scores| ==> w.scores[i] <= now && w.scores[i] + win <= w.expireAt)
  }

  lemma {:induction false} CountJoins(a: seq<Time>, b: seq<Time>, now: Time, win: nat)
    ensures CountRecent(a + b, now, win) == CountRecent(a, now, win) + CountRecent(b, now, win)
  {
    if b == [] {
      assert a + b == a;
    } else {
      assert (a + b)[..|a + b| - 1] == a + b[..|b| - 1];
      CountJoins(a, b[..|b| - 1], now, win);
    }
  }

  lemma {:induction false} CountNone(a: seq<Time>, now: Time, win: nat)
    requires forall i :: 0 <= i < |a| ==> a[i] <= now - win
    ensures CountRecent(a, now, win) == 0
  {
    if a != [] {
      CountNone(a[..|a| - 1], now, win);
    }
  }

  lemma {:induction false} CountAll(a: seq<Time>, now: Time, win: nat)
    requires forall i :: 0 <= i < |a| ==> now - win < a[i] <= now
    ensures CountRecent(a, now, win) == |a|
  {
    if a != [] {
      CountAll(a[..|a| - 1], now, win);
    }
  }

  /** Pruning splits the set: what goes is too old, what stays is inside the window. */
  lemma DropSplits(w: Window, now: Time, win: nat) returns (gone: seq<Time>)
    requires Ascending(w.scores)
    requires forall i :: 0 <= i < |w.scores| ==> w.scores[i] <= now && w.scores[i] + win <= w.expireAt
    ensures var kept := Drop(w.scores, now - win);
            && w.scores == gone + kept && Ascending(kept)
            && (forall i :: 0 <= i < |gone| ==> gone[i] <= now - win)
            && (forall i :: 0 <= i < |kept| ==> now - win < kept[i] <= now && kept[i] + win <= w.expireAt)
  {
    gone := w.scores[..Stale(w.scores, now - win)];
  }

  /** What is left of the set after pruning counts exactly the recent admissions. */
  lemma PruneCounts(w: Window, gone: seq<Time>, before: Time, now: Time, win: nat) returns (gone': seq<Time>)
    requires Represents(w, gone, before, win) && before <= now
    ensures var kept := Drop(w.scores, now - win);
            && gone + w.scores == gone' + kept
            && Represents(w.(scores := kept), gone', now, win)
            && CountRecent(gone + w.scores, now, win) == |kept|
  {
    var more := DropSplits(w, now, win);
    var kept := Drop(w.scores, now - win);
    gone' := gone + more;
    assert gone + w.scores == gone' + kept;
    CountJoins(gone', kept, now, win);
    CountNone(gone', now, win);
    CountAll(kept, now, win);
  }

  /** One check: the script admits exactly when the full log says so, and goes on representing it. */
  lemma ScriptRefines(w: Window, gone: seq<Time>, before: Time, now: Time, win: nat, limit: int) returns (gone': seq<Time>)
    requires Represents(w, gone, before, win) && before <= now
    ensures var (w', reply) := RunScript(w, now, win, limit);
            && (reply.Admitted? <==> SpecAdmits(gone + w.scores, now, win, limit))
            && (reply.Admitted? ==> reply.remaining == limit - 1 - CountRecent(gone + w.scores, now, win))
            && Represents(w', gone', now, win)
            && gone' + w'.scores == gone + w.scores + (if reply.Admitted? then [now] else [])
  {
    gone' := PruneCounts(w, gone, before, now, win);
    var kept := Drop(w.scores, now - win);
    assert gone' + (kept + [now]) == (gone' + kept) + [now];
  }

  /** Expiry of the whole key, from the expiry time on: nothing in it can matter any more. */
  lemma ExpiryRefines(w: Window, gone: seq<Time>, before: Time, now: Time, win: nat) returns (gone': seq<Time>)
    requires Represents(w, gone, before, win) && before <= now
    ensures Represents(Expire(w, now), gone', now, win)
    ensures gone' + Expire(w, now).scores == gone + w.scores
  {
    gone' := if now >= w.expireAt then gone + w.scores else gone;
  }

  // ---- runs: checks at non-decreasing times, expiry possible before any of them ----

  /** One check: when, and whether Redis had deleted an expired key by then. */
  datatype Check = Check(now: Time, expired: bool)

  datatype Run = Run(window: Window, replies: seq<Reply>)

  function RunChecks(checks: seq<Check>, win: nat, limit: int): Run {
    if checks == [] then Run(NO_KEY, [])
    else
      var earlier := RunChecks(checks[..|checks| - 1], win, limit);
      var check := checks[|checks| - 1];
      var (w, reply) := RunScript(if check.expired then Expire(earlier.window, check.now) else earlier.window,
                                  check.now, win, limit);
      Run(w, earlier.replies + [reply])
  }

  /** The times at which the full-log specification admits. */
  function AdmittedLog(checks: seq<Check>, win: nat, limit: int): seq<Time> {
    if checks == [] then []
    else
      var log := AdmittedLog(checks[..|checks| - 1], win, limit);
      var now := checks[|checks| - 1].now;
      if SpecAdmits(log, now, win, limit) then log + [now] else log
  }

  predicate InOrder(checks: seq<Check>) {
    forall i, j :: 0 <= i < j < |checks| ==> checks[i].now <= checks[j].now
  }

  function LastTime(checks: seq<Check>): Time {
    if checks == [] then 0 else checks[|checks| - 1].now
  }

  /** One more check of a run, with or without the key having been deleted first. */
  lemma CheckRefines(w: Window, gone: seq<Time>, before: Time, check: Check, win: nat, limit: int) returns (gone': seq<Time>)
    requires Represents(w, gone, before, win) && before <= check.now
    ensures var log := gone + w.scores;
            var (w', reply) := RunScript(if check.expired then Expire(w, check.now) else w, check.now, win, limit);
            && (reply.Admitted? <==> SpecAdmits(log, check.now, win, limit))
            && (reply.Admitted? ==> reply.remaining == limit - 1 - CountRecent(log, check.now, win))
            && Represents(w', gone', check.now, win)
            && gone' + w'.scores == if reply.Admitted? then log + [check.now] else log
  {
    hide RunScript, CountRecent, Represents;
    if check.expired {
      var kept := ExpiryRefines(w, gone, before, check.now, win);
      gone' := ScriptRefines(Expire(w, check.now), kept, check.now, check.now, win, limit);
    } else {
      gone' := ScriptRefines(w, gone, before, check.now, win, limit);
    }
  }

  lemma {:induction false} RunRepresents(checks: seq<Check>, win: nat, limit: int) returns (gone: seq<Time>)
    requires InOrder(checks)
    ensures Represents(RunChecks(checks, win, limit).window, gone, LastTime(checks), win)
    ensures gone + RunChecks(checks, win, limit).window.scores == AdmittedLog(checks, win, limit)
  {
    hide RunScript, CountRecent;
    if checks == [] {
      gone := [];
    } else {
      var earlier, check := checks[..|checks| - 1], checks[|checks| - 1];
      var before := RunRepresents(earlier, win, limit);
      gone := CheckRefines(RunChecks(earlier, win, limit).window, before, LastTime(earlier), check, win, limit);
    }
  }

  lemma {:induction false} ReplyStays(checks: seq<Check>, win: nat, limit: int, i: nat)
    requires i < |checks|
    ensures |RunChecks(checks, win, limit).replies| == |checks| && |RunChecks(checks[..i + 1], win, limit).replies| == i + 1
    ensures RunChecks(checks, win, limit).replies[i] == RunChecks(checks[..i + 1], win, limit).replies[i]
    decreases |checks|
  {
    hide RunScript, Expire, Drop;
    ReplyCount(checks, win, limit);
    ReplyCount(checks[..i + 1], win, limit);
    if i == |checks| - 1 {
      assert checks[..i + 1] == checks;
    } else {
      var earlier := checks[..|checks| - 1];
      ReplyCount(earlier, win, limit);
      ReplyStays(earlier, win, limit, i);
      assert earlier[..i + 1] == checks[..i + 1];
    }
  }

  /** Every check of every run gets the answer of the full log, whenever expired keys are deleted. */
  lemma LimiterRefinesLog(checks: seq<Check>, win: nat, limit: int, i: nat)
    requires InOrder(checks) && i < |checks|
    ensures |RunChecks(checks, win, limit).replies| == |checks|
    ensures RunChecks(checks, win, limit).replies[i].Admitted?
       <==> CountRecent(AdmittedLog(checks[..i], win, limit), checks[i].now, win) < limit
    ensures var reply, log := RunChecks(checks, win, limit).replies[i], AdmittedLog(checks[..i], win, limit);
            reply.Admitted? ==> reply.remaining == limit - 1 - CountRecent(log, checks[i].now, win)
  {
    hide RunScript, CountRecent;
    var earlier := checks[..i];
    assert checks[..i + 1][..i] == earlier;
    var before := RunRepresents(earlier, win, limit);
    var gone := CheckRefines(RunChecks(earlier, win, limit).window, before, LastTime(earlier), checks[i], win, limit);
    ReplyCount(earlier, win, limit);
    ReplyStays(checks, win, limit, i);
  }

  lemma {:induction false} ReplyCount(checks: seq<Check>, win: nat, limit: int)
    ensures |RunChecks(checks, win, limit).replies| == |checks|
  {
    if checks != [] {
      ReplyCount(checks[..|checks| - 1], win, limit);
    }
  }

  lemma {:induction false} AdmittedInOrder(checks: seq<Check>, win: nat, limit: int)
    requires InOrder(checks)
    ensures Ascending(AdmittedLog(checks, win, limit))
    ensures forall i :: 0 <= i < |AdmittedLog(checks, win, limit)| ==> AdmittedLog(checks, win, limit)[i] <= LastTime(checks)
  {
    if checks != [] {
      AdmittedInOrder(checks[..|checks| - 1], win, limit);
    }
  }

  /** No window of length `win` holds more than `limit` admissions: `limit` admissions further
      on, at least `win` has passed. */
  lemma {:induction false} NoWindowOverfull(checks: seq<Check>, win: nat, limit: nat, i: nat)
    requires InOrder(checks) && i + limit < |AdmittedLog(checks, win, limit)|
    ensures AdmittedLog(checks, win, limit)[i + limit] - AdmittedLog(checks, win, limit)[i] >= win
  {
    var log := AdmittedLog(checks, win, limit);
    var earlier := AdmittedLog(checks[..|checks| - 1], win, limit);
    if i + limit < |earlier| {
      NoWindowOverfull(checks[..|checks| - 1], win, limit, i);
    } else {
      var now := log[i + limit];
      AdmittedInOrder(checks, win, limit);
      AdmittedInOrder(checks[..|checks| - 1], win, limit);
      assert earlier == earlier[..i] + earlier[i..];
      CountJoins(earlier[..i], earlier[i..], now, win);
      if log[i] > now - win {
        CountAll(earlier[i..], now, win);
      }
    }
  }

  // ---- retry-after ----

  /** A set that a run can reach: no more members than the limit, none from the future. */
  predicate Reachable(w: Window, now: Time, win: nat, limit: nat) {
    && Ascending(w.scores) && |w.scores| <= limit
    && (forall i :: 0 <= i < |w.scores| ==> w.scores[i] <= now && w.scores[i] + win <= w.expireAt)
  }

  /** With a positive limit the script never fails, and the set stays within the limit. */
  lemma ScriptKeepsReachable(w: Window, before: Time, now: Time, win: nat, limit: nat)
    requires Reachable(w, before, win, limit) && before <= now && limit >= 1
    ensures Reachable(RunScript(w, now, win, limit).0, now, win, limit)
    ensures !RunScript(w, now, win, limit).1.Failed?
  {
    var gone := DropSplits(w, now, win);
    var kept := Drop(w.scores, now - win);
    SnocReachable(kept, w.expireAt, now, win, limit);
  }

  lemma SnocReachable(kept: seq<Time>, expireAt: Time, now: Time, win: nat, limit: nat)
    requires Reachable(Window(kept, expireAt), now, win, limit)
    ensures |kept| < limit ==> Reachable(Window(kept + [now], now + win), now, win, limit)
  {
  }

  lemma {:induction false} RunReachable(checks: seq<Check>, win: nat, limit: nat)
    requires InOrder(checks) && limit >= 1
    ensures Reachable(RunChecks(checks, win, limit).window, LastTime(checks), win, limit)
    ensures forall i :: 0 <= i < |RunChecks(checks, win, limit).replies| ==> !RunChecks(checks, win, limit).replies[i].Failed?
  {
    if checks != [] {
      var earlier, check := checks[..|checks| - 1], checks[|checks| - 1];
      RunReachable(earlier, win, limit);
      var w := RunChecks(earlier, win, limit).window;
      ScriptKeepsReachable(if check.expired then Expire(w, check.now) else w, LastTime(earlier), check.now, win, limit);
    }
  }

  lemma StillFull(w: Window, next: Time, win: nat, limit: nat)
    requires |w.scores| == limit >= 1 && next < w.scores[0] + win <= w.expireAt
    ensures Expire(w, next) == w
    ensures RunScript(w, next, win, limit) == (w, Denied(w.scores[0] + win - next))
  {
    assert Stale(w.scores, next - win) == 0;
    assert Drop(w.scores, next - win) == w.scores;
  }

  lemma RoomAgain(w: Window, next: Time, win: nat, limit: nat)
    requires |w.scores| == limit >= 1 && next >= w.scores[0] + win
    ensures RunScript(w, next, win, limit).1.Admitted?
    ensures RunScript(Expire(w, next), next, win, limit).1.Admitted?
  {
    assert Stale(w.scores, next - win) >= 1;
  }

  /** The last check of the run was denied, with delay `d`. */
  predicate EndsDenied(checks: seq<Check>, win: nat, limit: nat, d: int) {
    checks != [] && var replies := RunChecks(checks, win, limit).replies; replies != [] && replies[|replies| - 1] == Denied(d)
  }

  lemma DenialMeansFull(w: Window, before: Time, now: Time, win: nat, limit: nat)
    requires Reachable(w, before, win, limit) && before <= now && limit >= 1
    requires RunScript(w, now, win, limit).1.Denied?
    ensures var (w', denied) := RunScript(w, now, win, limit);
            && |w'.scores| == limit && w'.scores[0] + win <= w'.expireAt
            && w'.scores[0] + win == now + denied.retryMs && 0 < denied.retryMs <= win
  {
    var gone := DropSplits(w, now, win);
    var kept := Drop(w.scores, now - win);
    assert now - win < kept[0] <= now && kept[0] + win <= w.expireAt;
  }

  /** The window a check finds. */
  function Found(w: Window, check: Check): Window {
    if check.expired then Expire(w, check.now) else w
  }

  lemma OneMore(checks: seq<Check>, next: Check, win: nat, limit: int)
    ensures var run := RunChecks(checks, win, limit);
            var (w, reply) := RunScript(Found(run.window, next), next.now, win, limit);
            RunChecks(checks + [next], win, limit) == Run(w, run.replies + [reply])
  {
    hide RunScript, Expire;
    assert (checks + [next])[..|checks|] == checks;
  }

  /** After a denial the set is full, and its oldest member says when there will be room. */
  lemma FullAfterDenial(checks: seq<Check>, win: nat, limit: nat, d: int)
    requires InOrder(checks) && limit >= 1 && EndsDenied(checks, win, limit, d)
    ensures var w := RunChecks(checks, win, limit).window;
            |w.scores| == limit && w.scores[0] + win <= w.expireAt && w.scores[0] + win == LastTime(checks) + d
    ensures 0 < d <= win
  {
    hide RunScript, Reachable, RunChecks;
    var earlier, check := checks[..|checks| - 1], checks[|checks| - 1];
    assert earlier + [check] == checks;
    RunReachable(earlier, win, limit);
    OneMore(earlier, check, win, limit);
    var w := Found(RunChecks(earlier, win, limit).window, check);
    FoundReachable(RunChecks(earlier, win, limit).window, check, LastTime(earlier), win, limit);
    DenialMeansFull(w, LastTime(earlier), check.now, win, limit);
  }

  lemma FoundReachable(w: Window, check: Check, before: Time, win: nat, limit: nat)
    requires Reachable(w, before, win, limit)
    ensures Reachable(Found(w, check), before, win, limit)
  {
  }

  /** Any number of further checks before the delay has elapsed are denied, each told what is left
      of it, and leave the set as it was. */
  lemma {:induction false} DeniedUntil(checks: seq<Check>, more: seq<Check>, win: nat, limit: nat, d: int)
    requires InOrder(checks) && limit >= 1 && EndsDenied(checks, win, limit, d)
    requires forall i :: 0 <= i < |more| ==> more[i].now < LastTime(checks) + d
    ensures var run, all := RunChecks(checks, win, limit), RunChecks(checks + more, win, limit);
            && all.window == run.window && |all.replies| == |checks| + |more|
            && forall i :: 0 <= i < |more| ==> all.replies[|checks| + i] == Denied(LastTime(checks) + d - more[i].now)
    decreases |more|
  {
    hide RunScript, RunChecks, Expire;
    ReplyCount(checks, win, limit);
    if more == [] {
      assert checks + more == checks;
    } else {
      var before, last := more[..|more| - 1], more[|more| - 1];
      DeniedUntil(checks, before, win, limit, d);
      FullAfterDenial(checks, win, limit, d);
      StillFull(RunChecks(checks, win, limit).window, last.now, win, limit);
      OneMore(checks + before, last, win, limit);
      assert (checks + before) + [last] == checks + more;
    }
  }

  /** The delay of a denial is exact, in every run: every check before it has elapsed is denied,
      and the first one from then on is admitted. */
  lemma RetryIsExact(checks: seq<Check>, more: seq<Check>, next: Check, win: nat, limit: nat, d: int)
    requires InOrder(checks) && limit >= 1 && EndsDenied(checks, win, limit, d)
    requires forall i :: 0 <= i < |more| ==> more[i].now < LastTime(checks) + d
    requires next.now >= LastTime(checks) + d
    ensures 0 < d <= win
    ensures var replies := RunChecks(checks + more + [next], win, limit).replies;
            && |replies| == |checks| + |more| + 1
            && (forall i :: |checks| <= i < |checks| + |more| ==> replies[i].Denied?)
            && replies[|checks| + |more|].Admitted?
  {
    hide RunScript, RunChecks, Expire;
    FullAfterDenial(checks, win, limit, d);
    DeniedUntil(checks, more, win, limit, d);
    RoomAgain(RunChecks(checks, win, limit).window, next.now, win, limit);
    OneMore(checks + more, next, win, limit);
    var replies := RunChecks(checks + more, win, limit).replies;
    var all := RunChecks(checks + more + [next], win, limit).replies;
    forall i | |checks| <= i < |checks| + |more| ensures all[i].Denied? {
      var j := i - |checks|;
      assert all[i] == replies[|checks| + j] == Denied(LastTime(checks) + d - more[j].now);
    }
  }

  /** The seconds reported are at least one, never shorter than the delay, and less than a
      second longer. */
  lemma SecondsCoverDelay(retryMs: int)
    requires retryMs > 0
    ensures RetrySeconds(retryMs) >= 1
    ensures (RetrySeconds(retryMs) - 1) * 1000 < retryMs <= RetrySeconds(retryMs) * 1000
  {
  }

  // ---- the client side ----

  /** Whom check() lets through: the admitted, and on an error everyone if it fails open. */
  predicate Allows(reply: Reply, failOpen: bool) {
    reply.Admitted? || (reply.Failed? && failOpen)
  }

  /** What became of a request to Redis. `ReplyLost`: the script ran, but the caller saw an error. */
  datatype Fate = Answered | Unreachable | ReplyLost

  datatype Call = Call(check: Check, fate: Fate)

  /** What the caller of check() makes of it. */
  function Heard(reply: Reply, fate: Fate): Reply {
    if fate.Answered? then reply else Failed
  }

  /** The checks that Redis ran. */
  function Ran(calls: seq<Call>): seq<Check> {
    if calls == [] then []
    else
      var last := calls[|calls| - 1];
      Ran(calls[..|calls| - 1]) + if last.fate.Unreachable? then [] else [last.check]
  }

  function LastReply(checks: seq<Check>, win: nat, limit: int): Reply {
    var replies := RunChecks(checks, win, limit).replies;
    if replies == [] then Failed else replies[|replies| - 1]
  }

  /** The times at which a run of calls lets the caller through. */
  function AllowedTimes(calls: seq<Call>, win: nat, limit: int, failOpen: bool): seq<Time> {
    if calls == [] then []
    else
      var earlier := AllowedTimes(calls[..|calls| - 1], win, limit, failOpen);
      var last := calls[|calls| - 1];
      if LastGetsIn(calls, win, limit, failOpen) then earlier + [last.check.now] else earlier
  }

  predicate LastGetsIn(calls: seq<Call>, win: nat, limit: int, failOpen: bool)
    requires calls != []
  {
    Allows(Heard(LastReply(Ran(calls), win, limit), calls[|calls| - 1].fate), failOpen)
  }

  predicate CallsInOrder(calls: seq<Call>) {
    forall i, j :: 0 <= i < j < |calls| ==> calls[i].check.now <= calls[j].check.now
  }

  predicate AllAnswered(calls: seq<Call>) {
    forall i :: 0 <= i < |calls| ==> calls[i].fate.Answered?
  }

  /** No window of length `win` holds more than `limit` of the times. */
  predicate Capped(times: seq<Time>, win: nat, limit: int) {
    var cap := if limit < 0 then 0 else limit;
    forall i :: 0 <= i < |times| - cap ==> times[i + cap] - times[i] >= win
  }

  lemma {:induction false} RanInOrder(calls: seq<Call>)
    requires CallsInOrder(calls)
    ensures InOrder(Ran(calls))
    ensures forall i :: 0 <= i < |Ran(calls)| ==> calls != [] && Ran(calls)[i].now <= calls[|calls| - 1].check.now
  {
    if calls != [] {
      RanInOrder(calls[..|calls| - 1]);
    }
  }

  /** `times` stand in `log`, in that order, at the places `at`. */
  predicate StandsAt(times: seq<Time>, at: seq<nat>, log: seq<Time>) {
    && |at| == |times|
    && (forall i :: 0 <= i < |at| ==> at[i] < |log| && log[at[i]] == times[i])
    && (forall i, j :: 0 <= i < j < |at| ==> at[i] < at[j])
  }

  lemma {:induction false} PlacesSpread(at: seq<nat>, i: nat, n: nat)
    requires i + n < |at| && forall i, j :: 0 <= i < j < |at| ==> at[i] < at[j]
    ensures at[i + n] >= at[i] + n
  {
    if n > 0 {
      PlacesSpread(at, i, n - 1);
    }
  }

  lemma StandsNowhere(log: seq<Time>)
    ensures StandsAt([], [], log)
  {
  }

  lemma StandsOn(times: seq<Time>, at: seq<nat>, log: seq<Time>, now: Time)
    requires StandsAt(times, at, log)
    ensures StandsAt(times, at, log + [now]) && StandsAt(times + [now], at + [|log|], log + [now])
  {
  }

  /** What the last call adds to the full log: its time if it gets in, and at most that. */
  lemma LastCallLogged(calls: seq<Call>, win: nat, limit: nat, failOpen: bool)
    requires CallsInOrder(calls) && calls != [] && limit >= 1 && (failOpen ==> AllAnswered(calls))
    ensures var before, now := AdmittedLog(Ran(calls[..|calls| - 1]), win, limit), calls[|calls| - 1].check.now;
            var log := AdmittedLog(Ran(calls), win, limit);
            (log == before && !LastGetsIn(calls, win, limit, failOpen)) || log == before + [now]
  {
    hide RunChecks, AdmittedLog, InOrder, LastReply;
    var before, last, checks := calls[..|calls| - 1], calls[|calls| - 1], Ran(calls);
    RanInOrder(calls);
    if !last.fate.Unreachable? {
      assert checks[..|checks| - 1] == Ran(before);
      LastIsLogged(checks, win, limit);
    } else {
      assert checks == Ran(before);
    }
  }

  /** Unless errors let callers in, whoever is let through is in the full log of admissions. */
  lemma {:induction false} AllowedAreAdmitted(calls: seq<Call>, win: nat, limit: nat, failOpen: bool) returns (at: seq<nat>)
    requires CallsInOrder(calls) && limit >= 1 && (failOpen ==> AllAnswered(calls))
    ensures StandsAt(AllowedTimes(calls, win, limit, failOpen), at, AdmittedLog(Ran(calls), win, limit))
  {
    if calls == [] {
      at := [];
      StandsNowhere(AdmittedLog(Ran(calls), win, limit));
    } else {
      hide LastGetsIn, Ran, AdmittedLog, StandsAt;
      var before, last := calls[..|calls| - 1], calls[|calls| - 1];
      var log := AdmittedLog(Ran(before), win, limit);
      at := AllowedAreAdmitted(before, win, limit, failOpen);
      LastCallLogged(calls, win, limit, failOpen);
      StandsOn(AllowedTimes(before, win, limit, failOpen), at, log, last.check.now);
      if LastGetsIn(calls, win, limit, failOpen) {
        at := at + [|log|];
      }
    }
  }

  lemma LastIsLogged(checks: seq<Check>, win: nat, limit: nat)
    requires InOrder(checks) && checks != [] && limit >= 1
    ensures var earlier, now := AdmittedLog(checks[..|checks| - 1], win, limit), checks[|checks| - 1].now;
            AdmittedLog(checks, win, limit) == if LastReply(checks, win, limit).Admitted? then earlier + [now] else earlier
    ensures !LastReply(checks, win, limit).Failed?
  {
    LimiterRefinesLog(checks, win, limit, |checks| - 1);
    RunReachable(checks, win, limit);
  }

  lemma AdmittedAreCapped(calls: seq<Call>, win: nat, limit: nat, failOpen: bool)
    requires CallsInOrder(calls) && limit >= 1 && (failOpen ==> AllAnswered(calls))
    ensures Capped(AllowedTimes(calls, win, limit, failOpen), win, limit)
  {
    hide AllowedTimes, AdmittedLog, Ran;
    var times, log := AllowedTimes(calls, win, limit, failOpen), AdmittedLog(Ran(calls), win, limit);
    var at := AllowedAreAdmitted(calls, win, limit, failOpen);
    RanInOrder(calls);
    AdmittedInOrder(Ran(calls), win, limit);
    forall i | 0 <= i < |times| - limit ensures times[i + limit] - times[i] >= win {
      PlacesSpread(at, i, limit);
      NoWindowOverfull(Ran(calls), win, limit, at[i]);
    }
  }

  lemma {:induction false} NobodyAllowed(calls: seq<Call>, win: nat, limit: int)
    requires limit <= 0
    ensures AllowedTimes(calls, win, limit, false) == []
  {
    if calls != [] {
      NobodyAllowed(calls[..|calls| - 1], win, limit);
    }
  }

  /** Every caller gets in while Redis is unreachable and the limiter fails open. */
  lemma {:induction false} OutageAllows(calls: seq<Call>, win: nat, limit: int)
    requires forall i :: 0 <= i < |calls| ==> calls[i] == Call(Check(0, false), Unreachable)
    ensures AllowedTimes(calls, win, limit, true) == seq(|calls|, i => 0)
  {
    if calls != [] {
      OutageAllows(calls[..|calls| - 1], win, limit);
    }
  }

  /** When callers let through are limited in every run, whatever Redis does: exactly when the
      limiter fails closed. */
  lemma LimitsIff(win: nat, limit: int, failOpen: bool)
    requires win >= 1
    ensures (forall calls: seq<Call> | CallsInOrder(calls) :: Capped(AllowedTimes(calls, win, limit, failOpen), win, limit))
       <==> !failOpen
  {
    if failOpen {
      var cap := if limit < 0 then 0 else limit;
      var burst: seq<Call> := seq(cap + 1, i => Call(Check(0, false), Unreachable));
      OutageAllows(burst, win, limit);
      var times := AllowedTimes(burst, win, limit, failOpen);
      assert times[0 + cap] - times[0] < win;
      assert CallsInOrder(burst) && !Capped(times, win, limit);
    } else {
      forall calls: seq<Call> | CallsInOrder(calls) ensures Capped(AllowedTimes(calls, win, limit, failOpen), win, limit) {
        ClosedIsCapped(calls, win, limit);
      }
    }
  }

  lemma ClosedIsCapped(calls: seq<Call>, win: nat, limit: int)
    requires CallsInOrder(calls)
    ensures Capped(AllowedTimes(calls, win, limit, false), win, limit)
  {
    if limit >= 1 {
      AdmittedAreCapped(calls, win, limit, false);
    } else {
      NobodyAllowed(calls, win, limit);
    }
  }

  lemma ScriptFails(win: nat, limit: int) returns (calls: seq<Call>)
    requires win >= 1 && limit <= 0
    ensures CallsInOrder(calls) && AllAnswered(calls) && !Capped(AllowedTimes(calls, win, limit, true), win, limit)
  {
    calls := [Call(Check(0, false), Answered)];
    EmptyRangeFails(win, limit);
    assert calls[..0] == [];
    hide LastReply;
    assert Ran(calls) == [Check(0, false)];
    assert LastGetsIn(calls, win, limit, true);
    var times := AllowedTimes(calls, win, limit, true);
    assert times == AllowedTimes([], win, limit, true) + [0] == [0];
    assert times[0 + if limit < 0 then 0 else limit] - times[0] < win;
  }

  lemma EmptyRangeFails(win: nat, limit: int)
    requires limit <= 0
    ensures LastReply([Check(0, false)], win, limit) == Failed
  {
    OneMore([], Check(0, false), win, limit);
    assert [] + [Check(0, false)] == [Check(0, false)];
  }

  /** And in the runs in which Redis answers every call: exactly when, besides, the limit is
      positive or the limiter fails closed. With a limit of zero or less the script always fails. */
  lemma AnsweredLimitsIff(win: nat, limit: int, failOpen: bool)
    requires win >= 1
    ensures (forall calls: seq<Call> | CallsInOrder(calls) && AllAnswered(calls) ::
               Capped(AllowedTimes(calls, win, limit, failOpen), win, limit))
       <==> limit >= 1 || !failOpen
  {
    if limit <= 0 && failOpen {
      var one := ScriptFails(win, limit);
    } else {
      forall calls: seq<Call> | CallsInOrder(calls) && AllAnswered(calls)
        ensures Capped(AllowedTimes(calls, win, limit, failOpen), win, limit)
      {
        if failOpen {
          AdmittedAreCapped(calls, win, limit, failOpen);
        } else {
          ClosedIsCapped(calls, win, limit);
        }
      }
    }
  }

  class RateLimiter {
    const win: nat
    const limit: int
    const failOpen: bool
    var scores: seq<Time>
    var expireAt: Time

    constructor (win: nat, limit: int, failOpen: bool)
      ensures this.win == win && this.limit == limit && this.failOpen == failOpen && State() == NO_KEY
    {
      this.win, this.limit, this.failOpen := win, limit, failOpen;
      scores, expireAt := [], 0;
    }

    ghost function State(): Window
      reads this
    {
      Window(scores, expireAt)
    }

    /** The script: prune, count, then add and re-arm the expiry, or say how long to wait. */
    method Script(now: Time) returns (reply: Reply)
      modifies this
      ensures (State(), reply) == RunScript(old(State()), now, win, limit)
    {
      while scores != [] && scores[0] <= now - win
        invariant expireAt == old(expireAt) && Drop(scores, now - win) == Drop(old(scores), now - win)
        decreases |scores|
      {
        assert Stale(scores, now - win) == 1 + Stale(scores[1..], now - win);
        scores := scores[1..];
      }
      var n := |scores|;
      if n < limit {
        scores, expireAt := scores + [now], now + win;
        return Admitted(limit - n - 1);
      }
      if scores == [] {
        return Failed;
      }
      reply := Denied(scores[0] + win - now);
    }

    /** check(). `None`: the error is rethrown. */
    method Check(now: Time, fate: Fate) returns (r: Option<Answer>)
      modifies this
      ensures State() == if fate.Unreachable? then old(State()) else RunScript(old(State()), now, win, limit).0
      ensures var reply := Heard(RunScript(old(State()), now, win, limit).1, fate);
              && (r.None? <==> reply.Failed? && !failOpen)
              && (r.Some? ==>
                    && (r.value.allowed <==> Allows(reply, failOpen))
                    && (r.value.allowed ==> r.value.retryAfterSec == 0)
                    && (reply.Denied? ==> r.value.retryAfterSec == RetrySeconds(reply.retryMs) && r.value.remaining == 0)
                    && (reply.Admitted? ==> r.value.remaining == reply.remaining)
                    && (reply.Failed? ==> r.value.remaining == limit))
    {
      var reply := Failed;
      if !fate.Unreachable? {
        reply := Script(now);
      }
      match Heard(reply, fate)
      case Admitted(remaining) => r := Some(Answer(true, remaining, 0));
      case Denied(retryMs) => r := Some(Answer(false, 0, RetrySeconds(retryMs)));
      case Failed => r := if failOpen then Some(Answer(true, limit, 0)) else None;
    }
  }
}
