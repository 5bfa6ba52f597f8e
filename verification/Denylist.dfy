/** The denylist over time: authenticate() verifies the token, then, after an await, asks the
    denylist; logouts, purges, clock ticks and other calls may fall in between
    (src/auth/auth.service.ts). One clock, in milliseconds. */
module Denylist {

  type Jti = nat
  type CallId = nat

  /** A call of authenticate() whose token passed verification at `verifiedAt`. */
  datatype Call = Call(jti: Jti, verifiedAt: nat)

  /** `expiry` is the exp claim, in seconds, of every token issued. `loggedOut` and `forgotten`
      are history: tokens logged out, and those among them whose row a purge has since removed. */
  datatype State = State(
    now: nat, expiry: map<Jti, nat>, denylist: map<Jti, nat>, calls: map<CallId, Call>,
    loggedOut: set<Jti>, forgotten: set<Jti>)

  datatype Step =
    | IssueToken(jti: Jti, exp: nat)
    | LogOut(jti: Jti)
    | Purge
    | Tick(millis: nat)
    | Verify(call: CallId, jti: Jti)
    | AskDenylist(call: CallId)

  const INITIAL := State(0, map[], map[], map[], {}, {})

  /** The exp check of the JWT library, on whole seconds. */
  predicate Unexpired(s: State, jti: Jti) {
    jti in s.expiry && s.now / 1000 < s.expiry[jti]
  }

  /** expires_at < now(). */
  predicate Purgeable(s: State, exp: nat) {
    exp * 1000 < s.now
  }

  /** The second half of the call, run now, would let the token in. */
  predicate Accepts(s: State, call: CallId) {
    call in s.calls && s.calls[call].jti !in s.denylist
  }

  function Apply(s: State, step: Step): State {
    match step
    case IssueToken(jti, exp) =>
      if jti in s.expiry then s else s.(expiry := s.expiry[jti := exp])
    case LogOut(jti) =>
      if jti !in s.expiry then s
      else s.(denylist := if jti in s.denylist then s.denylist else s.denylist[jti := s.expiry[jti]],
              loggedOut := s.loggedOut + {jti}, forgotten := s.forgotten - {jti})
    case Purge =>
      s.(denylist := map j | j in s.denylist && !Purgeable(s, s.denylist[j]) :: s.denylist[j],
         forgotten := s.forgotten + set j | j in s.denylist && Purgeable(s, s.denylist[j]))
    case Tick(millis) => s.(now := s.now + millis)
    case Verify(call, jti) =>
      if call !in s.calls && Unexpired(s, jti) then s.(calls := s.calls[call := Call(jti, s.now)]) else s
    case AskDenylist(call) => s.(calls := s.calls - {call})
  }

  function Run(steps: seq<Step>): State {
    if steps == [] then INITIAL else Apply(Run(steps[..|steps| - 1]), steps[|steps| - 1])
  }

  /** A logged-out token is on the denylist with its own expiry, until a purge removes it, and a
      purge removes it only once it has expired by itself. */
  predicate Sound(s: State) {
    && s.loggedOut <= s.expiry.Keys && s.forgotten <= s.loggedOut && s.denylist.Keys <= s.loggedOut
    && (forall j :: j in s.loggedOut ==> (j in s.denylist <==> j !in s.forgotten))
    && (forall j :: j in s.denylist ==> s.denylist[j] == s.expiry[j])
    && (forall j :: j in s.forgotten ==> Purgeable(s, s.expiry[j]))
    && (forall c :: c in s.calls ==>
          s.calls[c].jti in s.expiry && s.calls[c].verifiedAt <= s.now && s.calls[c].verifiedAt / 1000 < s.expiry[s.calls[c].jti])
  }

  lemma ApplyKeeps(s: State, step: Step)
    requires Sound(s)
    ensures Sound(Apply(s, step))
  {
  }

  lemma {:induction false} RunKeeps(steps: seq<Step>)
    ensures Sound(Run(steps))
  {
    if steps != [] {
      RunKeeps(steps[..|steps| - 1]);
      ApplyKeeps(Run(steps[..|steps| - 1]), steps[|steps| - 1]);
    }
  }

  /** Time goes on, what was logged out stays so, and a token's exp never changes. */
  predicate Later(s: State, s': State) {
    && s.now <= s'.now && s.loggedOut <= s'.loggedOut
    && forall j :: j in s.expiry ==> j in s'.expiry && s'.expiry[j] == s.expiry[j]
  }

  lemma ApplyIsLater(s: State, step: Step)
    ensures Later(s, Apply(s, step))
  {
  }

  lemma {:induction false} RunIsLater(steps: seq<Step>, more: seq<Step>)
    ensures Later(Run(steps), Run(steps + more))
  {
    hide Apply;
    if more == [] {
      assert steps + more == steps;
    } else {
      var last := |more| - 1;
      RunIsLater(steps, more[..last]);
      assert steps + more == (steps + more[..last]) + [more[last]];
      ApplyIsLater(Run(steps + more[..last]), more[last]);
    }
  }

  /** Asked no later than the second the token expires, the denylist refuses a logged-out token,
      whatever purges, ticks and other calls came in between. */
  lemma LoggedOutStaysOut(steps: seq<Step>, call: CallId)
    requires call in Run(steps).calls && Run(steps).calls[call].jti in Run(steps).loggedOut
    ensures var s := Run(steps);
            var jti := s.calls[call].jti;
            jti in s.expiry && (s.now <= s.expiry[jti] * 1000 ==> !Accepts(s, call))
  {
    RunKeeps(steps);
  }

  /** After `d` more milliseconds, and whatever else happens meanwhile, a pending call for token
      `jti` is let in. */
  ghost predicate LetIn(steps: seq<Step>, more: seq<Step>, call: CallId, jti: Jti, d: nat) {
    var s := Run(steps + more);
    s.now == Run(steps).now + d && call in s.calls && s.calls[call].jti == jti && Accepts(s, call)
  }

  /** A logged-out token with a call between its two halves can be let in after `d` milliseconds if
      and only if that is later than its exp. */
  lemma LoggedOutGetsInIff(steps: seq<Step>, call: CallId, d: nat)
    requires call in Run(steps).calls && Run(steps).calls[call].jti in Run(steps).loggedOut
    ensures var s := Run(steps);
            var jti := s.calls[call].jti;
            && jti in s.expiry
            && ((exists more :: LetIn(steps, more, call, jti, d)) <==> s.now + d > s.expiry[jti] * 1000)
  {
    var s := Run(steps);
    var jti := s.calls[call].jti;
    RunKeeps(steps);
    forall more | LetIn(steps, more, call, jti, d) ensures s.now + d > s.expiry[jti] * 1000 {
      RunIsLater(steps, more);
      if s.now + d <= s.expiry[jti] * 1000 {
        LoggedOutStaysOut(steps + more, call);
      }
    }
    if s.now + d > s.expiry[jti] * 1000 {
      PurgeLetsIn(steps, call, d);
      assert LetIn(steps, [Tick(d), Purge], call, jti, d);
    }
  }

  lemma PurgeLetsIn(steps: seq<Step>, call: CallId, d: nat)
    requires var s := Run(steps);
             && call in s.calls && s.calls[call].jti in s.loggedOut && s.calls[call].jti in s.expiry
             && s.now + d > s.expiry[s.calls[call].jti] * 1000
    ensures LetIn(steps, [Tick(d), Purge], call, Run(steps).calls[call].jti, d)
  {
    RunKeeps(steps);
    var ticked := steps + [Tick(d)];
    assert ticked[..|steps|] == steps && steps + [Tick(d), Purge] == ticked + [Purge];
    assert (ticked + [Purge])[..|ticked|] == ticked;
    assert Run(ticked) == Apply(Run(steps), Tick(d));
    assert Run(ticked + [Purge]) == Apply(Run(ticked), Purge);
  }

  /** Once its row is purged, a token never passes the first half again. */
  lemma ForgottenNeverVerifies(steps: seq<Step>, call: CallId, jti: Jti)
    requires jti in Run(steps).forgotten
    ensures Apply(Run(steps), Verify(call, jti)) == Run(steps)
  {
    RunKeeps(steps);
  }

  /** Such a call exists for every token: verified in the last second before it expires, logged out
      in between or before, and let in by the purge just after. */
  lemma LateAcceptance(exp: nat)
    requires exp >= 1
    ensures var steps := [IssueToken(0, exp), LogOut(0), Tick(exp * 1000 - 1), Verify(0, 0)];
            && 0 in Run(steps).loggedOut && 0 in Run(steps).calls && Run(steps).calls[0].jti == 0
            && (exists more :: LetIn(steps, more, 0, 0, 2)) && !(exists more :: LetIn(steps, more, 0, 0, 1))
  {
    var steps := [IssueToken(0, exp), LogOut(0), Tick(exp * 1000 - 1), Verify(0, 0)];
    var s1 := Apply(INITIAL, steps[0]);
    var s2 := Apply(s1, steps[1]);
    var s3 := Apply(s2, steps[2]);
    assert steps[..4] == steps && steps[..3][..2] == steps[..2] && steps[..2][..1] == steps[..1];
    assert Run(steps[..1]) == s1;
    assert Run(steps[..2]) == s2;
    assert Run(steps[..3]) == s3;
    assert Run(steps) == Apply(s3, steps[3]);
    LoggedOutGetsInIff(steps, 0, 1);
    LoggedOutGetsInIff(steps, 0, 2);
  }
}
