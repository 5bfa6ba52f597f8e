/** Refresh-token rotation with reuse detection (src/auth/auth.service.ts). A transaction is
    one step. Rows of refresh_tokens stand in the order of their ids, and a raw token, which
    is unguessable and unique, is identified with the position of its row. */
module RefreshFamilies {
  import opened Wrappers

  type Token = nat
  type Family = nat
  type UserId = nat
  type Jti = nat
  type Millis = nat

  datatype Row = Row(family: Family, user: UserId, used: bool, revoked: bool, expiresAt: Millis)

  /** The claims of a signed access token. */
  datatype Access = Access(jti: Jti, user: UserId, family: Family, exp: nat)

  datatype Pair = Pair(access: Access, refresh: Token)

  /** Fresh families and jtis come from counters: randomUUID never repeats. */
  datatype Store = Store(rows: seq<Row>, nextFamily: Family, nextJti: Jti, denylist: map<Jti, nat>)

  datatype Config = Config(refreshTtlSec: nat, accessTtlSec: nat)

  // ---- what each transaction does ----

  function RevokeFamily(rows: seq<Row>, f: Family): (r: seq<Row>)
    ensures |r| == |rows|
    ensures forall i :: 0 <= i < |rows| ==>
              r[i] == if rows[i].family == f then rows[i].(revoked := true) else rows[i]
  {
    seq(|rows|, i requires 0 <= i < |rows| => if rows[i].family == f then rows[i].(revoked := true) else rows[i])
  }

  function Issue(s: Store, c: Config, now: Millis, user: UserId, f: Family): (Store, Pair) {
    (s.(rows := s.rows + [Row(f, user, false, false, now + c.refreshTtlSec * 1000)], nextJti := s.nextJti + 1),
     Pair(Access(s.nextJti, user, f, now / 1000 + c.accessTtlSec), |s.rows|))
  }

  function Login(s: Store, c: Config, now: Millis, user: UserId): (Store, Pair) {
    Issue(s.(nextFamily := s.nextFamily + 1), c, now, user, s.nextFamily)
  }

  /** The row check that lets a refresh through. */
  predicate Exchangeable(s: Store, now: Millis, token: Token, userExists: bool) {
    && token < |s.rows| && !s.rows[token].revoked && !s.rows[token].used
    && s.rows[token].expiresAt > now && userExists
  }

  /** A token already exchanged, presented again while its family is not revoked. */
  predicate Reuse(s: Store, token: Token) {
    token < |s.rows| && !s.rows[token].revoked && s.rows[token].used
  }

  function Refresh(s: Store, c: Config, now: Millis, token: Token, userExists: bool): (Store, Option<Pair>) {
    if Exchangeable(s, now, token, userExists) then
      var row := s.rows[token];
      var (s', pair) := Issue(s.(rows := s.rows[token := row.(used := true)]), c, now, row.user, row.family);
      (s', Some(pair))
    else if Reuse(s, token) then
      (s.(rows := RevokeFamily(s.rows, s.rows[token].family)), None)
    else (s, None)
  }

  function Logout(s: Store, a: Access): Store {
    s.(rows := RevokeFamily(s.rows, a.family),
       denylist := if a.jti in s.denylist then s.denylist else s.denylist[a.jti := a.exp])
  }

  function Purge(s: Store, now: Millis): Store {
    s.(denylist := map j | j in s.denylist && s.denylist[j] * 1000 >= now :: s.denylist[j])
  }

  // ---- what that means, told from the rows ----

  /** A refresh yields a pair exactly for a token that is known, not revoked, not used and not expired,
      of a user that still exists; the pair continues the token's family and user. */
  lemma RefreshMeans(s: Store, c: Config, now: Millis, token: Token, userExists: bool)
    ensures var (s', pair) := Refresh(s, c, now, token, userExists);
            && (pair.Some? <==> token < |s.rows| && !s.rows[token].revoked && !s.rows[token].used
                                && now < s.rows[token].expiresAt && userExists)
            && (pair.Some? ==>
                  var row := s.rows[token];
                  && pair.value == Pair(Access(s.nextJti, row.user, row.family, now / 1000 + c.accessTtlSec), |s.rows|)
                  && s'.rows == s.rows[token := Row(row.family, row.user, true, false, row.expiresAt)]
                              + [Row(row.family, row.user, false, false, now + c.refreshTtlSec * 1000)])
            && (pair.None? && s'.rows != s.rows ==> token < |s.rows| && s.rows[token].used && !s.rows[token].revoked)
            && s'.denylist == s.denylist && s'.nextFamily == s.nextFamily
  {
  }

  lemma LoginMeans(s: Store, c: Config, now: Millis, user: UserId)
    ensures var (s', pair) := Login(s, c, now, user);
            && pair == Pair(Access(s.nextJti, user, s.nextFamily, now / 1000 + c.accessTtlSec), |s.rows|)
            && s'.rows == s.rows + [Row(s.nextFamily, user, false, false, now + c.refreshTtlSec * 1000)]
            && s'.denylist == s.denylist
  {
  }

  /** A purge removes exactly the denied tokens that have expired by then. */
  lemma PurgeMeans(s: Store, now: Millis)
    ensures var kept := Purge(s, now);
            && kept == s.(denylist := kept.denylist)
            && (forall j :: j in kept.denylist <==> j in s.denylist && now <= s.denylist[j] * 1000)
            && (forall j :: j in kept.denylist ==> kept.denylist[j] == s.denylist[j])
  {
  }

  /** A logout denies the token until its own expiry. */
  lemma LogoutMeans(s: Store, a: Access)
    ensures var out := Logout(s, a);
            && out.denylist == (if a.jti in s.denylist then s.denylist else s.denylist[a.jti := a.exp])
            && |out.rows| == |s.rows|
            && (forall i :: 0 <= i < |s.rows| ==>
                  out.rows[i] == if s.rows[i].family == a.family then s.rows[i].(revoked := true) else s.rows[i])
  {
  }

  // ---- what every run keeps ----

  /** The newest token issued in its family. */
  predicate Newest(rows: seq<Row>, i: nat)
    requires i < |rows|
  {
    forall j :: i < j < |rows| ==> rows[j].family != rows[i].family
  }

  predicate Revoked(rows: seq<Row>, f: Family) {
    forall i :: 0 <= i < |rows| && rows[i].family == f ==> rows[i].revoked
  }

  /** Nothing is revoked, and exactly the newest token has not been exchanged. */
  predicate Rotating(rows: seq<Row>, f: Family) {
    forall i :: 0 <= i < |rows| && rows[i].family == f ==> !rows[i].revoked && (!rows[i].used <==> Newest(rows, i))
  }

  ghost predicate Sound(s: Store) {
    && (forall f: Family :: Revoked(s.rows, f) || Rotating(s.rows, f))
    && (forall i, j :: 0 <= i < j < |s.rows| && s.rows[i].family == s.rows[j].family ==> s.rows[i].user == s.rows[j].user)
    && (forall i :: 0 <= i < |s.rows| ==> s.rows[i].family < s.nextFamily)
  }

  lemma OtherFamilies(rows: seq<Row>, rows': seq<Row>, g: Family)
    requires |rows| <= |rows'| && (Revoked(rows, g) || Rotating(rows, g))
    requires forall i :: 0 <= i < |rows| ==> rows'[i].family == rows[i].family && (rows[i].family == g ==> rows'[i] == rows[i])
    requires forall i :: |rows| <= i < |rows'| ==> rows'[i].family != g
    ensures Revoked(rows', g) || Rotating(rows', g)
  {
    forall i | 0 <= i < |rows| && rows[i].family == g ensures Newest(rows', i) <==> Newest(rows, i) {
      assert forall j :: i < j < |rows| ==> rows'[j].family == rows[j].family;
    }
  }

  lemma LoginKeeps(s: Store, c: Config, now: Millis, user: UserId)
    requires Sound(s)
    ensures var (s', pair) := Login(s, c, now, user);
            && Sound(s') && pair.refresh == |s.rows| == |s'.rows| - 1
            && s'.rows[..|s.rows|] == s.rows && Live(s'.rows, pair.refresh)
            && s'.rows[pair.refresh].family == pair.access.family && s'.rows[pair.refresh].user == user
            && forall i :: 0 <= i < |s.rows| ==> s'.rows[i].family != pair.access.family
  {
    var s' := Login(s, c, now, user).0;
    forall g: Family ensures Revoked(s'.rows, g) || Rotating(s'.rows, g) {
      if g == s.nextFamily {
        assert Rotating(s'.rows, g);
      } else {
        OtherFamilies(s.rows, s'.rows, g);
      }
    }
  }

  lemma RotateKeeps(s: Store, c: Config, now: Millis, token: Token)
    requires Sound(s) && Exchangeable(s, now, token, true)
    ensures Sound(Refresh(s, c, now, token, true).0)
    ensures Newest(s.rows, token)
  {
    var s', f := Refresh(s, c, now, token, true).0, s.rows[token].family;
    assert Rotating(s.rows, f) && Newest(s.rows, token);
    forall g: Family ensures Revoked(s'.rows, g) || Rotating(s'.rows, g) {
      if g == f {
        forall i | 0 <= i < |s'.rows| && s'.rows[i].family == f
          ensures !s'.rows[i].revoked && (!s'.rows[i].used <==> Newest(s'.rows, i))
        {
          if i < |s.rows| {
            assert s'.rows[|s.rows|].family == f;
            assert i != token ==> s.rows[i].used by {
              assert i < token ==> s.rows[token].family == s.rows[i].family;
            }
          }
        }
      } else {
        OtherFamilies(s.rows, s'.rows, g);
      }
    }
  }

  lemma RevokeKeeps(s: Store, s': Store, f: Family)
    requires Sound(s) && s'.rows == RevokeFamily(s.rows, f) && s'.nextFamily == s.nextFamily
    ensures Sound(s') && Revoked(s'.rows, f)
  {
    forall g: Family ensures Revoked(s'.rows, g) || Rotating(s'.rows, g) {
      if g != f {
        OtherFamilies(s.rows, s'.rows, g);
      }
    }
  }

  // ---- runs ----

  datatype Step =
    | DoLogin(user: UserId)
    | DoRefresh(token: Token, userExists: bool)
    | DoLogout(access: Access)
    | DoPurge

  /** A step at a time of its own. */
  datatype Timed = Timed(now: Millis, step: Step)

  function Apply(s: Store, c: Config, t: Timed): (Store, Option<Pair>) {
    match t.step
    case DoLogin(user) => var (s', pair) := Login(s, c, t.now, user); (s', Some(pair))
    case DoRefresh(token, userExists) => Refresh(s, c, t.now, token, userExists)
    case DoLogout(access) => (Logout(s, access), None)
    case DoPurge => (Purge(s, t.now), None)
  }

  const EMPTY := Store([], 0, 0, map[])

  function Run(s: Store, c: Config, steps: seq<Timed>): Store {
    if steps == [] then s else Apply(Run(s, c, steps[..|steps| - 1]), c, steps[|steps| - 1]).0
  }

  lemma ApplyKeeps(s: Store, c: Config, t: Timed)
    requires Sound(s)
    ensures Sound(Apply(s, c, t).0)
  {
    match t.step
    case DoLogin(user) => LoginKeeps(s, c, t.now, user);
    case DoRefresh(token, userExists) =>
      if Exchangeable(s, t.now, token, userExists) {
        RotateKeeps(s, c, t.now, token);
      } else if Reuse(s, token) {
        RevokeKeeps(s, Apply(s, c, t).0, s.rows[token].family);
      }
    case DoLogout(a) => RevokeKeeps(s, Apply(s, c, t).0, a.family);
    case DoPurge =>
  }

  lemma {:induction false} RunKeeps(s: Store, c: Config, steps: seq<Timed>)
    requires Sound(s)
    ensures Sound(Run(s, c, steps))
  {
    if steps != [] {
      RunKeeps(s, c, steps[..|steps| - 1]);
      ApplyKeeps(Run(s, c, steps[..|steps| - 1]), c, steps[|steps| - 1]);
    }
  }

  predicate Live(rows: seq<Row>, i: nat) {
    i < |rows| && !rows[i].used && !rows[i].revoked
  }

  /** In every run a family has at most one live token; a family with an unrevoked row has
      exactly one, its newest; and all its rows belong to one user. */
  lemma OneLiveToken(c: Config, steps: seq<Timed>, i: nat)
    requires i < |Run(EMPTY, c, steps).rows|
    ensures var rows := Run(EMPTY, c, steps).rows;
            && (forall j :: 0 <= j < |rows| && rows[j].family == rows[i].family ==> rows[j].user == rows[i].user)
            && (Live(rows, i) ==> Newest(rows, i))
            && (forall j: nat :: Live(rows, i) && Live(rows, j) && rows[j].family == rows[i].family ==> i == j)
            && (!rows[i].revoked && Newest(rows, i) ==> Live(rows, i))
            && (!rows[i].revoked ==> !Revoked(rows, rows[i].family) && Rotating(rows, rows[i].family))
  {
    var s := Run(EMPTY, c, steps);
    RunKeeps(EMPTY, c, steps);
    var f := s.rows[i].family;
    assert Revoked(s.rows, f) || Rotating(s.rows, f);
    forall j: nat | Live(s.rows, i) && Live(s.rows, j) && s.rows[j].family == f ensures i == j {
      assert Newest(s.rows, i) && Newest(s.rows, j);
    }
  }

  // ---- how a family ends ----

  /** The step presents an exchanged token of family `f`, not revoked so far, or logs `f` out. */
  predicate Kills(s: Store, t: Timed, f: Family) {
    f < s.nextFamily &&
    match t.step
    case DoRefresh(token, _) => Reuse(s, token) && s.rows[token].family == f
    case DoLogout(access) => access.family == f
    case _ => false
  }

  predicate KilledAt(c: Config, steps: seq<Timed>, i: nat, f: Family) {
    i < |steps| && Kills(Run(EMPTY, c, steps[..i]), steps[i], f)
  }

  ghost predicate Killed(c: Config, steps: seq<Timed>, f: Family) {
    exists i :: KilledAt(c, steps, i, f)
  }

  lemma KilledBefore(c: Config, steps: seq<Timed>, f: Family)
    requires steps != []
    ensures var before := steps[..|steps| - 1];
            Killed(c, steps, f) <==> Killed(c, before, f) || Kills(Run(EMPTY, c, before), steps[|steps| - 1], f)
  {
    var before := steps[..|steps| - 1];
    if i: nat :| KilledAt(c, before, i, f) {
      assert before[..i] == steps[..i] && KilledAt(c, steps, i, f);
    }
    if Kills(Run(EMPTY, c, before), steps[|steps| - 1], f) {
      assert KilledAt(c, steps, |steps| - 1, f);
    }
    if i: nat :| KilledAt(c, steps, i, f) {
      assert i < |before| ==> before[..i] == steps[..i] && KilledAt(c, before, i, f);
    }
  }

  predicate HasRow(rows: seq<Row>, f: Family) {
    exists i :: 0 <= i < |rows| && rows[i].family == f
  }

  /** Every family has a row. */
  ghost predicate Peopled(s: Store) {
    forall f: Family :: f < s.nextFamily ==> HasRow(s.rows, f)
  }

  lemma PeopledStays(s: Store, c: Config, t: Timed)
    requires Peopled(s)
    ensures Peopled(Apply(s, c, t).0)
  {
    var s' := Apply(s, c, t).0;
    forall f: Family | f < s'.nextFamily ensures HasRow(s'.rows, f) {
      if f < s.nextFamily {
        assert HasRow(s.rows, f);
        var i :| 0 <= i < |s.rows| && s.rows[i].family == f;
        assert s'.rows[i].family == f;
      } else {
        assert s'.rows[|s.rows|].family == f;
      }
    }
  }

  lemma KillRevokes(s: Store, c: Config, t: Timed, f: Family)
    requires Kills(s, t, f)
    ensures Revoked(Apply(s, c, t).0.rows, f)
  {
    hide Issue;
  }

  /** No other step revokes a row of the family, and a new family begins unrevoked. */
  lemma OthersSpare(s: Store, c: Config, t: Timed, f: Family)
    requires Peopled(s) && f < Apply(s, c, t).0.nextFamily && !Kills(s, t, f) && !(f < s.nextFamily && Revoked(s.rows, f))
    ensures !Revoked(Apply(s, c, t).0.rows, f)
  {
    var s' := Apply(s, c, t).0;
    if f < s.nextFamily {
      assert HasRow(s.rows, f);
      var i :| 0 <= i < |s.rows| && s.rows[i].family == f && !s.rows[i].revoked;
      assert s'.rows[i].family == f && !s'.rows[i].revoked;
    } else {
      assert s'.rows[|s.rows|].family == f && !s'.rows[|s.rows|].revoked;
    }
  }

  /** A refresh, a logout or a login changes who is revoked just as `Kills` says. */
  lemma StepRevokes(s: Store, c: Config, t: Timed, f: Family)
    requires Sound(s) && Peopled(s) && f < Apply(s, c, t).0.nextFamily
    ensures Revoked(Apply(s, c, t).0.rows, f) <==> (f < s.nextFamily && Revoked(s.rows, f)) || Kills(s, t, f)
  {
    hide Apply, Kills, Revoked, Sound, Peopled;
    if Kills(s, t, f) {
      KillRevokes(s, c, t, f);
    } else if f < s.nextFamily && Revoked(s.rows, f) {
      RevokedForever(s, c, [t], f);
      RunOne(s, c, t);
    } else {
      OthersSpare(s, c, t, f);
    }
  }

  lemma RunOne(s: Store, c: Config, t: Timed)
    ensures Run(s, c, [t]) == Apply(s, c, t).0
  {
    hide Apply;
    assert [t][..0] == [];
  }

  /** In every run a family is revoked exactly when one of its exchanged tokens was presented again
      or it was logged out; and from that step on no step yields a token pair of it. */
  lemma {:induction false} RevokedIff(c: Config, steps: seq<Timed>, f: Family)
    ensures var s := Run(EMPTY, c, steps);
            && Sound(s) && Peopled(s) && (Killed(c, steps, f) ==> f < s.nextFamily)
            && (f < s.nextFamily ==> (Revoked(s.rows, f) <==> Killed(c, steps, f)))
  {
    RunKeeps(EMPTY, c, steps);
    if steps != [] {
      var before, last := steps[..|steps| - 1], steps[|steps| - 1];
      var s := Run(EMPTY, c, before);
      RevokedIff(c, before, f);
      KilledBefore(c, steps, f);
      PeopledStays(s, c, last);
      if f < Apply(s, c, last).0.nextFamily {
        StepRevokes(s, c, last, f);
      }
    }
  }

  lemma KilledYieldsNothing(c: Config, steps: seq<Timed>, t: Timed, f: Family)
    ensures var s := Run(EMPTY, c, steps);
            var (_, pair) := Apply(s, c, t);
            Killed(c, steps, f) || Kills(s, t, f) ==> pair.Some? ==> pair.value.access.family != f
  {
    RevokedIff(c, steps, f);
  }

  /** Once a family is revoked it stays so, gets no more rows, and no step yields a pair of it. */
  lemma {:induction false} RevokedForever(s: Store, c: Config, steps: seq<Timed>, f: Family)
    requires Sound(s) && Revoked(s.rows, f) && f < s.nextFamily
    ensures var s' := Run(s, c, steps);
            && Revoked(s'.rows, f) && f < s'.nextFamily && |s.rows| <= |s'.rows|
            && (forall i :: |s.rows| <= i < |s'.rows| ==> s'.rows[i].family != f)
    ensures forall t: Timed :: var (_, pair) := Apply(Run(s, c, steps), c, t); pair.Some? ==> pair.value.access.family != f
  {
    if steps != [] {
      RevokedForever(s, c, steps[..|steps| - 1], f);
    }
  }

  // ---- how long a logout lasts ----

  predicate LatePurge(t: Timed, exp: nat) {
    t.step.DoPurge? && t.now > exp * 1000
  }

  predicate Denied(s: Store, a: Access) {
    a.jti in s.denylist && s.denylist[a.jti] == a.exp
  }

  /** One token has one exp. */
  predicate OneExp(steps: seq<Timed>, a: Access) {
    forall k :: 0 <= k < |steps| && steps[k].step.DoLogout? && steps[k].step.access.jti == a.jti ==>
      steps[k].step.access.exp == a.exp
  }

  lemma StepDenies(s: Store, c: Config, t: Timed, a: Access)
    requires a.jti in s.denylist ==> Denied(s, a)
    requires t.step.DoLogout? && t.step.access.jti == a.jti ==> t.step.access.exp == a.exp
    ensures var s' := Apply(s, c, t).0;
            && (a.jti in s'.denylist ==> Denied(s', a))
            && (a.jti in s'.denylist <==>
                  (a.jti in s.denylist && !LatePurge(t, a.exp)) || (t.step.DoLogout? && t.step.access.jti == a.jti))
  {
  }

  /** Step `k` logged the token out, and no purge since came later than its exp. */
  predicate DeniedSince(steps: seq<Timed>, k: nat, a: Access) {
    && k < |steps| && steps[k].step.DoLogout? && steps[k].step.access.jti == a.jti
    && forall j :: k < j < |steps| ==> !LatePurge(steps[j], a.exp)
  }

  /** In every run a token is denied exactly when it was logged out and no purge has come since at a
      time past its own exp. */
  lemma {:induction false} DeniedIff(c: Config, steps: seq<Timed>, a: Access)
    requires OneExp(steps, a)
    ensures var s := Run(EMPTY, c, steps);
            && (a.jti in s.denylist ==> s.denylist[a.jti] == a.exp)
            && (a.jti in s.denylist <==> exists k :: DeniedSince(steps, k, a))
  {
    hide Apply;
    if steps != [] {
      var before, last := steps[..|steps| - 1], |steps| - 1;
      DeniedIff(c, before, a);
      StepDenies(Run(EMPTY, c, before), c, steps[last], a);
      if k: nat :| DeniedSince(before, k, a) {
        assert LatePurge(steps[last], a.exp) || DeniedSince(steps, k, a);
      }
      if k: nat :| DeniedSince(steps, k, a) {
        assert k < last ==> DeniedSince(before, k, a) && !LatePurge(steps[last], a.exp);
      }
      if steps[last].step.DoLogout? && steps[last].step.access.jti == a.jti {
        assert DeniedSince(steps, last, a);
      }
    }
  }
}
