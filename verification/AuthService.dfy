/** AuthService as it is written: tables updated statement by statement, each method one
    transaction (src/auth/auth.service.ts). */
module AuthService {
  import opened Wrappers
  import opened RefreshFamilies
  import Denylist

  /** Every refusal of a refresh looks the same to the client. */
  datatype Refusal = BadRefresh | BadCredentials | TokenExpired | TokenRevoked

  class Service {
    const config: Config
    var rows: seq<Row>
    var denylist: map<Jti, nat>
    var nextFamily: Family
    var nextJti: Jti

    constructor (config: Config)
      ensures this.config == config && State() == EMPTY
    {
      this.config := config;
      rows, denylist, nextFamily, nextJti := [], map[], 0, 0;
    }

    ghost function State(): Store
      reads this
    {
      Store(rows, nextFamily, nextJti, denylist)
    }

    /** issue(): the INSERT of the refresh row, and the signed access token. */
    method IssuePair(now: Millis, user: UserId, family: Family) returns (pair: Pair)
      modifies this`rows, this`nextJti
      ensures (State(), pair) == Issue(old(State()), config, now, user, family)
    {
      var access := Access(nextJti, user, family, now / 1000 + config.accessTtlSec);
      nextJti := nextJti + 1;
      pair := Pair(access, |rows|);
      rows := rows + [Row(family, user, false, false, now + config.refreshTtlSec * 1000)];
    }

    /** UPDATE refresh_tokens SET revoked_at = now() WHERE family_id = f AND revoked_at IS NULL;
        the count is what the warning logs. */
    method RevokeAll(f: Family) returns (count: nat)
      modifies this`rows
      ensures rows == RevokeFamily(old(rows), f)
      ensures count == 0 <==> Revoked(old(rows), f)
    {
      count := 0;
      for i := 0 to |rows|
        invariant |rows| == |old(rows)|
        invariant forall j :: 0 <= j < i ==> rows[j] == RevokeFamily(old(rows), f)[j]
        invariant forall j :: i <= j < |rows| ==> rows[j] == old(rows)[j]
        invariant count == 0 <==> forall j :: 0 <= j < i && old(rows)[j].family == f ==> old(rows)[j].revoked
      {
        if rows[i].family == f && !rows[i].revoked {
          rows := rows[i := rows[i].(revoked := true)];
          count := count + 1;
        }
      }
    }

    /** login(): `user` is None when the email is unknown or the password does not match. */
    method LogIn(now: Millis, user: Option<UserId>) returns (r: Result<Pair, Refusal>)
      modifies this
      ensures user.None? ==> r == Err(BadCredentials) && State() == old(State())
      ensures user.Some? ==> r.Ok? && (State(), r.value) == Login(old(State()), config, now, user.value)
    {
      if user.None? {
        return Err(BadCredentials);
      }
      var family := nextFamily;
      nextFamily := nextFamily + 1;
      var pair := IssuePair(now, user.value, family);
      r := Ok(pair);
    }

    /** refresh(): rotation, or the revocation of the whole family. */
    method Rotate(now: Millis, token: Token, userExists: bool) returns (r: Result<Pair, Refusal>)
      modifies this
      ensures State() == Refresh(old(State()), config, now, token, userExists).0
      ensures r == match Refresh(old(State()), config, now, token, userExists).1
                   case Some(pair) => Ok(pair)
                   case None => Err(BadRefresh)
      ensures r.Ok? <==> token < |old(rows)| && !old(rows)[token].revoked && !old(rows)[token].used
                         && now < old(rows)[token].expiresAt && userExists
      ensures r.Ok? ==>
                && r.value.access.user == old(rows)[token].user && r.value.access.family == old(rows)[token].family
                && r.value.access.exp == now / 1000 + config.accessTtlSec
    {
      if token >= |rows| {
        return Err(BadRefresh);
      }
      var row := rows[token];
      if row.revoked {
        return Err(BadRefresh);
      }
      if row.used {
        var count := RevokeAll(row.family);
        return Err(BadRefresh);
      }
      if row.expiresAt <= now {
        return Err(BadRefresh);
      }
      if !userExists {
        return Err(BadRefresh);
      }
      rows := rows[token := row.(used := true)];
      var pair := IssuePair(now, row.user, row.family);
      r := Ok(pair);
    }

    /** logout(): the family and the access token, in one transaction. To any history `s` that has led
        to this denylist it is the machine's logout. */
    method LogOut(access: Access, ghost s: Denylist.State)
      requires s.denylist == denylist && access.jti in s.expiry && s.expiry[access.jti] == access.exp
      modifies this
      ensures State() == Logout(old(State()), access)
      ensures Revoked(rows, access.family) && access.jti in denylist
      ensures denylist == Denylist.Apply(s, Denylist.LogOut(access.jti)).denylist
      ensures denylist == if access.jti in old(denylist) then old(denylist) else old(denylist)[access.jti := access.exp]
    {
      var count := RevokeAll(access.family);
      if access.jti !in denylist {
        denylist := denylist[access.jti := access.exp];
      }
    }

    /** authenticate(), when nothing happens between its two halves. It lets the token in exactly
        when, in any history `s` that has led to this denylist, verifying it and then asking would;
        and so never a token that has been logged out. */
    method Authenticate(now: Millis, access: Access, ghost s: Denylist.State, ghost call: Denylist.CallId)
      returns (r: Result<Access, Refusal>)
      requires s.now == now && s.denylist == denylist && call !in s.calls
      requires access.jti in s.expiry && s.expiry[access.jti] == access.exp
      ensures r.Ok? <==> Denylist.Accepts(Denylist.Apply(s, Denylist.Verify(call, access.jti)), call)
      ensures r.Ok? ==> r.value == access
      ensures r.Ok? <==> now / 1000 < access.exp && access.jti !in denylist
      ensures r == Err(TokenExpired) <==> !Denylist.Unexpired(s, access.jti)
      ensures Denylist.Sound(s) && access.jti in s.loggedOut ==> r.Err?
    {
      if now / 1000 >= access.exp {
        return Err(TokenExpired);
      }
      r := if access.jti in denylist then Err(TokenRevoked) else Ok(access);
    }

    /** purgeDenylist(): DELETE ... WHERE expires_at < now(). */
    method PurgeDenylist(now: Millis, ghost s: Denylist.State) returns (count: nat)
      requires s.denylist == denylist && s.now == now
      modifies this`denylist
      ensures State() == Purge(old(State()), now)
      ensures denylist == Denylist.Apply(s, Denylist.Purge).denylist
      ensures forall j :: j in denylist <==> j in old(denylist) && now <= old(denylist)[j] * 1000
      ensures forall j :: j in denylist ==> denylist[j] == old(denylist)[j]
      ensures count == |old(denylist)| - |denylist|
    {
      var kept := map j | j in denylist && denylist[j] * 1000 >= now :: denylist[j];
      assert kept.Keys <= denylist.Keys;
      SubsetSize(kept.Keys, denylist.Keys);
      count := |denylist| - |kept|;
      denylist := kept;
    }
  }
}
