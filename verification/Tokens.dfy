/** Refresh-token rotation: the token table, the handlers that work on it, and what every run keeps. */
module Tokens {
  import opened Intervals
  import opened Wrappers

  /** A signed token is the record of its claims; nothing in it says whether it is an access or a
      refresh token. */
  datatype Claims = Claims(user: string, roles: seq<string>, jti: string)

  datatype Row = Row(id: string, user: string, jti: string, token: Claims, revokedAt: Option<Time>)

  datatype Kind = Access | Refresh

  datatype Issue = Issue(claims: Claims, kind: Kind)

  /** A stored token and the token it replaced, if it did not come from a login. */
  datatype Link = Link(from: Option<string>, to: string)

  /** The table, and three ledgers that no handler reads: the tokens signed, the tokens stored, and the
      JTIs that passed the reuse check of a refresh. */
  datatype AuthState = AuthState(rows: seq<Row>, issued: seq<Issue>, links: seq<Link>, consumed: seq<string>)

  const START := AuthState([], [], [], [])

  datatype User = User(id: string, roles: seq<string>)

  datatype TokenPair = TokenPair(access: Claims, refresh: Claims)

  // --- the token table ---------------------------------------------------------------------------

  /** The first row with the JTI; no constraint of the table makes it the only one. */
  function Find(rows: seq<Row>, jti: string): (r: Option<Row>)
    ensures r.Some? ==> r.value in rows && r.value.jti == jti
    ensures r.None? ==> forall x :: x in rows ==> x.jti != jti
  {
    if rows == [] then None
    else if rows[0].jti == jti then Some(rows[0])
    else Find(rows[1..], jti)
  }

  predicate HasId(rows: seq<Row>, id: string) {
    exists r :: r in rows && r.id == id
  }

  /** INSERT with primary key id. */
  function Inserted(rows: seq<Row>, row: Row): seq<Row> {
    if HasId(rows, row.id) then rows else rows + [row]
  }

  /** UPDATE of every row with the JTI. */
  function Revoked(rows: seq<Row>, jti: string, now: Time): (r: seq<Row>)
    ensures |r| == |rows|
    ensures forall i :: 0 <= i < |rows| ==>
      r[i] == if rows[i].jti == jti then rows[i].(revokedAt := Some(now)) else rows[i]
  {
    if rows == [] then []
    else [if rows[0].jti == jti then rows[0].(revokedAt := Some(now)) else rows[0]] + Revoked(rows[1..], jti, now)
  }

  class TokenRepo {
    var rows: seq<Row>

    constructor ()
      ensures rows == []
    {
      rows := [];
    }

    /** `applied` and `acknowledged` are the database's doing: an unacknowledged insert may have been
        applied. */
    method Store(row: Row, applied: bool, acknowledged: bool) returns (r: Result<(), string>)
      modifies this
      ensures rows == if applied then Inserted(old(rows), row) else old(rows)
      ensures r.Success? <==> applied && acknowledged && forall x :: x in old(rows) ==> x.id != row.id
    {
      var conflict := HasId(rows, row.id);
      if applied && !conflict {
        rows := rows + [row];
      }
      r := if applied && acknowledged && !conflict then Success(()) else Failure("store refresh token");
    }

    method FindByJTI(jti: string) returns (r: Result<Row, string>)
      ensures r == match Find(rows, jti) case Some(row) => Success(row) case None => Failure("token not found")
    {
      var i := 0;
      while i < |rows|
        invariant 0 <= i <= |rows|
        invariant Find(rows, jti) == Find(rows[i..], jti)
      {
        if rows[i].jti == jti {
          return Success(rows[i]);
        }
        assert rows[i..][1..] == rows[i + 1..];
        i := i + 1;
      }
      return Failure("token not found");
    }

    method RevokeByJTI(jti: string, now: Time, applied: bool, acknowledged: bool) returns (r: Result<(), string>)
      requires acknowledged ==> applied
      modifies this
      ensures rows == if applied then Revoked(old(rows), jti, now) else old(rows)
      ensures r.Success? <==> acknowledged
    {
      if applied {
        rows := Revoked(rows, jti, now);
      }
      r := if acknowledged then Success(()) else Failure("revoke token failed");
    }
  }

  // --- roles -------------------------------------------------------------------------------------

  /** Lower-casing, as far as it can produce a letter of a role name: the capital letters, and the
      dotted capital I. */
  function Lower(c: char): char {
    if 'A' <= c <= 'Z' then (c as int + 32) as char
    else if c == '\U{0130}' then 'i'
    else c
  }

  function LowerAll(s: string): (r: string)
    ensures |r| == |s| && forall i :: 0 <= i < |s| ==> r[i] == Lower(s[i])
  {
    if s == "" then "" else [Lower(s[0])] + LowerAll(s[1..])
  }

  predicate IsValidRole(r: string) {
    LowerAll(r) == "admin" || LowerAll(r) == "user" || LowerAll(r) == "viewer"
  }

  predicate RolesValid(roles: seq<string>) {
    forall r :: r in roles ==> IsValidRole(r)
  }

  // --- the handlers, as steps --------------------------------------------------------------------

  /** One attempt of the retried insert. */
  datatype Attempt = Attempt(id: string, applied: bool, acknowledged: bool)

  /** The JTIs that the signer draws for the access and the refresh token; None is a signing error. */
  datatype Signing = Signing(access: Option<string>, refresh: Option<string>)

  /** Inserting until an attempt is acknowledged or the retries run out. */
  function StoreAll(rows: seq<Row>, row: Row, attempts: seq<Attempt>): (seq<Row>, bool)
    decreases |attempts|
  {
    if attempts == [] then (rows, false) else
      var a := attempts[0];
      if a.applied && !HasId(rows, a.id) then
        if a.acknowledged then (rows + [row.(id := a.id)], true)
        else StoreAll(rows + [row.(id := a.id)], row, attempts[1..])
      else StoreAll(rows, row, attempts[1..])
  }

  function Sign(s: AuthState, claims: Claims, kind: Kind): AuthState {
    s.(issued := s.issued + [Issue(claims, kind)])
  }

  function Keep(s: AuthState, from: Option<string>, claims: Claims, attempts: seq<Attempt>): (AuthState, bool) {
    var (rows, ok) := StoreAll(s.rows, Row("", claims.user, claims.jti, claims, None), attempts);
    (if rows == s.rows then s else s.(rows := rows, links := s.links + [Link(from, claims.jti)]), ok)
  }

  /** Sign an access and a refresh token and store the latter. */
  function Grant(s: AuthState, from: Option<string>, user: string, roles: seq<string>, signing: Signing,
                 attempts: seq<Attempt>): (AuthState, Result<TokenPair, string>) {
    if signing.access.None? then (s, Failure("generate access")) else
      var access := Claims(user, roles, signing.access.value);
      var s1 := Sign(s, access, Access);
      if signing.refresh.None? then (s1, Failure("generate refresh")) else
        var refresh := Claims(user, roles, signing.refresh.value);
        var (s2, ok) := Keep(Sign(s1, refresh, Refresh), from, refresh, attempts);
        (s2, if ok then Success(TokenPair(access, refresh)) else Failure("store refresh"))
  }

  function LogInStep(s: AuthState, user: User, signing: Signing, attempts: seq<Attempt>)
      : (AuthState, Result<TokenPair, string>) {
    if !RolesValid(user.roles) then (s, Failure("user has invalid role"))
    else Grant(s, None, user.id, user.roles, signing, attempts)
  }

  /** Would a refresh of this JTI get past the reuse check. */
  predicate Passes(s: AuthState, jti: string) {
    Find(s.rows, jti).Some? && Find(s.rows, jti).value.revokedAt.None?
  }

  function Consume(s: AuthState, jti: string, now: Time, revoked: bool): AuthState {
    s.(rows := if revoked then Revoked(s.rows, jti, now) else s.rows, consumed := s.consumed + [jti])
  }

  /** The id of a row that a refresh stores is its JTI, in every attempt. */
  function OwnId(signing: Signing, attempts: seq<Attempt>): (r: seq<Attempt>) {
    if attempts == [] || signing.refresh.None? then []
    else [attempts[0].(id := signing.refresh.value)] + OwnId(signing, attempts[1..])
  }

  function RefreshStep(s: AuthState, claims: Option<Claims>, now: Time, revoked: bool, signing: Signing,
                       attempts: seq<Attempt>): (AuthState, Result<TokenPair, string>) {
    if claims.None? then (s, Failure("invalid token"))
    else if Find(s.rows, claims.value.jti).None? then (s, Failure("failed to lookup token"))
    else if !Passes(s, claims.value.jti) then (s, Failure("refresh token already used or revoked"))
    else Grant(Consume(s, claims.value.jti, now, revoked), Some(claims.value.jti), claims.value.user,
               claims.value.roles, signing, OwnId(signing, attempts))
  }

  function LogOutStep(s: AuthState, jti: string, now: Time, applied: bool): AuthState {
    if Passes(s, jti) && applied then s.(rows := Revoked(s.rows, jti, now)) else s
  }

  /** A request to revoke: the presented token, its declared kind, and the JTI that the unverified
      parser reads from it, if it can. */
  datatype RevokeRequest = RevokeRequest(token: string, kind: Kind, jti: Option<string>)

  /** One attempt of the retried revocation. */
  datatype RevokeAttempt = RevokeAttempt(now: Time, applied: bool, acknowledged: bool)

  /** Revoking until an attempt is acknowledged or the retries run out; a successful write that is not
      acknowledged counts as a failure and is tried again. */
  function RevokeAll(rows: seq<Row>, jti: string, attempts: seq<RevokeAttempt>): (seq<Row>, bool)
    decreases |attempts|
  {
    if attempts == [] then (rows, false) else
      var a := attempts[0];
      var rows' := if a.applied then Revoked(rows, jti, a.now) else rows;
      if a.applied && a.acknowledged then (rows', true) else RevokeAll(rows', jti, attempts[1..])
  }

  /** Is there a request for a refresh token, with a token. */
  predicate Revocable(request: Option<RevokeRequest>) {
    request.Some? && request.value.token != "" && request.value.kind == Refresh
  }

  function RevokeStep(s: AuthState, request: Option<RevokeRequest>, attempts: seq<RevokeAttempt>)
      : (AuthState, Result<(), string>) {
    if !Revocable(request) then (s, Failure("only refresh token revocation supported"))
    else if request.value.jti.None? then (s, Failure("parse"))
    else
      var (rows, ok) := RevokeAll(s.rows, request.value.jti.value, attempts);
      (s.(rows := rows), if ok then Success(()) else Failure("revoke failed"))
  }

  // --- the handlers, as the program runs them ----------------------------------------------------

  class AuthService {
    const repo: TokenRepo
    ghost var issued: seq<Issue>
    ghost var links: seq<Link>
    ghost var consumed: seq<string>

    constructor ()
      ensures fresh(repo) && State() == START
    {
      repo := new TokenRepo();
      issued, links, consumed := [], [], [];
    }

    ghost function State(): AuthState
      reads this, repo
    {
      AuthState(repo.rows, issued, links, consumed)
    }

    method CheckRoles(roles: seq<string>) returns (bad: Option<string>)
      ensures bad.None? <==> RolesValid(roles)
      ensures bad.Some? ==> bad.value in roles && !IsValidRole(bad.value)
    {
      for i := 0 to |roles|
        invariant forall j :: 0 <= j < i ==> IsValidRole(roles[j])
      {
        if !IsValidRole(roles[i]) {
          return Some(roles[i]);
        }
      }
      return None;
    }

    /** The retried insert. */
    method StoreRetrying(row: Row, attempts: seq<Attempt>) returns (ok: bool)
      modifies repo
      ensures (repo.rows, ok) == StoreAll(old(repo.rows), row, attempts)
    {
      ok := false;
      var i := 0;
      while i < |attempts| && !ok
        invariant 0 <= i <= |attempts|
        invariant ok ==> StoreAll(old(repo.rows), row, attempts) == (repo.rows, true)
        invariant !ok ==> StoreAll(old(repo.rows), row, attempts) == StoreAll(repo.rows, row, attempts[i..])
      {
        var a := attempts[i];
        assert attempts[i..][1..] == attempts[i + 1..];
        var r := repo.Store(row.(id := a.id), a.applied, a.acknowledged);
        ok := r.Success?;
        i := i + 1;
      }
    }

    method IssueTokens(ghost from: Option<string>, user: string, roles: seq<string>, signing: Signing,
                       attempts: seq<Attempt>) returns (r: Result<TokenPair, string>)
      modifies this, repo
      ensures (State(), r) == Grant(old(State()), from, user, roles, signing, attempts)
    {
      if signing.access.None? {
        return Failure("generate access");
      }
      var access := Claims(user, roles, signing.access.value);
      issued := issued + [Issue(access, Access)];
      if signing.refresh.None? {
        return Failure("generate refresh");
      }
      var refresh := Claims(user, roles, signing.refresh.value);
      issued := issued + [Issue(refresh, Refresh)];
      ghost var before := repo.rows;
      var ok := StoreRetrying(Row("", user, refresh.jti, refresh, None), attempts);
      if repo.rows != before {
        links := links + [Link(from, refresh.jti)];
      }
      r := if ok then Success(TokenPair(access, refresh)) else Failure("store refresh");
    }

    /** From the role check on; the user row is given. */
    method LogIn(user: User, signing: Signing, attempts: seq<Attempt>) returns (r: Result<TokenPair, string>)
      modifies this, repo
      ensures (State(), r) == LogInStep(old(State()), user, signing, attempts)
    {
      var bad := CheckRoles(user.roles);
      if bad.Some? {
        return Failure("user has invalid role");
      }
      r := IssueTokens(None, user.id, user.roles, signing, attempts);
    }

    /** claims is what the verifier made of the presented token; a failed revocation is only logged. */
    method RefreshTokens(claims: Option<Claims>, now: Time, revoked: bool, signing: Signing, attempts: seq<Attempt>)
        returns (r: Result<TokenPair, string>)
      modifies this, repo
      ensures (State(), r) == RefreshStep(old(State()), claims, now, revoked, signing, attempts)
    {
      if claims.None? {
        return Failure("invalid token");
      }
      var jti := claims.value.jti;
      var found := repo.FindByJTI(jti);
      if found.Failure? {
        return Failure("failed to lookup token");
      }
      if found.value.revokedAt.Some? {
        return Failure("refresh token already used or revoked");
      }
      var ignored := repo.RevokeByJTI(jti, now, revoked, revoked);
      consumed := consumed + [jti];
      r := IssueTokens(Some(jti), claims.value.user, claims.value.roles, signing, OwnId(signing, attempts));
    }

    method LogOut(jti: string, now: Time, applied: bool, acknowledged: bool) returns (r: Result<(), string>)
      requires acknowledged ==> applied
      modifies repo
      ensures State() == LogOutStep(old(State()), jti, now, applied)
      ensures r.Success? <==> old(Passes(State(), jti)) && acknowledged
    {
      var found := repo.FindByJTI(jti);
      if found.Failure? {
        return Failure("refresh token not found");
      }
      if found.value.revokedAt.Some? {
        return Failure("token already revoked");
      }
      r := repo.RevokeByJTI(jti, now, applied, acknowledged);
    }

    method Revoke(request: Option<RevokeRequest>, attempts: seq<RevokeAttempt>) returns (r: Result<(), string>)
      modifies repo
      ensures (State(), r) == RevokeStep(old(State()), request, attempts)
    {
      if request.None? || request.value.token == "" || request.value.kind != Refresh {
        return Failure("only refresh token revocation supported");
      }
      if request.value.jti.None? {
        return Failure("parse");
      }
      var jti := request.value.jti.value;
      var ok := false;
      var i := 0;
      while i < |attempts| && !ok
        invariant 0 <= i <= |attempts|
        invariant ok ==> RevokeAll(old(repo.rows), jti, attempts) == (repo.rows, true)
        invariant !ok ==> RevokeAll(old(repo.rows), jti, attempts) == RevokeAll(repo.rows, jti, attempts[i..])
      {
        var a := attempts[i];
        assert attempts[i..][1..] == attempts[i + 1..];
        var answer := repo.RevokeByJTI(jti, a.now, a.applied, a.applied && a.acknowledged);
        ok := answer.Success?;
        i := i + 1;
      }
      r := if ok then Success(()) else Failure("revoke failed");
    }
  }
}
