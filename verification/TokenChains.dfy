/** What every run of the token handlers keeps: chains of refresh tokens. */
module TokenChains {
  import opened Intervals
  import opened Tokens
  import opened Wrappers

  // --- chains ------------------------------------------------------------------------------------

  ghost predicate Stored(s: AuthState, jti: string) {
    exists i :: 0 <= i < |s.rows| && s.rows[i].jti == jti
  }

  /** The login that a token descends from, named by the JTI of its first token. */
  function Origin(links: seq<Link>, jti: string): string
    decreases |links|
  {
    if links == [] then jti else
      var l := links[|links| - 1];
      if l.to == jti && l.from.Some? then Origin(links[..|links| - 1], l.from.value)
      else Origin(links[..|links| - 1], jti)
  }

  /** Two rows of the same chain. */
  ghost predicate SameChain(s: AuthState, a: Row, b: Row) {
    Origin(s.links, a.jti) == Origin(s.links, b.jti)
  }

  // --- the invariant -----------------------------------------------------------------------------

  /** No JTI is issued twice. */
  ghost predicate Unrepeated(s: AuthState) {
    forall i, j :: 0 <= i < j < |s.issued| ==> s.issued[i].claims.jti != s.issued[j].claims.jti
  }

  /** Every row holds a refresh token that was issued; copies of a row are revoked together. */
  ghost predicate RowsOk(s: AuthState) {
    && (forall i :: 0 <= i < |s.rows| ==> RowOk(s.rows[i], s.issued))
    && forall i, j :: 0 <= i < |s.rows| && 0 <= j < |s.rows| && s.rows[i].jti == s.rows[j].jti
         ==> s.rows[i].revokedAt.Some? == s.rows[j].revokedAt.Some?
  }

  predicate RowOk(r: Row, issued: seq<Issue>) {
    Issue(r.token, Refresh) in issued && r.jti == r.token.jti && r.user == r.token.user
  }

  /** The links tell where each stored token came from; no token has two successors. */
  ghost predicate LinksOk(s: AuthState) {
    && (forall l :: l in s.links ==> Stored(s, l.to))
    && (forall l :: l in s.links && l.from.Some? ==> l.from.value in s.consumed)
    && (forall i :: 0 <= i < |s.rows| ==> Stored(s, Origin(s.links, s.rows[i].jti)))
    && forall i, j :: 0 <= i < j < |s.links| && s.links[i].from.Some? ==> s.links[i].from != s.links[j].from
  }

  /** A JTI passes the reuse check once, and is revoked from then on. */
  ghost predicate ConsumedOk(s: AuthState) {
    && (forall i, j :: 0 <= i < j < |s.consumed| ==> s.consumed[i] != s.consumed[j])
    && (forall c :: c in s.consumed ==> Stored(s, c))
    && forall i :: 0 <= i < |s.rows| && s.rows[i].jti in s.consumed ==> s.rows[i].revokedAt.Some?
  }

  /** At most one token of a chain is not revoked. */
  ghost predicate OneLive(s: AuthState) {
    forall i, j :: 0 <= i < |s.rows| && 0 <= j < |s.rows| && SameChain(s, s.rows[i], s.rows[j]) ==>
      s.rows[i].revokedAt.Some? || s.rows[j].revokedAt.Some? || s.rows[i].jti == s.rows[j].jti
  }

  /** User and roles are the same along a chain. */
  ghost predicate SameOwner(s: AuthState) {
    forall i, j :: 0 <= i < |s.rows| && 0 <= j < |s.rows| && SameChain(s, s.rows[i], s.rows[j])
      ==> s.rows[i].user == s.rows[j].user && s.rows[i].token.roles == s.rows[j].token.roles
  }

  ghost predicate ChainsOk(s: AuthState) {
    Unrepeated(s) && RowsOk(s) && LinksOk(s) && ConsumedOk(s) && OneLive(s) && SameOwner(s)
  }

  // --- runs --------------------------------------------------------------------------------------

  datatype Event =
    | LogIn(user: User, signing: Signing, attempts: seq<Attempt>)
    | RefreshTokens(claims: Option<Claims>, now: Time, revoked: bool, signing: Signing, attempts: seq<Attempt>)
    | LogOut(jti: string, now: Time, applied: bool)
    | Revoke(request: Option<RevokeRequest>, tries: seq<RevokeAttempt>)

  function Step(s: AuthState, e: Event): AuthState {
    match e
    case LogIn(user, signing, attempts) => LogInStep(s, user, signing, attempts).0
    case RefreshTokens(claims, now, revoked, signing, attempts) =>
      RefreshStep(s, claims, now, revoked, signing, attempts).0
    case LogOut(jti, now, applied) => LogOutStep(s, jti, now, applied)
    case Revoke(request, attempts) => RevokeStep(s, request, attempts).0
  }

  function Run(s: AuthState, es: seq<Event>): AuthState
    decreases |es|
  {
    if es == [] then s else Run(Step(s, es[0]), es[1..])
  }

  ghost predicate Unissued(s: AuthState, jti: string) {
    forall i :: i in s.issued ==> i.claims.jti != jti
  }

  /** The JTIs drawn are new. */
  ghost predicate FreshSigning(s: AuthState, signing: Signing) {
    && (signing.access.Some? ==> Unissued(s, signing.access.value))
    && (signing.refresh.Some? ==> Unissued(s, signing.refresh.value))
    && (signing.access.Some? && signing.refresh.Some? ==> signing.access != signing.refresh)
  }

  /** What is asked of an event: JTIs are new, a verified token was signed here, and the revocation
      inside a refresh is applied. */
  ghost predicate Sound(s: AuthState, e: Event) {
    match e
    case LogIn(_, signing, _) => FreshSigning(s, signing)
    case RefreshTokens(claims, _, revoked, signing, _) =>
      && FreshSigning(s, signing) && revoked
      && (claims.Some? ==> exists k :: Issue(claims.value, k) in s.issued)
    case LogOut(_, _, _) => true
    case Revoke(_, _) => true
  }

  ghost predicate SoundRun(s: AuthState, es: seq<Event>)
    decreases |es|
  {
    es == [] || (Sound(s, es[0]) && SoundRun(Step(s, es[0]), es[1..]))
  }

  // --- revocation and consumption ----------------------------------------------------------------

  lemma RevokeKeeps(s: AuthState, jti: string, now: Time)
    requires ChainsOk(s)
    ensures ChainsOk(s.(rows := Revoked(s.rows, jti, now)))
  {
    hide Revoked, Origin, Stored;
    var s' := s.(rows := Revoked(s.rows, jti, now));
    StoredStays(s, s');
    assert forall i :: 0 <= i < |s.rows| ==> SameButRevoked(s.rows[i], s'.rows[i]);
  }

  lemma {:induction false} RevokeAllKeeps(s: AuthState, jti: string, attempts: seq<RevokeAttempt>)
    requires ChainsOk(s)
    ensures ChainsOk(s.(rows := RevokeAll(s.rows, jti, attempts).0))
    decreases |attempts|
  {
    hide ChainsOk, Revoked;
    if attempts != [] {
      var a := attempts[0];
      var s' := s.(rows := if a.applied then Revoked(s.rows, jti, a.now) else s.rows);
      RevokeKeeps(s, jti, a.now);
      assert s.(rows := s.rows) == s;
      RevokeAllKeeps(s', jti, attempts[1..]);
    } else {
      assert s.(rows := s.rows) == s;
    }
  }

  lemma {:induction false} RevokeAllRows(rows: seq<Row>, jti: string, attempts: seq<RevokeAttempt>)
    ensures |RevokeAll(rows, jti, attempts).0| == |rows|
    ensures forall i :: 0 <= i < |rows| ==> SameButRevoked(rows[i], RevokeAll(rows, jti, attempts).0[i])
    decreases |attempts|
  {
    if attempts == [] {
    } else {
      var a := attempts[0];
      var rows' := if a.applied then Revoked(rows, jti, a.now) else rows;
      assert forall i :: 0 <= i < |rows| ==> SameButRevoked(rows[i], rows'[i]);
      RevokeAllRows(rows', jti, attempts[1..]);
    }
  }

  ghost predicate SameButRevoked(a: Row, b: Row) {
    b == a.(revokedAt := b.revokedAt) && (a.revokedAt.Some? ==> b.revokedAt.Some?)
  }

  lemma StoredStays(s: AuthState, s': AuthState)
    requires |s.rows| <= |s'.rows| && forall i :: 0 <= i < |s.rows| ==> s'.rows[i].jti == s.rows[i].jti
    ensures forall j :: Stored(s, j) ==> Stored(s', j)
  {
    forall j | Stored(s, j) ensures Stored(s', j) {
      var i :| 0 <= i < |s.rows| && s.rows[i].jti == j;
      assert s'.rows[i].jti == j;
    }
  }

  /** Can a token that replaces `from` be stored: nothing in the chain of `from` is live, nothing else
      replaced it, and the owner is the owner of the chain. */
  ghost predicate Ready(s: AuthState, from: Option<string>, user: string, roles: seq<string>) {
    from.Some? ==>
      && from.value in s.consumed && Stored(s, Origin(s.links, from.value))
      && (forall l :: l in s.links ==> l.from != from)
      && forall i :: 0 <= i < |s.rows| && Origin(s.links, s.rows[i].jti) == Origin(s.links, from.value) ==>
           s.rows[i].revokedAt.Some? && s.rows[i].user == user && s.rows[i].token.roles == roles
  }

  lemma IssuedOnce(s: AuthState, a: Issue, b: Issue)
    requires Unrepeated(s) && a in s.issued && b in s.issued && a.claims.jti == b.claims.jti
    ensures a == b
  {
    var i :| 0 <= i < |s.issued| && s.issued[i] == a;
    var j :| 0 <= j < |s.issued| && s.issued[j] == b;
  }

  /** A presented token that passes the check is the one that is stored, and is not revoked. */
  lemma PresentedIsStored(s: AuthState, claims: Claims, kind: Kind) returns (k: nat)
    requires ChainsOk(s) && Passes(s, claims.jti) && Issue(claims, kind) in s.issued
    ensures k < |s.rows| && s.rows[k].token == claims && s.rows[k].user == claims.user
    ensures s.rows[k].jti == claims.jti && s.rows[k].revokedAt.None? && claims.jti !in s.consumed
    ensures forall i :: 0 <= i < |s.rows| && SameChain(s, s.rows[i], s.rows[k]) ==>
      && s.rows[i].user == claims.user && s.rows[i].token.roles == claims.roles
      && (s.rows[i].revokedAt.Some? || s.rows[i].jti == claims.jti)
  {
    hide Find, Origin, Stored;
    var row := Find(s.rows, claims.jti).value;
    k :| 0 <= k < |s.rows| && s.rows[k] == row;
    assert RowOk(s.rows[k], s.issued);
    IssuedOnce(s, Issue(claims, kind), Issue(row.token, Refresh));
  }

  /** Consuming it leaves its chain dead until the successor is stored. */
  lemma ConsumeKeeps(s: AuthState, claims: Claims, kind: Kind, now: Time)
    requires ChainsOk(s) && Passes(s, claims.jti) && Issue(claims, kind) in s.issued
    ensures var s' := Consume(s, claims.jti, now, true);
      ChainsOk(s') && Ready(s', Some(claims.jti), claims.user, claims.roles)
  {
    hide Passes, Origin, Stored, ChainsOk, Consume, Ready;
    var k := PresentedIsStored(s, claims, kind);
    var s1, s' := s.(rows := Revoked(s.rows, claims.jti, now)), Consume(s, claims.jti, now, true);
    RevokeKeeps(s, claims.jti, now);
    ConsumeChains(s, k, now, s1);
    LinksOfChains(s1, k);
    ConsumeReady(s, claims, k, now);
  }

  lemma ConsumeChains(s: AuthState, k: nat, now: Time, s1: AuthState)
    requires k < |s.rows| && s1 == s.(rows := Revoked(s.rows, s.rows[k].jti, now)) && ChainsOk(s1)
    requires s.rows[k].jti !in s.consumed
    ensures ChainsOk(Consume(s, s.rows[k].jti, now, true))
  {
    hide Origin, Stored, ChainsOk;
    RowIsStored(s1, k);
    ConsumedStays(s1, Consume(s, s.rows[k].jti, now, true), s.rows[k].jti);
  }

  lemma ConsumeReady(s: AuthState, claims: Claims, k: nat, now: Time)
    requires k < |s.rows| && s.rows[k].jti == claims.jti && claims.jti !in s.consumed
    requires forall l :: l in s.links && l.from.Some? ==> l.from.value in s.consumed
    requires Stored(s.(rows := Revoked(s.rows, claims.jti, now)), Origin(s.links, claims.jti))
    requires forall i :: 0 <= i < |s.rows| && SameChain(s, s.rows[i], s.rows[k]) ==>
      && s.rows[i].user == claims.user && s.rows[i].token.roles == claims.roles
      && (s.rows[i].revokedAt.Some? || s.rows[i].jti == claims.jti)
    ensures Ready(Consume(s, claims.jti, now, true), Some(claims.jti), claims.user, claims.roles)
  {
    hide Origin, Stored;
    var s' := Consume(s, claims.jti, now, true);
    SameRows(s.(rows := s'.rows), s');
    forall i | 0 <= i < |s'.rows| && Origin(s'.links, s'.rows[i].jti) == Origin(s'.links, claims.jti)
      ensures s'.rows[i].revokedAt.Some? && s'.rows[i].user == claims.user && s'.rows[i].token.roles == claims.roles
    {
      assert SameChain(s, s.rows[i], s.rows[k]);
    }
  }

  lemma RowIsStored(s: AuthState, k: nat)
    requires k < |s.rows|
    ensures Stored(s, s.rows[k].jti)
  {
  }

  lemma LinksOfChains(s: AuthState, k: nat)
    requires ChainsOk(s) && k < |s.rows|
    ensures forall l :: l in s.links && l.from.Some? ==> l.from.value in s.consumed
    ensures Stored(s, Origin(s.links, s.rows[k].jti))
  {
    hide Stored, Origin;
  }

  lemma ConsumedStays(s1: AuthState, s': AuthState, jti: string)
    requires ChainsOk(s1) && s' == s1.(consumed := s1.consumed + [jti]) && jti !in s1.consumed
    requires Stored(s1, jti)
    requires forall i :: 0 <= i < |s1.rows| && s1.rows[i].jti == jti ==> s1.rows[i].revokedAt.Some?
    ensures ChainsOk(s')
  {
    hide Origin, Stored;
    StoredStays(s1, s');
  }

  lemma SignKeeps(s: AuthState, claims: Claims, kind: Kind)
    requires ChainsOk(s) && Unissued(s, claims.jti)
    ensures ChainsOk(Sign(s, claims, kind))
  {
    hide Origin, Stored;
    var s' := Sign(s, claims, kind);
    StoredStays(s, s');
    assert forall i :: 0 <= i < |s.issued| ==> s.issued[i] in s.issued;
  }

  lemma UnissuedNotStored(s: AuthState, jti: string)
    requires RowsOk(s) && Unissued(s, jti)
    ensures !Stored(s, jti)
  {
    assert forall i :: 0 <= i < |s.rows| ==> RowOk(s.rows[i], s.issued);
  }

  // --- storing the successor ---------------------------------------------------------------------

  /** The retried insert appends copies of the row, and nothing if no attempt is applied. */
  lemma {:induction false} StoreAllAppends(rows: seq<Row>, row: Row, attempts: seq<Attempt>)
    ensures var rows' := StoreAll(rows, row, attempts).0;
      && |rows| <= |rows'| && (rows' == rows <==> |rows'| == |rows|)
      && (forall i :: 0 <= i < |rows| ==> rows'[i] == rows[i])
      && forall i :: |rows| <= i < |rows'| ==> rows'[i] == row.(id := rows'[i].id)
    decreases |attempts|
  {
    hide HasId;
    if attempts == [] {
    } else {
      var a := attempts[0];
      if a.applied && !HasId(rows, a.id) {
        StoreAllAppends(rows + [row.(id := a.id)], row, attempts[1..]);
      } else {
        StoreAllAppends(rows, row, attempts[1..]);
      }
    }
  }

  lemma {:induction false} OriginOfNew(links: seq<Link>, jti: string)
    requires forall l :: l in links ==> l.to != jti
    ensures Origin(links, jti) == jti
    decreases |links|
  {
    if links == [] {
    } else {
      OriginOfNew(links[..|links| - 1], jti);
    }
  }

  lemma OriginSnoc(links: seq<Link>, from: Option<string>, jti: string, other: string)
    requires forall l :: l in links ==> l.to != jti
    ensures Origin(links + [Link(from, jti)], other)
         == if other == jti && from.Some? then Origin(links, from.value) else Origin(links, other)
  {
    assert (links + [Link(from, jti)])[..|links|] == links;
  }

  /** The state after a successor was stored, without saying how often. */
  ghost predicate Extended(s: AuthState, from: Option<string>, claims: Claims, s': AuthState) {
    && s' == s.(rows := s'.rows, links := s.links + [Link(from, claims.jti)])
    && |s.rows| < |s'.rows|
    && (forall i :: 0 <= i < |s.rows| ==> s'.rows[i] == s.rows[i])
    && forall i :: |s.rows| <= i < |s'.rows| ==>
         s'.rows[i] == Row(s'.rows[i].id, claims.user, claims.jti, claims, None)
  }

  lemma NotStored(s: AuthState, jti: string)
    requires !Stored(s, jti)
    ensures forall i :: 0 <= i < |s.rows| ==> s.rows[i].jti != jti
  {
  }

  lemma ExtendedStored(s: AuthState, from: Option<string>, claims: Claims, s': AuthState)
    requires Extended(s, from, claims, s')
    ensures Stored(s', claims.jti) && forall j :: Stored(s, j) ==> Stored(s', j)
  {
    StoredStays(s, s');
    assert s'.rows[|s.rows|].jti == claims.jti;
  }

  /** What the origins are after a successor was stored. */
  lemma ExtendedOrigins(s: AuthState, from: Option<string>, claims: Claims, s': AuthState)
    requires LinksOk(s) && !Stored(s, claims.jti) && Extended(s, from, claims, s')
    ensures forall i :: 0 <= i < |s.rows| ==> Origin(s'.links, s'.rows[i].jti) == Origin(s.links, s.rows[i].jti)
    ensures forall i :: |s.rows| <= i < |s'.rows| ==>
      Origin(s'.links, s'.rows[i].jti)
      == if from.Some? then Origin(s.links, from.value) else claims.jti
  {
    hide Origin, Stored;
    assert forall l :: l in s.links ==> l.to != claims.jti;
    NotStored(s, claims.jti);
    OriginOfNew(s.links, claims.jti);
    hide LinksOk;
    forall i | 0 <= i < |s'.rows|
      ensures Origin(s'.links, s'.rows[i].jti)
           == if s'.rows[i].jti == claims.jti && from.Some? then Origin(s.links, from.value)
              else Origin(s.links, s'.rows[i].jti)
    {
      OriginSnoc(s.links, from, claims.jti, s'.rows[i].jti);
    }
  }

  lemma ExtendedLinks(s: AuthState, from: Option<string>, claims: Claims, s': AuthState)
    requires LinksOk(s) && !Stored(s, claims.jti) && Extended(s, from, claims, s')
    requires Ready(s, from, claims.user, claims.roles)
    ensures LinksOk(s')
  {
    hide Origin, Stored;
    ExtendedOrigins(s, from, claims, s');
    ExtendedStored(s, from, claims, s');
    var l := Link(from, claims.jti);
    assert forall i :: 0 <= i < |s.links| ==> s'.links[i] == s.links[i] && s.links[i] in s.links;
    assert s'.links[|s.links|] == l;
    assert forall x :: x in s'.links ==> x in s.links || x == l;
  }

  lemma ExtendedRows(s: AuthState, from: Option<string>, claims: Claims, s': AuthState)
    requires RowsOk(s) && ConsumedOk(s) && !Stored(s, claims.jti) && Extended(s, from, claims, s')
    requires Issue(claims, Refresh) in s.issued && claims.jti !in s.consumed
    ensures RowsOk(s') && ConsumedOk(s')
  {
    hide Stored;
    NotStored(s, claims.jti);
    ExtendedStored(s, from, claims, s');
    assert forall i :: 0 <= i < |s'.rows| ==> RowOk(s'.rows[i], s.issued);
  }

  lemma ExtendedChains(s: AuthState, from: Option<string>, claims: Claims, s': AuthState)
    requires LinksOk(s) && OneLive(s) && SameOwner(s) && !Stored(s, claims.jti) && Extended(s, from, claims, s')
    requires Ready(s, from, claims.user, claims.roles)
    ensures OneLive(s') && SameOwner(s')
  {
    hide Origin, Stored;
    ExtendedOrigins(s, from, claims, s');
    assert forall i :: 0 <= i < |s.rows| ==> Origin(s.links, s.rows[i].jti) != claims.jti;
    hide LinksOk;
    forall i, j | 0 <= i < |s'.rows| && 0 <= j < |s'.rows| && SameChain(s', s'.rows[i], s'.rows[j])
      ensures s'.rows[i].user == s'.rows[j].user && s'.rows[i].token.roles == s'.rows[j].token.roles
      ensures s'.rows[i].revokedAt.Some? || s'.rows[j].revokedAt.Some? || s'.rows[i].jti == s'.rows[j].jti
    {
      if i < |s.rows| && j < |s.rows| {
        assert SameChain(s, s.rows[i], s.rows[j]);
      }
    }
  }

  lemma KeepKeeps(s: AuthState, from: Option<string>, claims: Claims, attempts: seq<Attempt>)
    requires ChainsOk(s) && !Stored(s, claims.jti) && Issue(claims, Refresh) in s.issued
    requires Ready(s, from, claims.user, claims.roles)
    ensures ChainsOk(Keep(s, from, claims, attempts).0)
  {
    hide Origin, Stored, StoreAll;
    var s' := Keep(s, from, claims, attempts).0;
    StoreAllAppends(s.rows, Row("", claims.user, claims.jti, claims, None), attempts);
    if s' != s {
      assert Extended(s, from, claims, s');
      hide Extended, RowsOk, ConsumedOk, OneLive, SameOwner, Unrepeated;
      assert claims.jti !in s.consumed by {
        FreshNotConsumed(s, claims.jti);
      }
      ExtendedRows(s, from, claims, s');
      ExtendedLinks(s, from, claims, s');
      ExtendedChains(s, from, claims, s');
      SameIssues(s, from, claims, s');
    }
  }

  lemma FreshNotConsumed(s: AuthState, jti: string)
    requires ConsumedOk(s) && !Stored(s, jti)
    ensures jti !in s.consumed
  {
  }

  lemma SameIssues(s: AuthState, from: Option<string>, claims: Claims, s': AuthState)
    requires Unrepeated(s) && Extended(s, from, claims, s')
    ensures Unrepeated(s')
  {
  }

  lemma GrantKeeps(s: AuthState, from: Option<string>, user: string, roles: seq<string>, signing: Signing,
                   attempts: seq<Attempt>)
    requires ChainsOk(s) && FreshSigning(s, signing) && Ready(s, from, user, roles)
    ensures ChainsOk(Grant(s, from, user, roles, signing, attempts).0)
  {
    hide ChainsOk, Stored, Origin, Keep, OwnId;
    if signing.access.Some? {
      var access := Claims(user, roles, signing.access.value);
      var s1 := Sign(s, access, Access);
      SignKeeps(s, access, Access);
      if signing.refresh.Some? {
        var refresh := Claims(user, roles, signing.refresh.value);
        SignKeeps(s1, refresh, Refresh);
        assert !Stored(s, refresh.jti) by {
          RowsOfChains(s);
          UnissuedNotStored(s, refresh.jti);
        }
        var s2 := Sign(s1, refresh, Refresh);
        SameRows(s, s2);
        KeepKeeps(s2, from, refresh, attempts);
      }
    }
  }

  lemma RowsOfChains(s: AuthState)
    requires ChainsOk(s)
    ensures RowsOk(s)
  {
  }

  lemma SameRows(s: AuthState, s': AuthState)
    requires s'.rows == s.rows
    ensures forall j :: Stored(s', j) == Stored(s, j)
  {
  }

  /** Every event keeps the chains. */
  lemma StepKeepsChains(s: AuthState, e: Event)
    requires ChainsOk(s) && Sound(s, e)
    ensures ChainsOk(Step(s, e))
  {
    hide ChainsOk, Stored, Origin, Grant, Revoked, FreshSigning, OwnId;
    match e
    case LogIn(user, signing, attempts) =>
      GrantKeeps(s, None, user.id, user.roles, signing, attempts);
    case RefreshTokens(claims, now, revoked, signing, attempts) =>
      if claims.Some? && Passes(s, claims.value.jti) {
        var k :| Issue(claims.value, k) in s.issued;
        ConsumeKeeps(s, claims.value, k, now);
        var s1 := Consume(s, claims.value.jti, now, true);
        SameSigning(s, s1, signing);
        GrantKeeps(s1, Some(claims.value.jti), claims.value.user, claims.value.roles, signing,
                   OwnId(signing, attempts));
      }
    case LogOut(jti, now, applied) => RevokeKeeps(s, jti, now);
    case Revoke(request, attempts) =>
      if Revocable(request) && request.value.jti.Some? {
        RevokeAllKeeps(s, request.value.jti.value, attempts);
      }
  }

  lemma SameSigning(s: AuthState, s': AuthState, signing: Signing)
    requires FreshSigning(s, signing) && s'.issued == s.issued
    ensures FreshSigning(s', signing)
  {
  }

  lemma {:induction false} RunKeepsChains(s: AuthState, es: seq<Event>)
    requires ChainsOk(s) && SoundRun(s, es)
    ensures ChainsOk(Run(s, es))
    decreases |es|
  {
    hide ChainsOk, Sound, Step;
    if es == [] {
    } else {
      StepKeepsChains(s, es[0]);
      RunKeepsChains(Step(s, es[0]), es[1..]);
    }
  }

  // --- what every run guarantees -----------------------------------------------------------------

  /** From an empty table, in every run with new JTIs, genuine tokens and applied revocations: no token
      is refreshed twice, none has two successors, at most one token of each login's chain is not
      revoked, and a chain never changes its user or roles. */
  lemma ChainSafety(es: seq<Event>)
    requires SoundRun(START, es)
    ensures var s := Run(START, es);
      && (forall i, j :: 0 <= i < j < |s.consumed| ==> s.consumed[i] != s.consumed[j])
      && (forall i, j :: 0 <= i < j < |s.links| && s.links[i].from.Some? ==> s.links[i].from != s.links[j].from)
      && OneLive(s) && SameOwner(s)
  {
    hide Stored, Origin, SameChain, RowOk;
    RunKeepsChains(START, es);
  }

  lemma GrantKeepsRows(s: AuthState, from: Option<string>, user: string, roles: seq<string>, signing: Signing,
                       attempts: seq<Attempt>)
    ensures var s' := Grant(s, from, user, roles, signing, attempts).0;
      |s.rows| <= |s'.rows| && forall i :: 0 <= i < |s.rows| ==> s'.rows[i] == s.rows[i]
  {
    hide StoreAll;
    if signing.access.Some? && signing.refresh.Some? {
      var refresh := Claims(user, roles, signing.refresh.value);
      StoreAllAppends(s.rows, Row("", user, refresh.jti, refresh, None), attempts);
    }
  }

  lemma StepKeepsRows(s: AuthState, e: Event)
    ensures |s.rows| <= |Step(s, e).rows|
    ensures forall i :: 0 <= i < |s.rows| ==> SameButRevoked(s.rows[i], Step(s, e).rows[i])
  {
    hide Grant, OwnId, RolesValid, Find;
    match e
    case LogIn(user, signing, attempts) =>
      GrantKeepsRows(s, None, user.id, user.roles, signing, attempts);
    case RefreshTokens(claims, now, revoked, signing, attempts) =>
      if claims.Some? && Passes(s, claims.value.jti) {
        GrantKeepsRows(Consume(s, claims.value.jti, now, revoked), Some(claims.value.jti), claims.value.user,
                       claims.value.roles, signing, OwnId(signing, attempts));
      }
    case LogOut(jti, now, applied) =>
    case Revoke(request, attempts) =>
      if Revocable(request) && request.value.jti.Some? {
        RevokeAllRows(s.rows, request.value.jti.value, attempts);
      }
  }

  /** Whatever happens afterwards, a row stays and a revocation is never undone. */
  lemma {:induction false} RevocationIsFinal(s: AuthState, es: seq<Event>)
    ensures |s.rows| <= |Run(s, es).rows|
    ensures forall i :: 0 <= i < |s.rows| ==> SameButRevoked(s.rows[i], Run(s, es).rows[i])
    decreases |es|
  {
    hide Step;
    if es == [] {
    } else {
      StepKeepsRows(s, es[0]);
      RevocationIsFinal(Step(s, es[0]), es[1..]);
    }
  }

  lemma {:induction false} FindKept(rows: seq<Row>, rows': seq<Row>, jti: string)
    requires |rows| <= |rows'| && forall i :: 0 <= i < |rows| ==> rows'[i] == rows[i]
    ensures Find(rows, jti).Some? ==> Find(rows', jti) == Find(rows, jti)
  {
    if rows == [] {
    } else {
      FindKept(rows[1..], rows'[1..], jti);
    }
  }

  lemma {:induction false} FindRevoked(rows: seq<Row>, jti: string, now: Time)
    requires Find(rows, jti).Some?
    ensures Find(Revoked(rows, jti, now), jti) == Some(Find(rows, jti).value.(revokedAt := Some(now)))
  {
    if rows[0].jti != jti {
      FindRevoked(rows[1..], jti, now);
      assert Revoked(rows, jti, now)[1..] == Revoked(rows[1..], jti, now);
    }
  }

  /** A token that was refreshed can be refreshed again exactly if its revocation was not applied. */
  lemma RefreshAgain(s: AuthState, claims: Claims, now: Time, revoked: bool, signing: Signing, attempts: seq<Attempt>)
    requires Passes(s, claims.jti)
    ensures Passes(RefreshStep(s, Some(claims), now, revoked, signing, attempts).0, claims.jti) <==> !revoked
  {
    hide Find, Grant, OwnId, Revoked;
    var s1 := Consume(s, claims.jti, now, revoked);
    FindRevoked(s.rows, claims.jti, now);
    GrantKeepsRows(s1, Some(claims.jti), claims.user, claims.roles, signing, OwnId(signing, attempts));
    FindKept(s1.rows, RefreshStep(s, Some(claims), now, revoked, signing, attempts).0.rows, claims.jti);
  }

  /** Access and refresh tokens carry the same claims, but only the latter are ever accepted here. */
  lemma AccessNeverPasses(s: AuthState, claims: Claims)
    requires ChainsOk(s) && Issue(claims, Access) in s.issued
    ensures !Passes(s, claims.jti)
  {
    hide Origin, Stored;
    var r := Find(s.rows, claims.jti);
    if r.Some? {
      var k :| 0 <= k < |s.rows| && s.rows[k] == r.value;
      assert RowOk(s.rows[k], s.issued);
      IssuedOnce(s, Issue(claims, Access), Issue(r.value.token, Refresh));
    }
  }

  lemma {:induction false} StoreAllStores(rows: seq<Row>, row: Row, attempts: seq<Attempt>)
    requires StoreAll(rows, row, attempts).1
    ensures |rows| < |StoreAll(rows, row, attempts).0|
    decreases |attempts|
  {
    hide HasId;
    var a := attempts[0];
    if a.applied && !HasId(rows, a.id) {
      StoreAllAppends(rows + [row.(id := a.id)], row, attempts[1..]);
    } else {
      StoreAllStores(rows, row, attempts[1..]);
    }
  }

  /** A refresh token that was handed out can be used, and names its owner. */
  lemma GrantedPasses(s: AuthState, from: Option<string>, user: string, roles: seq<string>, signing: Signing,
                      attempts: seq<Attempt>)
    requires RowsOk(s) && FreshSigning(s, signing)
    requires Grant(s, from, user, roles, signing, attempts).1.Success?
    ensures var (s', r) := Grant(s, from, user, roles, signing, attempts);
      Passes(s', r.value.refresh.jti) && r.value.refresh.user == user && r.value.refresh.roles == roles
      && Issue(r.value.refresh, Refresh) in s'.issued && Issue(r.value.access, Access) in s'.issued
  {
    hide StoreAll, Find, RowsOk;
    var refresh := Claims(user, roles, signing.refresh.value);
    var row := Row("", user, refresh.jti, refresh, None);
    var s' := Grant(s, from, user, roles, signing, attempts).0;
    StoreAllAppends(s.rows, row, attempts);
    StoreAllStores(s.rows, row, attempts);
    UnissuedNotStored(s, refresh.jti);
    NotStored(s, refresh.jti);
    var r := Find(s'.rows, refresh.jti);
    assert s'.rows[|s.rows|] in s'.rows;
    var k :| 0 <= k < |s'.rows| && s'.rows[k] == r.value;
    assert k >= |s.rows|;
  }
}
