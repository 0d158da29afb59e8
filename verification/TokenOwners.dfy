/** Whose tokens they are: every token carries the user and the roles of the login that its chain
    started from. */
module TokenOwners {
  import opened Intervals
  import opened TokenChains
  import opened TokenOutcomes
  import opened Tokens
  import opened Wrappers

  /** One of the events is a login of this user with these roles, all valid, that drew this JTI for its
      refresh token. */
  ghost predicate StartedBy(es: seq<Event>, jti: string, user: string, roles: seq<string>) {
    && (exists k :: 0 <= k < |es| && es[k].LogIn? && es[k].signing.refresh == Some(jti)
                    && es[k].user == User(user, roles))
    && forall r :: r in roles ==> RoleOk(r)
  }

  /** Every stored token belongs to the login that its chain started from. */
  ghost predicate Rooted(s: AuthState, es: seq<Event>) {
    forall i :: 0 <= i < |s.rows| ==>
      StartedBy(es, Origin(s.links, s.rows[i].jti), s.rows[i].user, s.rows[i].token.roles)
  }

  lemma StartedLonger(es: seq<Event>, more: seq<Event>, jti: string, user: string, roles: seq<string>)
    requires StartedBy(es, jti, user, roles)
    ensures StartedBy(es + more, jti, user, roles)
  {
    hide RoleOk;
    var k :| 0 <= k < |es| && es[k].LogIn? && es[k].signing.refresh == Some(jti) && es[k].user == User(user, roles);
    assert (es + more)[k] == es[k];
  }

  lemma RootedLonger(s: AuthState, es: seq<Event>, more: seq<Event>)
    requires Rooted(s, es)
    ensures Rooted(s, es + more)
  {
    hide Origin, StartedBy;
    forall i | 0 <= i < |s.rows|
      ensures StartedBy(es + more, Origin(s.links, s.rows[i].jti), s.rows[i].user, s.rows[i].token.roles)
    {
      StartedLonger(es, more, Origin(s.links, s.rows[i].jti), s.rows[i].user, s.rows[i].token.roles);
    }
  }

  lemma RevokedRooted(s: AuthState, s': AuthState, es: seq<Event>)
    requires Rooted(s, es) && s'.links == s.links && |s'.rows| == |s.rows|
    requires forall i :: 0 <= i < |s.rows| ==> SameButRevoked(s.rows[i], s'.rows[i])
    ensures Rooted(s', es)
  {
    hide Origin, StartedBy;
    assert forall i :: 0 <= i < |s.rows| ==> SameButRevoked(s.rows[i], s'.rows[i]);
  }

  lemma KeepRooted(s: AuthState, from: Option<string>, claims: Claims, attempts: seq<Attempt>, es: seq<Event>)
    requires LinksOk(s) && !Stored(s, claims.jti) && Rooted(s, es)
    requires StartedBy(es, if from.Some? then Origin(s.links, from.value) else claims.jti, claims.user, claims.roles)
    ensures Rooted(Keep(s, from, claims, attempts).0, es)
  {
    hide Origin, Stored, StoreAll, LinksOk, StartedBy;
    var s' := Keep(s, from, claims, attempts).0;
    StoreAllAppends(s.rows, Row("", claims.user, claims.jti, claims, None), attempts);
    if s' != s {
      assert Extended(s, from, claims, s');
      ExtendedOrigins(s, from, claims, s');
    }
  }

  lemma ChainsLinks(s: AuthState)
    requires ChainsOk(s)
    ensures LinksOk(s)
  {
  }

  lemma GrantRooted(s: AuthState, from: Option<string>, user: string, roles: seq<string>, signing: Signing,
                    attempts: seq<Attempt>, es: seq<Event>)
    requires ChainsOk(s) && FreshSigning(s, signing) && Rooted(s, es)
    requires signing.refresh.Some? ==>
      StartedBy(es, if from.Some? then Origin(s.links, from.value) else signing.refresh.value, user, roles)
    ensures Rooted(Grant(s, from, user, roles, signing, attempts).0, es)
  {
    hide ChainsOk, Stored, Origin, Keep, StartedBy;
    if signing.access.Some? && signing.refresh.Some? {
      var access, refresh := Claims(user, roles, signing.access.value), Claims(user, roles, signing.refresh.value);
      var s2 := Sign(Sign(s, access, Access), refresh, Refresh);
      SignKeeps(s, access, Access);
      SignKeeps(Sign(s, access, Access), refresh, Refresh);
      RowsOfChains(s);
      UnissuedNotStored(s, refresh.jti);
      SameRows(s, s2);
      ChainsLinks(s2);
      KeepRooted(s2, from, refresh, attempts, es);
    }
  }

  lemma LogInRooted(s: AuthState, user: User, signing: Signing, attempts: seq<Attempt>, es: seq<Event>)
    requires ChainsOk(s) && FreshSigning(s, signing) && Rooted(s, es)
    ensures Rooted(LogInStep(s, user, signing, attempts).0, es + [LogIn(user, signing, attempts)])
  {
    hide ChainsOk, FreshSigning, Rooted, Grant, RolesValid, RoleOk;
    var es' := es + [LogIn(user, signing, attempts)];
    RootedLonger(s, es, [LogIn(user, signing, attempts)]);
    RolesAre(user.roles);
    if RolesValid(user.roles) {
      assert es'[|es|] == LogIn(user, signing, attempts);
      GrantRooted(s, None, user.id, user.roles, signing, attempts, es');
    }
  }

  /** The presented token of a refresh descends from a login of its user with its roles. */
  lemma PresentedStarted(s: AuthState, claims: Claims, kind: Kind, es: seq<Event>)
    requires ChainsOk(s) && Passes(s, claims.jti) && Issue(claims, kind) in s.issued && Rooted(s, es)
    ensures StartedBy(es, Origin(s.links, claims.jti), claims.user, claims.roles)
  {
    hide Passes, Origin, ChainsOk, StartedBy;
    var k := PresentedIsStored(s, claims, kind);
  }

  lemma RefreshRooted(s: AuthState, claims: Option<Claims>, now: Time, signing: Signing, attempts: seq<Attempt>,
                      es: seq<Event>)
    requires ChainsOk(s) && Rooted(s, es) && Sound(s, RefreshTokens(claims, now, true, signing, attempts))
    ensures Rooted(RefreshStep(s, claims, now, true, signing, attempts).0, es)
  {
    hide Origin, ChainsOk, StartedBy, Rooted, Grant, Revoked, FreshSigning, OwnId;
    if claims.Some? && Passes(s, claims.value.jti) {
      var jti := claims.value.jti;
      var kind :| Issue(claims.value, kind) in s.issued;
      var s1 := Consume(s, jti, now, true);
      PresentedStarted(s, claims.value, kind, es);
      ConsumeKeeps(s, claims.value, kind, now);
      assert forall i :: 0 <= i < |s.rows| ==> SameButRevoked(s.rows[i], s1.rows[i]);
      RevokedRooted(s, s1, es);
      SameSigning(s, s1, signing);
      GrantRooted(s1, Some(jti), claims.value.user, claims.value.roles, signing, OwnId(signing, attempts), es);
    }
  }

  lemma QuietRooted(s: AuthState, e: Event, es: seq<Event>)
    requires Rooted(s, es) && (e.LogOut? || e.Revoke?)
    ensures Rooted(Step(s, e), es + [e])
  {
    hide Rooted, Find, Revoked, RevokeAll;
    StepKeepsRows(s, e);
    if e.Revoke? {
      if Revocable(e.request) && e.request.value.jti.Some? {
        RevokeAllRows(s.rows, e.request.value.jti.value, e.tries);
      }
    }
    RevokedRooted(s, Step(s, e), es);
    RootedLonger(Step(s, e), es, [e]);
  }

  lemma StepRooted(s: AuthState, e: Event, es: seq<Event>)
    requires ChainsOk(s) && Rooted(s, es) && Sound(s, e)
    ensures Rooted(Step(s, e), es + [e])
  {
    hide ChainsOk, Rooted, LogInStep, RefreshStep, LogOutStep, RevokeStep, FreshSigning;
    match e
    case LogIn(user, signing, attempts) => LogInRooted(s, user, signing, attempts, es);
    case RefreshTokens(claims, now, revoked, signing, attempts) =>
      RefreshRooted(s, claims, now, signing, attempts, es);
      RootedLonger(Step(s, e), es, [e]);
    case LogOut(jti, now, applied) =>
      QuietRooted(s, e, es);
    case Revoke(request, attempts) =>
      QuietRooted(s, e, es);
  }

  lemma {:induction false} RunRooted(s: AuthState, before: seq<Event>, es: seq<Event>)
    requires ChainsOk(s) && Rooted(s, before) && SoundRun(s, es)
    ensures ChainsOk(Run(s, es)) && Rooted(Run(s, es), before + es)
    decreases |es|
  {
    hide ChainsOk, Rooted, Sound, Step;
    if es == [] {
      assert before + es == before;
    } else {
      StepKeepsChains(s, es[0]);
      StepRooted(s, es[0], before);
      RunRooted(Step(s, es[0]), before + [es[0]], es[1..]);
      assert before + [es[0]] + es[1..] == before + es;
    }
  }

  lemma StartOk()
    ensures ChainsOk(START) && Rooted(START, [])
  {
    hide Origin, Stored, StartedBy;
  }

  lemma FromStart(es: seq<Event>)
    requires SoundRun(START, es)
    ensures ChainsOk(Run(START, es)) && Rooted(Run(START, es), es)
  {
    hide ChainsOk, Rooted, SoundRun, Run;
    StartOk();
    assert [] + es == es;
    RunRooted(START, [], es);
  }

  lemma UsablePasses(s: AuthState, jti: string)
    ensures Passes(s, jti) <==> Usable(s.rows, jti)
  {
    hide Usable, Find;
    PassesIs(s.rows, jti);
  }

  /** In every run, each token that is signed, for access or for refresh, carries the user and the roles
      of the login that its chain started from, and only logins and refreshes sign tokens. */
  lemma SignedForOwner(es: seq<Event>, e: Event)
    requires SoundRun(START, es) && Sound(Run(START, es), e)
    ensures var s := Run(START, es);
      var s' := Step(s, e);
      && |s.issued| <= |s'.issued|
      && forall i :: |s.issued| <= i < |s'.issued| ==>
           var t := s'.issued[i].claims;
           match e
           case LogIn(user, _, _) => user == User(t.user, t.roles) && forall r :: r in t.roles ==> RoleOk(r)
           case RefreshTokens(claims, _, _, _, _) =>
             claims.Some? && StartedBy(es, Origin(s.links, claims.value.jti), t.user, t.roles)
           case _ => false
  {
    hide Run, SoundRun, ChainsOk, Rooted, RevokeStep, RefreshStep, LogInStep, LogOutStep, Origin, StartedBy, RoleOk,
      Usable, FreshSigning, Passes, Find;
    FromStart(es);
    var s := Run(START, es);
    match e
    case LogIn(user, signing, attempts) => LogInOutcome(s, user, signing, attempts);
    case RefreshTokens(claims, now, revoked, signing, attempts) =>
      RefreshOutcome(s, claims, now, revoked, signing, attempts);
      if Refreshable(s, claims) {
        var kind :| Issue(claims.value, kind) in s.issued;
        UsablePasses(s, claims.value.jti);
        PresentedStarted(s, claims.value, kind, es);
      }
    case LogOut(jti, now, applied) => LogOutOutcome(s, jti, now, applied);
    case Revoke(request, attempts) => RevokeOutcome(s, request, attempts);
  }
}
