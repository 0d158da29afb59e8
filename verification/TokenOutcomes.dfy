/** What each call of the token handlers does, spelled out: who gets which tokens, which rows change,
    and when a call succeeds. */
module TokenOutcomes {
  import opened Intervals
  import opened TokenChains
  import opened Tokens
  import opened Wrappers

  // --- roles -------------------------------------------------------------------------------------

  /** Is r the word w up to the case of its letters; a dotted capital I counts as an i. */
  predicate Spells(r: string, w: string) {
    && |r| == |w|
    && forall i :: 0 <= i < |r| ==>
         r[i] == w[i] || r[i] as int + 32 == w[i] as int || (w[i] == 'i' && r[i] == '\U{0130}')
  }

  /** The valid roles are admin, user and viewer. */
  predicate RoleOk(r: string) {
    Spells(r, "admin") || Spells(r, "user") || Spells(r, "viewer")
  }

  lemma SpellsLower(r: string, w: string)
    requires forall c :: c in w ==> 'a' <= c <= 'z'
    ensures Spells(r, w) <==> LowerAll(r) == w
  {
    var l := LowerAll(r);
    hide LowerAll;
    forall i | 0 <= i < |r| && |r| == |w|
      ensures l[i] == w[i] <==>
              r[i] == w[i] || r[i] as int + 32 == w[i] as int || (w[i] == 'i' && r[i] == '\U{0130}')
    {
      assert w[i] in w && l[i] == Lower(r[i]);
    }
  }

  lemma RoleNames(r: string)
    ensures IsValidRole(r) <==> RoleOk(r)
  {
    hide LowerAll, Spells;
    SpellsLower(r, "admin");
    SpellsLower(r, "user");
    SpellsLower(r, "viewer");
  }

  lemma RolesAre(roles: seq<string>)
    ensures RolesValid(roles) <==> forall r :: r in roles ==> RoleOk(r)
  {
    hide IsValidRole, RoleOk;
    forall r | r in roles
      ensures IsValidRole(r) <==> RoleOk(r)
    {
      RoleNames(r);
    }
  }

  // --- the retried insert ------------------------------------------------------------------------

  /** Attempt i inserts: it is applied, and no row and no earlier applied attempt has its id. */
  predicate Inserts(rows: seq<Row>, attempts: seq<Attempt>, i: nat)
    requires i < |attempts|
  {
    && attempts[i].applied
    && (forall r :: r in rows ==> r.id != attempts[i].id)
    && forall j :: 0 <= j < i && attempts[j].applied ==> attempts[j].id != attempts[i].id
  }

  /** Some attempt inserts and is acknowledged. */
  predicate StoreSucceeds(rows: seq<Row>, attempts: seq<Attempt>) {
    exists i :: 0 <= i < |attempts| && attempts[i].acknowledged && Inserts(rows, attempts, i)
  }

  lemma FirstInserts(rows: seq<Row>, row: Row, attempts: seq<Attempt>, i: nat)
    requires 0 < i < |attempts|
    ensures var a := attempts[0];
      var rows' := if a.applied && !HasId(rows, a.id) then rows + [row.(id := a.id)] else rows;
      Inserts(rows, attempts, i) <==> Inserts(rows', attempts[1..], i - 1)
  {
    var a, rest := attempts[0], attempts[1..];
    var rows' := if a.applied && !HasId(rows, a.id) then rows + [row.(id := a.id)] else rows;
    assert rest[i - 1] == attempts[i];
    assert forall j :: 0 < j < |attempts| ==> rest[j - 1] == attempts[j];
    assert forall r :: r in rows' ==> r in rows || (a.applied && r == row.(id := a.id));
    assert forall r :: r in rows ==> r in rows';
    if a.applied {
      if a.id == attempts[i].id {
        assert HasId(rows', a.id) by {
          if !HasId(rows, a.id) {
            assert row.(id := a.id) in rows';
          }
        }
      }
    }
    if Inserts(rows', rest, i - 1) {
      forall j | 0 <= j < i && attempts[j].applied
        ensures attempts[j].id != attempts[i].id
      {
        if j > 0 {
          assert rest[j - 1].applied;
        }
      }
    }
  }

  lemma NowInserts(rows: seq<Row>, attempts: seq<Attempt>)
    requires attempts != []
    ensures Inserts(rows, attempts, 0) <==> attempts[0].applied && !HasId(rows, attempts[0].id)
  {
  }

  /** The retried insert succeeds exactly if an inserting attempt is acknowledged. */
  lemma {:induction false} StoreAllSucceeds(rows: seq<Row>, row: Row, attempts: seq<Attempt>)
    ensures StoreAll(rows, row, attempts).1 <==> StoreSucceeds(rows, attempts)
    decreases |attempts|
  {
    if attempts == [] {
    } else {
      hide Inserts;
      var a, rest := attempts[0], attempts[1..];
      var inserts := a.applied && !HasId(rows, a.id);
      var rows' := if inserts then rows + [row.(id := a.id)] else rows;
      NowInserts(rows, attempts);
      StoreAllSucceeds(rows', row, rest);
      hide HasId;
      if i :| 0 <= i < |rest| && rest[i].acknowledged && Inserts(rows', rest, i) {
        FirstInserts(rows, row, attempts, i + 1);
        assert attempts[i + 1].acknowledged && Inserts(rows, attempts, i + 1);
      }
      if i :| 0 <= i < |attempts| && attempts[i].acknowledged && Inserts(rows, attempts, i) {
        if i > 0 {
          FirstInserts(rows, row, attempts, i);
          assert rest[i - 1].acknowledged && Inserts(rows', rest, i - 1);
        }
      }
    }
  }

  /** What is stored: copies of one row, none of them revoked, each under the id of an attempt. */
  ghost predicate StoredFor(before: seq<Row>, after: seq<Row>, claims: Claims) {
    && |before| <= |after|
    && forall i :: |before| <= i < |after| ==>
         && after[i].user == claims.user && after[i].jti == claims.jti && after[i].token == claims
         && after[i].revokedAt == None
  }

  /** Attempt i is made and inserts: no attempt before it inserted and was acknowledged. */
  predicate Lands(rows: seq<Row>, attempts: seq<Attempt>, i: nat)
    requires i < |attempts|
  {
    Inserts(rows, attempts, i) && forall j :: 0 <= j < i && attempts[j].acknowledged ==> !Inserts(rows, attempts, j)
  }

  /** The rows that were added are those of the attempts ks, which are exactly the landing ones, in order. */
  ghost predicate Landed(rows: seq<Row>, attempts: seq<Attempt>, rows': seq<Row>, ks: seq<nat>) {
    && |rows'| == |rows| + |ks|
    && (forall m, n :: 0 <= m < n < |ks| ==> ks[m] < ks[n])
    && (forall k :: k in ks <==> 0 <= k < |attempts| && Lands(rows, attempts, k))
    && forall n :: 0 <= n < |ks| ==> ks[n] < |attempts| && rows'[|rows| + n].id == attempts[ks[n]].id
  }

  lemma LandsLater(rows: seq<Row>, row: Row, attempts: seq<Attempt>, i: nat)
    requires 0 < i < |attempts|
    ensures var a := attempts[0];
      var rows' := if a.applied && !HasId(rows, a.id) then rows + [row.(id := a.id)] else rows;
      Lands(rows, attempts, i)
      <==> Lands(rows', attempts[1..], i - 1) && !(a.applied && a.acknowledged && !HasId(rows, a.id))
  {
    hide Inserts, HasId;
    var a, rest := attempts[0], attempts[1..];
    var rows' := if a.applied && !HasId(rows, a.id) then rows + [row.(id := a.id)] else rows;
    NowInserts(rows, attempts);
    forall j | 0 < j < |attempts|
      ensures rest[j - 1] == attempts[j] && (Inserts(rows, attempts, j) <==> Inserts(rows', rest, j - 1))
    {
      FirstInserts(rows, row, attempts, j);
    }
    if Lands(rows, attempts, i) {
      forall j | 0 <= j < i - 1 && rest[j].acknowledged
        ensures !Inserts(rows', rest, j)
      {
        assert attempts[j + 1] == rest[j];
      }
    }
  }

  function Shifted(ks: seq<nat>): (r: seq<nat>)
    ensures |r| == |ks| && forall i :: 0 <= i < |ks| ==> r[i] == ks[i] + 1
  {
    seq(|ks|, i requires 0 <= i < |ks| => ks[i] + 1)
  }

  lemma LandsFirst(rows: seq<Row>, attempts: seq<Attempt>)
    requires attempts != []
    ensures Lands(rows, attempts, 0) <==> attempts[0].applied && !HasId(rows, attempts[0].id)
  {
    NowInserts(rows, attempts);
  }

  lemma LandedOnce(rows: seq<Row>, row: Row, attempts: seq<Attempt>)
    requires attempts != []
    requires var a := attempts[0]; a.applied && a.acknowledged && !HasId(rows, a.id)
    ensures Landed(rows, attempts, rows + [row.(id := attempts[0].id)], [0])
  {
    hide Lands, HasId;
    LandsFirst(rows, attempts);
    forall k | 0 < k < |attempts|
      ensures !Lands(rows, attempts, k)
    {
      LandsLater(rows, row, attempts, k);
    }
  }

  /** What is in the indices behind an optional 0. */
  lemma ShiftedMembers(first: seq<nat>, ks: seq<nat>)
    requires first == [] || first == [0]
    ensures forall k :: k in first + Shifted(ks) <==> (k == 0 && first != []) || (k > 0 && k - 1 in ks)
  {
    var all := first + Shifted(ks);
    forall k
      ensures k in all <==> (k == 0 && first != []) || (k > 0 && k - 1 in ks)
    {
      if k > 0 && k - 1 in ks {
        var i :| 0 <= i < |ks| && ks[i] == k - 1;
        assert all[|first| + i] == k;
      }
      if k == 0 && first != [] {
        assert all[0] == k;
      }
      if k in all {
        var i :| 0 <= i < |all| && all[i] == k;
        assert i >= |first| ==> k == ks[i - |first|] + 1;
      }
    }
  }

  lemma LandedMore(rows: seq<Row>, row: Row, attempts: seq<Attempt>, end: seq<Row>, ks: seq<nat>)
    requires attempts != []
    requires var a := attempts[0];
      var inserts := a.applied && !HasId(rows, a.id);
      var rows' := if inserts then rows + [row.(id := a.id)] else rows;
      && !(inserts && a.acknowledged) && Landed(rows', attempts[1..], end, ks)
      && |rows'| <= |end| && forall i :: 0 <= i < |rows'| ==> end[i] == rows'[i]
    ensures var first := if attempts[0].applied && !HasId(rows, attempts[0].id) then [0] else [];
      Landed(rows, attempts, end, first + Shifted(ks))
  {
    hide Lands, HasId, Shifted;
    var a, rest := attempts[0], attempts[1..];
    var inserts := a.applied && !HasId(rows, a.id);
    var first := if inserts then [0] else [];
    LandsFirst(rows, attempts);
    forall k | 0 < k < |attempts|
      ensures Lands(rows, attempts, k) <==> k - 1 in ks
    {
      LandsLater(rows, row, attempts, k);
    }
    ShiftedMembers(first, ks);
  }

  lemma {:induction false} StoreAllLands(rows: seq<Row>, row: Row, attempts: seq<Attempt>) returns (ks: seq<nat>)
    ensures Landed(rows, attempts, StoreAll(rows, row, attempts).0, ks)
    decreases |attempts|
  {
    if attempts == [] {
      ks := [];
    } else {
      hide Lands, HasId, Landed;
      var a, rest := attempts[0], attempts[1..];
      var inserts := a.applied && !HasId(rows, a.id);
      var rows' := if inserts then rows + [row.(id := a.id)] else rows;
      if inserts && a.acknowledged {
        ks := [0];
        LandedOnce(rows, row, attempts);
      } else {
        var ks' := StoreAllLands(rows', row, rest);
        ks := (if inserts then [0] else []) + Shifted(ks');
        StoreAllAppends(rows', row, rest);
        LandedMore(rows, row, attempts, StoreAll(rows', row, rest).0, ks');
      }
    }
  }

  // --- granting a pair of tokens -----------------------------------------------------------------

  /** The tokens that were signed, up to a signing error, and what was stored of them. */
  ghost predicate GrantedTo(before: AuthState, after: AuthState, user: string, roles: seq<string>, signing: Signing,
                            r: Result<TokenPair, string>) {
    && after.issued == before.issued
         + (if signing.access.None? then []
            else if signing.refresh.None? then [Issue(Claims(user, roles, signing.access.value), Access)]
            else [Issue(Claims(user, roles, signing.access.value), Access),
                  Issue(Claims(user, roles, signing.refresh.value), Refresh)])
    && (forall i :: 0 <= i < |before.rows| ==> i < |after.rows| && after.rows[i] == before.rows[i])
    && (if signing.access.Some? && signing.refresh.Some? then
          StoredFor(before.rows, after.rows, Claims(user, roles, signing.refresh.value))
        else after.rows == before.rows)
    && (r.Success? ==>
          && signing.access.Some? && signing.refresh.Some?
          && r.value.access == Claims(user, roles, signing.access.value)
          && r.value.refresh == Claims(user, roles, signing.refresh.value))
  }

  lemma GrantOutcome(s: AuthState, from: Option<string>, user: string, roles: seq<string>, signing: Signing,
                     attempts: seq<Attempt>)
    ensures var (s', r) := Grant(s, from, user, roles, signing, attempts);
      && GrantedTo(s, s', user, roles, signing, r)
      && (r.Success? <==> signing.access.Some? && signing.refresh.Some? && StoreSucceeds(s.rows, attempts))
      && s'.consumed == s.consumed
      && (signing.access.Some? && signing.refresh.Some? ==> exists ks :: Landed(s.rows, attempts, s'.rows, ks))
  {
    hide StoreAll, StoreSucceeds, Landed;
    if signing.access.Some? && signing.refresh.Some? {
      var refresh := Claims(user, roles, signing.refresh.value);
      var row := Row("", user, refresh.jti, refresh, None);
      StoreAllSucceeds(s.rows, row, attempts);
      StoreAllAppends(s.rows, row, attempts);
      var ks := StoreAllLands(s.rows, row, attempts);
    }
  }

  lemma Handed(s: AuthState, s': AuthState, user: string, roles: seq<string>, signing: Signing,
               r: Result<TokenPair, string>)
    requires GrantedTo(s, s', user, roles, signing, r)
    ensures r.Success? ==>
      && signing.access.Some? && signing.refresh.Some?
      && r.value == TokenPair(Claims(user, roles, signing.access.value), Claims(user, roles, signing.refresh.value))
  {
  }

  /** A login: refused without a trace if a role is not valid; otherwise it hands out two tokens exactly
      if both are signed and an insert is acknowledged. Both carry the user's id and roles, and so does
      every token that was signed and every row that was stored. Every inserting attempt stores one row,
      up to the first of them that is acknowledged. */
  lemma LogInOutcome(s: AuthState, user: User, signing: Signing, attempts: seq<Attempt>)
    ensures var (s', r) := LogInStep(s, user, signing, attempts);
      && (r.Success? <==> (forall x :: x in user.roles ==> RoleOk(x))
                          && signing.access.Some? && signing.refresh.Some? && StoreSucceeds(s.rows, attempts))
      && (r.Success? ==> r.value == TokenPair(Claims(user.id, user.roles, signing.access.value),
                                              Claims(user.id, user.roles, signing.refresh.value)))
      && (if forall x :: x in user.roles ==> RoleOk(x) then
            && GrantedTo(s, s', user.id, user.roles, signing, r)
            && (signing.access.Some? && signing.refresh.Some? ==> exists ks :: Landed(s.rows, attempts, s'.rows, ks))
          else s' == s)
  {
    hide Landed, Grant, GrantedTo, StoreSucceeds, RolesValid, RoleOk;
    RolesAre(user.roles);
    GrantOutcome(s, None, user.id, user.roles, signing, attempts);
    Handed(s, Grant(s, None, user.id, user.roles, signing, attempts).0, user.id, user.roles, signing,
           Grant(s, None, user.id, user.roles, signing, attempts).1);
  }

  // --- the reuse check ---------------------------------------------------------------------------

  /** The first row with the JTI is there and not revoked. */
  predicate Usable(rows: seq<Row>, jti: string) {
    exists i :: 0 <= i < |rows| && rows[i].jti == jti && rows[i].revokedAt == None
                && forall j :: 0 <= j < i ==> rows[j].jti != jti
  }

  lemma {:induction false} FindAt(rows: seq<Row>, jti: string) returns (i: nat)
    requires Find(rows, jti).Some?
    ensures i < |rows| && rows[i] == Find(rows, jti).value && rows[i].jti == jti
    ensures forall j :: 0 <= j < i ==> rows[j].jti != jti
  {
    if rows[0].jti == jti {
      i := 0;
    } else {
      var k := FindAt(rows[1..], jti);
      i := k + 1;
    }
  }

  lemma PassesIs(rows: seq<Row>, jti: string)
    ensures Find(rows, jti).Some? && Find(rows, jti).value.revokedAt.None? <==> Usable(rows, jti)
  {
    hide Find;
    if Find(rows, jti).Some? {
      var i := FindAt(rows, jti);
    }
  }

  /** Every row with the JTI is revoked at this instant, and no other row changes. */
  ghost predicate RevokedOnly(before: seq<Row>, after: seq<Row>, jti: string, now: Time) {
    && |after| == |before|
    && forall i :: 0 <= i < |before| ==>
         after[i] == if before[i].jti == jti then before[i].(revokedAt := Some(now)) else before[i]
  }

  // --- refresh -----------------------------------------------------------------------------------

  /** The presented token is genuine, and the first row with its JTI is not revoked. */
  predicate Refreshable(s: AuthState, claims: Option<Claims>) {
    claims.Some? && Usable(s.rows, claims.value.jti)
  }

  /** The rows after the old token was revoked, if that write is applied. */
  function MarkedRows(rows: seq<Row>, jti: string, now: Time, applied: bool): (r: seq<Row>)
    ensures |r| == |rows|
    ensures forall i :: 0 <= i < |rows| ==>
      r[i] == if applied && rows[i].jti == jti then rows[i].(revokedAt := Some(now)) else rows[i]
  {
    seq(|rows|, i requires 0 <= i < |rows| =>
      if applied && rows[i].jti == jti then rows[i].(revokedAt := Some(now)) else rows[i])
  }

  lemma MarkedAre(rows: seq<Row>, jti: string, now: Time, applied: bool)
    ensures (if applied then Revoked(rows, jti, now) else rows) == MarkedRows(rows, jti, now, applied)
  {
    hide Revoked, MarkedRows;
    var a, b := if applied then Revoked(rows, jti, now) else rows, MarkedRows(rows, jti, now, applied);
    assert forall i :: 0 <= i < |rows| ==> a[i] == b[i];
  }

  /** The first applied attempt is acknowledged, and no row has the id. */
  predicate FirstApplied(rows: seq<Row>, id: string, attempts: seq<Attempt>) {
    && (forall r :: r in rows ==> r.id != id)
    && exists i :: 0 <= i < |attempts| && attempts[i].applied && attempts[i].acknowledged
                   && forall j :: 0 <= j < i ==> !attempts[j].applied
  }

  lemma {:induction false} OwnIdAt(signing: Signing, attempts: seq<Attempt>)
    requires signing.refresh.Some?
    ensures |OwnId(signing, attempts)| == |attempts|
    ensures forall i :: 0 <= i < |attempts| ==>
      OwnId(signing, attempts)[i] == attempts[i].(id := signing.refresh.value)
  {
    if attempts == [] {
    } else {
      OwnIdAt(signing, attempts[1..]);
    }
  }

  lemma SameIds(rows: seq<Row>, rows': seq<Row>, id: string)
    requires |rows| == |rows'| && forall i :: 0 <= i < |rows| ==> rows'[i].id == rows[i].id
    ensures (forall r :: r in rows' ==> r.id != id) <==> forall r :: r in rows ==> r.id != id
  {
    assert forall i :: 0 <= i < |rows| ==> rows[i] in rows && rows'[i] in rows';
  }

  /** A refresh adds one row, under the JTI of its refresh token, if that id is free and an attempt is
      applied; otherwise it adds none. */
  ghost predicate RowsOfRefresh(before: seq<Row>, after: seq<Row>, jti: string, attempts: seq<Attempt>) {
    if (forall r :: r in before ==> r.id != jti) && (exists i :: 0 <= i < |attempts| && attempts[i].applied) then
      |after| == |before| + 1 && after[|before|].id == jti
    else |after| == |before|
  }

  lemma OwnInserts(rows: seq<Row>, attempts: seq<Attempt>, own: seq<Attempt>, id: string, i: nat)
    requires |own| == |attempts| && forall k :: 0 <= k < |own| ==> own[k] == attempts[k].(id := id)
    requires i < |own|
    ensures Inserts(rows, own, i) <==>
      attempts[i].applied && (forall r :: r in rows ==> r.id != id) && forall j :: 0 <= j < i ==> !attempts[j].applied
  {
    if Inserts(rows, own, i) {
      forall j | 0 <= j < i
        ensures !attempts[j].applied
      {
        assert own[j].id == own[i].id;
      }
    }
  }

  lemma SucceedsFirst(rows: seq<Row>, rows': seq<Row>, attempts: seq<Attempt>, own: seq<Attempt>, id: string)
    requires |own| == |attempts| && forall k :: 0 <= k < |own| ==> own[k] == attempts[k].(id := id)
    requires (forall r :: r in rows' ==> r.id != id) <==> forall r :: r in rows ==> r.id != id
    requires forall i :: 0 <= i < |own| ==>
      (Inserts(rows', own, i) <==>
         attempts[i].applied && (forall r :: r in rows' ==> r.id != id)
         && forall j :: 0 <= j < i ==> !attempts[j].applied)
    ensures StoreSucceeds(rows', own) <==> FirstApplied(rows, id, attempts)
  {
    hide Inserts;
    if i :| 0 <= i < |own| && own[i].acknowledged && Inserts(rows', own, i) {
      assert attempts[i].applied && attempts[i].acknowledged;
    }
    if i :| 0 <= i < |attempts| && attempts[i].applied && attempts[i].acknowledged
            && forall j :: 0 <= j < i ==> !attempts[j].applied {
      assert own[i].acknowledged;
    }
  }

  lemma OwnIdSucceeds(rows: seq<Row>, rows': seq<Row>, signing: Signing, attempts: seq<Attempt>)
    requires |rows| == |rows'| && forall i :: 0 <= i < |rows| ==> rows'[i].id == rows[i].id
    ensures signing.refresh.Some? ==>
      (StoreSucceeds(rows', OwnId(signing, attempts)) <==> FirstApplied(rows, signing.refresh.value, attempts))
  {
    if signing.refresh.Some? {
      var id, own := signing.refresh.value, OwnId(signing, attempts);
      OwnIdAt(signing, attempts);
      hide OwnId, StoreSucceeds, FirstApplied, Inserts;
      SameIds(rows, rows', id);
      forall i | 0 <= i < |own|
        ensures Inserts(rows', own, i) <==>
                  attempts[i].applied && (forall r :: r in rows' ==> r.id != id)
                  && forall j :: 0 <= j < i ==> !attempts[j].applied
      {
        OwnInserts(rows', attempts, own, id, i);
      }
      SucceedsFirst(rows, rows', attempts, own, id);
    }
  }

  lemma {:induction false} FirstApplies(attempts: seq<Attempt>, i: nat) returns (k: nat)
    requires i < |attempts| && attempts[i].applied
    ensures k <= i && attempts[k].applied && forall j :: 0 <= j < k ==> !attempts[j].applied
  {
    if j :| 0 <= j < i && attempts[j].applied {
      k := FirstApplies(attempts, j);
    } else {
      k := i;
    }
  }

  lemma LandsOnlyOnce(rows: seq<Row>, own: seq<Attempt>, x: nat, y: nat, id: string)
    requires forall i :: 0 <= i < |own| ==> own[i].id == id
    requires x < |own| && y < |own| && Lands(rows, own, x) && Lands(rows, own, y)
    ensures x == y && own[x].applied && forall r :: r in rows ==> r.id != id
  {
  }

  lemma FirstLands(rows: seq<Row>, own: seq<Attempt>, k: nat, id: string)
    requires forall i :: 0 <= i < |own| ==> own[i].id == id
    requires k < |own| && own[k].applied && (forall j :: 0 <= j < k ==> !own[j].applied)
    requires forall r :: r in rows ==> r.id != id
    ensures Lands(rows, own, k)
  {
  }

  lemma OwnLanded(rows: seq<Row>, own: seq<Attempt>, rows': seq<Row>, ks: seq<nat>, id: string)
    requires Landed(rows, own, rows', ks) && forall i :: 0 <= i < |own| ==> own[i].id == id
    ensures RowsOfRefresh(rows, rows', id, own)
  {
    hide Lands;
    if |ks| >= 1 {
      assert ks[0] in ks;
      LandsOnlyOnce(rows, own, ks[0], if |ks| >= 2 then ks[1] else ks[0], id);
    }
    if (forall r :: r in rows ==> r.id != id) && exists i :: 0 <= i < |own| && own[i].applied {
      var i :| 0 <= i < |own| && own[i].applied;
      var k := FirstApplies(own, i);
      FirstLands(rows, own, k, id);
      assert k in ks;
    }
  }

  lemma OwnIdRows(s: AuthState, from: Option<string>, user: string, roles: seq<string>, signing: Signing,
                  attempts: seq<Attempt>)
    requires signing.access.Some? && signing.refresh.Some?
    ensures var s' := Grant(s, from, user, roles, signing, OwnId(signing, attempts)).0;
      RowsOfRefresh(s.rows, s'.rows, signing.refresh.value, attempts)
  {
    hide OwnId, StoreAll, Landed;
    var refresh := Claims(user, roles, signing.refresh.value);
    var own, row := OwnId(signing, attempts), Row("", user, refresh.jti, refresh, None);
    OwnIdAt(signing, attempts);
    var ks := StoreAllLands(s.rows, row, own);
    assert Grant(s, from, user, roles, signing, own).0.rows == StoreAll(s.rows, row, own).0;
    OwnLanded(s.rows, own, StoreAll(s.rows, row, own).0, ks, refresh.jti);
    assert (exists i :: 0 <= i < |own| && own[i].applied) <==> exists i :: 0 <= i < |attempts| && attempts[i].applied;
  }

  lemma SameRowsOf(rows: seq<Row>, rows': seq<Row>, after: seq<Row>, jti: string, attempts: seq<Attempt>)
    requires |rows| == |rows'| && forall i :: 0 <= i < |rows| ==> rows'[i].id == rows[i].id
    ensures RowsOfRefresh(rows', after, jti, attempts) == RowsOfRefresh(rows, after, jti, attempts)
  {
    SameIds(rows, rows', jti);
  }

  /** A refresh: refused without a trace unless the presented token is usable. Otherwise its rows are
      revoked, if that write is applied, and it hands out two tokens exactly if both are signed and the
      first applied insert finds its id free and is acknowledged. Both tokens, and everything that was
      signed or stored, carry the presented user and roles. */
  lemma RefreshOutcome(s: AuthState, claims: Option<Claims>, now: Time, revoked: bool, signing: Signing,
                       attempts: seq<Attempt>)
    ensures var (s', r) := RefreshStep(s, claims, now, revoked, signing, attempts);
      && (!Refreshable(s, claims) ==> s' == s && r.Failure?)
      && (Refreshable(s, claims) ==>
            var mid := s.(rows := MarkedRows(s.rows, claims.value.jti, now, revoked),
                          consumed := s.consumed + [claims.value.jti]);
            && GrantedTo(mid, s', claims.value.user, claims.value.roles, signing, r)
            && (r.Success? <==> signing.access.Some? && signing.refresh.Some?
                                && FirstApplied(s.rows, signing.refresh.value, attempts))
            && (signing.access.Some? && signing.refresh.Some? ==>
                  RowsOfRefresh(s.rows, s'.rows, signing.refresh.value, attempts))
            && s'.consumed == s.consumed + [claims.value.jti])
      && (r.Success? ==> r.value == TokenPair(Claims(claims.value.user, claims.value.roles, signing.access.value),
                                              Claims(claims.value.user, claims.value.roles, signing.refresh.value)))
  {
    hide Grant, GrantedTo, StoreSucceeds, Usable, Find, FirstApplied, RowsOfRefresh, Landed;
    if claims.Some? {
      var jti := claims.value.jti;
      PassesIs(s.rows, jti);
      if Usable(s.rows, jti) {
        var mid := Consume(s, jti, now, revoked);
        var own := OwnId(signing, attempts);
        MarkedAre(s.rows, jti, now, revoked);
        GrantOutcome(mid, Some(jti), claims.value.user, claims.value.roles, signing, own);
        var (s', r) := Grant(mid, Some(jti), claims.value.user, claims.value.roles, signing, own);
        Handed(mid, s', claims.value.user, claims.value.roles, signing, r);
        OwnIdSucceeds(s.rows, mid.rows, signing, attempts);
        if signing.access.Some? && signing.refresh.Some? {
          OwnIdRows(mid, Some(jti), claims.value.user, claims.value.roles, signing, attempts);
          SameRowsOf(s.rows, mid.rows, s'.rows, signing.refresh.value, attempts);
        }
      }
    }
  }

  // --- logout and revocation ---------------------------------------------------------------------

  /** A logout revokes the rows of a usable JTI, if its write is applied; otherwise nothing changes. */
  lemma LogOutOutcome(s: AuthState, jti: string, now: Time, applied: bool)
    ensures var s' := LogOutStep(s, jti, now, applied);
      && s' == s.(rows := s'.rows)
      && (if Usable(s.rows, jti) && applied then RevokedOnly(s.rows, s'.rows, jti, now) else s'.rows == s.rows)
  {
    hide Find, Usable, Revoked;
    PassesIs(s.rows, jti);
  }

  /** The last applied attempt that is made: attempts end with the first that is acknowledged. */
  predicate Decides(attempts: seq<RevokeAttempt>, k: nat)
    requires k < |attempts|
  {
    && attempts[k].applied
    && (forall j :: 0 <= j < k ==> !(attempts[j].applied && attempts[j].acknowledged))
    && (attempts[k].acknowledged || forall j :: k < j < |attempts| ==> !attempts[j].applied)
  }

  lemma DecidesLater(attempts: seq<RevokeAttempt>, k: nat)
    requires 0 < k < |attempts| && Decides(attempts[1..], k - 1)
    requires !(attempts[0].applied && attempts[0].acknowledged)
    ensures Decides(attempts, k)
  {
    var rest := attempts[1..];
    assert forall j :: 0 < j < |attempts| ==> attempts[j] == rest[j - 1];
  }

  lemma DecidesNow(attempts: seq<RevokeAttempt>)
    requires attempts != [] && attempts[0].applied
    requires attempts[0].acknowledged || forall x :: x in attempts[1..] ==> !x.applied
    ensures Decides(attempts, 0)
  {
    var rest := attempts[1..];
    assert forall j :: 0 < j < |attempts| ==> attempts[j] == rest[j - 1] && rest[j - 1] in rest;
  }

  lemma RevokedOnce(rows: seq<Row>, jti: string, now: Time)
    ensures RevokedOnly(rows, Revoked(rows, jti, now), jti, now)
  {
    hide Revoked;
  }

  lemma RevokedTwice(a: seq<Row>, b: seq<Row>, c: seq<Row>, jti: string, x: Time, y: Time)
    requires RevokedOnly(a, b, jti, x) && RevokedOnly(b, c, jti, y)
    ensures RevokedOnly(a, c, jti, y)
  {
  }

  /** If an attempt is applied, every row with the JTI is revoked at the instant of the deciding one;
      no other row changes. */
  lemma {:induction false} RevokeAllOutcome(rows: seq<Row>, jti: string, attempts: seq<RevokeAttempt>)
    ensures var (after, ok) := RevokeAll(rows, jti, attempts);
      && (ok <==> exists a :: a in attempts && a.applied && a.acknowledged)
      && (if exists a :: a in attempts && a.applied then
            exists k :: 0 <= k < |attempts| && Decides(attempts, k) && RevokedOnly(rows, after, jti, attempts[k].now)
          else after == rows)
    decreases |attempts|
  {
    if attempts == [] {
    } else {
      hide Decides, RevokedOnly;
      var a, rest := attempts[0], attempts[1..];
      assert forall x :: x in attempts <==> x == a || x in rest;
      var rows' := if a.applied then Revoked(rows, jti, a.now) else rows;
      var after := RevokeAll(rows, jti, attempts).0;
      RevokeAllOutcome(rows', jti, rest);
      RevokedOnce(rows, jti, a.now);
      if a.applied && (a.acknowledged || !exists x :: x in rest && x.applied) {
        DecidesNow(attempts);
        assert after == rows';
      } else if exists x :: x in rest && x.applied {
        var k :| 0 <= k < |rest| && Decides(rest, k) && RevokedOnly(rows', after, jti, rest[k].now);
        DecidesLater(attempts, k + 1);
        if a.applied {
          RevokedTwice(rows, rows', after, jti, a.now, rest[k].now);
        }
        assert RevokedOnly(rows, after, jti, attempts[k + 1].now);
      }
    }
  }

  /** A request to revoke: refused without a trace unless it is for a refresh token whose JTI can be read.
      Otherwise, if any attempt is applied, all rows of the JTI are revoked, at the instant of the last
      applied one that was made, and no others change; it succeeds exactly if an applied attempt is acknowledged. */
  lemma RevokeOutcome(s: AuthState, request: Option<RevokeRequest>, attempts: seq<RevokeAttempt>)
    ensures var (s', r) := RevokeStep(s, request, attempts);
      && s' == s.(rows := s'.rows)
      && (if request.Some? && request.value.token != "" && request.value.kind == Refresh && request.value.jti.Some? then
            && (r.Success? <==> exists a :: a in attempts && a.applied && a.acknowledged)
            && (if exists a :: a in attempts && a.applied then
                  exists k :: 0 <= k < |attempts| && Decides(attempts, k)
                              && RevokedOnly(s.rows, s'.rows, request.value.jti.value, attempts[k].now)
                else s'.rows == s.rows)
          else s' == s && r.Failure?)
  {
    hide RevokeAll, RevokedOnly, Decides;
    if request.Some? && request.value.jti.Some? {
      RevokeAllOutcome(s.rows, request.value.jti.value, attempts);
    }
  }

  /** Once the rows of a JTI are revoked, it never passes again, whatever happens. */
  lemma NeverAgain(s: AuthState, jti: string, es: seq<Event>)
    requires exists i :: 0 <= i < |s.rows| && s.rows[i].jti == jti
    requires forall i :: 0 <= i < |s.rows| && s.rows[i].jti == jti ==> s.rows[i].revokedAt.Some?
    ensures !Usable(Run(s, es).rows, jti) && !Passes(Run(s, es), jti)
  {
    hide Run;
    RevocationIsFinal(s, es);
    PassesIs(Run(s, es).rows, jti);
    hide Find;
    var k :| 0 <= k < |s.rows| && s.rows[k].jti == jti;
    var after := Run(s, es).rows;
    assert SameButRevoked(s.rows[k], after[k]);
    if i :| 0 <= i < |after| && after[i].jti == jti && after[i].revokedAt == None
            && forall j :: 0 <= j < i ==> after[j].jti != jti {
      assert i <= k;
      assert SameButRevoked(s.rows[i], after[i]);
    }
  }

  /** After an applied logout of a usable JTI it never passes again, whatever happens afterwards. */
  lemma LogOutIsFinal(s: AuthState, jti: string, now: Time, es: seq<Event>)
    requires Usable(s.rows, jti)
    ensures !Passes(Run(Step(s, LogOut(jti, now, true)), es), jti)
  {
    hide Run, RevokeStep, RefreshStep, LogInStep, LogOutStep;
    LogOutOutcome(s, jti, now, true);
    var s' := LogOutStep(s, jti, now, true);
    var i :| 0 <= i < |s.rows| && s.rows[i].jti == jti;
    assert s'.rows[i].jti == jti;
    NeverAgain(s', jti, es);
  }

  /** The same for a request to revoke with an applied attempt. */
  lemma RevokeIsFinal(s: AuthState, token: string, jti: string, attempts: seq<RevokeAttempt>, es: seq<Event>)
    requires token != "" && (exists a :: a in attempts && a.applied)
    requires exists i :: 0 <= i < |s.rows| && s.rows[i].jti == jti
    ensures !Passes(Run(Step(s, Revoke(Some(RevokeRequest(token, Refresh, Some(jti))), attempts)), es), jti)
  {
    hide Run, RevokeStep, RefreshStep, LogInStep, LogOutStep;
    RevokeOutcome(s, Some(RevokeRequest(token, Refresh, Some(jti))), attempts);
    var s' := RevokeStep(s, Some(RevokeRequest(token, Refresh, Some(jti))), attempts).0;
    var i :| 0 <= i < |s.rows| && s.rows[i].jti == jti;
    assert s'.rows[i].jti == jti;
    NeverAgain(s', jti, es);
  }

  /** And for a refresh whose revocation was applied. */
  lemma RefreshIsFinal(s: AuthState, claims: Claims, now: Time, signing: Signing, attempts: seq<Attempt>,
                       es: seq<Event>)
    requires Usable(s.rows, claims.jti) && signing.refresh != Some(claims.jti)
    ensures !Passes(Run(Step(s, RefreshTokens(Some(claims), now, true, signing, attempts)), es), claims.jti)
  {
    hide Run, RevokeStep, RefreshStep, LogInStep, LogOutStep;
    RefreshOutcome(s, Some(claims), now, true, signing, attempts);
    var s' := RefreshStep(s, Some(claims), now, true, signing, attempts).0;
    var mid := MarkedRows(s.rows, claims.jti, now, true);
    var i :| 0 <= i < |s.rows| && s.rows[i].jti == claims.jti;
    assert s'.rows[i] == mid[i];
    forall k | 0 <= k < |s'.rows| && s'.rows[k].jti == claims.jti
      ensures s'.rows[k].revokedAt.Some?
    {
      if k < |s.rows| {
        assert s'.rows[k] == mid[k];
      }
    }
    NeverAgain(s', claims.jti, es);
  }
}
