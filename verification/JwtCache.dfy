/** The gateway's token cache, and the middleware that asks it before it asks the auth service. */
module JwtCache {
  import opened Intervals
  import opened Wrappers

  /** The answer of the auth service: the claims, and the metadata of the request that was validated. */
  datatype Response = Response(username: string, roles: seq<string>, expiresAt: Option<Time>, meta: string)

  datatype CachedToken = CachedToken(claims: Response, expiresAt: Time)

  type Store = map<string, CachedToken>

  const DEFAULT_TTL: nat := 15 * MINUTE

  // --- the cache ---------------------------------------------------------------------------------

  function GetIn(store: Store, token: string, now: Time): Option<Response> {
    if token !in store || now > store[token].expiresAt then None else Some(store[token].claims)
  }

  function PutIn(store: Store, token: string, claims: Response, now: Time): Store {
    store[token := CachedToken(claims, if claims.expiresAt.Some? then claims.expiresAt.value else now + DEFAULT_TTL)]
  }

  function CleanIn(store: Store, tick: Time): Store {
    map k | k in store && tick <= store[k].expiresAt :: store[k]
  }

  class JWTCache {
    var store: Store

    constructor ()
      ensures store == map[]
    {
      store := map[];
    }

    method Get(token: string, now: Time) returns (claims: Option<Response>)
      ensures claims == GetIn(store, token, now)
      ensures claims.Some? <==> token in store && now <= store[token].expiresAt
      ensures claims.Some? ==> claims.value == store[token].claims
    {
      if token !in store || now > store[token].expiresAt {
        return None;
      }
      return Some(store[token].claims);
    }

    method Put(token: string, claims: Response, now: Time)
      modifies this
      ensures store == PutIn(old(store), token, claims, now)
      ensures store.Keys == old(store).Keys + {token}
      ensures forall k :: k in store && k != token ==> store[k] == old(store)[k]
      ensures store[token].claims == claims
      ensures claims.expiresAt.Some? ==> store[token].expiresAt == claims.expiresAt.value
      ensures claims.expiresAt.None? ==> store[token].expiresAt == now + 15 * 60 * 1_000_000_000
    {
      var exp := now + DEFAULT_TTL;
      if claims.expiresAt.Some? {
        exp := claims.expiresAt.value;
      }
      store := store[token := CachedToken(claims, exp)];
    }

    /** One tick of the cleanup loop. */
    method Cleanup(tick: Time)
      modifies this
      ensures store == CleanIn(old(store), tick)
      ensures forall k :: k in store <==> k in old(store) && tick <= old(store)[k].expiresAt
      ensures forall k :: k in store ==> store[k] == old(store)[k]
    {
      var remaining := store.Keys;
      while remaining != {}
        invariant remaining <= old(store.Keys)
        invariant store ==
          map k | k in old(store) && (k in remaining || tick <= old(store)[k].expiresAt) :: old(store)[k]
        decreases remaining
      {
        var k :| k in remaining;
        remaining := remaining - {k};
        if tick > store[k].expiresAt {
          store := store - {k};
        }
      }
    }
  }

  // --- deleting the cleanup ----------------------------------------------------------------------

  /** A cleanup works with the instant of its tick, which may lie before the instant it runs. */
  datatype CacheEvent =
    | Put(token: string, claims: Response, now: Time)
    | Get(token: string, now: Time)
    | Cleanup(tick: Time, now: Time)

  function After(store: Store, e: CacheEvent): Store {
    match e
    case Put(token, claims, now) => PutIn(store, token, claims, now)
    case Get(_, _) => store
    case Cleanup(tick, _) => CleanIn(store, tick)
  }

  /** What the Gets of a run return, in order. */
  function Results(store: Store, es: seq<CacheEvent>): seq<Option<Response>>
    decreases |es|
  {
    if es == [] then [] else
      (if es[0].Get? then [GetIn(store, es[0].token, es[0].now)] else []) + Results(After(store, es[0]), es[1..])
  }

  function WithoutCleanup(es: seq<CacheEvent>): seq<CacheEvent> {
    if es == [] then []
    else (if es[0].Cleanup? then [] else [es[0]]) + WithoutCleanup(es[1..])
  }

  ghost predicate Monotone(es: seq<CacheEvent>, clock: Time)
    decreases |es|
  {
    es == [] ||
    (es[0].now >= clock && (es[0].Cleanup? ==> es[0].tick <= es[0].now) && Monotone(es[1..], es[0].now))
  }

  /** The two stores differ only in entries that have expired. */
  ghost predicate SameLive(full: Store, cleaned: Store, clock: Time) {
    && (forall k :: k in cleaned ==> k in full && full[k] == cleaned[k])
    && forall k :: k in full && k !in cleaned ==> full[k].expiresAt < clock
  }

  lemma {:induction false} CleanupInvisibleFrom(full: Store, cleaned: Store, es: seq<CacheEvent>, clock: Time)
    requires SameLive(full, cleaned, clock) && Monotone(es, clock)
    ensures Results(full, WithoutCleanup(es)) == Results(cleaned, es)
    decreases |es|
  {
    if es == [] {
    } else {
      var e := es[0];
      var rest := WithoutCleanup(es[1..]);
      if e.Cleanup? {
        assert WithoutCleanup(es) == rest;
        CleanupInvisibleFrom(full, After(cleaned, e), es[1..], e.now);
      } else {
        CleanupInvisibleFrom(After(full, e), After(cleaned, e), es[1..], e.now);
        assert WithoutCleanup(es) == [e] + rest && WithoutCleanup(es)[1..] == rest;
      }
    }
  }

  /** With a clock that never goes back, no Get can tell whether the cleanup loop runs. */
  lemma CleanupInvisible(es: seq<CacheEvent>)
    requires Monotone(es, 0)
    ensures Results(map[], WithoutCleanup(es)) == Results(map[], es)
  {
    CleanupInvisibleFrom(map[], map[], es, 0);
  }

  // --- the middleware ----------------------------------------------------------------------------

  /** The auth service: what a token says, and that it says it until it expires. */
  type Authority = map<string, Response>

  function Validate(auth: Authority, token: string, now: Time, meta: string): Option<Response> {
    if token !in auth || (auth[token].expiresAt.Some? && now >= auth[token].expiresAt.value) then None
    else Some(auth[token].(meta := meta))
  }

  /** A request: its header, the instant it is handled, the later instant at which an answer would be
      stored, its metadata, and whether the auth service can be reached. */
  datatype Request = Request(header: string, now: Time, stored: Time, meta: string, reachable: bool)

  const BEARER := "Bearer "

  function Answer(auth: Authority, store: Store, r: Request): (Option<Response>, Store) {
    if !(BEARER <= r.header) then (None, store) else
      var token := r.header[|BEARER|..];
      var hit := GetIn(store, token, r.now);
      if hit.Some? then (hit, store) else
        var valid := if r.reachable then Validate(auth, token, r.now, r.meta) else None;
        if valid.None? then (None, store) else (valid, PutIn(store, token, valid.value, r.stored))
  }

  /** Only a request with a bearer token is answered. A cached token that has not expired is answered
      from the cache, whether or not the auth service can be reached, and nothing else is done; any other
      is answered as the auth service says, and then stored until the token expires, or for fifteen
      minutes. */
  method Authenticate(auth: Authority, cache: JWTCache, r: Request) returns (resp: Option<Response>)
    modifies cache
    ensures (resp, cache.store) == Answer(auth, old(cache.store), r)
    ensures !("Bearer " <= r.header) ==> resp.None? && cache.store == old(cache.store)
    ensures "Bearer " <= r.header ==>
      var token, s := r.header[7..], old(cache.store);
      if token in s && r.now <= s[token].expiresAt then
        resp == Some(s[token].claims) && cache.store == s
      else if r.reachable && token in auth && (auth[token].expiresAt.Some? ==> r.now < auth[token].expiresAt.value) then
        && resp == Some(auth[token].(meta := r.meta))
        && cache.store == s[token := CachedToken(resp.value, if auth[token].expiresAt.Some? then
                                                   auth[token].expiresAt.value else r.stored + 15 * 60 * 1_000_000_000)]
      else resp.None? && cache.store == s
  {
    if !(BEARER <= r.header) {
      return None;
    }
    var token := r.header[|BEARER|..];
    resp := cache.Get(token, r.now);
    if resp.None? {
      if r.reachable {
        resp := Validate(auth, token, r.now, r.meta);
      }
      if resp.None? {
        return None;
      }
      cache.Put(token, resp.value, r.stored);
    }
  }

  datatype GatewayEvent = Ask(r: Request) | Sweep(tick: Time)

  function StoreAfter(auth: Authority, store: Store, es: seq<GatewayEvent>): Store
    decreases |es|
  {
    if es == [] then store
    else match es[0]
      case Ask(r) => StoreAfter(auth, Answer(auth, store, r).1, es[1..])
      case Sweep(tick) => StoreAfter(auth, CleanIn(store, tick), es[1..])
  }

  /** Every entry holds what the auth service says, up to the metadata, and ends with the token. */
  ghost predicate Genuine(auth: Authority, store: Store) {
    forall k :: k in store ==>
      && k in auth && auth[k] == store[k].claims.(meta := auth[k].meta)
      && (auth[k].expiresAt.Some? ==> store[k].expiresAt == auth[k].expiresAt.value)
  }

  lemma {:induction false} StoreStaysGenuine(auth: Authority, store: Store, es: seq<GatewayEvent>)
    requires Genuine(auth, store)
    ensures Genuine(auth, StoreAfter(auth, store, es))
    decreases |es|
  {
    if es == [] {
    } else {
      match es[0]
      case Ask(r) => StoreStaysGenuine(auth, Answer(auth, store, r).1, es[1..]);
      case Sweep(tick) => StoreStaysGenuine(auth, CleanIn(store, tick), es[1..]);
    }
  }

  /** The claims of an answer, without the metadata. */
  function Bare(r: Option<Response>): Option<Response> {
    if r.Some? then Some(r.value.(meta := "")) else None
  }

  /** The request comes exactly when its token expires, and the token is still cached. */
  predicate OnTheEdge(store: Store, r: Request) {
    && BEARER <= r.header && r.header[|BEARER|..] in store
    && store[r.header[|BEARER|..]].claims.expiresAt == Some(r.now)
  }

  /** What a gateway without a cache would answer. */
  function Direct(auth: Authority, r: Request): Option<Response> {
    if BEARER <= r.header then Validate(auth, r.header[|BEARER|..], r.now, r.meta) else None
  }

  /** Some earlier request with the token had this metadata and could reach the auth service. */
  ghost predicate FilledBy(es: seq<GatewayEvent>, token: string, meta: string) {
    exists r :: Ask(r) in es && BEARER <= r.header && r.header[|BEARER|..] == token && r.reachable && r.meta == meta
  }

  lemma {:induction false} FilledEarlier(auth: Authority, store: Store, es: seq<GatewayEvent>, token: string)
    requires token in StoreAfter(auth, store, es)
    ensures var meta := StoreAfter(auth, store, es)[token].claims.meta;
      (token in store && store[token].claims.meta == meta) || FilledBy(es, token, meta)
    decreases |es|
  {
    if es == [] {
    } else {
      var meta := StoreAfter(auth, store, es)[token].claims.meta;
      assert es[0] in es && forall e :: e in es[1..] ==> e in es;
      match es[0]
      case Sweep(tick) => FilledEarlier(auth, CleanIn(store, tick), es[1..], token);
      case Ask(r) =>
        var store' := Answer(auth, store, r).1;
        FilledEarlier(auth, store', es[1..], token);
        if token in store' && store'[token].claims.meta == meta
           && !(token in store && store[token].claims.meta == meta) {
          assert r.header[|BEARER|..] == token && r.meta == meta && r.reachable;
          assert Ask(r) in es;
        }
    }
  }

  /** After any history, the cache answers with the claims that the auth service would give, except for
      a cached token in the very instant of its expiry, which is then still accepted. The metadata of an
      answer is the request's own, or that of an earlier request with the same token; without a hit it
      is the request's own. */
  lemma CacheTransparent(auth: Authority, es: seq<GatewayEvent>, r: Request)
    requires r.reachable
    ensures var store, a := StoreAfter(auth, map[], es), Answer(auth, StoreAfter(auth, map[], es), r).0;
      && (Bare(a) == Bare(Direct(auth, r)) <==> !OnTheEdge(store, r))
      && (a.Some? ==>
            var token := r.header[|BEARER|..];
            if GetIn(store, token, r.now).None? then a.value.meta == r.meta
            else a.value.meta == store[token].claims.meta && FilledBy(es, token, a.value.meta))
  {
    StoreStaysGenuine(auth, map[], es);
    var store := StoreAfter(auth, map[], es);
    if BEARER <= r.header && r.header[|BEARER|..] in store {
      FilledEarlier(auth, map[], es, r.header[|BEARER|..]);
    }
  }

  /** Whether or not the auth service can be reached, nothing is accepted that it would refuse, except
      in the instant of expiry. */
  lemma NothingForged(auth: Authority, es: seq<GatewayEvent>, r: Request)
    ensures var store := StoreAfter(auth, map[], es);
      Answer(auth, store, r).0.Some? && !OnTheEdge(store, r) ==>
        Bare(Answer(auth, store, r).0) == Bare(Direct(auth, r))
  {
    StoreStaysGenuine(auth, map[], es);
  }

  /** After any history, the whole answer - claims and metadata - is the auth service's own if and only
      if it is not a hit, or a hit outside the instant of expiry whose entry was filled by a request
      with the same metadata. */
  lemma AnswerExact(auth: Authority, es: seq<GatewayEvent>, r: Request)
    requires r.reachable && BEARER <= r.header
    ensures var store, token := StoreAfter(auth, map[], es), r.header[|BEARER|..];
      Answer(auth, store, r).0 == Direct(auth, r)
      <==> GetIn(store, token, r.now).None?
           || (!OnTheEdge(store, r) && store[token].claims.meta == r.meta)
  {
    StoreStaysGenuine(auth, map[], es);
  }

  /** The entry of the token says what the auth service says, and lasts at least until the limit; it ends
      with the token, if the token ends. */
  ghost predicate Serves(auth: Authority, store: Store, token: string, limit: Time) {
    && token in auth && token in store && store[token].expiresAt >= limit
    && store[token].claims.(meta := "") == auth[token].(meta := "")
    && (auth[token].expiresAt.Some? ==> store[token].expiresAt == auth[token].expiresAt.value)
  }

  lemma {:induction false} StillServes(auth: Authority, store: Store, token: string, limit: Time,
                                       es: seq<GatewayEvent>)
    requires Serves(auth, store, token, limit)
    requires forall e :: e in es ==> if e.Ask? then e.r.now <= e.r.stored else e.tick <= limit
    ensures Serves(auth, StoreAfter(auth, store, es), token, limit)
    decreases |es|
  {
    if es == [] {
    } else {
      assert es[0] in es;
      match es[0]
      case Ask(r) => StillServes(auth, Answer(auth, store, r).1, token, limit, es[1..]);
      case Sweep(tick) => StillServes(auth, CleanIn(store, tick), token, limit, es[1..]);
    }
  }

  lemma {:induction false} StoreAfterSnoc(auth: Authority, store: Store, es: seq<GatewayEvent>, r: Request)
    ensures StoreAfter(auth, store, es + [Ask(r)]) == Answer(auth, StoreAfter(auth, store, es), r).1
    decreases |es|
  {
    hide Answer, CleanIn;
    if es == [] {
      assert (es + [Ask(r)])[1..] == [];
    } else {
      assert (es + [Ask(r)])[1..] == es[1..] + [Ask(r)];
      match es[0]
      case Ask(x) => StoreAfterSnoc(auth, Answer(auth, store, x).1, es[1..], r);
      case Sweep(tick) => StoreAfterSnoc(auth, CleanIn(store, tick), es[1..], r);
    }
  }

  /** Once a request with a token was accepted, every later request with it gets the token's claims,
      whether or not the auth service can be reached, whatever requests and cleanups come between: until
      the token expires, or, if it does not, until the entry does, fifteen minutes after it was stored. */
  lemma CachedAnswers(auth: Authority, es: seq<GatewayEvent>, first: Request, more: seq<GatewayEvent>, later: Request,
                      limit: Time)
    requires "Bearer " <= first.header && later.header == first.header
    requires var token, store := first.header[7..], StoreAfter(auth, map[], es);
      && first.reachable && token in auth
      && (if auth[token].expiresAt.Some? then first.now < auth[token].expiresAt.value == limit
          else if token in store && first.now <= store[token].expiresAt then limit == store[token].expiresAt
          else limit == first.stored + 15 * 60 * 1_000_000_000)
    requires forall e :: e in more ==> if e.Ask? then e.r.now <= e.r.stored else e.tick <= limit
    requires later.now <= limit
    ensures var store := StoreAfter(auth, StoreAfter(auth, map[], es + [Ask(first)]), more);
      && Answer(auth, store, later).0.Some? && Answer(auth, store, later).1 == store
      && Answer(auth, store, later).0.value.(meta := "") == auth[first.header[7..]].(meta := "")
  {
    var token := first.header[7..];
    StoreStaysGenuine(auth, map[], es);
    StoreAfterSnoc(auth, map[], es, first);
    var store := StoreAfter(auth, map[], es + [Ask(first)]);
    assert Serves(auth, store, token, limit);
    StillServes(auth, store, token, limit, more);
  }

  /** The instant of expiry is reached: a token that was cached before is then accepted by the cache and
      refused by the auth service. */
  lemma EdgeExample()
    ensures
      var auth := map["t" := Response("u", [], Some(10), "")];
      var first, second := Request("Bearer t", 5, 5, "a", true), Request("Bearer t", 10, 10, "b", true);
      var store := StoreAfter(auth, map[], [Ask(first)]);
      && OnTheEdge(store, second)
      && Answer(auth, store, second).0 == Some(Response("u", [], Some(10), "a"))
      && Direct(auth, second).None?
  {
    var auth := map["t" := Response("u", [], Some(10), "")];
    var first := Request("Bearer t", 5, 5, "a", true);
    assert "Bearer t"[|BEARER|..] == "t";
    assert [Ask(first)][1..] == [];
    assert Answer(auth, map[], first).1 == map["t" := CachedToken(Response("u", [], Some(10), "a"), 10)];
  }

  /** A hit may carry the metadata of another request. */
  lemma MetadataExample()
    ensures
      var auth := map["t" := Response("u", [], Some(10), "")];
      var first, second := Request("Bearer t", 5, 5, "a", true), Request("Bearer t", 6, 6, "b", true);
      var store := StoreAfter(auth, map[], [Ask(first)]);
      Answer(auth, store, second).0 != Direct(auth, second)
  {
    var auth := map["t" := Response("u", [], Some(10), "")];
    var first := Request("Bearer t", 5, 5, "a", true);
    assert "Bearer t"[|BEARER|..] == "t";
    assert [Ask(first)][1..] == [];
    assert Answer(auth, map[], first).1 == map["t" := CachedToken(Response("u", [], Some(10), "a"), 10)];
  }
}
