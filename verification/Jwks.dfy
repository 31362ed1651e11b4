/** The JWKS key cache as one goroutine sees it: the three cached fields, the
    freshness test, and the filtering of a fetched key set. */
module Jwks {
  import opened Options

  datatype PublicKey = PublicKey(modulus: nat, exponent: nat)

  type KeyMap = map<string, PublicKey>

  /** What `jwksCache` stores. */
  datatype Fields = Fields(keys: KeyMap, url: string, fetched: int)

  /** The test both GetKeys and refresh make before trusting the cached map. */
  predicate Usable(c: Fields, url: string, now: int, maxAge: int) {
    c.url == url && now - c.fetched < maxAge && |c.keys| > 0
  }

  /** One entry of a JWK set (section 5 of RFC 7517); `parsed` is what
      parseRSAPublicKey makes of its parameters, None when it rejects them. */
  datatype Jwk = Jwk(kty: string, kid: string, use: string, parsed: Option<PublicKey>)

  predicate IsSigningKey(k: Jwk) {
    k.use == "sig" && k.kty == "RSA" && k.parsed.Some?
  }

  /** `i` is the last signing key of `jwks` that carries the kid. */
  predicate Decides(jwks: seq<Jwk>, kid: string, i: nat) {
    && i < |jwks| && IsSigningKey(jwks[i]) && jwks[i].kid == kid
    && forall j :: i < j < |jwks| && IsSigningKey(jwks[j]) ==> jwks[j].kid != kid
  }

  ghost predicate Decided(jwks: seq<Jwk>, kid: string) {
    exists i: nat :: Decides(jwks, kid, i)
  }

  lemma NextEntryDecides(jwks: seq<Jwk>, n: nat, kid: string, i: nat)
    requires n < |jwks|
    ensures Decides(jwks[..n + 1], kid, i) <==>
            if IsSigningKey(jwks[n]) && jwks[n].kid == kid then i == n else Decides(jwks[..n], kid, i)
  {
    assert forall j :: 0 <= j < n ==> jwks[..n + 1][j] == jwks[..n][j];
    assert jwks[..n + 1][n] == jwks[n];
  }

  datatype FetchError = NoSigningKeys

  /** The loop of fetchJWKS. It succeeds exactly when some entry is a signing
      key, so a successful fetch never yields an empty map, and for each kid the
      last signing key with that kid wins. */
  method CollectKeys(jwks: seq<Jwk>) returns (r: Result<KeyMap, FetchError>)
    ensures r.Ok? <==> exists i :: 0 <= i < |jwks| && IsSigningKey(jwks[i])
    ensures r.Ok? ==> |r.value| > 0
    ensures r.Ok? ==> forall kid :: kid in r.value <==> Decided(jwks, kid)
    ensures r.Ok? ==> forall kid, i: nat :: Decides(jwks, kid, i) ==> kid in r.value && r.value[kid] == jwks[i].parsed.value
  {
    var keys: KeyMap := map[];
    for n := 0 to |jwks|
      invariant forall i :: 0 <= i < n && IsSigningKey(jwks[i]) ==> jwks[i].kid in keys
      invariant forall kid :: kid in keys ==> Decided(jwks[..n], kid)
      invariant forall kid, i: nat :: Decides(jwks[..n], kid, i) ==> kid in keys && keys[kid] == jwks[i].parsed.value
    {
      var k := jwks[n];
      if k.use == "sig" && k.kty == "RSA" && k.parsed.Some? {
        keys := keys[k.kid := k.parsed.value];
      }
      forall kid, i: nat
        ensures Decides(jwks[..n + 1], kid, i) <==>
                if IsSigningKey(k) && k.kid == kid then i == n else Decides(jwks[..n], kid, i)
      {
        NextEntryDecides(jwks, n, kid, i);
      }
      forall kid | kid in keys
        ensures Decided(jwks[..n + 1], kid)
      {
        if IsSigningKey(k) && k.kid == kid {
          assert Decides(jwks[..n + 1], kid, n);
        }
      }
    }
    assert jwks[..|jwks|] == jwks;
    if |keys| == 0 {
      return Err(NoSigningKeys);
    }
    assert exists kid :: kid in keys;
    return Ok(keys);
  }

  /** What one uninterrupted refresh returns and leaves behind, given when it
      rechecks, what the endpoint answers and when it stamps the answer. */
  function RefreshOutcome(c: Fields, url: string, maxAge: int, now: int, answer: Option<KeyMap>, stamp: int)
    : (r: (Option<KeyMap>, Fields))
  {
    if Usable(c, url, now, maxAge) then (Some(c.keys), c)
    else if answer.None? then (None, c)
    else (answer, Fields(answer.value, url, stamp))
  }

  class JwksCache {
    var keys: KeyMap
    var url: string
    var fetched: int
    const ttl: int
    const minRefresh: int

    constructor ()
      ensures keys == map[] && url == "" && ttl == 3600 && minRefresh == 60
    {
      keys, url := map[], "";
      ttl, minRefresh := 3600, 60;
    }

    function View(): Fields
      reads this
    {
      Fields(keys, url, fetched)
    }

    /** refresh: recheck at `now`, else fetch; a failed fetch leaves all three
        fields alone, so only successful fetches are rate-limited. */
    method Refresh(jwksUrl: string, maxAge: int, now: int, answer: Option<KeyMap>, stamp: int)
      returns (r: Option<KeyMap>)
      modifies this
      ensures (r, View()) == RefreshOutcome(old(View()), jwksUrl, maxAge, now, answer, stamp)
      ensures r == None ==> View() == old(View())
    {
      if url == jwksUrl && now - fetched < maxAge && |keys| > 0 {
        return Some(keys);
      }
      if answer.None? {
        return None;
      }
      keys := answer.value;
      url := jwksUrl;
      fetched := stamp;
      return answer;
    }

    /** GetKeys: the check under the read lock happens at `now`, the recheck of
        refresh under the write lock at `later`. */
    method GetKeys(jwksUrl: string, now: int, later: int, answer: Option<KeyMap>, stamp: int)
      returns (r: Option<KeyMap>)
      modifies this
      ensures (r, View()) == if Usable(old(View()), jwksUrl, now, ttl)
                             then (Some(old(keys)), old(View()))
                             else RefreshOutcome(old(View()), jwksUrl, ttl, later, answer, stamp)
    {
      if url == jwksUrl && now - fetched < ttl && |keys| > 0 {
        return Some(keys);
      }
      r := Refresh(jwksUrl, ttl, later, answer, stamp);
    }

    method RefreshKeys(jwksUrl: string, now: int, answer: Option<KeyMap>, stamp: int)
      returns (r: Option<KeyMap>)
      modifies this
      ensures (r, View()) == RefreshOutcome(old(View()), jwksUrl, minRefresh, now, answer, stamp)
    {
      r := Refresh(jwksUrl, minRefresh, now, answer, stamp);
    }
  }
}
