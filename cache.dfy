/**
  The Redis cache of document vectors and pairwise similarity scores.

  A connection is set up lazily, once per process: the first operation parses the
  broker URL and pings the server; success memoises the client, failure memoises
  "unavailable" and disables caching for good.  Entries are written with a time to
  live; a logical clock decides expiry.  Every operation absorbs the server's
  exceptions: a read that fails gives nothing, a write that fails changes nothing.
*/
module Cache {
  import opened Wrappers
  import opened Text

  /** Where a client connects: `redis.Redis(host=…, port=…, db=…)`. */
  datatype Endpoint = Endpoint(host: string, port: nat, db: nat)

  /** `vector:<id>` and `similarity:<min>:<max>`, kept structural. */
  datatype Key = VectorKey(id: int) | SimilarityKey(lo: int, hi: int)

  /** A JSON list of floats or the text of one float, as stored. */
  datatype Value = VectorValue(vector: seq<real>) | ScoreValue(score: real)

  /** A stored value and the clock reading at which it expires. */
  datatype Entry = Entry(value: Value, expiresAt: int)

  const VectorTtl: nat := 3600
  const SimilarityTtl: nat := 7200
  const DefaultBrokerUrl: string := "redis://localhost:6379/0"
  const DefaultEndpoint: Endpoint := Endpoint("localhost", 6379, 0)

  // ---------------------------------------------------------------- broker URL

  /** Length of the run of characters other than ':' at the start of `s`. */
  function HostLength(s: string): (n: nat)
    ensures n <= |s|
    ensures forall i :: 0 <= i < n ==> s[i] != ':'
    ensures n == |s| || s[n] == ':'
  {
    if s != [] && s[0] != ':' then 1 + HostLength(s[1..]) else 0
  }

  /** Length of the run of ASCII digits at the start of `s`. */
  function DigitRun(s: string): (n: nat)
    ensures n <= |s|
    ensures AllDigits(s[..n])
    ensures n == |s| || !IsDigit(s[n])
  {
    if s != [] && IsDigit(s[0]) then
      var n := 1 + DigitRun(s[1..]);
      assert s[..n] == [s[0]] + s[1..][..n - 1];
      n
    else 0
  }

  /**
    `re.match(r'redis://([^:]+):(\d+)/(\d+)', url)`, anchored at the start only,
    with `localhost`, 6379 and 0 when it does not match.
  */
  function ParseBrokerUrl(url: string): (e: Endpoint)
    ensures e == DefaultEndpoint || (|e.host| > 0 && ':' !in e.host)
  {
    if |url| < 8 || url[..8] != "redis://" then DefaultEndpoint
    else ParseHost(url[8..])
  }

  /** `([^:]+):` and what follows. */
  function ParseHost(rest: string): (e: Endpoint)
    ensures e == DefaultEndpoint || (|e.host| > 0 && ':' !in e.host)
  {
    var hl := HostLength(rest);
    if hl == 0 || hl == |rest| then DefaultEndpoint
    else ParsePort(rest[..hl], rest[hl + 1..])
  }

  /** `(\d+)/` and what follows. */
  function ParsePort(host: string, rest: string): (e: Endpoint)
    requires |host| > 0 && ':' !in host
    ensures e == DefaultEndpoint || (|e.host| > 0 && ':' !in e.host)
  {
    var pl := DigitRun(rest);
    if pl == 0 || pl == |rest| || rest[pl] != '/' then DefaultEndpoint
    else ParseDb(host, DigitsValue(rest[..pl]), rest[pl + 1..])
  }

  /** `(\d+)`; anything after the digits is ignored. */
  function ParseDb(host: string, port: nat, rest: string): (e: Endpoint)
    requires |host| > 0 && ':' !in host
    ensures e == DefaultEndpoint || (|e.host| > 0 && ':' !in e.host)
  {
    var dl := DigitRun(rest);
    if dl == 0 then DefaultEndpoint else Endpoint(host, port, DigitsValue(rest[..dl]))
  }

  /** The URL text for an endpoint. */
  function BrokerUrl(e: Endpoint): string
  {
    "redis://" + e.host + ":" + Decimal(e.port) + "/" + Decimal(e.db)
  }

  lemma {:induction false} HostLengthOf(host: string, rest: string)
    requires ':' !in host
    ensures HostLength(host + ":" + rest) == |host|
    decreases |host|
  {
    if host != [] {
      assert (host + ":" + rest)[1..] == host[1..] + ":" + rest;
      HostLengthOf(host[1..], rest);
    }
  }

  lemma {:induction false} DigitRunOf(d: string, rest: string)
    requires AllDigits(d)
    requires rest == [] || !IsDigit(rest[0])
    ensures DigitRun(d + rest) == |d|
    decreases |d|
  {
    if d != [] {
      assert (d + rest)[0] == d[0];
      assert (d + rest)[1..] == d[1..] + rest;
      DigitRunOf(d[1..], rest);
    } else {
      assert d + rest == rest;
    }
  }

  /**
    A well-formed URL gives back its host, port and database, whatever follows the
    database number (the match is anchored only at the start).
  */
  lemma {:induction false} ParseBrokerUrlRoundTrip(e: Endpoint, tail: string)
    requires |e.host| > 0 && ':' !in e.host
    requires tail == [] || !IsDigit(tail[0])
    ensures ParseBrokerUrl(BrokerUrl(e) + tail) == e
  {
    var p, d := Decimal(e.port), Decimal(e.db);
    var afterPort := d + tail;
    var afterHost := p + "/" + afterPort;
    var rest := e.host + ":" + afterHost;
    assert BrokerUrl(e) + tail == "redis://" + rest;
    assert ("redis://" + rest)[..8] == "redis://";
    assert ("redis://" + rest)[8..] == rest;
    HostLengthOf(e.host, afterHost);
    assert rest[|e.host| + 1..] == afterHost;
    assert rest[..|e.host|] == e.host;
    ParsePortOf(e.host, p, afterPort);
    DigitRunOf(d, tail);
    assert afterPort[..|d|] == d;
  }

  lemma {:induction false} ParsePortOf(host: string, p: string, afterPort: string)
    requires |host| > 0 && ':' !in host
    requires |p| > 0 && AllDigits(p)
    ensures ParsePort(host, p + "/" + afterPort) == ParseDb(host, DigitsValue(p), afterPort)
  {
    var slashed := ['/'] + afterPort;
    var afterHost := p + slashed;
    assert afterHost == p + "/" + afterPort;
    assert slashed[0] == '/' && !IsDigit('/');
    DigitRunOf(p, slashed);
    var pl := DigitRun(afterHost);
    assert pl == |p|;
    assert afterHost[pl] == '/';
    assert afterHost[pl + 1..] == afterPort;
    assert afterHost[..pl] == p;
  }

  /** A URL with another scheme falls back to localhost:6379/0. */
  lemma {:induction false} ParseBrokerUrlOtherScheme(url: string)
    requires |url| < 8 || url[..8] != "redis://"
    ensures ParseBrokerUrl(url) == DefaultEndpoint
  {
  }

  // ---------------------------------------------------------------- store and connection state

  /** The value under `k` if it has not expired at time `now`. */
  function Lookup(store: map<Key, Entry>, now: int, k: Key): Option<Value>
  {
    if k in store && now < store[k].expiresAt then Some(store[k].value) else None
  }

  /** The key of a pair of documents: the smaller id first. */
  function SimilarityKeyOf(a: int, b: int): (k: Key)
    ensures k.SimilarityKey? && k.lo <= k.hi
    ensures (k.lo == a && k.hi == b) || (k.lo == b && k.hi == a)
  {
    if a <= b then SimilarityKey(a, b) else SimilarityKey(b, a)
  }

  /**
    Everything the cache functions depend on: the broker URL in the environment,
    whether the server answers now, the module globals `redis_available` and
    `redis_client`, the server's key space and the clock.
  */
  datatype CacheState = CacheState(
    brokerUrl: Option<string>,
    serverUp: bool,
    available: Option<bool>,
    client: Option<Endpoint>,
    store: map<Key, Entry>,
    now: int)

  /** A client is held exactly when the availability flag is set to true. */
  predicate Coherent(st: CacheState) {
    st.client.Some? <==> st.available == Some(true)
  }

  /** `get_redis_client`: connects at most once and remembers the outcome. */
  function Connect(st: CacheState): (r: CacheState)
    requires Coherent(st)
    ensures Coherent(r) && r.available.Some?
    ensures r.(available := st.available, client := st.client) == st
  {
    if st.available == Some(false) || st.client.Some? then st
    else
      var url := match st.brokerUrl case Some(u) => u case None => DefaultBrokerUrl;
      if st.serverUp then st.(available := Some(true), client := Some(ParseBrokerUrl(url)))
      else st.(available := Some(false), client := None)
  }

  /** Whether an operation issued in this state reaches the server. */
  predicate Live(st: CacheState) {
    st.client.Some? && st.serverUp
  }

  /** What `get_cached_vector(id)` returns. */
  function VectorRead(st: CacheState, id: int): Option<seq<real>>
    requires Coherent(st)
  {
    var c := Connect(st);
    if !Live(c) then None
    else match Lookup(c.store, c.now, VectorKey(id))
      case Some(VectorValue(v)) => Some(v)
      case _ => None
  }

  /** What `get_cached_similarity(a, b)` returns. */
  function SimilarityRead(st: CacheState, a: int, b: int): Option<real>
    requires Coherent(st)
  {
    var c := Connect(st);
    if !Live(c) then None
    else match Lookup(c.store, c.now, SimilarityKeyOf(a, b))
      case Some(ScoreValue(s)) => Some(s)
      case _ => None
  }

  /** The state after `cache_vector(id, v)`. */
  function PutVector(st: CacheState, id: int, v: seq<real>): CacheState
    requires Coherent(st)
  {
    var c := Connect(st);
    if !Live(c) then c
    else c.(store := c.store[VectorKey(id) := Entry(VectorValue(v), c.now + VectorTtl)])
  }

  /** The state after `invalidate_vector_cache(id)`. */
  function Invalidate(st: CacheState, id: int): CacheState
    requires Coherent(st)
  {
    var c := Connect(st);
    if !Live(c) then c else c.(store := c.store - {VectorKey(id)})
  }

  /** The state after `cache_similarity_result(a, b, s)`. */
  function PutSimilarity(st: CacheState, a: int, b: int, s: real): CacheState
    requires Coherent(st)
  {
    var c := Connect(st);
    if !Live(c) then c
    else c.(store := c.store[SimilarityKeyOf(a, b) := Entry(ScoreValue(s), c.now + SimilarityTtl)])
  }

  function Tick(st: CacheState, dt: nat): CacheState {
    st.(now := st.now + dt)
  }

  // ---------------------------------------------------------------- properties

  /** A second call of `get_redis_client` changes nothing: the attempt is made once. */
  lemma {:induction false} ConnectOnce(st: CacheState)
    requires Coherent(st)
    ensures Connect(Connect(st)) == Connect(st)
  {
  }

  /** The first call connects to the parsed URL if the server answers, and marks the cache unavailable otherwise. */
  lemma {:induction false} ConnectFirst(st: CacheState)
    requires Coherent(st) && st.available.None?
    ensures Connect(st).client == if st.serverUp then Some(ParseBrokerUrl(st.brokerUrl.UnwrapOr(DefaultBrokerUrl))) else None
  {
  }

  /** Once a connection has failed, no later operation uses the server, even if it comes back. */
  lemma {:induction false} UnavailableForever(st: CacheState, id: int, a: int, b: int, v: seq<real>, s: real, up: bool, dt: nat)
    requires st.available == Some(false) && st.client.None?
    ensures var st' := Tick(st.(serverUp := up), dt);
      Connect(st').client.None? &&
      VectorRead(st', id).None? && SimilarityRead(st', a, b).None? &&
      PutVector(st', id, v) == st' && Invalidate(st', id) == st' && PutSimilarity(st', a, b, s) == st'
  {
  }

  /** Once connected, the same client is used from then on. */
  lemma {:induction false} ClientReused(st: CacheState, id: int, a: int, b: int, v: seq<real>, s: real)
    requires Coherent(st) && st.client.Some?
    ensures Connect(st) == st
    ensures PutVector(st, id, v).client == st.client
    ensures Invalidate(st, id).client == st.client
    ensures PutSimilarity(st, a, b, s).client == st.client
  {
  }

  /**
    When the operation does not reach a server (no client, or the server raises),
    the reads give nothing and the writes leave the key space as it was.
  */
  lemma {:induction false} NotLiveNoEffect(st: CacheState, id: int, a: int, b: int, v: seq<real>, s: real)
    requires Coherent(st) && !Live(Connect(st))
    ensures VectorRead(st, id).None? && SimilarityRead(st, a, b).None?
    ensures PutVector(st, id, v).store == st.store
    ensures Invalidate(st, id).store == st.store
    ensures PutSimilarity(st, a, b, s).store == st.store
  {
  }

  /** A cached vector is read back until its time to live has elapsed, and not after. */
  lemma {:induction false} VectorRoundTrip(st: CacheState, id: int, v: seq<real>, dt: nat)
    requires Coherent(st) && Live(Connect(st))
    ensures VectorRead(Tick(PutVector(st, id, v), dt), id) == if dt < VectorTtl then Some(v) else None
  {
    var c := Connect(st);
    var w := Tick(PutVector(st, id, v), dt);
    assert Connect(w) == w;
  }

  /** A score cached for (a, b) is read back for (b, a) until its time to live has elapsed. */
  lemma {:induction false} SimilarityRoundTrip(st: CacheState, a: int, b: int, s: real, dt: nat)
    requires Coherent(st) && Live(Connect(st))
    ensures SimilarityRead(Tick(PutSimilarity(st, a, b, s), dt), b, a) == if dt < SimilarityTtl then Some(s) else None
  {
    var w := Tick(PutSimilarity(st, a, b, s), dt);
    assert Connect(w) == w;
    assert SimilarityKeyOf(b, a) == SimilarityKeyOf(a, b);
  }

  /** The order of the two ids never matters. */
  lemma {:induction false} SimilaritySymmetric(st: CacheState, a: int, b: int, s: real)
    requires Coherent(st)
    ensures SimilarityRead(st, a, b) == SimilarityRead(st, b, a)
    ensures PutSimilarity(st, a, b, s) == PutSimilarity(st, b, a, s)
  {
    assert SimilarityKeyOf(b, a) == SimilarityKeyOf(a, b);
  }

  /** After invalidation the vector is gone. */
  lemma {:induction false} VectorReadAfterInvalidate(st: CacheState, id: int)
    requires Coherent(st)
    ensures VectorRead(Invalidate(st, id), id).None?
  {
    var c := Connect(st);
    assert Connect(Invalidate(st, id)) == Invalidate(st, id);
  }

  /** Writing one vector leaves every other key as it was. */
  lemma {:induction false} PutVectorOthers(st: CacheState, id: int, v: seq<real>, k: Key)
    requires Coherent(st) && k != VectorKey(id)
    ensures Lookup(PutVector(st, id, v).store, st.now, k) == Lookup(st.store, st.now, k)
  {
  }

  // ---------------------------------------------------------------- the module as an object

  /**
    The module globals and the server's key space as one object; each method
    performs one function of `utils_cache.py` on it.
  */
  class RedisCache {
    const brokerUrl: Option<string>
    var serverUp: bool
    var available: Option<bool>
    var client: Option<Endpoint>
    var store: map<Key, Entry>
    var now: int

    function State(): CacheState
      reads this
    {
      CacheState(brokerUrl, serverUp, available, client, store, now)
    }

    predicate Valid()
      reads this
    {
      Coherent(State())
    }

    /** A fresh process: nothing attempted yet. */
    constructor (brokerUrl: Option<string>, serverUp: bool, store: map<Key, Entry>, now: int)
      ensures Valid()
      ensures State() == CacheState(brokerUrl, serverUp, None, None, store, now)
    {
      this.brokerUrl := brokerUrl;
      this.serverUp := serverUp;
      available := None;
      client := None;
      this.store := store;
      this.now := now;
    }

    /** `get_redis_client()`. */
    method GetRedisClient() returns (c: Option<Endpoint>)
      requires Valid()
      modifies this
      ensures Valid() && State() == Connect(old(State()))
      ensures c == client
    {
      if available == Some(false) {
        return None;
      }
      if client.None? {
        var url := match brokerUrl case Some(u) => u case None => DefaultBrokerUrl;
        var e := ParseBrokerUrl(url);
        if serverUp {
          client := Some(e);
          available := Some(true);
        } else {
          available := Some(false);
          client := None;
        }
      }
      c := client;
    }

    /** `get_cached_vector(id)`. */
    method GetCachedVector(id: int) returns (v: Option<seq<real>>)
      requires Valid()
      modifies this
      ensures Valid() && State() == Connect(old(State()))
      ensures v == VectorRead(old(State()), id)
    {
      var c := GetRedisClient();
      if c.None? || !serverUp {
        return None;
      }
      v := match Lookup(store, now, VectorKey(id))
        case Some(VectorValue(x)) => Some(x)
        case _ => None;
    }

    /** `cache_vector(id, v)` with the default time to live. */
    method CacheVector(id: int, v: seq<real>)
      requires Valid()
      modifies this
      ensures Valid() && State() == PutVector(old(State()), id, v)
    {
      var c := GetRedisClient();
      if c.None? || !serverUp {
        return;
      }
      store := store[VectorKey(id) := Entry(VectorValue(v), now + VectorTtl)];
    }

    /** `invalidate_vector_cache(id)`. */
    method InvalidateVectorCache(id: int)
      requires Valid()
      modifies this
      ensures Valid() && State() == Invalidate(old(State()), id)
    {
      var c := GetRedisClient();
      if c.None? || !serverUp {
        return;
      }
      store := store - {VectorKey(id)};
    }

    /** `cache_similarity_result(a, b, s)` with the default time to live. */
    method CacheSimilarityResult(a: int, b: int, s: real)
      requires Valid()
      modifies this
      ensures Valid() && State() == PutSimilarity(old(State()), a, b, s)
    {
      var c := GetRedisClient();
      if c.None? || !serverUp {
        return;
      }
      store := store[SimilarityKeyOf(a, b) := Entry(ScoreValue(s), now + SimilarityTtl)];
    }

    /** `get_cached_similarity(a, b)`. */
    method GetCachedSimilarity(a: int, b: int) returns (s: Option<real>)
      requires Valid()
      modifies this
      ensures Valid() && State() == Connect(old(State()))
      ensures s == SimilarityRead(old(State()), a, b)
    {
      var c := GetRedisClient();
      if c.None? || !serverUp {
        return None;
      }
      s := match Lookup(store, now, SimilarityKeyOf(a, b))
        case Some(ScoreValue(x)) => Some(x)
        case _ => None;
    }

    /** The clock advances. */
    method Advance(dt: nat)
      requires Valid()
      modifies this
      ensures Valid() && State() == Tick(old(State()), dt)
    {
      now := now + dt;
    }

    /** The server goes down or comes back. */
    method SetServerUp(up: bool)
      requires Valid()
      modifies this
      ensures Valid() && State() == old(State()).(serverUp := up)
    {
      serverUp := up;
    }
  }
}
