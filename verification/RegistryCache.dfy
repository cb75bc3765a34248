/** The two cache levels of the registry client: one map per process, and a Redis store the
    processes share. */
module RegistryCache {
  import opened Wrappers

  type ClientId = nat

  datatype Kind = RagContext | ToolSearch

  /** The arguments of a lookup, which are the key of the first level. */
  datatype Query = Query(kind: Kind, domain: Option<string>, text: string, k: int)

  /** The key of the second level and of the request: no domain and an empty one are the same.
      The digest of the text stands for the text. */
  datatype Request = Request(kind: Kind, domain: string, text: string, k: int)

  function RequestOf(q: Query): Request {
    Request(q.kind, if q.domain.Some? then q.domain.value else "", q.text, q.k)
  }

  type Answer = seq<string>
  datatype Entry = Entry(expires: real, value: Answer)

  predicate Fresh<K>(level: map<K, Entry>, key: K, now: real) {
    key in level && now < level[key].expires
  }

  /** What the outside does during one lookup: whether Redis answers the read and the write, and
      what the service responds (None for any failure). */
  datatype Outside = Outside(readable: bool, response: Option<Answer>, writable: bool)

  /** Both levels after a lookup, and the answer. */
  datatype Looked = Looked(l1: map<Query, Entry>, l2: map<Request, Entry>, answer: Answer)

  function Lookup(l1: map<Query, Entry>, l2: map<Request, Entry>, ttl: int, ragTtl: int,
                  q: Query, now: real, out: Outside): Looked {
    var r := RequestOf(q);
    if Fresh(l1, q, now) then Looked(l1, l2, l1[q].value)
    else if out.readable && Fresh(l2, r, now) then
      Looked(l1[q := Entry(now + ttl as real, l2[r].value)], l2, l2[r].value)
    else if out.response.None? then Looked(l1, l2, [])
    else
      var v := out.response.value;
      Looked(l1[q := Entry(now + ttl as real, v)],
             if v != [] && out.writable && ragTtl > 0 then l2[r := Entry(now + ragTtl as real, v)] else l2,
             v)
  }

  class RedisServer {
    var store: map<Request, Entry>
  }

  /** One client process; several may share a server. */
  class ScalableRegistryClient {
    var cache: map<Query, Entry>
    const redis: RedisServer
    const ttl: int
    const ragTtl: int

    constructor (redis: RedisServer, ttl: int, ragTtl: int)
      ensures this.redis == redis && this.ttl == ttl && this.ragTtl == ragTtl && cache == map[]
    {
      this.redis, this.ttl, this.ragTtl := redis, ttl, ragTtl;
      cache := map[];
    }

    method Set(q: Query, v: Answer, now: real)
      modifies this
      ensures cache == old(cache)[q := Entry(now + ttl as real, v)]
    {
      cache := cache[q := Entry(now + ttl as real, v)];
    }

    method Retrieve(q: Query, now: real, out: Outside) returns (answer: Answer)
      modifies this, redis
      ensures var looked := Lookup(old(cache), old(redis.store), ttl, ragTtl, q, now, out);
              cache == looked.l1 && redis.store == looked.l2 && answer == looked.answer
    {
      if q in cache && now < cache[q].expires {
        return cache[q].value;
      }
      var r := RequestOf(q);
      if out.readable && r in redis.store && now < redis.store[r].expires {
        answer := redis.store[r].value;
        Set(q, answer, now);
        return;
      }
      if out.response.None? {
        return [];
      }
      answer := out.response.value;
      Set(q, answer, now);
      if answer != [] && out.writable && ragTtl > 0 {
        redis.store := redis.store[r := Entry(now + ragTtl as real, answer)];
      }
    }
  }

  // ---- Many clients ----

  datatype Fetch = Fetch(at: real, request: Request, value: Answer)

  /** `fetches` records the successful responses of the service. */
  datatype Fleet = Fleet(
    clock: real,
    caches: map<ClientId, map<Query, Entry>>,
    store: map<Request, Entry>,
    fetches: seq<Fetch>,
    ttl: int,
    ragTtl: int)

  datatype Action = Ask(c: ClientId, q: Query, out: Outside) | Flush(c: ClientId) | Elapse(seconds: real)

  function CacheOf(x: Fleet, c: ClientId): map<Query, Entry> {
    if c in x.caches then x.caches[c] else map[]
  }

  function Looks(x: Fleet, c: ClientId, q: Query, out: Outside): Looked {
    Lookup(CacheOf(x, c), x.store, x.ttl, x.ragTtl, q, x.clock, out)
  }

  /** The lookup is answered by one of the levels. */
  predicate Cached(x: Fleet, c: ClientId, q: Query, out: Outside) {
    Fresh(CacheOf(x, c), q, x.clock) || (out.readable && Fresh(x.store, RequestOf(q), x.clock))
  }

  /** The service is asked, and gives a response. */
  predicate Responds(x: Fleet, c: ClientId, q: Query, out: Outside) {
    !Cached(x, c, q, out) && out.response.Some?
  }

  function Next(x: Fleet, a: Action): Fleet {
    match a
    case Ask(c, q, out) =>
      var looked := Looks(x, c, q, out);
      x.(caches := x.caches[c := looked.l1], store := looked.l2,
         fetches := if Responds(x, c, q, out) then x.fetches + [Fetch(x.clock, RequestOf(q), out.response.value)]
                    else x.fetches)
    case Flush(c) => x.(caches := x.caches[c := map[]])
    case Elapse(d) => if d > 0.0 then x.(clock := x.clock + d) else x
  }

  function After(x0: Fleet, acts: seq<Action>, n: nat): Fleet
    requires n <= |acts|
  {
    if n == 0 then x0 else Next(After(x0, acts, n - 1), acts[n - 1])
  }

  predicate Empty(x: Fleet) {
    x.caches == map[] && x.store == map[] && x.fetches == []
  }

  // ---- Staleness ----

  function Life(seconds: int): real {
    if seconds > 0 then seconds as real else 0.0
  }

  /** Some response to this request, no later than now, had this value and was received so late that
      the entry outlives it by at most `life`. */
  ghost predicate Backed(fetches: seq<Fetch>, r: Request, e: Entry, life: real, now: real) {
    exists i :: 0 <= i < |fetches| && BackedBy(fetches[i], r, e, life, now)
  }

  predicate BackedBy(f: Fetch, r: Request, e: Entry, life: real, now: real) {
    f.request == r && f.value == e.value && e.expires <= f.at + life && f.at <= now
  }

  function L1Life(x: Fleet, v: Answer): real {
    if v == [] then Life(x.ttl) else Life(x.ttl) + Life(x.ragTtl)
  }

  ghost predicate StoreBacked(x: Fleet) {
    forall r :: r in x.store ==> x.store[r].value != [] && Backed(x.fetches, r, x.store[r], Life(x.ragTtl), x.clock)
  }

  ghost predicate CacheBacked(x: Fleet, cache: map<Query, Entry>) {
    forall q :: q in cache ==> Backed(x.fetches, RequestOf(q), cache[q], L1Life(x, cache[q].value), x.clock)
  }

  ghost predicate AllBacked(x: Fleet) {
    StoreBacked(x) && forall c :: c in x.caches ==> CacheBacked(x, x.caches[c])
  }

  lemma BackedMore(fetches: seq<Fetch>, f: Fetch, r: Request, e: Entry, life: real, now: real)
    requires Backed(fetches, r, e, life, now)
    ensures Backed(fetches + [f], r, e, life, now)
  {
    var i :| 0 <= i < |fetches| && BackedBy(fetches[i], r, e, life, now);
    assert (fetches + [f])[i] == fetches[i];
  }

  lemma BackedLater(fetches: seq<Fetch>, r: Request, e: Entry, life: real, now: real, later: real)
    requires Backed(fetches, r, e, life, now) && now <= later
    ensures Backed(fetches, r, e, life, later)
  {
    var i :| 0 <= i < |fetches| && BackedBy(fetches[i], r, e, life, now);
    assert BackedBy(fetches[i], r, e, life, later);
  }

  /** The first-level entry a lookup writes, from the service or from the shared level. */
  lemma NewEntryBacked(x: Fleet, c: ClientId, q: Query, out: Outside)
    requires AllBacked(x) && Looks(x, c, q, out).l1 != CacheOf(x, c)
    ensures var y := Next(x, Ask(c, q, out));
            var e := Entry(x.clock + x.ttl as real, Looks(x, c, q, out).answer);
            && Looks(x, c, q, out).l1 == CacheOf(x, c)[q := e]
            && Backed(y.fetches, RequestOf(q), e, L1Life(y, e.value), y.clock)
  {
    var y := Next(x, Ask(c, q, out));
    var r := RequestOf(q);
    var e := Entry(x.clock + x.ttl as real, Looks(x, c, q, out).answer);
    if Responds(x, c, q, out) {
      assert BackedBy(y.fetches[|x.fetches|], r, e, L1Life(y, e.value), y.clock);
    } else {
      var i :| 0 <= i < |x.fetches| && BackedBy(x.fetches[i], r, x.store[r], Life(x.ragTtl), x.clock);
      assert BackedBy(y.fetches[i], r, e, L1Life(y, e.value), y.clock);
    }
  }

  lemma LookupBacked(x: Fleet, c: ClientId, q: Query, out: Outside)
    requires AllBacked(x)
    ensures var y := Next(x, Ask(c, q, out));
            CacheBacked(y, y.caches[c])
  {
    var y := Next(x, Ask(c, q, out));
    var before := CacheOf(x, c);
    if y.caches[c] != before {
      NewEntryBacked(x, c, q, out);
    }
    hide Lookup;
    forall p | p in y.caches[c]
      ensures Backed(y.fetches, RequestOf(p), y.caches[c][p], L1Life(y, y.caches[c][p].value), y.clock)
    {
      if p in before && y.caches[c][p] == before[p] {
        assert CacheBacked(x, before);
        if y.fetches != x.fetches {
          BackedMore(x.fetches, y.fetches[|x.fetches|], RequestOf(p), before[p], L1Life(x, before[p].value), x.clock);
        }
      }
    }
  }

  lemma AskKeepsStore(x: Fleet, c: ClientId, q: Query, out: Outside)
    requires AllBacked(x)
    ensures StoreBacked(Next(x, Ask(c, q, out)))
  {
    var y := Next(x, Ask(c, q, out));
    forall r | r in y.store
      ensures y.store[r].value != [] && Backed(y.fetches, r, y.store[r], Life(y.ragTtl), y.clock)
    {
      if r in x.store && y.store[r] == x.store[r] {
        if y.fetches != x.fetches {
          BackedMore(x.fetches, y.fetches[|x.fetches|], r, x.store[r], Life(x.ragTtl), x.clock);
        }
      } else {
        assert BackedBy(y.fetches[|x.fetches|], r, y.store[r], Life(y.ragTtl), y.clock);
      }
    }
  }

  lemma StepBacked(x: Fleet, a: Action)
    requires AllBacked(x)
    ensures AllBacked(Next(x, a))
  {
    var y := Next(x, a);
    match a
    case Ask(c, q, out) =>
      AskKeepsStore(x, c, q, out);
      LookupBacked(x, c, q, out);
      forall d | d in y.caches ensures CacheBacked(y, y.caches[d]) {
        if d != c {
          forall p | p in y.caches[d]
            ensures Backed(y.fetches, RequestOf(p), y.caches[d][p], L1Life(y, y.caches[d][p].value), y.clock)
          {
            assert CacheBacked(x, x.caches[d]);
            if y.fetches != x.fetches {
              var e := x.caches[d][p];
              BackedMore(x.fetches, y.fetches[|x.fetches|], RequestOf(p), e, L1Life(x, e.value), x.clock);
            }
          }
        }
      }
    case Flush(c) =>
      forall d | d in y.caches ensures CacheBacked(y, y.caches[d]) {
        assert d in x.caches ==> CacheBacked(x, x.caches[d]);
      }
    case Elapse(d) =>
      forall r | r in y.store
        ensures y.store[r].value != [] && Backed(y.fetches, r, y.store[r], Life(y.ragTtl), y.clock)
      {
        BackedLater(x.fetches, r, x.store[r], Life(x.ragTtl), x.clock, y.clock);
      }
      forall c | c in y.caches ensures CacheBacked(y, y.caches[c]) {
        forall p | p in y.caches[c]
          ensures Backed(y.fetches, RequestOf(p), y.caches[c][p], L1Life(y, y.caches[c][p].value), y.clock)
        {
          assert CacheBacked(x, x.caches[c]);
          BackedLater(x.fetches, RequestOf(p), x.caches[c][p], L1Life(x, x.caches[c][p].value), x.clock, y.clock);
        }
      }
  }

  lemma {:induction false} AlwaysBacked(x0: Fleet, acts: seq<Action>, n: nat)
    requires Empty(x0) && n <= |acts|
    ensures AllBacked(After(x0, acts, n))
    ensures After(x0, acts, n).ttl == x0.ttl && After(x0, acts, n).ragTtl == x0.ragTtl
  {
    if n > 0 {
      AlwaysBacked(x0, acts, n - 1);
      StepBacked(After(x0, acts, n - 1), acts[n - 1]);
    }
  }

  /** In every run of any number of clients, a cached answer is a response the service gave to the
      same request less than the two lifetimes together ago, an empty one less than the first
      lifetime ago; and the shared level never holds an empty answer. */
  lemma BoundedStaleness(x0: Fleet, acts: seq<Action>, n: nat, c: ClientId, q: Query, out: Outside)
    requires Empty(x0) && n <= |acts|
    requires Cached(After(x0, acts, n), c, q, out)
    ensures var x := After(x0, acts, n);
            var answer := Looks(x, c, q, out).answer;
            exists i :: 0 <= i < |x.fetches| && x.fetches[i].request == RequestOf(q) && x.fetches[i].value == answer
                        && 0.0 <= x.clock - x.fetches[i].at < Life(x.ttl) + Life(x.ragTtl)
                        && (answer == [] ==> x.clock - x.fetches[i].at < Life(x.ttl))
    ensures var x := After(x0, acts, n);
            forall r :: r in x.store ==> x.store[r].value != []
  {
    AlwaysBacked(x0, acts, n);
    var x := After(x0, acts, n);
    var r := RequestOf(q);
    if Fresh(CacheOf(x, c), q, x.clock) {
      var e := x.caches[c][q];
      assert CacheBacked(x, x.caches[c]);
      var i :| 0 <= i < |x.fetches| && BackedBy(x.fetches[i], r, e, L1Life(x, e.value), x.clock);
    } else {
      var i :| 0 <= i < |x.fetches| && BackedBy(x.fetches[i], r, x.store[r], Life(x.ragTtl), x.clock);
    }
  }

  // ---- What the levels are for ----

  /** When no level has an answer, the response of the service is the answer, whole, and the process keeps
      it for its lifetime. */
  lemma ServiceAnswers(x: Fleet, c: ClientId, q: Query, out: Outside)
    requires Responds(x, c, q, out)
    ensures Looks(x, c, q, out).answer == out.response.value
    ensures var y := Next(x, Ask(c, q, out));
            && CacheOf(y, c) == CacheOf(x, c)[q := Entry(x.clock + x.ttl as real, out.response.value)]
            && y.fetches == x.fetches + [Fetch(x.clock, RequestOf(q), out.response.value)]
            && (out.response.value == [] || !out.writable || x.ragTtl <= 0 ==> y.store == x.store)
            && (forall r :: r != RequestOf(q) ==> (r in y.store <==> r in x.store))
            && (forall r :: r != RequestOf(q) && r in x.store ==> y.store[r] == x.store[r])
  {
  }

  /** An answer from the shared level becomes the process's own; an own answer changes nothing. */
  lemma CachedAnswers(x: Fleet, c: ClientId, q: Query, out: Outside)
    requires Cached(x, c, q, out)
    ensures var y := Next(x, Ask(c, q, out));
            && y.store == x.store && y.fetches == x.fetches
            && if Fresh(CacheOf(x, c), q, x.clock) then
                 Looks(x, c, q, out).answer == CacheOf(x, c)[q].value && CacheOf(y, c) == CacheOf(x, c)
               else
                 && Looks(x, c, q, out).answer == x.store[RequestOf(q)].value
                 && CacheOf(y, c) ==
                    CacheOf(x, c)[q := Entry(x.clock + x.ttl as real, x.store[RequestOf(q)].value)]
  {
  }

  /** A flush empties the process's own level and no other. */
  lemma FlushEmptiesOwn(x: Fleet, c: ClientId)
    ensures var y := Next(x, Flush(c));
            && CacheOf(y, c) == map[] && (forall d :: d != c ==> CacheOf(y, d) == CacheOf(x, d))
            && y.store == x.store && y.fetches == x.fetches && y.clock == x.clock
  {
  }

  /** Two lookups are the same request exactly when they differ at most in writing no domain as an empty
      one. */
  lemma SameRequest(p: Query, q: Query)
    ensures RequestOf(p) == RequestOf(q) <==>
            && p.kind == q.kind && p.text == q.text && p.k == q.k
            && (p.domain == q.domain || (p.domain in {None, Some("")} && q.domain in {None, Some("")}))
  {
  }

  lemma EntryKept(x: Fleet, a: Action, c: ClientId, q: Query)
    requires a != Flush(c) && Fresh(CacheOf(x, c), q, x.clock)
    ensures q in CacheOf(Next(x, a), c) && CacheOf(Next(x, a), c)[q] == CacheOf(x, c)[q]
  {
  }

  /** What a run without a flush of c does to an entry of c that has not expired by its end. */
  lemma {:induction false} EntryStays(x: Fleet, acts: seq<Action>, n: nat, c: ClientId, q: Query, e: Entry)
    requires n <= |acts| && Flush(c) !in acts[..n]
    requires q in CacheOf(x, c) && CacheOf(x, c)[q] == e
    requires After(x, acts, n).clock < e.expires
    ensures q in CacheOf(After(x, acts, n), c) && CacheOf(After(x, acts, n), c)[q] == e
  {
    hide Next, CacheOf;
    if n > 0 {
      assert acts[..n][..n - 1] == acts[..n - 1] && acts[..n][n - 1] == acts[n - 1];
      ClockForward(After(x, acts, n - 1), acts[n - 1]);
      EntryStays(x, acts, n - 1, c, q, e);
      EntryKept(After(x, acts, n - 1), acts[n - 1], c, q);
    }
  }

  /** Time goes forward, by what passes. */
  lemma ClockForward(x: Fleet, a: Action)
    ensures x.clock <= Next(x, a).clock
    ensures a.Elapse? && a.seconds > 0.0 ==> Next(x, a) == x.(clock := x.clock + a.seconds)
    ensures Next(x, a).ttl == x.ttl && Next(x, a).ragTtl == x.ragTtl
  {
  }

  /** A client that got a response is served it again without a request, whatever it and the others do
      meanwhile, until its own entry expires or it flushes its level. */
  lemma OwnAnswerIsServed(x: Fleet, c: ClientId, q: Query, out: Outside, acts: seq<Action>, n: nat, later: Outside)
    requires Responds(x, c, q, out)
    requires n <= |acts| && Flush(c) !in acts[..n]
    requires After(Next(x, Ask(c, q, out)), acts, n).clock < x.clock + x.ttl as real
    ensures var y := After(Next(x, Ask(c, q, out)), acts, n);
            Looks(y, c, q, later).answer == out.response.value && Cached(y, c, q, later)
  {
    var e := Entry(x.clock + x.ttl as real, out.response.value);
    EntryStays(Next(x, Ask(c, q, out)), acts, n, c, q, e);
  }

  /** The action gets a response to r from the service. */
  predicate Fetches(x: Fleet, a: Action, r: Request) {
    a.Ask? && RequestOf(a.q) == r && Responds(x, a.c, a.q, a.out)
  }

  lemma SharedKept(x: Fleet, a: Action, r: Request)
    requires !Fetches(x, a, r) && r in x.store
    ensures r in Next(x, a).store && Next(x, a).store[r] == x.store[r]
  {
  }

  ghost predicate FetchedAgain(x: Fleet, acts: seq<Action>, n: nat, r: Request)
    requires n <= |acts|
  {
    exists i :: 0 <= i < n && Fetches(After(x, acts, i), acts[i], r)
  }

  lemma {:induction false} SharedStays(x: Fleet, acts: seq<Action>, n: nat, r: Request)
    requires n <= |acts| && r in x.store && !FetchedAgain(x, acts, n, r)
    ensures r in After(x, acts, n).store && After(x, acts, n).store[r] == x.store[r]
  {
    hide Next, Fetches;
    if n > 0 {
      SharedStays(x, acts, n - 1, r);
      SharedKept(After(x, acts, n - 1), acts[n - 1], r);
    }
  }

  /** A non-empty response goes to the shared level, for any domain written the same way. */
  lemma ResponseIsShared(x: Fleet, c: ClientId, q: Query, out: Outside)
    requires Responds(x, c, q, out) && out.response.value != [] && out.writable && x.ragTtl > 0
    ensures var store := Next(x, Ask(c, q, out)).store;
            RequestOf(q) in store && store[RequestOf(q)] == Entry(x.clock + x.ragTtl as real, out.response.value)
  {
  }

  /** Any client asking for a shared response, without an entry of its own, is served it until it expires
      or a newer response to the same request replaces it, whatever the clients do meanwhile. */
  lemma SharedAnswerIsServed(x: Fleet, r: Request, acts: seq<Action>, n: nat, c: ClientId, q: Query, out: Outside)
    requires r in x.store && n <= |acts| && !FetchedAgain(x, acts, n, r)
    requires var y := After(x, acts, n);
             y.clock < x.store[r].expires && !Fresh(CacheOf(y, c), q, y.clock)
    requires RequestOf(q) == r && out.readable
    ensures var y := After(x, acts, n);
            Looks(y, c, q, out).answer == x.store[r].value && Cached(y, c, q, out)
  {
    SharedStays(x, acts, n, r);
  }

  /** A failure is answered with nothing and remembered nowhere. */
  lemma FailureNotRemembered(x: Fleet, c: ClientId, q: Query, out: Outside)
    requires !Cached(x, c, q, out) && out.response.None?
    ensures Looks(x, c, q, out).answer == []
    ensures var y := Next(x, Ask(c, q, out));
            y.store == x.store && y.fetches == x.fetches && forall d :: CacheOf(y, d) == CacheOf(x, d)
  {
  }
}
