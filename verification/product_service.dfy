/** `ProductService`: the tiered read-through lookup and product creation,
    over an explicit state holding the three tiers. */
module ProductService {
  import opened Wrappers
  import opened Model
  import opened CacheKeys
  import opened Repository

  /** The per-process local cache (by identifier), the shared distributed
      cache (by string key) and the persistent store. */
  datatype State = State(local: map<int, Product>, dist: map<string, Product>, store: Store)

  /** The tier that answered a lookup; `NotFound` when none did. */
  datatype Tier = LocalCache | DistributedCache | Database | NotFound

  datatype Lookup = Lookup(product: Option<Product>, state: State, tier: Tier)

  datatype Created = Created(id: int, state: State)

  /** Every cached copy equals the store's row for the same identifier. */
  ghost predicate Coherent(s: State) {
    && (forall k :: k in s.local ==> k in s.store.rows && s.local[k] == s.store.rows[k])
    && (forall k :: DistKey(k) in s.dist ==> k in s.store.rows && s.dist[DistKey(k)] == s.store.rows[k])
  }

  /** `getProductById`: local cache, then the distributed cache (promoting a
      hit into the local cache), then the store (populating both caches on a
      hit, caching nothing on a miss). */
  function GetProductById(s: State, id: int): (r: Lookup)
    ensures r.tier == LocalCache <==> id in s.local
    ensures r.tier == DistributedCache <==> id !in s.local && DistKey(id) in s.dist
    ensures r.tier == Database <==> id !in s.local && DistKey(id) !in s.dist && id in s.store.rows
    ensures r.product.None? <==> r.tier == NotFound
    ensures r.state.store == s.store
    ensures r.product.Some? ==> id in r.state.local && r.state.local[id] == r.product.value
  {
    if id in s.local then
      Lookup(Some(s.local[id]), s, LocalCache)
    else
      var key := DistKey(id);
      if key in s.dist then
        var cached := s.dist[key];
        Lookup(Some(cached), s.(local := s.local[id := cached]), DistributedCache)
      else
        match FindById(s.store, id)
        case Some(row) =>
          Lookup(Some(row), s.(local := s.local[id := row], dist := s.dist[key := row]), Database)
        case None =>
          Lookup(None, s, NotFound)
  }

  /** `createProduct`: build a record from the request, save it, and return
      the identifier the store assigned. The caches are not touched. */
  function CreateProduct(s: State, req: CreateProductRequest): (r: Created)
    ensures r.state.local == s.local && r.state.dist == s.dist
    ensures WellFormed(s.store) ==> r.id !in s.store.rows && WellFormed(r.state.store)
    ensures r.state.store.rows
            == s.store.rows[r.id := Product(Some(r.id), req.name, req.price, req.stock)]
  {
    var saved := SaveNew(s.store, FromRequest(req));
    Created(saved.product.id.value, s.(store := saved.store))
  }

  /** A local hit answers from the local cache and changes nothing. */
  lemma LocalHit(s: State, id: int)
    requires id in s.local
    ensures GetProductById(s, id).product == Some(s.local[id])
    ensures GetProductById(s, id).state == s
  {
  }

  /** A distributed hit answers with the distributed copy and promotes exactly
      that entry into the local cache. */
  lemma DistributedHit(s: State, id: int)
    requires id !in s.local && DistKey(id) in s.dist
    ensures var r := GetProductById(s, id);
      && r.product == Some(s.dist[DistKey(id)])
      && r.state.local == s.local[id := s.dist[DistKey(id)]]
      && r.state.dist == s.dist
      && r.state.store == s.store
  {
  }

  /** A store hit after a miss in both caches writes the row into both. */
  lemma StoreHit(s: State, id: int)
    requires id !in s.local && DistKey(id) !in s.dist && id in s.store.rows
    ensures var r := GetProductById(s, id);
      && r.product == Some(s.store.rows[id])
      && r.state.local == s.local[id := s.store.rows[id]]
      && r.state.dist == s.dist[DistKey(id) := s.store.rows[id]]
      && r.state.store == s.store
  {
  }

  /** A miss everywhere is empty and caches nothing. */
  lemma MissEverywhere(s: State, id: int)
    requires id !in s.local && DistKey(id) !in s.dist && id !in s.store.rows
    ensures GetProductById(s, id).product == None
    ensures GetProductById(s, id).state == s
  {
  }

  /** Only the entries of `id` may change: every other local entry, every
      other distributed key (in particular every other identifier's key) and
      the whole store are as before. */
  lemma LookupFrame(s: State, id: int)
    ensures var r := GetProductById(s, id);
      && r.state.store == s.store
      && (forall k :: k != id ==> (k in r.state.local <==> k in s.local))
      && (forall k :: k != id && k in s.local ==> r.state.local[k] == s.local[k])
      && (forall key :: key != DistKey(id) ==> (key in r.state.dist <==> key in s.dist))
      && (forall key :: key != DistKey(id) && key in s.dist ==> r.state.dist[key] == s.dist[key])
      && (forall j :: j != id ==> (DistKey(j) in r.state.dist <==> DistKey(j) in s.dist))
      && (forall j :: j != id && DistKey(j) in s.dist ==> r.state.dist[DistKey(j)] == s.dist[DistKey(j)])
  {
    forall j | j != id
      ensures DistKey(j) != DistKey(id)
    {
      DistKeyInjective(j, id);
    }
  }

  /** On a coherent state the lookup returns exactly the store's row (or
      nothing), whichever tier answers, and leaves the state coherent. */
  lemma CoherentLookup(s: State, id: int)
    requires Coherent(s)
    ensures GetProductById(s, id).product == FindById(s.store, id)
    ensures Coherent(GetProductById(s, id).state)
  {
    var r := GetProductById(s, id);
    if r.tier == Database {
      forall k | DistKey(k) in r.state.dist
        ensures k in s.store.rows && r.state.dist[DistKey(k)] == s.store.rows[k]
      {
        DistKeyInjective(k, id);
      }
    }
  }

  /** Reading the same identifier again returns the same answer; once found,
      it is served by the local cache and nothing further changes. */
  lemma RepeatedLookup(s: State, id: int)
    ensures var r := GetProductById(s, id);
      var r2 := GetProductById(r.state, id);
      && r2.product == r.product
      && r2.state == r.state
      && (r.product.Some? ==> r2.tier == LocalCache)
  {
  }

  /** Creating a product and then reading it back on a coherent state returns
      the record built from the request, under the identifier returned. */
  lemma CreateThenGet(s: State, req: CreateProductRequest)
    requires WellFormed(s.store) && Coherent(s)
    ensures var c := CreateProduct(s, req);
      && Coherent(c.state)
      && GetProductById(c.state, c.id).product
         == Some(Product(Some(c.id), req.name, req.price, req.stock))
  {
    var c := CreateProduct(s, req);
    assert Coherent(c.state);
    CoherentLookup(c.state, c.id);
  }

  /** Without coherence the round trip can fail: a stale local entry under
      the identifier the store is about to assign shadows the new row. */
  lemma StaleEntryShadowsCreate()
    ensures exists s: State, req: CreateProductRequest ::
      var c := CreateProduct(s, req);
      && WellFormed(s.store)
      && c.id in s.local
      && GetProductById(c.state, c.id).product == Some(s.local[c.id])
      && s.local[c.id] != Product(Some(c.id), req.name, req.price, req.stock)
  {
    var price := Decimal(10, 0);
    var stale := Product(Some(1), "old", price, 0);
    var s := State(map[1 := stale], map[], Store(map[], 1));
    var req := CreateProductRequest("new", price, 10);
    var c := CreateProduct(s, req);
    assert c.id == 1;
    assert GetProductById(c.state, c.id).product == Some(stale);
    assert "old" != "new" by { assert "old"[0] != "new"[0]; }
  }

  /** Time- and size-based expiry, as removal of arbitrary local entries. */
  function EvictLocal(s: State, keys: set<int>): (r: State)
    ensures r.local.Keys == s.local.Keys - keys
    ensures forall k :: k in r.local ==> r.local[k] == s.local[k]
    ensures r.dist == s.dist && r.store == s.store
  {
    s.(local := s.local - keys)
  }

  /** Time-to-live expiry in the distributed cache, as removal of arbitrary
      keys. */
  function EvictDistributed(s: State, keys: set<string>): (r: State)
    ensures r.dist.Keys == s.dist.Keys - keys
    ensures forall key :: key in r.dist ==> r.dist[key] == s.dist[key]
    ensures r.local == s.local && r.store == s.store
  {
    s.(dist := s.dist - keys)
  }

  /** Expiry never breaks coherence: it only forgets copies. */
  lemma EvictionPreservesCoherence(s: State, localKeys: set<int>, distKeys: set<string>)
    requires Coherent(s)
    ensures Coherent(EvictLocal(s, localKeys))
    ensures Coherent(EvictDistributed(s, distKeys))
  {
  }
}
