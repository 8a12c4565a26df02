/** Runs of the service: any interleaving of creations, reads and cache
    expiry, compared against a reference run that serves every read straight
    from the store. */
module Sessions {
  import opened Wrappers
  import opened Model
  import opened Repository
  import opened ProductService

  datatype Request =
    | Create(req: CreateProductRequest)
    | Get(id: int)
    | ExpireLocal(localKeys: set<int>)
    | ExpireDistributed(distKeys: set<string>)

  datatype Response = CreatedId(id: int) | Fetched(product: Option<Product>) | Expired

  datatype Outcome<S> = Outcome(responses: seq<Response>, final: S)

  function Step(s: State, q: Request): (r: (Response, State)) {
    match q
    case Create(req) =>
      var c := CreateProduct(s, req); (CreatedId(c.id), c.state)
    case Get(id) =>
      var l := GetProductById(s, id); (Fetched(l.product), l.state)
    case ExpireLocal(keys) => (Expired, EvictLocal(s, keys))
    case ExpireDistributed(keys) => (Expired, EvictDistributed(s, keys))
  }

  function Run(s: State, qs: seq<Request>): (o: Outcome<State>)
    decreases |qs|
  {
    if |qs| == 0 then Outcome([], s)
    else
      var (resp, s1) := Step(s, qs[0]);
      var rest := Run(s1, qs[1..]);
      Outcome([resp] + rest.responses, rest.final)
  }

  /** The reference: no caches, every read answered by the store. */
  function StoreStep(st: Store, q: Request): (r: (Response, Store)) {
    match q
    case Create(req) =>
      var saved := SaveNew(st, FromRequest(req)); (CreatedId(saved.product.id.value), saved.store)
    case Get(id) => (Fetched(FindById(st, id)), st)
    case ExpireLocal(_) => (Expired, st)
    case ExpireDistributed(_) => (Expired, st)
  }

  function RunStore(st: Store, qs: seq<Request>): (o: Outcome<Store>)
    decreases |qs|
  {
    if |qs| == 0 then Outcome([], st)
    else
      var (resp, st1) := StoreStep(st, qs[0]);
      var rest := RunStore(st1, qs[1..]);
      Outcome([resp] + rest.responses, rest.final)
  }

  /** One request: on a coherent state with a well-formed store it answers
      as the store alone would, writes the store as the store alone would,
      and keeps both invariants. */
  lemma StepAgreesWithStore(s: State, q: Request)
    requires WellFormed(s.store) && Coherent(s)
    ensures Step(s, q).0 == StoreStep(s.store, q).0
    ensures Step(s, q).1.store == StoreStep(s.store, q).1
    ensures WellFormed(Step(s, q).1.store) && Coherent(Step(s, q).1)
  {
    match q
    case Create(req) => CreateThenGet(s, req);
    case Get(id) => CoherentLookup(s, id);
    case ExpireLocal(keys) => EvictionPreservesCoherence(s, keys, {});
    case ExpireDistributed(keys) => EvictionPreservesCoherence(s, {}, keys);
  }

  /** The caches are invisible: from a coherent state, every run gives the
      responses of the store-only run, ends on the same store and stays
      coherent. */
  lemma {:induction false} CachesAreTransparent(s: State, qs: seq<Request>)
    requires WellFormed(s.store) && Coherent(s)
    ensures Run(s, qs).responses == RunStore(s.store, qs).responses
    ensures Run(s, qs).final.store == RunStore(s.store, qs).final
    ensures WellFormed(Run(s, qs).final.store) && Coherent(Run(s, qs).final)
    decreases |qs|
  {
    if |qs| > 0 {
      StepAgreesWithStore(s, qs[0]);
      CachesAreTransparent(Step(s, qs[0]).1, qs[1..]);
    }
  }
}
