# Tiered product lookup of the inventory service

A Dafny model of the read path and the create path of the inventory
service's `ProductService`. A product is looked up in three tiers: the
per-process local cache (Caffeine), the shared distributed cache (Redis, key
`"product:" + id`), and the persistent store (the JPA repository). A hit in
the distributed cache is promoted into the local cache. A hit in the store is
written into both caches. A miss everywhere is returned empty and is never
cached. `createProduct` builds a record from the request, saves it, and
returns the identifier the store assigned.

The three tiers are immutable maps held in one `State`:

- `local: map<int, Product>` is keyed by identifier.
- `dist: map<string, Product>` is keyed by the rendered string key.
- `store` holds the rows and the identity counter.

The lookup is a pure function from `(state, id)` to the answer, the new state
and the tier that answered. The tier records which branch answered. The
source's trace lines tell apart only a local hit, a distributed hit and a
cache miss. They print the same lines for a store hit and a store miss.

Files:

- `wrappers.dfy`: `Option`.
- `model.dfy`: `Product`, the create request, and the `BigDecimal` price. The
  price is kept as an opaque unscaled value and scale.
- `cache_keys.dfy`: the distributed-cache key. This is the decimal rendering
  of a `Long` after `"product:"`. Its inverse is the proof that distinct
  identifiers get distinct keys.
- `repository.dfy`: the store, with `findById` and `save` of a new record
  (identity allocation).
- `product_service.dfy`: `GetProductById`, `CreateProduct`, expiry as
  arbitrary removal, and the lemmas about them.
- `sessions.dfy`: arbitrary runs of creates, reads and expiries. From a
  coherent state with a well-formed store, such a run answers exactly like a
  run that reads only the store.

"Coherent" means that every local entry, and every distributed entry under a
`"product:"+id` key, equals the store's row for the same identifier. Other
distributed keys are not constrained. A store is "well-formed" when its
identity counter is at least 1 and every row sits under its own identifier,
which is at least 1 and below the counter. This is what identity allocation
guarantees. Creating a product is proved safe only under both premises. With
coherence alone, a store whose counter already points at an existing row could
hand out that identifier again.

## Model

| member | source | states |
|---|---|---|
| ProductService.GetProductById | src/main/java/com/lab/inventory/service/ProductService.java:44-73 | The local tier answers iff it holds `id`. The distributed tier answers iff the local tier misses and it holds `"product:"+id`. The store answers iff both caches miss and it has the row. The result is empty exactly when no tier answers. A read never writes the store. Whatever is returned is left in the local cache under `id`. |
| ProductService.LocalHit | src/main/java/com/lab/inventory/service/ProductService.java:45-49 | A local hit returns the local value. It leaves the local cache, the distributed cache and the store all unchanged. |
| ProductService.DistributedHit | src/main/java/com/lab/inventory/service/ProductService.java:50-57 | On a local miss and a distributed hit, the result is the distributed value. The local cache gains exactly `id` mapped to that value. The distributed cache and the store are unchanged. |
| ProductService.StoreHit | src/main/java/com/lab/inventory/service/ProductService.java:62-69 | On a miss in both caches and a store hit, the result is the row. Exactly one entry is put into each cache: `id` locally and `"product:"+id` in the distributed cache, both set to the row. |
| ProductService.MissEverywhere | src/main/java/com/lab/inventory/service/ProductService.java:62-71 | On a miss in all three tiers, the result is empty and the state is unchanged, so misses are never cached. |
| ProductService.LookupFrame | src/main/java/com/lab/inventory/service/ProductService.java:44-73 | Every local entry other than `id` is unchanged, and so is every distributed key other than `"product:"+id`. In particular, every other identifier's distributed entry is unchanged. The store is untouched. |
| ProductService.CoherentLookup | src/main/java/com/lab/inventory/service/ProductService.java:44-71 | On a coherent state, the lookup returns exactly the store's row for `id`, or empty when there is none. The state stays coherent afterwards. |
| ProductService.RepeatedLookup | src/main/java/com/lab/inventory/service/ProductService.java:44-73 | A second read of the same `id` returns the same answer and changes nothing. Once a product has been found, the local cache serves it. |
| ProductService.CreateProduct | src/main/java/com/lab/inventory/service/ProductService.java:32-42 | The store gains a row under the returned identifier. In a well-formed store, that identifier was not in use. The row carries the request's name, price and stock, as built by `Model.FromRequest`. Neither cache is touched. |
| ProductService.CreateThenGet | src/main/java/com/lab/inventory/service/ProductService.java:33-41 | On a coherent state with a well-formed store, reading back the returned identifier yields the record built from the request, and coherence is kept. |
| ProductService.StaleEntryShadowsCreate | src/main/java/com/lab/inventory/service/ProductService.java:33-48 | The round trip needs coherence. There is a well-formed store whose local cache already holds an entry under the identifier about to be assigned. Reading back after the create returns that stale entry, which differs from the new row. |
| ProductService.EvictLocal | src/main/java/com/lab/inventory/config/CacheConfig.java:17-20 | Expiry or size eviction removes the chosen local entries and keeps the others unchanged. |
| ProductService.EvictDistributed | src/main/java/com/lab/inventory/service/ProductService.java:65 | Time-to-live expiry removes the chosen distributed keys and keeps the others unchanged. |
| ProductService.EvictionPreservesCoherence | src/main/java/com/lab/inventory/config/CacheConfig.java:17-20 | Any eviction from either cache keeps a coherent state coherent. |
| CacheKeys.DistKey | src/main/java/com/lab/inventory/service/ProductService.java:50 | The distributed key of `id` starts with `"product:"` and is longer than that prefix. `IdOfDistKeyRoundTrip` shows that the rest decodes back to `id`. |
| CacheKeys.NatToString | src/main/java/com/lab/inventory/service/ProductService.java:50 | The decimal rendering of a natural number is non-empty, has only digits, and starts with `0` only for zero. |
| CacheKeys.IntToString | src/main/java/com/lab/inventory/service/ProductService.java:50 | The rendering of an integer starts with `-` exactly when the integer is negative. |
| CacheKeys.ParseNatOfNatToString | src/main/java/com/lab/inventory/service/ProductService.java:50 | Reading the digits of a rendered natural number gives the number back. |
| CacheKeys.ParseIntOfIntToString | src/main/java/com/lab/inventory/service/ProductService.java:50 | Parsing the rendering of any integer gives the integer back. |
| CacheKeys.IdOfDistKeyRoundTrip | src/main/java/com/lab/inventory/service/ProductService.java:50 | Decoding the distributed key of `id` gives `id` back. |
| CacheKeys.DistKeyInjective | src/main/java/com/lab/inventory/service/ProductService.java:50 | Two identifiers have the same distributed key iff they are equal, so distinct identifiers never share a distributed entry. |
| Repository.FindById | src/main/java/com/lab/inventory/service/ProductService.java:62 | The lookup is present iff the store has a row for `id`, and then it is that row. In a well-formed store, the row carries `id` as its identifier. |
| Repository.SaveNew | src/main/java/com/lab/inventory/model/Product.java:23-25 | Saving a record without an identifier gives it a store-assigned identifier and inserts it under that identifier, otherwise unchanged. In a well-formed store, that identifier was not in use and the store stays well-formed. |
| Sessions.StepAgreesWithStore | src/main/java/com/lab/inventory/service/ProductService.java:32-73 | From a coherent state with a well-formed store, one create, read or expiry answers and writes the store exactly as the store alone would. Coherence is kept. |
| Sessions.CachesAreTransparent | src/main/java/com/lab/inventory/service/ProductService.java:32-73 | From a coherent state with a well-formed store, any sequence of creates, reads and expiries gives the same responses and the same final store as a run that reads only the store. It ends coherent. |

## Left out

- `buyProduct`, the distributed lock and the invalidation publish/subscribe path. The controller and the concurrency test call `buyProduct`, but `ProductService.java` does not define it, so there is nothing to model it against.
- The broker wiring in `RabbitConfig.java`. It is configuration with no logic.
- Clocks, the one-minute local expiry, the 100-entry local bound and the ten-minute distributed time-to-live. Expiry is modelled as the removal of an arbitrary set of entries (`EvictLocal`, `EvictDistributed`).
- Concurrency. Each operation is one atomic step on the state, and there are no interleavings inside a lookup.
- Several service instances. The state holds one local cache, but the service runs as several instances that share one distributed cache and one store, each with its own local cache. Another instance's creates and reads only add store rows and distributed entries equal to store rows. The `Create` and `Get` steps of a run already produce exactly those effects.
- Backend failures. The source has no handling for an unreachable cache or store. A failed cache read is not turned into a miss; the exception propagates. The model has no failure path.
- Serialization of the product into Redis. The stored copy is taken to equal the original.
- Shared mutable products and a `null` identifier. The local cache stores the same mutable object it returns to the caller, so a caller that changed it would change the cached copy without touching the store. `getProductById(null)` throws in the local cache. Here products are immutable values and identifiers are never `null`. No code in the service or controller mutates a returned product or passes a `null` identifier.
- `null` request fields. Name, price and stock are always present and are copied unchanged.
- The 64-bit width of `Long` identifiers and the 32-bit `Integer` stock. Identifiers and stock are unbounded integers, and the identity counter never overflows.
- `Repository.SaveNew`: models `save` only for a record without an identifier. That is the only way `createProduct` calls it. Merging a record that already has an identifier is not modelled.
- The HTTP controller, Spring transaction annotations and `System.out` tracing. The tracing survives only as the `Tier` that answered.
