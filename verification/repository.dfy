/** The persistent store behind `ProductRepository`: rows by identifier and the
    identity counter that assigns identifiers to new rows. */
module Repository {
  import opened Wrappers
  import opened Model

  datatype Store = Store(rows: map<int, Product>, nextId: int)

  /** Identity allocation starts at 1; every row sits under its own
      identifier, below the counter. */
  ghost predicate WellFormed(st: Store) {
    && 1 <= st.nextId
    && forall k :: k in st.rows ==> 1 <= k < st.nextId && st.rows[k].id == Some(k)
  }

  /** `findById`. */
  function FindById(st: Store, id: int): (r: Option<Product>)
    ensures r.Some? <==> id in st.rows
    ensures r.Some? ==> r.value == st.rows[id]
    ensures WellFormed(st) && r.Some? ==> r.value.id == Some(id)
  {
    if id in st.rows then Some(st.rows[id]) else None
  }

  datatype Saved = Saved(product: Product, store: Store)

  /** `save` of a record that has no identifier yet: the store assigns a fresh
      identifier, inserts the record under it and returns the managed copy. */
  function SaveNew(st: Store, p: Product): (r: Saved)
    requires p.id == None
    ensures r.product == p.(id := r.product.id) && r.product.id.Some?
    ensures WellFormed(st) ==> r.product.id.value !in st.rows && WellFormed(r.store)
    ensures r.store.rows == st.rows[r.product.id.value := r.product]
  {
    var saved := p.(id := Some(st.nextId));
    Saved(saved, Store(st.rows[st.nextId := saved], st.nextId + 1))
  }
}
