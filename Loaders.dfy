/**
 What the four loading statements of the DAG do to table values: the
 `INSERT ... ON CONFLICT` of the three dimension loaders, worked through
 their proposed rows one at a time, and the delete-then-insert of
 `load_facts`, together with the properties each promises.
 */
module Loaders {
  import opened Staging
  import opened Star
  import opened Schema

  // ---------------------------------------------------------------------
  // load_users: INSERT INTO dim_users ... ON CONFLICT (user_id) DO NOTHING

  /**
   One proposed row: a key is drawn from the sequence first and used only
   if `u` is new. Returns the table and the sequence afterwards.
   */
  function InsertUser(users: Users, next: int, u: int): (Users, int) {
    (if u in users then users else users[u := next], next + 1)
  }

  /** New users got keys drawn from the sequence between `next` and `next'`. */
  ghost predicate FreshUserKeys(users: Users, next: int, users': Users, next': int) {
    forall u :: u in users' && u !in users ==> next <= users'[u] < next'
  }

  /**
   Table `users'` and sequence value `next'` are what proposing the ids
   `done` to `users` at sequence value `next` leaves: every proposed id is
   present, old ids keep their keys, new ids have distinct fresh keys, and
   the sequence advanced once per proposed id.
   */
  ghost predicate UsersInserted(users: Users, next: int, done: set<int>, users': Users, next': int) {
    && users'.Keys == users.Keys + done
    && Extends(users, users')
    && FreshUserKeys(users, next, users', next')
    && next' == next + |done|
    && UsersValid(users', next')
  }

  lemma InsertUserKeys(base: set<int>, done: set<int>, users: Users, next: int, u: int)
    requires users.Keys == base + done
    ensures InsertUser(users, next, u).0.Keys == base + (done + {u})
  {
  }

  lemma InsertUserKeepsValid(users: Users, next: int, u: int)
    requires UsersValid(users, next)
    ensures UsersValid(InsertUser(users, next, u).0, InsertUser(users, next, u).1)
  {
  }

  lemma InsertUserKeepsFresh(users: Users, next: int, users': Users, next': int, u: int)
    requires FreshUserKeys(users, next, users', next') && next <= next'
    ensures FreshUserKeys(users, next, InsertUser(users', next', u).0, InsertUser(users', next', u).1)
  {
  }

  lemma InsertUserExtends(users: Users, users': Users, next': int, u: int)
    requires Extends(users, users')
    ensures Extends(users, InsertUser(users', next', u).0)
  {
  }

  /** Proposing one more id extends the inserted state by that id. */
  lemma UsersInsertedStep(users: Users, next: int, done: set<int>, users': Users, next': int, u: int)
    requires UsersInserted(users, next, done, users', next') && u !in done
    ensures UsersInserted(users, next, done + {u}, InsertUser(users', next', u).0, InsertUser(users', next', u).1)
  {
    InsertUserKeys(users.Keys, done, users', next', u);
    InsertUserKeepsValid(users', next', u);
    InsertUserKeepsFresh(users, next, users', next', u);
    InsertUserExtends(users, users', next', u);
    AddOneCard(done, u);
  }

  /** The rows proposed by `load_users`, applied one at a time in an unspecified order. */
  method InsertUsers(users: Users, next: int, ids: set<int>) returns (users': Users, next': int)
    requires UsersValid(users, next)
    ensures UsersInserted(users, next, ids, users', next')
  {
    users', next' := users, next;
    var todo := ids;
    ghost var done := {};
    while todo != {}
      invariant todo !! done && todo + done == ids
      invariant UsersInserted(users, next, done, users', next')
      decreases todo
    {
      NonEmptyHasMember(todo);
      var u :| u in todo;
      TakeOne(ids, todo, done, u);
      UsersInsertedStep(users, next, done, users', next', u);
      var step := InsertUser(users', next', u);
      users', next' := step.0, step.1;
      todo, done := todo - {u}, done + {u};
    }
    assert done == ids;
  }

  /** Proposing only ids that are all present already leaves the table as it was. */
  lemma UsersInsertedNoop(users: Users, next: int, ids: set<int>, users': Users, next': int)
    requires UsersInserted(users, next, ids, users', next') && ids <= users.Keys
    ensures users' == users
  {
    assert users'.Keys == users.Keys;
  }

  /** `dim_users` stays functional: a user id resolves to one key and no two ids share a key. */
  lemma UserKeysUnique(users: Users, next: int, u: int, v: int)
    requires UsersValid(users, next) && u in users && v in users
    ensures users[u] == users[v] <==> u == v
  {
  }

  // ---------------------------------------------------------------------
  // load_products: INSERT INTO dim_products ... ON CONFLICT (product_id) DO UPDATE

  /**
   One proposed row: a key is drawn from the sequence first and used only
   if `p` is new; an existing product keeps its key and takes the row's
   category and brand (`SET ... = EXCLUDED...`).
   */
  function UpsertProduct(products: Products, next: int, p: int, r: RawEvent): (Products, int) {
    var key := if p in products then products[p].productKey else next;
    (products[p := Product(key, r.categoryCode, r.brand)], next + 1)
  }

  /** Products outside `done` are as they were in `products`. */
  ghost predicate Untouched(products: Products, done: set<int>, products': Products) {
    forall p :: p in products && p !in done ==> p in products' && products'[p] == products[p]
  }

  /** New products got keys drawn from the sequence between `next` and `next'`. */
  ghost predicate FreshProductKeys(products: Products, next: int, products': Products, next': int) {
    forall p :: p in products' && p !in products ==> next <= products'[p].productKey < next'
  }

  /** Every product in `done` carries the category and brand of its row in `batch`. */
  ghost predicate TakesAttributes(batch: map<int, RawEvent>, done: set<int>, products': Products) {
    forall p :: p in done ==>
      && p in batch && p in products'
      && products'[p].categoryCode == batch[p].categoryCode && products'[p].brand == batch[p].brand
  }

  /**
   Table `products'` and sequence value `next'` are what proposing the rows
   of `batch` for the products `done` leaves: those products are present
   with their rows' attributes, other products are untouched, old products
   keep their keys, new ones have distinct fresh keys, and the sequence
   advanced once per proposed row.
   */
  ghost predicate ProductsUpserted(products: Products, next: int, batch: map<int, RawEvent>, done: set<int>,
                                   products': Products, next': int) {
    && products'.Keys == products.Keys + done
    && Untouched(products, done, products')
    && KeepsProductKeys(products, products')
    && FreshProductKeys(products, next, products', next')
    && TakesAttributes(batch, done, products')
    && next' == next + |done|
    && ProductsValid(products', next')
  }

  lemma UpsertProductKeys(base: set<int>, done: set<int>, products: Products, next: int, p: int, r: RawEvent)
    requires products.Keys == base + done
    ensures UpsertProduct(products, next, p, r).0.Keys == base + (done + {p})
  {
  }

  lemma UpsertProductKeepsValid(products: Products, next: int, p: int, r: RawEvent)
    requires ProductsValid(products, next)
    ensures ProductsValid(UpsertProduct(products, next, p, r).0, UpsertProduct(products, next, p, r).1)
  {
  }

  lemma UpsertProductUntouched(products: Products, done: set<int>, products': Products, next': int, p: int, r: RawEvent)
    requires Untouched(products, done, products')
    ensures Untouched(products, done + {p}, UpsertProduct(products', next', p, r).0)
  {
  }

  lemma UpsertProductKeepsKeys(products: Products, products': Products, next': int, p: int, r: RawEvent)
    requires KeepsProductKeys(products, products')
    ensures KeepsProductKeys(products, UpsertProduct(products', next', p, r).0)
  {
  }

  lemma UpsertProductKeepsFresh(products: Products, next: int, products': Products, next': int, p: int, r: RawEvent)
    requires FreshProductKeys(products, next, products', next') && next <= next'
    requires KeepsProductKeys(products, products')
    ensures FreshProductKeys(products, next, UpsertProduct(products', next', p, r).0, UpsertProduct(products', next', p, r).1)
  {
  }

  lemma UpsertProductTakes(batch: map<int, RawEvent>, done: set<int>, products': Products, next': int, p: int)
    requires TakesAttributes(batch, done, products') && p in batch
    ensures TakesAttributes(batch, done + {p}, UpsertProduct(products', next', p, batch[p]).0)
  {
  }

  /** Proposing one more row of the batch extends the upserted state by that row. */
  lemma ProductsUpsertedStep(products: Products, next: int, batch: map<int, RawEvent>, done: set<int>,
                             products': Products, next': int, p: int)
    requires ProductsUpserted(products, next, batch, done, products', next')
    requires p in batch && p !in done
    ensures ProductsUpserted(products, next, batch, done + {p},
                             UpsertProduct(products', next', p, batch[p]).0,
                             UpsertProduct(products', next', p, batch[p]).1)
  {
    var r := batch[p];
    UpsertProductKeys(products.Keys, done, products', next', p, r);
    UpsertProductKeepsValid(products', next', p, r);
    UpsertProductUntouched(products, done, products', next', p, r);
    UpsertProductKeepsKeys(products, products', next', p, r);
    UpsertProductKeepsFresh(products, next, products', next', p, r);
    UpsertProductTakes(batch, done, products', next', p);
    AddOneCard(done, p);
  }

  /** The rows proposed by `load_products`, applied one at a time in an unspecified order. */
  method UpsertProducts(products: Products, next: int, batch: map<int, RawEvent>)
    returns (products': Products, next': int)
    requires ProductsValid(products, next)
    ensures ProductsUpserted(products, next, batch, batch.Keys, products', next')
  {
    products', next' := products, next;
    var todo := batch.Keys;
    ghost var done := {};
    while todo != {}
      invariant todo !! done && todo + done == batch.Keys
      invariant ProductsUpserted(products, next, batch, done, products', next')
      decreases todo
    {
      NonEmptyHasMember(todo);
      var p :| p in todo;
      TakeOne(batch.Keys, todo, done, p);
      ProductsUpsertedStep(products, next, batch, done, products', next', p);
      var step := UpsertProduct(products', next', p, batch[p]);
      products', next' := step.0, step.1;
      todo, done := todo - {p}, done + {p};
    }
    assert done == batch.Keys;
  }

  /** Product `p`'s category and brand are those of one of its latest rows in day `ds`'s window. */
  ghost predicate HasLatestAttributes(raw: seq<RawEvent>, ds: int, p: int, row: Product) {
    exists r :: LatestFor(raw, ds, p, r) && row.categoryCode == r.categoryCode && row.brand == r.brand
  }

  /**
   What `load_products` promises for day `ds`: the table gains exactly the
   window's products; each of them carries the category and brand of one
   of its latest rows (last write wins); products outside the window are
   untouched; old products keep their keys; new ones have distinct fresh
   keys; the sequence advanced once per product of the window.
   */
  ghost predicate ProductsLoaded(raw: seq<RawEvent>, ds: int, products: Products, next: int,
                                 products': Products, next': int) {
    var ids := DistinctIds(raw, ds, ProductIdColumn);
    && products'.Keys == products.Keys + ids
    && Untouched(products, ids, products')
    && KeepsProductKeys(products, products')
    && FreshProductKeys(products, next, products', next')
    && (forall p :: p in ids ==> p in products' && HasLatestAttributes(raw, ds, p, products'[p]))
    && next' == next + |ids|
    && ProductsValid(products', next')
  }

  /** Upserting the latest row of every product of the window is what `load_products` promises. */
  lemma LatestUpsertLoads(raw: seq<RawEvent>, ds: int, products: Products, next: int,
                          products': Products, next': int)
    requires ProductsUpserted(products, next, LatestPerProduct(raw, ds), DistinctIds(raw, ds, ProductIdColumn),
                              products', next')
    ensures ProductsLoaded(raw, ds, products, next, products', next')
  {
    var batch := LatestPerProduct(raw, ds);
    forall p | p in DistinctIds(raw, ds, ProductIdColumn)
      ensures p in products' && HasLatestAttributes(raw, ds, p, products'[p])
    {
      assert LatestFor(raw, ds, p, batch[p]);
    }
  }

  /**
   Loading products again from the same raw rows adds no product and
   changes no product key.
   */
  lemma ProductsReloadKeepsKeys(raw: seq<RawEvent>, ds: int, products: Products, next: int,
                                products': Products, next': int, products'': Products, next'': int)
    requires ProductsLoaded(raw, ds, products, next, products', next')
    requires ProductsLoaded(raw, ds, products', next', products'', next'')
    ensures products''.Keys == products'.Keys
    ensures forall p :: p in products' ==> products''[p].productKey == products'[p].productKey
  {
  }

  // ---------------------------------------------------------------------
  // load_dates: INSERT INTO dim_dates ... ON CONFLICT (date_key) DO NOTHING

  /**
   The date table after `load_dates` for day `ds`: it has a row for `ds`,
   which is the derived one unless a row was there already; no other row
   changes.
   */
  function AddDate(dates: Dates, ds: int): (dates': Dates)
    ensures dates'.Keys == dates.Keys + {ds}
    ensures Extends(dates, dates')
    ensures ds !in dates ==> dates'[ds] == DateRowOf(ds)
    ensures DatesValid(dates) ==> DatesValid(dates') && dates'[ds] == DateRowOf(ds)
  {
    if ds in dates then dates else dates[ds := DateRowOf(ds)]
  }

  /** Loading the same day twice is the same as once. */
  lemma AddDateIdempotent(dates: Dates, ds: int)
    ensures AddDate(AddDate(dates, ds), ds) == AddDate(dates, ds)
  {
  }

  // ---------------------------------------------------------------------
  // load_facts: DELETE ... WHERE date_key = ds; INSERT INTO fact_events ... SELECT

  /** The batch as stored rows: BIGSERIAL numbers them from `next` on. */
  function Numbered(batch: seq<Fact>, next: int): (rows: seq<FactRow>)
    ensures |rows| == |batch|
    ensures forall i :: 0 <= i < |batch| ==> rows[i].eventId == next + i && rows[i].fact == batch[i]
  {
    if batch == [] then []
    else Numbered(batch[..|batch| - 1], next) + [FactRow(next + |batch| - 1, batch[|batch| - 1])]
  }

  /** Numbering only adds ids: dropping them gives the batch back. */
  lemma NumberedBodies(batch: seq<Fact>, next: int)
    ensures Bodies(Numbered(batch, next)) == batch
  {
  }

  /** The fact table after deleting day `ds` and appending `batch` with ids from `next` on. */
  function ReplaceDay(facts: seq<FactRow>, ds: int, batch: seq<Fact>, next: int): (facts': seq<FactRow>)
    ensures |facts'| == |OtherDays(facts, ds)| + |batch|
  {
    OtherDays(facts, ds) + Numbered(batch, next)
  }

  /**
   Partition replace: when every fact of the batch is dated `ds`, the day's
   partition afterwards is exactly the batch (ids aside) and the rows of
   every other day are exactly those from before.
   */
  lemma ReplaceDayPartition(facts: seq<FactRow>, ds: int, batch: seq<Fact>, next: int)
    requires forall i :: 0 <= i < |batch| ==> batch[i].dateKey == ds
    ensures Bodies(Partition(ReplaceDay(facts, ds, batch, next), ds)) == batch
    ensures OtherDays(ReplaceDay(facts, ds, batch, next), ds) == OtherDays(facts, ds)
  {
    ReplacePartition(facts, Numbered(batch, next), ds);
    NumberedBodies(batch, next);
  }

  /** Partition isolation: the partition of any other day `d` is unchanged. */
  lemma ReplaceDayIsolation(facts: seq<FactRow>, ds: int, batch: seq<Fact>, next: int, d: int)
    requires forall i :: 0 <= i < |batch| ==> batch[i].dateKey == ds
    requires d != ds
    ensures Partition(ReplaceDay(facts, ds, batch, next), d) == Partition(facts, d)
  {
    PartitionAppend(OtherDays(facts, ds), Numbered(batch, next), d);
    OtherDaysKeepsOtherPartitions(facts, ds, d);
    NoPartitionOfOtherDay(Numbered(batch, next), ds, d);
  }

  /** Deleting day `ds` leaves the partition of another day `d` as it was. */
  lemma {:induction false} OtherDaysKeepsOtherPartitions(rows: seq<FactRow>, ds: int, d: int)
    requires d != ds
    ensures Partition(OtherDays(rows, ds), d) == Partition(rows, d)
  {
    if rows != [] {
      var init, r := rows[..|rows| - 1], rows[|rows| - 1];
      OtherDaysKeepsOtherPartitions(init, ds, d);
      PartitionAppend(OtherDays(init, ds), if r.fact.dateKey != ds then [r] else [], d);
      assert [r][..0] == [];
    }
  }

  /** Rows all dated `ds` contribute nothing to the partition of another day. */
  lemma {:induction false} NoPartitionOfOtherDay(rows: seq<FactRow>, ds: int, d: int)
    requires forall i :: 0 <= i < |rows| ==> rows[i].fact.dateKey == ds
    requires d != ds
    ensures Partition(rows, d) == []
  {
    if rows != [] {
      NoPartitionOfOtherDay(rows[..|rows| - 1], ds, d);
    }
  }

  /**
   Rerunning `load_facts` with the same batch gives the same table apart
   from the event ids: the day is deleted and re-inserted, other days are
   untouched.
   */
  lemma ReplaceDayIdempotent(facts: seq<FactRow>, ds: int, batch: seq<Fact>, next: int, next': int)
    requires forall i :: 0 <= i < |batch| ==> batch[i].dateKey == ds
    ensures Bodies(ReplaceDay(ReplaceDay(facts, ds, batch, next), ds, batch, next'))
         == Bodies(ReplaceDay(facts, ds, batch, next))
  {
    ReplaceDayPartition(facts, ds, batch, next);
    var once := ReplaceDay(facts, ds, batch, next);
    BodiesAppend(OtherDays(once, ds), Numbered(batch, next'));
    BodiesAppend(OtherDays(facts, ds), Numbered(batch, next));
    NumberedBodies(batch, next);
    NumberedBodies(batch, next');
  }

  /** Replacing a day by a batch whose keys resolve, numbered from the sequence, keeps the fact constraints. */
  lemma ReplaceDayKeepsValid(facts: seq<FactRow>, next: int, users: Users, products: Products, dates: Dates,
                             ds: int, batch: seq<Fact>)
    requires EventIdsValid(facts, next) && References(facts, users, products, dates)
    requires forall i :: 0 <= i < |batch| ==>
      batch[i].userKey in users.Values && batch[i].productKey in ProductKeys(products) && batch[i].dateKey in dates
    ensures EventIdsValid(ReplaceDay(facts, ds, batch, next), next + |batch|)
    ensures References(ReplaceDay(facts, ds, batch, next), users, products, dates)
  {
    DeleteKeepsValid(facts, next, users, products, dates, ds);
  }

  // ---------------------------------------------------------------------
  // Working through a set of proposed rows

  lemma NonEmptyHasMember(s: set<int>)
    requires s != {}
    ensures exists x :: x in s
  {
    if forall x :: x !in s {
      assert false;
    }
  }

  /** Moving `x` from the rows still to do to the rows done keeps them a split of `all`. */
  lemma TakeOne(all: set<int>, todo: set<int>, done: set<int>, x: int)
    requires todo !! done && todo + done == all && x in todo
    ensures (todo - {x}) !! (done + {x}) && (todo - {x}) + (done + {x}) == all
    ensures x !in done && todo - {x} < todo
  {
  }

  lemma AddOneCard(done: set<int>, x: int)
    requires x !in done
    ensures |done + {x}| == |done| + 1
  {
  }
}
