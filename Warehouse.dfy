/**
 The warehouse database: the four tables that `init_schema` creates and
 the sequences behind their SERIAL and BIGSERIAL columns, with one method
 per SQL statement of the DAG.

 Each sequence is the next value `nextval` would hand out. As in
 PostgreSQL, `INSERT ... ON CONFLICT` draws a value for every proposed
 row, whether or not the row is then inserted, so the sequences can skip
 values; the model promises only that every key it hands out is unused.
 */
module Warehouse {
  import opened Staging
  import opened Star
  import opened Schema
  import opened Loaders

  class Warehouse {
    /** Whether `init_schema` has created the tables. */
    var schemaReady: bool

    /** `dim_users`: `user_id` to `user_key`. */
    var users: Users
    /** `dim_users_user_key_seq`. */
    var userSeq: int

    /** `dim_products`: `product_id` to its row. */
    var products: Products
    /** `dim_products_product_key_seq`. */
    var productSeq: int

    /** `dim_dates`: `date_key` to its row. */
    var dates: Dates

    /** `fact_events`, in insertion order. */
    var facts: seq<FactRow>
    /** `fact_events_event_id_seq`. */
    var eventSeq: int

    /** The schema's constraints hold of the current tables. */
    ghost predicate Valid()
      reads this
    {
      TablesValid(schemaReady, users, userSeq, products, productSeq, dates, facts, eventSeq)
    }

    /** A database in which `init_schema` has not yet run; every sequence starts at 1. */
    constructor ()
      ensures Valid() && !schemaReady
      ensures users == map[] && products == map[] && dates == map[] && facts == []
      ensures userSeq == 1 && productSeq == 1 && eventSeq == 1
    {
      schemaReady := false;
      users, userSeq := map[], 1;
      products, productSeq := map[], 1;
      dates := map[];
      facts, eventSeq := [], 1;
    }

    /**
     `init_schema`: `CREATE TABLE IF NOT EXISTS` for the four tables (and an
     index). Afterwards the tables exist; their contents are untouched.
     */
    method InitSchema()
      requires Valid()
      modifies this`schemaReady
      ensures Valid() && schemaReady
    {
      schemaReady := true;
    }

    /**
     `load_users`: inserts the distinct non-null `user_id`s of day `ds`'s
     window with fresh keys, ignoring those already present
     (`ON CONFLICT (user_id) DO NOTHING`).
     */
    method LoadUsers(raw: seq<RawEvent>, ds: int)
      requires Valid() && schemaReady
      modifies this`users, this`userSeq
      ensures Valid()
      ensures UsersInserted(old(users), old(userSeq), DistinctIds(raw, ds, UserIdColumn), users, userSeq)
    {
      var table, next := InsertUsers(users, userSeq, DistinctIds(raw, ds, UserIdColumn));
      UsersChangeKeepsValid(users, userSeq, products, productSeq, dates, facts, eventSeq, table, next);
      users, userSeq := table, next;
    }

    /**
     `load_products`: for each product of day `ds`'s window, one latest row
     (`DISTINCT ON (product_id) ... ORDER BY product_id, event_time DESC`)
     is upserted: a new product gets a fresh key, an existing one keeps its
     key and takes the row's category and brand
     (`ON CONFLICT (product_id) DO UPDATE`).
     */
    method LoadProducts(raw: seq<RawEvent>, ds: int)
      requires Valid() && schemaReady
      modifies this`products, this`productSeq
      ensures Valid()
      ensures ProductsLoaded(raw, ds, old(products), old(productSeq), products, productSeq)
    {
      var batch := LatestPerProduct(raw, ds);
      var table, next := UpsertProducts(products, productSeq, batch);
      LatestUpsertLoads(raw, ds, products, productSeq, table, next);
      ProductsChangeKeepsValid(users, userSeq, products, productSeq, dates, facts, eventSeq, table, next);
      products, productSeq := table, next;
    }

    /**
     `load_dates`: inserts the row for day `ds` with its calendar fields,
     unless a row for `ds` exists (`ON CONFLICT (date_key) DO NOTHING`).
     */
    method LoadDates(ds: int)
      requires Valid() && schemaReady
      modifies this`dates
      ensures Valid()
      ensures dates == AddDate(old(dates), ds)
    {
      if ds !in dates {
        DateAddKeepsValid(users, userSeq, products, productSeq, dates, facts, eventSeq, ds);
      }
      dates := AddDate(dates, ds);
    }

    /**
     `load_facts`: deletes the rows of day `ds` from `fact_events`, then
     appends the inner join of the day's raw rows with the three dimensions,
     each row with the next `event_id`.
     */
    method LoadFacts(raw: seq<RawEvent>, ds: int)
      requires Valid() && schemaReady
      modifies this`facts, this`eventSeq
      ensures Valid()
      ensures facts == ReplaceDay(old(facts), ds, Joined(raw, ds, users, products, dates), old(eventSeq))
      ensures eventSeq == old(eventSeq) + |Joined(raw, ds, users, products, dates)|
      ensures users == old(users) && products == old(products) && dates == old(dates)
    {
      var batch := Joined(raw, ds, users, products, dates);
      ReplaceDayKeepsValid(facts, eventSeq, users, products, dates, ds, batch);
      FactsChangeKeepsValid(users, userSeq, products, productSeq, dates, facts, eventSeq,
                            ReplaceDay(facts, ds, batch, eventSeq), eventSeq + |batch|);
      facts, eventSeq := ReplaceDay(facts, ds, batch, eventSeq), eventSeq + |batch|;
    }
  }
}
