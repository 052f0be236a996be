/**
 The constraints on the four warehouse tables, stated on table values, and
 how each kind of change to the tables keeps them.

 Most are declared by `init_schema`: primary and unique keys, the SERIAL
 and BIGSERIAL sequences, and the REFERENCES clauses. Two are not declared
 by the DDL but are invariants that the loaders maintain: every date row
 carries its own day's calendar fields (`DatesValid`), and event ids
 increase along the fact table (`EventIdsValid`).
 */
module Schema {
  import opened Star

  /** `user_key SERIAL PRIMARY KEY`: keys are unique and below the sequence. */
  ghost predicate UsersValid(users: Users, next: int) {
    && (forall u :: u in users ==> users[u] < next)
    && (forall u, v :: u in users && v in users && u != v ==> users[u] != users[v])
  }

  /** `product_key SERIAL PRIMARY KEY`: keys are unique and below the sequence. */
  ghost predicate ProductsValid(products: Products, next: int) {
    && (forall p :: p in products ==> products[p].productKey < next)
    && (forall p, q :: p in products && q in products && p != q ==>
          products[p].productKey != products[q].productKey)
  }

  /** Every date row carries the calendar fields of its own day: kept by `load_dates`, not declared. */
  ghost predicate DatesValid(dates: Dates) {
    forall d :: d in dates ==> dates[d] == DateRowOf(d)
  }

  /**
   `event_id BIGSERIAL PRIMARY KEY`: ids are below the sequence. That they
   also increase along the table is kept by `load_facts`, not declared.
   */
  ghost predicate EventIdsValid(facts: seq<FactRow>, next: int) {
    && (forall i :: 0 <= i < |facts| ==> facts[i].eventId < next)
    && (forall i, j :: 0 <= i < j < |facts| ==> facts[i].eventId < facts[j].eventId)
  }

  /** The REFERENCES constraints of `fact_events`: every fact's keys have a dimension row. */
  ghost predicate References(facts: seq<FactRow>, users: Users, products: Products, dates: Dates) {
    forall i :: 0 <= i < |facts| ==>
      && facts[i].fact.userKey in users.Values
      && facts[i].fact.productKey in ProductKeys(products)
      && facts[i].fact.dateKey in dates
  }

  /**
   All constraints at once. Before `init_schema` (`ready` false) there are
   no tables and so no rows.
   */
  ghost predicate TablesValid(ready: bool, users: Users, userSeq: int, products: Products, productSeq: int,
                              dates: Dates, facts: seq<FactRow>, eventSeq: int) {
    && (!ready ==> users == map[] && products == map[] && dates == map[] && facts == [])
    && UsersValid(users, userSeq)
    && ProductsValid(products, productSeq)
    && DatesValid(dates)
    && EventIdsValid(facts, eventSeq)
    && References(facts, users, products, dates)
  }

  /** `m'` keeps every entry of `m`. */
  ghost predicate Extends<K, V>(m: map<K, V>, m': map<K, V>) {
    forall k :: k in m ==> k in m' && m'[k] == m[k]
  }

  /** `products'` keeps every product of `products` with its key. */
  ghost predicate KeepsProductKeys(products: Products, products': Products) {
    forall p :: p in products ==> p in products' && products'[p].productKey == products[p].productKey
  }

  // ---------------------------------------------------------------------
  // Each loader's change keeps the constraints

  /** A user table that keeps its old entries, with valid keys, keeps the constraints. */
  lemma UsersChangeKeepsValid(users: Users, userSeq: int, products: Products, productSeq: int,
                              dates: Dates, facts: seq<FactRow>, eventSeq: int, users': Users, userSeq': int)
    requires TablesValid(true, users, userSeq, products, productSeq, dates, facts, eventSeq)
    requires UsersValid(users', userSeq') && Extends(users, users')
    ensures TablesValid(true, users', userSeq', products, productSeq, dates, facts, eventSeq)
  {
    ValuesGrow(users, users');
  }

  /** A product table that keeps its old product keys, with valid keys, keeps the constraints. */
  lemma ProductsChangeKeepsValid(users: Users, userSeq: int, products: Products, productSeq: int,
                                 dates: Dates, facts: seq<FactRow>, eventSeq: int,
                                 products': Products, productSeq': int)
    requires TablesValid(true, users, userSeq, products, productSeq, dates, facts, eventSeq)
    requires ProductsValid(products', productSeq') && KeepsProductKeys(products, products')
    ensures TablesValid(true, users, userSeq, products', productSeq', dates, facts, eventSeq)
  {
    ProductKeysGrow(products, products');
  }

  /** Adding the row a day derives keeps the constraints. */
  lemma DateAddKeepsValid(users: Users, userSeq: int, products: Products, productSeq: int,
                          dates: Dates, facts: seq<FactRow>, eventSeq: int, d: int)
    requires TablesValid(true, users, userSeq, products, productSeq, dates, facts, eventSeq)
    ensures TablesValid(true, users, userSeq, products, productSeq, dates[d := DateRowOf(d)], facts, eventSeq)
  {
  }

  /**
   Replacing the fact table by rows that satisfy the event-id and
   reference constraints keeps the constraints.
   */
  lemma FactsChangeKeepsValid(users: Users, userSeq: int, products: Products, productSeq: int,
                              dates: Dates, facts: seq<FactRow>, eventSeq: int,
                              facts': seq<FactRow>, eventSeq': int)
    requires TablesValid(true, users, userSeq, products, productSeq, dates, facts, eventSeq)
    requires EventIdsValid(facts', eventSeq') && References(facts', users, products, dates)
    ensures TablesValid(true, users, userSeq, products, productSeq, dates, facts', eventSeq')
  {
  }

  /** The rows kept by `DELETE FROM fact_events WHERE date_key = ds` still satisfy the fact constraints. */
  lemma DeleteKeepsValid(facts: seq<FactRow>, next: int, users: Users, products: Products, dates: Dates, ds: int)
    requires EventIdsValid(facts, next) && References(facts, users, products, dates)
    ensures EventIdsValid(OtherDays(facts, ds), next) && References(OtherDays(facts, ds), users, products, dates)
  {
    OtherDaysIncreasing(facts, ds);
    var kept := OtherDays(facts, ds);
    forall i | 0 <= i < |kept|
      ensures kept[i].eventId < next
      ensures kept[i].fact.userKey in users.Values
      ensures kept[i].fact.productKey in ProductKeys(products)
      ensures kept[i].fact.dateKey in dates
    {
      assert kept[i] in facts;
    }
  }

  /** Deleting rows keeps event ids increasing along the table. */
  lemma {:induction false} OtherDaysIncreasing(rows: seq<FactRow>, ds: int)
    requires forall i, j :: 0 <= i < j < |rows| ==> rows[i].eventId < rows[j].eventId
    ensures forall i, j :: 0 <= i < j < |OtherDays(rows, ds)| ==>
              OtherDays(rows, ds)[i].eventId < OtherDays(rows, ds)[j].eventId
  {
    if rows != [] {
      var init, r := rows[..|rows| - 1], rows[|rows| - 1];
      OtherDaysIncreasing(init, ds);
      var kept := OtherDays(init, ds);
      forall i | 0 <= i < |kept|
        ensures kept[i].eventId < r.eventId
      {
        assert kept[i] in init;
        var k :| 0 <= k < |init| && init[k] == kept[i];
        assert rows[k] == init[k];
      }
    }
  }
}
