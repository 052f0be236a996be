/**
 The rows of the star schema created by `init_schema`, the inner join that
 `load_facts` selects, and the partition arithmetic of its
 delete-then-insert.

 Dimension tables are maps from their natural key (the UNIQUE or PRIMARY
 KEY column) to the rest of the row, so that each natural key resolves to
 at most one row by construction.
 */
module Star {
  import opened Calendar
  import opened Staging

  /** A row of `dim_products` without its natural key `product_id`. */
  datatype Product = Product(productKey: int, categoryCode: Option<string>, brand: Option<string>)

  /** A row of `dim_dates` without its natural key `date_key`. */
  datatype DateRow = DateRow(year: int, month: int, day: int, isWeekend: bool)

  /** The columns of a `fact_events` row other than its generated `event_id`. */
  datatype Fact = Fact(
    eventTime: int,
    userKey: int,
    productKey: int,
    dateKey: int,
    eventType: Option<string>,
    price: Option<int>,
    userSession: Option<string>)

  /** A stored `fact_events` row: the BIGSERIAL `event_id` and the rest. */
  datatype FactRow = FactRow(eventId: int, fact: Fact)

  type Users = map<int, int>
  type Products = map<int, Product>
  type Dates = map<int, DateRow>

  /** The `product_key` column of `dim_products`. */
  function ProductKeys(products: Products): (keys: set<int>)
    ensures forall p :: p in products ==> products[p].productKey in keys
  {
    set p | p in products :: products[p].productKey
  }

  /** The row `load_dates` derives for day `d`. */
  function DateRowOf(d: int): (r: DateRow)
    ensures exists c :: ValidCivil(c) && DaysFromCivil(c) == d
                        && r.year == ExtractYear(c.year) && r.month == c.month && r.day == c.day
    ensures 1 <= r.month <= 12 && 1 <= r.day <= 31 && r.year != 0
    ensures r.isWeekend <==> DayOfWeek(d) == 0 || DayOfWeek(d) == 6
  {
    var c := CivilFromDays(d);
    DateRow(ExtractYear(c.year), c.month, c.day, IsWeekend(d))
  }

  /** The date row of a valid calendar date carries that date's own fields. */
  lemma DateRowOfCivil(c: Civil)
    requires ValidCivil(c)
    ensures DateRowOf(DaysFromCivil(c)) == DateRow(ExtractYear(c.year), c.month, c.day, IsWeekend(DaysFromCivil(c)))
  {
    CivilRoundTrip(c);
  }

  // ---------------------------------------------------------------------
  // The SELECT of load_facts

  /**
   The three inner joins of `load_facts` match raw row `e`: its user, its
   product and its `event_time::DATE` each have a dimension row. A NULL id
   or event time matches nothing.
   */
  predicate Resolves(e: RawEvent, users: Users, products: Products, dates: Dates) {
    && e.eventTime.Some? && DateOf(e.eventTime.value) in dates
    && e.userId.Some? && e.userId.value in users
    && e.productId.Some? && e.productId.value in products
  }

  /** The projection of a matched raw row into a fact. */
  function FactOf(e: RawEvent, users: Users, products: Products): Fact
    requires e.eventTime.Some? && e.userId.Some? && e.productId.Some?
    requires e.userId.value in users && e.productId.value in products
  {
    Fact(e.eventTime.value, users[e.userId.value], products[e.productId.value].productKey,
         DateOf(e.eventTime.value), e.eventType, e.price, e.userSession)
  }

  /** What a fact built from raw row `e` must hold: the row's own columns and the keys its ids resolve to. */
  ghost predicate Describes(f: Fact, e: RawEvent, users: Users, products: Products) {
    && e.eventTime.Some? && e.userId.Some? && e.productId.Some?
    && e.userId.value in users && e.productId.value in products
    && f.eventTime == e.eventTime.value
    && f.userKey == users[e.userId.value]
    && f.productKey == products[e.productId.value].productKey
    && f.dateKey == DateOf(e.eventTime.value)
    && f.eventType == e.eventType && f.price == e.price && f.userSession == e.userSession
  }

  /** The rows that the SELECT of `load_facts` produces for day `ds`, in the order of `raw`. */
  function Joined(raw: seq<RawEvent>, ds: int, users: Users, products: Products, dates: Dates): (fs: seq<Fact>)
    ensures |fs| <= |raw|
    ensures forall i :: 0 <= i < |fs| ==>
      && fs[i].dateKey == ds && ds in dates
      && fs[i].userKey in users.Values
      && fs[i].productKey in ProductKeys(products)
  {
    if raw == [] then []
    else
      var init, e := raw[..|raw| - 1], raw[|raw| - 1];
      var fs := Joined(init, ds, users, products, dates);
      if InWindow(e, ds) && Resolves(e, users, products, dates) then
        InWindowIsSameDate(e, ds);
        fs + [FactOf(e, users, products)]
      else fs
  }

  /** The join of a concatenation is the concatenation of the joins. */
  lemma {:induction false} JoinedAppend(a: seq<RawEvent>, b: seq<RawEvent>, ds: int,
                                        users: Users, products: Products, dates: Dates)
    ensures Joined(a + b, ds, users, products, dates)
         == Joined(a, ds, users, products, dates) + Joined(b, ds, users, products, dates)
    decreases |b|
  {
    if b == [] {
      assert a + b == a;
    } else {
      var init := b[..|b| - 1];
      assert (a + b)[..|a + b| - 1] == a + init;
      assert (a + b)[|a + b| - 1] == b[|b| - 1];
      JoinedAppend(a, init, ds, users, products, dates);
    }
  }

  /** A single raw row contributes its fact exactly when it lies in the window and all three joins match. */
  lemma JoinedSingle(e: RawEvent, ds: int, users: Users, products: Products, dates: Dates)
    ensures InWindow(e, ds) && Resolves(e, users, products, dates) ==>
              Joined([e], ds, users, products, dates) == [FactOf(e, users, products)]
    ensures !(InWindow(e, ds) && Resolves(e, users, products, dates)) ==>
              Joined([e], ds, users, products, dates) == []
  {
    assert [e][..0] == [];
  }

  /**
   Join exclusion: a raw row outside the window, or whose user, product or
   date has no dimension row (NULL ids included), contributes no fact; the
   rows around it are joined as if it were absent.
   */
  lemma JoinedSkips(a: seq<RawEvent>, e: RawEvent, b: seq<RawEvent>, ds: int,
                    users: Users, products: Products, dates: Dates)
    requires !InWindow(e, ds) || !Resolves(e, users, products, dates)
    ensures Joined(a + [e] + b, ds, users, products, dates) == Joined(a + b, ds, users, products, dates)
  {
    JoinedAppend(a + [e], b, ds, users, products, dates);
    JoinedAppend(a, [e], ds, users, products, dates);
    JoinedAppend(a, b, ds, users, products, dates);
    JoinedSingle(e, ds, users, products, dates);
  }

  /**
   Referential completeness of the join: when every eligible row's user and
   product has a dimension row and day `ds` has a date row, the join yields
   exactly one fact per eligible row, in order, each describing its row.
   */
  lemma {:induction false} JoinedCovers(raw: seq<RawEvent>, ds: int, users: Users, products: Products, dates: Dates)
    requires DistinctIds(raw, ds, UserIdColumn) <= users.Keys
    requires DistinctIds(raw, ds, ProductIdColumn) <= products.Keys
    requires ds in dates
    ensures |Joined(raw, ds, users, products, dates)| == |Eligible(raw, ds)|
    ensures forall i :: 0 <= i < |Eligible(raw, ds)| ==>
              Describes(Joined(raw, ds, users, products, dates)[i], Eligible(raw, ds)[i], users, products)
  {
    if raw != [] {
      var init, e := raw[..|raw| - 1], raw[|raw| - 1];
      assert raw == init + [e];
      assert forall x :: x in init ==> x in raw;
      JoinedCovers(init, ds, users, products, dates);
      DistinctIdsMembers(raw, ds, UserIdColumn);
      DistinctIdsMembers(raw, ds, ProductIdColumn);
      DistinctIdsMembers(init, ds, UserIdColumn);
      DistinctIdsMembers(init, ds, ProductIdColumn);
      if InWindow(e, ds) && e.userId.Some? && e.productId.Some? {
        InWindowIsSameDate(e, ds);
        assert e.userId.value in DistinctIds(raw, ds, UserIdColumn);
        assert e.productId.value in DistinctIds(raw, ds, ProductIdColumn);
        assert Resolves(e, users, products, dates);
      }
    }
  }

  /**
   The join reads only the user keys, the product keys and which days have
   a date row: product attributes play no part in it.
   */
  lemma {:induction false} JoinedIgnoresAttributes(raw: seq<RawEvent>, ds: int, users: Users,
                                                   products: Products, products': Products,
                                                   dates: Dates, dates': Dates)
    requires products.Keys == products'.Keys
    requires forall p :: p in products ==> products[p].productKey == products'[p].productKey
    requires dates.Keys == dates'.Keys
    ensures Joined(raw, ds, users, products, dates) == Joined(raw, ds, users, products', dates')
  {
    if raw != [] {
      JoinedIgnoresAttributes(raw[..|raw| - 1], ds, users, products, products', dates, dates');
    }
  }

  // ---------------------------------------------------------------------
  // Partitions of fact_events by date_key

  /** The rows that `DELETE FROM fact_events WHERE date_key = ds` keeps. */
  function OtherDays(rows: seq<FactRow>, ds: int): (kept: seq<FactRow>)
    ensures forall r :: r in kept <==> r in rows && r.fact.dateKey != ds
    ensures |kept| <= |rows|
  {
    if rows == [] then []
    else
      var init, r := rows[..|rows| - 1], rows[|rows| - 1];
      assert rows == init + [r];
      OtherDays(init, ds) + (if r.fact.dateKey != ds then [r] else [])
  }

  /** The partition of day `ds`: the rows whose `date_key` is `ds`. */
  function Partition(rows: seq<FactRow>, ds: int): (part: seq<FactRow>)
    ensures forall r :: r in part <==> r in rows && r.fact.dateKey == ds
    ensures |part| <= |rows|
  {
    if rows == [] then []
    else
      var init, r := rows[..|rows| - 1], rows[|rows| - 1];
      assert rows == init + [r];
      Partition(init, ds) + (if r.fact.dateKey == ds then [r] else [])
  }

  /** The stored rows with their `event_id` dropped. */
  function Bodies(rows: seq<FactRow>): (fs: seq<Fact>)
    ensures |fs| == |rows|
    ensures forall i :: 0 <= i < |rows| ==> fs[i] == rows[i].fact
  {
    if rows == [] then [] else Bodies(rows[..|rows| - 1]) + [rows[|rows| - 1].fact]
  }

  /** A day's rows of a concatenation are the day's rows of each part. */
  lemma {:induction false} PartitionAppend(a: seq<FactRow>, b: seq<FactRow>, ds: int)
    ensures Partition(a + b, ds) == Partition(a, ds) + Partition(b, ds)
    decreases |b|
  {
    if b == [] {
      assert a + b == a;
    } else {
      var init := b[..|b| - 1];
      assert (a + b)[..|a + b| - 1] == a + init;
      assert (a + b)[|a + b| - 1] == b[|b| - 1];
      PartitionAppend(a, init, ds);
    }
  }

  /** The other days' rows of a concatenation are the other days' rows of each part. */
  lemma {:induction false} OtherDaysAppend(a: seq<FactRow>, b: seq<FactRow>, ds: int)
    ensures OtherDays(a + b, ds) == OtherDays(a, ds) + OtherDays(b, ds)
    decreases |b|
  {
    if b == [] {
      assert a + b == a;
    } else {
      var init := b[..|b| - 1];
      assert (a + b)[..|a + b| - 1] == a + init;
      assert (a + b)[|a + b| - 1] == b[|b| - 1];
      OtherDaysAppend(a, init, ds);
    }
  }

  /** Rows that all belong to day `ds` are their own partition and leave nothing for other days. */
  lemma {:induction false} PartitionOfOneDay(rows: seq<FactRow>, ds: int)
    requires forall i :: 0 <= i < |rows| ==> rows[i].fact.dateKey == ds
    ensures Partition(rows, ds) == rows
    ensures OtherDays(rows, ds) == []
  {
    if rows != [] {
      PartitionOfOneDay(rows[..|rows| - 1], ds);
      assert rows == rows[..|rows| - 1] + [rows[|rows| - 1]];
    }
  }

  /** The rows kept by the delete hold nothing of day `ds`, and deleting again keeps them all. */
  lemma {:induction false} OtherDaysHasNoPartition(rows: seq<FactRow>, ds: int)
    ensures Partition(OtherDays(rows, ds), ds) == []
    ensures OtherDays(OtherDays(rows, ds), ds) == OtherDays(rows, ds)
  {
    if rows != [] {
      var init, r := rows[..|rows| - 1], rows[|rows| - 1];
      OtherDaysHasNoPartition(init, ds);
      PartitionAppend(OtherDays(init, ds), if r.fact.dateKey != ds then [r] else [], ds);
      OtherDaysAppend(OtherDays(init, ds), if r.fact.dateKey != ds then [r] else [], ds);
      if r.fact.dateKey != ds {
        assert [r][..0] == [];
      }
    }
  }

  /**
   Partition replace: after deleting day `ds` and appending a batch of rows
   all dated `ds`, the day's partition is exactly the batch and every other
   day's rows are exactly those from before.
   */
  lemma ReplacePartition(rows: seq<FactRow>, batch: seq<FactRow>, ds: int)
    requires forall i :: 0 <= i < |batch| ==> batch[i].fact.dateKey == ds
    ensures Partition(OtherDays(rows, ds) + batch, ds) == batch
    ensures OtherDays(OtherDays(rows, ds) + batch, ds) == OtherDays(rows, ds)
  {
    PartitionAppend(OtherDays(rows, ds), batch, ds);
    OtherDaysAppend(OtherDays(rows, ds), batch, ds);
    OtherDaysHasNoPartition(rows, ds);
    PartitionOfOneDay(batch, ds);
  }

  /** Dropping the ids commutes with concatenation. */
  lemma BodiesAppend(a: seq<FactRow>, b: seq<FactRow>)
    ensures Bodies(a + b) == Bodies(a) + Bodies(b)
  {
  }

  /** A map that keeps every old entry keeps every old value. */
  lemma ValuesGrow<K, V>(m: map<K, V>, m': map<K, V>)
    requires forall k :: k in m ==> k in m' && m'[k] == m[k]
    ensures m.Values <= m'.Values
  {
    forall v | v in m.Values
      ensures v in m'.Values
    {
      var k :| k in m && m[k] == v;
      assert m'[k] == v;
    }
  }

  /** A product table that keeps every old product's key keeps every old key. */
  lemma ProductKeysGrow(products: Products, products': Products)
    requires forall p :: p in products ==> p in products' && products'[p].productKey == products[p].productKey
    ensures ProductKeys(products) <= ProductKeys(products')
  {
    forall k | k in ProductKeys(products)
      ensures k in ProductKeys(products')
    {
      var p :| p in products && products[p].productKey == k;
      assert products'[p].productKey == k;
    }
  }
}
