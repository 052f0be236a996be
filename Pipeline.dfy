/**
 One daily run of the DAG: `init_schema`, then `load_users`,
 `load_products` and `load_dates` in any order, then `load_facts`. The
 three dimension loaders have no dependency on one another, so a run may
 execute them in any order; each touches only its own table.
 */
module Pipeline {
  import opened Calendar
  import opened Staging
  import opened Star
  import opened Schema
  import opened Loaders
  import opened Warehouse

  /** The contents of the warehouse at one moment. */
  datatype Tables = Tables(users: Users, userSeq: int, products: Products, productSeq: int,
                           dates: Dates, facts: seq<FactRow>, eventSeq: int)

  function Snapshot(w: Warehouse): Tables
    reads w
  {
    Tables(w.users, w.userSeq, w.products, w.productSeq, w.dates, w.facts, w.eventSeq)
  }

  /**
   What one run for day `ds` does to the tables `t`, leaving `t'`: each
   dimension loader's change, then the fact partition replaced by the join
   against the loaded dimensions.
   */
  ghost predicate DayLoaded(raw: seq<RawEvent>, ds: int, t: Tables, t': Tables) {
    && UsersInserted(t.users, t.userSeq, DistinctIds(raw, ds, UserIdColumn), t'.users, t'.userSeq)
    && ProductsLoaded(raw, ds, t.products, t.productSeq, t'.products, t'.productSeq)
    && t'.dates == AddDate(t.dates, ds)
    && t'.facts == ReplaceDay(t.facts, ds, Joined(raw, ds, t'.users, t'.products, t'.dates), t.eventSeq)
    && t'.eventSeq == t.eventSeq + |Joined(raw, ds, t'.users, t'.products, t'.dates)|
  }

  /**
   A run delivers one fact per raw row of the window that has a user id and
   a product id, in the order of the raw rows, each describing its row;
   every other day's rows, and each other day's partition, are untouched.
   */
  lemma DayLoadedDelivers(raw: seq<RawEvent>, ds: int, t: Tables, t': Tables)
    requires DayLoaded(raw, ds, t, t')
    ensures |Partition(t'.facts, ds)| == |Eligible(raw, ds)|
    ensures forall i :: 0 <= i < |Eligible(raw, ds)| ==>
              Describes(Partition(t'.facts, ds)[i].fact, Eligible(raw, ds)[i], t'.users, t'.products)
    ensures OtherDays(t'.facts, ds) == OtherDays(t.facts, ds)
    ensures forall d :: d != ds ==> Partition(t'.facts, d) == Partition(t.facts, d)
  {
    var batch := Joined(raw, ds, t'.users, t'.products, t'.dates);
    JoinedCovers(raw, ds, t'.users, t'.products, t'.dates);
    ReplaceDayPartition(t.facts, ds, batch, t.eventSeq);
    forall d | d != ds
      ensures Partition(t'.facts, d) == Partition(t.facts, d)
    {
      ReplaceDayIsolation(t.facts, ds, batch, t.eventSeq, d);
    }
  }

  /**
   Rerunning the same day on the same raw rows changes no dimension row's
   key, adds no row, and leaves the fact table as it was apart from the
   event ids.
   */
  lemma DayLoadedTwice(raw: seq<RawEvent>, ds: int, t: Tables, t': Tables, t'': Tables)
    requires DayLoaded(raw, ds, t, t') && DayLoaded(raw, ds, t', t'')
    ensures t''.users == t'.users
    ensures t''.products.Keys == t'.products.Keys
    ensures forall p :: p in t'.products ==> t''.products[p].productKey == t'.products[p].productKey
    ensures t''.dates == t'.dates
    ensures Bodies(t''.facts) == Bodies(t'.facts)
  {
    UsersInsertedNoop(t'.users, t'.userSeq, DistinctIds(raw, ds, UserIdColumn), t''.users, t''.userSeq);
    ProductsReloadKeepsKeys(raw, ds, t.products, t.productSeq, t'.products, t'.productSeq,
                            t''.products, t''.productSeq);
    AddDateIdempotent(t.dates, ds);
    JoinedIgnoresAttributes(raw, ds, t'.users, t'.products, t''.products, t'.dates, t''.dates);
    ReplaceDayIdempotent(t.facts, ds, Joined(raw, ds, t'.users, t'.products, t'.dates), t.eventSeq, t'.eventSeq);
  }

  /** The three dimension loaders. */
  datatype Dimension = UserDimension | ProductDimension | DateDimension

  /** An order in which a run executes the three dimension loaders. */
  predicate IsOrder(order: seq<Dimension>) {
    |order| == 3 && UserDimension in order && ProductDimension in order && DateDimension in order
  }

  /**
   What dimension loader `d` promises for day `ds`, taking the tables from
   `t` to `t'`: its own table changes as the loader says, nothing else
   changes.
   */
  ghost predicate DimensionLoaded(raw: seq<RawEvent>, ds: int, d: Dimension, t: Tables, t': Tables) {
    match d
    case UserDimension =>
      && UsersInserted(t.users, t.userSeq, DistinctIds(raw, ds, UserIdColumn), t'.users, t'.userSeq)
      && t' == t.(users := t'.users, userSeq := t'.userSeq)
    case ProductDimension =>
      && ProductsLoaded(raw, ds, t.products, t.productSeq, t'.products, t'.productSeq)
      && t' == t.(products := t'.products, productSeq := t'.productSeq)
    case DateDimension =>
      t' == t.(dates := AddDate(t.dates, ds))
  }

  /** All three dimension loaders have run on `t`, leaving `t'`; the fact table is untouched. */
  ghost predicate DimensionsLoaded(raw: seq<RawEvent>, ds: int, t: Tables, t': Tables) {
    && UsersInserted(t.users, t.userSeq, DistinctIds(raw, ds, UserIdColumn), t'.users, t'.userSeq)
    && ProductsLoaded(raw, ds, t.products, t.productSeq, t'.products, t'.productSeq)
    && t'.dates == AddDate(t.dates, ds)
    && t'.facts == t.facts && t'.eventSeq == t.eventSeq
  }

  /**
   The order of the dimension loaders does not matter: running them one
   after another in any order does what all three promise.
   */
  lemma AnyOrderLoadsAll(raw: seq<RawEvent>, ds: int, order: seq<Dimension>,
                         t0: Tables, t1: Tables, t2: Tables, t3: Tables)
    requires IsOrder(order)
    requires DimensionLoaded(raw, ds, order[0], t0, t1)
    requires DimensionLoaded(raw, ds, order[1], t1, t2)
    requires DimensionLoaded(raw, ds, order[2], t2, t3)
    ensures DimensionsLoaded(raw, ds, t0, t3)
  {
    IsOrderDistinct(order);
    var a, b, c := order[0], order[1], order[2];
    UsersLoadedOnce(raw, ds, a, b, c, t0, t1, t2, t3);
    ProductsLoadedOnce(raw, ds, a, b, c, t0, t1, t2, t3);
    DatesLoadedOnce(raw, ds, a, b, c, t0, t1, t2, t3);
    KeepsFacts(raw, ds, a, t0, t1);
    KeepsFacts(raw, ds, b, t1, t2);
    KeepsFacts(raw, ds, c, t2, t3);
  }

  /** An order names each loader exactly once. */
  lemma IsOrderDistinct(order: seq<Dimension>)
    requires IsOrder(order)
    ensures order[0] != order[1] && order[1] != order[2] && order[0] != order[2]
    ensures UserDimension == order[0] || UserDimension == order[1] || UserDimension == order[2]
    ensures ProductDimension == order[0] || ProductDimension == order[1] || ProductDimension == order[2]
    ensures DateDimension == order[0] || DateDimension == order[1] || DateDimension == order[2]
  {
    assert order == [order[0], order[1], order[2]];
  }

  lemma UsersLoadedOnce(raw: seq<RawEvent>, ds: int, a: Dimension, b: Dimension, c: Dimension,
                        t0: Tables, t1: Tables, t2: Tables, t3: Tables)
    requires a != b && b != c && a != c && (UserDimension == a || UserDimension == b || UserDimension == c)
    requires DimensionLoaded(raw, ds, a, t0, t1)
    requires DimensionLoaded(raw, ds, b, t1, t2)
    requires DimensionLoaded(raw, ds, c, t2, t3)
    ensures UsersInserted(t0.users, t0.userSeq, DistinctIds(raw, ds, UserIdColumn), t3.users, t3.userSeq)
  {
    if a == UserDimension {
      KeepsUsers(raw, ds, b, t1, t2);
      KeepsUsers(raw, ds, c, t2, t3);
    } else if b == UserDimension {
      KeepsUsers(raw, ds, a, t0, t1);
      KeepsUsers(raw, ds, c, t2, t3);
    } else {
      KeepsUsers(raw, ds, a, t0, t1);
      KeepsUsers(raw, ds, b, t1, t2);
    }
  }

  lemma ProductsLoadedOnce(raw: seq<RawEvent>, ds: int, a: Dimension, b: Dimension, c: Dimension,
                           t0: Tables, t1: Tables, t2: Tables, t3: Tables)
    requires a != b && b != c && a != c && (ProductDimension == a || ProductDimension == b || ProductDimension == c)
    requires DimensionLoaded(raw, ds, a, t0, t1)
    requires DimensionLoaded(raw, ds, b, t1, t2)
    requires DimensionLoaded(raw, ds, c, t2, t3)
    ensures ProductsLoaded(raw, ds, t0.products, t0.productSeq, t3.products, t3.productSeq)
  {
    if a == ProductDimension {
      KeepsProducts(raw, ds, b, t1, t2);
      KeepsProducts(raw, ds, c, t2, t3);
    } else if b == ProductDimension {
      KeepsProducts(raw, ds, a, t0, t1);
      KeepsProducts(raw, ds, c, t2, t3);
    } else {
      KeepsProducts(raw, ds, a, t0, t1);
      KeepsProducts(raw, ds, b, t1, t2);
    }
  }

  lemma DatesLoadedOnce(raw: seq<RawEvent>, ds: int, a: Dimension, b: Dimension, c: Dimension,
                        t0: Tables, t1: Tables, t2: Tables, t3: Tables)
    requires a != b && b != c && a != c && (DateDimension == a || DateDimension == b || DateDimension == c)
    requires DimensionLoaded(raw, ds, a, t0, t1)
    requires DimensionLoaded(raw, ds, b, t1, t2)
    requires DimensionLoaded(raw, ds, c, t2, t3)
    ensures t3.dates == AddDate(t0.dates, ds)
  {
    if a == DateDimension {
      KeepsDates(raw, ds, b, t1, t2);
      KeepsDates(raw, ds, c, t2, t3);
    } else if b == DateDimension {
      KeepsDates(raw, ds, a, t0, t1);
      KeepsDates(raw, ds, c, t2, t3);
    } else {
      KeepsDates(raw, ds, a, t0, t1);
      KeepsDates(raw, ds, b, t1, t2);
    }
  }

  lemma KeepsUsers(raw: seq<RawEvent>, ds: int, d: Dimension, t: Tables, t': Tables)
    requires DimensionLoaded(raw, ds, d, t, t') && d != UserDimension
    ensures t'.users == t.users && t'.userSeq == t.userSeq
  {
  }

  lemma KeepsProducts(raw: seq<RawEvent>, ds: int, d: Dimension, t: Tables, t': Tables)
    requires DimensionLoaded(raw, ds, d, t, t') && d != ProductDimension
    ensures t'.products == t.products && t'.productSeq == t.productSeq
  {
  }

  lemma KeepsDates(raw: seq<RawEvent>, ds: int, d: Dimension, t: Tables, t': Tables)
    requires DimensionLoaded(raw, ds, d, t, t') && d != DateDimension
    ensures t'.dates == t.dates
  {
  }

  lemma KeepsFacts(raw: seq<RawEvent>, ds: int, d: Dimension, t: Tables, t': Tables)
    requires DimensionLoaded(raw, ds, d, t, t')
    ensures t'.facts == t.facts && t'.eventSeq == t.eventSeq
  {
  }

  /** Loading the facts after all three dimensions completes a run. */
  lemma FactsCompleteRun(raw: seq<RawEvent>, ds: int, t: Tables, dims: Tables, t': Tables)
    requires DimensionsLoaded(raw, ds, t, dims)
    requires t'.users == dims.users && t'.userSeq == dims.userSeq
    requires t'.products == dims.products && t'.productSeq == dims.productSeq && t'.dates == dims.dates
    requires t'.facts == ReplaceDay(dims.facts, ds, Joined(raw, ds, dims.users, dims.products, dims.dates), dims.eventSeq)
    requires t'.eventSeq == dims.eventSeq + |Joined(raw, ds, dims.users, dims.products, dims.dates)|
    ensures DayLoaded(raw, ds, t, t')
  {
  }

  /** Runs dimension loader `d` on the warehouse. */
  method LoadDimension(w: Warehouse, raw: seq<RawEvent>, ds: int, d: Dimension)
    requires w.Valid() && w.schemaReady
    modifies w
    ensures w.Valid() && w.schemaReady
    ensures DimensionLoaded(raw, ds, d, old(Snapshot(w)), Snapshot(w))
  {
    match d
    case UserDimension => w.LoadUsers(raw, ds);
    case ProductDimension => w.LoadProducts(raw, ds);
    case DateDimension => w.LoadDates(ds);
  }

  /** Runs the three dimension loaders in the given order. */
  method LoadDimensions(w: Warehouse, raw: seq<RawEvent>, ds: int, order: seq<Dimension>)
    requires w.Valid() && w.schemaReady && IsOrder(order)
    modifies w
    ensures w.Valid() && w.schemaReady
    ensures DimensionsLoaded(raw, ds, old(Snapshot(w)), Snapshot(w))
  {
    ghost var t0 := Snapshot(w);
    LoadDimension(w, raw, ds, order[0]);
    ghost var t1 := Snapshot(w);
    LoadDimension(w, raw, ds, order[1]);
    ghost var t2 := Snapshot(w);
    LoadDimension(w, raw, ds, order[2]);
    AnyOrderLoadsAll(raw, ds, order, t0, t1, t2, Snapshot(w));
  }

  /**
   One daily run, the dimension loaders in the given order. Afterwards the
   tables are related to those before as `DayLoaded` says, whatever the
   order.
   */
  method RunDay(w: Warehouse, raw: seq<RawEvent>, ds: int, order: seq<Dimension>)
    requires w.Valid() && IsOrder(order)
    modifies w
    ensures w.Valid() && w.schemaReady
    ensures DayLoaded(raw, ds, old(Snapshot(w)), Snapshot(w))
  {
    ghost var t0 := Snapshot(w);
    w.InitSchema();
    assert Snapshot(w) == t0;
    LoadDimensions(w, raw, ds, order);
    ghost var dims := Snapshot(w);
    w.LoadFacts(raw, ds);
    FactsCompleteRun(raw, ds, t0, dims, Snapshot(w));
  }

  /**
   Rerunning a day, in any orders. `mid` is the state after the first run.
   The second run changes no user row, no product key and no date row, and
   leaves the fact table as the first run left it apart from event ids.
   */
  method RerunDay(w: Warehouse, raw: seq<RawEvent>, ds: int, first: seq<Dimension>, second: seq<Dimension>)
    returns (ghost mid: Tables)
    requires w.Valid() && IsOrder(first) && IsOrder(second)
    modifies w
    ensures w.Valid()
    ensures DayLoaded(raw, ds, old(Snapshot(w)), mid)
    ensures w.users == mid.users && w.dates == mid.dates
    ensures w.products.Keys == mid.products.Keys
    ensures forall p :: p in mid.products ==> w.products[p].productKey == mid.products[p].productKey
    ensures Bodies(w.facts) == Bodies(mid.facts)
    ensures |Partition(w.facts, ds)| == |Eligible(raw, ds)|
    ensures OtherDays(w.facts, ds) == OtherDays(old(w.facts), ds)
  {
    ghost var t := Snapshot(w);
    RunDay(w, raw, ds, first);
    mid := Snapshot(w);
    RunDay(w, raw, ds, second);
    DayLoadedTwice(raw, ds, t, mid, Snapshot(w));
    DayLoadedDelivers(raw, ds, mid, Snapshot(w));
    DayLoadedDelivers(raw, ds, t, mid);
  }

  // ---------------------------------------------------------------------
  // A worked day

  /** 2019-10-01, the DAG's start date and so the `ds` of its first run. */
  const ExampleDay: int := 18170

  /** `load_dates` derives 2019-10-01, a Tuesday, for the example day. */
  lemma ExampleDayRow()
    ensures DateRowOf(ExampleDay) == DateRow(2019, 10, 1, false)
  {
    var c := Civil(2019, 10, 1);
    ExampleDayIsOctoberFirst();
    DateRowOfCivil(c);
    assert (ExampleDay + 4) / 7 == 2596;
    assert DayOfWeek(ExampleDay) == 2;
    assert ExtractYear(2019) == 2019;
  }

  /** Day 18170 is 2019-10-01. */
  lemma ExampleDayIsOctoberFirst()
    ensures ValidCivil(Civil(2019, 10, 1)) && DaysFromCivil(Civil(2019, 10, 1)) == ExampleDay
  {
    DaysBeforeYearModern(2019);
    assert DaysBeforeMonth(2019, 10) == 273;
  }

  /** Two views of product 100 on the example day, the later one with another category. */
  function ExampleRaw(): seq<RawEvent> {
    [ RawEvent(Some(ExampleDay * TicksPerDay + 9 * 3_600_000_000), Some(1), Some(100),
               Some("a"), Some("acme"), Some("view"), Some(10), Some("s1")),
      RawEvent(Some(ExampleDay * TicksPerDay + 10 * 3_600_000_000), Some(2), Some(100),
               Some("b"), Some("acme"), Some("view"), Some(10), Some("s2")) ]
  }

  /** Both example rows fall in the example day's window. */
  lemma ExampleInWindow()
    ensures InWindow(ExampleRaw()[0], ExampleDay) && InWindow(ExampleRaw()[1], ExampleDay)
  {
  }

  /** Every example row is eligible for a fact. */
  lemma ExampleEligible()
    ensures Eligible(ExampleRaw(), ExampleDay) == ExampleRaw()
  {
    var raw := ExampleRaw();
    ExampleInWindow();
    assert raw[..1] == [raw[0]];
    assert raw[..1][..0] == [];
  }

  /** The 10:00 row is the only latest row of product 100. */
  lemma ExampleLatest(r: RawEvent)
    requires LatestFor(ExampleRaw(), ExampleDay, 100, r)
    ensures r == ExampleRaw()[1]
  {
    var raw := ExampleRaw();
    ExampleInWindow();
    assert raw[1] in raw;
  }

  /** On the example day the later row's category wins in `dim_products`. */
  lemma ExampleLastWriteWins(products: Products, next: int, products': Products, next': int)
    requires ProductsLoaded(ExampleRaw(), ExampleDay, products, next, products', next')
    ensures 100 in products' && products'[100].categoryCode == Some("b")
  {
    var raw := ExampleRaw();
    ExampleInWindow();
    assert raw[0] in raw;
    DistinctIdsMembers(raw, ExampleDay, ProductIdColumn);
    assert 100 in DistinctIds(raw, ExampleDay, ProductIdColumn);
    var r :| LatestFor(raw, ExampleDay, 100, r) && products'[100].categoryCode == r.categoryCode;
    ExampleLatest(r);
  }

  /** Both example rows become facts of the example day. */
  lemma ExampleBothFacts(t: Tables, t': Tables)
    requires DayLoaded(ExampleRaw(), ExampleDay, t, t')
    ensures |Partition(t'.facts, ExampleDay)| == 2
  {
    DayLoadedDelivers(ExampleRaw(), ExampleDay, t, t');
    ExampleEligible();
  }
}
