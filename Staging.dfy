/**
 The raw staging relation `raw_ecommerce_events` and the SELECT sides of
 the dimension loaders: the half-open day window, the distinct ids of a
 column, and the latest row per product (`DISTINCT ON (product_id) ...
 ORDER BY product_id, event_time DESC`).

 Every column of the staging relation may be NULL, modelled as `None`.
 */
module Staging {
  import opened Calendar

  /** A nullable SQL value. */
  datatype Option<T> = None | Some(value: T)

  /**
   One row of `raw_ecommerce_events`. Price, event type and session are
   carried through to the fact table and never inspected; the price is an
   opaque number (its NUMERIC scale is not modelled).
   */
  datatype RawEvent = RawEvent(
    eventTime: Option<int>,
    userId: Option<int>,
    productId: Option<int>,
    categoryCode: Option<string>,
    brand: Option<string>,
    eventType: Option<string>,
    price: Option<int>,
    userSession: Option<string>)

  /** Airflow's `next_ds` for a daily schedule. */
  function NextDs(ds: int): int {
    ds + 1
  }

  /**
   `event_time >= 'ds'::TIMESTAMP AND event_time < 'next_ds'::TIMESTAMP`;
   a NULL event time fails both comparisons.
   */
  predicate InWindow(e: RawEvent, ds: int) {
    e.eventTime.Some? && MidnightOf(ds) <= e.eventTime.value < MidnightOf(NextDs(ds))
  }

  /** The window of day `ds` holds exactly the rows whose `event_time::DATE` is `ds`. */
  lemma InWindowIsSameDate(e: RawEvent, ds: int)
    ensures InWindow(e, ds) <==> e.eventTime.Some? && DateOf(e.eventTime.value) == ds
  {
    if e.eventTime.Some? {
      DateOfIff(e.eventTime.value, ds);
    }
  }

  /** Windows of different days never share a row. */
  lemma WindowsDisjoint(e: RawEvent, ds1: int, ds2: int)
    requires ds1 != ds2
    ensures !(InWindow(e, ds1) && InWindow(e, ds2))
  {
    InWindowIsSameDate(e, ds1);
    InWindowIsSameDate(e, ds2);
  }

  /** The two id columns that the dimension loaders read. */
  datatype IdColumn = UserIdColumn | ProductIdColumn

  function Id(e: RawEvent, c: IdColumn): Option<int> {
    match c
    case UserIdColumn => e.userId
    case ProductIdColumn => e.productId
  }

  /** `SELECT DISTINCT c FROM raw WHERE <window of ds> AND c IS NOT NULL`. */
  function DistinctIds(raw: seq<RawEvent>, ds: int, c: IdColumn): set<int> {
    if raw == [] then {}
    else
      var e := raw[|raw| - 1];
      DistinctIds(raw[..|raw| - 1], ds, c) + (if InWindow(e, ds) && Id(e, c).Some? then {Id(e, c).value} else {})
  }

  /** The distinct ids are exactly the non-null ids of column `c` among the rows of the window. */
  lemma {:induction false} DistinctIdsMembers(raw: seq<RawEvent>, ds: int, c: IdColumn)
    ensures forall id :: id in DistinctIds(raw, ds, c) <==>
              exists e :: e in raw && InWindow(e, ds) && Id(e, c) == Some(id)
  {
    if raw != [] {
      var init, e := raw[..|raw| - 1], raw[|raw| - 1];
      assert raw == init + [e];
      DistinctIdsMembers(init, ds, c);
    }
  }

  /**
   `r` is a row that `DISTINCT ON (product_id) ... ORDER BY product_id,
   event_time DESC` may keep for product `p`: a row of the window for `p`
   whose event time no other such row exceeds. When several rows share the
   greatest event time, any of them may be kept.
   */
  ghost predicate LatestFor(raw: seq<RawEvent>, ds: int, p: int, r: RawEvent) {
    && r in raw && InWindow(r, ds) && r.productId == Some(p)
    && forall e :: e in raw && InWindow(e, ds) && e.productId == Some(p) ==>
         e.eventTime.value <= r.eventTime.value
  }

  /**
   One row per product of the window, each a latest row for its product:
   the batch that `load_products` upserts. Among rows tied on event time
   the earliest in `raw` is kept.
   */
  function LatestPerProduct(raw: seq<RawEvent>, ds: int): (m: map<int, RawEvent>)
    ensures m.Keys == DistinctIds(raw, ds, ProductIdColumn)
    ensures forall p :: p in m ==> LatestFor(raw, ds, p, m[p])
  {
    if raw == [] then map[]
    else
      var init, e := raw[..|raw| - 1], raw[|raw| - 1];
      var m := LatestPerProduct(init, ds);
      AbsorbKeepsLatest(init, e, ds, m);
      assert raw == init + [e];
      Absorb(m, e, ds)
  }

  /** Folds one more row into a latest-row-per-product map. */
  function Absorb(m: map<int, RawEvent>, e: RawEvent, ds: int): map<int, RawEvent>
    requires forall p :: p in m ==> m[p].eventTime.Some?
  {
    if InWindow(e, ds) && e.productId.Some? then
      var p := e.productId.value;
      if p !in m || m[p].eventTime.value < e.eventTime.value then m[p := e] else m
    else m
  }

  lemma AbsorbKeepsLatest(init: seq<RawEvent>, e: RawEvent, ds: int, m: map<int, RawEvent>)
    requires m.Keys == DistinctIds(init, ds, ProductIdColumn)
    requires forall p :: p in m ==> LatestFor(init, ds, p, m[p])
    ensures forall p :: p in m ==> m[p].eventTime.Some?
    ensures Absorb(m, e, ds).Keys == DistinctIds(init + [e], ds, ProductIdColumn)
    ensures forall p :: p in Absorb(m, e, ds) ==> LatestFor(init + [e], ds, p, Absorb(m, e, ds)[p])
  {
    var raw := init + [e];
    assert raw[..|raw| - 1] == init;
    DistinctIdsMembers(init, ds, ProductIdColumn);
    var m' := Absorb(m, e, ds);
    forall p | p in m'
      ensures LatestFor(raw, ds, p, m'[p])
    {
      if e.productId == Some(p) && InWindow(e, ds) && m'[p] == e {
        LatestAfterSnoc(init, e, ds, p, e);
      } else {
        assert m'[p] == m[p];
        LatestAfterSnoc(init, e, ds, p, m[p]);
      }
    }
  }

  /** A latest row of the window stays latest when a row that does not beat it is appended. */
  lemma LatestAfterSnoc(init: seq<RawEvent>, e: RawEvent, ds: int, p: int, r: RawEvent)
    requires r == e ==> InWindow(e, ds) && e.productId == Some(p)
    requires r == e ==> forall x :: x in init && InWindow(x, ds) && x.productId == Some(p) ==>
                          x.eventTime.value <= e.eventTime.value
    requires r != e ==> LatestFor(init, ds, p, r)
    requires r != e && InWindow(e, ds) && e.productId == Some(p) ==> e.eventTime.value <= r.eventTime.value
    ensures LatestFor(init + [e], ds, p, r)
  {
    assert forall x :: x in init + [e] <==> x in init || x == e;
  }

  /** Among rows of one product that do not tie on event time, the latest row is unique. */
  lemma LatestIsUnique(raw: seq<RawEvent>, ds: int, p: int, r1: RawEvent, r2: RawEvent)
    requires LatestFor(raw, ds, p, r1) && LatestFor(raw, ds, p, r2)
    ensures r1.eventTime == r2.eventTime
  {
  }

  /** The rows for which the pipeline promises a fact: in the window, with a user and a product. */
  function Eligible(raw: seq<RawEvent>, ds: int): (rs: seq<RawEvent>)
    ensures forall e :: e in rs <==> e in raw && InWindow(e, ds) && e.userId.Some? && e.productId.Some?
    ensures |rs| <= |raw|
  {
    if raw == [] then []
    else
      var init, e := raw[..|raw| - 1], raw[|raw| - 1];
      assert raw == init + [e];
      Eligible(init, ds) + (if InWindow(e, ds) && e.userId.Some? && e.productId.Some? then [e] else [])
  }
}
