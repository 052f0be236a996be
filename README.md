# E-commerce star-schema ELT, modelled in Dafny

This project models the daily ELT job in `ecommerce_star_schema_dag.py`. The job loads one day of raw clickstream rows (`raw_ecommerce_events`) into a star schema. The schema has three dimensions (`dim_users`, `dim_products`, `dim_dates`) and one fact table (`fact_events`).

A run for processing day `ds` has three stages:
- `init_schema` creates the tables if they are missing.
- The three dimension loaders run next, in any order.
- `load_facts` runs last. It deletes the day's partition of `fact_events` and refills it by inner-joining the day's raw rows with the three dimensions.

`load_users`, `load_products` and `load_facts` read the raw rows of the half-open window `[ds, next_ds)`. `load_dates` reads only `ds`, and inserts the date row even on a day with no raw rows. `init_schema` reads no rows.

Layout, one module per file:

- `Calendar`: day numbers, microsecond timestamps, `::DATE` and `::TIMESTAMP`.
  - Also the proleptic Gregorian calendar (with a round-trip proof) and PostgreSQL's `EXTRACT(YEAR)` and `EXTRACT(DOW)`.
  - Day 0 is 1970-01-01, a Thursday.
- `Staging`: the raw row with every column nullable, and the day window.
  - Also the SELECT sides of the dimension loaders: `SELECT DISTINCT` of an id column, and the latest row per product (`DISTINCT ON ... ORDER BY event_time DESC`).
- `Star`: the dimension and fact row types and the inner join of `load_facts`.
  - Also the partitions of `fact_events` by `date_key`.
- `Schema`: the constraints on the tables, and how each kind of table change keeps them.
  - `init_schema` declares primary and unique keys, the SERIAL and BIGSERIAL sequences, and the REFERENCES clauses.
  - Two constraints are not declared by the DDL; the loaders maintain them. Every date row carries its own day's calendar fields (`DatesValid`), and event ids increase along the fact table.
- `Loaders`: what each INSERT does to table values.
  - `INSERT ... ON CONFLICT` applies its proposed rows one at a time, as a loop.
  - `load_facts` is a delete-then-insert.
- `Warehouse`: a `Warehouse` class. Its fields are the four tables and their three sequences, and it has one method per SQL statement.
- `Pipeline`: the step order `init_schema >> [load_users, load_products, load_dates] >> load_facts` and what a whole run promises.
  - Covers reruns and a worked day.

A rerun does not reproduce `event_id`s: `DELETE` then `INSERT` draws new ids from the BIGSERIAL sequence. So idempotence is stated on the rows with `event_id` dropped (`Bodies`).

## Model

| member | source | states |
|---|---|---|
| Calendar.MidnightOf | ecommerce_star_schema_dag.py:78-79 | `'ds'::TIMESTAMP` is midnight at the start of day `ds`; `Calendar.DateOfIff` ties it to `::DATE` |
| Calendar.DateOf | ecommerce_star_schema_dag.py:143 | `event_time::DATE` is the day whose midnight-to-midnight interval holds the timestamp |
| Calendar.DateOfIff | ecommerce_star_schema_dag.py:143 | a timestamp's date is `d` exactly when the timestamp lies in `[d::TIMESTAMP, (d+1)::TIMESTAMP)` |
| Calendar.MonthsFillYear | ecommerce_star_schema_dag.py:111-113 | the twelve month lengths sum to the year length, leap years included |
| Calendar.DaysBeforeMonthGrows | ecommerce_star_schema_dag.py:111-113 | a later month starts no earlier than the end of an earlier month |
| Calendar.DaysBeforeYearStep | ecommerce_star_schema_dag.py:111 | January 1st of consecutive years are one year length apart |
| Calendar.DaysBeforeYearGrows | ecommerce_star_schema_dag.py:111 | a later year starts no earlier than the end of an earlier year |
| Calendar.DaysBeforeYearModern | ecommerce_star_schema_dag.py:111 | closed form for January 1st for the years 1970 to 2100 |
| Calendar.ForwardYears | ecommerce_star_schema_dag.py:111 | walking forward from a year reaches a year and a valid day of it at the right distance |
| Calendar.BackwardYears | ecommerce_star_schema_dag.py:111 | the same, walking backward before 1970 |
| Calendar.MonthOf | ecommerce_star_schema_dag.py:112-113 | finds a valid month and day of the year for a day of the year |
| Calendar.CivilFromDays | ecommerce_star_schema_dag.py:111-113 | every day number has a valid calendar date that maps back to it |
| Calendar.DaysFromCivilInjective | ecommerce_star_schema_dag.py:111-113 | distinct valid dates have distinct day numbers |
| Calendar.CivilRoundTrip | ecommerce_star_schema_dag.py:111-113 | converting a valid date to a day number and back gives the date |
| Calendar.DaysFromCivil | ecommerce_star_schema_dag.py:111-113 | the day number of a valid calendar date; `Calendar.CivilRoundTrip` and `Calendar.DaysFromCivilInjective` make it a bijection onto day numbers |
| Calendar.ExtractYear | ecommerce_star_schema_dag.py:111 | PostgreSQL has no year 0: years after 0 are kept and earlier years move back by one |
| Calendar.DayOfWeek | ecommerce_star_schema_dag.py:114 | `EXTRACT(DOW)` lies in 0..6 |
| Calendar.IsWeekend | ecommerce_star_schema_dag.py:114 | the `CASE`: a day is a weekend iff its DOW is 0 (Sunday) or 6 (Saturday); `Calendar.WeekdayCycle` states its period and adjacency |
| Calendar.WeekdayCycle | ecommerce_star_schema_dag.py:114 | the weekday advances by one each day; the weekend flag has period 7; Saturday and Sunday are the only two consecutive weekend days |
| Staging.NextDs | ecommerce_star_schema_dag.py:79 | `next_ds` of a daily schedule is the following day |
| Staging.InWindow | ecommerce_star_schema_dag.py:78-79 | the filter `event_time >= ds AND event_time < next_ds`; a NULL time fails it; `Staging.InWindowIsSameDate` gives its meaning |
| Staging.InWindowIsSameDate | ecommerce_star_schema_dag.py:78-79 | the window `[ds, next_ds)` holds exactly the rows whose `event_time::DATE` is `ds`; a NULL time is in no window |
| Staging.WindowsDisjoint | ecommerce_star_schema_dag.py:78-79 | the windows of different days share no row |
| Staging.DistinctIds | ecommerce_star_schema_dag.py:76-80 | `SELECT DISTINCT` of an id column over the window, NULLs dropped; `Staging.DistinctIdsMembers` gives its members |
| Staging.DistinctIdsMembers | ecommerce_star_schema_dag.py:76-80 | `SELECT DISTINCT` holds an id exactly when some non-NULL raw row of the window carries it |
| Staging.LatestPerProduct | ecommerce_star_schema_dag.py:91-97 | the DISTINCT ON batch has one row per product of the window, and each is a latest row of its product |
| Staging.Absorb | ecommerce_star_schema_dag.py:91-97 | one step of DISTINCT ON: a window row with a product replaces that product's row only if it is strictly later; `Staging.AbsorbKeepsLatest` proves the step |
| Staging.AbsorbKeepsLatest | ecommerce_star_schema_dag.py:91-97 | folding in one more raw row keeps the batch's keys and its latest-row property |
| Staging.LatestAfterSnoc | ecommerce_star_schema_dag.py:97 | a latest row stays latest when a row that does not beat it is appended |
| Staging.LatestIsUnique | ecommerce_star_schema_dag.py:97 | any two latest rows of a product have the same event time, so only tied rows compete |
| Staging.Eligible | ecommerce_star_schema_dag.py:140-146 | the eligible rows are exactly the window's rows that have both a user id and a product id |
| Star.ProductKeys | ecommerce_star_schema_dag.py:46 | every product's key is in the `product_key` column |
| Star.DateRowOf | ecommerce_star_schema_dag.py:110-114 | the derived date row carries the year, month and day of a valid date for `ds`; `is_weekend` holds iff DOW is 0 or 6 |
| Star.DateRowOfCivil | ecommerce_star_schema_dag.py:110-114 | for a valid date, the row holds exactly that date's year, month, day and weekend flag |
| Star.Resolves | ecommerce_star_schema_dag.py:141-143 | the three INNER JOINs match: the row's user, product and `event_time::DATE` each have a dimension row; NULLs match nothing |
| Star.FactOf | ecommerce_star_schema_dag.py:132-139 | the projection: the row's time, type, price and session with the user, product and date keys its ids resolve to; `Star.JoinedCovers` states it describes its row |
| Star.Joined | ecommerce_star_schema_dag.py:132-146 | the join yields at most one fact per raw row, each dated `ds`, with user, product and date keys present in the dimensions |
| Star.JoinedAppend | ecommerce_star_schema_dag.py:140-146 | the join of a concatenation is the concatenation of the joins |
| Star.JoinedSingle | ecommerce_star_schema_dag.py:140-146 | a single row contributes its fact iff it is in the window and all three joins match |
| Star.JoinedSkips | ecommerce_star_schema_dag.py:141-146 | join exclusion: a row outside the window, or whose user, product or date does not resolve (NULLs included), contributes nothing |
| Star.JoinedCovers | ecommerce_star_schema_dag.py:140-146 | when all ids of the window resolve and `ds` has a date row, exactly one fact per eligible row, in order, each describing its row |
| Star.JoinedIgnoresAttributes | ecommerce_star_schema_dag.py:141-143 | the join depends only on keys: product categories, brands and date attributes do not affect it |
| Star.OtherDays | ecommerce_star_schema_dag.py:125 | `DELETE ... WHERE date_key = ds` keeps exactly the rows of other days |
| Star.Partition | ecommerce_star_schema_dag.py:125 | a day's partition holds exactly the rows with that `date_key` |
| Star.Bodies | ecommerce_star_schema_dag.py:56 | dropping `event_id` keeps every other column of each row |
| Star.PartitionAppend | ecommerce_star_schema_dag.py:125-128 | the partition of a concatenation is the concatenation of the partitions |
| Star.OtherDaysAppend | ecommerce_star_schema_dag.py:125-128 | the delete distributes over concatenation |
| Star.PartitionOfOneDay | ecommerce_star_schema_dag.py:125-128 | rows all dated `ds` are their own partition, and the delete removes them all |
| Star.OtherDaysHasNoPartition | ecommerce_star_schema_dag.py:125 | after the delete, day `ds` has no rows, and deleting again changes nothing |
| Star.ReplacePartition | ecommerce_star_schema_dag.py:125-146 | after delete-then-append, day `ds`'s partition is the appended batch and the other days' rows are those kept |
| Star.BodiesAppend | ecommerce_star_schema_dag.py:56 | dropping ids commutes with concatenation |
| Star.ValuesGrow | ecommerce_star_schema_dag.py:58 | a user table that keeps its entries keeps every `user_key`, so references stay valid |
| Star.ProductKeysGrow | ecommerce_star_schema_dag.py:59 | a product table that keeps its keys keeps every `product_key`, so references stay valid |
| Schema.UsersValid | ecommerce_star_schema_dag.py:42-43 | `user_key SERIAL PRIMARY KEY`: user keys are unique and below the sequence; `user_id` is unique because the table is a map |
| Schema.ProductsValid | ecommerce_star_schema_dag.py:46-47 | `product_key SERIAL PRIMARY KEY`: product keys are unique and below the sequence; `product_id` is unique because the table is a map |
| Schema.EventIdsValid | ecommerce_star_schema_dag.py:56 | `event_id BIGSERIAL PRIMARY KEY`: ids are below the sequence; that they increase along the table is an invariant the loaders keep |
| Schema.References | ecommerce_star_schema_dag.py:58-60 | the REFERENCES clauses: every fact's user, product and date keys have a dimension row |
| Schema.UsersChangeKeepsValid | ecommerce_star_schema_dag.py:42-43 | a grown user table with unique keys below the sequence keeps every constraint |
| Schema.ProductsChangeKeepsValid | ecommerce_star_schema_dag.py:46-47 | a product table that keeps old keys, with unique keys below the sequence, keeps every constraint |
| Schema.DateAddKeepsValid | ecommerce_star_schema_dag.py:52 | adding a day's derived row keeps every constraint |
| Schema.FactsChangeKeepsValid | ecommerce_star_schema_dag.py:56-60 | a fact table with increasing ids below the sequence that references existing rows keeps every constraint |
| Schema.DeleteKeepsValid | ecommerce_star_schema_dag.py:125 | the rows the delete keeps still satisfy the id and reference constraints |
| Schema.OtherDaysIncreasing | ecommerce_star_schema_dag.py:56 | deleting rows keeps event ids increasing along the table |
| Loaders.InsertUser | ecommerce_star_schema_dag.py:75-81 | one proposed row of `load_users`: a key is drawn from the sequence and used only if the id is new (`DO NOTHING`); `Loaders.UsersInsertedStep` states its effect |
| Loaders.InsertUserKeys | ecommerce_star_schema_dag.py:75-81 | proposing one user id adds exactly that id to the table's keys |
| Loaders.InsertUserKeepsValid | ecommerce_star_schema_dag.py:42-43 | one proposed row keeps user keys unique and below the sequence |
| Loaders.InsertUserKeepsFresh | ecommerce_star_schema_dag.py:42 | a newly inserted user's key comes from the sequence range drawn since the start |
| Loaders.InsertUserExtends | ecommerce_star_schema_dag.py:81 | `DO NOTHING`: an existing user keeps its key |
| Loaders.UsersInsertedStep | ecommerce_star_schema_dag.py:75-81 | one more proposed id extends everything `load_users` promises to that id |
| Loaders.InsertUsers | ecommerce_star_schema_dag.py:75-81 | the table gains exactly the proposed ids; old rows are unchanged; new users have distinct fresh keys; the sequence advances once per proposed id |
| Loaders.UsersInsertedNoop | ecommerce_star_schema_dag.py:81 | proposing only present ids leaves `dim_users` unchanged, so a rerun is a no-op |
| Loaders.UserKeysUnique | ecommerce_star_schema_dag.py:42-43 | in a valid `dim_users`, two users share a key iff they are the same user |
| Loaders.UpsertProduct | ecommerce_star_schema_dag.py:90-99 | one proposed row of `load_products`: a new product gets the drawn key; an existing one keeps its key and takes the row's category and brand (`DO UPDATE ... EXCLUDED`); `Loaders.ProductsUpsertedStep` states its effect |
| Loaders.UpsertProductKeys | ecommerce_star_schema_dag.py:90-99 | upserting one row adds exactly its product to the keys |
| Loaders.UpsertProductKeepsValid | ecommerce_star_schema_dag.py:46-47 | one upsert keeps product keys unique and below the sequence |
| Loaders.UpsertProductUntouched | ecommerce_star_schema_dag.py:98-99 | an upsert changes no product other than its own |
| Loaders.UpsertProductKeepsKeys | ecommerce_star_schema_dag.py:98-99 | `DO UPDATE` sets only category and brand: an existing product keeps its key |
| Loaders.UpsertProductKeepsFresh | ecommerce_star_schema_dag.py:46 | a new product's key comes from the sequence range drawn since the start |
| Loaders.UpsertProductTakes | ecommerce_star_schema_dag.py:99 | the upserted product takes the row's category and brand (`EXCLUDED`) |
| Loaders.ProductsUpsertedStep | ecommerce_star_schema_dag.py:90-99 | one more upserted row extends everything the upsert promises to that product |
| Loaders.UpsertProducts | ecommerce_star_schema_dag.py:90-99 | the table gains exactly the batch's products; each takes its batch row's attributes; others are untouched; old keys are kept; new keys are fresh and distinct; the sequence advances once per row |
| Loaders.LatestUpsertLoads | ecommerce_star_schema_dag.py:90-99 | upserting the DISTINCT ON batch gives last-write-wins: each window product holds the category and brand of one of its latest rows |
| Loaders.ProductsReloadKeepsKeys | ecommerce_star_schema_dag.py:90-99 | loading the same day again adds no product and changes no product key |
| Loaders.AddDate | ecommerce_star_schema_dag.py:108-115 | `ds` gets a row, derived if absent; every existing row, including one for `ds`, is unchanged; valid rows stay valid |
| Loaders.AddDateIdempotent | ecommerce_star_schema_dag.py:115 | loading a date twice is the same as once |
| Loaders.Numbered | ecommerce_star_schema_dag.py:128-131 | BIGSERIAL numbers the inserted rows consecutively from the sequence, keeping each fact |
| Loaders.NumberedBodies | ecommerce_star_schema_dag.py:128-131 | numbering only adds ids |
| Loaders.ReplaceDay | ecommerce_star_schema_dag.py:125-128 | the fact table after delete-then-insert has the kept rows plus one row per batch fact |
| Loaders.ReplaceDayPartition | ecommerce_star_schema_dag.py:125-146 | afterwards day `ds`'s partition, ids dropped, is the batch, and the other days' rows are those before |
| Loaders.ReplaceDayIsolation | ecommerce_star_schema_dag.py:125 | partition isolation: every other day's partition is unchanged |
| Loaders.OtherDaysKeepsOtherPartitions | ecommerce_star_schema_dag.py:125 | deleting day `ds` leaves every other day's partition as it was |
| Loaders.NoPartitionOfOtherDay | ecommerce_star_schema_dag.py:128-146 | a batch dated `ds` adds nothing to another day |
| Loaders.ReplaceDayIdempotent | ecommerce_star_schema_dag.py:125-146 | replacing the day twice with the same batch equals replacing it once, ids ignored |
| Loaders.ReplaceDayKeepsValid | ecommerce_star_schema_dag.py:55-60 | the new fact table has increasing ids below the advanced sequence, and all its keys reference existing rows |
| Warehouse.Warehouse.constructor | ecommerce_star_schema_dag.py:41-64 | before `init_schema` there are no rows and every sequence starts at 1 |
| Warehouse.Warehouse.InitSchema | ecommerce_star_schema_dag.py:37-67 | `CREATE TABLE IF NOT EXISTS`: the tables exist and their contents are untouched |
| Warehouse.Warehouse.LoadUsers | ecommerce_star_schema_dag.py:75-81 | `dim_users` gains exactly the window's distinct non-NULL user ids with fresh keys; existing rows are kept; constraints hold |
| Warehouse.Warehouse.LoadProducts | ecommerce_star_schema_dag.py:90-99 | `dim_products` gains the window's products with last-write-wins attributes; others are untouched; keys are kept or fresh; constraints hold |
| Warehouse.Warehouse.LoadDates | ecommerce_star_schema_dag.py:108-115 | `dim_dates` is as `AddDate` says; constraints hold |
| Warehouse.Warehouse.LoadFacts | ecommerce_star_schema_dag.py:125-146 | `fact_events` is the other days' rows plus the join of the current dimensions, numbered from the sequence; the dimensions are unchanged; constraints hold |
| Pipeline.DayLoadedDelivers | ecommerce_star_schema_dag.py:74-146 | after a run, day `ds` has one fact per eligible raw row, in order, each describing its row; other days are untouched |
| Pipeline.DayLoadedTwice | ecommerce_star_schema_dag.py:74-146 | a rerun on the same raw rows changes no user row, product key or date row, and leaves the fact rows equal apart from `event_id` |
| Pipeline.AnyOrderLoadsAll | ecommerce_star_schema_dag.py:150 | the three dimension loaders in any order do what all three promise, and leave the facts alone |
| Pipeline.IsOrderDistinct | ecommerce_star_schema_dag.py:150 | an order of the three loaders names each exactly once |
| Pipeline.UsersLoadedOnce | ecommerce_star_schema_dag.py:150 | in any order, `dim_users` ends as `load_users` alone would leave it |
| Pipeline.ProductsLoadedOnce | ecommerce_star_schema_dag.py:150 | in any order, `dim_products` ends as `load_products` alone would leave it |
| Pipeline.DatesLoadedOnce | ecommerce_star_schema_dag.py:150 | in any order, `dim_dates` ends as `load_dates` alone would leave it |
| Pipeline.KeepsUsers | ecommerce_star_schema_dag.py:150 | the product and date loaders leave `dim_users` alone |
| Pipeline.KeepsProducts | ecommerce_star_schema_dag.py:150 | the user and date loaders leave `dim_products` alone |
| Pipeline.KeepsDates | ecommerce_star_schema_dag.py:150 | the user and product loaders leave `dim_dates` alone |
| Pipeline.KeepsFacts | ecommerce_star_schema_dag.py:150 | no dimension loader touches `fact_events` |
| Pipeline.FactsCompleteRun | ecommerce_star_schema_dag.py:150 | loading facts after all three dimensions completes a run |
| Pipeline.LoadDimension | ecommerce_star_schema_dag.py:71-117 | each dimension loader changes its own table as it promises, and nothing else |
| Pipeline.LoadDimensions | ecommerce_star_schema_dag.py:150 | running the three loaders in a given order does what all three promise |
| Pipeline.RunDay | ecommerce_star_schema_dag.py:150 | a whole run, in any order of the loaders, relates the tables before and after as a day load |
| Pipeline.RerunDay | ecommerce_star_schema_dag.py:125-150 | the second of two runs of one day, in any orders, changes no user row, product key or date row, and leaves the fact rows equal apart from `event_id`; the day has one fact per eligible row; other days are unchanged |
| Pipeline.ExampleDayRow | ecommerce_star_schema_dag.py:110-114 | day 18170 yields the row 2019-10-01, not a weekend |
| Pipeline.ExampleDayIsOctoberFirst | ecommerce_star_schema_dag.py:110-113 | day 18170 is 2019-10-01 |
| Pipeline.ExampleInWindow | ecommerce_star_schema_dag.py:78-79 | the example rows at 09:00 and 10:00 are in the day's window |
| Pipeline.ExampleEligible | ecommerce_star_schema_dag.py:140-146 | both example rows are eligible |
| Pipeline.ExampleLatest | ecommerce_star_schema_dag.py:97 | the 10:00 row is the only latest row of product 100 |
| Pipeline.ExampleLastWriteWins | ecommerce_star_schema_dag.py:90-99 | after `load_products` on the example day, product 100 has the later row's category |
| Pipeline.ExampleBothFacts | ecommerce_star_schema_dag.py:128-146 | after a run of the example day, both rows are facts |

## Left out

- Airflow configuration (lines 12–34) is the orchestrator's business and is not modelled: schedule, catchup, `max_active_runs`, retries, owner and e-mail.
- Jinja templating of `{{ ds }}` and `{{ next_ds }}` is not modelled. `ds` is a day-number parameter, and `next_ds` is `ds + 1` (`Staging.NextDs`).
- Concurrency is not modelled. The three dimension loaders may run in parallel, and the model runs them one after another in any order (`Pipeline.RunDay` takes the order as a parameter). They touch disjoint tables, so this loses nothing.
- Database failures, transactions, timeouts and constraint-violation errors are the engine's behaviour. The loading methods require `init_schema` to have run (`schemaReady`).
- The DDL as such is not modelled: column types, `VARCHAR` lengths, `NUMERIC(10, 2)` precision, and the `idx_fact_date` index, which only affects speed. Price, event type and session are opaque values that are copied.
- SERIAL and BIGSERIAL are modelled as unbounded counters that draw one value per proposed row, including rows that conflict. There is no 32-bit or 64-bit overflow.
- Loaders.InsertUsers: the order in which a multi-row INSERT assigns keys is unspecified, so the method picks any order. It promises distinct fresh keys, not particular values.
- Loaders.UpsertProducts: the same holds for product keys.
- Staging.LatestPerProduct: DISTINCT ON among rows tied on `event_time` may keep any of them. The function keeps the first in input order. `Loaders.ProductsLoaded` and `Warehouse.Warehouse.LoadProducts` promise only "one of the latest rows".
- The dates PostgreSQL can represent are not bounded. The calendar is proleptic Gregorian over all integers, with PostgreSQL's "no year 0" rule for `EXTRACT(YEAR)`.
- Table row order is not a SQL notion. `fact_events` is a sequence in insertion order, and the inserted batch follows the order of the raw rows.
- The raw staging relation is an immutable input sequence. How it is loaded is not part of this model.
