# Nutrition tracking gateway — verified model of its core

The system keeps a per-user nutrition log: a library of foods with macros
per base unit, meal templates built from those foods, meal log entries
whose items snapshot their macros at logging time, and free-form metrics
(weight, steps, check-ins) with daily or timestamped entries. Agents reach
it through named tools (`create_food`, `log_meal`, `get_daily_summary`,
`log_metric`, …); a web dashboard reads the same data through three JSON
routes (`/meals`, `/metrics`, `/nutrition-history`). Both sit behind a
bearer-token check whose verified claims are bridged into the tool
layer's `AuthInfo`.

This project models that core in Dafny and proves what its handlers do:

- `wrappers.dfy` (`Wrappers`): `Option`, `Result`, and JavaScript's
  `a || b` on optional strings (`OrElse`, `Truthy`).
- `text.dfy` (`Text`): code-point lexicographic order on strings (the
  order in which canonical ISO-8601 timestamps and `YYYY-MM-DD` dates
  compare), the `'￿'` sentinel upper bound, `split(' ')`/join, and
  stable insertion sorting by a string key.
- `nutrition.dfy` (`Nutrition`): the seven optional macro fields, the
  "add when present" accumulation every handler uses, scaling by a
  quantity, and `Math.round` to integer or to one decimal.
- `records.dfy` (`Records`): the rows (food, meal template, ingredient,
  entry, item, metric, metric entry), lookups by the `(userId, name)`
  unique key, the `update_food` patch, the missing-food-name check and the
  construction of log items from a template and item arguments.
- `dates.dfy` (`Dates`): day bounds `T00:00:00.000Z`/`T23:59:59.999Z`,
  the noon default for a date-only `loggedAt`, a `Clock` parameter
  standing for `new Date()` and UTC calendar arithmetic, and the range of
  instants (10^8 days either side of 1970-01-01) a `Date` can hold.
- `aggregation.dfy` (`Aggregation`): grand totals, per-meal-type daily
  totals and their display order, and a template's default-quantity
  estimate.
- `tables.dfy` (`Tables`): the database as a value, its key, id and
  reference invariant (`Consistent`), and one transition per write with a
  proof that it keeps the invariant (cascades and `SetNull` included).
- `entra_auth.dfy` (`EntraAuth`): the issuer URL, the resource id, and the
  middleware that rewrites the verified token payload into `AuthInfo`.
- `store.dfy` (`Store`): `getUserId` and the class `NutritionStore`, one
  method per tool handler, each stating its result, its error cases in
  the order the handler checks them, and the new database state.
- `dashboard.dfy` (`Dashboard`): the three dashboard routes, including the
  401 without a subject, the `days` default and 90-day cap, the list of
  dates ending today and the per-day buckets.

Where the written description of the system and the code differ, the model
follows the code:
- The metric-entry range query widens the upper bound with `'￿'` for
  every metric, not only daily ones.
- Meal range queries use closed intervals (`gte` the first millisecond,
  `lte` the last millisecond of the day), not half-open ones.
- "Nearest integer" is `Math.round`, which rounds halves upward; `RoundInt`
  is `floor(x + 0.5)` accordingly.
- `/nutrition-history` caps `days` at 90 but does not raise it: a
  negative count leaves the date list empty, so the route fails.

## Model

| member | source | states |
|---|---|---|
| Wrappers.OrElse | api/src/mcp.ts:536-538 | `s || fallback`: the string itself when present and non-empty, the fallback otherwise (an empty string counts as absent) |
| Text.LowerBoundOnPrefix | api/src/mcp.ts:799-805 | a `gte from` bound on a longer text depends only on the text's prefix as long as `from` |
| Text.SentinelUpperBound | api/src/mcp.ts:802 | `date <= to + '￿'` holds exactly when the date's prefix is `<= to`, so every value on the last day is included |
| Text.BareUpperBoundExcludesExtensions | api/src/mcp.ts:802 | without the sentinel, a text that extends `to` is never `<= to` |
| Text.JoinSplit | api/src/auth/entra-auth.ts:29-31 | joining the pieces of `split(' ')` with spaces gives back the scope string |
| Text.SplitJoin | api/src/auth/entra-auth.ts:29-31 | splitting a join of space-free pieces gives back the pieces |
| Text.SortBySorted | api/src/mcp.ts:550 | `orderBy` ascending yields a sorted permutation of the selected rows |
| Text.SortByDescendingSorted | api/src/routes/dashboard.ts:87 | `orderBy` descending yields a permutation of the rows, sorted from newest to oldest |
| Nutrition.AddValue | api/src/mcp.ts:572-576 | adding a value to a running field: unset stays unset only if both are unset; the numeric total is the sum; a missing value leaves the total as it was |
| Nutrition.AddInto | api/src/mcp.ts:571-577 | after adding one item, every field holds the sum of its two values (an unset value counting as 0), and is unset only if unset in both |
| Nutrition.TotalsField | api/src/mcp.ts:570-578 | a field of the totals is unset exactly when no item has it, and otherwise is the sum of the items that have it |
| Nutrition.FieldSumPermutation | api/src/mcp.ts:628-641 | a field's sum does not depend on the order in which items are visited |
| Nutrition.TotalsPermutation | api/src/mcp.ts:628-641 | the whole totals record does not depend on the order in which items are visited |
| Nutrition.ScaleValue | api/src/mcp.ts:452-458 | a per-unit value times the quantity, and unset when the per-unit value is unset |
| Nutrition.Scale | api/src/mcp.ts:472-478 | scaling multiplies every set field by the quantity and leaves unset fields unset |
| Nutrition.RoundInt | api/src/routes/dashboard.ts:63 | `Math.round`: the integer within half a unit below or just under half a unit above |
| Nutrition.RoundIntUnique | api/src/routes/dashboard.ts:63 | that integer is the only one with this property |
| Nutrition.Round1 | api/src/routes/dashboard.ts:64 | `Math.round(x * 10) / 10`: a multiple of 0.1 within 0.05 of x |
| Nutrition.Round1Idempotent | api/src/routes/dashboard.ts:64-68 | rounding an already rounded value changes nothing |
| Nutrition.RoundField | api/src/mcp.ts:643-653 | calories and sodium round to an integer, the other fields to a multiple of one tenth, and every displayed value is within half a unit of the exact total |
| Nutrition.Displayed | api/src/mcp.ts:643-653 | a field is shown exactly when it is among those printed and set, and is shown rounded |
| Records.FindFood | api/src/mcp.ts:146-148 | the lookup by `(userId, name)` returns a matching row, or there is none |
| Records.FindSchema | api/src/mcp.ts:280-287 | the template lookup by `(userId, name)` returns a matching row, or there is none |
| Records.FindMetric | api/src/mcp.ts:735-737 | the metric lookup by `(userId, name)` returns a matching row, or there is none |
| Records.MissingNames | api/src/mcp.ts:215-223 | exactly the requested names with no food of the caller, in argument order; empty iff every name resolves |
| Records.MissingNamesAppend | api/src/mcp.ts:215-223 | the check distributes over concatenated name lists, so reported order follows argument order |
| Records.ApplyPatch | api/src/mcp.ts:80-91 | a supplied field replaces the old one, an omitted one is kept, a `null` macro clears it; id and owner never change |
| Records.EmptyPatchChangesNothing | api/src/mcp.ts:80-91 | an update with no fields leaves the food as it was |
| Records.PatchIdempotent | api/src/mcp.ts:80-97 | applying the same update twice equals applying it once |
| Records.AdHocNames | api/src/mcp.ts:410 | every item argument that names a food contributes that name, and there are no more names than arguments |
| Records.AdHocNamesAppend | api/src/mcp.ts:410 | the names of two runs of arguments are the names of each, concatenated: argument order with repeats kept |
| Records.AdHocNamesOfOne | api/src/mcp.ts:410 | one argument contributes its food name if it names a food, and nothing otherwise |
| Records.AdHocNamesOnlyFoodRefs | api/src/mcp.ts:410 | every name in the list comes from an argument that names that food |
| Records.IngredientNames | api/src/mcp.ts:215 | the ingredient food names in argument order |
| Records.TemplateItem | api/src/mcp.ts:444-461 | a template line becomes an item of that food, scaled by its default quantity when it has one, otherwise with per-unit macros |
| Records.ScaleEachIfSetMeaning | api/src/mcp.ts:452-458 | the field-by-field `qty != null && v != null ? v * qty : v` is scaling when a quantity is given and the identity otherwise |
| Records.SpecItem | api/src/mcp.ts:464-493 | a food argument becomes an item of that food scaled by its quantity; an anonymous one keeps its name and its own macros |
| Records.BuildLogItems | api/src/mcp.ts:429-495 | the template items come first in template order, then one item per argument in argument order |
| Records.LineMacros | api/src/mcp.ts:514 | the macros of the logged items, one per item, in order |
| Dates.InRangeByDay | api/src/mcp.ts:536-543 | a timestamp lies between the first millisecond of `from` and the last of `to` iff its day lies between the two days |
| Dates.InRangeOneDay | api/src/mcp.ts:607-616 | a timestamp lies within one day's bounds iff its day is that day |
| Dates.LoggedAtInstant | api/src/mcp.ts:424-427 | no `loggedAt` means now; a 10-character date means noon UTC of that day; other text is kept |
| Dates.DateOnlyIsNoonOfThatDay | api/src/mcp.ts:424-427 | an entry logged with a bare date falls inside that day's bounds |
| Aggregation.AddItems | api/src/mcp.ts:570-577 | the inner loop adds exactly the entry's items to the totals |
| Aggregation.GrandTotals | api/src/mcp.ts:560-578 | the loop over entries yields the totals of all their items |
| Aggregation.AllMacrosAppend | api/src/mcp.ts:560-578 | the items of two runs of entries are the items of each, concatenated |
| Aggregation.AllMacrosPermutation | api/src/routes/dashboard.ts:27 | reordering entries only reorders their items |
| Aggregation.TotalsOfReorderedEntries | api/src/mcp.ts:550 | totals do not depend on the order in which the entries come back |
| Aggregation.DisplayOrderCoversEveryKey | api/src/mcp.ts:662-667 | the printed meal-type order lists each type and `unspecified` exactly once |
| Aggregation.OfKey | api/src/mcp.ts:629-630 | an entry is kept iff it is one of the day's entries and its meal type, or `unspecified` when it has none, is the key |
| Aggregation.DailyTotals | api/src/mcp.ts:625-641 | the day's totals, plus one total per meal type that has entries, each over exactly that type's entries |
| Aggregation.SumSplitsByMealType | api/src/mcp.ts:633-638 | a field's day sum is the sum of its per-meal-type sums |
| Aggregation.ContributionSplitsByMealType | api/src/mcp.ts:633-638 | a field is set for the day iff it is set for some meal type |
| Aggregation.DayTotalIsSumOfMealTypes | api/src/mcp.ts:628-641 | the day total of every field equals the sum of the per-meal-type totals, and is unset iff unset for every type |
| Aggregation.Breakdown | api/src/mcp.ts:662-667 | one printed line per meal type that has entries, and only those, each with its totals rounded as printed |
| Aggregation.DefaultQuantityTotals | api/src/mcp.ts:292-310 | the estimate sums only the ingredients with a default quantity, scaled by it |
| Aggregation.TemplateMacros | api/src/mcp.ts:444-461 | the macros the template's ingredients receive when the template is logged |
| Aggregation.EstimateMatchesLoggedTemplate | api/src/mcp.ts:297-304 | when every ingredient has a default quantity, the template's estimate is the total of logging the template as is |
| Tables.FoundFoodIsTheOnlyOne | api/src/mcp.ts:146-148 | with the unique key, the lookup finds the one row holding that name |
| Tables.AddFoodConsistent | api/src/mcp.ts:46-55 | inserting a food under a free name keeps keys unique, ids issued and references resolved |
| Tables.UpdateFoodConsistent | api/src/mcp.ts:93-104 | patching a food whose new name is free keeps the database consistent and the same food ids |
| Tables.RemoveFoodEffects | api/src/mcp.ts:175-192 | deleting a food removes it and its ingredients, detaches logged items from it while keeping their macros, and keeps consistency |
| Tables.AddSchemaConsistent | api/src/mcp.ts:225-246 | writing a template with ingredients of existing foods keeps the database consistent |
| Tables.RemoveSchemaEffects | api/src/mcp.ts:340-353 | deleting a template removes its ingredients, detaches entries from it, leaves items alone and keeps consistency |
| Tables.AddEntryConsistent | api/src/mcp.ts:497-511 | writing an entry and its items, whose foods and template exist, keeps the database consistent |
| Tables.AddMetricConsistent | api/src/mcp.ts:687-700 | inserting a metric under a free name keeps the database consistent |
| Tables.RemoveMetricEffects | api/src/mcp.ts:823-840 | deleting a metric removes it and exactly its entries, and keeps consistency |
| Tables.Upsert | api/src/mcp.ts:760-765 | the entry is present afterwards, replacing the one in the same `(metricId, date)` slot or appended when the slot is free; other entries are untouched |
| Tables.UpsertLeavesOneEntryPerSlot | api/src/mcp.ts:760-765 | at most one entry per slot stays at most one, and the slot holds the new entry |
| Tables.UpsertTwice | api/src/mcp.ts:760-765 | logging a daily metric twice on one day keeps only the second value |
| Tables.PutMetricEntryConsistent | api/src/mcp.ts:760-765 | the daily upsert keeps the database consistent |
| Tables.AppendMetricEntryConsistent | api/src/mcp.ts:766-770 | a timestamped insert into a free slot keeps the database consistent |
| EntraAuth.IssuerBaseUrl | api/src/auth/entra-auth.ts:12 | the configured authority, or the Microsoft login URL for the tenant, followed by `/v2.0` |
| EntraAuth.Resource | api/src/auth/entra-auth.ts:13 | `api://` followed by the client id |
| EntraAuth.ClientId | api/src/auth/entra-auth.ts:28 | `azp`, else `appid`, else `sub`, else the empty string |
| EntraAuth.Scopes | api/src/auth/entra-auth.ts:29-31 | a string `scp` split at spaces (rejoining gives it back, and no piece has a space), otherwise no scopes |
| EntraAuth.ToAuthInfo | api/src/auth/entra-auth.ts:26-34 | token, client id, scopes, expiry and `extra` (`sub`, `oid`, all claims) taken from the payload |
| EntraAuth.BridgeAuthToMcp | api/src/auth/entra-auth.ts:23-37 | `next` is always called; a request with a verified payload gets the bridged `AuthInfo`, any other request is left as it was |
| Store.GetUserId | api/src/mcp.ts:8-12 | the caller is `extra.sub` when present and non-empty; otherwise there is no caller and the handler fails |
| Store.ResolveCaller | api/src/mcp.ts:8-12 | after the bridge, a verified payload's non-empty `sub` is the caller; a request without one has none |
| Store.Load | api/src/mcp.ts:546-549 | each selected entry comes with exactly its own items |
| Store.SelectMealsMembers | api/src/mcp.ts:540-551 | an entry is selected iff it is the caller's, inside the day bounds, and of the requested meal type when one is given |
| Store.TemplateOf | api/src/mcp.ts:280-287 | one line per ingredient of the template, joined with its food and default quantity |
| Store.NewIngredients | api/src/mcp.ts:231-237 | one ingredient per argument, in order, for the new template, pointing at the food of that name |
| Store.NewIngredientsResolve | api/src/mcp.ts:231-237 | every new ingredient refers to the new template and to an existing food |
| Store.CheckLogMeal | api/src/mcp.ts:389-421 | `log_meal`'s guards in order: nothing to log, then an unknown template, then missing foods (in order); it passes iff none applies, and then every named food resolves |
| Store.EntryLines | api/src/mcp.ts:444-495 | the template lines (none without a template) and the items built from them and the arguments, every one of whose foods exists |
| Store.LinesResolve | api/src/mcp.ts:444-495 | every logged item that refers to a food refers to an existing food |
| Store.MetricRangeByDay | api/src/mcp.ts:799-805 | for date or timestamp values, the sentinel range selects exactly the entries whose day lies between the two days |
| Store.BareUpperBoundMissesLastDay | api/src/mcp.ts:802 | without the sentinel, a timestamped entry on the last day would be missed |
| Store.NutritionStore.CreateFood | api/src/mcp.ts:43-56 | a taken name is a Conflict and nothing changes; otherwise the food is added with a fresh id and empty default servings when omitted |
| Store.NutritionStore.UpdateFood | api/src/mcp.ts:78-107 | NotFound, then Conflict naming the new name, else exactly that food takes the patch and nothing else changes |
| Store.NutritionStore.GetFood | api/src/mcp.ts:145-151 | the caller's food of that name, or NotFound when there is none |
| Store.NutritionStore.DeleteFood | api/src/mcp.ts:179-192 | NotFound and nothing changes, or the food is removed with the cascade of `RemoveFood` |
| Store.NutritionStore.CreateMealSchema | api/src/mcp.ts:211-246 | missing foods first, then a taken name, else the template and its ingredients are added together |
| Store.NutritionStore.GetMealSchema | api/src/mcp.ts:278-330 | NotFound, or the template, its ingredient lines, and the default-quantity estimate with the four printed fields rounded |
| Store.NutritionStore.DeleteMealSchema | api/src/mcp.ts:340-353 | NotFound and nothing changes, or the template is removed as `RemoveSchema` says |
| Store.NutritionStore.LogMeal | api/src/mcp.ts:386-522 | on a failed guard nothing is written; otherwise one new entry with its items built from the template and arguments, and the rounded calorie total of those items |
| Store.NutritionStore.GetMealLog | api/src/mcp.ts:534-596 | the range defaults to today; the entries are exactly the selected ones, in time order; totals over all their items, four fields rounded |
| Store.NutritionStore.GetDailySummary | api/src/mcp.ts:606-670 | the day's entries in time order, the day totals of all seven fields rounded, and one breakdown line per meal type present |
| Store.NutritionStore.CreateMetric | api/src/mcp.ts:687-700 | a taken name is a Conflict and nothing changes; otherwise the metric is added with a fresh id |
| Store.NutritionStore.LogMetric | api/src/mcp.ts:733-774 | NotFound, a numeric metric without a value, a check-in with one; else a daily upsert at the date's midnight or a timestamped insert at now |
| Store.NutritionStore.GetMetricEntries | api/src/mcp.ts:786-817 | NotFound, or from 7 days ago to today by default, exactly the metric's entries in the sentinel range (a permutation of the selected rows), sorted by date |
| Store.NutritionStore.DeleteMetric | api/src/mcp.ts:827-840 | NotFound and nothing changes, or the metric and its entries are removed |
| Dashboard.DashboardUserId | api/src/routes/dashboard.ts:11-12 | the caller is the verified payload's non-empty `sub`; anything else is a 401 |
| Dashboard.DashboardAndToolsAgreeOnCaller | api/src/routes/dashboard.ts:11 | for a verified request, the dashboard and the tools identify the same caller |
| Dashboard.RequestedDays | api/src/routes/dashboard.ts:79 | `parseInt(days) || 7`: a missing or zero count becomes 7, any other count is kept |
| Dashboard.HistoryDays | api/src/routes/dashboard.ts:115 | the same count capped at 90 |
| Dashboard.SchemaNameOf | api/src/routes/dashboard.ts:53 | the template's name when the entry has an existing template, else null |
| Dashboard.MealViewOf | api/src/routes/dashboard.ts:49-56 | one view per entry with one item view per item |
| Dashboard.Reported | api/src/routes/dashboard.ts:62-70 | every field is reported: 0 when no item had it, otherwise rounded as printed |
| Dashboard.Meals | api/src/routes/dashboard.ts:10-72 | 401 without a caller; else the day (today by default), exactly that day's entries of the caller in time order, their views, and the reported totals |
| Dashboard.MealsTotalsMatchDailySummary | api/src/routes/dashboard.ts:30-38 | for the same entries, the dashboard's totals equal the daily summary's printed fields, and 0 where the summary prints none |
| Dashboard.RecentEntries | api/src/routes/dashboard.ts:85-88 | a permutation of the metric's entries dated on or after the start date, newest first |
| Dashboard.OwnedMetricsListed | api/src/routes/dashboard.ts:82-91 | every listed metric is the caller's, and every metric of the caller is listed |
| Dashboard.ViewsOf | api/src/routes/dashboard.ts:93-106 | one view per metric, carrying its recent entries |
| Dashboard.Metrics | api/src/routes/dashboard.ts:75-107 | 401 without a caller; a failure when `days` days before now lies outside the range of `Date`; else a permutation of the caller's metrics, sorted by name, each with its entries since `days` days ago |
| Dashboard.BucketOfAppend | api/src/routes/dashboard.ts:140-150 | a bucket over two runs of items is the sum of the two buckets |
| Dashboard.AddToBucket | api/src/routes/dashboard.ts:144-149 | adding an entry's items adds their four fields, unset counting as 0 |
| Dashboard.OnDaySnoc | api/src/routes/dashboard.ts:141 | an entry joins the bucket of the day of its timestamp and no other |
| Dashboard.DayBuckets | api/src/routes/dashboard.ts:135-150 | one bucket per listed date, holding exactly the items of the entries logged that day |
| Dashboard.HistoryDates | api/src/routes/dashboard.ts:116-122 | `days` dates ending today, oldest first, none when `days` is not positive; strictly ascending for a valid clock when the first date is no earlier than 0000-01-01 |
| Dashboard.DayOfRange | api/src/routes/dashboard.ts:124-133 | taking one day out of a range query gives that day's own query, with the same items |
| Dashboard.DayWithinRange | api/src/routes/dashboard.ts:124-130 | for a day inside the range, being in the range and on that day is being in that day's bounds |
| Dashboard.DayOfRangeQuery | api/src/routes/dashboard.ts:124-133 | one day's share of the range query is that day's own meal query |
| Dashboard.CalendarRunsForward | api/src/routes/dashboard.ts:118-121 | for a valid clock, of two days in the years 0000 to 9999, the earlier day's date text sorts no later than the later day's |
| Dashboard.HistoryDayOfOrderedDays | api/src/routes/dashboard.ts:124-143 | for a day between the first date and today, its bucket sees that day's meals |
| Dashboard.HistoryDayIsThatDaysMeals | api/src/routes/dashboard.ts:124-150 | for a valid clock and a history starting no earlier than 0000-01-01, each history point covers exactly the entries the daily query for that date returns |
| Dashboard.SeriesFrom | api/src/routes/dashboard.ts:152-158 | one point per date, in date order, from that date's bucket |
| Dashboard.SeriesFromBuckets | api/src/routes/dashboard.ts:152-158 | the points built from the buckets are the series of that many days ending today |
| Dashboard.NutritionHistory | api/src/routes/dashboard.ts:111-161 | 401 without a caller, failure for a negative count, else the capped count and one point per day ending today over that day's entries |

## Left out

- The MCP transport, session handling and tool-schema validation are not modelled: handlers receive already parsed arguments.
- Database I/O is modelled as sequence tables. Unique-key violations become `Conflict` and missing rows become `NotFound`. Any other store error is `StoreError`, which only a timestamped metric logged twice at the same instant can raise.
- JWT signature, audience and expiry checks are done by a library, which is not part of this model; the model starts from its verified or missing payload.
- The protected-resource and authorization-server metadata documents (`api/src/auth/entra-auth.ts:42-63`) are constant JSON and are left out.
- The current time and UTC calendar arithmetic (`new Date()`, `setUTCDate`, `toISOString`) are a `Clock` parameter. Its validity (`ValidClock`) is a hypothesis of the lemmas that need it, not derived from a model of the Gregorian calendar. It constrains only the days of the years 0000 to 9999, the ones `toISOString` writes as `YYYY-MM-DD`. `Dates.ExampleClockIsValid` shows that some clock meets it; that clock numbers its days and does not write ISO dates.
- Numbers are exact reals, not IEEE doubles, so floating-point rounding inside sums is not modelled.
- The text of tool replies (item lines, "No meals logged…", the `slice(0, 16)` times, and the dashboard's `slice(0, 10)` of metric dates) is not modelled. The replies are modelled by the values they print.
- `list_foods`, `list_meal_schemas` and `list_metrics` are listing-only reads and are not modelled. The template name printed in `get_meal_log` headers is also left out.
- Date text that is not canonical is not parsed. A `loggedAt` of neither 10 nor 24 characters is stored verbatim. The `from`, `to` and `date` arguments are compared as text: the source turns text that is not `YYYY-MM-DD` into an Invalid Date and throws (`api/src/mcp.ts:537-538`, `609-610`, `754`; `api/src/routes/dashboard.ts:14-16`), while the model returns a result.
- Ordering by name (`orderBy: { name: 'asc' }`, `api/src/mcp.ts:125`, `259`, `712`; `api/src/routes/dashboard.ts:90`) and the text range `gte`/`lte` on metric dates (`api/src/mcp.ts:802`) follow code-point order in the model, not the database's collation. The two agree for ASCII dates and timestamps but may differ for other names.
- Order among entries with equal timestamps, and the order of included items, follow the list order of the model rather than the database's.
- `/nutrition-history` with a negative `days` reads `dates[0]` of an empty list; this leads to an invalid date and a failed query. It is modelled as `Failed`, without the HTTP status.
- `api/src/index.ts` (server wiring) and the `ux/` front end are not part of this model.
- Aggregation.Breakdown: states which meal types are printed and their values, but not that they come in the fixed order breakfast, lunch, dinner, snack, unspecified.
- Dashboard.NutritionHistory: rounding is stated through `PointOf` on each day's four-field bucket; that the bucket holds the entries of the day's `get_daily_summary` query is proved only for entries whose timestamps are canonical instants, for a valid clock and a history starting no earlier than 0000-01-01 (`HistoryDayIsThatDaysMeals`).
