# Property management: a Dafny model of its reporting, request handling and table state

This project models the logic of a small property-management web application. The
application keeps tenants, properties and rent payments in a relational database,
serves a few JSON endpoints, and shows the data in client-side tables and charts.
The model covers five parts of it:

- **Reports** (`dashboard.dfy`, `revenue.dfy`, `profit.dfy`, `aggregate.dfy`,
  `dates.dfy`). These are the dashboard statistics for one month, revenue per
  property, and profit per month. Each is a pure function over sequences of
  tenant, property and payment rows, and each follows the SQL clauses of its
  query: inclusive date ranges, `COALESCE(..., 0)`, `NOT IN`, left joins,
  `GROUP BY` with `SUM`, and `ORDER BY`.
- **The schema and the handlers that write to it** (`schema.dfy`, `request.dfy`,
  `properties_route.dfy`, `payments_route.dfy`).
  - A `Store` class holds the three tables and their serial counters.
  - It keeps an integrity invariant: primary keys are distinct and already issued,
    and every foreign key names an existing tenant.
  - Its insert and delete methods include the `on delete set null` rule.
  - The property and payment POST and DELETE handlers validate a JSON body, return
    a 400 or a 500, or write through the store.
- **Client tables** (`properties_table.dfy`, `tenants_table.dfy`,
  `maintenance_table.dfy`).
  - The tolerant normalisation of API rows and the builders of form payloads are
    pure functions.
  - The `tableData` state of each table is a class field. The add, edit, delete,
    bulk-delete and record-payment handlers are methods on it.
- **Small helpers**: the longest-prefix active menu item (`nav_main.dfy`), the pie
  chart's rows and colours (`pie_chart.dfy`), and the line chart's colour
  normalisation, series and total (`profit_chart.dfy`).
- **JavaScript semantics the code depends on** (`js.dfy`, `text.dfy`,
  `listops.dfy`): truthiness, `??`, `||`, `===`, `Number(...)`, `String(n)`,
  `.trim()`, `filter`, `find`, `findIndex` and `reduce`.

I/O, the clock and the database's own failures become parameters:

- a fetched answer is an `Option`;
- a DELETE's outcome is a `bool`;
- the current month and "now" are arguments.

Where a code comment and the code disagree, the model follows the code. The profit
query says "last 6 months" but applies no limit, and the model has none. Amounts
are whole numbers throughout.

## Model

| member | source | states |
|---|---|---|
| Dates.MonthRange | app/api/dashboard-stats/route.ts:7-14 | The range runs from day 1 to the month's last day under the Gregorian leap rule, and start ≤ end. A valid date lies in it exactly when it falls in that year and month. |
| Dates.PrevDay | app/api/dashboard-stats/route.ts:10 | "Day 0 of the next month" is a valid date, strictly before the given one. |
| Dates.MonthRangeText | app/api/dashboard-stats/route.ts:12-13 | Both ends, written `YYYY-MM-DD`, read back as the range's dates and begin with the month's `YYYY-MM` label. |
| Dates.FebruaryEndNonLeap | app/api/dashboard-stats/route.ts:7-14 | February 2025 runs from `2025-02-01` to `2025-02-28`. |
| Dates.FebruaryEndLeap | app/api/dashboard-stats/route.ts:7-14 | February 2024 runs from `2024-02-01` to `2024-02-29`. |
| Dates.ParseIso | app/api/payments/route.ts:18-19 | Only strings that name a real date with a four-digit year are accepted as dates. |
| Dates.IsoRoundTrip | app/api/dashboard-stats/route.ts:12 | Reading the ISO text of a date gives that date back. |
| Dates.IsoCanonical | app/api/payments/route.ts:18-19 | Every accepted date string is the ISO text of the date it denotes. |
| Dates.MonthLabelInjective | app/api/profit/route.ts:12 | Distinct months have distinct `YYYY-MM` labels. |
| Dates.MonthLabelOrder | app/api/profit/route.ts:17 | Label order is chronological order. |
| Dates.LexLessDashed | app/api/profit/route.ts:17 | Two equal-width fields joined by a dash compare field by field. |
| Js.Coalesce | app/api/properties_/route.ts:44 | `a ?? b ?? fallback` is the first alternative that is neither null nor undefined, else the fallback. |
| Js.CoalesceTwo | components/PropertiesTable.tsx:115 | `r.a ?? r.b ?? fallback` takes `r.a` unless it is nullish, then `r.b` unless it is nullish, then the fallback. |
| Js.CoalesceThree | components/PropertiesTable.tsx:131 | The same with three alternatives. |
| Js.NumberOfIntToString | components/TenantsTable.tsx:531 | `Number(String(n))` is `n`. |
| Js.Add | components/ui/AnalyticsChartLine.tsx:78 | A sum is NaN exactly when an operand is, and otherwise is the integer sum. |
| Text.TrimShape | components/data-table.tsx:113 | `trim` removes exactly a leading and a trailing run of spaces. |
| Text.TrimIdempotent | components/TenantsTable.tsx:541-543 | Trimming twice is trimming once. |
| Text.TrimEmptyIff | components/data-table.tsx:113 | A string trims to empty exactly when it is all spaces. |
| ListOps.FindIndex | components/ui/AnalyticsPieChart.tsx:72 | The result is the first index whose element satisfies the test, or -1 when none does. |
| ListOps.Find | components/PropertiesTable.tsx:127 | The result is the first element that satisfies the test, or none when none does. |
| ListOps.ReplaceWhere | components/TenantsTable.tsx:438 | Same length. Exactly the selected elements are replaced. |
| ListOps.FilterAppend | components/TenantsTable.tsx:249 | Filtering a concatenation filters each part in turn, so order is kept. |
| Schema.ParseStatus | db/schema.ts:14-18 | Only the three enum labels are accepted, and each reads back to its label. |
| Schema.DetachTenant | db/schema.ts:43-45 | Same number of properties. `tenantId` is nulled exactly where it named the tenant. Every other field is unchanged. |
| Schema.DeleteTenantConsistent | db/schema.ts:43-45 | Deleting a tenant (set-null on properties, its payments removed) keeps keys unique and every foreign key valid. |
| Schema.SurvivingTenants | db/schema.ts:21-22 | After a delete, the tenant ids are the old ids minus the deleted one. |
| Schema.DeleteTenantLeavesNoReference | db/schema.ts:43-45 | No property refers to the deleted tenant, and no property row is lost. |
| Schema.Store.constructor | db/schema.ts:21-50 | Empty tables, every serial at 1, the invariant holds. |
| Schema.Store.InsertTenant | db/schema.ts:21-32 | The row is inserted exactly when it fits the varchar limits. It gets the next serial id, held by no existing tenant; a rejected row still uses up that id. Nothing else changes. |
| Schema.Store.InsertProperty | db/schema.ts:35-50 | The row is inserted exactly when its tenant id is null or names a tenant. It gets a fresh serial id and defaults its status to `available`. Nothing else changes. |
| Schema.Store.InsertPayment | app/api/payments/route.ts:20-28 | The row is inserted exactly when its tenant exists. It gets a fresh id, and its date defaults to today. Nothing else changes. |
| Schema.Store.DeleteProperty | app/api/properties_/route.ts:73 | Only the properties with that id are removed. The invariant is kept. |
| Schema.Store.DeleteTenant | db/schema.ts:43-45 | The tenant is removed, its properties lose the link, its payments go. The invariant is kept. |
| Request.AsText | db/schema.ts:37-38 | The model's reading of a text column: a string as it is, a number as its decimal text (which reads back as that number), a boolean as `"true"` or `"false"`, as the driver sends them. Null, NaN and anything else are refused. |
| Request.AsInt | db/schema.ts:39 | The model's reading of a number column before its range check: a number, or a non-blank string that converts to one. Anything else is refused. |
| Request.AsStatus | db/schema.ts:40 | The status column accepts only the enum's labels. |
| PropertiesRoute.AsRent | db/schema.ts:39 | `rent_amount` (`numeric(10, 2)`) accepts a value exactly when it reads as a number with at most eight digits before the point. |
| PropertiesRoute.AsTenantId | db/schema.ts:43 | `tenant_id` takes null as NULL, and otherwise a value exactly when it reads as a 32-bit integer. |
| DashboardStats.SqlSum | app/api/dashboard-stats/route.ts:21 | `SUM` over no rows is NULL. Otherwise it is the sum of the amounts. |
| DashboardStats.FirstOrZero | app/api/dashboard-stats/route.ts:59-64 | A missing first row or a NULL field reads as 0. |
| DashboardStats.PaidTenantIds | app/api/dashboard-stats/route.ts:51-55 | Exactly the tenant ids of the payments dated in the range. |
| DashboardStats.PendingTenants | app/api/dashboard-stats/route.ts:48-56 | The `NOT IN` query keeps exactly the tenants whose id is not among the in-range payments' tenant ids, and no others. |
| DashboardStats.Dashboard | app/api/dashboard-stats/route.ts:16-75 | The property and tenant totals are the table sizes. Occupied, new and pending counts lie between 0 and their total. |
| DashboardStats.TotalRentIsMonthSum | app/api/dashboard-stats/route.ts:20-23 | The rent collected is the sum of the amounts of the payments dated in the month, both ends inclusive. |
| DashboardStats.TotalRentZeroWithoutPayments | app/api/dashboard-stats/route.ts:21 | With no payment in the month the rent collected is 0, not NULL. |
| DashboardStats.TotalRentNonNegative | app/api/dashboard-stats/route.ts:59 | With non-negative amounts the rent collected is non-negative. |
| DashboardStats.NewTenantsInMonth | app/api/dashboard-stats/route.ts:42-45 | `newTenants` counts the tenants whose move-in date falls in the month. |
| DashboardStats.OccupiedIsFilter | app/api/dashboard-stats/route.ts:26-29 | `occupiedProperties` counts exactly the properties whose status is occupied. |
| DashboardStats.PendingAreUnpaid | app/api/dashboard-stats/route.ts:48-56 | A tenant is pending exactly when no payment in the range carries its id. |
| DashboardStats.PendingPlusPaying | app/api/dashboard-stats/route.ts:37-56 | Pending tenants plus tenants with an in-range payment make up `totalTenants`. |
| Aggregate.GroupByKeyCorrect | app/api/revenue-by-property/route.ts:14-19 | `GROUP BY` yields one group per distinct key, each with the sum of that key's amounts. Groups preserve the grand total. |
| Aggregate.GroupByKeyAscendingCorrect | app/api/profit/route.ts:13-17 | The same as `GroupByKeyCorrect`, with the groups in strictly ascending key order. |
| Aggregate.GroupTwoDistinct | app/api/revenue-by-property/route.ts:19 | Two rows with different keys form two groups, in order. |
| RevenueByProperty.PropertyRows | app/api/revenue-by-property/route.ts:18 | One joined row per linked property, each carrying the payment's full amount. |
| RevenueByProperty.JoinRows | app/api/revenue-by-property/route.ts:14-19 | The left joins drop no payment: at least one joined row per payment. |
| RevenueByProperty.Normalize | app/api/revenue-by-property/route.ts:22-26 | One row per group, with a NULL name reported as `Unknown` and the group's sum as revenue. |
| RevenueByProperty.Revenue | app/api/revenue-by-property/route.ts:11-26 | The rows' revenues add up to the joined amounts. There are no rows exactly when there are no payments. |
| RevenueByProperty.RevenueRowsAreGroups | app/api/revenue-by-property/route.ts:11-26 | One row per distinct property name reached by the joins. Each row carries the sum of the amounts joined to that name. |
| RevenueByProperty.PaymentRowsUnique | app/api/revenue-by-property/route.ts:16-18 | When each tenant is linked to at most one property, a payment yields one joined row, named after that property or NULL. |
| RevenueByProperty.JoinRowsUnique | app/api/revenue-by-property/route.ts:14-19 | Under unique links the joined rows carry each payment once. |
| RevenueByProperty.RevenueIsLinkedSum | app/api/revenue-by-property/route.ts:14-19 | Under unique links, a row's revenue is the sum of the payments whose tenant is linked to a property of that name. For `Unknown`, it is the payments whose tenant is linked to no property. |
| RevenueByProperty.NormalizeKeepsTotal | app/api/revenue-by-property/route.ts:22-26 | Renaming the groups keeps their total. |
| RevenueByProperty.RevenueAddsUp | app/api/revenue-by-property/route.ts:11-19 | Under unique links the rows add up to the sum of all payments. |
| RevenueByProperty.PaymentCountedPerProperty | app/api/revenue-by-property/route.ts:18 | A payment whose tenant is linked to n properties contributes n times its amount. |
| RevenueByProperty.PropertyRowsTotal | app/api/revenue-by-property/route.ts:18 | n linked properties carry n copies of the amount. |
| RevenueByProperty.UnknownNameCollides | app/api/revenue-by-property/route.ts:19-23 | A property named `Unknown` and the NULL group of a paying tenant who rents no property come out as two rows with the same name. |
| RevenueByProperty.CollisionJoin | app/api/revenue-by-property/route.ts:16-18 | The joined rows of that example. |
| Profit.MonthEntries | app/api/profit/route.ts:12-13 | One (month, amount) row per payment, in order. |
| Profit.KeyLabelOfPayment | app/api/profit/route.ts:12 | A payment's month number carries the `TO_CHAR` label of its date. |
| Profit.KeyLabelOrder | app/api/profit/route.ts:17 | Labels sort and tell apart months exactly as their numbers do. |
| Profit.LabelRows | app/api/profit/route.ts:12-13 | Each group becomes a row with its label and its sum. |
| Profit.ProfitByMonth | app/api/profit/route.ts:9-17 | There are no rows exactly when there are no payments. |
| Profit.GroupsComeFromPayments | app/api/profit/route.ts:12-16 | Every group is the month of some payment. |
| Profit.PaymentsHaveGroups | app/api/profit/route.ts:16 | Every payment's month has a group. |
| Profit.ProfitMonthsFromPayments | app/api/profit/route.ts:12-16 | Every row's month is some payment's month. |
| Profit.PaymentMonthsInProfit | app/api/profit/route.ts:12-16 | Every payment's month is some row's month. |
| Profit.PaymentHasRow | app/api/profit/route.ts:12-16 | The row for one given payment's month exists. |
| Profit.ProfitAscending | app/api/profit/route.ts:17 | Rows are in strictly ascending label order, so no month repeats. |
| Profit.MonthEntriesSumFor | app/api/profit/route.ts:13 | A month's sum over the entries is the sum of the payments dated in it. |
| Profit.ProfitTotals | app/api/profit/route.ts:13-16 | Each row's total is the sum of the amounts of the payments dated in its month. |
| Profit.LabelRowsTotal | app/api/profit/route.ts:13 | Labelling keeps the total. |
| Profit.MonthEntriesTotal | app/api/profit/route.ts:13 | The entries carry every payment's amount. |
| Profit.ProfitAddsUp | app/api/profit/route.ts:9-17 | With no month limit, the row totals add up to the sum of all payments. |
| PropertiesRoute.NamedRows | app/api/properties_/route.ts:19-22 | One listing row per matched tenant, with its name. |
| PropertiesRoute.ListProperties | app/api/properties_/route.ts:8-22 | The left join drops no property: at least one row per property. Every row's property is listed, and a row's tenant name is that of a tenant whose id is the property's `tenant_id`. |
| PropertiesRoute.JoinOne | app/api/properties_/route.ts:19-22 | One property yields at least one row, all of that property, each name taken from a tenant with its `tenant_id`. |
| PropertiesRoute.ListingOnePerProperty | app/api/properties_/route.ts:8-22 | With unique tenant ids, GET lists every property exactly once, with its tenant's name or NULL. |
| PropertiesRoute.ListingOfOne | app/api/properties_/route.ts:19-22 | With unique tenant ids one property yields one listing row. |
| PropertiesRoute.TenantNameMatches | app/api/properties_/route.ts:19-22 | A listed name exists exactly when some tenant has the property's `tenant_id`, and the name is that tenant's. |
| PropertiesRoute.PostValues | app/api/properties_/route.ts:32-47 | A 400 exactly when `name` or `address` is falsy. Otherwise name and address pass unchanged, and an absent status stays absent. |
| PropertiesRoute.RentAmountDefaulting | app/api/properties_/route.ts:44 | `rentAmount`, else `rent_amount`, else 0. A present 0 is kept. |
| PropertiesRoute.TenantIdAndNotesDefaulting | app/api/properties_/route.ts:46-47 | `tenantId`, else `tenant_id`, else null. `notes` defaults to `""`. |
| PropertiesRoute.Columns | app/api/properties_/route.ts:39-49 | The insert's values are read into the columns exactly when each fits its column's type, and each column holds its value's reading (name, address, rent, status, tenant id, notes). |
| PropertiesRoute.PostResponse | app/api/properties_/route.ts:28-59 | A 400 exactly when validation fails. Success exactly when every value fits its column and the tenant id is null or names a tenant; the row then has the next serial id, the read name, address, rent, tenant id and notes, the default status when none was given, and `now` as both timestamps. Any other body is a 500. |
| PropertiesRoute.NotesRecorded | app/api/properties_/route.ts:47 | The inserted row's notes are the body's `notes` read as text, and `""` when the body has none. |
| PropertiesRoute.Post | app/api/properties_/route.ts:28-59 | Answers as `PostResponse` does. A 400 changes nothing. Success appends exactly the returned row; a failure leaves the properties unchanged. The serial advances exactly when the insert reaches the database. |
| PropertiesRoute.DeleteId | app/api/properties_/route.ts:64-71 | A 400 exactly when `id` is falsy. |
| PropertiesRoute.AsKey | app/api/properties_/route.ts:73 | The id compared with the `integer` key is accepted exactly when it reads as a 32-bit integer. |
| PropertiesRoute.Delete | app/api/properties_/route.ts:62-82 | A 400 exactly when the id is falsy, and it changes nothing. Success exactly when the id reads as an integer key, whether or not a row has it; it then removes only the properties with that id. Otherwise a 500 with nothing changed. Tenants, payments and serials are unchanged. |
| PropertiesRoute.DeleteRemovesOnlyThatId | app/api/properties_/route.ts:73 | A property survives exactly when its id differs. With unique ids, deleting an existing id removes exactly one row. |
| PropertiesRoute.RemoveOne | app/api/properties_/route.ts:73 | With unique ids, deleting one present id shortens the table by one. |
| PaymentsRoute.PostValues | app/api/payments/route.ts:9-26 | A 400 exactly when `tenantId` is falsy or `amount` is absent, so 0 and null amounts pass. `datePaid` is passed exactly when it is truthy. |
| PaymentsRoute.AsDate | app/api/payments/route.ts:18-26 | A date value is accepted only as the ISO text of a real date. |
| PaymentsRoute.Columns | app/api/payments/route.ts:20-27 | The insert's values are read into columns exactly when each fits. An absent date is left to the column default. |
| PaymentsRoute.PostResponse | app/api/payments/route.ts:6-38 | A 400 exactly when validation fails. Success exactly when the values fit their columns and the tenant exists; the row then has the next serial id, the tenant, the amount, and the given date or today. Any other body is a 500. |
| PaymentsRoute.Post | app/api/payments/route.ts:6-38 | Answers as `PostResponse` does. A 400 changes nothing. Success appends the single returned row; a failure leaves the payments unchanged. The serial advances exactly when the insert reaches the database. |
| PaymentsRoute.WellFormedBodyAccepted | app/api/payments/route.ts:9-30 | A body with an existing tenant's id, an integer amount and an ISO date is answered with exactly that payment under the next serial id. `Post` appends that answer to the payments. |
| PaymentsRoute.BodyAccepted | app/api/payments/route.ts:9-38 | Any body holding those three fields passes validation and reads into exactly those columns. It is answered with exactly that payment when the tenant exists, and with a 500 when it does not. |
| PropertiesTable.ListedName | components/PropertiesTable.tsx:127 | The name of the first listed tenant whose id is strictly equal, or undefined when there is none. |
| PropertiesTable.OrElse | components/PropertiesTable.tsx:127 | `x ?? fallback` for a possibly undefined `x`. |
| PropertiesTable.Normalize | components/PropertiesTable.tsx:115-133 | Every field is non-null and the rent is a number. The rent is 0 when its conversion gives NaN. With a tenant list the name comes from the list; without one it comes from the raw fields. |
| PropertiesTable.NormalizeFallbacks | components/PropertiesTable.tsx:115-133 | Each field is its first alternative that is neither null nor undefined, in the listed order, else its default: 0 for the id, `""` for the texts, `available` for the status, null for the tenant id, `unpaid` for the payment status; the rent is `Number` of its chosen alternative, or 0 on NaN. |
| PropertiesTable.ToRecord | components/PropertiesTable.tsx:135-147 | A row as an object has exactly the row type's eleven keys. |
| PropertiesTable.ToRecordFields | components/PropertiesTable.tsx:135-147 | Each key holds its field, and there is no `tenant_id`. |
| PropertiesTable.NormalizeReadsBack | components/PropertiesTable.tsx:115-133 | An object that carries a normalised row's values under its own field names normalises to that row. |
| PropertiesTable.NormalizeIdempotent | components/PropertiesTable.tsx:111-148 | Normalising a normalised row with the same tenant list changes nothing. |
| PropertiesTable.RentAmountCoercion | components/PropertiesTable.tsx:118-119 | The rent is the converted alternative, or 0 when that is NaN. |
| PropertiesTable.BuildPayload | components/PropertiesTable.tsx:427-439 | The tenant id is null exactly when the field is absent or empty, and otherwise is its conversion. The status defaults to `available`. An absent rent is 0. |
| PropertiesTable.Json | components/PropertiesTable.tsx:490 | `JSON.stringify` writes NaN as null and keeps every other value. |
| PropertiesTable.PayloadBody | components/PropertiesTable.tsx:427-439 | Both spellings of the tenant id carry one value, and so do both spellings of the rent. |
| PropertiesTable.PayloadBodyFields | components/PropertiesTable.tsx:427-439 | The body carries the payload's status, rent and tenant id. |
| PropertiesTable.PayloadValidation | components/PropertiesTable.tsx:482-491 | The endpoint accepts a payload body exactly when name and address are non-empty. A NaN rent arrives as 0. |
| PropertiesTable.AddBodyValidation | components/PropertiesTable.tsx:482-491 | The same, stated for the add form's data. |
| PropertiesTable.PaymentBodyAccepted | components/PropertiesTable.tsx:444-456 | A truthy tenant id's payment body passes the payments endpoint's validation with its date. |
| PropertiesTable.PaymentBody | components/PropertiesTable.tsx:444-456 | The body has exactly the tenant id, the amount and a non-empty date. |
| PropertiesTable.PaymentRecordedOnFirstDay | components/PropertiesTable.tsx:444-456 | For an existing tenant, the payments endpoint answers with that payment dated on the first day of the selected month. |
| PropertiesTable.MarkPaid | components/PropertiesTable.tsx:471-475 | Exactly the rows of that tenant get `paymentStatus = "paid"`. |
| PropertiesTable.MarkPaidOnlyPaymentStatus | components/PropertiesTable.tsx:471-475 | No other field and no other row changes. |
| PropertiesTable.NormalizeAll | components/PropertiesTable.tsx:186-188 | The rows are the normalisations of the answer, in order. |
| PropertiesTable.EditedRow | components/PropertiesTable.tsx:558-567 | The edited row keeps id, timestamps and payment status, takes the form's fields, and looks the tenant name up (null when absent). |
| PropertiesTable.Table.constructor | components/PropertiesTable.tsx:157-167 | No rows, an empty tenant list, no row being edited. |
| PropertiesTable.Table.Load | components/PropertiesTable.tsx:178-198 | An array answer replaces the rows with their normalisations. Anything else keeps them. |
| PropertiesTable.Table.LoadTenants | components/PropertiesTable.tsx:201-206 | The fetched list is kept as it is. A failed fetch gives an empty list. |
| PropertiesTable.Table.OpenEdit | components/PropertiesTable.tsx:209-219 | A falsy id, or no row with that id, changes nothing. Otherwise the first such row opens for editing. |
| PropertiesTable.Table.RecordPayment | components/PropertiesTable.tsx:440-480 | A falsy tenant id, a refused POST or a thrown request changes nothing. Otherwise the rows are reloaded, or, with no array, that tenant's rows are marked paid. |
| PropertiesTable.Table.AddProperty | components/PropertiesTable.tsx:482-509 | The normalised new row is prepended. Nothing changes on failure. |
| PropertiesTable.Table.DeleteSelected | components/PropertiesTable.tsx:511-526 | The selected ids are removed whatever the DELETE answers. Only a throw aborts. |
| PropertiesTable.Table.DeleteSingle | components/PropertiesTable.tsx:528-536 | The row goes only when the DELETE answers ok. |
| PropertiesTable.Table.EditSubmit | components/PropertiesTable.tsx:538-579 | Whether or not the PUT succeeded, the rows with the edited id are replaced and the dialog closes. |
| PropertiesTable.DeleteSelectedKeepsOthers | components/PropertiesTable.tsx:520-521 | Exactly the rows whose id was not selected remain. |
| PropertiesTable.EditReplacesOnlyThatId | components/PropertiesTable.tsx:569-571 | Only the rows with the edited id change. |
| TenantsTable.AddPayload | components/TenantsTable.tsx:462-472 | Name, email and phone are trimmed. Rent is `Number(...)`, or 0 when absent. Status is always `active`. |
| TenantsTable.FirstTen | components/TenantsTable.tsx:532-535 | At most ten characters, the prefix of the stored value, or `""` when there is none. |
| TenantsTable.FirstTenOfTimestamp | components/TenantsTable.tsx:532-535 | A stored `YYYY-MM-DD...` value starts the form with its date. |
| TenantsTable.EditFormFor | components/TenantsTable.tsx:528-536 | The form starts from the tenant's fields. Its rent text converts back to the tenant's rent. |
| TenantsTable.EditPayload | components/TenantsTable.tsx:540-550 | Trimmed name, email and phone. Rent is `Number(rent) \|\| 0`. The tenant's own status, or `active`. |
| TenantsTable.UntouchedEditKeepsTenant | components/TenantsTable.tsx:528-550 | Saving an untouched form sends the tenant's own rent and status. |
| TenantsTable.EditPayloadIdempotent | components/TenantsTable.tsx:540-550 | Resubmitting a sent payload sends the same payload. |
| TenantsTable.Succeeded | components/TenantsTable.tsx:339-342 | Exactly the ids whose DELETE answered ok. |
| TenantsTable.Table.constructor | components/TenantsTable.tsx:96-100 | No rows and no dialog open. |
| TenantsTable.Table.Added | components/TenantsTable.tsx:312-316 | The created tenant is prepended (one more row) and the dialog closes. A refused create changes nothing. |
| TenantsTable.Table.Saved | components/TenantsTable.tsx:436-441 | Rows with the updated id are replaced and the edit closes. |
| TenantsTable.Table.DeleteSingle | components/TenantsTable.tsx:242-253 | The tenant goes only when the DELETE answers ok. |
| TenantsTable.Table.BulkDelete | components/TenantsTable.tsx:327-346 | Exactly the ids that succeeded are removed. |
| TenantsTable.BulkDeleteRemovesExactlySucceeded | components/TenantsTable.tsx:339-346 | A tenant remains exactly when no DELETE of its id answered ok. |
| TenantsTable.AllFailedKeepsTable | components/TenantsTable.tsx:339-346 | When every DELETE fails the table is unchanged. |
| TenantsTable.DeleteSingleKeepsOthers | components/TenantsTable.tsx:247-250 | Exactly the other tenants remain. |
| TenantsTable.SavedReplacesOnlyThatId | components/TenantsTable.tsx:437-439 | Only the rows with the updated id change. |
| MaintenanceTable.InitialTasksNumbered | components/data-table.tsx:53-86 | The sample task at position i has id i + 1. |
| MaintenanceTable.NumberedIdsDistinct | components/data-table.tsx:115-118 | Tasks numbered this way have distinct ids. |
| MaintenanceTable.FilteredTasks | components/data-table.tsx:99-100 | `all` shows every task. Any other filter shows exactly those tasks whose status it names. |
| MaintenanceTable.UnknownFilterShowsNothing | components/data-table.tsx:100 | A filter that is no status shows nothing. |
| MaintenanceTable.StatusFiltersPartition | components/data-table.tsx:100 | Each task appears under exactly one status filter. |
| MaintenanceTable.Board.constructor | components/data-table.tsx:96-110 | The sample tasks, an empty draft, the dialog closed. |
| MaintenanceTable.Board.HandleAddTask | components/data-table.tsx:112-129 | A blank name raises the alert and changes nothing. Otherwise exactly one task is appended with id = length + 1, the draft resets and the dialog closes. Numbering is kept. |
| MaintenanceTable.NamedTaskAccepted | components/data-table.tsx:113 | A name with a non-space character is accepted. |
| NavMain.ActiveIndex | components/nav-main.tsx:27-29 | -1 exactly when no url prefixes the path. Otherwise a matching item with the longest url, and no earlier match as long. |
| NavMain.ActiveItem | components/nav-main.tsx:27-29 | There is no active item exactly when nothing matches. The active item is listed and its url prefixes the path. |
| NavMain.IsActive | components/nav-main.tsx:36 | A highlighted item's url is a prefix of the path, and some listed item with that url matches. |
| NavMain.HighlightedIsLongest | components/nav-main.tsx:27-36 | A highlighted item's url prefixes the path and is a longest match. |
| NavMain.PrefixNotSegment | components/nav-main.tsx:28 | `/dashboard` is active on `/dashboards`. |
| NavMain.NestedUrlWins | components/nav-main.tsx:27-29 | Of two nested urls the longer wins in either order. |
| PieChart.ColourSlot | components/ui/AnalyticsPieChart.tsx:54 | The colour slot is in 1..5. |
| PieChart.ColourCycles | components/ui/AnalyticsPieChart.tsx:54 | Slices five apart share a colour, and neighbours differ. |
| PieChart.ToSlice | components/ui/AnalyticsPieChart.tsx:50-55 | The type is `propertyName`, else `Unknown`. The total is `totalRevenue`, else `total_revenue`, else 0. The fill is slot i. |
| PieChart.ChartData | components/ui/AnalyticsPieChart.tsx:50-55 | Null data gives no slices. Otherwise there is one slice per row, in order. |
| PieChart.InitialActiveType | components/ui/AnalyticsPieChart.tsx:59 | The first slice's type, or null. |
| PieChart.ActiveIndex | components/ui/AnalyticsPieChart.tsx:71-74 | The first index whose type is strictly equal, or -1 exactly when there is none. |
| PieChart.FirstSliceActive | components/ui/AnalyticsPieChart.tsx:59-74 | Once data arrives the first slice is active. With none, nothing is. |
| PieChart.RevenueJsonAll | app/api/revenue-by-property/route.ts:22-28 | The report's rows as JSON, in order. |
| PieChart.SliceOfRevenueRow | components/ui/AnalyticsPieChart.tsx:50-55 | A report row's slice is its name and revenue. |
| PieChart.SlicesOfRevenue | components/ui/AnalyticsPieChart.tsx:45-55 | The slices of the report are its rows' names and revenues, in order. |
| ProfitChart.NormalizeCssVarValue | components/ui/AnalyticsChartLine.tsx:33-40 | Empty stays empty. A colour function is kept trimmed. A bare triple is wrapped in `hsl(...)`. Anything else is kept trimmed. |
| ProfitChart.NormalizeIdempotent | components/ui/AnalyticsChartLine.tsx:33-40 | Normalising twice is normalising once. |
| ProfitChart.TrimmedIsSettled | components/ui/AnalyticsChartLine.tsx:35-39 | A trimmed value that is not wrapped is kept. |
| ProfitChart.WrappedIsSettled | components/ui/AnalyticsChartLine.tsx:38 | A wrapped triple is kept. |
| ProfitChart.WrappedShape | components/ui/AnalyticsChartLine.tsx:38 | A wrapped value starts with `hsl` and ends in `)`. |
| ProfitChart.HasColourTriple | components/ui/AnalyticsChartLine.tsx:38 | A value the pattern matches has at least five characters, one of them a digit. |
| ProfitChart.MatchAt | components/ui/AnalyticsChartLine.tsx:38 | A match starts at a digit and needs five characters from there. |
| ProfitChart.ColourIsSettled | components/ui/AnalyticsChartLine.tsx:36-37 | A colour function with no trailing space is kept. |
| ProfitChart.TripleRecognised | components/ui/AnalyticsChartLine.tsx:38 | Digits, a space, digits with an optional `%`, a space and digits are recognised anywhere in the value. |
| ProfitChart.MatchAtParts | components/ui/AnalyticsChartLine.tsx:38 | The pattern matches where its parts follow one another. |
| ProfitChart.TailAt | components/ui/AnalyticsChartLine.tsx:38 | The pattern's tail matches. |
| ProfitChart.RunOfDigits | components/ui/AnalyticsChartLine.tsx:38 | A run of digits has its length. |
| ProfitChart.OneSpace | components/ui/AnalyticsChartLine.tsx:38 | A single space before a digit is a space run of length 1. |
| ProfitChart.Resolve | components/ui/AnalyticsChartLine.tsx:47-49 | The normalised value, or the fallback when that is empty. |
| ProfitChart.ResolveSettled | components/ui/AnalyticsChartLine.tsx:47-49 | With a settled fallback, the result is non-empty and settled. |
| ProfitChart.StrokeSettled | components/ui/AnalyticsChartLine.tsx:48 | The stroke fallback is settled. |
| ProfitChart.BackgroundSettled | components/ui/AnalyticsChartLine.tsx:49 | The background fallback is settled. |
| ProfitChart.ResolvedColoursSettled | components/ui/AnalyticsChartLine.tsx:44-52 | The resolved stroke and background are never empty and are settled. |
| ProfitChart.ToPoint | components/ui/AnalyticsChartLine.tsx:68-71 | Month as given. Profit is `Number(total)`, NaN when absent. |
| ProfitChart.Points | components/ui/AnalyticsChartLine.tsx:68-71 | One point per row, in order. |
| ProfitChart.ChartData | components/ui/AnalyticsChartLine.tsx:61-73 | The four fixed months, then the fetched rows in order. |
| ProfitChart.Reduce | components/ui/AnalyticsChartLine.tsx:78 | NaN exactly when some profit is NaN. Otherwise the start value plus the sum of the profits. |
| ProfitChart.TotalProfit | components/ui/AnalyticsChartLine.tsx:78 | `totalProfit` is NaN exactly when some point's profit is. Otherwise it is the sum of the profits. |
| ProfitChart.MockSum | components/ui/AnalyticsChartLine.tsx:61-66 | The fixed months are numbers that add up to 30000. |
| ProfitChart.NaNOnlyInReport | components/ui/AnalyticsChartLine.tsx:73-78 | Numbers put in front add no NaN. |
| ProfitChart.TotalWithFront | components/ui/AnalyticsChartLine.tsx:73-78 | Numbers put in front add their sum to the total. |
| ProfitChart.TotalIncludesMock | components/ui/AnalyticsChartLine.tsx:61-78 | `totalProfit` is 30000 plus the fetched profits. It is NaN exactly when a fetched total does not convert. |
| ProfitChart.ProfitJsonAll | app/api/profit/route.ts:19 | The profit report's rows as JSON, in order. |
| ProfitChart.PointsOfReport | components/ui/AnalyticsChartLine.tsx:68-71 | The points of the report are its months and totals. |
| ProfitChart.TotalOfProfitReport | components/ui/AnalyticsChartLine.tsx:56-78 | Plotting the profit report gives a total of 30000 plus the sum of every payment. |

## Left out

**Presentation and I/O**

- React rendering, dialogs, menus, tooltips, pagination, column visibility, sorting, the global search box and the chart drawing are left out. They are presentation.
- `SafeDate` is left out: it only formats dates with the locale.
- The row-selection, `selectedTenant` and `selectedTenantEdit` state and `resetRowSelection` are left out. They hold no data the tables show.
- Authentication, the pass-through tenant and maintenance routes, and the introspected duplicate schema are not part of this model.
- `fetch`, `NextResponse`, JSON parsing and `console.error` are not modelled as such:
  - a handler's outcome is a `Response` value;
  - a fetched answer is an `Option`, with `None` for a failure or for an answer that is not an array;
  - a DELETE's outcome is a `bool`.
- `Promise.all` concurrency and the mount guards are left out. Only the resulting list update is modelled.
- The initial tenants fetch in the tenants table is left out. It replaces the rows with the answer as it is.
- The maintenance board's draft and filter setters are left out. They only store a value.
- `alert` is modelled as the returned flag of `HandleAddTask`.

**Clock and arithmetic**

- Clock, time zone and locale are passed in as parameters: the current year and month, "now" for timestamps, and today's date for the payment default.
  - `toISOString`'s UTC conversion, which can shift a local date by a day, is left out.
  - Dates are ISO text only for years 0 through 9999.
- Floating point is left out. Amounts are integers.
  - `Js.Number` reads only an optional sign followed by decimal digits. JavaScript also accepts decimals, exponents and hex; here those give NaN.
  - `numeric(10,2)` rounding is left out.

**Database**

- SQL NULL three-valued logic is left out: payment tenant ids are never NULL, so `NOT IN` is plain set difference.
- Transactions and the ORM's type mapping are not modelled.
  - `Request.AsInt`, `Request.AsText` and `PaymentsRoute.AsDate` are the model's reading of JSON values into columns. They leave out:
    - objects and arrays sent to text columns (refused here);
    - fractional numbers and rounding to two decimals for `rent_amount` (amounts are whole numbers here);
    - a range for the payments `amount` column, whose type is not shown (unbounded here);
    - date forms other than `YYYY-MM-DD`, such as a full timestamp (refused here; the `date` column also accepts them).
  - Serial counters are unbounded here; a serial running past the 32-bit range is not modelled.
  - A null `amount` is refused by the NOT NULL `payments.amount` column and gives a 500.
- The `payments` table is not in the schema shown. Its columns (`tenantId`, `amount`, `datePaid`) are inferred from the handlers.
- Deleting a tenant removes its payments. That is an assumed cascade, since the payments table's foreign key is not shown.
- `PropertiesRoute.ListProperties` lists rows in table order. The GET query has no `ORDER BY`, so the database may return them in any order; the rows themselves do not depend on it.
- `RevenueByProperty.RevenueGroups` returns groups in first-seen key order. SQL leaves the order of an unordered `GROUP BY` open; the row contents do not depend on it.
- `Profit.ProfitByMonth` requires valid payment dates with four-digit years, the only dates that have a `YYYY-MM` label here.

**Weaker contracts**

- `MaintenanceTable.FilteredTasks`: its contract states membership only. The kept tasks stay in list order because `ListOps.Filter` is defined that way and `ListOps.FilterAppend` states it; no per-index order statement is given.
- `DashboardStats.NewTenantsInMonth`: requires valid move-in dates, as the `date` column guarantees.
- `PropertiesTable.Table.EditSubmit`: the edited row does not carry the payload's extra `tenant_id` and `rent_amount` keys. The row type has no such fields, and nothing reads them.
- `ProfitChart.HasColourTriple`: the regular expression is modelled as a greedy scan from each start position. Digits, spaces and `%` are disjoint classes, so greedy matching finds a match exactly when backtracking would.
- `ProfitChart.TotalIncludesMock`: covers only a fetched answer that is an array of objects. Any other answer makes `data.map` throw, and the chart keeps its previous data.
- `PieChart.ChartData`: `None` stands for any falsy answer. A truthy answer that is not an array is left out; it throws.
