# novus-crm core in Dafny

A model of the core of novus-crm, a multi-brand sales CRM. The model covers the following parts:

- **Backend.** The Hono backend on Postgres, with these routes:
  - the JWT cookie gate in front of every `/api/v1` route;
  - the `requireBrands` capability check;
  - the brand-scoped lead listing, lookup and audited PATCH;
  - the product catalogue;
  - the deal creation with its EMI schedule and three-write transaction;
  - the API-key protected event ingest that logs an activity and raises a lead's engagement score.
- **Client-side pure logic.** The pieces of the React client that are pure functions:
  - the `DualHeatScore` badge;
  - the `Tasks` page sections and actions;
  - the `MyLeads` search and tabs;
  - the user form and save handler of `AdminSettings`.

## How the model is built

Each request handler is a pure function. It takes the store `Db` (the five tables the core touches plus the set of user ids) and the request's inputs, and returns a `Step`, which is a reply together with the new store. Each handler is split into two parts:

- **The plan.** Validation and lookups decide an early reply, or produce a list of writes.
- **The writes.** `Store.Transaction` applies the writes all-or-nothing.

Postgres's own checks are modelled in `Store.Admissible`, and a write it refuses rolls the whole transaction back. These checks are:

- primary keys;
- foreign keys;
- the `integer` column range.

The `qualification_stage` enum is not part of `Store.Admissible`. A stored stage is a `Schema.Stage`, so no row can hold a bad label. Label text from a request is read by `Schema.ParseStage`. An unknown label in a PATCH body makes `Leads.Storable` fail, and the request is answered `PatchFailed`. An unknown label in the listing's `stage` query gives `Leads.ListLeads`'s `UnknownStage` reply.

A store failure the model cannot explain is a `fault` parameter.

Other inputs are modelled as follows:

- **Clock.** Timestamps and calendar dates are whole day numbers.
- **Token signing.** The JWT signature check is an oracle `verify(token, secret)`.
- **Configuration.** The configured secrets are parameters.
- **`parseInt`.** JavaScript's `parseInt` is modelled in `NumText` for the inputs the routes feed it: whitespace, sign, a `0x` prefix, and digits up to the first non-digit.

Every handler is paired with lemmas about it:

- its effect on the store, "nothing else changes" included;
- its error cases;
- its all-or-nothing behaviour;
- preservation of the schema invariant `Store.Valid`.

The client pages are paired in the same way:

- section partition;
- toggle inverse;
- delete inverse;
- the edit idempotence of the user save.

## Model

| member | source | states |
|---|---|---|
| Schema.ParseStage | src/db/schema.ts:6-14 | text is accepted as a stage only if it is that stage's label |
| Schema.StageLabelsRoundTrip | src/db/schema.ts:6-14 | the stage enum has exactly seven distinct labels; each label reads back as its stage; no other text is accepted |
| Schema.NewLead | src/db/schema.ts:45-57 | a lead inserted with only its required columns starts at stage Raw, with both scores 0, unassigned, and with creation and update time now |
| Schema.NewDeal | src/db/schema.ts:60-69 | a deal inserted without a status is open |
| Json.OrEmptyObject | src/routes/ingest.ts:74 | `metadata \|\| {}`: a truthy value is kept; a missing or falsy one becomes the empty object |
| NumText.ParseIntDecimalRoundTrip | src/routes/deals.ts:88 | `parseInt` of the decimal text of any integer gives that integer back |
| NumText.ParseIntStopsAtNonDigit | src/routes/deals.ts:88 | `parseInt` reads digits up to the first non-digit: "12abc" is 12 |
| NumText.ParseIntHexPrefix | src/routes/deals.ts:88 | with no radix, a `0x` prefix switches `parseInt` to hexadecimal: "0x1A" is 26 |
| NumText.ParseIntNaN | src/routes/leads.ts:16-17 | the empty text and text without leading digits are NaN |
| NumText.ParseIntBareHexPrefix | src/routes/deals.ts:88 | "0x" with no hexadecimal digits after it is NaN |
| NumText.ParseIntPagingDefaults | src/routes/leads.ts:16-17 | the listing's fallbacks `"1"` and `"20"` read as page 1 and limit 20 |
| Store.FindLead | src/routes/leads.ts:134-139 | the lookup finds a lead only when a row has that id and one of the caller's brands, and it finds nothing exactly when no such row exists |
| Store.FindProduct | src/routes/deals.ts:60-65 | the same for products: a row with that id in one of the caller's brands, or nothing when there is none |
| Store.ApplyWrite | src/db/schema.ts:44-90 | a write is accepted exactly when the schema's key, foreign-key and integer-range checks admit it |
| Store.Transaction | src/routes/deals.ts:96-138 | a rolled-back transaction leaves the store exactly as it was; a committed one applied every write in order; without a fault, a transaction whose writes are all accepted commits |
| Store.ApplyWritePreservesValid | src/db/schema.ts:44-90 | an accepted write keeps the primary-key, foreign-key and integer-range constraints |
| Store.TransactionPreservesValid | src/db/schema.ts:44-90 | committed or rolled back, a transaction keeps the schema's constraints |
| Auth.AuthGate | src/middleware/auth.ts:33-60 | paths under `/api/v1/ingest` pass without a token; otherwise a missing or empty cookie gives "No token provided"; a missing secret or a token the verifier rejects gives "Invalid token"; a request proceeds exactly when the verifier vouches for the token, carrying the identity it decoded |
| Auth.GateFailsClosed | src/middleware/auth.ts:40-59 | outside the ingest prefix, nothing proceeds without an identity from the verifier, and no request without a token proceeds, whatever the verifier would say |
| Auth.IngestBypassIsPrefixOnly | src/middleware/auth.ts:34-38 | the bypass is a plain prefix test: `/api/v1/ingestion-report` is let through too, and `/api/v1/leads` is not |
| Auth.AnyHeld | src/middleware/auth.ts:78-80 | `some`/`includes` is true exactly when a held brand is among the required ones |
| Auth.RequireBrands | src/middleware/auth.ts:63-91 | no identity gives 401; an Admin always passes; any other role passes exactly when it holds one of the required brands; a refusal carries the message, the required brands and the caller's brands |
| Auth.EmptyRequirementOnlyAdmins | src/middleware/auth.ts:71-82 | an empty list of required brands admits exactly the Admins, and an Admin is admitted even holding no brand |
| Deals.EmiScheduleProperties | src/routes/deals.ts:13-38 | the schedule has `months` entries; all but the last are `floor(total / months)`; the last takes what the others leave, so the entries sum to exactly the total; all are pending, due 30, 60, 90, ... days out, strictly increasing |
| Deals.CalculateEmiSchedule | src/routes/deals.ts:13-38 | the loop with its running sum computes that schedule: `months` entries summing to the total, equal base installments before the last |
| Deals.EmiScheduleExamples | src/routes/deals.ts:13-38 | 150000 over 3 months is three 50000 installments; 100000 over 3 is 33333, 33333 and 33334 |
| Deals.EffectiveMonthsCases | src/routes/deals.ts:88 | `parseInt(emi_months) \|\| 3`: absent, unparsable or zero counts become 3; a JSON integer is taken as is; "12abc" is 12 |
| Deals.PlanDeal | src/routes/deals.ts:52-93 | a deal is planned only with all three fields filled, and with product and lead both found in the caller's brands; it is priced at the product's base price, and for EMI the month count is at least 2 |
| Deals.PlanAccepts | src/routes/deals.ts:52-93 | validation passes exactly when the three fields are filled, product and lead are found in the caller's brands, and an EMI request has at least two months |
| Deals.CreateDeal | src/routes/deals.ts:41-139 | a body that is not JSON is a 400 and a `null` body a 500; any reply but a created deal leaves the store unchanged; a validation or lookup refusal is passed on as it is; a created deal is the planned one, and its three writes were applied in order; conversely, a planned deal whose writes the store accepts is created unless the store fails |
| Deals.MissingFieldRejected | src/routes/deals.ts:54-56 | a missing or empty `lead_id`, `sku_id` or `payment_model` is a 400 with nothing written |
| Deals.ProductOutOfScopeNotFound | src/routes/deals.ts:60-69 | a product that is absent or outside the caller's brands is a 404 with nothing written; Admins are not exempt |
| Deals.LeadOutOfScopeNotFound | src/routes/deals.ts:72-81 | with the product in scope, a lead that is absent or outside the caller's brands is a 404 with nothing written |
| Deals.EmiMonthsBelowTwoRejected | src/routes/deals.ts:87-91 | for EMI, a month count below 2 after the default is a 400 with nothing written |
| Deals.DealWritesEffect | src/routes/deals.ts:97-131 | the three writes add exactly the deal, move the rows of that lead to Won, and append one audit entry; activities, products and users are untouched |
| Deals.CreatedDealEffect | src/routes/deals.ts:83-133 | a created deal is open, has the generated id, the product's base price and the found lead and product; the store gained exactly it; only the lead's rows changed (to Won, updated now); one CREATE audit entry records the inputs |
| Deals.CreatedDealSchedule | src/routes/deals.ts:84-93 | a created EMI deal stores at least two pending installments, 30 days apart, summing to exactly the deal amount; any other payment model stores none |
| Deals.DealWritesNeedActor | src/routes/deals.ts:115-128 | when the acting user is not in the users table, the audit entry's foreign key fails and the whole list of writes is rejected |
| Deals.DealWritesAdmitted | src/routes/deals.ts:97-128 | the three writes are all accepted when the deal id is new, its lead and product exist, its amount fits `integer`, and the acting user exists |
| Deals.PlannedDealFits | src/routes/deals.ts:60-105 | on a store that keeps its constraints, a planned deal has the generated id, refers to a stored lead and product, and its price fits the amount column |
| Deals.ValidRequestCreatesDeal | src/routes/deals.ts:41-133 | on a store that keeps its constraints, a request with the three fields, a product and lead in the caller's brands, an acceptable month count, a new deal id and an existing acting user creates the deal when the store does not fail |
| Deals.AdmittedPlanCreates | src/routes/deals.ts:95-133 | a planned deal whose three writes the store accepts is answered as created when the store does not fail |
| Deals.DealAllOrNothing | src/routes/deals.ts:96-138 | after a store fault, or with an acting user missing from the users table, no deal, stage change or audit entry persists |
| Deals.CreateDealPreservesValid | src/routes/deals.ts:96-138 | deal creation keeps the schema's constraints |
| Leads.ListLeads | src/routes/leads.ts:11-73 | a caller without brands gets the empty reply echoing the parsed page and limit; otherwise the rows are listed exactly when page and limit read as at least 1, the stage is absent or a stage label, and the query stays in range. The query fails in the database exactly when the limit or the offset `(page - 1) * limit` exceeds `bigint`, or, listing by heat, a row in scope has engagement plus fit outside `integer`; a listing echoes page and limit, counts in `total` every row of the caller's brands at the asked stage, holds the window at `(page - 1) * limit` of those rows in listing order, and has the least page count that holds `total` rows |
| Leads.DefaultListing | src/routes/leads.ts:16-17 | with no query parameters, a caller with brands gets page 1 with a limit of 20 |
| Leads.ListedWhenInRange | src/routes/leads.ts:11-73 | a caller with brands, paging of at least 1, no stage, and a query the database takes gets a listing at the page and limit the query reads as |
| Leads.InRangeWhenSmall | src/routes/leads.ts:16-44 | a newest-first query whose limit and offset are `bigint`s is one the database takes |
| Leads.DeepOffsetOutOfRange | src/routes/leads.ts:16-41 | paging so deep that `(page - 1) * limit` exceeds `bigint` fails in the database instead of answering an empty page |
| Leads.HeatSumOutOfRange | src/routes/leads.ts:42-44 | listing by heat fails when a row in scope has engagement score 2147483647 and fit score 1, although each score fits `integer`; the newest-first listing of the same store still answers |
| Leads.CeilDivIsLeastPageCount | src/routes/leads.ts:70 | `ceil(total / limit)` is the least number of `limit`-sized pages that hold `total` rows |
| Leads.ListedLeadsInScope | src/routes/leads.ts:28-35 | every listed lead is a stored lead of one of the caller's brands (Admins included), and at the asked stage when one is given |
| Leads.WindowInScope | src/routes/leads.ts:28-41 | any window of the ordered rows holds only stored rows of the caller's brands at the asked stage |
| Leads.ListedLeadsWindow | src/routes/leads.ts:38-44 | a page holds `limit` rows while enough rows follow `(page - 1) * limit`, the rest on the last page and none past the end, in the asked order |
| Leads.HeatPageDescending | src/routes/leads.ts:42-43 | with `sort=heat`, engagement plus fit never increases down a page |
| Leads.GetLead | src/routes/leads.ts:77-123 | a lead is found exactly when a row with that id is in one of the caller's brands; it comes with exactly its activities and deals, each newest first |
| Leads.AbsentAndForeignLookAlike | src/routes/leads.ts:118-120 | an absent lead and a lead of another brand get the same 404 reply |
| Leads.DiffOver | src/routes/leads.ts:153-162 | a key is in the diff exactly when it is iterated over, present in the body and different from the stored value; its entry holds the stored and the new value |
| Leads.DiffIsExact | src/routes/leads.ts:146-162 | the diff holds exactly the allow-listed keys whose body value differs from the stored one, and any other key of the body is ignored |
| Leads.PatchMatchesDiff | src/routes/leads.ts:168-178 | applying the update gives each allow-listed column the body's value if it is in the diff, and leaves it unchanged otherwise; id, brand and creation time never change |
| Leads.PatchLead | src/routes/leads.ts:127-202 | a body that is not JSON is a 500 before the lookup; a 404 is given exactly when the lead is not in the caller's brands; a `null` body gives a 500 exactly when the lead was found; "No changes detected" is given exactly when the diff is empty; any reply but an update leaves the store unchanged; an update carries a non-empty diff and its two writes were applied; conversely, a non-empty storable diff whose writes the store accepts is committed unless the store fails |
| Leads.UnchangedBodyWritesNothing | src/routes/leads.ts:164-166 | a body that only repeats stored values gives "No changes detected" with the stored lead, and writes no update and no audit entry |
| Leads.NonObjectBodyWritesNothing | src/routes/leads.ts:131-166 | with the lead found, a `null` body is a 500 and a string, number, boolean or array body gets "No changes detected"; neither writes anything |
| Leads.PatchWritesEffect | src/routes/leads.ts:171-190 | the two writes patch the lead rows with that id and append one UPDATE audit entry; deals, activities and products are untouched |
| Leads.PatchedEffect | src/routes/leads.ts:171-196 | a committed PATCH changes only the diffed columns of that lead, appends one audit entry holding the diff, and replies with the updated lead and the diff |
| Leads.MobileOnlyDiff | src/routes/leads.ts:153-162 | a body repeating the stage and changing the mobile number yields a diff of the mobile number alone |
| Leads.PatchPreservesValid | src/routes/leads.ts:171-201 | a PATCH keeps the schema's constraints |
| Ingest.KeyAcceptedIsExactMatch | src/routes/ingest.ts:11-16 | the header is accepted exactly when it equals `Bearer ` followed by the configured key; with no key configured, exactly `Bearer undefined` is accepted |
| Ingest.ScoreDelta | src/routes/ingest.ts:45-60 | the weight of an event is 15, 5, 1 or 0 |
| Ingest.ScoreDeltaTable | src/routes/ingest.ts:45-60 | only `course_completed` (15), `cart_abandoned` (5) and `email_opened` (1) carry a positive weight |
| Ingest.EventDeltaTable | src/routes/ingest.ts:48-60 | an event is worth points exactly when its type is one of the three known names sent as a string; an array that renders as `course_completed` is worth nothing |
| Ingest.NumericEventType | src/routes/ingest.ts:48-71 | a numeric event type is worth nothing and is logged under its decimal text: 42 is titled `Event: 42` |
| Ingest.ScoreChangeText | src/routes/ingest.ts:72 | the logged score change starts with `+` exactly when the weight is positive |
| Ingest.ScoreChangeRoundTrip | src/routes/ingest.ts:72 | the logged score change reads back through `parseInt` as the weight |
| Ingest.EventActivity | src/routes/ingest.ts:66-76 | the activity is a system entry with no user, titled `Event: ` and the event type as a template renders it, carrying the client event id and the metadata or `{}` |
| Ingest.EventActivityRecordsDelta | src/routes/ingest.ts:72 | the logged score change reads back through `parseInt` as the points the event is worth |
| Ingest.IngestWrites | src/routes/ingest.ts:63-87 | the transaction inserts the activity first and adds the weight to the lead only when it is positive |
| Ingest.LeadByEmail | src/routes/ingest.ts:35-42 | the lead found has that email, and none is found exactly when no lead has it; no brand scope applies |
| Ingest.PlanIngest | src/routes/ingest.ts:11-42 | a wrong key is a 401; a body that is not JSON is a 400 and a null body a 500; an `email` or `event_type` that is missing or falsy is a 400; a string email no lead has is the 404 "event ignored"; an event is planned exactly when the key is accepted, both fields are truthy, the email is a string and a lead has it, and it carries the body's event type, client event id and metadata |
| Ingest.IngestEvent | src/routes/ingest.ts:9-95 | anything but success leaves the store unchanged; the event is ingested exactly when planned, without a fault, and with its writes accepted |
| Ingest.IngestWritesEffect | src/routes/ingest.ts:63-87 | the writes append one activity and raise the matching lead rows by the weight; they fail only when the raised score leaves the `integer` range |
| Ingest.ScoredWritesEffect | src/routes/ingest.ts:63-87 | for an event worth points, after the activity insert, the increment is accepted exactly when every matching lead's raised score stays in the `integer` range, and then only those rows rise by the weight |
| Ingest.IngestedEffect | src/routes/ingest.ts:63-89 | a successful ingest adds exactly one activity for the emailed lead and raises only that lead's score, by exactly the weight |
| Ingest.UnknownEventOnlyLogs | src/routes/ingest.ts:58-59 | an unknown event type is still logged, and no score moves |
| Ingest.IngestAllOrNothing | src/routes/ingest.ts:63-94 | once a lead is found, the ingest fails exactly on a store fault or an out-of-range score, and a failure writes nothing |
| Ingest.UnknownEmailIgnored | src/routes/ingest.ts:28-42 | with a good key, any body whose `email` is a non-empty string no lead has and whose `event_type` is truthy is answered with the 404 "event ignored" reply and writes nothing |
| Ingest.IngestPreservesValid | src/routes/ingest.ts:63-87 | ingest keeps the schema's constraints |
| Ingest.CourseCompletedScenario | src/routes/ingest.ts:45-86 | a lead at engagement 10 that completes a course ends at 25, with one activity logged with score change `+15` |
| Products.ListProducts | src/routes/products.ts:10-26 | no products for a caller without brands; otherwise exactly the products of the caller's brands, whatever their status, sorted by name |
| Products.ListedProductsArePermutation | src/routes/products.ts:20-23 | each product of the caller's brands is listed as often as the table holds it, and every other product not at all |
| Products.NoBrandsSeesNothing | src/routes/products.ts:15-17 | a caller whose token has no brands, Admin or not, sees no products and gets the empty lead listing |
| HeatScore.BandClassesDistinct | components/DualHeatScore.tsx:27-31 | the three colour classes are pairwise different |
| HeatScore.BandIsMonotone | components/DualHeatScore.tsx:27-31 | a higher total is never drawn in a cooler band, and the band changes exactly at 50 and at 80 |
| HeatScore.BadgeShowsHeat | components/DualHeatScore.tsx:24 | the badge total is the lead's heat, the key the listing sorts by |
| HeatScore.HeatPageBandsDescending | components/DualHeatScore.tsx:24-31 | on a page listed by heat, no badge is in a hotter band than the one above it |
| HeatScore.BadgeExamples | components/DualHeatScore.test.tsx:6-20 | 30 + 20 shows 50; 45 + 45 is emerald, 25 + 30 amber and 10 + 10 red |
| Tasks.SectionsFor | pages/Tasks.tsx:205-216 | a task is in the overdue, due-today, due-this-week, upcoming or completed section exactly when it is in the list and its state and due date meet that section's condition; each section keeps the order of the list |
| Tasks.SectionCounts | pages/Tasks.tsx:209-213 | each section holds every copy of the tasks its condition picks and no copy of any other |
| Tasks.SectionsPartition | pages/Tasks.tsx:205-216 | when the week ends no earlier than today, the sections together hold each task exactly as often as the list does |
| Tasks.CategorizePartition | pages/Tasks.tsx:205-216 | the page's grouping loses and duplicates no task |
| Tasks.DueSoonCountsOpenTasksDueByToday | pages/Tasks.tsx:226 | the "due soon" count is the number of open tasks due today or earlier |
| Tasks.ToggleTask | pages/Tasks.tsx:170-172 | only the tasks with that id change, and only in `completed` |
| Tasks.ToggleTwiceRestores | pages/Tasks.tsx:170-172 | toggling the same task twice gives back the list |
| Tasks.ToggleMovesSection | pages/Tasks.tsx:170-172 | toggling invents no task with another id and moves each toggled task between the open sections and the completed one |
| Tasks.DeleteTask | pages/Tasks.tsx:174-176 | every copy of each task with another id remains, no task with that id does, and the order is kept |
| Tasks.DeleteAbsentIsIdentity | pages/Tasks.tsx:174-176 | deleting an id no task has leaves the list as it is |
| Tasks.CreateTask | pages/Tasks.tsx:178-192 | without a title nothing changes; otherwise a new open task goes in front, with the clock as its id and with today, Medium and `Me` filling in empty fields |
| Tasks.CreateThenDelete | pages/Tasks.tsx:174-192 | deleting a just-created task gives back the list, provided the clock reading was not already a task's id |
| Tasks.NewTaskSection | pages/Tasks.tsx:182-192 | a task created without a date is due today, and one due tomorrow falls in this week's section |
| MyLeads.ContainsIsSubstring | pages/MyLeads.tsx:84-87 | `includes` holds exactly when the search text occurs at some position |
| MyLeads.FilteredLeads | pages/MyLeads.tsx:80-100 | every copy of each lead matching both the search and the tab remains, no other lead does, and the list order is kept |
| MyLeads.TabMeanings | pages/MyLeads.tsx:92-98 | `new`, `hot`, `contacted` and `overdue` keep what their case says, and any other tab keeps everything |
| MyLeads.OpeningViewShowsAll | pages/MyLeads.tsx:67-68 | the page as it opens (tab `all`, empty search) shows every lead in order |
| MyLeads.SearchIgnoresQueryCase | pages/MyLeads.tsx:83-87 | a search text and its lower-cased form find the same leads |
| MyLeads.SearchByNameExample | pages/MyLeads.tsx:83-85 | an upper-case query finds a lead by its name |
| MyLeads.SearchByMobileExample | pages/MyLeads.tsx:87 | digits in the middle of a mobile number find the lead |
| AdminSettings.ToggleBrand | pages/AdminSettings.tsx:69-76 | the brand's membership flips and every other brand's is unchanged; an unticked brand is appended at the end |
| AdminSettings.ToggleTwiceRestores | pages/AdminSettings.tsx:69-76 | ticking a box twice restores which brands are held, and exactly restores the list when the box started unticked |
| AdminSettings.SaveUser | pages/AdminSettings.tsx:175-184 | a user with an id replaces every user with that id; one without is appended with the clock as its id and last login `Never` |
| AdminSettings.SaveEditIsIdempotent | pages/AdminSettings.tsx:176-177 | saving an edit touches nobody else, and saving it again changes nothing more |
| AdminSettings.NewUserCanBeEdited | pages/AdminSettings.tsx:178-181 | a new user gets a non-empty id that reads back as the clock value, so a later save of that user edits it instead of adding another |
| AdminSettings.EditAppendedUser | pages/AdminSettings.tsx:176-177 | editing the last user of a list, whose id no earlier user has, replaces that user alone |

## Left out

- The database driver, connection handling and SQL generation are abstracted. Each query is the filter it expresses. Each transaction is `Store.Transaction`, and a failure it cannot explain is the `fault` parameter. Whether the HTTP driver supports interactive transactions is not modelled.
- Leads.ListLeads: rows that tie under `ORDER BY` (equal heat, `created_at` or name) are listed in storage order, because the model sorts stably. Postgres leaves the order of tied rows unspecified, and with OFFSET paging a tied row may then appear on two pages or on none. The model does not represent that.
- Products.ListProducts: products with the same name are listed in storage order. Postgres may return them in any order.
- Ingest.LeadByEmail: when several leads share an email, the model takes the first in storage order. `findFirst` with no `ORDER BY` may return any one of them.
- Concurrency between requests is not modelled. Each handler runs alone against one store.
- Row ids (uuids) are supplied by the caller as `dealId`. Postgres's rejection of text that is not uuid syntax is not modelled.
- Postgres sorts names by its collation; the model uses code-point order (`Sorting.StrLe`).
- `inArray` with an empty list is not reached: every route returns early for a caller without brands, except the lookups that use `FindLead` and `FindProduct`. Those model the empty list as matching nothing.
- JWT signing and expiry are not modelled. `verify` is an oracle, and the `exp` field is carried but not checked.
- `src/routes/auth.ts` (login, logout, me) and `src/routes/comms.ts` are not part of this model. `requireBrands` is modelled but is not mounted on any route in `src/server.ts`.
- Clock readings, real calendar dates and time zones are not modelled. Dates are whole day numbers, and the client's `YYYY-MM-DD` strings compare in the same order.
- Fractional JSON numbers in request bodies are not modelled: `Json` numbers are integers. So the model cannot express a PATCH such as `{"fitScore": 5.5}`, which differs from the stored score and reaches the update, where Postgres refuses it for an `integer` column and the handler answers 500 "Failed to update lead" (src/routes/leads.ts:153-162, 171-201). Nor can it express an ingest `event_type` of 2.5, logged as "Event: 2.5", or fractional metadata, stored as sent (src/routes/ingest.ts:66-76). `emi_months` is the exception, through its string form.
- Floating point is not modelled: `parseInt` on numbers beyond 2^53, the SVG ring geometry of `DualHeatScore`, `DealModal` and the dashboard charts.
- Leads.ListLeads: pages or limits below 1, or ones that are NaN, reach the database unchecked. They are answered with the `PagingNotModelled` marker rather than a page.
- Ingest.PlanIngest: a truthy `email` that is not a string (a number, `true`, an array or object) is passed to the email lookup as that value, and what the query builder and driver make of it is not modelled. Such a request is answered with the `FieldTypeNotModelled` marker. A non-string `event_type` is modelled: it matches no case of the switch and is logged under its template text.
- Deals.CreateDeal: `lead_id`, `sku_id` and `payment_model` are modelled as text. A truthy value of another JSON type (a number, `true`, an array or object) passes the presence check and reaches the lookups and the audit entry as that value. The model does not represent such a request.
- Leads.PatchLead: `Leads.Storable` accepts for each column only values of its own JSON type (text for text columns, an integer for the scores, a stage label for the stage). The driver may coerce some other values, such as a number sent for a text column. The model answers such a diff `PatchFailed`, where the source may commit it.
- Leads.ListLeads and Leads.GetLead return the rows of the base tables only. The joined display columns are not modelled: the listed lead's `assignedAgent` (id and email), each activity's user email, and each deal's product name and `skuCode` (src/routes/leads.ts:45-52 and 77-123).
- A JSON `null` body throws outside every handler's try block, so it is modelled as a 500 for ingest, deals (`Deals.Uncaught`) and PATCH (`Leads.PatchNullBody`, after the lead lookup). A PATCH body that is not JSON is also a 500 (`PatchUnreadable`), before the lookup.
- The 0–50 range the badge assumes for each score is not enforced anywhere in the source, and is not assumed by the model.
- `toLowerCase` is modelled for ASCII letters only. Unicode case mapping is not.
- The unique constraints on `skuCode` and `users.email` are not part of `Store.Valid`, because no modelled write touches those columns.
- Rendering, navigation, modal state, toasts and the mock data of the pages are not modelled.
- Resetting the task form after a create is UI state (`Tasks.FreshForm`). The model states no property about it.
