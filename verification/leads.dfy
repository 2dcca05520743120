/** The lead routes: the brand-scoped paginated listing, the single-lead
    lookup, and the allow-listed, audited PATCH. */
module Leads {

  import opened Wrappers
  import opened Json
  import opened Schema
  import opened Store
  import opened Seqs
  import opened Sorting
  import opened Auth
  import NumText

  const NotFoundMessage: string := "Lead not found or access denied"

  /** The heat of a lead: engagement plus fit. */
  function Heat(l: Lead): int {
    l.engagementScore + l.fitScore
  }

  // ---------------------------------------------------------------- GET /

  /** The query string: each parameter absent or as sent. */
  datatype ListQuery = ListQuery(page: Option<string>, limit: Option<string>, stage: Option<string>, sort: Option<string>)

  /** `parseInt(c.req.query(name) || fallback)`. */
  function QueryInt(q: Option<string>, fallback: string): Option<int> {
    NumText.ParseInt(if Filled(q) then q.value else fallback)
  }

  datatype LeadList =
    | NoBrands(pageEcho: Option<int>, limitEcho: Option<int>)
    | Listed(data: seq<Lead>, total: nat, page: int, limit: int, totalPages: int)
    | UnknownStage
    | QueryOutOfRange
    | PagingNotModelled

  /** The largest `bigint`, the type Postgres gives `LIMIT` and `OFFSET`. */
  const BigintMax: int := 0x7FFF_FFFF_FFFF_FFFF

  /** `Math.ceil(total / limit)` for a positive limit. */
  function CeilDiv(total: nat, limit: int): int
    requires limit > 0
  {
    (total + limit - 1) / limit
  }

  /** The rows a caller may list: in one of the caller's brands and, when a
      stage is asked for, at that stage. */
  function InScope(brands: seq<BrandId>, stage: Option<Stage>): Lead -> bool {
    (l: Lead) => l.brandId in brands && (stage.None? || l.stage == stage.value)
  }

  /** The listing order: heat descending, or creation time descending. */
  function ListOrder(byHeat: bool): (Lead, Lead) -> bool {
    if byHeat then (a: Lead, b: Lead) => Heat(a) >= Heat(b)
    else (a: Lead, b: Lead) => a.createdAt >= b.createdAt
  }

  lemma ListOrderIsTotal(byHeat: bool)
    ensures TotalPreorder(ListOrder(byHeat))
  {
    if byHeat {
      IntKeyDescending(Heat);
    } else {
      IntKeyDescending((l: Lead) => l.createdAt);
    }
  }

  /** The window `[offset, offset + limit)` of `xs`, clipped to its end. */
  function Window<T>(xs: seq<T>, offset: nat, limit: nat): (r: seq<T>)
    ensures |r| == if offset >= |xs| then 0 else if offset + limit <= |xs| then limit else |xs| - offset
    ensures forall i :: 0 <= i < |r| ==> r[i] == xs[offset + i]
  {
    if offset >= |xs| then [] else if offset + limit <= |xs| then xs[offset..offset + limit] else xs[offset..]
  }

  /** `(page - 1) * limit`: the number of rows before the page. */
  function Offset(page: int, limit: int): (o: nat)
    requires page >= 1 && limit >= 1
    ensures o == (page - 1) * limit
  {
    NumText.NatProduct(page - 1, limit);
    (page - 1) * limit
  }

  /** The caller's rows in listing order. */
  function OrderedInScope(leads: seq<Lead>, brands: seq<BrandId>, stage: Option<Stage>, byHeat: bool): (r: seq<Lead>)
    ensures multiset(r) == multiset(Filter(leads, InScope(brands, stage)))
    ensures SortedBy(r, ListOrder(byHeat))
  {
    ListOrderIsTotal(byHeat);
    Sort(Filter(leads, InScope(brands, stage)), ListOrder(byHeat))
  }

  /** The stage filter of a query: none for an absent or empty `stage`. */
  function StageFilter(q: ListQuery): Option<Stage> {
    if Filled(q.stage) then ParseStage(q.stage.value) else None
  }

  /** A window of a sorted sequence is sorted. */
  lemma WindowKeepsOrder<T>(xs: seq<T>, offset: nat, limit: nat, le: (T, T) -> bool)
    requires SortedBy(xs, le)
    ensures SortedBy(Window(xs, offset, limit), le)
  {
    var w := Window(xs, offset, limit);
    forall i, j | 0 <= i < j < |w| ensures le(w[i], w[j]) {
      assert w[i] == xs[offset + i] && w[j] == xs[offset + j];
    }
  }

  /** `page` and `limit` both read as integers of at least 1. */
  predicate PagingInRange(q: ListQuery) {
    var page := QueryInt(q.page, "1");
    var limit := QueryInt(q.limit, "20");
    page.Some? && limit.Some? && page.value >= 1 && limit.value >= 1
  }

  /** Listing by heat meets a row in scope whose heat is not an `integer`:
      Postgres adds the two `integer` columns as an `integer` and raises
      "integer out of range". */
  predicate HeatOverflows(leads: seq<Lead>, brands: seq<BrandId>, stage: Option<Stage>, byHeat: bool) {
    byHeat && exists l :: l in leads && InScope(brands, stage)(l) && !Int4(Heat(l))
  }

  /** The listing query fails in the database: the limit or the offset is not
      a `bigint`, or the heat of a row it sorts is not an `integer`. */
  predicate ListOutOfRange(db: Db, user: UserPayload, q: ListQuery)
    requires PagingInRange(q)
  {
    var page := QueryInt(q.page, "1").value;
    var limit := QueryInt(q.limit, "20").value;
    || limit > BigintMax
    || Offset(page, limit) > BigintMax
    || HeatOverflows(db.leads, user.brandIds, StageFilter(q), q.sort == Some("heat"))
  }

  /** `pages` pages of `limit` rows hold `total` rows, and one page fewer
      would not. */
  predicate LeastPageCount(total: nat, limit: int, pages: int) {
    && pages * limit >= total
    && (total > 0 ==> (pages - 1) * limit < total)
    && (total == 0 ==> pages == 0)
  }

  /** `totalPages` is the least number of `limit`-sized pages that hold
      `total` rows. */
  lemma CeilDivIsLeastPageCount(total: nat, limit: int)
    requires limit > 0
    ensures CeilDiv(total, limit) >= 0
    ensures LeastPageCount(total, limit, CeilDiv(total, limit))
  {
    var p := CeilDiv(total, limit);
    var m := (total + limit - 1) % limit;
    assert total + limit - 1 == p * limit + m;
  }

  /** `GET /api/v1/leads`. A stage that is not an enum label makes the
      database reject the query (an unhandled error), and so does a limit or
      offset beyond `bigint` or, listing by heat, a row whose heat leaves
      `integer`; the handler has no try block, so each is a 500. Pages below 1 and limits
      below 1 reach the database unchecked; what it does with them is outside
      the model. A listing is the window at `(page - 1) * limit` of the
      caller's rows in listing order; `total` counts all of those rows and
      `totalPages` is the least page count that holds them. */
  function ListLeads(db: Db, user: UserPayload, q: ListQuery): (r: LeadList)
    ensures |user.brandIds| == 0 ==> r == NoBrands(QueryInt(q.page, "1"), QueryInt(q.limit, "20"))
    ensures r.PagingNotModelled? <==> |user.brandIds| > 0 && !PagingInRange(q)
    ensures r.UnknownStage? <==>
      |user.brandIds| > 0 && PagingInRange(q) && Filled(q.stage) && ParseStage(q.stage.value).None?
    ensures r.QueryOutOfRange? <==>
      && |user.brandIds| > 0 && PagingInRange(q) && (!Filled(q.stage) || ParseStage(q.stage.value).Some?)
      && ListOutOfRange(db, user, q)
    ensures r.Listed? <==>
      && |user.brandIds| > 0 && PagingInRange(q) && (!Filled(q.stage) || ParseStage(q.stage.value).Some?)
      && !ListOutOfRange(db, user, q)
    ensures r.Listed? ==>
      && r.page == QueryInt(q.page, "1").value && r.limit == QueryInt(q.limit, "20").value
      && r.total == |Filter(db.leads, InScope(user.brandIds, StageFilter(q)))|
      && r.data == Window(OrderedInScope(db.leads, user.brandIds, StageFilter(q), q.sort == Some("heat")),
                          Offset(r.page, r.limit), r.limit)
      && LeastPageCount(r.total, r.limit, r.totalPages)
  {
    var page := QueryInt(q.page, "1");
    var limit := QueryInt(q.limit, "20");
    if |user.brandIds| == 0 then NoBrands(page, limit)
    else if page.None? || limit.None? || page.value < 1 || limit.value < 1 then PagingNotModelled
    else if Filled(q.stage) && ParseStage(q.stage.value).None? then UnknownStage
    else if ListOutOfRange(db, user, q) then QueryOutOfRange
    else
      var total := |Filter(db.leads, InScope(user.brandIds, StageFilter(q)))|;
      var ordered := OrderedInScope(db.leads, user.brandIds, StageFilter(q), q.sort == Some("heat"));
      CeilDivIsLeastPageCount(total, limit.value);
      Listed(Window(ordered, Offset(page.value, limit.value), limit.value), total, page.value, limit.value,
             CeilDiv(total, limit.value))
  }

  /** With no query parameters, a caller with brands gets the first page of
      20 rows, newest first. */
  lemma DefaultListing(db: Db, user: UserPayload)
    requires |user.brandIds| > 0
    ensures var r := ListLeads(db, user, ListQuery(None, None, None, None));
      r.Listed? && r.page == 1 && r.limit == 20
  {
    var q := ListQuery(None, None, None, None);
    NumText.ParseIntPagingDefaults();
    assert QueryInt(q.page, "1") == Some(1) && QueryInt(q.limit, "20") == Some(20);
    DefaultQueryInRange(db, user);
    ListedWhenInRange(db, user, q, 1, 20);
  }

  /** A query of a caller with brands, with paging in range and no stage,
      that the database takes is listed at the page and limit it reads as. */
  lemma ListedWhenInRange(db: Db, user: UserPayload, q: ListQuery, page: int, limit: int)
    requires |user.brandIds| > 0 && !Filled(q.stage)
    requires QueryInt(q.page, "1") == Some(page) && QueryInt(q.limit, "20") == Some(limit)
    requires PagingInRange(q) && !ListOutOfRange(db, user, q)
    ensures var r := ListLeads(db, user, q);
      r.Listed? && r.page == page && r.limit == limit
  {
  }

  /** The empty query reads as page 1 of 20 rows, newest first, which the
      database takes. */
  lemma DefaultQueryInRange(db: Db, user: UserPayload)
    ensures PagingInRange(ListQuery(None, None, None, None))
    ensures !ListOutOfRange(db, user, ListQuery(None, None, None, None))
  {
    var q := ListQuery(None, None, None, None);
    NumText.ParseIntPagingDefaults();
    assert QueryInt(q.page, "1") == Some(1) && QueryInt(q.limit, "20") == Some(20);
    InRangeWhenSmall(db, user, q, 1, 20);
  }

  /** A query listing newest first, whose limit and offset are `bigint`s, is
      in range. */
  lemma InRangeWhenSmall(db: Db, user: UserPayload, q: ListQuery, page: int, limit: int)
    requires QueryInt(q.page, "1") == Some(page) && QueryInt(q.limit, "20") == Some(limit)
    requires 1 <= page && 1 <= limit <= BigintMax && (page - 1) * limit <= BigintMax
    requires q.sort != Some("heat")
    ensures PagingInRange(q) && !ListOutOfRange(db, user, q)
  {
    assert !HeatOverflows(db.leads, user.brandIds, StageFilter(q), false);
  }

  /** Paging so deep that `(page - 1) * limit` is not a `bigint` fails in the
      database rather than answering an empty page. */
  lemma DeepOffsetOutOfRange(db: Db, user: UserPayload, page: int, limit: int)
    requires |user.brandIds| > 0 && page >= 1 && limit >= 1
    requires (page - 1) * limit > BigintMax
    ensures ListLeads(db, user, ListQuery(Some(NumText.DecimalString(page)), Some(NumText.DecimalString(limit)),
                                          None, None)).QueryOutOfRange?
  {
    var q := ListQuery(Some(NumText.DecimalString(page)), Some(NumText.DecimalString(limit)), None, None);
    NumText.ParseIntDecimalRoundTrip(page);
    NumText.ParseIntDecimalRoundTrip(limit);
    assert QueryInt(q.page, "1") == Some(page) && QueryInt(q.limit, "20") == Some(limit);
    assert PagingInRange(q);
    assert ListOutOfRange(db, user, q);
  }

  /** Listing by heat fails once any row in scope has an engagement score and
      fit score summing past `integer`, even though each score is one; listing
      newest first does not look at heat. */
  lemma HeatSumOutOfRange(db: Db, user: UserPayload, l: Lead)
    requires l in db.leads && l.brandId in user.brandIds
    requires l.engagementScore == Int4Max && l.fitScore == 1
    ensures ListLeads(db, user, ListQuery(None, None, None, Some("heat"))).QueryOutOfRange?
    ensures ListLeads(db, user, ListQuery(None, None, None, None)).Listed?
  {
    var q := ListQuery(None, None, None, Some("heat"));
    NumText.ParseIntPagingDefaults();
    assert QueryInt(q.page, "1") == Some(1) && QueryInt(q.limit, "20") == Some(20);
    assert PagingInRange(q);
    assert InScope(user.brandIds, StageFilter(q))(l) && !Int4(Heat(l));
    assert ListOutOfRange(db, user, q);
    DefaultListing(db, user);
  }

  /** Every listed row is one of the caller's brands (Admins included: the
      route filters on `brandIds` alone) and, when a stage is asked for, at
      that stage. */
  lemma ListedLeadsInScope(db: Db, user: UserPayload, q: ListQuery)
    requires ListLeads(db, user, q).Listed?
    ensures var r := ListLeads(db, user, q);
      && (forall l :: l in r.data ==> l in db.leads && l.brandId in user.brandIds)
      && (StageFilter(q).Some? ==> forall l :: l in r.data ==> l.stage == StageFilter(q).value)
  {
    var r := ListLeads(db, user, q);
    WindowInScope(db.leads, user.brandIds, StageFilter(q), q.sort == Some("heat"), Offset(r.page, r.limit), r.limit);
  }

  /** Any window of the ordered rows holds only stored rows in scope. */
  lemma WindowInScope(leads: seq<Lead>, brands: seq<BrandId>, stage: Option<Stage>, byHeat: bool,
                      offset: nat, limit: nat)
    ensures forall l :: l in Window(OrderedInScope(leads, brands, stage, byHeat), offset, limit) ==>
      l in leads && l.brandId in brands && (stage.Some? ==> l.stage == stage.value)
  {
    var ordered := OrderedInScope(leads, brands, stage, byHeat);
    var w := Window(ordered, offset, limit);
    forall l | l in w ensures l in leads && InScope(brands, stage)(l) {
      var i :| 0 <= i < |w| && w[i] == l;
      assert ordered[offset + i] in multiset(ordered);
    }
  }

  /** The page holds `limit` rows while enough rows follow `(page - 1) *
      limit`, fewer on the last page and none past the end, in the asked
      order. */
  lemma ListedLeadsWindow(db: Db, user: UserPayload, q: ListQuery)
    requires ListLeads(db, user, q).Listed?
    ensures var r := ListLeads(db, user, q);
      var offset := Offset(r.page, r.limit);
      && |r.data| == (if offset >= r.total then 0 else if offset + r.limit <= r.total then r.limit else r.total - offset)
      && SortedBy(r.data, ListOrder(q.sort == Some("heat")))
  {
    var r := ListLeads(db, user, q);
    var stage := StageFilter(q);
    var ordered := OrderedInScope(db.leads, user.brandIds, stage, q.sort == Some("heat"));
    assert |ordered| == r.total by {
      assert |multiset(ordered)| == |multiset(Filter(db.leads, InScope(user.brandIds, stage)))|;
    }
    WindowKeepsOrder(ordered, Offset(r.page, r.limit), r.limit, ListOrder(q.sort == Some("heat")));
  }

  /** Heat order puts hotter leads first on every page. */
  lemma HeatPageDescending(db: Db, user: UserPayload, q: ListQuery)
    requires ListLeads(db, user, q).Listed? && q.sort == Some("heat")
    ensures var d := ListLeads(db, user, q).data;
      forall i, j :: 0 <= i < j < |d| ==> Heat(d[i]) >= Heat(d[j])
  {
    ListedLeadsWindow(db, user, q);
  }

  // ---------------------------------------------------------------- GET /:id

  datatype LeadDetail =
    | DetailNotFound(error: string)
    | LeadFound(lead: Lead, activities: seq<Activity>, deals: seq<Deal>)
  {
    function Status(): int {
      if LeadFound? then 200 else 404
    }
  }

  /** Newest first, for the joined activities and deals. */
  const NewestActivityFirst: (Activity, Activity) -> bool := (a: Activity, b: Activity) => a.createdAt >= b.createdAt
  const NewestDealFirst: (Deal, Deal) -> bool := (a: Deal, b: Deal) => a.createdAt >= b.createdAt

  lemma NewestFirstIsTotal()
    ensures TotalPreorder(NewestActivityFirst) && TotalPreorder(NewestDealFirst)
  {
  }

  /** `GET /api/v1/leads/:id`: the lead, if it is in one of the caller's
      brands, with its activities and deals newest first. */
  function GetLead(db: Db, user: UserPayload, id: Id): (r: LeadDetail)
    ensures r.LeadFound? <==> exists l :: l in db.leads && l.id == id && l.brandId in user.brandIds
    ensures r.LeadFound? ==> r.lead in db.leads && r.lead.id == id && r.lead.brandId in user.brandIds
    ensures r.LeadFound? ==>
      && multiset(r.activities) == multiset(Filter(db.activities, (a: Activity) => a.leadId == id))
      && SortedBy(r.activities, NewestActivityFirst)
      && multiset(r.deals) == multiset(Filter(db.deals, (d: Deal) => d.leadId == id))
      && SortedBy(r.deals, NewestDealFirst)
    ensures r.DetailNotFound? ==> r.error == NotFoundMessage
  {
    match FindLead(db, id, user.brandIds)
    case None => DetailNotFound(NotFoundMessage)
    case Some(lead) =>
      NewestFirstIsTotal();
      LeadFound(lead,
                Sort(Filter(db.activities, (a: Activity) => a.leadId == id), NewestActivityFirst),
                Sort(Filter(db.deals, (d: Deal) => d.leadId == id), NewestDealFirst))
  }

  /** A lead that is absent and a lead of another brand get the same 404:
      the reply does not reveal which. */
  lemma AbsentAndForeignLookAlike(db1: Db, db2: Db, user: UserPayload, id: Id)
    requires forall l :: l in db1.leads ==> l.id != id
    requires forall l :: l in db2.leads && l.id == id ==> l.brandId !in user.brandIds
    ensures GetLead(db1, user, id) == GetLead(db2, user, id) == DetailNotFound(NotFoundMessage)
    ensures GetLead(db1, user, id).Status() == 404
  {
  }

  // ---------------------------------------------------------------- PATCH /:id

  /** The only keys of a PATCH body that are ever written. */
  const AllowedFields: seq<string> :=
    ["name", "mobile", "email", "qualificationStage", "engagementScore", "fitScore", "assignedTo"]

  /** A stored lead column as the JSON value the handler compares against. */
  function FieldJson(l: Lead, key: string): Json {
    match key
    case "name" => JStr(l.name)
    case "mobile" => JStr(l.mobile)
    case "email" => if l.email.Some? then JStr(l.email.value) else JNull
    case "qualificationStage" => JStr(StageLabel(l.stage))
    case "engagementScore" => JNum(l.engagementScore)
    case "fitScore" => JNum(l.fitScore)
    case "assignedTo" => if l.assignedTo.Some? then JStr(l.assignedTo.value) else JNull
    case _ => JNull
  }

  /** The `for (const key of allowedFields)` loop: a key present in the body whose
      value differs from the stored one gets `{old, new}`. */
  function DiffOver(keys: seq<string>, body: map<string, Json>, lead: Lead): (d: map<string, Change>)
    ensures forall k :: k in d <==> k in keys && k in body && body[k] != FieldJson(lead, k)
    ensures forall k :: k in d ==> d[k] == Change(FieldJson(lead, k), body[k])
  {
    if |keys| == 0 then map[]
    else
      var rest := DiffOver(keys[..|keys| - 1], body, lead);
      var k := keys[|keys| - 1];
      assert keys == keys[..|keys| - 1] + [k];
      if k in body && body[k] != FieldJson(lead, k) then rest[k := Change(FieldJson(lead, k), body[k])]
      else rest
  }

  function LeadDiff(body: map<string, Json>, lead: Lead): map<string, Change> {
    DiffOver(AllowedFields, body, lead)
  }

  /** Whether the database accepts a JSON value for the column of `key`:
      text columns take strings, nullable ones also null, the stage column
      only one of its labels, the score columns only integers. */
  predicate Storable(key: string, j: Json) {
    match key
    case "name" => j.JStr?
    case "mobile" => j.JStr?
    case "email" => j.JStr? || j.JNull?
    case "qualificationStage" => j.JStr? && ParseStage(j.s).Some?
    case "engagementScore" => j.JNum?
    case "fitScore" => j.JNum?
    case "assignedTo" => j.JStr? || j.JNull?
    case _ => false
  }

  predicate StorableDiff(d: map<string, Change>) {
    forall k :: k in d ==> Storable(k, d[k].after)
  }

  function NullableText(j: Json): Option<string> {
    if j.JStr? then Some(j.s) else None
  }

  /** The `SET` clause for a diff the database accepts. */
  function ToPatch(d: map<string, Change>, now: int): LeadPatch
    requires StorableDiff(d)
  {
    LeadPatch(
      if "name" in d then Some(d["name"].after.s) else None,
      if "mobile" in d then Some(d["mobile"].after.s) else None,
      if "email" in d then Some(NullableText(d["email"].after)) else None,
      if "qualificationStage" in d then ParseStage(d["qualificationStage"].after.s) else None,
      if "engagementScore" in d then Some(d["engagementScore"].after.n) else None,
      if "fitScore" in d then Some(d["fitScore"].after.n) else None,
      if "assignedTo" in d then Some(NullableText(d["assignedTo"].after)) else None,
      now)
  }

  /** Applying the `SET` clause of a diff gives every allow-listed column the
      body's value if it is in the diff and leaves it as it was otherwise; the
      id, brand and creation time never change. */
  lemma PatchMatchesDiff(lead: Lead, d: map<string, Change>, now: int)
    requires StorableDiff(d)
    requires forall k :: k in d ==> k in AllowedFields
    ensures var l' := ApplyPatch(lead, ToPatch(d, now));
      && (forall k :: k in AllowedFields ==> FieldJson(l', k) == if k in d then d[k].after else FieldJson(lead, k))
      && l'.id == lead.id && l'.brandId == lead.brandId && l'.createdAt == lead.createdAt
      && l'.updatedAt == now
  {
    var l' := ApplyPatch(lead, ToPatch(d, now));
    forall k | k in AllowedFields
      ensures FieldJson(l', k) == if k in d then d[k].after else FieldJson(lead, k)
    {
      if k == "qualificationStage" && k in d {
        assert StageLabel(ParseStage(d[k].after.s).value) == d[k].after.s;
      }
    }
  }

  datatype PatchReply =
    | PatchUnreadable
    | PatchNotFound(error: string)
    | PatchNullBody
    | NoChanges(message: string, lead: Lead)
    | Patched(lead: Lead, changes: map<string, Change>)
    | PatchFailed
  {
    function Status(): int {
      match this
      case PatchUnreadable => 500
      case PatchNotFound(_) => 404
      case PatchNullBody => 500
      case NoChanges(_, _) => 200
      case Patched(_, _) => 200
      case PatchFailed => 500
    }
  }

  const NoChangesMessage: string := "No changes detected"

  /** The writes of a PATCH transaction: the update, then its audit entry. */
  function PatchWrites(id: Id, d: map<string, Change>, user: UserPayload, now: int): seq<Write>
    requires StorableDiff(d)
  {
    [ UpdateLead(id, ToPatch(d, now)),
      InsertAudit(AuditLog("leads", id, Update, FieldDiff(d), user.id, now)) ]
  }

  /** The keys a property lookup `body[key]` finds: an object's own, and
      none at all on a string, number, boolean or array. */
  function BodyFields(j: Json): (m: map<string, Json>)
    ensures j.JObj? ==> m == j.fields
    ensures !j.JObj? ==> m == map[]
  {
    if j.JObj? then j.fields else map[]
  }

  /** `PATCH /api/v1/leads/:id`. `body` is None when it is not JSON (the
      handler does not catch that, so the reply is a 500 before any lookup);
      a `null` body passes the lookup and then throws on the first property
      read, also a 500. A diff with a value the database does not accept for
      its column fails inside the transaction. */
  function PatchLead(db: Db, user: UserPayload, id: Id, body: Option<Json>, now: int, fault: bool)
    : (r: Step<PatchReply>)
    ensures !r.reply.Patched? ==> r.db == db
    ensures r.reply.PatchUnreadable? <==> body.None?
    ensures r.reply.PatchNotFound? <==> body.Some? && FindLead(db, id, user.brandIds).None?
    ensures r.reply.PatchNullBody? <==> body == Some(JNull) && FindLead(db, id, user.brandIds).Some?
    ensures r.reply.NoChanges? <==>
      && body.Some? && body.value != JNull && FindLead(db, id, user.brandIds).Some?
      && |LeadDiff(BodyFields(body.value), FindLead(db, id, user.brandIds).value)| == 0
    ensures r.reply.Patched? ==>
      && body.Some? && body.value != JNull && FindLead(db, id, user.brandIds).Some?
      && var existing := FindLead(db, id, user.brandIds).value;
         var d := LeadDiff(BodyFields(body.value), existing);
         && |d| > 0 && StorableDiff(d)
         && r.reply == Patched(ApplyPatch(existing, ToPatch(d, now)), d)
         && ApplyAll(db, PatchWrites(id, d, user, now)) == Some(r.db)
    ensures
      (&& body.Some? && body.value != JNull && FindLead(db, id, user.brandIds).Some? && !fault
       && var d := LeadDiff(BodyFields(body.value), FindLead(db, id, user.brandIds).value);
          && |d| > 0 && StorableDiff(d)
          && ApplyAll(db, PatchWrites(id, d, user, now)).Some?)
      ==> r.reply.Patched?
  {
    if body.None? then Step(PatchUnreadable, db)
    else match FindLead(db, id, user.brandIds)
      case None => Step(PatchNotFound(NotFoundMessage), db)
      case Some(existing) =>
        if body.value == JNull then Step(PatchNullBody, db)
        else
          var d := LeadDiff(BodyFields(body.value), existing);
          if |d| == 0 then Step(NoChanges(NoChangesMessage, existing), db)
          else if !StorableDiff(d) then Step(PatchFailed, db)
          else
            var (ok, db') := Transaction(db, PatchWrites(id, d, user, now), fault);
            if ok then Step(Patched(ApplyPatch(existing, ToPatch(d, now)), d), db') else Step(PatchFailed, db)
  }

  /** The diff holds exactly the allow-listed keys present in the body whose
      value differs from the stored one, each with the stored and the new
      value; any other key of the body is ignored. */
  lemma DiffIsExact(body: map<string, Json>, lead: Lead)
    ensures var d := LeadDiff(body, lead);
      && (forall k :: k in d <==> k in AllowedFields && k in body && body[k] != FieldJson(lead, k))
      && (forall k :: k in d ==> d[k] == Change(FieldJson(lead, k), body[k]))
      && (forall k :: k in body && k !in AllowedFields ==> k !in d)
  {
  }

  /** A body that repeats the stored values (or only carries keys outside
      the allow-list) is answered "No changes detected" with the stored lead,
      and nothing is written: no update, no audit entry. */
  lemma UnchangedBodyWritesNothing(db: Db, user: UserPayload, id: Id, body: map<string, Json>, now: int, fault: bool)
    requires FindLead(db, id, user.brandIds).Some?
    requires forall k :: k in body && k in AllowedFields ==> body[k] == FieldJson(FindLead(db, id, user.brandIds).value, k)
    ensures PatchLead(db, user, id, Some(JObj(body)), now, fault)
      == Step(NoChanges(NoChangesMessage, FindLead(db, id, user.brandIds).value), db)
  {
  }

  /** A JSON body that is not an object has no keys to read: a string,
      number, boolean or array changes nothing, while `null` makes the first
      property read throw, after the lead was found. Nothing is written
      either way. */
  lemma NonObjectBodyWritesNothing(db: Db, user: UserPayload, id: Id, body: Json, now: int, fault: bool)
    requires !body.JObj?
    requires FindLead(db, id, user.brandIds).Some?
    ensures var r := PatchLead(db, user, id, Some(body), now, fault);
      && r.db == db
      && (body.JNull? ==> r.reply == PatchNullBody && r.reply.Status() == 500)
      && (!body.JNull? ==> r.reply == NoChanges(NoChangesMessage, FindLead(db, id, user.brandIds).value))
  {
    if !body.JNull? {
      assert LeadDiff(BodyFields(body), FindLead(db, id, user.brandIds).value) == map[];
    }
  }

  /** The two writes of a PATCH, when both are accepted: the lead rows with
      that id are patched and one audit entry is appended; nothing else
      changes. */
  lemma PatchWritesEffect(db: Db, id: Id, d: map<string, Change>, user: UserPayload, now: int)
    requires StorableDiff(d)
    requires ApplyAll(db, PatchWrites(id, d, user, now)).Some?
    ensures var db' := ApplyAll(db, PatchWrites(id, d, user, now)).value;
      && db'.leads == PatchLeads(db.leads, id, ToPatch(d, now))
      && db'.auditLogs == db.auditLogs + [AuditLog("leads", id, Update, FieldDiff(d), user.id, now)]
      && db'.deals == db.deals && db'.activities == db.activities && db'.products == db.products
  {
    var ws := PatchWrites(id, d, user, now);
    var db1 := ApplyWrite(db, ws[0]).value;
    assert ApplyAll(db, ws) == ApplyAll(db1, ws[1..]);
    assert ws[1..][1..] == [];
  }

  /** A committed PATCH: the lead rows with that id are patched from the diff
      (and only with it), exactly one UPDATE audit entry holding the diff is
      appended, the reply carries the updated lead and the diff, and no
      other table changes. */
  lemma PatchedEffect(db: Db, user: UserPayload, id: Id, body: map<string, Json>, now: int, fault: bool)
    requires PatchLead(db, user, id, Some(JObj(body)), now, fault).reply.Patched?
    ensures var r := PatchLead(db, user, id, Some(JObj(body)), now, fault);
      var existing := FindLead(db, id, user.brandIds).value;
      var d := LeadDiff(body, existing);
      && FindLead(db, id, user.brandIds).Some?
      && |d| > 0 && StorableDiff(d)
      && r.reply.changes == d
      && r.db.leads == PatchLeads(db.leads, id, ToPatch(d, now))
      && r.db.auditLogs == db.auditLogs + [AuditLog("leads", id, Update, FieldDiff(d), user.id, now)]
      && r.db.deals == db.deals && r.db.activities == db.activities && r.db.products == db.products
      && (forall k :: k in AllowedFields ==>
            FieldJson(r.reply.lead, k) == if k in d then body[k] else FieldJson(existing, k))
      && r.reply.lead.id == existing.id && r.reply.lead.brandId == existing.brandId
  {
    var existing := FindLead(db, id, user.brandIds).value;
    var d := LeadDiff(body, existing);
    PatchWritesEffect(db, id, d, user, now);
    PatchMatchesDiff(existing, d, now);
  }

  /** The worked example: a body that repeats the stage and changes the
      mobile number yields a diff of the mobile number alone. */
  lemma MobileOnlyDiff(lead: Lead, mobile: string)
    requires mobile != lead.mobile
    ensures LeadDiff(map["qualificationStage" := JStr(StageLabel(lead.stage)), "mobile" := JStr(mobile)], lead)
      == map["mobile" := Change(JStr(lead.mobile), JStr(mobile))]
  {
    var body := map["qualificationStage" := JStr(StageLabel(lead.stage)), "mobile" := JStr(mobile)];
    var d := LeadDiff(body, lead);
    assert "mobile" in AllowedFields;
    assert d.Keys == {"mobile"};
  }

  /** A PATCH keeps the schema's constraints. */
  lemma PatchPreservesValid(db: Db, user: UserPayload, id: Id, body: Option<Json>, now: int, fault: bool)
    requires Valid(db)
    ensures Valid(PatchLead(db, user, id, body, now, fault).db)
  {
    var r := PatchLead(db, user, id, body, now, fault);
    if r.reply.Patched? {
      var existing := FindLead(db, id, user.brandIds).value;
      var d := LeadDiff(BodyFields(body.value), existing);
      TransactionPreservesValid(db, PatchWrites(id, d, user, now), fault);
    }
  }
}
