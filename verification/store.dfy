/** The store the route handlers run against: brand-scoped lookups, the
    writes the handlers issue, the constraints Postgres enforces on each
    write, and `db.transaction`, which applies a list of writes all together
    or not at all. */
module Store {

  import opened Wrappers
  import opened Schema
  import opened Seqs

  /** What a handler returns: its reply and the store after the request. */
  datatype Step<R> = Step(reply: R, db: Db)

  // ---------------------------------------------------------------- keys

  function LeadIds(leads: seq<Lead>): set<Id> {
    set l | l in leads :: l.id
  }

  function ProductIds(products: seq<Product>): set<Id> {
    set p | p in products :: p.id
  }

  function DealIds(deals: seq<Deal>): set<Id> {
    set d | d in deals :: d.id
  }

  ghost predicate UniqueLeadIds(leads: seq<Lead>) {
    forall i, j :: 0 <= i < j < |leads| ==> leads[i].id != leads[j].id
  }

  ghost predicate UniqueProductIds(products: seq<Product>) {
    forall i, j :: 0 <= i < j < |products| ==> products[i].id != products[j].id
  }

  ghost predicate UniqueDealIds(deals: seq<Deal>) {
    forall i, j :: 0 <= i < j < |deals| ==> deals[i].id != deals[j].id
  }

  /** The constraints of the schema: primary keys, foreign keys and the range
      of the integer columns. */
  ghost predicate Valid(db: Db) {
    && UniqueProductIds(db.products)
    && UniqueLeadIds(db.leads)
    && UniqueDealIds(db.deals)
    && (forall p :: p in db.products ==> Int4(p.basePrice))
    && (forall l :: l in db.leads ==>
          Int4(l.engagementScore) && Int4(l.fitScore) &&
          (l.assignedTo.Some? ==> l.assignedTo.value in db.users))
    && (forall d :: d in db.deals ==>
          Int4(d.amount) && d.leadId in LeadIds(db.leads) && d.skuId in ProductIds(db.products))
    && (forall a :: a in db.activities ==>
          a.leadId in LeadIds(db.leads) && (a.userId.Some? ==> a.userId.value in db.users))
    && (forall e :: e in db.auditLogs ==> e.performedBy in db.users)
  }

  // ---------------------------------------------------------------- scoped reads

  /** `findFirst(where id = id and brand_id in brands)` on leads. */
  function FindLead(db: Db, id: Id, brands: seq<BrandId>): (r: Option<Lead>)
    ensures r.Some? ==> r.value in db.leads && r.value.id == id && r.value.brandId in brands
    ensures r.None? <==> forall l :: l in db.leads ==> !(l.id == id && l.brandId in brands)
  {
    FirstMatch(db.leads, (l: Lead) => l.id == id && l.brandId in brands)
  }

  /** `findFirst(where id = id and brand_id in brands)` on products. */
  function FindProduct(db: Db, id: Id, brands: seq<BrandId>): (r: Option<Product>)
    ensures r.Some? ==> r.value in db.products && r.value.id == id && r.value.brandId in brands
    ensures r.None? <==> forall p :: p in db.products ==> !(p.id == id && p.brandId in brands)
  {
    FirstMatch(db.products, (p: Product) => p.id == id && p.brandId in brands)
  }

  // ---------------------------------------------------------------- writes

  /** The columns an `UPDATE leads SET ...` assigns; None leaves a column as
      it is. `updated_at` is always set. */
  datatype LeadPatch = LeadPatch(
    name: Option<string>,
    mobile: Option<string>,
    email: Option<Option<string>>,
    stage: Option<Stage>,
    engagementScore: Option<int>,
    fitScore: Option<int>,
    assignedTo: Option<Option<Id>>,
    updatedAt: int)

  /** A patch that only moves the lead to `stage`. */
  function StagePatch(stage: Stage, now: int): LeadPatch {
    LeadPatch(None, None, None, Some(stage), None, None, None, now)
  }

  function ApplyPatch(l: Lead, p: LeadPatch): (r: Lead)
    ensures r.id == l.id && r.brandId == l.brandId && r.createdAt == l.createdAt
    ensures r.updatedAt == p.updatedAt
  {
    l.(name := p.name.GetOr(l.name),
       mobile := p.mobile.GetOr(l.mobile),
       email := p.email.GetOr(l.email),
       stage := p.stage.GetOr(l.stage),
       engagementScore := p.engagementScore.GetOr(l.engagementScore),
       fitScore := p.fitScore.GetOr(l.fitScore),
       assignedTo := p.assignedTo.GetOr(l.assignedTo),
       updatedAt := p.updatedAt)
  }

  /** `UPDATE leads SET ... WHERE id = id`: every row with that id is patched,
      every other row is kept. */
  function PatchLeads(leads: seq<Lead>, id: Id, p: LeadPatch): (r: seq<Lead>)
    ensures |r| == |leads|
    ensures forall i :: 0 <= i < |leads| ==> r[i] == if leads[i].id == id then ApplyPatch(leads[i], p) else leads[i]
  {
    seq(|leads|, i requires 0 <= i < |leads| => if leads[i].id == id then ApplyPatch(leads[i], p) else leads[i])
  }

  /** `UPDATE leads SET engagement_score = engagement_score + delta WHERE id = id`. */
  function AddToEngagement(leads: seq<Lead>, id: Id, delta: int, now: int): (r: seq<Lead>)
    ensures |r| == |leads|
    ensures forall i :: 0 <= i < |leads| ==> r[i] == if leads[i].id == id
      then leads[i].(engagementScore := leads[i].engagementScore + delta, updatedAt := now)
      else leads[i]
  {
    seq(|leads|, i requires 0 <= i < |leads| =>
      if leads[i].id == id
      then leads[i].(engagementScore := leads[i].engagementScore + delta, updatedAt := now)
      else leads[i])
  }

  datatype Write =
    | InsertDeal(deal: Deal)
    | InsertActivity(activity: Activity)
    | InsertAudit(entry: AuditLog)
    | UpdateLead(leadId: Id, patch: LeadPatch)
    | AddEngagement(leadId: Id, delta: int, now: int)

  /** The checks Postgres makes before it accepts a write. */
  predicate Admissible(db: Db, w: Write) {
    match w
    case InsertDeal(d) =>
      && d.id !in DealIds(db.deals)
      && d.leadId in LeadIds(db.leads)
      && d.skuId in ProductIds(db.products)
      && Int4(d.amount)
    case InsertActivity(a) =>
      && a.leadId in LeadIds(db.leads)
      && (a.userId.Some? ==> a.userId.value in db.users)
    case InsertAudit(e) =>
      e.performedBy in db.users
    case UpdateLead(_, p) =>
      && (p.engagementScore.Some? ==> Int4(p.engagementScore.value))
      && (p.fitScore.Some? ==> Int4(p.fitScore.value))
      && (p.assignedTo.Some? && p.assignedTo.value.Some? ==> p.assignedTo.value.value in db.users)
    case AddEngagement(id, delta, _) =>
      forall l :: l in db.leads && l.id == id ==> Int4(l.engagementScore + delta)
  }

  /** One write: the new store, or None when the database rejects it. */
  function ApplyWrite(db: Db, w: Write): (r: Option<Db>)
    ensures r.Some? <==> Admissible(db, w)
  {
    if !Admissible(db, w) then None
    else match w
      case InsertDeal(d) => Some(db.(deals := db.deals + [d]))
      case InsertActivity(a) => Some(db.(activities := db.activities + [a]))
      case InsertAudit(e) => Some(db.(auditLogs := db.auditLogs + [e]))
      case UpdateLead(id, p) => Some(db.(leads := PatchLeads(db.leads, id, p)))
      case AddEngagement(id, delta, now) => Some(db.(leads := AddToEngagement(db.leads, id, delta, now)))
  }

  /** The writes in order; None as soon as one is rejected. */
  function ApplyAll(db: Db, ws: seq<Write>): Option<Db>
    decreases |ws|
  {
    if |ws| == 0 then Some(db)
    else match ApplyWrite(db, ws[0])
      case None => None
      case Some(db') => ApplyAll(db', ws[1..])
  }

  /** `db.transaction(...)`: commits every write, or, when one is rejected or
      the store fails for a reason outside the model (`fault`), leaves the
      store exactly as it was. */
  function Transaction(db: Db, ws: seq<Write>, fault: bool): (r: (bool, Db))
    ensures !r.0 ==> r.1 == db
    ensures r.0 ==> !fault && ApplyAll(db, ws) == Some(r.1)
    ensures !fault && ApplyAll(db, ws).Some? ==> r.0
  {
    if fault then (false, db)
    else match ApplyAll(db, ws)
      case None => (false, db)
      case Some(db') => (true, db')
  }

  // ---------------------------------------------------------------- invariants

  /** Patching lead rows never changes their ids. */
  lemma PatchKeepsLeadIds(leads: seq<Lead>, id: Id, p: LeadPatch)
    ensures LeadIds(PatchLeads(leads, id, p)) == LeadIds(leads)
    ensures UniqueLeadIds(leads) ==> UniqueLeadIds(PatchLeads(leads, id, p))
  {
    var r := PatchLeads(leads, id, p);
    forall x | x in LeadIds(r) ensures x in LeadIds(leads) {
      var i :| 0 <= i < |r| && r[i].id == x;
      assert leads[i] in leads;
    }
    forall x | x in LeadIds(leads) ensures x in LeadIds(r) {
      var i :| 0 <= i < |leads| && leads[i].id == x;
      assert r[i] in r;
    }
  }

  /** Adding to engagement scores never changes lead ids. */
  lemma AddKeepsLeadIds(leads: seq<Lead>, id: Id, delta: int, now: int)
    ensures LeadIds(AddToEngagement(leads, id, delta, now)) == LeadIds(leads)
    ensures UniqueLeadIds(leads) ==> UniqueLeadIds(AddToEngagement(leads, id, delta, now))
  {
    var r := AddToEngagement(leads, id, delta, now);
    forall x | x in LeadIds(r) ensures x in LeadIds(leads) {
      var i :| 0 <= i < |r| && r[i].id == x;
      assert leads[i] in leads;
    }
    forall x | x in LeadIds(leads) ensures x in LeadIds(r) {
      var i :| 0 <= i < |leads| && leads[i].id == x;
      assert r[i] in r;
    }
  }

  /** Every write the database accepts keeps the schema's constraints. */
  lemma ApplyWritePreservesValid(db: Db, w: Write)
    requires Valid(db)
    requires ApplyWrite(db, w).Some?
    ensures Valid(ApplyWrite(db, w).value)
  {
    match w
    case InsertDeal(d) => InsertDealPreservesValid(db, d);
    case InsertActivity(a) =>
    case InsertAudit(e) =>
    case UpdateLead(id, p) => UpdateLeadPreservesValid(db, id, p);
    case AddEngagement(id, delta, now) => AddEngagementPreservesValid(db, id, delta, now);
  }

  lemma InsertDealPreservesValid(db: Db, d: Deal)
    requires Valid(db)
    requires Admissible(db, InsertDeal(d))
    ensures Valid(db.(deals := db.deals + [d]))
  {
    var deals' := db.deals + [d];
    forall i, j | 0 <= i < j < |deals'| ensures deals'[i].id != deals'[j].id {
      if j == |db.deals| {
        assert db.deals[i] in db.deals;
      }
    }
  }

  lemma UpdateLeadPreservesValid(db: Db, id: Id, p: LeadPatch)
    requires Valid(db)
    requires Admissible(db, UpdateLead(id, p))
    ensures Valid(db.(leads := PatchLeads(db.leads, id, p)))
  {
    var leads' := PatchLeads(db.leads, id, p);
    PatchKeepsLeadIds(db.leads, id, p);
    forall l | l in leads'
      ensures Int4(l.engagementScore) && Int4(l.fitScore) && (l.assignedTo.Some? ==> l.assignedTo.value in db.users)
    {
      var i :| 0 <= i < |leads'| && leads'[i] == l;
      assert db.leads[i] in db.leads;
    }
  }

  lemma AddEngagementPreservesValid(db: Db, id: Id, delta: int, now: int)
    requires Valid(db)
    requires Admissible(db, AddEngagement(id, delta, now))
    ensures Valid(db.(leads := AddToEngagement(db.leads, id, delta, now)))
  {
    var leads' := AddToEngagement(db.leads, id, delta, now);
    AddKeepsLeadIds(db.leads, id, delta, now);
    forall l | l in leads'
      ensures Int4(l.engagementScore) && Int4(l.fitScore) && (l.assignedTo.Some? ==> l.assignedTo.value in db.users)
    {
      var i :| 0 <= i < |leads'| && leads'[i] == l;
      assert db.leads[i] in db.leads;
    }
  }

  /** A committed transaction keeps the schema's constraints; a rolled-back
      one trivially does. */
  lemma {:induction false} TransactionPreservesValid(db: Db, ws: seq<Write>, fault: bool)
    requires Valid(db)
    ensures Valid(Transaction(db, ws, fault).1)
    decreases |ws|
  {
    if !fault && |ws| > 0 && ApplyWrite(db, ws[0]).Some? {
      var db1 := ApplyWrite(db, ws[0]).value;
      ApplyWritePreservesValid(db, ws[0]);
      TransactionPreservesValid(db1, ws[1..], false);
    }
  }
}
