/** `POST /api/v1/deals`: validate the request, resolve product and lead in
    the caller's brands, compute the EMI schedule, and record the deal, the
    lead's move to Won and the audit entry in one transaction. */
module Deals {

  import opened Wrappers
  import opened Schema
  import opened Store
  import opened Auth
  import NumText

  // ---------------------------------------------------------------- EMI schedule

  /** Days between consecutive installments. */
  const InstallmentSpacing: int := 30

  /** The sum of the installment amounts. */
  function Total(s: seq<Installment>): int {
    if |s| == 0 then 0 else Total(s[..|s| - 1]) + s[|s| - 1].amount
  }

  /** Installment `i` of `months` for `total`, starting from day `today`:
      `floor(total / months)`, except that the last one takes what the
      earlier ones leave of `total`. */
  function Slot(total: int, months: int, today: int, i: int): Installment
    requires months > 0
  {
    var base := total / months;
    Installment(today + InstallmentSpacing * (i + 1),
                if i == months - 1 then total - (months - 1) * base else base,
                Pending)
  }

  /** `calculateEmiSchedule(total, months)` as a value. A count below one
      runs `calculateEmiSchedule`'s loop zero times. */
  function EmiSchedule(total: int, months: int, today: int): (s: seq<Installment>)
    ensures |s| == if months > 0 then months else 0
  {
    if months <= 0 then [] else seq(months, i requires 0 <= i < months => Slot(total, months, today, i))
  }

  /** Installments of `base` each sum to `k * base`. */
  lemma {:induction false} TotalOfEqualSlots(s: seq<Installment>, base: int, k: nat)
    requires k <= |s|
    requires forall i :: 0 <= i < k ==> s[i].amount == base
    ensures Total(s[..k]) == k * base
    decreases k
  {
    if k > 0 {
      TotalOfEqualSlots(s, base, k - 1);
      assert s[..k][..k - 1] == s[..k - 1];
    }
  }

  /** The schedule has `months` entries, all but the last are
      `floor(total / months)`, the entries sum to exactly `total`, every entry
      is pending, and due dates are 30, 60, 90, ... days out, strictly
      increasing. */
  lemma EmiScheduleProperties(total: int, months: int, today: int)
    requires months >= 1
    ensures var s := EmiSchedule(total, months, today);
      && |s| == months
      && (forall i :: 0 <= i < months - 1 ==> s[i].amount == total / months)
      && s[months - 1].amount == total - Total(s[..months - 1])
      && Total(s) == total
      && (forall i :: 0 <= i < months ==> s[i].status == Pending)
      && (forall i :: 0 <= i < months ==> s[i].dueDate == today + 30 * (i + 1))
      && (forall i, j :: 0 <= i < j < months ==> s[i].dueDate < s[j].dueDate)
  {
    var s := EmiSchedule(total, months, today);
    var base := total / months;
    TotalOfEqualSlots(s, base, months - 1);
    assert s[..months] == s;
    assert Total(s) == Total(s[..months - 1]) + s[months - 1].amount;
  }

  /** `calculateEmiSchedule`'s loop: a running sum of the installments pushed so far, and
      the last installment set to `totalAmount - currentSum`. */
  method CalculateEmiSchedule(totalAmount: int, months: int, today: int) returns (schedule: seq<Installment>)
    ensures schedule == EmiSchedule(totalAmount, months, today)
    ensures months >= 1 ==> |schedule| == months && Total(schedule) == totalAmount
    ensures months >= 1 ==> forall i :: 0 <= i < months - 1 ==> schedule[i].amount == totalAmount / months
  {
    schedule := [];
    if months <= 0 {
      return;
    }
    var baseInstallment := totalAmount / months;
    var currentSum := 0;
    var i := 0;
    while i < months
      invariant 0 <= i <= months
      invariant |schedule| == i
      invariant forall k :: 0 <= k < i ==> schedule[k] == Slot(totalAmount, months, today, k)
      invariant currentSum == (if i < months then i else months - 1) * baseInstallment
    {
      var amount := baseInstallment;
      if i == months - 1 {
        amount := totalAmount - currentSum;
      } else {
        currentSum := currentSum + amount;
      }
      schedule := schedule + [Installment(today + InstallmentSpacing * (i + 1), amount, Pending)];
      i := i + 1;
    }
    EmiScheduleProperties(totalAmount, months, today);
  }

  /** The two worked examples: 150000 over 3 months splits evenly; 100000 over
      3 months puts the remainder on the last installment. */
  lemma EmiScheduleExamples(today: int)
    ensures var s := EmiSchedule(150000, 3, today);
      s == [Installment(today + 30, 50000, Pending), Installment(today + 60, 50000, Pending),
            Installment(today + 90, 50000, Pending)]
    ensures var s := EmiSchedule(100000, 3, today);
      s == [Installment(today + 30, 33333, Pending), Installment(today + 60, 33333, Pending),
            Installment(today + 90, 33334, Pending)]
  {
  }

  // ---------------------------------------------------------------- request

  /** The `emi_months` field as it may arrive: absent (or null), text, or a
      JSON integer. A boolean, array, object or fractional number reaches
      `parseInt` through its string form, so it is represented by
      `MonthsText` of that text: `[12]` as `MonthsText("12")` (12), `2.5` as
      `MonthsText("2.5")` (2), `true` as `MonthsText("true")` (NaN, so 3). */
  datatype EmiMonths = MonthsAbsent | MonthsText(text: string) | MonthsNumber(n: int)

  /** `parseInt(emi_months)`, None for `NaN`. */
  function ParsedMonths(m: EmiMonths): Option<int> {
    match m
    case MonthsAbsent => None
    case MonthsText(t) => NumText.ParseInt(t)
    case MonthsNumber(n) => NumText.ParseInt(NumText.DecimalString(n))
  }

  /** `parseInt(emi_months) || 3`: `NaN` and `0` both become 3. */
  function EffectiveMonths(m: EmiMonths): int {
    match ParsedMonths(m)
    case None => 3
    case Some(n) => if n == 0 then 3 else n
  }

  /** An absent, unparsable or zero month count silently becomes 3; a JSON
      integer is taken as it is; text is read as far as its digits go. */
  lemma EffectiveMonthsCases(n: int)
    ensures EffectiveMonths(MonthsAbsent) == 3
    ensures EffectiveMonths(MonthsNumber(n)) == if n == 0 then 3 else n
    ensures EffectiveMonths(MonthsText("abc")) == 3
    ensures EffectiveMonths(MonthsText("12abc")) == 12
  {
    assert ParsedMonths(MonthsNumber(n)) == Some(n) by {
      NumText.ParseIntDecimalRoundTrip(n);
    }
    assert ParsedMonths(MonthsText("abc")) == None by {
      NumText.ParseIntNaN();
    }
    assert ParsedMonths(MonthsText("12abc")) == Some(12) by {
      NumText.ParseIntStopsAtNonDigit();
    }
  }

  datatype DealRequest = DealRequest(
    leadId: Option<string>,
    skuId: Option<string>,
    paymentModel: Option<string>,
    emiMonths: EmiMonths)

  /** The request body as `c.req.json()` leaves it: not JSON at all, the
      JSON literal `null` (whose destructuring throws), or anything else. A
      body that is JSON but not an object (a number, a string, `true`) has
      none of the fields, so it arrives as a request with every field
      absent. */
  datatype DealBody = NotJson | JsonNull | Parsed(req: DealRequest)

  datatype DealReply =
    | InvalidJson
    | Uncaught
    | MissingFields
    | ProductNotFound
    | LeadNotFound
    | TooFewMonths
    | DealFailed
    | DealCreated(deal: Deal)
  {
    function Status(): int {
      match this
      case InvalidJson => 400
      case Uncaught => 500
      case MissingFields => 400
      case ProductNotFound => 404
      case LeadNotFound => 404
      case TooFewMonths => 400
      case DealFailed => 500
      case DealCreated(_) => 200
    }
  }

  const EmiModel: string := "EMI"

  /** The schedule stored with a deal: one for the EMI model, SQL null for
      every other model. */
  function ScheduleFor(paymentModel: string, amount: int, months: int, today: int): Option<seq<Installment>> {
    if paymentModel == EmiModel then Some(EmiSchedule(amount, months, today)) else None
  }

  /** The three writes of the deal transaction, in the handler's order. */
  function DealWrites(deal: Deal, paymentModel: string, user: UserPayload, now: int): seq<Write> {
    [ InsertDeal(deal),
      UpdateLead(deal.leadId, StagePatch(Won, now)),
      InsertAudit(AuditLog("deals", deal.id, Create,
                           DealInputs(deal.leadId, deal.skuId, paymentModel, deal.amount, Won),
                           user.id, now)) ]
  }

  /** The outcome of validation and lookup: an early reply, or the deal to
      insert. */
  datatype DealPlan = Rejected(reply: DealReply) | Planned(deal: Deal, paymentModel: string)

  /** Everything the handler does before its transaction: field checks, the
      brand-scoped product and lead lookups, and the price and schedule. */
  function PlanDeal(db: Db, user: UserPayload, req: DealRequest, dealId: Id, now: int): (p: DealPlan)
    ensures p.Rejected? ==>
      !p.reply.DealCreated? && !p.reply.DealFailed? && !p.reply.InvalidJson? && !p.reply.Uncaught?
    ensures p.Planned? ==>
      && Filled(req.leadId) && Filled(req.skuId) && Filled(req.paymentModel)
      && FindProduct(db, req.skuId.value, user.brandIds).Some?
      && FindLead(db, req.leadId.value, user.brandIds).Some?
      && p.paymentModel == req.paymentModel.value
      && p.deal == NewDeal(dealId, req.leadId.value, req.skuId.value,
                           FindProduct(db, req.skuId.value, user.brandIds).value.basePrice,
                           ScheduleFor(req.paymentModel.value,
                                       FindProduct(db, req.skuId.value, user.brandIds).value.basePrice,
                                       EffectiveMonths(req.emiMonths), now),
                           now)
      && (p.paymentModel == EmiModel ==> EffectiveMonths(req.emiMonths) >= 2)
  {
    if !Filled(req.leadId) || !Filled(req.skuId) || !Filled(req.paymentModel) then Rejected(MissingFields)
    else match FindProduct(db, req.skuId.value, user.brandIds)
      case None => Rejected(ProductNotFound)
      case Some(product) =>
        match FindLead(db, req.leadId.value, user.brandIds)
        case None => Rejected(LeadNotFound)
        case Some(lead) =>
          var amount := product.basePrice;
          var months := EffectiveMonths(req.emiMonths);
          if req.paymentModel.value == EmiModel && months < 2 then Rejected(TooFewMonths)
          else
            Planned(NewDeal(dealId, req.leadId.value, req.skuId.value, amount,
                            ScheduleFor(req.paymentModel.value, amount, months, now), now),
                    req.paymentModel.value)
  }

  /** The request handler. `dealId` is the id the database generates, `now`
      the current day, and `fault` a persistence failure the model does not
      explain. A null body throws outside the handler's `try`, which the
      framework turns into a 500. */
  function CreateDeal(db: Db, user: UserPayload, body: DealBody, dealId: Id, now: int, fault: bool)
    : (r: Step<DealReply>)
    ensures !r.reply.DealCreated? ==> r.db == db
    ensures body.NotJson? ==> r.reply == InvalidJson
    ensures body.JsonNull? ==> r.reply == Uncaught
    ensures r.reply.DealCreated? ==>
      && body.Parsed? && Filled(body.req.paymentModel)
      && PlanDeal(db, user, body.req, dealId, now) == Planned(r.reply.deal, body.req.paymentModel.value)
      && ApplyAll(db, DealWrites(r.reply.deal, body.req.paymentModel.value, user, now)) == Some(r.db)
    ensures body.Parsed? && PlanDeal(db, user, body.req, dealId, now).Rejected? ==>
      r.reply == PlanDeal(db, user, body.req, dealId, now).reply
    ensures
      (&& body.Parsed? && !fault
       && PlanDeal(db, user, body.req, dealId, now).Planned?
       && ApplyAll(db, DealWrites(PlanDeal(db, user, body.req, dealId, now).deal,
                                  PlanDeal(db, user, body.req, dealId, now).paymentModel, user, now)).Some?)
      ==> r.reply.DealCreated?
  {
    match body
    case NotJson => Step(InvalidJson, db)
    case JsonNull => Step(Uncaught, db)
    case Parsed(req) =>
      match PlanDeal(db, user, req, dealId, now)
      case Rejected(reply) => Step(reply, db)
      case Planned(deal, paymentModel) =>
        var (ok, db') := Transaction(db, DealWrites(deal, paymentModel, user, now), fault);
        if ok then Step(DealCreated(deal), db') else Step(DealFailed, db)
  }

  // ---------------------------------------------------------------- properties

  /** A request without `lead_id`, `sku_id` or `payment_model` is a 400 before
      any lookup, and nothing is written. */
  lemma MissingFieldRejected(db: Db, user: UserPayload, req: DealRequest, dealId: Id, now: int, fault: bool)
    requires !Filled(req.leadId) || !Filled(req.skuId) || !Filled(req.paymentModel)
    ensures CreateDeal(db, user, Parsed(req), dealId, now, fault) == Step(MissingFields, db)
    ensures MissingFields.Status() == 400
  {
  }

  /** A product outside the caller's brands, or absent, is a 404 and nothing
      is written. Admins are not exempt: only `brandIds` counts. */
  lemma ProductOutOfScopeNotFound(db: Db, user: UserPayload, req: DealRequest, dealId: Id, now: int, fault: bool)
    requires Filled(req.leadId) && Filled(req.skuId) && Filled(req.paymentModel)
    requires forall p :: p in db.products && p.id == req.skuId.value ==> p.brandId !in user.brandIds
    ensures CreateDeal(db, user, Parsed(req), dealId, now, fault) == Step(ProductNotFound, db)
  {
  }

  /** With the product in scope, a lead outside the caller's brands, or
      absent, is a 404 and nothing is written. */
  lemma LeadOutOfScopeNotFound(db: Db, user: UserPayload, req: DealRequest, dealId: Id, now: int, fault: bool)
    requires Filled(req.leadId) && Filled(req.skuId) && Filled(req.paymentModel)
    requires FindProduct(db, req.skuId.value, user.brandIds).Some?
    requires forall l :: l in db.leads && l.id == req.leadId.value ==> l.brandId !in user.brandIds
    ensures CreateDeal(db, user, Parsed(req), dealId, now, fault) == Step(LeadNotFound, db)
  {
  }

  /** For the EMI model, a month count below 2 after the `|| 3` default is a
      400 before anything is written. */
  lemma EmiMonthsBelowTwoRejected(db: Db, user: UserPayload, req: DealRequest, dealId: Id, now: int, fault: bool)
    requires Filled(req.leadId) && Filled(req.skuId) && req.paymentModel == Some(EmiModel)
    requires FindProduct(db, req.skuId.value, user.brandIds).Some?
    requires FindLead(db, req.leadId.value, user.brandIds).Some?
    requires EffectiveMonths(req.emiMonths) < 2
    ensures CreateDeal(db, user, Parsed(req), dealId, now, fault) == Step(TooFewMonths, db)
  {
  }

  /** The three writes of a deal commit together: the store after them holds
      exactly one more deal, the lead rows with the deal's lead id moved to
      Won, and exactly one more audit entry. */
  lemma DealWritesEffect(db: Db, deal: Deal, paymentModel: string, user: UserPayload, now: int)
    requires ApplyAll(db, DealWrites(deal, paymentModel, user, now)).Some?
    ensures var db' := ApplyAll(db, DealWrites(deal, paymentModel, user, now)).value;
      && db'.deals == db.deals + [deal]
      && db'.leads == PatchLeads(db.leads, deal.leadId, StagePatch(Won, now))
      && db'.auditLogs == db.auditLogs + [AuditLog("deals", deal.id, Create,
           DealInputs(deal.leadId, deal.skuId, paymentModel, deal.amount, Won), user.id, now)]
      && db'.activities == db.activities && db'.products == db.products && db'.users == db.users
  {
    var ws := DealWrites(deal, paymentModel, user, now);
    assert ApplyWrite(db, ws[0]).Some?;
    var db1 := db.(deals := db.deals + [deal]);
    assert ApplyAll(db, ws) == ApplyAll(db1, ws[1..]);
    assert ApplyWrite(db1, ws[1]).Some?;
    var db2 := db1.(leads := PatchLeads(db.leads, deal.leadId, StagePatch(Won, now)));
    assert ws[1..][1..] == [ws[2]];
    assert ApplyAll(db1, ws[1..]) == ApplyAll(db2, [ws[2]]);
    assert ApplyAll(db2, [ws[2]]) == ApplyWrite(db2, ws[2]);
  }

  /** A created deal: the product and lead were both found in the caller's
      brands; the deal is open, priced at the product's base price, and
      refers to that lead and product; the store gained exactly that deal,
      the lead is Won, and one CREATE audit entry records the inputs. */
  lemma CreatedDealEffect(db: Db, user: UserPayload, req: DealRequest, dealId: Id, now: int, fault: bool)
    requires CreateDeal(db, user, Parsed(req), dealId, now, fault).reply.DealCreated?
    ensures Filled(req.leadId) && Filled(req.skuId) && Filled(req.paymentModel)
    ensures var r := CreateDeal(db, user, Parsed(req), dealId, now, fault);
      var product := FindProduct(db, req.skuId.value, user.brandIds);
      var lead := FindLead(db, req.leadId.value, user.brandIds);
      && product.Some? && lead.Some?
      && r.reply.deal.status == DealOpen
      && r.reply.deal.id == dealId
      && r.reply.deal.amount == product.value.basePrice
      && r.reply.deal.leadId == lead.value.id
      && r.reply.deal.skuId == product.value.id
      && r.db.deals == db.deals + [r.reply.deal]
      && |r.db.leads| == |db.leads|
      && (forall i :: 0 <= i < |db.leads| ==>
            r.db.leads[i] == if db.leads[i].id == lead.value.id
                             then db.leads[i].(stage := Won, updatedAt := now) else db.leads[i])
      && r.db.auditLogs == db.auditLogs + [AuditLog("deals", dealId, Create,
           DealInputs(req.leadId.value, req.skuId.value, req.paymentModel.value, r.reply.deal.amount, Won),
           user.id, now)]
      && r.db.activities == db.activities && r.db.products == db.products
  {
    var r := CreateDeal(db, user, Parsed(req), dealId, now, fault);
    var deal := r.reply.deal;
    assert PlanDeal(db, user, req, dealId, now) == Planned(deal, req.paymentModel.value);
    DealWritesEffect(db, deal, req.paymentModel.value, user, now);
  }

  /** The schedule stored with a created deal: for the EMI model, at least
      two pending installments, 30 days apart, summing to exactly the deal
      amount; for any other model, none. */
  lemma CreatedDealSchedule(db: Db, user: UserPayload, req: DealRequest, dealId: Id, now: int, fault: bool)
    requires CreateDeal(db, user, Parsed(req), dealId, now, fault).reply.DealCreated?
    ensures var deal := CreateDeal(db, user, Parsed(req), dealId, now, fault).reply.deal;
      && Filled(req.paymentModel)
      && (req.paymentModel.value != EmiModel ==> deal.emiSchedule.None?)
      && (req.paymentModel.value == EmiModel ==>
            && deal.emiSchedule.Some?
            && |deal.emiSchedule.value| >= 2
            && Total(deal.emiSchedule.value) == deal.amount
            && (forall i :: 0 <= i < |deal.emiSchedule.value| ==>
                  deal.emiSchedule.value[i].status == Pending
                  && deal.emiSchedule.value[i].dueDate == now + 30 * (i + 1)))
  {
    var deal := CreateDeal(db, user, Parsed(req), dealId, now, fault).reply.deal;
    assert PlanDeal(db, user, req, dealId, now) == Planned(deal, req.paymentModel.value);
    if req.paymentModel.value == EmiModel {
      EmiScheduleProperties(deal.amount, EffectiveMonths(req.emiMonths), now);
    }
  }

  /** The deal writes cannot commit for an actor missing from the users
      table: the audit entry's foreign key fails after the deal and the
      stage change were applied, and the whole list is rejected. */
  lemma DealWritesNeedActor(db: Db, deal: Deal, paymentModel: string, user: UserPayload, now: int)
    requires user.id !in db.users
    ensures ApplyAll(db, DealWrites(deal, paymentModel, user, now)).None?
  {
    var ws := DealWrites(deal, paymentModel, user, now);
    if ApplyWrite(db, ws[0]).Some? {
      var db1 := ApplyWrite(db, ws[0]).value;
      assert ApplyAll(db, ws) == ApplyAll(db1, ws[1..]);
      var db2 := ApplyWrite(db1, ws[1]).value;
      assert ws[1..][1..] == [ws[2]];
      assert ApplyAll(db1, ws[1..]) == ApplyAll(db2, [ws[2]]);
      assert db2.users == db.users;
      assert ApplyWrite(db2, ws[2]).None?;
    }
  }

  /** The writes of a deal are all accepted when its id is new, its lead and
      product exist, its amount fits the column, and the acting user exists:
      the stage change sets no score or assignee. */
  lemma DealWritesAdmitted(db: Db, deal: Deal, paymentModel: string, user: UserPayload, now: int)
    requires deal.id !in DealIds(db.deals)
    requires deal.leadId in LeadIds(db.leads) && deal.skuId in ProductIds(db.products)
    requires Int4(deal.amount)
    requires user.id in db.users
    ensures ApplyAll(db, DealWrites(deal, paymentModel, user, now)).Some?
  {
    var ws := DealWrites(deal, paymentModel, user, now);
    var db1 := ApplyWrite(db, ws[0]).value;
    var db2 := ApplyWrite(db1, ws[1]).value;
    assert Admissible(db2, ws[2]);
    assert ws[1..][1..] == [ws[2]];
    assert ApplyAll(db, ws) == ApplyAll(db1, ws[1..]);
    assert ApplyAll(db1, ws[1..]) == ApplyAll(db2, [ws[2]]);
  }

  /** Validation passes exactly when the three fields are filled, product
      and lead are found in the caller's brands, and an EMI request has at
      least two months. */
  lemma PlanAccepts(db: Db, user: UserPayload, req: DealRequest, dealId: Id, now: int)
    ensures PlanDeal(db, user, req, dealId, now).Planned? <==>
      && Filled(req.leadId) && Filled(req.skuId) && Filled(req.paymentModel)
      && FindProduct(db, req.skuId.value, user.brandIds).Some?
      && FindLead(db, req.leadId.value, user.brandIds).Some?
      && (req.paymentModel.value == EmiModel ==> EffectiveMonths(req.emiMonths) >= 2)
  {
  }

  /** On a store that keeps the schema's constraints, a planned deal carries
      the generated id, refers to a stored lead and product, and its price
      fits the amount column. */
  lemma PlannedDealFits(db: Db, user: UserPayload, req: DealRequest, dealId: Id, now: int)
    requires Valid(db)
    requires PlanDeal(db, user, req, dealId, now).Planned?
    ensures var d := PlanDeal(db, user, req, dealId, now).deal;
      && d.id == dealId
      && d.leadId in LeadIds(db.leads) && d.skuId in ProductIds(db.products)
      && Int4(d.amount)
  {
    var product := FindProduct(db, req.skuId.value, user.brandIds).value;
    var lead := FindLead(db, req.leadId.value, user.brandIds).value;
    assert product in db.products && lead in db.leads;
  }

  /** A well-formed request for a product and lead in the caller's brands,
      with an acceptable month count, from a user who exists, against a
      store that keeps its constraints, creates the deal unless the store
      fails outright. */
  lemma ValidRequestCreatesDeal(db: Db, user: UserPayload, req: DealRequest, dealId: Id, now: int)
    requires Valid(db)
    requires Filled(req.leadId) && Filled(req.skuId) && Filled(req.paymentModel)
    requires FindProduct(db, req.skuId.value, user.brandIds).Some?
    requires FindLead(db, req.leadId.value, user.brandIds).Some?
    requires req.paymentModel.value == EmiModel ==> EffectiveMonths(req.emiMonths) >= 2
    requires dealId !in DealIds(db.deals)
    requires user.id in db.users
    ensures CreateDeal(db, user, Parsed(req), dealId, now, false).reply.DealCreated?
  {
    PlanAccepts(db, user, req, dealId, now);
    var p := PlanDeal(db, user, req, dealId, now);
    PlannedDealFits(db, user, req, dealId, now);
    DealWritesAdmitted(db, p.deal, p.paymentModel, user, now);
    AdmittedPlanCreates(db, user, req, dealId, now);
  }

  /** A planned deal whose writes the store accepts is created. */
  lemma AdmittedPlanCreates(db: Db, user: UserPayload, req: DealRequest, dealId: Id, now: int)
    requires PlanDeal(db, user, req, dealId, now).Planned?
    requires var p := PlanDeal(db, user, req, dealId, now);
      ApplyAll(db, DealWrites(p.deal, p.paymentModel, user, now)).Some?
    ensures CreateDeal(db, user, Parsed(req), dealId, now, false).reply.DealCreated?
  {
  }

  /** All or nothing: if the audit entry cannot be written (the acting user
      is not in the users table) or the store fails, no deal, no stage change
      and no audit entry persist. */
  lemma DealAllOrNothing(db: Db, user: UserPayload, req: DealRequest, dealId: Id, now: int, fault: bool)
    requires fault || user.id !in db.users
    ensures CreateDeal(db, user, Parsed(req), dealId, now, fault).db == db
    ensures !CreateDeal(db, user, Parsed(req), dealId, now, fault).reply.DealCreated?
  {
    match PlanDeal(db, user, req, dealId, now)
    case Rejected(_) =>
    case Planned(deal, paymentModel) =>
      if !fault {
        DealWritesNeedActor(db, deal, paymentModel, user, now);
      }
  }

  /** Deal creation keeps the schema's constraints. */
  lemma CreateDealPreservesValid(db: Db, user: UserPayload, body: DealBody, dealId: Id, now: int, fault: bool)
    requires Valid(db)
    ensures Valid(CreateDeal(db, user, body, dealId, now, fault).db)
  {
    var r := CreateDeal(db, user, body, dealId, now, fault);
    if r.reply.DealCreated? {
      var req := body.req;
      TransactionPreservesValid(db, DealWrites(r.reply.deal, req.paymentModel.value, user, now), false);
    }
  }
}
