/** The relational schema: the enums, the five tables the core touches and
    their column defaults. Timestamps and dates are whole days. */
module Schema {

  import opened Wrappers
  import opened Json

  /** A row id (a uuid in the database) and a brand code such as "LB". */
  type Id = string
  type BrandId = string

  /** The range of a Postgres `integer` column. */
  const Int4Min: int := -0x8000_0000
  const Int4Max: int := 0x7FFF_FFFF

  predicate Int4(n: int) {
    Int4Min <= n <= Int4Max
  }

  // ---------------------------------------------------------------- enums

  datatype Role = Agent | Manager | Admin

  /** `users.role` defaults to Agent. */
  const DefaultRole: Role := Agent

  /** The qualification funnel, in its declared order. */
  datatype Stage = Raw | IQL | MQL | SAL | SQL | Won | Lost

  const AllStages: seq<Stage> := [Raw, IQL, MQL, SAL, SQL, Won, Lost]

  /** The enum label Postgres stores for a stage. */
  function StageLabel(s: Stage): string {
    match s
    case Raw => "Raw"
    case IQL => "IQL"
    case MQL => "MQL"
    case SAL => "SAL"
    case SQL => "SQL"
    case Won => "Won"
    case Lost => "Lost"
  }

  /** Postgres's cast of text to `qualification_stage`: only the seven labels
      are accepted, exactly as spelled. */
  function ParseStage(t: string): (r: Option<Stage>)
    ensures r.Some? ==> StageLabel(r.value) == t
  {
    if t == "Raw" then Some(Raw)
    else if t == "IQL" then Some(IQL)
    else if t == "MQL" then Some(MQL)
    else if t == "SAL" then Some(SAL)
    else if t == "SQL" then Some(SQL)
    else if t == "Won" then Some(Won)
    else if t == "Lost" then Some(Lost)
    else None
  }

  /** The stage enum has exactly seven members, each with its own label, and a
      label is accepted back as exactly its stage. */
  lemma StageLabelsRoundTrip()
    ensures |AllStages| == 7
    ensures forall s: Stage :: s in AllStages
    ensures forall i, j :: 0 <= i < j < |AllStages| ==> StageLabel(AllStages[i]) != StageLabel(AllStages[j])
    ensures forall s: Stage :: ParseStage(StageLabel(s)) == Some(s)
    ensures forall t: string :: ParseStage(t).Some? <==> t in ["Raw", "IQL", "MQL", "SAL", "SQL", "Won", "Lost"]
  {
    forall s: Stage ensures s in AllStages {
      match s
      case Raw => assert AllStages[0] == s;
      case IQL => assert AllStages[1] == s;
      case MQL => assert AllStages[2] == s;
      case SAL => assert AllStages[3] == s;
      case SQL => assert AllStages[4] == s;
      case Won => assert AllStages[5] == s;
      case Lost => assert AllStages[6] == s;
    }
  }

  datatype ActivityType = Note | Email | Sms | System

  datatype ProductStatus = Active | Draft | Archived

  /** `products.status` defaults to active. */
  const DefaultProductStatus: ProductStatus := Active

  datatype DealStatus = DealOpen | DealWon | DealLost

  // ---------------------------------------------------------------- rows

  datatype Product = Product(
    id: Id,
    brandId: BrandId,
    skuCode: string,
    name: string,
    basePrice: int,          // minor currency units
    status: ProductStatus)

  datatype Lead = Lead(
    id: Id,
    brandId: BrandId,
    name: string,
    mobile: string,
    email: Option<string>,
    stage: Stage,
    engagementScore: int,
    fitScore: int,
    assignedTo: Option<Id>,
    createdAt: int,
    updatedAt: int)

  datatype InstallmentStatus = Pending

  /** One entry of a deal's `emi_schedule`. */
  datatype Installment = Installment(dueDate: int, amount: int, status: InstallmentStatus)

  datatype Deal = Deal(
    id: Id,
    leadId: Id,
    skuId: Id,
    amount: int,
    emiSchedule: Option<seq<Installment>>,   // None is SQL null
    status: DealStatus,
    createdAt: int)

  /** The JSON document in an activity's `content_rich`: either the event
      record written by the ingest endpoint or free text. */
  datatype ActivityContent =
    | EventRecord(title: string, scoreChange: string, clientEventId: Option<Json>, metadata: Json)
    | Text(text: string)

  datatype Activity = Activity(
    leadId: Id,
    userId: Option<Id>,       // None for a system-generated entry
    kind: ActivityType,
    content: ActivityContent,
    createdAt: int)

  datatype AuditAction = Create | Update | Delete

  /** One field of an update diff, stored as `{old, new}`. */
  datatype Change = Change(before: Json, after: Json)

  /** The `changes` column: a flat description of a created deal, or a
      field-by-field diff of an update. */
  datatype AuditChanges =
    | DealInputs(leadId: Id, skuId: Id, paymentModel: string, amount: int, leadStageUpdate: Stage)
    | FieldDiff(diff: map<string, Change>)

  datatype AuditLog = AuditLog(
    tableName: string,
    recordId: Id,
    action: AuditAction,
    changes: AuditChanges,
    performedBy: Id,
    createdAt: int)

  /** The whole store: the ids of the users table and the other tables' rows
      in storage order. */
  datatype Db = Db(
    users: set<Id>,
    products: seq<Product>,
    leads: seq<Lead>,
    deals: seq<Deal>,
    activities: seq<Activity>,
    auditLogs: seq<AuditLog>)

  // ---------------------------------------------------------------- defaults

  /** A lead row inserted with only its required columns: stage Raw, both
      scores 0, no assignee, created and updated now. */
  function NewLead(id: Id, brandId: BrandId, name: string, mobile: string, email: Option<string>, now: int): (l: Lead)
    ensures l.stage == Raw && l.engagementScore == 0 && l.fitScore == 0
    ensures l.assignedTo.None?
    ensures l.id == id && l.brandId == brandId && l.name == name && l.mobile == mobile && l.email == email
    ensures l.createdAt == now && l.updatedAt == now
  {
    Lead(id, brandId, name, mobile, email, Raw, 0, 0, None, now, now)
  }

  /** A deal row inserted without a status: status open, created now. */
  function NewDeal(id: Id, leadId: Id, skuId: Id, amount: int, schedule: Option<seq<Installment>>, now: int): (d: Deal)
    ensures d.status == DealOpen
    ensures d.id == id && d.leadId == leadId && d.skuId == skuId
    ensures d.amount == amount && d.emiSchedule == schedule && d.createdAt == now
  {
    Deal(id, leadId, skuId, amount, schedule, DealOpen, now)
  }
}
