/** `POST /api/v1/ingest/events`: the machine-to-machine endpoint that
    records a marketing event against the lead with the given email, as a
    system activity, and raises the lead's engagement score by the event's
    weight, both in one transaction. It sits behind a shared API key instead
    of the session gate. */
module Ingest {

  import opened Wrappers
  import opened Json
  import opened Schema
  import opened Store
  import opened Seqs
  import NumText

  // ---------------------------------------------------------------- API key

  /** What `${apiKey}` renders as inside a template string: the key, or the
      text `undefined` when the key is not configured. */
  function KeyText(apiKey: Option<string>): string {
    if apiKey.Some? then apiKey.value else "undefined"
  }

  /** The one `Authorization` header the endpoint accepts. */
  function ExpectedHeader(apiKey: Option<string>): string {
    "Bearer " + KeyText(apiKey)
  }

  /** `authHeader && authHeader === \`Bearer ${apiKey}\``. */
  predicate KeyAccepted(header: Option<string>, apiKey: Option<string>) {
    header.Some? && header.value != "" && header.value == ExpectedHeader(apiKey)
  }

  /** A header is accepted exactly when it equals `Bearer <key>`; in
      particular, when no key is configured, `Bearer undefined` is accepted
      and the endpoint is open to anyone who sends that text. */
  lemma KeyAcceptedIsExactMatch(header: Option<string>, apiKey: Option<string>)
    ensures KeyAccepted(header, apiKey) <==> header == Some(ExpectedHeader(apiKey))
    ensures KeyAccepted(header, apiKey) ==> "Bearer " <= header.value
    ensures apiKey.None? ==> (KeyAccepted(header, apiKey) <==> header == Some("Bearer undefined"))
  {
    assert ExpectedHeader(None) == "Bearer undefined";
    if header == Some(ExpectedHeader(apiKey)) {
      assert |header.value| >= 7;
    }
    if KeyAccepted(header, apiKey) {
      assert header.value[..7] == "Bearer ";
    }
  }

  // ---------------------------------------------------------------- events

  /** The engagement points an event type is worth. */
  function ScoreDelta(eventType: string): (d: nat)
    ensures d == 15 || d == 5 || d == 1 || d == 0
  {
    match eventType
    case "course_completed" => 15
    case "cart_abandoned" => 5
    case "email_opened" => 1
    case _ => 0
  }

  /** Each of the three known event types has its own positive weight and
      every other type is worth nothing. */
  lemma ScoreDeltaTable(eventType: string)
    ensures ScoreDelta(eventType) > 0 <==>
      eventType in {"course_completed", "cart_abandoned", "email_opened"}
    ensures ScoreDelta("course_completed") == 15
    ensures ScoreDelta("cart_abandoned") == 5
    ensures ScoreDelta("email_opened") == 1
  {
  }

  /** `${x}` for a JSON value: strings as they are, numbers in decimal,
      booleans and null by name, arrays as their items joined with commas
      (a null item as nothing), objects as `[object Object]`. */
  function TemplateText(j: Json): string
    decreases j, 1, 0
  {
    match j
    case JNull => "null"
    case JBool(b) => if b then "true" else "false"
    case JNum(n) => NumText.DecimalString(n)
    case JStr(s) => s
    case JArr(items) => JoinFrom(j, 0)
    case JObj(_) => "[object Object]"
  }

  /** The items of the array `arr` from index `i` on, as `join(",")` renders
      them. */
  function JoinFrom(arr: Json, i: nat): string
    requires arr.JArr?
    decreases arr, 0, |arr.items| - i
  {
    if i >= |arr.items| then ""
    else
      var item := arr.items[i];
      var text := if item.JNull? then "" else TemplateText(item);
      if i + 1 == |arr.items| then text else text + "," + JoinFrom(arr, i + 1)
  }

  /** The points the `switch (event_type)` awards: a string is looked up in
      the table; any other value matches none of the string cases. */
  function EventDelta(eventType: Json): nat {
    if eventType.JStr? then ScoreDelta(eventType.s) else 0
  }

  /** Only the three known event names, sent as strings, move the score;
      an array or number that renders as one of them does not. */
  lemma EventDeltaTable(eventType: Json)
    ensures EventDelta(eventType) > 0 <==>
      eventType in {JStr("course_completed"), JStr("cart_abandoned"), JStr("email_opened")}
    ensures EventDelta(JArr([JStr("course_completed")])) == 0
    ensures TemplateText(JArr([JStr("course_completed")])) == "course_completed"
  {
    var a := JArr([JStr("course_completed")]);
    assert JoinFrom(a, 0) == "course_completed";
  }

  /** A numeric event type is logged under its decimal text and is worth
      nothing. */
  lemma NumericEventType(n: int)
    ensures TemplateText(JNum(n)) == NumText.DecimalString(n)
    ensures EventDelta(JNum(n)) == 0
    ensures TemplateText(JNum(42)) == "42"
  {
    assert NumText.NatString(42) == NumText.NatString(4) + [NumText.DigitChar(2)];
  }

  /** The `score_change` text of the activity: `+<delta>` for a positive
      delta, `0` otherwise. */
  function ScoreChangeText(delta: nat): (s: string)
    ensures |s| >= 1
    ensures s[0] == '+' <==> delta > 0
  {
    if delta > 0 then "+" + NumText.DecimalString(delta) else "0"
  }

  /** The text recorded in `score_change` reads back (with `parseInt`) as the
      points actually added to the lead. */
  lemma ScoreChangeRoundTrip(delta: nat)
    ensures NumText.ParseInt(ScoreChangeText(delta)) == Some(delta)
  {
    var s := ScoreChangeText(delta);
    assert !NumText.IsJsWhiteSpace(s[0]);
    assert NumText.TrimStart(s) == s;
    if delta > 0 {
      NumText.ParseUnsignedNatString(delta);
      assert s[1..] == NumText.NatString(delta);
    } else {
      NumText.ParseIntDecimalRoundTrip(0);
      assert NumText.DecimalString(0) == "0";
    }
  }

  /** The activity the endpoint logs: a system entry with no acting user,
      whose content is the event record, titled with the event type as a
      template renders it. A missing or falsy `metadata` is stored as `{}`. */
  function EventActivity(leadId: Id, eventType: Json, clientEventId: Option<Json>,
                         metadata: Option<Json>, now: int): (a: Activity)
    ensures a.leadId == leadId && a.userId.None? && a.kind == System && a.createdAt == now
    ensures a.content.EventRecord? && a.content.title == "Event: " + TemplateText(eventType)
    ensures a.content.clientEventId == clientEventId
    ensures a.content.metadata == OrEmptyObject(metadata)
  {
    Activity(leadId, None, System,
             EventRecord("Event: " + TemplateText(eventType), ScoreChangeText(EventDelta(eventType)),
                         clientEventId, OrEmptyObject(metadata)),
             now)
  }

  /** The logged `score_change` reads back as the points the event is
      worth. */
  lemma EventActivityRecordsDelta(leadId: Id, eventType: Json, clientEventId: Option<Json>,
                                  metadata: Option<Json>, now: int)
    ensures var a := EventActivity(leadId, eventType, clientEventId, metadata, now);
      a.content.EventRecord? && NumText.ParseInt(a.content.scoreChange) == Some(EventDelta(eventType))
  {
    ScoreChangeRoundTrip(EventDelta(eventType));
  }

  /** The transaction: the activity insert, then the score increment when the
      event is worth anything. */
  function IngestWrites(leadId: Id, eventType: Json, clientEventId: Option<Json>,
                        metadata: Option<Json>, now: int): (ws: seq<Write>)
    ensures |ws| == if EventDelta(eventType) > 0 then 2 else 1
    ensures ws[0] == InsertActivity(EventActivity(leadId, eventType, clientEventId, metadata, now))
    ensures |ws| == 2 ==> ws[1] == AddEngagement(leadId, EventDelta(eventType), now)
  {
    var delta := EventDelta(eventType);
    [InsertActivity(EventActivity(leadId, eventType, clientEventId, metadata, now))]
      + (if delta > 0 then [AddEngagement(leadId, delta, now)] else [])
  }

  // ---------------------------------------------------------------- request

  /** The request: the `Authorization` header and the body, None when it is
      not JSON. */
  datatype IngestRequest = IngestRequest(authorization: Option<string>, body: Option<Json>)

  /** Destructuring a property from a parsed body: objects yield the field
      when present; strings, numbers, booleans and arrays have none of the
      four properties. */
  function Field(body: Json, key: string): (r: Option<Json>)
    ensures r.Some? <==> body.JObj? && key in body.fields
  {
    if body.JObj? && key in body.fields then Some(body.fields[key]) else None
  }

  /** A destructured property that is present and truthy. */
  predicate Present(x: Option<Json>) {
    x.Some? && Truthy(x.value)
  }

  const InvalidKeyError: string := "Unauthorized: Invalid API Key"
  const InvalidJsonError: string := "Invalid JSON payload"
  const MissingFieldsError: string := "Missing required fields: email, event_type"
  const IgnoredMessage: string := "Lead not found, event ignored"
  const IngestedMessage: string := "Event ingested successfully"
  const FailedError: string := "Internal Server Error processing event"

  datatype IngestReply =
    | BadApiKey
    | InvalidPayload
    | NullBody                 // destructuring `null` throws outside the try
    | MissingEmailOrType
    | EventIgnored
    | Ingested
    | IngestFailed
    | FieldTypeNotModelled     // a truthy `email` that is not a string
  {
    function Status(): int
      requires !FieldTypeNotModelled?
    {
      match this
      case BadApiKey => 401
      case InvalidPayload => 400
      case NullBody => 500
      case MissingEmailOrType => 400
      case EventIgnored => 404
      case Ingested => 200
      case IngestFailed => 500
    }
  }

  /** `findFirst(where email = email)` over every lead, whatever its brand;
      a lead without an email never matches. */
  function LeadByEmail(db: Db, email: string): (r: Option<Lead>)
    ensures r.Some? ==> r.value in db.leads && r.value.email == Some(email)
    ensures r.None? <==> forall l :: l in db.leads ==> l.email != Some(email)
  {
    FirstMatch(db.leads, (l: Lead) => l.email == Some(email))
  }

  /** Everything the handler decides before it touches the store. */
  datatype IngestPlan =
    | Refused(reply: IngestReply)
    | Planned(lead: Lead, eventType: Json, clientEventId: Option<Json>, metadata: Option<Json>)

  function PlanIngest(db: Db, apiKey: Option<string>, req: IngestRequest): (p: IngestPlan)
    ensures !KeyAccepted(req.authorization, apiKey) ==> p == Refused(BadApiKey)
    ensures KeyAccepted(req.authorization, apiKey) && req.body.None? ==> p == Refused(InvalidPayload)
    ensures KeyAccepted(req.authorization, apiKey) && req.body == Some(JNull) ==> p == Refused(NullBody)
    ensures
      && KeyAccepted(req.authorization, apiKey) && req.body.Some? && req.body.value != JNull
      && (!Present(Field(req.body.value, "email")) || !Present(Field(req.body.value, "event_type")))
      ==> p == Refused(MissingEmailOrType)
    ensures
      && KeyAccepted(req.authorization, apiKey) && req.body.Some? && req.body.value != JNull
      && Present(Field(req.body.value, "email")) && Present(Field(req.body.value, "event_type"))
      && Field(req.body.value, "email").value.JStr?
      && LeadByEmail(db, Field(req.body.value, "email").value.s).None?
      ==> p == Refused(EventIgnored)
    ensures p == Refused(FieldTypeNotModelled) <==>
      && KeyAccepted(req.authorization, apiKey) && req.body.Some? && req.body.value != JNull
      && Present(Field(req.body.value, "email")) && Present(Field(req.body.value, "event_type"))
      && !Field(req.body.value, "email").value.JStr?
    ensures p.Planned? <==>
      && KeyAccepted(req.authorization, apiKey) && req.body.Some? && req.body.value != JNull
      && Present(Field(req.body.value, "email")) && Present(Field(req.body.value, "event_type"))
      && Field(req.body.value, "email").value.JStr?
      && LeadByEmail(db, Field(req.body.value, "email").value.s).Some?
    ensures p.Planned? ==>
      && Field(req.body.value, "event_type") == Some(p.eventType)
      && LeadByEmail(db, Field(req.body.value, "email").value.s) == Some(p.lead)
      && p.clientEventId == Field(req.body.value, "client_event_id")
      && p.metadata == Field(req.body.value, "metadata")
  {
    if !KeyAccepted(req.authorization, apiKey) then Refused(BadApiKey)
    else if req.body.None? then Refused(InvalidPayload)
    else
      var body := req.body.value;
      if body == JNull then Refused(NullBody)
      else
        var email := Field(body, "email");
        var eventType := Field(body, "event_type");
        if !Present(email) || !Present(eventType) then Refused(MissingEmailOrType)
        else if !email.value.JStr? then Refused(FieldTypeNotModelled)
        else match LeadByEmail(db, email.value.s)
          case None => Refused(EventIgnored)
          case Some(lead) => Planned(lead, eventType.value, Field(body, "client_event_id"), Field(body, "metadata"))
  }

  /** The handler. `apiKey` is the configured `INGEST_API_KEY`; `fault`
      stands for a store failure the model does not explain. */
  function IngestEvent(db: Db, apiKey: Option<string>, req: IngestRequest, now: int, fault: bool): (r: Step<IngestReply>)
    ensures r.reply != Ingested ==> r.db == db
    ensures r.reply == Ingested <==>
      PlanIngest(db, apiKey, req).Planned? && !fault &&
      (var p := PlanIngest(db, apiKey, req);
       ApplyAll(db, IngestWrites(p.lead.id, p.eventType, p.clientEventId, p.metadata, now)).Some?)
    ensures r.reply == Ingested ==>
      var p := PlanIngest(db, apiKey, req);
      ApplyAll(db, IngestWrites(p.lead.id, p.eventType, p.clientEventId, p.metadata, now)) == Some(r.db)
    ensures PlanIngest(db, apiKey, req).Refused? ==> r.reply == PlanIngest(db, apiKey, req).reply
  {
    match PlanIngest(db, apiKey, req)
    case Refused(reply) => Step(reply, db)
    case Planned(lead, eventType, clientEventId, metadata) =>
      var (ok, db') := Transaction(db, IngestWrites(lead.id, eventType, clientEventId, metadata, now), fault);
      if ok then Step(Ingested, db') else Step(IngestFailed, db)
  }

  // ---------------------------------------------------------------- properties

  /** What the two writes do to a store: one more activity at the end, the
      matching lead rows raised by the delta, nothing else touched; they fail
      only when the raised score leaves the `integer` range. */
  lemma IngestWritesEffect(db: Db, lead: Lead, eventType: Json, clientEventId: Option<Json>,
                           metadata: Option<Json>, now: int)
    requires lead in db.leads
    ensures var delta := EventDelta(eventType);
      var r := ApplyAll(db, IngestWrites(lead.id, eventType, clientEventId, metadata, now));
      && (r.Some? <==> delta == 0 || forall l :: l in db.leads && l.id == lead.id ==> Int4(l.engagementScore + delta))
      && (r.Some? ==>
            && r.value.activities == db.activities + [EventActivity(lead.id, eventType, clientEventId, metadata, now)]
            && r.value.leads == (if delta > 0 then AddToEngagement(db.leads, lead.id, delta, now) else db.leads)
            && r.value.users == db.users && r.value.products == db.products
            && r.value.deals == db.deals && r.value.auditLogs == db.auditLogs)
  {
    var act := EventActivity(lead.id, eventType, clientEventId, metadata, now);
    assert lead.id in LeadIds(db.leads);
    var db1 := db.(activities := db.activities + [act]);
    assert ApplyWrite(db, InsertActivity(act)) == Some(db1);
    if EventDelta(eventType) > 0 {
      ScoredWritesEffect(db, db1, lead.id, eventType, clientEventId, metadata, now);
    } else {
      var ws := IngestWrites(lead.id, eventType, clientEventId, metadata, now);
      assert ws[1..] == [];
    }
  }

  /** The two writes of an event worth points: the activity, then the
      increment, which the store takes exactly when every matching score
      stays in range. */
  lemma ScoredWritesEffect(db: Db, db1: Db, leadId: Id, eventType: Json, clientEventId: Option<Json>,
                           metadata: Option<Json>, now: int)
    requires EventDelta(eventType) > 0
    requires ApplyWrite(db, InsertActivity(EventActivity(leadId, eventType, clientEventId, metadata, now))) == Some(db1)
    ensures var delta := EventDelta(eventType);
      var r := ApplyAll(db, IngestWrites(leadId, eventType, clientEventId, metadata, now));
      && (r.Some? <==> forall l :: l in db.leads && l.id == leadId ==> Int4(l.engagementScore + delta))
      && (r.Some? ==> r.value == db1.(leads := AddToEngagement(db.leads, leadId, delta, now)))
  {
    var delta := EventDelta(eventType);
    var ws := IngestWrites(leadId, eventType, clientEventId, metadata, now);
    var w := AddEngagement(leadId, delta, now);
    assert db1.leads == db.leads;
    assert ws[1..] == [w];
    assert ws[1..][1..] == [];
    assert ApplyAll(db, ws) == ApplyAll(db1, [w]);
    assert ApplyAll(db1, [w]) == ApplyWrite(db1, w);
    assert Admissible(db1, w) <==> forall l :: l in db.leads && l.id == leadId ==> Int4(l.engagementScore + delta);
  }

  /** A successful ingest adds exactly one activity, a system entry with no
      user for the lead with the given email, and raises that lead's score
      by exactly the event's weight, touching no other lead. */
  lemma IngestedEffect(db: Db, apiKey: Option<string>, req: IngestRequest, now: int, fault: bool)
    requires IngestEvent(db, apiKey, req, now, fault).reply == Ingested
    ensures var p := PlanIngest(db, apiKey, req);
      var r := IngestEvent(db, apiKey, req, now, fault).db;
      var delta := EventDelta(p.eventType);
      && p.Planned?
      && |r.activities| == |db.activities| + 1
      && r.activities[..|db.activities|] == db.activities
      && r.activities[|db.activities|] == EventActivity(p.lead.id, p.eventType, p.clientEventId, p.metadata, now)
      && |r.leads| == |db.leads|
      && (forall i :: 0 <= i < |db.leads| ==>
            r.leads[i] == (if db.leads[i].id == p.lead.id && delta > 0
                           then db.leads[i].(engagementScore := db.leads[i].engagementScore + delta, updatedAt := now)
                           else db.leads[i]))
      && r.deals == db.deals && r.auditLogs == db.auditLogs
  {
    var p := PlanIngest(db, apiKey, req);
    IngestWritesEffect(db, p.lead, p.eventType, p.clientEventId, p.metadata, now);
    var r := IngestEvent(db, apiKey, req, now, fault).db;
    assert r.activities[..|db.activities|] == db.activities;
  }

  /** An unknown event type is still logged, but no score moves. */
  lemma UnknownEventOnlyLogs(db: Db, apiKey: Option<string>, req: IngestRequest, now: int, fault: bool)
    requires IngestEvent(db, apiKey, req, now, fault).reply == Ingested
    requires EventDelta(PlanIngest(db, apiKey, req).eventType) == 0
    ensures IngestEvent(db, apiKey, req, now, fault).db.leads == db.leads
    ensures |IngestEvent(db, apiKey, req, now, fault).db.activities| == |db.activities| + 1
  {
    var p := PlanIngest(db, apiKey, req);
    IngestWritesEffect(db, p.lead, p.eventType, p.clientEventId, p.metadata, now);
  }

  /** Once a lead is found, the only ways the transaction fails are a store
      fault and a score that would leave the `integer` range; either way the
      store is as it was. */
  lemma IngestAllOrNothing(db: Db, apiKey: Option<string>, req: IngestRequest, now: int, fault: bool)
    requires PlanIngest(db, apiKey, req).Planned?
    ensures var p := PlanIngest(db, apiKey, req);
      var r := IngestEvent(db, apiKey, req, now, fault);
      var delta := EventDelta(p.eventType);
      var overflow := delta > 0 && exists l :: l in db.leads && l.id == p.lead.id && !Int4(l.engagementScore + delta);
      && (r.reply == IngestFailed <==> fault || overflow)
      && (r.reply == IngestFailed ==> r.db == db)
      && (r.reply.Ingested? || r.reply.IngestFailed?)
  {
    var p := PlanIngest(db, apiKey, req);
    IngestWritesEffect(db, p.lead, p.eventType, p.clientEventId, p.metadata, now);
  }

  /** With a good key, a body whose `email` is a non-empty string no lead has
      and whose `event_type` is present is answered 404, whatever else the
      body carries, and nothing is written. */
  lemma UnknownEmailIgnored(db: Db, apiKey: Option<string>, req: IngestRequest, email: string, now: int, fault: bool)
    requires KeyAccepted(req.authorization, apiKey)
    requires req.body.Some? && Field(req.body.value, "email") == Some(JStr(email)) && email != ""
    requires Present(Field(req.body.value, "event_type"))
    requires forall l :: l in db.leads ==> l.email != Some(email)
    ensures IngestEvent(db, apiKey, req, now, fault) == Step(EventIgnored, db)
    ensures EventIgnored.Status() == 404
  {
  }

  /** Ingest keeps the schema's constraints. */
  lemma IngestPreservesValid(db: Db, apiKey: Option<string>, req: IngestRequest, now: int, fault: bool)
    requires Valid(db)
    ensures Valid(IngestEvent(db, apiKey, req, now, fault).db)
  {
    var p := PlanIngest(db, apiKey, req);
    if p.Planned? {
      TransactionPreservesValid(db, IngestWrites(p.lead.id, p.eventType, p.clientEventId, p.metadata, now), fault);
    }
  }

  /** A course completion is recorded as `+15`. */
  lemma FifteenPointsText()
    ensures ScoreChangeText(15) == "+15"
  {
    assert NumText.DecimalString(15) == "15" by {
      assert NumText.NatString(1) == "1";
      assert NumText.NatString(15) == NumText.NatString(1) + [NumText.DigitChar(5)];
    }
  }

  /** The scenario's lead: engagement 10, email `asha@example.com`. */
  function ScenarioLead(): Lead {
    NewLead("lead-1", "brand-1", "Asha", "9000000000", Some("asha@example.com"), 0).(engagementScore := 10)
  }

  /** A `course_completed` event for that email, with the key `k`. */
  function ScenarioRequest(): IngestRequest {
    IngestRequest(Some("Bearer k"),
                  Some(JObj(map["email" := JStr("asha@example.com"), "event_type" := JStr("course_completed")])))
  }

  /** A store holding that lead alone. */
  function ScenarioDb(): Db {
    Db({}, [], [ScenarioLead()], [], [], [])
  }

  /** The scenario's request passes every check and finds the lead. */
  lemma ScenarioPlanned()
    ensures PlanIngest(ScenarioDb(), Some("k"), ScenarioRequest())
      == Planned(ScenarioLead(), JStr("course_completed"), None, None)
  {
    var db := ScenarioDb();
    assert ExpectedHeader(Some("k")) == "Bearer k";
    assert LeadByEmail(db, "asha@example.com") == Some(ScenarioLead()) by {
      assert ScenarioLead() in db.leads;
    }
  }

  /** The scenario commits: the lead gains 15 points and one event activity
      is logged. */
  lemma ScenarioIngested(now: int)
    ensures var r := IngestEvent(ScenarioDb(), Some("k"), ScenarioRequest(), now, false);
      && r.reply == Ingested
      && r.db.leads == AddToEngagement(ScenarioDb().leads, "lead-1", 15, now)
      && r.db.activities == [EventActivity("lead-1", JStr("course_completed"), None, None, now)]
  {
    ScenarioPlanned();
    IngestWritesEffect(ScenarioDb(), ScenarioLead(), JStr("course_completed"), None, None, now);
  }

  /** A lead at engagement 10 that completes a course ends at 25, with one
      `+15` activity logged against it. */
  lemma CourseCompletedScenario(now: int)
    ensures ScenarioLead().engagementScore == 10
    ensures var r := IngestEvent(ScenarioDb(), Some("k"), ScenarioRequest(), now, false);
      && r.reply == Ingested
      && |r.db.leads| == 1
      && r.db.leads[0].engagementScore == 25
      && |r.db.activities| == 1
      && r.db.activities[0].content.EventRecord?
      && r.db.activities[0].content.scoreChange == "+15"
  {
    ScenarioIngested(now);
    FifteenPointsText();
    var a := EventActivity("lead-1", JStr("course_completed"), None, None, now);
    assert a.content.scoreChange == ScoreChangeText(15);
  }
}
