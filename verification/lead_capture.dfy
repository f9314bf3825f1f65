/** The lead-capture endpoint (sendToPipedrive.ts): a contact form is trimmed and validated,
    then turned into a fixed sequence of CRM requests (organization, person, lead, note) and
    finally into an HTTP status and JSON body. The network, the JSON parser and the
    environment are inputs: the CRM is an oracle from request to reply. */
module LeadCapture {
  import opened Wrappers

  /** The characters the string trim of ECMAScript removes: white space and line terminators. */
  predicate IsSpace(c: char) {
    || c == '\t' || c == '\n' || c == '\U{000B}' || c == '\U{000C}' || c == '\r' || c == ' '
    || c == '\U{00A0}' || c == '\U{1680}' || ('\U{2000}' <= c <= '\U{200A}')
    || c == '\U{2028}' || c == '\U{2029}' || c == '\U{202F}' || c == '\U{205F}'
    || c == '\U{3000}' || c == '\U{FEFF}'
  }

  /** Length of the leading run of white space. */
  function LeadingSpace(s: string): (n: nat)
    ensures n <= |s|
    ensures forall i :: 0 <= i < n ==> IsSpace(s[i])
    ensures n < |s| ==> !IsSpace(s[n])
  {
    if s == [] || !IsSpace(s[0]) then 0
    else
      var n := 1 + LeadingSpace(s[1..]);
      assert forall i :: 1 <= i < n ==> s[i] == s[1..][i - 1];
      n
  }

  /** Length of the trailing run of white space. */
  function TrailingSpace(s: string): (n: nat)
    ensures n <= |s|
    ensures forall i :: |s| - n <= i < |s| ==> IsSpace(s[i])
    ensures n < |s| ==> !IsSpace(s[|s| - n - 1])
  {
    if s == [] || !IsSpace(s[|s| - 1]) then 0
    else
      var n := 1 + TrailingSpace(s[..|s| - 1]);
      assert forall i :: |s| - n <= i < |s| - 1 ==> s[i] == s[..|s| - 1][i];
      n
  }

  /** Only white space lies before `i` and from `j` on. */
  predicate TrimmedAt(s: string, i: nat, j: nat) {
    && i <= j <= |s|
    && (forall k :: 0 <= k < i ==> IsSpace(s[k]))
    && (forall k :: j <= k < |s| ==> IsSpace(s[k]))
  }

  /** `s` without leading and trailing white space: a slice of `s` that neither starts nor
      ends with white space, and only white space is cut away. */
  function Trim(s: string): (r: string)
    ensures exists i: nat, j: nat :: TrimmedAt(s, i, j) && r == s[i..j]
    ensures r != [] ==> !IsSpace(r[0]) && !IsSpace(r[|r| - 1])
    ensures r == [] <==> forall k :: 0 <= k < |s| ==> IsSpace(s[k])
  {
    var i := LeadingSpace(s);
    var j := |s| - TrailingSpace(s);
    if i == |s| then
      assert TrimmedAt(s, i, i) && [] == s[i..i];
      []
    else
      assert i < j by {
        assert !IsSpace(s[i]);
      }
      assert TrimmedAt(s, i, j);
      assert s[i..j][0] == s[i] && s[i..j][j - i - 1] == s[j - 1];
      s[i..j]
  }

  /** Trimming twice is trimming once. */
  lemma TrimIdempotent(s: string)
    ensures Trim(Trim(s)) == Trim(s)
  {
    var r := Trim(s);
    if r != [] {
      assert LeadingSpace(r) == 0;
      assert TrailingSpace(r) == 0;
    }
  }

  /** The form fields as posted; a missing field reads as "". */
  datatype Form = Form(name: string, email: string, phone: string, company: string, message: string)

  const EmptyForm := Form("", "", "", "", "")

  /** The fields the endpoint works with: the posted ones, trimmed; a body that does not parse
      reads as an empty form. */
  function Clean(body: Option<Form>): (f: Form)
    ensures body.None? ==> f == EmptyForm
    ensures body.Some? ==> f == Form(Trim(body.value.name), Trim(body.value.email), Trim(body.value.phone),
                                    Trim(body.value.company), Trim(body.value.message))
  {
    var raw := body.GetOr(EmptyForm);
    Form(Trim(raw.name), Trim(raw.email), Trim(raw.phone), Trim(raw.company), Trim(raw.message))
  }

  /** A JSON id as the CRM returns it; only numbers and strings are modelled. */
  datatype Id = Num(n: int) | Text(s: string)

  /** JavaScript truthiness of an id: 0 and "" are false. */
  predicate Truthy(id: Id) {
    match id
    case Num(n) => n != 0
    case Text(s) => s != ""
  }

  /** The id if it is truthy, otherwise nothing. */
  function TruthyId(id: Option<Id>): (r: Option<Id>)
    ensures r.Some? <==> id.Some? && Truthy(id.value)
    ensures r.Some? ==> r == id
  {
    if id.Some? && Truthy(id.value) then id else None
  }

  /** The first of `a`, `b`, `c` that is not empty, or "" when all are (`a || b || c`). */
  function FirstNonEmpty(a: string, b: string, c: string): (r: string)
    ensures r == "" <==> a == "" && b == "" && c == ""
    ensures r != "" ==> r == a || r == b || r == c
    ensures a != "" ==> r == a
    ensures a == "" && b != "" ==> r == b
  {
    if a != "" then a else if b != "" then b else c
  }

  /** The body of each CRM request, by endpoint. Absent optional fields are None. */
  datatype CrmCall =
    | CreateOrganization(orgName: string)
    | CreatePerson(personName: string, email: Option<string>, phone: Option<string>, orgId: Option<Id>)
    | CreateLead(title: string, personId: Option<Id>, organizationId: Option<Id>)
    | CreateNote(content: string, leadId: Option<Id>)

  function EndpointPath(c: CrmCall): string {
    match c
    case CreateOrganization(_) => "/organizations"
    case CreatePerson(_, _, _, _) => "/persons"
    case CreateLead(_, _, _) => "/leads"
    case CreateNote(_, _) => "/notes"
  }

  /** Position of each endpoint in the request sequence. */
  function Stage(c: CrmCall): nat {
    match c
    case CreateOrganization(_) => 0
    case CreatePerson(_, _, _, _) => 1
    case CreateLead(_, _, _) => 2
    case CreateNote(_, _) => 3
  }

  const ApiBase := "https://api.pipedrive.com/v1"

  /** The request URL (`pdFetch`). */
  function RequestUrl(path: string, token: string): string {
    ApiBase + path + [if '?' in path then '&' else '?'] + "api_token=" + token
  }

  /** The request URL is the API base, the path, then the token as a query parameter, joined
      with "&" when the path already has a query and with "?" otherwise. */
  lemma RequestUrlParts(path: string, token: string)
    ensures var url := RequestUrl(path, token);
      && |url| == |ApiBase| + |path| + 11 + |token|
      && url[..|ApiBase| + |path|] == ApiBase + path
      && url[|ApiBase| + |path|] == (if '?' in path then '&' else '?')
      && url[|ApiBase| + |path| + 1..] == "api_token=" + token
  {
  }

  /** The URL determines the path and the token it was built from. */
  lemma RequestUrlInjective(p1: string, t1: string, p2: string, t2: string)
    requires RequestUrl(p1, t1) == RequestUrl(p2, t2)
    requires |p1| == |p2|
    ensures p1 == p2 && t1 == t2
  {
    RequestUrlParts(p1, t1);
    RequestUrlParts(p2, t2);
    var u := RequestUrl(p1, t1);
    assert ApiBase + p1 == u[..|ApiBase| + |p1|] == ApiBase + p2;
    assert p1 == (ApiBase + p1)[|ApiBase|..] == (ApiBase + p2)[|ApiBase|..] == p2;
    assert "api_token=" + t1 == "api_token=" + t2;
    assert t1 == ("api_token=" + t1)[10..] == ("api_token=" + t2)[10..] == t2;
  }

  /** The parts of a CRM reply body the endpoint reads; a body that does not parse has all of
      them absent. `id` is the `data.id` of the body. */
  datatype ReplyData = ReplyData(success: Option<bool>, error: Option<string>, message: Option<string>,
                                 errorInfo: Option<string>, id: Option<Id>)

  /** What the CRM does with a request: an HTTP reply, or a transport failure with its message. */
  datatype Reply =
    | Http(ok: bool, status: int, data: ReplyData)
    | TransportFailure(reason: string)

  /** The decimal digits of a natural number. */
  function Digits(n: nat): (s: string)
    ensures |s| >= 1
    ensures forall k :: 0 <= k < |s| ==> '0' <= s[k] <= '9'
    decreases n
  {
    var d := [(n % 10) as char + '0'];
    if n < 10 then d else Digits(n / 10) + d
  }

  /** The decimal text of an integer, with a leading "-" when negative. */
  function IntText(n: int): (s: string)
    ensures s != ""
  {
    if n < 0 then "-" + Digits(-n) else Digits(n)
  }

  /** An optional text field that JavaScript treats as true: present and non-empty. */
  predicate Filled(o: Option<string>) {
    o.Some? && o.value != ""
  }

  /** `a || b` on an optional string. */
  function OrText(a: Option<string>, b: string): string {
    if Filled(a) then a.value else b
  }

  /** The message of the error a failed reply raises: the reply's `error`, else its `message`,
      else its `error_info` (each only when non-empty), else "HTTP <status>". It is never
      empty. */
  function FailureMessage(d: ReplyData, status: int): (msg: string)
    ensures msg != ""
    ensures Filled(d.error) ==> msg == d.error.value
    ensures !Filled(d.error) && Filled(d.message) ==> msg == d.message.value
    ensures !Filled(d.error) && !Filled(d.message) && Filled(d.errorInfo) ==> msg == d.errorInfo.value
    ensures !Filled(d.error) && !Filled(d.message) && !Filled(d.errorInfo) ==> msg == "HTTP " + IntText(status)
  {
    OrText(d.error, OrText(d.message, OrText(d.errorInfo, "HTTP " + IntText(status))))
  }

  /** One request through the fetch helper: the reply data, or the message of what it throws.
      It throws when the transport fails, when the status is not ok, or when the body says
      `success: false`; every other reply is accepted, whatever else the body holds. */
  function Fetch(reply: Reply): (r: Result)
    ensures r.Failed? <==> reply.TransportFailure? || !reply.ok || reply.data.success == Some(false)
    ensures r.Done? ==> r.data == reply.data
    ensures r.Failed? && reply.Http? ==> r.message != ""
  {
    match reply
    case TransportFailure(reason) => Failed(reason)
    case Http(ok, status, data) =>
      if !ok || data.success == Some(false) then Failed(FailureMessage(data, status))
      else Done(data)
  }

  datatype Result = Done(data: ReplyData) | Failed(message: string)

  /** A request as sent: its URL and its JSON body. */
  datatype Sent = Sent(url: string, call: CrmCall)

  /** The endpoint's answer. */
  datatype ResponseBody =
    | NoContent
    | ErrorBody(error: string)
    | Created(leadId: Option<Id>)

  datatype Response = Response(status: int, body: ResponseBody)

  /** The whole effect of one POST: the requests sent, in order, and the response. */
  datatype Outcome = Outcome(sent: seq<Sent>, response: Response)

  const MissingFields := "Faltan campos obligatorios (nombre o email)"
  const MissingKey := "API key no configurada"
  const InternalError := "Error interno"

  /** The pre-flight answer. */
  function Options(): (r: Response)
    ensures r.status == 204 && r.body == NoContent
  {
    Response(204, NoContent)
  }

  /** The API key: the build-time value if non-empty, else the process environment's. */
  function ApiKey(buildKey: Option<string>, processKey: Option<string>): (key: Option<string>)
    ensures key.Some? ==> key.value != ""
    ensures key.None? <==> (buildKey.None? || buildKey.value == "") && (processKey.None? || processKey.value == "")
    ensures buildKey.Some? && buildKey.value != "" ==> key == buildKey
  {
    if buildKey.Some? && buildKey.value != "" then buildKey
    else if processKey.Some? && processKey.value != "" then processKey
    else None
  }

  /** A 500 answer for a thrown error: its message, or a generic one when it has none. */
  function ThrownResponse(message: string): (r: Response)
    ensures r.status == 500
    ensures message != "" ==> r.body == ErrorBody(message)
    ensures message == "" ==> r.body == ErrorBody(InternalError)
  {
    Response(500, ErrorBody(if message != "" then message else InternalError))
  }

  function Send(call: CrmCall, key: string): Sent {
    Sent(RequestUrl(EndpointPath(call), key), call)
  }

  /** The person to create: named by the name, or the email when there is no name; the email,
      phone and organization are attached only when there is one. */
  function PersonCall(f: Form, orgId: Option<Id>): (c: CrmCall)
    requires orgId.Some? ==> Truthy(orgId.value)
    ensures c.CreatePerson?
    ensures c.personName == (if f.name != "" then f.name else f.email)
    ensures c.email.Some? <==> f.email != ""
    ensures c.email.Some? ==> c.email.value == f.email
    ensures c.phone.Some? <==> f.phone != ""
    ensures c.phone.Some? ==> c.phone.value == f.phone
    ensures c.orgId == orgId
  {
    CreatePerson(
      FirstNonEmpty(f.name, f.email, ""),
      if f.email != "" then Some(f.email) else None,
      if f.phone != "" then Some(f.phone) else None,
      orgId)
  }

  /** The lead to create: titled after the company, else the name, else the email. */
  function LeadCall(f: Form, personId: Option<Id>, orgId: Option<Id>): (c: CrmCall)
    ensures c.CreateLead?
    ensures c.title == "Lead de " + FirstNonEmpty(f.company, f.name, f.email)
    ensures c.personId == personId && c.organizationId == orgId
  {
    CreateLead("Lead de " + FirstNonEmpty(f.company, f.name, f.email), personId, orgId)
  }

  /** The CRM accepts a request: the fetch helper returns instead of throwing. */
  predicate Accepts(crm: CrmCall -> Reply, c: CrmCall) {
    Fetch(crm(c)).Done?
  }

  /** The `data.id` of the CRM's reply to an accepted request. */
  function ReplyId(crm: CrmCall -> Reply, c: CrmCall): Option<Id>
    requires Accepts(crm, c)
  {
    Fetch(crm(c)).data.id
  }

  /** Requests in strictly increasing stage, none before stage `from`, each sent to its
      endpoint's URL with the API key. */
  ghost predicate WellSent(sent: seq<Sent>, key: string, from: nat) {
    && (forall k, l :: 0 <= k < l < |sent| ==> Stage(sent[k].call) < Stage(sent[l].call))
    && (forall k :: 0 <= k < |sent| ==> from <= Stage(sent[k].call))
    && (forall k :: 0 <= k < |sent| ==> sent[k] == Send(sent[k].call, key))
  }

  lemma PrependSent(c: CrmCall, rest: seq<Sent>, key: string)
    requires WellSent(rest, key, Stage(c) + 1)
    ensures WellSent([Send(c, key)] + rest, key, Stage(c))
  {
    var sent := [Send(c, key)] + rest;
    forall k, l | 0 <= k < l < |sent|
      ensures Stage(sent[k].call) < Stage(sent[l].call)
    {
      assert sent[l] == rest[l - 1];
      if k > 0 {
        assert sent[k] == rest[k - 1];
      }
    }
    forall k | 0 <= k < |sent|
      ensures Stage(c) <= Stage(sent[k].call)
      ensures sent[k] == Send(sent[k].call, key)
    {
      if k > 0 {
        assert sent[k] == rest[k - 1];
      }
    }
  }

  /** The endpoint's outcome after the requests that matter: either 200 with the lead's id,
      or 500 with the message of the error thrown by the last request sent. */
  ghost predicate Concludes(sent: seq<Sent>, response: Response, crm: CrmCall -> Reply, leadId: Option<Id>) {
    || response == Response(200, Created(leadId))
    || (&& |sent| > 0
        && !Accepts(crm, sent[|sent| - 1].call)
        && response == ThrownResponse(Fetch(crm(sent[|sent| - 1].call)).message))
  }

  /** The note step, after the lead was created with id `leadId`: a note holding the message,
      only when there is one. */
  function NoteStep(f: Form, key: string, leadId: Option<Id>, crm: CrmCall -> Reply): (r: Outcome)
    ensures f.message == "" <==> r.sent == []
    ensures f.message != "" ==> r.sent == [Send(CreateNote(f.message, leadId), key)]
    ensures WellSent(r.sent, key, 3)
    ensures r.response.status == 200 <==> f.message == "" || Accepts(crm, CreateNote(f.message, leadId))
    ensures r.response.status == 200 ==> r.response.body == Created(leadId)
    ensures r.response.status != 200 ==> Concludes(r.sent, r.response, crm, leadId) && r.response.status == 500
  {
    if f.message == "" then Outcome([], Response(200, Created(leadId)))
    else
      var note := CreateNote(f.message, leadId);
      match Fetch(crm(note))
      case Failed(m) => Outcome([Send(note, key)], ThrownResponse(m))
      case Done(_) => Outcome([Send(note, key)], Response(200, Created(leadId)))
  }

  /** The lead step, after the person was created with id `personId`. */
  function LeadStep(f: Form, key: string, personId: Option<Id>, orgId: Option<Id>, crm: CrmCall -> Reply): (r: Outcome)
    ensures |r.sent| > 0 && r.sent[0] == Send(LeadCall(f, personId, orgId), key)
    ensures WellSent(r.sent, key, 2)
    ensures !Accepts(crm, LeadCall(f, personId, orgId)) ==> |r.sent| == 1 && r.response.status == 500
    ensures Accepts(crm, LeadCall(f, personId, orgId)) ==>
      r == (var n := NoteStep(f, key, ReplyId(crm, LeadCall(f, personId, orgId)), crm);
            Outcome([r.sent[0]] + n.sent, n.response))
  {
    var lead := LeadCall(f, personId, orgId);
    match Fetch(crm(lead))
    case Failed(m) => Outcome([Send(lead, key)], ThrownResponse(m))
    case Done(data) =>
      var n := NoteStep(f, key, data.id, crm);
      PrependSent(lead, n.sent, key);
      Outcome([Send(lead, key)] + n.sent, n.response)
  }

  /** The person step, after the organization step settled on `orgId`. */
  function PersonStep(f: Form, key: string, orgId: Option<Id>, crm: CrmCall -> Reply): (r: Outcome)
    requires orgId.Some? ==> Truthy(orgId.value)
    ensures |r.sent| > 0 && r.sent[0] == Send(PersonCall(f, orgId), key)
    ensures WellSent(r.sent, key, 1)
    ensures !Accepts(crm, PersonCall(f, orgId)) ==> |r.sent| == 1 && r.response.status == 500
    ensures Accepts(crm, PersonCall(f, orgId)) ==>
      r == (var l := LeadStep(f, key, ReplyId(crm, PersonCall(f, orgId)), orgId, crm);
            Outcome([r.sent[0]] + l.sent, l.response))
  {
    var person := PersonCall(f, orgId);
    match Fetch(crm(person))
    case Failed(m) => Outcome([Send(person, key)], ThrownResponse(m))
    case Done(data) =>
      var l := LeadStep(f, key, data.id, orgId, crm);
      PrependSent(person, l.sent, key);
      Outcome([Send(person, key)] + l.sent, l.response)
  }

  /** The organization step: created only for a non-empty company. Its failure is ignored, and
      only a truthy returned id is kept. */
  function OrganizationStep(f: Form, key: string, crm: CrmCall -> Reply): (r: (seq<Sent>, Option<Id>))
    ensures f.company == "" ==> r == ([], None)
    ensures f.company != "" ==> r.0 == [Send(CreateOrganization(f.company), key)]
    ensures WellSent(r.0, key, 0)
    ensures r.1.Some? <==>
      f.company != "" && Accepts(crm, CreateOrganization(f.company))
      && ReplyId(crm, CreateOrganization(f.company)).Some?
      && Truthy(ReplyId(crm, CreateOrganization(f.company)).value)
    ensures r.1.Some? ==> r.1 == ReplyId(crm, CreateOrganization(f.company))
  {
    if f.company == "" then ([], None)
    else
      var call := CreateOrganization(f.company);
      match Fetch(crm(call))
      case Failed(_) => ([Send(call, key)], None)
      case Done(data) => ([Send(call, key)], TruthyId(data.id))
  }

  /** Everything after validation and the key check: the organization (if any), then the
      person, lead and note steps. */
  function Deliver(f: Form, key: string, crm: CrmCall -> Reply): (r: Outcome)
    ensures WellSent(r.sent, key, 0)
  {
    var (orgSent, orgId) := OrganizationStep(f, key, crm);
    var p := PersonStep(f, key, orgId, crm);
    assert WellSent(orgSent + p.sent, key, 0) by {
      if orgSent != [] {
        PrependSent(CreateOrganization(f.company), p.sent, key);
        assert orgSent + p.sent == [Send(CreateOrganization(f.company), key)] + p.sent;
      }
    }
    Outcome(orgSent + p.sent, p.response)
  }

  /** One POST of the contact form (`POST`). */
  function Submit(body: Option<Form>, buildKey: Option<string>, processKey: Option<string>, crm: CrmCall -> Reply): (r: Outcome)
    ensures ApiKey(buildKey, processKey).Some? ==> WellSent(r.sent, ApiKey(buildKey, processKey).value, 0)
    ensures ApiKey(buildKey, processKey).None? ==> r.sent == []
  {
    var f := Clean(body);
    if f.name == "" && f.email == "" then Outcome([], Response(400, ErrorBody(MissingFields)))
    else match ApiKey(buildKey, processKey)
      case None => Outcome([], Response(500, ErrorBody(MissingKey)))
      case Some(key) => Deliver(f, key, crm)
  }

  /** A form whose trimmed name and email are both empty is refused with 400 before any
      request; every other form gets another status. */
  lemma SubmitRejectsIncomplete(body: Option<Form>, buildKey: Option<string>, processKey: Option<string>, crm: CrmCall -> Reply)
    ensures var f := Clean(body);
      var r := Submit(body, buildKey, processKey, crm);
      && (r.response.status == 400 <==> f.name == "" && f.email == "")
      && (r.response.status == 400 ==> r.sent == [] && r.response.body == ErrorBody(MissingFields))
  {
    var f := Clean(body);
    if (f.name != "" || f.email != "") && ApiKey(buildKey, processKey).Some? {
      DeliverAnswers(f, ApiKey(buildKey, processKey).value, crm);
    }
  }

  /** A complete form without an API key is answered 500 with the missing-key message and no
      request; with a key at least the person request always goes out. */
  lemma SubmitNeedsKey(body: Option<Form>, buildKey: Option<string>, processKey: Option<string>, crm: CrmCall -> Reply)
    requires var f := Clean(body); f.name != "" || f.email != ""
    ensures var r := Submit(body, buildKey, processKey, crm);
      && (ApiKey(buildKey, processKey).None? <==> r.sent == [])
      && (ApiKey(buildKey, processKey).None? ==> r.response == Response(500, ErrorBody(MissingKey)))
  {
  }

  /** Delivery always ends 200 with the lead's id, or 500 with the message of the request that
      failed, which is the last one sent. */
  lemma DeliverAnswers(f: Form, key: string, crm: CrmCall -> Reply)
    ensures var r := Deliver(f, key, crm);
      && (r.response.status == 200 || r.response.status == 500)
      && |r.sent| > 0
      && (r.response.status == 500 ==>
            !Accepts(crm, r.sent[|r.sent| - 1].call)
            && r.response == ThrownResponse(Fetch(crm(r.sent[|r.sent| - 1].call)).message))
  {
    var (orgSent, orgId) := OrganizationStep(f, key, crm);
    var p := PersonStep(f, key, orgId, crm);
    var person := PersonCall(f, orgId);
    if Accepts(crm, person) {
      var l := LeadStep(f, key, ReplyId(crm, person), orgId, crm);
      var lead := LeadCall(f, ReplyId(crm, person), orgId);
      if Accepts(crm, lead) {
        var n := NoteStep(f, key, ReplyId(crm, lead), crm);
        assert p.sent == [p.sent[0], l.sent[0]] + n.sent;
      }
    }
  }

  /** The organization id delivery settles on: a truthy id from an accepted organization
      request, else none. */
  function OrgIdOf(f: Form, crm: CrmCall -> Reply): (orgId: Option<Id>)
    ensures orgId.Some? ==> Truthy(orgId.value)
  {
    OrganizationStep(f, "", crm).1
  }

  /** The organization request goes out first, exactly when there is a company; whatever its
      reply, the person request follows it. */
  lemma DeliverSendsPerson(f: Form, key: string, crm: CrmCall -> Reply)
    ensures var r := Deliver(f, key, crm);
      var at := if f.company == "" then 0 else 1;
      && |r.sent| > at
      && (f.company != "" ==> r.sent[0] == Send(CreateOrganization(f.company), key))
      && r.sent[at] == Send(PersonCall(f, OrgIdOf(f, crm)), key)
  {
  }

  /** An accepted person request is followed by the lead request, for that person and the same
      organization; a refused one ends delivery. */
  lemma DeliverSendsLead(f: Form, key: string, crm: CrmCall -> Reply)
    ensures var r := Deliver(f, key, crm);
      var at := if f.company == "" then 0 else 1;
      var person := PersonCall(f, OrgIdOf(f, crm));
      && (!Accepts(crm, person) ==> |r.sent| == at + 1)
      && (Accepts(crm, person) ==>
            |r.sent| > at + 1 && r.sent[at + 1] == Send(LeadCall(f, ReplyId(crm, person), OrgIdOf(f, crm)), key))
  {
    var (orgSent, orgId) := OrganizationStep(f, key, crm);
    assert orgId == OrgIdOf(f, crm);
    var p := PersonStep(f, key, orgId, crm);
    var r := Deliver(f, key, crm);
    assert r.sent == orgSent + p.sent;
    var person := PersonCall(f, orgId);
    if Accepts(crm, person) {
      var l := LeadStep(f, key, ReplyId(crm, person), orgId, crm);
      assert p.sent == [p.sent[0]] + l.sent;
      assert r.sent[|orgSent| + 1] == l.sent[0];
    }
  }

  /** After an accepted lead request, a note carrying the message and the lead's id is sent
      exactly when there is a message; a refused lead request ends delivery. */
  lemma DeliverSendsNote(f: Form, key: string, crm: CrmCall -> Reply)
    requires Accepts(crm, PersonCall(f, OrgIdOf(f, crm)))
    ensures var r := Deliver(f, key, crm);
      var at := if f.company == "" then 0 else 1;
      var lead := LeadCall(f, ReplyId(crm, PersonCall(f, OrgIdOf(f, crm))), OrgIdOf(f, crm));
      && (!Accepts(crm, lead) ==> |r.sent| == at + 2)
      && (Accepts(crm, lead) ==>
            && (|r.sent| == at + 3 <==> f.message != "")
            && (f.message == "" ==> |r.sent| == at + 2)
            && (f.message != "" ==> r.sent[at + 2] == Send(CreateNote(f.message, ReplyId(crm, lead)), key)))
  {
    var (orgSent, orgId) := OrganizationStep(f, key, crm);
    assert orgId == OrgIdOf(f, crm);
    var p := PersonStep(f, key, orgId, crm);
    var r := Deliver(f, key, crm);
    assert r.sent == orgSent + p.sent;
    var person := PersonCall(f, orgId);
    var l := LeadStep(f, key, ReplyId(crm, person), orgId, crm);
    assert p.sent == [p.sent[0]] + l.sent;
    var lead := LeadCall(f, ReplyId(crm, person), orgId);
    var at := if f.company == "" then 0 else 1;
    assert |orgSent| == at;
    if Accepts(crm, lead) {
      var n := NoteStep(f, key, ReplyId(crm, lead), crm);
      assert l.sent == [l.sent[0]] + n.sent;
      assert |r.sent| == at + 2 + |n.sent|;
      if f.message != "" {
        assert r.sent[at + 2] == n.sent[0];
      }
    } else {
      assert |l.sent| == 1;
    }
  }

  /** Delivery answers 200 exactly when the person and lead requests, and the note request if
      there is one, are all accepted, and then reports the lead's id. */
  lemma DeliverSucceeds(f: Form, key: string, crm: CrmCall -> Reply)
    ensures var r := Deliver(f, key, crm);
      var person := PersonCall(f, OrgIdOf(f, crm));
      r.response.status == 200 <==>
        && Accepts(crm, person)
        && var lead := LeadCall(f, ReplyId(crm, person), OrgIdOf(f, crm));
           && Accepts(crm, lead)
           && (f.message == "" || Accepts(crm, CreateNote(f.message, ReplyId(crm, lead))))
           && r.response.body == Created(ReplyId(crm, lead))
  {
  }
}

