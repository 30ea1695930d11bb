/** The server's incidents: creation with deduplication, the status machine, and the audit log. */
module Incidents {
  import opened Options
  import opened Messages

  datatype DeliveryState =
    | LocalOnly | Relayed | GatewayReceived | ServerReceived | ResponderAcknowledged
    | Assigned | InProgress | Resolved | Cancelled | Expired

  datatype IncidentStatus = NEW | ACKNOWLEDGED | ASSIGNED | IN_PROGRESS | RESOLVED | CANCELLED | EXPIRED

  datatype UserRole = Resident | Staff | Admin

  datatype User = User(communityId: string, role: UserRole)

  datatype Claims = Claims(userId: string, communityId: string, role: UserRole)

  /** What a device transmits; `details` holds the remaining schema fields. */
  datatype EmergencyInput = EmergencyInput(incidentId: string, communityId: string, details: Payload)

  datatype Assignment = Assignment(
    responderId: Option<string>, responderType: Option<string>, assignedBy: Option<string>, assignedAt: Option<string>)

  const UNASSIGNED := Assignment(None, None, None, None)

  datatype Emergency = Emergency(
    input: EmergencyInput,
    reporterId: string,
    deliveryState: DeliveryState,
    incidentStatus: Option<IncidentStatus>,
    assignment: Assignment)

  datatype Event = Event(incidentId: string, state: DeliveryState, detail: Option<string>)

  // ----- the status machine -----

  function AllowedTransitions(from: IncidentStatus): seq<IncidentStatus> {
    match from
    case NEW => [ACKNOWLEDGED, ASSIGNED, CANCELLED]
    case ACKNOWLEDGED => [ASSIGNED, RESOLVED, CANCELLED]
    case ASSIGNED => [IN_PROGRESS, RESOLVED, CANCELLED]
    case IN_PROGRESS => [RESOLVED, CANCELLED]
    case RESOLVED => []
    case CANCELLED => []
    case EXPIRED => []
  }

  predicate IsValidIncidentStatusTransition(from: IncidentStatus, to: IncidentStatus) {
    to in AllowedTransitions(from)
  }

  /** None where the lookup throws. */
  function DeliveryStateForIncidentStatus(status: IncidentStatus): Option<DeliveryState> {
    match status
    case ACKNOWLEDGED => Some(ResponderAcknowledged)
    case ASSIGNED => Some(Assigned)
    case IN_PROGRESS => Some(InProgress)
    case RESOLVED => Some(Resolved)
    case CANCELLED => Some(Cancelled)
    case _ => None
  }

  // ----- requests -----

  datatype Server = Server(incidents: map<string, Emergency>, events: seq<Event>)

  datatype PatchStatus = ToInProgress | ToCancelled

  datatype Request =
    | Create(input: EmergencyInput)
    | Get(id: string)
    | Acknowledge(id: string, note: Option<string>)
    | Assign(id: string, responderId: string, responderType: string, note: Option<string>)
    | Resolve(id: string, note: Option<string>)
    | Patch(id: string, status: Option<PatchStatus>, note: Option<string>)

  datatype Response = Json(status: int, record: Emergency) | HttpError(code: int)

  /** One request: who sends it, the accounts at that moment, and the server's time as text. */
  datatype Call = Call(auth: Claims, users: map<string, User>, request: Request, now: string)

  /** What a caller may see: the own community's incidents; a resident, only the own reports. */
  predicate Visible(e: Emergency, auth: Claims) {
    e.input.communityId == auth.communityId && (auth.role.Resident? ==> e.reporterId == auth.userId)
  }

  /** Unknown, or not visible to the caller. */
  function FindInCommunity(s: Server, id: string, auth: Claims): (r: Option<Emergency>)
    ensures r.Some? <==> id in s.incidents && Visible(s.incidents[id], auth)
    ensures r.Some? ==> r.value == s.incidents[id]
  {
    if id !in s.incidents || s.incidents[id].input.communityId != auth.communityId then None
    else if auth.role.Resident? && s.incidents[id].reporterId != auth.userId then None
    else Some(s.incidents[id])
  }

  function CreateIncident(s: Server, auth: Claims, input: EmergencyInput): (Server, Response) {
    if input.communityId != auth.communityId then (s, HttpError(403))
    else if input.incidentId in s.incidents then (s, Json(200, s.incidents[input.incidentId]))
    else
      var incident := Emergency(input, auth.userId, ServerReceived, Some(NEW), UNASSIGNED);
      (Server(s.incidents[input.incidentId := incident], s.events + [Event(input.incidentId, ServerReceived, None)]),
       Json(201, incident))
  }

  /** Validates the move, stores the record the caller prepared, and appends the event. */
  function TransitionIncidentStatus(s: Server, incident: Emergency, to: IncidentStatus, note: Option<string>): (Server, Response) {
    var from := if incident.incidentStatus.Some? then incident.incidentStatus.value else NEW;
    if !IsValidIncidentStatusTransition(from, to) then (s, HttpError(409))
    else
      match DeliveryStateForIncidentStatus(to)
      case None => (s, HttpError(500))
      case Some(state) =>
        var id := incident.input.incidentId;
        var moved := incident.(incidentStatus := Some(to), deliveryState := state);
        (Server(s.incidents[id := moved], s.events + [Event(id, state, note)]), Json(200, moved))
  }

  function AssignIncident(s: Server, c: Call): (Server, Response)
    requires c.request.Assign?
  {
    match FindInCommunity(s, c.request.id, c.auth)
    case None => (s, HttpError(404))
    case Some(incident) =>
      var responder := c.request.responderId;
      if responder !in c.users || c.users[responder].communityId != c.auth.communityId || c.users[responder].role.Resident? then
        (s, HttpError(400))
      else
        var assignment := Assignment(Some(responder), Some(c.request.responderType), Some(c.auth.userId), Some(c.now));
        TransitionIncidentStatus(s, incident.(assignment := assignment), ASSIGNED, c.request.note)
  }

  function MoveIncident(s: Server, auth: Claims, id: string, to: IncidentStatus, note: Option<string>): (Server, Response) {
    match FindInCommunity(s, id, auth)
    case None => (s, HttpError(404))
    case Some(incident) => TransitionIncidentStatus(s, incident, to, note)
  }

  function PatchIncident(s: Server, auth: Claims, id: string, status: Option<PatchStatus>, note: Option<string>): (Server, Response) {
    match status
    case Some(to) => MoveIncident(s, auth, id, if to.ToInProgress? then IN_PROGRESS else CANCELLED, note)
    case None => GetIncident(s, auth, id)
  }

  function GetIncident(s: Server, auth: Claims, id: string): (Server, Response) {
    match FindInCommunity(s, id, auth)
    case None => (s, HttpError(404))
    case Some(incident) => (s, Json(200, incident))
  }

  /** Every route but creating and looking at one incident is for staff. */
  function Handle(s: Server, c: Call): (Server, Response) {
    var r := c.request;
    if r.Create? then CreateIncident(s, c.auth, r.input)
    else if r.Get? then GetIncident(s, c.auth, r.id)
    else if c.auth.role.Resident? then (s, HttpError(403))
    else if r.Acknowledge? then MoveIncident(s, c.auth, r.id, ACKNOWLEDGED, r.note)
    else if r.Assign? then AssignIncident(s, c)
    else if r.Resolve? then MoveIncident(s, c.auth, r.id, RESOLVED, r.note)
    else PatchIncident(s, c.auth, r.id, r.status, r.note)
  }

  function HandleAll(s: Server, calls: seq<Call>): Server
    decreases calls
  {
    if calls == [] then s else HandleAll(Handle(s, calls[0]).0, calls[1..])
  }

  // ----- the audit log -----

  function LogOf(events: seq<Event>, id: string): seq<DeliveryState> {
    if events == [] then []
    else
      var e := events[|events| - 1];
      LogOf(events[..|events| - 1], id) + if e.incidentId == id then [e.state] else []
  }

  /** The status an event records. */
  function StatusOf(state: DeliveryState): Option<IncidentStatus> {
    match state
    case ServerReceived => Some(NEW)
    case ResponderAcknowledged => Some(ACKNOWLEDGED)
    case Assigned => Some(ASSIGNED)
    case InProgress => Some(IN_PROGRESS)
    case Resolved => Some(RESOLVED)
    case Cancelled => Some(CANCELLED)
    case _ => None
  }

  /** How far along a state is; every allowed move goes up. */
  function Rank(state: DeliveryState): nat {
    match state
    case LocalOnly => 0
    case Relayed => 1
    case GatewayReceived => 2
    case ServerReceived => 3
    case ResponderAcknowledged => 4
    case Assigned => 5
    case InProgress => 6
    case _ => 7
  }

  predicate LegalMove(from: DeliveryState, to: DeliveryState) {
    StatusOf(from).Some? && StatusOf(to).Some?
    && IsValidIncidentStatusTransition(StatusOf(from).value, StatusOf(to).value)
  }

  ghost predicate LegalLog(log: seq<DeliveryState>) {
    && log != [] && log[0] == ServerReceived
    && forall i :: 1 <= i < |log| ==> LegalMove(log[i - 1], log[i])
  }

  predicate FullyAssigned(a: Assignment) {
    a.responderId.Some? && a.responderType.Some? && a.assignedBy.Some? && a.assignedAt.Some?
  }

  /** The log of an incident determines its record's state, and says whether it is assigned. */
  ghost predicate LogDetermines(e: Emergency, log: seq<DeliveryState>) {
    && LegalLog(log)
    && e.deliveryState == log[|log| - 1]
    && e.incidentStatus == StatusOf(log[|log| - 1])
    && (Assigned in log ==> FullyAssigned(e.assignment))
    && (Assigned !in log ==> e.assignment == UNASSIGNED)
  }

  ghost predicate ServerInv(s: Server) {
    && (forall id :: id in s.incidents ==> s.incidents[id].input.incidentId == id && LogDetermines(s.incidents[id], LogOf(s.events, id)))
    && (forall id :: id !in s.incidents ==> LogOf(s.events, id) == [])
  }

  lemma LogMore(events: seq<Event>, e: Event, id: string)
    ensures LogOf(events + [e], id) == LogOf(events, id) + if e.incidentId == id then [e.state] else []
  {
    assert (events + [e])[..|events|] == events;
  }

  lemma MoveRises(from: DeliveryState, to: DeliveryState)
    requires LegalMove(from, to)
    ensures 3 <= Rank(from) < Rank(to) && to != ServerReceived
  {}

  lemma {:induction false} RanksRise(log: seq<DeliveryState>, i: nat, j: nat)
    requires LegalLog(log) && i <= j < |log|
    ensures Rank(log[i]) + (j - i) <= Rank(log[j]) && 3 <= Rank(log[i])
    decreases j
  {
    if i < j {
      RanksRise(log, i, j - 1);
      MoveRises(log[j - 1], log[j]);
    } else if i > 0 {
      RanksRise(log, i - 1, i - 1);
      MoveRises(log[i - 1], log[i]);
    }
  }

  /** At most five events: no state comes twice, and receipt by the server comes exactly once, first. */
  lemma LogIsShort(log: seq<DeliveryState>)
    requires LegalLog(log)
    ensures |log| <= 5
    ensures forall i, j :: 0 <= i < j < |log| ==> log[i] != log[j]
    ensures forall i :: 0 <= i < |log| ==> (log[i] == ServerReceived <==> i == 0)
  {
    RanksRise(log, 0, |log| - 1);
    forall i, j | 0 <= i < j < |log| ensures log[i] != log[j] { RanksRise(log, i, j); }
    assert Rank(log[|log| - 1]) <= 7 && Rank(log[0]) == 3;
  }

  /** After the guard the lookup has a mapping. */
  lemma GuardedLookup(from: IncidentStatus, to: IncidentStatus)
    ensures IsValidIncidentStatusTransition(from, to) ==> DeliveryStateForIncidentStatus(to).Some?
  {}

  /** The record a transition is given: the stored one, with another assignment when it is to be assigned. */
  ghost predicate Prepared(s: Server, incident: Emergency, to: IncidentStatus) {
    var id := incident.input.incidentId;
    && id in s.incidents
    && incident.(assignment := s.incidents[id].assignment) == s.incidents[id]
    && (if to == ASSIGNED then FullyAssigned(incident.assignment) else incident == s.incidents[id])
  }

  /** An error changes nothing; a transition touches one incident and never an assignment that is set. */
  ghost predicate Careful(s: Server, s': Server, r: Response) {
    && (r.HttpError? ==> s' == s)
    && (forall id :: id in s.incidents ==>
          id in s'.incidents && s'.incidents[id].input == s.incidents[id].input
          && s'.incidents[id].reporterId == s.incidents[id].reporterId
          && (FullyAssigned(s.incidents[id].assignment) ==> s'.incidents[id].assignment == s.incidents[id].assignment))
    && s.events <= s'.events
    && r != HttpError(500)
  }

  /** The event a move records is the event of its status. */
  lemma StatusRoundTrip(to: IncidentStatus)
    ensures var state := DeliveryStateForIncidentStatus(to);
            state.Some? ==> StatusOf(state.value) == Some(to) && (state.value == Assigned <==> to == ASSIGNED)
  {}

  /** An allowed move extends a legal log; to ASSIGNED it goes only when that never happened. */
  lemma LegalExtension(log: seq<DeliveryState>, to: IncidentStatus)
    requires LegalLog(log) && StatusOf(log[|log| - 1]).Some?
    requires IsValidIncidentStatusTransition(StatusOf(log[|log| - 1]).value, to)
    ensures var state := DeliveryStateForIncidentStatus(to);
            state.Some? && LegalLog(log + [state.value]) && (to == ASSIGNED ==> Assigned !in log)
  {
    GuardedLookup(StatusOf(log[|log| - 1]).value, to);
    StatusRoundTrip(to);
    var log' := log + [DeliveryStateForIncidentStatus(to).value];
    forall i | 1 <= i < |log'| ensures LegalMove(log'[i - 1], log'[i]) {
      if i < |log| { assert LegalMove(log[i - 1], log[i]); }
    }
    if to == ASSIGNED && Assigned in log {
      var i :| 0 <= i < |log| && log[i] == Assigned;
      RanksRise(log', i, |log|);
    }
  }

  lemma LastStatus(log: seq<DeliveryState>)
    requires LegalLog(log)
    ensures StatusOf(log[|log| - 1]).Some?
  {
    var i := |log| - 1;
    assert i > 0 ==> LegalMove(log[i - 1], log[i]);
  }

  /** One incident stored together with its event. */
  lemma StoreInv(s: Server, e: Emergency, event: Event)
    requires ServerInv(s) && event.incidentId == e.input.incidentId
    requires LogDetermines(e, LogOf(s.events, event.incidentId) + [event.state])
    ensures ServerInv(Server(s.incidents[event.incidentId := e], s.events + [event]))
  {
    var s' := Server(s.incidents[event.incidentId := e], s.events + [event]);
    forall id
      ensures id in s'.incidents ==>
                s'.incidents[id].input.incidentId == id && LogDetermines(s'.incidents[id], LogOf(s'.events, id))
      ensures id !in s'.incidents ==> LogOf(s'.events, id) == []
    {
      LogMore(s.events, event, id);
    }
  }

  /** A moved record is what its extended log says. */
  lemma MovedDetermines(stored: Emergency, incident: Emergency, log: seq<DeliveryState>, to: IncidentStatus)
    requires LogDetermines(stored, log) && incident.(assignment := stored.assignment) == stored
    requires if to == ASSIGNED then FullyAssigned(incident.assignment) else incident == stored
    requires StatusOf(log[|log| - 1]).Some? && IsValidIncidentStatusTransition(StatusOf(log[|log| - 1]).value, to)
    ensures DeliveryStateForIncidentStatus(to).Some?
    ensures var state := DeliveryStateForIncidentStatus(to).value;
            LogDetermines(incident.(incidentStatus := Some(to), deliveryState := state), log + [state])
    ensures to == ASSIGNED ==> stored.assignment == UNASSIGNED
  {
    LegalExtension(log, to);
    StatusRoundTrip(to);
    var state := DeliveryStateForIncidentStatus(to).value;
    assert Assigned in log + [state] <==> Assigned in log || to == ASSIGNED;
  }

  lemma StoreCareful(s: Server, e: Emergency, event: Event)
    requires event.incidentId in s.incidents
    requires var stored := s.incidents[event.incidentId];
             e.input == stored.input && e.reporterId == stored.reporterId
             && (FullyAssigned(stored.assignment) ==> e.assignment == stored.assignment)
    ensures Careful(s, Server(s.incidents[event.incidentId := e], s.events + [event]), Json(200, e))
  {}

  lemma TransitionInv(s: Server, incident: Emergency, to: IncidentStatus, note: Option<string>)
    requires ServerInv(s) && Prepared(s, incident, to)
    ensures ServerInv(TransitionIncidentStatus(s, incident, to, note).0)
    ensures Careful(s, TransitionIncidentStatus(s, incident, to, note).0, TransitionIncidentStatus(s, incident, to, note).1)
  {
    var id := incident.input.incidentId;
    var log := LogOf(s.events, id);
    assert LogDetermines(s.incidents[id], log);
    LastStatus(log);
    var from := StatusOf(log[|log| - 1]).value;
    assert incident.incidentStatus == Some(from);
    if IsValidIncidentStatusTransition(from, to) {
      MovedDetermines(s.incidents[id], incident, log, to);
      var state := DeliveryStateForIncidentStatus(to).value;
      var moved := incident.(incidentStatus := Some(to), deliveryState := state);
      assert TransitionIncidentStatus(s, incident, to, note)
          == (Server(s.incidents[id := moved], s.events + [Event(id, state, note)]), Json(200, moved));
      StoreInv(s, moved, Event(id, state, note));
      StoreCareful(s, moved, Event(id, state, note));
    } else {
      assert TransitionIncidentStatus(s, incident, to, note) == (s, HttpError(409));
    }
  }

  /** Every request keeps the log and the records in step, rejects without effect, rewrites no assignment,
      and never reaches the lookup that throws. */
  lemma HandleInv(s: Server, c: Call)
    requires ServerInv(s)
    ensures ServerInv(Handle(s, c).0) && Careful(s, Handle(s, c).0, Handle(s, c).1)
  {
    var r := c.request;
    if r.Create? {
      CreateInv(s, c.auth, r.input);
    } else if !r.Get? && !c.auth.role.Resident? {
      if r.Acknowledge? { MoveInv(s, c.auth, r.id, ACKNOWLEDGED, r.note); }
      else if r.Assign? { AssignInv(s, c); }
      else if r.Resolve? { MoveInv(s, c.auth, r.id, RESOLVED, r.note); }
      else if r.status.Some? {
        MoveInv(s, c.auth, r.id, if r.status.value.ToInProgress? then IN_PROGRESS else CANCELLED, r.note);
      }
    }
  }

  lemma CreateInv(s: Server, auth: Claims, input: EmergencyInput)
    requires ServerInv(s)
    ensures var (s', r) := CreateIncident(s, auth, input); ServerInv(s') && Careful(s, s', r)
  {
    if input.communityId == auth.communityId && input.incidentId !in s.incidents {
      assert LogOf(s.events, input.incidentId) == [];
      StoreInv(s, Emergency(input, auth.userId, ServerReceived, Some(NEW), UNASSIGNED), Event(input.incidentId, ServerReceived, None));
    }
  }

  lemma AssignInv(s: Server, c: Call)
    requires ServerInv(s) && c.request.Assign?
    ensures var (s', r) := AssignIncident(s, c); ServerInv(s') && Careful(s, s', r)
  {
    var found := FindInCommunity(s, c.request.id, c.auth);
    if found.Some? {
      var a := Assignment(Some(c.request.responderId), Some(c.request.responderType), Some(c.auth.userId), Some(c.now));
      var incident := found.value.(assignment := a);
      assert Prepared(s, incident, ASSIGNED);
      TransitionInv(s, incident, ASSIGNED, c.request.note);
      assert AssignIncident(s, c) == (s, HttpError(400))
          || AssignIncident(s, c) == TransitionIncidentStatus(s, incident, ASSIGNED, c.request.note);
    }
  }

  lemma MoveInv(s: Server, auth: Claims, id: string, to: IncidentStatus, note: Option<string>)
    requires ServerInv(s) && to != ASSIGNED
    ensures var (s', r) := MoveIncident(s, auth, id, to, note); ServerInv(s') && Careful(s, s', r)
  {
    var found := FindInCommunity(s, id, auth);
    if found.Some? {
      TransitionInv(s, found.value, to, note);
    }
  }

  /** The incident a request is about, if it is about one that should exist. */
  function Target(q: Request): Option<string> {
    match q
    case Create(_) => None
    case Get(id) => Some(id)
    case Acknowledge(id, _) => Some(id)
    case Assign(id, _, _, _) => Some(id)
    case Resolve(id, _) => Some(id)
    case Patch(id, _, _) => Some(id)
  }

  lemma MoveAnswers(s: Server, incident: Emergency, to: IncidentStatus, note: Option<string>)
    ensures var r := TransitionIncidentStatus(s, incident, to, note).1;
            r != HttpError(404) && (r.Json? ==> r.record.input == incident.input && r.record.reporterId == incident.reporterId)
  {}

  /** On an incident that should exist, nothing is answered about what the caller may not see: residents may
      only look, a permitted request is met with "not found" exactly when no incident visible to the caller
      has the id, and any record it returns is that incident's. */
  lemma AnswersWithinView(s: Server, c: Call, id: string)
    requires ServerInv(s) && Target(c.request) == Some(id)
    ensures var r := Handle(s, c).1;
            var permitted := c.request.Get? || !c.auth.role.Resident?;
            && (!permitted ==> r == HttpError(403))
            && (permitted ==> (r == HttpError(404) <==> !(id in s.incidents && Visible(s.incidents[id], c.auth))))
            && (r.Json? ==> id in s.incidents && r.record.input == s.incidents[id].input && Visible(r.record, c.auth))
  {
    var found := FindInCommunity(s, id, c.auth);
    if found.Some? && !c.request.Get? {
      var q := c.request;
      var a := if q.Assign? then Assignment(Some(q.responderId), Some(q.responderType), Some(c.auth.userId), Some(c.now)) else UNASSIGNED;
      MoveAnswers(s, found.value, ACKNOWLEDGED, q.note);
      MoveAnswers(s, found.value.(assignment := a), ASSIGNED, q.note);
      MoveAnswers(s, found.value, RESOLVED, q.note);
      MoveAnswers(s, found.value, IN_PROGRESS, q.note);
      MoveAnswers(s, found.value, CANCELLED, q.note);
    }
  }

  /** For every request: a record the caller may not see is returned exactly by a creation under the id of an
      incident the caller may not see, which is answered with that incident as if it were a resend. */
  lemma UnseenRecordExactly(s: Server, c: Call)
    requires ServerInv(s)
    ensures var r := Handle(s, c).1;
            r.Json? ==> (!Visible(r.record, c.auth) <==>
                           && c.request.Create? && c.request.input.incidentId in s.incidents
                           && !Visible(s.incidents[c.request.input.incidentId], c.auth))
  {
    if Target(c.request).Some? { AnswersWithinView(s, c, Target(c.request).value); }
  }

  /** An instance: an account of another community, or another resident, that sends any report under the id. */
  lemma ResendShowsRecord(s: Server, auth: Claims, users: map<string, User>, id: string, details: Payload, now: string)
    requires ServerInv(s) && id in s.incidents && !Visible(s.incidents[id], auth)
    ensures var r := Handle(s, Call(auth, users, Create(EmergencyInput(id, auth.communityId, details)), now)).1;
            r == Json(200, s.incidents[id]) && !Visible(r.record, auth)
  {}

  /** The stored record is moved, one event is appended, and the moved record is the answer. */
  ghost predicate Advanced(s: Server, s': Server, r: Response, id: string, status: IncidentStatus, state: DeliveryState,
                           note: Option<string>, assignment: Assignment)
    requires id in s.incidents
  {
    var moved := s.incidents[id].(incidentStatus := Some(status), deliveryState := state, assignment := assignment);
    && r == Json(200, moved)
    && s' == Server(s.incidents[id := moved], s.events + [Event(id, state, note)])
  }

  /** Refused for the state it is in, without effect. */
  ghost predicate Conflict(s: Server, s': Server, r: Response) {
    r == HttpError(409) && s' == s
  }

  ghost predicate StaffRequest(s: Server, c: Call, id: string) {
    ServerInv(s) && Target(c.request) == Some(id) && !c.auth.role.Resident? && id in s.incidents && Visible(s.incidents[id], c.auth)
  }

  lemma StatusStored(s: Server, id: string)
    requires ServerInv(s) && id in s.incidents
    ensures s.incidents[id].incidentStatus.Some? && s.incidents[id].input.incidentId == id
  {
    LastStatus(LogOf(s.events, id));
  }

  lemma AcknowledgeExactly(s: Server, c: Call, id: string)
    requires StaffRequest(s, c, id) && c.request.Acknowledge?
    ensures var (s', r) := Handle(s, c);
            var e := s.incidents[id];
            if e.incidentStatus == Some(NEW) then Advanced(s, s', r, id, ACKNOWLEDGED, ResponderAcknowledged, c.request.note, e.assignment)
            else Conflict(s, s', r)
  {
    StatusStored(s, id);
  }

  lemma ResolveExactly(s: Server, c: Call, id: string)
    requires StaffRequest(s, c, id) && c.request.Resolve?
    ensures var (s', r) := Handle(s, c);
            var e := s.incidents[id];
            if e.incidentStatus == Some(ACKNOWLEDGED) || e.incidentStatus == Some(ASSIGNED) || e.incidentStatus == Some(IN_PROGRESS) then
              Advanced(s, s', r, id, RESOLVED, Resolved, c.request.note, e.assignment)
            else Conflict(s, s', r)
  {
    StatusStored(s, id);
  }

  /** Assigning sets all four fields, to what the request and the session say. */
  lemma AssignExactly(s: Server, c: Call, id: string)
    requires StaffRequest(s, c, id) && c.request.Assign?
    ensures var (s', r) := Handle(s, c);
            var e, q := s.incidents[id], c.request;
            if !(q.responderId in c.users && c.users[q.responderId].communityId == c.auth.communityId
                 && (c.users[q.responderId].role.Staff? || c.users[q.responderId].role.Admin?)) then
              r == HttpError(400) && s' == s
            else if e.incidentStatus == Some(NEW) || e.incidentStatus == Some(ACKNOWLEDGED) then
              Advanced(s, s', r, id, ASSIGNED, Assigned, q.note,
                       Assignment(Some(q.responderId), Some(q.responderType), Some(c.auth.userId), Some(c.now)))
            else Conflict(s, s', r)
  {
    StatusStored(s, id);
  }

  /** A patch starts work on an assigned incident, cancels one that is not closed, or only looks. */
  lemma PatchExactly(s: Server, c: Call, id: string)
    requires StaffRequest(s, c, id) && c.request.Patch?
    ensures var (s', r) := Handle(s, c);
            var e, q := s.incidents[id], c.request;
            match q.status
            case None => r == Json(200, e) && s' == s
            case Some(ToInProgress) =>
              if e.incidentStatus == Some(ASSIGNED) then Advanced(s, s', r, id, IN_PROGRESS, InProgress, q.note, e.assignment)
              else Conflict(s, s', r)
            case Some(ToCancelled) =>
              if e.incidentStatus == Some(RESOLVED) || e.incidentStatus == Some(CANCELLED) || e.incidentStatus == Some(EXPIRED) then
                Conflict(s, s', r)
              else Advanced(s, s', r, id, CANCELLED, Cancelled, q.note, e.assignment)
  {
    StatusStored(s, id);
  }

  /** A new report is stored as received, new and unassigned, with its event, for whoever is signed in; a known
      one is answered without effect; one for another community is refused. */
  lemma CreateExactly(s: Server, c: Call)
    requires c.request.Create?
    ensures var (s', r) := Handle(s, c);
            var input := c.request.input;
            var id := input.incidentId;
            if input.communityId != c.auth.communityId then r == HttpError(403) && s' == s
            else if id in s.incidents then r == Json(200, s.incidents[id]) && s' == s
            else
              var e := Emergency(input, c.auth.userId, ServerReceived, Some(NEW), Assignment(None, None, None, None));
              r == Json(201, e) && s' == Server(s.incidents[id := e], s.events + [Event(id, ServerReceived, None)])
  {}

  /** A request made or changed the record under this id. */
  predicate Touched(s: Server, s': Server, id: string) {
    id in s'.incidents && (id in s.incidents ==> s'.incidents[id] != s.incidents[id])
  }

  lemma MoveConfined(s: Server, auth: Claims, target: string, to: IncidentStatus, note: Option<string>, id: string)
    requires ServerInv(s) && Touched(s, MoveIncident(s, auth, target, to, note).0, id)
    ensures var e := MoveIncident(s, auth, target, to, note).0.incidents[id];
            && id in s.incidents && e.input.communityId == auth.communityId && e.assignment == s.incidents[id].assignment
  {
    assert FindInCommunity(s, target, auth).Some?;
    assert s.incidents[target].input.incidentId == target;
  }

  lemma AssignConfined(s: Server, c: Call, id: string)
    requires ServerInv(s) && c.request.Assign? && Touched(s, AssignIncident(s, c).0, id)
    ensures var e := AssignIncident(s, c).0.incidents[id];
            && id in s.incidents && e.input.communityId == c.auth.communityId
            && e.assignment.responderId == Some(c.request.responderId) && c.request.responderId in c.users
            && var responder := c.users[c.request.responderId];
               responder.communityId == c.auth.communityId && !responder.role.Resident?
  {
    assert FindInCommunity(s, c.request.id, c.auth).Some?;
    assert s.incidents[c.request.id].input.incidentId == c.request.id;
  }

  /** Who may change what: a request changes no incident outside the caller's community, and a resident's
      changes none at all; a new incident is the caller's own; and whoever is newly assigned is on the staff
      of that community. */
  lemma HandleConfined(s: Server, c: Call, id: string)
    requires ServerInv(s) && Touched(s, Handle(s, c).0, id)
    ensures var e := Handle(s, c).0.incidents[id];
            && e.input.communityId == c.auth.communityId
            && (id !in s.incidents ==> c.request == Create(e.input) && e.reporterId == c.auth.userId)
            && (id in s.incidents ==> !c.auth.role.Resident?)
            && (id in s.incidents && e.assignment != s.incidents[id].assignment ==>
                  && e.assignment.responderId.Some? && e.assignment.responderId.value in c.users
                  && var responder := c.users[e.assignment.responderId.value];
                     responder.communityId == e.input.communityId && !responder.role.Resident?)
  {
    var r := c.request;
    if !r.Create? && !r.Get? {
      if r.Acknowledge? { MoveConfined(s, c.auth, r.id, ACKNOWLEDGED, r.note, id); }
      else if r.Assign? { AssignConfined(s, c, id); }
      else if r.Resolve? { MoveConfined(s, c.auth, r.id, RESOLVED, r.note, id); }
      else if r.status.Some? {
        MoveConfined(s, c.auth, r.id, if r.status.value.ToInProgress? then IN_PROGRESS else CANCELLED, r.note, id);
      }
    }
  }

  /** The audit log determines each incident, over any run of requests: it is a legal path of at most five
      events from receipt, its end is the stored status and delivery state, and the four assignment fields
      are set together exactly when it holds an assignment. */
  lemma {:induction false} AuditLogDetermines(s: Server, calls: seq<Call>)
    requires ServerInv(s)
    ensures ServerInv(HandleAll(s, calls))
    ensures forall id :: id in HandleAll(s, calls).incidents ==> |LogOf(HandleAll(s, calls).events, id)| <= 5
    decreases calls
  {
    if calls != [] {
      HandleInv(s, calls[0]);
      AuditLogDetermines(Handle(s, calls[0]).0, calls[1..]);
    } else {
      forall id | id in s.incidents ensures |LogOf(s.events, id)| <= 5 { LogIsShort(LogOf(s.events, id)); }
    }
  }

  /** So it is for every server that started empty. */
  lemma AuditFromEmpty(calls: seq<Call>, id: string)
    ensures var s := HandleAll(Server(map[], []), calls);
            if id in s.incidents then LogDetermines(s.incidents[id], LogOf(s.events, id)) && |LogOf(s.events, id)| <= 5
            else LogOf(s.events, id) == []
  {
    AuditLogDetermines(Server(map[], []), calls);
  }
}
