/** The handlers as they change the collections: fields set on a loaded document, then saved. */
module IncidentController {
  import opened Options
  import opened Incidents

  class Controller {
    var incidents: map<string, Emergency>
    var events: seq<Event>

    ghost function State(): Server
      reads this
    {
      Server(incidents, events)
    }

    constructor ()
      ensures State() == Server(map[], [])
    {
      incidents, events := map[], [];
    }

    method CreateIncident(auth: Claims, input: EmergencyInput) returns (r: Response)
      modifies this
      ensures (State(), r) == old(Incidents.CreateIncident(State(), auth, input))
      ensures old(ServerInv(State())) ==> ServerInv(State()) && Careful(old(State()), State(), r)
    {
      if ServerInv(State()) { CreateInv(State(), auth, input); }
      if input.communityId != auth.communityId {
        return HttpError(403);
      }
      if input.incidentId in incidents {
        return Json(200, incidents[input.incidentId]);
      }
      var incident := Emergency(input, auth.userId, ServerReceived, Some(NEW), UNASSIGNED);
      incidents := incidents[input.incidentId := incident];
      events := events + [Event(input.incidentId, ServerReceived, None)];
      r := Json(201, incident);
    }

    method FindIncidentInCommunity(id: string, auth: Claims) returns (incident: Option<Emergency>)
      ensures incident == FindInCommunity(State(), id, auth)
      ensures incident.Some? <==> id in incidents && Visible(incidents[id], auth)
      ensures incident.Some? ==> incident.value == incidents[id]
    {
      if id !in incidents || incidents[id].input.communityId != auth.communityId {
        return None;
      }
      if auth.role.Resident? && incidents[id].reporterId != auth.userId {
        return None;
      }
      incident := Some(incidents[id]);
    }

    method GetIncident(auth: Claims, id: string) returns (r: Response)
      ensures (State(), r) == Incidents.GetIncident(State(), auth, id)
      ensures r.Json? <==> id in incidents && Visible(incidents[id], auth)
      ensures r.Json? ==> r.record == incidents[id]
    {
      var incident := FindIncidentInCommunity(id, auth);
      r := if incident.None? then HttpError(404) else Json(200, incident.value);
    }

    method TransitionIncidentStatus(document: Emergency, to: IncidentStatus, note: Option<string>) returns (r: Response)
      modifies this
      ensures (State(), r) == old(Incidents.TransitionIncidentStatus(State(), document, to, note))
      ensures old(ServerInv(State()) && Prepared(State(), document, to)) ==> ServerInv(State()) && Careful(old(State()), State(), r)
    {
      if ServerInv(State()) && Prepared(State(), document, to) { TransitionInv(State(), document, to, note); }
      var from := if document.incidentStatus.Some? then document.incidentStatus.value else NEW;
      if !IsValidIncidentStatusTransition(from, to) {
        return HttpError(409);
      }
      var deliveryState := DeliveryStateForIncidentStatus(to);
      if deliveryState.None? {
        return HttpError(500);
      }
      var incident := document.(incidentStatus := Some(to), deliveryState := deliveryState.value);
      incidents := incidents[incident.input.incidentId := incident];
      events := events + [Event(incident.input.incidentId, deliveryState.value, note)];
      r := Json(200, incident);
    }

    method MoveIncident(auth: Claims, id: string, to: IncidentStatus, note: Option<string>) returns (r: Response)
      modifies this
      ensures (State(), r) == old(Incidents.MoveIncident(State(), auth, id, to, note))
      ensures old(ServerInv(State())) && to != ASSIGNED ==> ServerInv(State()) && Careful(old(State()), State(), r)
    {
      if ServerInv(State()) && to != ASSIGNED { MoveInv(State(), auth, id, to, note); }
      var incident := FindIncidentInCommunity(id, auth);
      if incident.None? {
        return HttpError(404);
      }
      r := TransitionIncidentStatus(incident.value, to, note);
    }

    method AssignIncident(c: Call) returns (r: Response)
      requires c.request.Assign?
      modifies this
      ensures (State(), r) == old(Incidents.AssignIncident(State(), c))
      ensures old(ServerInv(State())) ==> ServerInv(State()) && Careful(old(State()), State(), r)
    {
      if ServerInv(State()) { AssignInv(State(), c); }
      var found := FindIncidentInCommunity(c.request.id, c.auth);
      if found.None? {
        return HttpError(404);
      }
      var responder := c.request.responderId;
      if responder !in c.users || c.users[responder].communityId != c.auth.communityId || c.users[responder].role.Resident? {
        return HttpError(400);
      }
      var incident := found.value.(assignment :=
        Assignment(Some(responder), Some(c.request.responderType), Some(c.auth.userId), Some(c.now)));
      r := TransitionIncidentStatus(incident, ASSIGNED, c.request.note);
    }

    method Serve(c: Call) returns (r: Response)
      modifies this
      ensures (State(), r) == old(Handle(State(), c))
      ensures old(ServerInv(State())) ==> ServerInv(State()) && Careful(old(State()), State(), r)
    {
      if ServerInv(State()) { HandleInv(State(), c); }
      var q := c.request;
      if q.Create? {
        r := CreateIncident(c.auth, q.input);
      } else if q.Get? {
        r := GetIncident(c.auth, q.id);
      } else if c.auth.role.Resident? {
        r := HttpError(403);
      } else if q.Acknowledge? {
        r := MoveIncident(c.auth, q.id, ACKNOWLEDGED, q.note);
      } else if q.Assign? {
        r := AssignIncident(c);
      } else if q.Resolve? {
        r := MoveIncident(c.auth, q.id, RESOLVED, q.note);
      } else if q.status.Some? {
        r := MoveIncident(c.auth, q.id, if q.status.value.ToInProgress? then IN_PROGRESS else CANCELLED, q.note);
      } else {
        r := GetIncident(c.auth, q.id);
      }
    }
  }
}
