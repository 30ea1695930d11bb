/** Reports on their way from a device to the server: the local queue, a network that loses and delays,
    and the deduplicating server. */
module Upload {
  import opened Incidents

  datatype QueueItem = QueueItem(payload: EmergencyInput, attempts: nat)

  /** The device's database. */
  datatype LocalDb = LocalDb(emergencies: map<string, Emergency>, queue: map<string, QueueItem>)

  /** What is being done with the first item of a pass. */
  datatype Stage =
    | AtTop                        // about to upload
    | Waiting                      // the request was sent
    | Answered(record: Emergency)  // the upload resolved; the local commit is next
    | Committed                    // the server's record is stored; the removal is next

  datatype Item = Item(id: string, payload: EmergencyInput)

  datatype Pass = Ended | Running(todo: seq<Item>, stage: Stage)

  /** The passes are those of all open pages, which share the database: the flag that keeps a second pass
      from starting is the page's own. `sent` holds every upload request that ever left the device: the
      server may still get it. */
  datatype World = World(db: LocalDb, passes: seq<Pass>, sent: seq<EmergencyInput>, server: Server)

  datatype Action =
    | CreateEmergency(record: Emergency)  // one transaction over the local stores
    | Begin(items: seq<Item>)             // store.list(): one more pass
    | Send(k: nat)
    | Answer(k: nat, auth: Claims)        // the server handles the request and the response arrives
    | GiveUp(k: nat)                      // request or response lost, session expired, error response
    | Late(index: nat, auth: Claims)      // the server handles a request sent before
    | Commit(k: nat)
    | CommitFails(k: nat)
    | Remove(k: nat)
    | RemoveFails(k: nat)
    | Abort(k: nat)                       // the page goes away, or recording an attempt fails
    | Act(call: Call)                     // anything else the server is asked
    | End(k: nat)

  function RecordAttempt(queue: map<string, QueueItem>, id: string): map<string, QueueItem> {
    if id in queue then queue[id := queue[id].(attempts := queue[id].attempts + 1)] else queue
  }

  predicate Started(w: World, k: nat) {
    k < |w.passes| && w.passes[k].Running? && w.passes[k].todo != []
  }

  predicate CanAct(w: World, a: Action) {
    match a
    case CreateEmergency(r) =>
      // incident ids are minted with a random UUID
      r.deliveryState == LocalOnly
      && r.input.incidentId !in w.db.emergencies && r.input.incidentId !in w.db.queue && r.input.incidentId !in w.server.incidents
    case Begin(items) =>
      && (forall i :: 0 <= i < |items| ==> items[i].id in w.db.queue && items[i].payload == w.db.queue[items[i].id].payload)
      && (forall id :: id in w.db.queue ==> exists i :: 0 <= i < |items| && items[i].id == id)
    case Send(k) => Started(w, k) && w.passes[k].stage.AtTop?
    case Answer(k, auth) =>
      Started(w, k) && w.passes[k].stage.Waiting? && CreateIncident(w.server, auth, w.passes[k].todo[0].payload).1.Json?
    case GiveUp(k) => Started(w, k) && w.passes[k].stage.Waiting?
    case Late(i, _) => i < |w.sent|
    case Commit(k) => Started(w, k) && w.passes[k].stage.Answered?
    case CommitFails(k) => Started(w, k) && w.passes[k].stage.Answered?
    case Remove(k) => Started(w, k) && w.passes[k].stage.Committed?
    case RemoveFails(k) => Started(w, k) && w.passes[k].stage.Committed?
    case Abort(k) => k < |w.passes| && w.passes[k].Running?
    case Act(_) => true
    case End(k) => k < |w.passes| && w.passes[k].Running? && w.passes[k].todo == []
  }

  function NextItem(p: Pass): Pass
    requires p.Running? && p.todo != []
  {
    Running(p.todo[1..], AtTop)
  }

  /** The catch block. */
  function Failed(w: World, k: nat): World
    requires Started(w, k)
  {
    w.(db := w.db.(queue := RecordAttempt(w.db.queue, w.passes[k].todo[0].id)), passes := w.passes[k := NextItem(w.passes[k])])
  }

  function Do(w: World, a: Action): World
    requires CanAct(w, a)
  {
    match a
    case CreateEmergency(r) =>
      var id := r.input.incidentId;
      w.(db := LocalDb(w.db.emergencies[id := r], w.db.queue[id := QueueItem(r.input, 0)]))
    case Begin(items) => w.(passes := w.passes + [Running(items, AtTop)])
    case Send(k) =>
      w.(passes := w.passes[k := w.passes[k].(stage := Waiting)], sent := w.sent + [w.passes[k].todo[0].payload])
    case Answer(k, auth) =>
      var (server, r) := CreateIncident(w.server, auth, w.passes[k].todo[0].payload);
      w.(server := server, passes := w.passes[k := w.passes[k].(stage := Answered(r.record))])
    case GiveUp(k) => Failed(w, k)
    case Late(i, auth) => w.(server := CreateIncident(w.server, auth, w.sent[i]).0)
    case Commit(k) =>
      var r := w.passes[k].stage.record;
      w.(db := w.db.(emergencies := w.db.emergencies[r.input.incidentId := r]),
         passes := w.passes[k := w.passes[k].(stage := Committed)])
    case CommitFails(k) => Failed(w, k)
    case Remove(k) =>
      w.(db := w.db.(queue := w.db.queue - {w.passes[k].todo[0].id}), passes := w.passes[k := NextItem(w.passes[k])])
    case RemoveFails(k) => Failed(w, k)
    case Abort(k) => w.(passes := w.passes[k := Ended])
    case Act(c) => w.(server := Handle(w.server, c).0)
    case End(k) => w.(passes := w.passes[k := Ended])
  }

  predicate CanDoAll(w: World, acts: seq<Action>)
    decreases acts
  {
    acts == [] || (CanAct(w, acts[0]) && CanDoAll(Do(w, acts[0]), acts[1..]))
  }

  function DoAll(w: World, acts: seq<Action>): World
    requires CanDoAll(w, acts)
    decreases acts
  {
    if acts == [] then w else DoAll(Do(w, acts[0]), acts[1..])
  }

  /** A run that starts with a given action. */
  lemma Then(w: World, a: Action, rest: seq<Action>)
    requires CanAct(w, a) && CanDoAll(Do(w, a), rest)
    ensures CanDoAll(w, [a] + rest) && DoAll(w, [a] + rest) == DoAll(Do(w, a), rest)
  {
    assert ([a] + rest)[1..] == rest;
  }

  // ----- what is never lost and never claimed -----

  /** What the server's record was when its log had come to its `k`-th state. */
  function RecordAt(e: Emergency, log: seq<DeliveryState>, k: nat): Emergency
    requires k < |log|
  {
    e.(deliveryState := log[k], incidentStatus := StatusOf(log[k]),
       assignment := if Assigned in log[..k + 1] then e.assignment else UNASSIGNED)
  }

  /** The record is, field by field, one the server has held. */
  ghost predicate HeldByServer(s: Server, r: Emergency) {
    var id := r.input.incidentId;
    var log := LogOf(s.events, id);
    && id in s.incidents && r.deliveryState != LocalOnly
    && exists k :: 0 <= k < |log| && r == RecordAt(s.incidents[id], log, k)
  }

  ghost predicate LocalInv(db: LocalDb, s: Server, id: string) {
    && (id in db.queue ==> id in db.emergencies && db.queue[id].payload.incidentId == id)
    && (id in db.emergencies ==>
          var r := db.emergencies[id];
          && r.input.incidentId == id
          // no lost report, and no false claim
          && (r.deliveryState == LocalOnly ==> id in db.queue && db.queue[id].payload == r.input)
          && (r.deliveryState != LocalOnly ==> HeldByServer(s, r)))
  }

  ghost predicate PassInv(db: LocalDb, s: Server, p: Pass) {
    p.Running? ==>
      && (forall i :: 0 <= i < |p.todo| ==> p.todo[i].payload.incidentId == p.todo[i].id && p.todo[i].id in db.emergencies)
      && (p.todo != [] && p.stage.Answered? ==>
            p.stage.record.input.incidentId == p.todo[0].id && HeldByServer(s, p.stage.record))
      && (p.todo != [] && p.stage.Committed? ==> db.emergencies[p.todo[0].id].deliveryState != LocalOnly)
  }

  ghost predicate WorldInv(w: World) {
    && ServerInv(w.server)
    && (forall id :: LocalInv(w.db, w.server, id))
    && (forall k :: 0 <= k < |w.passes| ==> PassInv(w.db, w.server, w.passes[k]))
  }

  /** A server that only goes on: reports, reporters and assignments stay, logs grow at the end. */
  ghost predicate GoesOn(s: Server, s': Server) {
    && (forall id :: id in s.incidents ==>
          && id in s'.incidents
          && s'.incidents[id].input == s.incidents[id].input && s'.incidents[id].reporterId == s.incidents[id].reporterId
          && (FullyAssigned(s.incidents[id].assignment) ==> s'.incidents[id].assignment == s.incidents[id].assignment))
    && (forall id :: LogOf(s.events, id) <= LogOf(s'.events, id))
  }

  lemma {:induction false} LogPrefix(events: seq<Event>, events': seq<Event>, id: string)
    requires events <= events'
    ensures LogOf(events, id) <= LogOf(events', id)
    decreases |events'|
  {
    if |events| < |events'| {
      var shorter := events'[..|events'| - 1];
      LogPrefix(events, shorter, id);
    } else {
      assert events == events';
    }
  }

  /** What such a server held it has held ever after. */
  lemma HeldLasts(s: Server, s': Server, r: Emergency)
    requires ServerInv(s) && GoesOn(s, s') && HeldByServer(s, r)
    ensures HeldByServer(s', r)
  {
    var id := r.input.incidentId;
    var log, log' := LogOf(s.events, id), LogOf(s'.events, id);
    assert LogDetermines(s.incidents[id], log);
    var k :| 0 <= k < |log| && r == RecordAt(s.incidents[id], log, k);
    assert log'[..k + 1] == log[..k + 1];
    assert Assigned in log[..k + 1] ==> Assigned in log;
    assert r == RecordAt(s'.incidents[id], log', k);
  }

  lemma HandleGoesOn(s: Server, c: Call)
    requires ServerInv(s)
    ensures ServerInv(Handle(s, c).0) && GoesOn(s, Handle(s, c).0)
  {
    HandleInv(s, c);
    forall id { LogPrefix(s.events, Handle(s, c).0.events, id); }
  }

  lemma CreateGoesOn(s: Server, auth: Claims, input: EmergencyInput)
    requires ServerInv(s)
    ensures var (s', r) := CreateIncident(s, auth, input);
            && ServerInv(s') && GoesOn(s, s')
            && (r.Json? ==> r.record.input.incidentId == input.incidentId && HeldByServer(s', r.record))
  {
    CreateInv(s, auth, input);
    var (s', r) := CreateIncident(s, auth, input);
    forall id { LogPrefix(s.events, s'.events, id); }
    if r.Json? {
      var log := LogOf(s'.events, input.incidentId);
      assert LogDetermines(s'.incidents[input.incidentId], log);
      assert log[..|log| - 1 + 1] == log;
      assert r.record == RecordAt(s'.incidents[input.incidentId], log, |log| - 1);
      RanksRise(log, |log| - 1, |log| - 1);
    }
  }

  /** A device that only goes on keeps its reports, and what was once received stays so. */
  ghost predicate KeepsReports(db: LocalDb, db': LocalDb) {
    forall id :: id in db.emergencies ==>
      id in db'.emergencies && (db.emergencies[id].deliveryState != LocalOnly ==> db'.emergencies[id].deliveryState != LocalOnly)
  }

  /** Whatever one pass or the server does, the other passes can go on. */
  lemma PassesKept(w: World, w': World, k: nat)
    requires WorldInv(w) && KeepsReports(w.db, w'.db) && GoesOn(w.server, w'.server)
    requires |w.passes| <= |w'.passes| <= |w.passes| + 1
    requires forall j :: 0 <= j < |w'.passes| && j != k ==> j < |w.passes| && w'.passes[j] == w.passes[j]
    requires k < |w'.passes| ==> PassInv(w'.db, w'.server, w'.passes[k])
    ensures forall j :: 0 <= j < |w'.passes| ==> PassInv(w'.db, w'.server, w'.passes[j])
  {
    forall j | 0 <= j < |w'.passes|
      ensures PassInv(w'.db, w'.server, w'.passes[j])
    {
      var p := w'.passes[j];
      if j != k {
        assert PassInv(w.db, w.server, p);
        if p.Running? && p.todo != [] && p.stage.Answered? { HeldLasts(w.server, w'.server, p.stage.record); }
      }
    }
  }

  lemma ServerMoves(w: World, s': Server)
    requires WorldInv(w) && ServerInv(s') && GoesOn(w.server, s')
    ensures WorldInv(w.(server := s'))
  {
    forall id ensures LocalInv(w.db, s', id) {
      assert LocalInv(w.db, w.server, id);
      if id in w.db.emergencies && w.db.emergencies[id].deliveryState != LocalOnly { HeldLasts(w.server, s', w.db.emergencies[id]); }
    }
    PassesKept(w, w.(server := s'), |w.passes|);
  }

  /** A change of the one pass alone. */
  lemma PassMoves(w: World, k: nat, p: Pass)
    requires WorldInv(w) && k < |w.passes| && PassInv(w.db, w.server, p)
    ensures WorldInv(w.(passes := w.passes[k := p]))
  {}

  lemma FailedInv(w: World, k: nat)
    requires WorldInv(w) && Started(w, k)
    ensures WorldInv(Failed(w, k))
  {
    var w' := Failed(w, k);
    forall id ensures LocalInv(w'.db, w'.server, id) { assert LocalInv(w.db, w.server, id); }
    assert PassInv(w.db, w.server, w.passes[k]);
    PassesKept(w, w', k);
  }

  lemma CreateEmergencyInv(w: World, r: Emergency)
    requires WorldInv(w) && CanAct(w, CreateEmergency(r))
    ensures WorldInv(Do(w, CreateEmergency(r)))
  {
    var w' := Do(w, CreateEmergency(r));
    forall id ensures LocalInv(w'.db, w'.server, id) { assert LocalInv(w.db, w.server, id); }
    PassesKept(w, w', |w.passes|);
  }

  lemma CommitInv(w: World, k: nat)
    requires WorldInv(w) && CanAct(w, Commit(k))
    ensures WorldInv(Do(w, Commit(k)))
  {
    var w' := Do(w, Commit(k));
    assert PassInv(w.db, w.server, w.passes[k]);
    forall id ensures LocalInv(w'.db, w'.server, id) { assert LocalInv(w.db, w.server, id); }
    PassesKept(w, w', k);
  }

  lemma RemoveInv(w: World, k: nat)
    requires WorldInv(w) && CanAct(w, Remove(k))
    ensures WorldInv(Do(w, Remove(k)))
  {
    var w' := Do(w, Remove(k));
    assert PassInv(w.db, w.server, w.passes[k]);
    forall id ensures LocalInv(w'.db, w'.server, id) { assert LocalInv(w.db, w.server, id); }
    PassesKept(w, w', k);
  }

  lemma BeginInv(w: World, items: seq<Item>)
    requires WorldInv(w) && CanAct(w, Begin(items))
    ensures WorldInv(Do(w, Begin(items)))
  {
    forall i | 0 <= i < |items|
      ensures items[i].payload.incidentId == items[i].id && items[i].id in w.db.emergencies
    {
      assert LocalInv(w.db, w.server, items[i].id);
    }
    PassesKept(w, Do(w, Begin(items)), |w.passes|);
  }

  lemma AnswerInv(w: World, k: nat, auth: Claims)
    requires WorldInv(w) && CanAct(w, Answer(k, auth))
    ensures WorldInv(Do(w, Answer(k, auth)))
  {
    var payload := w.passes[k].todo[0].payload;
    assert PassInv(w.db, w.server, w.passes[k]);
    CreateGoesOn(w.server, auth, payload);
    var moved := w.(server := CreateIncident(w.server, auth, payload).0);
    ServerMoves(w, moved.server);
    PassMoves(moved, k, Do(w, Answer(k, auth)).passes[k]);
  }

  lemma DoInv(w: World, a: Action)
    requires WorldInv(w) && CanAct(w, a)
    ensures WorldInv(Do(w, a))
    ensures w.db.emergencies.Keys <= Do(w, a).db.emergencies.Keys
  {
    match a
    case CreateEmergency(r) => CreateEmergencyInv(w, r);
    case Begin(items) => BeginInv(w, items);
    case Send(k) =>
      assert PassInv(w.db, w.server, w.passes[k]);
      PassMoves(w, k, w.passes[k].(stage := Waiting));
    case Answer(k, auth) => AnswerInv(w, k, auth);
    case GiveUp(k) => FailedInv(w, k);
    case Late(i, auth) =>
      CreateGoesOn(w.server, auth, w.sent[i]);
      ServerMoves(w, CreateIncident(w.server, auth, w.sent[i]).0);
    case Commit(k) => CommitInv(w, k);
    case CommitFails(k) => FailedInv(w, k);
    case Remove(k) => RemoveInv(w, k);
    case RemoveFails(k) => FailedInv(w, k);
    case Act(c) =>
      HandleGoesOn(w.server, c);
      ServerMoves(w, Handle(w.server, c).0);
    case Abort(k) => PassMoves(w, k, Ended);
    case End(k) => PassMoves(w, k, Ended);
  }

  /** No lost report and no false claim, whatever the network, the local database and the staff do, and
      however many pages run a pass at once: every record that is only local is still queued, with the same
      content; every other one is, field by field, a record the server has held; and no id that was ever
      reported disappears from the device. */
  lemma {:induction false} NothingLostNothingClaimed(w: World, acts: seq<Action>)
    requires WorldInv(w) && CanDoAll(w, acts)
    ensures WorldInv(DoAll(w, acts))
    ensures w.db.emergencies.Keys <= DoAll(w, acts).db.emergencies.Keys
    decreases acts
  {
    if acts != [] {
      DoInv(w, acts[0]);
      NothingLostNothingClaimed(Do(w, acts[0]), acts[1..]);
    }
  }

  /** So it is for every device and server that started empty. */
  lemma NothingLostFromEmpty(acts: seq<Action>, id: string)
    requires CanDoAll(World(LocalDb(map[], map[]), [], [], Server(map[], [])), acts)
    ensures var w := DoAll(World(LocalDb(map[], map[]), [], [], Server(map[], [])), acts);
            && (id in w.db.queue ==> id in w.db.emergencies)
            && (id in w.db.emergencies ==>
                  if w.db.emergencies[id].deliveryState == LocalOnly then
                    id in w.db.queue && w.db.queue[id].payload == w.db.emergencies[id].input
                  else HeldByServer(w.server, w.db.emergencies[id]))
  {
    var w := World(LocalDb(map[], map[]), [], [], Server(map[], []));
    assert forall x :: LocalInv(w.db, w.server, x);
    NothingLostNothingClaimed(w, acts);
    assert LocalInv(DoAll(w, acts).db, DoAll(w, acts).server, id);
  }

  /** An id leaves the queue only when a record the server held is stored for it. */
  lemma DequeuedIsHeld(w: World, acts: seq<Action>, id: string)
    requires WorldInv(w) && CanDoAll(w, acts) && id in w.db.queue
    ensures var w' := DoAll(w, acts);
            id in w'.db.emergencies && (id !in w'.db.queue ==> HeldByServer(w'.server, w'.db.emergencies[id]))
  {
    NothingLostNothingClaimed(w, acts);
    assert LocalInv(w.db, w.server, id);
    assert LocalInv(DoAll(w, acts).db, DoAll(w, acts).server, id);
  }

  /** The device's view is never ahead of the server's. */
  lemma NeverAhead(w: World, id: string)
    requires WorldInv(w) && id in w.db.emergencies && w.db.emergencies[id].deliveryState != LocalOnly
    ensures id in w.server.incidents && Rank(w.db.emergencies[id].deliveryState) <= Rank(w.server.incidents[id].deliveryState)
  {
    assert LocalInv(w.db, w.server, id);
    var log := LogOf(w.server.events, id);
    assert LogDetermines(w.server.incidents[id], log);
    var i :| 0 <= i < |log| && w.db.emergencies[id] == RecordAt(w.server.incidents[id], log, i);
    RanksRise(log, i, |log| - 1);
  }

  /** Effectively exactly once: however often a report is sent, resent and handled late, the server has one
      record for it and one receipt event. */
  lemma ReceivedOnce(w: World, id: string)
    requires WorldInv(w)
    ensures var log := LogOf(w.server.events, id);
            if id in w.server.incidents then log != [] && (forall i :: 0 <= i < |log| ==> (log[i] == ServerReceived <==> i == 0))
            else log == []
  {
    if id in w.server.incidents {
      assert LogDetermines(w.server.incidents[id], LogOf(w.server.events, id));
      LogIsShort(LogOf(w.server.events, id));
    }
  }
}
