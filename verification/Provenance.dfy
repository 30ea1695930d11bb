/** What becomes of the content of a report: the server keeps one record per id, whoever sent it first. */
module Provenance {
  import opened Options
  import opened Incidents
  import opened Upload

  const FRESH := World(LocalDb(map[], map[]), [], [], Server(map[], []))

  /** The reports the device's user made, by id. */
  function Made(made: map<string, EmergencyInput>, a: Action): map<string, EmergencyInput> {
    if a.CreateEmergency? then made[a.record.input.incidentId := a.record.input] else made
  }

  function MadeAll(made: map<string, EmergencyInput>, acts: seq<Action>): map<string, EmergencyInput>
    decreases acts
  {
    if acts == [] then made else MadeAll(Made(made, acts[0]), acts[1..])
  }

  ghost predicate PassCarries(p: Pass, made: map<string, EmergencyInput>) {
    p.Running? ==> forall i :: 0 <= i < |p.todo| ==> p.todo[i].id in made && p.todo[i].payload == made[p.todo[i].id]
  }

  /** Whatever is queued, about to be sent or sent under an id is the report that was made under it. */
  ghost predicate Carries(w: World, made: map<string, EmergencyInput>) {
    && made.Keys == w.db.emergencies.Keys
    && (forall id :: id in w.db.queue ==> id in made && w.db.queue[id].payload == made[id])
    && (forall id :: id in w.db.emergencies && w.db.emergencies[id].deliveryState == LocalOnly ==> w.db.emergencies[id].input == made[id])
    && (forall k :: 0 <= k < |w.passes| ==> PassCarries(w.passes[k], made))
    && (forall i :: 0 <= i < |w.sent| ==> w.sent[i].incidentId in made && w.sent[i] == made[w.sent[i].incidentId])
  }

  lemma NextCarries(p: Pass, made: map<string, EmergencyInput>)
    requires PassCarries(p, made) && p.Running? && p.todo != []
    ensures PassCarries(NextItem(p), made)
  {}

  lemma CreateCarries(w: World, r: Emergency, made: map<string, EmergencyInput>)
    requires WorldInv(w) && Carries(w, made) && CanAct(w, CreateEmergency(r))
    ensures Carries(Do(w, CreateEmergency(r)), Made(made, CreateEmergency(r)))
  {
    var made' := Made(made, CreateEmergency(r));
    forall k | 0 <= k < |w.passes| ensures PassCarries(w.passes[k], made') {
      assert PassCarries(w.passes[k], made);
    }
  }

  lemma CommitCarries(w: World, k: nat, made: map<string, EmergencyInput>)
    requires WorldInv(w) && Carries(w, made) && CanAct(w, Commit(k))
    ensures Carries(Do(w, Commit(k)), made)
  {
    assert PassInv(w.db, w.server, w.passes[k]);
    assert PassCarries(w.passes[k], made);
    assert HeldByServer(w.server, w.passes[k].stage.record);
  }

  lemma SendCarries(w: World, k: nat, made: map<string, EmergencyInput>)
    requires WorldInv(w) && Carries(w, made) && CanAct(w, Send(k))
    ensures Carries(Do(w, Send(k)), made)
  {
    assert PassInv(w.db, w.server, w.passes[k]);
    assert PassCarries(w.passes[k], made);
  }

  lemma FailedCarries(w: World, k: nat, made: map<string, EmergencyInput>)
    requires Carries(w, made) && Started(w, k)
    ensures Carries(Failed(w, k), made)
  {
    NextCarries(w.passes[k], made);
  }

  lemma DoCarries(w: World, a: Action, made: map<string, EmergencyInput>)
    requires WorldInv(w) && Carries(w, made) && CanAct(w, a)
    ensures Carries(Do(w, a), Made(made, a))
  {
    match a
    case CreateEmergency(r) => CreateCarries(w, r, made);
    case Send(k) => SendCarries(w, k, made);
    case Answer(k, _) => assert PassCarries(w.passes[k], made);
    case GiveUp(k) => FailedCarries(w, k, made);
    case Commit(k) => CommitCarries(w, k, made);
    case CommitFails(k) => FailedCarries(w, k, made);
    case Remove(k) => NextCarries(w.passes[k], made);
    case RemoveFails(k) => FailedCarries(w, k, made);
    case _ =>
  }

  /** Over any run, what leaves the device under an id is the report that was made under it. */
  lemma {:induction false} ReportsAreCarried(w: World, acts: seq<Action>, made: map<string, EmergencyInput>)
    requires WorldInv(w) && Carries(w, made) && CanDoAll(w, acts)
    ensures Carries(DoAll(w, acts), MadeAll(made, acts))
    decreases acts
  {
    if acts != [] {
      DoInv(w, acts[0]);
      DoCarries(w, acts[0], made);
      ReportsAreCarried(Do(w, acts[0]), acts[1..], Made(made, acts[0]));
    }
  }

  // ----- who came first -----

  /** The report under this id that the server is given by an action, if the sender's community admits it. */
  function Offered(w: World, a: Action, id: string): seq<EmergencyInput>
    requires CanAct(w, a)
  {
    var given := match a
      case Answer(k, auth) => Some((auth, w.passes[k].todo[0].payload))
      case Late(i, auth) => Some((auth, w.sent[i]))
      case Act(c) => if c.request.Create? then Some((c.auth, c.request.input)) else None
      case _ => None;
    if given.Some? && given.value.1.incidentId == id && given.value.1.communityId == given.value.0.communityId then [given.value.1] else []
  }

  function Admissions(w: World, acts: seq<Action>, id: string): seq<EmergencyInput>
    requires CanDoAll(w, acts)
    decreases acts
  {
    if acts == [] then [] else Offered(w, acts[0], id) + Admissions(Do(w, acts[0]), acts[1..], id)
  }

  /** What one action does to the server's content under an id. */
  lemma OfferStored(w: World, a: Action, id: string)
    requires WorldInv(w) && CanAct(w, a)
    ensures var s, s' := w.server.incidents, Do(w, a).server.incidents;
            && (id in s' <==> id in s || Offered(w, a, id) != [])
            && (id in s ==> s'[id].input == s[id].input)
            && (id !in s && id in s' ==> s'[id].input == Offered(w, a, id)[0])
  {
    if a.Act? {
      HandleInv(w.server, a.call);
      if Touched(w.server, Handle(w.server, a.call).0, id) { HandleConfined(w.server, a.call, id); }
    }
  }

  /** The server's record under an id carries the first report it admitted under it. */
  lemma {:induction false} FirstIsStored(w: World, acts: seq<Action>, id: string)
    requires WorldInv(w) && CanDoAll(w, acts)
    ensures var s, s', offers := w.server.incidents, DoAll(w, acts).server.incidents, Admissions(w, acts, id);
            && (id in s' <==> id in s || offers != [])
            && (id in s ==> s'[id].input == s[id].input)
            && (id !in s && id in s' ==> s'[id].input == offers[0])
    decreases acts
  {
    if acts != [] {
      DoInv(w, acts[0]);
      OfferStored(w, acts[0], id);
      FirstIsStored(Do(w, acts[0]), acts[1..], id);
    }
  }

  /** Another report was admitted before the device's own. */
  ghost predicate Preempted(offers: seq<EmergencyInput>, own: EmergencyInput) {
    exists i :: 0 <= i < |offers| && offers[i] != own && forall j :: 0 <= j < i ==> offers[j] != own
  }

  lemma PreemptedByFirst(offers: seq<EmergencyInput>, own: EmergencyInput)
    ensures Preempted(offers, own) <==> offers != [] && offers[0] != own
  {
    if offers != [] && offers[0] != own {
      assert offers[0] != own;
    }
  }

  lemma FreshRun(acts: seq<Action>)
    requires CanDoAll(FRESH, acts)
    ensures WorldInv(FRESH) && WorldInv(DoAll(FRESH, acts)) && Carries(DoAll(FRESH, acts), MadeAll(map[], acts))
  {
    assert forall x :: LocalInv(FRESH.db, FRESH.server, x);
    NothingLostNothingClaimed(FRESH, acts);
    ReportsAreCarried(FRESH, acts, map[]);
  }

  /** What deduplication by id leaves true, for every run of a device and a server that started empty. A report
      made on the device is queued, or the device shows the content the server has under its id. The server
      has the device's own report there if and only if no other report under that id was admitted before
      it. So the report is nowhere any more exactly when it was dequeued and another one came first. */
  lemma OwnReportStoredExactly(acts: seq<Action>, id: string)
    requires CanDoAll(FRESH, acts) && id in MadeAll(map[], acts)
    ensures var w, own := DoAll(FRESH, acts), MadeAll(map[], acts)[id];
            var preempted := Preempted(Admissions(FRESH, acts, id), own);
            && id in w.db.emergencies
            && (id in w.db.queue ==> w.db.queue[id].payload == own)
            && (id !in w.db.queue ==> id in w.server.incidents && w.db.emergencies[id].input == w.server.incidents[id].input)
            && (id in w.server.incidents ==> (w.server.incidents[id].input == own <==> !preempted))
            && (id !in w.db.queue && w.server.incidents[id].input != own <==> id !in w.db.queue && preempted)
  {
    FreshRun(acts);
    var w := DoAll(FRESH, acts);
    FirstIsStored(FRESH, acts, id);
    PreemptedByFirst(Admissions(FRESH, acts, id), MadeAll(map[], acts)[id]);
    assert LocalInv(w.db, w.server, id);
  }

  // ----- an instance -----

  /** The device makes a report; a report with the same id but other content is admitted from someone else;
      then the device uploads. */
  function PreemptingRun(r: Emergency, theirs: Call, auth: Claims): seq<Action> {
    var id := r.input.incidentId;
    [CreateEmergency(r), Act(theirs), Begin([Item(id, r.input)]), Send(0), Answer(0, auth), Commit(0), Action.Remove(0)]
  }

  lemma PreemptedUpload(w: World, r: Emergency, auth: Claims)
    requires var id := r.input.incidentId;
             && w.passes == [] && w.db.queue == map[id := QueueItem(r.input, 0)]
             && id in w.server.incidents && w.server.incidents[id].input.incidentId == id && r.input.communityId == auth.communityId
    ensures var id := r.input.incidentId;
            var acts := [Begin([Item(id, r.input)]), Send(0), Answer(0, auth), Commit(0), Action.Remove(0)];
            && CanDoAll(w, acts) && id !in DoAll(w, acts).db.queue
            && DoAll(w, acts).db.emergencies == w.db.emergencies[id := w.server.incidents[id]] && DoAll(w, acts).server == w.server
  {
    var items := [Item(r.input.incidentId, r.input)];
    assert forall i :: 0 <= i < |items| ==> items[i].id in w.db.queue && items[i].payload == w.db.queue[items[i].id].payload;
    assert items[0].id == r.input.incidentId;
    var w1 := Do(w, Begin(items));
    assert w1.passes == [Running(items, AtTop)];
    var w2 := Do(w1, Send(0));
    var w3 := Do(w2, Answer(0, auth));
    var w4 := Do(w3, Commit(0));
    Then(w4, Action.Remove(0), []);
    Then(w3, Commit(0), [Action.Remove(0)]);
    Then(w2, Answer(0, auth), [Commit(0), Action.Remove(0)]);
    Then(w1, Send(0), [Answer(0, auth), Commit(0), Action.Remove(0)]);
    Then(w, Begin(items), [Send(0), Answer(0, auth), Commit(0), Action.Remove(0)]);
  }

  /** The queue ends empty, device and server both hold the other content, and the device shows its report as
      received. */
  lemma ReportLost(r: Emergency, theirs: Call, auth: Claims)
    requires r.deliveryState == LocalOnly && r.input.communityId == auth.communityId
    requires theirs.request.Create? && theirs.request.input.communityId == theirs.auth.communityId
    requires theirs.request.input.incidentId == r.input.incidentId && theirs.request.input != r.input
    ensures var acts, id := PreemptingRun(r, theirs, auth), r.input.incidentId;
            && CanDoAll(FRESH, acts)
            && var w := DoAll(FRESH, acts);
               && id !in w.db.queue && id in w.server.incidents && w.server.incidents[id].input == theirs.request.input
               && id in w.db.emergencies && w.db.emergencies[id] == w.server.incidents[id]
               && w.db.emergencies[id].deliveryState == ServerReceived
  {
    var id := r.input.incidentId;
    var w1 := Do(FRESH, CreateEmergency(r));
    var w2 := Do(w1, Act(theirs));
    assert w2.server == Handle(w1.server, theirs).0 == CreateIncident(w1.server, theirs.auth, theirs.request.input).0;
    PreemptedUpload(w2, r, auth);
    var rest := [Begin([Item(id, r.input)]), Send(0), Answer(0, auth), Commit(0), Action.Remove(0)];
    Then(w1, Act(theirs), rest);
    Then(FRESH, CreateEmergency(r), [Act(theirs)] + rest);
    assert [CreateEmergency(r)] + ([Act(theirs)] + rest) == PreemptingRun(r, theirs, auth);
  }
}
