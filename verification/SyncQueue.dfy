/** The pass over the queue as the code runs it, on the device's two stores. */
module SyncQueue {
  import opened Incidents
  import opened IncidentController
  import opened Upload

  /** The two stores of the device's database that a pass touches. */
  class DeviceDb {
    var emergencies: map<string, Emergency>
    var queue: map<string, QueueItem>

    ghost function State(): LocalDb
      reads this
    {
      LocalDb(emergencies, queue)
    }

    constructor ()
      ensures State() == LocalDb(map[], map[])
    {
      emergencies, queue := map[], map[];
    }

    method RecordAttempt(id: string)
      modifies this`queue
      ensures queue == Upload.RecordAttempt(old(queue), id)
    {
      if id in queue { queue := queue[id := queue[id].(attempts := queue[id].attempts + 1)]; }
    }

    method Remove(id: string)
      modifies this`queue
      ensures queue == old(queue) - {id}
    {
      queue := queue - {id};
    }

    method MarkServerReceived(record: Emergency)
      modifies this`emergencies
      ensures emergencies == old(emergencies)[record.input.incidentId := record]
    {
      emergencies := emergencies[record.input.incidentId := record];
    }
  }

  /** What befalls one item: the network, the local commit and the removal may each fail. */
  datatype Fate = LoseRequest | LoseResponse | FailCommit | FailRemove | Deliver

  /** The server refuses reports for another community, whatever it holds. */
  predicate Admitted(auth: Claims, item: Item) {
    item.payload.communityId == auth.communityId
  }

  predicate Reaches(auth: Claims, item: Item, fate: Fate) {
    !fate.LoseRequest? && Admitted(auth, item)
  }

  predicate Commits(auth: Claims, item: Item, fate: Fate) {
    (fate.FailRemove? || fate.Deliver?) && Admitted(auth, item)
  }

  predicate Succeeds(auth: Claims, item: Item, fate: Fate) {
    fate.Deliver? && Admitted(auth, item)
  }

  /** The stored records after one item: the server's, under its own id, if the pass got as far as the commit. */
  function RecordsAfter(records: map<string, Emergency>, s: Server, auth: Claims, item: Item, fate: Fate): map<string, Emergency> {
    if Commits(auth, item, fate) then
      var r := CreateIncident(s, auth, item.payload).1;
      if r.Json? then records[r.record.input.incidentId := r.record] else records
    else records
  }

  function ServerAfter(s: Server, auth: Claims, item: Item, fate: Fate): Server {
    if fate.LoseRequest? then s else CreateIncident(s, auth, item.payload).0
  }

  /** Records and server after a pass over all items. */
  function Swept(records: map<string, Emergency>, s: Server, auth: Claims, items: seq<Item>, fates: seq<Fate>)
    : (map<string, Emergency>, Server)
    requires |fates| == |items|
  {
    if items == [] then (records, s)
    else
      var n := |items| - 1;
      var (records', s') := Swept(records, s, auth, items[..n], fates[..n]);
      (RecordsAfter(records', s', auth, items[n], fates[n]), ServerAfter(s', auth, items[n], fates[n]))
  }

  /** The ids of the items that succeed, or of those that do not, in order. */
  function Chosen(auth: Claims, items: seq<Item>, fates: seq<Fate>, success: bool): seq<string>
    requires |fates| == |items|
  {
    if items == [] then []
    else
      var n := |items| - 1;
      Chosen(auth, items[..n], fates[..n], success) + if Succeeds(auth, items[n], fates[n]) == success then [items[n].id] else []
  }

  /** The reports that reached the server and were admitted, and those whose answer was committed. */
  function ReachedIds(auth: Claims, items: seq<Item>, fates: seq<Fate>): set<string>
    requires |fates| == |items|
  {
    if items == [] then {}
    else
      var n := |items| - 1;
      ReachedIds(auth, items[..n], fates[..n]) + if Reaches(auth, items[n], fates[n]) then {items[n].payload.incidentId} else {}
  }

  function CommittedIds(auth: Claims, items: seq<Item>, fates: seq<Fate>): set<string>
    requires |fates| == |items|
  {
    if items == [] then {}
    else
      var n := |items| - 1;
      CommittedIds(auth, items[..n], fates[..n]) + if Commits(auth, items[n], fates[n]) then {items[n].payload.incidentId} else {}
  }

  /** Incidents are kept under their own ids. */
  ghost predicate Keyed(s: Server) {
    forall id :: id in s.incidents ==> s.incidents[id].input.incidentId == id
  }

  /** The server has gained exactly the reports that reached it, and changed none it had. */
  ghost predicate Gained(s: Server, s': Server, reached: set<string>) {
    && Keyed(s') && s'.incidents.Keys == s.incidents.Keys + reached
    && forall id :: id in s.incidents ==> s'.incidents[id] == s.incidents[id]
  }

  /** Every committed record is the server's, every other one is as it was. */
  ghost predicate Updated(records: map<string, Emergency>, records': map<string, Emergency>, s': Server, committed: set<string>) {
    && committed <= s'.incidents.Keys && records'.Keys == records.Keys + committed
    && forall id :: id in records' ==> records'[id] == if id in committed then s'.incidents[id] else records[id]
  }

  /** What a pass leaves. */
  ghost predicate SweptLaw(records: map<string, Emergency>, s: Server, auth: Claims, items: seq<Item>, fates: seq<Fate>,
                           records': map<string, Emergency>, s': Server)
    requires |fates| == |items|
  {
    Gained(s, s', ReachedIds(auth, items, fates)) && Updated(records, records', s', CommittedIds(auth, items, fates))
  }

  lemma {:induction false} SweptMeans(records: map<string, Emergency>, s: Server, auth: Claims, items: seq<Item>, fates: seq<Fate>)
    requires |fates| == |items| && Keyed(s)
    ensures var (records', s') := Swept(records, s, auth, items, fates);
            SweptLaw(records, s, auth, items, fates, records', s')
    decreases |items|
  {
    if items != [] {
      var n := |items| - 1;
      SweptMeans(records, s, auth, items[..n], fates[..n]);
      var (r1, s1) := Swept(records, s, auth, items[..n], fates[..n]);
      var reached, committed := ReachedIds(auth, items[..n], fates[..n]), CommittedIds(auth, items[..n], fates[..n]);
      ItemMeans(records, s, r1, s1, reached, committed, auth, items[n], fates[n]);
    }
  }

  /** What the server's answer to one upload is. */
  lemma Answers(s: Server, auth: Claims, item: Item)
    requires Keyed(s)
    ensures var (s', r) := CreateIncident(s, auth, item.payload);
            var id := item.payload.incidentId;
            && (r.Json? <==> Admitted(auth, item)) && (r.HttpError? ==> s' == s)
            && (r.Json? ==> Gained(s, s', {id}) && r.record == s'.incidents[id] && r.record.input.incidentId == id)
  {}

  lemma UpdatedNext(records: map<string, Emergency>, r1: map<string, Emergency>, s1: Server, s2: Server, committed: set<string>, id: string)
    requires Updated(records, r1, s1, committed) && Gained(s1, s2, {id})
    ensures Updated(records, r1, s2, committed)
    ensures Updated(records, r1[id := s2.incidents[id]], s2, committed + {id})
  {
    assert forall x :: x in committed ==> x in s1.incidents && s2.incidents[x] == s1.incidents[x];
  }

  /** What one more item adds. */
  lemma ItemMeans(records: map<string, Emergency>, s: Server, r1: map<string, Emergency>, s1: Server,
                  reached: set<string>, committed: set<string>, auth: Claims, item: Item, fate: Fate)
    requires Gained(s, s1, reached) && Updated(records, r1, s1, committed)
    ensures Gained(s, ServerAfter(s1, auth, item, fate), reached + if Reaches(auth, item, fate) then {item.payload.incidentId} else {})
    ensures Updated(records, RecordsAfter(r1, s1, auth, item, fate), ServerAfter(s1, auth, item, fate),
                    committed + if Commits(auth, item, fate) then {item.payload.incidentId} else {})
  {
    Answers(s1, auth, item);
    var (s2, r) := CreateIncident(s1, auth, item.payload);
    if Reaches(auth, item, fate) {
      UpdatedNext(records, r1, s1, s2, committed, item.payload.incidentId);
      assert ServerAfter(s1, auth, item, fate) == s2;
    } else {
      assert ServerAfter(s1, auth, item, fate) == s1 && RecordsAfter(r1, s1, auth, item, fate) == r1;
      assert committed + {} == committed && reached + {} == reached;
    }
  }

  ghost function WorldOf(db: DeviceDb, todo: seq<Item>, sent: seq<EmergencyInput>, server: Controller): World
    reads db, server
  {
    World(db.State(), [Running(todo, AtTop)], sent, server.State())
  }

  /** The actions can be taken, and lead there. */
  predicate RunsTo(w: World, acts: seq<Action>, w': World) {
    CanDoAll(w, acts) && DoAll(w, acts) == w'
  }

  lemma ThenThree(w: World, a: Action, b: Action, c: Action, last: seq<Action>)
    requires CanAct(w, a) && CanAct(Do(w, a), b) && CanAct(Do(Do(w, a), b), c)
    requires CanDoAll(Do(Do(Do(w, a), b), c), last)
    ensures CanDoAll(w, [a, b, c] + last) && DoAll(w, [a, b, c] + last) == DoAll(Do(Do(Do(w, a), b), c), last)
  {
    var w1 := Do(w, a);
    var w2 := Do(w1, b);
    Then(w2, c, last);
    Then(w1, b, [c] + last);
    Then(w, a, [b] + ([c] + last));
    assert [a] + ([b] + ([c] + last)) == [a, b, c] + last;
  }

  /** One item: upload, commit, remove; any failure is recorded and the item stays queued. `acts` are the
      moves of the machine in Upload that this amounts to. */
  method ProcessItem(db: DeviceDb, server: Controller, auth: Claims, todo: seq<Item>, fate: Fate, ghost sent: seq<EmergencyInput>)
    returns (success: bool, ghost acts: seq<Action>)
    requires todo != []
    modifies db, server
    ensures success <==> Succeeds(auth, todo[0], fate)
    ensures success <==> fate.Deliver? && CreateIncident(old(server.State()), auth, todo[0].payload).1.Json?
    ensures db.queue == if success then old(db.queue) - {todo[0].id} else Upload.RecordAttempt(old(db.queue), todo[0].id)
    ensures server.State() == ServerAfter(old(server.State()), auth, todo[0], fate)
    ensures db.emergencies == RecordsAfter(old(db.emergencies), old(server.State()), auth, todo[0], fate)
    ensures RunsTo(old(WorldOf(db, todo, sent, server)), acts, WorldOf(db, todo[1..], sent + [todo[0].payload], server))
  {
    ghost var w := WorldOf(db, todo, sent, server);
    var item := todo[0];
    if fate.LoseRequest? {
      db.RecordAttempt(item.id);
      acts := Lost(w, todo, sent);
      return false, acts;
    }
    var response := server.CreateIncident(auth, item.payload);
    if fate.LoseResponse? || response.HttpError? {
      db.RecordAttempt(item.id);
      acts := Unanswered(w, todo, sent, auth);
      return false, acts;
    }
    if fate.FailCommit? {
      db.RecordAttempt(item.id);
      acts := Uncommitted(w, todo, auth);
      return false, acts;
    }
    db.MarkServerReceived(response.record);
    if fate.FailRemove? {
      db.RecordAttempt(item.id);
      acts := Unremoved(w, todo, auth);
      return false, acts;
    }
    db.Remove(item.id);
    acts := Removed(w, todo, auth);
    success := true;
  }

  // ----- the moves of the machine that each fate amounts to -----

  ghost predicate AtItem(w: World, todo: seq<Item>) {
    todo != [] && w.passes == [Running(todo, AtTop)]
  }

  lemma Lost(w: World, todo: seq<Item>, sent: seq<EmergencyInput>) returns (acts: seq<Action>)
    requires AtItem(w, todo) && w.sent == sent
    ensures CanDoAll(w, acts)
    ensures DoAll(w, acts) == World(w.db.(queue := Upload.RecordAttempt(w.db.queue, todo[0].id)),
                                    [Running(todo[1..], AtTop)], sent + [todo[0].payload], w.server)
  {
    acts := [Send(0)] + [GiveUp(0)];
    Then(Do(w, Send(0)), GiveUp(0), []);
    Then(w, Send(0), [GiveUp(0)]);
  }

  lemma Unanswered(w: World, todo: seq<Item>, sent: seq<EmergencyInput>, auth: Claims) returns (acts: seq<Action>)
    requires AtItem(w, todo) && w.sent == sent
    ensures CanDoAll(w, acts)
    ensures DoAll(w, acts) == World(w.db.(queue := Upload.RecordAttempt(w.db.queue, todo[0].id)),
                                    [Running(todo[1..], AtTop)], sent + [todo[0].payload],
                                    CreateIncident(w.server, auth, todo[0].payload).0)
  {
    acts := [Send(0), Late(|sent|, auth), GiveUp(0)] + [];
    ThenThree(w, Send(0), Late(|sent|, auth), GiveUp(0), []);
  }

  lemma Uncommitted(w: World, todo: seq<Item>, auth: Claims) returns (acts: seq<Action>)
    requires AtItem(w, todo) && CreateIncident(w.server, auth, todo[0].payload).1.Json?
    ensures CanDoAll(w, acts)
    ensures DoAll(w, acts) == World(w.db.(queue := Upload.RecordAttempt(w.db.queue, todo[0].id)),
                                    [Running(todo[1..], AtTop)], w.sent + [todo[0].payload],
                                    CreateIncident(w.server, auth, todo[0].payload).0)
  {
    acts := [Send(0), Answer(0, auth), CommitFails(0)] + [];
    ThenThree(w, Send(0), Answer(0, auth), CommitFails(0), []);
  }

  /** The world once the server's answer is committed. */
  function CommittedWorld(w: World, todo: seq<Item>, auth: Claims): World
    requires AtItem(w, todo) && CreateIncident(w.server, auth, todo[0].payload).1.Json?
  {
    Do(Do(Do(w, Send(0)), Answer(0, auth)), Commit(0))
  }

  lemma Unremoved(w: World, todo: seq<Item>, auth: Claims) returns (acts: seq<Action>)
    requires AtItem(w, todo) && CreateIncident(w.server, auth, todo[0].payload).1.Json?
    ensures CanDoAll(w, acts)
    ensures var r := CreateIncident(w.server, auth, todo[0].payload).1.record;
            DoAll(w, acts) == World(LocalDb(w.db.emergencies[r.input.incidentId := r], Upload.RecordAttempt(w.db.queue, todo[0].id)),
                                    [Running(todo[1..], AtTop)], w.sent + [todo[0].payload],
                                    CreateIncident(w.server, auth, todo[0].payload).0)
  {
    acts := [Send(0), Answer(0, auth), Commit(0)] + [RemoveFails(0)];
    Then(CommittedWorld(w, todo, auth), RemoveFails(0), []);
    ThenThree(w, Send(0), Answer(0, auth), Commit(0), [RemoveFails(0)]);
  }

  lemma Removed(w: World, todo: seq<Item>, auth: Claims) returns (acts: seq<Action>)
    requires AtItem(w, todo) && CreateIncident(w.server, auth, todo[0].payload).1.Json?
    ensures CanDoAll(w, acts)
    ensures var r := CreateIncident(w.server, auth, todo[0].payload).1.record;
            DoAll(w, acts) == World(LocalDb(w.db.emergencies[r.input.incidentId := r], w.db.queue - {todo[0].id}),
                                    [Running(todo[1..], AtTop)], w.sent + [todo[0].payload],
                                    CreateIncident(w.server, auth, todo[0].payload).0)
  {
    acts := [Send(0), Answer(0, auth), Commit(0)] + [Action.Remove(0)];
    Then(CommittedWorld(w, todo, auth), Action.Remove(0), []);
    ThenThree(w, Send(0), Answer(0, auth), Commit(0), [Action.Remove(0)]);
  }

  // ----- the whole pass -----

  predicate DistinctItems(items: seq<Item>) {
    forall i, j :: 0 <= i < j < |items| ==> items[i].id != items[j].id
  }

  /** The item waits with one more attempt, otherwise as it was. */
  ghost predicate Requeued(before: map<string, QueueItem>, after: map<string, QueueItem>, id: string) {
    id in before && id in after && after[id] == before[id].(attempts := before[id].attempts + 1)
  }

  /** Of the items dealt with, those that succeeded are off the queue and the others wait; all else is untouched. */
  ghost predicate Accounted(auth: Claims, items: seq<Item>, fates: seq<Fate>, n: nat,
                            before: map<string, QueueItem>, after: map<string, QueueItem>)
    requires n <= |items| == |fates|
  {
    && (forall k :: 0 <= k < n ==>
          if Succeeds(auth, items[k], fates[k]) then items[k].id !in after else Requeued(before, after, items[k].id))
    && (forall id :: (forall k :: 0 <= k < n ==> items[k].id != id) ==>
          (id in after <==> id in before) && (id in before ==> after[id] == before[id]))
  }

  lemma AccountedNext(auth: Claims, items: seq<Item>, fates: seq<Fate>, n: nat,
                      before: map<string, QueueItem>, after: map<string, QueueItem>)
    requires n < |items| == |fates| && DistinctItems(items) && items[n].id in before && Accounted(auth, items, fates, n, before, after)
    ensures var id := items[n].id;
            Accounted(auth, items, fates, n + 1, before,
                      if Succeeds(auth, items[n], fates[n]) then after - {id} else Upload.RecordAttempt(after, id))
  {
    assert forall k :: 0 <= k < n ==> items[k].id != items[n].id;
  }

  /** How far a pass has come after `n` items. */
  ghost predicate Progress(auth: Claims, items: seq<Item>, fates: seq<Fate>, n: nat, before: LocalDb, s: Server,
                           after: LocalDb, s': Server, succeeded: seq<string>, failed: seq<string>)
    requires n <= |items| == |fates|
  {
    && succeeded == Chosen(auth, items[..n], fates[..n], true) && failed == Chosen(auth, items[..n], fates[..n], false)
    && (after.emergencies, s') == Swept(before.emergencies, s, auth, items[..n], fates[..n])
    && Accounted(auth, items, fates, n, before.queue, after.queue)
  }

  lemma ProgressNext(auth: Claims, items: seq<Item>, fates: seq<Fate>, n: nat, before: LocalDb, s: Server,
                     after: LocalDb, s': Server, succeeded: seq<string>, failed: seq<string>)
    requires n < |items| == |fates| && DistinctItems(items) && items[n].id in before.queue
    requires Progress(auth, items, fates, n, before, s, after, s', succeeded, failed)
    ensures var (item, fate) := (items[n], fates[n]);
            var success := Succeeds(auth, item, fate);
            Progress(auth, items, fates, n + 1, before, s,
                     LocalDb(RecordsAfter(after.emergencies, s', auth, item, fate),
                             if success then after.queue - {item.id} else Upload.RecordAttempt(after.queue, item.id)),
                     ServerAfter(s', auth, item, fate),
                     if success then succeeded + [item.id] else succeeded, if success then failed else failed + [item.id])
  {
    assert items[..n + 1][..n] == items[..n] && fates[..n + 1][..n] == fates[..n];
    AccountedNext(auth, items, fates, n, before.queue, after.queue);
  }

  /** The loop over the items listed when the pass began. It is one run of the machine. Which items succeed,
      and so are off the queue, follows from what befell them: nothing failed and the server admitted the
      report. All others wait with one more attempt. Server and records are as the pass should leave them. */
  method ProcessSyncQueue(db: DeviceDb, server: Controller, auth: Claims, items: seq<Item>, fates: seq<Fate>)
    returns (succeeded: seq<string>, failed: seq<string>, ghost acts: seq<Action>)
    requires |fates| == |items| && DistinctItems(items)
    requires forall i :: 0 <= i < |items| ==> items[i].id in db.queue
    modifies db, server
    ensures succeeded == Chosen(auth, items, fates, true) && failed == Chosen(auth, items, fates, false)
    ensures Accounted(auth, items, fates, |items|, old(db.queue), db.queue)
    ensures (db.emergencies, server.State()) == Swept(old(db.emergencies), old(server.State()), auth, items, fates)
    ensures old(Keyed(server.State())) ==>
              SweptLaw(old(db.emergencies), old(server.State()), auth, items, fates, db.emergencies, server.State())
    ensures exists sent :: RunsTo(old(WorldOf(db, items, [], server)), acts, WorldOf(db, [], sent, server))
  {
    ghost var w, before, s := WorldOf(db, items, [], server), db.State(), server.State();
    ghost var sent: seq<EmergencyInput> := [];
    succeeded, failed, acts := [], [], [];
    var i := 0;
    while i < |items|
      invariant 0 <= i <= |items|
      invariant RunsTo(w, acts, WorldOf(db, items[i..], sent, server))
      invariant Progress(auth, items, fates, i, before, s, db.State(), server.State(), succeeded, failed)
    {
      ProgressNext(auth, items, fates, i, before, s, db.State(), server.State(), succeeded, failed);
      var success;
      ghost var more;
      ghost var here := WorldOf(db, items[i..], sent, server);
      success, more := ProcessItem(db, server, auth, items[i..], fates[i], sent);
      assert items[i..][1..] == items[i + 1..];
      RunOn(w, acts, here, more, WorldOf(db, items[i + 1..], sent + [items[i].payload], server));
      acts, sent := acts + more, sent + [items[i].payload];
      if success { succeeded := succeeded + [items[i].id]; } else { failed := failed + [items[i].id]; }
      i := i + 1;
    }
    assert items[..i] == items && fates[..i] == fates;
    if Keyed(s) { SweptMeans(before.emergencies, s, auth, items, fates); }
  }

  /** Every item is in exactly one of the two lists. */
  lemma {:induction false} ChosenSplits(auth: Claims, items: seq<Item>, fates: seq<Fate>)
    requires |fates| == |items|
    ensures |Chosen(auth, items, fates, true)| + |Chosen(auth, items, fates, false)| == |items|
    ensures forall success, id :: id in Chosen(auth, items, fates, success) <==>
              exists k :: 0 <= k < |items| && items[k].id == id && Succeeds(auth, items[k], fates[k]) == success
    decreases |items|
  {
    if items != [] {
      var n := |items| - 1;
      ChosenSplits(auth, items[..n], fates[..n]);
      forall success, id
        ensures id in Chosen(auth, items, fates, success) <==>
                  exists k :: 0 <= k < |items| && items[k].id == id && Succeeds(auth, items[k], fates[k]) == success
      {
        ChosenLast(auth, items, fates, success, id);
      }
    }
  }

  lemma ChosenLast(auth: Claims, items: seq<Item>, fates: seq<Fate>, success: bool, id: string)
    requires |fates| == |items| > 0
    requires var n := |items| - 1;
             id in Chosen(auth, items[..n], fates[..n], success) <==>
               exists k :: 0 <= k < n && items[..n][k].id == id && Succeeds(auth, items[..n][k], fates[..n][k]) == success
    ensures id in Chosen(auth, items, fates, success) <==>
              exists k :: 0 <= k < |items| && items[k].id == id && Succeeds(auth, items[k], fates[k]) == success
  {
    var n := |items| - 1;
    if k :| 0 <= k < |items| && items[k].id == id && Succeeds(auth, items[k], fates[k]) == success {
      if k < n { assert items[..n][k].id == id && Succeeds(auth, items[..n][k], fates[..n][k]) == success; }
    }
    if k :| 0 <= k < n && items[..n][k].id == id && Succeeds(auth, items[..n][k], fates[..n][k]) == success {
      assert items[k].id == id && Succeeds(auth, items[k], fates[k]) == success;
    }
  }

  lemma RunOn(w: World, a: seq<Action>, w1: World, b: seq<Action>, w2: World)
    requires RunsTo(w, a, w1) && RunsTo(w1, b, w2)
    ensures RunsTo(w, a + b, w2)
  {
    DoAllAppend(w, a, b);
  }

  lemma {:induction false} DoAllAppend(w: World, a: seq<Action>, b: seq<Action>)
    requires CanDoAll(w, a) && CanDoAll(DoAll(w, a), b)
    ensures CanDoAll(w, a + b) && DoAll(w, a + b) == DoAll(DoAll(w, a), b)
    decreases a
  {
    if a == [] {
      assert a + b == b;
    } else {
      assert (a + b)[1..] == a[1..] + b;
      DoAllAppend(Do(w, a[0]), a[1..], b);
    }
  }
}
