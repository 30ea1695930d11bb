/** Sessions racing on one store: exactly when a message is reported by more than one of them. */
module Racing {
  import opened Messages
  import opened StoreSpec
  import opened Handshake
  import opened AnyPeer

  /** A side is about to save a message with this id, or to report the one it saved. */
  predicate Busy(s: Side, id: string) {
    !s.reader.stage.Idle? && s.reader.stage.message.messageId == id
  }

  /** It has taken the message on: it will save and report it, or has done so, unless it fails before the save. */
  predicate Claims(s: Side, id: string) {
    Busy(s, id) || id in s.reader.stored
  }

  predicate Reports(r: Shared, i: nat, id: string)
    requires i < |r.sides|
  {
    id in r.sides[i].reader.stored
  }

  /** No session has had anything to do with the id, nor has the store. */
  ghost predicate Untouched(r: Shared, id: string) {
    id !in Ids(r.store) && forall i :: 0 <= i < |r.sides| ==> !Claims(r.sides[i], id)
  }

  ghost predicate ClaimedTwice(r: Shared, id: string) {
    exists i, j :: 0 <= i < j < |r.sides| && Claims(r.sides[i], id) && Claims(r.sides[j], id)
  }

  ghost predicate ReportedTwice(r: Shared, id: string) {
    exists i, j :: 0 <= i < j < |r.sides| && Reports(r, i, id) && Reports(r, j, id)
  }

  /** A read of a valid message with the id while the store lacks it: it passes the test for duplicates. */
  predicate Admits(env: Env, s: Side, a: Act, id: string) {
    && a.move.Take? && s.phase.Transfer? && Enabled(s, Take) && a.frame.EmergencyMessage? && a.frame.message.messageId == id
    && id !in Ids(s.store) && Accepts(env, a.frame.message, s.self.now)
  }

  /** The message was accepted and is not yet saved. */
  predicate Unsaved(s: Side, id: string) {
    Busy(s, id) && s.reader.stage.Accepted?
  }

  /** Such a read between another session's test and its save. */
  ghost predicate Overlaps(env: Env, r: Shared, x: RaceAct, id: string) {
    && x.side < |r.sides| && Admits(env, Facing(r, x.side), x.act, id)
    && exists j :: 0 <= j < |r.sides| && j != x.side && Unsaved(r.sides[j], id)
  }

  /** Such a read after another session's save, when the entry is gone again. */
  ghost predicate Retakes(env: Env, r: Shared, x: RaceAct, id: string) {
    && x.side < |r.sides| && Admits(env, Facing(r, x.side), x.act, id)
    && exists j :: 0 <= j < |r.sides| && j != x.side && Claims(r.sides[j], id) && !Unsaved(r.sides[j], id)
  }

  ghost predicate OverlapsAmong(env: Env, r: Shared, acts: seq<RaceAct>, id: string)
    requires CanRaceAll(env, r, acts)
    decreases acts
  {
    acts != [] && (Overlaps(env, r, acts[0], id) || OverlapsAmong(env, RaceStep(env, r, acts[0]), acts[1..], id))
  }

  ghost predicate RetakesAmong(env: Env, r: Shared, acts: seq<RaceAct>, id: string)
    requires CanRaceAll(env, r, acts)
    decreases acts
  {
    acts != [] && (Retakes(env, r, acts[0], id) || RetakesAmong(env, RaceStep(env, r, acts[0]), acts[1..], id))
  }

  /** Along the way some session's prune drops the entry for the id. */
  ghost predicate DropsEntry(env: Env, r: Shared, acts: seq<RaceAct>, id: string)
    requires CanRaceAll(env, r, acts)
    decreases acts
  {
    acts != []
    && (var r' := RaceStep(env, r, acts[0]);
        (acts[0].act.move.Prune? && id in Ids(r.store) && id !in Ids(r'.store)) || DropsEntry(env, r', acts[1..], id))
  }

  /** Whoever saved the message saved it into the store that all share. */
  ghost predicate SavedIsStored(r: Shared, id: string) {
    forall i :: 0 <= i < |r.sides| && Claims(r.sides[i], id) && id !in Ids(r.store) ==>
      Unsaved(r.sides[i], id) && id !in r.sides[i].reader.stored
  }

  lemma PutHasId(ms: seq<Message>, m: Message)
    ensures m.messageId in Ids(Put(ms, m))
  {
    var at := if m.messageId in Ids(ms) then IndexOf(ms, m.messageId) else |ms|;
    assert Put(ms, m)[at] == m;
    IdsMember(Put(ms, m), m);
  }

  /** What a move does to one side's claim: a claim is made by an admission, and never lost. */
  lemma MoveClaims(env: Env, s: Side, a: Act, id: string)
    requires Enabled(s, a.move)
    ensures Claims(Apply(env, s, a.move, a.frame), id) <==> Claims(s, id) || Admits(env, s, a, id)
  {}

  /** Only a prune takes an entry away, and a save brings one. */
  lemma MoveStores(env: Env, s: Side, a: Act, id: string)
    requires Enabled(s, a.move)
    ensures var s' := Apply(env, s, a.move, a.frame);
            && (id in Ids(s.store) && id !in Ids(s'.store) ==> a.move.Prune?)
            && (a.move.Save? && Busy(s, id) ==> id in Ids(s'.store))
  {
    if a.move.Save? {
      var m := s.reader.stage.message;
      PutHasId(s.store, m);
      if id in Ids(s.store) && id != m.messageId {
        var i :| 0 <= i < |s.store| && Ids(s.store)[i] == id;
        assert Put(s.store, m)[i] == s.store[i];
        IdsMember(Put(s.store, m), s.store[i]);
      }
    }
  }

  /** One act: the sides that claim the id afterwards. */
  lemma StepClaims(env: Env, r: Shared, x: RaceAct, id: string)
    requires x.side < |r.sides| && Enabled(Facing(r, x.side), x.act.move)
    ensures var r' := RaceStep(env, r, x);
            && |r'.sides| == |r.sides|
            && (forall i :: 0 <= i < |r.sides| ==>
                  (Claims(r'.sides[i], id) <==> Claims(r.sides[i], id) || (i == x.side && Admits(env, Facing(r, i), x.act, id))))
  {
    var s := Facing(r, x.side);
    assert Claims(s, id) <==> Claims(r.sides[x.side], id);
    MoveClaims(env, s, x.act, id);
  }

  lemma StepClaimsTwice(env: Env, r: Shared, x: RaceAct, id: string)
    requires x.side < |r.sides| && Enabled(Facing(r, x.side), x.act.move)
    ensures ClaimedTwice(RaceStep(env, r, x), id) <==> ClaimedTwice(r, id) || Overlaps(env, r, x, id) || Retakes(env, r, x, id)
  {
    var r' := RaceStep(env, r, x);
    StepClaims(env, r, x, id);
    if ClaimedTwice(r, id) {
      var i, j :| 0 <= i < j < |r.sides| && Claims(r.sides[i], id) && Claims(r.sides[j], id);
      assert Claims(r'.sides[i], id) && Claims(r'.sides[j], id);
    } else if Overlaps(env, r, x, id) || Retakes(env, r, x, id) {
      var j :| 0 <= j < |r.sides| && j != x.side && Claims(r.sides[j], id);
      var lo, hi := if j < x.side then j else x.side, if j < x.side then x.side else j;
      assert Claims(r'.sides[lo], id) && Claims(r'.sides[hi], id);
    } else if ClaimedTwice(r', id) {
      var i, j :| 0 <= i < j < |r'.sides| && Claims(r'.sides[i], id) && Claims(r'.sides[j], id);
      OtherClaim(env, r, x, i, j, id);
    }
  }

  /** A second claim that is new stands beside an old one. */
  lemma OtherClaim(env: Env, r: Shared, x: RaceAct, i: nat, j: nat, id: string)
    requires x.side < |r.sides| && Enabled(Facing(r, x.side), x.act.move) && i < j < |r.sides|
    requires var r' := RaceStep(env, r, x); Claims(r'.sides[i], id) && Claims(r'.sides[j], id)
    ensures (Claims(r.sides[i], id) && Claims(r.sides[j], id)) || Overlaps(env, r, x, id) || Retakes(env, r, x, id)
  {
    StepClaims(env, r, x, id);
    var other := if i == x.side then j else i;
    assert Unsaved(r.sides[other], id) || !Unsaved(r.sides[other], id);
  }

  lemma {:induction false} RunClaimsTwice(env: Env, r: Shared, acts: seq<RaceAct>, id: string)
    requires CanRaceAll(env, r, acts)
    ensures ClaimedTwice(RaceAll(env, r, acts), id)
            <==> ClaimedTwice(r, id) || OverlapsAmong(env, r, acts, id) || RetakesAmong(env, r, acts, id)
    decreases acts
  {
    if acts != [] {
      StepClaimsTwice(env, r, acts[0], id);
      RunClaimsTwice(env, RaceStep(env, r, acts[0]), acts[1..], id);
    }
  }

  lemma StepSaved(env: Env, r: Shared, x: RaceAct, id: string)
    requires x.side < |r.sides| && Enabled(Facing(r, x.side), x.act.move) && SavedIsStored(r, id)
    requires id in Ids(r.store) ==> id in Ids(RaceStep(env, r, x).store)
    ensures SavedIsStored(RaceStep(env, r, x), id)
  {
    var s := Facing(r, x.side);
    assert Claims(s, id) <==> Claims(r.sides[x.side], id);
    MoveStores(env, s, x.act, id);
    MoveClaims(env, s, x.act, id);
  }

  /** An id is taken on again only after a prune dropped its entry. */
  lemma {:induction false} RetakenWasDropped(env: Env, r: Shared, acts: seq<RaceAct>, id: string)
    requires CanRaceAll(env, r, acts) && SavedIsStored(r, id)
    ensures RetakesAmong(env, r, acts, id) ==> DropsEntry(env, r, acts, id)
    decreases acts
  {
    if acts != [] {
      var r' := RaceStep(env, r, acts[0]);
      MoveStores(env, Facing(r, acts[0].side), acts[0].act, id);
      if id in Ids(r.store) ==> id in Ids(r'.store) {
        StepSaved(env, r, acts[0], id);
        RetakenWasDropped(env, r', acts[1..], id);
      }
    }
  }

  /** Exactly when a racing message is taken on twice, over any run of any number of sessions with any peers:
      two sessions claim an id that none had touched before if and only if one of them accepted the message,
      finding the store without it, while another had accepted it and not yet saved it, or after another had
      saved it and a prune had dropped it again. Once no session is in the middle of it, the same decides
      whether two sessions report it as stored. */
  lemma ReportedTwiceExactly(env: Env, r: Shared, acts: seq<RaceAct>, id: string)
    requires Untouched(r, id) && CanRaceAll(env, r, acts)
    ensures var r' := RaceAll(env, r, acts);
            var second := OverlapsAmong(env, r, acts, id) || RetakesAmong(env, r, acts, id);
            && (ClaimedTwice(r', id) <==> second)
            && (ReportedTwice(r', id) ==> second)
            && ((forall i :: 0 <= i < |r'.sides| ==> !Busy(r'.sides[i], id)) ==> (ReportedTwice(r', id) <==> second))
    ensures RetakesAmong(env, r, acts, id) ==> DropsEntry(env, r, acts, id)
  {
    RunClaimsTwice(env, r, acts, id);
    RetakenWasDropped(env, r, acts, id);
    var r' := RaceAll(env, r, acts);
    if ReportedTwice(r', id) {
      var i, j :| 0 <= i < j < |r'.sides| && Reports(r', i, id) && Reports(r', j, id);
      assert Claims(r'.sides[i], id) && Claims(r'.sides[j], id);
    }
    if ClaimedTwice(r', id) && (forall i :: 0 <= i < |r'.sides| ==> !Busy(r'.sides[i], id)) {
      var i, j :| 0 <= i < j < |r'.sides| && Claims(r'.sides[i], id) && Claims(r'.sides[j], id);
      assert Reports(r', i, id) && Reports(r', j, id);
    }
  }

  /** A claim is kept to the end of the run: the very sessions that overlapped are the ones that report. */
  lemma {:induction false} ClaimsLast(env: Env, r: Shared, acts: seq<RaceAct>, i: nat, id: string)
    requires CanRaceAll(env, r, acts) && i < |r.sides| && Claims(r.sides[i], id)
    ensures var r' := RaceAll(env, r, acts);
            |r'.sides| == |r.sides| && Claims(r'.sides[i], id) && (!Busy(r'.sides[i], id) ==> Reports(r', i, id))
    decreases acts
  {
    if acts != [] {
      StepClaims(env, r, acts[0], id);
      ClaimsLast(env, RaceStep(env, r, acts[0]), acts[1..], i, id);
    }
  }

  // ----- two instances -----

  /** Two idle sessions on one store that lacks a valid message, each about to read a frame with it. */
  ghost predicate BothAboutToRead(env: Env, r: Shared, m: Message) {
    && |r.sides| == 2 && m.messageId !in Ids(r.store)
    && forall i :: 0 <= i < 2 ==>
         var s := r.sides[i];
         Enabled(s, Take) && s.phase.Transfer? && Accepts(env, m, s.self.now) && m.messageId !in s.reader.stored
  }

  /** The read, the save and the report of one message by one session. */
  function Reading(i: nat, m: Message): RaceAct { RaceAct(i, Act(Take, EmergencyMessage(m))) }
  function Saving(i: nat, m: Message): RaceAct { RaceAct(i, Act(Save, EmergencyMessage(m))) }
  function Reporting(i: nat, m: Message): RaceAct { RaceAct(i, Act(RecordStored, EmergencyMessage(m))) }

  /** The check of an id does not stop a racing session: when both sessions check before either saves, both
      store the message and both report it. */
  lemma BothReport(env: Env, r: Shared, m: Message)
    requires BothAboutToRead(env, r, m)
    ensures var acts := [Reading(0, m), Reading(1, m), Saving(0, m), Saving(1, m), Reporting(0, m), Reporting(1, m)];
            CanRaceAll(env, r, acts) && |RaceAll(env, r, acts).sides| == 2
            && Reports(RaceAll(env, r, acts), 0, m.messageId) && Reports(RaceAll(env, r, acts), 1, m.messageId)
  {
    var r1 := RaceOne(env, r, Reading(0, m));
    var r2 := RaceOne(env, r1, Reading(1, m));
    var r3 := RaceOne(env, r2, Saving(0, m));
    var r4 := RaceOne(env, r3, Saving(1, m));
    var r5 := RaceOne(env, r4, Reporting(0, m));
    var r6 := RaceOne(env, r5, Reporting(1, m));
    RaceCons(env, r5, Reporting(1, m), []);
    RaceCons(env, r4, Reporting(0, m), [Reporting(1, m)]);
    RaceCons(env, r3, Saving(1, m), [Reporting(0, m), Reporting(1, m)]);
    RaceCons(env, r2, Saving(0, m), [Saving(1, m), Reporting(0, m), Reporting(1, m)]);
    RaceCons(env, r1, Reading(1, m), [Saving(0, m), Saving(1, m), Reporting(0, m), Reporting(1, m)]);
    RaceCons(env, r, Reading(0, m), [Reading(1, m), Saving(0, m), Saving(1, m), Reporting(0, m), Reporting(1, m)]);
  }

  /** When one session saves before the other checks, the other reads its frame and drops it. */
  lemma FirstReports(env: Env, r: Shared, m: Message)
    requires BothAboutToRead(env, r, m)
    ensures var acts := [Reading(0, m), Saving(0, m), Reading(1, m), Reporting(0, m)];
            CanRaceAll(env, r, acts) && |RaceAll(env, r, acts).sides| == 2
            && Reports(RaceAll(env, r, acts), 0, m.messageId) && !Reports(RaceAll(env, r, acts), 1, m.messageId)
            && RaceAll(env, r, acts).sides[1].reader.at == r.sides[1].reader.at + 1
  {
    var r1 := RaceOne(env, r, Reading(0, m));
    var r2 := RaceOne(env, r1, Saving(0, m));
    PutHasId(r1.store, m);
    var r3 := RaceOne(env, r2, Reading(1, m));
    var r4 := RaceOne(env, r3, Reporting(0, m));
    RaceCons(env, r3, Reporting(0, m), []);
    RaceCons(env, r2, Reading(1, m), [Reporting(0, m)]);
    RaceCons(env, r1, Saving(0, m), [Reading(1, m), Reporting(0, m)]);
    RaceCons(env, r, Reading(0, m), [Saving(0, m), Reading(1, m), Reporting(0, m)]);
  }

  lemma RaceOne(env: Env, r: Shared, x: RaceAct) returns (r': Shared)
    requires x.side < |r.sides| && Enabled(Facing(r, x.side), x.act.move)
    ensures r' == RaceStep(env, r, x) && |r'.sides| == |r.sides|
    ensures r'.sides[x.side] == Apply(env, Facing(r, x.side), x.act.move, x.act.frame) && r'.store == r'.sides[x.side].store
    ensures forall i :: 0 <= i < |r.sides| && i != x.side ==> r'.sides[i] == r.sides[i]
  {
    r' := RaceStep(env, r, x);
  }

  lemma RaceCons(env: Env, r: Shared, x: RaceAct, rest: seq<RaceAct>)
    requires x.side < |r.sides| && Enabled(Facing(r, x.side), x.act.move) && CanRaceAll(env, RaceStep(env, r, x), rest)
    ensures CanRaceAll(env, r, [x] + rest) && RaceAll(env, r, [x] + rest) == RaceAll(env, RaceStep(env, r, x), rest)
  {
    assert ([x] + rest)[1..] == rest;
  }
}
