/** A gateway pass: upload what has not reached the server, and keep relaying it. */
module GatewaySpec {
  import opened Messages
  import opened StoreSpec
  import opened RelayStates

  /** Live messages without an upload mark. */
  function PendingUploads(env: Env, st: RelayState, now: int): seq<Message> {
    Select(env, NotAmong(st.uploaded), Live(env, st.entries, now))
  }

  datatype GatewayUploadResult = GatewayUploadResult(uploadedMessageIds: seq<string>, failedMessageIds: seq<string>)

  /** `ok` names the messages whose upload resolves; all others are rejected. */
  function PassResult(env: Env, st: RelayState, ok: set<string>, now: int): GatewayUploadResult {
    ResultOver(env, st.uploaded, ok, Live(env, st.entries, now))
  }

  function ResultOver(env: Env, marked: set<string>, ok: set<string>, ms: seq<Message>): GatewayUploadResult {
    var pending := Select(env, NotAmong(marked), ms);
    GatewayUploadResult(Ids(Select(env, Among(ok), pending)), Ids(Select(env, NotAmong(ok), pending)))
  }

  function AfterPass(env: Env, st: RelayState, ok: set<string>, now: int): RelayState {
    var pruned := Pruned(env, st, now);
    pruned.(uploaded := pruned.uploaded + set id | id in PassResult(env, st, ok, now).uploadedMessageIds)
  }

  /** A pass takes each pending message to exactly one of its two lists, marks exactly those that were
      uploaded, keeps the marks for stored messages only, and offers peers what a summary alone would. */
  lemma PassLaw(env: Env, st: RelayState, ok: set<string>, now: int)
    requires Coherent(st)
    ensures var r, st' := PassResult(env, st, ok, now), AfterPass(env, st, ok, now);
            && Coherent(st')
            && st'.entries == Live(env, st.entries, now)
            && (forall m :: m in st'.entries <==>
                  m in st.entries && match env.parseDate(m.expiresAt) case None => true case Some(at) => now < at)
            && (forall m :: m in st'.entries ==>
                  (m.messageId in st'.uploaded <==> m.messageId in st.uploaded || m.messageId in ok))
            && (forall id :: id in r.uploadedMessageIds <==> id in Ids(st'.entries) && id !in st.uploaded && id in ok)
            && (forall id :: id in r.failedMessageIds <==> id in Ids(st'.entries) && id !in st.uploaded && id !in ok)
            && |r.uploadedMessageIds| + |r.failedMessageIds| == |PendingUploads(env, st, now)|
            && PendingUploads(env, st', now) == Select(env, NotAmong(ok), PendingUploads(env, st, now))
  {
    var live, pending := Live(env, st.entries, now), PendingUploads(env, st, now);
    var r := PassResult(env, st, ok, now);
    PrunedLaw(env, st, now);
    SelectMembers(env, Unexpired(now), st.entries);
    forall id
      ensures id in r.uploadedMessageIds <==> id in Ids(live) && id !in st.uploaded && id in ok
      ensures id in r.failedMessageIds <==> id in Ids(live) && id !in st.uploaded && id !in ok
    {
      SelectedIds(env, NotAmong(st.uploaded), live, id);
      SelectedIds(env, Among(ok), pending, id);
      SelectedIds(env, NotAmong(ok), pending, id);
    }
    var st' := AfterPass(env, st, ok, now);
    forall m | m in live
      ensures m.messageId in st'.uploaded <==> m.messageId in st.uploaded || m.messageId in ok
    {
      IdsMember(live, m);
    }
    PassSplits(env, pending, ok);
    StillPending(env, st, ok, now);
  }

  /** Selecting by id is selecting ids. */
  lemma SelectedIds(env: Env, t: Test, ms: seq<Message>, id: string)
    requires t.Among? || t.NotAmong?
    ensures id in Ids(Select(env, t, ms)) <==> id in Ids(ms) && (id in t.group <==> t.Among?)
  {
    if id in Ids(Select(env, t, ms)) {
      var m := MemberOfIds(Select(env, t, ms), id);
      SelectMember(env, t, ms, m);
      IdsMember(ms, m);
    }
    if id in Ids(ms) && (id in t.group <==> t.Among?) {
      var m := MemberOfIds(ms, id);
      SelectMember(env, t, ms, m);
      IdsMember(Select(env, t, ms), m);
    }
  }

  lemma {:induction false} PassSplits(env: Env, ms: seq<Message>, ok: set<string>)
    ensures |Select(env, Among(ok), ms)| + |Select(env, NotAmong(ok), ms)| == |ms|
  {
    if ms != [] { PassSplits(env, ms[1..], ok); }
  }

  /** A failed upload is pending again, an uploaded one never is. */
  lemma StillPending(env: Env, st: RelayState, ok: set<string>, now: int)
    requires Coherent(st)
    requires forall m :: m in Live(env, st.entries, now) ==>
               (m.messageId in AfterPass(env, st, ok, now).uploaded <==> m.messageId in st.uploaded || m.messageId in ok)
    ensures PendingUploads(env, AfterPass(env, st, ok, now), now) == Select(env, NotAmong(ok), PendingUploads(env, st, now))
  {
    var live := Live(env, st.entries, now);
    var marked := AfterPass(env, st, ok, now).uploaded;
    forall m | m in live ensures !IsExpired(env, m, now) { SelectMember(env, Unexpired(now), st.entries, m); }
    SelectAll(env, Unexpired(now), live);
    SelectBoth(env, st.uploaded, ok, marked, live);
  }

  lemma {:induction false} SelectBoth(env: Env, a: set<string>, b: set<string>, both: set<string>, ms: seq<Message>)
    requires forall m :: m in ms ==> (m.messageId in both <==> m.messageId in a || m.messageId in b)
    ensures Select(env, NotAmong(both), ms) == Select(env, NotAmong(b), Select(env, NotAmong(a), ms))
  {
    if ms != [] {
      SelectBoth(env, a, b, both, ms[1..]);
      SelectOne(env, NotAmong(b), ms[0]);
      SelectAppend(env, NotAmong(b), if ms[0].messageId in a then [] else [ms[0]], Select(env, NotAmong(a), ms[1..]));
    }
  }
}

module Gateway {
  import opened Messages
  import opened StoreSpec
  import opened RelayStates
  import opened GatewaySpec
  import opened InMemoryRelayStore

  /** The loop of a gateway pass. `ok` stands for uploadFn: the ids of the messages it resolves for. */
  method RunGatewayUpload(store: RelayStore, ok: set<string>, now: int) returns (r: GatewayUploadResult)
    requires store.Valid()
    modifies store
    ensures store.Valid() && store.State() == AfterPass(store.env, old(store.State()), ok, now)
    ensures r == PassResult(store.env, old(store.State()), ok, now)
  {
    var env := store.env;
    ghost var before := store.State();
    var pruned := store.PruneExpired(now);
    ghost var live, marked := store.entries, store.uploaded;
    ghost var trail := Trail(env, before, ok, now, live);
    PruneMarks(env, before, now);
    var uploadedIds, failedIds := [], [];
    var ids := store.ListKnownIds();
    var i := 0;
    while i < |ids|
      invariant 0 <= i <= |ids| && store.Valid() && store.entries == live && ids == Ids(live)
      invariant trail[i] == GatewayUploadResult(uploadedIds, failedIds)
      invariant store.uploaded == marked + (set id | id in uploadedIds)
    {
      assert Visited(env, live[i], now, before.uploaded, ok, trail[i], trail[i + 1]);
      var isUploaded := store.IsUploaded(ids[i]);
      if !isUploaded {
        var message := store.GetMessage(ids[i]);
        if message.Some? && !IsExpired(env, message.value, now) {
          if ids[i] in ok {
            store.MarkUploaded(ids[i]);
            uploadedIds := uploadedIds + [ids[i]];
          } else {
            failedIds := failedIds + [ids[i]];
          }
        }
      }
      i := i + 1;
    }
    r := GatewayUploadResult(uploadedIds, failedIds);
  }

  /** What one visit of the loop finds and adds. */
  ghost predicate Visited(env: Env, m: Message, now: int, marked: set<string>, ok: set<string>,
                          earlier: GatewayUploadResult, later: GatewayUploadResult) {
    && !IsExpired(env, m, now) && m.messageId !in earlier.uploadedMessageIds
    && later == if m.messageId in marked then earlier
                else if m.messageId in ok then earlier.(uploadedMessageIds := earlier.uploadedMessageIds + [m.messageId])
                else earlier.(failedMessageIds := earlier.failedMessageIds + [m.messageId])
  }

  /** The results after each visit, from none to all. */
  lemma Trail(env: Env, before: RelayState, ok: set<string>, now: int, live: seq<Message>) returns (trail: seq<GatewayUploadResult>)
    requires Distinct(before.entries) && live == Live(env, before.entries, now)
    ensures |trail| == |live| + 1 && trail[0] == GatewayUploadResult([], [])
    ensures forall i :: 0 <= i < |live| ==> Visited(env, live[i], now, before.uploaded, ok, trail[i], trail[i + 1])
    ensures trail[|live|] == PassResult(env, before, ok, now)
  {
    trail := seq(|live| + 1, i requires 0 <= i <= |live| => ResultOver(env, before.uploaded, ok, live[..i]));
    assert live[..|live|] == live && live[..0] == [];
    forall i | 0 <= i < |live|
      ensures Visited(env, live[i], now, before.uploaded, ok, trail[i], trail[i + 1])
    {
      Visit(env, before, ok, now, live, i);
    }
  }

  lemma PruneMarks(env: Env, st: RelayState, now: int)
    requires Distinct(st.entries)
    ensures forall m :: m in Live(env, st.entries, now) ==>
              (m.messageId in Pruned(env, st, now).uploaded <==> m.messageId in st.uploaded)
  {
    var live, gone := Live(env, st.entries, now), Select(env, Overdue(now), st.entries);
    forall m | m in live
      ensures m.messageId !in IdSet(gone)
    {
      SelectMember(env, Unexpired(now), st.entries, m);
      if m.messageId in Ids(gone) {
        var m' := MemberOfIds(gone, m.messageId);
        SelectMember(env, Overdue(now), st.entries, m');
        FindMember(st.entries, m);
        FindMember(st.entries, m');
      }
    }
  }

  lemma Visit(env: Env, before: RelayState, ok: set<string>, now: int, live: seq<Message>, i: nat)
    requires Distinct(before.entries) && live == Live(env, before.entries, now) && i < |live|
    ensures Visited(env, live[i], now, before.uploaded, ok,
                    ResultOver(env, before.uploaded, ok, live[..i]), ResultOver(env, before.uploaded, ok, live[..i + 1]))
  {
    var m := live[i];
    SelectMember(env, Unexpired(now), before.entries, m);
    Onward(env, live, i, before.uploaded, ok);
    assert m.messageId !in Ids(live[..i]) by {
      SelectDistinct(env, Unexpired(now), before.entries);
      if m.messageId in Ids(live[..i]) { var m' := MemberOfIds(live[..i], m.messageId); }
    }
    SelectedIds(env, NotAmong(before.uploaded), live[..i], m.messageId);
    SelectedIds(env, Among(ok), Select(env, NotAmong(before.uploaded), live[..i]), m.messageId);
  }

  lemma Onward(env: Env, live: seq<Message>, i: nat, marked: set<string>, ok: set<string>)
    requires i < |live|
    ensures var m := live[i];
            var earlier, later := ResultOver(env, marked, ok, live[..i]), ResultOver(env, marked, ok, live[..i + 1]);
            later == if m.messageId in marked then earlier
                     else if m.messageId in ok then earlier.(uploadedMessageIds := earlier.uploadedMessageIds + [m.messageId])
                     else earlier.(failedMessageIds := earlier.failedMessageIds + [m.messageId])
  {
    var m := live[i];
    var before := Select(env, NotAmong(marked), live[..i]);
    assert live[..i + 1] == live[..i] + [m];
    SelectAppend(env, NotAmong(marked), live[..i], [m]);
    SelectOne(env, NotAmong(marked), m);
    if m.messageId in marked {
      assert before + [] == before;
    } else {
      SelectIdsMore(env, Among(ok), before, m);
      SelectIdsMore(env, NotAmong(ok), before, m);
    }
  }

  lemma SelectIdsMore(env: Env, t: Test, ms: seq<Message>, m: Message)
    ensures Ids(Select(env, t, ms + [m])) == Ids(Select(env, t, ms)) + if Holds(env, t, m) then [m.messageId] else []
  {
    SelectAppend(env, t, ms, [m]);
    SelectOne(env, t, m);
    IdsAppend(Select(env, t, ms), if Holds(env, t, m) then [m] else []);
  }
}
