/** The reference store of the relay: messages in the order they came, and which were uploaded. */
module RelayStates {
  import opened Messages
  import opened StoreSpec

  datatype RelayState = RelayState(entries: seq<Message>, uploaded: set<string>)

  function IdSet(ms: seq<Message>): set<string> {
    set id | id in Ids(ms)
  }

  /** Expired messages leave the store and lose their upload mark; nothing else changes. */
  function Pruned(env: Env, st: RelayState, now: int): RelayState {
    RelayState(Live(env, st.entries, now), st.uploaded - IdSet(Select(env, Overdue(now), st.entries)))
  }

  ghost predicate Coherent(st: RelayState) {
    Distinct(st.entries) && st.uploaded <= IdSet(st.entries)
  }

  /** The mark follows the message: after a prune, exactly the marked ids that are still stored are marked. */
  lemma PrunedLaw(env: Env, st: RelayState, now: int)
    requires Coherent(st)
    ensures Coherent(Pruned(env, st, now))
    ensures Pruned(env, st, now).uploaded == st.uploaded * IdSet(Live(env, st.entries, now))
  {
    var live, gone := Live(env, st.entries, now), Select(env, Overdue(now), st.entries);
    SelectDistinct(env, Unexpired(now), st.entries);
    SelectMembers(env, Unexpired(now), st.entries);
    SelectMembers(env, Overdue(now), st.entries);
    forall id | id in st.uploaded
      ensures id in Ids(live) <==> id !in Ids(gone)
    {
      var m := MemberOfIds(st.entries, id);
      FindMember(st.entries, m);
      if m in live { IdsMember(live, m); } else { IdsMember(gone, m); }
      if id in Ids(live) && id in Ids(gone) {
        var a := MemberOfIds(live, id);
        var b := MemberOfIds(gone, id);
        FindMember(st.entries, a);
        FindMember(st.entries, b);
      }
    }
  }
}

module InMemoryRelayStore {
  import opened Options
  import opened Messages
  import opened StoreSpec
  import opened RelayStates

  class RelayStore {
    const env: Env
    var entries: seq<Message>    // the Map, in insertion order
    var uploaded: set<string>

    ghost predicate Valid()
      reads this
    {
      Distinct(entries)
    }

    ghost function State(): RelayState
      reads this
    {
      RelayState(entries, uploaded)
    }

    /** A seed with a repeated id keeps the first place and the last value. */
    constructor (env: Env, seed: seq<Message>)
      ensures Valid() && this.env == env && uploaded == {}
      ensures entries == PutAll([], seed)
      ensures Distinct(seed) ==> entries == seed
    {
      this.env := env;
      entries, uploaded := [], {};
      new;
      var i := 0;
      while i < |seed|
        invariant 0 <= i <= |seed| && uploaded == {} && Distinct(entries)
        invariant entries == PutAll([], seed[..i])
      {
        PutLaw(entries, seed[i]);
        assert seed[..i + 1][..i] == seed[..i];
        entries := Put(entries, seed[i]);
        i := i + 1;
      }
      assert seed[..i] == seed;
      if Distinct(seed) { PutAllDistinct(seed); }
    }

    method HasMessage(messageId: string) returns (known: bool)
      ensures known <==> exists m :: m in entries && m.messageId == messageId
    {
      known := messageId in Ids(entries);
      if known {
        ghost var m := MemberOfIds(entries, messageId);
      } else if m :| m in entries && m.messageId == messageId {
        IdsMember(entries, m);
      }
    }

    method GetMessage(messageId: string) returns (r: Option<Message>)
      requires Valid()
      ensures r.Some? ==> r.value in entries && r.value.messageId == messageId
      ensures forall m :: m in entries && m.messageId == messageId ==> r == Some(m)
    {
      r := Find(entries, messageId);
      forall m | m in entries && m.messageId == messageId ensures r == Some(m) { FindMember(entries, m); }
    }

    method SaveMessage(message: Message)
      requires Valid()
      modifies this`entries
      ensures Valid() && entries == Put(old(entries), message)
    {
      PutLaw(entries, message);
      entries := Put(entries, message);
    }

    method ListKnownIds() returns (ids: seq<string>)
      ensures ids == Ids(entries)
    {
      ids := Ids(entries);
    }

    /** Deletes while walking: the entry at `at` is looked at, and the next one moves into its place
        when it goes. */
    method PruneExpired(now: int) returns (prunedIds: seq<string>)
      requires Valid()
      modifies this
      ensures Valid() && State() == Pruned(env, old(State()), now)
      ensures prunedIds == Ids(Select(env, Overdue(now), old(entries)))
      ensures forall m :: m in entries <==>
                m in old(entries) && match env.parseDate(m.expiresAt) case None => true case Some(at) => now < at
    {
      prunedIds := [];
      var at := 0;
      ghost var before, seen := entries, 0;
      ghost var marked := uploaded;
      while at < |entries|
        invariant seen <= |before| && at <= |entries|
        invariant entries[..at] == Live(env, before[..seen], now) && entries[at..] == before[seen..]
        invariant prunedIds == Ids(Select(env, Overdue(now), before[..seen]))
        invariant uploaded == marked - IdSet(Select(env, Overdue(now), before[..seen]))
        decreases |entries| - at
      {
        var m := entries[at];
        assert m == before[seen] && entries[at + 1..] == entries[at..][1..] == before[seen + 1..];
        WalkOn(env, before, seen, now);
        if IsExpired(env, m, now) {
          entries := entries[..at] + entries[at + 1..];
          uploaded := uploaded - {m.messageId};
          prunedIds := prunedIds + [m.messageId];
        } else {
          assert entries[..at + 1] == entries[..at] + [m];
          at := at + 1;
        }
        seen := seen + 1;
      }
      assert before[..seen] == before && entries[..at] == entries;
      SelectDistinct(env, Unexpired(now), before);
      SelectMembers(env, Unexpired(now), before);
    }

    method MarkUploaded(messageId: string)
      modifies this`uploaded
      ensures uploaded == old(uploaded) + {messageId}
    {
      uploaded := uploaded + {messageId};
    }

    method IsUploaded(messageId: string) returns (r: bool)
      ensures r <==> messageId in uploaded
    {
      r := messageId in uploaded;
    }
  }

  /** What one more entry adds to the two halves of a prune. */
  lemma WalkOn(env: Env, before: seq<Message>, seen: nat, now: int)
    requires seen < |before|
    ensures var m := before[seen];
            var live, gone := Live(env, before[..seen], now), Select(env, Overdue(now), before[..seen]);
            var gone' := Select(env, Overdue(now), before[..seen + 1]);
            if IsExpired(env, m, now) then
              Live(env, before[..seen + 1], now) == live && Ids(gone') == Ids(gone) + [m.messageId]
              && IdSet(gone') == IdSet(gone) + {m.messageId}
            else
              Live(env, before[..seen + 1], now) == live + [m] && gone' == gone
  {
    var m := before[seen];
    assert before[..seen + 1] == before[..seen] + [m];
    SelectAppend(env, Unexpired(now), before[..seen], [m]);
    SelectAppend(env, Overdue(now), before[..seen], [m]);
    SelectOne(env, Unexpired(now), m);
    SelectOne(env, Overdue(now), m);
    IdsAppend(Select(env, Overdue(now), before[..seen]), [m]);
    assert Ids([m]) == [m.messageId];
  }

  function PutAll(ms: seq<Message>, more: seq<Message>): seq<Message> {
    if more == [] then ms else Put(PutAll(ms, more[..|more| - 1]), more[|more| - 1])
  }

  lemma {:induction false} PutAllDistinct(seed: seq<Message>)
    requires Distinct(seed)
    ensures PutAll([], seed) == seed
  {
    if seed != [] {
      var n := |seed| - 1;
      PutAllDistinct(seed[..n]);
      assert seed == seed[..n] + [seed[n]];
    }
  }
}
