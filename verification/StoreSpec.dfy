/** Insertion-ordered collections of messages, as values. */
module StoreSpec {
  import opened Options
  import opened Messages

  /** One message per id: the invariant of a JavaScript Map keyed by messageId. */
  ghost predicate Distinct(ms: seq<Message>) {
    forall i, j :: 0 <= i < j < |ms| ==> ms[i].messageId != ms[j].messageId
  }

  function Ids(ms: seq<Message>): (ids: seq<string>)
    ensures |ids| == |ms|
    ensures forall i :: 0 <= i < |ms| ==> ids[i] == ms[i].messageId
  {
    seq(|ms|, i requires 0 <= i < |ms| => ms[i].messageId)
  }

  /** Where a known id stands. */
  function IndexOf(ms: seq<Message>, id: string): (i: nat)
    requires id in Ids(ms)
    ensures i < |ms| && ms[i].messageId == id
  {
    if ms[0].messageId == id then 0
    else
      assert forall i :: 1 <= i < |ms| ==> Ids(ms)[i] == Ids(ms[1..])[i - 1];
      1 + IndexOf(ms[1..], id)
  }

  /** `Map.get`. */
  function Find(ms: seq<Message>, id: string): (r: Option<Message>)
    ensures r.None? <==> id !in Ids(ms)
    ensures r.Some? ==> r.value in ms && r.value.messageId == id
  {
    if id in Ids(ms) then Some(ms[IndexOf(ms, id)]) else None
  }

  lemma FindMember(ms: seq<Message>, m: Message)
    requires Distinct(ms) && m in ms
    ensures Find(ms, m.messageId) == Some(m)
  {
    IdsMember(ms, m);
    var i :| 0 <= i < |ms| && ms[i] == m;
    assert i == IndexOf(ms, m.messageId);
  }

  /** `Map.set`: a known key keeps its place and takes the new value, a new key goes last. */
  function Put(ms: seq<Message>, m: Message): (r: seq<Message>) {
    if m.messageId in Ids(ms) then ms[IndexOf(ms, m.messageId) := m] else ms + [m]
  }

  /** Setting a key keeps one entry per id, and changes at most the entry under that id. */
  lemma PutLaw(ms: seq<Message>, m: Message)
    requires Distinct(ms)
    ensures Distinct(Put(ms, m)) && Find(Put(ms, m), m.messageId) == Some(m)
    ensures forall i :: 0 <= i < |ms| && ms[i].messageId != m.messageId ==> Put(ms, m)[i] == ms[i]
    ensures Ids(Put(ms, m)) == if m.messageId in Ids(ms) then Ids(ms) else Ids(ms) + [m.messageId]
  {
    if m.messageId !in Ids(ms) {
      assert forall i :: 0 <= i < |ms| ==> Ids(ms)[i] != m.messageId;
    }
    var at := if m.messageId in Ids(ms) then IndexOf(ms, m.messageId) else |ms|;
    assert Put(ms, m)[at] == m;
    FindMember(Put(ms, m), m);
  }

  /** The tests a store or a session filters messages by. */
  datatype Test =
    | Unexpired(now: int)
    | Overdue(now: int)
    | NotIn(ids: seq<string>)
    | Among(group: set<string>)
    | NotAmong(group: set<string>)
    | Passing(now: int)
    | Failing(now: int)

  predicate Holds(env: Env, t: Test, m: Message) {
    match t
    case Unexpired(now) => !IsExpired(env, m, now)
    case Overdue(now) => IsExpired(env, m, now)
    case NotIn(ids) => m.messageId !in ids
    case Among(ids) => m.messageId in ids
    case NotAmong(ids) => m.messageId !in ids
    case Passing(now) => Accepts(env, m, now)
    case Failing(now) => !Accepts(env, m, now)
  }

  function Select(env: Env, t: Test, ms: seq<Message>): seq<Message> {
    if ms == [] then []
    else (if Holds(env, t, ms[0]) then [ms[0]] else []) + Select(env, t, ms[1..])
  }

  /** What is left after a prune at `now`. */
  function Live(env: Env, ms: seq<Message>, now: int): seq<Message> {
    Select(env, Unexpired(now), ms)
  }

  /** What `mine` offers that `known` does not name. */
  function Missing(env: Env, mine: seq<Message>, known: seq<Message>): seq<Message> {
    Select(env, NotIn(Ids(known)), mine)
  }

  lemma {:induction false} SelectAppend(env: Env, t: Test, a: seq<Message>, b: seq<Message>)
    ensures Select(env, t, a + b) == Select(env, t, a) + Select(env, t, b)
  {
    if a == [] {
      assert a + b == b;
    } else {
      assert (a + b)[1..] == a[1..] + b;
      SelectAppend(env, t, a[1..], b);
    }
  }

  lemma {:induction false} SelectMembers(env: Env, t: Test, ms: seq<Message>)
    ensures forall m :: m in Select(env, t, ms) <==> m in ms && Holds(env, t, m)
    ensures |Select(env, t, ms)| <= |ms|
  {
    if ms != [] {
      SelectMembers(env, t, ms[1..]);
      assert ms == [ms[0]] + ms[1..];
    }
  }

  lemma SelectMember(env: Env, t: Test, ms: seq<Message>, m: Message)
    ensures m in Select(env, t, ms) <==> m in ms && Holds(env, t, m)
  {
    SelectMembers(env, t, ms);
  }

  lemma SelectOne(env: Env, t: Test, m: Message)
    ensures Select(env, t, [m]) == if Holds(env, t, m) then [m] else []
  {
    assert [m][1..] == [];
  }

  lemma {:induction false} SelectDistinct(env: Env, t: Test, ms: seq<Message>)
    requires Distinct(ms)
    ensures Distinct(Select(env, t, ms))
  {
    if ms != [] {
      var rest := Select(env, t, ms[1..]);
      SelectDistinct(env, t, ms[1..]);
      SelectMembers(env, t, ms[1..]);
      DistinctAppend(if Holds(env, t, ms[0]) then [ms[0]] else [], rest);
    }
  }

  lemma {:induction false} SelectAll(env: Env, t: Test, ms: seq<Message>)
    requires forall m :: m in ms ==> Holds(env, t, m)
    ensures Select(env, t, ms) == ms
  {
    if ms != [] {
      SelectAll(env, t, ms[1..]);
    }
  }

  lemma {:induction false} SelectNone(env: Env, t: Test, ms: seq<Message>)
    requires forall m :: m in ms ==> !Holds(env, t, m)
    ensures Select(env, t, ms) == []
  {
    if ms != [] {
      SelectNone(env, t, ms[1..]);
    }
  }

  lemma {:induction false} SelectCommute(env: Env, t: Test, u: Test, ms: seq<Message>)
    ensures Select(env, t, Select(env, u, ms)) == Select(env, u, Select(env, t, ms))
  {
    if ms != [] {
      var m, rt, ru := ms[0], Select(env, t, ms[1..]), Select(env, u, ms[1..]);
      SelectCommute(env, t, u, ms[1..]);
      SelectOne(env, t, m);
      SelectOne(env, u, m);
      SelectAppend(env, t, if Holds(env, u, m) then [m] else [], ru);
      SelectAppend(env, u, if Holds(env, t, m) then [m] else [], rt);
    }
  }

  /** Splitting by a test and its negation loses nothing. */
  lemma {:induction false} PassOrFail(env: Env, now: int, ms: seq<Message>)
    ensures |Select(env, Passing(now), ms)| + |Select(env, Failing(now), ms)| == |ms|
  {
    if ms != [] {
      PassOrFail(env, now, ms[1..]);
    }
  }

  /** Appending messages with new, distinct ids keeps one entry per id. */
  lemma DistinctAppend(a: seq<Message>, b: seq<Message>)
    requires Distinct(a) && Distinct(b)
    requires forall m :: m in b ==> m.messageId !in Ids(a)
    ensures Distinct(a + b)
  {
    forall i, j | 0 <= i < j < |a + b|
      ensures (a + b)[i].messageId != (a + b)[j].messageId
    {
      if i < |a| <= j {
        assert b[j - |a|] in b && Ids(a)[i] in Ids(a);
      }
    }
  }

  lemma IdsAppend(a: seq<Message>, b: seq<Message>)
    ensures Ids(a + b) == Ids(a) + Ids(b)
  {}

  lemma IdsMember(ms: seq<Message>, m: Message)
    requires m in ms
    ensures m.messageId in Ids(ms)
  {
    var i :| 0 <= i < |ms| && ms[i] == m;
    assert Ids(ms)[i] == m.messageId;
  }

  lemma MemberOfIds(ms: seq<Message>, id: string) returns (m: Message)
    requires id in Ids(ms)
    ensures m in ms && m.messageId == id
  {
    var i :| 0 <= i < |ms| && Ids(ms)[i] == id;
    m := ms[i];
  }
}
