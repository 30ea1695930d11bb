/** Any number of devices that create messages, meet, and now and then reach the server. */
module Mesh {
  import opened Messages
  import opened StoreSpec
  import opened RelayStates
  import opened GatewaySpec
  import opened Session
  import opened Convergence
  import Handshake
  import Pair

  /** How much of a session reached one side: it was cut before that side's summary; it was cut later, and
      the messages of these ids came through; or it was complete. */
  datatype Extent = Nothing | Only(ids: set<string>) | Everything

  datatype Event =
    | Create(device: string, message: Message)
    | Meet(first: string, second: string, toFirst: Extent, toSecond: Extent)   // a session at the common clock
    | Upload(gateway: string, ok: set<string>)   // a gateway pass; `ok` names the uploads that resolve
    | Tick(to: int)

  /** `uploads` lists every successful upload, in order. */
  datatype World = World(clock: int, devices: map<string, RelayState>, uploads: seq<(string, string)>)

  function At(w: World, d: string): RelayState {
    if d in w.devices then w.devices[d] else RelayState([], {})
  }

  function Through(env: Env, x: Extent, incoming: seq<Message>): seq<Message> {
    match x
    case Nothing => []
    case Only(ids) => Select(env, Among(ids), incoming)
    case Everything => incoming
  }

  /** The entries of one device after its summary and what came through. */
  function Met(env: Env, mine: seq<Message>, theirs: seq<Message>, now: int, x: Extent): seq<Message> {
    var plan := PlanOf(env, mine, now, Live(env, theirs, now));
    plan.live + Select(env, Passing(now), Through(env, x, plan.incoming))
  }

  /** One device after meeting another. */
  function AfterMeeting(env: Env, mine: RelayState, theirs: RelayState, now: int, x: Extent): RelayState {
    if x.Nothing? then mine else Pruned(env, mine, now).(entries := Met(env, mine.entries, theirs.entries, now, x))
  }

  function UploadsOf(device: string, ids: seq<string>): seq<(string, string)> {
    seq(|ids|, i requires 0 <= i < |ids| => (device, ids[i]))
  }

  function Happen(env: Env, w: World, e: Event): World {
    match e
    case Create(d, m) => w.(devices := w.devices[d := At(w, d).(entries := Put(At(w, d).entries, m))])
    case Meet(a, b, toA, toB) =>
      if a == b then w
      else w.(devices := w.devices[a := AfterMeeting(env, At(w, a), At(w, b), w.clock, toA)]
                                  [b := AfterMeeting(env, At(w, b), At(w, a), w.clock, toB)])
    case Upload(d, ok) =>
      w.(devices := w.devices[d := AfterPass(env, At(w, d), ok, w.clock)],
         uploads := w.uploads + UploadsOf(d, PassResult(env, At(w, d), ok, w.clock).uploadedMessageIds))
    case Tick(to) => w.(clock := to)
  }

  function After(env: Env, start: int, h: seq<Event>): World {
    if h == [] then World(start, map[], []) else Happen(env, After(env, start, h[..|h| - 1]), h[|h| - 1])
  }

  predicate Created(h: seq<Event>, m: Message) {
    exists i :: 0 <= i < |h| && h[i].Create? && h[i].message == m
  }

  lemma CreatedMore(h: seq<Event>, e: Event, m: Message)
    ensures Created(h, m) ==> Created(h + [e], m)
  {
    if Created(h, m) {
      var i :| 0 <= i < |h| && h[i].Create? && h[i].message == m;
      assert (h + [e])[i] == h[i];
    }
  }

  /** Ids are globally unique, and the clock never goes back. */
  ghost predicate Lawful(env: Env, start: int, h: seq<Event>) {
    && (forall m, m' :: Created(h, m) && Created(h, m') && m.messageId == m'.messageId ==> m == m')
    && (forall i :: 0 <= i < |h| && h[i].Tick? ==> After(env, start, h[..i]).clock <= h[i].to)
  }

  lemma LawfulPrefix(env: Env, start: int, h: seq<Event>)
    requires Lawful(env, start, h) && h != []
    ensures Lawful(env, start, h[..|h| - 1])
  {
    var g := h[..|h| - 1];
    assert g + [h[|h| - 1]] == h;
    forall m { CreatedMore(g, h[|h| - 1], m); }
    forall i | 0 <= i < |g| && g[i].Tick?
      ensures After(env, start, g[..i]).clock <= g[i].to
    {
      assert g[..i] == h[..i] && g[i] == h[i];
    }
  }

  // ----- what every event keeps -----

  ghost predicate DeviceInv(h: seq<Event>, st: RelayState) {
    Coherent(st) && forall m :: m in st.entries ==> Created(h, m)
  }

  ghost predicate WorldInv(h: seq<Event>, w: World) {
    forall d :: d in w.devices ==> DeviceInv(h, w.devices[d])
  }

  lemma AtInv(h: seq<Event>, w: World, d: string)
    requires WorldInv(h, w)
    ensures DeviceInv(h, At(w, d))
  {}

  lemma MetDistinct(env: Env, mine: seq<Message>, theirs: seq<Message>, now: int, x: Extent)
    requires Distinct(mine) && Distinct(theirs)
    ensures Distinct(Met(env, mine, theirs, now, x))
  {
    var theirLive := Live(env, theirs, now);
    SelectDistinct(env, Unexpired(now), theirs);
    PlanIsSound(env, mine, now, theirLive);
    var plan := PlanOf(env, mine, now, theirLive);
    var through := Through(env, x, plan.incoming);
    assert News(plan.live, through) by {
      if x.Only? {
        SelectDistinct(env, Among(x.ids), plan.incoming);
        SelectMembers(env, Among(x.ids), plan.incoming);
      }
    }
    NewsStore(env, plan.live, through, now, |through|);
    assert through[..|through|] == through;
  }

  /** Whether a session let a message through to one side. */
  predicate Passes(x: Extent, m: Message) {
    x.Everything? || (x.Only? && m.messageId in x.ids)
  }

  lemma ThroughMember(env: Env, x: Extent, incoming: seq<Message>, m: Message)
    ensures m in Through(env, x, incoming) <==> m in incoming && Passes(x, m)
  {
    if x.Only? { SelectMember(env, Among(x.ids), incoming, m); }
  }

  /** Which messages a meeting leaves on a device. */
  lemma MetMember(env: Env, mine: seq<Message>, theirs: seq<Message>, now: int, x: Extent, m: Message)
    ensures m in Met(env, mine, theirs, now, x) <==>
              || (m in mine && !IsExpired(env, m, now))
              || (m in theirs && m.messageId !in Ids(Live(env, mine, now)) && Accepts(env, m, now) && Passes(x, m))
  {
    var theirLive, live := Live(env, theirs, now), Live(env, mine, now);
    var incoming := Missing(env, theirLive, live);
    SelectMember(env, Unexpired(now), mine, m);
    SelectMember(env, Unexpired(now), theirs, m);
    SelectMember(env, NotIn(Ids(live)), theirLive, m);
    ThroughMember(env, x, incoming, m);
    SelectMember(env, Passing(now), Through(env, x, incoming), m);
  }

  lemma MeetingInv(env: Env, h: seq<Event>, mine: RelayState, theirs: RelayState, now: int, x: Extent)
    requires DeviceInv(h, mine) && DeviceInv(h, theirs)
    ensures DeviceInv(h, AfterMeeting(env, mine, theirs, now, x))
  {
    var met := Met(env, mine.entries, theirs.entries, now, x);
    MetDistinct(env, mine.entries, theirs.entries, now, x);
    forall m | m in met ensures Created(h, m) {
      MetMember(env, mine.entries, theirs.entries, now, x, m);
    }
    PrunedLaw(env, mine, now);
    forall id | id in Pruned(env, mine, now).uploaded ensures id in IdSet(met) {
      var m := MemberOfIds(Live(env, mine.entries, now), id);
      assert m in met;
      IdsMember(met, m);
    }
  }

  lemma CreateInv(h: seq<Event>, st: RelayState, m: Message)
    requires DeviceInv(h, st) && Created(h, m)
    ensures DeviceInv(h, st.(entries := Put(st.entries, m)))
  {
    PutLaw(st.entries, m);
    forall id | id in st.uploaded ensures id in IdSet(Put(st.entries, m)) {
      assert id in Ids(st.entries);
    }
  }

  lemma PassInv(env: Env, h: seq<Event>, st: RelayState, ok: set<string>, now: int)
    requires DeviceInv(h, st)
    ensures DeviceInv(h, AfterPass(env, st, ok, now))
  {
    PassLaw(env, st, ok, now);
    SelectMembers(env, Unexpired(now), st.entries);
  }

  lemma HappenInv(env: Env, h: seq<Event>, w: World, e: Event)
    requires WorldInv(h, w)
    ensures WorldInv(h + [e], Happen(env, w, e))
  {
    forall m { CreatedMore(h, e, m); }
    var h' := h + [e];
    assert WorldInv(h', w);
    match e
    case Create(d, m) =>
      assert h'[|h|] == e;
      CreateInv(h', At(w, d), m);
    case Meet(a, b, toA, toB) =>
      MeetingInv(env, h', At(w, a), At(w, b), w.clock, toA);
      MeetingInv(env, h', At(w, b), At(w, a), w.clock, toB);
    case Upload(d, ok) => PassInv(env, h', At(w, d), ok, w.clock);
    case Tick(to) =>
  }

  lemma {:induction false} AfterInv(env: Env, start: int, h: seq<Event>)
    ensures WorldInv(h, After(env, start, h))
  {
    if h != [] {
      var n := |h| - 1;
      AfterInv(env, start, h[..n]);
      HappenInv(env, h[..n], After(env, start, h[..n]), h[n]);
      assert h[..n] + [h[n]] == h;
    }
  }

  // ----- multi-hop delivery -----

  /** The devices a message has reached, by the events alone. */
  function Carriers(h: seq<Event>, m: Message): set<string> {
    if h == [] then {}
    else
      var before := Carriers(h[..|h| - 1], m);
      match h[|h| - 1]
      case Create(d, m') => if m' == m then before + {d} else before
      case Meet(a, b, toA, toB) =>
        before + (if b in before && Passes(toA, m) then {a} else {}) + (if a in before && Passes(toB, m) then {b} else {})
      case _ => before
  }

  lemma ExpiredLater(env: Env, m: Message, t: int, t': int)
    requires t <= t' && !IsExpired(env, m, t')
    ensures !IsExpired(env, m, t)
  {}

  /** With unique ids, nothing else can stand in for a message. */
  lemma NoImpostor(env: Env, start: int, h: seq<Event>, st: RelayState, m: Message)
    requires Lawful(env, start, h) && DeviceInv(h, st) && Created(h, m)
    ensures m.messageId in Ids(st.entries) <==> m in st.entries
  {
    if m.messageId in Ids(st.entries) {
      var m' := MemberOfIds(st.entries, m.messageId);
      assert Created(h, m');
    }
    if m in st.entries { IdsMember(st.entries, m); }
  }

  lemma MeetingCarries(env: Env, start: int, h: seq<Event>, mine: RelayState, theirs: RelayState, now: int, x: Extent, m: Message)
    requires Lawful(env, start, h) && DeviceInv(h, mine) && DeviceInv(h, theirs)
    requires Created(h, m) && env.checks(m) && !IsExpired(env, m, now)
    ensures m in AfterMeeting(env, mine, theirs, now, x).entries <==> m in mine.entries || (m in theirs.entries && Passes(x, m))
  {
    MetMember(env, mine.entries, theirs.entries, now, x, m);
    var live := Live(env, mine.entries, now);
    if m.messageId in Ids(live) {
      var m' := MemberOfIds(live, m.messageId);
      SelectMember(env, Unexpired(now), mine.entries, m');
      IdsMember(mine.entries, m');
    }
    NoImpostor(env, start, h, mine, m);
  }

  /** Creating another message leaves this one where it is. */
  lemma CreationCarries(env: Env, start: int, h: seq<Event>, st: RelayState, m: Message, m': Message)
    requires Lawful(env, start, h) && DeviceInv(h, st) && Created(h, m) && Created(h, m')
    ensures m in Put(st.entries, m') <==> m in st.entries || m == m'
  {
    PutLaw(st.entries, m');
    FindMember(Put(st.entries, m'), m');
    if m in st.entries && m != m' {
      var i :| 0 <= i < |st.entries| && st.entries[i] == m;
      assert Put(st.entries, m')[i] == m;
    }
  }

  /** One event carries a message to the devices it should, and to no other. */
  lemma EventCarries(env: Env, start: int, h: seq<Event>, e: Event, w: World, d: string, m: Message)
    requires Lawful(env, start, h + [e]) && WorldInv(h, w) && Created(h, m)
    requires env.checks(m) && !IsExpired(env, m, w.clock)
    ensures m in At(Happen(env, w, e), d).entries <==>
              || m in At(w, d).entries
              || (e.Create? && e.device == d && e.message == m)
              || (e.Meet? && d == e.first && m in At(w, e.second).entries && Passes(e.toFirst, m))
              || (e.Meet? && d == e.second && m in At(w, e.first).entries && Passes(e.toSecond, m))
  {
    var h' := h + [e];
    assert h'[..|h|] == h;
    match e
    case Create(d', m') =>
      if d == d' {
        assert h'[|h|] == e;
        forall x { CreatedMore(h, e, x); }
        CreationCarries(env, start, h', At(w, d), m, m');
      }
    case Meet(a, b, toA, toB) =>
      LawfulPrefix(env, start, h');
      if d == a { MeetingCarries(env, start, h, At(w, a), At(w, b), w.clock, toA, m); }
      if d == b { MeetingCarries(env, start, h, At(w, b), At(w, a), w.clock, toB, m); }
    case Upload(d', ok) =>
      SelectMember(env, Unexpired(w.clock), At(w, d').entries, m);
    case Tick(_) =>
  }

  /** A message that is on a device, or on its way, was created. */
  lemma {:induction false} CarriedIsCreated(h: seq<Event>, m: Message)
    requires Carriers(h, m) != {}
    ensures Created(h, m)
  {
    var n := |h| - 1;
    assert h[..n] + [h[n]] == h;
    CreatedMore(h[..n], h[n], m);
    if Carriers(h[..n], m) != {} { CarriedIsCreated(h[..n], m); }
  }

  lemma FirstCreation(env: Env, h: seq<Event>, e: Event, w: World, d: string, m: Message)
    requires WorldInv(h, w) && !Created(h, m)
    ensures m in At(Happen(env, w, e), d).entries <==> e == Create(d, m)
  {
    HappenInv(env, h, w, e);
    AtInv(h + [e], Happen(env, w, e), d);
    if m in At(Happen(env, w, e), d).entries {
      var i :| 0 <= i < |h + [e]| && (h + [e])[i].Create? && (h + [e])[i].message == m;
      AtInv(h, w, d);
    }
    if e == Create(d, m) {
      AtInv(h, w, d);
      PutLaw(At(w, d).entries, m);
    }
  }

  lemma StoreStep(env: Env, start: int, g: seq<Event>, e: Event, m: Message, d: string)
    requires Lawful(env, start, g + [e]) && env.checks(m) && !IsExpired(env, m, After(env, start, g).clock)
    requires forall x :: m in At(After(env, start, g), x).entries <==> x in Carriers(g, m)
    ensures m in At(After(env, start, g + [e]), d).entries <==> d in Carriers(g + [e], m)
  {
    var w := After(env, start, g);
    assert (g + [e])[..|g|] == g;
    AfterInv(env, start, g);
    if Carriers(g, m) != {} { CarriedIsCreated(g, m); }
    if Created(g, m) { EventCarries(env, start, g, e, w, d, m); } else { FirstCreation(env, g, e, w, d, m); }
  }

  /** While a message that passes the checks has not expired, exactly its carriers store it. */
  lemma {:induction false} CarriersStore(env: Env, start: int, h: seq<Event>, m: Message)
    requires Lawful(env, start, h) && env.checks(m) && !IsExpired(env, m, After(env, start, h).clock)
    ensures forall d :: m in At(After(env, start, h), d).entries <==> d in Carriers(h, m)
  {
    if h != [] {
      var g, e := h[..|h| - 1], h[|h| - 1];
      assert g + [e] == h;
      LawfulPrefix(env, start, h);
      ClockStep(env, start, h);
      ExpiredLater(env, m, After(env, start, g).clock, After(env, start, h).clock);
      CarriersStore(env, start, g, m);
      forall d { StoreStep(env, start, g, e, m, d); }
    }
  }

  lemma ClockStep(env: Env, start: int, h: seq<Event>)
    requires Lawful(env, start, h) && h != []
    ensures After(env, start, h[..|h| - 1]).clock <= After(env, start, h).clock
  {}

  // ----- paths -----

  /** A meeting in which the message could pass from one device to another. */
  predicate Joins(e: Event, m: Message, a: string, b: string) {
    e.Meet? && ((e.first == a && e.second == b && Passes(e.toSecond, m)) || (e.first == b && e.second == a && Passes(e.toFirst, m)))
  }

  /** A chain of meetings, each later than the one before: `stops[0]` created the message at event
      `times[0]`, and the event at `times[k]` lets it pass to stop k from the stop before it. */
  ghost predicate TimedPath(h: seq<Event>, m: Message, times: seq<nat>, stops: seq<string>) {
    && |times| == |stops| > 0
    && (forall k :: 0 <= k < |times| ==> times[k] < |h|)
    && (forall j, k :: 0 <= j < k < |times| ==> times[j] < times[k])
    && h[times[0]] == Create(stops[0], m)
    && (forall k :: 1 <= k < |times| ==> Joins(h[times[k]], m, stops[k - 1], stops[k]))
  }

  ghost predicate Reaches(h: seq<Event>, m: Message, d: string) {
    exists times, stops :: TimedPath(h, m, times, stops) && stops[|stops| - 1] == d
  }

  lemma ReachesMore(h: seq<Event>, e: Event, m: Message, d: string)
    requires Reaches(h, m, d)
    ensures Reaches(h + [e], m, d)
  {
    var times, stops :| TimedPath(h, m, times, stops) && stops[|stops| - 1] == d;
    assert TimedPath(h + [e], m, times, stops);
  }

  lemma ReachesHop(h: seq<Event>, e: Event, m: Message, a: string, b: string)
    requires Reaches(h, m, a) && Joins(e, m, a, b)
    ensures Reaches(h + [e], m, b)
  {
    var times, stops :| TimedPath(h, m, times, stops) && stops[|stops| - 1] == a;
    var now: nat := |h|;
    assert TimedPath(h + [e], m, times + [now], stops + [b]);
  }

  lemma {:induction false} CarriersReach(h: seq<Event>, m: Message, d: string)
    requires d in Carriers(h, m)
    ensures Reaches(h, m, d)
  {
    var n := |h| - 1;
    var g, e := h[..n], h[n];
    assert g + [e] == h;
    if d in Carriers(g, m) {
      CarriersReach(g, m, d);
      ReachesMore(g, e, m, d);
    } else if e.Create? {
      var birth: nat := n;
      assert TimedPath(h, m, [birth], [d]);
    } else {
      var a := if e.first == d && e.second in Carriers(g, m) && Passes(e.toFirst, m) then e.second else e.first;
      CarriersReach(g, m, a);
      ReachesHop(g, e, m, a, d);
    }
  }

  lemma {:induction false} CarriersGrow(h: seq<Event>, n: nat, m: Message)
    requires n <= |h|
    ensures Carriers(h[..n], m) <= Carriers(h, m)
  {
    if n < |h| {
      CarriersGrow(h[..|h| - 1], n, m);
      assert h[..|h| - 1][..n] == h[..n];
    } else {
      assert h[..n] == h;
    }
  }

  lemma {:induction false} PathCarries(h: seq<Event>, m: Message, times: seq<nat>, stops: seq<string>)
    requires TimedPath(h, m, times, stops)
    ensures stops[|stops| - 1] in Carriers(h, m)
    decreases |times|
  {
    var k := |times| - 1;
    var i := times[k];
    assert h[..i + 1][..i] == h[..i];
    if k > 0 {
      assert TimedPath(h[..i], m, times[..k], stops[..k]);
      PathCarries(h[..i], m, times[..k], stops[..k]);
      assert Joins(h[i], m, stops[k - 1], stops[k]);
    }
    CarriersGrow(h, i + 1, m);
  }

  /** Exact multi-hop delivery: with unique ids and a clock that never goes back, a message that passes
      the checks and has not expired is on a device exactly when the events so far contain a time-ordered
      path, of any length, from its creator to that device, of sessions that were complete or were cut after
      they let the message through. */
  lemma ExactDelivery(env: Env, start: int, h: seq<Event>, m: Message, d: string)
    requires Lawful(env, start, h) && env.checks(m)
    requires match env.parseDate(m.expiresAt) case None => true case Some(at) => After(env, start, h).clock < at
    ensures m in At(After(env, start, h), d).entries <==> Reaches(h, m, d)
  {
    CarriersStore(env, start, h, m);
    if d in Carriers(h, m) { CarriersReach(h, m, d); }
    if times, stops :| TimedPath(h, m, times, stops) && stops[|stops| - 1] == d {
      PathCarries(h, m, times, stops);
    }
  }

  /** The mesh's meeting is the session: whatever the interleaving, a complete session between two stores
      leaves them as a meeting does that lets everything through, whichever side opened it. */
  lemma MeetIsSession(env: Env, mine: RelayState, theirs: RelayState, now: int, idA: string, idB: string, turns: seq<Pair.Turn>)
    requires Distinct(mine.entries) && Distinct(theirs.entries)
    requires Complete(env, Meeting(idA, mine.entries, now, idB, theirs.entries, now), turns)
    ensures var q := Pair.Play(env, Meeting(idA, mine.entries, now, idB, theirs.entries, now).Start(), turns);
            q.a.store == AfterMeeting(env, mine, theirs, now, Everything).entries
            && q.b.store == AfterMeeting(env, theirs, mine, now, Everything).entries
  {
    SessionConverges(env, Meeting(idA, mine.entries, now, idB, theirs.entries, now), turns);
  }

  /** Some stretch of a list without repeated ids, by ids. */
  lemma {:induction false} PrefixByIds(env: Env, ms: seq<Message>, n: nat, group: set<string>)
    requires Distinct(ms) && n <= |ms| && group == IdSet(ms[..n])
    ensures Select(env, Among(group), ms) == ms[..n]
  {
    assert ms == ms[..n] + ms[n..];
    SelectAppend(env, Among(group), ms[..n], ms[n..]);
    forall m | m in ms[..n] ensures Holds(env, Among(group), m) { IdsMember(ms[..n], m); }
    SelectAll(env, Among(group), ms[..n]);
    forall m | m in ms[n..] ensures !Holds(env, Among(group), m) {
      if m.messageId in Ids(ms[..n]) { var m' := MemberOfIds(ms[..n], m.messageId); }
    }
    SelectNone(env, Among(group), ms[n..]);
  }

  /** The extent of what a session, wherever it was cut, brought to one side. */
  lemma SideExtent(env: Env, s: Handshake.Side, mine: seq<Message>, theirs: seq<Message>) returns (x: Extent)
    requires Distinct(mine) && Distinct(theirs)
    requires SideInv(env, s, PlanOf(env, mine, s.self.now, Live(env, theirs, s.self.now)))
    ensures x.Nothing? <==> s.phase.SendHello? || s.phase.AwaitHello? || s.phase.Summarise?
    ensures s.store == if x.Nothing? then mine else Met(env, mine, theirs, s.self.now, x)
  {
    var p := PlanOf(env, mine, s.self.now, Live(env, theirs, s.self.now));
    if s.phase.SendHello? || s.phase.AwaitHello? || s.phase.Summarise? {
      x := Nothing;
    } else {
      var n := if s.phase.Transfer? then Kept(s.reader) else 0;
      x := Only(IdSet(p.incoming[..n]));
      SelectDistinct(env, Unexpired(s.self.now), theirs);
      PlanIsSound(env, mine, s.self.now, Live(env, theirs, s.self.now));
      PrefixByIds(env, p.incoming, n, x.ids);
      assert p.incoming[..0] == [];
    }
  }

  /** And a session cut anywhere leaves both stores as a meeting of some extent does; a side's store, and
      with it the marks, was pruned exactly when the side had come to its summary. */
  lemma CutIsMeeting(env: Env, mine: RelayState, theirs: RelayState, now: int, idA: string, idB: string, turns: seq<Pair.Turn>)
      returns (x: Extent, y: Extent)
    requires Distinct(mine.entries) && Distinct(theirs.entries)
    requires Pair.Playable(env, Meeting(idA, mine.entries, now, idB, theirs.entries, now).Start(), turns)
    ensures var q := Pair.Play(env, Meeting(idA, mine.entries, now, idB, theirs.entries, now).Start(), turns);
            && q.a.store == AfterMeeting(env, mine, theirs, now, x).entries
            && q.b.store == AfterMeeting(env, theirs, mine, now, y).entries
            && (x.Nothing? <==> q.a.phase.SendHello? || q.a.phase.AwaitHello? || q.a.phase.Summarise?)
            && (y.Nothing? <==> q.b.phase.SendHello? || q.b.phase.AwaitHello? || q.b.phase.Summarise?)
  {
    var m := Meeting(idA, mine.entries, now, idB, theirs.entries, now);
    Pair.OpeningInv(env, idA, mine.entries, now, idB, theirs.entries, now);
    Pair.PlayInv(env, m.Start(), turns, m.PlanA(env), m.PlanB(env));
    PlayNow(env, m.Start(), turns);
    var q := Pair.Play(env, m.Start(), turns);
    x := SideExtent(env, q.a, mine.entries, theirs.entries);
    y := SideExtent(env, q.b, theirs.entries, mine.entries);
  }

  // ----- uploads -----

  /** An uploaded message is marked, or has expired for good. */
  ghost predicate Settled(env: Env, h: seq<Event>, w: World, d: string, id: string) {
    exists m :: Created(h, m) && m.messageId == id && (id in At(w, d).uploaded || IsExpired(env, m, w.clock))
  }

  ghost predicate UploadInv(env: Env, h: seq<Event>, w: World) {
    && (forall i, j :: 0 <= i < j < |w.uploads| ==> w.uploads[i] != w.uploads[j])
    && (forall u :: u in w.uploads ==> Settled(env, h, w, u.0, u.1))
    && (forall d, id :: id in At(w, d).uploaded ==> (d, id) in w.uploads)
  }

  /** A mark that a prune drops belonged to a message that had expired. */
  lemma PruneSettles(env: Env, h: seq<Event>, st: RelayState, now: int, id: string)
    requires DeviceInv(h, st) && id in st.uploaded
    ensures id in Pruned(env, st, now).uploaded
            || exists m :: Created(h, m) && m.messageId == id && IsExpired(env, m, now)
  {
    PrunedLaw(env, st, now);
    var m := MemberOfIds(st.entries, id);
    SelectMember(env, Unexpired(now), st.entries, m);
    if !IsExpired(env, m, now) { IdsMember(Live(env, st.entries, now), m); }
  }

  /** What an event does to the marks of one device. */
  lemma MarksAfter(env: Env, w: World, e: Event, d: string)
    requires Coherent(At(w, d))
    ensures var marks := At(Happen(env, w, e), d).uploaded;
            && (e.Upload? && e.gateway == d ==> Pruned(env, At(w, d), w.clock).uploaded <= marks)
            && (!(e.Upload? && e.gateway == d) ==> marks == At(w, d).uploaded || marks == Pruned(env, At(w, d), w.clock).uploaded)
            && (forall id :: id in marks && id !in At(w, d).uploaded ==>
                  e.Upload? && e.gateway == d && id in PassResult(env, At(w, d), e.ok, w.clock).uploadedMessageIds)
  {
    PrunedLaw(env, At(w, d), w.clock);
  }

  lemma StaysSettled(env: Env, start: int, h: seq<Event>, e: Event, w: World, d: string, id: string)
    requires Lawful(env, start, h + [e]) && WorldInv(h, w) && w == After(env, start, h)
    requires Settled(env, h, w, d, id)
    ensures Settled(env, h + [e], Happen(env, w, e), d, id)
  {
    assert (h + [e])[..|h|] == h;
    var w' := Happen(env, w, e);
    forall m { CreatedMore(h, e, m); }
    ClockStep(env, start, h + [e]);
    var m :| Created(h, m) && m.messageId == id && (id in At(w, d).uploaded || IsExpired(env, m, w.clock));
    if IsExpired(env, m, w.clock) {
      assert IsExpired(env, m, w'.clock);
    } else {
      AtInv(h, w, d);
      MarksAfter(env, w, e, d);
      PruneSettles(env, h, At(w, d), w.clock, id);
      LawfulPrefix(env, start, h + [e]);
    }
  }

  /** What a pass uploads was not uploaded before. */
  lemma PassIsNew(env: Env, start: int, h: seq<Event>, w: World, d: string, ok: set<string>, id: string)
    requires Lawful(env, start, h) && WorldInv(h, w) && UploadInv(env, h, w)
    requires id in PassResult(env, At(w, d), ok, w.clock).uploadedMessageIds
    ensures (d, id) !in w.uploads
    ensures exists m :: Created(h, m) && m.messageId == id
    ensures id in AfterPass(env, At(w, d), ok, w.clock).uploaded
  {
    var st := At(w, d);
    AtInv(h, w, d);
    PassLaw(env, st, ok, w.clock);
    var live := Live(env, st.entries, w.clock);
    var m := MemberOfIds(live, id);
    SelectMember(env, Unexpired(w.clock), st.entries, m);
    assert (d, id) in w.uploads ==> Settled(env, h, w, (d, id).0, (d, id).1);
  }

  lemma PassIdsDistinct(env: Env, st: RelayState, ok: set<string>, now: int)
    requires Coherent(st)
    ensures var ids := PassResult(env, st, ok, now).uploadedMessageIds;
            forall i, j :: 0 <= i < j < |ids| ==> ids[i] != ids[j]
  {
    SelectDistinct(env, Unexpired(now), st.entries);
    SelectDistinct(env, NotAmong(st.uploaded), Live(env, st.entries, now));
    SelectDistinct(env, Among(ok), PendingUploads(env, st, now));
  }

  lemma UploadsStayDistinct(env: Env, start: int, h: seq<Event>, w: World, d: string, ok: set<string>)
    requires Lawful(env, start, h) && WorldInv(h, w) && UploadInv(env, h, w)
    ensures var us := w.uploads + UploadsOf(d, PassResult(env, At(w, d), ok, w.clock).uploadedMessageIds);
            forall i, j :: 0 <= i < j < |us| ==> us[i] != us[j]
  {
    AtInv(h, w, d);
    var ids := PassResult(env, At(w, d), ok, w.clock).uploadedMessageIds;
    PassIdsDistinct(env, At(w, d), ok, w.clock);
    var us := w.uploads + UploadsOf(d, ids);
    forall i, j | 0 <= i < j < |us|
      ensures us[i] != us[j]
    {
      if j >= |w.uploads| {
        assert us[j] == (d, ids[j - |w.uploads|]);
        PassIsNew(env, start, h, w, d, ok, ids[j - |w.uploads|]);
        if i < |w.uploads| { assert us[i] in w.uploads; }
      }
    }
  }

  lemma UploadStep(env: Env, start: int, h: seq<Event>, e: Event, w: World)
    requires Lawful(env, start, h + [e]) && WorldInv(h, w) && w == After(env, start, h) && UploadInv(env, h, w)
    ensures UploadInv(env, h + [e], Happen(env, w, e))
  {
    assert (h + [e])[..|h|] == h;
    LawfulPrefix(env, start, h + [e]);
    var w' := Happen(env, w, e);
    forall m { CreatedMore(h, e, m); }
    if e.Upload? { UploadsStayDistinct(env, start, h, w, e.gateway, e.ok); }
    forall u | u in w'.uploads
      ensures Settled(env, h + [e], w', u.0, u.1)
    {
      if u in w.uploads {
        StaysSettled(env, start, h, e, w, u.0, u.1);
      } else {
        PassIsNew(env, start, h, w, u.0, e.ok, u.1);
      }
    }
    forall d, id | id in At(w', d).uploaded
      ensures (d, id) in w'.uploads
    {
      AtInv(h, w, d);
      MarksAfter(env, w, e, d);
      if id !in At(w, d).uploaded {
        var ids := PassResult(env, At(w, d), e.ok, w.clock).uploadedMessageIds;
        var i :| 0 <= i < |ids| && ids[i] == id;
        assert UploadsOf(d, ids)[i] == (d, id);
      }
    }
  }

  /** At most one successful upload per device and message: a mark lost to a prune never leads to a
      second upload, over any run of creations, meetings, gateway passes and ticks. */
  lemma {:induction false} UploadedOnce(env: Env, start: int, h: seq<Event>)
    requires Lawful(env, start, h)
    ensures UploadInv(env, h, After(env, start, h))
  {
    if h != [] {
      var g, e := h[..|h| - 1], h[|h| - 1];
      assert g + [e] == h;
      LawfulPrefix(env, start, h);
      UploadedOnce(env, start, g);
      AfterInv(env, start, g);
      UploadStep(env, start, g, e, After(env, start, g));
    }
  }

  ghost predicate Once(us: seq<(string, string)>, u: (string, string)) {
    exists i :: 0 <= i < |us| && us[i] == u && forall j :: 0 <= j < |us| && us[j] == u ==> j == i
  }

  lemma OnceInList(us: seq<(string, string)>, u: (string, string))
    requires u in us && forall i, j :: 0 <= i < j < |us| ==> us[i] != us[j]
    ensures Once(us, u)
  {
    var i :| 0 <= i < |us| && us[i] == u;
  }

  lemma PassMarks(env: Env, st: RelayState, ok: set<string>, now: int, m: Message)
    requires Coherent(st) && m in st.entries && !IsExpired(env, m, now) && m.messageId in ok
    ensures m.messageId in AfterPass(env, st, ok, now).uploaded
  {
    PassLaw(env, st, ok, now);
    SelectMember(env, Unexpired(now), st.entries, m);
  }

  /** From the origin to the server: when a time-ordered path leads to a gateway whose upload of the
      message resolves, the message has been uploaded from there, exactly once. */
  lemma DeliveredToServer(env: Env, start: int, h: seq<Event>, m: Message, d: string, ok: set<string>)
    requires Lawful(env, start, h) && env.checks(m) && !IsExpired(env, m, After(env, start, h).clock)
    requires Reaches(h, m, d) && m.messageId in ok
    ensures Once(After(env, start, h + [Upload(d, ok)]).uploads, (d, m.messageId))
  {
    var h' := h + [Upload(d, ok)];
    var w, w' := After(env, start, h), After(env, start, h');
    assert h'[..|h|] == h;
    ExactDelivery(env, start, h, m, d);
    AfterInv(env, start, h);
    AtInv(h, w, d);
    PassMarks(env, At(w, d), ok, w.clock, m);
    LawfulUpload(env, start, h, d, ok);
    UploadedOnce(env, start, h');
    assert m.messageId in At(w', d).uploaded;
    OnceInList(w'.uploads, (d, m.messageId));
  }

  lemma LawfulUpload(env: Env, start: int, h: seq<Event>, d: string, ok: set<string>)
    requires Lawful(env, start, h)
    ensures Lawful(env, start, h + [Upload(d, ok)])
  {
    var h' := h + [Upload(d, ok)];
    forall m | Created(h', m) ensures Created(h, m) {
      var i :| 0 <= i < |h'| && h'[i].Create? && h'[i].message == m;
      assert h[i] == h'[i];
    }
    forall i | 0 <= i < |h'| && h'[i].Tick?
      ensures After(env, start, h'[..i]).clock <= h'[i].to
    {
      assert h'[..i] == h[..i] && h[i] == h'[i];
    }
  }
}
