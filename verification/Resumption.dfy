/** Sessions that were cut, and the one that completes them. */
module Resumption {
  import opened Messages
  import opened StoreSpec
  import opened Handshake
  import opened Session
  import opened Pair
  import opened Convergence

  lemma NoneLacking(env: Env, kept: seq<Message>, back: seq<Message>)
    requires forall m :: m in back ==> m in kept
    ensures Select(env, NotIn(Ids(kept)), back) == []
  {
    forall m | m in back ensures !Holds(env, NotIn(Ids(kept)), m) { IdsMember(kept, m); }
    SelectNone(env, NotIn(Ids(kept)), back);
  }

  lemma RestIsLacking(env: Env, live: seq<Message>, incoming: seq<Message>, now: int, n: nat)
    requires News(live, incoming) && n <= |incoming|
    ensures Select(env, NotIn(Ids(live + Select(env, Passing(now), incoming[..n]))), incoming[n..]) == incoming[n..]
  {
    StillFresh(env, live, incoming, now, n);
    SelectAll(env, NotIn(Ids(live + Select(env, Passing(now), incoming[..n]))), incoming[n..]);
  }

  /** After part of the news was taken, the peer lacks nothing of `back`, which came from here, and is
      still news: what was offered and not taken, and all that was not offered. */
  lemma StillMissing(env: Env, live: seq<Message>, peerLive: seq<Message>, now: int, n: nat, back: seq<Message>)
    requires News(live, Missing(env, peerLive, live)) && n <= |Missing(env, peerLive, live)|
    requires forall m :: m in back ==> m in live
    ensures var incoming := Missing(env, peerLive, live);
            var kept := live + Select(env, Passing(now), incoming[..n]);
            Missing(env, peerLive + back, kept) == Select(env, NotIn(Ids(kept)), incoming[..n]) + incoming[n..]
  {
    var incoming := Missing(env, peerLive, live);
    var kept := live + Select(env, Passing(now), incoming[..n]);
    var lacking := NotIn(Ids(kept));
    assert Select(env, lacking, back) == [] by { NoneLacking(env, kept, back); }
    SelectAppend(env, lacking, peerLive, back);
    assert Select(env, lacking, incoming) == Select(env, lacking, peerLive) by {
      IdsAppend(live, Select(env, Passing(now), incoming[..n]));
      SelectNarrow(env, lacking, NotIn(Ids(live)), peerLive);
    }
    assert incoming == incoming[..n] + incoming[n..];
    SelectAppend(env, lacking, incoming[..n], incoming[n..]);
    assert Select(env, lacking, incoming[n..]) == incoming[n..] by { RestIsLacking(env, live, incoming, now, n); }
  }

  /** What was offered and not taken does not validate. */
  lemma NotTaken(env: Env, live: seq<Message>, offered: seq<Message>, now: int)
    ensures var kept := live + Select(env, Passing(now), offered);
            Select(env, Passing(now), Select(env, NotIn(Ids(kept)), offered)) == []
  {
    var taken := Select(env, Passing(now), offered);
    var lacking := NotIn(Ids(live + taken));
    SelectCommute(env, Passing(now), lacking, offered);
    forall m | m in taken ensures !Holds(env, lacking, m) { IdsMember(live + taken, m); }
    SelectNone(env, lacking, taken);
  }

  /** What came in before the cut needs no second transfer, and nothing else changes what will come in. */
  lemma RestOfNews(env: Env, live: seq<Message>, peerLive: seq<Message>, now: int, n: nat, back: seq<Message>)
    requires News(live, Missing(env, peerLive, live)) && n <= |Missing(env, peerLive, live)|
    requires forall m :: m in back ==> m in live
    ensures var incoming := Missing(env, peerLive, live);
            var kept := live + Select(env, Passing(now), incoming[..n]);
            Select(env, Passing(now), Missing(env, peerLive + back, kept)) == Select(env, Passing(now), incoming[n..])
  {
    var incoming := Missing(env, peerLive, live);
    var kept := live + Select(env, Passing(now), incoming[..n]);
    var untaken := Select(env, NotIn(Ids(kept)), incoming[..n]);
    assert Missing(env, peerLive + back, kept) == untaken + incoming[n..] by {
      StillMissing(env, live, peerLive, now, n, back);
    }
    assert Select(env, Passing(now), untaken) == [] by { NotTaken(env, live, incoming[..n], now); }
    SelectAppend(env, Passing(now), untaken, incoming[n..]);
  }

  lemma SelectSplit(env: Env, t: Test, ms: seq<Message>, n: nat)
    requires n <= |ms|
    ensures Select(env, t, ms[..n]) + Select(env, t, ms[n..]) == Select(env, t, ms)
  {
    assert ms == ms[..n] + ms[n..];
    SelectAppend(env, t, ms[..n], ms[n..]);
  }

  lemma MissingIsNews(env: Env, live: seq<Message>, peerLive: seq<Message>)
    requires Distinct(live) && Distinct(peerLive)
    ensures News(live, Missing(env, peerLive, live))
  {
    SelectDistinct(env, NotIn(Ids(live)), peerLive);
    SelectMembers(env, NotIn(Ids(live)), peerLive);
  }

  lemma StillFresh(env: Env, live: seq<Message>, incoming: seq<Message>, now: int, n: nat)
    requires News(live, incoming) && n <= |incoming|
    ensures forall m :: m in incoming[n..] ==> m.messageId !in Ids(live + Select(env, Passing(now), incoming[..n]))
  {
    var taken := Select(env, Passing(now), incoming[..n]);
    SelectMembers(env, Passing(now), incoming[..n]);
    forall m | m in incoming[n..]
      ensures m.messageId !in Ids(live + taken)
    {
      assert m in incoming;
      if m.messageId in Ids(live + taken) {
        var m' := MemberOfIds(live + taken, m.messageId);
        if m' in live { IdsMember(live, m'); }
      }
    }
  }

  /** A test at least as strict does not notice an earlier filter. */
  lemma {:induction false} SelectNarrow(env: Env, t: Test, u: Test, ms: seq<Message>)
    requires forall m :: m in ms && Holds(env, t, m) ==> Holds(env, u, m)
    ensures Select(env, t, Select(env, u, ms)) == Select(env, t, ms)
  {
    if ms != [] {
      SelectNarrow(env, t, u, ms[1..]);
      SelectOne(env, t, ms[0]);
      SelectAppend(env, t, if Holds(env, u, ms[0]) then [ms[0]] else [], Select(env, u, ms[1..]));
    }
  }

  /** After a prune, a store left by a session holds its live part and some of the news. */
  lemma PartialLive(env: Env, own: seq<Message>, now: int, peerLive: seq<Message>, store: seq<Message>) returns (n: nat)
    requires Partial(env, own, now, peerLive, store)
    ensures var p := PlanOf(env, own, now, peerLive);
            n <= |p.incoming| && Live(env, store, now) == p.live + Select(env, Passing(now), p.incoming[..n])
            && |store| <= |own| + n && (store != own ==> store == Live(env, store, now))
  {
    var p := PlanOf(env, own, now, peerLive);
    SelectMembers(env, Unexpired(now), own);
    if store == own {
      n := 0;
      assert p.incoming[..0] == [];
    } else {
      n :| 0 <= n <= |p.incoming| && store == p.live + Select(env, Passing(now), p.incoming[..n]);
      SelectMembers(env, Passing(now), p.incoming[..n]);
      SelectAll(env, Unexpired(now), store);
    }
  }

  lemma BackIsKnown(env: Env, live: seq<Message>, peerLive: seq<Message>, now: int, k: nat)
    requires k <= |Missing(env, live, peerLive)|
    ensures forall m :: m in Select(env, Passing(now), Missing(env, live, peerLive)[..k]) ==> m in live
  {
    var outgoing := Missing(env, live, peerLive);
    forall m | m in Select(env, Passing(now), outgoing[..k])
      ensures m in live
    {
      SelectMember(env, Passing(now), outgoing[..k], m);
      assert m in outgoing;
      SelectMember(env, NotIn(Ids(peerLive)), live, m);
    }
  }

  /** A session that was cut changes nothing about what a complete session would leave. */
  lemma PartialMerges(env: Env, a: seq<Message>, nowA: int, b: seq<Message>, nowB: int, a': seq<Message>, b': seq<Message>)
    requires Distinct(a) && Distinct(b)
    requires Partial(env, a, nowA, Live(env, b, nowB), a') && Partial(env, b, nowB, Live(env, a, nowA), b')
    ensures Merged(env, a', nowA, Live(env, b', nowB)) == Merged(env, a, nowA, Live(env, b, nowB))
  {
    var n := PartialLive(env, a, nowA, Live(env, b, nowB), a');
    var k := PartialLive(env, b, nowB, Live(env, a, nowA), b');
    LivePairMerges(env, a, nowA, b, nowB, n, k, a', b');
  }

  lemma LivePairMerges(env: Env, a: seq<Message>, nowA: int, b: seq<Message>, nowB: int, n: nat, k: nat,
                       a': seq<Message>, b': seq<Message>)
    requires Distinct(a) && Distinct(b)
    requires var liveA, liveB := Live(env, a, nowA), Live(env, b, nowB);
             && n <= |Missing(env, liveB, liveA)| && k <= |Missing(env, liveA, liveB)|
             && Live(env, a', nowA) == liveA + Select(env, Passing(nowA), Missing(env, liveB, liveA)[..n])
             && Live(env, b', nowB) == liveB + Select(env, Passing(nowB), Missing(env, liveA, liveB)[..k])
    ensures Merged(env, a', nowA, Live(env, b', nowB)) == Merged(env, a, nowA, Live(env, b, nowB))
  {
    var liveA, liveB := Live(env, a, nowA), Live(env, b, nowB);
    var incoming := Missing(env, liveB, liveA);
    var back := Select(env, Passing(nowB), Missing(env, liveA, liveB)[..k]);
    assert News(liveA, incoming) by {
      SelectDistinct(env, Unexpired(nowA), a);
      SelectDistinct(env, Unexpired(nowB), b);
      MissingIsNews(env, liveA, liveB);
    }
    BackIsKnown(env, liveA, liveB, nowB, k);
    RestOfNews(env, liveA, liveB, nowA, n, back);
    SelectSplit(env, Passing(nowA), incoming, n);
    var got := Select(env, Passing(nowA), incoming[..n]);
    assert liveA + got + Select(env, Passing(nowA), incoming[n..]) == liveA + (got + Select(env, Passing(nowA), incoming[n..]));
  }

  lemma PartialDistinct(env: Env, own: seq<Message>, now: int, peerLive: seq<Message>, store: seq<Message>)
    requires Distinct(own) && Distinct(peerLive) && Partial(env, own, now, peerLive, store)
    ensures Distinct(store)
  {
    var p := PlanOf(env, own, now, peerLive);
    PlanIsSound(env, own, now, peerLive);
    if store != own {
      var n :| 0 <= n <= |p.incoming| && store == p.live + Select(env, Passing(now), p.incoming[..n]);
      NewsStore(env, p.live, p.incoming, now, n);
    }
  }

  /** One attempt at a session: which of the two devices opened the connection, and what happened. */
  datatype Attempt = Attempt(aOpens: bool, turns: seq<Turn>)

  function MeetingOf(m: Meeting, aOpens: bool): Meeting {
    if aOpens then m else Meeting(m.idB, m.storeB, m.nowB, m.idA, m.storeA, m.nowA)
  }

  predicate CanAttempt(env: Env, m: Meeting, x: Attempt) {
    Playable(env, MeetingOf(m, x.aOpens).Start(), x.turns)
  }

  /** The two devices after an attempt, ready for the next one; the clocks stand still. */
  function After(env: Env, m: Meeting, x: Attempt): Meeting
    requires CanAttempt(env, m, x)
  {
    var q := Play(env, MeetingOf(m, x.aOpens).Start(), x.turns);
    if x.aOpens then m.(storeA := q.a.store, storeB := q.b.store) else m.(storeA := q.b.store, storeB := q.a.store)
  }

  predicate CanAttemptAll(env: Env, m: Meeting, xs: seq<Attempt>)
    decreases xs
  {
    xs == [] || (CanAttempt(env, m, xs[0]) && CanAttemptAll(env, After(env, m, xs[0]), xs[1..]))
  }

  function AfterAll(env: Env, m: Meeting, xs: seq<Attempt>): Meeting
    requires CanAttemptAll(env, m, xs)
    decreases xs
  {
    if xs == [] then m else AfterAll(env, After(env, m, xs[0]), xs[1..])
  }

  function MergedA(env: Env, m: Meeting): seq<Message> {
    Merged(env, m.storeA, m.nowA, Live(env, m.storeB, m.nowB))
  }

  function MergedB(env: Env, m: Meeting): seq<Message> {
    Merged(env, m.storeB, m.nowB, Live(env, m.storeA, m.nowA))
  }

  lemma AttemptMerges(env: Env, m: Meeting, x: Attempt)
    requires m.Valid() && CanAttempt(env, m, x)
    ensures After(env, m, x).Valid()
    ensures MergedA(env, After(env, m, x)) == MergedA(env, m) && MergedB(env, After(env, m, x)) == MergedB(env, m)
  {
    var m' := After(env, m, x);
    CutIsPartial(env, MeetingOf(m, x.aOpens), x.turns);
    var liveA, liveB := Live(env, m.storeA, m.nowA), Live(env, m.storeB, m.nowB);
    SelectDistinct(env, Unexpired(m.nowA), m.storeA);
    SelectDistinct(env, Unexpired(m.nowB), m.storeB);
    PartialDistinct(env, m.storeA, m.nowA, liveB, m'.storeA);
    PartialDistinct(env, m.storeB, m.nowB, liveA, m'.storeB);
    PartialMerges(env, m.storeA, m.nowA, m.storeB, m.nowB, m'.storeA, m'.storeB);
    PartialMerges(env, m.storeB, m.nowB, m.storeA, m.nowA, m'.storeB, m'.storeA);
  }

  lemma {:induction false} AttemptsMerge(env: Env, m: Meeting, xs: seq<Attempt>)
    requires m.Valid() && CanAttemptAll(env, m, xs)
    ensures var m' := AfterAll(env, m, xs);
            m'.Valid() && MergedA(env, m') == MergedA(env, m) && MergedB(env, m') == MergedB(env, m)
    decreases xs
  {
    if xs != [] {
      AttemptMerges(env, m, xs[0]);
      AttemptsMerge(env, After(env, m, xs[0]), xs[1..]);
    }
  }

  /** Any number of attempts, each cut anywhere and opened by either device, and then one complete
      session, leave both stores as one uninterrupted session would have: same entries, same order. */
  lemma ResumptionEquivalence(env: Env, m: Meeting, cuts: seq<Attempt>, last: Attempt, single: Attempt)
    requires m.Valid() && CanAttemptAll(env, m, cuts)
    requires Complete(env, MeetingOf(AfterAll(env, m, cuts), last.aOpens), last.turns)
    requires Complete(env, MeetingOf(m, single.aOpens), single.turns)
    ensures After(env, AfterAll(env, m, cuts), last).storeA == After(env, m, single).storeA
    ensures After(env, AfterAll(env, m, cuts), last).storeB == After(env, m, single).storeB
  {
    AttemptsMerge(env, m, cuts);
    SessionConverges(env, MeetingOf(AfterAll(env, m, cuts), last.aOpens), last.turns);
    SessionConverges(env, MeetingOf(m, single.aOpens), single.turns);
  }

  /** How many valid messages A still lacks. */
  function LackingA(env: Env, m: Meeting): nat {
    |Select(env, Passing(m.nowA), Missing(env, Live(env, m.storeB, m.nowB), Live(env, m.storeA, m.nowA)))|
  }

  /** Each attempt, however it was cut, lowers what A lacks by exactly what its store gained; so no
      transfer is ever repeated. */
  lemma AttemptGains(env: Env, m: Meeting, x: Attempt)
    requires m.Valid() && CanAttempt(env, m, x)
    ensures var m' := After(env, m, x);
            LackingA(env, m') + |Live(env, m'.storeA, m.nowA)| == LackingA(env, m) + |Live(env, m.storeA, m.nowA)|
  {
    AttemptMerges(env, m, x);
  }

  /** And what the store gained is what A's run reports as stored, save for one message whose report was
      still to come, whichever device opened. */
  lemma AttemptReports(env: Env, m: Meeting, x: Attempt)
    requires m.Valid() && CanAttempt(env, m, x)
    ensures var q := Play(env, MeetingOf(m, x.aOpens).Start(), x.turns);
            var run := if x.aOpens then q.a else q.b;
            LackingA(env, m) - LackingA(env, After(env, m, x)) == |run.reader.stored| + if run.reader.stage.Saved? then 1 else 0
  {
    var m0 := MeetingOf(m, x.aOpens);
    var q := Play(env, m0.Start(), x.turns);
    OpeningInv(env, m0.idA, m0.storeA, m0.nowA, m0.idB, m0.storeB, m0.nowB);
    PlayInv(env, m0.Start(), x.turns, m0.PlanA(env), m0.PlanB(env));
    PlayNow(env, m0.Start(), x.turns);
    AttemptGains(env, m, x);
    if x.aOpens { SideLive(env, q.a, m0.PlanA(env)); } else { SideLive(env, q.b, m0.PlanB(env)); }
  }

  /** Of what has reached the store, all but a message just saved is reported. */
  lemma KeptCount(env: Env, l: ReadLoop, now: int, p: Plan)
    requires ReaderInv(env, l, now, p)
    ensures Kept(l) <= |p.incoming|
    ensures |Select(env, Passing(now), p.incoming[..Kept(l)])| == |l.stored| + if l.stage.Saved? then 1 else 0
  {
    if l.stage.Saved? { TakenOneMore(env, now, p.incoming, l.at); }
  }

  lemma TransferLive(env: Env, s: Side, p: Plan)
    requires TransferInv(env, s, p) && p.live == Live(env, p.own, s.self.now)
    ensures |Live(env, s.store, s.self.now)| == |p.live| + |s.reader.stored| + if s.reader.stage.Saved? then 1 else 0
  {
    KeptCount(env, s.reader, s.self.now, p);
    SelectMembers(env, Unexpired(s.self.now), p.own);
    SelectMembers(env, Passing(s.self.now), p.incoming[..Kept(s.reader)]);
    SelectAll(env, Unexpired(s.self.now), s.store);
  }

  lemma SideLive(env: Env, s: Side, p: Plan)
    requires SideInv(env, s, p) && p == PlanOf(env, p.own, s.self.now, p.peerLive)
    ensures |Live(env, s.store, s.self.now)| == |p.live| + |s.reader.stored| + if s.reader.stage.Saved? then 1 else 0
  {
    if s.phase.Transfer? {
      TransferLive(env, s, p);
    } else {
      SelectMembers(env, Unexpired(s.self.now), p.own);
      SelectAll(env, Unexpired(s.self.now), p.live);
    }
  }
}
