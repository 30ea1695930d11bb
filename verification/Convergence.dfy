/** What a session leaves behind: complete, or cut anywhere. */
module Convergence {
  import opened Options
  import opened Messages
  import opened StoreSpec
  import opened Handshake
  import opened Session
  import opened Pair

  /** Two devices about to meet: who they are, their clocks and their stores. */
  datatype Meeting = Meeting(idA: string, storeA: seq<Message>, nowA: int, idB: string, storeB: seq<Message>, nowB: int) {
    function Start(): Pair {
      Opening(idA, storeA, nowA, idB, storeB, nowB)
    }

    function PlanA(env: Env): Plan {
      PlanOf(env, storeA, nowA, Live(env, storeB, nowB))
    }

    function PlanB(env: Env): Plan {
      PlanOf(env, storeB, nowB, Live(env, storeA, nowA))
    }

    ghost predicate Valid() {
      Distinct(storeA) && Distinct(storeB)
    }
  }

  /** A schedule without failures that has gone as far as it can. */
  ghost predicate Complete(env: Env, m: Meeting, turns: seq<Turn>) {
    && Playable(env, m.Start(), turns) && Uncut(turns)
    && forall t :: CanTurn(Play(env, m.Start(), turns), t) ==> Fails(t.move)
  }

  /** What a finished run reports, and the store it leaves. */
  ghost predicate Delivered(env: Env, s: Side, p: Plan) {
    && Finished(s)
    && s.store == p.live + Select(env, Passing(s.self.now), p.incoming)
    && Outcome(s) == Some(SyncOutcome(false, false, Ids(p.outgoing),
                                      Ids(Select(env, Passing(s.self.now), p.incoming)),
                                      Ids(Select(env, Failing(s.self.now), p.incoming))))
  }

  lemma FinishedDelivers(env: Env, s: Side, p: Plan)
    requires SideInv(env, s, p) && Finished(s)
    ensures Delivered(env, s, p)
  {
    assert p.incoming[..|p.incoming|] == p.incoming;
    assert p.outgoing[..|p.outgoing|] == p.outgoing;
  }

  /** Every schedule without failures ends with both runs finished, both queues empty, both
      reports exact and both stores merged, whatever the interleaving was. */
  lemma SessionConverges(env: Env, m: Meeting, turns: seq<Turn>)
    requires m.Valid() && Complete(env, m, turns)
    ensures var q := Play(env, m.Start(), turns);
            Delivered(env, q.a, m.PlanA(env)) && Delivered(env, q.b, m.PlanB(env)) && q.toA == q.toB == []
            && q.a.store == Merged(env, m.storeA, m.nowA, Live(env, m.storeB, m.nowB))
            && q.b.store == Merged(env, m.storeB, m.nowB, Live(env, m.storeA, m.nowA))
  {
    var pa, pb := m.PlanA(env), m.PlanB(env);
    OpeningInv(env, m.idA, m.storeA, m.nowA, m.idB, m.storeB, m.nowB);
    PlayInv(env, m.Start(), turns, pa, pb);
    PlayUnbroken(env, m.Start(), turns, pa, pb);
    var q := Play(env, m.Start(), turns);
    if !Finished(q.a) || !Finished(q.b) {
      var t := NeverStuck(env, q, pa, pb);
    }
    FinishedDelivers(env, q.a, pa);
    FinishedDelivers(env, q.b, pb);
    PlayNow(env, m.Start(), turns);
  }

  lemma {:induction false} PlayNow(env: Env, p: Pair, turns: seq<Turn>)
    requires Playable(env, p, turns)
    ensures var q := Play(env, p, turns);
            q.a.self.now == p.a.self.now && q.b.self.now == p.b.self.now
    decreases turns
  {
    if turns != [] {
      var t := turns[0];
      var s := if t.first then p.a else p.b;
      forall f { ApplyIdentity(env, s, t.move, f); }
      PlayNow(env, TakeTurn(env, p, t), turns[1..]);
    }
  }

  /** What both sides still have to do after a schedule. */
  ghost function Left(env: Env, m: Meeting, turns: seq<Turn>): nat
    requires Playable(env, m.Start(), turns)
  {
    var q := Play(env, m.Start(), turns);
    var n := Remaining(q.a, m.PlanA(env)) + Remaining(q.b, m.PlanB(env));
    if n < 0 then 0 else n
  }

  lemma OneMoreTurn(env: Env, m: Meeting, turns: seq<Turn>, t: Turn)
    requires m.Valid() && Playable(env, m.Start(), turns) && CanTurn(Play(env, m.Start(), turns), t)
    ensures Playable(env, m.Start(), turns + [t]) && Left(env, m, turns + [t]) < Left(env, m, turns)
  {
    var pa, pb := m.PlanA(env), m.PlanB(env);
    OpeningInv(env, m.idA, m.storeA, m.nowA, m.idB, m.storeB, m.nowB);
    PlayInv(env, m.Start(), turns, pa, pb);
    var q := Play(env, m.Start(), turns);
    RemainingIsNatural(env, q.a, pa);
    RemainingIsNatural(env, q.b, pb);
    PlaySnoc(env, m.Start(), turns, t);
    if t.first { MoveShrinks(env, q, t.move, pa, pb); } else { MoveShrinks(env, Flip(q), t.move, pb, pa); }
  }

  /** Any schedule without failures can be completed. */
  lemma {:induction false} CompleteExists(env: Env, m: Meeting, turns: seq<Turn>) returns (more: seq<Turn>)
    requires m.Valid() && Playable(env, m.Start(), turns) && Uncut(turns)
    ensures Complete(env, m, turns + more)
    decreases Left(env, m, turns)
  {
    if t :| CanTurn(Play(env, m.Start(), turns), t) && !Fails(t.move) {
      OneMoreTurn(env, m, turns, t);
      var rest := CompleteExists(env, m, turns + [t]);
      assert turns + [t] + rest == turns + ([t] + rest);
      more := [t] + rest;
    } else {
      assert turns + [] == turns;
      more := [];
    }
  }

  lemma {:induction false} PlaySnoc(env: Env, p: Pair, turns: seq<Turn>, t: Turn)
    requires Playable(env, p, turns) && CanTurn(Play(env, p, turns), t)
    ensures Playable(env, p, turns + [t])
    ensures Play(env, p, turns + [t]) == TakeTurn(env, Play(env, p, turns), t)
    decreases turns
  {
    if turns == [] {
      assert turns + [t] == [t] && [t][1..] == [];
    } else {
      assert (turns + [t])[1..] == turns[1..] + [t];
      PlaySnoc(env, TakeTurn(env, p, turns[0]), turns[1..], t);
    }
  }

  lemma MergedDistinct(env: Env, own: seq<Message>, now: int, peerLive: seq<Message>)
    requires Distinct(own) && Distinct(peerLive)
    ensures Distinct(Merged(env, own, now, peerLive))
  {
    var plan := PlanOf(env, own, now, peerLive);
    PlanIsSound(env, own, now, peerLive);
    NewsStore(env, plan.live, plan.incoming, now, |plan.incoming|);
    assert plan.incoming[..|plan.incoming|] == plan.incoming;
  }

  /** Each side keeps its own live messages and gains exactly the peer's live messages it had no entry
      for and that validate at its own clock. */
  lemma MergedMember(env: Env, own: seq<Message>, now: int, peerLive: seq<Message>, m: Message)
    ensures m in Merged(env, own, now, peerLive) <==>
              || (m in own && !IsExpired(env, m, now))
              || (m in peerLive && m.messageId !in Ids(Live(env, own, now)) && Accepts(env, m, now))
  {
    var live := Live(env, own, now);
    SelectMember(env, Unexpired(now), own, m);
    SelectMember(env, NotIn(Ids(live)), peerLive, m);
    SelectMember(env, Passing(now), Missing(env, peerLive, live), m);
  }

  /** The same for all messages, with the expiry spelled out; what is kept stays in place, in front. */
  lemma MergedMembers(env: Env, own: seq<Message>, now: int, peerLive: seq<Message>)
    ensures Live(env, own, now) <= Merged(env, own, now, peerLive)
    ensures forall m :: m in Merged(env, own, now, peerLive) <==>
              && (match env.parseDate(m.expiresAt) case None => true case Some(at) => now < at)
              && (m in own || (m in peerLive && m.messageId !in Ids(Live(env, own, now)) && env.checks(m)))
    ensures forall m :: m in Live(env, own, now) <==>
              m in own && match env.parseDate(m.expiresAt) case None => true case Some(at) => now < at
  {
    SelectMembers(env, Unexpired(now), own);
    forall m { MergedMember(env, own, now, peerLive, m); }
  }

  /** With one clock and stores whose messages pass the checks, both sides end with the same ids:
      those that were live on either side. */
  lemma SameIds(env: Env, a: seq<Message>, b: seq<Message>, now: int)
    requires Distinct(a) && Distinct(b)
    requires forall m :: m in a || m in b ==> env.checks(m)
    ensures forall id :: id in Ids(Merged(env, a, now, Live(env, b, now))) <==> id in Ids(Live(env, a, now)) || id in Ids(Live(env, b, now))
    ensures forall id :: id in Ids(Merged(env, b, now, Live(env, a, now))) <==> id in Ids(Live(env, a, now)) || id in Ids(Live(env, b, now))
  {
    MergedIds(env, a, b, now);
    MergedIds(env, b, a, now);
  }

  lemma MergedIds(env: Env, a: seq<Message>, b: seq<Message>, now: int)
    requires Distinct(a) && Distinct(b)
    requires forall m :: m in b ==> env.checks(m)
    ensures forall id :: id in Ids(Merged(env, a, now, Live(env, b, now))) <==> id in Ids(Live(env, a, now)) || id in Ids(Live(env, b, now))
  {
    var liveA, liveB := Live(env, a, now), Live(env, b, now);
    SelectMembers(env, Unexpired(now), a);
    SelectMembers(env, Unexpired(now), b);
    SelectDistinct(env, Unexpired(now), b);
    MergedMembers(env, a, now, liveB);
    var merged := Merged(env, a, now, liveB);
    forall id
      ensures id in Ids(merged) <==> id in Ids(liveA) || id in Ids(liveB)
    {
      if id in Ids(merged) {
        var m := MemberOfIds(merged, id);
        if m in liveA { IdsMember(liveA, m); } else { IdsMember(liveB, m); }
      } else if id in Ids(liveA) {
        var m := MemberOfIds(liveA, id);
        IdsMember(merged, m);
      } else if id in Ids(liveB) {
        var m := MemberOfIds(liveB, id);
        IdsMember(merged, m);
      }
    }
  }

  // ----- sessions cut anywhere -----

  /** One direction of a session: the reported sends are a prefix of what was to be sent, what the reader has
      dealt with is a prefix of it too, each message of it reported once, and the reader is ahead of the
      sender's report by at most the one send whose completion was not recorded. */
  ghost predicate InOrder(env: Env, sender: Side, reader: Side, offered: seq<Message>) {
    && sender.sender.sent <= Ids(offered)
    && (reader.phase.Transfer? ==>
          && reader.reader.at <= |sender.sender.sent| + 1 && reader.reader.at <= |offered|
          && reader.reader.stored == Ids(Select(env, Passing(reader.self.now), offered[..reader.reader.at]))
          && reader.reader.rejected == Ids(Select(env, Failing(reader.self.now), offered[..reader.reader.at]))
          && |reader.reader.stored| + |reader.reader.rejected| == reader.reader.at)
  }

  lemma DirectionInOrder(env: Env, p: Pair, pa: Plan, pb: Plan)
    requires PairInv(env, p, pa, pb)
    ensures InOrder(env, p.a, p.b, pa.outgoing)
  {
    if p.a.phase.Transfer? {
      IdsPrefix(pa.outgoing, p.a.sender.at);
    }
    if p.b.phase.Transfer? {
      PassOrFail(env, p.b.self.now, pa.outgoing[..p.b.reader.at]);
    }
  }

  /** In a session cut anywhere, both directions are in order. */
  lemma CutOrder(env: Env, m: Meeting, turns: seq<Turn>)
    requires m.Valid() && Playable(env, m.Start(), turns)
    ensures var q := Play(env, m.Start(), turns);
            InOrder(env, q.a, q.b, m.PlanA(env).outgoing) && InOrder(env, q.b, q.a, m.PlanB(env).outgoing)
  {
    var pa, pb := m.PlanA(env), m.PlanB(env);
    OpeningInv(env, m.idA, m.storeA, m.nowA, m.idB, m.storeB, m.nowB);
    PlayInv(env, m.Start(), turns, pa, pb);
    var q := Play(env, m.Start(), turns);
    DirectionInOrder(env, q, pa, pb);
    assert PairInv(env, Flip(q), pb, pa);
    DirectionInOrder(env, Flip(q), pb, pa);
  }

  lemma IdsPrefix(ms: seq<Message>, n: nat)
    requires n <= |ms|
    ensures Ids(ms[..n]) <= Ids(ms)
  {}

  /** A store that a session, cut or complete, can leave. */
  ghost predicate Partial(env: Env, own: seq<Message>, now: int, peerLive: seq<Message>, store: seq<Message>) {
    var p := PlanOf(env, own, now, peerLive);
    || store == own
    || exists n :: 0 <= n <= |p.incoming| && store == p.live + Select(env, Passing(now), p.incoming[..n])
  }

  lemma SideIsPartial(env: Env, s: Side, p: Plan)
    requires SideInv(env, s, p) && p == PlanOf(env, p.own, s.self.now, p.peerLive)
    ensures Partial(env, p.own, s.self.now, p.peerLive, s.store)
  {
    if !(s.phase.SendHello? || s.phase.AwaitHello? || s.phase.Summarise?) {
      var n := if s.phase.Transfer? then Kept(s.reader) else 0;
      assert p.incoming[..0] == [];
      assert s.store == p.live + Select(env, Passing(s.self.now), p.incoming[..n]);
    }
  }

  lemma CutIsPartial(env: Env, m: Meeting, turns: seq<Turn>)
    requires m.Valid() && Playable(env, m.Start(), turns)
    ensures var q := Play(env, m.Start(), turns);
            Partial(env, m.storeA, m.nowA, Live(env, m.storeB, m.nowB), q.a.store)
            && Partial(env, m.storeB, m.nowB, Live(env, m.storeA, m.nowA), q.b.store)
  {
    var pa, pb := m.PlanA(env), m.PlanB(env);
    OpeningInv(env, m.idA, m.storeA, m.nowA, m.idB, m.storeB, m.nowB);
    PlayInv(env, m.Start(), turns, pa, pb);
    PlayNow(env, m.Start(), turns);
    SideIsPartial(env, Play(env, m.Start(), turns).a, pa);
    SideIsPartial(env, Play(env, m.Start(), turns).b, pb);
  }
}
