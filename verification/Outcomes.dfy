/** What a run reports: clean, interrupted, or refused, with an honest peer and with any. */
module Outcomes {
  import opened Options
  import opened Messages
  import opened StoreSpec
  import opened Handshake
  import opened Session
  import opened Pair
  import opened Convergence
  import opened AnyPeer

  // ----- with an honest peer, cut anywhere -----

  /** A send or a receive of this side failed along the way. */
  predicate FailedOn(turns: seq<Turn>, first: bool) {
    exists i :: 0 <= i < |turns| && turns[i].first == first && Fails(turns[i].move)
  }

  lemma MoveBreaks(env: Env, p: Pair, mv: Move, pa: Plan, pb: Plan)
    requires PairInv(env, p, pa, pb) && CanMove(p, mv)
    ensures MoveFirst(env, p, mv).b == p.b
    ensures Unbroken(MoveFirst(env, p, mv).a) <==> Unbroken(p.a) && !Fails(mv)
  {
    if mv.Take? { MoveTakeInv(env, p, pa, pb); }
  }

  /** One turn: a side is down from its first failure on, and from nothing else. */
  lemma TurnBreaks(env: Env, p: Pair, t: Turn, pa: Plan, pb: Plan)
    requires PairInv(env, p, pa, pb) && CanTurn(p, t)
    ensures Unbroken(TakeTurn(env, p, t).a) <==> Unbroken(p.a) && !(t.first && Fails(t.move))
    ensures Unbroken(TakeTurn(env, p, t).b) <==> Unbroken(p.b) && !(!t.first && Fails(t.move))
  {
    if t.first {
      MoveBreaks(env, p, t.move, pa, pb);
    } else {
      assert PairInv(env, Flip(p), pb, pa);
      MoveBreaks(env, Flip(p), t.move, pb, pa);
    }
  }

  lemma FailedCons(t: Turn, rest: seq<Turn>, first: bool)
    ensures FailedOn([t] + rest, first) <==> (t.first == first && Fails(t.move)) || FailedOn(rest, first)
  {
    var turns := [t] + rest;
    if t.first == first && Fails(t.move) {
      assert turns[0].first == first && Fails(turns[0].move);
    } else if FailedOn(rest, first) {
      var i :| 0 <= i < |rest| && rest[i].first == first && Fails(rest[i].move);
      assert turns[i + 1].first == first && Fails(turns[i + 1].move);
    }
  }

  lemma {:induction false} PlayBreaks(env: Env, p: Pair, turns: seq<Turn>, pa: Plan, pb: Plan)
    requires PairInv(env, p, pa, pb) && Playable(env, p, turns)
    ensures Unbroken(Play(env, p, turns).a) <==> Unbroken(p.a) && !FailedOn(turns, true)
    ensures Unbroken(Play(env, p, turns).b) <==> Unbroken(p.b) && !FailedOn(turns, false)
    decreases turns
  {
    if turns != [] {
      var t := turns[0];
      assert turns == [t] + turns[1..];
      TurnInv(env, p, t, pa, pb);
      TurnBreaks(env, p, t, pa, pb);
      PlayBreaks(env, TakeTurn(env, p, t), turns[1..], pa, pb);
      FailedCons(t, turns[1..], true);
      FailedCons(t, turns[1..], false);
    }
  }

  /** What the promise of one side holds: interrupted, with what was sent and stored by then, exactly when a
      send or a receive of that side has failed; clean, with everything delivered, exactly when none has and
      both its loops came to their end; never refused; and else nothing yet. */
  ghost predicate Reports(env: Env, s: Side, plan: Plan, failed: bool) {
    && (failed ==> Outcome(s) == Some(SyncOutcome(false, true, s.sender.sent, s.reader.stored, s.reader.rejected)))
    && (!failed && Outcome(s).Some? ==>
          Delivered(env, s, plan) && !Outcome(s).value.interrupted && !Outcome(s).value.incompatibleProtocolVersion)
    && (!failed && Finished(s) ==> Outcome(s).Some?)
  }

  lemma SideReports(env: Env, s: Side, plan: Plan, failed: bool)
    requires SideInv(env, s, plan) && (Unbroken(s) <==> !failed)
    ensures Reports(env, s, plan, failed)
  {
    if Finished(s) { FinishedDelivers(env, s, plan); }
  }

  /** The report of a session, for every schedule, failures included, and both sides. With the lists as InOrder
      has them, a report of no interruption means that everything was delivered and the stores merged. */
  lemma ReportExactly(env: Env, m: Meeting, turns: seq<Turn>)
    requires m.Valid() && Playable(env, m.Start(), turns)
    ensures var q := Play(env, m.Start(), turns);
            && Reports(env, q.a, m.PlanA(env), FailedOn(turns, true))
            && Reports(env, q.b, m.PlanB(env), FailedOn(turns, false))
            && InOrder(env, q.a, q.b, m.PlanA(env).outgoing) && InOrder(env, q.b, q.a, m.PlanB(env).outgoing)
            && (Outcome(q.a).Some? && !Outcome(q.a).value.interrupted ==>
                  q.a.store == Merged(env, m.storeA, m.nowA, Live(env, m.storeB, m.nowB)))
            && (Outcome(q.b).Some? && !Outcome(q.b).value.interrupted ==>
                  q.b.store == Merged(env, m.storeB, m.nowB, Live(env, m.storeA, m.nowA)))
  {
    var pa, pb := m.PlanA(env), m.PlanB(env);
    OpeningInv(env, m.idA, m.storeA, m.nowA, m.idB, m.storeB, m.nowB);
    PlayInv(env, m.Start(), turns, pa, pb);
    PlayBreaks(env, m.Start(), turns, pa, pb);
    PlayNow(env, m.Start(), turns);
    CutOrder(env, m, turns);
    var q := Play(env, m.Start(), turns);
    SideReports(env, q.a, pa, FailedOn(turns, true));
    SideReports(env, q.b, pb, FailedOn(turns, false));
  }

  // ----- with any peer -----

  /** The act reads a hello of another version than 1. */
  predicate RefusedBy(s: Side, a: Act) {
    a.move.Take? && s.phase.AwaitHello? && a.frame.DeviceHello? && a.frame.protocolVersion != 1
  }

  /** The act throws: a send or receive fails, or the handshake reads a frame of another type than its role
      expects at that point. */
  predicate ThrownBy(s: Side, a: Act) {
    || a.move.FailSend? || a.move.FailTake?
    || (a.move.Take? && s.phase.AwaitHello? && !a.frame.DeviceHello?)
    || (a.move.Take? && s.phase.AwaitSummary? && s.self.role.Initiator? && !a.frame.SyncResponse?)
    || (a.move.Take? && s.phase.AwaitSummary? && s.self.role.Responder? && !a.frame.SyncRequest?)
  }

  predicate RefusedAmong(env: Env, s: Side, acts: seq<Act>)
    requires CanActAll(env, s, acts)
    decreases acts
  {
    acts != [] && (RefusedBy(s, acts[0]) || RefusedAmong(env, Apply(env, s, acts[0].move, acts[0].frame), acts[1..]))
  }

  predicate ThrownAmong(env: Env, s: Side, acts: seq<Act>)
    requires CanActAll(env, s, acts)
    decreases acts
  {
    acts != [] && (ThrownBy(s, acts[0]) || ThrownAmong(env, Apply(env, s, acts[0].move, acts[0].frame), acts[1..]))
  }

  lemma ActSettles(env: Env, s: Side, a: Act)
    requires Enabled(s, a.move)
    ensures var s' := Apply(env, s, a.move, a.frame);
            (s'.refused <==> RefusedBy(s, a)) && (Unbroken(s') <==> Unbroken(s) && !ThrownBy(s, a))
  {}

  lemma {:induction false} ActAllSettles(env: Env, s: Side, acts: seq<Act>)
    requires CanActAll(env, s, acts) && !s.refused
    ensures var s' := ActAll(env, s, acts);
            (s'.refused <==> RefusedAmong(env, s, acts)) && (Unbroken(s') <==> Unbroken(s) && !ThrownAmong(env, s, acts))
    decreases acts
  {
    if acts != [] {
      ActSettles(env, s, acts[0]);
      var s1 := Apply(env, s, acts[0].move, acts[0].frame);
      if s1.refused {
        assert acts[1..] == [];
      } else {
        ActAllSettles(env, s1, acts[1..]);
      }
    }
  }

  /** The report of a run, with any peer: refused, with empty lists, exactly when it read a hello of a version
      other than 1; otherwise interrupted, with what was done by then, exactly when something threw; otherwise
      clean exactly when both loops dealt with all of the diff; and else nothing yet. */
  lemma ReportWithAnyPeer(env: Env, role: Role, deviceId: string, now: int, own: seq<Message>, acts: seq<Act>)
    requires CanActAll(env, Start(role, deviceId, now, own), acts)
    ensures var s := ActAll(env, Start(role, deviceId, now, own), acts);
            var refused := RefusedAmong(env, Start(role, deviceId, now, own), acts);
            var thrown := ThrownAmong(env, Start(role, deviceId, now, own), acts);
            var ended := s.phase.Transfer? && s.reader.stage.Idle? && s.sender.at == |s.diff.toSend| && s.reader.at == |s.diff.toRequest|;
            Outcome(s) ==
              if refused then Some(SyncOutcome(true, false, [], [], []))
              else if thrown then Some(SyncOutcome(false, true, s.sender.sent, s.reader.stored, s.reader.rejected))
              else if ended then Some(SyncOutcome(false, false, s.sender.sent, s.reader.stored, s.reader.rejected))
              else None
  {
    ActAllSettles(env, Start(role, deviceId, now, own), acts);
  }
}
