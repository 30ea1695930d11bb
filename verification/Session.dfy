/** What one run of `runSync` does when its peer is honest: everything about it follows from its
    counters and the two stores the session began with. */
module Session {
  import opened Options
  import opened Messages
  import opened StoreSpec
  import opened Handshake

  /** What one side of a session is about: the store it began with and what of it is live, what of
      the peer's store is live, what will come in and what will go out. */
  datatype Plan = Plan(
    own: seq<Message>,
    live: seq<Message>,
    peerLive: seq<Message>,
    incoming: seq<Message>,
    outgoing: seq<Message>)

  function PlanOf(env: Env, own: seq<Message>, now: int, peerLive: seq<Message>): Plan {
    var live := Live(env, own, now);
    Plan(own, live, peerLive, Missing(env, peerLive, live), Missing(env, live, peerLive))
  }

  /** The store a complete session leaves: the own live messages in their order, then the peer's
      live messages it lacked, in the peer's order, that validate at its own clock. */
  function Merged(env: Env, own: seq<Message>, now: int, peerLive: seq<Message>): seq<Message> {
    var plan := PlanOf(env, own, now, peerLive);
    plan.live + Select(env, Passing(now), plan.incoming)
  }

  /** Messages that are new to a store and free of repetitions. */
  ghost predicate News(live: seq<Message>, incoming: seq<Message>) {
    Distinct(live) && Distinct(incoming) && forall m :: m in incoming ==> m.messageId !in Ids(live)
  }

  ghost predicate Sound(env: Env, p: Plan, now: int) {
    && p.live == Live(env, p.own, now)
    && News(p.live, p.incoming)
    && (forall m :: m in p.outgoing ==> m in p.live)
    && Without(Ids(p.live), Ids(p.peerLive)) == Ids(p.outgoing)
    && Without(Ids(p.peerLive), Ids(p.live)) == Ids(p.incoming)
  }

  lemma PlanIsSound(env: Env, own: seq<Message>, now: int, peerLive: seq<Message>)
    requires Distinct(own) && Distinct(peerLive)
    ensures Sound(env, PlanOf(env, own, now, peerLive), now)
  {
    var live := Live(env, own, now);
    SelectDistinct(env, Unexpired(now), own);
    SelectDistinct(env, NotIn(Ids(live)), peerLive);
    SelectMembers(env, NotIn(Ids(live)), peerLive);
    SelectMembers(env, NotIn(Ids(peerLive)), live);
    WithoutIds(env, live, peerLive);
    WithoutIds(env, peerLive, live);
  }

  // ----- the transfer phase -----

  ghost predicate SenderInv(l: SendLoop, p: Plan) {
    && l.at <= |p.outgoing| && (l.sending ==> l.at < |p.outgoing|)
    && l.sent == Ids(p.outgoing[..l.at])
  }

  /** How much of what comes in has reached the store. */
  function Kept(l: ReadLoop): nat {
    l.at + if l.stage.Saved? then 1 else 0
  }

  ghost predicate ReaderInv(env: Env, l: ReadLoop, now: int, p: Plan) {
    && l.at <= |p.incoming|
    && (!l.stage.Idle? ==>
          l.at < |p.incoming| && l.stage.message == p.incoming[l.at] && Accepts(env, p.incoming[l.at], now))
    && l.stored == Ids(Select(env, Passing(now), p.incoming[..l.at]))
    && l.rejected == Ids(Select(env, Failing(now), p.incoming[..l.at]))
  }

  ghost predicate TransferInv(env: Env, s: Side, p: Plan) {
    && s.diff == KnownIdsDiff(Ids(p.outgoing), Ids(p.incoming))
    && SenderInv(s.sender, p)
    && ReaderInv(env, s.reader, s.self.now, p)
    && s.store == p.live + Select(env, Passing(s.self.now), p.incoming[..Kept(s.reader)])
  }

  /** After any part of the news the store has one entry per id, and the next piece is still unknown. */
  lemma NewsStore(env: Env, live: seq<Message>, incoming: seq<Message>, now: int, n: nat)
    requires News(live, incoming) && n <= |incoming|
    ensures Distinct(live + Select(env, Passing(now), incoming[..n]))
    ensures n < |incoming| ==> incoming[n].messageId !in Ids(live + Select(env, Passing(now), incoming[..n]))
  {
    var taken := Select(env, Passing(now), incoming[..n]);
    SelectMembers(env, Passing(now), incoming[..n]);
    SelectDistinct(env, Passing(now), incoming[..n]);
    assert forall m :: m in taken ==> m in incoming;
    DistinctAppend(live, taken);
    if n < |incoming| && incoming[n].messageId in Ids(live + taken) {
      var m := MemberOfIds(live + taken, incoming[n].messageId);
      assert incoming[n] in incoming;
      if m in live { IdsMember(live, m); }
    }
  }

  lemma TakenOneMore(env: Env, now: int, incoming: seq<Message>, n: nat)
    requires n < |incoming|
    ensures Select(env, Passing(now), incoming[..n + 1])
            == Select(env, Passing(now), incoming[..n]) + if Accepts(env, incoming[n], now) then [incoming[n]] else []
    ensures Select(env, Failing(now), incoming[..n + 1])
            == Select(env, Failing(now), incoming[..n]) + if Accepts(env, incoming[n], now) then [] else [incoming[n]]
  {
    assert incoming[..n + 1] == incoming[..n] + [incoming[n]];
    SelectAppend(env, Passing(now), incoming[..n], [incoming[n]]);
    SelectAppend(env, Failing(now), incoming[..n], [incoming[n]]);
    SelectOne(env, Passing(now), incoming[n]);
    SelectOne(env, Failing(now), incoming[n]);
  }

  lemma LoopTake(env: Env, l: ReadLoop, store: seq<Message>, now: int, p: Plan)
    requires ReaderInv(env, l, now, p) && l.stage.Idle? && l.at < |p.incoming|
    requires p.incoming[l.at].messageId !in Ids(store)
    ensures var l' := OnTransfer(env, l, store, now, EmergencyMessage(p.incoming[l.at]));
            ReaderInv(env, l', now, p) && Kept(l') + (if l'.stage.Accepted? then 1 else 0) == Kept(l) + 1 && l'.down == l.down
            && Select(env, Passing(now), p.incoming[..Kept(l')]) == Select(env, Passing(now), p.incoming[..Kept(l)])
  {
    var m := p.incoming[l.at];
    if !Accepts(env, m, now) {
      TakenOneMore(env, now, p.incoming, l.at);
      assert [m.messageId] == Ids([m]);
      IdsAppend(Select(env, Failing(now), p.incoming[..l.at]), [m]);
    }
  }

  lemma LoopSave(env: Env, s: Side, p: Plan, f: Frame)
    requires TransferInv(env, s, p) && News(p.live, p.incoming) && Enabled(s, Save)
    ensures TransferInv(env, Apply(env, s, Save, f), p)
  {
    var m := p.incoming[s.reader.at];
    assert m.messageId !in Ids(s.store) by { NewsStore(env, p.live, p.incoming, s.self.now, s.reader.at); }
    assert Put(s.store, m) == s.store + [m];
    TakenOneMore(env, s.self.now, p.incoming, s.reader.at);
  }

  lemma LoopRecordStored(env: Env, s: Side, p: Plan, f: Frame)
    requires TransferInv(env, s, p) && Enabled(s, RecordStored)
    ensures TransferInv(env, Apply(env, s, RecordStored, f), p)
  {
    TakenOneMore(env, s.self.now, p.incoming, s.reader.at);
    IdsAppend(Select(env, Passing(s.self.now), p.incoming[..s.reader.at]), [p.incoming[s.reader.at]]);
  }

  lemma LoopRecordSent(env: Env, s: Side, p: Plan, f: Frame)
    requires TransferInv(env, s, p) && Enabled(s, RecordSent)
    ensures TransferInv(env, Apply(env, s, RecordSent, f), p)
  {
    assert p.outgoing[..s.sender.at + 1] == p.outgoing[..s.sender.at] + [p.outgoing[s.sender.at]];
  }

  /** Every id still to be sent is found, with the message it named when the summary was built. */
  lemma LoopFinds(env: Env, s: Side, p: Plan)
    requires TransferInv(env, s, p) && News(p.live, p.incoming)
    requires s.sender.at < |p.outgoing| && forall m :: m in p.outgoing ==> m in p.live
    ensures Find(s.store, s.diff.toSend[s.sender.at]) == Some(p.outgoing[s.sender.at])
  {
    assert Distinct(s.store) by {
      NewsStore(env, p.live, p.incoming, s.self.now, Kept(s.reader));
    }
    assert p.outgoing[s.sender.at] in p.outgoing;
    FindMember(s.store, p.outgoing[s.sender.at]);
  }

  // ----- a whole side -----

  ghost predicate SideInv(env: Env, s: Side, p: Plan) {
    && !s.refused
    && ((s.phase.SendHello? || s.phase.AwaitHello? || s.phase.Summarise?) ==> s.store == p.own)
    && ((s.phase.SendSummary? || s.phase.AwaitSummary?) ==> s.store == p.live)
    && ((s.phase.SendSummary? || s.phase.AwaitSummary? || s.phase.Transfer?) ==> s.localIds == Ids(p.live))
    && (s.phase.SendSummary? && s.self.role.Responder? ==> s.remoteIds == Ids(p.peerLive))
    && (!s.phase.Transfer? ==>
          s.sender.at == 0 && s.reader.at == 0 && !s.sender.sending && s.reader.stage.Idle?
          && s.sender.sent == s.reader.stored == s.reader.rejected == [])
    && (s.phase.Transfer? ==> TransferInv(env, s, p))
  }

  /** How many frames the side has handed over, and how many it has read. */
  function Emitted(s: Side): nat {
    match s.phase
    case SendHello => 0
    case AwaitHello => 1
    case Summarise => 1
    case SendSummary => 1
    case AwaitSummary => if s.self.role.Initiator? then 2 else 1
    case Transfer => 2 + s.sender.at + if s.sender.sending then 1 else 0
  }

  function Read(s: Side): nat {
    match s.phase
    case SendHello => 0
    case AwaitHello => 0
    case Summarise => 1
    case SendSummary => if s.self.role.Initiator? then 1 else 2
    case AwaitSummary => 1
    case Transfer => 2 + s.reader.at + if s.reader.stage.Idle? then 0 else 1
  }

  /** All the frames an honest side hands over in a complete session, in order. */
  function Script(role: Role, deviceId: string, live: seq<Message>, outgoing: seq<Message>): (r: seq<Frame>)
    ensures |r| == 2 + |outgoing|
  {
    [DeviceHello(deviceId, PROTOCOL_VERSION), if role.Initiator? then SyncRequest(Ids(live)) else SyncResponse(Ids(live))]
    + seq(|outgoing|, i requires 0 <= i < |outgoing| => EmergencyMessage(outgoing[i]))
  }

  function Other(role: Role): Role {
    if role.Initiator? then Responder else Initiator
  }

  lemma BeginTransferInv(env: Env, s: Side, p: Plan)
    requires Sound(env, p, s.self.now)
    requires s.store == p.live && s.localIds == Ids(p.live) && s.remoteIds == Ids(p.peerLive)
    requires s.sender.at == 0 && s.reader.at == 0 && !s.sender.sending && s.reader.stage.Idle?
    requires s.sender.sent == s.reader.stored == s.reader.rejected == []
    requires !s.refused
    ensures SideInv(env, BeginTransfer(s), p)
  {
    assert p.incoming[..0] == [] && p.outgoing[..0] == [];
  }

  lemma EmitHandshake(env: Env, s: Side, p: Plan, f: Frame)
    requires SideInv(env, s, p) && Sound(env, p, s.self.now) && Enabled(s, Emit) && !s.phase.Transfer?
    ensures Emitted(s) < 2 && FrameOf(s) == Script(s.self.role, s.self.deviceId, p.live, p.outgoing)[Emitted(s)]
    ensures var s' := Apply(env, s, Emit, f);
            SideInv(env, s', p) && Emitted(s') == Emitted(s) + 1 && Read(s') == Read(s)
  {
    if s.phase.SendSummary? && s.self.role.Responder? {
      BeginTransferInv(env, s, p);
    }
  }

  lemma LoopEmit(env: Env, s: Side, p: Plan, f: Frame)
    requires TransferInv(env, s, p) && Sound(env, p, s.self.now) && Enabled(s, Emit) && s.phase.Transfer?
    ensures s.sender.at < |p.outgoing| && FrameOf(s) == EmergencyMessage(p.outgoing[s.sender.at])
    ensures TransferInv(env, Apply(env, s, Emit, f), p)
  {
    LoopFinds(env, s, p);
  }

  /** An emitted frame is the next one of the script. */
  lemma EmitInv(env: Env, s: Side, p: Plan, f: Frame)
    requires SideInv(env, s, p) && Sound(env, p, s.self.now) && Enabled(s, Emit)
    ensures Emitted(s) < 2 + |p.outgoing| && FrameOf(s) == Script(s.self.role, s.self.deviceId, p.live, p.outgoing)[Emitted(s)]
    ensures var s' := Apply(env, s, Emit, f);
            SideInv(env, s', p) && Emitted(s') == Emitted(s) + 1 && Read(s') == Read(s)
  {
    if s.phase.Transfer? {
      LoopEmit(env, s, p, f);
    } else {
      EmitHandshake(env, s, p, f);
    }
  }

  lemma TakeHandshake(env: Env, s: Side, p: Plan, peerId: string)
    requires SideInv(env, s, p) && Sound(env, p, s.self.now) && Enabled(s, Take) && !s.phase.Transfer?
    ensures var s' := Apply(env, s, Take, Script(Other(s.self.role), peerId, p.peerLive, p.incoming)[Read(s)]);
            SideInv(env, s', p) && Read(s') == Read(s) + 1 && Emitted(s') == Emitted(s)
            && s'.sender.down == s.sender.down && s'.reader.down == s.reader.down
  {
    if s.phase.AwaitSummary? && s.self.role.Initiator? {
      BeginTransferInv(env, s.(remoteIds := Ids(p.peerLive)), p);
    }
  }

  /** Reading the next frame of the peer's script never throws and never refuses. */
  lemma TakeInv(env: Env, s: Side, p: Plan, peerId: string)
    requires SideInv(env, s, p) && Sound(env, p, s.self.now) && Enabled(s, Take)
    requires Read(s) < 2 + |p.incoming|
    ensures var s' := Apply(env, s, Take, Script(Other(s.self.role), peerId, p.peerLive, p.incoming)[Read(s)]);
            SideInv(env, s', p) && Read(s') == Read(s) + 1 && Emitted(s') == Emitted(s)
            && s'.sender.down == s.sender.down && s'.reader.down == s.reader.down
  {
    if s.phase.Transfer? {
      NewsStore(env, p.live, p.incoming, s.self.now, s.reader.at);
      assert p.incoming[s.reader.at].messageId !in Ids(s.store);
      LoopTake(env, s.reader, s.store, s.self.now, p);
      assert Script(Other(s.self.role), peerId, p.peerLive, p.incoming)[Read(s)] == EmergencyMessage(p.incoming[s.reader.at]);
    } else {
      TakeHandshake(env, s, p, peerId);
    }
  }

  /** The other moves of the two loops; the `continue` of the send loop is never taken. */
  lemma LoopInv(env: Env, s: Side, mv: Move, p: Plan, f: Frame)
    requires TransferInv(env, s, p) && Sound(env, p, s.self.now) && s.phase.Transfer?
    requires Enabled(s, mv) && !mv.Emit? && !mv.Take?
    ensures TransferInv(env, Apply(env, s, mv, f), p) && !mv.Skip?
  {
    match mv
    case Skip => LoopFinds(env, s, p);
    case Save => LoopSave(env, s, p, f);
    case RecordStored => LoopRecordStored(env, s, p, f);
    case RecordSent => LoopRecordSent(env, s, p, f);
    case _ =>
  }

  /** Moves other than Emit and Take leave both counters of frames as they are. */
  lemma QuietInv(env: Env, s: Side, mv: Move, p: Plan, f: Frame)
    requires SideInv(env, s, p) && Sound(env, p, s.self.now)
    requires Enabled(s, mv) && !mv.Emit? && !mv.Take?
    ensures var s' := Apply(env, s, mv, f);
            SideInv(env, s', p) && Read(s') == Read(s) && Emitted(s') == Emitted(s)
    ensures !mv.Skip?
  {
    if s.phase.Transfer? {
      LoopInv(env, s, mv, p, f);
    }
  }
}
