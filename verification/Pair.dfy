/** Two runs of `runSync`, an initiator and a responder, joined by two first-in-first-out queues,
    under every interleaving of their four loops and every failure of the connection. */
module Pair {
  import opened Messages
  import opened StoreSpec
  import opened Handshake
  import opened Session

  /** `toA` holds the frames B sent that A has not read. */
  datatype Pair = Pair(a: Side, b: Side, toA: seq<Frame>, toB: seq<Frame>)

  function Flip(p: Pair): Pair {
    Pair(p.b, p.a, p.toB, p.toA)
  }

  datatype Turn = Turn(first: bool, move: Move)

  predicate CanMove(p: Pair, mv: Move) {
    Enabled(p.a, mv) && (mv.Take? ==> p.toA != [])
  }

  predicate CanTurn(p: Pair, t: Turn) {
    CanMove(if t.first then p else Flip(p), t.move)
  }

  function MoveFirst(env: Env, p: Pair, mv: Move): Pair
    requires CanMove(p, mv)
  {
    match mv
    case Emit =>
      var f := FrameOf(p.a);
      p.(a := Apply(env, p.a, mv, f), toB := p.toB + [f])
    case Take => p.(a := Apply(env, p.a, mv, p.toA[0]), toA := p.toA[1..])
    case _ => p.(a := Apply(env, p.a, mv, DeviceHello("", 0)))
  }

  function TakeTurn(env: Env, p: Pair, t: Turn): Pair
    requires CanTurn(p, t)
  {
    if t.first then MoveFirst(env, p, t.move) else Flip(MoveFirst(env, Flip(p), t.move))
  }

  /** A schedule each of whose turns can be taken when it comes. */
  predicate Playable(env: Env, p: Pair, turns: seq<Turn>)
    decreases turns
  {
    turns == [] || (CanTurn(p, turns[0]) && Playable(env, TakeTurn(env, p, turns[0]), turns[1..]))
  }

  function Play(env: Env, p: Pair, turns: seq<Turn>): Pair
    requires Playable(env, p, turns)
    decreases turns
  {
    if turns == [] then p else Play(env, TakeTurn(env, p, turns[0]), turns[1..])
  }

  predicate Fails(mv: Move) {
    mv.FailSend? || mv.FailTake?
  }

  /** No send and no receive fails. */
  predicate Uncut(turns: seq<Turn>) {
    forall i :: 0 <= i < |turns| ==> !Fails(turns[i].move)
  }

  predicate Unbroken(s: Side) {
    !s.sender.down && !s.reader.down
  }

  function Opening(idA: string, storeA: seq<Message>, nowA: int, idB: string, storeB: seq<Message>, nowB: int): Pair {
    Pair(Start(Initiator, idA, nowA, storeA), Start(Responder, idB, nowB, storeB), [], [])
  }

  // ----- what every turn keeps -----

  /** The two plans are about the same session. */
  ghost predicate Mirrored(pa: Plan, pb: Plan) {
    pa.peerLive == pb.live && pb.peerLive == pa.live && pa.outgoing == pb.incoming && pb.outgoing == pa.incoming
  }

  /** The frames handed over and not yet read are the matching stretch of the sender's script. */
  ghost predicate Wire(sender: Side, plan: Plan, reader: Side, queue: seq<Frame>) {
    && Read(reader) <= Emitted(sender) <= 2 + |plan.outgoing|
    && queue == Script(sender.self.role, sender.self.deviceId, plan.live, plan.outgoing)[Read(reader)..Emitted(sender)]
  }

  ghost predicate PairInv(env: Env, p: Pair, pa: Plan, pb: Plan) {
    && Mirrored(pa, pb) && Sound(env, pa, p.a.self.now) && Sound(env, pb, p.b.self.now)
    && p.a.self.role == Other(p.b.self.role)
    && SideInv(env, p.a, pa) && SideInv(env, p.b, pb)
    && Wire(p.a, pa, p.b, p.toB) && Wire(p.b, pb, p.a, p.toA)
  }

  /** Who a side is never changes. */
  lemma ApplyIdentity(env: Env, s: Side, mv: Move, f: Frame)
    requires Enabled(s, mv)
    ensures var s' := Apply(env, s, mv, f);
            s'.self.role == s.self.role && s'.self.deviceId == s.self.deviceId && s'.self.now == s.self.now
  {}

  /** One more frame handed over. */
  lemma WireEmit(sender: Side, sender': Side, plan: Plan, reader: Side, queue: seq<Frame>, f: Frame)
    requires Wire(sender, plan, reader, queue) && Emitted(sender) < 2 + |plan.outgoing|
    requires f == Script(sender.self.role, sender.self.deviceId, plan.live, plan.outgoing)[Emitted(sender)]
    requires Emitted(sender') == Emitted(sender) + 1
    requires sender'.self.role == sender.self.role && sender'.self.deviceId == sender.self.deviceId
    ensures Wire(sender', plan, reader, queue + [f])
  {
    var script := Script(sender.self.role, sender.self.deviceId, plan.live, plan.outgoing);
    var r, e := Read(reader), Emitted(sender);
    assert script[r..e + 1] == script[r..e] + [script[e]];
  }

  /** The front frame is the one the reader's counter names, and can be read. */
  lemma WireTake(sender: Side, plan: Plan, reader: Side, reader': Side, queue: seq<Frame>)
    requires Wire(sender, plan, reader, queue) && queue != []
    ensures Read(reader) < 2 + |plan.outgoing|
    ensures queue[0] == Script(sender.self.role, sender.self.deviceId, plan.live, plan.outgoing)[Read(reader)]
    ensures Read(reader') == Read(reader) + 1 ==> Wire(sender, plan, reader', queue[1..])
  {
    var script := Script(sender.self.role, sender.self.deviceId, plan.live, plan.outgoing);
    var r, e := Read(reader), Emitted(sender);
    assert queue[1..] == script[r + 1..e];
  }

  lemma MoveEmitInv(env: Env, p: Pair, pa: Plan, pb: Plan)
    requires PairInv(env, p, pa, pb) && CanMove(p, Emit)
    ensures PairInv(env, MoveFirst(env, p, Emit), pa, pb)
  {
    var f := FrameOf(p.a);
    var s' := Apply(env, p.a, Emit, f);
    ApplyIdentity(env, p.a, Emit, f);
    EmitInv(env, p.a, pa, f);
    WireEmit(p.a, s', pa, p.b, p.toB, f);
    assert Wire(p.b, pb, s', p.toA);
  }

  lemma MoveTakeInv(env: Env, p: Pair, pa: Plan, pb: Plan)
    requires PairInv(env, p, pa, pb) && CanMove(p, Take)
    ensures PairInv(env, MoveFirst(env, p, Take), pa, pb)
    ensures var s' := MoveFirst(env, p, Take).a; s'.sender.down == p.a.sender.down && s'.reader.down == p.a.reader.down
  {
    var s' := Apply(env, p.a, Take, p.toA[0]);
    ApplyIdentity(env, p.a, Take, p.toA[0]);
    WireTake(p.b, pb, p.a, s', p.toA);
    TakeInv(env, p.a, pa, p.b.self.deviceId);
    assert Wire(p.a, pa, p.b, p.toB) ==> Wire(s', pa, p.b, p.toB);
  }

  lemma MoveQuietInv(env: Env, p: Pair, mv: Move, pa: Plan, pb: Plan)
    requires PairInv(env, p, pa, pb) && CanMove(p, mv) && !mv.Emit? && !mv.Take?
    ensures PairInv(env, MoveFirst(env, p, mv), pa, pb) && !mv.Skip?
  {
    var f := DeviceHello("", 0);
    ApplyIdentity(env, p.a, mv, f);
    QuietInv(env, p.a, mv, pa, f);
  }

  lemma TurnInv(env: Env, p: Pair, t: Turn, pa: Plan, pb: Plan)
    requires PairInv(env, p, pa, pb) && CanTurn(p, t)
    ensures PairInv(env, TakeTurn(env, p, t), pa, pb)
  {
    var q, qa, qb := if t.first then p else Flip(p), if t.first then pa else pb, if t.first then pb else pa;
    assert PairInv(env, q, qa, qb);
    match t.move
    case Emit => MoveEmitInv(env, q, qa, qb);
    case Take => MoveTakeInv(env, q, qa, qb);
    case _ => MoveQuietInv(env, q, t.move, qa, qb);
  }

  lemma {:induction false} PlayInv(env: Env, p: Pair, turns: seq<Turn>, pa: Plan, pb: Plan)
    requires PairInv(env, p, pa, pb) && Playable(env, p, turns)
    ensures PairInv(env, Play(env, p, turns), pa, pb)
    decreases turns
  {
    if turns != [] {
      TurnInv(env, p, turns[0], pa, pb);
      PlayInv(env, TakeTurn(env, p, turns[0]), turns[1..], pa, pb);
    }
  }

  lemma OpeningInv(env: Env, idA: string, storeA: seq<Message>, nowA: int, idB: string, storeB: seq<Message>, nowB: int)
    requires Distinct(storeA) && Distinct(storeB)
    ensures PairInv(env, Opening(idA, storeA, nowA, idB, storeB, nowB),
                    PlanOf(env, storeA, nowA, Live(env, storeB, nowB)), PlanOf(env, storeB, nowB, Live(env, storeA, nowA)))
  {
    var liveA, liveB := Live(env, storeA, nowA), Live(env, storeB, nowB);
    SelectDistinct(env, Unexpired(nowA), storeA);
    SelectDistinct(env, Unexpired(nowB), storeB);
    PlanIsSound(env, storeA, nowA, liveB);
    PlanIsSound(env, storeB, nowB, liveA);
  }

  // ----- no deadlock -----

  /** Only a failure of the connection brings a loop down: no frame of an honest peer is of an
      unexpected type. */
  lemma TurnUnbroken(env: Env, p: Pair, t: Turn, pa: Plan, pb: Plan)
    requires PairInv(env, p, pa, pb) && CanTurn(p, t) && !Fails(t.move)
    requires Unbroken(p.a) && Unbroken(p.b)
    ensures Unbroken(TakeTurn(env, p, t).a) && Unbroken(TakeTurn(env, p, t).b)
  {
    if t.move.Take? {
      if t.first { MoveTakeInv(env, p, pa, pb); } else { MoveTakeInv(env, Flip(p), pb, pa); }
    }
  }

  lemma {:induction false} PlayUnbroken(env: Env, p: Pair, turns: seq<Turn>, pa: Plan, pb: Plan)
    requires PairInv(env, p, pa, pb) && Playable(env, p, turns) && Uncut(turns)
    requires Unbroken(p.a) && Unbroken(p.b)
    ensures Unbroken(Play(env, p, turns).a) && Unbroken(Play(env, p, turns).b)
    decreases turns
  {
    if turns != [] {
      TurnInv(env, p, turns[0], pa, pb);
      TurnUnbroken(env, p, turns[0], pa, pb);
      PlayUnbroken(env, TakeTurn(env, p, turns[0]), turns[1..], pa, pb);
    }
  }

  lemma LoopProgress(env: Env, s: Side, p: Plan) returns (mv: Move)
    requires TransferInv(env, s, p) && Sound(env, p, s.self.now) && Unbroken(s) && s.phase.Transfer? && !s.refused
    ensures Finished(s) || (Enabled(s, mv) && !Fails(mv))
    ensures mv.Take? && !Finished(s) ==>
              s.sender.at == |p.outgoing| && !s.sender.sending && s.reader.stage.Idle? && s.reader.at < |p.incoming|
  {
    if s.reader.stage.Accepted? { mv := Save; }
    else if s.reader.stage.Saved? { mv := RecordStored; }
    else if s.sender.sending { mv := RecordSent; }
    else if s.sender.at < |p.outgoing| { mv := Emit; LoopFinds(env, s, p); }
    else { mv := Take; }
  }

  /** A side that cannot move by itself either waits for a frame or has finished. */
  lemma SideProgress(env: Env, s: Side, p: Plan) returns (mv: Move)
    requires SideInv(env, s, p) && Sound(env, p, s.self.now) && Unbroken(s)
    ensures Finished(s) || (Enabled(s, mv) && !Fails(mv))
    ensures mv.Take? && !Finished(s) ==> (s.phase.Transfer? ==> s.sender.at == |p.outgoing| && !s.sender.sending)
    ensures mv.Take? && !Finished(s) ==> Read(s) < 2 + |p.incoming|
  {
    match s.phase
    case SendHello => mv := Emit;
    case AwaitHello => mv := Take;
    case Summarise => mv := Prune;
    case SendSummary => mv := Emit;
    case AwaitSummary => mv := Take;
    case Transfer =>
      mv := LoopProgress(env, s, p);
  }

  /** Deadlock freedom: as long as the connection holds and either run is unfinished, some loop of
      some side can move. */
  lemma NeverStuck(env: Env, p: Pair, pa: Plan, pb: Plan) returns (t: Turn)
    requires PairInv(env, p, pa, pb) && Unbroken(p.a) && Unbroken(p.b)
    requires !Finished(p.a) || !Finished(p.b)
    ensures CanTurn(p, t) && !Fails(t.move)
  {
    var ma := SideProgress(env, p.a, pa);
    var mb := SideProgress(env, p.b, pb);
    if !Finished(p.a) && (ma.Take? ==> p.toA != []) {
      t := Turn(true, ma);
    } else {
      t := Turn(false, mb);
    }
  }

  // ----- termination -----

  /** Everything a side still has to do: sends and their completions, receives, saves and their records. */
  function Remaining(s: Side, p: Plan): int {
    (if s.sender.down then 0 else 1) + (if s.reader.down then 0 else 1) +
    match s.phase
    case SendHello => 5 + 2 * |p.outgoing| + 3 * |p.incoming|
    case AwaitHello => 4 + 2 * |p.outgoing| + 3 * |p.incoming|
    case Summarise => 3 + 2 * |p.outgoing| + 3 * |p.incoming|
    case SendSummary => (if s.self.role.Initiator? then 2 else 1) + 2 * |p.outgoing| + 3 * |p.incoming|
    case AwaitSummary => (if s.self.role.Initiator? then 1 else 2) + 2 * |p.outgoing| + 3 * |p.incoming|
    case Transfer =>
      2 * (|p.outgoing| - s.sender.at) - (if s.sender.sending then 1 else 0)
      + 3 * (|p.incoming| - s.reader.at) - (if s.reader.stage.Idle? then 0 else if s.reader.stage.Accepted? then 1 else 2)
  }

  lemma RemainingIsNatural(env: Env, s: Side, p: Plan)
    requires SideInv(env, s, p)
    ensures 0 <= Remaining(s, p)
  {}

  lemma SideShrinks(env: Env, s: Side, mv: Move, f: Frame, p: Plan)
    requires Enabled(s, mv) && !Apply(env, s, mv, f).refused
    requires var s' := Apply(env, s, mv, f);
             s'.phase.Transfer? ==>
               |s'.diff.toSend| == |p.outgoing| && |s'.diff.toRequest| == |p.incoming|
               && (!s.phase.Transfer? ==> s'.sender.at == 0 && s'.reader.at == 0 && !s'.sender.sending && s'.reader.stage.Idle?)
    ensures Remaining(Apply(env, s, mv, f), p) < Remaining(s, p)
  {}

  lemma MoveShrinks(env: Env, p: Pair, mv: Move, pa: Plan, pb: Plan)
    requires PairInv(env, p, pa, pb) && CanMove(p, mv)
    ensures 0 <= Remaining(MoveFirst(env, p, mv).a, pa) < Remaining(p.a, pa)
  {
    TurnInv(env, p, Turn(true, mv), pa, pb);
    var f := if mv.Emit? then FrameOf(p.a) else if mv.Take? then p.toA[0] else DeviceHello("", 0);
    SideShrinks(env, p.a, mv, f, pa);
    RemainingIsNatural(env, Apply(env, p.a, mv, f), pa);
  }

  /** Every turn, failures included, strictly lowers what remains, so no run of the pair goes on for
      ever: it takes at most what remains at the start. */
  lemma {:induction false} PlayIsBounded(env: Env, p: Pair, turns: seq<Turn>, pa: Plan, pb: Plan)
    requires PairInv(env, p, pa, pb) && Playable(env, p, turns)
    ensures var q := Play(env, p, turns);
            |turns| + Remaining(q.a, pa) + Remaining(q.b, pb) <= Remaining(p.a, pa) + Remaining(p.b, pb)
    decreases turns
  {
    if turns != [] {
      var t := turns[0];
      if t.first { MoveShrinks(env, p, t.move, pa, pb); } else { MoveShrinks(env, Flip(p), t.move, pb, pa); }
      TurnInv(env, p, t, pa, pb);
      PlayIsBounded(env, TakeTurn(env, p, t), turns[1..], pa, pb);
    }
  }
}
