/** A session while something else prunes or fills the two stores. */
module Vanishing {
  import opened Options
  import opened Messages
  import opened StoreSpec
  import opened Handshake
  import opened Session
  import opened Pair

  /** A turn of the pair, or a change that someone else makes to one of the stores. */
  datatype Happening = Go(turn: Turn) | Change(first: bool, store: seq<Message>)

  predicate CanHappen(p: Pair, x: Happening) {
    x.Go? ==> CanTurn(p, x.turn) && !Fails(x.turn.move)
  }

  function Happens(env: Env, p: Pair, x: Happening): Pair
    requires CanHappen(p, x)
  {
    match x
    case Go(t) => TakeTurn(env, p, t)
    case Change(first, store) => if first then p.(a := p.a.(store := store)) else p.(b := p.b.(store := store))
  }

  predicate CanHappenAll(env: Env, p: Pair, xs: seq<Happening>)
    decreases xs
  {
    xs == [] || (CanHappen(p, xs[0]) && CanHappenAll(env, Happens(env, p, xs[0]), xs[1..]))
  }

  function HappenAll(env: Env, p: Pair, xs: seq<Happening>): Pair
    requires CanHappenAll(env, p, xs)
    decreases xs
  {
    if xs == [] then p else HappenAll(env, Happens(env, p, xs[0]), xs[1..])
  }

  /** Whether a side found that the message to be sent next had vanished. */
  function SkipOf(x: Happening, first: bool): nat {
    if x.Go? && x.turn.move.Skip? && x.turn.first == first then 1 else 0
  }

  function Skips(xs: seq<Happening>, first: bool): nat {
    if xs == [] then 0 else SkipOf(xs[0], first) + Skips(xs[1..], first)
  }

  function Out(s: Side): int {
    s.sender.at + if s.sender.sending then 1 else 0
  }

  function In(s: Side): int {
    s.reader.at + if s.reader.stage.Idle? then 0 else 1
  }

  /** A run with no loop down; in the transfer, both counters are within the diff of the two summaries. */
  ghost predicate Going(s: Side) {
    && !s.refused && Unbroken(s)
    && (if s.phase.Transfer? then
          s.diff == DiffKnownIds(s.localIds, s.remoteIds) && Out(s) <= |s.diff.toSend| && In(s) <= |s.diff.toRequest|
        else Out(s) == 0 && In(s) == 0)
  }

  /** The `j`-th frame of a side: its hello, its summary, and then messages, whichever they are. */
  ghost predicate Fits(sender: Side, j: nat, f: Frame) {
    if j == 0 then f == DeviceHello(sender.self.deviceId, PROTOCOL_VERSION)
    else if j == 1 then f == if sender.self.role.Initiator? then SyncRequest(sender.localIds) else SyncResponse(sender.localIds)
    else f.EmergencyMessage?
  }

  /** Every frame that was due was skipped, is on the wire, or was read. */
  ghost predicate OnWire(sender: Side, reader: Side, queue: seq<Frame>, skips: nat) {
    && Emitted(sender) == skips + |queue| + Read(reader)
    && (if sender.phase.Transfer? then skips <= sender.sender.at else skips == 0)
    && (forall k :: 0 <= k < |queue| ==> Fits(sender, Read(reader) + k, queue[k]))
    && (Read(reader) >= 2 ==> reader.remoteIds == sender.localIds)
  }

  ghost predicate Linked(p: Pair, skipsA: nat, skipsB: nat) {
    && Going(p.a) && Going(p.b) && p.a.self.role == Other(p.b.self.role)
    && OnWire(p.a, p.b, p.toB, skipsA) && OnWire(p.b, p.a, p.toA, skipsB)
  }

  lemma EmitLinked(env: Env, p: Pair, skipsA: nat, skipsB: nat)
    requires Linked(p, skipsA, skipsB) && CanMove(p, Emit)
    ensures Linked(MoveFirst(env, p, Emit), skipsA, skipsB)
  {
    assert Fits(p.a, Emitted(p.a) - skipsA, FrameOf(p.a));
  }

  lemma TakeLinked(env: Env, p: Pair, skipsA: nat, skipsB: nat)
    requires Linked(p, skipsA, skipsB) && CanMove(p, Take)
    ensures Linked(MoveFirst(env, p, Take), skipsA, skipsB)
  {
    assert Fits(p.b, Read(p.a), p.toA[0]);
    var q := MoveFirst(env, p, Take);
    assert Read(q.a) == Read(p.a) + 1;
    forall k | 0 <= k < |q.toA| ensures Fits(q.b, Read(q.a) + k, q.toA[k]) { assert q.toA[k] == p.toA[k + 1]; }
  }

  lemma QuietLinked(env: Env, p: Pair, mv: Move, skipsA: nat, skipsB: nat)
    requires Linked(p, skipsA, skipsB) && CanMove(p, mv) && !Fails(mv) && !mv.Emit? && !mv.Take?
    ensures Linked(MoveFirst(env, p, mv), skipsA + (if mv.Skip? then 1 else 0), skipsB)
  {}

  lemma MoveLinked(env: Env, p: Pair, mv: Move, skipsA: nat, skipsB: nat)
    requires Linked(p, skipsA, skipsB) && CanMove(p, mv) && !Fails(mv)
    ensures Linked(MoveFirst(env, p, mv), skipsA + (if mv.Skip? then 1 else 0), skipsB)
  {
    match mv
    case Emit => EmitLinked(env, p, skipsA, skipsB);
    case Take => TakeLinked(env, p, skipsA, skipsB);
    case _ => QuietLinked(env, p, mv, skipsA, skipsB);
  }

  lemma ChangeLinked(p: Pair, first: bool, store: seq<Message>, skipsA: nat, skipsB: nat)
    requires Linked(p, skipsA, skipsB)
    ensures Linked(if first then p.(a := p.a.(store := store)) else p.(b := p.b.(store := store)), skipsA, skipsB)
  {}

  lemma FlipLinked(p: Pair, skipsA: nat, skipsB: nat)
    requires Linked(p, skipsA, skipsB)
    ensures Linked(Flip(p), skipsB, skipsA)
  {}

  lemma TurnLinked(env: Env, p: Pair, t: Turn, skipsA: nat, skipsB: nat)
    requires Linked(p, skipsA, skipsB) && CanTurn(p, t) && !Fails(t.move)
    ensures Linked(TakeTurn(env, p, t), skipsA + SkipOf(Go(t), true), skipsB + SkipOf(Go(t), false))
  {
    if t.first {
      MoveLinked(env, p, t.move, skipsA, skipsB);
    } else {
      FlipLinked(p, skipsA, skipsB);
      MoveLinked(env, Flip(p), t.move, skipsB, skipsA);
    }
  }

  lemma HappenLinked(env: Env, p: Pair, x: Happening, skipsA: nat, skipsB: nat)
    requires Linked(p, skipsA, skipsB) && CanHappen(p, x)
    ensures Linked(Happens(env, p, x), skipsA + SkipOf(x, true), skipsB + SkipOf(x, false))
  {
    match x
    case Change(first, store) => ChangeLinked(p, first, store, skipsA, skipsB);
    case Go(t) => TurnLinked(env, p, t, skipsA, skipsB);
  }

  /** Whatever happens to the stores, no side ever gets a frame of an unexpected type, and every frame due
      is accounted for. */
  lemma {:induction false} RunLinked(env: Env, p: Pair, xs: seq<Happening>, skipsA: nat, skipsB: nat)
    requires Linked(p, skipsA, skipsB) && CanHappenAll(env, p, xs)
    ensures Linked(HappenAll(env, p, xs), skipsA + Skips(xs, true), skipsB + Skips(xs, false))
    decreases xs
  {
    if xs != [] {
      var p' := Happens(env, p, xs[0]);
      var a, b := skipsA + SkipOf(xs[0], true), skipsB + SkipOf(xs[0], false);
      assert Linked(p', a, b) by { HappenLinked(env, p, xs[0], skipsA, skipsB); }
      RunLinked(env, p', xs[1..], a, b);
      assert a + Skips(xs[1..], true) == skipsA + Skips(xs, true);
      assert b + Skips(xs[1..], false) == skipsB + Skips(xs, false);
    }
  }

  /** Nothing but a failure of the connection can happen. */
  ghost predicate AtRest(p: Pair) {
    forall t :: CanTurn(p, t) ==> Fails(t.move)
  }

  lemma StillSide(p: Pair, mv: Move)
    requires AtRest(p) && !Fails(mv)
    ensures !CanMove(p, mv) && !CanMove(Flip(p), mv)
  {
    assert !CanTurn(p, Turn(true, mv)) && !CanTurn(p, Turn(false, mv));
  }

  /** A pair at rest has come through the handshake. */
  lemma RestsInTransfer(p: Pair, skipsA: nat, skipsB: nat)
    requires Linked(p, skipsA, skipsB) && AtRest(p)
    ensures p.a.phase.Transfer? && p.b.phase.Transfer?
  {
    StillSide(p, Emit);
    StillSide(p, Take);
    StillSide(p, Prune);
  }

  /** In the transfer, a side at rest has dealt with all it sends and reads on until nothing is there. */
  lemma RestingSide(p: Pair, skipsA: nat, skipsB: nat)
    requires Linked(p, skipsA, skipsB) && AtRest(p) && p.a.phase.Transfer? && p.b.phase.Transfer?
    ensures Out(p.a) == |p.a.diff.toSend| && !p.a.sender.sending && p.a.reader.stage.Idle?
    ensures p.toA == [] || p.a.reader.at == |p.a.diff.toRequest|
  {
    StillSide(p, Emit);
    StillSide(p, Move.Skip);
    StillSide(p, RecordSent);
    StillSide(p, Save);
    StillSide(p, RecordStored);
    StillSide(p, Take);
  }

  /** Both sides computed the same number of messages each way. */
  lemma SameCounts(p: Pair, skipsA: nat, skipsB: nat)
    requires Linked(p, skipsA, skipsB) && p.a.phase.Transfer? && p.b.phase.Transfer?
    ensures p.a.diff.toSend == p.b.diff.toRequest && p.b.diff.toSend == p.a.diff.toRequest
  {}

  /** The exact condition for a session to end: whoever changes the two stores, at any moment from the first
      hello on, a session that has come to rest with the connection up is finished on a side exactly when
      the other side found every message it was to send. For each one that had vanished, a frame is missing,
      and the reader waits for it for ever. */
  lemma StallsExactlyWhenSkipped(env: Env, idA: string, storeA: seq<Message>, nowA: int,
                                 idB: string, storeB: seq<Message>, nowB: int, xs: seq<Happening>)
    requires CanHappenAll(env, Opening(idA, storeA, nowA, idB, storeB, nowB), xs)
    requires AtRest(HappenAll(env, Opening(idA, storeA, nowA, idB, storeB, nowB), xs))
    ensures var q := HappenAll(env, Opening(idA, storeA, nowA, idB, storeB, nowB), xs);
            && q.a.phase.Transfer? && q.b.phase.Transfer? && Unbroken(q.a) && Unbroken(q.b)
            && (Finished(q.b) <==> Skips(xs, true) == 0)
            && (Finished(q.a) <==> Skips(xs, false) == 0)
            && q.b.reader.at == |q.b.diff.toRequest| - Skips(xs, true)
            && q.a.reader.at == |q.a.diff.toRequest| - Skips(xs, false)
  {
    var p := Opening(idA, storeA, nowA, idB, storeB, nowB);
    RunLinked(env, p, xs, 0, 0);
    var q := HappenAll(env, p, xs);
    RestsInTransfer(q, Skips(xs, true), Skips(xs, false));
    SameCounts(q, Skips(xs, true), Skips(xs, false));
    RestingSide(q, Skips(xs, true), Skips(xs, false));
    assert AtRest(Flip(q)) by {
      forall t ensures CanTurn(Flip(q), t) ==> Fails(t.move) {
        assert CanTurn(Flip(q), t) ==> CanTurn(q, Turn(!t.first, t.move));
      }
    }
    RestingSide(Flip(q), Skips(xs, false), Skips(xs, true));
  }

  lemma {:induction false} OneMore(env: Env, p: Pair, xs: seq<Happening>, x: Happening) returns (more: seq<Happening>)
    requires CanHappenAll(env, p, xs) && CanHappen(HappenAll(env, p, xs), x)
    ensures more == xs + [x] && CanHappenAll(env, p, more) && HappenAll(env, p, more) == Happens(env, HappenAll(env, p, xs), x)
    decreases xs
  {
    more := xs + [x];
    if xs == [] {
      assert more == [x] && [x][1..] == [];
    } else {
      assert more[1..] == xs[1..] + [x];
      var rest := OneMore(env, Happens(env, p, xs[0]), xs[1..], x);
    }
  }

  /** One side of a session over one message, on its way through the handshake. */
  function Stop(role: Role, id: string, now: int, phase: Phase, store: seq<Message>, local: seq<string>, remote: seq<string>): Side {
    var s := Start(role, id, now, store).(phase := phase, localIds := local, remoteIds := remote);
    if phase.Transfer? then s.(diff := DiffKnownIds(local, remote)) else s
  }

  lemma Greet(env: Env, a: string, b: string, m: Message, now: int) returns (xs: seq<Happening>)
    ensures var p := Opening(a, [m], now, b, [], now);
            && CanHappenAll(env, p, xs)
            && HappenAll(env, p, xs)
               == Pair(Stop(Initiator, a, now, Summarise, [m], [], []), Stop(Responder, b, now, Summarise, [], [], []), [], [])
  {
    var p := Opening(a, [m], now, b, [], now);
    xs := OneMore(env, p, [], Go(Turn(true, Emit)));
    xs := OneMore(env, p, xs, Go(Turn(false, Emit)));
    xs := OneMore(env, p, xs, Go(Turn(true, Take)));
    xs := OneMore(env, p, xs, Go(Turn(false, Take)));
  }

  lemma Exchange(env: Env, a: string, b: string, m: Message, now: int) returns (xs: seq<Happening>)
    requires !IsExpired(env, m, now)
    ensures var p := Opening(a, [m], now, b, [], now);
            && CanHappenAll(env, p, xs)
            && HappenAll(env, p, xs)
               == Pair(Stop(Initiator, a, now, Transfer, [m], [m.messageId], []),
                       Stop(Responder, b, now, Transfer, [], [], [m.messageId]), [], [])
  {
    var p := Opening(a, [m], now, b, [], now);
    xs := Greet(env, a, b, m, now);
    SelectOne(env, Unexpired(now), m);
    assert Ids([m]) == [m.messageId];
    xs := OneMore(env, p, xs, Go(Turn(true, Prune)));
    xs := OneMore(env, p, xs, Go(Turn(false, Prune)));
    xs := OneMore(env, p, xs, Go(Turn(true, Emit)));
    xs := OneMore(env, p, xs, Go(Turn(false, Take)));
    xs := OneMore(env, p, xs, Go(Turn(false, Emit)));
    xs := OneMore(env, p, xs, Go(Turn(true, Take)));
  }

  /** A session that never ends: its one message goes away after the summaries were exchanged. The sender
      reports a clean end, the reader waits. */
  lemma VanishedMessageStalls(env: Env, a: string, b: string, m: Message, now: int) returns (xs: seq<Happening>)
    requires !IsExpired(env, m, now)
    ensures var p := Opening(a, [m], now, b, [], now);
            && CanHappenAll(env, p, xs) && AtRest(HappenAll(env, p, xs))
            && Outcome(HappenAll(env, p, xs).a) == Some(SyncOutcome(false, false, [], [], []))
            && Outcome(HappenAll(env, p, xs).b) == None
  {
    var p := Opening(a, [m], now, b, [], now);
    xs := Exchange(env, a, b, m, now);
    xs := OneMore(env, p, xs, Change(true, []));
    assert Without([m.messageId], []) == [m.messageId] by { assert [m.messageId][1..] == []; }
    xs := OneMore(env, p, xs, Go(Turn(true, Move.Skip)));
  }
}
