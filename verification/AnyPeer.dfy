/** One device against whatever its peers send: any frames, in any order, with the connection failing
    anywhere, and with any number of sessions racing on one store. */
module AnyPeer {
  import opened Messages
  import opened StoreSpec
  import opened Handshake

  /** A move, with the frame the peer happens to supply should the move read one. */
  datatype Act = Act(move: Move, frame: Frame)

  predicate CanActAll(env: Env, s: Side, acts: seq<Act>)
    decreases acts
  {
    acts == []
    || (Enabled(s, acts[0].move) && CanActAll(env, Apply(env, s, acts[0].move, acts[0].frame), acts[1..]))
  }

  function ActAll(env: Env, s: Side, acts: seq<Act>): Side
    requires CanActAll(env, s, acts)
    decreases acts
  {
    if acts == [] then s else ActAll(env, Apply(env, s, acts[0].move, acts[0].frame), acts[1..])
  }

  /** How many frames the receive loop reads along the way. */
  function TransferReads(env: Env, s: Side, acts: seq<Act>): nat
    requires CanActAll(env, s, acts)
    decreases acts
  {
    if acts == [] then 0
    else
      (if s.phase.Transfer? && acts[0].move.Take? then 1 else 0)
      + TransferReads(env, Apply(env, s, acts[0].move, acts[0].frame), acts[1..])
  }

  predicate Summarised(s: Side) {
    s.phase.SendSummary? || s.phase.AwaitSummary? || s.phase.Transfer?
  }

  /** The read that is still being dealt with. */
  function Pending(s: Side): nat {
    if s.reader.stage.Idle? then 0 else 1
  }

  /** The entries added since the summary, `n` being the number of live entries then. */
  ghost predicate Additions(env: Env, s: Side, n: nat) {
    && n <= |s.store|
    && (forall m :: m in s.store[n..] ==> Accepts(env, m, s.self.now))
    && s.reader.stored + (if s.reader.stage.Saved? then [s.reader.stage.message.messageId] else []) == Ids(s.store[n..])
  }

  ghost predicate SafeInv(env: Env, s: Side, own: seq<Message>) {
    var live := Live(env, own, s.self.now);
    && (!Summarised(s) ==> s.store == own && s.reader.stored == [] && s.reader.stage.Idle?)
    && (!s.phase.Transfer? ==> s.reader.at == 0 && s.reader.stage.Idle?)
    && (Summarised(s) ==> live <= s.store && Distinct(s.store) && Additions(env, s, |live|))
    && (s.phase.Transfer? ==> s.reader.at + Pending(s) <= |s.diff.toRequest|)
    && (s.reader.stage.Accepted? ==> Accepts(env, s.reader.stage.message, s.self.now) && s.reader.stage.message.messageId !in Ids(s.store))
  }

  lemma SaveAdds(env: Env, s: Side, n: nat)
    requires Distinct(s.store) && Additions(env, s, n)
    requires s.reader.stage.Accepted? && Accepts(env, s.reader.stage.message, s.self.now)
    requires s.reader.stage.message.messageId !in Ids(s.store)
    ensures var m := s.reader.stage.message;
            var s' := s.(store := Put(s.store, m), reader := s.reader.(stage := Saved(m)));
            Distinct(s'.store) && s.store <= s'.store && Additions(env, s', n)
  {
    var m := s.reader.stage.message;
    PutLaw(s.store, m);
    assert Put(s.store, m) == s.store + [m];
    assert (s.store + [m])[n..] == s.store[n..] + [m];
    IdsAppend(s.store[n..], [m]);
    assert Ids([m]) == [m.messageId];
  }

  lemma PruneSafe(env: Env, s: Side, own: seq<Message>, f: Frame)
    requires SafeInv(env, s, own) && Distinct(own) && Enabled(s, Prune)
    ensures SafeInv(env, Apply(env, s, Prune, f), own)
  {
    var live := Live(env, own, s.self.now);
    SelectDistinct(env, Unexpired(s.self.now), own);
    assert live[|live|..] == [];
  }

  /** A frame read by the receive loop is at most remembered. */
  lemma ReadSafe(env: Env, s: Side, own: seq<Message>, f: Frame)
    requires SafeInv(env, s, own) && Enabled(s, Take) && s.phase.Transfer?
    ensures SafeInv(env, Apply(env, s, Take, f), own)
  {
    var l := OnTransfer(env, s.reader, s.store, s.self.now, f);
    assert Apply(env, s, Take, f) == s.(reader := l);
    assert l.stored == s.reader.stored && !l.stage.Saved?;
  }

  /** The store and the receive loop are as they were. */
  predicate Elsewhere(s: Side, s': Side) {
    && s'.store == s.store && s'.self.now == s.self.now
    && s'.reader.stored == s.reader.stored && s'.reader.stage == s.reader.stage && s'.reader.at == s.reader.at
    && Summarised(s') == Summarised(s)
    && (s.phase.Transfer? ==> s'.phase.Transfer? && s'.diff == s.diff)
  }

  lemma ElsewhereMoves(env: Env, s: Side, mv: Move, f: Frame)
    requires Enabled(s, mv)
    requires mv.Emit? || mv.Skip? || mv.RecordSent? || mv.FailSend? || mv.FailTake? || (mv.Take? && !s.phase.Transfer?)
    ensures Elsewhere(s, Apply(env, s, mv, f))
  {}

  lemma ElsewhereSafe(env: Env, s: Side, s': Side, own: seq<Message>)
    requires SafeInv(env, s, own) && Elsewhere(s, s')
    ensures SafeInv(env, s', own)
  {}

  lemma ActSafe(env: Env, s: Side, mv: Move, own: seq<Message>, f: Frame)
    requires SafeInv(env, s, own) && Distinct(own) && Enabled(s, mv)
    ensures SafeInv(env, Apply(env, s, mv, f), own)
  {
    match mv
    case Prune => PruneSafe(env, s, own, f);
    case Save => SaveAdds(env, s, |Live(env, own, s.self.now)|);
    case RecordStored =>
    case _ =>
      if mv.Take? && s.phase.Transfer? {
        ReadSafe(env, s, own, f);
      } else {
        ElsewhereMoves(env, s, mv, f);
        ElsewhereSafe(env, s, Apply(env, s, mv, f), own);
      }
  }

  lemma ActCounts(env: Env, s: Side, mv: Move, f: Frame)
    requires Enabled(s, mv) && (!s.phase.Transfer? ==> s.reader.at == 0 && s.reader.stage.Idle?)
    ensures var s' := Apply(env, s, mv, f);
            s'.self.now == s.self.now
            && s'.reader.at + Pending(s') == s.reader.at + Pending(s) + if s.phase.Transfer? && mv.Take? then 1 else 0
  {}

  /** Safety against any peer. Whatever the peer sends: every unexpired entry keeps its place and value;
      all that is added came with a new id of its own and validated at the session's clock; the ids
      reported as stored are those of the additions, save for one whose report is still to come; and
      the receive loop reads no more frames than it asked for. */
  lemma {:induction false} SafeAgainstAnyPeer(env: Env, s: Side, acts: seq<Act>, own: seq<Message>)
    requires SafeInv(env, s, own) && Distinct(own) && CanActAll(env, s, acts)
    ensures SafeInv(env, ActAll(env, s, acts), own) && ActAll(env, s, acts).self.now == s.self.now
    ensures var s' := ActAll(env, s, acts);
            TransferReads(env, s, acts) + s.reader.at + Pending(s) == s'.reader.at + Pending(s')
    decreases acts
  {
    if acts != [] {
      ActSafe(env, s, acts[0].move, own, acts[0].frame);
      ActCounts(env, s, acts[0].move, acts[0].frame);
      SafeAgainstAnyPeer(env, Apply(env, s, acts[0].move, acts[0].frame), acts[1..], own);
    }
  }

  /** The same, for a session from its start. */
  lemma SessionIsSafe(env: Env, role: Role, deviceId: string, now: int, own: seq<Message>, acts: seq<Act>)
    requires Distinct(own) && CanActAll(env, Start(role, deviceId, now, own), acts)
    ensures var s := ActAll(env, Start(role, deviceId, now, own), acts);
            var live := Live(env, own, now);
            && Distinct(s.store)
            && ((s.store == own && s.reader.stored == [])
                || (live <= s.store
                   && (forall m :: m in s.store[|live|..] ==> Accepts(env, m, now))
                   && s.reader.stored <= Ids(s.store[|live|..])
                   && (!s.reader.stage.Saved? ==> s.reader.stored == Ids(s.store[|live|..]))))
            && (s.phase.Transfer? ==> TransferReads(env, Start(role, deviceId, now, own), acts) <= |s.diff.toRequest|)
  {
    SafeAgainstAnyPeer(env, Start(role, deviceId, now, own), acts, own);
  }

  // ----- sessions racing on one store -----

  datatype Shared = Shared(store: seq<Message>, sides: seq<Side>)

  datatype RaceAct = RaceAct(side: nat, act: Act)

  function Facing(r: Shared, i: nat): Side
    requires i < |r.sides|
  {
    r.sides[i].(store := r.store)
  }

  predicate CanRaceAll(env: Env, r: Shared, acts: seq<RaceAct>)
    decreases acts
  {
    acts == []
    || (acts[0].side < |r.sides| && Enabled(Facing(r, acts[0].side), acts[0].act.move)
        && CanRaceAll(env, RaceStep(env, r, acts[0]), acts[1..]))
  }

  function RaceStep(env: Env, r: Shared, x: RaceAct): Shared
    requires x.side < |r.sides| && Enabled(Facing(r, x.side), x.act.move)
  {
    var s := Apply(env, Facing(r, x.side), x.act.move, x.act.frame);
    Shared(s.store, r.sides[x.side := s])
  }

  function RaceAll(env: Env, r: Shared, acts: seq<RaceAct>): Shared
    requires CanRaceAll(env, r, acts)
    decreases acts
  {
    if acts == [] then r else RaceAll(env, RaceStep(env, r, acts[0]), acts[1..])
  }

  /** Entries come from the seed or passed some session's validation. */
  ghost predicate Vetted(env: Env, r: Shared, seed: seq<Message>, m: Message) {
    m in seed || exists i :: 0 <= i < |r.sides| && Accepts(env, m, r.sides[i].self.now)
  }

  ghost predicate RaceInv(env: Env, r: Shared, seed: seq<Message>) {
    && Distinct(r.store)
    && (forall m :: m in r.store ==> Vetted(env, r, seed, m))
    && (forall i :: 0 <= i < |r.sides| ==>
          (!r.sides[i].phase.Transfer? ==> r.sides[i].reader.stage.Idle?)
          && (r.sides[i].reader.stage.Accepted? ==> Accepts(env, r.sides[i].reader.stage.message, r.sides[i].self.now)))
  }

  /** What one move does to the shared store. */
  lemma RaceMove(env: Env, s: Side, mv: Move, f: Frame)
    requires Enabled(s, mv) && Distinct(s.store)
    requires s.reader.stage.Accepted? ==> Accepts(env, s.reader.stage.message, s.self.now)
    requires !s.phase.Transfer? ==> s.reader.stage.Idle?
    ensures var s' := Apply(env, s, mv, f);
            && Distinct(s'.store) && s'.self.now == s.self.now
            && (forall m :: m in s'.store ==> m in s.store || Accepts(env, m, s.self.now))
            && (s'.reader.stage.Accepted? ==> Accepts(env, s'.reader.stage.message, s.self.now))
            && (!s'.phase.Transfer? ==> s'.reader.stage.Idle?)
  {
    if mv.Save? {
      PutLaw(s.store, s.reader.stage.message);
    } else if mv.Prune? {
      SelectDistinct(env, Unexpired(s.self.now), s.store);
      SelectMembers(env, Unexpired(s.self.now), s.store);
    }
  }

  lemma RaceStepInv(env: Env, r: Shared, x: RaceAct, seed: seq<Message>)
    requires RaceInv(env, r, seed) && x.side < |r.sides| && Enabled(Facing(r, x.side), x.act.move)
    ensures RaceInv(env, RaceStep(env, r, x), seed)
  {
    var s := Facing(r, x.side);
    RaceMove(env, s, x.act.move, x.act.frame);
    var r' := RaceStep(env, r, x);
    forall m | m in r'.store
      ensures Vetted(env, r', seed, m)
    {
      if m in r.store && m !in seed {
        var i :| 0 <= i < |r.sides| && Accepts(env, m, r.sides[i].self.now);
        assert r'.sides[i].self.now == r.sides[i].self.now;
      } else if m !in seed {
        assert Accepts(env, m, r'.sides[x.side].self.now);
      }
    }
  }

  /** Any number of sessions racing on one store, each with any peer: the check and the save of an id are
      apart, yet the store never has two entries for it, and nothing enters unvalidated. */
  lemma {:induction false} OneEntryPerId(env: Env, r: Shared, acts: seq<RaceAct>, seed: seq<Message>)
    requires RaceInv(env, r, seed) && CanRaceAll(env, r, acts)
    ensures RaceInv(env, RaceAll(env, r, acts), seed)
    decreases acts
  {
    if acts != [] {
      RaceStepInv(env, r, acts[0], seed);
      OneEntryPerId(env, RaceStep(env, r, acts[0]), acts[1..], seed);
    }
  }
}
