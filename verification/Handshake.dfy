/** One run of `runSync`, as a machine whose steps are the pieces of code between awaits.
    The send loop and the receive loop of the transfer phase move independently. */
module Handshake {
  import opened Options
  import opened Messages
  import opened StoreSpec

  const PROTOCOL_VERSION := 1

  predicate IsProtocolVersionSupported(version: int) {
    version == PROTOCOL_VERSION
  }

  datatype Role = Initiator | Responder

  datatype Frame =
    | DeviceHello(deviceId: string, protocolVersion: int)
    | SyncRequest(requested: seq<string>)
    | SyncResponse(responded: seq<string>)
    | EmergencyMessage(message: Message)

  /** `known.filter(id => !other.has(id))` */
  function Without(known: seq<string>, other: seq<string>): seq<string> {
    if known == [] then []
    else (if known[0] in other then [] else [known[0]]) + Without(known[1..], other)
  }

  datatype KnownIdsDiff = KnownIdsDiff(toSend: seq<string>, toRequest: seq<string>)

  function DiffKnownIds(local: seq<string>, remote: seq<string>): KnownIdsDiff {
    KnownIdsDiff(Without(local, remote), Without(remote, local))
  }

  /** Where the straight-line part of the run stands; each name is the next thing to happen. */
  datatype Phase = SendHello | AwaitHello | Summarise | SendSummary | AwaitSummary | Transfer

  /** What the receive loop is doing with the frame it read last. */
  datatype Stage =
    | Idle                     // waiting for the next frame
    | Accepted(message: Message)  // unknown and valid; the save is awaited
    | Saved(message: Message)     // in the store; not yet in storedMessageIds

  /** The loop over toSend. */
  datatype SendLoop = SendLoop(
    at: nat,          // ids already dealt with
    sending: bool,    // a frame was handed over, its completion is awaited
    down: bool,       // threw
    sent: seq<string>)

  /** The loop over toRequest. */
  datatype ReadLoop = ReadLoop(
    at: nat,          // frames already dealt with
    stage: Stage,
    down: bool,       // threw
    stored: seq<string>,
    rejected: seq<string>)

  datatype Self = Self(role: Role, deviceId: string, now: int)

  datatype Side = Side(
    self: Self,
    phase: Phase,
    refused: bool,    // returned INCOMPATIBLE
    store: seq<Message>,
    localIds: seq<string>,
    remoteIds: seq<string>,
    diff: KnownIdsDiff,
    sender: SendLoop,
    reader: ReadLoop)

  function Start(role: Role, deviceId: string, now: int, store: seq<Message>): Side {
    Side(Self(role, deviceId, now), SendHello, false, store, [], [], KnownIdsDiff([], []),
         SendLoop(0, false, false, []), ReadLoop(0, Idle, false, [], []))
  }

  datatype Move =
    | Emit          // connection.send hands a frame over
    | Take          // connection.receive yields a frame
    | Prune         // buildMessageSummary
    | Skip          // the store no longer has the id: `continue`
    | RecordSent    // the send completed: sentMessageIds.push
    | Save          // store.saveMessage
    | RecordStored  // storedMessageIds.push
    | FailSend      // the send, or anything awaited by the send loop, throws
    | FailTake      // the receive, or anything awaited before the save is done, throws

  predicate Enabled(s: Side, mv: Move) {
    !s.refused &&
    match mv
    case Emit =>
      !s.sender.down
      && ((s.phase.SendHello? || s.phase.SendSummary?)
          || (s.phase.Transfer? && !s.sender.sending && s.sender.at < |s.diff.toSend|
              && Find(s.store, s.diff.toSend[s.sender.at]).Some?))
    case Take =>
      !s.reader.down
      && ((s.phase.AwaitHello? || s.phase.AwaitSummary?)
          || (s.phase.Transfer? && s.reader.stage.Idle? && s.reader.at < |s.diff.toRequest|))
    case Prune => !s.sender.down && s.phase.Summarise?
    case Skip =>
      s.phase.Transfer? && !s.sender.down && !s.sender.sending && s.sender.at < |s.diff.toSend|
      && Find(s.store, s.diff.toSend[s.sender.at]).None?
    case RecordSent => s.phase.Transfer? && !s.sender.down && s.sender.sending && s.sender.at < |s.diff.toSend|
    case Save => s.phase.Transfer? && !s.reader.down && s.reader.stage.Accepted?
    case RecordStored => s.phase.Transfer? && !s.reader.down && s.reader.stage.Saved?
    case FailSend => !s.sender.down && (s.phase.Transfer? ==> s.sender.at < |s.diff.toSend|)
    case FailTake => !s.reader.down && (s.phase.Transfer? ==> !s.reader.stage.Saved? && s.reader.at < |s.diff.toRequest|)
  }

  /** The frame an Emit hands over. */
  function FrameOf(s: Side): Frame
    requires Enabled(s, Emit)
  {
    match s.phase
    case SendHello => DeviceHello(s.self.deviceId, PROTOCOL_VERSION)
    case SendSummary => if s.self.role.Initiator? then SyncRequest(s.localIds) else SyncResponse(s.localIds)
    case _ => EmergencyMessage(Find(s.store, s.diff.toSend[s.sender.at]).value)
  }

  function BeginTransfer(s: Side): Side {
    s.(phase := Transfer, diff := DiffKnownIds(s.localIds, s.remoteIds))
  }

  /** A throw outside the two loops ends the whole run. */
  function Throw(s: Side): Side {
    s.(sender := s.sender.(down := true), reader := s.reader.(down := true))
  }

  function OnHello(s: Side, f: Frame): Side {
    if !f.DeviceHello? then Throw(s)
    else if !IsProtocolVersionSupported(f.protocolVersion) then s.(refused := true)
    else s.(phase := Summarise)
  }

  function OnSummary(s: Side, f: Frame): Side {
    if s.self.role.Initiator? then
      if f.SyncResponse? then BeginTransfer(s.(remoteIds := f.responded)) else Throw(s)
    else
      if f.SyncRequest? then s.(phase := SendSummary, remoteIds := f.requested) else Throw(s)
  }

  /** One round of the receive loop, up to the save. */
  function OnTransfer(env: Env, r: ReadLoop, store: seq<Message>, now: int, f: Frame): ReadLoop {
    if !f.EmergencyMessage? then r.(at := r.at + 1)
    else if f.message.messageId in Ids(store) then r.(at := r.at + 1)
    else if Accepts(env, f.message, now) then r.(stage := Accepted(f.message))
    else r.(at := r.at + 1, rejected := r.rejected + [f.message.messageId])
  }

  /** The side after a move; a Take also gets the frame it read. */
  function Apply(env: Env, s: Side, mv: Move, f: Frame): Side
    requires Enabled(s, mv)
  {
    match mv
    case Emit =>
      if s.phase.SendHello? then s.(phase := AwaitHello)
      else if s.phase.SendSummary? then
        if s.self.role.Initiator? then s.(phase := AwaitSummary) else BeginTransfer(s)
      else s.(sender := s.sender.(sending := true))
    case Take =>
      if s.phase.AwaitHello? then OnHello(s, f)
      else if s.phase.AwaitSummary? then OnSummary(s, f)
      else s.(reader := OnTransfer(env, s.reader, s.store, s.self.now, f))
    case Prune =>
      var live := Live(env, s.store, s.self.now);
      s.(store := live, localIds := Ids(live), phase := if s.self.role.Initiator? then SendSummary else AwaitSummary)
    case Skip => s.(sender := s.sender.(at := s.sender.at + 1))
    case RecordSent =>
      s.(sender := s.sender.(sending := false, sent := s.sender.sent + [s.diff.toSend[s.sender.at]], at := s.sender.at + 1))
    case Save =>
      var m := s.reader.stage.message;
      s.(store := Put(s.store, m), reader := s.reader.(stage := Saved(m)))
    case RecordStored =>
      var m := s.reader.stage.message;
      s.(reader := s.reader.(stored := s.reader.stored + [m.messageId], stage := Idle, at := s.reader.at + 1))
    case FailSend => if s.phase.Transfer? then s.(sender := s.sender.(down := true)) else Throw(s)
    case FailTake => if s.phase.Transfer? then s.(reader := s.reader.(down := true)) else Throw(s)
  }

  /** Both loops ran to their end. */
  predicate Finished(s: Side) {
    s.phase.Transfer? && !s.refused && !s.sender.down && !s.reader.down && s.reader.stage.Idle?
    && s.sender.at == |s.diff.toSend| && s.reader.at == |s.diff.toRequest|
  }

  datatype SyncOutcome = SyncOutcome(
    incompatibleProtocolVersion: bool,
    interrupted: bool,
    sentMessageIds: seq<string>,
    storedMessageIds: seq<string>,
    rejectedMessageIds: seq<string>)

  /** What the promise of the run holds, once it is settled. `Promise.all` settles on the first
      throw, so the other loop may still add to the lists. */
  function Outcome(s: Side): Option<SyncOutcome> {
    if s.refused then Some(SyncOutcome(true, false, [], [], []))
    else if s.sender.down || s.reader.down then Some(SyncOutcome(false, true, s.sender.sent, s.reader.stored, s.reader.rejected))
    else if Finished(s) then Some(SyncOutcome(false, false, s.sender.sent, s.reader.stored, s.reader.rejected))
    else None
  }

  /** Filtering the ids of a store is listing the filtered store. */
  lemma {:induction false} WithoutIds(env: Env, mine: seq<Message>, known: seq<Message>)
    ensures Without(Ids(mine), Ids(known)) == Ids(Missing(env, mine, known))
  {
    if mine != [] {
      assert Ids(mine)[1..] == Ids(mine[1..]);
      WithoutIds(env, mine[1..], known);
      var m := mine[0];
      IdsAppend(if m.messageId in Ids(known) then [] else [m], Missing(env, mine[1..], known));
    }
  }
}
