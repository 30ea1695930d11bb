/** `runSync` as the code changes its state: one method for each stretch between two awaits, each proved
    to be the matching move of the machine in Handshake. */
module SyncRun {
  import opened Options
  import opened Messages
  import opened StoreSpec
  import opened RelayStates
  import opened Handshake
  import opened InMemoryRelayStore

  /** Prune, then list. */
  method BuildMessageSummary(store: RelayStore, now: int) returns (knownIds: seq<string>)
    requires store.Valid()
    modifies store
    ensures store.Valid() && store.State() == Pruned(store.env, old(store.State()), now)
    ensures knownIds == Ids(store.entries)
  {
    var prunedIds := store.PruneExpired(now);
    knownIds := store.ListKnownIds();
  }

  /** The two filters of the diff, as loops over the known ids. */
  method DiffIds(local: seq<string>, remote: seq<string>) returns (diff: KnownIdsDiff)
    ensures diff == DiffKnownIds(local, remote)
  {
    var toSend := FilterUnknown(local, remote);
    var toRequest := FilterUnknown(remote, local);
    diff := KnownIdsDiff(toSend, toRequest);
  }

  method FilterUnknown(known: seq<string>, other: seq<string>) returns (kept: seq<string>)
    ensures kept == Without(known, other)
  {
    kept := [];
    for i := 0 to |known|
      invariant kept + Without(known[i..], other) == Without(known, other)
    {
      assert known[i..][1..] == known[i + 1..];
      if known[i] !in other { kept := kept + [known[i]]; }
    }
  }

  class Run {
    const self: Self
    const store: RelayStore
    var phase: Phase
    var refused: bool
    var localIds: seq<string>
    var remoteIds: seq<string>
    var diff: KnownIdsDiff
    var sendAt: nat
    var sending: bool
    var sendDown: bool
    var sentMessageIds: seq<string>
    var readAt: nat
    var stage: Stage
    var readDown: bool
    var storedMessageIds: seq<string>
    var rejectedMessageIds: seq<string>

    ghost function Side(): Handshake.Side
      reads this, store
    {
      Handshake.Side(self, phase, refused, store.entries, localIds, remoteIds, diff,
                     SendLoop(sendAt, sending, sendDown, sentMessageIds),
                     ReadLoop(readAt, stage, readDown, storedMessageIds, rejectedMessageIds))
    }

    constructor (store: RelayStore, localDeviceId: string, role: Role, now: int)
      ensures this.store == store && Side() == Start(role, localDeviceId, now, store.entries)
    {
      this.self, this.store := Self(role, localDeviceId, now), store;
      phase, refused, localIds, remoteIds, diff := Phase.SendHello, false, [], [], KnownIdsDiff([], []);
      sendAt, sending, sendDown, sentMessageIds := 0, false, false, [];
      readAt, stage, readDown, storedMessageIds, rejectedMessageIds := 0, Idle, false, [], [];
    }

    method SendHello() returns (f: Frame)
      requires phase.SendHello? && Enabled(Side(), Emit)
      modifies this
      ensures f == old(FrameOf(Side())) && Side() == old(Apply(store.env, Side(), Emit, f))
    {
      f := DeviceHello(self.deviceId, PROTOCOL_VERSION);
      phase := AwaitHello;
    }

    method ReceiveHello(f: Frame)
      requires phase.AwaitHello? && Enabled(Side(), Take)
      modifies this
      ensures Side() == old(Apply(store.env, Side(), Take, f))
    {
      if !f.DeviceHello? {
        sendDown, readDown := true, true;
      } else if !IsProtocolVersionSupported(f.protocolVersion) {
        refused := true;
      } else {
        phase := Phase.Summarise;
      }
    }

    method Summarise()
      requires store.Valid() && Enabled(Side(), Prune)
      modifies this, store
      ensures store.Valid() && Side() == old(Apply(store.env, Side(), Prune, DeviceHello("", 0)))
      ensures store.State() == old(Pruned(store.env, store.State(), self.now))
    {
      localIds := BuildMessageSummary(store, self.now);
      phase := if self.role.Initiator? then Phase.SendSummary else AwaitSummary;
    }

    method SendSummary() returns (f: Frame)
      requires phase.SendSummary? && Enabled(Side(), Emit)
      modifies this
      ensures f == old(FrameOf(Side())) && Side() == old(Apply(store.env, Side(), Emit, f))
    {
      if self.role.Initiator? {
        f := SyncRequest(localIds);
        phase := AwaitSummary;
      } else {
        f := SyncResponse(localIds);
        diff := DiffIds(localIds, remoteIds);
        phase := Transfer;
      }
    }

    method ReceiveSummary(f: Frame)
      requires phase.AwaitSummary? && Enabled(Side(), Take)
      modifies this
      ensures Side() == old(Apply(store.env, Side(), Take, f))
    {
      if self.role.Initiator? && f.SyncResponse? {
        remoteIds := f.responded;
        diff := DiffIds(localIds, remoteIds);
        phase := Transfer;
      } else if self.role.Responder? && f.SyncRequest? {
        remoteIds := f.requested;
        phase := Phase.SendSummary;
      } else {
        sendDown, readDown := true, true;
      }
    }

    /** One round of the send loop, up to the completion of the send. */
    method SendNext() returns (f: Option<Frame>)
      requires store.Valid() && phase.Transfer? && !refused && !sendDown && !sending && sendAt < |diff.toSend|
      modifies this
      ensures f.Some? ==> old(Enabled(Side(), Emit)) && f.value == old(FrameOf(Side()))
                          && Side() == old(Apply(store.env, Side(), Emit, f.value))
      ensures f.None? ==> old(Enabled(Side(), Skip)) && Side() == old(Apply(store.env, Side(), Skip, DeviceHello("", 0)))
    {
      var id := diff.toSend[sendAt];
      var message := store.GetMessage(id);
      if message.None? {
        sendAt := sendAt + 1;
        if id in Ids(store.entries) { ghost var m := MemberOfIds(store.entries, id); }
        return None;
      }
      FindMember(store.entries, message.value);
      sending := true;
      return Some(EmergencyMessage(message.value));
    }

    method SendCompleted()
      requires Enabled(Side(), RecordSent)
      modifies this
      ensures Side() == old(Apply(store.env, Side(), RecordSent, DeviceHello("", 0)))
    {
      sentMessageIds := sentMessageIds + [diff.toSend[sendAt]];
      sending, sendAt := false, sendAt + 1;
    }

    /** One round of the receive loop, up to the save. */
    method ReceiveNext(f: Frame)
      requires phase.Transfer? && Enabled(Side(), Take)
      modifies this
      ensures Side() == old(Apply(store.env, Side(), Take, f))
    {
      if !f.EmergencyMessage? {
        readAt := readAt + 1;
        return;
      }
      var known := store.HasMessage(f.message.messageId);
      if f.message.messageId in Ids(store.entries) { ghost var m := MemberOfIds(store.entries, f.message.messageId); }
      if known {
        ghost var m :| m in store.entries && m.messageId == f.message.messageId;
        IdsMember(store.entries, m);
        readAt := readAt + 1;
      } else if Accepts(store.env, f.message, self.now) {
        stage := Accepted(f.message);
      } else {
        rejectedMessageIds := rejectedMessageIds + [f.message.messageId];
        readAt := readAt + 1;
      }
    }

    method SaveAccepted()
      requires store.Valid() && Enabled(Side(), Save)
      modifies this, store
      ensures store.Valid() && Side() == old(Apply(store.env, Side(), Save, DeviceHello("", 0)))
      ensures store.uploaded == old(store.uploaded)
    {
      store.SaveMessage(stage.message);
      stage := Saved(stage.message);
    }

    method ReportStored()
      requires Enabled(Side(), RecordStored)
      modifies this
      ensures Side() == old(Apply(store.env, Side(), RecordStored, DeviceHello("", 0)))
    {
      storedMessageIds := storedMessageIds + [stage.message.messageId];
      stage, readAt := Idle, readAt + 1;
    }

    /** What the promise of the run holds by now: the early return, the catch block, or the end. */
    method Settle() returns (outcome: Option<SyncOutcome>)
      ensures outcome == Outcome(Side())
      ensures refused ==> outcome == Some(SyncOutcome(true, false, [], [], []))
      ensures !refused && (sendDown || readDown) ==>
                outcome == Some(SyncOutcome(false, true, sentMessageIds, storedMessageIds, rejectedMessageIds))
      ensures !refused && !sendDown && !readDown && outcome.Some? ==>
                outcome == Some(SyncOutcome(false, false, sentMessageIds, storedMessageIds, rejectedMessageIds))
                && sendAt == |diff.toSend| && readAt == |diff.toRequest|
    {
      if refused {
        outcome := Some(SyncOutcome(true, false, [], [], []));
      } else if sendDown || readDown {
        outcome := Some(SyncOutcome(false, true, sentMessageIds, storedMessageIds, rejectedMessageIds));
      } else if phase.Transfer? && stage.Idle? && sendAt == |diff.toSend| && readAt == |diff.toRequest| {
        outcome := Some(SyncOutcome(false, false, sentMessageIds, storedMessageIds, rejectedMessageIds));
      } else {
        outcome := None;
      }
    }

    /** A throw in the send loop stops that loop; before the loops it ends the run. */
    method SendFails()
      requires Enabled(Side(), FailSend)
      modifies this
      ensures Side() == old(Apply(store.env, Side(), FailSend, DeviceHello("", 0)))
      ensures Outcome(Side()) == Some(SyncOutcome(false, true, sentMessageIds, storedMessageIds, rejectedMessageIds))
    {
      if !phase.Transfer? { readDown := true; }
      sendDown := true;
    }

    method ReceiveFails()
      requires Enabled(Side(), FailTake)
      modifies this
      ensures Side() == old(Apply(store.env, Side(), FailTake, DeviceHello("", 0)))
      ensures Outcome(Side()) == Some(SyncOutcome(false, true, sentMessageIds, storedMessageIds, rejectedMessageIds))
    {
      if !phase.Transfer? { sendDown := true; }
      readDown := true;
    }
  }
}
