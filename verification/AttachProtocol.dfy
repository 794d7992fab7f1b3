/** The attach handshake (src/daemon.rs) keeps its invariant in every interleaving of the
    output pipeline. */
module AttachProtocol {
  import opened Bytes
  import opened Flush
  import opened Pipeline
  import Q = NoticeQueue
  import F = Fanout

  /** The attach side of the invariant, which depends on the connections and the fanout only. */
  ghost predicate AttachesOk(s: System) {
    && |s.attaches| == |s.fanout.grants|
    && forall n :: 1 <= n <= |s.attaches| ==> AttachOk(s, n)
  }

  lemma SameAttaches(s: System, s': System)
    requires AttachesOk(s) && s'.attaches == s.attaches && s'.fanout == s.fanout
    ensures AttachesOk(s')
  {
    hide F.Sent, SnapshotOf;
    forall n | 1 <= n <= |s'.attaches| ensures AttachOk(s', n) {
      assert AttachOk(s, n);
    }
  }

  /** One connection moved on; the fanout and the other connections did not. */
  lemma OneAttachMoved(s: System, s': System, viewer: nat)
    requires AttachesOk(s) && 1 <= viewer <= |s.attaches|
    requires s'.fanout == s.fanout && |s'.attaches| == |s.attaches|
    requires forall i :: 0 <= i < |s.attaches| && i != viewer - 1 ==> s'.attaches[i] == s.attaches[i]
    requires AttachOk(s', viewer)
    ensures AttachesOk(s')
  {
    hide F.Sent, SnapshotOf;
    forall n | 1 <= n <= |s'.attaches| ensures AttachOk(s', n) {
      assert AttachOk(s, n);
    }
  }

  /** A pertinent command joins the channel while at most its own connection changes phase. */
  lemma ChannelGrows(s: System, s': System, command: F.Command<nat>, viewer: nat)
    requires ChannelOk(s) && s'.channel == s.channel + [command]
    requires |s'.attaches| == |s.attaches| && Pertinent(s'.attaches, command)
    requires forall i :: 0 <= i < |s.attaches| && i != viewer - 1 ==> s'.attaches[i] == s.attaches[i]
    requires 1 <= viewer <= |s.attaches| ==>
      var phase := s.attaches[viewer - 1].phase;
      (!phase.Activating? && !phase.Closing?) || (phase.Closing? && s'.attaches == s.attaches)
    requires command.ActivateViewer? ==>
      1 <= command.lease <= |s.attaches| && !s.attaches[command.lease - 1].phase.Activating?
    ensures ChannelOk(s')
  {
    forall i | 0 <= i < |s'.channel| ensures Pertinent(s'.attaches, s'.channel[i]) {
      if i < |s.channel| {
        assert Pertinent(s.attaches, s.channel[i]);
      }
    }
    forall i, j | 0 <= i < j < |s'.channel| && s'.channel[i].ActivateViewer?
      ensures s'.channel[i] != s'.channel[j]
    {
      assert Pertinent(s.attaches, s.channel[i]);
    }
  }

  lemma ConnectionKeepsInv(s: System, action: Action, streams: F.Streams)
    requires AttachesOk(s) && ChannelOk(s)
    requires action.AskSnapshot? || action.SnapshotWritten? || action.SnapshotFailed? ||
             action.GiveUp? || action.DetachAgain?
    ensures AttachesOk(Next(s, action, streams)) && ChannelOk(Next(s, action, streams))
  {
    var viewer, s' := action.viewer, Next(s, action, streams);
    if s' != s {
      assert 1 <= viewer <= |s.attaches| && AttachOk(s, viewer);
      hide F.Sent, SnapshotOf;
      assert AttachOk(s', viewer);
      OneAttachMoved(s, s', viewer);
      if !action.AskSnapshot? {
        ChannelGrows(s, s', s'.channel[|s.channel|], viewer);
      } else {
        forall i | 0 <= i < |s'.channel| ensures Pertinent(s'.attaches, s'.channel[i]) {
          assert Pertinent(s.attaches, s.channel[i]);
        }
      }
    }
  }

  // ---------------------------------------------------------------- the snapshot

  lemma BetweenSplit(a: nat, b: nat, c: nat)
    requires a <= b <= c
    ensures Between(a, c) == Between(a, b) + Between(b, c)
  {
  }

  /** While a viewer holds the slot reserved, the transcript side accounts for exactly the
      chunks from before the reservation. */
  lemma ReservedSplitsOutput(s: System, viewer: nat)
    requires Flow(s) && F.Inv(s.fanout) && s.fanout.viewer.Reserved? && s.fanout.viewer.lease == viewer
    requires 1 <= viewer <= |s.fanout.grants|
    ensures |s.fanout.notified| == s.fanout.grants[viewer - 1]
  {
    hide F.Sent, Accounts, Q.Accounted;
    assert F.ServedGrant(s.fanout, viewer);
    assert F.Conserved(s.fanout);
    assert |s.fanout.handled| == |s.fanout.notified| + |s.fanout.viewer.backlog|;
  }

  lemma AheadOfLog(log: seq<nat>, mail: seq<nat>, hand: seq<nat>, pending: seq<nat>)
    ensures log + mail + hand + pending == log + (mail + hand + pending)
  {
  }

  /** What the actor answers with is from before the reservation; the other chunks from before it
      are on their way or lost. */
  lemma SnapshotShowsThePast(s: System, viewer: nat)
    requires Inv(s) && s.mailbox != [] && s.mailbox[0] == SnapshotAsk(viewer) && InPhase(s, viewer, Asking)
    ensures SnapshotOf(s.log, s.fanout.grants[viewer - 1])
    ensures Accounts(Upstream(s), s.refused, DroppedChunks(s.queue.removals), s.fanout.grants[viewer - 1])
  {
    assert AttachOk(s, viewer);
    ReservedSplitsOutput(s, viewer);
    hide F.Inv, F.Sent, Q.Accounted, ChannelChunks, MailChunks, DroppedChunks, AttachOk, ChannelOk;
    AheadOfLog(s.log, MailChunks(s.mailbox), Held(s.hand), s.queue.pending);
    LogOfAccounts(
      s.log, MailChunks(s.mailbox) + Held(s.hand) + s.queue.pending, s.refused, DroppedChunks(s.queue.removals),
      |s.fanout.notified|);
  }

  lemma LogOfAccounts(log: seq<nat>, inFlight: seq<nat>, refused: seq<nat>, dropped: seq<nat>, k: nat)
    requires Accounts(log + inFlight, refused, dropped, k)
    ensures SnapshotOf(log, k)
  {
    var up := log + inFlight;
    assert forall i :: 0 <= i < |log| ==> log[i] == up[i];
  }

  lemma AnswerKeepsAttaches(s: System, s': System, viewer: nat, log: seq<nat>)
    requires AttachesOk(s) && ChannelOk(s) && InPhase(s, viewer, Asking)
    requires SnapshotOf(log, s.fanout.grants[viewer - 1])
    requires s'.fanout == s.fanout && s'.channel == s.channel
    requires s'.attaches ==
             s.attaches[viewer - 1 := s.attaches[viewer - 1].(phase := Answered, snapshot := Some(log))]
    ensures AttachesOk(s') && ChannelOk(s')
  {
    hide F.Sent, SnapshotOf;
    assert AttachOk(s', viewer) by {
      assert AttachOk(s, viewer);
    }
    OneAttachMoved(s, s', viewer);
    hide AttachOk;
    forall i | 0 <= i < |s'.channel| ensures Pertinent(s'.attaches, s'.channel[i]) {
      assert Pertinent(s.attaches, s.channel[i]);
    }
  }

  lemma ActorKeepsAttaches(s: System, streams: F.Streams)
    requires Inv(s)
    ensures AttachesOk(Next(s, RunActor, streams)) && ChannelOk(Next(s, RunActor, streams))
  {
    var s' := Next(s, RunActor, streams);
    hide Flow, AttachOk, ChannelOk, SnapshotOf;
    if s.mailbox != [] && s.mailbox[0].SnapshotAsk? && InPhase(s, s.mailbox[0].viewer, Asking) {
      var viewer := s.mailbox[0].viewer;
      SnapshotShowsThePast(s, viewer);
      AnswerKeepsAttaches(s, s', viewer, s.log);
    } else {
      hide InPhase;
      ScriberKeepsAttaches(s, s');
    }
  }

  // ---------------------------------------------------------------- the fanout

  /** The fanout drops the command it handled from the channel. */
  lemma CommandTaken(s: System, streams: F.Streams)
    requires ChannelOk(s) && s.channel != []
    ensures ChannelOk(HandleCommand(s, streams))
  {
    hide F.Handle, F.ReplyTo, Q.PushAll;
    var command, s' := s.channel[0], HandleCommand(s, streams);
    forall i | 0 <= i < |s'.channel| ensures Pertinent(s'.attaches, s'.channel[i]) {
      assert s'.channel[i] == s.channel[i + 1];
      assert Pertinent(s.attaches, s.channel[i + 1]);
      if command.ActivateViewer? {
        assert Pertinent(s.attaches, command);
        assert s.channel[0] != s.channel[i + 1];
      }
    }
    forall i, j | 0 <= i < j < |s'.channel| && s'.channel[i].ActivateViewer?
      ensures s'.channel[i] != s'.channel[j]
    {
      assert s.channel[i + 1] != s.channel[j + 1];
    }
  }

  /** A connection the command is not about keeps its place. */
  lemma BystanderOk(s: System, streams: F.Streams, n: nat)
    requires AttachesOk(s) && ChannelOk(s) && s.channel != [] && 1 <= n <= |s.attaches|
    requires F.LeasesNumbered(s.fanout) && |s.fanout.grants| <= U64_MAX
    requires s.channel[0] != F.ActivateViewer(n)
    requires |HandleCommand(s, streams).attaches| == |HandleCommand(s, streams).fanout.grants|
    ensures n <= |HandleCommand(s, streams).attaches| && AttachOk(HandleCommand(s, streams), n)
  {
    var command, s' := s.channel[0], HandleCommand(s, streams);
    assert AttachOk(s, n) && Pertinent(s.attaches, command);
    F.OnlyTheHolderIsServed(s.fanout, command, streams, n);
    hide F.Sent, Flushed, AllWrote, SnapshotOf, Q.PushAll, ChannelOk, AttachesOk;
    assert s'.attaches[n - 1] == s.attaches[n - 1];
    assert s'.fanout.grants[n - 1] == s.fanout.grants[n - 1];
  }

  lemma ActivatedOk(s: System, streams: F.Streams, n: nat)
    requires AttachesOk(s) && ChannelOk(s) && s.channel != [] && s.channel[0] == F.ActivateViewer(n)
    requires |HandleCommand(s, streams).attaches| == |HandleCommand(s, streams).fanout.grants|
    ensures 1 <= n <= |HandleCommand(s, streams).attaches| && AttachOk(HandleCommand(s, streams), n)
  {
    assert Pertinent(s.attaches, s.channel[0]);
    assert AttachOk(s, n);
    hide F.Sent, Flushed, AllWrote, SnapshotOf, Q.PushAll, ChannelOk, AttachesOk;
    var s' := HandleCommand(s, streams);
    assert s'.fanout.grants == s.fanout.grants;
  }

  lemma GrantedOk(s: System, streams: F.Streams)
    requires Inv(s) && s.channel != [] && s.channel[0] == F.ReserveViewer && s.fanout.viewer.Vacant?
    requires |s.fanout.grants| < U64_MAX
    ensures
      var s' := HandleCommand(s, streams);
      && |s'.attaches| == |s'.fanout.grants| == |s.attaches| + 1
      && AttachOk(s', |s'.attaches|)
  {
    F.SentToNobody(s.fanout.deliveries, |s.attaches| + 1);
    hide F.Sent, SnapshotOf, Q.PushAll, ChannelOk, AttachOk;
  }

  lemma AttachesMatchGrants(s: System, streams: F.Streams)
    requires |s.attaches| == |s.fanout.grants| && s.channel != []
    ensures |HandleCommand(s, streams).attaches| == |HandleCommand(s, streams).fanout.grants|
  {
    hide Flushed, AllWrote, Q.PushAll;
  }

  lemma FanoutKeepsAttaches(s: System, streams: F.Streams)
    requires Inv(s) && s.channel != []
    requires |HandleCommand(s, streams).fanout.grants| <= U64_MAX
    ensures AttachesOk(HandleCommand(s, streams)) && ChannelOk(HandleCommand(s, streams))
  {
    AttachesMatchGrants(s, streams);
    CommandTaken(s, streams);
    var s' := HandleCommand(s, streams);
    forall n | 1 <= n <= |s'.attaches| ensures AttachOk(s', n) {
      hide Flushed, AllWrote, Q.PushAll, AttachOk, ChannelOk, F.ServedGrant;
      if n > |s.attaches| {
        GrantedOk(s, streams);
      } else if s.channel[0] == F.ActivateViewer(n) {
        ActivatedOk(s, streams, n);
      } else {
        BystanderOk(s, streams, n);
      }
    }
  }

  // ---------------------------------------------------------------- every reachable state

  lemma NextKeepsAttaches(s: System, action: Action, streams: F.Streams)
    requires Inv(s) && |Next(s, action, streams).fanout.grants| <= U64_MAX
    ensures AttachesOk(Next(s, action, streams)) && ChannelOk(Next(s, action, streams))
  {
    assert AttachesOk(s);
    hide Flow, AttachOk, AttachesOk, ChannelOk, Pertinent, HandleCommand, HandleMail, InPhase;
    var s' := Next(s, action, streams);
    match action
    case RunFanout => if s.channel != [] { FanoutKeepsAttaches(s, streams); }
    case RunActor => ActorKeepsAttaches(s, streams);
    case Emit(bytes) => OutsiderKeepsAttaches(s, s', F.Bytes(|s.emitted|));
    case AskReserve => OutsiderKeepsAttaches(s, s', F.ReserveViewer);
    case ScriberPop => ScriberKeepsAttaches(s, s');
    case ScriberSend(accepted) => ScriberKeepsAttaches(s, s');
    case _ => ConnectionKeepsInv(s, action, streams);
  }

  lemma OutsiderKeepsAttaches(s: System, s': System, command: F.Command<nat>)
    requires AttachesOk(s) && ChannelOk(s) && (command.Bytes? || command.ReserveViewer?)
    requires s'.attaches == s.attaches && s'.fanout == s.fanout && s'.channel == s.channel + [command]
    ensures AttachesOk(s') && ChannelOk(s')
  {
    hide AttachOk;
    SameAttaches(s, s');
    ChannelGrows(s, s', command, 0);
  }

  lemma ScriberKeepsAttaches(s: System, s': System)
    requires AttachesOk(s) && ChannelOk(s)
    requires s'.attaches == s.attaches && s'.fanout == s.fanout && s'.channel == s.channel
    ensures AttachesOk(s') && ChannelOk(s')
  {
    hide AttachOk;
    SameAttaches(s, s');
  }

  lemma NextKeepsFanout(s: System, action: Action, streams: F.Streams)
    requires F.Inv(s.fanout) && |Next(s, action, streams).fanout.grants| <= U64_MAX
    ensures F.Inv(Next(s, action, streams).fanout)
  {
    hide F.Inv, F.Handle, F.ReplyTo, Q.PushAll, Told, InPhase;
    if action.RunFanout? && s.channel != [] {
      F.HandleKeepsInv(s.fanout, s.channel[0], streams);
    } else {
      assert Next(s, action, streams).fanout == s.fanout;
    }
  }

  lemma {:induction false} NextKeepsInv(s: System, action: Action, streams: F.Streams)
    requires Inv(s) && |Next(s, action, streams).fanout.grants| <= U64_MAX
    ensures Inv(Next(s, action, streams))
  {
    NextKeepsAttaches(s, action, streams);
    NextKeepsFlow(s, action, streams);
    NextKeepsFanout(s, action, streams);
    hide Flow, AttachOk, ChannelOk, F.Inv, Next;
  }

  lemma {:induction false} GrantsOnlyGrow(actions: seq<Action>, streams: F.Streams)
    requires actions != []
    ensures |Run(actions[..|actions| - 1], streams).fanout.grants| <= |Run(actions, streams).fanout.grants|
  {
    hide Q.PushAll, Flushed, AllWrote;
  }

  lemma StartInv()
    ensures Inv(Start())
  {
    assert Between(0, 0) == [];
    assert F.Inv(F.Start<nat>());
  }

  /** Every reachable state of the pipeline, as long as fewer than 2^64 leases were granted. */
  lemma {:induction false} PipelineKeepsInv(actions: seq<Action>, streams: F.Streams)
    requires |Run(actions, streams).fanout.grants| <= U64_MAX
    ensures Inv(Run(actions, streams))
  {
    if actions == [] {
      StartInv();
    } else {
      hide Inv, Next;
      GrantsOnlyGrow(actions, streams);
      PipelineKeepsInv(actions[..|actions| - 1], streams);
      NextKeepsInv(Run(actions[..|actions| - 1], streams), actions[|actions| - 1], streams);
    }
  }
}
