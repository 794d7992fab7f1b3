/** What the output pipeline gets done (src/session.rs, src/daemon.rs): where output is lost and
    nowhere else, that everything else arrives, and that an attach gets through or gives up the slot. */
module Progress {
  import opened Bytes
  import opened Flush
  import opened Pipeline
  import opened AttachProtocol
  import opened SnapshotAnswers
  import Q = NoticeQueue
  import F = Fanout
  import Slot = ViewerSlot

  // ---------------------------------------------------------------- where output is lost

  /** What the fanout's next command notifies the transcript of. */
  ghost function Notices(s: System, streams: F.Streams): seq<nat> {
    if s.channel == [] then []
    else
      var notified := F.Handle(s.fanout, s.channel[0], streams).notified;
      notified[Min(|s.fanout.notified|, |notified|)..]
  }

  /** What does not fit the queue then: the oldest of what it held and of what is new. */
  ghost function Excess(s: System, streams: F.Streams): seq<nat> {
    var all := s.queue.pending + Notices(s, streams);
    all[..|all| - Min(|all|, Q.TRANSCRIPT_NOTICE_QUEUE_CAPACITY)]
  }

  ghost predicate QueueOk(s: System) {
    s.queue.capacity == Q.TRANSCRIPT_NOTICE_QUEUE_CAPACITY && |s.queue.pending| <= s.queue.capacity
  }

  lemma PushesDropExcess(q: Q.Queue<nat>, notices: seq<nat>)
    requires 0 < q.capacity && |q.pending| <= q.capacity
    ensures
      var pushed, all := Q.PushAll(q, notices), q.pending + notices;
      && pushed.capacity == q.capacity && |pushed.pending| <= q.capacity
      && pushed.removals == q.removals + Q.Drops(all[..|all| - Min(|all|, q.capacity)])
  {
    Q.PushesKeepNewest(q, notices);
    hide Q.PushAll, Q.Drops;
  }

  lemma FanoutPushes(s: System, streams: F.Streams)
    requires QueueOk(s) && s.channel != []
    ensures
      var s' := Next(s, RunFanout, streams);
      && QueueOk(s') && s'.refused == s.refused
      && s'.queue.removals == s.queue.removals + Q.Drops(Excess(s, streams))
  {
    PushesDropExcess(s.queue, Notices(s, streams));
    hide Min, Q.PushAll, Q.Drops, F.Handle, F.ReplyTo, Told;
  }

  lemma NextKeepsQueue(s: System, action: Action, streams: F.Streams)
    requires QueueOk(s)
    ensures QueueOk(Next(s, action, streams))
  {
    if action.RunFanout? && s.channel != [] {
      FanoutPushes(s, streams);
    }
    hide HandleCommand, HandleMail, InPhase;
  }

  lemma {:induction false} QueueAlways(actions: seq<Action>, streams: F.Streams)
    ensures QueueOk(Run(actions, streams))
  {
    if actions != [] {
      hide Next, QueueOk;
      QueueAlways(actions[..|actions| - 1], streams);
      NextKeepsQueue(Run(actions[..|actions| - 1], streams), actions[|actions| - 1], streams);
    } else {
      assert Run(actions, streams) == Start();
    }
  }

  lemma DropsAre(removals: seq<Q.Removal<nat>>, chunks: seq<nat>, id: nat)
    ensures Q.Dropped(id) in removals + Q.Drops(chunks) <==> Q.Dropped(id) in removals || id in chunks
  {
    if id in chunks {
      var i :| 0 <= i < |chunks| && chunks[i] == id;
      assert Q.Drops(chunks)[i] == Q.Dropped(id);
    }
  }

  /** A chunk is lost in two places only: when the mailbox refuses it out of the scriber's hand, and
      when it is among the oldest of more than 1024 in the queue. */
  lemma {:induction false} LostExactly(actions: seq<Action>, action: Action, streams: F.Streams, id: nat)
    ensures
      var s, s' := Run(actions, streams), Run(actions + [action], streams);
      Gone(s', id) <==>
        || Gone(s, id)
        || (action == ScriberSend(false) && s.hand == Some(id))
        || (action == RunFanout && id in Excess(s, streams))
  {
    var s := Run(actions, streams);
    RunSnoc(actions, action, streams);
    QueueAlways(actions, streams);
    hide Run, Excess;
    if action.RunFanout? && s.channel != [] {
      FanoutPushes(s, streams);
      DropsAre(s.queue.removals, Excess(s, streams), id);
      hide HandleCommand;
    } else if action.RunFanout? {
      NoExcess(s, streams);
    } else {
      OthersLose(s, action, streams, id);
    }
  }

  lemma NoExcess(s: System, streams: F.Streams)
    requires QueueOk(s) && s.channel == []
    ensures Excess(s, streams) == []
  {
    assert s.queue.pending + [] == s.queue.pending;
  }

  lemma OthersLose(s: System, action: Action, streams: F.Streams, id: nat)
    requires !action.RunFanout?
    ensures Gone(Next(s, action, streams), id) <==> Gone(s, id) || (action == ScriberSend(false) && s.hand == Some(id))
  {
    hide HandleCommand, InPhase;
    if action.ScriberPop? && s.hand.None? && s.queue.pending != [] {
      InSnoc(s.queue.removals, Q.Popped(s.queue.pending[0]), Q.Dropped(id));
    }
    if action.ScriberSend? && s.hand.Some? {
      InSnoc(s.refused, s.hand.value, id);
    }
  }

  // ---------------------------------------------------------------- everything else arrives

  /** The same action `n` times. */
  function Times(action: Action, n: nat): seq<Action> {
    if n == 0 then [] else Times(action, n - 1) + [action]
  }

  function Scribing(n: nat): seq<Action> {
    if n == 0 then [] else Scribing(n - 1) + [ScriberPop, ScriberSend(true)]
  }

  lemma RunTimes(actions: seq<Action>, action: Action, n: nat, streams: F.Streams)
    requires n > 0
    ensures Run(actions + Times(action, n), streams) ==
            Next(Run(actions + Times(action, n - 1), streams), action, streams)
  {
    assert actions + Times(action, n) == (actions + Times(action, n - 1)) + [action];
    RunSnoc(actions + Times(action, n - 1), action, streams);
  }

  /** Nothing but what the scriber and the actor work on is touched. */
  ghost predicate SameElsewhere(s: System, t: System) {
    && t.emitted == s.emitted && t.channel == s.channel && t.fanout == s.fanout
    && t.refused == s.refused && DroppedChunks(t.queue.removals) == DroppedChunks(s.queue.removals)
  }

  lemma SameSince(s: System, t: System, t': System)
    requires SameElsewhere(s, t) && SameElsewhere(t, t')
    ensures SameElsewhere(s, t')
  {
  }

  lemma SameAsIs(s: System)
    ensures SameElsewhere(s, s)
  {
  }

  lemma ScribeOne(s: System, streams: F.Streams)
    requires s.hand.None? && s.queue.pending != []
    ensures
      var t := Next(Next(s, ScriberPop, streams), ScriberSend(true), streams);
      && t.hand.None? && t.queue.pending == s.queue.pending[1..] && t.log == s.log && t.attaches == s.attaches
      && t.mailbox == s.mailbox + [Output(s.queue.pending[0])]
      && SameElsewhere(s, t)
  {
    DroppedSnoc(s.queue.removals, Q.Popped(s.queue.pending[0]));
    hide DroppedChunks;
  }

  lemma {:induction false} ScribeMany(actions: seq<Action>, n: nat, streams: F.Streams)
    requires Run(actions, streams).hand.None? && n <= |Run(actions, streams).queue.pending|
    ensures
      var s, t := Run(actions, streams), Run(actions + Scribing(n), streams);
      && t.hand.None? && t.queue.pending == s.queue.pending[n..] && t.log == s.log && t.attaches == s.attaches
      && MailChunks(t.mailbox) == MailChunks(s.mailbox) + s.queue.pending[..n]
      && |t.mailbox| == |s.mailbox| + n
      && SameElsewhere(s, t)
  {
    hide Run, Next, MailChunks, SameElsewhere;
    if n == 0 {
      assert actions + Scribing(0) == actions;
      NothingMore(MailChunks(Run(actions, streams).mailbox), Run(actions, streams).queue.pending);
      SameAsIs(Run(actions, streams));
    } else {
      var pending := Run(actions, streams).queue.pending;
      var earlier := actions + Scribing(n - 1);
      assert actions + Scribing(n) == (earlier + [ScriberPop]) + [ScriberSend(true)];
      ScribeMany(actions, n - 1, streams);
      RunSnoc(earlier, ScriberPop, streams);
      RunSnoc(earlier + [ScriberPop], ScriberSend(true), streams);
      var t := Run(earlier, streams);
      ScribeOne(t, streams);
      SameSince(Run(actions, streams), t, Next(Next(t, ScriberPop, streams), ScriberSend(true), streams));
      MailSnoc(t.mailbox, Output(pending[n - 1]));
      OneMore(MailChunks(Run(actions, streams).mailbox), pending, n);
    }
  }

  lemma NothingMore(a: seq<nat>, pending: seq<nat>)
    ensures a + pending[..0] == a && pending[0..] == pending
  {
  }

  lemma OneMore(a: seq<nat>, pending: seq<nat>, n: nat)
    requires 0 < n <= |pending|
    ensures pending[n - 1..][0] == pending[n - 1] && pending[n - 1..][1..] == pending[n..]
    ensures (a + pending[..n - 1]) + [pending[n - 1]] == a + pending[..n]
  {
  }

  lemma ActOne(s: System, streams: F.Streams)
    requires s.mailbox != []
    ensures
      var t := Next(s, RunActor, streams);
      && t.mailbox == s.mailbox[1..] && t.hand == s.hand && t.queue == s.queue
      && t.log + MailChunks(t.mailbox) == s.log + MailChunks(s.mailbox)
      && SameElsewhere(s, t)
  {
    hide InPhase, DroppedChunks, MailChunks;
    var mail, rest := s.mailbox[0], s.mailbox[1..];
    assert s.mailbox == [mail] + rest;
    MailCons(mail, rest);
    if mail.Output? {
      ConcatAssociates(s.log, [mail.chunk], MailChunks(rest));
    }
  }

  lemma {:induction false} ActMany(actions: seq<Action>, n: nat, streams: F.Streams)
    requires n <= |Run(actions, streams).mailbox|
    ensures
      var s, t := Run(actions, streams), Run(actions + Times(RunActor, n), streams);
      && t.mailbox == s.mailbox[n..] && t.hand == s.hand && t.queue == s.queue
      && t.log + MailChunks(t.mailbox) == s.log + MailChunks(s.mailbox)
      && SameElsewhere(s, t)
  {
    hide Run, Next, MailChunks, SameElsewhere;
    if n == 0 {
      assert actions + Times(RunActor, 0) == actions;
      SameAsIs(Run(actions, streams));
    } else {
      ActMany(actions, n - 1, streams);
      RunTimes(actions, RunActor, n, streams);
      var t := Run(actions + Times(RunActor, n - 1), streams);
      ActOne(t, streams);
      SameSince(Run(actions, streams), t, Next(t, RunActor, streams));
    }
  }

  /** The scriber and the actor do what there is to do, and the mailbox refuses nothing. */
  function CatchUp(s: System): seq<Action> {
    Times(ScriberSend(true), |Held(s.hand)|) + Scribing(|s.queue.pending|) +
    Times(RunActor, |s.mailbox| + |Held(s.hand)| + |s.queue.pending|)
  }

  lemma HandOver(actions: seq<Action>, streams: F.Streams)
    ensures
      var s := Run(actions, streams);
      var t := Run(actions + Times(ScriberSend(true), |Held(s.hand)|), streams);
      && t.hand.None? && t.queue == s.queue && t.log == s.log
      && MailChunks(t.mailbox) == MailChunks(s.mailbox) + Held(s.hand)
      && |t.mailbox| == |s.mailbox| + |Held(s.hand)|
      && SameElsewhere(s, t)
  {
    var s := Run(actions, streams);
    if s.hand.None? {
      assert actions + Times(ScriberSend(true), 0) == actions;
      assert MailChunks(s.mailbox) + [] == MailChunks(s.mailbox);
    } else {
      RunTimes(actions, ScriberSend(true), 1, streams);
      assert actions + Times(ScriberSend(true), 0) == actions;
      MailSnoc(s.mailbox, Output(s.hand.value));
      hide Run, MailChunks, DroppedChunks;
    }
  }

  /** From any reachable state the transcript gets everything that is under way to it, in output
      order and without any loss: when scriber and actor have caught up, nothing is under way. */
  lemma {:induction false} TranscriptCatchesUp(actions: seq<Action>, streams: F.Streams)
    ensures
      var s := Run(actions, streams);
      var t := Run(actions + CatchUp(s), streams);
      && t.log == s.log + MailChunks(s.mailbox) + Held(s.hand) + s.queue.pending
      && t.mailbox == [] && t.hand == None && t.queue.pending == []
      && SameElsewhere(s, t)
  {
    hide Run, Times, Scribing, MailChunks, DroppedChunks, Held;
    var s := Run(actions, streams);
    var handed := actions + Times(ScriberSend(true), |Held(s.hand)|);
    var scribed := handed + Scribing(|s.queue.pending|);
    var acts := |s.mailbox| + |Held(s.hand)| + |s.queue.pending|;
    HandOver(actions, streams);
    ScribeMany(handed, |s.queue.pending|, streams);
    ActMany(scribed, acts, streams);
    ThreeParts(actions, Times(ScriberSend(true), |Held(s.hand)|), Scribing(|s.queue.pending|), Times(RunActor, acts));
    NoMail();
    var t := Run(scribed + Times(RunActor, acts), streams);
    AllOf(s.queue.pending, Run(scribed, streams).mailbox);
    assert t.log + [] == t.log;
    FourParts(s.log, MailChunks(s.mailbox), Held(s.hand), s.queue.pending);
  }

  lemma NoMail()
    ensures MailChunks([]) == []
  {
  }

  lemma ThreeParts<T>(a: seq<T>, b: seq<T>, c: seq<T>, d: seq<T>)
    ensures a + (b + c + d) == ((a + b) + c) + d
  {
  }

  lemma FourParts<T>(a: seq<T>, b: seq<T>, c: seq<T>, d: seq<T>)
    ensures a + ((b + c) + d) == ((a + b) + c) + d
  {
  }

  lemma AllOf<S, T>(a: seq<S>, b: seq<T>)
    ensures a[|a|..] == [] && a[..|a|] == a && b[|b|..] == []
  {
  }

  // ---------------------------------------------------------------- the fanout's channel

  lemma FanOne(s: System, streams: F.Streams)
    requires s.channel != []
    ensures Next(s, RunFanout, streams).channel == s.channel[1..] && Next(s, RunFanout, streams).emitted == s.emitted
  {
    hide F.Handle, F.ReplyTo, Q.PushAll, Told;
  }

  lemma {:induction false} FanMany(actions: seq<Action>, n: nat, streams: F.Streams)
    requires n <= |Run(actions, streams).channel|
    ensures Run(actions + Times(RunFanout, n), streams).channel == Run(actions, streams).channel[n..]
    ensures Run(actions + Times(RunFanout, n), streams).emitted == Run(actions, streams).emitted
  {
    hide Run, Next;
    if n == 0 {
      assert actions + Times(RunFanout, 0) == actions;
    } else {
      FanMany(actions, n - 1, streams);
      RunTimes(actions, RunFanout, n, streams);
      FanOne(Run(actions + Times(RunFanout, n - 1), streams), streams);
    }
  }

  /** When the fanout has worked off its channel and no viewer has the slot reserved, and the
      transcript has caught up, it holds every chunk the PTY produced, in order, but for those
      that were lost. */
  lemma {:induction false} OutputArrives(actions: seq<Action>, streams: F.Streams, id: nat)
    ensures
      var fanned := actions + Times(RunFanout, |Run(actions, streams).channel|);
      var t := Run(fanned + CatchUp(Run(fanned, streams)), streams);
      && t.emitted == Run(actions, streams).emitted && Increasing(t.log)
      && (!t.fanout.viewer.Reserved? && id < |t.emitted| ==> (id in t.log <==> !Gone(t, id)))
  {
    var fanned := actions + Times(RunFanout, |Run(actions, streams).channel|);
    FanMany(actions, |Run(actions, streams).channel|, streams);
    TranscriptCatchesUp(fanned, streams);
    FlowAlways(fanned + CatchUp(Run(fanned, streams)), streams);
    hide Run, CatchUp, Flow;
    AllArrived(Run(fanned + CatchUp(Run(fanned, streams)), streams), id);
  }

  lemma AllArrived(t: System, id: nat)
    requires Flow(t) && t.channel == [] && t.mailbox == [] && t.hand == None && t.queue.pending == []
    ensures Increasing(t.log)
    ensures !t.fanout.viewer.Reserved? && id < |t.emitted| ==> (id in t.log <==> !Gone(t, id))
  {
    hide Accounts, Q.Accounted, DroppedChunks, Between;
    assert Upstream(t) == t.log + [];
    assert t.log + [] == t.log;
    LogOfAccounts(t.log, [], t.refused, DroppedChunks(t.queue.removals), |t.fanout.notified|);
    NoChunks(|t.fanout.handled|, |t.emitted|);
    if !t.fanout.viewer.Reserved? && id < |t.emitted| {
      assert t.fanout.notified + [] == t.fanout.notified;
      OnePlace(t.log, [], t.refused, DroppedChunks(t.queue.removals), |t.fanout.notified|, id);
      DroppedChunksAre(t.queue.removals, id);
    }
  }

  lemma NoChunks(a: nat, b: nat)
    requires a <= b && Between(a, b) == ChannelChunks([])
    ensures a == b
  {
  }

  // ---------------------------------------------------------------- a connection gets through

  lemma ActorAnswers(s: System, streams: F.Streams, viewer: nat)
    requires InPhase(s, viewer, Asking) || InPhase(s, viewer, Answered)
    requires s.mailbox != []
    ensures
      var t := Next(s, RunActor, streams);
      && t.mailbox == s.mailbox[1..] && t.channel == s.channel
      && (InPhase(t, viewer, Asking) || InPhase(t, viewer, Answered))
      && (s.mailbox[0] == SnapshotAsk(viewer) ==> InPhase(t, viewer, Answered))
  {
  }

  /** A connection that has asked is answered when the actor has worked off its mailbox. */
  lemma {:induction false} AskIsAnswered(actions: seq<Action>, n: nat, streams: F.Streams, viewer: nat)
    requires InPhase(Run(actions, streams), viewer, Asking)
    requires n <= |Run(actions, streams).mailbox|
    ensures
      var s, t := Run(actions, streams), Run(actions + Times(RunActor, n), streams);
      && t.mailbox == s.mailbox[n..] && t.channel == s.channel
      && (InPhase(t, viewer, Asking) || InPhase(t, viewer, Answered))
      && (n > 0 && s.mailbox[n - 1] == SnapshotAsk(viewer) ==> InPhase(t, viewer, Answered))
  {
    hide Run, Next, InPhase;
    if n == 0 {
      assert actions + Times(RunActor, 0) == actions;
    } else {
      AskIsAnswered(actions, n - 1, streams, viewer);
      RunTimes(actions, RunActor, n, streams);
      ActorAnswers(Run(actions + Times(RunActor, n - 1), streams), streams, viewer);
    }
  }

  /** The fanout works off what is in front of a connection's activation; meanwhile it waits. */
  lemma FanoutLetsWait(s: System, streams: F.Streams, viewer: nat)
    requires ChannelOk(s) && InPhase(s, viewer, Activating)
    requires |s.channel| > 1 && s.channel[|s.channel| - 1] == F.ActivateViewer(viewer)
    ensures InPhase(Next(s, RunFanout, streams), viewer, Activating)
  {
    assert s.channel[0] != F.ActivateViewer(viewer);
    hide F.Handle, F.ReplyTo, Q.PushAll;
  }

  lemma {:induction false} ActivationIsReached(actions: seq<Action>, n: nat, streams: F.Streams, viewer: nat)
    requires |Run(actions + Times(RunFanout, n), streams).fanout.grants| <= U64_MAX
    requires InPhase(Run(actions, streams), viewer, Activating)
    requires
      var channel := Run(actions, streams).channel;
      n < |channel| && channel[|channel| - 1] == F.ActivateViewer(viewer)
    ensures InPhase(Run(actions + Times(RunFanout, n), streams), viewer, Activating)
  {
    hide Run, Next, InPhase, ChannelOk;
    if n == 0 {
      assert actions + Times(RunFanout, 0) == actions;
    } else {
      var earlier := actions + Times(RunFanout, n - 1);
      RunTimes(actions, RunFanout, n, streams);
      NextGrows(Run(earlier, streams), RunFanout, streams);
      ActivationIsReached(actions, n - 1, streams, viewer);
      FanMany(actions, n - 1, streams);
      PipelineKeepsInv(earlier, streams);
      FanoutLetsWait(Run(earlier, streams), streams, viewer);
    }
  }

  lemma ActivationIsTold(s: System, streams: F.Streams, viewer: nat)
    requires Inv(s) && InPhase(s, viewer, Activating) && s.channel == [F.ActivateViewer(viewer)]
    ensures s.fanout.viewer.Reserved?
    ensures
      var t := Next(s, RunFanout, streams);
      var writes, backlog := |s.fanout.deliveries|, |s.fanout.viewer.backlog|;
      if forall i :: writes <= i < writes + backlog ==> streams(i).Wrote? then
        t.fanout.viewer == F.Active(viewer) && InPhase(t, viewer, Pumping)
      else
        t.fanout.viewer.Vacant? && InPhase(t, viewer, Refused)
  {
    assert AttachOk(s, viewer);
    Slot.ActivatedExactly(s.fanout, streams);
    hide F.Handle, F.ReplyTo, Q.PushAll, F.Sent, SnapshotOf, ChannelOk, Flow, F.Inv;
  }

  /** The steps that take a connection from its reservation to the point where the fanout gets to
      its activation, whatever is in front of it. */
  function Handshake(s: System, viewer: nat): seq<Action> {
    ([AskSnapshot(viewer)] + Times(RunActor, |s.mailbox| + 1)) +
    ([SnapshotWritten(viewer)] + Times(RunFanout, |s.channel|))
  }

  lemma HandshakeParts(actions: seq<Action>, a: Action, b: seq<Action>, c: Action, d: seq<Action>)
    ensures actions + (([a] + b) + ([c] + d)) == ((actions + [a] + b) + [c]) + d
  {
  }

  lemma AskStep(s: System, streams: F.Streams, viewer: nat)
    requires InPhase(s, viewer, Holding)
    ensures
      var t := Next(s, AskSnapshot(viewer), streams);
      InPhase(t, viewer, Asking) && t.mailbox == s.mailbox + [SnapshotAsk(viewer)] && t.channel == s.channel
  {
  }

  lemma WriteStep(s: System, streams: F.Streams, viewer: nat)
    requires InPhase(s, viewer, Answered)
    ensures
      var t := Next(s, SnapshotWritten(viewer), streams);
      InPhase(t, viewer, Activating) && t.channel == s.channel + [F.ActivateViewer(viewer)]
  {
  }

  /** A reservation is granted exactly if the slot is free when the fanout gets to it. */
  lemma {:induction false} ReserveIsAnswered(actions: seq<Action>, streams: F.Streams)
    ensures
      var asked := actions + [AskReserve] + Times(RunFanout, |Run(actions, streams).channel|);
      var u, t := Run(asked, streams), Run(asked + [RunFanout], streams);
      var viewer := |u.attaches| + 1;
      if u.fanout.viewer.Vacant? then
        |t.attaches| == viewer && InPhase(t, viewer, Holding) && Slot.HeldBy(t.fanout, Saturating(viewer))
      else
        t.attaches == u.attaches && t.fanout == u.fanout
  {
    hide Run, Next, InPhase;
    var s, ask := Run(actions, streams), actions + [AskReserve];
    RunSnoc(actions, AskReserve, streams);
    AskReserveStep(s, streams);
    FanMany(ask, |s.channel|, streams);
    LastOne(s.channel, F.ReserveViewer);
    var asked := ask + Times(RunFanout, |s.channel|);
    RunSnoc(asked, RunFanout, streams);
    AttachesAreGrants(asked, streams);
    ReserveStep(Run(asked, streams), streams);
  }

  lemma AskReserveStep(s: System, streams: F.Streams)
    ensures Next(s, AskReserve, streams).channel == s.channel + [F.ReserveViewer]
  {
  }

  /** There is one connection for every grant, and grants are numbered. */
  lemma {:induction false} AttachesAreGrants(actions: seq<Action>, streams: F.Streams)
    ensures
      var s := Run(actions, streams);
      |s.attaches| == |s.fanout.grants| && F.LeasesNumbered(s.fanout)
  {
    if actions != [] {
      hide Next, F.LeasesNumbered;
      AttachesAreGrants(actions[..|actions| - 1], streams);
      OneGrantEach(Run(actions[..|actions| - 1], streams), actions[|actions| - 1], streams);
    }
  }

  lemma OneGrantEach(s: System, action: Action, streams: F.Streams)
    requires |s.attaches| == |s.fanout.grants| && F.LeasesNumbered(s.fanout)
    ensures
      var t := Next(s, action, streams);
      |t.attaches| == |t.fanout.grants| && F.LeasesNumbered(t.fanout)
  {
    if action.RunFanout? && s.channel != [] {
      AttachesMatchGrants(s, streams);
      F.HandleNumbers(s.fanout, s.channel[0], streams);
    }
    hide F.Handle, F.ReplyTo, Q.PushAll, Told, F.LeasesNumbered;
  }

  lemma ReserveStep(s: System, streams: F.Streams)
    requires s.channel == [F.ReserveViewer] && |s.attaches| == |s.fanout.grants| && F.LeasesNumbered(s.fanout)
    ensures
      var t, viewer := Next(s, RunFanout, streams), |s.attaches| + 1;
      if s.fanout.viewer.Vacant? then
        |t.attaches| == viewer && InPhase(t, viewer, Holding) && Slot.HeldBy(t.fanout, Saturating(viewer))
      else
        t.attaches == s.attaches && t.fanout == s.fanout
  {
    hide Q.PushAll;
  }

  /** Every attach gets through, from any reachable state in which its reservation was granted: it
      still has the slot when the fanout gets to its activation, and then becomes the active viewer
      exactly if its stream takes every chunk of its backlog; if not, it is told so and the slot
      is free. */
  lemma {:induction false} AttachGetsThrough(actions: seq<Action>, streams: F.Streams, viewer: nat)
    requires InPhase(Run(actions, streams), viewer, Holding)
    requires |Run(actions + Handshake(Run(actions, streams), viewer) + [RunFanout], streams).fanout.grants| <= U64_MAX
    ensures
      var handshake := actions + Handshake(Run(actions, streams), viewer);
      var u, t := Run(handshake, streams), Run(handshake + [RunFanout], streams);
      && u.fanout.viewer.Reserved? && u.fanout.viewer.lease == viewer
      && var writes, backlog := |u.fanout.deliveries|, |u.fanout.viewer.backlog|;
         if forall i :: writes <= i < writes + backlog ==> streams(i).Wrote? then
           t.fanout.viewer == F.Active(viewer) && InPhase(t, viewer, Pumping)
         else
           t.fanout.viewer.Vacant? && InPhase(t, viewer, Refused)
  {
    hide Run, Next, InPhase, Times, Inv, AttachOk;
    var s := Run(actions, streams);
    var asked := actions + [AskSnapshot(viewer)];
    var answered := asked + Times(RunActor, |s.mailbox| + 1);
    var written := answered + [SnapshotWritten(viewer)];
    var handshake := written + Times(RunFanout, |s.channel|);
    HandshakeParts(
      actions, AskSnapshot(viewer), Times(RunActor, |s.mailbox| + 1), SnapshotWritten(viewer),
      Times(RunFanout, |s.channel|));
    RunSnoc(actions, AskSnapshot(viewer), streams);
    AskStep(s, streams, viewer);
    AskIsAnswered(asked, |s.mailbox| + 1, streams, viewer);
    RunSnoc(answered, SnapshotWritten(viewer), streams);
    WriteStep(Run(answered, streams), streams, viewer);
    RunSnoc(handshake, RunFanout, streams);
    var u := Run(handshake, streams);
    NextGrows(u, RunFanout, streams);
    ActivationIsReached(written, |s.channel|, streams, viewer);
    FanMany(written, |s.channel|, streams);
    PipelineKeepsInv(handshake, streams);
    LastOne(s.channel, F.ActivateViewer(viewer));
    WaitsWithSlot(u, viewer);
    ActivationIsTold(u, streams, viewer);
  }

  lemma LastOne<T>(s: seq<T>, last: T)
    ensures (s + [last])[|s|..] == [last]
  {
  }

  lemma WaitsWithSlot(s: System, viewer: nat)
    requires Inv(s) && InPhase(s, viewer, Activating)
    ensures s.fanout.viewer.Reserved? && s.fanout.viewer.lease == viewer
  {
    assert AttachOk(s, viewer);
  }

  // ---------------------------------------------------------------- what the environment did

  /** What the PTY produced in a run. */
  function Emissions(actions: seq<Action>): seq<seq<Byte>> {
    if actions == [] then []
    else
      var last := actions[|actions| - 1];
      var earlier := Emissions(actions[..|actions| - 1]);
      if last.Emit? then earlier + [last.bytes] else earlier
  }

  lemma EmitsOnly(s: System, action: Action, streams: F.Streams)
    ensures Next(s, action, streams).emitted == if action.Emit? then s.emitted + [action.bytes] else s.emitted
  {
    hide HandleMail, InPhase, F.Handle, F.ReplyTo, Q.PushAll, Told;
    if s.mailbox != [] {
      MailEmitsNothing(s);
    }
  }

  lemma MailEmitsNothing(s: System)
    requires s.mailbox != []
    ensures HandleMail(s).emitted == s.emitted && HandleMail(s).channel == s.channel
  {
  }

  lemma {:induction false} EmittedExactly(actions: seq<Action>, streams: F.Streams)
    ensures Run(actions, streams).emitted == Emissions(actions)
  {
    if actions != [] {
      hide Next;
      EmittedExactly(actions[..|actions| - 1], streams);
      EmitsOnly(Run(actions[..|actions| - 1], streams), actions[|actions| - 1], streams);
    }
  }

  /** How much of its snapshot a viewer got: what the one write of it did. */
  lemma {:induction false} ReplayedExactly(actions: seq<Action>, action: Action, streams: F.Streams, viewer: nat)
    requires 1 <= viewer <= |Run(actions, streams).attaches|
    ensures
      var s, s' := Run(actions, streams), Run(actions + [action], streams);
      && viewer <= |s'.attaches|
      && var replay := s'.attaches[viewer - 1].replay;
      match action
      case SnapshotWritten(v) =>
        replay == if v == viewer && InPhase(s, v, Answered) then Whole else s.attaches[viewer - 1].replay
      case SnapshotFailed(v, written) =>
        replay == if v == viewer && InPhase(s, v, Answered) then Partly(written) else s.attaches[viewer - 1].replay
      case _ => replay == s.attaches[viewer - 1].replay
  {
    RunSnoc(actions, action, streams);
    hide Run, F.Handle, F.ReplyTo, Q.PushAll;
  }

  // ---------------------------------------------------------------- or gives up the slot

  /** A connection that can give up, and how. */
  predicate CanGiveUp(s: System, action: Action) {
    match action
    case SnapshotFailed(viewer, _) => InPhase(s, viewer, Answered)
    case GiveUp(viewer) =>
      InPhase(s, viewer, Holding) || InPhase(s, viewer, Asking) || InPhase(s, viewer, Pumping) ||
      InPhase(s, viewer, Refused)
    case DetachAgain(viewer) => InPhase(s, viewer, Closing)
    case _ => false
  }

  lemma GiveUpStep(s: System, action: Action, streams: F.Streams)
    requires CanGiveUp(s, action)
    ensures
      var t := Next(s, action, streams);
      t.channel == s.channel + [F.Detach(action.viewer)] && InPhase(t, action.viewer, Closing)
  {
  }

  /** A connection that fails or ends, wherever it stands, does not have the slot any more when the
      fanout has worked off its channel. */
  lemma {:induction false} GivingUpFreesSlot(actions: seq<Action>, action: Action, streams: F.Streams)
    requires CanGiveUp(Run(actions, streams), action)
    ensures
      var left := actions + [action];
      var t := Run(left + Times(RunFanout, |Run(left, streams).channel|), streams);
      t.channel == [] && !Slot.HeldBy(t.fanout, action.viewer)
  {
    hide Run, Next, InPhase;
    var s, left := Run(actions, streams), actions + [action];
    RunSnoc(actions, action, streams);
    GiveUpStep(s, action, streams);
    var n := |s.channel|;
    FanMany(left, n, streams);
    FanMany(left, n + 1, streams);
    RunTimes(left, RunFanout, n + 1, streams);
    LastOne(s.channel, F.Detach(action.viewer));
    DetachStep(Run(left + Times(RunFanout, n), streams), action.viewer, streams);
  }

  lemma DetachStep(s: System, viewer: nat, streams: F.Streams)
    requires s.channel == [F.Detach(viewer)]
    ensures !Slot.HeldBy(Next(s, RunFanout, streams).fanout, viewer)
  {
    hide Q.PushAll;
  }
}
