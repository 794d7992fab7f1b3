/** The output pipeline as one concurrent system: the PTY reader, the fanout, the notice
    queue, the scriber, the actor's mailbox and transcript (src/session.rs), and any number
    of attach connections (src/daemon.rs), each taking one atomic step at a time.
    A chunk of output is named by its number: chunk `i` is the `i`-th one the PTY produced. */
module Pipeline {
  import opened Bytes
  import opened Flush
  import Q = NoticeQueue
  import F = Fanout

  datatype Mail = Output(chunk: nat) | SnapshotAsk(viewer: nat)

  /** Where one attach connection stands; it exists once its reservation was granted. */
  datatype Phase =
    | Holding      // lease granted, accept reply not yet written
    | Asking       // snapshot request in the mailbox
    | Answered     // snapshot received, being written to the viewer
    | Activating   // snapshot written, activation sent to the fanout
    | Pumping      // activation acknowledged
    | Refused      // activation failed
    | Closing      // detach sent, once or twice

  /** How much of the snapshot reached the viewer. */
  datatype Replay = NotYet | Partly(written: nat) | Whole

  /** `snapshot`: the chunks in the transcript that the actor answered with. */
  datatype Attach = Attach(phase: Phase, snapshot: Option<seq<nat>>, replay: Replay)

  datatype System = System(
    emitted: seq<seq<Byte>>,
    channel: seq<F.Command<nat>>,
    fanout: F.State<nat>,
    queue: Q.Queue<nat>,
    hand: Option<nat>,
    mailbox: seq<Mail>,
    log: seq<nat>,
    refused: seq<nat>,
    attaches: seq<Attach>)

  function Start(): System {
    System([], [], F.Start(), Q.Empty(Q.TRANSCRIPT_NOTICE_QUEUE_CAPACITY), None, [], [], [], [])
  }

  datatype Action =
    | Emit(bytes: seq<Byte>)
    | AskReserve
    | RunFanout
    | ScriberPop
    | ScriberSend(accepted: bool)
    | RunActor
    | AskSnapshot(viewer: nat)
    | SnapshotWritten(viewer: nat)
    | SnapshotFailed(viewer: nat, written: nat)
    | GiveUp(viewer: nat)
    | DetachAgain(viewer: nat)

  function MailChunks(mailbox: seq<Mail>): seq<nat> {
    if mailbox == [] then []
    else
      var last := mailbox[|mailbox| - 1];
      var earlier := MailChunks(mailbox[..|mailbox| - 1]);
      if last.Output? then earlier + [last.chunk] else earlier
  }

  function ChannelChunks(channel: seq<F.Command<nat>>): seq<nat> {
    if channel == [] then []
    else
      var last := channel[|channel| - 1];
      var earlier := ChannelChunks(channel[..|channel| - 1]);
      if last.Bytes? then earlier + [last.chunk] else earlier
  }

  function DroppedChunks(removals: seq<Q.Removal<nat>>): seq<nat> {
    if removals == [] then []
    else
      var last := removals[|removals| - 1];
      var earlier := DroppedChunks(removals[..|removals| - 1]);
      if last.Dropped? then earlier + [last.notice] else earlier
  }

  function Held(hand: Option<nat>): seq<nat> {
    if hand.Some? then [hand.value] else []
  }

  predicate InPhase(s: System, viewer: nat, phase: Phase) {
    1 <= viewer <= |s.attaches| && s.attaches[viewer - 1].phase == phase
  }

  function Moved(s: System, viewer: nat, attach: Attach): System
    requires 1 <= viewer <= |s.attaches|
  {
    s.(attaches := s.attaches[viewer - 1 := attach])
  }

  function SendDetach(s: System, viewer: nat): System {
    s.(channel := s.channel + [F.Detach(viewer)])
  }

  /** What the fanout's answer does to the connection that waits for it. */
  function Told(attaches: seq<Attach>, command: F.Command<nat>, reply: F.Reply): seq<Attach> {
    match command
    case ReserveViewer => if reply.Granted? then attaches + [Attach(Holding, None, NotYet)] else attaches
    case ActivateViewer(viewer) =>
      if !(1 <= viewer <= |attaches|) then attaches
      else attaches[viewer - 1 := attaches[viewer - 1].(phase := if reply.Activated? then Pumping else Refused)]
    case _ => attaches
  }

  function HandleCommand(s: System, streams: F.Streams): System
    requires s.channel != []
  {
    var command := s.channel[0];
    var fanout := F.Handle(s.fanout, command, streams);
    s.(channel := s.channel[1..],
       fanout := fanout,
       queue := Q.PushAll(s.queue, fanout.notified[Min(|s.fanout.notified|, |fanout.notified|)..]),
       attaches := Told(s.attaches, command, F.ReplyTo(s.fanout, command, streams)))
  }

  function HandleMail(s: System): System
    requires s.mailbox != []
  {
    var t := s.(mailbox := s.mailbox[1..]);
    match s.mailbox[0]
    case Output(chunk) => t.(log := s.log + [chunk])
    case SnapshotAsk(viewer) =>
      if !InPhase(s, viewer, Asking) then t
      else Moved(t, viewer, s.attaches[viewer - 1].(phase := Answered, snapshot := Some(s.log)))
  }

  /** One step of one process; an action whose process is not ready for it changes nothing. */
  function Next(s: System, action: Action, streams: F.Streams): System {
    match action
    case Emit(bytes) =>
      s.(emitted := s.emitted + [bytes], channel := s.channel + [F.Bytes(|s.emitted|)])
    case AskReserve => s.(channel := s.channel + [F.ReserveViewer])
    case RunFanout => if s.channel == [] then s else HandleCommand(s, streams)
    case ScriberPop =>
      if s.hand.Some? || s.queue.pending == [] then s
      else s.(hand := Some(s.queue.pending[0]), queue := Q.Pop(s.queue))
    case ScriberSend(accepted) =>
      if s.hand.None? then s
      else if accepted then s.(hand := None, mailbox := s.mailbox + [Output(s.hand.value)])
      else s.(hand := None, refused := s.refused + [s.hand.value])
    case RunActor => if s.mailbox == [] then s else HandleMail(s)
    case AskSnapshot(viewer) =>
      if !InPhase(s, viewer, Holding) then s
      else Moved(s, viewer, s.attaches[viewer - 1].(phase := Asking)).(mailbox := s.mailbox + [SnapshotAsk(viewer)])
    case SnapshotWritten(viewer) =>
      if !InPhase(s, viewer, Answered) then s
      else Moved(s, viewer, s.attaches[viewer - 1].(phase := Activating, replay := Whole))
           .(channel := s.channel + [F.ActivateViewer(viewer)])
    case SnapshotFailed(viewer, written) =>
      if !InPhase(s, viewer, Answered) then s
      else SendDetach(Moved(s, viewer, s.attaches[viewer - 1].(phase := Closing, replay := Partly(written))), viewer)
    case GiveUp(viewer) =>
      if !(InPhase(s, viewer, Holding) || InPhase(s, viewer, Asking) ||
           InPhase(s, viewer, Pumping) || InPhase(s, viewer, Refused)) then s
      else SendDetach(Moved(s, viewer, s.attaches[viewer - 1].(phase := Closing)), viewer)
    case DetachAgain(viewer) =>
      if !InPhase(s, viewer, Closing) then s else SendDetach(s, viewer)
  }

  function Run(actions: seq<Action>, streams: F.Streams): System {
    if actions == [] then Start()
    else Next(Run(actions[..|actions| - 1], streams), actions[|actions| - 1], streams)
  }

  lemma RunSnoc(actions: seq<Action>, action: Action, streams: F.Streams)
    ensures Run(actions + [action], streams) == Next(Run(actions, streams), action, streams)
  {
    assert (actions + [action])[..|actions|] == actions;
  }

  // ---------------------------------------------------------------- sequences of chunk numbers

  ghost predicate Increasing(s: seq<nat>) {
    forall i, j :: 0 <= i < j < |s| ==> s[i] < s[j]
  }

  ghost predicate Below(s: seq<nat>, n: nat) {
    forall i :: 0 <= i < |s| ==> s[i] < n
  }

  function Between(a: nat, b: nat): (r: seq<nat>)
    ensures |r| == if a <= b then b - a else 0
    ensures forall i :: 0 <= i < |r| ==> r[i] == a + i
  {
    if a <= b then seq(b - a, i => a + i) else []
  }

  /** `up` holds chunks below `k` in order, and every chunk below `k` is in exactly one of
      the three places. */
  ghost predicate Accounts(up: seq<nat>, refused: seq<nat>, dropped: seq<nat>, k: nat) {
    && Increasing(up)
    && Below(up, k)
    && multiset(up) + multiset(refused) + multiset(dropped) == multiset(Between(0, k))
  }

  function Upstream(s: System): seq<nat> {
    s.log + MailChunks(s.mailbox) + Held(s.hand) + s.queue.pending
  }

  // ---------------------------------------------------------------- the invariant

  /** Where every chunk is: the channel and the fanout hold the newest ones, complete and in
      order; the transcript side accounts for all the others. */
  ghost predicate Flow(s: System) {
    && F.Conserved(s.fanout)
    && |s.fanout.handled| <= |s.emitted|
    && s.fanout.handled == Between(0, |s.fanout.handled|)
    && ChannelChunks(s.channel) == Between(|s.fanout.handled|, |s.emitted|)
    && s.queue.capacity > 0 && Q.Accounted(s.queue) && s.queue.pushed == s.fanout.notified
    && Accounts(Upstream(s), s.refused, DroppedChunks(s.queue.removals), |s.fanout.notified|)
  }

  predicate Waiting(phase: Phase) {
    phase.Holding? || phase.Asking? || phase.Answered? || phase.Activating?
  }

  /** A snapshot shows chunks from before the reservation only, in order. */
  ghost predicate SnapshotOf(log: seq<nat>, reserved: nat) {
    Increasing(log) && Below(log, reserved)
  }

  ghost predicate AttachOk(s: System, n: nat)
    requires 1 <= n <= |s.attaches| == |s.fanout.grants|
  {
    var a := s.attaches[n - 1];
    && (Waiting(a.phase) ==> s.fanout.viewer.Reserved? && s.fanout.viewer.lease == n)
    && (a.phase.Answered? || a.phase.Activating? || a.phase.Pumping? || a.phase.Refused? ==> a.snapshot.Some?)
    && (a.phase.Activating? || a.phase.Pumping? || a.phase.Refused? ==> a.replay.Whole?)
    && (a.phase.Holding? || a.phase.Asking? || a.phase.Answered? ==> a.replay.NotYet?)
    && (a.replay.Whole? ==> a.snapshot.Some?)
    && (F.Sent(s.fanout.deliveries, n) != [] || s.fanout.viewer == F.Active(n) ==> a.replay.Whole?)
    && (a.snapshot.Some? ==> SnapshotOf(a.snapshot.value, s.fanout.grants[n - 1]))
  }

  /** A command in the channel belongs to a connection that waits for it or has closed. */
  ghost predicate Pertinent(attaches: seq<Attach>, command: F.Command<nat>) {
    match command
    case ActivateViewer(n) => 1 <= n <= |attaches| && attaches[n - 1].phase.Activating?
    case Detach(n) => 1 <= n <= |attaches| && attaches[n - 1].phase.Closing?
    case _ => true
  }

  ghost predicate ChannelOk(s: System) {
    && (forall i :: 0 <= i < |s.channel| ==> Pertinent(s.attaches, s.channel[i]))
    && (forall i, j :: 0 <= i < j < |s.channel| && s.channel[i].ActivateViewer? ==> s.channel[i] != s.channel[j])
  }

  ghost predicate Inv(s: System) {
    && Flow(s)
    && F.Inv(s.fanout)
    && |s.attaches| == |s.fanout.grants|
    && (forall n :: 1 <= n <= |s.attaches| ==> AttachOk(s, n))
    && ChannelOk(s)
  }

  // ---------------------------------------------------------------- accounting steps

  lemma {:induction false} MailCons(mail: Mail, mailbox: seq<Mail>)
    ensures MailChunks([mail] + mailbox) ==
            if mail.Output? then [mail.chunk] + MailChunks(mailbox) else MailChunks(mailbox)
    decreases |mailbox|
  {
    if mailbox == [] {
      assert [mail][..0] == [] && [mail] + mailbox == [mail];
    } else {
      var init, last := mailbox[..|mailbox| - 1], mailbox[|mailbox| - 1];
      MailCons(mail, init);
      assert ([mail] + mailbox)[..|mailbox|] == [mail] + init;
    }
  }

  lemma MailSnoc(mailbox: seq<Mail>, mail: Mail)
    ensures MailChunks(mailbox + [mail]) ==
            if mail.Output? then MailChunks(mailbox) + [mail.chunk] else MailChunks(mailbox)
  {
    assert (mailbox + [mail])[..|mailbox|] == mailbox;
  }

  lemma {:induction false} ChannelCons(command: F.Command<nat>, channel: seq<F.Command<nat>>)
    ensures ChannelChunks([command] + channel) ==
            if command.Bytes? then [command.chunk] + ChannelChunks(channel) else ChannelChunks(channel)
    decreases |channel|
  {
    if channel == [] {
      assert [command][..0] == [] && [command] + channel == [command];
    } else {
      var init, last := channel[..|channel| - 1], channel[|channel| - 1];
      ChannelCons(command, init);
      assert ([command] + channel)[..|channel|] == [command] + init;
    }
  }

  lemma ChannelSnoc(channel: seq<F.Command<nat>>, command: F.Command<nat>)
    ensures ChannelChunks(channel + [command]) ==
            if command.Bytes? then ChannelChunks(channel) + [command.chunk] else ChannelChunks(channel)
  {
    assert (channel + [command])[..|channel|] == channel;
  }

  lemma DroppedSnoc(removals: seq<Q.Removal<nat>>, removal: Q.Removal<nat>)
    ensures DroppedChunks(removals + [removal]) ==
            if removal.Dropped? then DroppedChunks(removals) + [removal.notice] else DroppedChunks(removals)
  {
    assert (removals + [removal])[..|removals|] == removals;
  }

  /** Leaving one chunk out of `up` and adding it to the lost ones keeps the accounts. */
  lemma LoseOne(before: seq<nat>, chunk: nat, after: seq<nat>, refused: seq<nat>, dropped: seq<nat>, k: nat)
    requires Accounts(before + [chunk] + after, refused, dropped, k)
    ensures Accounts(before + after, refused + [chunk], dropped, k)
    ensures Accounts(before + after, refused, dropped + [chunk], k)
  {
    var up, left := before + [chunk] + after, before + after;
    assert forall i :: 0 <= i < |left| ==> left[i] == up[if i < |before| then i else i + 1];
  }

  /** The next chunk number joins at the end. */
  lemma GainOne(up: seq<nat>, refused: seq<nat>, dropped: seq<nat>, k: nat)
    requires Accounts(up, refused, dropped, k)
    ensures Accounts(up + [k], refused, dropped, k + 1)
  {
    assert Between(0, k + 1) == Between(0, k) + [k];
  }

  lemma PushAccounts(front: seq<nat>, queue: Q.Queue<nat>, refused: seq<nat>, k: nat)
    requires queue.capacity > 0 && Q.Accounted(queue)
    requires Accounts(front + queue.pending, refused, DroppedChunks(queue.removals), k)
    ensures
      var pushed := Q.Push(queue, k);
      && pushed.capacity == queue.capacity && Q.Accounted(pushed) && pushed.pushed == queue.pushed + [k]
      && Accounts(front + pushed.pending, refused, DroppedChunks(pushed.removals), k + 1)
  {
    hide Accounts, Q.Accounted, DroppedChunks;
    Q.StepKeepsAccounts(queue, Q.DoPush(k));
    var pushed := Q.Push(queue, k);
    if |queue.pending| >= queue.capacity && queue.pending != [] {
      var oldest, rest := queue.pending[0], queue.pending[1..];
      assert front + queue.pending == front + [oldest] + rest;
      DroppedSnoc(queue.removals, Q.Dropped(oldest));
      LoseOne(front, oldest, rest, refused, DroppedChunks(queue.removals), k);
      GainOne(front + rest, refused, DroppedChunks(queue.removals) + [oldest], k);
      assert front + rest + [k] == front + (rest + [k]);
    } else {
      GainOne(front + queue.pending, refused, DroppedChunks(queue.removals), k);
      assert front + queue.pending + [k] == front + (queue.pending + [k]);
    }
  }

  lemma {:induction false} PushAllAccounts(front: seq<nat>, queue: Q.Queue<nat>, refused: seq<nat>, k: nat, end: nat)
    requires k <= end
    requires queue.capacity > 0 && Q.Accounted(queue)
    requires Accounts(front + queue.pending, refused, DroppedChunks(queue.removals), k)
    ensures
      var pushed := Q.PushAll(queue, Between(k, end));
      && pushed.capacity == queue.capacity && Q.Accounted(pushed) && pushed.pushed == queue.pushed + Between(k, end)
      && Accounts(front + pushed.pending, refused, DroppedChunks(pushed.removals), end)
    decreases end
  {
    hide Accounts, Q.Accounted, DroppedChunks;
    if k == end {
      assert Between(k, end) == [];
    } else {
      var chunks := Between(k, end);
      assert chunks[..|chunks| - 1] == Between(k, end - 1);
      PushAllAccounts(front, queue, refused, k, end - 1);
      PushAccounts(front, Q.PushAll(queue, Between(k, end - 1)), refused, end - 1);
    }
  }

  // ---------------------------------------------------------------- flow is kept

  lemma EmitKeepsFlow(s: System, bytes: seq<Byte>, streams: F.Streams)
    requires Flow(s)
    ensures Flow(Next(s, Emit(bytes), streams))
  {
    hide F.Conserved, Q.Accounted, Accounts;
    ChannelSnoc(s.channel, F.Bytes(|s.emitted|));
    assert Between(|s.fanout.handled|, |s.emitted| + 1) == Between(|s.fanout.handled|, |s.emitted|) + [|s.emitted|];
  }

  /** What one command does to the numbers: the fanout handles chunks in order and notifies
      the transcript of a next run of them. */
  lemma HandledInOrder(s: System, streams: F.Streams)
    requires Flow(s) && s.channel != []
    ensures
      var f, f' := s.fanout, F.Handle(s.fanout, s.channel[0], streams);
      && F.Conserved(f')
      && |f'.handled| <= |s.emitted| && f'.handled == Between(0, |f'.handled|)
      && ChannelChunks(s.channel[1..]) == Between(|f'.handled|, |s.emitted|)
      && |f.notified| <= |f'.notified| && f.notified == f'.notified[..|f.notified|]
      && f'.notified[|f.notified|..] == Between(|f.notified|, |f'.notified|)
  {
    var command, rest := s.channel[0], s.channel[1..];
    var f, f' := s.fanout, F.Handle(s.fanout, command, streams);
    hide Q.Accounted, Accounts, ChannelChunks, F.Handle, F.Conserved, Between;
    assert s.channel == [command] + rest;
    ChannelCons(command, rest);
    ChannelAdvances(f, command, ChannelChunks(rest), |s.emitted|, streams);
    F.HandleConserves(f, command, streams);
    F.NotifiedGrows(f, command, streams);
    assert f.notified == f'.notified[..|f.notified|];
    NotifiedRun(f', |f.notified|);
  }

  lemma ChannelAdvances(f: F.State<nat>, command: F.Command<nat>, rest: seq<nat>, n: nat, streams: F.Streams)
    requires |f.handled| <= n && f.handled == Between(0, |f.handled|)
    requires (if command.Bytes? then [command.chunk] + rest else rest) == Between(|f.handled|, n)
    ensures
      var f' := F.Handle(f, command, streams);
      |f'.handled| <= n && f'.handled == Between(0, |f'.handled|) && rest == Between(|f'.handled|, n)
  {
    hide Flushed, AllWrote;
    if command.Bytes? {
      var h := |f.handled|;
      NextOfRun(command.chunk, rest, h, n);
      assert Between(0, h + 1) == Between(0, h) + [h];
    }
  }

  lemma NotifiedRun(f: F.State<nat>, k: nat)
    requires F.Conserved(f) && f.handled == Between(0, |f.handled|) && k <= |f.notified|
    ensures f.notified[k..] == Between(k, |f.notified|)
  {
    PrefixOfRun(f.notified, F.Backlog(f.viewer), |f.handled|, k);
  }

  lemma NextOfRun(first: nat, rest: seq<nat>, a: nat, b: nat)
    requires [first] + rest == Between(a, b)
    ensures first == a < b && rest == Between(a + 1, b)
  {
    assert Between(a, b)[0] == first && Between(a, b)[1..] == rest;
  }

  lemma PrefixOfRun(notified: seq<nat>, backlog: seq<nat>, h: nat, k: nat)
    requires notified + backlog == Between(0, h) && k <= |notified|
    ensures notified[k..] == Between(k, |notified|)
  {
    assert notified == Between(0, h)[..|notified|];
  }

  lemma FanoutKeepsFlow(s: System, streams: F.Streams)
    requires Flow(s) && s.channel != []
    ensures Flow(HandleCommand(s, streams))
  {
    hide F.Conserved, Q.Accounted, Accounts, ChannelChunks, MailChunks, DroppedChunks,
         F.Handle, Q.PushAll, Told, F.ReplyTo, Between;
    HandledInOrder(s, streams);
    var s' := HandleCommand(s, streams);
    var f, f' := s.fanout, s'.fanout;
    var front := s.log + MailChunks(s.mailbox) + Held(s.hand);
    assert s'.queue == Q.PushAll(s.queue, Between(|f.notified|, |f'.notified|));
    PushAllAccounts(front, s.queue, s.refused, |f.notified|, |f'.notified|);
    assert f.notified + f'.notified[|f.notified|..] == f'.notified;
    assert Upstream(s') == front + s'.queue.pending;
  }

  lemma PopKeepsFlow(s: System, streams: F.Streams)
    requires Flow(s)
    ensures Flow(Next(s, ScriberPop, streams))
  {
    hide F.Conserved, Q.Accounted, Accounts, ChannelChunks, MailChunks, DroppedChunks;
    if s.hand.None? && s.queue.pending != [] {
      Q.StepKeepsAccounts(s.queue, Q.DoPop);
      DroppedSnoc(s.queue.removals, Q.Popped(s.queue.pending[0]));
      assert Upstream(Next(s, ScriberPop, streams)) == Upstream(s);
    }
  }

  lemma SendKeepsFlow(s: System, accepted: bool, streams: F.Streams)
    requires Flow(s)
    ensures Flow(Next(s, ScriberSend(accepted), streams))
  {
    hide F.Conserved, Q.Accounted, Accounts, ChannelChunks, MailChunks, DroppedChunks;
    if s.hand.Some? {
      var chunk, mail, pending := s.hand.value, MailChunks(s.mailbox), s.queue.pending;
      MailSnoc(s.mailbox, Output(chunk));
      HandPasses(s.log, mail, chunk, pending);
      if !accepted {
        LoseOne(s.log + mail, chunk, pending, s.refused, DroppedChunks(s.queue.removals), |s.fanout.notified|);
      }
    }
  }

  lemma HandPasses(log: seq<nat>, mail: seq<nat>, chunk: nat, pending: seq<nat>)
    ensures log + (mail + [chunk]) + [] + pending == log + mail + [chunk] + pending
    ensures log + mail + [] + pending == log + mail + pending
  {
  }

  lemma MailPasses(log: seq<nat>, chunk: nat, rest: seq<nat>, hand: seq<nat>, pending: seq<nat>)
    ensures (log + [chunk]) + rest + hand + pending == log + ([chunk] + rest) + hand + pending
  {
  }

  lemma ActorKeepsFlow(s: System, streams: F.Streams)
    requires Flow(s)
    ensures Flow(Next(s, RunActor, streams))
  {
    hide F.Conserved, Q.Accounted, Accounts, ChannelChunks, MailChunks, DroppedChunks, InPhase;
    if s.mailbox != [] {
      var mail, rest := s.mailbox[0], s.mailbox[1..];
      MailCons(mail, rest);
      assert s.mailbox == [mail] + rest;
      if mail.Output? {
        MailPasses(s.log, mail.chunk, MailChunks(rest), Held(s.hand), s.queue.pending);
      }
      assert Upstream(Next(s, RunActor, streams)) == Upstream(s);
    }
  }

  /** The attach connections only add asks, which carry no chunk. */
  lemma AttachKeepsFlow(s: System, action: Action, streams: F.Streams)
    requires Flow(s)
    requires action.AskReserve? || action.AskSnapshot? || action.SnapshotWritten? || action.SnapshotFailed? ||
             action.GiveUp? || action.DetachAgain?
    ensures Flow(Next(s, action, streams))
  {
    hide F.Conserved, Q.Accounted, Accounts, ChannelChunks, MailChunks, DroppedChunks, InPhase;
    match action
    case AskReserve => ChannelSnoc(s.channel, F.ReserveViewer);
    case AskSnapshot(viewer) => MailSnoc(s.mailbox, SnapshotAsk(viewer));
    case SnapshotWritten(viewer) => ChannelSnoc(s.channel, F.ActivateViewer(viewer));
    case SnapshotFailed(viewer, _) => ChannelSnoc(s.channel, F.Detach(viewer));
    case GiveUp(viewer) => ChannelSnoc(s.channel, F.Detach(viewer));
    case DetachAgain(viewer) => ChannelSnoc(s.channel, F.Detach(viewer));
  }

  lemma {:induction false} NextKeepsFlow(s: System, action: Action, streams: F.Streams)
    requires Flow(s)
    ensures Flow(Next(s, action, streams))
  {
    hide Flow, F.Handle;
    match action
    case Emit(bytes) => EmitKeepsFlow(s, bytes, streams);
    case RunFanout => if s.channel != [] { FanoutKeepsFlow(s, streams); }
    case ScriberPop => PopKeepsFlow(s, streams);
    case ScriberSend(accepted) => SendKeepsFlow(s, accepted, streams);
    case RunActor => ActorKeepsFlow(s, streams);
    case _ => AttachKeepsFlow(s, action, streams);
  }

  /** In every reachable state, without any bound. */
  lemma {:induction false} FlowAlways(actions: seq<Action>, streams: F.Streams)
    ensures Flow(Run(actions, streams))
  {
    if actions == [] {
      assert Between(0, 0) == [];
    } else {
      hide Flow, Next;
      FlowAlways(actions[..|actions| - 1], streams);
      NextKeepsFlow(Run(actions[..|actions| - 1], streams), actions[|actions| - 1], streams);
    }
  }
}
