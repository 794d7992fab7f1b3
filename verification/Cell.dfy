/** The `TerminalCell` actor (src/session.rs): its message handlers, one atomic step each,
    and the waiters they register and answer. */
module Cell {
  import opened Bytes
  import opened Transcript
  import opened Subscription

  datatype WorkerKind =
    | InputWriter | ViewerFanout | TranscriptScriber | OutputReader
    | ChildExitWatcher | SocketAcceptLoop | AttachConnectionPump

  datatype WorkerStop =
    | InputCommandChannelClosed | InputWriteFailed(error: string) | OutputCommandChannelClosed
    | TranscriptNoticeChannelClosed | OutputReaderFinished | OutputReadFailed(error: string)
    | OutputPortClosed | ChildExited(status: string) | ChildWaitFailed(error: string)
    | SocketAcceptFailed(error: string) | AttachConnectionClosed | AttachConnectionFailed(error: string)

  datatype Lifecycle = Started(worker: WorkerKind) | Stopped(worker: WorkerKind, reason: WorkerStop)

  /** A message to the actor. `asker` is the reply sender: absent when the message was told, not asked. */
  datatype Message =
    | Output(bytes: seq<Byte>)
    | Exited(status: string)
    | Worker(event: Lifecycle)
    | WaitText(needle: seq<Byte>, asker: Option<nat>)
    | WaitExit(asker: Option<nat>)
    | WaitWorkerStop(worker: WorkerKind, asker: Option<nat>)

  datatype TextWaiter = TextWaiter(needle: seq<Byte>, asker: nat)
  datatype WorkerWaiter = WorkerWaiter(worker: WorkerKind, asker: nat)
  datatype Reply<A> = Reply(asker: nat, answer: A)

  /** The actor's state with its transcript abstracted to the unbounded log, and the
      replies sent so far. A panicking handler stops the actor for good. */
  datatype State = State(
    log: seq<seq<Byte>>,
    workers: seq<Lifecycle>,
    textWaiters: seq<TextWaiter>,
    exitWaiters: seq<nat>,
    workerWaiters: seq<WorkerWaiter>,
    exit: Option<string>,
    textReplies: seq<Reply<bool>>,
    exitReplies: seq<Reply<string>>,
    workerReplies: seq<Reply<WorkerStop>>,
    panicked: bool)

  const START := State([], [], [], [], [], None, [], [], [], false)

  function Retained(log: seq<seq<Byte>>, capacity: nat): seq<Byte> {
    LastOf(capacity, Flatten(log))
  }

  ghost function Matched(waiters: seq<TextWaiter>, window: seq<Byte>): seq<Reply<bool>> {
    if waiters == [] then []
    else
      var w := waiters[|waiters| - 1];
      var earlier := Matched(waiters[..|waiters| - 1], window);
      if Occurs(window, w.needle) then earlier + [Reply(w.asker, true)] else earlier
  }

  ghost function Unmatched(waiters: seq<TextWaiter>, window: seq<Byte>): seq<TextWaiter> {
    if waiters == [] then []
    else
      var w := waiters[|waiters| - 1];
      var earlier := Unmatched(waiters[..|waiters| - 1], window);
      if Occurs(window, w.needle) then earlier else earlier + [w]
  }

  function ToldExit(waiters: seq<nat>, status: string): seq<Reply<string>> {
    if waiters == [] then []
    else ToldExit(waiters[..|waiters| - 1], status) + [Reply(waiters[|waiters| - 1], status)]
  }

  function ToldStop(waiters: seq<WorkerWaiter>, worker: WorkerKind, reason: WorkerStop): seq<Reply<WorkerStop>> {
    if waiters == [] then []
    else
      var w := waiters[|waiters| - 1];
      var earlier := ToldStop(waiters[..|waiters| - 1], worker, reason);
      if w.worker == worker then earlier + [Reply(w.asker, reason)] else earlier
  }

  function StillWaiting(waiters: seq<WorkerWaiter>, worker: WorkerKind): seq<WorkerWaiter> {
    if waiters == [] then []
    else
      var w := waiters[|waiters| - 1];
      var earlier := StillWaiting(waiters[..|waiters| - 1], worker);
      if w.worker == worker then earlier else earlier + [w]
  }

  /** `stopped_reason`: the newest recorded stop of a worker. */
  function LatestStop(events: seq<Lifecycle>, worker: WorkerKind): Option<WorkerStop> {
    if events == [] then None
    else
      var last := events[|events| - 1];
      if last.Stopped? && last.worker == worker then Some(last.reason)
      else LatestStop(events[..|events| - 1], worker)
  }

  ghost function Step(s: State, message: Message, capacity: nat): State {
    if s.panicked then s
    else
      match message
      case Output(bytes) =>
        var log := s.log + [bytes];
        s.(log := log,
           textReplies := s.textReplies + Matched(s.textWaiters, Retained(log, capacity)),
           textWaiters := Unmatched(s.textWaiters, Retained(log, capacity)))
      case Exited(status) =>
        s.(exit := Some(status), exitReplies := s.exitReplies + ToldExit(s.exitWaiters, status), exitWaiters := [])
      case Worker(Started(worker)) =>
        s.(workers := s.workers + [Started(worker)])
      case Worker(Stopped(worker, reason)) =>
        s.(workers := s.workers + [Stopped(worker, reason)],
           workerReplies := s.workerReplies + ToldStop(s.workerWaiters, worker, reason),
           workerWaiters := StillWaiting(s.workerWaiters, worker))
      case WaitText(needle, None) => s
      case WaitText(needle, Some(asker)) =>
        if needle == [] then s.(panicked := true)
        else if Occurs(Retained(s.log, capacity), needle) then
          s.(textReplies := s.textReplies + [Reply(asker, true)])
        else s.(textWaiters := s.textWaiters + [TextWaiter(needle, asker)])
      case WaitExit(None) => s
      case WaitExit(Some(asker)) =>
        if s.exit.Some? then s.(exitReplies := s.exitReplies + [Reply(asker, s.exit.value)])
        else s.(exitWaiters := s.exitWaiters + [asker])
      case WaitWorkerStop(worker, None) => s
      case WaitWorkerStop(worker, Some(asker)) =>
        match LatestStop(s.workers, worker)
        case Some(reason) => s.(workerReplies := s.workerReplies + [Reply(asker, reason)])
        case None => s.(workerWaiters := s.workerWaiters + [WorkerWaiter(worker, asker)])
  }

  ghost function Run(messages: seq<Message>, capacity: nat): State {
    if messages == [] then START
    else Step(Run(messages[..|messages| - 1], capacity), messages[|messages| - 1], capacity)
  }

  // ---------------------------------------------------------------- the actor

  class TerminalCell {
    const transcript: TerminalTranscript
    var subscribers: Broadcast<Delta>
    var workerSubscribers: Broadcast<Lifecycle>
    var workers: seq<Lifecycle>
    var waiters: seq<TextWaiter>
    var exitWaiters: seq<nat>
    var workerWaiters: seq<WorkerWaiter>
    var exit: Option<string>
    var textReplies: seq<Reply<bool>>
    var exitReplies: seq<Reply<string>>
    var workerReplies: seq<Reply<WorkerStop>>
    var panicked: bool

    ghost predicate Valid()
      reads this, transcript
    {
      && transcript.Valid()
      && Carries(subscribers, Broadcasts(transcript.log))
      && Carries(workerSubscribers, workers)
      && forall i :: 0 <= i < |waiters| ==> waiters[i].needle != []
    }

    ghost function View(): State
      reads this, transcript
    {
      State(transcript.log, workers, waiters, exitWaiters, workerWaiters, exit,
            textReplies, exitReplies, workerReplies, panicked)
    }

    constructor (size: TerminalSize)
      ensures Valid() && fresh(transcript) && View() == START
      ensures transcript.byteCapacity == TRANSCRIPT_SCROLLBACK_BYTE_CAPACITY
    {
      NothingCarried<Delta>();
      NothingCarried<Lifecycle>();
      hide Carries;
      transcript := new TerminalTranscript(size, TRANSCRIPT_SCROLLBACK_BYTE_CAPACITY);
      workers, waiters, exitWaiters, workerWaiters, exit := [], [], [], [], None;
      textReplies, exitReplies, workerReplies, panicked := [], [], [], false;
      subscribers, workerSubscribers := NewChannel(), NewChannel();
    }

    /** Routes one message to its handler; a panicked actor handles nothing. */
    method Handle(message: Message)
      requires Valid() && (message.Output? ==> |message.bytes| <= VEC_MAX)
      modifies this, transcript
      ensures Valid() && View() == Step(old(View()), message, transcript.byteCapacity)
    {
      hide TerminalTranscript.Valid, Retained, Occurs, LatestStop, Carries, Broadcasts;
      if panicked {
        return;
      }
      match message
      case Output(bytes) => HandleOutput(bytes);
      case Exited(status) =>
        exit := Some(status);
        NotifyExitWaiters();
      case Worker(event) => HandleWorker(event);
      case WaitText(needle, asker) => HandleWaitText(needle, asker);
      case WaitExit(asker) =>
        if asker.Some? {
          if exit.Some? {
            exitReplies := exitReplies + [Reply(asker.value, exit.value)];
          } else {
            exitWaiters := exitWaiters + [asker.value];
          }
        }
      case WaitWorkerStop(worker, asker) =>
        if asker.Some? {
          var reason := StoppedReason(worker);
          match reason
          case Some(r) => workerReplies := workerReplies + [Reply(asker.value, r)];
          case None => workerWaiters := workerWaiters + [WorkerWaiter(worker, asker.value)];
        }
    }

    method HandleOutput(bytes: seq<Byte>)
      requires Valid() && !panicked && |bytes| <= VEC_MAX
      modifies this, transcript
      ensures Valid() && View() == Step(old(View()), Output(bytes), transcript.byteCapacity)
    {
      hide TerminalTranscript.Valid, Retained, Occurs, Matched, Unmatched, Carries, Broadcasts;
      BroadcastsSnoc(transcript.log, bytes);
      SendCarries(subscribers, Broadcasts(transcript.log), Delta(Saturating(|transcript.log| + 1), bytes));
      var delta := transcript.Append(bytes);
      subscribers := Send(subscribers, delta);
      NotifyWaiters();
    }

    method NotifyWaiters()
      requires Valid()
      modifies this`waiters, this`textReplies
      ensures Valid()
      ensures textReplies == old(textReplies) + Matched(old(waiters), Retained(transcript.log, transcript.byteCapacity))
      ensures waiters == Unmatched(old(waiters), Retained(transcript.log, transcript.byteCapacity))
    {
      hide TerminalTranscript.Valid, Occurs, Carries, Broadcasts;
      ghost var window := Retained(transcript.log, transcript.byteCapacity);
      var waiting: seq<TextWaiter> := [];
      for i := 0 to |waiters|
        invariant waiters == old(waiters)
        invariant textReplies == old(textReplies) + Matched(waiters[..i], window)
        invariant waiting == Unmatched(waiters[..i], window)
        invariant forall j :: 0 <= j < |waiting| ==> waiting[j].needle != []
      {
        assert waiters[..i + 1][..i] == waiters[..i];
        var matches := transcript.Contains(waiters[i].needle);
        if matches {
          textReplies := textReplies + [Reply(waiters[i].asker, true)];
        } else {
          waiting := waiting + [waiters[i]];
        }
      }
      assert waiters[..|waiters|] == waiters;
      waiters := waiting;
    }

    method NotifyExitWaiters()
      modifies this`exitWaiters, this`exitReplies
      ensures exit.None? ==> exitWaiters == old(exitWaiters) && exitReplies == old(exitReplies)
      ensures exit.Some? ==>
        && exitWaiters == []
        && exitReplies == old(exitReplies) + ToldExit(old(exitWaiters), exit.value)
    {
      if exit.None? {
        return;
      }
      for i := 0 to |exitWaiters|
        invariant exitWaiters == old(exitWaiters)
        invariant exitReplies == old(exitReplies) + ToldExit(exitWaiters[..i], exit.value)
      {
        assert exitWaiters[..i + 1][..i] == exitWaiters[..i];
        exitReplies := exitReplies + [Reply(exitWaiters[i], exit.value)];
      }
      assert exitWaiters[..|exitWaiters|] == exitWaiters;
      exitWaiters := [];
    }

    method HandleWorker(event: Lifecycle)
      requires Valid() && !panicked
      modifies this
      ensures Valid() && View() == Step(old(View()), Worker(event), transcript.byteCapacity)
    {
      hide TerminalTranscript.Valid, Carries, Broadcasts, ToldStop, StillWaiting;
      if event.Stopped? {
        NotifyWorkerWaiters(event.worker, event.reason);
      }
      SendCarries(workerSubscribers, workers, event);
      workers := workers + [event];
      workerSubscribers := Send(workerSubscribers, event);
    }

    method NotifyWorkerWaiters(worker: WorkerKind, reason: WorkerStop)
      modifies this`workerWaiters, this`workerReplies
      ensures workerReplies == old(workerReplies) + ToldStop(old(workerWaiters), worker, reason)
      ensures workerWaiters == StillWaiting(old(workerWaiters), worker)
    {
      var waiting: seq<WorkerWaiter> := [];
      for i := 0 to |workerWaiters|
        invariant workerWaiters == old(workerWaiters)
        invariant workerReplies == old(workerReplies) + ToldStop(workerWaiters[..i], worker, reason)
        invariant waiting == StillWaiting(workerWaiters[..i], worker)
      {
        assert workerWaiters[..i + 1][..i] == workerWaiters[..i];
        if workerWaiters[i].worker == worker {
          workerReplies := workerReplies + [Reply(workerWaiters[i].asker, reason)];
        } else {
          waiting := waiting + [workerWaiters[i]];
        }
      }
      assert workerWaiters[..|workerWaiters|] == workerWaiters;
      workerWaiters := waiting;
    }

    method HandleWaitText(needle: seq<Byte>, asker: Option<nat>)
      requires Valid() && !panicked
      modifies this
      ensures Valid() && View() == Step(old(View()), WaitText(needle, asker), transcript.byteCapacity)
    {
      hide TerminalTranscript.Valid, Occurs, Carries, Broadcasts;
      if asker.Some? {
        if needle == [] {
          panicked := true;
          return;
        }
        var found := transcript.Contains(needle);
        if found {
          textReplies := textReplies + [Reply(asker.value, true)];
        } else {
          waiters := waiters + [TextWaiter(needle, asker.value)];
        }
      }
    }

    /** Replay and receiver come from one handler: the receiver is behind nothing that the
        log holds, and ahead of nothing. */
    method SubscribeTranscript(after: nat) returns (subscription: Subscriber<Delta>)
      requires Valid()
      ensures fresh(subscription) && subscription.replay == NewerThan(transcript.deltas, after)
      ensures subscription.View(Broadcasts(transcript.log), subscribers) == Subscribed(Broadcasts(transcript.log))
    {
      var replay := transcript.ReplayAfter(after);
      subscription := new Subscriber(replay, subscribers);
    }

    method SubscribeWorkerLifecycle() returns (subscription: Subscriber<Lifecycle>)
      requires Valid()
      ensures fresh(subscription) && subscription.replay == workers
      ensures subscription.View(workers, workerSubscribers) == Subscribed(workers)
    {
      subscription := new Subscriber(workers, workerSubscribers);
    }

    /** `events.iter().rev().find_map(..)`. */
    method StoppedReason(worker: WorkerKind) returns (reason: Option<WorkerStop>)
      ensures reason == LatestStop(workers, worker)
    {
      var n := |workers|;
      assert workers[..n] == workers;
      while n > 0
        invariant n <= |workers|
        invariant LatestStop(workers, worker) == LatestStop(workers[..n], worker)
      {
        assert workers[..n][..n - 1] == workers[..n - 1];
        n := n - 1;
        if workers[n].Stopped? && workers[n].worker == worker {
          return Some(workers[n].reason);
        }
      }
      reason := None;
    }
  }
}
