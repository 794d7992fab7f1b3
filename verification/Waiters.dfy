/** What the actor promises the askers that wait on it, over every run of messages. */
module Waiters {
  import opened Bytes
  import opened Transcript
  import opened Cell

  /** The PTY reader's buffer: no `Output` carries more bytes (src/session.rs:1487). */
  const READ_BUFFER: nat := 8192

  function AskerOf(message: Message): Option<nat> {
    match message
    case WaitText(_, asker) => asker
    case WaitExit(asker) => asker
    case WaitWorkerStop(_, asker) => asker
    case _ => None
  }

  /** Every ask owns a reply port of its own. */
  ghost predicate Fresh(asker: nat, messages: seq<Message>) {
    forall i :: 0 <= i < |messages| ==> AskerOf(messages[i]) != Some(asker)
  }

  ghost predicate ChunksWithin(bound: nat, messages: seq<Message>) {
    forall i :: 0 <= i < |messages| && messages[i].Output? ==> |messages[i].bytes| <= bound
  }

  function Outputs(messages: seq<Message>): seq<seq<Byte>> {
    if messages == [] then []
    else
      var last := messages[|messages| - 1];
      var earlier := Outputs(messages[..|messages| - 1]);
      if last.Output? then earlier + [last.bytes] else earlier
  }

  /** The newest exit among some messages. */
  function LastExit(messages: seq<Message>): Option<string> {
    if messages == [] then None
    else
      var last := messages[|messages| - 1];
      if last.Exited? then Some(last.status) else LastExit(messages[..|messages| - 1])
  }

  function Lifecycles(messages: seq<Message>): seq<Lifecycle> {
    if messages == [] then []
    else
      var last := messages[|messages| - 1];
      var earlier := Lifecycles(messages[..|messages| - 1]);
      if last.Worker? then earlier + [last.event] else earlier
  }

  /** The newest stop of a worker among some messages. */
  function LastStop(messages: seq<Message>, worker: WorkerKind): Option<WorkerStop> {
    if messages == [] then None
    else
      var last := messages[|messages| - 1];
      if last.Worker? && last.event.Stopped? && last.event.worker == worker then Some(last.event.reason)
      else LastStop(messages[..|messages| - 1], worker)
  }

  /** The answers one asker got. */
  function Answers<A>(replies: seq<Reply<A>>, asker: nat): seq<A> {
    if replies == [] then []
    else
      var last := replies[|replies| - 1];
      var earlier := Answers(replies[..|replies| - 1], asker);
      if last.asker == asker then earlier + [last.answer] else earlier
  }

  lemma RunSnoc(messages: seq<Message>, message: Message, capacity: nat)
    ensures Run(messages + [message], capacity) == Step(Run(messages, capacity), message, capacity)
  {
    assert (messages + [message])[..|messages|] == messages;
  }

  lemma {:induction false} AnswersConcat<A>(a: seq<Reply<A>>, b: seq<Reply<A>>, asker: nat)
    ensures Answers(a + b, asker) == Answers(a, asker) + Answers(b, asker)
    decreases |b|
  {
    if b == [] {
      assert a + b == a;
    } else {
      AnswersConcat(a, b[..|b| - 1], asker);
      assert (a + b)[..|a + b| - 1] == a + b[..|b| - 1];
    }
  }

  lemma AnswersOne<A>(replies: seq<Reply<A>>, reply: Reply<A>, asker: nat)
    ensures Answers(replies + [reply], asker) ==
            if reply.asker == asker then Answers(replies, asker) + [reply.answer] else Answers(replies, asker)
  {
    assert (replies + [reply])[..|replies|] == replies;
  }

  lemma LatestStopSnoc(events: seq<Lifecycle>, event: Lifecycle, worker: WorkerKind)
    ensures LatestStop(events + [event], worker) ==
            if event.Stopped? && event.worker == worker then Some(event.reason) else LatestStop(events, worker)
  {
    assert (events + [event])[..|events|] == events;
  }

  lemma StepRecords(s: State, message: Message, capacity: nat)
    requires !Step(s, message, capacity).panicked
    ensures !s.panicked
    ensures
      var s' := Step(s, message, capacity);
      && s'.log == (if message.Output? then s.log + [message.bytes] else s.log)
      && s'.exit == (if message.Exited? then Some(message.status) else s.exit)
      && s'.workers == (if message.Worker? then s.workers + [message.event] else s.workers)
  {
    hide Occurs, Retained, LatestStop, Matched, Unmatched, ToldExit, ToldStop, StillWaiting;
  }

  /** What a living actor has on record is what it was told: every output, the newest exit, every
      lifecycle event, and so the newest stop of each worker. */
  lemma {:induction false} RecordsExactly(messages: seq<Message>, worker: WorkerKind, capacity: nat)
    requires !Run(messages, capacity).panicked
    ensures
      var s := Run(messages, capacity);
      && s.log == Outputs(messages) && s.exit == LastExit(messages) && s.workers == Lifecycles(messages)
      && LatestStop(s.workers, worker) == LastStop(messages, worker)
  {
    if messages != [] {
      hide Step, LatestStop;
      var init, last := messages[..|messages| - 1], messages[|messages| - 1];
      StepRecords(Run(init, capacity), last, capacity);
      RecordsExactly(init, worker, capacity);
      if last.Worker? {
        LatestStopSnoc(Run(init, capacity).workers, last.event, worker);
      }
    }
  }

  /** An actor that lives now lived before. */
  lemma {:induction false} LivedBefore(before: seq<Message>, after: seq<Message>, capacity: nat)
    requires !Run(before + after, capacity).panicked
    ensures !Run(before, capacity).panicked
    decreases |after|
  {
    if after == [] {
      assert before + after == before;
    } else {
      hide Step, Run;
      var init, last := after[..|after| - 1], after[|after| - 1];
      assert before + after == (before + init) + [last];
      RunSnoc(before + init, last, capacity);
      StepRecords(Run(before + init, capacity), last, capacity);
      LivedBefore(before, init, capacity);
    }
  }

  // ---------------------------------------------------------------- no lost wakeups

  /** Nobody waits for something that has already happened. */
  ghost predicate NobodyForgotten(s: State, capacity: nat) {
    && (s.exit.Some? ==> s.exitWaiters == [])
    && (forall i :: 0 <= i < |s.workerWaiters| ==> LatestStop(s.workers, s.workerWaiters[i].worker).None?)
    && (forall i :: 0 <= i < |s.textWaiters| ==> !Occurs(Retained(s.log, capacity), s.textWaiters[i].needle))
  }

  lemma {:induction false} UnmatchedDoNotOccur(waiters: seq<TextWaiter>, window: seq<Byte>)
    ensures forall i :: 0 <= i < |Unmatched(waiters, window)| ==>
              !Occurs(window, Unmatched(waiters, window)[i].needle)
  {
    if waiters != [] {
      UnmatchedDoNotOccur(waiters[..|waiters| - 1], window);
    }
  }

  lemma {:induction false} StillWaitingForOthers(waiters: seq<WorkerWaiter>, worker: WorkerKind)
    ensures forall i :: 0 <= i < |StillWaiting(waiters, worker)| ==>
              StillWaiting(waiters, worker)[i] in waiters && StillWaiting(waiters, worker)[i].worker != worker
  {
    if waiters != [] {
      StillWaitingForOthers(waiters[..|waiters| - 1], worker);
    }
  }

  lemma StepForgetsNobody(s: State, message: Message, capacity: nat)
    requires NobodyForgotten(s, capacity)
    ensures NobodyForgotten(Step(s, message, capacity), capacity)
  {
    hide Occurs, Retained, LatestStop;
    match message
    case Output(bytes) =>
      UnmatchedDoNotOccur(s.textWaiters, Retained(s.log + [bytes], capacity));
    case Worker(event) =>
      var s' := Step(s, message, capacity);
      if !s.panicked {
        forall i | 0 <= i < |s'.workerWaiters|
          ensures LatestStop(s'.workers, s'.workerWaiters[i].worker).None?
        {
          LatestStopSnoc(s.workers, event, s'.workerWaiters[i].worker);
          if event.Stopped? {
            StillWaitingForOthers(s.workerWaiters, event.worker);
          }
        }
      }
    case _ =>
  }

  lemma {:induction false} RunForgetsNobody(messages: seq<Message>, capacity: nat)
    ensures NobodyForgotten(Run(messages, capacity), capacity)
  {
    if messages != [] {
      RunForgetsNobody(messages[..|messages| - 1], capacity);
      StepForgetsNobody(Run(messages[..|messages| - 1], capacity), messages[|messages| - 1], capacity);
    }
  }

  /** In every run of a living actor: once an exit was told nobody waits for one, once a worker's
      stop was told nobody waits for that, and nobody waits for a text that is retained. */
  lemma {:induction false} NoLostWakeups(messages: seq<Message>, capacity: nat)
    requires !Run(messages, capacity).panicked
    ensures
      var s := Run(messages, capacity);
      && (LastExit(messages).Some? ==> s.exitWaiters == [])
      && (forall i :: 0 <= i < |s.workerWaiters| ==> LastStop(messages, s.workerWaiters[i].worker).None?)
      && (forall i :: 0 <= i < |s.textWaiters| ==>
            !Occurs(Retained(Outputs(messages), capacity), s.textWaiters[i].needle))
  {
    hide Run, Occurs, Retained, LatestStop, LastStop, LastExit, Lifecycles, Outputs;
    RunForgetsNobody(messages, capacity);
    RecordsExactly(messages, InputWriter, capacity);
    var s := Run(messages, capacity);
    forall i | 0 <= i < |s.workerWaiters| ensures LastStop(messages, s.workerWaiters[i].worker).None? {
      RecordsExactly(messages, s.workerWaiters[i].worker, capacity);
    }
  }

  /** `windows(0)`: asking for the empty text panics the handler. */
  predicate Lethal(message: Message) {
    message.WaitText? && message.needle == [] && message.asker.Some?
  }

  lemma StepPanics(s: State, message: Message, capacity: nat)
    ensures Step(s, message, capacity).panicked <==> s.panicked || Lethal(message)
  {
    hide Occurs, Retained, LatestStop, Matched, Unmatched, ToldExit, ToldStop, StillWaiting;
  }

  /** The actor dies of an ask for the empty text, and of nothing else. */
  lemma {:induction false} PanicsExactly(messages: seq<Message>, capacity: nat)
    ensures Run(messages, capacity).panicked <==> exists m :: m in messages && Lethal(m)
  {
    if messages != [] {
      hide Step, Lethal;
      var init, last := messages[..|messages| - 1], messages[|messages| - 1];
      assert forall m :: m in messages <==> m in init || m == last;
      PanicsExactly(init, capacity);
      StepPanics(Run(init, capacity), last, capacity);
    }
  }

  // ---------------------------------------------------------------- exit waiters

  function FirstExit(messages: seq<Message>): Option<string> {
    if messages == [] then None
    else
      var earlier := FirstExit(messages[..|messages| - 1]);
      var last := messages[|messages| - 1];
      if earlier.Some? then earlier else if last.Exited? then Some(last.status) else None
  }

  function FirstStop(messages: seq<Message>, worker: WorkerKind): Option<WorkerStop> {
    if messages == [] then None
    else
      var earlier := FirstStop(messages[..|messages| - 1], worker);
      var last := messages[|messages| - 1];
      if earlier.Some? then earlier
      else if last.Worker? && last.event.Stopped? && last.event.worker == worker then Some(last.event.reason)
      else None
  }

  function OrElse<A>(a: Option<A>, b: Option<A>): Option<A> {
    if a.Some? then a else b
  }

  function AtMostOne<A>(a: Option<A>): seq<A> {
    if a.Some? then [a.value] else []
  }

  function Ports(waiters: seq<nat>, asker: nat): nat {
    if waiters == [] then 0
    else Ports(waiters[..|waiters| - 1], asker) + if waiters[|waiters| - 1] == asker then 1 else 0
  }

  lemma {:induction false} ToldExitOnce(waiters: seq<nat>, status: string, asker: nat)
    ensures Ports(waiters, asker) == 0 ==> Answers(ToldExit(waiters, status), asker) == []
    ensures Ports(waiters, asker) == 1 ==> Answers(ToldExit(waiters, status), asker) == [status]
  {
    if waiters != [] {
      ToldExitOnce(waiters[..|waiters| - 1], status, asker);
      AnswersOne(ToldExit(waiters[..|waiters| - 1], status), Reply(waiters[|waiters| - 1], status), asker);
    }
  }

  ghost predicate ExitUntouched(s: State, asker: nat) {
    Answers(s.exitReplies, asker) == [] && Ports(s.exitWaiters, asker) == 0
  }

  lemma PortsSnoc(waiters: seq<nat>, port: nat, asker: nat)
    ensures Ports(waiters + [port], asker) == Ports(waiters, asker) + if port == asker then 1 else 0
  {
    assert (waiters + [port])[..|waiters|] == waiters;
  }

  lemma {:induction false} ExitUntouchedBefore(messages: seq<Message>, asker: nat, capacity: nat)
    requires Fresh(asker, messages)
    ensures ExitUntouched(Run(messages, capacity), asker)
  {
    if messages != [] {
      var init, last := messages[..|messages| - 1], messages[|messages| - 1];
      ExitUntouchedBefore(init, asker, capacity);
      var s := Run(init, capacity);
      ExitStep(s, last, asker, capacity);
    }
  }

  /** One message someone else sent: the asker is answered exactly if it waits and the exit arrives. */
  lemma ExitStep(s: State, message: Message, asker: nat, capacity: nat)
    requires AskerOf(message) != Some(asker)
    requires Ports(s.exitWaiters, asker) <= 1
    ensures
      var s' := Step(s, message, capacity);
      var answered := !s.panicked && message.Exited? && Ports(s.exitWaiters, asker) == 1;
      && Answers(s'.exitReplies, asker) ==
         (if answered then Answers(s.exitReplies, asker) + [message.status] else Answers(s.exitReplies, asker))
      && Ports(s'.exitWaiters, asker) == (if !s.panicked && message.Exited? then 0 else Ports(s.exitWaiters, asker))
  {
    hide Occurs, Retained, LatestStop, Matched, Unmatched, ToldStop, StillWaiting, Answers;
    if !s.panicked {
      match message
      case Exited(status) =>
        AnswersConcat(s.exitReplies, ToldExit(s.exitWaiters, status), asker);
        ToldExitOnce(s.exitWaiters, status, asker);
      case WaitExit(Some(other)) =>
        if s.exit.Some? {
          AnswersOne(s.exitReplies, Reply(other, s.exit.value), asker);
        } else {
          PortsSnoc(s.exitWaiters, other, asker);
        }
      case _ =>
    }
  }

  /** An exit waiter gets exactly one answer: the newest exit told before it asked, else the first one after. */
  lemma {:induction false} ExitWaiterAnswered(before: seq<Message>, asker: nat, after: seq<Message>, capacity: nat)
    requires Fresh(asker, before) && Fresh(asker, after)
    requires !Run(before + [WaitExit(Some(asker))] + after, capacity).panicked
    ensures
      var answer := OrElse(LastExit(before), FirstExit(after));
      var s := Run(before + [WaitExit(Some(asker))] + after, capacity);
      && Answers(s.exitReplies, asker) == AtMostOne(answer)
      && Ports(s.exitWaiters, asker) == (if answer.Some? then 0 else 1)
    decreases |after|
  {
    var asked := before + [WaitExit(Some(asker))];
    if after == [] {
      assert asked + after == asked;
      ExitWaiterRegistered(before, asker, capacity);
    } else {
      hide Step, Run, Answers, Ports;
      var init, last := after[..|after| - 1], after[|after| - 1];
      assert asked + after == (asked + init) + [last];
      RunSnoc(asked + init, last, capacity);
      PanicIsFinal(Run(asked + init, capacity), last, capacity);
      ExitWaiterAnswered(before, asker, init, capacity);
      ExitStep(Run(asked + init, capacity), last, asker, capacity);
    }
  }

  lemma {:induction false} ExitWaiterRegistered(before: seq<Message>, asker: nat, capacity: nat)
    requires Fresh(asker, before)
    requires !Run(before + [WaitExit(Some(asker))], capacity).panicked
    ensures
      var answer := LastExit(before);
      var s := Run(before + [WaitExit(Some(asker))], capacity);
      && Answers(s.exitReplies, asker) == AtMostOne(answer)
      && Ports(s.exitWaiters, asker) == (if answer.Some? then 0 else 1)
  {
    hide Run, Answers, Ports, Occurs, LatestStop, LastStop, LastExit;
    var s0 := Run(before, capacity);
    LivedBefore(before, [WaitExit(Some(asker))], capacity);
    RecordsExactly(before, InputWriter, capacity);
    ExitUntouchedBefore(before, asker, capacity);
    RunSnoc(before, WaitExit(Some(asker)), capacity);
    if s0.exit.Some? {
      AnswersOne(s0.exitReplies, Reply(asker, s0.exit.value), asker);
    } else {
      PortsSnoc(s0.exitWaiters, asker, asker);
    }
  }

  lemma PanicIsFinal(s: State, message: Message, capacity: nat)
    ensures s.panicked ==> Step(s, message, capacity) == s
  {
  }

  // ---------------------------------------------------------------- worker waiters

  function Asked(waiters: seq<WorkerWaiter>, asker: nat): seq<WorkerKind> {
    if waiters == [] then []
    else
      var last := waiters[|waiters| - 1];
      var earlier := Asked(waiters[..|waiters| - 1], asker);
      if last.asker == asker then earlier + [last.worker] else earlier
  }

  lemma AskedSnoc(waiters: seq<WorkerWaiter>, waiter: WorkerWaiter, asker: nat)
    ensures Asked(waiters + [waiter], asker) ==
            if waiter.asker == asker then Asked(waiters, asker) + [waiter.worker] else Asked(waiters, asker)
  {
    assert (waiters + [waiter])[..|waiters|] == waiters;
  }

  lemma {:induction false} ToldStopOnce(
    waiters: seq<WorkerWaiter>, worker: WorkerKind, reason: WorkerStop, asker: nat)
    requires |Asked(waiters, asker)| <= 1
    ensures
      var told := Asked(waiters, asker) != [] && Asked(waiters, asker)[0] == worker;
      && Answers(ToldStop(waiters, worker, reason), asker) == (if told then [reason] else [])
      && Asked(StillWaiting(waiters, worker), asker) == (if told then [] else Asked(waiters, asker))
  {
    if waiters != [] {
      var init, last := waiters[..|waiters| - 1], waiters[|waiters| - 1];
      hide Answers;
      assert |Asked(init, asker)| <= 1;
      ToldStopOnce(init, worker, reason, asker);
      AnswersOne(ToldStop(init, worker, reason), Reply(last.asker, reason), asker);
      AskedSnoc(StillWaiting(init, worker), last, asker);
    }
  }

  lemma WorkerStep(s: State, message: Message, asker: nat, capacity: nat)
    requires AskerOf(message) != Some(asker)
    requires |Asked(s.workerWaiters, asker)| <= 1
    ensures
      var s' := Step(s, message, capacity);
      var told := !s.panicked && message.Worker? && message.event.Stopped? &&
                  Asked(s.workerWaiters, asker) != [] && Asked(s.workerWaiters, asker)[0] == message.event.worker;
      && Answers(s'.workerReplies, asker) ==
         (if told then Answers(s.workerReplies, asker) + [message.event.reason] else Answers(s.workerReplies, asker))
      && Asked(s'.workerWaiters, asker) == (if told then [] else Asked(s.workerWaiters, asker))
  {
    hide Occurs, Retained, LatestStop, Matched, Unmatched, ToldExit, Answers;
    if !s.panicked {
      match message
      case Worker(Stopped(worker, reason)) =>
        AnswersConcat(s.workerReplies, ToldStop(s.workerWaiters, worker, reason), asker);
        ToldStopOnce(s.workerWaiters, worker, reason, asker);
      case WaitWorkerStop(worker, Some(other)) =>
        match LatestStop(s.workers, worker) {
          case Some(reason) => AnswersOne(s.workerReplies, Reply(other, reason), asker);
          case None => AskedSnoc(s.workerWaiters, WorkerWaiter(worker, other), asker);
        }
      case _ =>
    }
  }

  lemma {:induction false} WorkerUntouchedBefore(messages: seq<Message>, asker: nat, capacity: nat)
    requires Fresh(asker, messages)
    ensures Answers(Run(messages, capacity).workerReplies, asker) == []
    ensures Asked(Run(messages, capacity).workerWaiters, asker) == []
  {
    if messages != [] {
      var init, last := messages[..|messages| - 1], messages[|messages| - 1];
      WorkerUntouchedBefore(init, asker, capacity);
      WorkerStep(Run(init, capacity), last, asker, capacity);
    }
  }

  /** A worker-stop waiter gets exactly one answer: the newest stop of its worker told before it
      asked, else the first one after. */
  lemma {:induction false} WorkerWaiterAnswered(
    before: seq<Message>, worker: WorkerKind, asker: nat, after: seq<Message>, capacity: nat)
    requires Fresh(asker, before) && Fresh(asker, after)
    requires !Run(before + [WaitWorkerStop(worker, Some(asker))] + after, capacity).panicked
    ensures
      var answer := OrElse(LastStop(before, worker), FirstStop(after, worker));
      var s := Run(before + [WaitWorkerStop(worker, Some(asker))] + after, capacity);
      && Answers(s.workerReplies, asker) == AtMostOne(answer)
      && Asked(s.workerWaiters, asker) == (if answer.Some? then [] else [worker])
    decreases |after|
  {
    var asked := before + [WaitWorkerStop(worker, Some(asker))];
    if after == [] {
      assert asked + after == asked;
      WorkerWaiterRegistered(before, worker, asker, capacity);
    } else {
      hide Step, LastStop, Run, Answers, Asked;
      var init, last := after[..|after| - 1], after[|after| - 1];
      assert asked + after == (asked + init) + [last];
      RunSnoc(asked + init, last, capacity);
      PanicIsFinal(Run(asked + init, capacity), last, capacity);
      WorkerWaiterAnswered(before, worker, asker, init, capacity);
      WorkerStep(Run(asked + init, capacity), last, asker, capacity);
    }
  }

  lemma {:induction false} WorkerWaiterRegistered(before: seq<Message>, worker: WorkerKind, asker: nat, capacity: nat)
    requires Fresh(asker, before)
    requires !Run(before + [WaitWorkerStop(worker, Some(asker))], capacity).panicked
    ensures
      var answer := LastStop(before, worker);
      var s := Run(before + [WaitWorkerStop(worker, Some(asker))], capacity);
      && Answers(s.workerReplies, asker) == AtMostOne(answer)
      && Asked(s.workerWaiters, asker) == (if answer.Some? then [] else [worker])
  {
    hide LatestStop, LastStop, LastExit, Run, Answers, Asked, Occurs;
    var s0 := Run(before, capacity);
    LivedBefore(before, [WaitWorkerStop(worker, Some(asker))], capacity);
    RecordsExactly(before, worker, capacity);
    WorkerUntouchedBefore(before, asker, capacity);
    RunSnoc(before, WaitWorkerStop(worker, Some(asker)), capacity);
    match LatestStop(s0.workers, worker) {
      case Some(reason) => AnswersOne(s0.workerReplies, Reply(asker, reason), asker);
      case None => AskedSnoc(s0.workerWaiters, WorkerWaiter(worker, asker), asker);
    }
  }

  // ---------------------------------------------------------------- transcript waiters

  function Needles(waiters: seq<TextWaiter>, asker: nat): seq<seq<Byte>> {
    if waiters == [] then []
    else
      var last := waiters[|waiters| - 1];
      var earlier := Needles(waiters[..|waiters| - 1], asker);
      if last.asker == asker then earlier + [last.needle] else earlier
  }

  lemma NeedlesSnoc(waiters: seq<TextWaiter>, waiter: TextWaiter, asker: nat)
    ensures Needles(waiters + [waiter], asker) ==
            if waiter.asker == asker then Needles(waiters, asker) + [waiter.needle] else Needles(waiters, asker)
  {
    assert (waiters + [waiter])[..|waiters|] == waiters;
  }

  lemma {:induction false} MatchedOnce(waiters: seq<TextWaiter>, window: seq<Byte>, asker: nat)
    requires |Needles(waiters, asker)| <= 1
    ensures
      var told := Needles(waiters, asker) != [] && Occurs(window, Needles(waiters, asker)[0]);
      && Answers(Matched(waiters, window), asker) == (if told then [true] else [])
      && Needles(Unmatched(waiters, window), asker) == (if told then [] else Needles(waiters, asker))
  {
    hide Occurs;
    if waiters != [] {
      hide Answers;
      assert |Needles(waiters[..|waiters| - 1], asker)| <= 1;
      var init, last := waiters[..|waiters| - 1], waiters[|waiters| - 1];
      MatchedOnce(init, window, asker);
      AnswersOne(Matched(init, window), Reply(last.asker, true), asker);
      NeedlesSnoc(Unmatched(init, window), last, asker);
    }
  }

  lemma TextStep(s: State, message: Message, asker: nat, capacity: nat)
    requires AskerOf(message) != Some(asker)
    requires |Needles(s.textWaiters, asker)| <= 1
    ensures
      var s' := Step(s, message, capacity);
      var told := !s.panicked && message.Output? && Needles(s.textWaiters, asker) != [] &&
                  Occurs(Retained(s'.log, capacity), Needles(s.textWaiters, asker)[0]);
      && Answers(s'.textReplies, asker) ==
         (if told then Answers(s.textReplies, asker) + [true] else Answers(s.textReplies, asker))
      && Needles(s'.textWaiters, asker) == (if told then [] else Needles(s.textWaiters, asker))
  {
    hide Occurs, Retained, LatestStop, ToldExit, ToldStop, StillWaiting, Answers;
    if !s.panicked {
      match message
      case Output(bytes) =>
        var window := Retained(s.log + [bytes], capacity);
        AnswersConcat(s.textReplies, Matched(s.textWaiters, window), asker);
        MatchedOnce(s.textWaiters, window, asker);
      case WaitText(needle, Some(other)) =>
        AnswersOne(s.textReplies, Reply(other, true), asker);
        NeedlesSnoc(s.textWaiters, TextWaiter(needle, other), asker);
      case _ =>
    }
  }

  lemma {:induction false} TextUntouchedBefore(messages: seq<Message>, asker: nat, capacity: nat)
    requires Fresh(asker, messages)
    ensures Answers(Run(messages, capacity).textReplies, asker) == []
    ensures Needles(Run(messages, capacity).textWaiters, asker) == []
  {
    if messages != [] {
      var init, last := messages[..|messages| - 1], messages[|messages| - 1];
      TextUntouchedBefore(init, asker, capacity);
      TextStep(Run(init, capacity), last, asker, capacity);
    }
  }

  lemma TailSplits(all: seq<Byte>, n: nat)
    ensures |LastOf(n, all)| <= |all| && LastOf(n, all) == all[|all| - |LastOf(n, all)|..]
    ensures all[..|all| - |LastOf(n, all)|] + LastOf(n, all) + [] == all
  {
  }

  lemma OccursInPrefix(seen: seq<Byte>, chunk: seq<Byte>, needle: seq<Byte>, at: nat)
    requires OccursAt(seen + chunk, needle, at) && at + |needle| <= |seen|
    ensures Occurs(seen, needle)
  {
    assert seen[at..at + |needle|] == (seen + chunk)[at..at + |needle|];
    assert OccursAt(seen, needle, at);
  }

  lemma OccursInTail(all: seq<Byte>, needle: seq<Byte>, at: nat, cut: nat)
    requires OccursAt(all, needle, at) && cut <= at
    ensures Occurs(all[cut..], needle)
  {
    assert all[cut..][at - cut..at - cut + |needle|] == all[at..at + |needle|];
    assert OccursAt(all[cut..], needle, at - cut);
  }

  /** An occurrence that a bounded chunk completes lies inside the retained window. */
  lemma WindowCatchesNeedle(seen: seq<Byte>, chunk: seq<Byte>, needle: seq<Byte>, bound: nat, capacity: nat)
    requires !Occurs(seen, needle)
    requires |chunk| <= bound && |needle| + bound <= capacity + 1
    ensures Occurs(LastOf(capacity, seen + chunk), needle) <==> Occurs(seen + chunk, needle)
  {
    var all := seen + chunk;
    var window := LastOf(capacity, all);
    var cut := |all| - |window|;
    TailSplits(all, capacity);
    if Occurs(window, needle) {
      OccursInExtension(all[..cut], window, [], needle);
    }
    if Occurs(all, needle) {
      var at: nat :| OccursAt(all, needle, at);
      if at + |needle| <= |seen| {
        OccursInPrefix(seen, chunk, needle, at);
        assert false;
      }
      OccursInTail(all, needle, at, cut);
    }
  }

  /** The bytes a transcript waiter has had a chance to see: those retained when it
      registered and everything appended since. */
  ghost function Seen(before: seq<Message>, after: seq<Message>, capacity: nat): seq<Byte> {
    Retained(Outputs(before), capacity) + Flatten(Outputs(after))
  }

  /** The run in which `asker` waits for `needle` after `before`, followed by `after`. */
  ghost function TextRun(
    before: seq<Message>, needle: seq<Byte>, asker: nat, after: seq<Message>, capacity: nat): State
  {
    Run(before + [WaitText(needle, Some(asker))] + after, capacity)
  }

  lemma TextRunSnoc(
    before: seq<Message>, needle: seq<Byte>, asker: nat, after: seq<Message>, message: Message, capacity: nat)
    ensures TextRun(before, needle, asker, after + [message], capacity) ==
            Step(TextRun(before, needle, asker, after, capacity), message, capacity)
  {
    var asked := before + [WaitText(needle, Some(asker))];
    assert asked + (after + [message]) == (asked + after) + [message];
    RunSnoc(asked + after, message, capacity);
  }

  lemma OutputsSnoc(messages: seq<Message>, message: Message)
    ensures Outputs(messages + [message]) ==
            if message.Output? then Outputs(messages) + [message.bytes] else Outputs(messages)
  {
    assert (messages + [message])[..|messages|] == messages;
  }

  lemma SeenAtFirst(before: seq<Message>, capacity: nat)
    ensures Seen(before, [], capacity) == Retained(Outputs(before), capacity)
  {
    hide Retained;
    assert Flatten(Outputs([])) == [];
  }

  lemma SeenSnoc(before: seq<Message>, after: seq<Message>, message: Message, capacity: nat)
    ensures Seen(before, after + [message], capacity) ==
            if message.Output? then Seen(before, after, capacity) + message.bytes else Seen(before, after, capacity)
  {
    OutputsSnoc(after, message);
    if message.Output? {
      FlattenSnoc(Outputs(after), message.bytes);
      var retained := Retained(Outputs(before), capacity);
      assert retained + (Flatten(Outputs(after)) + message.bytes) ==
             (retained + Flatten(Outputs(after))) + message.bytes;
    }
  }

  /** Reclaiming after registration never changes what the window shows of `Seen`. */
  lemma {:induction false} WindowOfSeen(
    before: seq<Message>, needle: seq<Byte>, asker: nat, after: seq<Message>, capacity: nat)
    requires !TextRun(before, needle, asker, after, capacity).panicked
    ensures Retained(TextRun(before, needle, asker, after, capacity).log, capacity) ==
            LastOf(capacity, Seen(before, after, capacity))
    decreases |after|
  {
    if after == [] {
      assert before + [WaitText(needle, Some(asker))] + after == before + [WaitText(needle, Some(asker))];
      WindowAtRegistration(before, needle, asker, capacity);
    } else {
      hide Seen, Run, TextRun;
      var init, last := after[..|after| - 1], after[|after| - 1];
      assert after == init + [last];
      TextRunSnoc(before, needle, asker, init, last, capacity);
      WindowOfSeen(before, needle, asker, init, capacity);
      SeenSnoc(before, init, last, capacity);
      WindowStep(TextRun(before, needle, asker, init, capacity), last, Seen(before, init, capacity), capacity);
    }
  }

  lemma WindowAtRegistration(before: seq<Message>, needle: seq<Byte>, asker: nat, capacity: nat)
    requires !Run(before + [WaitText(needle, Some(asker))], capacity).panicked
    ensures Retained(Run(before + [WaitText(needle, Some(asker))], capacity).log, capacity) ==
            LastOf(capacity, Seen(before, [], capacity))
  {
    hide Run, Occurs, Outputs, LastExit, Lifecycles, LastStop;
    LivedBefore(before, [WaitText(needle, Some(asker))], capacity);
    RecordsExactly(before, InputWriter, capacity);
    RunSnoc(before, WaitText(needle, Some(asker)), capacity);
    SeenAtFirst(before, capacity);
  }

  lemma WindowStep(s: State, message: Message, seen: seq<Byte>, capacity: nat)
    requires !Step(s, message, capacity).panicked
    requires Retained(s.log, capacity) == LastOf(capacity, seen)
    ensures Retained(Step(s, message, capacity).log, capacity) ==
            LastOf(capacity, if message.Output? then seen + message.bytes else seen)
  {
    hide Occurs, Matched, Unmatched, ToldStop, ToldExit, StillWaiting, LatestStop;
    if message.Output? {
      FlattenSnoc(s.log, message.bytes);
      LastOfConcat(capacity, Flatten(s.log), message.bytes);
      LastOfConcat(capacity, seen, message.bytes);
    }
  }

  /** The asker was answered exactly once if the needle occurred in what it saw, and
      otherwise still waits, exactly once. */
  ghost predicate TextSettled(s: State, asker: nat, needle: seq<Byte>, seen: seq<Byte>) {
    var occurred := Occurs(seen, needle);
    && Answers(s.textReplies, asker) == (if occurred then [true] else [])
    && Needles(s.textWaiters, asker) == (if occurred then [] else [needle])
  }

  /** A transcript waiter is answered, once, exactly when its needle has occurred in what it
      could see, for every continuation of the run; so it is answered at the first such moment,
      across chunk boundaries and whatever scrollback was reclaimed meanwhile. */
  lemma {:induction false} TextWaiterAnswered(
    before: seq<Message>, needle: seq<Byte>, asker: nat, after: seq<Message>, bound: nat, capacity: nat)
    requires needle != [] && |needle| + bound <= capacity + 1
    requires ChunksWithin(bound, after)
    requires Fresh(asker, before) && Fresh(asker, after)
    requires !TextRun(before, needle, asker, after, capacity).panicked
    ensures TextSettled(TextRun(before, needle, asker, after, capacity), asker, needle, Seen(before, after, capacity))
    decreases |after|
  {
    if after == [] {
      assert before + [WaitText(needle, Some(asker))] + after == before + [WaitText(needle, Some(asker))];
      TextWaiterRegistered(before, needle, asker, capacity);
    } else {
      hide Occurs, Run, TextRun, Seen, Answers, Needles;
      var init, last := after[..|after| - 1], after[|after| - 1];
      assert after == init + [last];
      var s0 := TextRun(before, needle, asker, init, capacity);
      TextRunSnoc(before, needle, asker, init, last, capacity);
      PanicIsFinal(s0, last, capacity);
      TextWaiterAnswered(before, needle, asker, init, bound, capacity);
      WindowOfSeen(before, needle, asker, after, capacity);
      SeenSnoc(before, init, last, capacity);
      TextWaiterStep(s0, last, asker, needle, Seen(before, init, capacity), bound, capacity);
    }
  }

  lemma TextWaiterStep(
    s: State, message: Message, asker: nat, needle: seq<Byte>, seen: seq<Byte>, bound: nat, capacity: nat)
    requires AskerOf(message) != Some(asker) && !s.panicked
    requires message.Output? ==> |message.bytes| <= bound
    requires |needle| + bound <= capacity + 1
    requires TextSettled(s, asker, needle, seen)
    requires message.Output? ==>
      Retained(Step(s, message, capacity).log, capacity) == LastOf(capacity, seen + message.bytes)
    ensures TextSettled(
      Step(s, message, capacity), asker, needle, if message.Output? then seen + message.bytes else seen)
  {
    hide Step, Occurs, Retained, Answers, Needles, LastOf;
    TextStep(s, message, asker, capacity);
    if message.Output? {
      if Occurs(seen, needle) {
        OccursInExtension([], seen, message.bytes, needle);
        assert [] + seen + message.bytes == seen + message.bytes;
      } else {
        WindowCatchesNeedle(seen, message.bytes, needle, bound, capacity);
      }
    }
  }

  lemma {:induction false} TextWaiterRegistered(before: seq<Message>, needle: seq<Byte>, asker: nat, capacity: nat)
    requires needle != [] && Fresh(asker, before)
    requires !Run(before + [WaitText(needle, Some(asker))], capacity).panicked
    ensures
      TextSettled(Run(before + [WaitText(needle, Some(asker))], capacity), asker, needle,
                  Seen(before, [], capacity))
  {
    hide Occurs, Retained, Answers, Needles, Seen, Run, Outputs, LastExit, Lifecycles, LastStop;
    var s0 := Run(before, capacity);
    LivedBefore(before, [WaitText(needle, Some(asker))], capacity);
    RecordsExactly(before, InputWriter, capacity);
    SeenAtFirst(before, capacity);
    TextUntouchedBefore(before, asker, capacity);
    RunSnoc(before, WaitText(needle, Some(asker)), capacity);
    AnswersOne(s0.textReplies, Reply(asker, true), asker);
    NeedlesSnoc(s0.textWaiters, TextWaiter(needle, asker), asker);
  }

  // ---------------------------------------------------------------- the bound is the right one

  ghost predicate CompleteFor(
    before: seq<Message>, needle: seq<Byte>, asker: nat, after: seq<Message>, capacity: nat)
  {
    TextRun(before, needle, asker, after, capacity).panicked ||
    TextSettled(TextRun(before, needle, asker, after, capacity), asker, needle, Seen(before, after, capacity))
  }

  /** No run whose chunks all respect `bound` makes a waiter miss a needle of this length. */
  ghost predicate WaitersComplete(length: nat, bound: nat, capacity: nat) {
    forall before, needle, asker, after ::
      |needle| == length && ChunksWithin(bound, before) && ChunksWithin(bound, after) &&
      Fresh(asker, before) && Fresh(asker, after) ==>
        CompleteFor(before, needle, asker, after, capacity)
  }

  /** Waiters are complete for needles of a length exactly when such a needle, less one byte,
      fits the capacity together with a whole chunk. */
  lemma WaitersCompleteExactly(length: nat, bound: nat, capacity: nat)
    requires length > 0 && bound > 0
    ensures WaitersComplete(length, bound, capacity) <==> length - 1 + bound <= capacity
  {
    if length - 1 + bound <= capacity {
      forall before, needle, asker, after |
        |needle| == length && ChunksWithin(bound, before) && ChunksWithin(bound, after) &&
        Fresh(asker, before) && Fresh(asker, after)
        ensures CompleteFor(before, needle, asker, after, capacity)
      {
        if !TextRun(before, needle, asker, after, capacity).panicked {
          TextWaiterAnswered(before, needle, asker, after, bound, capacity);
        }
      }
    } else if length - 1 <= capacity {
      var before, needle, after := MissedAcrossChunk(length, bound, capacity);
      assert !CompleteFor(before, needle, 0, after, capacity);
    } else {
      var needle := Marked(length);
      MissedWhenTooLong(needle, capacity);
      SinglesAreSmall(needle, bound);
      assert !CompleteFor([], needle, 0, Singles(needle), capacity);
    }
  }

  /** For the terminal's own constants: needles of up to 1 MiB - 8191 bytes. */
  lemma TerminalWaitersComplete(length: nat)
    requires length > 0
    ensures WaitersComplete(length, READ_BUFFER, TRANSCRIPT_SCROLLBACK_BYTE_CAPACITY) <==> length <= 1_040_385
  {
    WaitersCompleteExactly(length, READ_BUFFER, TRANSCRIPT_SCROLLBACK_BYTE_CAPACITY);
  }

  /** A one followed by zeros: the one shows where it starts. */
  function Marked(length: nat): (needle: seq<Byte>)
    requires length > 0
    ensures |needle| == length && needle[0] == 1
    ensures forall i :: 0 < i < length ==> needle[i] == 0
  {
    seq(length, i => if i == 0 then 1 else 0)
  }

  lemma MarkedOccursOnlyAtStart(all: seq<Byte>, length: nat, capacity: nat)
    requires 0 < length <= |all| && capacity < |all|
    requires all == Marked(|all|)
    ensures Occurs(all, all[..length]) && !Occurs(LastOf(capacity, all), all[..length])
  {
    assert OccursAt(all, all[..length], 0);
    var window := LastOf(capacity, all);
    assert forall i :: 0 <= i < |window| ==> window[i] == all[|all| - capacity + i] == 0;
    forall at: nat
      ensures !OccursAt(window, all[..length], at)
    {
      if at + length <= |window| {
        assert window[at..at + length][0] == window[at];
      }
    }
  }

  /** Nobody asks while bytes are fed one by one, so nothing kills the actor. */
  lemma SinglesAreHarmless(fed: seq<Byte>, capacity: nat)
    ensures !Run(Singles(fed), capacity).panicked
  {
    hide Run;
    PanicsExactly(Singles(fed), capacity);
  }

  lemma RetainedAll(log: seq<seq<Byte>>, capacity: nat)
    requires |Flatten(log)| <= capacity
    ensures Retained(log, capacity) == Flatten(log)
  {
  }

  lemma MissedAcrossChunk(length: nat, bound: nat, capacity: nat)
    returns (before: seq<Message>, needle: seq<Byte>, after: seq<Message>)
    requires 0 < length <= capacity + 1 && 0 < bound && length - 1 + bound > capacity
    ensures |needle| == length && ChunksWithin(bound, before) && ChunksWithin(bound, after)
    ensures Fresh(0, before) && Fresh(0, after)
    ensures !CompleteFor(before, needle, 0, after, capacity)
  {
    hide Run, TextRun, Seen, Answers, Needles, Occurs, Singles;
    var all := Marked(length - 1 + bound);
    needle := all[..length];
    var prefix, chunk := all[..length - 1], all[length - 1..];
    before, after := Singles(prefix), [Output(chunk)];
    SinglesAreHarmless(prefix, capacity);
    SinglesAreSmall(prefix, bound);
    SinglesFeed(prefix);
    RetainedAll(Outputs(before), capacity);
    SeenAtFirst(before, capacity);
    TooShort(prefix, needle);
    AskedRun(before, needle, capacity);
    var s := TextRun(before, needle, 0, [], capacity);
    assert [] + [Output(chunk)] == after;
    TextRunSnoc(before, needle, 0, [], Output(chunk), capacity);
    SeenSnoc(before, [], Output(chunk), capacity);
    assert prefix + chunk == all;
    MarkedOccursOnlyAtStart(all, length, capacity);
    WindowOfSeen(before, needle, 0, after, capacity);
    TextStep(s, Output(chunk), 0, capacity);
  }

  lemma TooShort(hay: seq<Byte>, needle: seq<Byte>)
    requires |hay| < |needle|
    ensures !Occurs(hay, needle)
  {
  }

  /** A waiter whose needle is not retained when it asks simply starts to wait. */
  lemma AskedRun(before: seq<Message>, needle: seq<Byte>, capacity: nat)
    requires needle != [] && Fresh(0, before)
    requires !Run(before, capacity).panicked && !Occurs(Seen(before, [], capacity), needle)
    ensures
      var s := TextRun(before, needle, 0, [], capacity);
      !s.panicked && Needles(s.textWaiters, 0) == [needle] && Answers(s.textReplies, 0) == []
  {
    hide Run, Retained, Seen, Occurs, Needles, Answers;
    var asked := before + [WaitText(needle, Some(0))];
    assert asked + [] == asked;
    RunSnoc(before, WaitText(needle, Some(0)), capacity);
    TextWaiterRegistered(before, needle, 0, capacity);
  }

  function Singles(bytes: seq<Byte>): seq<Message> {
    seq(|bytes|, i requires 0 <= i < |bytes| => Output([bytes[i]]))
  }

  lemma SinglesAreSmall(bytes: seq<Byte>, bound: nat)
    requires bound > 0
    ensures ChunksWithin(bound, Singles(bytes)) && Fresh(0, Singles(bytes)) && Fresh(0, [])
  {
  }

  lemma TooLongForWindow(log: seq<seq<Byte>>, needle: seq<Byte>, capacity: nat)
    requires |needle| > capacity
    ensures !Occurs(Retained(log, capacity), needle)
  {
    TooShort(Retained(log, capacity), needle);
  }

  lemma SinglesSnoc(init: seq<Byte>, last: Byte)
    ensures Singles(init + [last]) == Singles(init) + [Output([last])]
  {
  }

  lemma {:induction false} SinglesFeed(fed: seq<Byte>)
    ensures Flatten(Outputs(Singles(fed))) == fed
  {
    if fed != [] {
      var init, last := fed[..|fed| - 1], fed[|fed| - 1];
      assert fed == init + [last];
      SinglesFeed(init);
      SinglesSnoc(init, last);
      OutputsSnoc(Singles(init), Output([last]));
      FlattenSnoc(Outputs(Singles(init)), [last]);
    }
  }

  lemma {:induction false} NeverMatchedWhenTooLong(needle: seq<Byte>, capacity: nat, fed: seq<Byte>)
    requires |needle| > capacity
    ensures
      var s := TextRun([], needle, 0, Singles(fed), capacity);
      && !s.panicked
      && Needles(s.textWaiters, 0) == [needle]
      && Answers(s.textReplies, 0) == []
    decreases |fed|
  {
    hide TextRun, Needles, Answers, Occurs, Retained;
    if fed == [] {
      SeenAtFirst([], capacity);
      TooLongForWindow(Outputs([]), needle, capacity);
      AskedRun([], needle, capacity);
      assert Singles(fed) == [];
    } else {
      hide Singles;
      var init, last := fed[..|fed| - 1], fed[|fed| - 1];
      assert fed == init + [last];
      NeverMatchedWhenTooLong(needle, capacity, init);
      SinglesSnoc(init, last);
      var s := TextRun([], needle, 0, Singles(init), capacity);
      TextRunSnoc([], needle, 0, Singles(init), Output([last]), capacity);
      TooLongForWindow(s.log + [[last]], needle, capacity);
      TextStep(s, Output([last]), 0, capacity);
    }
  }

  lemma MissedWhenTooLong(needle: seq<Byte>, capacity: nat)
    requires |needle| > capacity
    ensures !CompleteFor([], needle, 0, Singles(needle), capacity)
  {
    hide TextRun, Needles, Answers;
    NeverMatchedWhenTooLong(needle, capacity, needle);
    SinglesFeed(needle);
    assert Retained(Outputs([]), capacity) == [];
    assert Seen([], Singles(needle), capacity) == needle;
    assert OccursAt(needle, needle, 0);
  }
}
