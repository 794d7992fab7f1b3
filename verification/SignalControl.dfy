/** The Signal control plane (src/daemon.rs) on top of the input port: prompt patterns, the
    lease registry, and injections, mixed with raw control requests. Every request handler is
    taken as one atomic step; the worker behind the port takes steps of its own in between. */
module SignalControl {
  import opened Bytes
  import opened Flush
  import opened InputGate
  import opened InputPort
  import InputTraces
  import Prompt

  datatype Pattern = LiteralSuffix(suffix: seq<Byte>) | RegexSuffix(pattern: seq<Byte>)

  datatype PromptState = NotChecked | Clean | Dirty(trailing: nat)

  /** The regex library: whether the pattern compiles, and how many bytes follow its last match. */
  datatype RegexResult = InvalidPattern | NoMatch | Trailing(count: nat)
  type RegexEngine = (seq<Byte>, seq<Byte>) -> RegexResult

  // ---------------------------------------------------------------- i64 lease identifiers

  const TWO_64: int := 0x1_0000_0000_0000_0000
  const TWO_63: int := 0x8000_0000_0000_0000

  /** `as i64` */
  function AsI64(value: nat): int {
    var low := value % TWO_64;
    if low < TWO_63 then low else low - TWO_64
  }

  /** `as u64` */
  function AsU64(value: int): nat {
    value % TWO_64
  }

  lemma LeaseSurvivesCasts(lease: nat)
    requires lease <= U64_MAX
    ensures AsU64(AsI64(lease)) == lease && -TWO_63 <= AsI64(lease) < TWO_63
  {
  }

  // ---------------------------------------------------------------- requests

  /** A request comes with what the actor answers if the handler asks it: the transcript, or the
      number of its newest delta; nothing when the actor is gone. */
  datatype Request =
    | Input(source: Source, bytes: seq<Byte>)
    | RawClose
    | RawOpen(lease: nat)
    | Register(pattern: Pattern)
    | Unregister(id: nat)
    | Acquire(selection: Option<nat>, transcript: Option<seq<Byte>>)
    | Release(identifier: int)
    | Inject(identifier: int, bytes: seq<Byte>, lastSequence: Option<nat>)

  datatype Response =
    | Accepted | RawLease(lease: nat) | RawReleased(lease: nat, heldByteCount: nat)
    | Registered(id: nat) | Unregistered
    | GateAcquired(identifier: int, prompt: PromptState) | GateBusy(holder: int)
    | GateReleased(identifier: int, cachedHumanBytes: nat)
    | UnknownLease | DirtyPrompt | InjectionAck(sequence: int)
    | IoError

  /** The registry is keyed by the lease number; behind `port` is the PTY writer. */
  datatype Control = Control(
    port: Port,
    nextPattern: nat,
    patterns: map<nat, Pattern>,
    leases: map<nat, PromptState>)

  const IDLE := Control(CONNECTED, 1, map[], map[])

  /** `signal_prompt_state`; `None` when the actor is gone or the pattern's regex does not compile. */
  function PromptOf(
    patterns: map<nat, Pattern>, id: Option<nat>, transcript: Option<seq<Byte>>, regex: RegexEngine)
    : Option<PromptState>
  {
    if id.None? then Some(NotChecked)
    else if transcript.None? then None
    else if id.value !in patterns then Some(Dirty(|transcript.value|))
    else
      match patterns[id.value]
      case LiteralSuffix(suffix) =>
        var gap := Prompt.LiteralSuffixGap(transcript.value, suffix);
        Some(if gap == 0 then Clean else Dirty(gap))
      case RegexSuffix(pattern) =>
        match regex(pattern, transcript.value)
        case InvalidPattern => None
        case NoMatch => Some(if transcript.value == [] then Clean else Dirty(|transcript.value|))
        case Trailing(count) => Some(if count == 0 then Clean else Dirty(count))
  }

  function Serve(c: Control, request: Request, pty: Pty, regex: RegexEngine): (Control, Response) {
    match request
    case Input(source, bytes) =>
      (c.(port := Accept(c.port, source, bytes)), if c.port.writer.stopped then IoError else Accepted)
    case RawClose =>
      (c.(port := Ask(c.port, CloseHumanInput, pty)),
       match Answer(c.port, CloseHumanInput, pty)
       case Some(Leased(lease)) => RawLease(lease)
       case _ => IoError)
    case RawOpen(lease) =>
      var asked := c.(port := Ask(c.port, OpenHumanInput(lease), pty));
      (match Answer(c.port, OpenHumanInput(lease), pty)
       case Some(Released(_, count)) => (asked.(leases := c.leases - {lease}), RawReleased(lease, count))
       case _ => (asked, IoError))
    case Register(pattern) =>
      (c.(nextPattern := SaturatingAdd(c.nextPattern, 1), patterns := c.patterns[c.nextPattern := pattern]),
       Registered(c.nextPattern))
    case Unregister(id) => (c.(patterns := c.patterns - {id}), Unregistered)
    case Acquire(id, transcript) =>
      (match PromptOf(c.patterns, id, transcript, regex)
       case None => (c, IoError)
       case Some(prompt) =>
         var asked := c.(port := Ask(c.port, CloseHumanInput, pty));
         match Answer(c.port, CloseHumanInput, pty)
         case Some(Leased(lease)) =>
           (asked.(leases := c.leases[AsU64(AsI64(lease)) := prompt]), GateAcquired(AsI64(lease), prompt))
         case Some(AlreadyClosed(lease)) => (asked, GateBusy(AsI64(lease)))
         case _ => (asked, IoError))
    case Release(lease) =>
      var key := AsU64(lease);
      if key !in c.leases then (c, UnknownLease)
      else
        var asked := c.(port := Ask(c.port, OpenHumanInput(key), pty));
        (match Answer(c.port, OpenHumanInput(key), pty)
         case Some(Released(_, count)) => (asked.(leases := c.leases - {key}), GateReleased(lease, count))
         case Some(StaleLease) => (asked.(leases := c.leases - {key}), UnknownLease)
         case _ => (asked, IoError))
    case Inject(lease, bytes, lastSequence) =>
      var key := AsU64(lease);
      if key !in c.leases then (c, UnknownLease)
      else if c.leases[key].Dirty? then (c, DirtyPrompt)
      else
        (c.(port := Accept(c.port, Programmatic, bytes)),
         if c.port.writer.stopped || lastSequence.None? then IoError else InjectionAck(AsI64(lastSequence.value)))
  }

  /** A request is served, or the worker behind the port takes the next command. */
  datatype Move = Asked(request: Request) | Worked

  function Next(c: Control, move: Move, pty: Pty, regex: RegexEngine): Control {
    match move
    case Asked(request) => Serve(c, request, pty, regex).0
    case Worked => c.(port := Work(c.port, pty))
  }

  function Run(moves: seq<Move>, pty: Pty, regex: RegexEngine): Control {
    if moves == [] then IDLE
    else Next(Run(moves[..|moves| - 1], pty, regex), moves[|moves| - 1], pty, regex)
  }

  // ---------------------------------------------------------------- the control plane

  class TerminalControl {
    const inputPort: TerminalInputPort
    const regex: RegexEngine
    var nextPromptPattern: nat
    var promptPatterns: map<nat, Pattern>
    var signalLeases: map<nat, PromptState>

    ghost function View(): Control
      reads this, inputPort, inputPort.writer, inputPort.writer.inputGate
    {
      Control(inputPort.View(), nextPromptPattern, promptPatterns, signalLeases)
    }

    constructor (pty: Pty, regex: RegexEngine)
      ensures fresh(inputPort) && fresh(inputPort.writer) && fresh(inputPort.writer.inputGate) && View() == IDLE
      ensures inputPort.writer.inputGate.pty == pty && this.regex == regex
    {
      inputPort := new TerminalInputPort(pty);
      this.regex := regex;
      nextPromptPattern, promptPatterns, signalLeases := 1, map[], map[];
    }

    function Pty(): Pty
      reads inputPort, inputPort.writer, inputPort.writer.inputGate
    {
      inputPort.writer.inputGate.pty
    }

    method AcquireSignalInputGate(id: Option<nat>, transcript: Option<seq<Byte>>) returns (response: Response)
      modifies this, inputPort, inputPort.writer, inputPort.writer.inputGate
      ensures (View(), response) == Serve(old(View()), Acquire(id, transcript), Pty(), regex)
    {
      var prompt := PromptOf(promptPatterns, id, transcript, regex);
      if prompt.None? {
        return IoError;
      }
      var reply := inputPort.AskWorker(CloseHumanInput);
      match reply
      case Some(Leased(lease)) =>
        var signalLease := AsI64(lease);
        signalLeases := signalLeases[AsU64(signalLease) := prompt.value];
        response := GateAcquired(signalLease, prompt.value);
      case Some(AlreadyClosed(lease)) => response := GateBusy(AsI64(lease));
      case _ => response := IoError;
    }

    method ReleaseSignalInputGate(lease: int) returns (response: Response)
      modifies this, inputPort, inputPort.writer, inputPort.writer.inputGate
      ensures (View(), response) == Serve(old(View()), Release(lease), Pty(), regex)
    {
      hide PromptOf, Ask, Answer;
      var key := AsU64(lease);
      if key !in signalLeases {
        return UnknownLease;
      }
      var reply := inputPort.AskWorker(OpenHumanInput(key));
      match reply
      case Some(Released(_, count)) =>
        signalLeases := signalLeases - {key};
        response := GateReleased(lease, count);
      case Some(StaleLease) =>
        signalLeases := signalLeases - {key};
        response := UnknownLease;
      case _ => response := IoError;
    }

    method WriteSignalInjection(lease: int, bytes: seq<Byte>, lastSequence: Option<nat>) returns (response: Response)
      modifies this, inputPort, inputPort.writer, inputPort.writer.inputGate
      ensures (View(), response) == Serve(old(View()), Inject(lease, bytes, lastSequence), Pty(), regex)
    {
      var key := AsU64(lease);
      if key !in signalLeases {
        return UnknownLease;
      }
      if signalLeases[key].Dirty? {
        return DirtyPrompt;
      }
      var ok := inputPort.AcceptInput(Programmatic, bytes);
      response := if !ok || lastSequence.None? then IoError else InjectionAck(AsI64(lastSequence.value));
    }

    method CloseHuman() returns (response: Response)
      modifies this, inputPort, inputPort.writer, inputPort.writer.inputGate
      ensures (View(), response) == Serve(old(View()), RawClose, Pty(), regex)
    {
      var reply := inputPort.AskWorker(CloseHumanInput);
      match reply
      case Some(Leased(lease)) => response := RawLease(lease);
      case _ => response := IoError;
    }

    method OpenHuman(lease: nat) returns (response: Response)
      modifies this, inputPort, inputPort.writer, inputPort.writer.inputGate
      ensures (View(), response) == Serve(old(View()), RawOpen(lease), Pty(), regex)
    {
      hide PromptOf, AsI64, AsU64, Ask;
      var reply := inputPort.AskWorker(OpenHumanInput(lease));
      assert reply.Some? && reply.value.Released? ==> reply.value.lease == lease;
      match reply
      case Some(Released(released, count)) =>
        signalLeases := signalLeases - {released};
        response := RawReleased(released, count);
      case _ => response := IoError;
    }

    method RegisterPromptPattern(pattern: Pattern) returns (response: Response)
      modifies this
      ensures (View(), response) == Serve(old(View()), Register(pattern), Pty(), regex)
    {
      var id := nextPromptPattern;
      nextPromptPattern := SaturatingAdd(nextPromptPattern, 1);
      promptPatterns := promptPatterns[id := pattern];
      response := Registered(id);
    }

    method UnregisterPromptPattern(id: nat) returns (response: Response)
      modifies this
      ensures (View(), response) == Serve(old(View()), Unregister(id), Pty(), regex)
    {
      promptPatterns := promptPatterns - {id};
      response := Unregistered;
    }

    method WriteInput(source: Source, bytes: seq<Byte>) returns (response: Response)
      modifies this, inputPort, inputPort.writer, inputPort.writer.inputGate
      ensures (View(), response) == Serve(old(View()), Input(source, bytes), Pty(), regex)
    {
      var ok := inputPort.AcceptInput(source, bytes);
      response := if ok then Accepted else IoError;
    }
  }

  // ---------------------------------------------------------------- the registry agrees with the gate

  /** The registry is empty or holds exactly the lease the gate is closed under. What is queued
      for the worker cannot change that, since only writes are ever left in the channel. */
  ghost predicate Agrees(c: Control, pty: Pty) {
    && (forall key :: key in c.leases ==> c.port.writer.gate == Closed(key))
    && (c.port.writer.gate.Closed? ==> c.port.writer.gate.lease <= U64_MAX)
    && c.port.writer.nextSequence <= U64_MAX
    && OnlyWrites(c.port.channel) && Ordered(c.port, pty)
  }

  lemma PortStep(c: Control, command: Command, pty: Pty)
    requires Agrees(c, pty)
    ensures
      var q := Ask(c.port, command, pty);
      var d := Drain(c.port, pty);
      && Ordered(q, pty) && OnlyWrites(q.channel)
      && d.writer.gate == c.port.writer.gate && d.writer.nextSequence == c.port.writer.nextSequence
      && (c.port.writer.stopped ==> q == c.port && d.writer.stopped)
      && (!c.port.writer.stopped ==> q.writer == Handle(d.writer, command, pty))
  {
    hide Handle, Ordered;
    AskKeepsOrder(c.port, command, pty);
    DrainKeepsGate(c.port, pty);
    if c.port.writer.stopped {
      assert c.port.channel == [] by {
        StoppedIsEmpty(c.port, pty);
      }
    }
  }

  lemma StoppedIsEmpty(p: Port, pty: Pty)
    requires Ordered(p, pty)
    ensures p.writer.stopped ==> p.channel == []
  {
  }

  lemma AcceptStep(c: Control, source: Source, bytes: seq<Byte>, pty: Pty)
    requires Agrees(c, pty)
    ensures Agrees(c.(port := Accept(c.port, source, bytes)), pty)
  {
    hide Ordered;
    AcceptKeepsOrder(c.port, source, bytes, pty);
  }

  lemma ServeAgrees(c: Control, request: Request, pty: Pty, regex: RegexEngine)
    requires Agrees(c, pty)
    ensures Agrees(Serve(c, request, pty, regex).0, pty)
  {
    hide Ordered, Ask, Drain, Accept, Flushed, AllWrote, PromptOf, Flatten;
    match request
    case Input(source, bytes) => AcceptStep(c, source, bytes, pty);
    case Inject(_, bytes, _) => AcceptStep(c, Programmatic, bytes, pty);
    case RawClose => PortStep(c, CloseHumanInput, pty);
    case RawOpen(lease) => PortStep(c, OpenHumanInput(lease), pty);
    case Acquire(_, _) =>
      PortStep(c, CloseHumanInput, pty);
      LeaseSurvivesCasts(c.port.writer.nextSequence);
      hide AsI64, AsU64;
    case Release(lease) => PortStep(c, OpenHumanInput(AsU64(lease)), pty);
    case _ =>
  }

  lemma NextAgrees(c: Control, move: Move, pty: Pty, regex: RegexEngine)
    requires Agrees(c, pty)
    ensures Agrees(Next(c, move, pty, regex), pty)
  {
    match move
    case Asked(request) => ServeAgrees(c, request, pty, regex);
    case Worked =>
      WorkKeepsOrder(c.port, pty);
      WorkKeepsGate(c.port, pty);
      hide Ordered, Work;
  }

  /** In every run, with any mixture of raw and Signal requests, any progress of the worker,
      failing flushes and writes, and even saturated counters. */
  lemma {:induction false} RegistryAgrees(moves: seq<Move>, pty: Pty, regex: RegexEngine)
    ensures Agrees(Run(moves, pty, regex), pty)
  {
    if moves != [] {
      hide Next, Agrees;
      var init := moves[..|moves| - 1];
      RegistryAgrees(init, pty, regex);
      NextAgrees(Run(init, pty, regex), moves[|moves| - 1], pty, regex);
    } else {
      assert Ordered(CONNECTED, pty);
    }
  }

  // ---------------------------------------------------------------- what becomes of an injection

  /** Where the worker will stand when it has handled everything sent so far. */
  function Ahead(c: Control, pty: Pty): State {
    InputGate.Run(c.port.sent, pty)
  }

  lemma AheadIsDrained(c: Control, pty: Pty)
    requires Agrees(c, pty)
    ensures Drain(c.port, pty).writer == Ahead(c, pty)
    ensures Ahead(c, pty).gate == c.port.writer.gate && Ahead(c, pty).nextSequence == c.port.writer.nextSequence
    ensures c.port.writer.stopped ==> Ahead(c, pty) == c.port.writer
  {
    DrainedIsRun(c.port, pty);
    DrainKeepsGate(c.port, pty);
    StoppedIsEmpty(c.port, pty);
  }

  /** A request to the worker is answered from there. */
  lemma AskAhead(c: Control, command: Command, pty: Pty)
    requires Agrees(c, pty)
    ensures Ask(c.port, command, pty).writer == Handle(Ahead(c, pty), command, pty)
    ensures Answer(c.port, command, pty) ==
            if Ahead(c, pty).stopped then None else Some(ReplyTo(Ahead(c, pty), command, pty))
    ensures Ahead(c, pty).gate == c.port.writer.gate && Ahead(c, pty).nextSequence == c.port.writer.nextSequence
  {
    AheadIsDrained(c, pty);
    HandleStopped(Ahead(c, pty), command, pty);
    hide Handle, ReplyTo, Ahead, Ordered, Drain;
  }

  /** An injection is queued exactly when its lease is registered, its prompt was not found dirty
      and the worker lives; it is acknowledged if the actor answers too. So a refused one changes
      nothing, and a failed one may have been queued. */
  lemma InjectionQueuedExactly(
    c: Control, lease: int, bytes: seq<Byte>, lastSequence: Option<nat>, pty: Pty, regex: RegexEngine)
    ensures
      var (c', response) := Serve(c, Inject(lease, bytes, lastSequence), pty, regex);
      var queued := AsU64(lease) in c.leases && !c.leases[AsU64(lease)].Dirty? && !c.port.writer.stopped;
      && c'.port.sent == (if queued then c.port.sent + [Write(Programmatic, bytes)] else c.port.sent)
      && c'.port.writer == c.port.writer
      && (response.InjectionAck? <==> queued && lastSequence.Some?)
      && (response.UnknownLease? || response.DirtyPrompt? ==> c' == c)
  {
    hide AsU64, AsI64;
  }

  lemma NextSends(c: Control, move: Move, pty: Pty, regex: RegexEngine)
    ensures c.port.sent <= Next(c, move, pty, regex).port.sent
  {
    DrainKeepsSent(c.port, pty);
    hide Drain, Handle, PromptOf, Answer;
  }

  lemma RunSnoc(moves: seq<Move>, move: Move, pty: Pty, regex: RegexEngine)
    ensures Run(moves + [move], pty, regex) == Next(Run(moves, pty, regex), move, pty, regex)
  {
    hide Next;
    assert (moves + [move])[..|moves|] == moves;
  }

  lemma {:induction false} SentGrows(moves: seq<Move>, more: seq<Move>, pty: Pty, regex: RegexEngine)
    ensures Run(moves, pty, regex).port.sent <= Run(moves + more, pty, regex).port.sent
    decreases |more|
  {
    if more == [] {
      assert moves + more == moves;
    } else {
      hide Next, Run;
      var init, last := more[..|more| - 1], more[|more| - 1];
      assert moves + more == (moves + init) + [last];
      SentGrows(moves, init, pty, regex);
      RunSnoc(moves + init, last, pty, regex);
      NextSends(Run(moves + init, pty, regex), last, pty, regex);
    }
  }

  /** The state in which an acknowledged injection was queued: its lease is the only one on
      record, its prompt was not found dirty, and when the worker gets to it the gate will still be
      closed under that lease. The worker gets to it unless a write queued before it fails. */
  ghost predicate QueuedUnder(c: Control, lease: int, pty: Pty) {
    && c.leases.Keys == {AsU64(lease)} && !c.leases[AsU64(lease)].Dirty?
    && !c.port.writer.stopped && Ahead(c, pty).gate == Closed(AsU64(lease))
    && c.port.writer.attempts <= Ahead(c, pty).attempts
    && (Ahead(c, pty).stopped <==> !AllWrote(Ahead(c, pty).attempts[|c.port.writer.attempts|..]))
  }

  lemma QueuedInState(
    c: Control, lease: int, bytes: seq<Byte>, lastSequence: Option<nat>, pty: Pty, regex: RegexEngine)
    requires Agrees(c, pty) && Serve(c, Inject(lease, bytes, lastSequence), pty, regex).1.InjectionAck?
    ensures QueuedUnder(c, lease, pty)
  {
    hide AsU64, AsI64, Ahead, AllWrote, Agrees, Accept;
    assert AsU64(lease) in c.leases && !c.port.writer.stopped;
    AheadIsDrained(c, pty);
    QueuedWrites(c, pty);
    OneLease(c, AsU64(lease), pty);
  }

  lemma OneLease(c: Control, key: nat, pty: Pty)
    requires Agrees(c, pty) && key in c.leases
    ensures c.port.writer.gate == Closed(key) && c.leases.Keys == {key} && c.leases - {key} == map[]
  {
    hide Ordered;
    forall other | other in c.leases ensures other == key {
    }
    assert c.leases - {key} == map[];
  }

  lemma QueuedWrites(c: Control, pty: Pty)
    requires Agrees(c, pty) && !c.port.writer.stopped
    ensures c.port.writer.attempts <= Ahead(c, pty).attempts
    ensures Ahead(c, pty).stopped <==> !AllWrote(Ahead(c, pty).attempts[|c.port.writer.attempts|..])
  {
    hide InputGate.Run, AllWrote;
    var taken := c.port.sent[..|c.port.sent| - |c.port.channel|];
    assert taken + c.port.channel == c.port.sent;
    WritesStopExactly(taken, c.port.channel, pty);
  }

  /** The fate of an acknowledged injection, in every run and every continuation: it is handed to
      the PTY under its own lease, right after what was queued before it, once the worker gets
      there, exactly if no write queued before it fails; otherwise it never is. */
  lemma {:induction false} AcknowledgedInjectionFate(
    moves: seq<Move>, lease: int, bytes: seq<Byte>, lastSequence: Option<nat>, more: seq<Move>, pty: Pty,
    regex: RegexEngine)
    requires Serve(Run(moves, pty, regex), Inject(lease, bytes, lastSequence), pty, regex).1.InjectionAck?
    ensures
      var c := Run(moves, pty, regex);
      var d := Run(moves + [Asked(Inject(lease, bytes, lastSequence))] + more, pty, regex);
      && QueuedUnder(c, lease, pty)
      && Fate(d.port, c.port.sent, Attempt(Programmatic, bytes, pty(|Ahead(c, pty).attempts|)), pty)
  {
    var c, inject := Run(moves, pty, regex), Inject(lease, bytes, lastSequence);
    var asked := moves + [Asked(inject)];
    var d := Run(asked + more, pty, regex);
    RegistryAgrees(moves, pty, regex);
    RegistryAgrees(asked + more, pty, regex);
    RunSnoc(moves, Asked(inject), pty, regex);
    SentGrows(asked, more, pty, regex);
    InjectionQueuedExactly(c, lease, bytes, lastSequence, pty, regex);
    QueuedInState(c, lease, bytes, lastSequence, pty, regex);
    hide Run, Serve, QueuedUnder, Ordered, Fate, InputGate.Run;
    WriteMeetsItsFate(d.port, c.port.sent, Programmatic, bytes, pty);
  }

  /** So an acknowledgement is no promise: here the PTY fails at its first write, which was queued
      before the injection; the injection is acknowledged, and never attempted. */
  lemma {:induction false} AcknowledgedInjectionCanBeLost(more: seq<Move>, pty: Pty, regex: RegexEngine)
    requires pty(0).Failed?
    ensures
      var moves := [Asked(Acquire(None, None)), Asked(Input(Programmatic, [1]))];
      var inject := Inject(1, [2], Some(0));
      var d := Run(moves + [Asked(inject)] + more, pty, regex);
      && Serve(Run(moves, pty, regex), inject, pty, regex).1 == InjectionAck(0)
      && d.port.writer.attempts <= [Attempt(Programmatic, [1], pty(0))]
  {
    var moves := [Asked(Acquire(None, None)), Asked(Input(Programmatic, [1]))];
    LossyRun(pty, regex);
    LossyAhead(pty);
    hide Run, Serve, InputGate.Run;
    AcknowledgedInjectionFate(moves, 1, [2], Some(0), more, pty, regex);
  }

  lemma FirstAcquire(pty: Pty, regex: RegexEngine)
    ensures
      var c := Serve(IDLE, Acquire(None, None), pty, regex).0;
      c.leases == map[1 := NotChecked] && c.port == Port(State(Closed(1), 2, [], [], false), [], [CloseHumanInput])
  {
    assert [] + [CloseHumanInput] == [CloseHumanInput];
  }

  lemma InputThenInject(c: Control, pty: Pty, regex: RegexEngine)
    requires 1 in c.leases && c.leases[1] == NotChecked && !c.port.writer.stopped
    ensures
      var d := Serve(c, Input(Programmatic, [1]), pty, regex).0;
      && d.port.sent == c.port.sent + [Write(Programmatic, [1])]
      && Serve(d, Inject(1, [2], Some(0)), pty, regex).1 == InjectionAck(0)
  {
  }

  lemma LossyRun(pty: Pty, regex: RegexEngine)
    ensures
      var c := Run([Asked(Acquire(None, None)), Asked(Input(Programmatic, [1]))], pty, regex);
      && c.port.sent == [CloseHumanInput, Write(Programmatic, [1])]
      && Serve(c, Inject(1, [2], Some(0)), pty, regex).1 == InjectionAck(0)
  {
    var first, second := Asked(Acquire(None, None)), Asked(Input(Programmatic, [1]));
    RunSnoc([], first, pty, regex);
    RunSnoc([first], second, pty, regex);
    assert [] + [first] == [first] && [first] + [second] == [first, second];
    assert Run([], pty, regex) == IDLE;
    hide Run, Serve;
    FirstAcquire(pty, regex);
    InputThenInject(Run([first], pty, regex), pty, regex);
    assert [CloseHumanInput] + [Write(Programmatic, [1])] == [CloseHumanInput, Write(Programmatic, [1])];
  }

  lemma LossyAhead(pty: Pty)
    requires pty(0).Failed?
    ensures
      var s := InputGate.Run([CloseHumanInput, Write(Programmatic, [1])], pty);
      s.stopped && s.attempts == [Attempt(Programmatic, [1], pty(0))]
  {
    InputPort.RunSnoc([], CloseHumanInput, pty);
    InputPort.RunSnoc([CloseHumanInput], Write(Programmatic, [1]), pty);
    assert [] + [CloseHumanInput] == [CloseHumanInput];
    assert [CloseHumanInput] + [Write(Programmatic, [1])] == [CloseHumanInput, Write(Programmatic, [1])];
  }

  // ---------------------------------------------------------------- releases

  /** A Signal release never finds its own registered lease stale: the branch that forgets the
      lease and answers `UnknownLease` after asking the gate is never taken. */
  lemma {:induction false} RegisteredLeaseIsNeverStale(moves: seq<Move>, lease: int, pty: Pty, regex: RegexEngine)
    ensures
      var c := Run(moves, pty, regex);
      Serve(c, Release(lease), pty, regex).1 == UnknownLease <==> AsU64(lease) !in c.leases
  {
    RegistryAgrees(moves, pty, regex);
    hide Run;
    AskAhead(Run(moves, pty, regex), OpenHumanInput(AsU64(lease)), pty);
    hide AsU64, Flushed, AllWrote, Ahead, Ordered, Ask, Answer, Flatten;
  }

  /** What a registered lease can expect of its release. Either the held human input is written
      out, byte for byte as counted, and gate and registry are free again; or a write of the flush
      fails, and the lease still holds both, with what the flush did not reach still held; or the
      worker had stopped, or stops at a write queued before, and the lease stays on record. */
  lemma {:induction false} ReleaseFreesOrKeeps(moves: seq<Move>, identifier: int, pty: Pty, regex: RegexEngine)
    requires AsU64(identifier) in Run(moves, pty, regex).leases
    ensures
      var c := Run(moves, pty, regex);
      var (c', response) := Serve(c, Release(identifier), pty, regex);
      var s := Ahead(c, pty);
      if s.stopped then
        response == IoError && c'.leases == c.leases && c'.port.writer.gate == Closed(AsU64(identifier))
      else
        ReleaseOutcome(s, c.leases, c', response, identifier, Flushed(Viewer, s.held, |s.attempts|, pty))
  {
    RegistryAgrees(moves, pty, regex);
    hide Run, Agrees, ReleaseOutcome, Serve, AsU64, Ahead;
    ReleaseStep(Run(moves, pty, regex), identifier, pty, regex);
  }

  /** A release that found the worker at `s` and made the writes `flushed`. */
  ghost predicate ReleaseOutcome(
    s: State, leases: map<nat, PromptState>, c': Control, response: Response, identifier: int, flushed: seq<PtyWrite>)
  {
    && |flushed| <= |s.held|
    && c'.port.writer.attempts == s.attempts + flushed
    && InputTraces.Attempted(flushed, Viewer) == s.held[..|flushed|]
    && c'.port.writer.held == s.held[|flushed|..]
    && if AllWrote(flushed) then
         && response == GateReleased(identifier, InputTraces.SumOfLengths(flushed))
         && c'.port.writer.gate == Open && c'.port.writer.held == [] && c'.leases == map[]
       else
         && response == IoError
         && c'.port.writer.gate == Closed(AsU64(identifier)) && c'.leases == leases
  }

  lemma ReleaseStep(c: Control, identifier: int, pty: Pty, regex: RegexEngine)
    requires Agrees(c, pty) && AsU64(identifier) in c.leases
    ensures
      var (c', response) := Serve(c, Release(identifier), pty, regex);
      var s := Ahead(c, pty);
      if s.stopped then
        response == IoError && c'.leases == c.leases && c'.port.writer.gate == Closed(AsU64(identifier))
      else
        ReleaseOutcome(s, c.leases, c', response, identifier, Flushed(Viewer, s.held, |s.attempts|, pty))
  {
    hide AsU64, Agrees, Ahead, Ask, Answer, Handle, ReplyTo, Flushed, AllWrote, Flatten,
         InputTraces.SumOfLengths, InputTraces.Attempted;
    var key := AsU64(identifier);
    AskAhead(c, OpenHumanInput(key), pty);
    OneLease(c, key, pty);
    if !Ahead(c, pty).stopped {
      OpenWrites(Ahead(c, pty), key, pty);
    } else {
      HandleStopped(Ahead(c, pty), OpenHumanInput(key), pty);
    }
  }

  /** What the worker does with the open of the holding lease. */
  lemma OpenWrites(s: State, key: nat, pty: Pty)
    requires s.gate == Closed(key) && !s.stopped
    ensures
      var flushed := Flushed(Viewer, s.held, |s.attempts|, pty);
      var s' := Handle(s, OpenHumanInput(key), pty);
      && |flushed| <= |s.held| && InputTraces.Attempted(flushed, Viewer) == s.held[..|flushed|]
      && s'.attempts == s.attempts + flushed && s'.held == s.held[|flushed|..]
      && (AllWrote(flushed) ==> s'.held == [] && s'.gate == Open)
      && (!AllWrote(flushed) ==> s'.gate == Closed(key))
      && ReplyTo(s, OpenHumanInput(key), pty) ==
         if AllWrote(flushed) then InputGate.Released(key, InputTraces.SumOfLengths(flushed)) else PtyFailed
  {
    hide Flatten, InputTraces.SumOfLengths, InputTraces.Attempted, InputTraces.Failures, Flushed, AllWrote;
    var flushed := Flushed(Viewer, s.held, |s.attempts|, pty);
    InputTraces.FlushedForViewer(s.held, |s.attempts|, pty);
    if AllWrote(flushed) {
      InputTraces.AttemptedLength(flushed);
      assert s.held[..|s.held|] == s.held;
    }
  }

  // ---------------------------------------------------------------- mutual exclusion

  /** The two requests that give a lease back. */
  predicate GivesBack(request: Request, key: nat) {
    request == RawOpen(key) || (request.Release? && AsU64(request.identifier) == key)
  }

  ghost predicate NeverGivesBack(moves: seq<Move>, key: nat) {
    forall i :: 0 <= i < |moves| && moves[i].Asked? ==> !GivesBack(moves[i].request, key)
  }

  ghost predicate HeldBy(c: Control, key: nat, prompt: PromptState) {
    c.port.writer.gate == Closed(key) && c.leases == map[key := prompt]
  }

  lemma HeldStep(c: Control, request: Request, key: nat, prompt: PromptState, pty: Pty, regex: RegexEngine)
    requires Agrees(c, pty) && HeldBy(c, key, prompt) && !GivesBack(request, key)
    ensures
      var (c', response) := Serve(c, request, pty, regex);
      HeldBy(c', key, prompt) && !response.GateAcquired? && !response.RawLease?
  {
    hide AsU64, AsI64, Agrees, Ahead, Ask, Answer, PromptOf, Handle, ReplyTo;
    match request
    case RawClose => ClosedStays(c, CloseHumanInput, key, pty);
    case RawOpen(lease) => ClosedStays(c, OpenHumanInput(lease), key, pty);
    case Acquire(_, _) => ClosedStays(c, CloseHumanInput, key, pty);
    case Release(lease) => ClosedStays(c, OpenHumanInput(AsU64(lease)), key, pty);
    case _ =>
  }

  lemma ClosedStays(c: Control, command: Command, key: nat, pty: Pty)
    requires Agrees(c, pty) && c.port.writer.gate == Closed(key)
    requires !command.Write? && command != OpenHumanInput(key)
    ensures Ask(c.port, command, pty).writer.gate == Closed(key)
    ensures Answer(c.port, command, pty) in {None, Some(AlreadyClosed(key)), Some(StaleLease)}
  {
    AskAhead(c, command, pty);
    hide Agrees, Ahead, Ask, Answer, Flushed, AllWrote, Flatten;
  }

  lemma {:induction false} HeldUntilGivenBack(
    moves: seq<Move>, more: seq<Move>, key: nat, prompt: PromptState, pty: Pty, regex: RegexEngine)
    requires HeldBy(Run(moves, pty, regex), key, prompt) && NeverGivesBack(more, key)
    ensures HeldBy(Run(moves + more, pty, regex), key, prompt)
    decreases |more|
  {
    if more == [] {
      assert moves + more == moves;
    } else {
      hide Serve, GivesBack, Run, Agrees;
      var init, last := more[..|more| - 1], more[|more| - 1];
      assert moves + more == (moves + init) + [last];
      HeldUntilGivenBack(moves, init, key, prompt, pty, regex);
      RegistryAgrees(moves + init, pty, regex);
      RunSnoc(moves + init, last, pty, regex);
      var c := Run(moves + init, pty, regex);
      if last.Asked? {
        HeldStep(c, last.request, key, prompt, pty, regex);
      } else {
        WorkHolds(c, pty);
      }
    }
  }

  lemma WorkHolds(c: Control, pty: Pty)
    requires Agrees(c, pty)
    ensures Work(c.port, pty).writer.gate == c.port.writer.gate
  {
    WorkKeepsGate(c.port, pty);
  }

  lemma AcquiredState(c: Control, request: Request, pty: Pty, regex: RegexEngine)
    requires Agrees(c, pty) && request.Acquire? && Serve(c, request, pty, regex).1.GateAcquired?
    ensures
      var (c', response) := Serve(c, request, pty, regex);
      HeldBy(c', AsU64(response.identifier), response.prompt)
  {
    LeaseSurvivesCasts(c.port.writer.nextSequence);
    AskAhead(c, CloseHumanInput, pty);
    hide AsU64, AsI64, PromptOf, Ordered, Ask, Answer, Ahead;
    assert c.leases == map[];
  }

  /** Two harnesses exclude each other: once a lease is acquired, then until it is given back
      the gate stays closed under it, its prompt state stays on record, and nobody else is
      granted a lease, whatever else is asked for. */
  lemma {:induction false} AcquiredExcludesOthers(
    moves: seq<Move>, acquire: Request, more: seq<Move>, next: Request, pty: Pty, regex: RegexEngine)
    requires acquire.Acquire? && Serve(Run(moves, pty, regex), acquire, pty, regex).1.GateAcquired?
    requires
      var key := AsU64(Serve(Run(moves, pty, regex), acquire, pty, regex).1.identifier);
      !GivesBack(next, key) && NeverGivesBack(more, key)
    ensures
      var granted := Serve(Run(moves, pty, regex), acquire, pty, regex).1;
      var c := Run(moves + [Asked(acquire)] + more, pty, regex);
      var answer := Serve(c, next, pty, regex).1;
      HeldBy(c, AsU64(granted.identifier), granted.prompt) && !answer.GateAcquired? && !answer.RawLease?
  {
    RegistryAgrees(moves, pty, regex);
    AcquiredState(Run(moves, pty, regex), acquire, pty, regex);
    var granted := Serve(Run(moves, pty, regex), acquire, pty, regex).1;
    var key := AsU64(granted.identifier);
    RunSnoc(moves, Asked(acquire), pty, regex);
    RegistryAgrees(moves + [Asked(acquire)] + more, pty, regex);
    hide Serve, GivesBack, AsU64, Run, HeldBy, NeverGivesBack, Agrees;
    HeldUntilGivenBack(moves + [Asked(acquire)], more, key, granted.prompt, pty, regex);
    HeldStep(Run(moves + [Asked(acquire)] + more, pty, regex), next, key, granted.prompt, pty, regex);
  }
}
