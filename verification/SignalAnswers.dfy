/** What the requests of the control plane are answered (src/daemon.rs), over every run of
    `SignalControl`: told from the requests made and from where the worker stands. */
module SignalAnswers {
  import opened Bytes
  import opened Flush
  import opened InputGate
  import opened InputPort
  import opened SignalControl
  import InputTraces
  import Prompt

  // ---------------------------------------------------------------- prompt patterns over a run

  predicate Registers(move: Move) {
    move.Asked? && move.request.Register?
  }

  function Registrations(moves: seq<Move>): nat {
    if moves == [] then 0
    else Registrations(moves[..|moves| - 1]) + if Registers(moves[|moves| - 1]) then 1 else 0
  }

  /** The pattern that was last registered under a number, unless it was unregistered since: the
      registrations are numbered from 1. */
  function PatternUnder(moves: seq<Move>, id: nat): Option<Pattern> {
    if moves == [] then None
    else
      var init := moves[..|moves| - 1];
      match moves[|moves| - 1]
      case Asked(Register(pattern)) =>
        if id == Saturating(Registrations(init) + 1) then Some(pattern) else PatternUnder(init, id)
      case Asked(Unregister(gone)) => if gone == id then None else PatternUnder(init, id)
      case _ => PatternUnder(init, id)
  }

  lemma NextPatterns(c: Control, move: Move, pty: Pty, regex: RegexEngine)
    ensures
      var c' := Next(c, move, pty, regex);
      match move
      case Asked(Register(pattern)) =>
        && c'.patterns == c.patterns[c.nextPattern := pattern] && c'.nextPattern == SaturatingAdd(c.nextPattern, 1)
      case Asked(Unregister(id)) => c'.patterns == c.patterns - {id} && c'.nextPattern == c.nextPattern
      case _ => c'.patterns == c.patterns && c'.nextPattern == c.nextPattern
  {
    hide Ask, Answer, Accept, Work, PromptOf, AsU64, AsI64, SaturatingAdd;
  }

  /** The patterns on record are those the requests leave. */
  lemma {:induction false} PatternsExactly(moves: seq<Move>, id: nat, pty: Pty, regex: RegexEngine)
    ensures
      var c := SignalControl.Run(moves, pty, regex);
      && c.nextPattern == Saturating(Registrations(moves) + 1)
      && PatternUnder(moves, id) == (if id in c.patterns then Some(c.patterns[id]) else None)
  {
    if moves != [] {
      hide Next;
      var init := moves[..|moves| - 1];
      PatternsExactly(init, id, pty, regex);
      NextPatterns(SignalControl.Run(init, pty, regex), moves[|moves| - 1], pty, regex);
    }
  }

  /** The number a registration is answered finds its pattern until it is unregistered; below
      2^64 - 1 registrations no other one gets it. */
  lemma {:induction false} RegisteredUntilUnregistered(
    moves: seq<Move>, pattern: Pattern, more: seq<Move>, pty: Pty, regex: RegexEngine)
    requires
      var register := Asked(Register(pattern));
      && Registrations(moves + [register] + more) < U64_MAX
      && Asked(Unregister(Saturating(Registrations(moves) + 1))) !in more
    ensures
      var response := Serve(SignalControl.Run(moves, pty, regex), Register(pattern), pty, regex).1;
      && response.Registered?
      && PatternUnder(moves + [Asked(Register(pattern))] + more, response.id) == Some(pattern)
  {
    PatternsExactly(moves, 0, pty, regex);
    PatternStays(moves, pattern, more);
    hide SignalControl.Run, PatternUnder, Registrations;
  }

  lemma {:induction false} PatternStays(moves: seq<Move>, pattern: Pattern, more: seq<Move>)
    requires Registrations(moves + [Asked(Register(pattern))] + more) < U64_MAX
    requires Asked(Unregister(Saturating(Registrations(moves) + 1))) !in more
    ensures
      PatternUnder(moves + [Asked(Register(pattern))] + more, Saturating(Registrations(moves) + 1)) == Some(pattern)
    decreases |more|
  {
    var registered := moves + [Asked(Register(pattern))];
    assert registered[..|moves|] == moves;
    if more == [] {
      assert registered + more == registered;
    } else {
      var init, last := more[..|more| - 1], more[|more| - 1];
      assert (registered + more)[..|registered + more| - 1] == registered + init;
      PatternStays(moves, pattern, init);
      RegistrationsGrow(registered, init);
    }
  }

  lemma {:induction false} RegistrationsGrow(moves: seq<Move>, more: seq<Move>)
    ensures Registrations(moves) <= Registrations(moves + more)
    decreases |more|
  {
    if more == [] {
      assert moves + more == moves;
    } else {
      assert (moves + more)[..|moves + more| - 1] == moves + more[..|more| - 1];
      RegistrationsGrow(moves, more[..|more| - 1]);
    }
  }

  // ---------------------------------------------------------------- what an acquire finds

  /** How many bytes follow the last prompt in a transcript. */
  ghost predicate TrailsBy(pattern: Pattern, transcript: seq<Byte>, regex: RegexEngine, gap: nat) {
    match pattern
    case LiteralSuffix(suffix) => Prompt.IsLeastGap(transcript, suffix, gap)
    case RegexSuffix(source) =>
      regex(source, transcript) == Trailing(gap) || (regex(source, transcript) == NoMatch && gap == |transcript|)
  }

  /** What is found at the prompt: nothing is checked exactly if no pattern is selected; an
      unknown pattern makes the whole transcript count as trailing; and else the prompt is clean
      if no byte follows it and dirty with the bytes that do. */
  ghost predicate Finds(
    prompt: PromptState, selection: Option<nat>, pattern: Option<Pattern>, transcript: Option<seq<Byte>>,
    regex: RegexEngine)
  {
    if selection.None? then prompt == NotChecked
    else
      transcript.Some? &&
      match pattern
      case None => prompt == Dirty(|transcript.value|)
      case Some(known) =>
        || (prompt == Clean && TrailsBy(known, transcript.value, regex, 0))
        || (prompt.Dirty? && prompt.trailing > 0 && TrailsBy(known, transcript.value, regex, prompt.trailing))
  }

  /** The prompt cannot be checked: the actor is gone, or the regex does not compile. */
  predicate Uncheckable(
    selection: Option<nat>, pattern: Option<Pattern>, transcript: Option<seq<Byte>>, regex: RegexEngine)
  {
    && selection.Some?
    && (|| transcript.None?
        || (pattern.Some? && pattern.value.RegexSuffix? &&
            regex(pattern.value.pattern, transcript.value) == InvalidPattern))
  }

  lemma PromptIsFound(
    patterns: map<nat, Pattern>, selection: Option<nat>, transcript: Option<seq<Byte>>, regex: RegexEngine)
    ensures
      var pattern :=
        if selection.Some? && selection.value in patterns then Some(patterns[selection.value]) else None;
      var prompt := PromptOf(patterns, selection, transcript, regex);
      && (prompt.None? <==> Uncheckable(selection, pattern, transcript, regex))
      && (prompt.Some? ==> Finds(prompt.value, selection, pattern, transcript, regex))
  {
    if selection.Some? && transcript.Some? && selection.value in patterns {
      if patterns[selection.value].LiteralSuffix? {
        Prompt.GapIsExact(transcript.value, patterns[selection.value].suffix);
      }
      hide Prompt.LiteralSuffixGap, Prompt.IsLeastGap;
    }
  }

  /** What an acquire is answered in every run: nothing if the prompt cannot be checked or the
      worker is gone by then; the holder if the gate is closed; and else the number of a new lease,
      under which the gate is closed, with the prompt as it was found. */
  lemma {:induction false} AcquireAnsweredExactly(
    moves: seq<Move>, selection: Option<nat>, transcript: Option<seq<Byte>>, pty: Pty, regex: RegexEngine)
    ensures
      var c := SignalControl.Run(moves, pty, regex);
      var pattern := if selection.Some? then PatternUnder(moves, selection.value) else None;
      var (c', response) := Serve(c, Acquire(selection, transcript), pty, regex);
      if Uncheckable(selection, pattern, transcript, regex) then response == IoError && c' == c
      else if Ahead(c, pty).stopped then response == IoError && c'.leases == c.leases
      else if Ahead(c, pty).gate.Closed? then
        response == GateBusy(AsI64(Ahead(c, pty).gate.lease)) && c'.leases == c.leases
      else
        && response.GateAcquired? && response.identifier == AsI64(Ahead(c, pty).nextSequence)
        && HeldBy(c', AsU64(response.identifier), response.prompt)
        && Finds(response.prompt, selection, pattern, transcript, regex)
  {
    var c := SignalControl.Run(moves, pty, regex);
    RegistryAgrees(moves, pty, regex);
    PatternsExactly(moves, if selection.Some? then selection.value else 0, pty, regex);
    hide SignalControl.Run, PatternUnder, Registrations;
    PromptIsFound(c.patterns, selection, transcript, regex);
    AskAhead(c, CloseHumanInput, pty);
    AcquireOutcome(c, selection, transcript, pty, regex);
    hide Agrees, Finds, Uncheckable, PromptOf, HeldBy, AsI64, AsU64, Ahead, Ask, Answer;
  }

  lemma AcquireOutcome(
    c: Control, selection: Option<nat>, transcript: Option<seq<Byte>>, pty: Pty, regex: RegexEngine)
    requires Agrees(c, pty)
    ensures
      var prompt := PromptOf(c.patterns, selection, transcript, regex);
      var (c', response) := Serve(c, Acquire(selection, transcript), pty, regex);
      if prompt.None? then response == IoError && c' == c
      else if Ahead(c, pty).stopped then response == IoError && c'.leases == c.leases
      else if Ahead(c, pty).gate.Closed? then
        response == GateBusy(AsI64(Ahead(c, pty).gate.lease)) && c'.leases == c.leases
      else
        && response == GateAcquired(AsI64(Ahead(c, pty).nextSequence), prompt.value)
        && HeldBy(c', AsU64(response.identifier), prompt.value)
  {
    hide PromptOf, AsI64, AsU64, Ahead, Ask, Answer, Agrees, Handle, HeldBy;
    AskAhead(c, CloseHumanInput, pty);
    if Serve(c, Acquire(selection, transcript), pty, regex).1.GateAcquired? {
      AcquiredState(c, Acquire(selection, transcript), pty, regex);
    }
  }

  /** A literal prompt is found clean exactly when the transcript is empty or ends with it. */
  lemma AcquiredCleanExactly(suffix: seq<Byte>, transcript: seq<Byte>, regex: RegexEngine, prompt: PromptState, id: nat)
    requires Finds(prompt, Some(id), Some(LiteralSuffix(suffix)), Some(transcript), regex)
    ensures prompt == Clean <==> transcript == [] || Prompt.EndsWith(transcript, suffix)
  {
    Prompt.NoGapExactly(transcript, suffix);
    Prompt.GapIsExact(transcript, suffix);
    hide Prompt.LiteralSuffixGap;
  }

  /** Injections under a lease, in every run and until it is given back: if the prompt was dirty
      when the gate was acquired, every one is refused and changes nothing at all; and if it was
      not, every one is queued for the living worker. */
  lemma {:induction false} PromptDecidesInjections(
    moves: seq<Move>, acquire: Request, more: seq<Move>, bytes: seq<Byte>, lastSequence: Option<nat>, pty: Pty,
    regex: RegexEngine)
    requires acquire.Acquire? && Serve(SignalControl.Run(moves, pty, regex), acquire, pty, regex).1.GateAcquired?
    requires NeverGivesBack(more, AsU64(Serve(SignalControl.Run(moves, pty, regex), acquire, pty, regex).1.identifier))
    ensures
      var granted := Serve(SignalControl.Run(moves, pty, regex), acquire, pty, regex).1;
      var c := SignalControl.Run(moves + [Asked(acquire)] + more, pty, regex);
      var (c', response) := Serve(c, Inject(granted.identifier, bytes, lastSequence), pty, regex);
      if granted.prompt.Dirty? then response == DirtyPrompt && c' == c
      else if c.port.writer.stopped then response == IoError && c' == c
      else
        && c'.port.sent == c.port.sent + [Write(Programmatic, bytes)]
        && (if lastSequence.Some? then response.InjectionAck? else response == IoError)
  {
    RegistryAgrees(moves, pty, regex);
    AcquiredState(SignalControl.Run(moves, pty, regex), acquire, pty, regex);
    var granted := Serve(SignalControl.Run(moves, pty, regex), acquire, pty, regex).1;
    var key := AsU64(granted.identifier);
    SignalControl.RunSnoc(moves, Asked(acquire), pty, regex);
    hide Serve, GivesBack, AsU64, SignalControl.Run, HeldBy, NeverGivesBack, Agrees;
    HeldUntilGivenBack(moves + [Asked(acquire)], more, key, granted.prompt, pty, regex);
    var c := SignalControl.Run(moves + [Asked(acquire)] + more, pty, regex);
    InjectHeld(c, granted.identifier, granted.prompt, bytes, lastSequence, pty, regex);
  }

  lemma InjectHeld(
    c: Control, identifier: int, prompt: PromptState, bytes: seq<Byte>, lastSequence: Option<nat>, pty: Pty,
    regex: RegexEngine)
    requires HeldBy(c, AsU64(identifier), prompt)
    ensures
      var (c', response) := Serve(c, Inject(identifier, bytes, lastSequence), pty, regex);
      if prompt.Dirty? then response == DirtyPrompt && c' == c
      else if c.port.writer.stopped then response == IoError && c' == c
      else
        && c'.port.sent == c.port.sent + [Write(Programmatic, bytes)]
        && (if lastSequence.Some? then response.InjectionAck? else response == IoError)
  {
    hide AsU64, AsI64;
  }

  // ---------------------------------------------------------------- the raw requests

  /** A raw close is answered the lease the gate is now closed under, exactly if it was open. */
  lemma {:induction false} RawCloseAnswered(moves: seq<Move>, pty: Pty, regex: RegexEngine)
    ensures
      var c := SignalControl.Run(moves, pty, regex);
      var (c', response) := Serve(c, RawClose, pty, regex);
      var s := Ahead(c, pty);
      && c'.leases == c.leases
      && if s.stopped || s.gate.Closed? then response == IoError && c'.port.writer == s
         else response == RawLease(s.nextSequence) && c'.port.writer.gate == Closed(s.nextSequence)
  {
    var c := SignalControl.Run(moves, pty, regex);
    RegistryAgrees(moves, pty, regex);
    AskAhead(c, CloseHumanInput, pty);
    HandleStopped(Ahead(c, pty), CloseHumanInput, pty);
    hide SignalControl.Run, Agrees, Ahead, Ask, Answer;
  }

  /** A raw open does what a Signal release of that number does, but without looking at the
      registry first: of a number the gate is not closed under it changes nothing. */
  lemma {:induction false} RawOpenFreesOrKeeps(moves: seq<Move>, lease: nat, pty: Pty, regex: RegexEngine)
    ensures
      var c := SignalControl.Run(moves, pty, regex);
      var (c', response) := Serve(c, RawOpen(lease), pty, regex);
      var s := Ahead(c, pty);
      var flushed := Flushed(Viewer, s.held, |s.attempts|, pty);
      if s.stopped || s.gate != Closed(lease) then
        response == IoError && c'.leases == c.leases && c'.port.writer == s
      else
        && c'.port.writer.attempts == s.attempts + flushed && c'.port.writer.held == s.held[|flushed|..]
        && if AllWrote(flushed) then
             && response == RawReleased(lease, InputTraces.SumOfLengths(flushed))
             && c'.port.writer.gate == Open && c'.leases == map[]
           else
             response == IoError && c'.port.writer.gate == Closed(lease) && c'.leases == c.leases
  {
    var c := SignalControl.Run(moves, pty, regex);
    RegistryAgrees(moves, pty, regex);
    hide SignalControl.Run, Agrees, Ahead, Ask, Answer, Handle, ReplyTo, Flushed, AllWrote, Flatten,
         InputTraces.SumOfLengths, InputTraces.Attempted;
    AskAhead(c, OpenHumanInput(lease), pty);
    var s := Ahead(c, pty);
    if s.stopped {
      HandleStopped(s, OpenHumanInput(lease), pty);
    } else if s.gate != Closed(lease) {
      OpenStale(s, lease, pty);
    } else {
      OpenWrites(s, lease, pty);
      OnlyThisLease(c, lease, pty);
    }
  }

  lemma OpenStale(s: State, lease: nat, pty: Pty)
    requires s.gate != Closed(lease)
    ensures Handle(s, OpenHumanInput(lease), pty) == s && ReplyTo(s, OpenHumanInput(lease), pty) == StaleLease
  {
  }

  lemma OnlyThisLease(c: Control, lease: nat, pty: Pty)
    requires Agrees(c, pty) && c.port.writer.gate == Closed(lease)
    ensures c.leases - {lease} == map[]
  {
    hide Ordered;
  }

  // ---------------------------------------------------------------- what a request sends

  /** The command a request has for the worker. */
  ghost function CommandFor(c: Control, request: Request, regex: RegexEngine): Option<Command> {
    match request
    case Input(source, bytes) => Some(Write(source, bytes))
    case RawClose => Some(CloseHumanInput)
    case RawOpen(lease) => Some(OpenHumanInput(lease))
    case Acquire(id, transcript) =>
      if PromptOf(c.patterns, id, transcript, regex).Some? then Some(CloseHumanInput) else None
    case Release(lease) => if AsU64(lease) in c.leases then Some(OpenHumanInput(AsU64(lease))) else None
    case Inject(lease, bytes, _) =>
      if AsU64(lease) in c.leases && !c.leases[AsU64(lease)].Dirty? then Some(Write(Programmatic, bytes)) else None
    case _ => None
  }

  /** A request sends the worker the one command it has for it, while the worker lives, and
      nothing else; what raw clients type is accepted exactly as long as it lives. */
  lemma {:induction false} RequestSends(moves: seq<Move>, request: Request, pty: Pty, regex: RegexEngine)
    ensures
      var c := SignalControl.Run(moves, pty, regex);
      var (c', response) := Serve(c, request, pty, regex);
      var command := CommandFor(c, request, regex);
      && c'.port.sent == (if command.None? || c.port.writer.stopped then c.port.sent
                          else c.port.sent + [command.value])
      && Ahead(c', pty) == (if command.None? then Ahead(c, pty) else Handle(Ahead(c, pty), command.value, pty))
      && (request.Input? ==> response == if c.port.writer.stopped then IoError else Accepted)
  {
    var c := SignalControl.Run(moves, pty, regex);
    RegistryAgrees(moves, pty, regex);
    StepSends(c, request, pty, regex);
    hide SignalControl.Run, Serve, PromptOf;
    var command := CommandFor(c, request, regex);
    if command.Some? {
      AheadIsDrained(c, pty);
      HandleStopped(Ahead(c, pty), command.value, pty);
      InputPort.RunSnoc(c.port.sent, command.value, pty);
    }
    hide Agrees, Handle, InputGate.Run;
  }

  lemma StepSends(c: Control, request: Request, pty: Pty, regex: RegexEngine)
    ensures
      var (c', response) := Serve(c, request, pty, regex);
      var command := CommandFor(c, request, regex);
      && c'.port.sent == (if command.None? || c.port.writer.stopped then c.port.sent
                          else c.port.sent + [command.value])
      && (request.Input? ==> response == if c.port.writer.stopped then IoError else Accepted)
  {
    DrainKeepsSent(c.port, pty);
    hide Drain, Handle, PromptOf, Answer, AsU64, AsI64;
  }
}
