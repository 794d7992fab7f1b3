/** `TerminalInputGate` and `TerminalInputWriter` (src/session.rs): the one writer of the
    PTY, which holds human input back while the gate is closed. */
module InputGate {
  import opened Bytes
  import opened Flush

  datatype Source = Viewer | Programmatic

  datatype GateState = Open | Closed(lease: nat)

  datatype Command =
    | Write(source: Source, bytes: seq<Byte>)
    | CloseHumanInput
    | OpenHumanInput(lease: nat)

  /** Write number `n` of the run behaves as the PTY decides. */
  type Pty = Writer

  /** One chunk handed to the PTY, with its source, and what became of it. */
  type PtyWrite = Attempt<Source, seq<Byte>>

  datatype Reply =
    | Leased(lease: nat) | AlreadyClosed(lease: nat)
    | Released(lease: nat, heldByteCount: nat) | StaleLease | PtyFailed
    | NoReply

  /** `stopped`: a failing `Write` ends the worker; nothing is handled after that. */
  datatype State = State(
    gate: GateState,
    nextSequence: nat,
    held: seq<seq<Byte>>,
    attempts: seq<PtyWrite>,
    stopped: bool)

  const START := State(Open, 1, [], [], false)

  function Handle(s: State, command: Command, pty: Pty): State {
    if s.stopped then s
    else
      match command
      case Write(source, bytes) =>
        if s.gate.Closed? && source.Viewer? then s.(held := s.held + [bytes])
        else
          var outcome := pty(|s.attempts|);
          s.(attempts := s.attempts + [Attempt(source, bytes, outcome)], stopped := outcome.Failed?)
      case CloseHumanInput =>
        if s.gate.Closed? then s
        else s.(gate := Closed(s.nextSequence), nextSequence := SaturatingAdd(s.nextSequence, 1))
      case OpenHumanInput(lease) =>
        if s.gate != Closed(lease) then s
        else
          var flushed := Flushed(Viewer, s.held, |s.attempts|, pty);
          s.(attempts := s.attempts + flushed,
             held := s.held[|flushed|..],
             gate := if AllWrote(flushed) then Open else s.gate)
  }

  function ReplyTo(s: State, command: Command, pty: Pty): Reply {
    match command
    case Write(_, _) => NoReply
    case CloseHumanInput => if s.gate.Closed? then AlreadyClosed(s.gate.lease) else Leased(s.nextSequence)
    case OpenHumanInput(lease) =>
      if s.gate != Closed(lease) then StaleLease
      else if AllWrote(Flushed(Viewer, s.held, |s.attempts|, pty)) then Released(lease, |Flatten(s.held)|)
      else PtyFailed
  }

  function Run(commands: seq<Command>, pty: Pty): State {
    if commands == [] then START
    else Handle(Run(commands[..|commands| - 1], pty), commands[|commands| - 1], pty)
  }

  // ---------------------------------------------------------------- the worker

  class TerminalInputGate {
    var state: GateState
    var nextSequence: nat
    var heldHumanInput: seq<seq<Byte>>
    const pty: Pty
    /** What was handed to the PTY: the I/O edge of this model. */
    var attempts: seq<PtyWrite>

    constructor (pty: Pty)
      ensures state == Open && nextSequence == 1 && heldHumanInput == [] && attempts == []
      ensures this.pty == pty
    {
      state, nextSequence, heldHumanInput, attempts := Open, 1, [], [];
      this.pty := pty;
    }

    ghost function View(stopped: bool): State
      reads this
    {
      State(state, nextSequence, heldHumanInput, attempts, stopped)
    }

    method WriteToPty(source: Source, bytes: seq<Byte>) returns (ok: bool)
      modifies this`attempts
      ensures attempts == old(attempts) + [Attempt(source, bytes, pty(|old(attempts)|))]
      ensures ok == pty(|old(attempts)|).Wrote?
    {
      var outcome := pty(|attempts|);
      attempts := attempts + [Attempt(source, bytes, outcome)];
      ok := outcome.Wrote?;
    }

    method CloseHuman() returns (reply: Reply)
      modifies this
      ensures View(false) == Handle(old(View(false)), CloseHumanInput, pty)
      ensures reply == ReplyTo(old(View(false)), CloseHumanInput, pty)
    {
      match state
      case Closed(lease) => reply := AlreadyClosed(lease);
      case Open =>
        var lease := nextSequence;
        nextSequence := SaturatingAdd(nextSequence, 1);
        state := Closed(lease);
        reply := Leased(lease);
    }

    method OpenHuman(lease: nat) returns (reply: Reply)
      modifies this
      ensures View(false) == Handle(old(View(false)), OpenHumanInput(lease), pty)
      ensures reply == ReplyTo(old(View(false)), OpenHumanInput(lease), pty)
    {
      if state == Closed(lease) {
        var heldByteCount := HeldByteCount();
        var ok := FlushHeldHumanInput();
        if !ok {
          return PtyFailed;
        }
        state := Open;
        reply := Released(lease, heldByteCount);
      } else {
        reply := StaleLease;
      }
    }

    method HeldByteCount() returns (count: nat)
      ensures count == |Flatten(heldHumanInput)|
    {
      count := 0;
      for i := 0 to |heldHumanInput|
        invariant count == |Flatten(heldHumanInput[..i])|
      {
        FlattenSnoc(heldHumanInput[..i], heldHumanInput[i]);
        assert heldHumanInput[..i + 1] == heldHumanInput[..i] + [heldHumanInput[i]];
        count := count + |heldHumanInput[i]|;
      }
      assert heldHumanInput[..|heldHumanInput|] == heldHumanInput;
    }

    method FlushHeldHumanInput() returns (ok: bool)
      modifies this`attempts, this`heldHumanInput
      ensures
        var flushed := Flushed(Viewer, old(heldHumanInput), |old(attempts)|, pty);
        && attempts == old(attempts) + flushed
        && |flushed| <= |old(heldHumanInput)| && heldHumanInput == old(heldHumanInput)[|flushed|..]
        && ok == AllWrote(flushed)
    {
      hide FirstWrites, Flushed, AllWrote, AllTaken;
      ghost var held, writes, n := heldHumanInput, |attempts|, 0;
      NothingTried(Viewer, held, writes, pty);
      assert held[0..] == held;
      while heldHumanInput != []
        invariant n <= |held| && heldHumanInput == held[n..]
        invariant attempts == old(attempts) + FirstWrites(Viewer, held, n, writes, pty)
        invariant AllTaken(n, writes, pty)
        decreases |heldHumanInput|
      {
        FlushTurn(Viewer, held, n, writes, pty);
        ConcatAssociates(
          old(attempts), FirstWrites(Viewer, held, n, writes, pty), [Attempt(Viewer, held[n], pty(writes + n))]);
        var bytes := heldHumanInput[0];
        heldHumanInput := heldHumanInput[1..];
        var wrote := WriteToPty(Viewer, bytes);
        n := n + 1;
        if !wrote {
          FlushedIs(Viewer, held, n, writes, pty);
          return false;
        }
      }
      FlushedIs(Viewer, held, n, writes, pty);
      ok := true;
    }

    /** `write_input` */
    method WriteInput(source: Source, bytes: seq<Byte>) returns (ok: bool)
      modifies this
      ensures View(!ok) == Handle(old(View(false)), Write(source, bytes), pty)
    {
      if state.Closed? && source.Viewer? {
        heldHumanInput := heldHumanInput + [bytes];
        ok := true;
      } else {
        ok := WriteToPty(source, bytes);
      }
    }
  }

  class TerminalInputWriter {
    const inputGate: TerminalInputGate
    var stopped: bool
    var replies: seq<Reply>

    constructor (pty: Pty)
      ensures fresh(inputGate) && inputGate.pty == pty && inputGate.View(stopped) == START && replies == []
    {
      inputGate := new TerminalInputGate(pty);
      stopped, replies := false, [];
    }

    method HandleCommand(command: Command)
      requires !stopped
      modifies this, inputGate
      ensures inputGate.View(stopped) == Handle(old(inputGate.View(stopped)), command, inputGate.pty)
      ensures replies == if command.Write? then old(replies)
                         else old(replies) + [ReplyTo(old(inputGate.View(false)), command, inputGate.pty)]
    {
      match command
      case Write(source, bytes) =>
        var ok := inputGate.WriteInput(source, bytes);
        stopped := !ok;
      case CloseHumanInput =>
        var reply := inputGate.CloseHuman();
        replies := replies + [reply];
      case OpenHumanInput(lease) =>
        var reply := inputGate.OpenHuman(lease);
        replies := replies + [reply];
    }

    /** `run`: commands in channel order until a write fails. */
    method RunAll(commands: seq<Command>)
      requires inputGate.View(stopped) == START
      modifies this, inputGate
      ensures inputGate.View(stopped) == Run(commands, inputGate.pty)
    {
      hide Handle;
      var i := 0;
      while i < |commands| && !stopped
        invariant i <= |commands|
        invariant inputGate.View(stopped) == Run(commands[..i], inputGate.pty)
      {
        assert commands[..i + 1][..i] == commands[..i];
        HandleCommand(commands[i]);
        i := i + 1;
      }
      StoppedIsFinal(commands, i, inputGate.pty);
    }
  }

  lemma {:induction false} StoppedIsFinal(commands: seq<Command>, i: nat, pty: Pty)
    requires i <= |commands| && (i == |commands| || Run(commands[..i], pty).stopped)
    ensures Run(commands, pty) == Run(commands[..i], pty)
    decreases |commands|
  {
    if i == |commands| {
      assert commands[..i] == commands;
    } else {
      var init := commands[..|commands| - 1];
      assert init[..i] == commands[..i];
      StoppedIsFinal(init, i, pty);
    }
  }
}
