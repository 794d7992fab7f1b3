/** `TerminalInputPort` (src/session.rs): the channel between those who send input commands and
    the one worker that handles them. Writes are only queued; a close or an open waits for its
    answer, and so for everything queued before it. */
module InputPort {
  import opened Bytes
  import opened Flush
  import opened InputGate

  /** The worker's state, the commands still in its channel, and every command ever sent. */
  datatype Port = Port(writer: State, channel: seq<Command>, sent: seq<Command>)

  const CONNECTED := Port(START, [], [])

  /** The worker takes one command; when a write fails it stops and its channel is gone. */
  function Work(p: Port, pty: Pty): Port {
    if p.channel == [] then p
    else
      var writer := Handle(p.writer, p.channel[0], pty);
      p.(writer := writer, channel := if writer.stopped then [] else p.channel[1..])
  }

  function Drain(p: Port, pty: Pty): Port
    decreases |p.channel|
  {
    if p.channel == [] then p else Drain(Work(p, pty), pty)
  }

  /** `accept`: the write is queued, and that is all. */
  function Accept(p: Port, source: Source, bytes: seq<Byte>): Port {
    if p.writer.stopped then p
    else p.(channel := p.channel + [Write(source, bytes)], sent := p.sent + [Write(source, bytes)])
  }

  /** `close_human_input` and `open_human_input`: the worker gets to the command after everything
      in its channel, or stops before. */
  function Ask(p: Port, command: Command, pty: Pty): Port {
    if p.writer.stopped then p
    else
      var d := Drain(p, pty);
      d.(writer := Handle(d.writer, command, pty), sent := d.sent + [command])
  }

  function Answer(p: Port, command: Command, pty: Pty): Option<Reply> {
    var d := Drain(p, pty);
    if p.writer.stopped || d.writer.stopped then None else Some(ReplyTo(d.writer, command, pty))
  }

  // ---------------------------------------------------------------- the port

  class TerminalInputPort {
    const writer: TerminalInputWriter
    var channel: seq<Command>
    ghost var sent: seq<Command>

    ghost function View(): Port
      reads this, writer, writer.inputGate
    {
      Port(writer.inputGate.View(writer.stopped), channel, sent)
    }

    constructor (pty: Pty)
      ensures fresh(writer) && fresh(writer.inputGate) && View() == CONNECTED
      ensures writer.inputGate.pty == pty
    {
      writer := new TerminalInputWriter(pty);
      channel, sent := [], [];
    }

    /** The worker's turn. */
    method Turn()
      modifies this`channel, writer, writer.inputGate
      ensures View() == Work(old(View()), writer.inputGate.pty)
    {
      if channel != [] {
        if !writer.stopped {
          writer.HandleCommand(channel[0]);
        }
        channel := if writer.stopped then [] else channel[1..];
      }
    }

    method AcceptInput(source: Source, bytes: seq<Byte>) returns (ok: bool)
      modifies this
      ensures View() == Accept(old(View()), source, bytes) && ok == !old(View()).writer.stopped
    {
      ok := !writer.stopped;
      if ok {
        channel, sent := channel + [Write(source, bytes)], sent + [Write(source, bytes)];
      }
    }

    /** One round trip; `None` when the worker is gone, or goes before it gets there. */
    method AskWorker(command: Command) returns (reply: Option<Reply>)
      requires !command.Write?
      modifies this, writer, writer.inputGate
      ensures View() == Ask(old(View()), command, writer.inputGate.pty)
      ensures reply == Answer(old(View()), command, writer.inputGate.pty)
    {
      hide Handle;
      if writer.stopped {
        return None;
      }
      while channel != []
        invariant Drain(View(), writer.inputGate.pty) == Drain(old(View()), writer.inputGate.pty)
        decreases |channel|
      {
        Turn();
      }
      sent := sent + [command];
      if writer.stopped {
        HandleStopped(writer.inputGate.View(true), command, writer.inputGate.pty);
        return None;
      }
      writer.HandleCommand(command);
      reply := Some(writer.replies[|writer.replies| - 1]);
    }
  }

  lemma HandleStopped(s: State, command: Command, pty: Pty)
    ensures s.stopped ==> Handle(s, command, pty) == s
  {
  }

  // ---------------------------------------------------------------- the channel keeps the order

  /** The worker is where the commands it has taken bring it, and the rest is in the channel. */
  ghost predicate Ordered(p: Port, pty: Pty) {
    && |p.channel| <= |p.sent|
    && p.sent[|p.sent| - |p.channel|..] == p.channel
    && p.writer == Run(p.sent[..|p.sent| - |p.channel|], pty)
    && (p.writer.stopped ==> p.channel == [])
  }

  lemma RunSnoc(commands: seq<Command>, command: Command, pty: Pty)
    ensures Run(commands + [command], pty) == Handle(Run(commands, pty), command, pty)
  {
    hide Handle;
    assert (commands + [command])[..|commands|] == commands;
  }

  lemma Advance(sent: seq<Command>, channel: seq<Command>, n: nat)
    requires n < |sent| && sent[n..] == channel
    ensures sent[n] == channel[0] && sent[n + 1..] == channel[1..]
    ensures sent[..n + 1] == sent[..n] + [sent[n]]
    ensures sent[..|sent|] == sent && sent[|sent|..] == []
  {
  }

  lemma DrainedIsOrdered(p: Port, pty: Pty)
    requires p.channel == [] && p.writer == Run(p.sent, pty)
    ensures Ordered(p, pty)
  {
    hide Run;
    assert p.sent[..|p.sent|] == p.sent && p.sent[|p.sent|..] == [];
  }

  lemma TakenIsOrdered(p: Port, n: nat, pty: Pty)
    requires n <= |p.sent| && p.sent[n..] == p.channel && p.writer == Run(p.sent[..n], pty) && !p.writer.stopped
    ensures Ordered(p, pty)
  {
    hide Run;
  }

  lemma WorkKeepsOrder(p: Port, pty: Pty)
    requires Ordered(p, pty)
    ensures Ordered(Work(p, pty), pty) && Work(p, pty).sent == p.sent
  {
    if p.channel != [] {
      hide Handle, Run;
      var n := |p.sent| - |p.channel|;
      Advance(p.sent, p.channel, n);
      RunSnoc(p.sent[..n], p.sent[n], pty);
      hide Ordered;
      if Run(p.sent[..n + 1], pty).stopped {
        StoppedIsFinal(p.sent, n + 1, pty);
        DrainedIsOrdered(Work(p, pty), pty);
      } else {
        TakenIsOrdered(Work(p, pty), n + 1, pty);
      }
    }
  }

  lemma AcceptKeepsOrder(p: Port, source: Source, bytes: seq<Byte>, pty: Pty)
    requires Ordered(p, pty)
    ensures Ordered(Accept(p, source, bytes), pty)
  {
    hide Run;
    if !p.writer.stopped {
      var p', n := Accept(p, source, bytes), |p.sent| - |p.channel|;
      assert p'.sent[..n] == p.sent[..n] && p'.sent[n..] == p.sent[n..] + [Write(source, bytes)];
    }
  }

  /** Whatever the worker has got to so far, once its channel is empty it is where handling all
      commands in the order of their sending brings it. */
  lemma {:induction false} DrainedIsRun(p: Port, pty: Pty)
    requires Ordered(p, pty)
    ensures
      var d := Drain(p, pty);
      d.channel == [] && d.sent == p.sent && d.writer == Run(p.sent, pty) && Ordered(d, pty)
    decreases |p.channel|
  {
    if p.channel == [] {
      assert p.sent[..|p.sent|] == p.sent;
    } else {
      WorkKeepsOrder(p, pty);
      DrainedIsRun(Work(p, pty), pty);
    }
  }

  lemma AskKeepsOrder(p: Port, command: Command, pty: Pty)
    requires Ordered(p, pty)
    ensures Ordered(Ask(p, command, pty), pty)
    ensures !p.writer.stopped ==> Ask(p, command, pty).channel == [] && Ask(p, command, pty).sent == p.sent + [command]
  {
    hide Handle, Run, Drain;
    if !p.writer.stopped {
      DrainedIsRun(p, pty);
      hide Ordered;
      RunSnoc(p.sent, command, pty);
      DrainedIsOrdered(Ask(p, command, pty), pty);
    }
  }

  // ---------------------------------------------------------------- writes leave the gate alone

  ghost predicate OnlyWrites(commands: seq<Command>) {
    forall i :: 0 <= i < |commands| ==> commands[i].Write?
  }

  lemma WorkKeepsGate(p: Port, pty: Pty)
    requires OnlyWrites(p.channel)
    ensures OnlyWrites(Work(p, pty).channel)
    ensures Work(p, pty).writer.gate == p.writer.gate && Work(p, pty).writer.nextSequence == p.writer.nextSequence
  {
  }

  lemma {:induction false} DrainKeepsGate(p: Port, pty: Pty)
    requires OnlyWrites(p.channel)
    ensures Drain(p, pty).channel == []
    ensures Drain(p, pty).writer.gate == p.writer.gate && Drain(p, pty).writer.nextSequence == p.writer.nextSequence
    decreases |p.channel|
  {
    if p.channel != [] {
      WorkKeepsGate(p, pty);
      DrainKeepsGate(Work(p, pty), pty);
    }
  }

  // ---------------------------------------------------------------- the fate of a queued write

  lemma HandleGrows(s: State, command: Command, pty: Pty)
    ensures s.attempts <= Handle(s, command, pty).attempts
  {
    hide Flushed, AllWrote;
  }

  lemma {:induction false} AttemptsGrow(commands: seq<Command>, more: seq<Command>, pty: Pty)
    ensures Run(commands, pty).attempts <= Run(commands + more, pty).attempts
    ensures Run(commands, pty).stopped ==> Run(commands + more, pty) == Run(commands, pty)
    decreases |more|
  {
    if more == [] {
      assert commands + more == commands;
    } else {
      hide Handle, Run;
      var init, last := more[..|more| - 1], more[|more| - 1];
      assert commands + more == (commands + init) + [last];
      AttemptsGrow(commands, init, pty);
      RunSnoc(commands + init, last, pty);
      HandleGrows(Run(commands + init, pty), last, pty);
      HandleStopped(Run(commands + init, pty), last, pty);
    }
  }

  /** A write that was sent after `before`, in a later state `p` of the port: it has been handed to
      the PTY, right after what came of the commands before it, exactly if the worker has got to
      it and none of those stopped the worker. */
  ghost predicate Fate(p: Port, before: seq<Command>, attempt: PtyWrite, pty: Pty) {
    var s := Run(before, pty);
    if |p.sent| - |p.channel| > |before| && !s.stopped then s.attempts + [attempt] <= p.writer.attempts
    else p.writer.attempts <= s.attempts
  }

  lemma WriteMeetsItsFate(p: Port, before: seq<Command>, source: Source, bytes: seq<Byte>, pty: Pty)
    requires Ordered(p, pty) && before + [Write(source, bytes)] <= p.sent
    requires Run(before, pty).gate == Open || source.Programmatic?
    ensures Fate(p, before, Attempt(source, bytes, pty(|Run(before, pty).attempts|)), pty)
  {
    var n, k := |p.sent| - |p.channel|, |before|;
    var write := Write(source, bytes);
    RunSnoc(before, write, pty);
    hide Run;
    if n > k {
      assert p.sent[..n] == (before + [write]) + p.sent[k + 1..n];
      AttemptsGrow(before + [write], p.sent[k + 1..n], pty);
    } else {
      assert before == p.sent[..n] + before[n..];
      AttemptsGrow(p.sent[..n], before[n..], pty);
    }
  }

  lemma {:induction false} DrainKeepsSent(p: Port, pty: Pty)
    ensures Drain(p, pty).sent == p.sent
    decreases |p.channel|
  {
    if p.channel != [] {
      DrainKeepsSent(Work(p, pty), pty);
    }
  }

  /** Queued writes stop the worker exactly if one of them fails. */
  lemma {:induction false} WritesStopExactly(commands: seq<Command>, writes: seq<Command>, pty: Pty)
    requires OnlyWrites(writes) && !Run(commands, pty).stopped
    ensures
      var s, s' := Run(commands, pty), Run(commands + writes, pty);
      && s'.gate == s.gate && s.attempts <= s'.attempts
      && (s'.stopped <==> !AllWrote(s'.attempts[|s.attempts|..]))
    decreases |writes|
  {
    if writes == [] {
      assert commands + writes == commands;
    } else {
      hide Handle, Run, AllWrote;
      var init, last := writes[..|writes| - 1], writes[|writes| - 1];
      assert commands + writes == (commands + init) + [last];
      WritesStopExactly(commands, init, pty);
      RunSnoc(commands + init, last, pty);
      WriteStep(Run(commands + init, pty), last, |Run(commands, pty).attempts|, pty);
    }
  }

  lemma WriteStep(s: State, write: Command, n: nat, pty: Pty)
    requires write.Write? && n <= |s.attempts| && (s.stopped <==> !AllWrote(s.attempts[n..]))
    ensures
      var s' := Handle(s, write, pty);
      && s'.gate == s.gate && s.attempts <= s'.attempts
      && (s'.stopped <==> !AllWrote(s'.attempts[n..]))
  {
    var s' := Handle(s, write, pty);
    if s'.attempts != s.attempts {
      var attempt := s'.attempts[|s.attempts|];
      assert s'.attempts[n..] == s.attempts[n..] + [attempt];
      AllWroteSnoc(s.attempts[n..], attempt);
      hide AllWrote;
    }
  }

  lemma AllWroteSnoc(attempts: seq<PtyWrite>, attempt: PtyWrite)
    ensures AllWrote(attempts + [attempt]) <==> AllWrote(attempts) && attempt.outcome.Wrote?
  {
    var longer := attempts + [attempt];
    assert longer[|attempts|] == attempt;
    assert forall i :: 0 <= i < |attempts| ==> longer[i] == attempts[i];
  }
}
