/** What the input gate does to whole command traces. */
module InputTraces {
  import opened Bytes
  import opened Flush
  import opened InputGate

  // ---------------------------------------------------------------- conservation, failing writer included

  /** The chunks a source sent, in order. */
  function Received(commands: seq<Command>, source: Source): seq<seq<Byte>> {
    if commands == [] then []
    else
      var last := commands[|commands| - 1];
      var earlier := Received(commands[..|commands| - 1], source);
      if last.Write? && last.source == source then earlier + [last.bytes] else earlier
  }

  /** The chunks handed to the PTY for a source, in order. */
  function Attempted(attempts: seq<PtyWrite>, source: Source): seq<seq<Byte>> {
    if attempts == [] then []
    else
      var last := attempts[|attempts| - 1];
      var earlier := Attempted(attempts[..|attempts| - 1], source);
      if last.owner == source then earlier + [last.chunk] else earlier
  }

  function Failures(attempts: seq<PtyWrite>): nat {
    if attempts == [] then 0
    else Failures(attempts[..|attempts| - 1]) + if attempts[|attempts| - 1].outcome.Failed? then 1 else 0
  }

  /** How many releases of the run reported a PTY error. */
  function FailedReleases(commands: seq<Command>, pty: Pty): nat {
    if commands == [] then 0
    else
      var init := commands[..|commands| - 1];
      var s := Run(init, pty);
      FailedReleases(init, pty) +
      if !s.stopped && ReplyTo(s, commands[|commands| - 1], pty).PtyFailed? then 1 else 0
  }

  lemma {:induction false} AttemptedConcat(a: seq<PtyWrite>, b: seq<PtyWrite>, source: Source)
    ensures Attempted(a + b, source) == Attempted(a, source) + Attempted(b, source)
    ensures Failures(a + b) == Failures(a) + Failures(b)
    decreases |b|
  {
    if b == [] {
      assert a + b == a;
    } else {
      AttemptedConcat(a, b[..|b| - 1], source);
      assert (a + b)[..|a + b| - 1] == a + b[..|b| - 1];
    }
  }

  lemma AttemptedOne(attempts: seq<PtyWrite>, attempt: PtyWrite, source: Source)
    ensures Attempted(attempts + [attempt], source) ==
            if attempt.owner == source then Attempted(attempts, source) + [attempt.chunk]
            else Attempted(attempts, source)
    ensures Failures(attempts + [attempt]) == Failures(attempts) + if attempt.outcome.Failed? then 1 else 0
  {
    assert (attempts + [attempt])[..|attempts|] == attempts;
  }

  /** A flush attempts a prefix of what is held, for the viewer, and stops at a failure. */
  lemma FlushedForViewer(held: seq<seq<Byte>>, writes: nat, pty: Pty)
    ensures
      var flushed := Flushed(Viewer, held, writes, pty);
      && Attempted(flushed, Viewer) == held[..|flushed|]
      && Attempted(flushed, Programmatic) == []
      && Failures(flushed) == (if AllWrote(flushed) then 0 else 1)
      && (AllWrote(flushed) ==> |flushed| == |held|)
      && (forall i :: 0 <= i < |flushed| ==> flushed[i].owner.Viewer?)
  {
    hide Flushed, AllWrote, Attempted, Failures;
    var flushed := Flushed(Viewer, held, writes, pty);
    FlushedShape(Viewer, held, writes, pty);
    AllForViewer(flushed, held);
    FailuresOfFlush(flushed);
  }

  lemma {:induction false} AllForViewer(attempts: seq<PtyWrite>, chunks: seq<seq<Byte>>)
    requires |attempts| <= |chunks|
    requires forall i :: 0 <= i < |attempts| ==> attempts[i].owner.Viewer? && attempts[i].chunk == chunks[i]
    ensures Attempted(attempts, Viewer) == chunks[..|attempts|] && Attempted(attempts, Programmatic) == []
  {
    if attempts != [] {
      var n := |attempts| - 1;
      AllForViewer(attempts[..n], chunks);
      assert chunks[..n + 1] == chunks[..n] + [chunks[n]];
    }
  }

  lemma {:induction false} NoFailures(attempts: seq<PtyWrite>)
    requires forall i :: 0 <= i < |attempts| ==> attempts[i].outcome.Wrote?
    ensures Failures(attempts) == 0
  {
    if attempts != [] {
      NoFailures(attempts[..|attempts| - 1]);
    }
  }

  lemma FailuresOfFlush(attempts: seq<PtyWrite>)
    requires forall i :: 0 <= i < |attempts| - 1 ==> attempts[i].outcome.Wrote?
    ensures Failures(attempts) == (if AllWrote(attempts) then 0 else 1)
  {
    if attempts != [] {
      NoFailures(attempts[..|attempts| - 1]);
      assert AllWrote(attempts) <==> attempts[|attempts| - 1].outcome.Wrote?;
    }
  }

  /** No byte disappears silently: every viewer chunk, in order, was handed to the PTY or is
      held; every programmatic chunk was handed over; an open gate holds nothing; and each
      write that failed was reported, by the failing release or by the worker's stop. */
  ghost predicate Conserved(s: State, commands: seq<Command>, failedReleases: nat) {
    && Attempted(s.attempts, Viewer) + s.held == Received(commands, Viewer)
    && Attempted(s.attempts, Programmatic) == Received(commands, Programmatic)
    && (s.gate.Open? ==> s.held == [])
    && Failures(s.attempts) == failedReleases + if s.stopped then 1 else 0
  }

  lemma ReceivedSnoc(commands: seq<Command>, command: Command, source: Source)
    ensures Received(commands + [command], source) ==
            if command.Write? && command.source == source then Received(commands, source) + [command.bytes]
            else Received(commands, source)
  {
    assert (commands + [command])[..|commands|] == commands;
  }

  lemma HandleConserves(s: State, commands: seq<Command>, command: Command, failedReleases: nat, pty: Pty)
    requires !s.stopped && Conserved(s, commands, failedReleases)
    ensures Conserved(Handle(s, command, pty), commands + [command],
                      failedReleases + if ReplyTo(s, command, pty).PtyFailed? then 1 else 0)
  {
    hide Attempted, Failures, Received, Flushed, AllWrote;
    ReceivedSnoc(commands, command, Viewer);
    ReceivedSnoc(commands, command, Programmatic);
    match command
    case Write(source, bytes) =>
      var attempt := Attempt(source, bytes, pty(|s.attempts|));
      AttemptedOne(s.attempts, attempt, Viewer);
      AttemptedOne(s.attempts, attempt, Programmatic);
      assert Attempted(s.attempts, Viewer) + (s.held + [bytes]) == (Attempted(s.attempts, Viewer) + s.held) + [bytes];
    case CloseHumanInput =>
    case OpenHumanInput(lease) =>
      if s.gate == Closed(lease) {
        FlushConserves(s, commands, pty);
      }
  }

  lemma FlushConserves(s: State, commands: seq<Command>, pty: Pty)
    ensures
      var flushed := Flushed(Viewer, s.held, |s.attempts|, pty);
      && |flushed| <= |s.held|
      && Attempted(s.attempts + flushed, Viewer) + s.held[|flushed|..] == Attempted(s.attempts, Viewer) + s.held
      && Attempted(s.attempts + flushed, Programmatic) == Attempted(s.attempts, Programmatic)
      && Failures(s.attempts + flushed) == Failures(s.attempts) + (if AllWrote(flushed) then 0 else 1)
      && (AllWrote(flushed) ==> s.held[|flushed|..] == [])
  {
    hide Attempted, Failures, Flushed, AllWrote;
    var flushed := Flushed(Viewer, s.held, |s.attempts|, pty);
    FlushedForViewer(s.held, |s.attempts|, pty);
    AttemptedConcat(s.attempts, flushed, Viewer);
    AttemptedConcat(s.attempts, flushed, Programmatic);
    assert s.held[..|flushed|] + s.held[|flushed|..] == s.held;
    ConcatAssociates(Attempted(s.attempts, Viewer), s.held[..|flushed|], s.held[|flushed|..]);
    assert Attempted(s.attempts, Programmatic) + [] == Attempted(s.attempts, Programmatic);
  }

  /** The run was handled to its end: the worker can have stopped only at its last command. */
  ghost predicate FullyHandled(commands: seq<Command>, pty: Pty) {
    commands != [] ==> !Run(commands[..|commands| - 1], pty).stopped
  }

  lemma StaysStopped(s: State, command: Command, pty: Pty)
    ensures s.stopped ==> Handle(s, command, pty) == s
  {
  }

  lemma {:induction false} GateConserves(commands: seq<Command>, pty: Pty)
    requires FullyHandled(commands, pty)
    ensures Conserved(Run(commands, pty), commands, FailedReleases(commands, pty))
  {
    if commands != [] {
      var init, last := commands[..|commands| - 1], commands[|commands| - 1];
      assert init + [last] == commands;
      assert FullyHandled(init, pty) by {
        if init != [] {
          StaysStopped(Run(init[..|init| - 1], pty), init[|init| - 1], pty);
        }
      }
      GateConserves(init, pty);
      HandleConserves(Run(init, pty), init, last, FailedReleases(init, pty), pty);
    }
  }

  // ---------------------------------------------------------------- which bytes reached the PTY

  /** The bytes of one write that reached the PTY. */
  function Landed(attempt: PtyWrite): seq<Byte> {
    match attempt.outcome
    case Wrote => attempt.chunk
    case Failed(written) => attempt.chunk[..Min(written, |attempt.chunk|)]
  }

  /** Everything that reached the PTY on behalf of a source, in order. */
  function Reached(attempts: seq<PtyWrite>, source: Source): seq<Byte> {
    if attempts == [] then []
    else
      var last := attempts[|attempts| - 1];
      var earlier := Reached(attempts[..|attempts| - 1], source);
      if last.owner == source then earlier + Landed(last) else earlier
  }

  /** How many bytes of a source failing writes left out. */
  function Shortfall(attempts: seq<PtyWrite>, source: Source): nat {
    if attempts == [] then 0
    else
      var last := attempts[|attempts| - 1];
      var earlier := Shortfall(attempts[..|attempts| - 1], source);
      if last.owner == source then earlier + |last.chunk| - |Landed(last)| else earlier
  }

  ghost predicate NothingCut(attempts: seq<PtyWrite>, source: Source) {
    forall i :: 0 <= i < |attempts| && attempts[i].owner == source ==> Landed(attempts[i]) == attempts[i].chunk
  }

  lemma {:induction false} ReachedOfAttempted(attempts: seq<PtyWrite>, source: Source)
    ensures |Reached(attempts, source)| + Shortfall(attempts, source) == |Flatten(Attempted(attempts, source))|
    ensures Shortfall(attempts, source) == 0 <==> NothingCut(attempts, source)
    ensures NothingCut(attempts, source) ==> Reached(attempts, source) == Flatten(Attempted(attempts, source))
  {
    if attempts != [] {
      var init, last := attempts[..|attempts| - 1], attempts[|attempts| - 1];
      ReachedOfAttempted(init, source);
      FlattenSnoc(Attempted(init, source), last.chunk);
      NothingCutSnoc(init, last, source);
      assert attempts == init + [last];
    }
  }

  lemma NothingCutSnoc(attempts: seq<PtyWrite>, attempt: PtyWrite, source: Source)
    ensures NothingCut(attempts + [attempt], source) <==>
            NothingCut(attempts, source) && (attempt.owner == source ==> Landed(attempt) == attempt.chunk)
    ensures |Landed(attempt)| <= |attempt.chunk|
    ensures |Landed(attempt)| == |attempt.chunk| <==> Landed(attempt) == attempt.chunk
  {
    var longer := attempts + [attempt];
    if NothingCut(longer, source) {
      assert longer[|attempts|] == attempt;
      forall i | 0 <= i < |attempts| && attempts[i].owner == source ensures Landed(attempts[i]) == attempts[i].chunk {
        assert longer[i] == attempts[i];
      }
    }
  }

  /** Byte for byte: what reached the PTY, what failing writes left out, and what is held make
      up what was received; and nothing is missing exactly when no write of the source was cut
      short. A failed release, in particular, forgets the rest of the chunk it was writing. */
  lemma {:induction false} BytesReachedExactly(commands: seq<Command>, pty: Pty)
    requires FullyHandled(commands, pty)
    ensures
      var s := Run(commands, pty);
      && |Reached(s.attempts, Viewer)| + Shortfall(s.attempts, Viewer) + |Flatten(s.held)| ==
         |Flatten(Received(commands, Viewer))|
      && (Reached(s.attempts, Viewer) + Flatten(s.held) == Flatten(Received(commands, Viewer)) <==>
            NothingCut(s.attempts, Viewer))
      && (Reached(s.attempts, Programmatic) == Flatten(Received(commands, Programmatic)) <==>
            NothingCut(s.attempts, Programmatic))
  {
    GateConserves(commands, pty);
    hide Run, Reached, Shortfall, NothingCut, Attempted, Received, Flatten, Failures, FailedReleases;
    var s := Run(commands, pty);
    ReachedOfAttempted(s.attempts, Viewer);
    ReachedOfAttempted(s.attempts, Programmatic);
    FlattenConcat(Attempted(s.attempts, Viewer), s.held);
  }

  lemma RunSnoc(commands: seq<Command>, command: Command, pty: Pty)
    ensures Run(commands + [command], pty) == Handle(Run(commands, pty), command, pty)
  {
    assert (commands + [command])[..|commands|] == commands;
  }

  lemma CutRelease(s: State, pty: Pty)
    requires s == State(Closed(1), 2, [[1, 2]], [], false) && pty(0) == Failed(1)
    ensures ReplyTo(s, OpenHumanInput(1), pty) == PtyFailed
    ensures Handle(s, OpenHumanInput(1), pty) == State(Closed(1), 2, [], [Attempt(Viewer, [1, 2], Failed(1))], false)
  {
    FlushedIs(Viewer, [[1, 2]], 1, 0, pty);
    var attempt := Attempt(Viewer, [1, 2], Failed(1));
    assert Flushed(Viewer, s.held, |s.attempts|, pty) == [attempt];
    assert [] + [attempt] == [attempt];
    assert ![attempt][0].outcome.Wrote?;
  }

  lemma EmptyRelease(s: State, pty: Pty)
    requires s.gate == Closed(1) && s.held == [] && !s.stopped
    ensures ReplyTo(s, OpenHumanInput(1), pty) == Released(1, 0)
    ensures Handle(s, OpenHumanInput(1), pty) == s.(gate := Open)
  {
    FlushedIs<Source, seq<Byte>>(Viewer, [], 0, |s.attempts|, pty);
    assert s.attempts + [] == s.attempts;
  }

  lemma ReachedOne(attempt: PtyWrite)
    requires attempt == Attempt(Viewer, [1, 2], Failed(1))
    ensures Reached([attempt], Viewer) == [1]
  {
    assert [attempt][..0] == [] && [1, 2][..1] == [1];
  }

  lemma HeldRun(pty: Pty) returns (commands: seq<Command>)
    ensures Received(commands, Viewer) == [[1, 2]]
    ensures Run(commands, pty) == State(Closed(1), 2, [[1, 2]], [], false)
  {
    hide Flushed, AllWrote;
    var closed := [CloseHumanInput];
    commands := closed + [Write(Viewer, [1, 2])];
    assert commands[..1] == closed && closed[..0] == [];
    assert Run(closed, pty) == State(Closed(1), 2, [], [], false);
  }

  /** It happens: with a PTY that fails one byte into the first write, a release loses the other
      byte. Repeating it succeeds and reports nothing held. */
  lemma {:induction false} FailedReleaseLosesBytes(pty: Pty) returns (before: seq<Command>)
    requires pty(0) == Failed(1)
    ensures Received(before, Viewer) == [[1, 2]] && ReplyTo(Run(before, pty), OpenHumanInput(1), pty) == PtyFailed
    ensures
      var s := Run(before + [OpenHumanInput(1)], pty);
      && s.gate == Closed(1) && s.held == [] && !s.stopped && Reached(s.attempts, Viewer) == [1]
      && ReplyTo(s, OpenHumanInput(1), pty) == Released(1, 0)
      && Handle(s, OpenHumanInput(1), pty) == s.(gate := Open)
  {
    before := HeldRun(pty);
    RunSnoc(before, OpenHumanInput(1), pty);
    CutRelease(Run(before, pty), pty);
    ReachedOne(Attempt(Viewer, [1, 2], Failed(1)));
    hide Run, Handle, ReplyTo, Reached;
    EmptyRelease(Run(before + [OpenHumanInput(1)], pty), pty);
  }

  // ---------------------------------------------------------------- releases

  function SumOfLengths(attempts: seq<PtyWrite>): nat {
    if attempts == [] then 0
    else SumOfLengths(attempts[..|attempts| - 1]) + |attempts[|attempts| - 1].chunk|
  }

  lemma {:induction false} AttemptedLength(attempts: seq<PtyWrite>)
    requires forall i :: 0 <= i < |attempts| ==> attempts[i].owner.Viewer?
    ensures SumOfLengths(attempts) == |Flatten(Attempted(attempts, Viewer))|
  {
    if attempts != [] {
      var init, last := attempts[..|attempts| - 1], attempts[|attempts| - 1];
      AttemptedLength(init);
      FlattenSnoc(Attempted(init, Viewer), last.chunk);
    }
  }

  /** A successful release wrote exactly the held chunks, completely; the count it reports is
      the number of bytes that flush wrote; and it leaves the gate open and empty. */
  lemma ReleaseCountsItsFlush(s: State, lease: nat, count: nat, pty: Pty)
    requires !s.stopped && ReplyTo(s, OpenHumanInput(lease), pty) == Released(lease, count)
    ensures
      var s' := Handle(s, OpenHumanInput(lease), pty);
      && |s.attempts| <= |s'.attempts| && s'.attempts[..|s.attempts|] == s.attempts
      && var flushed := s'.attempts[|s.attempts|..];
      && AllWrote(flushed)
      && Attempted(flushed, Viewer) == s.held
      && SumOfLengths(flushed) == count
      && s'.gate == Open && s'.held == []
  {
    hide Flushed, AllWrote, Attempted, SumOfLengths;
    var flushed := Flushed(Viewer, s.held, |s.attempts|, pty);
    FlushedForViewer(s.held, |s.attempts|, pty);
    AttemptedLength(flushed);
    assert s.held[..|s.held|] == s.held;
    assert (s.attempts + flushed)[|s.attempts|..] == flushed;
  }

  // ---------------------------------------------------------------- injection

  ghost predicate NeverOpens(commands: seq<Command>, lease: nat) {
    forall i :: 0 <= i < |commands| ==> commands[i] != OpenHumanInput(lease)
  }

  /** While the gate is closed, only programmatic chunks pass and only the lease opens it. */
  lemma ClosedStep(s: State, command: Command, lease: nat, pty: Pty)
    requires s.gate == Closed(lease) && command != OpenHumanInput(lease) && !s.stopped
    ensures
      var s' := Handle(s, command, pty);
      && s'.gate == Closed(lease)
      && s'.attempts == if command.Write? && command.source.Programmatic?
                        then s.attempts + [Attempt(Programmatic, command.bytes, pty(|s.attempts|))] else s.attempts
  {
  }

  /** Between a close and the matching open the PTY gets the programmatic chunks alone, in
      order and side by side, whatever else arrives. */
  lemma {:induction false} InjectionIsContiguous(commands: seq<Command>, more: seq<Command>, lease: nat, pty: Pty)
    returns (injected: seq<PtyWrite>)
    requires Run(commands, pty).gate == Closed(lease)
    requires NeverOpens(more, lease) && !Run(commands + more, pty).stopped
    ensures Run(commands + more, pty).gate == Closed(lease)
    ensures Run(commands + more, pty).attempts == Run(commands, pty).attempts + injected
    ensures Attempted(injected, Programmatic) == Received(more, Programmatic)
    ensures Attempted(injected, Viewer) == []
    decreases |more|
  {
    if more == [] {
      assert commands + more == commands;
      injected := [];
    } else {
      hide Attempted, Handle, Received;
      var init, last := more[..|more| - 1], more[|more| - 1];
      assert (commands + more)[..|commands + more| - 1] == commands + init && init + [last] == more;
      var s0 := Run(commands + init, pty);
      StaysStopped(s0, last, pty);
      injected := InjectionIsContiguous(commands, init, lease, pty);
      ClosedStep(s0, last, lease, pty);
      ReceivedSnoc(init, last, Programmatic);
      if last.Write? && last.source.Programmatic? {
        var attempt := Attempt(Programmatic, last.bytes, pty(|s0.attempts|));
        AttemptedOne(injected, attempt, Programmatic);
        AttemptedOne(injected, attempt, Viewer);
        ConcatAssociates(Run(commands, pty).attempts, injected, [attempt]);
        injected := injected + [attempt];
      }
    }
  }
}
