/** The Signal lease registry when request handlers interleave (src/daemon.rs): each connection
    runs on a thread of its own, and the registry is locked for one access at a time only. A
    handler is cut here wherever another one can get in between. */
module SignalRaces {
  import opened Bytes
  import opened Flush
  import opened InputGate
  import opened SignalControl
  import InputPort

  /** Where a handler stands. */
  datatype Call =
    | Acquiring(prompt: PromptState)            // prompt checked, gate not yet asked
    | Granted(key: nat, prompt: PromptState)    // gate closed, lease not yet recorded
    | Releasing(key: nat)                       // Signal release, registry not yet looked up
    | Checked(key: nat)                         // lease on record, gate not yet asked
    | Opening(key: nat)                         // raw open, gate not yet asked
    | Answered(key: nat)                        // gate opened, or found open; lease not yet removed
    | Injecting(key: nat)                       // registry not yet looked up
    | Cleared(key: nat)                         // lease on record and clean, bytes not yet sent
    | Over

  /** `late`: leases recorded when the gate was no longer closed under them. `injected`: the
      injections sent, each with the gate it met. */
  datatype Plane = Plane(
    gate: GateState,
    next: nat,
    leases: map<nat, PromptState>,
    calls: seq<Call>,
    late: set<nat>,
    injected: seq<(nat, GateState)>)

  const QUIET := Plane(GateState.Open, 1, map[], [], {}, [])

  /** A handler starts; handler `i` goes on, and `ok` says whether the worker answers it, and for
      an open also whether the flush succeeds; or a raw client closes the gate. */
  datatype Move = Begin(call: Call) | GoOn(i: nat, ok: bool) | Close

  predicate Starts(call: Call) {
    call.Acquiring? || call.Releasing? || call.Opening? || call.Injecting?
  }

  function Became(p: Plane, i: nat, call: Call): Plane
    requires i < |p.calls|
  {
    p.(calls := p.calls[i := call])
  }

  function Shut(p: Plane): Plane {
    p.(gate := Closed(p.next), next := SaturatingAdd(p.next, 1))
  }

  function Continue(p: Plane, i: nat, ok: bool): Plane
    requires i < |p.calls|
  {
    match p.calls[i]
    case Acquiring(prompt) =>
      if !ok || p.gate.Closed? then Became(p, i, Over) else Became(Shut(p), i, Granted(p.next, prompt))
    case Granted(key, prompt) =>
      Became(p, i, Over).(leases := p.leases[key := prompt],
                          late := if p.gate == Closed(key) then p.late else p.late + {key})
    case Releasing(key) => Became(p, i, if key in p.leases then Checked(key) else Over)
    case Checked(key) =>
      if !ok then Became(p, i, Over)
      else Became(p, i, Answered(key)).(gate := if p.gate == Closed(key) then GateState.Open else p.gate)
    case Opening(key) =>
      if !ok || p.gate != Closed(key) then Became(p, i, Over)
      else Became(p, i, Answered(key)).(gate := GateState.Open)
    case Answered(key) => Became(p, i, Over).(leases := p.leases - {key}, late := p.late - {key})
    case Injecting(key) =>
      Became(p, i, if key in p.leases && !p.leases[key].Dirty? then Cleared(key) else Over)
    case Cleared(key) =>
      Became(p, i, Over).(injected := if ok then p.injected + [(key, p.gate)] else p.injected)
    case Over => p
  }

  function Next(p: Plane, move: Move): Plane {
    match move
    case Begin(call) => if Starts(call) then p.(calls := p.calls + [call]) else p
    case GoOn(i, ok) => if i < |p.calls| then Continue(p, i, ok) else p
    case Close => if p.gate.Closed? then p else Shut(p)
  }

  function Run(moves: seq<Move>): Plane {
    if moves == [] then QUIET else Next(Run(moves[..|moves| - 1]), moves[|moves| - 1])
  }

  // ---------------------------------------------------------------- the registry, exactly

  /** A release of this lease has been answered and has yet to remove it. */
  ghost predicate Leaving(p: Plane, key: nat) {
    Answered(key) in p.calls
  }

  /** Every lease a handler or the registry knows of was handed out before. */
  ghost predicate Known(p: Plane) {
    && (p.gate.Closed? ==> p.gate.lease < p.next)
    && (forall key :: key in p.leases ==> key < p.next)
    && (forall i :: 0 <= i < |p.calls| ==>
          (p.calls[i].Granted? || p.calls[i].Checked? || p.calls[i].Answered? ==> p.calls[i].key < p.next))
  }

  /** The lease is closed under, leaving, recorded late, or off the record. */
  ghost predicate Placed(p: Plane, key: nat) {
    && (Leaving(p, key) || key in p.late ==> key < p.next && p.gate != Closed(key))
    && (key in p.leases && p.gate != Closed(key) ==> Leaving(p, key) || key in p.late)
  }

  ghost predicate Inv(p: Plane) {
    Known(p) && forall key: nat :: Placed(p, key)
  }

  lemma OthersStay(p: Plane, i: nat, call: Call, key: nat)
    requires i < |p.calls|
    ensures Leaving(Became(p, i, call), key) ==> Leaving(p, key) || call == Answered(key)
    ensures Leaving(p, key) && p.calls[i] != Answered(key) ==> Leaving(Became(p, i, call), key)
    ensures call == Answered(key) ==> Leaving(Became(p, i, call), key)
  {
    var calls := p.calls[i := call];
    assert calls[i] == call;
    if Leaving(p, key) && p.calls[i] != Answered(key) {
      var j :| 0 <= j < |p.calls| && p.calls[j] == Answered(key);
      assert calls[j] == Answered(key);
    }
  }

  lemma ContinueKnows(p: Plane, i: nat, ok: bool)
    requires Known(p) && i < |p.calls| && p.next < U64_MAX
    ensures Known(Continue(p, i, ok))
  {
    var p' := Continue(p, i, ok);
    forall j | 0 <= j < |p'.calls|
      ensures p'.calls[j].Granted? || p'.calls[j].Checked? || p'.calls[j].Answered? ==> p'.calls[j].key < p'.next
    {
      assert j != i ==> p'.calls[j] == p.calls[j];
    }
  }

  lemma ContinuePlaces(p: Plane, i: nat, ok: bool, key: nat)
    requires Known(p) && Placed(p, key) && i < |p.calls| && p.next < U64_MAX
    ensures Placed(Continue(p, i, ok), key)
  {
    KeyIsKnown(p, i);
    hide Known, Leaving;
    var p' := Continue(p, i, ok);
    OthersStay(p, i, p'.calls[i], key);
    SameCalls(p', Became(p, i, p'.calls[i]), key);
  }

  lemma ContinueKeepsInv(p: Plane, i: nat, ok: bool)
    requires Inv(p) && i < |p.calls| && p.next < U64_MAX
    ensures Inv(Continue(p, i, ok))
  {
    ContinueKnows(p, i, ok);
    hide Known, Placed, Continue;
    forall key: nat ensures Placed(Continue(p, i, ok), key) {
      ContinuePlaces(p, i, ok, key);
    }
  }

  lemma SameCalls(p: Plane, q: Plane, key: nat)
    requires p.calls == q.calls
    ensures Leaving(p, key) <==> Leaving(q, key)
  {
  }

  lemma KeyIsKnown(p: Plane, i: nat)
    requires Known(p) && i < |p.calls|
    ensures p.gate.Closed? ==> p.gate.lease < p.next
    ensures p.calls[i].Granted? || p.calls[i].Checked? ==> p.calls[i].key < p.next
  {
  }

  lemma BeginLeaves(p: Plane, call: Call, key: nat)
    requires Starts(call)
    ensures Leaving(p.(calls := p.calls + [call]), key) <==> Leaving(p, key)
  {
  }

  lemma NextKeepsInv(p: Plane, move: Move)
    requires Inv(p) && p.next < U64_MAX
    ensures Inv(Next(p, move)) && p.next <= Next(p, move).next
  {
    match move
    case Begin(call) =>
      hide Leaving;
      if Starts(call) {
        forall key: nat ensures Placed(Next(p, move), key) {
          assert Placed(p, key);
          BeginLeaves(p, call, key);
        }
      }
    case GoOn(i, ok) =>
      hide Inv;
      if i < |p.calls| {
        ContinueKeepsInv(p, i, ok);
      }
    case Close =>
      hide Leaving;
      forall key: nat ensures Placed(Next(p, Close), key) {
        assert Placed(p, key);
        SameCalls(Next(p, Close), p, key);
      }
  }

  lemma NextOnlyGrows(p: Plane, move: Move)
    requires p.next <= U64_MAX
    ensures p.next <= Next(p, move).next <= U64_MAX
  {
  }

  lemma {:induction false} NextBounded(moves: seq<Move>)
    ensures Run(moves).next <= U64_MAX
  {
    if moves != [] {
      hide Next;
      NextBounded(moves[..|moves| - 1]);
      NextOnlyGrows(Run(moves[..|moves| - 1]), moves[|moves| - 1]);
    }
  }

  lemma {:induction false} RunKeepsInv(moves: seq<Move>)
    requires Run(moves).next < U64_MAX
    ensures Inv(Run(moves))
  {
    if moves != [] {
      hide Next, Inv;
      var init := moves[..|moves| - 1];
      NextBounded(init);
      NextOnlyGrows(Run(init), moves[|moves| - 1]);
      RunKeepsInv(init);
      NextKeepsInv(Run(init), moves[|moves| - 1]);
    }
  }

  /** Exactly when an entry of the registry disagrees with the gate, in every interleaving of
      handlers with fewer than 2^64 - 2 closes: while a release of it has been answered and has
      yet to remove it, or if it was recorded after the gate had been opened again. */
  lemma {:induction false} RegistryDisagreesExactly(moves: seq<Move>, key: nat)
    requires Run(moves).next < U64_MAX && key in Run(moves).leases
    ensures Run(moves).gate != Closed(key) <==> Leaving(Run(moves), key) || key in Run(moves).late
  {
    RunKeepsInv(moves);
    hide Run, Leaving, Known;
    assert Placed(Run(moves), key);
  }

  /** So once every handler is over, only late records are left to disagree. */
  lemma {:induction false} QuietRegistryAgrees(moves: seq<Move>)
    requires Run(moves).next < U64_MAX
    requires forall i :: 0 <= i < |Run(moves).calls| ==> Run(moves).calls[i] == Over
    ensures (forall key :: key in Run(moves).leases ==> Run(moves).gate == Closed(key)) <==>
            Run(moves).late !! Run(moves).leases.Keys
  {
    hide Run;
    forall key | key in Run(moves).leases
      ensures Run(moves).gate != Closed(key) <==> key in Run(moves).late
    {
      RegistryDisagreesExactly(moves, key);
    }
  }

  /** A handler that has been cleared to inject under a lease, or has done so. */
  ghost predicate Injects(p: Plane, key: nat) {
    Cleared(key) in p.calls || exists gate :: (key, gate) in p.injected
  }

  ghost predicate CleanOnRecord(p: Plane, key: nat) {
    key in p.leases && !p.leases[key].Dirty?
  }

  lemma InjectsStep(p: Plane, move: Move, key: nat)
    requires Injects(Next(p, move), key)
    ensures Injects(p, key) || CleanOnRecord(p, key)
  {
    var p' := Next(p, move);
    if Cleared(key) in p'.calls {
      var i :| 0 <= i < |p'.calls| && p'.calls[i] == Cleared(key);
      if i < |p.calls| && p.calls[i] == Cleared(key) {
        assert Cleared(key) in p.calls;
      }
    } else {
      var gate :| (key, gate) in p'.injected;
      if (key, gate) !in p.injected {
        assert p.calls[move.i] == Cleared(key);
      }
    }
  }

  /** However handlers interleave, an injection is only ever sent under a lease that was once on
      record with a prompt that was not dirty. */
  lemma {:induction false} InjectedWasClean(moves: seq<Move>, key: nat) returns (k: nat)
    requires Injects(Run(moves), key)
    ensures k <= |moves| && CleanOnRecord(Run(moves[..k]), key)
  {
    if moves != [] {
      hide Next, Injects, CleanOnRecord;
      var init := moves[..|moves| - 1];
      InjectsStep(Run(init), moves[|moves| - 1], key);
      if Injects(Run(init), key) {
        k := InjectedWasClean(init, key);
        assert init[..k] == moves[..k];
      } else {
        k := |init|;
      }
    }
  }

  // ---------------------------------------------------------------- a handler alone

  /** The plane and the control plane show the same registry, gate and lease counter. */
  ghost predicate Shows(p: Plane, c: Control) {
    p.leases == c.leases && p.gate == c.port.writer.gate && p.next == c.port.writer.nextSequence
  }

  /** A handler runs from its start to its end with nobody in between. */
  function Alone(p: Plane, call: Call, ok: bool): Plane {
    var i := |p.calls|;
    Next(Next(Next(Next(p, Begin(call)), GoOn(i, ok)), GoOn(i, ok)), GoOn(i, ok))
  }

  /** What a whole handler does, all at once. */
  function Whole(p: Plane, call: Call, ok: bool): Plane {
    match call
    case Acquiring(prompt) =>
      if !ok || p.gate.Closed? then p else Shut(p).(leases := p.leases[p.next := prompt])
    case Releasing(key) =>
      if key !in p.leases || !ok then p
      else p.(gate := if p.gate == Closed(key) then GateState.Open else p.gate,
              leases := p.leases - {key}, late := p.late - {key})
    case Opening(key) =>
      if !ok || p.gate != Closed(key) then p
      else p.(gate := GateState.Open, leases := p.leases - {key}, late := p.late - {key})
    case Injecting(key) =>
      if key in p.leases && !p.leases[key].Dirty? && ok then p.(injected := p.injected + [(key, p.gate)]) else p
    case _ => p
  }

  lemma AloneIsWhole(p: Plane, call: Call, ok: bool)
    requires Starts(call)
    ensures Alone(p, call, ok) == Whole(p, call, ok).(calls := p.calls + [Over])
  {
    var i, calls := |p.calls|, p.calls + [call];
    assert forall next :: calls[i := next] == p.calls + [next];
    hide SaturatingAdd;
  }

  /** The handler that serves a request: what it starts with, and whether the worker answers it as
      it goes on. */
  function HandlerOf(c: Control, request: Request, pty: Pty, regex: RegexEngine): Option<(Call, bool)> {
    match request
    case Acquire(id, transcript) =>
      var prompt := PromptOf(c.patterns, id, transcript, regex);
      if prompt.None? then None else Some((Acquiring(prompt.value), !Ahead(c, pty).stopped))
    case Release(identifier) =>
      Some((Releasing(AsU64(identifier)), Serve(c, request, pty, regex).1 != IoError))
    case RawOpen(lease) => Some((Opening(lease), Serve(c, request, pty, regex).1 != IoError))
    case Inject(identifier, _, _) => Some((Injecting(AsU64(identifier)), !c.port.writer.stopped))
    case _ => None
  }

  /** Handlers that do not interleave do what `SignalControl` says in one step: the same registry,
      gate and lease counter after each, and an injection sent exactly if it is queued there. */
  lemma {:induction false} AloneIsServed(
    moves: seq<SignalControl.Move>, p: Plane, request: Request, pty: Pty, regex: RegexEngine)
    requires Shows(p, SignalControl.Run(moves, pty, regex))
    requires HandlerOf(SignalControl.Run(moves, pty, regex), request, pty, regex).Some?
    ensures
      var c := SignalControl.Run(moves, pty, regex);
      var c' := Serve(c, request, pty, regex).0;
      var (call, ok) := HandlerOf(c, request, pty, regex).value;
      var p' := Alone(p, call, ok);
      && Shows(p', c') && p'.calls == p.calls + [Over]
      && (request.Inject? ==> (p'.injected != p.injected <==> c'.port.sent != c.port.sent))
  {
    var c := SignalControl.Run(moves, pty, regex);
    RegistryAgrees(moves, pty, regex);
    hide SignalControl.Run, Alone, Whole, Serve, Agrees, HandlerOf, Shows;
    var (call, ok) := HandlerOf(c, request, pty, regex).value;
    HandlerStarts(c, request, pty, regex);
    AloneIsWhole(p, call, ok);
    WholeIsServed(c, p, request, pty, regex);
    CallsAreNotShown(Whole(p, call, ok), p.calls + [Over], Serve(c, request, pty, regex).0);
  }

  lemma HandlerStarts(c: Control, request: Request, pty: Pty, regex: RegexEngine)
    ensures
      var handler := HandlerOf(c, request, pty, regex);
      && (handler.Some? ==> Starts(handler.value.0))
      && (handler.Some? && request.Acquire? ==>
            PromptOf(c.patterns, request.selection, request.transcript, regex).Some?)
  {
    hide PromptOf, Serve, Ahead;
  }

  lemma CallsAreNotShown(p: Plane, calls: seq<Call>, c: Control)
    requires Shows(p, c)
    ensures Shows(p.(calls := calls), c)
  {
  }

  lemma WholeIsServed(c: Control, p: Plane, request: Request, pty: Pty, regex: RegexEngine)
    requires Agrees(c, pty) && Shows(p, c) && HandlerOf(c, request, pty, regex).Some?
    ensures
      var c' := Serve(c, request, pty, regex).0;
      var (call, ok) := HandlerOf(c, request, pty, regex).value;
      var p' := Whole(p, call, ok);
      Shows(p', c') && (request.Inject? ==> (p'.injected != p.injected <==> c'.port.sent != c.port.sent))
  {
    hide Whole, Serve, Agrees, PromptOf, AsU64, Ahead, Shows;
    match request
    case Acquire(_, _) => WholeAcquire(c, p, request, pty, regex);
    case Release(identifier) => WholeRelease(c, p, identifier, pty, regex);
    case RawOpen(lease) => WholeOpen(c, p, lease, pty, regex);
    case Inject(_, _, _) => WholeInject(c, p, request, pty, regex);
    case _ => assert false;
  }

  lemma WholeInject(c: Control, p: Plane, request: Request, pty: Pty, regex: RegexEngine)
    requires Shows(p, c) && request.Inject?
    ensures
      var c' := Serve(c, request, pty, regex).0;
      var p' := Whole(p, Injecting(AsU64(request.identifier)), !c.port.writer.stopped);
      Shows(p', c') && (p'.injected != p.injected <==> c'.port.sent != c.port.sent)
  {
    hide AsU64, AsI64;
  }

  lemma WholeAcquire(c: Control, p: Plane, request: Request, pty: Pty, regex: RegexEngine)
    requires Agrees(c, pty) && Shows(p, c) && request.Acquire?
    requires PromptOf(c.patterns, request.selection, request.transcript, regex).Some?
    ensures
      var prompt := PromptOf(c.patterns, request.selection, request.transcript, regex).value;
      Shows(Whole(p, Acquiring(prompt), !Ahead(c, pty).stopped), Serve(c, request, pty, regex).0)
  {
    InputPort.HandleStopped(Ahead(c, pty), CloseHumanInput, pty);
    AskAhead(c, CloseHumanInput, pty);
    LeaseSurvivesCasts(c.port.writer.nextSequence);
    hide PromptOf, AsI64, AsU64, Ahead, InputPort.Ask, InputPort.Answer, InputPort.Ordered, InputPort.OnlyWrites;
  }

  lemma WholeRelease(c: Control, p: Plane, identifier: int, pty: Pty, regex: RegexEngine)
    requires Agrees(c, pty) && Shows(p, c)
    ensures
      var (c', response) := Serve(c, Release(identifier), pty, regex);
      Shows(Whole(p, Releasing(AsU64(identifier)), response != IoError), c')
  {
    OpenAsked(c, AsU64(identifier), pty);
    hide AsU64, Agrees, InputPort.Ask, InputPort.Answer;
  }

  lemma WholeOpen(c: Control, p: Plane, lease: nat, pty: Pty, regex: RegexEngine)
    requires Agrees(c, pty) && Shows(p, c)
    ensures
      var (c', response) := Serve(c, RawOpen(lease), pty, regex);
      Shows(Whole(p, Opening(lease), response != IoError), c')
  {
    OpenAsked(c, lease, pty);
    hide Agrees, InputPort.Ask, InputPort.Answer;
  }

  /** What an open does to the gate, by its answer. */
  lemma OpenAsked(c: Control, key: nat, pty: Pty)
    requires Agrees(c, pty)
    ensures
      var gate, writer := c.port.writer.gate, InputPort.Ask(c.port, OpenHumanInput(key), pty).writer;
      && writer.nextSequence == c.port.writer.nextSequence
      && match InputPort.Answer(c.port, OpenHumanInput(key), pty)
         case None => writer.gate == gate
         case Some(Released(lease, _)) => lease == key && gate == Closed(key) && writer.gate == GateState.Open
         case Some(StaleLease) => writer.gate == gate != Closed(key)
         case Some(other) => other == PtyFailed && writer.gate == gate
  {
    AskAhead(c, OpenHumanInput(key), pty);
    OpenAhead(Ahead(c, pty), key, pty);
    hide Ahead, Agrees, InputPort.Ask, InputPort.Answer, Handle, ReplyTo;
  }

  /** An open and its answer, wherever the worker stands. */
  lemma OpenAhead(s: State, key: nat, pty: Pty)
    ensures
      var s', reply := Handle(s, OpenHumanInput(key), pty), ReplyTo(s, OpenHumanInput(key), pty);
      && s'.nextSequence == s.nextSequence
      && (s.stopped ==> s' == s)
      && (s.gate != Closed(key) ==> s'.gate == s.gate && reply == StaleLease)
      && (s.gate == Closed(key) && !s.stopped ==>
           (reply.Released? ==> reply.lease == key && s'.gate == GateState.Open) &&
           (!reply.Released? ==> reply == PtyFailed && s'.gate == s.gate))
  {
    hide Flushed, AllWrote;
  }

  /** So does a raw close, while the worker lives. */
  lemma {:induction false} CloseIsServed(moves: seq<SignalControl.Move>, p: Plane, pty: Pty, regex: RegexEngine)
    requires Shows(p, SignalControl.Run(moves, pty, regex))
    requires !Ahead(SignalControl.Run(moves, pty, regex), pty).stopped
    ensures Shows(Next(p, Close), Serve(SignalControl.Run(moves, pty, regex), RawClose, pty, regex).0)
  {
    var c := SignalControl.Run(moves, pty, regex);
    RegistryAgrees(moves, pty, regex);
    AskAhead(c, CloseHumanInput, pty);
    hide SignalControl.Run, Ahead, Agrees, InputPort.Ask, InputPort.Answer;
  }

  // ---------------------------------------------------------------- both happen

  lemma RunSnoc(moves: seq<Move>, move: Move)
    ensures Run(moves + [move]) == Next(Run(moves), move)
  {
    assert (moves + [move])[..|moves|] == moves;
  }

  lemma RunThree(moves: seq<Move>, a: Move, b: Move, c: Move)
    ensures Run(moves + [a, b, c]) == Next(Next(Next(Run(moves), a), b), c)
  {
    RunSnoc(moves, a);
    RunSnoc(moves + [a], b);
    RunSnoc(moves + [a] + [b], c);
    hide Run, Next;
    assert moves + [a, b, c] == moves + [a] + [b] + [c];
  }

  const ONE: map<nat, PromptState> := map[1 := NotChecked]
  const TWO: map<nat, PromptState> := map[1 := NotChecked, 2 := NotChecked]

  lemma AcquireFirst(p: Plane)
    requires p == QUIET
    ensures Next(Next(Next(p, Begin(Acquiring(NotChecked))), GoOn(0, true)), GoOn(0, true)) ==
            Plane(Closed(1), 2, ONE, [Over], {}, [])
  {
  }

  lemma AnswerRelease(p: Plane)
    requires p == Plane(Closed(1), 2, ONE, [Over], {}, [])
    ensures Next(Next(Next(p, Begin(Releasing(1))), GoOn(1, true)), GoOn(1, true)) ==
            Plane(GateState.Open, 2, ONE, [Over, Answered(1)], {}, [])
  {
  }

  lemma AcquireSecond(p: Plane)
    requires p == Plane(GateState.Open, 2, ONE, [Over, Answered(1)], {}, [])
    ensures Next(Next(Next(p, Begin(Acquiring(NotChecked))), GoOn(2, true)), GoOn(2, true)) ==
            Plane(Closed(2), 3, TWO, [Over, Answered(1), Over], {}, [])
  {
  }

  lemma InjectFirst(p: Plane)
    requires p == Plane(Closed(2), 3, TWO, [Over, Answered(1), Over], {}, [])
    ensures Next(Next(Next(p, Begin(Injecting(1))), GoOn(3, true)), GoOn(3, true)) ==
            Plane(Closed(2), 3, TWO, [Over, Answered(1), Over, Over], {}, [(1, Closed(2))])
  {
  }

  /** A release of lease 1 is answered but slow to remove it; another harness acquires lease 2. Two
      leases are on record, and an injection under the first one goes through while the gate is
      closed under the second. */
  lemma StaleLeaseInjects() returns (moves: seq<Move>)
    ensures Run(moves).leases == map[1 := NotChecked, 2 := NotChecked] && Run(moves).gate == Closed(2)
    ensures Run(moves).injected == [(1, Closed(2))]
  {
    var acquired := [] + [Begin(Acquiring(NotChecked)), GoOn(0, true), GoOn(0, true)];
    var released := acquired + [Begin(Releasing(1)), GoOn(1, true), GoOn(1, true)];
    var again := released + [Begin(Acquiring(NotChecked)), GoOn(2, true), GoOn(2, true)];
    moves := again + [Begin(Injecting(1)), GoOn(3, true), GoOn(3, true)];
    RunThree([], Begin(Acquiring(NotChecked)), GoOn(0, true), GoOn(0, true));
    RunThree(acquired, Begin(Releasing(1)), GoOn(1, true), GoOn(1, true));
    RunThree(released, Begin(Acquiring(NotChecked)), GoOn(2, true), GoOn(2, true));
    RunThree(again, Begin(Injecting(1)), GoOn(3, true), GoOn(3, true));
    assert Run([]) == QUIET;
    hide Run, Next;
    AcquireFirst(QUIET);
    AnswerRelease(Run(acquired));
    AcquireSecond(Run(released));
    InjectFirst(Run(again));
  }

  /** A raw client opens lease 1 before its acquire has recorded it: the record comes late and
      stays, with the gate open and no handler left. */
  lemma LateRecordStays() returns (moves: seq<Move>)
    ensures Run(moves).leases == map[1 := NotChecked] && Run(moves).gate == GateState.Open
    ensures Run(moves).calls == [Over, Over] && Run(moves).late == {1}
  {
    var granted := [] + [Begin(Acquiring(NotChecked)), GoOn(0, true), Begin(Opening(1))];
    moves := granted + [GoOn(1, true), GoOn(1, true), GoOn(0, true)];
    RunThree([], Begin(Acquiring(NotChecked)), GoOn(0, true), Begin(Opening(1)));
    RunThree(granted, GoOn(1, true), GoOn(1, true), GoOn(0, true));
    hide Run;
    assert Run(granted) == Plane(Closed(1), 2, map[], [Granted(1, NotChecked), Opening(1)], {}, []);
  }
}
