/** With a PTY that does not fail, the input gate only reorders its command trace: viewer
    chunks that arrive while the gate is closed move to the release, and nothing else moves. */
module InputReorder {
  import opened Bytes
  import opened Flush
  import opened InputGate

  ghost predicate Reliable(pty: Pty) {
    forall n :: pty(n).Wrote?
  }

  // ---------------------------------------------------------------- the reference, without any queue

  /** The lock alone: who holds it and which lease comes next. */
  datatype Lock = Lock(gate: GateState, next: nat)

  function LockAfter(commands: seq<Command>): Lock {
    if commands == [] then Lock(Open, 1)
    else
      var lock, last := LockAfter(commands[..|commands| - 1]), commands[|commands| - 1];
      if last.CloseHumanInput? && lock.gate.Open? then Lock(Closed(lock.next), SaturatingAdd(lock.next, 1))
      else if last.OpenHumanInput? && lock.gate == Closed(last.lease) then Lock(Open, lock.next)
      else lock
  }

  /** Command `t` is a release: it opens the gate. */
  predicate Releases(commands: seq<Command>, t: nat) {
    t < |commands| && commands[t].OpenHumanInput? && LockAfter(commands[..t]).gate == Closed(commands[t].lease)
  }

  /** Command `i` is a chunk that meets a closed gate it must wait for. */
  predicate Waits(commands: seq<Command>, i: nat) {
    i < |commands| && commands[i].Write? && commands[i].source.Viewer? && LockAfter(commands[..i]).gate.Closed?
  }

  /** Chunk `i` still waits when command `t` arrives: nothing between them was a release. */
  ghost predicate WaitingAt(commands: seq<Command>, i: nat, t: nat) {
    i < t && Waits(commands, i) && forall u: nat :: i < u < t ==> !Releases(commands, u)
  }

  /** Chunk `i` reaches the PTY when command `t` is handled: at once, or at the first release
      after it if it has to wait. */
  ghost predicate ReachesAt(commands: seq<Command>, i: nat, t: nat) {
    && i < |commands| && commands[i].Write?
    && if Waits(commands, i) then WaitingAt(commands, i, t) && Releases(commands, t) else t == i
  }

  /** The chunks before `upto` that reach the PTY at `t`, in arrival order. */
  ghost function ReachingAt(commands: seq<Command>, t: nat, upto: nat): seq<nat> {
    if upto == 0 then []
    else
      var earlier := ReachingAt(commands, t, upto - 1);
      if ReachesAt(commands, upto - 1, t) then earlier + [upto - 1] else earlier
  }

  /** The order in which chunks reach the PTY during the first `n` commands. */
  ghost function Reordered(commands: seq<Command>, n: nat): seq<nat> {
    if n == 0 then [] else Reordered(commands, n - 1) + ReachingAt(commands, n - 1, n)
  }

  function CommandAt(commands: seq<Command>, i: nat): Command {
    if i < |commands| then commands[i] else CloseHumanInput
  }

  /** The commands an order of positions stands for. */
  function InOrder(commands: seq<Command>, order: seq<nat>): seq<Command> {
    if order == [] then []
    else InOrder(commands, order[..|order| - 1]) + [CommandAt(commands, order[|order| - 1])]
  }

  /** The write commands the PTY saw. */
  function AsWrites(attempts: seq<PtyWrite>): seq<Command> {
    if attempts == [] then []
    else
      var last := attempts[|attempts| - 1];
      AsWrites(attempts[..|attempts| - 1]) + [Write(last.owner, last.chunk)]
  }

  /** A chunk reaches the PTY at no more than one moment. */
  lemma ReachesOnce(commands: seq<Command>, i: nat, t: nat, u: nat)
    requires ReachesAt(commands, i, t) && t != u
    ensures !ReachesAt(commands, i, u)
  {
    hide Releases, Waits;
  }

  lemma {:induction false} ReachingAtIsExact(commands: seq<Command>, t: nat, upto: nat)
    ensures forall i: nat :: i in ReachingAt(commands, t, upto) <==> i < upto && ReachesAt(commands, i, t)
    ensures forall j, k :: 0 <= j < k < |ReachingAt(commands, t, upto)| ==>
              ReachingAt(commands, t, upto)[j] < ReachingAt(commands, t, upto)[k]
  {
    hide ReachesAt;
    if upto > 0 {
      ReachingAtIsExact(commands, t, upto - 1);
      var earlier := ReachingAt(commands, t, upto - 1);
      forall j | 0 <= j < |earlier| ensures earlier[j] < upto - 1 {
        assert earlier[j] in earlier;
      }
    }
  }

  /** A chunk is in the reordered trace exactly if it was direct or its release has come. */
  lemma {:induction false} ReorderedIsExact(commands: seq<Command>, n: nat)
    requires n <= |commands|
    ensures forall i :: 0 <= i < |Reordered(commands, n)| ==> Reordered(commands, n)[i] < |commands|
    ensures forall i: nat :: i in Reordered(commands, n) <==> exists t: nat :: t < n && ReachesAt(commands, i, t)
  {
    if n > 0 {
      hide ReachesAt;
      ReorderedIsExact(commands, n - 1);
      ReachingAtIsExact(commands, n - 1, n);
      var before, now := Reordered(commands, n - 1), ReachingAt(commands, n - 1, n);
      forall i: nat
        ensures i in before + now <==> exists t: nat :: t < n && ReachesAt(commands, i, t)
      {
        if ReachesAt(commands, i, n - 1) {
          NotBeforeArrival(commands, i, n - 1);
        }
      }
      forall i | 0 <= i < |before + now| ensures (before + now)[i] < |commands| {
        if i >= |before| {
          assert now[i - |before|] in now;
        }
      }
    }
  }

  lemma NotBeforeArrival(commands: seq<Command>, i: nat, t: nat)
    requires ReachesAt(commands, i, t)
    ensures i <= t
  {
  }

  lemma ReachedNoMore(commands: seq<Command>, n: nat, i: nat)
    requires 0 < n <= |commands| && i in Reordered(commands, n - 1)
    ensures i !in ReachingAt(commands, n - 1, n)
  {
    ReorderedIsExact(commands, n - 1);
    ReachingAtIsExact(commands, n - 1, n);
    var t: nat :| t < n - 1 && ReachesAt(commands, i, t);
    ReachesOnce(commands, i, t, n - 1);
  }

  /** No chunk is written twice. */
  lemma {:induction false} ReorderedNeverRepeats(commands: seq<Command>, n: nat)
    requires n <= |commands|
    ensures forall j, k :: 0 <= j < k < |Reordered(commands, n)| ==>
              Reordered(commands, n)[j] != Reordered(commands, n)[k]
  {
    if n > 0 {
      hide ReachesAt;
      ReorderedNeverRepeats(commands, n - 1);
      ReorderedIsExact(commands, n - 1);
      ReachingAtIsExact(commands, n - 1, n);
      var before, now := Reordered(commands, n - 1), ReachingAt(commands, n - 1, n);
      forall j, k | 0 <= j < |before| && 0 <= k < |now| ensures before[j] != now[k] {
        ReachedNoMore(commands, n, before[j]);
        assert now[k] in now;
      }
    }
  }

  // ---------------------------------------------------------------- the machine against the reference

  /** The chunks before `upto` that wait when command `t` arrives. */
  ghost function WaitingList(commands: seq<Command>, t: nat, upto: nat): seq<nat> {
    if upto == 0 then []
    else
      var earlier := WaitingList(commands, t, upto - 1);
      if WaitingAt(commands, upto - 1, t) then earlier + [upto - 1] else earlier
  }

  lemma {:induction false} WaitersUnchanged(commands: seq<Command>, t: nat, u: nat, upto: nat)
    requires forall i: nat :: i < upto ==> (WaitingAt(commands, i, t) <==> WaitingAt(commands, i, u))
    ensures WaitingList(commands, t, upto) == WaitingList(commands, u, upto)
  {
    hide WaitingAt;
    if upto > 0 {
      WaitersUnchanged(commands, t, u, upto - 1);
    }
  }

  lemma {:induction false} NobodyWaits(commands: seq<Command>, t: nat, upto: nat)
    requires forall i: nat :: i < upto ==> !WaitingAt(commands, i, t)
    ensures WaitingList(commands, t, upto) == []
  {
    hide WaitingAt;
    if upto > 0 {
      NobodyWaits(commands, t, upto - 1);
    }
  }

  lemma {:induction false} NobodyReaches(commands: seq<Command>, t: nat, upto: nat)
    requires forall i: nat :: i < upto ==> !ReachesAt(commands, i, t)
    ensures ReachingAt(commands, t, upto) == []
  {
    hide ReachesAt;
    if upto > 0 {
      NobodyReaches(commands, t, upto - 1);
    }
  }

  lemma {:induction false} WaitersReach(commands: seq<Command>, t: nat, upto: nat)
    requires forall i: nat :: i < upto ==> (ReachesAt(commands, i, t) <==> WaitingAt(commands, i, t))
    ensures ReachingAt(commands, t, upto) == WaitingList(commands, t, upto)
  {
    hide ReachesAt, WaitingAt;
    if upto > 0 {
      WaitersReach(commands, t, upto - 1);
    }
  }

  /** A release sends everything that waited, and nobody waits after it. */
  lemma AtRelease(commands: seq<Command>, n: nat)
    requires Releases(commands, n)
    ensures ReachingAt(commands, n, n + 1) == WaitingList(commands, n, n)
    ensures WaitingList(commands, n + 1, n + 1) == []
  {
    assert !ReachesAt(commands, n, n) && !WaitingAt(commands, n, n + 1);
    forall i: nat | i < n ensures ReachesAt(commands, i, n) <==> WaitingAt(commands, i, n) {
    }
    WaitersReach(commands, n, n);
    var next := n + 1;
    forall i: nat | i < next ensures !WaitingAt(commands, i, next) {
    }
    NobodyWaits(commands, next, next);
  }

  /** Any other command sends at most its own chunk and makes at most its own chunk wait. */
  lemma AtOther(commands: seq<Command>, n: nat)
    requires n < |commands| && !Releases(commands, n)
    ensures ReachingAt(commands, n, n + 1) == if commands[n].Write? && !Waits(commands, n) then [n] else []
    ensures WaitingList(commands, n + 1, n + 1) ==
            if Waits(commands, n) then WaitingList(commands, n, n) + [n] else WaitingList(commands, n, n)
  {
    hide Releases, Waits;
    forall i: nat | i < n ensures !ReachesAt(commands, i, n) {
    }
    NobodyReaches(commands, n, n);
    forall i: nat | i < n ensures WaitingAt(commands, i, n + 1) <==> WaitingAt(commands, i, n) {
    }
    WaitersUnchanged(commands, n + 1, n, n);
    assert WaitingAt(commands, n, n + 1) <==> Waits(commands, n);
    assert ReachesAt(commands, n, n) <==> commands[n].Write? && !Waits(commands, n);
  }

  lemma {:induction false} InOrderConcat(commands: seq<Command>, a: seq<nat>, b: seq<nat>)
    ensures InOrder(commands, a + b) == InOrder(commands, a) + InOrder(commands, b)
    decreases |b|
  {
    if b == [] {
      assert a + b == a;
    } else {
      InOrderConcat(commands, a, b[..|b| - 1]);
      assert (a + b)[..|a + b| - 1] == a + b[..|b| - 1];
    }
  }

  lemma {:induction false} AsWritesConcat(a: seq<PtyWrite>, b: seq<PtyWrite>)
    ensures AsWrites(a + b) == AsWrites(a) + AsWrites(b)
    decreases |b|
  {
    if b == [] {
      assert a + b == a;
    } else {
      AsWritesConcat(a, b[..|b| - 1]);
      assert (a + b)[..|a + b| - 1] == a + b[..|b| - 1];
    }
  }

  function ViewerWrites(held: seq<seq<Byte>>): seq<Command> {
    if held == [] then [] else ViewerWrites(held[..|held| - 1]) + [Write(Viewer, held[|held| - 1])]
  }

  lemma {:induction false} FirstAsWrites(held: seq<seq<Byte>>, n: nat, writes: nat, pty: Pty)
    requires n <= |held|
    ensures AsWrites(FirstWrites(Viewer, held, n, writes, pty)) == ViewerWrites(held[..n])
  {
    if n > 0 {
      hide AsWrites, ViewerWrites, FirstWrites, AllTaken;
      FirstAsWrites(held, n - 1, writes, pty);
      FlushTurn(Viewer, held, n - 1, writes, pty);
      var attempt := Attempt(Viewer, held[n - 1], pty(writes + n - 1));
      AsWritesConcat(FirstWrites(Viewer, held, n - 1, writes, pty), [attempt]);
      OneWrite(attempt);
      HeldSnoc(held[..n - 1], held[n - 1]);
    }
  }

  /** A reliable flush writes everything held. */
  lemma ReliableFlush(held: seq<seq<Byte>>, writes: nat, pty: Pty)
    requires Reliable(pty)
    ensures AllWrote(Flushed(Viewer, held, writes, pty)) && |Flushed(Viewer, held, writes, pty)| == |held|
    ensures AsWrites(Flushed(Viewer, held, writes, pty)) == ViewerWrites(held)
  {
    hide AsWrites, ViewerWrites, Flushed, AllWrote;
    FlushedIs(Viewer, held, |held|, writes, pty);
    FirstAsWrites(held, |held|, writes, pty);
    assert held[..|held|] == held;
  }

  lemma OneWrite(attempt: PtyWrite)
    ensures AsWrites([attempt]) == [Write(attempt.owner, attempt.chunk)]
  {
    assert [attempt][..0] == [];
  }

  /** The machine's lock is the reference's, and a reliable PTY never stops the worker. */
  lemma {:induction false} MachineLock(commands: seq<Command>, pty: Pty)
    requires Reliable(pty)
    ensures
      var s := Run(commands, pty);
      s.gate == LockAfter(commands).gate && s.nextSequence == LockAfter(commands).next && !s.stopped
  {
    if commands != [] {
      hide Flushed, AllWrote;
      var init := commands[..|commands| - 1];
      MachineLock(init, pty);
      ReliableFlush(Run(init, pty).held, |Run(init, pty).attempts|, pty);
    }
  }

  ghost predicate Matches(s: State, commands: seq<Command>, n: nat) {
    && AsWrites(s.attempts) == InOrder(commands, Reordered(commands, n))
    && ViewerWrites(s.held) == InOrder(commands, WaitingList(commands, n, n))
  }

  lemma MatchesStep(s: State, commands: seq<Command>, n: nat, pty: Pty)
    requires Reliable(pty) && n < |commands| && !s.stopped && s.gate == LockAfter(commands[..n]).gate
    requires Matches(s, commands, n)
    ensures Matches(Handle(s, commands[n], pty), commands, n + 1)
  {
    hide AsWrites, InOrder, ViewerWrites, Reordered, WaitingList, ReachingAt, LockAfter, Flushed, AllWrote;
    var s' := Handle(s, commands[n], pty);
    ReorderedNext(commands, n);
    InOrderConcat(commands, Reordered(commands, n), ReachingAt(commands, n, n + 1));
    if Releases(commands, n) {
      AtRelease(commands, n);
      ReliableFlush(s.held, |s.attempts|, pty);
      AsWritesConcat(s.attempts, Flushed(Viewer, s.held, |s.attempts|, pty));
      NothingHeld(commands);
      assert s'.held == [] && s'.attempts == s.attempts + Flushed(Viewer, s.held, |s.attempts|, pty);
    } else {
      AtOther(commands, n);
      SingleInOrder(commands, n);
      NothingHeld(commands);
      if commands[n].Write? {
        InOrderConcat(commands, WaitingList(commands, n, n), [n]);
        HeldSnoc(s.held, commands[n].bytes);
        var attempt := Attempt(commands[n].source, commands[n].bytes, pty(|s.attempts|));
        AsWritesConcat(s.attempts, [attempt]);
        OneWrite(attempt);
      }
      assert AsWrites(s.attempts) + [] == AsWrites(s.attempts);
    }
  }

  lemma ReorderedNext(commands: seq<Command>, n: nat)
    ensures Reordered(commands, n + 1) == Reordered(commands, n) + ReachingAt(commands, n, n + 1)
  {
    hide ReachingAt;
  }

  lemma NothingHeld(commands: seq<Command>)
    ensures ViewerWrites([]) == [] && InOrder(commands, []) == []
  {
  }

  lemma SingleInOrder(commands: seq<Command>, n: nat)
    requires n < |commands|
    ensures InOrder(commands, [n]) == [commands[n]]
  {
    assert [n][..0] == [];
  }

  lemma HeldSnoc(held: seq<seq<Byte>>, bytes: seq<Byte>)
    ensures ViewerWrites(held + [bytes]) == ViewerWrites(held) + [Write(Viewer, bytes)]
  {
    assert (held + [bytes])[..|held|] == held;
  }

  lemma {:induction false} MatchesPrefix(commands: seq<Command>, n: nat, pty: Pty)
    requires Reliable(pty) && n <= |commands|
    ensures Matches(Run(commands[..n], pty), commands, n)
  {
    if n > 0 {
      hide Matches, Handle;
      MatchesPrefix(commands, n - 1, pty);
      MachineLock(commands[..n - 1], pty);
      assert commands[..n][..n - 1] == commands[..n - 1];
      MatchesStep(Run(commands[..n - 1], pty), commands, n - 1, pty);
    }
  }

  /** With a reliable PTY the bytes written are the command trace with every waiting viewer
      chunk moved to its release, and nothing else moved. */
  lemma {:induction false} GateOnlyReorders(commands: seq<Command>, pty: Pty)
    requires Reliable(pty)
    ensures AsWrites(Run(commands, pty).attempts) == InOrder(commands, Reordered(commands, |commands|))
    ensures forall i :: 0 <= i < |Run(commands, pty).attempts| ==> Run(commands, pty).attempts[i].outcome.Wrote?
  {
    assert commands[..|commands|] == commands;
    MatchesPrefix(commands, |commands|, pty);
    AllReliable(commands, pty);
  }

  lemma {:induction false} AllReliable(commands: seq<Command>, pty: Pty)
    requires Reliable(pty)
    ensures AllWrote(Run(commands, pty).attempts)
  {
    if commands != [] {
      hide Flushed;
      var s := Run(commands[..|commands| - 1], pty);
      AllReliable(commands[..|commands| - 1], pty);
      ReliableFlush(s.held, |s.attempts|, pty);
    }
  }
}
