/** What a viewer can miss, exactly: the output from before its reservation that its snapshot
    did not show. */
module MissedOutput {
  import opened Bytes
  import opened Flush
  import opened Pipeline
  import opened AttachProtocol
  import opened ViewerStreams
  import opened SnapshotAnswers
  import Q = NoticeQueue
  import F = Fanout

  /** The chunk that holds a position. */
  lemma {:induction false} ChunkAt(emitted: seq<seq<Byte>>, p: nat, k: nat) returns (id: nat)
    requires k <= |emitted| && p < ChunkStart(emitted, k)
    ensures id < k && Holds(emitted, id, p)
    decreases k
  {
    if p < ChunkStart(emitted, k - 1) {
      id := ChunkAt(emitted, p, k - 1);
    } else {
      id := k - 1;
    }
  }

  lemma {:induction false} ChunkInPositions(emitted: seq<seq<Byte>>, ids: seq<nat>, id: nat, p: nat)
    requires Below(ids, |emitted|) && id in ids && Holds(emitted, id, p)
    ensures p in Positions(emitted, ids)
  {
    hide ChunkStart;
    var init, last := ids[..|ids| - 1], ids[|ids| - 1];
    if id == last {
      assert ChunkPositions(emitted, last)[p - ChunkStart(emitted, id)] == p;
    } else {
      ChunkInPositions(emitted, init, id, p);
    }
  }

  lemma {:induction false} PositionInChunk(emitted: seq<seq<Byte>>, ids: seq<nat>, p: nat) returns (id: nat)
    requires Below(ids, |emitted|) && p in Positions(emitted, ids)
    ensures id in ids && Holds(emitted, id, p)
  {
    hide ChunkStart;
    var init, last := ids[..|ids| - 1], ids[|ids| - 1];
    if p in Positions(emitted, init) {
      id := PositionInChunk(emitted, init, p);
    } else {
      assert p in ChunkPositions(emitted, last);
      id := last;
    }
  }

  lemma OneChunkHolds(emitted: seq<seq<Byte>>, a: nat, b: nat, p: nat)
    requires Holds(emitted, a, p) && Holds(emitted, b, p)
    ensures a == b
  {
    if a < b {
      ChunkStartMonotone(emitted, a + 1, b);
    } else if b < a {
      ChunkStartMonotone(emitted, b + 1, a);
    }
  }

  /** `p` had been trimmed off the front of the history when the actor answered, at `u`. */
  ghost predicate Trimmed(emitted: seq<seq<Byte>>, u: System, capacity: nat, p: nat)
    requires Below(u.log, |emitted|)
  {
    var history := Positions(emitted, u.log);
    p in history[..|history| - |LastOf(capacity, history)|]
  }

  /** `p` is in a chunk that was under way to the transcript, or gone, when the actor answered. */
  ghost predicate NeverArrived(emitted: seq<seq<Byte>>, u: System, p: nat) {
    exists id: nat :: Holds(emitted, id, p) && (UnderWay(u, id) || Gone(u, id))
  }

  /** Of the output from before the reservation, a snapshot answered at `u` shows exactly what had
      arrived by then and was not trimmed. */
  lemma ShownExactly(emitted: seq<seq<Byte>>, u: System, from: nat, capacity: nat, p: nat)
    requires Splits(u, from) && from <= |emitted| && p < ChunkStart(emitted, from)
    ensures Below(u.log, |emitted|)
    ensures p !in SnapshotPositions(emitted, u.log, capacity) <==>
            Trimmed(emitted, u, capacity, p) || NeverArrived(emitted, u, p)
  {
    SnapshotIncreases(u.log, from);
    hide SnapshotOf, ChunkStart, Positions, Holds, Increasing, UnderWay, Gone;
    var history := Positions(emitted, u.log);
    PositionsIncrease(emitted, u.log, from);
    var id := ChunkAt(emitted, p, from);
    forall other | Holds(emitted, other, p) ensures other == id {
      OneChunkHolds(emitted, other, id, p);
    }
    if p in history {
      InHistoryOnce(history, capacity, p);
      var logged := PositionInChunk(emitted, u.log, p);
      assert logged == id;
    } else if id in u.log {
      ChunkInPositions(emitted, u.log, id, p);
    }
  }

  lemma InHistoryOnce(history: seq<nat>, capacity: nat, p: nat)
    requires Increasing(history) && p in history
    ensures p in LastOf(capacity, history) <==> p !in history[..|history| - |LastOf(capacity, history)|]
  {
    var cut := |history| - |LastOf(capacity, history)|;
    assert LastOf(capacity, history) == history[cut..];
    var i :| 0 <= i < |history| && history[i] == p;
    if i < cut {
      assert history[..cut][i] == p;
      forall j | 0 <= j < |history| - cut ensures history[cut..][j] != p {
        assert history[i] < history[cut + j];
      }
    } else {
      assert history[cut..][i - cut] == p;
      forall j | 0 <= j < cut ensures history[..cut][j] != p {
        assert history[j] < history[i];
      }
    }
  }

  /** What a replayed viewer got of the output from before its reservation is its snapshot. */
  lemma ReplayedPart(s: System, viewer: nat, capacity: nat, p: nat)
    requires Inv(s) && 1 <= viewer <= |s.attaches| && s.attaches[viewer - 1].replay.Whole?
    requires p < ChunkStart(s.emitted, ReservedAt(s, viewer))
    ensures s.attaches[viewer - 1].snapshot.Some?
    ensures
      var log := s.attaches[viewer - 1].snapshot.value;
      && Below(log, |s.emitted|)
      && (p in Stream(s, viewer, capacity) <==> p in SnapshotPositions(s.emitted, log, capacity))
  {
    hide Inv, AttachOk, ChunkStart, SnapshotPositions, SentPositions, F.Sent, SnapshotOf, F.HandsOver, AllWrote;
    ChunksAreEmitted(s, viewer);
    var from, sent := s.fanout.grants[viewer - 1], F.Sent(s.fanout.deliveries, viewer);
    SentWroteBut(sent, Between(0, |s.fanout.handled|), from);
    var end := SentIsContiguous(s.emitted, sent, from);
    assert p !in Between(ChunkStart(s.emitted, from), end);
  }

  lemma {:induction false} AtLeastItsIndex(s: seq<nat>, i: nat)
    requires Increasing(s) && i < |s|
    ensures i <= s[i]
  {
    if i > 0 {
      AtLeastItsIndex(s, i - 1);
    }
  }

  lemma LastOfAll(a: seq<nat>, k: nat) returns (init: seq<nat>)
    requires k > 0 && Increasing(a) && Below(a, k) && forall p: nat :: p < k ==> p in a
    ensures a == init + [k - 1] && Increasing(init) && Below(init, k - 1)
    ensures forall p: nat :: p < k - 1 ==> p in init
  {
    assert k - 1 in a;
    var j :| 0 <= j < |a| && a[j] == k - 1;
    InitBelowLast(a);
    init := a[..|a| - 1];
    assert a == init + [a[|a| - 1]];
    forall p: nat | p < k - 1 ensures p in init {
      assert p in a;
    }
  }

  lemma {:induction false} AllBelow(a: seq<nat>, k: nat)
    requires Increasing(a) && Below(a, k) && forall p: nat :: p < k ==> p in a
    ensures a == Between(0, k)
    decreases k
  {
    assert a != [] ==> a[0] < k;
    if k > 0 {
      hide Increasing, Below, Between;
      var init := LastOfAll(a, k);
      AllBelow(init, k - 1);
      BetweenSnoc(0, k - 1);
    }
  }

  /** In one state: see `SeesEverythingExactly`. */
  lemma EverythingHere(s: System, u: System, viewer: nat, capacity: nat)
    requires Inv(s) && 1 <= viewer <= |s.attaches| && s.fanout.viewer == F.Active(viewer)
    requires s.attaches[viewer - 1].snapshot == Some(u.log) && Splits(u, ReservedAt(s, viewer))
    ensures Below(u.log, |s.emitted|)
    ensures Stream(s, viewer, capacity) == Between(0, ChunkStart(s.emitted, |s.fanout.handled|)) <==>
            forall p: nat :: p < ChunkStart(s.emitted, ReservedAt(s, viewer)) ==>
              !Trimmed(s.emitted, u, capacity, p) && !NeverArrived(s.emitted, u, p)
  {
    hide Inv, AttachOk, ChunkStart, Positions, SentPositions, F.Sent, SnapshotOf, F.HandsOver, AllWrote, Holds,
         Trimmed, NeverArrived, LastOf, Increasing, Splits;
    ChunksAreEmitted(s, viewer);
    var from, sent := s.fanout.grants[viewer - 1], F.Sent(s.fanout.deliveries, viewer);
    var middle, whole := ChunkStart(s.emitted, from), ChunkStart(s.emitted, |s.fanout.handled|);
    SentWroteBut(sent, Between(0, |s.fanout.handled|), from);
    var end := SentIsContiguous(s.emitted, sent, from);
    var replayed := SnapshotPositions(s.emitted, u.log, capacity);
    assert Stream(s, viewer, capacity) == replayed + Between(middle, whole);
    forall p: nat | p < middle
      ensures p in replayed <==> !Trimmed(s.emitted, u, capacity, p) && !NeverArrived(s.emitted, u, p)
    {
      ShownExactly(s.emitted, u, from, capacity, p);
    }
    SnapshotIncreases(u.log, from);
    PositionsIncrease(s.emitted, u.log, from);
    SuffixIncreases(Positions(s.emitted, u.log), capacity, middle);
    WholeExactly(replayed, middle, whole);
  }

  /** An increasing front followed by the run from `middle` is the run from 0 exactly when the
      front lacks nothing below `middle`. */
  lemma WholeExactly(front: seq<nat>, middle: nat, whole: nat)
    requires Increasing(front) && Below(front, middle) && middle <= whole
    ensures front + Between(middle, whole) == Between(0, whole) <==> forall p: nat :: p < middle ==> p in front
  {
    BetweenSplit(0, middle, whole);
    if forall p: nat :: p < middle ==> p in front {
      AllBelow(front, middle);
    }
    if front + Between(middle, whole) == Between(0, whole) {
      assert |front| == middle;
      forall p: nat | p < middle ensures p in front {
        assert (front + Between(middle, whole))[p] == Between(0, whole)[p] == p;
        assert front[p] == p;
      }
    }
  }

  lemma NothingTrimmed(emitted: seq<seq<Byte>>, u: System, from: nat, capacity: nat, p: nat)
    requires SnapshotOf(u.log, from) && from <= |emitted| && ChunkStart(emitted, from) <= capacity
    ensures Below(u.log, |emitted|) && !Trimmed(emitted, u, capacity, p)
  {
    SnapshotIncreases(u.log, from);
    hide SnapshotOf, ChunkStart, Positions, Increasing;
    PositionsIncrease(emitted, u.log, from);
    var history := Positions(emitted, u.log);
    if history != [] {
      AtLeastItsIndex(history, |history| - 1);
    }
  }

  // ---------------------------------------------------------------- in every reachable state

  /** What a viewer whose snapshot was replayed misses, of the output from before its
      reservation, is exactly what had been trimmed off the front of the retained history, and
      the chunks that were gone or still on their way to the transcript, when the actor took its
      snapshot request. */
  lemma {:induction false} MissedExactly(
    actions: seq<Action>, streams: F.Streams, viewer: nat, capacity: nat, p: nat) returns (k: nat)
    requires |Run(actions, streams).fanout.grants| <= U64_MAX
    requires 1 <= viewer <= |Run(actions, streams).attaches|
    requires Run(actions, streams).attaches[viewer - 1].replay.Whole?
    ensures Answers(actions, streams, viewer, k)
    ensures
      var s, u := Run(actions, streams), Run(actions[..k], streams);
      && Inv(s) && Below(u.log, |s.emitted|)
      && (p < ChunkStart(s.emitted, ReservedAt(s, viewer)) ==>
           (p !in Stream(s, viewer, capacity) <==>
            Trimmed(s.emitted, u, capacity, p) || NeverArrived(s.emitted, u, p)))
  {
    PipelineKeepsInv(actions, streams);
    hide Run, Inv, Stream, Trimmed, NeverArrived, ChunkStart, Splits, Answers, SnapshotOf;
    var s := Run(actions, streams);
    ChunksAreEmitted(s, viewer);
    k := AnsweredState(actions, streams, viewer);
    if p < ChunkStart(s.emitted, ReservedAt(s, viewer)) {
      ReplayedPart(s, viewer, capacity, p);
      ShownExactly(s.emitted, Run(actions[..k], streams), ReservedAt(s, viewer), capacity, p);
    }
  }

  /** An active viewer has received the whole output the fanout handled exactly when, as the actor
      took its snapshot request, nothing had been trimmed and no byte was gone or under way. */
  lemma {:induction false} SeesEverythingExactly(
    actions: seq<Action>, streams: F.Streams, viewer: nat, capacity: nat) returns (k: nat)
    requires |Run(actions, streams).fanout.grants| <= U64_MAX
    requires 1 <= viewer <= |Run(actions, streams).attaches|
    requires Run(actions, streams).fanout.viewer == F.Active(viewer)
    ensures Answers(actions, streams, viewer, k)
    ensures
      var s, u := Run(actions, streams), Run(actions[..k], streams);
      && Inv(s) && Below(u.log, |s.emitted|)
      && (Stream(s, viewer, capacity) == Between(0, ChunkStart(s.emitted, |s.fanout.handled|)) <==>
            forall p: nat :: p < ChunkStart(s.emitted, ReservedAt(s, viewer)) ==>
              !Trimmed(s.emitted, u, capacity, p) && !NeverArrived(s.emitted, u, p))
  {
    PipelineKeepsInv(actions, streams);
    hide Run, Inv, Stream, Trimmed, NeverArrived, ChunkStart, Between, Splits, Answers, SnapshotOf;
    ChunksAreEmitted(Run(actions, streams), viewer);
    k := AnsweredState(actions, streams, viewer);
    EverythingHere(Run(actions, streams), Run(actions[..k], streams), viewer, capacity);
  }

  /** When nothing was gone or under way as the actor took the snapshot request, and the history
      fits the capacity, a viewer that still holds the slot has received exactly the output the
      fanout handled. */
  lemma {:induction false} UninterruptedViewerSeesEverything(
    actions: seq<Action>, streams: F.Streams, viewer: nat, capacity: nat) returns (k: nat)
    requires |Run(actions, streams).fanout.grants| <= U64_MAX
    requires 1 <= viewer <= |Run(actions, streams).attaches|
    requires Run(actions, streams).fanout.viewer == F.Active(viewer)
    ensures Answers(actions, streams, viewer, k)
    ensures
      var s, u := Run(actions, streams), Run(actions[..k], streams);
      && Inv(s)
      && ((forall id: nat :: !UnderWay(u, id) && !Gone(u, id)) &&
          ChunkStart(s.emitted, ReservedAt(s, viewer)) <= capacity ==>
            Stream(s, viewer, capacity) == Between(0, ChunkStart(s.emitted, |s.fanout.handled|)))
  {
    PipelineKeepsInv(actions, streams);
    hide Run, Inv, Stream, Trimmed, ChunkStart, Between, Holds, SnapshotOf, UnderWay, Gone, Answers, Increasing;
    var s := Run(actions, streams);
    ChunksAreEmitted(s, viewer);
    k := AnsweredState(actions, streams, viewer);
    var u, from := Run(actions[..k], streams), ReservedAt(s, viewer);
    EverythingHere(s, u, viewer, capacity);
    if ChunkStart(s.emitted, from) <= capacity {
      forall p: nat | p < ChunkStart(s.emitted, from) ensures !Trimmed(s.emitted, u, capacity, p) {
        NothingTrimmed(s.emitted, u, from, capacity, p);
      }
    }
  }

  // ---------------------------------------------------------------- what is missed stays missed

  lemma ChunkStartStable(emitted: seq<seq<Byte>>, grown: seq<seq<Byte>>, id: nat)
    requires emitted <= grown && id <= |emitted|
    ensures ChunkStart(grown, id) == ChunkStart(emitted, id)
  {
    assert grown[..id] == emitted[..id];
  }

  lemma {:induction false} PositionsStable(emitted: seq<seq<Byte>>, grown: seq<seq<Byte>>, ids: seq<nat>)
    requires emitted <= grown && Below(ids, |emitted|)
    ensures Positions(grown, ids) == Positions(emitted, ids)
  {
    if ids != [] {
      hide ChunkStart;
      var last := ids[|ids| - 1];
      PositionsStable(emitted, grown, ids[..|ids| - 1]);
      ChunkStartStable(emitted, grown, last);
      ChunkStartStable(emitted, grown, last + 1);
    }
  }

  /** A replayed connection keeps its snapshot and its reservation, whatever happens next. */
  ghost predicate SameReplay(s: System, s': System, viewer: nat)
    requires 1 <= viewer <= |s.attaches| == |s.fanout.grants|
  {
    && s.emitted <= s'.emitted
    && viewer <= |s'.attaches| && viewer <= |s'.fanout.grants|
    && s'.attaches[viewer - 1].replay.Whole?
    && s'.attaches[viewer - 1].snapshot == s.attaches[viewer - 1].snapshot
    && s'.fanout.grants[viewer - 1] == s.fanout.grants[viewer - 1]
  }

  lemma FanoutKeepsReplay(s: System, streams: F.Streams, viewer: nat)
    requires s.channel != [] && 1 <= viewer <= |s.attaches| == |s.fanout.grants|
    requires s.attaches[viewer - 1].replay.Whole?
    ensures SameReplay(s, HandleCommand(s, streams), viewer)
  {
    GrantsKept(s.fanout, s.channel[0], streams);
    hide F.Handle, F.ReplyTo, Q.PushAll;
  }

  lemma ActorKeepsReplay(s: System, viewer: nat)
    requires s.mailbox != [] && 1 <= viewer <= |s.attaches| == |s.fanout.grants|
    requires AttachOk(s, viewer) && s.attaches[viewer - 1].replay.Whole?
    ensures SameReplay(s, HandleMail(s), viewer)
  {
    hide F.Sent, SnapshotOf;
  }

  lemma NextKeepsReplay(s: System, action: Action, streams: F.Streams, viewer: nat)
    requires 1 <= viewer <= |s.attaches| == |s.fanout.grants|
    requires AttachOk(s, viewer) && s.attaches[viewer - 1].replay.Whole?
    ensures SameReplay(s, Next(s, action, streams), viewer)
  {
    if action.RunFanout? {
      if s.channel != [] {
        FanoutKeepsReplay(s, streams, viewer);
      }
    } else if action.RunActor? {
      if s.mailbox != [] {
        ActorKeepsReplay(s, viewer);
      }
    }
    hide HandleCommand, HandleMail, F.Sent, SnapshotOf;
  }

  lemma {:induction false} ReplayIsKept(
    actions: seq<Action>, more: seq<Action>, streams: F.Streams, viewer: nat)
    requires |Run(actions + more, streams).fanout.grants| <= U64_MAX
    requires 1 <= viewer <= |Run(actions, streams).attaches| == |Run(actions, streams).fanout.grants|
    requires Run(actions, streams).attaches[viewer - 1].replay.Whole?
    ensures SameReplay(Run(actions, streams), Run(actions + more, streams), viewer)
    decreases |more|
  {
    if more == [] {
      assert actions + more == actions;
    } else {
      hide Run, Next, AttachOk;
      var init, last := more[..|more| - 1], more[|more| - 1];
      assert actions + more == (actions + init) + [last];
      RunSnoc(actions + init, last, streams);
      NextGrows(Run(actions + init, streams), last, streams);
      ReplayIsKept(actions, init, streams, viewer);
      PipelineKeepsInv(actions + init, streams);
      NextKeepsReplay(Run(actions + init, streams), last, streams, viewer);
    }
  }

  /** Nothing that happens later makes up for it: output from before the reservation that a
      replayed viewer has missed, it misses for good. */
  lemma {:induction false} MissedForGood(
    actions: seq<Action>, more: seq<Action>, streams: F.Streams, viewer: nat, capacity: nat, p: nat)
    requires |Run(actions, streams).fanout.grants| <= U64_MAX
    requires |Run(actions + more, streams).fanout.grants| <= U64_MAX
    requires 1 <= viewer <= |Run(actions, streams).attaches|
    requires Run(actions, streams).attaches[viewer - 1].replay.Whole?
    ensures
      var s, s' := Run(actions, streams), Run(actions + more, streams);
      && Inv(s) && Inv(s') && viewer <= |s'.attaches|
      && (p < ChunkStart(s.emitted, ReservedAt(s, viewer)) && p !in Stream(s, viewer, capacity) ==>
            p !in Stream(s', viewer, capacity))
  {
    PipelineKeepsInv(actions, streams);
    PipelineKeepsInv(actions + more, streams);
    ReplayIsKept(actions, more, streams, viewer);
    hide Run, Inv, Stream, ChunkStart, Positions, LastOf;
    var s, s' := Run(actions, streams), Run(actions + more, streams);
    ChunkStartStable(s.emitted, s'.emitted, ReservedAt(s, viewer));
    if p < ChunkStart(s.emitted, ReservedAt(s, viewer)) {
      ReplayedPart(s, viewer, capacity, p);
      ReplayedPart(s', viewer, capacity, p);
      PositionsStable(s.emitted, s'.emitted, s.attaches[viewer - 1].snapshot.value);
    }
  }

  // ---------------------------------------------------------------- it happens

  /** The terminal has produced one chunk; `seen` by the fanout, it waits in the notice queue. */
  ghost predicate Racing(
    s: System, seen: seq<nat>, attaches: seq<Attach>, slot: F.Slot<nat>, mailbox: seq<Mail>,
    channel: seq<F.Command<nat>>)
  {
    && s.emitted == [[7]] && s.log == [] && s.hand == None && s.refused == []
    && s.queue.pending == seen && s.queue.removals == [] && s.fanout.handled == s.fanout.notified == seen
    && |s.fanout.grants| == |attaches| && (attaches != [] ==> s.fanout.grants[0] == 1)
    && s.fanout.nextViewer == |attaches| + 1 && s.fanout.deliveries == [] && s.fanout.viewer == slot
    && s.attaches == attaches && s.mailbox == mailbox && s.channel == channel
  }

  const FRESH: Attach := Attach(Holding, None, NotYet)

  /** A viewer attaches while the only output waits in the queue, and its handshake ends before
      the scriber moves. */
  const RESERVED: seq<Action> := [Emit([7]), RunFanout, AskReserve, RunFanout]
  const RACE: seq<Action> := RESERVED + [AskSnapshot(1), RunActor, SnapshotWritten(1), RunFanout]

  lemma RunFour(actions: seq<Action>, a: Action, b: Action, c: Action, d: Action, streams: F.Streams)
    ensures Run(actions + [a, b, c, d], streams) ==
            Next(Next(Next(Next(Run(actions, streams), a, streams), b, streams), c, streams), d, streams)
  {
    RunSnoc(actions, a, streams);
    RunSnoc(actions + [a], b, streams);
    RunSnoc(actions + [a] + [b], c, streams);
    RunSnoc(actions + [a] + [b] + [c], d, streams);
    hide Run, Next;
    assert actions + [a, b, c, d] == actions + [a] + [b] + [c] + [d];
  }

  lemma EmitStep(streams: F.Streams)
    ensures Racing(Next(Start(), Emit([7]), streams), [], [], F.Vacant, [], [F.Bytes(0)])
  {
  }

  lemma NotifyStep(s: System, streams: F.Streams)
    requires Racing(s, [], [], F.Vacant, [], [F.Bytes(0)])
    ensures Racing(Next(s, RunFanout, streams), [0], [], F.Vacant, [], [])
  {
    assert [0][0..] == [0] && [0][..0] == [];
    assert Q.PushAll(s.queue, [0]) == Q.Push(s.queue, 0);
  }

  lemma AskReserveStep(s: System, streams: F.Streams)
    requires Racing(s, [0], [], F.Vacant, [], [])
    ensures Racing(Next(s, AskReserve, streams), [0], [], F.Vacant, [], [F.ReserveViewer])
  {
  }

  lemma ReserveStep(s: System, streams: F.Streams)
    requires Racing(s, [0], [], F.Vacant, [], [F.ReserveViewer])
    ensures Racing(Next(s, RunFanout, streams), [0], [FRESH], F.Reserved(1, []), [], [])
  {
    assert Q.PushAll(s.queue, []) == s.queue;
  }

  lemma ReservedRun(streams: F.Streams)
    ensures Racing(Run(RESERVED, streams), [0], [FRESH], F.Reserved(1, []), [], [])
  {
    hide Racing, Next;
    RunFour([], Emit([7]), RunFanout, AskReserve, RunFanout, streams);
    assert [] + RESERVED == RESERVED;
    var s := Next(Start(), Emit([7]), streams);
    EmitStep(streams);
    NotifyStep(s, streams);
    AskReserveStep(Next(s, RunFanout, streams), streams);
    ReserveStep(Next(Next(s, RunFanout, streams), AskReserve, streams), streams);
  }

  lemma AskStep(s: System, streams: F.Streams)
    requires Racing(s, [0], [FRESH], F.Reserved(1, []), [], [])
    ensures Racing(Next(s, AskSnapshot(1), streams),
                   [0], [Attach(Asking, None, NotYet)], F.Reserved(1, []), [SnapshotAsk(1)], [])
  {
  }

  lemma AnswerStep(s: System, streams: F.Streams)
    requires Racing(s, [0], [Attach(Asking, None, NotYet)], F.Reserved(1, []), [SnapshotAsk(1)], [])
    ensures Racing(Next(s, RunActor, streams),
                   [0], [Attach(Answered, Some([]), NotYet)], F.Reserved(1, []), [], [])
  {
  }

  lemma WrittenStep(s: System, streams: F.Streams)
    requires Racing(s, [0], [Attach(Answered, Some([]), NotYet)], F.Reserved(1, []), [], [])
    ensures Racing(Next(s, SnapshotWritten(1), streams),
                   [0], [Attach(Activating, Some([]), Whole)], F.Reserved(1, []), [], [F.ActivateViewer(1)])
  {
  }

  lemma ActivateStep(s: System, streams: F.Streams)
    requires Racing(s, [0], [Attach(Activating, Some([]), Whole)], F.Reserved(1, []), [], [F.ActivateViewer(1)])
    ensures Racing(Next(s, RunFanout, streams), [0], [Attach(Pumping, Some([]), Whole)], F.Active(1), [], [])
  {
    FlushedIs<nat, nat>(1, [], 0, 0, streams);
    hide Flushed, AllWrote;
    assert s.fanout.notified + [] == s.fanout.notified;
    assert Q.PushAll(s.queue, []) == s.queue;
  }

  lemma RaceRun(streams: F.Streams)
    ensures Racing(Run(RACE, streams), [0], [Attach(Pumping, Some([]), Whole)], F.Active(1), [], [])
  {
    hide Racing, Next, Run;
    ReservedRun(streams);
    RunFour(RESERVED, AskSnapshot(1), RunActor, SnapshotWritten(1), RunFanout, streams);
    var s := Run(RESERVED, streams);
    AskStep(s, streams);
    s := Next(s, AskSnapshot(1), streams);
    AnswerStep(s, streams);
    s := Next(s, RunActor, streams);
    WrittenStep(s, streams);
    s := Next(s, SnapshotWritten(1), streams);
    ActivateStep(s, streams);
  }

  /** After that run nothing has been trimmed, dropped or refused, nothing has failed, and the
      viewer is active; but it was sent nothing, and in no continuation is it ever sent the
      byte that was in the queue. */
  lemma ViewerCanMissOutput(more: seq<Action>, streams: F.Streams, capacity: nat)
    requires |Run(RACE + more, streams).fanout.grants| <= U64_MAX
    ensures
      var s, s' := Run(RACE, streams), Run(RACE + more, streams);
      && s.emitted == [[7]] && s.fanout.viewer == F.Active(1) && s.attaches == [Attach(Pumping, Some([]), Whole)]
      && s.refused == [] && s.queue.removals == [] && s.fanout.deliveries == []
      && Inv(s') && 1 <= |s'.attaches| && 0 !in Stream(s', 1, capacity)
  {
    RaceRun(streams);
    hide Inv, Stream, Run;
    var s := Run(RACE, streams);
    MissedForGood(RACE, more, streams, 1, capacity, 0);
    PipelineKeepsInv(RACE, streams);
    FirstByte(s.emitted);
    ChunksAreEmitted(s, 1);
    assert ReservedAt(s, 1) == 1;
    ReplayedPart(s, 1, capacity, 0);
    assert SnapshotPositions(s.emitted, [], capacity) == [];
  }

  lemma FirstByte(emitted: seq<seq<Byte>>)
    requires emitted == [[7]]
    ensures ChunkStart(emitted, 0) == 0 && ChunkStart(emitted, 1) == 1
  {
    assert emitted[..1] == [[7]] && emitted[..0] == [];
  }
}
