/** What a viewer's stream holds, byte position by byte position, in every reachable state
    of the output pipeline. Position `p` is the `p`-th byte the PTY ever produced. */
module ViewerStreams {
  import opened Bytes
  import opened Flush
  import opened Pipeline
  import opened AttachProtocol
  import Q = NoticeQueue
  import F = Fanout

  // ---------------------------------------------------------------- every chunk is somewhere

  /** Every place a chunk can be in before it is lost, oldest chunks first. */
  function Trail(s: System): seq<nat> {
    Upstream(s) + F.Backlog(s.fanout.viewer) + ChannelChunks(s.channel)
  }

  /** In every reachable state each chunk the PTY produced is in exactly one place: appended,
      in the mailbox, in the scriber's hand, queued, in the backlog of the reserved viewer, in
      the fanout's channel, refused by the mailbox, or dropped by the queue (which counted
      it). The surviving ones stand in output order from the transcript back to the reader. */
  lemma {:induction false} PipelineAccounting(actions: seq<Action>, streams: F.Streams)
    ensures
      var s := Run(actions, streams);
      var dropped := DroppedChunks(s.queue.removals);
      && Accounts(Trail(s), s.refused, dropped, |s.emitted|)
      && Increasing(s.log)
      && s.queue.droppedOldest == Saturating(|dropped|)
  {
    FlowAlways(actions, streams);
    hide Run, Flow;
    TrailAccounts(Run(actions, streams));
    LogIncreases(Run(actions, streams));
    DropsAreCounted(Run(actions, streams));
  }

  lemma DropsAreCounted(s: System)
    requires Flow(s)
    ensures s.queue.droppedOldest == Saturating(|DroppedChunks(s.queue.removals)|)
  {
    DropCountIsLength(s.queue.removals);
  }

  lemma TrailAccounts(s: System)
    requires Flow(s)
    ensures Accounts(Trail(s), s.refused, DroppedChunks(s.queue.removals), |s.emitted|)
  {
    BacklogIsTheRest(s.fanout);
    hide F.Conserved, Q.Accounted, MailChunks, ChannelChunks, DroppedChunks,
         F.Sent, Accounts, F.Backlog, Between;
    var k, h, n := |s.fanout.notified|, |s.fanout.handled|, |s.emitted|;
    var up := Upstream(s);
    GainMany(up, s.refused, DroppedChunks(s.queue.removals), k, n);
    BetweenSplit(k, h, n);
    ConcatAssociates(up, Between(k, h), Between(h, n));
  }

  lemma LogIncreases(s: System)
    requires Flow(s)
    ensures Increasing(s.log)
  {
    hide F.Conserved, Q.Accounted, MailChunks, ChannelChunks, DroppedChunks, Accounts, Between;
    var behind := MailChunks(s.mailbox) + Held(s.hand) + s.queue.pending;
    assert Upstream(s) == s.log + behind;
    FrontIncreases(s.log, behind, s.refused, DroppedChunks(s.queue.removals), |s.fanout.notified|);
  }

  lemma BacklogIsTheRest(f: F.State<nat>)
    requires F.Conserved(f) && f.handled == Between(0, |f.handled|)
    ensures |f.notified| <= |f.handled|
    ensures F.Backlog(f.viewer) == Between(|f.notified|, |f.handled|)
  {
    assert F.Backlog(f.viewer) == f.handled[|f.notified|..];
  }

  lemma FrontIncreases(front: seq<nat>, rest: seq<nat>, refused: seq<nat>, dropped: seq<nat>, k: nat)
    requires Accounts(front + rest, refused, dropped, k)
    ensures Increasing(front)
  {
    var up := front + rest;
    assert forall i :: 0 <= i < |front| ==> front[i] == up[i];
  }

  lemma GainMany(up: seq<nat>, refused: seq<nat>, dropped: seq<nat>, k: nat, n: nat)
    requires k <= n && Accounts(up, refused, dropped, k)
    ensures Accounts(up + Between(k, n), refused, dropped, n)
  {
    BetweenSplit(0, k, n);
  }

  lemma {:induction false} DropCountIsLength(removals: seq<Q.Removal<nat>>)
    ensures Q.DropCount(removals) == |DroppedChunks(removals)|
  {
    if removals != [] {
      DropCountIsLength(removals[..|removals| - 1]);
    }
  }

  // ---------------------------------------------------------------- byte positions

  /** Where chunk `id` starts in the PTY's output. */
  function ChunkStart(emitted: seq<seq<Byte>>, id: nat): nat
    requires id <= |emitted|
  {
    |Flatten(emitted[..id])|
  }

  lemma ChunkStartNext(emitted: seq<seq<Byte>>, id: nat)
    requires id < |emitted|
    ensures ChunkStart(emitted, id + 1) == ChunkStart(emitted, id) + |emitted[id]|
  {
    FlattenSnoc(emitted[..id], emitted[id]);
    assert emitted[..id + 1] == emitted[..id] + [emitted[id]];
  }

  lemma {:induction false} ChunkStartMonotone(emitted: seq<seq<Byte>>, a: nat, b: nat)
    requires a <= b <= |emitted|
    ensures ChunkStart(emitted, a) <= ChunkStart(emitted, b)
    decreases b
  {
    if a < b {
      ChunkStartMonotone(emitted, a, b - 1);
      ChunkStartNext(emitted, b - 1);
    }
  }

  function ChunkPositions(emitted: seq<seq<Byte>>, id: nat): seq<nat>
    requires id < |emitted|
  {
    Between(ChunkStart(emitted, id), ChunkStart(emitted, id + 1))
  }

  /** The positions of the bytes of the given chunks, in the order given. */
  function Positions(emitted: seq<seq<Byte>>, ids: seq<nat>): seq<nat>
    requires Below(ids, |emitted|)
  {
    if ids == [] then []
    else Positions(emitted, ids[..|ids| - 1]) + ChunkPositions(emitted, ids[|ids| - 1])
  }

  /** Positions stand for bytes: read off the output, they give the chunks' contents. */
  function BytesAt(output: seq<Byte>, positions: seq<nat>): (bytes: seq<Byte>)
    requires Below(positions, |output|)
    ensures |bytes| == |positions|
    ensures forall i :: 0 <= i < |bytes| ==> bytes[i] == output[positions[i]]
  {
    seq(|positions|, i requires 0 <= i < |positions| => output[positions[i]])
  }

  function Contents(emitted: seq<seq<Byte>>, ids: seq<nat>): seq<seq<Byte>>
    requires Below(ids, |emitted|)
  {
    if ids == [] then []
    else Contents(emitted, ids[..|ids| - 1]) + [emitted[ids[|ids| - 1]]]
  }

  lemma ChunkBytes(emitted: seq<seq<Byte>>, id: nat)
    requires id < |emitted|
    ensures Below(ChunkPositions(emitted, id), |Flatten(emitted)|)
    ensures BytesAt(Flatten(emitted), ChunkPositions(emitted, id)) == emitted[id]
  {
    ChunkStartNext(emitted, id);
    ChunkSlice(emitted, id);
    hide Flatten, ChunkStart;
    SliceBytes(Flatten(emitted), ChunkStart(emitted, id), emitted[id]);
  }

  lemma SliceBytes(output: seq<Byte>, start: nat, slice: seq<Byte>)
    requires start + |slice| <= |output| && output[start..start + |slice|] == slice
    ensures Below(Between(start, start + |slice|), |output|)
    ensures BytesAt(output, Between(start, start + |slice|)) == slice
  {
    forall i | 0 <= i < |slice| ensures output[start + i] == slice[i] {
      assert output[start..start + |slice|][i] == output[start + i];
    }
  }

  lemma ChunkSlice(emitted: seq<seq<Byte>>, id: nat)
    requires id < |emitted|
    ensures ChunkStart(emitted, id) + |emitted[id]| <= |Flatten(emitted)|
    ensures Flatten(emitted)[ChunkStart(emitted, id)..ChunkStart(emitted, id) + |emitted[id]|] == emitted[id]
  {
    hide Flatten;
    var before, after := emitted[..id], emitted[id + 1..];
    assert emitted == before + ([emitted[id]] + after);
    FlattenConcat(before, [emitted[id]] + after);
    FlattenCons(emitted[id], after);
  }

  lemma {:induction false} PositionsShowContents(emitted: seq<seq<Byte>>, ids: seq<nat>)
    requires Below(ids, |emitted|)
    ensures Below(Positions(emitted, ids), |Flatten(emitted)|)
    ensures BytesAt(Flatten(emitted), Positions(emitted, ids)) == Flatten(Contents(emitted, ids))
  {
    if ids != [] {
      var init, last := ids[..|ids| - 1], ids[|ids| - 1];
      PositionsShowContents(emitted, init);
      ChunkBytes(emitted, last);
      FlattenSnoc(Contents(emitted, init), emitted[last]);
      hide Flatten, ChunkPositions;
      var output, earlier := Flatten(emitted), Positions(emitted, init);
      assert BytesAt(output, earlier + ChunkPositions(emitted, last)) ==
             BytesAt(output, earlier) + BytesAt(output, ChunkPositions(emitted, last));
    }
  }

  /** Chunks in output order give bytes in output order, none of them twice. */
  lemma {:induction false} PositionsIncrease(emitted: seq<seq<Byte>>, ids: seq<nat>, k: nat)
    requires k <= |emitted| && Increasing(ids) && Below(ids, k)
    ensures Increasing(Positions(emitted, ids)) && Below(Positions(emitted, ids), ChunkStart(emitted, k))
    decreases |ids|
  {
    if ids != [] {
      hide ChunkStart, Increasing, Between;
      var init, last := ids[..|ids| - 1], ids[|ids| - 1];
      InitBelowLast(ids);
      PositionsIncrease(emitted, init, last);
      ChunkStartMonotone(emitted, last, last + 1);
      ChunkStartMonotone(emitted, last + 1, k);
      Joins(Positions(emitted, init), ChunkStart(emitted, last), ChunkStart(emitted, last + 1), ChunkStart(emitted, k));
    } else {
      NothingIncreases(ChunkStart(emitted, k));
    }
  }

  lemma InitBelowLast(s: seq<nat>)
    requires s != [] && Increasing(s)
    ensures Increasing(s[..|s| - 1]) && Below(s[..|s| - 1], s[|s| - 1])
  {
  }

  lemma BetweenSnoc(a: nat, b: nat)
    requires a <= b
    ensures Between(a, b + 1) == Between(a, b) + [b]
  {
  }

  lemma PositionsSnoc(emitted: seq<seq<Byte>>, ids: seq<nat>, id: nat)
    requires Below(ids, |emitted|) && id < |emitted|
    ensures Below(ids + [id], |emitted|)
    ensures Positions(emitted, ids + [id]) == Positions(emitted, ids) + ChunkPositions(emitted, id)
  {
    hide ChunkPositions;
    assert (ids + [id])[..|ids|] == ids;
  }

  lemma {:induction false} PositionsOfRun(emitted: seq<seq<Byte>>, a: nat, b: nat)
    requires a <= b <= |emitted|
    ensures Below(Between(a, b), |emitted|)
    ensures Positions(emitted, Between(a, b)) == Between(ChunkStart(emitted, a), ChunkStart(emitted, b))
    decreases b
  {
    if a < b {
      hide ChunkStart, Positions;
      PositionsOfRun(emitted, a, b - 1);
      PositionsSnoc(emitted, Between(a, b - 1), b - 1);
      BetweenSnoc(a, b - 1);
      ChunkStartMonotone(emitted, a, b - 1);
      ChunkStartMonotone(emitted, b - 1, b);
      BetweenSplit(ChunkStart(emitted, a), ChunkStart(emitted, b - 1), ChunkStart(emitted, b));
    } else {
      assert Between(a, b) == [];
    }
  }

  // ---------------------------------------------------------------- a viewer's stream

  function SnapshotPositions(emitted: seq<seq<Byte>>, log: seq<nat>, capacity: nat): seq<nat>
    requires Below(log, |emitted|)
  {
    LastOf(capacity, Positions(emitted, log))
  }

  predicate Holds(emitted: seq<seq<Byte>>, id: nat, p: nat) {
    id < |emitted| && ChunkStart(emitted, id) <= p < ChunkStart(emitted, id + 1)
  }

  lemma BytesAtTail(output: seq<Byte>, positions: seq<nat>, n: nat)
    requires Below(positions, |output|)
    ensures Below(LastOf(n, positions), |output|)
    ensures BytesAt(output, LastOf(n, positions)) == LastOf(n, BytesAt(output, positions))
  {
  }

  /** These are the positions of the bytes a transcript holding `log` answers a snapshot with. */
  lemma SnapshotIsRetained(emitted: seq<seq<Byte>>, log: seq<nat>, capacity: nat)
    requires Below(log, |emitted|)
    ensures Below(SnapshotPositions(emitted, log, capacity), |Flatten(emitted)|)
    ensures BytesAt(Flatten(emitted), SnapshotPositions(emitted, log, capacity)) ==
            LastOf(capacity, Flatten(Contents(emitted, log)))
  {
    PositionsShowContents(emitted, log);
    hide Flatten, Positions, Contents;
    BytesAtTail(Flatten(emitted), Positions(emitted, log), capacity);
  }

  /** The bytes of one write that reached the stream. */
  function DeliveredPositions(emitted: seq<seq<Byte>>, delivery: F.Delivery<nat>): seq<nat>
    requires delivery.chunk < |emitted|
  {
    var start := ChunkStart(emitted, delivery.chunk);
    match delivery.outcome
    case Wrote => ChunkPositions(emitted, delivery.chunk)
    case Failed(written) => Between(start, start + Min(written, |emitted[delivery.chunk]|))
  }

  function SentPositions(emitted: seq<seq<Byte>>, sent: seq<F.Delivery<nat>>): seq<nat>
    requires forall i :: 0 <= i < |sent| ==> sent[i].chunk < |emitted|
  {
    if sent == [] then []
    else SentPositions(emitted, sent[..|sent| - 1]) + DeliveredPositions(emitted, sent[|sent| - 1])
  }

  /** The snapshot bytes replayed to a viewer, then everything the fanout wrote to it. */
  ghost function Stream(s: System, viewer: nat, capacity: nat): seq<nat>
    requires Inv(s) && 1 <= viewer <= |s.attaches|
  {
    var a := s.attaches[viewer - 1];
    ChunksAreEmitted(s, viewer);
    if a.snapshot.None? then []
    else
      var replayed := SnapshotPositions(s.emitted, a.snapshot.value, capacity);
      match a.replay
      case NotYet => []
      case Partly(written) => replayed[..Min(written, |replayed|)]
      case Whole => replayed + SentPositions(s.emitted, F.Sent(s.fanout.deliveries, viewer))
  }

  lemma ChunksAreEmitted(s: System, viewer: nat)
    requires Inv(s) && 1 <= viewer <= |s.attaches|
    ensures |s.fanout.grants| == |s.attaches|
    ensures
      var sent := F.Sent(s.fanout.deliveries, viewer);
      var from := s.fanout.grants[viewer - 1];
      && F.HandsOver(sent, Between(0, |s.fanout.handled|), from)
      && from + |sent| <= |s.fanout.handled| <= |s.emitted|
      && (forall i :: 0 <= i < |sent| ==> sent[i].chunk == from + i < |s.emitted|)
      && (s.fanout.viewer == F.Active(viewer) ==>
            AllWrote(sent) && from + |sent| == |s.fanout.handled| && s.attaches[viewer - 1].replay.Whole?)
    ensures
      var a := s.attaches[viewer - 1];
      && (a.replay.Whole? ==> a.snapshot.Some?)
      && (a.snapshot.Some? ==>
            Below(a.snapshot.value, |s.emitted|) && SnapshotOf(a.snapshot.value, s.fanout.grants[viewer - 1]))
  {
    hide F.Sent, Accounts, Q.Accounted, ChannelOk, ChannelChunks;
    assert F.ServedGrant(s.fanout, viewer);
    assert AttachOk(s, viewer);
  }

  /** How many chunks the PTY had produced, as far as the fanout knew, when it granted the lease. */
  ghost function ReservedAt(s: System, viewer: nat): (chunk: nat)
    requires Inv(s) && 1 <= viewer <= |s.attaches|
    ensures chunk <= |s.fanout.handled| <= |s.emitted|
  {
    ChunksAreEmitted(s, viewer);
    s.fanout.grants[viewer - 1]
  }

  /** What the fanout wrote to a viewer is one contiguous run of the output that starts at the
      reservation. */
  lemma {:induction false} SentIsContiguous(
    emitted: seq<seq<Byte>>, sent: seq<F.Delivery<nat>>, from: nat) returns (end: nat)
    requires from + |sent| <= |emitted|
    requires forall i :: 0 <= i < |sent| ==> sent[i].chunk == from + i
    requires forall i :: 0 <= i < |sent| - 1 ==> sent[i].outcome.Wrote?
    ensures ChunkStart(emitted, from) <= end <= ChunkStart(emitted, from + |sent|)
    ensures SentPositions(emitted, sent) == Between(ChunkStart(emitted, from), end)
    ensures AllWrote(sent) ==> end == ChunkStart(emitted, from + |sent|)
    decreases |sent|
  {
    if sent == [] {
      end := ChunkStart(emitted, from);
      assert Between(end, end) == [];
    } else {
      hide ChunkStart, DeliveredPositions, Between;
      var init, last := sent[..|sent| - 1], sent[|sent| - 1];
      var middle := SentIsContiguous(emitted, init, from);
      assert AllWrote(init);
      end := DeliveredIsContiguous(emitted, last);
      BetweenSplit(ChunkStart(emitted, from), middle, end);
    }
  }

  lemma DeliveredIsContiguous(emitted: seq<seq<Byte>>, delivery: F.Delivery<nat>) returns (end: nat)
    requires delivery.chunk < |emitted|
    ensures ChunkStart(emitted, delivery.chunk) <= end <= ChunkStart(emitted, delivery.chunk + 1)
    ensures DeliveredPositions(emitted, delivery) == Between(ChunkStart(emitted, delivery.chunk), end)
    ensures delivery.outcome.Wrote? ==> end == ChunkStart(emitted, delivery.chunk + 1)
  {
    ChunkStartNext(emitted, delivery.chunk);
    hide ChunkStart;
    end := if delivery.outcome.Wrote? then ChunkStart(emitted, delivery.chunk + 1)
           else ChunkStart(emitted, delivery.chunk) + Min(delivery.outcome.written, |emitted[delivery.chunk]|);
  }

  lemma SuffixIncreases(a: seq<nat>, n: nat, bound: nat)
    requires Increasing(a) && Below(a, bound)
    ensures Increasing(LastOf(n, a)) && Below(LastOf(n, a), bound)
  {
  }

  lemma SnapshotIncreases(log: seq<nat>, reserved: nat)
    requires SnapshotOf(log, reserved)
    ensures Increasing(log) && Below(log, reserved)
  {
  }

  lemma SentWroteBut(sent: seq<F.Delivery<nat>>, handled: seq<nat>, from: nat)
    requires F.HandsOver(sent, handled, from)
    ensures forall i :: 0 <= i < |sent| - 1 ==> sent[i].outcome.Wrote?
  {
  }

  lemma Joins(a: seq<nat>, middle: nat, end: nat, bound: nat)
    requires Increasing(a) && Below(a, middle) && middle <= end <= bound
    ensures Increasing(a + Between(middle, end)) && Below(a + Between(middle, end), bound)
  {
  }

  lemma NothingIncreases(bound: nat)
    ensures Increasing([]) && Below([], bound)
  {
  }

  lemma PrefixIncreases(a: seq<nat>, n: nat, bound: nat)
    requires Increasing(a) && Below(a, bound) && n <= |a|
    ensures Increasing(a[..n]) && Below(a[..n], bound)
  {
  }

  lemma StreamOrdered(s: System, viewer: nat, capacity: nat)
    requires Inv(s) && 1 <= viewer <= |s.attaches|
    ensures Increasing(Stream(s, viewer, capacity))
    ensures Below(Stream(s, viewer, capacity), ChunkStart(s.emitted, |s.emitted|))
  {
    hide Inv, AttachOk, ChunkStart, SentPositions, Positions, F.Sent, LastOf, Increasing, Between,
         SnapshotOf, F.HandsOver, AllWrote;
    ChunksAreEmitted(s, viewer);
    NothingIncreases(ChunkStart(s.emitted, |s.emitted|));
    var a, from := s.attaches[viewer - 1], s.fanout.grants[viewer - 1];
    if a.snapshot.Some? {
      SnapshotIncreases(a.snapshot.value, from);
      SentWroteBut(F.Sent(s.fanout.deliveries, viewer), Between(0, |s.fanout.handled|), from);
      var log, sent := a.snapshot.value, F.Sent(s.fanout.deliveries, viewer);
      var middle := ChunkStart(s.emitted, from);
      PositionsIncrease(s.emitted, log, from);
      SuffixIncreases(Positions(s.emitted, log), capacity, middle);
      var end := SentIsContiguous(s.emitted, sent, from);
      ChunkStartMonotone(s.emitted, from + |sent|, |s.emitted|);
      var replayed := SnapshotPositions(s.emitted, log, capacity);
      Joins(replayed, middle, end, ChunkStart(s.emitted, |s.emitted|));
      Joins(replayed, middle, middle, ChunkStart(s.emitted, |s.emitted|));
      match a.replay {
        case NotYet =>
        case Partly(written) =>
          PrefixIncreases(replayed, Min(written, |replayed|), middle);
          Joins(replayed[..Min(written, |replayed|)], middle, middle, ChunkStart(s.emitted, |s.emitted|));
        case Whole =>
      }
    }
  }

  /** A viewer's stream is in PTY order and never repeats an output position, whatever the
      interleaving and wherever its attach stands. */
  lemma {:induction false} StreamInOrder(actions: seq<Action>, streams: F.Streams, viewer: nat, capacity: nat)
    requires |Run(actions, streams).fanout.grants| <= U64_MAX
    requires 1 <= viewer <= |Run(actions, streams).attaches|
    ensures
      var s := Run(actions, streams);
      && Inv(s)
      && Increasing(Stream(s, viewer, capacity))
      && Below(Stream(s, viewer, capacity), |Flatten(s.emitted)|)
  {
    PipelineKeepsInv(actions, streams);
    hide Run, Inv;
    var s := Run(actions, streams);
    StreamOrdered(s, viewer, capacity);
    assert s.emitted[..|s.emitted|] == s.emitted;
  }
}
