/** Who holds the viewer slot of `ViewerFanout` (src/session.rs), and what ends it: told from the
    commands and from what the streams do, over every run. */
module ViewerSlot {
  import opened Bytes
  import opened Flush
  import opened Fanout

  function ChunksOf<C>(commands: seq<Command<C>>): seq<C> {
    if commands == [] then []
    else
      var last := commands[|commands| - 1];
      var earlier := ChunksOf(commands[..|commands| - 1]);
      if last.Bytes? then earlier + [last.chunk] else earlier
  }

  /** The chunks a lease was handed over, or tried. */
  function Tried<C>(sent: seq<Delivery<C>>): (chunks: seq<C>)
    ensures |chunks| == |sent|
    ensures forall i :: 0 <= i < |sent| ==> chunks[i] == sent[i].chunk
  {
    seq(|sent|, i requires 0 <= i < |sent| => sent[i].chunk)
  }

  ghost predicate HeldBy<C>(s: State<C>, lease: nat) {
    !s.viewer.Vacant? && s.viewer.lease == lease
  }

  lemma FlushedOutcomes<C>(lease: nat, backlog: seq<C>, count: nat, streams: Streams)
    ensures
      var writes := Flushed(lease, backlog, count, streams);
      forall i :: 0 <= i < |writes| ==> writes[i].outcome == streams(count + i)
  {
    hide Tries;
  }

  /** Writes number `|earlier|` and on, faring as the streams say. */
  lemma Appended<C>(earlier: seq<Delivery<C>>, more: seq<Delivery<C>>, streams: Streams)
    requires forall i :: 0 <= i < |more| ==> more[i].outcome == streams(|earlier| + i)
    ensures earlier <= earlier + more
    ensures forall i :: |earlier| <= i < |earlier + more| ==> (earlier + more)[i].outcome == streams(i)
  {
    forall i | |earlier| <= i < |earlier + more| ensures (earlier + more)[i].outcome == streams(i) {
      assert more[i - |earlier|].outcome == streams(|earlier| + (i - |earlier|));
    }
  }

  lemma HandleHandles<C>(s: State<C>, command: Command<C>, streams: Streams)
    ensures Handle(s, command, streams).handled ==
            if command.Bytes? then s.handled + [command.chunk] else s.handled
  {
    hide AllWrote, Flushed;
  }

  lemma HandleWrites<C>(s: State<C>, command: Command<C>, streams: Streams)
    ensures
      var s' := Handle(s, command, streams);
      && s.deliveries <= s'.deliveries
      && forall i :: |s.deliveries| <= i < |s'.deliveries| ==> s'.deliveries[i].outcome == streams(i)
  {
    hide AllWrote, Flushed, SaturatingAdd;
    match command
    case Bytes(chunk) =>
      if s.viewer.Active? {
        Appended(s.deliveries, [Attempt(s.viewer.lease, chunk, streams(|s.deliveries|))], streams);
      }
    case ActivateViewer(lease) =>
      if s.viewer.Reserved? && s.viewer.lease == lease {
        FlushedOutcomes(lease, s.viewer.backlog, |s.deliveries|, streams);
        Appended(s.deliveries, Flushed(lease, s.viewer.backlog, |s.deliveries|, streams), streams);
      }
    case _ =>
  }

  /** Everything sent to the fanout is handled, and every write fares as the streams say. */
  lemma {:induction false} RunRecords<C>(commands: seq<Command<C>>, streams: Streams)
    ensures Run(commands, streams).handled == ChunksOf(commands)
    ensures
      var deliveries := Run(commands, streams).deliveries;
      forall i :: 0 <= i < |deliveries| ==> deliveries[i].outcome == streams(i)
  {
    if commands != [] {
      hide Handle;
      var init, last := commands[..|commands| - 1], commands[|commands| - 1];
      RunRecords(init, streams);
      HandleHandles(Run(init, streams), last, streams);
      HandleWrites(Run(init, streams), last, streams);
    }
  }

  /** Any backlog: the viewer that reserved the slot becomes active exactly if every write of its
      backlog succeeds, and is answered so; if one fails the slot is free. */
  lemma ActivatedExactly<C>(s: State<C>, streams: Streams)
    requires s.viewer.Reserved?
    ensures
      var lease, backlog := s.viewer.lease, s.viewer.backlog;
      var s' := Handle(s, ActivateViewer(lease), streams);
      var taken := forall i :: |s.deliveries| <= i < |s.deliveries| + |backlog| ==> streams(i).Wrote?;
      && s'.viewer == (if taken then Active(lease) else Vacant)
      && ReplyTo(s, ActivateViewer(lease), streams) == (if taken then Activated else StreamFailed)
  {
    var lease, backlog, count := s.viewer.lease, s.viewer.backlog, |s.deliveries|;
    if AllTaken(|backlog|, count, streams) {
      FlushedIs(lease, backlog, |backlog|, count, streams);
    } else {
      var writes := Flushed(lease, backlog, count, streams);
      FlushedShape(lease, backlog, count, streams);
      if AllWrote(writes) {
        FlushedOutcomes(lease, backlog, count, streams);
        forall k | count <= k < count + |backlog| ensures streams(k).Wrote? {
          assert writes[k - count].outcome.Wrote?;
        }
        assert false;
      }
    }
    hide Flushed, AllWrote;
  }

  lemma {:induction false} AllWroteSent<C>(deliveries: seq<Delivery<C>>, more: seq<Delivery<C>>, lease: nat)
    requires deliveries <= more && AllWrote(Sent(more, lease))
    ensures AllWrote(Sent(deliveries, lease))
    decreases |more|
  {
    if |deliveries| < |more| {
      hide Sent;
      var init, last := more[..|more| - 1], more[|more| - 1];
      assert more == init + [last];
      SentSnoc(init, last, lease);
      assert AllWrote(Sent(init, lease)) by {
        var longer := Sent(more, lease);
        assert forall i :: 0 <= i < |Sent(init, lease)| ==> longer[i] == Sent(init, lease)[i];
      }
      AllWroteSent(deliveries, init, lease);
    } else {
      assert deliveries == more;
    }
  }

  lemma AllWroteConcat<C>(a: seq<Delivery<C>>, b: seq<Delivery<C>>)
    ensures AllWrote(a + b) <==> AllWrote(a) && AllWrote(b)
  {
    assert forall i :: 0 <= i < |a| ==> (a + b)[i] == a[i];
    assert forall i :: 0 <= i < |b| ==> (a + b)[|a| + i] == b[i];
  }

  /** One command: the holder of lease `n` keeps the slot unless it is detached or a write to it
      fails, and becomes active exactly by being activated. */
  lemma HolderStep<C>(s: State<C>, command: Command<C>, streams: Streams, n: nat)
    requires HeldBy(s, n) && AllWrote(Sent(s.deliveries, n))
    ensures
      var s' := Handle(s, command, streams);
      && (HeldBy(s', n) <==> command != Detach(n) && AllWrote(Sent(s'.deliveries, n)))
      && (HeldBy(s', n) ==> (s'.viewer.Active? <==> s.viewer.Active? || command == ActivateViewer(n)))
  {
    var s' := Handle(s, command, streams);
    match command
    case Bytes(chunk) =>
      if s.viewer.Active? {
        var delivery := Attempt(n, chunk, streams(|s.deliveries|));
        SentSnoc(s.deliveries, delivery, n);
        AllWroteConcat(Sent(s.deliveries, n), [delivery]);
        assert AllWrote([delivery]) <==> delivery.outcome.Wrote? by {
          assert [delivery][0] == delivery;
        }
        hide AllWrote, Sent;
      }
    case ActivateViewer(lease) =>
      if s.viewer.Reserved? && lease == n {
        var writes := Flushed(n, s.viewer.backlog, |s.deliveries|, streams);
        FlushedShape(n, s.viewer.backlog, |s.deliveries|, streams);
        SentConcat(s.deliveries, writes, n, n);
        AllWroteConcat(Sent(s.deliveries, n), writes);
        hide AllWrote, Sent, Flushed;
      }
    case _ => hide AllWrote, Sent;
  }

  /** Grant `n` of a run, below the saturation of the lease counter, from its reservation on: it
      holds the slot exactly as long as it was not detached and no write to it failed; it is
      active exactly if it holds the slot and was activated; as long as it is active, every chunk
      since its reservation was handed over to it; and until it is activated, none. */
  lemma {:induction false} HoldsExactly<C>(before: seq<Command<C>>, after: seq<Command<C>>, streams: Streams)
    requires Run(before, streams).viewer.Vacant?
    requires |Run(before + [ReserveViewer] + after, streams).grants| <= U64_MAX
    ensures
      var n, s := |Run(before, streams).grants| + 1, Run(before + [ReserveViewer] + after, streams);
      var sent := Sent(s.deliveries, n);
      && (HeldBy(s, n) <==> Detach(n) !in after && AllWrote(sent))
      && (s.viewer == Active(n) <==> HeldBy(s, n) && ActivateViewer(n) in after)
      && (s.viewer == Active(n) ==> Tried(sent) == ChunksOf(after))
      && (HeldBy(s, n) && s.viewer.Reserved? ==> sent == [] && s.viewer.backlog == ChunksOf(after))
      && Tried(sent) <= ChunksOf(after)
  {
    hide Run, Handle, ChunksOf, Sent, AllWrote, Tried;
    SlotIsHeld(before, after, streams);
    GrantIsServed(before, after, streams);
  }

  /** Grant `n` was reserved when `from` chunks had been handled; it holds the slot unless it was
      detached or a write to it failed, and is active if it was activated. */
  ghost predicate SlotTold<C>(s: State<C>, n: nat, from: nat, detached: bool, activated: bool) {
    && 1 <= n <= |s.grants| && s.grants[n - 1] == from
    && (HeldBy(s, n) <==> !detached && AllWrote(Sent(s.deliveries, n)))
    && (s.viewer == Active(n) <==> HeldBy(s, n) && activated)
  }

  lemma {:induction false} SlotIsHeld<C>(before: seq<Command<C>>, after: seq<Command<C>>, streams: Streams)
    requires Run(before, streams).viewer.Vacant?
    requires |Run(before + [ReserveViewer] + after, streams).grants| <= U64_MAX
    ensures
      var n, from := |Run(before, streams).grants| + 1, |Run(before, streams).handled|;
      SlotTold(Run(before + [ReserveViewer] + after, streams), n, from, Detach(n) in after, ActivateViewer(n) in after)
    decreases |after|
  {
    hide Run, Handle, LeasesNumbered, Conserved, SlotTold;
    var reserved, n := before + [ReserveViewer], |Run(before, streams).grants| + 1;
    if after == [] {
      assert reserved + after == reserved;
      Reserving(before, streams);
    } else {
      var init, last := after[..|after| - 1], after[|after| - 1];
      assert reserved + after == (reserved + init) + [last];
      assert after == init + [last];
      InSnoc(init, last, Detach(n));
      InSnoc(init, last, ActivateViewer(n));
      var s := Run(reserved + init, streams);
      RunSnoc(reserved + init, last, streams);
      HandleGrants(s, last, streams);
      SlotIsHeld(before, init, streams);
      ConservedAlways(reserved + init, streams);
      SlotStep(
        s, last, streams, n, |Run(before, streams).handled|, Detach(n) in init, ActivateViewer(n) in init);
    }
  }

  lemma SlotStep<C>(
    s: State<C>, command: Command<C>, streams: Streams, n: nat, from: nat, detached: bool, activated: bool)
    requires LeasesNumbered(s) && |Handle(s, command, streams).grants| <= U64_MAX
    requires SlotTold(s, n, from, detached, activated)
    ensures
      SlotTold(
        Handle(s, command, streams), n, from, detached || command == Detach(n),
        activated || command == ActivateViewer(n))
  {
    hide Handle, Sent, AllWrote, LeasesNumbered;
    var s' := Handle(s, command, streams);
    GrantsStay(s, command, streams);
    HandleWrites(s, command, streams);
    if AllWrote(Sent(s'.deliveries, n)) {
      AllWroteSent(s.deliveries, s'.deliveries, n);
    }
    if HeldBy(s, n) {
      HolderStep(s, command, streams, n);
    } else {
      StaysLost(s, command, streams, n);
    }
  }

  lemma GrantsStay<C>(s: State<C>, command: Command<C>, streams: Streams)
    ensures s.grants <= Handle(s, command, streams).grants
  {
    hide Flushed, AllWrote;
  }

  lemma Reserving<C>(before: seq<Command<C>>, streams: Streams)
    requires Run(before, streams).viewer.Vacant? && |Run(before + [ReserveViewer], streams).grants| <= U64_MAX
    ensures
      var s := Run(before, streams);
      SlotTold(Run(before + [ReserveViewer], streams), |s.grants| + 1, |s.handled|, false, false)
  {
    var s := Run(before, streams);
    RunSnoc(before, ReserveViewer, streams);
    ConservedAlways(before, streams);
    FanoutKeepsInv(before, streams);
    NothingSentYet(s);
    hide Run, Sent, Inv, Conserved;
  }

  lemma NothingSentYet<C>(s: State<C>)
    requires Inv(s)
    ensures Sent(s.deliveries, |s.grants| + 1) == []
  {
    SentToNobody(s.deliveries, |s.grants| + 1);
    hide Sent, ServedGrant, Conserved;
  }

  lemma {:induction false} ChunksConcat<C>(a: seq<Command<C>>, b: seq<Command<C>>)
    ensures ChunksOf(a + b) == ChunksOf(a) + ChunksOf(b)
    decreases |b|
  {
    if b == [] {
      assert a + b == a;
    } else {
      ChunksConcat(a, b[..|b| - 1]);
      assert (a + b)[..|a + b| - 1] == a + b[..|b| - 1];
    }
  }

  /** What is handled from a reservation on. */
  lemma HandledSince<C>(before: seq<Command<C>>, after: seq<Command<C>>, streams: Streams)
    ensures
      var handled := Run(before + [ReserveViewer] + after, streams).handled;
      var from := |Run(before, streams).handled|;
      from <= |handled| && handled[from..] == ChunksOf(after)
  {
    RunRecords(before + [ReserveViewer] + after, streams);
    RunRecords(before, streams);
    ChunksConcat(before + [ReserveViewer], after);
    assert (before + [ReserveViewer])[..|before|] == before;
    hide Run;
  }

  /** The service of a grant, in terms of the chunks handled since. */
  lemma ServedSince<C>(s: State<C>, n: nat, since: seq<C>)
    requires 1 <= n <= |s.grants| && ServedGrant(s, n)
    requires s.grants[n - 1] <= |s.handled| && s.handled[s.grants[n - 1]..] == since
    ensures
      var sent := Sent(s.deliveries, n);
      && (s.viewer == Active(n) ==> Tried(sent) == since)
      && (HeldBy(s, n) && s.viewer.Reserved? ==> sent == [] && s.viewer.backlog == since)
      && Tried(sent) <= since
  {
    hide Sent, AllWrote;
    var sent, from := Sent(s.deliveries, n), s.grants[n - 1];
    assert forall i :: 0 <= i < |sent| ==> Tried(sent)[i] == s.handled[from + i] == since[i];
  }

  lemma {:induction false} GrantIsServed<C>(before: seq<Command<C>>, after: seq<Command<C>>, streams: Streams)
    requires Run(before, streams).viewer.Vacant?
    requires |Run(before + [ReserveViewer] + after, streams).grants| <= U64_MAX
    ensures
      var n, s := |Run(before, streams).grants| + 1, Run(before + [ReserveViewer] + after, streams);
      var sent := Sent(s.deliveries, n);
      && (s.viewer == Active(n) ==> Tried(sent) == ChunksOf(after))
      && (HeldBy(s, n) && s.viewer.Reserved? ==> sent == [] && s.viewer.backlog == ChunksOf(after))
      && Tried(sent) <= ChunksOf(after)
  {
    SlotIsHeld(before, after, streams);
    FanoutKeepsInv(before + [ReserveViewer] + after, streams);
    HandledSince(before, after, streams);
    hide Run, ChunksOf, Sent, AllWrote, ServedGrant, HeldBy;
    ServedSince(Run(before + [ReserveViewer] + after, streams), |Run(before, streams).grants| + 1, ChunksOf(after));
  }

  /** So an activation succeeds, in every run, exactly if the streams take every chunk handled since
      the reservation; if one is not taken the slot is free. */
  lemma {:induction false} ActivationSucceedsExactly<C>(
    before: seq<Command<C>>, after: seq<Command<C>>, streams: Streams)
    requires Run(before, streams).viewer.Vacant?
    requires |Run(before + [ReserveViewer] + after, streams).grants| <= U64_MAX
    requires
      var n, s := |Run(before, streams).grants| + 1, Run(before + [ReserveViewer] + after, streams);
      HeldBy(s, n) && s.viewer.Reserved?
    ensures
      var n, s := |Run(before, streams).grants| + 1, Run(before + [ReserveViewer] + after, streams);
      var s' := Run(before + [ReserveViewer] + after + [ActivateViewer(n)], streams);
      var writes, chunks := |s.deliveries|, ChunksOf(after);
      s'.viewer ==
        if forall i :: writes <= i < writes + |chunks| ==> streams(i).Wrote? then Active(n) else Vacant
  {
    GrantIsServed(before, after, streams);
    RunSnoc(before + [ReserveViewer] + after, ActivateViewer(|Run(before, streams).grants| + 1), streams);
    hide Run, Handle, Sent, ChunksOf;
    ActivatedExactly(Run(before + [ReserveViewer] + after, streams), streams);
  }
}
