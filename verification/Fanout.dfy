/** `ViewerFanout` (src/session.rs): the owner of the single viewer slot. It forwards PTY
    output to the viewer that holds the slot, keeps a backlog for one that has only
    reserved it, and notifies the transcript of every chunk. Chunks are never inspected. */
module Fanout {
  import opened Bytes
  import opened Flush
  import opened NoticeQueue

  datatype Slot<C> = Vacant | Reserved(lease: nat, backlog: seq<C>) | Active(lease: nat)

  /** One write to the stream that the owner, the holder of a lease, handed over. */
  type Delivery<C> = Attempt<nat, C>

  datatype Command<C> = Bytes(chunk: C) | ReserveViewer | ActivateViewer(lease: nat) | Detach(lease: nat)

  datatype Reply =
    | Granted(lease: nat) | ViewerAlreadyAttached
    | Activated | StaleViewerLease | StreamFailed
    | NoReply

  /** The fanout's fields, with its history: the chunks handled, the chunks it notified the
      transcript of, how many were handled at each grant, and every stream write. */
  datatype State<C> = State(
    viewer: Slot<C>,
    nextViewer: nat,
    handled: seq<C>,
    notified: seq<C>,
    grants: seq<nat>,
    deliveries: seq<Delivery<C>>)

  function Start<C>(): State<C> {
    State(Vacant, 1, [], [], [], [])
  }

  function Backlog<C>(viewer: Slot<C>): seq<C> {
    if viewer.Reserved? then viewer.backlog else []
  }

  /** Whether a write of the run fails is up to the streams. */
  type Streams = Writer

  function Handle<C>(s: State<C>, command: Command<C>, streams: Streams): State<C> {
    match command
    case Bytes(chunk) =>
      var t := s.(handled := s.handled + [chunk]);
      (match s.viewer
       case Vacant => t.(notified := s.notified + [chunk])
       case Reserved(lease, backlog) => t.(viewer := Reserved(lease, backlog + [chunk]))
       case Active(lease) =>
         var delivery := Attempt(lease, chunk, streams(|s.deliveries|));
         t.(notified := s.notified + [chunk],
            deliveries := s.deliveries + [delivery],
            viewer := if delivery.outcome.Wrote? then s.viewer else Vacant))
    case ReserveViewer =>
      if !s.viewer.Vacant? then s
      else s.(viewer := Reserved(s.nextViewer, []),
              nextViewer := SaturatingAdd(s.nextViewer, 1),
              grants := s.grants + [|s.handled|])
    case ActivateViewer(lease) =>
      if !(s.viewer.Reserved? && s.viewer.lease == lease) then s
      else
        var writes := Flushed(lease, s.viewer.backlog, |s.deliveries|, streams);
        s.(notified := s.notified + s.viewer.backlog,
           deliveries := s.deliveries + writes,
           viewer := if AllWrote(writes) then Active(lease) else Vacant)
    case Detach(lease) =>
      if s.viewer.Vacant? || s.viewer.lease != lease then s
      else s.(notified := s.notified + Backlog(s.viewer), viewer := Vacant)
  }

  function ReplyTo<C>(s: State<C>, command: Command<C>, streams: Streams): Reply {
    match command
    case ReserveViewer => if s.viewer.Vacant? then Granted(s.nextViewer) else ViewerAlreadyAttached
    case ActivateViewer(lease) =>
      (match s.viewer
       case Vacant => StaleViewerLease
       case Active(_) => ViewerAlreadyAttached
       case Reserved(holder, backlog) =>
         if holder != lease then StaleViewerLease
         else if AllWrote(Flushed(lease, backlog, |s.deliveries|, streams)) then Activated
         else StreamFailed)
    case _ => NoReply
  }

  function Run<C>(commands: seq<Command<C>>, streams: Streams): State<C> {
    if commands == [] then Start()
    else Handle(Run(commands[..|commands| - 1], streams), commands[|commands| - 1], streams)
  }

  // ---------------------------------------------------------------- the worker

  class ViewerFanout<C> {
    const transcript: TranscriptNoticeQueue<C>
    const streams: Streams
    var viewer: Slot<C>
    var nextViewer: nat
    /** What was written to the viewers' streams: the I/O edge of this model. */
    var deliveries: seq<Delivery<C>>
    ghost var handled: seq<C>
    ghost var grants: seq<nat>

    ghost predicate Valid()
      reads this, transcript
    {
      transcript.Valid()
    }

    ghost function View(): State<C>
      reads this, transcript
    {
      State(viewer, nextViewer, handled, transcript.pushed, grants, deliveries)
    }

    constructor (streams: Streams)
      ensures Valid() && fresh(transcript) && View() == Start()
      ensures this.streams == streams
    {
      transcript := new TranscriptNoticeQueue(TRANSCRIPT_NOTICE_QUEUE_CAPACITY);
      this.streams := streams;
      viewer, nextViewer, deliveries := Vacant, 1, [];
      handled, grants := [], [];
    }

    method WriteStream(lease: nat, chunk: C) returns (ok: bool)
      modifies this`deliveries
      ensures deliveries == old(deliveries) + [Attempt(lease, chunk, streams(|old(deliveries)|))]
      ensures ok == streams(|old(deliveries)|).Wrote?
    {
      var outcome := streams(|deliveries|);
      deliveries := deliveries + [Attempt(lease, chunk, outcome)];
      ok := outcome.Wrote?;
    }

    method NotifyTranscript(chunk: C)
      requires Valid()
      modifies transcript
      ensures Valid() && transcript.pushed == old(transcript.pushed) + [chunk]
    {
      var dropped := transcript.PushDropOldest(chunk);
    }

    method NotifyReservedTranscript(backlog: seq<C>)
      requires Valid()
      modifies transcript
      ensures Valid() && transcript.pushed == old(transcript.pushed) + backlog
    {
      for i := 0 to |backlog|
        invariant Valid() && transcript.pushed == old(transcript.pushed) + backlog[..i]
      {
        NotifyTranscript(backlog[i]);
      }
      assert backlog[..|backlog|] == backlog;
    }

    method Reserve() returns (reply: Reply)
      requires Valid()
      modifies this
      ensures Valid() && View() == Handle(old(View()), ReserveViewer, streams)
      ensures reply == ReplyTo(old(View()), ReserveViewer, streams)
    {
      if !viewer.Vacant? {
        return ViewerAlreadyAttached;
      }
      var lease := nextViewer;
      nextViewer := SaturatingAdd(nextViewer, 1);
      viewer := Reserved(lease, []);
      grants := grants + [|handled|];
      reply := Granted(lease);
    }

    method Activate(lease: nat) returns (reply: Reply)
      requires Valid()
      modifies this, transcript
      ensures Valid() && View() == Handle(old(View()), ActivateViewer(lease), streams)
      ensures reply == ReplyTo(old(View()), ActivateViewer(lease), streams)
    {
      match viewer
      case Reserved(holder, backlog) =>
        if holder == lease {
          viewer := Vacant;
          var ok := ActivateReservedViewer(lease, backlog);
          if ok {
            viewer := Active(lease);
            reply := Activated;
          } else {
            reply := StreamFailed;
          }
        } else {
          reply := StaleViewerLease;
        }
      case Active(_) => reply := ViewerAlreadyAttached;
      case Vacant => reply := StaleViewerLease;
    }

    method ActivateReservedViewer(lease: nat, backlog: seq<C>) returns (ok: bool)
      requires Valid()
      modifies this`deliveries, transcript
      ensures Valid() && transcript.pushed == old(transcript.pushed) + backlog
      ensures deliveries == old(deliveries) + Flushed(lease, backlog, |old(deliveries)|, streams)
      ensures ok == AllWrote(Flushed(lease, backlog, |old(deliveries)|, streams))
    {
      hide FirstWrites, Flushed, AllWrote, AllTaken;
      ghost var writes := |deliveries|;
      NothingTried(lease, backlog, writes, streams);
      for i := 0 to |backlog|
        invariant Valid() && transcript.pushed == old(transcript.pushed) + backlog[..i]
        invariant deliveries == old(deliveries) + FirstWrites(lease, backlog, i, writes, streams)
        invariant AllTaken(i, writes, streams)
      {
        FlushTurn(lease, backlog, i, writes, streams);
        ConcatAssociates(
          old(deliveries), FirstWrites(lease, backlog, i, writes, streams),
          [Attempt(lease, backlog[i], streams(writes + i))]);
        var wrote := WriteStream(lease, backlog[i]);
        NotifyTranscript(backlog[i]);
        if !wrote {
          FlushedIs(lease, backlog, i + 1, writes, streams);
          NotifyReservedTranscript(backlog[i + 1..]);
          return false;
        }
      }
      assert backlog[..|backlog|] == backlog;
      FlushedIs(lease, backlog, |backlog|, writes, streams);
      ok := true;
    }

    method DetachViewer(lease: nat)
      requires Valid()
      modifies this, transcript
      ensures Valid() && View() == Handle(old(View()), Detach(lease), streams)
    {
      match viewer
      case Reserved(holder, backlog) =>
        if holder == lease {
          viewer := Vacant;
          NotifyReservedTranscript(backlog);
        }
      case Active(holder) =>
        if holder == lease {
          viewer := Vacant;
        }
      case Vacant =>
    }

    method WriteBytes(chunk: C)
      requires Valid()
      modifies this, transcript
      ensures Valid() && View() == Handle(old(View()), Bytes(chunk), streams)
    {
      handled := handled + [chunk];
      var clearViewer := false;
      match viewer {
        case Active(lease) =>
          var ok := WriteStream(lease, chunk);
          clearViewer := !ok;
        case Reserved(lease, backlog) =>
          viewer := Reserved(lease, backlog + [chunk]);
          return;
        case Vacant =>
      }
      if clearViewer {
        viewer := Vacant;
      }
      NotifyTranscript(chunk);
    }
  }

  // ---------------------------------------------------------------- what every run keeps

  /** The writes made for one lease, in order. */
  function Sent<C>(deliveries: seq<Delivery<C>>, lease: nat): seq<Delivery<C>> {
    if deliveries == [] then []
    else
      var last := deliveries[|deliveries| - 1];
      var earlier := Sent(deliveries[..|deliveries| - 1], lease);
      if last.owner == lease then earlier + [last] else earlier
  }

  /** `sent` hands over the chunks from `from` on, in order and without gaps; only its last
      write may have failed. */
  ghost predicate HandsOver<C>(sent: seq<Delivery<C>>, handled: seq<C>, from: nat) {
    && from + |sent| <= |handled|
    && (forall i :: 0 <= i < |sent| ==> sent[i].chunk == handled[from + i])
    && (forall i :: 0 <= i < |sent| - 1 ==> sent[i].outcome.Wrote?)
  }

  /** Nothing is lost on the way to the transcript: what was notified and what is still in
      the backlog make up every chunk handled, in order. */
  ghost predicate Conserved<C>(s: State<C>) {
    s.notified + Backlog(s.viewer) == s.handled
  }

  /** Only the newest grant can hold the slot. */
  ghost predicate LeasesNumbered<C>(s: State<C>) {
    && s.nextViewer == Saturating(|s.grants| + 1)
    && (!s.viewer.Vacant? ==> |s.grants| > 0 && s.viewer.lease == Saturating(|s.grants|))
  }

  /** How far grant number `n` (from one) has been served. */
  ghost predicate ServedGrant<C>(s: State<C>, n: nat)
    requires 1 <= n <= |s.grants|
  {
    var sent := Sent(s.deliveries, n);
    var from := s.grants[n - 1];
    && HandsOver(sent, s.handled, from)
    && (s.viewer == Active(n) ==> AllWrote(sent) && from + |sent| == |s.handled|)
    && (s.viewer.Reserved? && s.viewer.lease == n ==> sent == [] && s.viewer.backlog == s.handled[from..])
  }

  ghost predicate Inv<C>(s: State<C>) {
    && Conserved(s)
    && LeasesNumbered(s)
    && |s.grants| <= U64_MAX
    && (forall n :: 1 <= n <= |s.grants| ==> ServedGrant(s, n))
    && (forall i :: 0 <= i < |s.deliveries| ==> 1 <= s.deliveries[i].owner <= |s.grants|)
  }

  lemma SentSnoc<C>(deliveries: seq<Delivery<C>>, delivery: Delivery<C>, lease: nat)
    ensures Sent(deliveries + [delivery], lease) ==
            if delivery.owner == lease then Sent(deliveries, lease) + [delivery] else Sent(deliveries, lease)
  {
    assert (deliveries + [delivery])[..|deliveries|] == deliveries;
  }

  lemma {:induction false} SentConcat<C>(deliveries: seq<Delivery<C>>, more: seq<Delivery<C>>, owner: nat, lease: nat)
    requires forall i :: 0 <= i < |more| ==> more[i].owner == owner
    ensures Sent(deliveries + more, lease) ==
            if owner == lease then Sent(deliveries, lease) + more else Sent(deliveries, lease)
    decreases |more|
  {
    if more == [] {
      assert deliveries + more == deliveries;
      assert Sent(deliveries, lease) + more == Sent(deliveries, lease);
    } else {
      hide Sent;
      var init, last := more[..|more| - 1], more[|more| - 1];
      assert more == init + [last];
      SentConcat(deliveries, init, owner, lease);
      SentSnoc(deliveries + init, last, lease);
      ConcatAssociates(deliveries, init, [last]);
      ConcatAssociates(Sent(deliveries, lease), init, [last]);
    }
  }

  lemma {:induction false} SentToNobody<C>(deliveries: seq<Delivery<C>>, lease: nat)
    requires forall i :: 0 <= i < |deliveries| ==> deliveries[i].owner != lease
    ensures Sent(deliveries, lease) == []
  {
    if deliveries != [] {
      SentToNobody(deliveries[..|deliveries| - 1], lease);
    }
  }

  lemma BytesServe<C>(s: State<C>, chunk: C, streams: Streams, n: nat)
    requires LeasesNumbered(s) && |s.grants| <= U64_MAX && 1 <= n <= |s.grants| && ServedGrant(s, n)
    ensures ServedGrant(Handle(s, Bytes(chunk), streams), n)
  {
    hide Sent;
    if s.viewer.Active? {
      SentSnoc(s.deliveries, Attempt(s.viewer.lease, chunk, streams(|s.deliveries|)), n);
    }
  }

  lemma BytesKeepInv<C>(s: State<C>, chunk: C, streams: Streams)
    requires Inv(s)
    ensures Inv(Handle(s, Bytes(chunk), streams))
  {
    hide ServedGrant;
    var s' := Handle(s, Bytes(chunk), streams);
    forall n | 1 <= n <= |s'.grants|
      ensures ServedGrant(s', n)
    {
      BytesServe(s, chunk, streams, n);
    }
  }

  lemma ReserveKeepsInv<C>(s: State<C>, streams: Streams)
    requires Inv(s) && |s.grants| < U64_MAX
    ensures Inv(Handle(s, ReserveViewer, streams))
  {
    hide Sent;
    var s' := Handle(s, ReserveViewer, streams);
    forall n | 1 <= n <= |s'.grants|
      ensures ServedGrant(s', n)
    {
      if n <= |s.grants| {
        assert ServedGrant(s, n);
      } else {
        SentToNobody(s.deliveries, n);
      }
    }
  }

  /** The holder of the reservation is served its backlog. */
  lemma ActivateServesHolder<C>(s: State<C>, n: nat, streams: Streams)
    requires s.viewer.Reserved? && s.viewer.lease == n && 1 <= n <= |s.grants| && ServedGrant(s, n)
    ensures ServedGrant(Handle(s, ActivateViewer(n), streams), n)
  {
    var backlog := s.viewer.backlog;
    var writes := Flushed(n, backlog, |s.deliveries|, streams);
    assert Sent(s.deliveries + writes, n) == writes by {
      FlushedShape(n, backlog, |s.deliveries|, streams);
      hide Sent, Flushed, AllWrote;
      SentConcat(s.deliveries, writes, n, n);
      NothingBefore(Sent(s.deliveries, n), writes);
    }
    hide Sent, Flushed, AllWrote, HandsOver;
    FlushHandsOver(n, backlog, |s.deliveries|, streams, s.handled, s.grants[n - 1]);
  }

  lemma NothingBefore<C>(a: seq<C>, b: seq<C>)
    requires a == []
    ensures a + b == b
  {
  }

  /** Nothing changes for the others. */
  lemma ActivateSparesOthers<C>(s: State<C>, lease: nat, streams: Streams, n: nat)
    requires s.viewer.Reserved? && s.viewer.lease == lease != n && 1 <= n <= |s.grants| && ServedGrant(s, n)
    ensures ServedGrant(Handle(s, ActivateViewer(lease), streams), n)
  {
    var writes := Flushed(lease, s.viewer.backlog, |s.deliveries|, streams);
    FlushedShape(lease, s.viewer.backlog, |s.deliveries|, streams);
    hide Sent, Flushed, AllWrote, HandsOver;
    SentConcat(s.deliveries, writes, lease, n);
  }

  lemma FlushHandsOver<C>(
    lease: nat, backlog: seq<C>, count: nat, streams: Streams, handled: seq<C>, from: nat)
    requires from <= |handled| && backlog == handled[from..]
    ensures HandsOver(Flushed(lease, backlog, count, streams), handled, from)
    ensures AllWrote(Flushed(lease, backlog, count, streams)) ==>
      from + |Flushed(lease, backlog, count, streams)| == |handled|
  {
    hide Flushed;
    FlushedShape(lease, backlog, count, streams);
    assert forall i :: 0 <= i < |backlog| ==> backlog[i] == handled[from + i];
  }

  lemma ActivateKeepsInv<C>(s: State<C>, lease: nat, streams: Streams)
    requires Inv(s)
    ensures Inv(Handle(s, ActivateViewer(lease), streams))
  {
    hide Sent, Flushed, AllWrote, ServedGrant;
    if s.viewer.Reserved? && s.viewer.lease == lease {
      var s' := Handle(s, ActivateViewer(lease), streams);
      FlushedShape(lease, s.viewer.backlog, |s.deliveries|, streams);
      forall n | 1 <= n <= |s'.grants|
        ensures ServedGrant(s', n)
      {
        if n == lease {
          ActivateServesHolder(s, n, streams);
        } else {
          ActivateSparesOthers(s, lease, streams, n);
        }
      }
    }
  }

  lemma DetachKeepsInv<C>(s: State<C>, lease: nat, streams: Streams)
    requires Inv(s)
    ensures Inv(Handle(s, Detach(lease), streams))
  {
    hide Sent;
    var s' := Handle(s, Detach(lease), streams);
    forall n | 1 <= n <= |s'.grants|
      ensures ServedGrant(s', n)
    {
      assert ServedGrant(s, n);
    }
  }

  lemma HandleKeepsInv<C>(s: State<C>, command: Command<C>, streams: Streams)
    requires Inv(s) && |Handle(s, command, streams).grants| <= U64_MAX
    ensures Inv(Handle(s, command, streams))
  {
    match command
    case Bytes(chunk) => BytesKeepInv(s, chunk, streams);
    case ReserveViewer => if s.viewer.Vacant? { ReserveKeepsInv(s, streams); }
    case ActivateViewer(lease) => ActivateKeepsInv(s, lease, streams);
    case Detach(lease) => DetachKeepsInv(s, lease, streams);
  }

  lemma RunSnoc<C>(commands: seq<Command<C>>, command: Command<C>, streams: Streams)
    ensures Run(commands + [command], streams) == Handle(Run(commands, streams), command, streams)
  {
    assert (commands + [command])[..|commands|] == commands;
  }

  lemma HandleGrants<C>(s: State<C>, command: Command<C>, streams: Streams)
    ensures |s.grants| <= |Handle(s, command, streams).grants|
  {
    hide Flushed, AllWrote;
  }

  lemma {:induction false} GrantsOnlyGrow<C>(commands: seq<Command<C>>, more: seq<Command<C>>, streams: Streams)
    ensures |Run(commands, streams).grants| <= |Run(commands + more, streams).grants|
    decreases |more|
  {
    if more == [] {
      assert commands + more == commands;
    } else {
      hide Run, Handle;
      var init, last := more[..|more| - 1], more[|more| - 1];
      assert commands + more == (commands + init) + [last];
      GrantsOnlyGrow(commands, init, streams);
      RunSnoc(commands + init, last, streams);
      HandleGrants(Run(commands + init, streams), last, streams);
    }
  }

  /** Every reachable state, for as long as the lease counter has not saturated: conservation
      towards the transcript, one holder at a time, and exact delivery to every viewer. */
  lemma {:induction false} FanoutKeepsInv<C>(commands: seq<Command<C>>, streams: Streams)
    requires |Run(commands, streams).grants| <= U64_MAX
    ensures Inv(Run(commands, streams))
  {
    if commands != [] {
      hide Inv, Handle;
      var init := commands[..|commands| - 1];
      HandleGrants(Run(init, streams), commands[|commands| - 1], streams);
      FanoutKeepsInv(init, streams);
      HandleKeepsInv(Run(init, streams), commands[|commands| - 1], streams);
    }
  }

  // ---------------------------------------------------------------- without any bound on the grants

  lemma HandleConserves<C>(s: State<C>, command: Command<C>, streams: Streams)
    requires Conserved(s)
    ensures Conserved(Handle(s, command, streams))
  {
    hide Flushed, AllWrote, Saturating;
  }

  lemma HandleNumbers<C>(s: State<C>, command: Command<C>, streams: Streams)
    requires LeasesNumbered(s)
    ensures LeasesNumbered(Handle(s, command, streams))
  {
    hide Flushed, AllWrote;
  }

  lemma {:induction false} ConservedAlways<C>(commands: seq<Command<C>>, streams: Streams)
    ensures Conserved(Run(commands, streams)) && LeasesNumbered(Run(commands, streams))
  {
    if commands != [] {
      hide Handle, Conserved, LeasesNumbered;
      var init, last := commands[..|commands| - 1], commands[|commands| - 1];
      ConservedAlways(init, streams);
      HandleConserves(Run(init, streams), last, streams);
      HandleNumbers(Run(init, streams), last, streams);
    }
  }

  /** A command that carries a lease other than the holder's changes nothing at all. */
  lemma StrangersChangeNothing<C>(s: State<C>, lease: nat, streams: Streams)
    requires s.viewer.Vacant? || s.viewer.lease != lease
    ensures Handle(s, Detach(lease), streams) == s
    ensures Handle(s, ActivateViewer(lease), streams) == s
    ensures ReplyTo(s, ActivateViewer(lease), streams) in {StaleViewerLease, ViewerAlreadyAttached}
  {
  }

  /** Grant number `n` of a run carries lease `min(n, 2^64 - 1)`. */
  lemma GrantedLease<C>(commands: seq<Command<C>>, streams: Streams)
    ensures
      var s := Run(commands, streams);
      s.viewer.Vacant? <==> ReplyTo(s, ReserveViewer, streams) == Granted(Saturating(|s.grants| + 1))
  {
    ConservedAlways(commands, streams);
  }

  /** A detach left over from an earlier grant (the second one of a failed attach, say) leaves
      a later viewer in place exactly when the earlier grant came before saturation. */
  lemma LateDetachIsHarmlessExactly<C>(commands: seq<Command<C>>, streams: Streams, earlier: nat)
    requires !Run(commands, streams).viewer.Vacant?
    requires 1 <= earlier < |Run(commands, streams).grants|
    ensures
      var s := Run(commands, streams);
      Handle(s, Detach(Saturating(earlier)), streams) == s <==> earlier < U64_MAX
  {
    ConservedAlways(commands, streams);
  }

  /** `n` viewers that come and go. */
  function Churn<C>(n: nat): seq<Command<C>> {
    if n == 0 then [] else Churn(n - 1) + [ReserveViewer, Detach(Saturating(n))]
  }

  lemma {:induction false} ChurnGrants<C>(n: nat, streams: Streams)
    ensures
      var s := Run(Churn<C>(n), streams);
      s.viewer.Vacant? && |s.grants| == n && s.nextViewer == Saturating(n + 1)
  {
    if n > 0 {
      hide Run, Handle, Flushed, AllWrote;
      var earlier := Churn<C>(n - 1);
      ChurnGrants<C>(n - 1, streams);
      ReserveThenDetach(Run(earlier, streams), Saturating(n), streams);
      RunSnoc(earlier, ReserveViewer, streams);
      RunSnoc(earlier + [ReserveViewer], Detach(Saturating(n)), streams);
      assert Churn<C>(n) == earlier + [ReserveViewer] + [Detach(Saturating(n))];
    } else {
      assert Run(Churn<C>(0), streams) == Start<C>();
    }
  }

  lemma ReserveThenDetach<C>(s: State<C>, lease: nat, streams: Streams)
    requires s.viewer.Vacant? && s.nextViewer == lease
    ensures
      var t := Handle(s, ReserveViewer, streams);
      var u := Handle(t, Detach(lease), streams);
      && t.viewer == Reserved(lease, []) && u.viewer.Vacant?
      && |u.grants| == |t.grants| == |s.grants| + 1
      && u.nextViewer == t.nextViewer == SaturatingAdd(lease, 1)
  {
  }

  /** And it does evict one after that: after 2^64 - 1 viewers came and went the next one gets
      the last one's lease, and a second detach of the last one throws it out. */
  lemma LateDetachCanEvict<C>(streams: Streams) returns (commands: seq<Command<C>>)
    ensures
      var s := Run(commands, streams);
      && |s.grants| == U64_MAX + 1 && s.viewer == Reserved(U64_MAX, [])
      && Handle(s, Detach(Saturating(U64_MAX)), streams).viewer.Vacant?
  {
    hide Run, Handle, Flushed, AllWrote, Churn;
    var earlier := Churn<C>(U64_MAX);
    ChurnGrants<C>(U64_MAX, streams);
    ReserveThenDetach(Run(earlier, streams), U64_MAX, streams);
    RunSnoc(earlier, ReserveViewer, streams);
    commands := earlier + [ReserveViewer];
  }

  lemma StaysLost<C>(s: State<C>, command: Command<C>, streams: Streams, n: nat)
    requires LeasesNumbered(s) && n <= |s.grants| && |Handle(s, command, streams).grants| <= U64_MAX
    requires s.viewer.Vacant? || s.viewer.lease != n
    ensures
      var s' := Handle(s, command, streams);
      s'.viewer.Vacant? || s'.viewer.lease != n
  {
    hide Flushed, AllWrote;
  }

  /** Once grant `n` has lost the slot it never holds it again: holding intervals are disjoint. */
  lemma {:induction false} LostForGood<C>(commands: seq<Command<C>>, more: seq<Command<C>>, streams: Streams, n: nat)
    requires 1 <= n <= |Run(commands, streams).grants|
    requires Run(commands, streams).viewer.Vacant? || Run(commands, streams).viewer.lease != n
    requires |Run(commands + more, streams).grants| <= U64_MAX
    ensures
      var s := Run(commands + more, streams);
      s.viewer.Vacant? || s.viewer.lease != n
    decreases |more|
  {
    if more == [] {
      assert commands + more == commands;
    } else {
      hide Run, Handle, LeasesNumbered, Conserved;
      var init, last := more[..|more| - 1], more[|more| - 1];
      assert commands + more == (commands + init) + [last];
      RunSnoc(commands + init, last, streams);
      HandleGrants(Run(commands + init, streams), last, streams);
      LostForGood(commands, init, streams, n);
      ConservedAlways(commands + init, streams);
      GrantsOnlyGrow(commands, init, streams);
      StaysLost(Run(commands + init, streams), last, streams, n);
    }
  }

  /** A command serves nobody but the holder, and makes nobody active but the viewer it activates. */
  lemma OnlyTheHolderIsServed<C>(s: State<C>, command: Command<C>, streams: Streams, lease: nat)
    ensures
      var s' := Handle(s, command, streams);
      && (Sent(s'.deliveries, lease) != Sent(s.deliveries, lease) ==>
            s.viewer == Active(lease) || command == ActivateViewer(lease))
      && (s'.viewer == Active(lease) ==> s.viewer == Active(lease) || command == ActivateViewer(lease))
  {
    hide Sent, Flushed, AllWrote;
    match command
    case Bytes(chunk) =>
      if s.viewer.Active? {
        SentSnoc(s.deliveries, Attempt(s.viewer.lease, chunk, streams(|s.deliveries|)), lease);
      }
    case ActivateViewer(viewer) =>
      if s.viewer.Reserved? && s.viewer.lease == viewer {
        var writes := Flushed(viewer, s.viewer.backlog, |s.deliveries|, streams);
        FlushedShape(viewer, s.viewer.backlog, |s.deliveries|, streams);
        SentConcat(s.deliveries, writes, viewer, lease);
      }
    case _ =>
  }

  /** The transcript is only ever notified of more. */
  lemma NotifiedGrows<C>(s: State<C>, command: Command<C>, streams: Streams)
    ensures s.notified <= Handle(s, command, streams).notified
  {
    hide Flushed, AllWrote;
  }
}
