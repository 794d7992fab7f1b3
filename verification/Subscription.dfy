/** Subscriptions (src/session.rs, src/daemon.rs): a replay handed out in the same actor
    step that joins the broadcast channel, followed by live events until the first failure. */
module Subscription {
  import opened Bytes
  import opened Transcript

  const BROADCAST_CAPACITY: nat := 1024

  /** A tokio broadcast channel: it remembers the last 1024 events only. */
  datatype Broadcast<E> = Broadcast(sent: nat, slots: seq<E>)

  function NewChannel<E>(): Broadcast<E> {
    Broadcast(0, [])
  }

  function Send<E>(channel: Broadcast<E>, event: E): Broadcast<E> {
    Broadcast(channel.sent + 1, LastOf(BROADCAST_CAPACITY, channel.slots + [event]))
  }

  datatype Received<E> = Event(event: E) | Lagged | Empty

  /** What a receiver that has taken `next` events so far gets. */
  function Receive<E>(channel: Broadcast<E>, next: nat): Received<E> {
    if next >= channel.sent then Empty
    else if next + |channel.slots| < channel.sent then Lagged
    else Event(channel.slots[|channel.slots| - (channel.sent - next)])
  }

  /** The channel holds the newest events of `history`. */
  ghost predicate Carries<E>(channel: Broadcast<E>, history: seq<E>) {
    channel.sent == |history| && channel.slots == LastOf(BROADCAST_CAPACITY, history)
  }

  lemma NothingCarried<E>()
    ensures Carries<E>(NewChannel(), [])
  {
  }

  lemma SendCarries<E>(channel: Broadcast<E>, history: seq<E>, event: E)
    requires Carries(channel, history)
    ensures Carries(Send(channel, event), history + [event])
  {
    LastOfConcat(BROADCAST_CAPACITY, history, [event]);
  }

  /** A receiver lags exactly when more than 1024 events were sent past it, waits exactly when
      it has taken everything, and otherwise gets the next event of the history. */
  lemma ReceiveIsNext<E>(channel: Broadcast<E>, history: seq<E>, next: nat)
    requires Carries(channel, history)
    ensures Receive(channel, next) == Lagged <==> next + BROADCAST_CAPACITY < |history|
    ensures Receive(channel, next) == Empty <==> next >= |history|
    ensures Receive(channel, next).Event? ==> next < |history| && Receive(channel, next).event == history[next]
  {
  }

  // ---------------------------------------------------------------- one subscriber among publishers

  /** A subscriber's loop beside the publisher: `live` is what it wrote to its client. */
  datatype Feed<E> = Feed(history: seq<E>, channel: Broadcast<E>, next: nat, live: seq<E>, ended: bool)

  /** `Poll` is one turn of the loop; `written` says whether the client took the bytes. */
  datatype Turn<E> = Publish(event: E) | Poll(written: bool)

  function Advance<E>(feed: Feed<E>, turn: Turn<E>): Feed<E> {
    match turn
    case Publish(event) => feed.(history := feed.history + [event], channel := Send(feed.channel, event))
    case Poll(written) =>
      if feed.ended then feed
      else
        match Receive(feed.channel, feed.next)
        case Empty => feed
        case Lagged => feed.(ended := true)
        case Event(event) =>
          if written then feed.(next := feed.next + 1, live := feed.live + [event]) else feed.(ended := true)
  }

  function Subscribed<E>(history: seq<E>): Feed<E> {
    Feed(history, Broadcast(|history|, LastOf(BROADCAST_CAPACITY, history)), |history|, [], false)
  }

  /** The replay is written before the loop; if that fails there is no loop. */
  function Replayed<E>(feed: Feed<E>, outcome: Outcome): Feed<E> {
    feed.(ended := feed.ended || outcome.Failed?)
  }

  function RunFeed<E>(history: seq<E>, replay: Outcome, turns: seq<Turn<E>>): Feed<E> {
    if turns == [] then Replayed(Subscribed(history), replay)
    else Advance(RunFeed(history, replay, turns[..|turns| - 1]), turns[|turns| - 1])
  }

  /** The subscriber has been sent the events right after its subscription, one by one, up to `next`. */
  ghost predicate Gapless<E>(feed: Feed<E>, subscribedAt: nat) {
    && Carries(feed.channel, feed.history)
    && subscribedAt + |feed.live| == feed.next <= |feed.history|
    && feed.live == feed.history[subscribedAt..feed.next]
  }

  lemma AdvanceIsGapless<E>(feed: Feed<E>, turn: Turn<E>, subscribedAt: nat)
    requires Gapless(feed, subscribedAt)
    ensures Gapless(Advance(feed, turn), subscribedAt)
    ensures feed.history <= Advance(feed, turn).history
  {
    hide LastOf;
    match turn
    case Publish(event) => SendCarries(feed.channel, feed.history, event);
    case Poll(written) =>
      ReceiveIsNext(feed.channel, feed.history, feed.next);
      hide Receive;
      if !feed.ended && Receive(feed.channel, feed.next).Event? {
        var end := feed.next + 1;
        assert feed.history[subscribedAt..end] == feed.history[subscribedAt..feed.next] + [feed.history[feed.next]];
      }
  }

  /** Whatever the interleaving, the live part continues the replay without gap or repeat;
      lagging or a dead client only ever ends it, and a failed replay is followed by nothing. */
  lemma {:induction false} LiveContinuesReplay<E>(history: seq<E>, replay: Outcome, turns: seq<Turn<E>>)
    ensures Gapless(RunFeed(history, replay, turns), |history|)
    ensures history <= RunFeed(history, replay, turns).history
    ensures replay.Failed? ==> RunFeed(history, replay, turns).ended && RunFeed(history, replay, turns).live == []
  {
    if turns != [] {
      var init := turns[..|turns| - 1];
      LiveContinuesReplay(history, replay, init);
      AdvanceIsGapless(RunFeed(history, replay, init), turns[|turns| - 1], |history|);
      hide Gapless;
    } else {
      assert history[|history|..|history|] == [];
    }
  }

  /** What the publisher sent during some turns. */
  function Published<E>(turns: seq<Turn<E>>): seq<E> {
    if turns == [] then []
    else
      var last := turns[|turns| - 1];
      var earlier := Published(turns[..|turns| - 1]);
      if last.Publish? then earlier + [last.event] else earlier
  }

  lemma {:induction false} FeedHistory<E>(history: seq<E>, replay: Outcome, turns: seq<Turn<E>>)
    ensures RunFeed(history, replay, turns).history == history + Published(turns)
  {
    if turns == [] {
      assert history + Published(turns) == history;
    } else {
      hide Send, Receive;
      FeedHistory(history, replay, turns[..|turns| - 1]);
    }
  }

  /** What was ever sent on the channel, and the position of the subscriber in it. */
  lemma FeedRecords<E>(history: seq<E>, replay: Outcome, turns: seq<Turn<E>>)
    ensures
      var feed := RunFeed(history, replay, turns);
      && feed.history == history + Published(turns)
      && Carries(feed.channel, feed.history)
      && feed.next == |history| + |feed.live| <= |feed.history|
  {
    hide RunFeed, LastOf, Published;
    FeedHistory(history, replay, turns);
    LiveContinuesReplay(history, replay, turns);
  }

  /** The next turn finds an event to send that cannot be sent: it was overwritten in the
      channel by 1024 newer ones, or the client does not take it. */
  ghost predicate CannotSend<E>(next: nat, all: seq<E>, turn: Turn<E>) {
    turn.Poll? && next < |all| && (next + BROADCAST_CAPACITY < |all| || !turn.written)
  }

  ghost predicate FailsAt<E>(history: seq<E>, replay: Outcome, turns: seq<Turn<E>>, k: nat)
    requires k < |turns|
  {
    var feed := RunFeed(history, replay, turns[..k]);
    !feed.ended && CannotSend(|history| + |feed.live|, history + Published(turns[..k]), turns[k])
  }

  /** One turn of a loop that has not ended: it ends exactly if it cannot send, and otherwise
      sends the next event if there is one. */
  lemma TurnSendsNext<E>(history: seq<E>, replay: Outcome, turns: seq<Turn<E>>, turn: Turn<E>)
    requires !RunFeed(history, replay, turns).ended
    ensures
      var live, all := RunFeed(history, replay, turns).live, history + Published(turns);
      var next, feed := |history| + |live|, RunFeed(history, replay, turns + [turn]);
      && (feed.ended <==> CannotSend(next, all, turn))
      && feed.live ==
         (if turn.Poll? && next < |all| && !CannotSend(next, all, turn) then live + [all[next]] else live)
  {
    hide RunFeed, LastOf, Carries, Receive;
    RunFeedSnoc(history, replay, turns, turn);
    FeedRecords(history, replay, turns);
    var feed := RunFeed(history, replay, turns);
    ReceiveIsNext(feed.channel, feed.history, feed.next);
  }

  lemma RunFeedSnoc<E>(history: seq<E>, replay: Outcome, turns: seq<Turn<E>>, turn: Turn<E>)
    ensures RunFeed(history, replay, turns + [turn]) == Advance(RunFeed(history, replay, turns), turn)
  {
    assert (turns + [turn])[..|turns|] == turns;
  }

  lemma EndedStays<E>(history: seq<E>, replay: Outcome, turns: seq<Turn<E>>, turn: Turn<E>)
    requires RunFeed(history, replay, turns).ended
    ensures
      var feed := RunFeed(history, replay, turns + [turn]);
      feed.ended && feed.live == RunFeed(history, replay, turns).live
  {
    RunFeedSnoc(history, replay, turns, turn);
  }

  /** A subscription ends exactly when its replay cannot be written or one of its turns cannot
      send the event it has to send; publishing, and polling without news, never end it. */
  lemma {:induction false} EndedExactly<E>(history: seq<E>, replay: Outcome, turns: seq<Turn<E>>)
    ensures RunFeed(history, replay, turns).ended <==>
            replay.Failed? || exists k: nat :: k < |turns| && FailsAt(history, replay, turns, k)
  {
    if turns != [] {
      hide RunFeed, Published, CannotSend;
      var init, last := turns[..|turns| - 1], turns[|turns| - 1];
      assert turns == init + [last];
      EndedExactly(history, replay, init);
      forall k: nat | k < |init| ensures FailsAt(history, replay, turns, k) == FailsAt(history, replay, init, k) {
        assert turns[..k] == init[..k] && turns[k] == init[k];
      }
      assert turns[..|init|] == init;
      if RunFeed(history, replay, init).ended {
        EndedStays(history, replay, init, last);
        if k: nat :| k < |init| && FailsAt(history, replay, init, k) {
          assert FailsAt(history, replay, turns, k);
        }
      } else {
        TurnSendsNext(history, replay, init, last);
        assert FailsAt(history, replay, turns, |init|) <==> RunFeed(history, replay, turns).ended;
      }
    }
  }

  /** Polls whose bytes the client takes. */
  function Polls<E>(count: nat): seq<Turn<E>> {
    seq(count, _ => Poll(true))
  }

  lemma NoPolls<E>()
    ensures Polls<E>(0) == []
  {
  }

  lemma PollsSnoc<E>(count: nat)
    ensures Polls<E>(count + 1) == Polls<E>(count) + [Poll(true)]
  {
  }

  lemma PublishedPoll<E>(turns: seq<Turn<E>>)
    ensures Published(turns + [Poll(true)]) == Published(turns)
  {
    assert (turns + [Poll(true)])[..|turns|] == turns;
  }

  lemma PollSucceeds<E>(history: seq<E>, replay: Outcome, turns: seq<Turn<E>>)
    requires !RunFeed(history, replay, turns).ended
    requires |Published(turns)| <= |RunFeed(history, replay, turns).live| + BROADCAST_CAPACITY
    ensures
      var live, feed := RunFeed(history, replay, turns).live, RunFeed(history, replay, turns + [Poll(true)]);
      && !feed.ended
      && |feed.live| == (if |live| < |Published(turns)| then |live| + 1 else |live|)
  {
    hide RunFeed, Published;
    TurnSendsNext(history, replay, turns, Poll(true));
  }

  /** A subscription that has not ended and is at most 1024 events behind catches up: polling
      often enough sends everything published since it joined, and it goes on. */
  lemma {:induction false} CatchesUp<E>(history: seq<E>, replay: Outcome, turns: seq<Turn<E>>, count: nat)
    requires !RunFeed(history, replay, turns).ended
    requires |Published(turns)| <= |RunFeed(history, replay, turns).live| + BROADCAST_CAPACITY
    ensures
      var live, feed := RunFeed(history, replay, turns).live, RunFeed(history, replay, turns + Polls(count));
      && !feed.ended && Published(turns + Polls(count)) == Published(turns)
      && |feed.live| == Min(|Published(turns)|, |live| + count)
      && feed.live == Published(turns)[..|feed.live|]
  {
    hide RunFeed, Published, Polls, CannotSend;
    LiveIsPublished(history, replay, turns);
    if count == 0 {
      assert turns + Polls(0) == turns by { NoPolls<E>(); }
    } else {
      var init := turns + Polls(count - 1);
      CatchesUp(history, replay, turns, count - 1);
      PollsSnoc<E>(count - 1);
      ConcatAssociates(turns, Polls(count - 1), [Poll(true)]);
      PublishedPoll(init);
      PollSucceeds(history, replay, init);
      LiveIsPublished(history, replay, init + [Poll(true)]);
    }
  }

  /** What was sent live is the front of what was published since the subscription. */
  lemma LiveIsPublished<E>(history: seq<E>, replay: Outcome, turns: seq<Turn<E>>)
    ensures RunFeed(history, replay, turns).live <= Published(turns)
  {
    hide RunFeed, LastOf, Receive;
    FeedRecords(history, replay, turns);
    LiveContinuesReplay(history, replay, turns);
  }

  /** The receiving end: `TranscriptSubscription` and `TerminalWorkerLifecycleSubscription`,
      with what the daemon's loop has written to the client since the replay. */
  class Subscriber<E> {
    const replay: seq<E>
    var next: nat
    var live: seq<E>
    var ended: bool

    ghost function View(history: seq<E>, channel: Broadcast<E>): Feed<E>
      reads this
    {
      Feed(history, channel, next, live, ended)
    }

    constructor (replay: seq<E>, channel: Broadcast<E>)
      ensures this.replay == replay && next == channel.sent && live == [] && !ended
    {
      this.replay, next, live, ended := replay, channel.sent, [], false;
    }

    /** The write of the replay, before the loop. */
    method WriteReplay(outcome: Outcome, ghost history: seq<E>, ghost channel: Broadcast<E>)
      modifies this
      ensures View(history, channel) == Replayed(old(View(history, channel)), outcome)
    {
      ended := ended || outcome.Failed?;
    }

    /** One turn of `while let Some(event) = blocking_next_live()`: any failure ends the loop. */
    method Turn(channel: Broadcast<E>, written: bool, ghost history: seq<E>)
      modifies this
      ensures View(history, channel) == Advance(old(View(history, channel)), Poll(written))
    {
      if ended {
        return;
      }
      match Receive(channel, next)
      case Empty =>
      case Lagged => ended := true;
      case Event(event) =>
        if written {
          next, live := next + 1, live + [event];
        } else {
          ended := true;
        }
    }
  }

  // ---------------------------------------------------------------- transcript subscribers

  /** The deltas the actor broadcast for a log, untrimmed. */
  function Broadcasts(log: seq<seq<Byte>>): seq<Delta> {
    if log == [] then [] else Broadcasts(log[..|log| - 1]) + [Delta(Saturating(|log|), log[|log| - 1])]
  }

  lemma {:induction false} BroadcastAt(log: seq<seq<Byte>>, i: nat)
    requires i < |log|
    ensures |Broadcasts(log)| == |log| && Broadcasts(log)[i] == Delta(Saturating(i + 1), log[i])
  {
    if i < |log| - 1 {
      BroadcastAt(log[..|log| - 1], i);
    } else if i > 0 {
      BroadcastAt(log[..|log| - 1], i - 1);
    }
  }

  lemma BroadcastsSnoc(log: seq<seq<Byte>>, bytes: seq<Byte>)
    ensures Broadcasts(log + [bytes]) == Broadcasts(log) + [Delta(Saturating(|log| + 1), bytes)]
  {
    hide Saturating;
    var longer := log + [bytes];
    assert longer[..|longer| - 1] == log;
    assert Broadcasts(longer) == Broadcasts(log) + [Delta(Saturating(|longer|), longer[|longer| - 1])];
  }

  lemma {:induction false} JoinedConcat(a: seq<Delta>, b: seq<Delta>)
    ensures Joined(a + b) == Joined(a) + Joined(b)
    decreases |b|
  {
    if b == [] {
      assert a + b == a;
    } else {
      hide Joined;
      var init, last := b[..|b| - 1], b[|b| - 1];
      assert b == init + [last] && a + b == (a + init) + [last];
      JoinedConcat(a, init);
      JoinedSnoc(init, last);
      JoinedSnoc(a + init, last);
      ConcatAssociates(Joined(a), Joined(init), last.bytes);
    }
  }

  /** What a subscriber that asked for everything after delta `after` has been sent: the replay,
      then its live deltas. */
  function SentTo(deltas: seq<Delta>, after: nat, feed: Feed<Delta>): seq<Delta> {
    NewerThan(deltas, after) + feed.live
  }

  /** The bytes of that which reached its client. */
  function ClientBytes(deltas: seq<Delta>, after: nat, replay: Outcome, feed: Feed<Delta>): seq<Byte> {
    match replay
    case Wrote => Joined(SentTo(deltas, after, feed))
    case Failed(written) =>
      var bytes := Joined(NewerThan(deltas, after));
      bytes[..Min(written, |bytes|)]
  }

  /** `log` had been appended when the subscriber joined, of which `deltas` were retained;
      `grown` is the log now. The deltas it was sent carry consecutive numbers, and their
      bytes are one contiguous run of the output. From the beginning, that run starts with the
      whole retained history; and a subscriber that goes on after a delta that is still
      retained is sent exactly everything that came after it. If the replay was cut short, what
      reached the client is the front of it, and nothing follows. */
  lemma SubscriberSeesOneRun(
    deltas: seq<Delta>, log: seq<seq<Byte>>, capacity: nat, after: nat, replay: Outcome, turns: seq<Turn<Delta>>,
    grown: seq<seq<Byte>>)
    requires Retains(deltas, log, capacity) && (after < U64_MAX || |log| <= U64_MAX)
    requires log <= grown && RunFeed(Broadcasts(log), replay, turns).history == Broadcasts(grown)
    ensures
      var feed := RunFeed(Broadcasts(log), replay, turns);
      var sent, next := SentTo(deltas, after, feed), |log| + |feed.live|;
      var count := NewerCount(|log|, |deltas|, after);
      && next <= |grown| && |sent| == count + |feed.live|
      && (forall i :: 0 <= i < |sent| ==> sent[i].sequence == Saturating(|log| - count + i + 1))
      && IsSuffix(Joined(sent), Flatten(grown[..next]))
      && (after == 0 ==> Joined(sent) == LastOf(capacity, Flatten(log)) + Flatten(grown[|log|..next]))
      && (|log| - |deltas| < after <= |log| ==> Joined(sent) == Flatten(grown[after..next]))
      && ClientBytes(deltas, after, replay, feed) <= Joined(sent)
      && (replay.Wrote? ==> ClientBytes(deltas, after, replay, feed) == Joined(sent))
      && (replay.Failed? ==> feed.live == [])
  {
    var feed := RunFeed(Broadcasts(log), replay, turns);
    hide RunFeed, NewerThan, Joined, Flatten, LastOf, IsSuffix, Broadcasts, Carries;
    LiveContinuesReplay(Broadcasts(log), replay, turns);
    BroadcastsLength(log);
    BroadcastsLength(grown);
    ReplayIsConsecutive(deltas, log, after);
    var replayed := NewerThan(deltas, after);
    ReplayBytes(deltas, log, capacity, after);
    SentNumbers(replayed, log, feed.live, grown);
    SentBytes(replayed, log, feed.live, grown);
    if |log| - |deltas| < after <= |log| {
      RunSplits(log, grown, after, |log| + |feed.live|);
    }
    if replay.Failed? {
      assert replayed + feed.live == replayed;
    }
  }

  lemma RunSplits(log: seq<seq<Byte>>, grown: seq<seq<Byte>>, after: nat, next: nat)
    requires log <= grown && after <= |log| <= next <= |grown|
    ensures Flatten(grown[after..next]) == Flatten(log[after..]) + Flatten(grown[|log|..next])
  {
    hide Flatten;
    assert grown[after..next] == log[after..] + grown[|log|..next];
    FlattenConcat(log[after..], grown[|log|..next]);
  }

  /** The bytes of a replay are a tail of the output: the retained tail from the beginning, and
      whole chunks after a delta that is still retained. */
  lemma ReplayBytes(deltas: seq<Delta>, log: seq<seq<Byte>>, capacity: nat, after: nat)
    requires Retains(deltas, log, capacity) && (after < U64_MAX || |log| <= U64_MAX)
    ensures
      var replay := NewerThan(deltas, after);
      && IsSuffix(Joined(replay), Flatten(log))
      && (after == 0 ==> Joined(replay) == LastOf(capacity, Flatten(log)))
      && (|log| - |deltas| < after <= |log| ==> Joined(replay) == Flatten(log[after..]))
  {
    LastOfIsSuffix(capacity, Joined(deltas), Flatten(log));
    hide Joined, Flatten, IsSuffix, LastOf, NewerThan, Window;
    ReplayIsConsecutive(deltas, log, after);
    var skip := |deltas| - NewerCount(|log|, |deltas|, after);
    TailOfTail(deltas, log, skip);
    if after == 0 {
      WholeTail(deltas);
    }
    if |log| - |deltas| < after <= |log| {
      WholeChunks(deltas, log, after);
    }
  }

  lemma WholeTail(deltas: seq<Delta>)
    ensures deltas[0..] == deltas
  {
  }

  /** Only the front delta can have been trimmed. */
  lemma WholeChunks(deltas: seq<Delta>, log: seq<seq<Byte>>, after: nat)
    requires Window(deltas, log) && |log| - |deltas| < after <= |log|
    ensures Joined(deltas[|deltas| - (|log| - after)..]) == Flatten(log[after..])
  {
    hide Joined, Flatten, IsSuffix;
    var skip := |deltas| - (|log| - after);
    forall i | 0 <= i < |deltas| - skip ensures deltas[skip..][i].bytes == log[after..][i] {
      assert Fits(deltas[skip + i], log, after + i, false);
    }
    BytesAreJoined(deltas[skip..], log[after..]);
  }

  lemma TailOfTail(deltas: seq<Delta>, log: seq<seq<Byte>>, skip: nat)
    requires skip <= |deltas| && IsSuffix(Joined(deltas), Flatten(log))
    ensures IsSuffix(Joined(deltas[skip..]), Flatten(log))
  {
    hide Joined, Flatten, IsSuffix;
    var front, rest := deltas[..skip], deltas[skip..];
    assert deltas == front + rest;
    JoinedConcat(front, rest);
    assert (Joined(front) + Joined(rest))[|Joined(front)|..] == Joined(rest);
    SuffixDrop(Joined(deltas), Flatten(log), |Joined(front)|);
  }

  lemma PrefixSplits<T>(a: seq<T>, b: seq<T>, n: nat)
    requires a <= b && |a| <= n <= |b|
    ensures b[..n] == a + b[|a|..n]
  {
  }

  lemma ReplayThenLive(deltas: seq<Delta>, live: seq<Delta>, log: seq<seq<Byte>>, since: seq<seq<Byte>>)
    requires IsSuffix(Joined(deltas), Flatten(log)) && Joined(live) == Flatten(since)
    ensures Joined(deltas + live) == Joined(deltas) + Flatten(since)
    ensures IsSuffix(Joined(deltas + live), Flatten(log + since))
  {
    hide Joined, Flatten, IsSuffix;
    JoinedConcat(deltas, live);
    FlattenConcat(log, since);
    SuffixSnoc(Joined(deltas), Flatten(log), Flatten(since));
  }

  lemma {:induction false} SentBytes(deltas: seq<Delta>, log: seq<seq<Byte>>, live: seq<Delta>, grown: seq<seq<Byte>>)
    requires log <= grown && |log| + |live| <= |grown|
    requires |Broadcasts(grown)| == |grown| && live == Broadcasts(grown)[|log|..|log| + |live|]
    requires IsSuffix(Joined(deltas), Flatten(log))
    ensures Joined(deltas + live) == Joined(deltas) + Flatten(grown[|log|..|log| + |live|])
    ensures IsSuffix(Joined(deltas + live), Flatten(grown[..|log| + |live|]))
  {
    hide Joined, Flatten, Broadcasts, IsSuffix;
    var since := grown[|log|..|log| + |live|];
    PrefixSplits(log, grown, |log| + |live|);
    LiveBytes(grown, |log|, |log| + |live|);
    ReplayThenLive(deltas, live, log, since);
  }

  lemma {:induction false} BroadcastsLength(log: seq<seq<Byte>>)
    ensures |Broadcasts(log)| == |log|
  {
    if log != [] {
      BroadcastsLength(log[..|log| - 1]);
    }
  }

  lemma SentNumbers(replay: seq<Delta>, log: seq<seq<Byte>>, live: seq<Delta>, grown: seq<seq<Byte>>)
    requires |replay| <= |log| && |log| + |live| <= |grown| == |Broadcasts(grown)|
    requires forall i :: 0 <= i < |replay| ==> replay[i].sequence == Saturating(|log| - |replay| + i + 1)
    requires live == Broadcasts(grown)[|log|..|log| + |live|]
    ensures forall i :: 0 <= i < |replay + live| ==>
              (replay + live)[i].sequence == Saturating(|log| - |replay| + i + 1)
  {
    hide Broadcasts;
    forall i | |replay| <= i < |replay + live|
      ensures (replay + live)[i].sequence == Saturating(|log| - |replay| + i + 1)
    {
      BroadcastAt(grown, |log| + i - |replay|);
    }
  }

  lemma LiveBytes(grown: seq<seq<Byte>>, since: nat, next: nat)
    requires since <= next <= |grown| == |Broadcasts(grown)|
    ensures Joined(Broadcasts(grown)[since..next]) == Flatten(grown[since..next])
  {
    hide Broadcasts, Joined, Flatten;
    var deltas, chunks := Broadcasts(grown)[since..next], grown[since..next];
    forall i | 0 <= i < |deltas| ensures deltas[i].bytes == chunks[i] {
      BroadcastAt(grown, since + i);
    }
    BytesAreJoined(deltas, chunks);
  }

  lemma {:induction false} BytesAreJoined(deltas: seq<Delta>, chunks: seq<seq<Byte>>)
    requires |deltas| == |chunks| && forall i :: 0 <= i < |deltas| ==> deltas[i].bytes == chunks[i]
    ensures Joined(deltas) == Flatten(chunks)
  {
    if deltas != [] {
      BytesAreJoined(deltas[..|deltas| - 1], chunks[..|chunks| - 1]);
    }
  }
}
