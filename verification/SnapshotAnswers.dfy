/** The moment a viewer's snapshot was answered (src/session.rs, src/daemon.rs): every snapshot is
    the transcript of that moment, and every other chunk from before the reservation was then
    under way to the transcript or had been lost. */
module SnapshotAnswers {
  import opened Bytes
  import opened Flush
  import opened Pipeline
  import opened AttachProtocol
  import Q = NoticeQueue
  import F = Fanout

  /** Step `k` of a run: the actor takes the snapshot request of this connection. */
  ghost predicate Answers(actions: seq<Action>, streams: F.Streams, viewer: nat, k: nat) {
    && k < |actions| && actions[k] == RunActor
    && var u := Run(actions[..k], streams);
       u.mailbox != [] && u.mailbox[0] == SnapshotAsk(viewer) && InPhase(u, viewer, Asking)
  }

  /** A chunk between the fanout and the transcript. */
  ghost predicate UnderWay(u: System, id: nat) {
    Output(id) in u.mailbox || u.hand == Some(id) || id in u.queue.pending
  }

  /** A chunk that the mailbox refused or the queue dropped. */
  ghost predicate Gone(u: System, id: nat) {
    id in u.refused || Q.Dropped(id) in u.queue.removals
  }

  lemma SnapshotStep(s: System, action: Action, streams: F.Streams, viewer: nat)
    requires 1 <= viewer <= |Next(s, action, streams).attaches|
    requires Next(s, action, streams).attaches[viewer - 1].snapshot.Some?
    ensures
      var snapshot := Next(s, action, streams).attaches[viewer - 1].snapshot;
      || (viewer <= |s.attaches| && s.attaches[viewer - 1].snapshot == snapshot)
      || (&& action == RunActor && s.mailbox != [] && s.mailbox[0] == SnapshotAsk(viewer)
          && InPhase(s, viewer, Asking) && snapshot == Some(s.log))
  {
    hide F.Handle, F.ReplyTo, Q.PushAll;
  }

  /** Every snapshot was taken: it is the transcript as it was when the actor got to the request. */
  lemma {:induction false} SnapshotWasTaken(actions: seq<Action>, streams: F.Streams, viewer: nat) returns (k: nat)
    requires 1 <= viewer <= |Run(actions, streams).attaches|
    requires Run(actions, streams).attaches[viewer - 1].snapshot.Some?
    ensures Answers(actions, streams, viewer, k)
    ensures Run(actions, streams).attaches[viewer - 1].snapshot.value == Run(actions[..k], streams).log
  {
    if actions != [] {
      hide Next, InPhase;
      var init, last := actions[..|actions| - 1], actions[|actions| - 1];
      var s, snapshot := Run(init, streams), Run(actions, streams).attaches[viewer - 1].snapshot;
      SnapshotStep(s, last, streams, viewer);
      if viewer <= |s.attaches| && s.attaches[viewer - 1].snapshot == snapshot {
        k := SnapshotWasTaken(init, streams, viewer);
        assert init[..k] == actions[..k];
      } else {
        k := |init|;
      }
    }
  }

  // ---------------------------------------------------------------- from the answer on

  lemma GrantsKept(f: F.State<nat>, command: F.Command<nat>, streams: F.Streams)
    ensures f.grants <= F.Handle(f, command, streams).grants
  {
    hide Flushed, AllWrote;
  }

  lemma NextGrows(s: System, action: Action, streams: F.Streams)
    ensures s.emitted <= Next(s, action, streams).emitted
    ensures s.fanout.grants <= Next(s, action, streams).fanout.grants
  {
    if s.channel != [] {
      GrantsKept(s.fanout, s.channel[0], streams);
    }
    hide F.Handle, F.ReplyTo, Q.PushAll, Told, InPhase;
  }

  /** Output and grants are only ever added to. */
  lemma {:induction false} RunGrows(actions: seq<Action>, k: nat, streams: F.Streams)
    requires k <= |actions|
    ensures Run(actions[..k], streams).emitted <= Run(actions, streams).emitted
    ensures Run(actions[..k], streams).fanout.grants <= Run(actions, streams).fanout.grants
    decreases |actions|
  {
    if k < |actions| {
      hide Next;
      var init := actions[..|actions| - 1];
      assert init[..k] == actions[..k];
      RunGrows(init, k, streams);
      NextGrows(Run(init, streams), actions[|actions| - 1], streams);
    } else {
      assert actions[..k] == actions;
    }
  }

  lemma {:induction false} MailChunksAre(mailbox: seq<Mail>, id: nat)
    ensures id in MailChunks(mailbox) <==> Output(id) in mailbox
  {
    if mailbox != [] {
      var init, last := mailbox[..|mailbox| - 1], mailbox[|mailbox| - 1];
      MailChunksAre(init, id);
      assert mailbox == init + [last];
    }
  }

  lemma {:induction false} DroppedChunksAre(removals: seq<Q.Removal<nat>>, id: nat)
    ensures id in DroppedChunks(removals) <==> Q.Dropped(id) in removals
  {
    if removals != [] {
      var init, last := removals[..|removals| - 1], removals[|removals| - 1];
      DroppedChunksAre(init, id);
      assert removals == init + [last];
    }
  }

  /** Each chunk from before `from` was in exactly one place: in the transcript, under way, or gone. */
  ghost predicate Splits(u: System, from: nat) {
    && SnapshotOf(u.log, from)
    && forall id: nat :: id < from ==> (id in u.log <==> !UnderWay(u, id) && !Gone(u, id))
  }

  lemma {:induction false} BetweenOnce(k: nat, id: nat)
    ensures multiset(Between(0, k))[id] == if id < k then 1 else 0
  {
    if k > 0 {
      BetweenOnce(k - 1, id);
      assert Between(0, k) == Between(0, k - 1) + [k - 1];
    } else {
      assert Between(0, 0) == [];
    }
  }

  lemma OnePlace(log: seq<nat>, behind: seq<nat>, refused: seq<nat>, dropped: seq<nat>, k: nat, id: nat)
    requires Accounts(log + behind, refused, dropped, k) && id < k
    ensures id in log <==> id !in behind && id !in refused && id !in dropped
  {
    BetweenOnce(k, id);
    hide Between;
    var all := multiset(log + behind) + multiset(refused) + multiset(dropped);
    assert multiset(log + behind) == multiset(log) + multiset(behind);
    assert all[id] == multiset(log)[id] + multiset(behind)[id] + multiset(refused)[id] + multiset(dropped)[id];
  }

  lemma AccountsSplit(u: System, from: nat)
    requires SnapshotOf(u.log, from)
    requires Accounts(Upstream(u), u.refused, DroppedChunks(u.queue.removals), from)
    ensures Splits(u, from)
  {
    hide Accounts, MailChunks, DroppedChunks, SnapshotOf;
    var behind := MailChunks(u.mailbox) + Held(u.hand) + u.queue.pending;
    assert Upstream(u) == u.log + behind;
    forall id: nat | id < from ensures id in u.log <==> !UnderWay(u, id) && !Gone(u, id) {
      OnePlace(u.log, behind, u.refused, DroppedChunks(u.queue.removals), from, id);
      MailChunksAre(u.mailbox, id);
      DroppedChunksAre(u.queue.removals, id);
    }
  }

  /** At the answer to a viewer: its transcript, and nothing else, is what the viewer's snapshot
      shows, now and for good; and each chunk from before its reservation was in the transcript
      exactly if it was neither under way nor gone. */
  lemma {:induction false} AnsweredState(actions: seq<Action>, streams: F.Streams, viewer: nat) returns (k: nat)
    requires |Run(actions, streams).fanout.grants| <= U64_MAX
    requires 1 <= viewer <= |Run(actions, streams).attaches|
    requires Run(actions, streams).attaches[viewer - 1].snapshot.Some?
    ensures Answers(actions, streams, viewer, k)
    ensures
      var u, s := Run(actions[..k], streams), Run(actions, streams);
      && s.attaches[viewer - 1].snapshot == Some(u.log) && u.emitted <= s.emitted
      && viewer <= |s.fanout.grants| && Splits(u, s.fanout.grants[viewer - 1])
  {
    k := SnapshotWasTaken(actions, streams, viewer);
    RunGrows(actions, k, streams);
    PipelineKeepsInv(actions[..k], streams);
    hide Run, SnapshotOf, Accounts;
    var u := Run(actions[..k], streams);
    SnapshotShowsThePast(u, viewer);
    AccountsSplit(u, u.fanout.grants[viewer - 1]);
    hide Splits, Flow, F.Inv, AttachOk, ChannelOk;
  }
}
