/** `TranscriptNoticeQueue` (src/session.rs): the bounded, drop-oldest queue between the
    viewer fanout and the transcript scriber. It never looks inside a notice. */
module NoticeQueue {
  import opened Bytes

  const TRANSCRIPT_NOTICE_QUEUE_CAPACITY: nat := 1024

  datatype Removal<C> = Popped(notice: C) | Dropped(notice: C)

  /** The queue's fields, with everything ever pushed and removed as history. */
  datatype Queue<C> = Queue(
    pending: seq<C>,
    capacity: nat,
    closed: bool,
    droppedOldest: nat,
    pushed: seq<C>,
    removals: seq<Removal<C>>)

  function Empty<C>(capacity: nat): Queue<C> {
    Queue([], capacity, false, 0, [], [])
  }

  function DropOldest<C>(q: Queue<C>): Queue<C>
    requires q.pending != []
  {
    q.(pending := q.pending[1..],
       droppedOldest := SaturatingAdd(q.droppedOldest, 1),
       removals := q.removals + [Dropped(q.pending[0])])
  }

  function Push<C>(q: Queue<C>, notice: C): Queue<C> {
    var room := if |q.pending| >= q.capacity && q.pending != [] then DropOldest(q) else q;
    room.(pending := room.pending + [notice], pushed := room.pushed + [notice])
  }

  function PushAll<C>(q: Queue<C>, notices: seq<C>): Queue<C> {
    if notices == [] then q
    else Push(PushAll(q, notices[..|notices| - 1]), notices[|notices| - 1])
  }

  /** One pass of the `pop_blocking` loop. */
  datatype Taken<C> = Notice(notice: C) | Drained | WouldBlock

  function TakenFrom<C>(q: Queue<C>): Taken<C> {
    if q.pending != [] then Notice(q.pending[0]) else if q.closed then Drained else WouldBlock
  }

  function Pop<C>(q: Queue<C>): Queue<C> {
    if q.pending == [] then q
    else q.(pending := q.pending[1..], removals := q.removals + [Popped(q.pending[0])])
  }

  datatype Operation<C> = DoPush(notice: C) | DoPop | DoClose

  function Step<C>(q: Queue<C>, operation: Operation<C>): Queue<C> {
    match operation
    case DoPush(notice) => Push(q, notice)
    case DoPop => Pop(q)
    case DoClose => q.(closed := true)
  }

  function Run<C>(operations: seq<Operation<C>>, capacity: nat): Queue<C> {
    if operations == [] then Empty(capacity)
    else Step(Run(operations[..|operations| - 1], capacity), operations[|operations| - 1])
  }

  // ---------------------------------------------------------------- the queue

  class TranscriptNoticeQueue<C> {
    var pending: seq<C>
    const capacity: nat
    var closed: bool
    var droppedOldest: nat
    ghost var pushed: seq<C>
    ghost var removals: seq<Removal<C>>

    ghost function View(): Queue<C>
      reads this
    {
      Queue(pending, capacity, closed, droppedOldest, pushed, removals)
    }

    ghost predicate Valid()
      reads this
    {
      capacity > 0 && |pending| <= capacity
    }

    /** With capacity zero the source's drop loop would never end; it only ever passes 1024. */
    constructor (capacity: nat)
      requires capacity > 0
      ensures Valid() && View() == Empty(capacity)
    {
      this.capacity := capacity;
      pending, closed, droppedOldest := [], false, 0;
      pushed, removals := [], [];
    }

    method PushDropOldest(notice: C) returns (dropped: nat)
      requires Valid()
      modifies this
      ensures Valid() && View() == Push(old(View()), notice)
      ensures dropped == if |old(pending)| == capacity then 1 else 0
    {
      dropped := 0;
      while |pending| >= capacity
        invariant dropped <= 1
        invariant dropped == 0 ==> unchanged(this)
        invariant dropped == 1 ==>
          |old(pending)| == capacity && View() == DropOldest(old(View())) && |pending| == capacity - 1
        decreases |pending|
      {
        removals := removals + [Dropped(pending[0])];
        pending := pending[1..];
        dropped := dropped + 1;
        droppedOldest := SaturatingAdd(droppedOldest, 1);
      }
      pending := pending + [notice];
      pushed := pushed + [notice];
    }

    method PopOnce() returns (taken: Taken<C>)
      requires Valid()
      modifies this
      ensures Valid() && View() == Pop(old(View())) && taken == TakenFrom(old(View()))
    {
      if pending != [] {
        taken := Notice(pending[0]);
        removals := removals + [Popped(pending[0])];
        pending := pending[1..];
      } else if closed {
        taken := Drained;
      } else {
        taken := WouldBlock;
      }
    }

    method Close()
      requires Valid()
      modifies this
      ensures Valid() && View() == Step(old(View()), DoClose)
    {
      closed := true;
    }
  }

  // ---------------------------------------------------------------- what it promises

  function Notices<C>(removals: seq<Removal<C>>): seq<C> {
    if removals == [] then []
    else Notices(removals[..|removals| - 1]) + [removals[|removals| - 1].notice]
  }

  function DropCount<C>(removals: seq<Removal<C>>): nat {
    if removals == [] then 0
    else DropCount(removals[..|removals| - 1]) + if removals[|removals| - 1].Dropped? then 1 else 0
  }

  lemma RemovalSnoc<C>(removals: seq<Removal<C>>, removal: Removal<C>)
    ensures Notices(removals + [removal]) == Notices(removals) + [removal.notice]
    ensures DropCount(removals + [removal]) == DropCount(removals) + if removal.Dropped? then 1 else 0
  {
    assert (removals + [removal])[..|removals|] == removals;
  }

  /** Removals take the notices in push order, what is pending is exactly the rest, the
      queue is bounded, and every drop was counted (until the counter saturates). */
  ghost predicate Accounted<C>(q: Queue<C>) {
    && q.pushed == Notices(q.removals) + q.pending
    && |q.pending| <= q.capacity
    && q.droppedOldest == Saturating(DropCount(q.removals))
  }

  lemma DropKeepsAccounts<C>(q: Queue<C>)
    requires Accounted(q) && q.pending != []
    ensures Accounted(DropOldest(q))
  {
    RemovalSnoc(q.removals, Dropped(q.pending[0]));
  }

  lemma StepKeepsAccounts<C>(q: Queue<C>, operation: Operation<C>)
    requires q.capacity > 0 && Accounted(q)
    ensures Accounted(Step(q, operation)) && Step(q, operation).capacity == q.capacity
  {
    hide Notices, DropCount;
    match operation
    case DoPush(notice) =>
      if |q.pending| >= q.capacity {
        DropKeepsAccounts(q);
      }
    case DoPop =>
      if q.pending != [] {
        RemovalSnoc(q.removals, Popped(q.pending[0]));
      }
    case DoClose =>
  }

  lemma {:induction false} QueueAccounts<C>(operations: seq<Operation<C>>, capacity: nat)
    requires capacity > 0
    ensures Accounted(Run(operations, capacity)) && Run(operations, capacity).capacity == capacity
  {
    if operations != [] {
      QueueAccounts(operations[..|operations| - 1], capacity);
      StepKeepsAccounts(Run(operations[..|operations| - 1], capacity), operations[|operations| - 1]);
    }
  }

  function Drops<C>(notices: seq<C>): (removals: seq<Removal<C>>)
    ensures |removals| == |notices|
  {
    seq(|notices|, i requires 0 <= i < |notices| => Dropped(notices[i]))
  }

  /** However many notices are pushed in a row, the queue then holds the newest `capacity` of what
      it held and what was pushed, and dropped exactly the others, oldest first: so a push
      drops something only when the queue is full. */
  lemma {:induction false} PushesKeepNewest<C>(q: Queue<C>, notices: seq<C>)
    requires 0 < q.capacity && |q.pending| <= q.capacity
    ensures
      var q', all := PushAll(q, notices), q.pending + notices;
      && q'.pending == LastOf(q.capacity, all) && q'.capacity == q.capacity
      && q'.removals == q.removals + Drops(all[..|all| - |q'.pending|])
      && q'.pushed == q.pushed + notices && q'.closed == q.closed
  {
    if notices == [] {
      NothingAdded(q.pending);
      NothingAdded(q.removals);
      NothingAdded(q.pushed);
    } else {
      var init, last := notices[..|notices| - 1], notices[|notices| - 1];
      hide PushAll, Push, Drops, LastOf;
      assert notices == init + [last];
      PushesKeepNewest(q, init);
      PushKeepsNewest(PushAll(q, init), last);
      NewestOfMore(q, init, last);
      LastOfConcat(q.capacity, q.pending + init, [last]);
      ConcatAssociates(q.pending, init, [last]);
      ConcatAssociates(q.pushed, init, [last]);
      assert PushAll(q, notices) == Push(PushAll(q, init), last) by { PushAllSnoc(q, init, last); }
    }
  }

  lemma NothingAdded<T>(a: seq<T>)
    ensures a + [] == a
  {
  }

  lemma PushAllSnoc<C>(q: Queue<C>, init: seq<C>, last: C)
    ensures PushAll(q, init + [last]) == Push(PushAll(q, init), last)
  {
    assert (init + [last])[..|init|] == init;
  }

  lemma PushKeepsNewest<C>(q: Queue<C>, notice: C)
    requires 0 < q.capacity && |q.pending| <= q.capacity
    ensures
      var q', all := Push(q, notice), q.pending + [notice];
      && q'.pending == LastOf(q.capacity, all) && q'.capacity == q.capacity
      && q'.removals == q.removals + Drops(all[..|all| - |q'.pending|])
      && q'.pushed == q.pushed + [notice] && q'.closed == q.closed
  {
  }

  /** What two rounds of pushing drop. */
  lemma NewestOfMore<C>(q: Queue<C>, init: seq<C>, last: C)
    requires 0 < q.capacity
    ensures
      var held := LastOf(q.capacity, q.pending + init);
      var all, more := q.pending + init + [last], held + [last];
      var first := (q.pending + init)[..|q.pending + init| - |held|];
      var second := more[..|more| - |LastOf(q.capacity, more)|];
      all[..|all| - |LastOf(q.capacity, all)|] == first + second &&
      Drops(first + second) == Drops(first) + Drops(second) &&
      q.removals + (Drops(first) + Drops(second)) == (q.removals + Drops(first)) + Drops(second)
  {
  }

  /** `None` is only ever returned by a closed queue all of whose pushes were popped or counted as dropped. */
  lemma NoneMeansDrained<C>(operations: seq<Operation<C>>, capacity: nat)
    requires capacity > 0
    requires TakenFrom(Run(operations, capacity)) == Drained
    ensures Run(operations, capacity).closed
    ensures Run(operations, capacity).pushed == Notices(Run(operations, capacity).removals)
  {
    QueueAccounts(operations, capacity);
  }

  function PopTimes<C>(q: Queue<C>, n: nat): Queue<C> {
    if n == 0 then q else Pop(PopTimes(q, n - 1))
  }

  /** A closed queue hands out what it holds, in push order, and then ends. */
  lemma {:induction false} ClosedQueueDrains<C>(q: Queue<C>, n: nat)
    requires q.closed && n <= |q.pending|
    ensures PopTimes(q, n).closed && PopTimes(q, n).pending == q.pending[n..]
    ensures TakenFrom(PopTimes(q, n)) == if n < |q.pending| then Notice(q.pending[n]) else Drained
  {
    if n > 0 {
      ClosedQueueDrains(q, n - 1);
    }
  }
}
