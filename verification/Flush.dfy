/** Flushing buffered chunks to a writer that may fail: what `activate_reserved_viewer` and
    `flush_held_human_input` (src/session.rs) have in common. */
module Flush {
  import opened Bytes

  /** What write number `n` of the whole run does. */
  type Writer = nat -> Outcome

  /** One chunk handed to a writer, on whose behalf, and what became of it. */
  datatype Attempt<O, C> = Attempt(owner: O, chunk: C, outcome: Outcome)

  predicate AllWrote<O, C>(attempts: seq<Attempt<O, C>>) {
    forall i :: 0 <= i < |attempts| ==> attempts[i].outcome.Wrote?
  }

  /** How many of `count` chunks a flush writes or tries to write when `writes` were made before
      it: it stops at the first that fails. */
  function Tries(count: nat, writes: nat, writer: Writer): (n: nat)
    ensures n <= count
    ensures forall k :: writes <= k < writes + n - 1 ==> writer(k).Wrote?
    ensures n < count ==> n > 0 && writer(writes + n - 1).Failed?
  {
    if count == 0 then 0
    else
      var earlier := Tries(count - 1, writes, writer);
      if earlier < count - 1 || (earlier > 0 && writer(writes + earlier - 1).Failed?) then earlier else count
  }

  /** Those three facts determine the number. */
  lemma {:induction false} TriesAre(count: nat, writes: nat, writer: Writer, n: nat)
    requires n <= count
    requires forall k :: writes <= k < writes + n - 1 ==> writer(k).Wrote?
    requires n < count ==> n > 0 && writer(writes + n - 1).Failed?
    ensures Tries(count, writes, writer) == n
  {
    if n < count {
      TriesAre(count - 1, writes, writer, n);
    } else if n > 1 {
      TriesAre(count - 1, writes, writer, n - 1);
    }
  }

  /** The whole flush went through. */
  ghost predicate AllTaken(count: nat, writes: nat, writer: Writer) {
    forall k :: writes <= k < writes + count ==> writer(k).Wrote?
  }

  function FirstWrites<O, C>(owner: O, chunks: seq<C>, n: nat, writes: nat, writer: Writer)
    : (attempts: seq<Attempt<O, C>>)
    requires n <= |chunks|
    ensures |attempts| == n
  {
    seq(n, i requires 0 <= i < n => Attempt(owner, chunks[i], writer(writes + i)))
  }

  /** The writes that flushing some chunks makes, given how many were made before. */
  function Flushed<O, C>(owner: O, chunks: seq<C>, writes: nat, writer: Writer): (attempts: seq<Attempt<O, C>>)
    ensures |attempts| <= |chunks|
  {
    FirstWrites(owner, chunks, Tries(|chunks|, writes, writer), writes, writer)
  }

  lemma NothingTried<O, C>(owner: O, chunks: seq<C>, writes: nat, writer: Writer)
    ensures FirstWrites(owner, chunks, 0, writes, writer) == [] && AllTaken(0, writes, writer)
  {
  }

  /** One turn of the flush loop. */
  lemma FlushTurn<O, C>(owner: O, chunks: seq<C>, n: nat, writes: nat, writer: Writer)
    requires n < |chunks|
    ensures FirstWrites(owner, chunks, n + 1, writes, writer) ==
            FirstWrites(owner, chunks, n, writes, writer) + [Attempt(owner, chunks[n], writer(writes + n))]
    ensures AllTaken(n + 1, writes, writer) <==> AllTaken(n, writes, writer) && writer(writes + n).Wrote?
    ensures chunks[..n] + [chunks[n]] == chunks[..n + 1]
    ensures chunks[..n + 1] + chunks[n + 1..] == chunks
    ensures chunks[n..][0] == chunks[n] && chunks[n..][1..] == chunks[n + 1..]
  {
  }

  /** A flush is over with its first failing write, or at the end of the chunks. */
  lemma FlushedIs<O, C>(owner: O, chunks: seq<C>, n: nat, writes: nat, writer: Writer)
    requires n <= |chunks|
    requires || (n == |chunks| && AllTaken(n, writes, writer))
             || (n > 0 && AllTaken(n - 1, writes, writer) && writer(writes + n - 1).Failed?)
    ensures Flushed(owner, chunks, writes, writer) == FirstWrites(owner, chunks, n, writes, writer)
    ensures AllWrote(Flushed(owner, chunks, writes, writer)) <==> AllTaken(n, writes, writer)
  {
    TriesAre(|chunks|, writes, writer, n);
    var flushed := Flushed(owner, chunks, writes, writer);
    if AllWrote(flushed) {
      forall k | writes <= k < writes + n ensures writer(k).Wrote? {
        assert flushed[k - writes].outcome.Wrote?;
      }
    }
  }

  /** A flush attempts a prefix of the chunks, in order, and only its last write may have failed. */
  lemma FlushedShape<O, C>(owner: O, chunks: seq<C>, writes: nat, writer: Writer)
    ensures
      var flushed := Flushed(owner, chunks, writes, writer);
      && (forall i :: 0 <= i < |flushed| ==> flushed[i].owner == owner && flushed[i].chunk == chunks[i])
      && (forall i :: 0 <= i < |flushed| - 1 ==> flushed[i].outcome.Wrote?)
      && (AllWrote(flushed) ==> |flushed| == |chunks|)
      && (!AllWrote(flushed) ==> |flushed| > 0 && flushed[|flushed| - 1].outcome.Failed?)
  {
    hide Tries;
    var flushed := Flushed(owner, chunks, writes, writer);
    if |flushed| < |chunks| {
      assert flushed[|flushed| - 1].outcome.Failed?;
    }
  }
}
