/** `TerminalTranscript` (src/session.rs): a byte-bounded deque of sequenced deltas,
    proved to be the last `byteCapacity` bytes of an unbounded log. */
module Transcript {
  import opened Bytes

  const TRANSCRIPT_SCROLLBACK_BYTE_CAPACITY: nat := 1024 * 1024

  datatype TerminalSize = TerminalSize(rows: nat, columns: nat)

  datatype Delta = Delta(sequence: nat, bytes: seq<Byte>)

  /** The bytes of all deltas, one after the other. */
  function Joined(deltas: seq<Delta>): seq<Byte> {
    if deltas == [] then [] else Joined(deltas[..|deltas| - 1]) + deltas[|deltas| - 1].bytes
  }

  /** `delta` is entry `n` of the log under its own sequence number; only the front delta
      of the deque may have lost bytes, only at its front, and never all of them. */
  ghost predicate Fits(delta: Delta, log: seq<seq<Byte>>, n: nat, front: bool)
    requires n < |log|
  {
    && delta.sequence == Saturating(n + 1)
    && (delta.bytes == [] ==> log[n] == [])
    && if front then IsSuffix(delta.bytes, log[n]) else delta.bytes == log[n]
  }

  /** `deltas` are the newest entries of `log`, in order. */
  ghost predicate Window(deltas: seq<Delta>, log: seq<seq<Byte>>) {
    && |deltas| <= |log|
    && forall i :: 0 <= i < |deltas| ==> Fits(deltas[i], log, |log| - |deltas| + i, i == 0)
  }

  /** A window holding some tail of the log: what the reclaim loop works on. */
  ghost predicate HoldsTail(deltas: seq<Delta>, log: seq<seq<Byte>>) {
    && Window(deltas, log)
    && IsSuffix(Joined(deltas), Flatten(log))
  }

  /** The refinement relation: a window of the log that holds exactly its last `capacity` bytes. */
  ghost predicate Retains(deltas: seq<Delta>, log: seq<seq<Byte>>, capacity: nat) {
    && HoldsTail(deltas, log)
    && |Joined(deltas)| == Min(capacity, |Flatten(log)|)
  }

  // ---------------------------------------------------------------- vt100

  /** vt100 is an opaque library. A parser is identified with everything it was given, so
      two equal parsers show equal screens under any semantics of the library. */
  datatype ParserInput = Print(byte: Byte) | SetSize(size: TerminalSize)
  datatype Parser = Parser(created: TerminalSize, inputs: seq<ParserInput>)

  function Prints(bytes: seq<Byte>): (inputs: seq<ParserInput>)
    ensures |inputs| == |bytes|
    ensures forall i :: 0 <= i < |bytes| ==> inputs[i] == Print(bytes[i])
  {
    if bytes == [] then [] else Prints(bytes[..|bytes| - 1]) + [Print(bytes[|bytes| - 1])]
  }

  lemma PrintsConcat(a: seq<Byte>, b: seq<Byte>)
    ensures Prints(a + b) == Prints(a) + Prints(b)
  {
  }

  /** What happened to the terminal: the whole PTY output with its resizes interleaved. */
  datatype Event = Appended(bytes: seq<Byte>) | Resized(size: TerminalSize)

  function Inputs(event: Event): seq<ParserInput> {
    match event
    case Appended(bytes) => Prints(bytes)
    case Resized(size) => [SetSize(size)]
  }

  function History(events: seq<Event>): seq<ParserInput> {
    if events == [] then []
    else History(events[..|events| - 1]) + Inputs(events[|events| - 1])
  }

  function Chunks(event: Event): seq<seq<Byte>> {
    if event.Appended? then [event.bytes] else []
  }

  function Log(events: seq<Event>): seq<seq<Byte>> {
    if events == [] then []
    else Log(events[..|events| - 1]) + Chunks(events[|events| - 1])
  }

  lemma SnocEvent(events: seq<Event>, event: Event)
    ensures History(events + [event]) == History(events) + Inputs(event)
    ensures Log(events + [event]) == Log(events) + Chunks(event)
  {
    assert (events + [event])[..|events|] == events;
  }

  // ---------------------------------------------------------------- the transcript

  class TerminalTranscript {
    var deltas: seq<Delta>
    var retainedBytes: nat
    const byteCapacity: nat
    var terminalState: Parser
    var terminalSize: TerminalSize
    var lastSequence: nat
    /** Everything that was ever appended; unbounded, so only ghost. */
    ghost var log: seq<seq<Byte>>
    /** The appends and resizes, interleaved. */
    ghost var events: seq<Event>

    ghost predicate Valid()
      reads this
    {
      && byteCapacity <= VEC_MAX
      && Retains(deltas, log, byteCapacity)
      && retainedBytes == |Joined(deltas)|
      && lastSequence == Saturating(|log|)
      && log == Log(events)
      && terminalState.inputs == History(events)
      && terminalSize == CurrentSize(terminalState.created, events)
    }

    constructor (size: TerminalSize, capacity: nat)
      requires capacity <= VEC_MAX
      ensures Valid() && log == [] && events == [] && byteCapacity == capacity
      ensures terminalSize == size && terminalState.created == size
    {
      deltas, retainedBytes, byteCapacity := [], 0, capacity;
      terminalState, terminalSize := Parser(size, []), size;
      lastSequence := 0;
      log, events := [], [];
    }

    method Append(bytes: seq<Byte>) returns (delta: Delta)
      requires Valid() && |bytes| <= VEC_MAX
      modifies this
      ensures Valid()
      ensures log == old(log) + [bytes] && events == old(events) + [Appended(bytes)]
      ensures terminalSize == old(terminalSize) && terminalState.created == old(terminalState.created)
      ensures delta == Delta(Saturating(|log|), bytes)
    {
      hide HoldsTail, Log, History, Flatten, Joined, CurrentSize;
      FlattenSnoc(log, bytes);
      PushedWindow(deltas, log, bytes);
      SnocEvent(events, Appended(bytes));
      SizeSnoc(terminalState.created, events, Appended(bytes));
      terminalState := terminalState.(inputs := terminalState.inputs + Prints(bytes));
      lastSequence := SaturatingAdd(lastSequence, 1);
      delta := Delta(lastSequence, bytes);
      retainedBytes := SaturatingAdd(retainedBytes, |delta.bytes|);
      deltas := deltas + [delta];
      log, events := log + [bytes], events + [Appended(bytes)];
      ReclaimScrollback();
    }

    method ReclaimScrollback()
      requires HoldsTail(deltas, log)
      requires |Joined(deltas)| >= Min(byteCapacity, |Flatten(log)|)
      requires retainedBytes == |Joined(deltas)|
      modifies this`deltas, this`retainedBytes
      ensures Retains(deltas, log, byteCapacity)
      ensures retainedBytes == |Joined(deltas)|
    {
      while retainedBytes > byteCapacity
        invariant HoldsTail(deltas, log)
        invariant retainedBytes == |Joined(deltas)|
        invariant retainedBytes >= Min(byteCapacity, |Flatten(log)|)
        decreases |deltas|
      {
        assert deltas != [];  // so the source's `else return` is never taken
        PoppedWindow(deltas, log);
        var oldest, rest := deltas[0], deltas[1..];
        deltas := rest;
        var excess := retainedBytes - byteCapacity;
        if |oldest.bytes| > excess {
          TrimmedWindow(oldest, rest, log, excess);
          oldest := oldest.(bytes := oldest.bytes[excess..]);
          retainedBytes := retainedBytes - excess;
          deltas := [oldest] + rest;
          return;
        }
        retainedBytes := retainedBytes - |oldest.bytes|;
      }
    }

    method Resize(size: TerminalSize)
      requires Valid()
      modifies this`terminalSize, this`terminalState, this`events
      ensures Valid()
      ensures events == old(events) + [Resized(size)]
      ensures terminalSize == size && terminalState.created == old(terminalState.created)
    {
      hide HoldsTail, Retains, History, Log, Flatten, Joined, CurrentSize;
      SnocEvent(events, Resized(size));
      SizeSnoc(terminalState.created, events, Resized(size));
      terminalSize := size;
      terminalState := terminalState.(inputs := terminalState.inputs + [SetSize(size)]);
      events := events + [Resized(size)];
    }

    /** The collected bytes are the last `byteCapacity` bytes of everything appended. */
    method Snapshot() returns (bytes: seq<Byte>, last: nat)
      requires Valid()
      ensures bytes == LastOf(byteCapacity, Flatten(log))
      ensures last == Saturating(|log|)
    {
      hide Window, IsSuffix, LastOf;
      bytes := [];
      for i := 0 to |deltas|
        invariant bytes == Joined(deltas[..i])
      {
        assert deltas[..i + 1][..i] == deltas[..i];
        bytes := bytes + deltas[i].bytes;
      }
      assert deltas[..|deltas|] == deltas;
      LastOfIsSuffix(byteCapacity, Joined(deltas), Flatten(log));
      last := lastSequence;
    }

    /** `replay_after`: exactly the retained deltas numbered above `sequence`, in order. */
    method ReplayAfter(sequence: nat) returns (replay: seq<Delta>)
      requires Valid()
      ensures replay == NewerThan(deltas, sequence)
    {
      replay := [];
      for i := 0 to |deltas|
        invariant replay == NewerThan(deltas[..i], sequence)
      {
        assert deltas[..i + 1][..i] == deltas[..i];
        if deltas[i].sequence > sequence {
          replay := replay + [deltas[i]];
        }
      }
      assert deltas[..|deltas|] == deltas;
    }

    /** `windows(needle.len()).any(..)` over the snapshot; `windows(0)` panics. */
    method Contains(needle: seq<Byte>) returns (found: bool)
      requires Valid() && needle != []
      ensures found <==> Occurs(LastOf(byteCapacity, Flatten(log)), needle)
    {
      var hay, _ := Snapshot();
      var at := 0;
      while at + |needle| <= |hay|
        invariant forall k: nat :: k < at ==> !OccursAt(hay, needle, k)
      {
        if OccursAt(hay, needle, at) {
          return true;
        }
        at := at + 1;
      }
      found := false;
    }

    /** The parser whose screen `screen_projection` shows. */
    method ProjectedParser(size: TerminalSize) returns (parser: Parser)
      requires Valid()
      ensures parser == Projected(terminalState.created, events, terminalSize, byteCapacity, size)
    {
      if size == terminalSize {
        parser := terminalState;
      } else {
        var bytes, _ := Snapshot();
        parser := Parser(size, Prints(bytes));
      }
    }
  }

  // ---------------------------------------------------------------- deque steps

  lemma JoinedSnoc(deltas: seq<Delta>, delta: Delta)
    ensures Joined(deltas + [delta]) == Joined(deltas) + delta.bytes
  {
    assert (deltas + [delta])[..|deltas|] == deltas;
  }

  lemma {:induction false} JoinedCons(delta: Delta, deltas: seq<Delta>)
    ensures Joined([delta] + deltas) == delta.bytes + Joined(deltas)
    decreases |deltas|
  {
    if deltas == [] {
      assert [delta][..0] == [] && [delta] + deltas == [delta];
    } else {
      hide Joined;
      var init, last := deltas[..|deltas| - 1], deltas[|deltas| - 1];
      assert deltas == init + [last] && [delta] + deltas == ([delta] + init) + [last];
      JoinedCons(delta, init);
      JoinedSnoc(init, last);
      JoinedSnoc([delta] + init, last);
      assert delta.bytes + (Joined(init) + last.bytes) == (delta.bytes + Joined(init)) + last.bytes;
    }
  }

  lemma {:induction false} PushedWindow(deltas: seq<Delta>, log: seq<seq<Byte>>, bytes: seq<Byte>)
    requires HoldsTail(deltas, log)
    ensures
      var pushed := deltas + [Delta(Saturating(|log| + 1), bytes)];
      && HoldsTail(pushed, log + [bytes])
      && |Joined(pushed)| == |Joined(deltas)| + |bytes|
  {
    var delta := Delta(Saturating(|log| + 1), bytes);
    var pushed, longer := deltas + [delta], log + [bytes];
    assert IsSuffix(Joined(pushed), Flatten(longer)) && |Joined(pushed)| == |Joined(deltas)| + |bytes| by {
      FlattenSnoc(log, bytes);
      JoinedSnoc(deltas, delta);
      SuffixSnoc(Joined(deltas), Flatten(log), bytes);
    }
    forall i | 0 <= i < |pushed|
      ensures Fits(pushed[i], longer, |longer| - |pushed| + i, i == 0)
    {
      if i < |deltas| {
        assert Fits(deltas[i], log, |log| - |deltas| + i, i == 0);
      }
    }
  }

  lemma SuffixSnoc<T>(a: seq<T>, b: seq<T>, c: seq<T>)
    requires IsSuffix(a, b)
    ensures IsSuffix(a + c, b + c)
  {
  }

  lemma LastOfIsSuffix<T>(n: nat, a: seq<T>, b: seq<T>)
    requires IsSuffix(a, b) && |a| == Min(n, |b|)
    ensures a == LastOf(n, b)
  {
  }

  lemma SuffixDrop<T>(a: seq<T>, b: seq<T>, n: nat)
    requires IsSuffix(a, b) && n <= |a|
    ensures IsSuffix(a[n..], b)
  {
  }

  lemma {:induction false} JoinedSplit(deltas: seq<Delta>)
    requires deltas != []
    ensures deltas == [deltas[0]] + deltas[1..]
    ensures Joined(deltas) == deltas[0].bytes + Joined(deltas[1..])
  {
    assert deltas == [deltas[0]] + deltas[1..];
    JoinedCons(deltas[0], deltas[1..]);
  }

  lemma PoppedWindow(deltas: seq<Delta>, log: seq<seq<Byte>>)
    requires deltas != [] && HoldsTail(deltas, log)
    ensures HoldsTail(deltas[1..], log)
    ensures Joined(deltas) == deltas[0].bytes + Joined(deltas[1..])
    ensures deltas == [deltas[0]] + deltas[1..]
  {
    hide Joined, Flatten;
    var rest := deltas[1..];
    JoinedSplit(deltas);
    SuffixDrop(Joined(deltas), Flatten(log), |deltas[0].bytes|);
    assert Joined(deltas)[|deltas[0].bytes|..] == Joined(rest);
    forall i | 0 <= i < |rest|
      ensures Fits(rest[i], log, |log| - |rest| + i, i == 0)
    {
      assert Fits(deltas[i + 1], log, |log| - |deltas| + i + 1, false);
    }
  }

  lemma TrimmedWindow(oldest: Delta, rest: seq<Delta>, log: seq<seq<Byte>>, excess: nat)
    requires excess < |oldest.bytes|
    requires HoldsTail([oldest] + rest, log)
    ensures
      var trimmed := [oldest.(bytes := oldest.bytes[excess..])] + rest;
      && HoldsTail(trimmed, log)
      && |Joined(trimmed)| == |Joined([oldest] + rest)| - excess
  {
    hide Flatten, Joined, IsSuffix;
    var full := [oldest] + rest;
    var trimmed := [oldest.(bytes := oldest.bytes[excess..])] + rest;
    JoinedCons(oldest, rest);
    JoinedCons(trimmed[0], rest);
    assert Joined(trimmed) == Joined(full)[excess..];
    SuffixDrop(Joined(full), Flatten(log), excess);
    forall i | 0 <= i < |trimmed|
      ensures Fits(trimmed[i], log, |log| - |trimmed| + i, i == 0)
    {
      assert Fits(full[i], log, |log| - |full| + i, i == 0);
      if i == 0 {
        SuffixDrop(oldest.bytes, log[|log| - |full|], excess);
      } else {
        assert trimmed[i] == full[i];
      }
    }
  }

  // ---------------------------------------------------------------- replay

  function NewerThan(deltas: seq<Delta>, sequence: nat): seq<Delta> {
    if deltas == [] then []
    else
      NewerThan(deltas[..|deltas| - 1], sequence) +
      if deltas[|deltas| - 1].sequence > sequence then [deltas[|deltas| - 1]] else []
  }

  lemma NewerThanSnoc(deltas: seq<Delta>, delta: Delta, sequence: nat)
    ensures NewerThan(deltas + [delta], sequence) ==
            if delta.sequence > sequence then NewerThan(deltas, sequence) + [delta] else NewerThan(deltas, sequence)
  {
    assert (deltas + [delta])[..|deltas|] == deltas;
  }

  lemma TailSnoc<T>(init: seq<T>, last: T, skip: nat)
    requires skip <= |init|
    ensures (init + [last])[skip..] == init[skip..] + [last]
  {
  }

  lemma {:induction false} NewerThanIsTail(deltas: seq<Delta>, sequence: nat, skip: nat)
    requires skip <= |deltas|
    requires forall i :: 0 <= i < |deltas| ==> (deltas[i].sequence > sequence <==> i >= skip)
    ensures NewerThan(deltas, sequence) == deltas[skip..]
    decreases |deltas|
  {
    if deltas != [] {
      hide NewerThan;
      var init, last := deltas[..|deltas| - 1], deltas[|deltas| - 1];
      assert deltas == init + [last];
      NewerThanSnoc(init, last, sequence);
      NewerThanIsTail(init, sequence, Min(skip, |init|));
      if skip < |deltas| {
        TailSnoc(init, last, skip);
      }
    } else {
      assert deltas[skip..] == [];
    }
  }

  /** How many of the `retained` newest of `appended` chunks come after chunk number `after`. */
  function NewerCount(appended: nat, retained: nat, after: nat): nat {
    Min(retained, if after <= appended then appended - after else 0)
  }

  /** A replay is the run of the retained deltas numbered above `after`, up to the newest one:
      nothing is skipped, and the numbers are consecutive. Only a subscriber that asks to go on
      after the last u64 can miss something, once the numbers have saturated. */
  lemma ReplayIsConsecutive(deltas: seq<Delta>, log: seq<seq<Byte>>, after: nat)
    requires Window(deltas, log) && (after < U64_MAX || |log| <= U64_MAX)
    ensures
      var replay, count := NewerThan(deltas, after), NewerCount(|log|, |deltas|, after);
      && |replay| == count && replay == deltas[|deltas| - count..]
      && forall i :: 0 <= i < count ==> replay[i].sequence == Saturating(|log| - count + i + 1)
  {
    hide IsSuffix;
    var count := NewerCount(|log|, |deltas|, after);
    forall i | 0 <= i < |deltas|
      ensures deltas[i].sequence == Saturating(|log| - |deltas| + i + 1)
      ensures deltas[i].sequence > after <==> i >= |deltas| - count
    {
      assert Fits(deltas[i], log, |log| - |deltas| + i, i == 0);
    }
    NewerThanIsTail(deltas, after, |deltas| - count);
  }

  lemma ReplayMissesPastSaturation(deltas: seq<Delta>, log: seq<seq<Byte>>)
    requires Window(deltas, log) && deltas != [] && |log| > U64_MAX
    ensures NewerThan(deltas, U64_MAX) == [] && NewerCount(|log|, |deltas|, U64_MAX) > 0
  {
    hide IsSuffix;
    forall i | 0 <= i < |deltas| ensures deltas[i].sequence <= U64_MAX {
      assert Fits(deltas[i], log, |log| - |deltas| + i, i == 0);
    }
    NewerThanIsTail(deltas, U64_MAX, |deltas|);
  }

  // ---------------------------------------------------------------- the screen cache

  function Projected(
    created: TerminalSize, events: seq<Event>, current: TerminalSize, capacity: nat, size: TerminalSize): Parser
  {
    if size == current then Parser(created, History(events))
    else Parser(size, Prints(LastOf(capacity, Flatten(Log(events)))))
  }

  ghost predicate NoResize(events: seq<Event>) {
    forall i :: 0 <= i < |events| ==> events[i].Appended?
  }

  lemma {:induction false} HistoryWithoutResize(events: seq<Event>)
    requires NoResize(events)
    ensures History(events) == Prints(Flatten(Log(events)))
  {
    if events != [] {
      hide History, Log, Flatten, Prints;
      var init, last := events[..|events| - 1], events[|events| - 1];
      assert init + [last] == events && last.Appended?;
      HistoryWithoutResize(init);
      SnocEvent(init, last);
      FlattenSnoc(Log(init), last.bytes);
      PrintsConcat(Flatten(Log(init)), last.bytes);
    }
  }

  lemma {:induction false} HistoryLength(events: seq<Event>)
    ensures |History(events)| >= |Flatten(Log(events))|
  {
    if events != [] {
      hide History, Log, Flatten;
      var init, last := events[..|events| - 1], events[|events| - 1];
      assert init + [last] == events;
      HistoryLength(init);
      SnocEvent(init, last);
      if last.Appended? {
        FlattenSnoc(Log(init), last.bytes);
      } else {
        assert Log(init) + [] == Log(init);
      }
    }
  }

  lemma {:induction false} ResizeIsRecorded(events: seq<Event>, k: nat) returns (i: nat)
    requires k < |events| && events[k].Resized?
    ensures i < |History(events)| && History(events)[i].SetSize?
  {
    if k == |events| - 1 {
      i := |History(events[..k])|;
    } else {
      i := ResizeIsRecorded(events[..|events| - 1], k);
    }
  }

  /** The size the terminal has after some events. */
  function CurrentSize(created: TerminalSize, events: seq<Event>): TerminalSize {
    if events == [] then created
    else
      var last := events[|events| - 1];
      if last.Resized? then last.size else CurrentSize(created, events[..|events| - 1])
  }

  lemma SizeSnoc(created: TerminalSize, events: seq<Event>, event: Event)
    ensures CurrentSize(created, events + [event]) ==
            if event.Resized? then event.size else CurrentSize(created, events)
  {
    assert (events + [event])[..|events|] == events;
  }

  lemma {:induction false} SizeWithoutResize(created: TerminalSize, events: seq<Event>)
    requires NoResize(events)
    ensures CurrentSize(created, events) == created
  {
    if events != [] {
      SizeWithoutResize(created, events[..|events| - 1]);
    }
  }

  /** What a parser shows, for any meaning of the vt100 library: a fresh screen of some size,
      and what each input does to a screen. */
  function Show<S>(parser: Parser, blank: TerminalSize -> S, process: (S, ParserInput) -> S): S {
    ShowAfter(blank(parser.created), parser.inputs, process)
  }

  function ShowAfter<S>(screen: S, inputs: seq<ParserInput>, process: (S, ParserInput) -> S): S {
    if inputs == [] then screen
    else process(ShowAfter(screen, inputs[..|inputs| - 1], process), inputs[|inputs| - 1])
  }

  /** Whatever vt100 does with its inputs, the cached screen is the one that re-parsing the
      snapshot gives, as long as nothing was resized and the whole history fits the capacity. */
  lemma CacheAgreesWithReplay<S>(
    created: TerminalSize, events: seq<Event>, capacity: nat, blank: TerminalSize -> S, process: (S, ParserInput) -> S)
    requires NoResize(events) && |Flatten(Log(events))| <= capacity
    ensures
      var size := CurrentSize(created, events);
      Show(Projected(created, events, size, capacity, size), blank, process)
      == Show(Parser(size, Prints(LastOf(capacity, Flatten(Log(events))))), blank, process)
  {
    hide ShowAfter;
    HistoryWithoutResize(events);
    SizeWithoutResize(created, events);
  }

  /** Neither condition can be dropped: otherwise the two parsers were given different inputs,
      so a library that shows everything it was given tells them apart. */
  lemma {:induction false} CacheDiffersOtherwise(created: TerminalSize, events: seq<Event>, capacity: nat)
    requires !NoResize(events) || |Flatten(Log(events))| > capacity
    ensures
      var size := CurrentSize(created, events);
      Projected(created, events, size, capacity, size) != Parser(size, Prints(LastOf(capacity, Flatten(Log(events)))))
  {
    HistoryLength(events);
    if !NoResize(events) {
      var k :| 0 <= k < |events| && !events[k].Appended?;
      var i := ResizeIsRecorded(events, k);
    }
  }

  /** At another size the projection is what a terminal of that size shows that was only ever given
      the retained bytes, in whatever chunks. */
  lemma {:induction false} OtherSizeIsFreshTerminal(
    created: TerminalSize, events: seq<Event>, current: TerminalSize, capacity: nat, size: TerminalSize,
    replay: seq<Event>)
    requires size != current
    requires NoResize(replay) && Flatten(Log(replay)) == LastOf(capacity, Flatten(Log(events)))
    ensures Projected(created, events, current, capacity, size) == Projected(size, replay, size, capacity, size)
  {
    HistoryWithoutResize(replay);
  }
}
