/** Byte strings, the u64 arithmetic the counters use, and the few facts about
    concatenated chunks that every other module needs. */
module Bytes {

  type Byte = b: int | 0 <= b < 256

  const U64_MAX: nat := 0xFFFF_FFFF_FFFF_FFFF

  /** A Rust `Vec` never holds more than `isize::MAX` bytes. */
  const VEC_MAX: nat := 0x7FFF_FFFF_FFFF_FFFF

  datatype Option<+T> = None | Some(value: T)

  /** What one `write_all` + `flush` did: everything, or a prefix and an error. */
  datatype Outcome = Wrote | Failed(written: nat)

  function Min(a: nat, b: nat): nat {
    if a <= b then a else b
  }

  /** The value a u64 counter shows after `n` saturating increments from zero. */
  function Saturating(n: nat): nat {
    if n <= U64_MAX then n else U64_MAX
  }

  function SaturatingAdd(a: nat, b: nat): nat {
    Saturating(a + b)
  }

  /** All chunks, one after the other. */
  function Flatten<T>(chunks: seq<seq<T>>): seq<T> {
    if chunks == [] then [] else Flatten(chunks[..|chunks| - 1]) + chunks[|chunks| - 1]
  }

  /** The last `n` elements, or everything when there are fewer. */
  function LastOf<T>(n: nat, s: seq<T>): seq<T> {
    if |s| <= n then s else s[|s| - n..]
  }

  ghost predicate IsSuffix<T>(a: seq<T>, b: seq<T>) {
    |a| <= |b| && b[|b| - |a|..] == a
  }

  predicate OccursAt<T(==)>(hay: seq<T>, needle: seq<T>, at: nat) {
    at + |needle| <= |hay| && hay[at..at + |needle|] == needle
  }

  ghost predicate Occurs<T>(hay: seq<T>, needle: seq<T>) {
    exists at: nat :: OccursAt(hay, needle, at)
  }

  lemma FlattenSnoc<T>(chunks: seq<seq<T>>, chunk: seq<T>)
    ensures Flatten(chunks + [chunk]) == Flatten(chunks) + chunk
  {
    assert (chunks + [chunk])[..|chunks|] == chunks;
  }

  lemma {:induction false} FlattenConcat<T>(a: seq<seq<T>>, b: seq<seq<T>>)
    ensures Flatten(a + b) == Flatten(a) + Flatten(b)
    decreases |b|
  {
    if b == [] {
      assert a + b == a;
    } else {
      hide Flatten;
      var init, last := b[..|b| - 1], b[|b| - 1];
      assert b == init + [last] && a + b == (a + init) + [last];
      FlattenConcat(a, init);
      FlattenSnoc(init, last);
      FlattenSnoc(a + init, last);
      assert Flatten(a) + (Flatten(init) + last) == (Flatten(a) + Flatten(init)) + last;
    }
  }

  lemma FlattenCons<T>(chunk: seq<T>, chunks: seq<seq<T>>)
    ensures Flatten([chunk] + chunks) == chunk + Flatten(chunks)
  {
    FlattenConcat([chunk], chunks);
    assert [chunk][..0] == [];
  }

  lemma InSnoc<T>(init: seq<T>, last: T, x: T)
    ensures x in init + [last] <==> x in init || x == last
  {
  }

  lemma ConcatAssociates<T>(a: seq<T>, b: seq<T>, c: seq<T>)
    ensures (a + b) + c == a + (b + c)
  {
  }

  /** Keeping a bounded tail after every append is the same as keeping it once at the end. */
  lemma LastOfConcat<T>(n: nat, a: seq<T>, b: seq<T>)
    ensures LastOf(n, LastOf(n, a) + b) == LastOf(n, a + b)
  {
  }

  lemma OccursInExtension<T>(before: seq<T>, hay: seq<T>, after: seq<T>, needle: seq<T>)
    requires Occurs(hay, needle)
    ensures Occurs(before + hay + after, needle)
  {
    var at: nat :| OccursAt(hay, needle, at);
    var whole := before + hay + after;
    assert whole[|before| + at..|before| + at + |needle|] == hay[at..at + |needle|];
    assert OccursAt(whole, needle, |before| + at);
  }
}
