/** Prompt-pattern checks (src/daemon.rs): how many bytes follow the last prompt in the
    transcript, and when a prompt counts as clean. */
module Prompt {
  import opened Bytes

  ghost predicate EndsWith(hay: seq<Byte>, suffix: seq<Byte>) {
    IsSuffix(suffix, hay)
  }

  /** `windows(..).rposition(..)` among the windows that start before `upto`. */
  function LastOccurrence(hay: seq<Byte>, needle: seq<Byte>, upto: nat): Option<nat> {
    if upto == 0 then None
    else if OccursAt(hay, needle, upto - 1) then Some(upto - 1)
    else LastOccurrence(hay, needle, upto - 1)
  }

  /** The transcript ends with the suffix once its last `g` bytes are dropped. */
  ghost predicate EndsWithout(transcript: seq<Byte>, suffix: seq<Byte>, g: nat) {
    g <= |transcript| && EndsWith(transcript[..|transcript| - g], suffix)
  }

  /** The least number of trailing bytes to drop, or all of them when there is no occurrence. */
  ghost predicate IsLeastGap(transcript: seq<Byte>, suffix: seq<Byte>, gap: nat) {
    if Occurs(transcript, suffix) then
      EndsWithout(transcript, suffix, gap) && forall g: nat :: g < gap ==> !EndsWithout(transcript, suffix, g)
    else gap == |transcript|
  }

  function LiteralSuffixGap(transcript: seq<Byte>, suffix: seq<Byte>): nat {
    if suffix == [] || (|suffix| <= |transcript| && transcript[|transcript| - |suffix|..] == suffix) then 0
    else if |transcript| < |suffix| then |transcript|
    else
      match LastOccurrence(transcript, suffix, |transcript| - |suffix| + 1)
      case None => |transcript|
      case Some(position) =>
        if position + |suffix| <= |transcript| then |transcript| - position - |suffix| else 0
  }

  lemma {:induction false} LastOccurrenceIsLast(hay: seq<Byte>, needle: seq<Byte>, upto: nat)
    ensures
      match LastOccurrence(hay, needle, upto)
      case None => forall at: nat :: at < upto ==> !OccursAt(hay, needle, at)
      case Some(p) =>
        p < upto && OccursAt(hay, needle, p) && forall at: nat :: p < at < upto ==> !OccursAt(hay, needle, at)
  {
    if upto > 0 && !OccursAt(hay, needle, upto - 1) {
      LastOccurrenceIsLast(hay, needle, upto - 1);
    }
  }

  lemma EndsWithoutIsOccurrence(transcript: seq<Byte>, suffix: seq<Byte>, g: nat)
    ensures EndsWithout(transcript, suffix, g) <==>
            |suffix| + g <= |transcript| && OccursAt(transcript, suffix, |transcript| - g - |suffix|)
  {
    if |suffix| + g <= |transcript| {
      var cut := transcript[..|transcript| - g];
      assert cut[|cut| - |suffix|..] == transcript[|cut| - |suffix|..|cut|];
    }
  }

  /** For a non-empty suffix the gap is the least number of trailing bytes whose removal
      leaves a transcript that ends with it; it is the whole length exactly when there is no
      occurrence. */
  lemma GapIsLeast(transcript: seq<Byte>, suffix: seq<Byte>)
    requires suffix != []
    ensures LiteralSuffixGap(transcript, suffix) <= |transcript|
    ensures LiteralSuffixGap(transcript, suffix) == |transcript| <==> !Occurs(transcript, suffix)
    ensures
      var gap := LiteralSuffixGap(transcript, suffix);
      && (Occurs(transcript, suffix) ==> EndsWithout(transcript, suffix, gap))
      && forall g: nat :: g < gap ==> !EndsWithout(transcript, suffix, g)
  {
    var gap := LiteralSuffixGap(transcript, suffix);
    NoneWithoutLess(transcript, suffix);
    forall g: nat | g < gap ensures !EndsWithout(transcript, suffix, g) {
      EndsWithoutIsOccurrence(transcript, suffix, g);
    }
    EndsWithoutIsOccurrence(transcript, suffix, gap);
    hide LiteralSuffixGap;
  }

  /** The gap by the places where the suffix occurs. */
  lemma NoneWithoutLess(transcript: seq<Byte>, suffix: seq<Byte>)
    requires suffix != []
    ensures
      var gap, n := LiteralSuffixGap(transcript, suffix), |transcript|;
      && gap <= n && (gap == n <==> !Occurs(transcript, suffix))
      && (gap < n ==> |suffix| + gap <= n && OccursAt(transcript, suffix, n - gap - |suffix|))
      && forall at: nat :: n - gap < at + |suffix| <= n ==> !OccursAt(transcript, suffix, at)
  {
    var n := |transcript|;
    if |suffix| <= n {
      LastOccurrenceIsLast(transcript, suffix, n - |suffix| + 1);
      assert transcript[n - |suffix|..] == transcript[n - |suffix|..n];
    }
  }

  lemma GapIsExact(transcript: seq<Byte>, suffix: seq<Byte>)
    ensures IsLeastGap(transcript, suffix, LiteralSuffixGap(transcript, suffix))
  {
    if suffix == [] {
      assert OccursAt(transcript, suffix, 0);
    } else {
      GapIsLeast(transcript, suffix);
    }
  }

  /** No trailing bytes means the transcript ends with the suffix, or that either is empty:
      an empty transcript passes for a clean prompt under every pattern. */
  lemma NoGapExactly(transcript: seq<Byte>, suffix: seq<Byte>)
    ensures LiteralSuffixGap(transcript, suffix) == 0 <==> transcript == [] || EndsWith(transcript, suffix)
  {
    if suffix != [] {
      GapIsLeast(transcript, suffix);
    }
  }

  /** So "clean" does not imply "ends with the prompt". */
  lemma EmptyTranscriptLooksClean()
    ensures LiteralSuffixGap([], [36]) == 0 && !EndsWith([], [36])
  {
  }
}
