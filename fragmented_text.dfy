/**
 * The time anchor of the fragmented (out-of-band, ISO BMFF) text path: the
 * first sample's composition time is mapped to the chunk's start, and the
 * same offset is subtracted from every sample. All times are in timescale
 * units.
 */
module FragmentedText {

  /**
   * The anchor after one segment: kept when it is non-zero, otherwise
   * recomputed from the segment's first sample (it is left alone when the
   * segment has no sample).
   */
  function Anchored(anchor: int, cts: seq<int>, startUnits: int): int
  {
    if anchor != 0 || |cts| == 0 then anchor else cts[0] - startUnits
  }

  /** Every composition time moved back by `anchor`. */
  function Rebased(cts: seq<int>, anchor: int): (r: seq<int>)
    ensures |r| == |cts|
  {
    seq(|cts|, i requires 0 <= i < |cts| => cts[i] - anchor)
  }

  /** A fresh anchor puts the segment's first sample exactly at the chunk's start. */
  lemma FirstSampleAtChunkStart(cts: seq<int>, startUnits: int)
    requires |cts| > 0
    ensures Rebased(cts, Anchored(0, cts, startUnits))[0] == startUnits
  {
  }

  /** Rebasing keeps the distance between any two samples. */
  lemma RebasedKeepsSpacing(cts: seq<int>, anchor: int)
    ensures var r := Rebased(cts, anchor);
      forall i, j :: 0 <= i < |cts| && 0 <= j < |cts| ==> r[j] - r[i] == cts[j] - cts[i]
  {
  }

  /**
   * A non-zero anchor never changes again; an anchor of 0 (the first
   * sample already at the chunk start) is recomputed by the next segment,
   * whose first sample then lands at that segment's start.
   */
  lemma AnchorSticksUnlessZero(anchor: int, cts: seq<int>, startUnits: int, next: seq<int>, nextStart: int)
    requires |next| > 0
    ensures anchor != 0 ==> Anchored(anchor, cts, startUnits) == anchor
    ensures var a := Anchored(anchor, cts, startUnits);
      a == 0 ==> Rebased(next, Anchored(a, next, nextStart))[0] == nextStart
  {
  }

  /** The text source buffer's `firstSubtitleStart`, 0 until it is first set. */
  class FragmentedTextBuffer {
    var firstSubtitleStart: int

    constructor()
      ensures firstSubtitleStart == 0
    {
      firstSubtitleStart := 0;
    }

    /**
     * The sample loop of the fragmented-text branch of `append`, for the
     * composition times of the segment's samples (`cts`, updated in place)
     * and the chunk start in timescale units.
     */
    method RebaseSamples(cts: array<int>, startUnits: int)
      modifies this, cts
      ensures firstSubtitleStart == Anchored(old(firstSubtitleStart), old(cts[..]), startUnits)
      ensures cts[..] == Rebased(old(cts[..]), firstSubtitleStart)
    {
      ghost var original := cts[..];
      ghost var anchor := Anchored(firstSubtitleStart, original, startUnits);
      for i := 0 to cts.Length
        invariant i > 0 ==> firstSubtitleStart == anchor
        invariant i == 0 ==> firstSubtitleStart == old(firstSubtitleStart)
        invariant forall j :: 0 <= j < i ==> cts[j] == original[j] - anchor
        invariant forall j :: i <= j < cts.Length ==> cts[j] == original[j]
      {
        if firstSubtitleStart == 0 {
          firstSubtitleStart := cts[0] - startUnits;
        }
        cts[i] := cts[i] - firstSubtitleStart;
      }
      assert cts[..] == Rebased(original, anchor);
    }
  }
}
