/**
 * The fragment walk of `checkCC`: from the first track run (`trun`, section
 * 8.8.8 of ISO/IEC 14496-12), the track fragment decode time (`tfdt`,
 * section 8.8.12) and the offset of the `moof` box it computes each sample's
 * byte window and decode time, scans the sample for caption windows and
 * collects each field's data as `[time, bytes]` entries.
 */
module FragmentTiming {
  import opened DataView
  import opened Wrappers
  import opened NalScanner
  import opened CcExtractor

  /** One `trun` sample entry: sample_size, sample_duration, sample_composition_time_offset. */
  datatype Sample = Sample(size: nat, duration: nat, compositionOffset: int)

  /** A `trun` box: its data_offset and its samples (sample_count is their number). */
  datatype Trun = Trun(dataOffset: int, samples: seq<Sample>)

  /** What the box parser yields for one media fragment: the `moof` offset, the `tfdt` base time and every `trun`. */
  datatype Fragment = Fragment(moofOffset: int, baseMediaDecodeTime: nat, truns: seq<Trun>)

  /** `[time, data]`: one window's bytes for one field, at the sample's time in timescale units. */
  datatype CcEntry = CcEntry(time: int, data: seq<byte>)

  /** `allCcData`: the fragment's start and end time and the entries of field 0 and field 1. */
  datatype CcData = CcData(startTime: int, endTime: int, fields: seq<seq<CcEntry>>)

  /** Ordered by time, ties allowed. */
  predicate Sorted(arr: seq<CcEntry>)
  {
    forall i, j :: 0 <= i < j < |arr| ==> arr[i].time <= arr[j].time
  }

  /**
   * `insertInOrder(arr, time, data)` as written: append when `arr` is empty
   * or `time` is not before the last entry's time; otherwise the backwards
   * search stops at its first index, `len - 1`, and splices there.
   */
  function Inserted(arr: seq<CcEntry>, e: CcEntry): seq<CcEntry>
  {
    if |arr| == 0 || e.time >= arr[|arr| - 1].time then arr + [e]
    else arr[..|arr| - 1] + [e] + [arr[|arr| - 1]]
  }

  /** The array grows by exactly the one entry, and the old entries keep their relative order. */
  lemma InsertedKeepsEntries(arr: seq<CcEntry>, e: CcEntry)
    ensures |Inserted(arr, e)| == |arr| + 1
    ensures multiset(Inserted(arr, e)) == multiset(arr) + multiset{e}
    ensures exists p :: |arr| - 1 <= p <= |arr| && 0 <= p && Inserted(arr, e) == arr[..p] + [e] + arr[p..]
  {
    var n := |arr|;
    if n == 0 || e.time >= arr[n - 1].time {
      assert Inserted(arr, e) == arr[..n] + [e] + arr[n..];
    } else {
      assert arr == arr[..n - 1] + arr[n - 1..];
      assert arr[n - 1..] == [arr[n - 1]];
    }
  }

  /**
   * On a sorted array the result is sorted exactly when the new time is not
   * before the second-to-last time: the splice point is always `len - 1`,
   * not the sorted position the doc comment promises.
   */
  lemma InsertedSortedIff(arr: seq<CcEntry>, e: CcEntry)
    requires Sorted(arr)
    ensures Sorted(Inserted(arr, e)) <==> |arr| < 2 || e.time >= arr[|arr| - 2].time
  {
    var n := |arr|;
    var r := Inserted(arr, e);
    if n >= 2 && e.time < arr[n - 2].time {
      assert e.time < arr[n - 1].time;
      assert r[n - 2] == arr[n - 2] && r[n - 1] == e;
    } else if n == 0 || e.time >= arr[n - 1].time {
      assert forall i :: 0 <= i < n ==> r[i] == arr[i];
    } else {
      assert forall i :: 0 <= i < n - 1 ==> r[i] == arr[i];
      assert r[n - 1] == e && r[n] == arr[n - 1];
    }
  }

  /** Inserting time 0 after times 5 and 10 leaves the array out of order. */
  lemma InsertedCanUnsort()
    ensures !Sorted(Inserted([CcEntry(5, []), CcEntry(10, [])], CcEntry(0, [])))
  {
    var r := Inserted([CcEntry(5, []), CcEntry(10, [])], CcEntry(0, []));
    assert r[0].time == 5 && r[1].time == 0;
  }

  /** The last index whose entry is later than `time`, or -1 when there is none. */
  function LastLater(arr: seq<CcEntry>, time: int): (q: int)
    ensures -1 <= q < |arr|
    ensures q >= 0 ==> time < arr[q].time
    ensures forall j :: q < j < |arr| ==> arr[j].time <= time
  {
    if arr == [] then -1
    else if time < arr[|arr| - 1].time then |arr| - 1
    else LastLater(arr[..|arr| - 1], time)
  }

  /**
   * When `insertInOrder` searches at all, the last entry is later than
   * `time`, so the search stops at its very first index.
   */
  lemma SearchStopsAtLast(arr: seq<CcEntry>, time: int)
    requires |arr| > 0 && time < arr[|arr| - 1].time
    ensures LastLater(arr, time) == |arr| - 1
  {
  }

  /** The backwards `for` loop of `insertInOrder`: the first index, from the end, whose time is later than `time`. */
  method SearchBackwards(arr: seq<CcEntry>, time: int) returns (pos: int)
    ensures pos == LastLater(arr, time)
  {
    pos := |arr| - 1;
    while pos >= 0
      invariant -1 <= pos < |arr|
      invariant LastLater(arr, time) == LastLater(arr[..pos + 1], time)
      decreases pos
    {
      if time < arr[pos].time {
        break;
      }
      assert arr[..pos + 1][..pos] == arr[..pos];
      pos := pos - 1;
    }
  }

  /** The local `insertInOrder`: push, or splice in at the index the backwards search stops at. */
  method InsertInOrder(arr: seq<CcEntry>, time: int, data: seq<byte>) returns (r: seq<CcEntry>)
    ensures r == Inserted(arr, CcEntry(time, data))
  {
    var len := |arr|;
    if len > 0 {
      if time >= arr[len - 1].time {
        r := arr + [CcEntry(time, data)];
      } else {
        var pos := SearchBackwards(arr, time);
        SearchStopsAtLast(arr, time);
        r := arr[..pos] + [CcEntry(time, data)] + arr[pos..];
        assert arr[len - 1..] == [arr[len - 1]];
      }
    } else {
      r := arr + [CcEntry(time, data)];
    }
  }

  /** The sum of the sample sizes. */
  function SumSizes(samples: seq<Sample>): nat
  {
    if samples == [] then 0 else SumSizes(samples[..|samples| - 1]) + samples[|samples| - 1].size
  }

  /** The sum of the sample durations. */
  function SumDurations(samples: seq<Sample>): nat
  {
    if samples == [] then 0 else SumDurations(samples[..|samples| - 1]) + samples[|samples| - 1].duration
  }

  /** Where sample `i` starts: `moof.offset + trun.data_offset` plus the sizes of the earlier samples. */
  function SampleStart(frag: Fragment, i: nat): int
    requires |frag.truns| > 0 && i <= |frag.truns[0].samples|
  {
    frag.moofOffset + frag.truns[0].dataOffset + SumSizes(frag.truns[0].samples[..i])
  }

  /** Sample `i`'s time: `baseMediaDecodeTime` plus the earlier durations plus its own composition offset. */
  function SampleTime(frag: Fragment, i: nat): int
    requires |frag.truns| > 0 && i < |frag.truns[0].samples|
  {
    frag.baseMediaDecodeTime + SumDurations(frag.truns[0].samples[..i]) + frag.truns[0].samples[i].compositionOffset
  }

  /** For `k` in 0 and 1: when the window gave field `k` any bytes, they are inserted into field `k` at `time`. */
  function AddFieldData(fields: seq<seq<CcEntry>>, time: int, cc: seq<seq<byte>>): (r: seq<seq<CcEntry>>)
    requires |fields| == 2 && |cc| == 2
    ensures |r| == 2
  {
    [if |cc[0]| > 0 then Inserted(fields[0], CcEntry(time, cc[0])) else fields[0],
     if |cc[1]| > 0 then Inserted(fields[1], CcEntry(time, cc[1])) else fields[1]]
  }

  /** The fields after extracting the windows `ws` of one sample at `time`, in window order. */
  function AddWindows(raw: seq<byte>, fields: seq<seq<CcEntry>>, time: int, ws: seq<Window>): (r: Result<seq<seq<CcEntry>>>)
    requires |fields| == 2
    ensures r.Ok? ==> |r.value| == 2
  {
    if ws == [] then Ok(fields)
    else match AddWindows(raw, fields, time, ws[..|ws| - 1])
      case RangeError => RangeError
      case Ok(f) =>
        match CcFields(raw, ws[|ws| - 1])
        case RangeError => RangeError
        case Ok(cc) => Ok(AddFieldData(f, time, cc))
  }

  /** The caption windows `checkNalus` finds in sample `i`. */
  function SampleWindows(raw: seq<byte>, frag: Fragment, i: nat): Result<seq<Window>>
    requires |frag.truns| > 0 && i < |frag.truns[0].samples|
  {
    NalWindows(raw, SampleStart(frag, i), SampleStart(frag, i) + frag.truns[0].samples[i].size)
  }

  /** The fields after one more sample whose scan gave `windows`. */
  function AddSample(raw: seq<byte>, fields: seq<seq<CcEntry>>, windows: Result<seq<Window>>, time: int): (r: Result<seq<seq<CcEntry>>>)
    requires |fields| == 2
    ensures r.Ok? ==> |r.value| == 2
  {
    match windows
    case RangeError => RangeError
    case Ok(ws) => AddWindows(raw, fields, time, ws)
  }

  /** The fields after the first `n` samples of the first `trun`. */
  function FieldsAfter(raw: seq<byte>, frag: Fragment, n: nat): (r: Result<seq<seq<CcEntry>>>)
    requires |frag.truns| > 0 && n <= |frag.truns[0].samples|
    ensures r.Ok? ==> |r.value| == 2
  {
    if n == 0 then Ok([[], []])
    else match FieldsAfter(raw, frag, n - 1)
      case RangeError => RangeError
      case Ok(f) => AddSample(raw, f, SampleWindows(raw, frag, n - 1), SampleTime(frag, n - 1))
  }

  /**
   * `checkCC(data)`: no result (`null`) when the fragment has no `trun`;
   * otherwise the first `trun` alone is walked and the fragment spans from
   * `baseMediaDecodeTime` to it plus all the sample durations.
   */
  function CcSpec(raw: seq<byte>, frag: Fragment): Result<Option<CcData>>
  {
    if frag.truns == [] then Ok(None)
    else match FieldsAfter(raw, frag, |frag.truns[0].samples|)
      case RangeError => RangeError
      case Ok(fields) =>
        Ok(Some(CcData(frag.baseMediaDecodeTime, frag.baseMediaDecodeTime + SumDurations(frag.truns[0].samples), fields)))
  }

  /** One more sample: its windows are extracted at its time into the fields so far. */
  lemma FieldsAfterNext(raw: seq<byte>, frag: Fragment, i: nat, fields: seq<seq<CcEntry>>)
    requires |frag.truns| > 0 && i < |frag.truns[0].samples|
    requires FieldsAfter(raw, frag, i) == Ok(fields)
    ensures FieldsAfter(raw, frag, i + 1) == AddSample(raw, fields, SampleWindows(raw, frag, i), SampleTime(frag, i))
  {
  }

  /** A successful walk of `n` samples is a successful walk of `n - 1` samples and one more sample. */
  lemma FieldsAfterPrev(raw: seq<byte>, frag: Fragment, n: nat)
    requires |frag.truns| > 0 && 0 < n <= |frag.truns[0].samples|
    requires FieldsAfter(raw, frag, n).Ok?
    ensures FieldsAfter(raw, frag, n - 1).Ok?
    ensures FieldsAfter(raw, frag, n) == AddSample(raw, FieldsAfter(raw, frag, n - 1).value, SampleWindows(raw, frag, n - 1), SampleTime(frag, n - 1))
    ensures SampleTimes(frag, n) == SampleTimes(frag, n - 1) + [SampleTime(frag, n - 1)]
  {
  }

  /** Only the first `trun` is walked: any further `trun` boxes change nothing. */
  lemma FirstTrunOnly(raw: seq<byte>, frag: Fragment, more: seq<Trun>)
    requires |frag.truns| > 0
    ensures CcSpec(raw, frag) == CcSpec(raw, frag.(truns := [frag.truns[0]] + more))
  {
    var other := frag.(truns := [frag.truns[0]] + more);
    SameFirstTrun(raw, frag, other, |frag.truns[0].samples|);
  }

  /** Fragments that agree on the first `trun`, the `moof` offset and the base time agree on every sample. */
  lemma SameSample(raw: seq<byte>, a: Fragment, b: Fragment, i: nat)
    requires |a.truns| > 0 && |b.truns| > 0 && a.truns[0] == b.truns[0]
    requires a.moofOffset == b.moofOffset && a.baseMediaDecodeTime == b.baseMediaDecodeTime
    requires i < |a.truns[0].samples|
    ensures SampleWindows(raw, a, i) == SampleWindows(raw, b, i)
    ensures SampleTime(a, i) == SampleTime(b, i)
  {
    assert SampleStart(a, i) == SampleStart(b, i);
  }

  /** The walk of `n` samples fails with that of `n - 1` samples, and otherwise adds sample `n - 1`. */
  lemma FieldsAfterUnfold(raw: seq<byte>, frag: Fragment, n: nat)
    requires |frag.truns| > 0 && 0 < n <= |frag.truns[0].samples|
    ensures FieldsAfter(raw, frag, n - 1).RangeError? ==> FieldsAfter(raw, frag, n).RangeError?
    ensures FieldsAfter(raw, frag, n - 1).Ok? ==>
      FieldsAfter(raw, frag, n) == AddSample(raw, FieldsAfter(raw, frag, n - 1).value, SampleWindows(raw, frag, n - 1), SampleTime(frag, n - 1))
  {
  }

  /** Only the first `trun`, the `moof` offset and the base time matter to the walk. */
  lemma {:induction false} SameFirstTrun(raw: seq<byte>, a: Fragment, b: Fragment, n: nat)
    requires |a.truns| > 0 && |b.truns| > 0 && a.truns[0] == b.truns[0]
    requires a.moofOffset == b.moofOffset && a.baseMediaDecodeTime == b.baseMediaDecodeTime
    requires n <= |a.truns[0].samples|
    ensures FieldsAfter(raw, a, n) == FieldsAfter(raw, b, n)
  {
    if n > 0 {
      SameFirstTrun(raw, a, b, n - 1);
      SameSample(raw, a, b, n - 1);
      FieldsAfterUnfold(raw, a, n);
      FieldsAfterUnfold(raw, b, n);
    }
  }

  /** A prefix of the samples never lasts longer than all of them. */
  lemma {:induction false} SumDurationsPrefix(samples: seq<Sample>, i: nat)
    requires i <= |samples|
    ensures SumDurations(samples[..i]) <= SumDurations(samples)
    decreases |samples| - i
  {
    if i < |samples| {
      assert samples[..i + 1][..i] == samples[..i];
      SumDurationsPrefix(samples, i + 1);
    } else {
      assert samples[..i] == samples;
    }
  }

  /** Every sample's decode time and duration lie inside the fragment's `[startTime, endTime]`. */
  lemma SampleWithinFragment(raw: seq<byte>, frag: Fragment, i: nat)
    requires CcSpec(raw, frag).Ok? && CcSpec(raw, frag).value.Some?
    requires i < |frag.truns[0].samples|
    ensures var cc := CcSpec(raw, frag).value.value;
      var s := frag.truns[0].samples[i];
      cc.startTime <= SampleTime(frag, i) - s.compositionOffset
      && SampleTime(frag, i) - s.compositionOffset + s.duration <= cc.endTime
  {
    var samples := frag.truns[0].samples;
    assert samples[..i + 1][..i] == samples[..i];
    SumDurationsPrefix(samples, i + 1);
  }

  /** An entry is in `Inserted(arr, e)` exactly when it is `e` or already in `arr`. */
  lemma InsertedMembers(arr: seq<CcEntry>, e: CcEntry)
    ensures forall x :: x in Inserted(arr, e) <==> x in arr || x == e
  {
    InsertedKeepsEntries(arr, e);
    assert forall x :: x in Inserted(arr, e) <==> x in multiset(Inserted(arr, e));
  }

  /** Every entry of `r` not already in `f` is at time `t` and holds a non-empty run of whole byte pairs. */
  predicate GrownAt(f: seq<seq<CcEntry>>, r: seq<seq<CcEntry>>, t: int)
    requires |f| == 2 && |r| == 2
  {
    forall k, e :: 0 <= k < 2 && e in r[k] ==> e in f[k] || (e.time == t && |e.data| > 0 && |e.data| % 2 == 0)
  }

  lemma GrownAtTrans(f: seq<seq<CcEntry>>, g: seq<seq<CcEntry>>, h: seq<seq<CcEntry>>, t: int)
    requires |f| == 2 && |g| == 2 && |h| == 2
    requires GrownAt(f, g, t) && GrownAt(g, h, t)
    ensures GrownAt(f, h, t)
  {
  }

  lemma AddFieldDataGrows(f: seq<seq<CcEntry>>, t: int, cc: seq<seq<byte>>)
    requires |f| == 2 && |cc| == 2 && |cc[0]| % 2 == 0 && |cc[1]| % 2 == 0
    ensures GrownAt(f, AddFieldData(f, t, cc), t)
  {
    InsertedMembers(f[0], CcEntry(t, cc[0]));
    InsertedMembers(f[1], CcEntry(t, cc[1]));
  }

  /** Each field a window yields is whole byte pairs. */
  lemma CcFieldsEven(raw: seq<byte>, w: Window)
    requires CcFields(raw, w).Ok?
    ensures |CcFields(raw, w).value[0]| % 2 == 0 && |CcFields(raw, w).value[1]| % 2 == 0
  {
    CcFieldsPairs(raw, w);
  }

  /** Every entry a window list adds is at `time` and holds a non-empty run of whole byte pairs. */
  lemma {:induction false} AddWindowsEntries(raw: seq<byte>, fields: seq<seq<CcEntry>>, time: int, ws: seq<Window>)
    requires |fields| == 2 && AddWindows(raw, fields, time, ws).Ok?
    ensures GrownAt(fields, AddWindows(raw, fields, time, ws).value, time)
    decreases |ws|
  {
    if ws != [] {
      var w := ws[|ws| - 1];
      AddWindowsEntries(raw, fields, time, ws[..|ws| - 1]);
      var f := AddWindows(raw, fields, time, ws[..|ws| - 1]).value;
      CcFieldsEven(raw, w);
      AddFieldDataGrows(f, time, CcFields(raw, w).value);
      GrownAtTrans(fields, f, AddFieldData(f, time, CcFields(raw, w).value), time);
    }
  }

  /** The times of the first `n` samples, in sample order. */
  function SampleTimes(frag: Fragment, n: nat): (ts: seq<int>)
    requires |frag.truns| > 0 && n <= |frag.truns[0].samples|
    ensures |ts| == n
  {
    if n == 0 then [] else SampleTimes(frag, n - 1) + [SampleTime(frag, n - 1)]
  }

  /** Every entry is at one of `times` and holds a non-empty run of whole byte pairs. */
  predicate EntriesIn(fields: seq<seq<CcEntry>>, times: seq<int>)
    requires |fields| == 2
  {
    forall k, e :: 0 <= k < 2 && e in fields[k] ==> e.time in times && |e.data| > 0 && |e.data| % 2 == 0
  }

  lemma EntriesInGrown(f: seq<seq<CcEntry>>, r: seq<seq<CcEntry>>, times: seq<int>, t: int)
    requires |f| == 2 && |r| == 2 && EntriesIn(f, times) && GrownAt(f, r, t)
    ensures EntriesIn(r, times + [t])
  {
  }

  lemma EntriesGrow(raw: seq<byte>, f: seq<seq<CcEntry>>, windows: Result<seq<Window>>, times: seq<int>, t: int)
    requires |f| == 2 && AddSample(raw, f, windows, t).Ok? && EntriesIn(f, times)
    ensures EntriesIn(AddSample(raw, f, windows, t).value, times + [t])
  {
    AddWindowsEntries(raw, f, t, windows.value);
    EntriesInGrown(f, AddSample(raw, f, windows, t).value, times, t);
  }

  lemma {:induction false} FieldsAfterEntries(raw: seq<byte>, frag: Fragment, n: nat)
    requires |frag.truns| > 0 && n <= |frag.truns[0].samples|
    requires FieldsAfter(raw, frag, n).Ok?
    ensures EntriesIn(FieldsAfter(raw, frag, n).value, SampleTimes(frag, n))
  {
    if n > 0 {
      FieldsAfterPrev(raw, frag, n);
      FieldsAfterEntries(raw, frag, n - 1);
      EntriesGrow(raw, FieldsAfter(raw, frag, n - 1).value, SampleWindows(raw, frag, n - 1), SampleTimes(frag, n - 1), SampleTime(frag, n - 1));
    }
  }

  /** Every entry `checkCC` returns is at the time of one of the first `trun`'s samples and holds whole cc_data byte pairs. */
  lemma CcEntriesFromSamples(raw: seq<byte>, frag: Fragment)
    requires CcSpec(raw, frag).Ok? && CcSpec(raw, frag).value.Some?
    ensures var fields := CcSpec(raw, frag).value.value.fields;
      |fields| == 2 && EntriesIn(fields, SampleTimes(frag, |frag.truns[0].samples|))
  {
    FieldsAfterEntries(raw, frag, |frag.truns[0].samples|);
  }

  /** Both fields are sorted and no entry is later than `t`. */
  predicate SortedUpTo(fields: seq<seq<CcEntry>>, t: int)
    requires |fields| == 2
  {
    Sorted(fields[0]) && Sorted(fields[1]) && forall k, e :: 0 <= k < 2 && e in fields[k] ==> e.time <= t
  }

  /** With nothing later than `time` in a sorted field, `insertInOrder` appends and the field stays sorted. */
  lemma InsertedAppends(arr: seq<CcEntry>, e: CcEntry)
    requires Sorted(arr) && forall x :: x in arr ==> x.time <= e.time
    ensures Inserted(arr, e) == arr + [e] && Sorted(arr + [e])
  {
    if |arr| > 0 {
      assert arr[|arr| - 1] in arr;
    }
    forall i, j | 0 <= i < j < |arr| + 1
      ensures (arr + [e])[i].time <= (arr + [e])[j].time
    {
      assert (arr + [e])[i] == arr[i];
      if j == |arr| {
        assert arr[i] in arr;
      }
    }
  }

  lemma AddFieldDataSorted(f: seq<seq<CcEntry>>, t: int, cc: seq<seq<byte>>)
    requires |f| == 2 && |cc| == 2 && SortedUpTo(f, t)
    ensures SortedUpTo(AddFieldData(f, t, cc), t)
  {
    InsertedAppends(f[0], CcEntry(t, cc[0]));
    InsertedAppends(f[1], CcEntry(t, cc[1]));
  }

  lemma {:induction false} AddWindowsSorted(raw: seq<byte>, fields: seq<seq<CcEntry>>, time: int, ws: seq<Window>)
    requires |fields| == 2 && AddWindows(raw, fields, time, ws).Ok? && SortedUpTo(fields, time)
    ensures SortedUpTo(AddWindows(raw, fields, time, ws).value, time)
    decreases |ws|
  {
    if ws != [] {
      AddWindowsSorted(raw, fields, time, ws[..|ws| - 1]);
      AddFieldDataSorted(AddWindows(raw, fields, time, ws[..|ws| - 1]).value, time, CcFields(raw, ws[|ws| - 1]).value);
    }
  }

  /** Sample times never decrease along the `trun`. */
  predicate TimesNondecreasing(frag: Fragment)
    requires |frag.truns| > 0
  {
    forall i, j :: 0 <= i < j < |frag.truns[0].samples| ==> SampleTime(frag, i) <= SampleTime(frag, j)
  }

  lemma SortedUpToLater(fields: seq<seq<CcEntry>>, t: int, u: int)
    requires |fields| == 2 && SortedUpTo(fields, t) && t <= u
    ensures SortedUpTo(fields, u)
  {
  }

  lemma SampleGrowsSorted(raw: seq<byte>, f: seq<seq<CcEntry>>, windows: Result<seq<Window>>, t: int, u: int)
    requires |f| == 2 && AddSample(raw, f, windows, u).Ok? && SortedUpTo(f, t) && t <= u
    ensures SortedUpTo(AddSample(raw, f, windows, u).value, u)
  {
    SortedUpToLater(f, t, u);
    AddWindowsSorted(raw, f, u, windows.value);
  }

  lemma {:induction false} FieldsAfterSorted(raw: seq<byte>, frag: Fragment, n: nat)
    requires |frag.truns| > 0 && 0 < n <= |frag.truns[0].samples|
    requires TimesNondecreasing(frag) && FieldsAfter(raw, frag, n).Ok?
    ensures SortedUpTo(FieldsAfter(raw, frag, n).value, SampleTime(frag, n - 1))
  {
    FieldsAfterPrev(raw, frag, n);
    var t := SampleTime(frag, n - 1);
    if n > 1 {
      FieldsAfterSorted(raw, frag, n - 1);
      assert SampleTime(frag, n - 2) <= t;
      SampleGrowsSorted(raw, FieldsAfter(raw, frag, n - 1).value, SampleWindows(raw, frag, n - 1), SampleTime(frag, n - 2), t);
    } else {
      SampleGrowsSorted(raw, [[], []], SampleWindows(raw, frag, 0), t, t);
    }
  }

  /**
   * When sample times never decrease, each field comes out sorted by time;
   * only out-of-order composition times can leave it unsorted.
   */
  lemma CcFieldsSortedWhenMonotone(raw: seq<byte>, frag: Fragment)
    requires CcSpec(raw, frag).Ok? && CcSpec(raw, frag).value.Some?
    requires TimesNondecreasing(frag)
    ensures var fields := CcSpec(raw, frag).value.value.fields;
      |fields| == 2 && Sorted(fields[0]) && Sorted(fields[1])
  {
    if |frag.truns[0].samples| > 0 {
      FieldsAfterSorted(raw, frag, |frag.truns[0].samples|);
    }
  }

  /** Samples in which the scanner finds no caption window leave both fields empty. */
  lemma {:induction false} NoWindowsNoEntries(raw: seq<byte>, frag: Fragment, n: nat)
    requires |frag.truns| > 0 && n <= |frag.truns[0].samples|
    requires forall i :: 0 <= i < n ==> SampleWindows(raw, frag, i) == Ok([])
    ensures FieldsAfter(raw, frag, n) == Ok([[], []])
  {
    if n > 0 {
      NoWindowsNoEntries(raw, frag, n - 1);
      FieldsAfterNext(raw, frag, n - 1, [[], []]);
      assert SampleWindows(raw, frag, n - 1) == Ok([]);
    }
  }

  /** Once the windows of a prefix fail to extract, the whole sample fails. */
  lemma {:induction false} AddWindowsFails(raw: seq<byte>, fields: seq<seq<CcEntry>>, time: int, ws: seq<Window>, j: nat)
    requires |fields| == 2 && j <= |ws|
    requires AddWindows(raw, fields, time, ws[..j]).RangeError?
    ensures AddWindows(raw, fields, time, ws).RangeError?
    decreases |ws| - j
  {
    if j < |ws| {
      assert ws[..j + 1][..j] == ws[..j];
      AddWindowsFails(raw, fields, time, ws, j + 1);
    } else {
      assert ws[..j] == ws;
    }
  }

  /** Once a sample fails, the whole fragment fails. */
  lemma {:induction false} FieldsAfterFails(raw: seq<byte>, frag: Fragment, i: nat, n: nat)
    requires |frag.truns| > 0 && i <= n <= |frag.truns[0].samples|
    requires FieldsAfter(raw, frag, i).RangeError?
    ensures FieldsAfter(raw, frag, n).RangeError?
    decreases n - i
  {
    if i < n {
      FieldsAfterFails(raw, frag, i + 1, n);
    }
  }

  /** The start and the decode time of sample `i + 1` follow from those of sample `i`. */
  lemma SampleStep(frag: Fragment, i: nat)
    requires |frag.truns| > 0 && i < |frag.truns[0].samples|
    ensures var s := frag.truns[0].samples;
      && SampleStart(frag, i + 1) == SampleStart(frag, i) + s[i].size
      && SumDurations(s[..i + 1]) == SumDurations(s[..i]) + s[i].duration
  {
    var s := frag.truns[0].samples;
    assert s[..i + 1][..i] == s[..i];
  }

  /** The `j` loop of `checkCC` over one sample's windows, with its `k` loop over the two fields. */
  method AddWindowData(raw: seq<byte>, fields0: seq<seq<CcEntry>>, sampleTime: int, ws: seq<Window>) returns (r: Result<seq<seq<CcEntry>>>)
    requires |fields0| == 2
    ensures r == AddWindows(raw, fields0, sampleTime, ws)
  {
    var fields := fields0;
    for j := 0 to |ws|
      invariant AddWindows(raw, fields0, sampleTime, ws[..j]) == Ok(fields)
    {
      assert ws[..j + 1][..j] == ws[..j];
      var ccData := ProcessCcWindow(raw, ws[j]);
      if ccData.RangeError? {
        AddWindowsFails(raw, fields0, sampleTime, ws, j + 1);
        return RangeError;
      }
      ghost var before := fields;
      for k := 0 to 2
        invariant |fields| == 2
        invariant forall m :: 0 <= m < k ==> fields[m] == AddFieldData(before, sampleTime, ccData.value)[m]
        invariant forall m :: k <= m < 2 ==> fields[m] == before[m]
      {
        if |ccData.value[k]| > 0 {
          var arr := InsertInOrder(fields[k], sampleTime, ccData.value[k]);
          fields := fields[k := arr];
        }
      }
      assert fields == AddFieldData(before, sampleTime, ccData.value);
    }
    assert ws[..|ws|] == ws;
    r := Ok(fields);
  }

  /**
   * `checkCC(data)`, with the box parser's output `frag` in place of the
   * parse: the `i` loop accumulates each sample's start position and the
   * durations before it.
   */
  method CheckCc(raw: seq<byte>, frag: Fragment) returns (r: Result<Option<CcData>>)
    ensures r == CcSpec(raw, frag)
  {
    if |frag.truns| == 0 {
      return Ok(None);
    }
    var trun := frag.truns[0];
    var baseOffset := frag.moofOffset + trun.dataOffset;
    var sampleCount := |trun.samples|;
    var startPos := baseOffset;
    var baseSampleTime := frag.baseMediaDecodeTime;
    var fields: seq<seq<CcEntry>> := [[], []];
    var accDuration := 0;
    for i := 0 to sampleCount
      invariant accDuration == SumDurations(trun.samples[..i])
      invariant startPos == SampleStart(frag, i)
      invariant FieldsAfter(raw, frag, i) == Ok(fields)
    {
      SampleStep(frag, i);
      FieldsAfterNext(raw, frag, i, fields);
      var sample := trun.samples[i];
      var sampleTime := baseSampleTime + accDuration + sample.compositionOffset;
      var ccDataWindows := CheckNalus(raw, startPos, sample.size);
      if ccDataWindows.RangeError? {
        FieldsAfterFails(raw, frag, i + 1, sampleCount);
        return RangeError;
      }
      var next := AddWindowData(raw, fields, sampleTime, ccDataWindows.value);
      if next.RangeError? {
        FieldsAfterFails(raw, frag, i + 1, sampleCount);
        return RangeError;
      }
      fields := next.value;
      accDuration := accDuration + sample.duration;
      startPos := startPos + sample.size;
    }
    assert trun.samples[..sampleCount] == trun.samples;
    r := Ok(Some(CcData(baseSampleTime, baseSampleTime + accDuration, fields)));
  }
}
