/**
 * What `checkCC` collects, against a reference that does not use
 * `insertInOrder`: for each field, one `[time, bytes]` entry per caption
 * window of each sample of the first `trun` that gave the field any bytes,
 * at that sample's own time, appended in sample and window order.
 */
module CcCollection {
  import opened DataView
  import opened NalScanner
  import opened CcExtractor
  import opened FragmentTiming

  /** Window `w` is read and gives field `k` the non-empty bytes `data`. */
  predicate Yields(raw: seq<byte>, w: Window, k: nat, data: seq<byte>)
    requires k < 2
  {
    CcFields(raw, w).Ok? && |data| > 0 && CcFields(raw, w).value[k] == data
  }

  /**
   * Reference for one sample, independent of `insertInOrder`: field `k`'s
   * entries of the windows `ws` at `time`, appended in window order, one for
   * each window that gave field `k` any bytes; the first window that cannot
   * be read is the `RangeError`.
   */
  function WindowEntries(raw: seq<byte>, ws: seq<Window>, time: int, k: nat): Result<seq<CcEntry>>
    requires k < 2
  {
    if ws == [] then Ok([])
    else match WindowEntries(raw, ws[..|ws| - 1], time, k)
      case RangeError => RangeError
      case Ok(es) =>
        match CcFields(raw, ws[|ws| - 1])
        case RangeError => RangeError
        case Ok(cc) => Ok(if |cc[k]| > 0 then es + [CcEntry(time, cc[k])] else es)
  }

  /** Reference for the walk: field `k`'s entries of the first `n` samples, appended sample after sample. */
  function Collected(raw: seq<byte>, frag: Fragment, n: nat, k: nat): Result<seq<CcEntry>>
    requires |frag.truns| > 0 && n <= |frag.truns[0].samples| && k < 2
  {
    if n == 0 then Ok([])
    else match Collected(raw, frag, n - 1, k)
      case RangeError => RangeError
      case Ok(es) =>
        match SampleWindows(raw, frag, n - 1)
        case RangeError => RangeError
        case Ok(ws) =>
          match WindowEntries(raw, ws, SampleTime(frag, n - 1), k)
          case RangeError => RangeError
          case Ok(more) => Ok(es + more)
  }

  /** Sample `i`'s caption window `w` gives field `k` the bytes of `e`, and `e` carries sample `i`'s time. */
  predicate FromSample(raw: seq<byte>, frag: Fragment, i: nat, w: Window, k: nat, e: CcEntry)
    requires |frag.truns| > 0 && k < 2
  {
    i < |frag.truns[0].samples| && SampleWindows(raw, frag, i).Ok? && w in SampleWindows(raw, frag, i).value
      && e.time == SampleTime(frag, i) && Yields(raw, w, k, e.data)
  }

  /** One window adds to field `k` its field `k` bytes at `time`, if any, and keeps the old entries. */
  lemma AddFieldDataKeeps(f: seq<seq<CcEntry>>, time: int, cc: seq<seq<byte>>, k: nat)
    requires |f| == 2 && |cc| == 2 && k < 2
    ensures multiset(AddFieldData(f, time, cc)[k]) == multiset(f[k]) + multiset(if |cc[k]| > 0 then [CcEntry(time, cc[k])] else [])
  {
    InsertedKeepsEntries(f[k], CcEntry(time, cc[k]));
  }

  /** A sample's windows put into field `k` the entries the reference lists, wherever they land; both fail together. */
  lemma {:induction false} AddWindowsCollects(raw: seq<byte>, fields: seq<seq<CcEntry>>, time: int, ws: seq<Window>, k: nat)
    requires |fields| == 2 && k < 2
    ensures AddWindows(raw, fields, time, ws).Ok? <==> WindowEntries(raw, ws, time, k).Ok?
    ensures AddWindows(raw, fields, time, ws).Ok? ==>
      multiset(AddWindows(raw, fields, time, ws).value[k]) == multiset(fields[k]) + multiset(WindowEntries(raw, ws, time, k).value)
    decreases |ws|
  {
    if ws != [] {
      var init := ws[..|ws| - 1];
      AddWindowsCollects(raw, fields, time, init, k);
      if AddWindows(raw, fields, time, init).Ok? && CcFields(raw, ws[|ws| - 1]).Ok? {
        var f := AddWindows(raw, fields, time, init).value;
        var es := WindowEntries(raw, init, time, k).value;
        var cc := CcFields(raw, ws[|ws| - 1]).value;
        var more := if |cc[k]| > 0 then [CcEntry(time, cc[k])] else [];
        assert WindowEntries(raw, ws, time, k).value == es + more;
        AddFieldDataKeeps(f, time, cc, k);
      }
    }
  }

  /** Into fields no later than `time`, one window's field `k` bytes are appended, if any. */
  lemma AddFieldDataAppends(f: seq<seq<CcEntry>>, time: int, cc: seq<seq<byte>>, k: nat)
    requires |f| == 2 && |cc| == 2 && k < 2 && SortedUpTo(f, time)
    ensures AddFieldData(f, time, cc)[k] == f[k] + if |cc[k]| > 0 then [CcEntry(time, cc[k])] else []
  {
    assert forall x: CcEntry :: x in f[k] ==> x.time <= time;
    InsertedAppends(f[k], CcEntry(time, cc[k]));
  }

  /** Into fields no later than `time`, a sample's windows append exactly the reference entries. */
  lemma {:induction false} AddWindowsAppends(raw: seq<byte>, fields: seq<seq<CcEntry>>, time: int, ws: seq<Window>, k: nat)
    requires |fields| == 2 && k < 2 && SortedUpTo(fields, time) && AddWindows(raw, fields, time, ws).Ok?
    ensures WindowEntries(raw, ws, time, k).Ok?
    ensures AddWindows(raw, fields, time, ws).value[k] == fields[k] + WindowEntries(raw, ws, time, k).value
    decreases |ws|
  {
    if ws != [] {
      var init := ws[..|ws| - 1];
      AddWindowsAppends(raw, fields, time, init, k);
      AddWindowsSorted(raw, fields, time, init);
      var f := AddWindows(raw, fields, time, init).value;
      var es := WindowEntries(raw, init, time, k).value;
      var cc := CcFields(raw, ws[|ws| - 1]).value;
      var more := if |cc[k]| > 0 then [CcEntry(time, cc[k])] else [];
      assert AddWindows(raw, fields, time, ws).value == AddFieldData(f, time, cc);
      assert WindowEntries(raw, ws, time, k).value == es + more;
      AddFieldDataAppends(f, time, cc, k);
      assert fields[k] + es + more == fields[k] + (es + more);
    }
  }

  /** One step of the reference walk: it fails with the walk so far, the sample's scan or its windows, and otherwise appends. */
  lemma CollectedUnfold(raw: seq<byte>, frag: Fragment, n: nat, k: nat)
    requires |frag.truns| > 0 && 0 < n <= |frag.truns[0].samples| && k < 2
    ensures Collected(raw, frag, n - 1, k).RangeError? || SampleWindows(raw, frag, n - 1).RangeError? ==>
      Collected(raw, frag, n, k).RangeError?
    ensures Collected(raw, frag, n - 1, k).Ok? && SampleWindows(raw, frag, n - 1).Ok? ==>
      var more := WindowEntries(raw, SampleWindows(raw, frag, n - 1).value, SampleTime(frag, n - 1), k);
      && (more.RangeError? ==> Collected(raw, frag, n, k).RangeError?)
      && (more.Ok? ==> Collected(raw, frag, n, k) == Ok(Collected(raw, frag, n - 1, k).value + more.value))
  {
  }

  /** A sample added to fields that hold the reference entries `es` up to order yields `es` and its own reference entries. */
  lemma SampleCollects(raw: seq<byte>, f: seq<seq<CcEntry>>, es: seq<CcEntry>, time: int, ws: seq<Window>, k: nat)
    requires |f| == 2 && k < 2 && multiset(f[k]) == multiset(es)
    ensures AddWindows(raw, f, time, ws).Ok? <==> WindowEntries(raw, ws, time, k).Ok?
    ensures AddWindows(raw, f, time, ws).Ok? ==>
      multiset(AddWindows(raw, f, time, ws).value[k]) == multiset(es + WindowEntries(raw, ws, time, k).value)
  {
    AddWindowsCollects(raw, f, time, ws, k);
  }

  /** The walk's field `k` holds the reference entries up to order; both fail together. */
  lemma {:induction false} FieldsAfterCollected(raw: seq<byte>, frag: Fragment, n: nat, k: nat)
    requires |frag.truns| > 0 && n <= |frag.truns[0].samples| && k < 2
    ensures FieldsAfter(raw, frag, n).Ok? <==> Collected(raw, frag, n, k).Ok?
    ensures FieldsAfter(raw, frag, n).Ok? ==>
      multiset(FieldsAfter(raw, frag, n).value[k]) == multiset(Collected(raw, frag, n, k).value)
  {
    if n > 0 {
      FieldsAfterCollected(raw, frag, n - 1, k);
      FieldsAfterUnfold(raw, frag, n);
      CollectedUnfold(raw, frag, n, k);
      if FieldsAfter(raw, frag, n - 1).Ok? && SampleWindows(raw, frag, n - 1).Ok? {
        var f := FieldsAfter(raw, frag, n - 1).value;
        var ws := SampleWindows(raw, frag, n - 1).value;
        var t := SampleTime(frag, n - 1);
        assert FieldsAfter(raw, frag, n) == AddWindows(raw, f, t, ws);
        SampleCollects(raw, f, Collected(raw, frag, n - 1, k).value, t, ws, k);
      }
    }
  }

  /** Under nondecreasing sample times the walk's field `k` is the reference list itself. */
  lemma {:induction false} FieldsAfterInOrder(raw: seq<byte>, frag: Fragment, n: nat, k: nat)
    requires |frag.truns| > 0 && n <= |frag.truns[0].samples| && k < 2
    requires TimesNondecreasing(frag) && FieldsAfter(raw, frag, n).Ok?
    ensures Collected(raw, frag, n, k).Ok? && FieldsAfter(raw, frag, n).value[k] == Collected(raw, frag, n, k).value
  {
    if n > 0 {
      FieldsAfterPrev(raw, frag, n);
      FieldsAfterInOrder(raw, frag, n - 1, k);
      var f := FieldsAfter(raw, frag, n - 1).value;
      var t := SampleTime(frag, n - 1);
      if n > 1 {
        FieldsAfterSorted(raw, frag, n - 1);
        assert SampleTime(frag, n - 2) <= t;
        SortedUpToLater(f, SampleTime(frag, n - 2), t);
      }
      AddWindowsAppends(raw, f, t, SampleWindows(raw, frag, n - 1).value, k);
    }
  }

  /** An element of all but the last position is an element. */
  lemma InPrefix<T>(s: seq<T>, x: T)
    requires |s| > 0 && x in s[..|s| - 1]
    ensures x in s
  {
    var j :| 0 <= j < |s| - 1 && s[..|s| - 1][j] == x;
    assert s[j] == x;
  }

  /** An element other than the last one is among all but the last position. */
  lemma InInit<T>(s: seq<T>, x: T)
    requires |s| > 0 && x in s && x != s[|s| - 1]
    ensures x in s[..|s| - 1]
  {
    var j :| 0 <= j < |s| && s[j] == x;
    assert s[..|s| - 1][j] == x;
  }

  /** An element of either part is an element of the concatenation. */
  lemma InAppend<T>(a: seq<T>, b: seq<T>, x: T)
    requires x in a || x in b
    ensures x in a + b
  {
    if x in a {
      var j :| 0 <= j < |a| && a[j] == x;
      assert (a + b)[j] == x;
    } else {
      var j :| 0 <= j < |b| && b[j] == x;
      assert (a + b)[|a| + j] == x;
    }
  }

  /** A successful reference list for `ws` is that for all but the last window, then the last window's entry if any. */
  lemma WindowEntriesStep(raw: seq<byte>, ws: seq<Window>, time: int, k: nat)
    requires k < 2 && ws != [] && WindowEntries(raw, ws, time, k).Ok?
    ensures WindowEntries(raw, ws[..|ws| - 1], time, k).Ok? && CcFields(raw, ws[|ws| - 1]).Ok?
    ensures var cc := CcFields(raw, ws[|ws| - 1]).value;
      WindowEntries(raw, ws, time, k).value ==
        WindowEntries(raw, ws[..|ws| - 1], time, k).value + if |cc[k]| > 0 then [CcEntry(time, cc[k])] else []
  {
  }

  /** Each window of `ws` that gives field `k` bytes has its entry in the reference list. */
  lemma {:induction false} WindowEntriesHas(raw: seq<byte>, ws: seq<Window>, time: int, k: nat, w: Window, e: CcEntry)
    requires k < 2 && WindowEntries(raw, ws, time, k).Ok?
    requires w in ws && Yields(raw, w, k, e.data) && e.time == time
    ensures e in WindowEntries(raw, ws, time, k).value
    decreases |ws|
  {
    WindowEntriesStep(raw, ws, time, k);
    var init := ws[..|ws| - 1];
    if w == ws[|ws| - 1] {
      assert e == CcEntry(time, CcFields(raw, w).value[k]);
    } else {
      InInit(ws, w);
      WindowEntriesHas(raw, init, time, k, w, e);
    }
  }

  /** Each entry of the reference list for `ws` is at `time` and comes from one of its windows, returned as `w`. */
  lemma {:induction false} WindowEntriesFrom(raw: seq<byte>, ws: seq<Window>, time: int, k: nat, e: CcEntry) returns (w: Window)
    requires k < 2 && WindowEntries(raw, ws, time, k).Ok? && e in WindowEntries(raw, ws, time, k).value
    ensures w in ws && Yields(raw, w, k, e.data) && e.time == time
    decreases |ws|
  {
    WindowEntriesStep(raw, ws, time, k);
    var init := ws[..|ws| - 1];
    if e in WindowEntries(raw, init, time, k).value {
      w := WindowEntriesFrom(raw, init, time, k, e);
      InPrefix(ws, w);
    } else {
      w := ws[|ws| - 1];
    }
  }

  /** The reference entries of one sample are those of its windows that gave field `k` bytes, all at `time`. */
  lemma WindowEntriesMembers(raw: seq<byte>, ws: seq<Window>, time: int, k: nat)
    requires k < 2 && WindowEntries(raw, ws, time, k).Ok?
    ensures forall e :: e in WindowEntries(raw, ws, time, k).value <==> e.time == time && exists w :: w in ws && Yields(raw, w, k, e.data)
  {
    forall e | e in WindowEntries(raw, ws, time, k).value
      ensures e.time == time && exists w :: w in ws && Yields(raw, w, k, e.data)
    {
      var w := WindowEntriesFrom(raw, ws, time, k, e);
    }
    forall e: CcEntry, w | e.time == time && w in ws && Yields(raw, w, k, e.data)
      ensures e in WindowEntries(raw, ws, time, k).value
    {
      WindowEntriesHas(raw, ws, time, k, w, e);
    }
  }

  /** A successful reference walk of `n` samples is that of `n - 1` samples followed by sample `n - 1`'s entries. */
  lemma CollectedStep(raw: seq<byte>, frag: Fragment, n: nat, k: nat)
    requires |frag.truns| > 0 && 0 < n <= |frag.truns[0].samples| && k < 2 && Collected(raw, frag, n, k).Ok?
    ensures Collected(raw, frag, n - 1, k).Ok? && SampleWindows(raw, frag, n - 1).Ok?
    ensures WindowEntries(raw, SampleWindows(raw, frag, n - 1).value, SampleTime(frag, n - 1), k).Ok?
    ensures Collected(raw, frag, n, k).value ==
      Collected(raw, frag, n - 1, k).value + WindowEntries(raw, SampleWindows(raw, frag, n - 1).value, SampleTime(frag, n - 1), k).value
  {
  }

  /** Each reference entry of the first `n` samples comes from window `w` of some sample `i`, both returned. */
  lemma {:induction false} CollectedFrom(raw: seq<byte>, frag: Fragment, n: nat, k: nat, e: CcEntry) returns (i: nat, w: Window)
    requires |frag.truns| > 0 && n <= |frag.truns[0].samples| && k < 2 && Collected(raw, frag, n, k).Ok?
    requires e in Collected(raw, frag, n, k).value
    ensures i < n && FromSample(raw, frag, i, w, k, e)
  {
    if n == 0 {
      assert false;
    }
    CollectedStep(raw, frag, n, k);
    if e in Collected(raw, frag, n - 1, k).value {
      i, w := CollectedFrom(raw, frag, n - 1, k, e);
    } else {
      i := n - 1;
      w := CollectedFromLast(raw, frag, n, k, e);
    }
  }

  /** A reference entry of `n` samples that is not one of `n - 1` samples comes from window `w` of sample `n - 1`. */
  lemma CollectedFromLast(raw: seq<byte>, frag: Fragment, n: nat, k: nat, e: CcEntry) returns (w: Window)
    requires |frag.truns| > 0 && 0 < n <= |frag.truns[0].samples| && k < 2 && Collected(raw, frag, n, k).Ok?
    requires e in Collected(raw, frag, n, k).value
    requires Collected(raw, frag, n - 1, k).Ok? && e !in Collected(raw, frag, n - 1, k).value
    ensures FromSample(raw, frag, n - 1, w, k, e)
  {
    CollectedStep(raw, frag, n, k);
    w := WindowEntriesFrom(raw, SampleWindows(raw, frag, n - 1).value, SampleTime(frag, n - 1), k, e);
  }

  /** Every reference entry of the first `n` samples comes from a window of one of them. */
  lemma CollectedSound(raw: seq<byte>, frag: Fragment, n: nat, k: nat)
    requires |frag.truns| > 0 && n <= |frag.truns[0].samples| && k < 2 && Collected(raw, frag, n, k).Ok?
    ensures forall e :: e in Collected(raw, frag, n, k).value ==> exists i: nat, w :: i < n && FromSample(raw, frag, i, w, k, e)
  {
    forall e | e in Collected(raw, frag, n, k).value
      ensures exists i: nat, w :: i < n && FromSample(raw, frag, i, w, k, e)
    {
      var i, w := CollectedFrom(raw, frag, n, k, e);
    }
  }

  /** The reference walk only appends: entries of `n - 1` samples stay for `n`. */
  lemma CollectedKeeps(raw: seq<byte>, frag: Fragment, n: nat, k: nat, e: CcEntry)
    requires |frag.truns| > 0 && 0 < n <= |frag.truns[0].samples| && k < 2 && Collected(raw, frag, n, k).Ok?
    requires Collected(raw, frag, n - 1, k).Ok? && e in Collected(raw, frag, n - 1, k).value
    ensures e in Collected(raw, frag, n, k).value
  {
    CollectedStep(raw, frag, n, k);
    InAppend(Collected(raw, frag, n - 1, k).value, WindowEntries(raw, SampleWindows(raw, frag, n - 1).value, SampleTime(frag, n - 1), k).value, e);
  }

  /** Sample `n - 1`'s window `w` that gives field `k` bytes has its entry among those of `n` samples. */
  lemma CollectedHasLast(raw: seq<byte>, frag: Fragment, n: nat, k: nat, w: Window, e: CcEntry)
    requires |frag.truns| > 0 && 0 < n <= |frag.truns[0].samples| && k < 2 && Collected(raw, frag, n, k).Ok?
    requires FromSample(raw, frag, n - 1, w, k, e)
    ensures e in Collected(raw, frag, n, k).value
  {
    CollectedStep(raw, frag, n, k);
    var ws := SampleWindows(raw, frag, n - 1).value;
    WindowEntriesHas(raw, ws, SampleTime(frag, n - 1), k, w, e);
    InAppend(Collected(raw, frag, n - 1, k).value, WindowEntries(raw, ws, SampleTime(frag, n - 1), k).value, e);
  }

  /** A successful reference walk of `n` samples extends that of any `m <= n` samples. */
  lemma {:induction false} CollectedPrefix(raw: seq<byte>, frag: Fragment, m: nat, n: nat, k: nat, e: CcEntry)
    requires |frag.truns| > 0 && m <= n <= |frag.truns[0].samples| && k < 2 && Collected(raw, frag, n, k).Ok?
    ensures Collected(raw, frag, m, k).Ok?
    ensures e in Collected(raw, frag, m, k).value ==> e in Collected(raw, frag, n, k).value
    decreases n
  {
    if m < n {
      CollectedStep(raw, frag, n, k);
      CollectedPrefix(raw, frag, m, n - 1, k, e);
      if e in Collected(raw, frag, m, k).value {
        CollectedKeeps(raw, frag, n, k, e);
      }
    }
  }

  /** The reference entries of the first `n` samples include the one window `w` of sample `i` gives field `k`. */
  lemma CollectedHas(raw: seq<byte>, frag: Fragment, n: nat, k: nat, i: nat, w: Window, e: CcEntry)
    requires |frag.truns| > 0 && n <= |frag.truns[0].samples| && k < 2 && Collected(raw, frag, n, k).Ok?
    requires i < n && FromSample(raw, frag, i, w, k, e)
    ensures e in Collected(raw, frag, n, k).value
  {
    CollectedPrefix(raw, frag, i + 1, n, k, e);
    CollectedHasLast(raw, frag, i + 1, k, w, e);
  }

  /** Every window of the first `n` samples that gives field `k` bytes has its reference entry. */
  lemma CollectedComplete(raw: seq<byte>, frag: Fragment, n: nat, k: nat)
    requires |frag.truns| > 0 && n <= |frag.truns[0].samples| && k < 2 && Collected(raw, frag, n, k).Ok?
    ensures forall i: nat, w, e :: i < n && FromSample(raw, frag, i, w, k, e) ==> e in Collected(raw, frag, n, k).value
  {
    forall i: nat, w, e | i < n && FromSample(raw, frag, i, w, k, e)
      ensures e in Collected(raw, frag, n, k).value
    {
      CollectedHas(raw, frag, n, k, i, w, e);
    }
  }

  /**
   * What `checkCC` collects: field `k` holds, up to order, exactly the
   * reference entries (one per window of each sample that gave field `k`
   * bytes, at that sample's own time), it fails exactly when the reference
   * does, and under nondecreasing sample times it is the reference list itself.
   */
  lemma CcFieldsCollected(raw: seq<byte>, frag: Fragment, k: nat)
    requires |frag.truns| > 0 && k < 2
    ensures CcSpec(raw, frag).Ok? <==> Collected(raw, frag, |frag.truns[0].samples|, k).Ok?
    ensures CcSpec(raw, frag).Ok? ==> CcSpec(raw, frag).value.Some?
    ensures CcSpec(raw, frag).Ok? ==>
      multiset(CcSpec(raw, frag).value.value.fields[k]) == multiset(Collected(raw, frag, |frag.truns[0].samples|, k).value)
    ensures CcSpec(raw, frag).Ok? && TimesNondecreasing(frag) ==>
      CcSpec(raw, frag).value.value.fields[k] == Collected(raw, frag, |frag.truns[0].samples|, k).value
  {
    var n := |frag.truns[0].samples|;
    FieldsAfterCollected(raw, frag, n, k);
    if CcSpec(raw, frag).Ok? && TimesNondecreasing(frag) {
      FieldsAfterInOrder(raw, frag, n, k);
    }
  }

  /**
   * An entry is in `checkCC`'s field `k` if and only if some caption window
   * of some sample `i` of the first `trun` gave field `k` exactly its bytes
   * and it carries sample `i`'s time.
   */
  lemma CcEntriesExactly(raw: seq<byte>, frag: Fragment, k: nat)
    requires k < 2 && CcSpec(raw, frag).Ok? && CcSpec(raw, frag).value.Some?
    ensures forall e :: e in CcSpec(raw, frag).value.value.fields[k] <==> exists i: nat, w :: FromSample(raw, frag, i, w, k, e)
  {
    var n := |frag.truns[0].samples|;
    CcFieldsCollected(raw, frag, k);
    CollectedSound(raw, frag, n, k);
    CollectedComplete(raw, frag, n, k);
    var fields := CcSpec(raw, frag).value.value.fields;
    forall e: CcEntry ensures e in fields[k] <==> e in multiset(fields[k]) {}
    forall e: CcEntry ensures e in Collected(raw, frag, n, k).value <==> e in multiset(Collected(raw, frag, n, k).value) {}
  }

}
