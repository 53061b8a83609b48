/**
 * The cc_data extractor of `processCCWindow`: from a caption window it reads
 * cc_count and the cc_data triplets of ATSC A/53 Part 4 (one flag byte
 * holding cc_valid and cc_type, then cc_data_1 and cc_data_2), and routes
 * the valid, non-padding byte pairs to field 0 (cc_type 0) or field 1
 * (cc_type 1).
 */
module CcExtractor {
  import opened DataView
  import opened NalScanner

  /** One cc_data triplet as it sits in the buffer. */
  datatype CcTriplet = CcTriplet(flags: byte, d1: byte, d2: byte)

  /** Bit 2 (0x4) of the flag byte: cc_valid. */
  predicate CcValid(t: CcTriplet)
  {
    (t.flags / 4) % 2 == 1
  }

  /** The low two bits (0x3) of the flag byte: cc_type. */
  function CcType(t: CcTriplet): nat
  {
    t.flags % 4
  }

  /** Both data bytes are zero once their parity bit (0x80) is masked off. */
  predicate IsPadding(t: CcTriplet)
  {
    t.d1 % 128 + t.d2 % 128 == 0
  }

  /** The triplet's pair goes to field `k`. */
  predicate Emits(t: CcTriplet, k: nat)
  {
    CcValid(t) && !IsPadding(t) && CcType(t) == k
  }

  /** The `n` triplets that start at `pos`. */
  function TripletSeq(raw: seq<byte>, pos: int, n: nat): (ts: seq<CcTriplet>)
    requires 0 <= pos && pos + 3 * n <= |raw|
    ensures |ts| == n
    ensures forall i :: 0 <= i < n ==> ts[i] == CcTriplet(raw[pos + 3 * i], raw[pos + 3 * i + 1], raw[pos + 3 * i + 2])
  {
    seq(n, i requires 0 <= i < n => CcTriplet(raw[pos + 3 * i], raw[pos + 3 * i + 1], raw[pos + 3 * i + 2]))
  }

  /** The bytes field `k` receives from `ts`, in triplet order, built the way the loop pushes them. */
  function FieldBytes(ts: seq<CcTriplet>, k: nat): seq<byte>
  {
    if ts == [] then []
    else
      var t := ts[|ts| - 1];
      FieldBytes(ts[..|ts| - 1], k) + (if Emits(t, k) then [t.d1, t.d2] else [])
  }

  /** The triplets that emit to field `k`, in order (an independent reference definition). */
  function Emitting(ts: seq<CcTriplet>, k: nat): seq<CcTriplet>
  {
    if ts == [] then []
    else if Emits(ts[0], k) then [ts[0]] + Emitting(ts[1..], k)
    else Emitting(ts[1..], k)
  }

  /** The data bytes of `es`, two per triplet. */
  function Pairs(es: seq<CcTriplet>): (r: seq<byte>)
    ensures |r| == 2 * |es|
  {
    if es == [] then [] else [es[0].d1, es[0].d2] + Pairs(es[1..])
  }

  /** The cc_count byte at `window[0] + 8` is inside the buffer. */
  predicate CountReadable(raw: seq<byte>, w: Window)
  {
    0 <= w.pos + 8 < |raw|
  }

  /** cc_count: the low five bits (0x1F) of the byte at `window[0] + 8`. */
  function CcCount(raw: seq<byte>, w: Window): nat
    requires CountReadable(raw, w)
  {
    raw[w.pos + 8] % 0x20
  }

  /** Every byte the triplet loop reads is inside the buffer (no triplet is read when cc_count is 0). */
  predicate TripletsReadable(raw: seq<byte>, w: Window)
  {
    CountReadable(raw, w) && (CcCount(raw, w) == 0 || w.pos + 10 + 3 * CcCount(raw, w) <= |raw|)
  }

  /** The cc_count triplets of the window, starting two bytes after the cc_count byte. */
  function WindowTriplets(raw: seq<byte>, w: Window): (ts: seq<CcTriplet>)
    requires TripletsReadable(raw, w)
    ensures |ts| == CcCount(raw, w) < 0x20
  {
    if CcCount(raw, w) == 0 then [] else TripletSeq(raw, w.pos + 10, CcCount(raw, w))
  }

  /**
   * `processCCWindow(raw, window)`: the two field lists, or the `RangeError`
   * a read past the end throws. The window's size is never consulted.
   */
  function CcFields(raw: seq<byte>, w: Window): (r: Result<seq<seq<byte>>>)
    ensures r.Ok? <==> TripletsReadable(raw, w)
    ensures r.Ok? ==> |r.value| == 2
  {
    match U8(raw, w.pos + 8)
    case RangeError => RangeError
    case Ok(_) =>
      if TripletsReadable(raw, w) then
        var ts := WindowTriplets(raw, w);
        Ok([FieldBytes(ts, 0), FieldBytes(ts, 1)])
      else RangeError
  }

  lemma PairsAppend(a: seq<CcTriplet>, b: seq<CcTriplet>)
    ensures Pairs(a + b) == Pairs(a) + Pairs(b)
  {
    if a != [] {
      assert (a + b)[0] == a[0] && (a + b)[1..] == a[1..] + b;
      PairsAppend(a[1..], b);
    } else {
      assert a + b == b;
    }
  }

  lemma EmittingAppend(a: seq<CcTriplet>, b: seq<CcTriplet>, k: nat)
    ensures Emitting(a + b, k) == Emitting(a, k) + Emitting(b, k)
  {
    if a != [] {
      assert (a + b)[0] == a[0] && (a + b)[1..] == a[1..] + b;
      EmittingAppend(a[1..], b, k);
      if Emits(a[0], k) {
        assert Emitting(a + b, k) == [a[0]] + (Emitting(a[1..], k) + Emitting(b, k));
      }
    } else {
      assert a + b == b;
    }
  }

  /** The loop's output for field `k` is the data bytes of exactly the emitting triplets, in order. */
  lemma {:induction false} FieldBytesArePairs(ts: seq<CcTriplet>, k: nat)
    ensures FieldBytes(ts, k) == Pairs(Emitting(ts, k))
    decreases |ts|
  {
    if ts != [] {
      var init := ts[..|ts| - 1];
      var t := ts[|ts| - 1];
      assert ts == init + [t];
      FieldBytesArePairs(init, k);
      EmittingAppend(init, [t], k);
      PairsAppend(Emitting(init, k), Emitting([t], k));
      assert Emitting([t], k) == (if Emits(t, k) then [t] else []) by {
        assert [t][1..] == [];
      }
    }
  }

  /** A triplet is kept for field `k` exactly when it emits to `k`; nothing else is kept. */
  lemma {:induction false} EmittingMembers(ts: seq<CcTriplet>, k: nat)
    ensures forall t :: t in Emitting(ts, k) <==> t in ts && Emits(t, k)
    ensures |Emitting(ts, k)| <= |ts|
    decreases |ts|
  {
    if ts != [] {
      EmittingMembers(ts[1..], k);
      assert ts == [ts[0]] + ts[1..];
    }
  }

  /** The two fields share nothing: together they keep at most one pair per triplet. */
  lemma {:induction false} FieldsDisjoint(ts: seq<CcTriplet>)
    ensures |Emitting(ts, 0)| + |Emitting(ts, 1)| <= |ts|
    decreases |ts|
  {
    if ts != [] {
      FieldsDisjoint(ts[1..]);
    }
  }

  /** Pair `i` of a field's output holds the data bytes of the field's `i`-th emitting triplet. */
  lemma {:induction false} PairsIndex(es: seq<CcTriplet>, i: nat)
    requires i < |es|
    ensures Pairs(es)[2 * i] == es[i].d1 && Pairs(es)[2 * i + 1] == es[i].d2
    decreases i
  {
    if i > 0 {
      PairsIndex(es[1..], i - 1);
    }
  }

  /**
   * Pair emission: field `k` is the unmasked data bytes, in order, of exactly
   * the valid, non-padding triplets of cc_type `k`; the two fields together
   * hold at most one pair per triplet read.
   */
  lemma CcFieldsPairs(raw: seq<byte>, w: Window)
    requires CcFields(raw, w).Ok?
    ensures var ts := WindowTriplets(raw, w);
      var fields := CcFields(raw, w).value;
      && fields[0] == Pairs(Emitting(ts, 0))
      && fields[1] == Pairs(Emitting(ts, 1))
      && |fields[0]| + |fields[1]| <= 2 * CcCount(raw, w)
  {
    var ts := WindowTriplets(raw, w);
    FieldBytesArePairs(ts, 0);
    FieldBytesArePairs(ts, 1);
    FieldsDisjoint(ts);
  }

  /** Field `k` of a window is empty exactly when no triplet read is valid, non-padding and of cc_type `k`. */
  lemma CcFieldsEmpty(raw: seq<byte>, w: Window, k: nat)
    requires CcFields(raw, w).Ok? && k < 2
    ensures var ts := WindowTriplets(raw, w);
      CcFields(raw, w).value[k] == [] <==> forall j :: 0 <= j < |ts| ==> !Emits(ts[j], k)
  {
    var ts := WindowTriplets(raw, w);
    FieldBytesArePairs(ts, k);
    EmittingMembers(ts, k);
    if Emitting(ts, k) != [] {
      assert Emitting(ts, k)[0] in Emitting(ts, k);
    } else {
      forall j | 0 <= j < |ts|
        ensures !Emits(ts[j], k)
      {
        assert ts[j] in ts;
      }
    }
  }

  /** The `for` loop of `processCCWindow`, reading the triplets byte by byte. */
  method ProcessCcWindow(raw: seq<byte>, w: Window) returns (r: Result<seq<seq<byte>>>)
    ensures r == CcFields(raw, w)
  {
    var pos := w.pos;
    var field0: seq<byte> := [];
    var field1: seq<byte> := [];
    pos := pos + 8;
    var countByte := U8(raw, pos);
    if countByte.RangeError? {
      return RangeError;
    }
    var ccCount := countByte.value % 0x20;
    pos := pos + 2;
    for i := 0 to ccCount
      invariant pos == w.pos + 10 + 3 * i
      invariant i > 0 ==> pos <= |raw|
      invariant i > 0 ==> field0 == FieldBytes(TripletSeq(raw, w.pos + 10, i), 0)
      invariant i > 0 ==> field1 == FieldBytes(TripletSeq(raw, w.pos + 10, i), 1)
      invariant i == 0 ==> field0 == [] && field1 == []
    {
      var flags := U8(raw, pos);
      var ccData1 := U8(raw, pos + 1);
      var ccData2 := U8(raw, pos + 2);
      if flags.RangeError? || ccData1.RangeError? || ccData2.RangeError? {
        return RangeError;
      }
      var t := CcTriplet(flags.value, ccData1.value, ccData2.value);
      ghost var ts := TripletSeq(raw, w.pos + 10, i + 1);
      assert ts[..i] == TripletSeq(raw, w.pos + 10, i);
      assert ts[i] == t;
      if CcValid(t) && !IsPadding(t) {
        if CcType(t) == 0 {
          field0 := field0 + [ccData1.value, ccData2.value];
        } else if CcType(t) == 1 {
          field1 := field1 + [ccData1.value, ccData2.value];
        }
      }
      pos := pos + 3;
    }
    r := Ok([field0, field1]);
  }
}
