/**
 * The continuity engine of the embedded CEA-608 path: the `video` branch of
 * `append`, `addEmbeddedTrack` and `resetEmbeddedCc`. Its state is the
 * embedded track list, the timescale captured from the initialization
 * segment, the sequence numbers already processed, the last one, and the
 * field-parser slots. The field parsers are an opaque sink: every `reset`,
 * `addData` and `cueSplitAtTime` made on them is recorded, in order.
 */
module EmbeddedCc {
  import opened Wrappers
  import opened DataView
  import opened FragmentTiming

  /** A media info id: a string such as "CC1", or the unsigned AdaptationSet id a manifest gives. */
  datatype Id = Text(text: string) | Number(number: nat)

  /** The part of a media info the engine reads: its id and its index in the manifest. */
  datatype MediaInfo = MediaInfo(id: Id, index: int)

  /** A `Cea608Parser`: the field number it was built with and the text track its cue handler adds to. */
  datatype FieldParser = FieldParser(field: nat, trackIdx: int)

  /** One call made on the field parser in slot `slot`; times are in seconds. */
  datatype SinkCall =
    | Reset(slot: nat)
    | AddData(slot: nat, time: real, data: seq<byte>)
    | CueSplitAtTime(slot: nat, time: real)

  /** `getTrackIdxForId("CC1")` and `getTrackIdxForId("CC3")`; -1 while that text track does not exist. */
  datatype TrackLookup = TrackLookup(cc1: int, cc3: int)

  /**
   * A video chunk: an initialization segment with the timescale read from
   * its `moov`, or a media segment with its sequence number, its bytes and
   * what the box parser finds in it.
   */
  datatype Chunk =
    | InitializationSegment(moovTimescale: nat)
    | MediaSegment(sequenceNumber: int, raw: seq<byte>, frag: Fragment)

  /** How `append` ended: it returned, or it threw. */
  datatype Outcome = Returned | ThrewRangeError | ThrewTypeError

  /**
   * `embeddedCcTracks`, `embeddedCcTimescale`, `embeddedSegmentNumbers`,
   * `cea608LastSegNr` (None for `null`) and `cea608FieldParsers` (None for
   * an empty slot).
   */
  datatype CcState = CcState(
    tracks: seq<MediaInfo>,
    timescale: nat,
    segmentNumbers: seq<int>,
    lastSegNr: Option<int>,
    parsers: seq<Option<FieldParser>>)

  /** The new state, the calls made on the sink, and how the call ended. */
  datatype Step = Step(state: CcState, calls: seq<SinkCall>, outcome: Outcome)

  /** The two embedded track ids the engine accepts. */
  predicate Supported(id: Id)
  {
    id == Text("CC1") || id == Text("CC3")
  }

  /** Every track in the list is CC1 or CC3. */
  predicate AllSupported(tracks: seq<MediaInfo>)
  {
    forall i :: 0 <= i < |tracks| ==> Supported(tracks[i].id)
  }

  /** What every reachable state satisfies: only CC1/CC3 tracks, and at least the two initial parser slots. */
  predicate ValidState(s: CcState)
  {
    AllSupported(s.tracks) && |s.parsers| >= 2
  }

  /** The state before any track is added, and after `resetEmbeddedCc`. */
  const Initial := CcState([], 0, [], None, [None, None])

  /** `addEmbeddedTrack(mediaInfo)`: only CC1 and CC3 are kept; anything else is only warned about. */
  function AddTrack(s: CcState, info: MediaInfo): (r: CcState)
    ensures ValidState(s) ==> ValidState(r)
  {
    if Supported(info.id) then s.(tracks := s.tracks + [info]) else s
  }

  /** `reset()` on each occupied slot among the first `n`, in slot order. */
  function Resets(ps: seq<Option<FieldParser>>, n: nat): seq<SinkCall>
    requires n <= |ps|
  {
    if n == 0 then [] else Resets(ps, n - 1) + (if ps[n - 1].Some? then [Reset(n - 1)] else [])
  }

  /** `resetEmbeddedCc()`: resets every parser, then restores the initial state. */
  function ResetStep(s: CcState): Step
  {
    Step(Initial, Resets(s.parsers, |s.parsers|), Returned)
  }

  /** The text track index for a supported track id. */
  function TrackIdx(lookup: TrackLookup, id: Id): int
    requires Supported(id)
  {
    if id == Text("CC1") then lookup.cc1 else lookup.cc3
  }

  /** `cea608FieldParsers[i] = p`: a JavaScript array grows to `i + 1` slots, the new ones empty. */
  function SetSlot(ps: seq<Option<FieldParser>>, i: nat, p: FieldParser): (r: seq<Option<FieldParser>>)
    ensures |r| == if i < |ps| then |ps| else i + 1
    ensures r[i] == Some(p)
    ensures forall j :: 0 <= j < |r| && j != i ==> r[j] == if j < |ps| then ps[j] else None
  {
    if i < |ps| then ps[i := Some(p)] else ps + seq(i - |ps|, _ => None) + [Some(p)]
  }

  /** The parser slots after the setup loop has visited `n` tracks, and whether it is still going. */
  datatype Setup = Setup(parsers: seq<Option<FieldParser>>, ready: bool)

  /**
   * The setup loop: track `i` gets a parser in slot `i` (its list position,
   * not its CEA-608 field) whose cues go to its text track; the loop, and
   * `append`, return as soon as a track's text track is missing.
   */
  function SetupAfter(tracks: seq<MediaInfo>, lookup: TrackLookup, ps: seq<Option<FieldParser>>, n: nat): Setup
    requires n <= |tracks| && AllSupported(tracks)
  {
    if n == 0 then Setup(ps, true)
    else
      var s := SetupAfter(tracks, lookup, ps, n - 1);
      var idx := TrackIdx(lookup, tracks[n - 1].id);
      if !s.ready then s
      else if idx == -1 then Setup(s.parsers, false)
      else Setup(SetSlot(s.parsers, n - 1, FieldParser(n - 1, idx)), true)
  }

  /** Setup runs only while both of the first two slots are empty. */
  function SetupStep(s: CcState, lookup: TrackLookup): Setup
    requires ValidState(s)
  {
    if s.parsers[0].None? && s.parsers[1].None? then SetupAfter(s.tracks, lookup, s.parsers, |s.tracks|)
    else Setup(s.parsers, true)
  }

  /** A time in timescale units, in seconds (a JavaScript division). */
  function Seconds(t: int, timescale: nat): real
    requires timescale > 0
  {
    t as real / timescale as real
  }

  /** `addData(time / timescale, data)` for each entry of a field, in list order. */
  function DataCalls(slot: nat, entries: seq<CcEntry>, timescale: nat): (r: seq<SinkCall>)
    requires timescale > 0
    ensures |r| == |entries|
  {
    if entries == [] then []
    else
      var e := entries[|entries| - 1];
      DataCalls(slot, entries[..|entries| - 1], timescale) + [AddData(slot, Seconds(e.time, timescale), e.data)]
  }

  /** What one field parser receives: its data, then one `cueSplitAtTime` unless the end time is 0. */
  function SlotCalls(slot: nat, entries: seq<CcEntry>, endTime: int, timescale: nat): seq<SinkCall>
    requires timescale > 0
  {
    DataCalls(slot, entries, timescale) + (if endTime != 0 then [CueSplitAtTime(slot, Seconds(endTime, timescale))] else [])
  }

  /** The calls of the feed loop over the first `n` slots, and whether it threw. */
  datatype Feed = Feed(calls: seq<SinkCall>, threw: bool)

  /**
   * The feed loop: slot `k`'s parser, when there is one, gets field `k`;
   * a parser in a slot past the two fields meets an undefined field list
   * and throws a `TypeError`.
   */
  function FeedAfter(ps: seq<Option<FieldParser>>, cc: CcData, timescale: nat, n: nat): Feed
    requires n <= |ps| && timescale > 0
  {
    if n == 0 then Feed([], false)
    else
      var f := FeedAfter(ps, cc, timescale, n - 1);
      if f.threw || ps[n - 1].None? then f
      else if n - 1 >= |cc.fields| then Feed(f.calls, true)
      else Feed(f.calls + SlotCalls(n - 1, cc.fields[n - 1], cc.endTime, timescale), false)
  }

  /**
   * A sequence number not seen before, once the parsers are set up: every
   * parser is reset when it does not follow the last one, the fragment's
   * caption data is fed to the parsers, and the number is recorded.
   */
  function NewSegment(s: CcState, sequenceNumber: int, raw: seq<byte>, frag: Fragment): Step
    requires s.timescale > 0
  {
    var resets := if s.lastSegNr.Some? && sequenceNumber != s.lastSegNr.value + 1
      then Resets(s.parsers, |s.parsers|) else [];
    match CcSpec(raw, frag)
    case RangeError => Step(s, resets, ThrewRangeError)
    case Ok(None) => Step(s, resets, ThrewTypeError)
    case Ok(Some(cc)) =>
      var feed := FeedAfter(s.parsers, cc, s.timescale, |s.parsers|);
      if feed.threw then Step(s, resets + feed.calls, ThrewTypeError)
      else Step(s.(lastSegNr := Some(sequenceNumber), segmentNumbers := s.segmentNumbers + [sequenceNumber]),
                resets + feed.calls, Returned)
  }

  /**
   * A media segment: nothing before the timescale is known; then parser
   * setup; then a sequence number not seen before is processed.
   */
  function MediaStep(s: CcState, sequenceNumber: int, raw: seq<byte>, frag: Fragment, lookup: TrackLookup): Step
    requires ValidState(s)
  {
    if s.timescale == 0 then Step(s, [], Returned)
    else
      var setup := SetupStep(s, lookup);
      var s1 := s.(parsers := setup.parsers);
      if !setup.ready || sequenceNumber in s.segmentNumbers then Step(s1, [], Returned)
      else NewSegment(s1, sequenceNumber, raw, frag)
  }

  /** The `video` branch of `append`: the initialization segment sets the timescale only while it is 0. */
  function VideoStep(s: CcState, chunk: Chunk, lookup: TrackLookup): Step
    requires ValidState(s)
  {
    match chunk
    case InitializationSegment(ts) => Step(if s.timescale == 0 then s.(timescale := ts) else s, [], Returned)
    case MediaSegment(n, raw, frag) => MediaStep(s, n, raw, frag, lookup)
  }

  // ---------------------------------------------------------------------
  // Properties of the pieces
  // ---------------------------------------------------------------------

  /** Every track up to and including track `i` has its text track. */
  predicate Reached(tracks: seq<MediaInfo>, lookup: TrackLookup, i: nat)
    requires i < |tracks| && AllSupported(tracks)
  {
    forall j :: 0 <= j <= i ==> TrackIdx(lookup, tracks[j].id) != -1
  }

  /**
   * The setup loop gives track `i` a parser in slot `i` exactly when every
   * track up to `i` has its text track; it finishes exactly when all of them
   * have one; no other slot changes, and the slot list never shrinks.
   */
  lemma {:induction false} SetupSlots(tracks: seq<MediaInfo>, lookup: TrackLookup, ps: seq<Option<FieldParser>>, n: nat)
    requires n <= |tracks| && AllSupported(tracks)
    ensures var s := SetupAfter(tracks, lookup, ps, n);
      && |ps| <= |s.parsers| <= (if n <= |ps| then |ps| else n)
      && (s.ready <==> forall i :: 0 <= i < n ==> TrackIdx(lookup, tracks[i].id) != -1)
      && (forall i :: 0 <= i < n && Reached(tracks, lookup, i) ==>
            i < |s.parsers| && s.parsers[i] == Some(FieldParser(i, TrackIdx(lookup, tracks[i].id))))
      && (forall i :: 0 <= i < |s.parsers| && !(i < n && Reached(tracks, lookup, i)) ==>
            s.parsers[i] == if i < |ps| then ps[i] else None)
    decreases n
  {
    if n > 0 {
      SetupSlots(tracks, lookup, ps, n - 1);
      var prev := SetupAfter(tracks, lookup, ps, n - 1);
      var s := SetupAfter(tracks, lookup, ps, n);
      if prev.ready {
        assert Reached(tracks, lookup, n - 1) <==> TrackIdx(lookup, tracks[n - 1].id) != -1;
      } else {
        assert !Reached(tracks, lookup, n - 1);
      }
    }
  }

  /** Once a track's text track is missing, the setup loop has stopped: later tracks change nothing. */
  lemma {:induction false} SetupAbortSticks(tracks: seq<MediaInfo>, lookup: TrackLookup, ps: seq<Option<FieldParser>>, i: nat, n: nat)
    requires i < n <= |tracks| && AllSupported(tracks)
    requires SetupAfter(tracks, lookup, ps, i).ready && TrackIdx(lookup, tracks[i].id) == -1
    ensures SetupAfter(tracks, lookup, ps, n) == Setup(SetupAfter(tracks, lookup, ps, i).parsers, false)
    decreases n
  {
    if n > i + 1 {
      SetupAbortSticks(tracks, lookup, ps, i, n - 1);
    }
  }

  /** The resets name exactly the occupied slots among the first `n`. */
  lemma {:induction false} ResetsMembers(ps: seq<Option<FieldParser>>, n: nat)
    requires n <= |ps|
    ensures forall c :: c in Resets(ps, n) ==> c.Reset? && c.slot < n && ps[c.slot].Some?
    ensures forall i :: 0 <= i < n && ps[i].Some? ==> Reset(i) in Resets(ps, n)
    decreases n
  {
    if n > 0 {
      ResetsMembers(ps, n - 1);
    }
  }

  /** The slot a call goes to. */
  function Slot(c: SinkCall): nat
  {
    c.slot
  }

  /** Calls in strictly increasing slot order. */
  predicate IncreasingSlots(r: seq<SinkCall>)
  {
    forall j, k :: 0 <= j < k < |r| ==> Slot(r[j]) < Slot(r[k])
  }

  lemma IncreasingSlotsAppend(r: seq<SinkCall>, c: SinkCall)
    requires IncreasingSlots(r) && forall x :: x in r ==> Slot(x) < Slot(c)
    ensures IncreasingSlots(r + [c])
  {
    var r2 := r + [c];
    forall j, k | 0 <= j < k < |r2|
      ensures Slot(r2[j]) < Slot(r2[k])
    {
      assert r2[j] == r[j] && r[j] in r;
    }
  }

  /** The resets come in increasing slot order, so no slot is reset twice. */
  lemma {:induction false} ResetsOrdered(ps: seq<Option<FieldParser>>, n: nat)
    requires n <= |ps|
    ensures IncreasingSlots(Resets(ps, n))
    decreases n
  {
    if n > 0 {
      ResetsOrdered(ps, n - 1);
      var prev := Resets(ps, n - 1);
      if ps[n - 1].Some? {
        ResetsMembers(ps, n - 1);
        IncreasingSlotsAppend(prev, Reset(n - 1));
      }
    }
  }

  /** A gap resets each occupied slot, once and in slot order, and nothing else. */
  lemma ResetsSlots(ps: seq<Option<FieldParser>>, n: nat)
    requires n <= |ps|
    ensures var r := Resets(ps, n);
      && (forall c :: c in r ==> c.Reset? && c.slot < n && ps[c.slot].Some?)
      && IncreasingSlots(r)
      && (forall i :: 0 <= i < n && ps[i].Some? ==> Reset(i) in r)
  {
    ResetsMembers(ps, n);
    ResetsOrdered(ps, n);
  }

  /** `addData` is called once per entry, in list order, at the entry's time in seconds with its bytes. */
  lemma {:induction false} DataCallsIndex(slot: nat, entries: seq<CcEntry>, timescale: nat)
    requires timescale > 0
    ensures var r := DataCalls(slot, entries, timescale);
      forall i :: 0 <= i < |entries| ==> r[i] == AddData(slot, Seconds(entries[i].time, timescale), entries[i].data)
    decreases |entries|
  {
    if entries != [] {
      DataCallsIndex(slot, entries[..|entries| - 1], timescale);
    }
  }

  /**
   * A field parser gets one `addData` per entry of its field, in order, and
   * then exactly one `cueSplitAtTime` at the fragment's end time if that is
   * not 0, and none otherwise; every call goes to that parser.
   */
  lemma SlotCallsShape(slot: nat, entries: seq<CcEntry>, endTime: int, timescale: nat)
    requires timescale > 0
    ensures var r := SlotCalls(slot, entries, endTime, timescale);
      && |r| == |entries| + (if endTime != 0 then 1 else 0)
      && (forall i :: 0 <= i < |entries| ==> r[i] == AddData(slot, Seconds(entries[i].time, timescale), entries[i].data))
      && (endTime != 0 ==> r[|entries|] == CueSplitAtTime(slot, Seconds(endTime, timescale)))
      && (forall c :: c in r ==> !c.Reset? && c.slot == slot)
  {
    DataCallsIndex(slot, entries, timescale);
  }

  /** The time a call carries, in seconds (a reset carries none). */
  function CallTime(c: SinkCall): real
  {
    match c
    case Reset(_) => 0.0
    case AddData(_, t, _) => t
    case CueSplitAtTime(_, t) => t
  }

  /** Entries sorted by time reach their parser with nondecreasing times in seconds. */
  lemma DataCallTimesOrdered(slot: nat, entries: seq<CcEntry>, timescale: nat)
    requires timescale > 0 && Sorted(entries)
    ensures var r := DataCalls(slot, entries, timescale);
      forall i, j :: 0 <= i < j < |r| ==> CallTime(r[i]) <= CallTime(r[j])
  {
    DataCallsIndex(slot, entries, timescale);
    var r := DataCalls(slot, entries, timescale);
    forall i, j | 0 <= i < j < |r|
      ensures CallTime(r[i]) <= CallTime(r[j])
    {
      assert entries[i].time <= entries[j].time;
      SecondsMonotone(entries[i].time, entries[j].time, timescale);
    }
  }

  lemma SecondsMonotone(a: int, b: int, timescale: nat)
    requires timescale > 0 && a <= b
    ensures Seconds(a, timescale) <= Seconds(b, timescale)
  {
    var d := timescale as real;
    assert Seconds(b, timescale) - Seconds(a, timescale) == (b - a) as real / d;
  }

  /**
   * The feed loop throws exactly when some occupied slot has no field of its
   * own, and otherwise only calls `addData` and `cueSplitAtTime` on occupied
   * slots.
   */
  lemma {:induction false} FeedSlots(ps: seq<Option<FieldParser>>, cc: CcData, timescale: nat, n: nat)
    requires n <= |ps| && timescale > 0
    ensures var f := FeedAfter(ps, cc, timescale, n);
      && (f.threw <==> exists k :: |cc.fields| <= k < n && ps[k].Some?)
      && (forall c :: c in f.calls ==> !c.Reset? && c.slot < n && ps[c.slot].Some?)
    decreases n
  {
    if n > 0 {
      FeedSlots(ps, cc, timescale, n - 1);
      var f := FeedAfter(ps, cc, timescale, n - 1);
      if f.threw {
        var k :| |cc.fields| <= k < n - 1 && ps[k].Some?;
        assert k < n;
      } else if ps[n - 1].Some? && n - 1 < |cc.fields| {
        var more := SlotCalls(n - 1, cc.fields[n - 1], cc.endTime, timescale);
        SlotCallsShape(n - 1, cc.fields[n - 1], cc.endTime, timescale);
        assert FeedAfter(ps, cc, timescale, n) == Feed(f.calls + more, false);
        forall c | c in f.calls + more
          ensures !c.Reset? && c.slot < n && ps[c.slot].Some?
        {
          if c in f.calls {
          } else {
            assert c in more;
          }
        }
      }
    }
  }

  /** Once the feed loop has thrown, later slots change nothing. */
  lemma {:induction false} FeedThrowSticks(ps: seq<Option<FieldParser>>, cc: CcData, timescale: nat, i: nat, n: nat)
    requires i <= n <= |ps| && timescale > 0
    requires FeedAfter(ps, cc, timescale, i).threw
    ensures FeedAfter(ps, cc, timescale, n) == FeedAfter(ps, cc, timescale, i)
    decreases n
  {
    if n > i {
      FeedThrowSticks(ps, cc, timescale, i, n - 1);
    }
  }

  // ---------------------------------------------------------------------
  // Properties of a whole `append` and of `resetEmbeddedCc`
  // ---------------------------------------------------------------------

  /** Every step keeps the state valid. */
  lemma StepValid(s: CcState, chunk: Chunk, lookup: TrackLookup)
    requires ValidState(s)
    ensures ValidState(VideoStep(s, chunk, lookup).state)
  {
    if chunk.MediaSegment? && s.timescale != 0 && s.parsers[0].None? && s.parsers[1].None? {
      SetupSlots(s.tracks, lookup, s.parsers, |s.tracks|);
    }
  }

  /**
   * The initialization segment only sets the timescale, and only while it is
   * 0; media segments never change it; before it is set a media segment
   * does nothing at all.
   */
  lemma TimescaleSetOnce(s: CcState, chunk: Chunk, lookup: TrackLookup)
    requires ValidState(s)
    ensures var r := VideoStep(s, chunk, lookup);
      && r.state.timescale == (if chunk.InitializationSegment? && s.timescale == 0 then chunk.moovTimescale else s.timescale)
      && (chunk.InitializationSegment? ==> r.calls == [] && r.state == s.(timescale := r.state.timescale))
      && (chunk.MediaSegment? && s.timescale == 0 ==> r == Step(s, [], Returned))
  {
  }

  /**
   * Sequence-number continuity: on a new segment the parsers are reset, each
   * occupied one exactly once and before any data, precisely when the
   * segment does not follow the last one; no other call is a reset.
   */
  lemma GapResetsBeforeData(s: CcState, n: int, raw: seq<byte>, frag: Fragment, lookup: TrackLookup)
    requires ValidState(s) && s.timescale > 0 && SetupStep(s, lookup).ready && n !in s.segmentNumbers
    ensures var r := MediaStep(s, n, raw, frag, lookup);
      var ps := r.state.parsers;
      var resets := Resets(ps, |ps|);
      if s.lastSegNr.Some? && n != s.lastSegNr.value + 1 then
        && |resets| <= |r.calls| && r.calls[..|resets|] == resets
        && (forall i :: 0 <= i < |ps| && ps[i].Some? ==> Reset(i) in resets)
        && (forall c :: c in resets ==> c.Reset? && c.slot < |ps| && ps[c.slot].Some?)
        && (forall c :: c in r.calls[|resets|..] ==> !c.Reset?)
      else
        forall c :: c in r.calls ==> !c.Reset?
  {
    var r := MediaStep(s, n, raw, frag, lookup);
    var ps := r.state.parsers;
    ResetsSlots(ps, |ps|);
    match CcSpec(raw, frag)
    case RangeError =>
    case Ok(None) =>
    case Ok(Some(cc)) =>
      FeedSlots(ps, cc, s.timescale, |ps|);
      var resets := Resets(ps, |ps|);
      if s.lastSegNr.Some? && n != s.lastSegNr.value + 1 {
        assert r.calls[|resets|..] == FeedAfter(ps, cc, s.timescale, |ps|).calls;
      }
  }

  /**
   * A segment whose sequence number is already recorded makes no call and
   * returns. The setup loop runs before the sequence-number check, so such a
   * segment can still fill the parser slots; once slot 0 or 1 holds a
   * parser it changes nothing at all.
   */
  lemma Redelivery(s: CcState, n: int, raw: seq<byte>, frag: Fragment, lookup: TrackLookup)
    requires ValidState(s) && n in s.segmentNumbers
    ensures var r := MediaStep(s, n, raw, frag, lookup);
      && r.calls == [] && r.outcome == Returned
      && r.state == s.(parsers := if s.timescale == 0 then s.parsers else SetupStep(s, lookup).parsers)
      && (s.parsers[0].Some? || s.parsers[1].Some? ==> r.state == s)
  {
  }

  /**
   * A segment that a step has just recorded is ignored when it comes again
   * straight away, however its bytes differ: no call and no state change,
   * because recording it needed a finished setup.
   */
  lemma ImmediateRepeatIgnored(s: CcState, n: int, raw: seq<byte>, frag: Fragment, lookup: TrackLookup,
                               raw2: seq<byte>, frag2: Fragment, lookup2: TrackLookup)
    requires ValidState(s) && n !in s.segmentNumbers
    requires n in MediaStep(s, n, raw, frag, lookup).state.segmentNumbers
    ensures var s1 := MediaStep(s, n, raw, frag, lookup).state;
      ValidState(s1) && MediaStep(s1, n, raw2, frag2, lookup2) == Step(s1, [], Returned)
  {
    var s1 := MediaStep(s, n, raw, frag, lookup).state;
    StepValid(s, MediaSegment(n, raw, frag), lookup);
    if s.parsers[0].None? && s.parsers[1].None? {
      SetupSlots(s.tracks, lookup, s.parsers, |s.tracks|);
      if |s.tracks| > 0 {
        assert Reached(s.tracks, lookup, 0);
      }
    }
    assert s1.tracks == s.tracks;
    if s1.parsers[0].None? && s1.parsers[1].None? {
      assert |s1.tracks| == 0;
      assert SetupStep(s1, lookup2) == Setup(s1.parsers, true);
    }
  }

  /**
   * A re-delivered segment can install a parser: segment 5 is recorded while
   * there is no embedded track, CC1 is added, and segment 5 arriving again
   * sets up CC1's parser in slot 0 although it makes no call.
   */
  lemma RedeliveryCanSetUp()
    ensures var none := TrackLookup(-1, -1);
      var seg := MediaSegment(5, [], Fragment(0, 0, [Trun(0, [])]));
      var s0 := VideoStep(Initial, InitializationSegment(90000), none).state;
      ValidState(s0) && var s1 := VideoStep(s0, seg, none).state;
      ValidState(s1) && var s2 := AddTrack(s1, MediaInfo(Text("CC1"), 0));
      && s2 == CcState([MediaInfo(Text("CC1"), 0)], 90000, [5], Some(5), [None, None])
      && var r := VideoStep(s2, seg, TrackLookup(0, -1));
         r == Step(s2.(parsers := [Some(FieldParser(0, 0)), None]), [], Returned)
  {
    var none := TrackLookup(-1, -1);
    var frag := Fragment(0, 0, [Trun(0, [])]);
    var s0 := CcState([], 90000, [], None, [None, None]);
    assert VideoStep(Initial, InitializationSegment(90000), none).state == s0;
    assert CcSpec([], frag) == Ok(Some(CcData(0, 0, [[], []])));
    var cc := CcData(0, 0, [[], []]);
    assert FeedAfter([None, None], cc, 90000, 2) == Feed([], false) by {
      assert FeedAfter([None, None], cc, 90000, 1) == Feed([], false);
    }
    var s1 := CcState([], 90000, [5], Some(5), [None, None]);
    assert VideoStep(s0, MediaSegment(5, [], frag), none).state == s1;
    var s2 := CcState([MediaInfo(Text("CC1"), 0)], 90000, [5], Some(5), [None, None]);
    assert SetupAfter(s2.tracks, TrackLookup(0, -1), s2.parsers, 1) == Setup([Some(FieldParser(0, 0)), None], true);
  }

  /**
   * `resetEmbeddedCc` resets each occupied parser once, in slot order, and
   * returns to the initial state, in which media segments do nothing until
   * an initialization segment brings a timescale.
   */
  lemma ResetRestoresInitial(s: CcState, n: int, raw: seq<byte>, frag: Fragment, lookup: TrackLookup)
    ensures var r := ResetStep(s);
      && r.state == Initial && ValidState(Initial)
      && (forall i :: 0 <= i < |s.parsers| && s.parsers[i].Some? ==> Reset(i) in r.calls)
      && (forall c :: c in r.calls ==> c.Reset? && c.slot < |s.parsers| && s.parsers[c.slot].Some?)
      && IncreasingSlots(r.calls)
      && MediaStep(Initial, n, raw, frag, lookup) == Step(Initial, [], Returned)
  {
    ResetsSlots(s.parsers, |s.parsers|);
    assert ResetStep(s).calls == Resets(s.parsers, |s.parsers|);
  }

  /**
   * Slot index is list position: a stream whose only embedded track is CC3
   * gets its parser in slot 0, so the CC3 text track is fed field 0 (the
   * CC1 data) and field 1 is never read.
   */
  lemma Cc3OnlyTrackGetsField0(s: CcState, n: int, raw: seq<byte>, frag: Fragment, lookup: TrackLookup)
    requires ValidState(s) && s.timescale > 0 && s.parsers == [None, None]
    requires |s.tracks| == 1 && s.tracks[0].id == Text("CC3") && lookup.cc3 != -1
    requires n !in s.segmentNumbers && (s.lastSegNr.None? || n == s.lastSegNr.value + 1)
    requires CcSpec(raw, frag).Ok? && CcSpec(raw, frag).value.Some?
    ensures var r := MediaStep(s, n, raw, frag, lookup);
      var cc := CcSpec(raw, frag).value.value;
      && r.state.parsers == [Some(FieldParser(0, lookup.cc3)), None]
      && |cc.fields| == 2
      && r.calls == SlotCalls(0, cc.fields[0], cc.endTime, s.timescale)
      && r.outcome == Returned
  {
    SetupSlots(s.tracks, lookup, s.parsers, 1);
    assert Reached(s.tracks, lookup, 0);
    var ps := [Some(FieldParser(0, lookup.cc3)), None];
    assert SetupStep(s, lookup) == Setup(ps, true);
    CcEntriesFromSamples(raw, frag);
    var cc := CcSpec(raw, frag).value.value;
    var f1 := FeedAfter(ps, cc, s.timescale, 1);
    assert f1.calls == SlotCalls(0, cc.fields[0], cc.endTime, s.timescale) && !f1.threw by {
      assert FeedAfter(ps, cc, s.timescale, 0).calls == [];
    }
    assert FeedAfter(ps, cc, s.timescale, 2) == f1;
  }

  /**
   * Once either of the first two slots holds a parser, setup never runs
   * again: the slots stay as they are and only occupied slots get calls.
   */
  lemma SetUpParsersStay(s: CcState, n: int, raw: seq<byte>, frag: Fragment, lookup: TrackLookup)
    requires ValidState(s) && (s.parsers[0].Some? || s.parsers[1].Some?)
    ensures var r := MediaStep(s, n, raw, frag, lookup);
      && r.state.parsers == s.parsers
      && forall c :: c in r.calls ==> c.slot < |s.parsers| && s.parsers[c.slot].Some?
  {
    if s.timescale > 0 && n !in s.segmentNumbers {
      ResetsMembers(s.parsers, |s.parsers|);
      match CcSpec(raw, frag)
      case RangeError =>
      case Ok(None) =>
      case Ok(Some(cc)) =>
        FeedSlots(s.parsers, cc, s.timescale, |s.parsers|);
    }
  }

  /**
   * A CC1 parser set up while the CC3 text track is still missing stops the
   * setup for good: later segments skip setup, so CC3 never gets a parser
   * and no call ever reaches slot 1, whatever the track lookup says then.
   */
  lemma LateCc3TrackNeverFed(s: CcState, n: int, raw: seq<byte>, frag: Fragment, lookup: TrackLookup,
                             n2: int, raw2: seq<byte>, frag2: Fragment, lookup2: TrackLookup)
    requires ValidState(s) && s.timescale > 0 && s.parsers == [None, None]
    requires |s.tracks| == 2 && s.tracks[0].id == Text("CC1") && s.tracks[1].id == Text("CC3")
    requires lookup.cc1 != -1 && lookup.cc3 == -1
    ensures var r := MediaStep(s, n, raw, frag, lookup);
      && r == Step(s.(parsers := [Some(FieldParser(0, lookup.cc1)), None]), [], Returned)
      && var r2 := MediaStep(r.state, n2, raw2, frag2, lookup2);
         r2.state.parsers == r.state.parsers && forall c :: c in r2.calls ==> c.slot == 0
  {
    SetupSlots(s.tracks, lookup, s.parsers, 2);
    assert Reached(s.tracks, lookup, 0) && !Reached(s.tracks, lookup, 1);
    var ps := [Some(FieldParser(0, lookup.cc1)), None];
    assert SetupStep(s, lookup) == Setup(ps, false);
    SetUpParsersStay(s.(parsers := ps), n2, raw2, frag2, lookup2);
  }

  /**
   * With both fields' entries sorted (which `checkCC` guarantees when sample
   * times do not decrease), each parser is fed `addData` in nondecreasing
   * time.
   */
  lemma FedInTimeOrder(raw: seq<byte>, frag: Fragment, timescale: nat, k: nat)
    requires timescale > 0 && k < 2
    requires CcSpec(raw, frag).Ok? && CcSpec(raw, frag).value.Some? && TimesNondecreasing(frag)
    ensures var cc := CcSpec(raw, frag).value.value;
      && |cc.fields| == 2
      && var d := DataCalls(k, cc.fields[k], timescale);
         forall i, j :: 0 <= i < j < |d| ==> CallTime(d[i]) <= CallTime(d[j])
  {
    CcFieldsSortedWhenMonotone(raw, frag);
    var fields := CcSpec(raw, frag).value.value.fields;
    assert Sorted(fields[k]) by {
      if k == 0 {
        assert Sorted(fields[0]);
      } else {
        assert Sorted(fields[1]);
      }
    }
    DataCallTimesOrdered(k, fields[k], timescale);
  }

  // ---------------------------------------------------------------------
  // The state held by the text source buffer
  // ---------------------------------------------------------------------

  /**
   * The embedded-caption state of a text source buffer, updated in place,
   * with a log of every call made on its field parsers.
   */
  class EmbeddedCcBuffer {
    var embeddedCcTracks: seq<MediaInfo>
    var embeddedCcTimescale: nat
    var embeddedSegmentNumbers: seq<int>
    var cea608LastSegNr: Option<int>
    var cea608FieldParsers: seq<Option<FieldParser>>
    /** Every `reset`, `addData` and `cueSplitAtTime` made so far, in order. */
    var calls: seq<SinkCall>

    function State(): CcState
      reads this
    {
      CcState(embeddedCcTracks, embeddedCcTimescale, embeddedSegmentNumbers, cea608LastSegNr, cea608FieldParsers)
    }

    predicate Valid()
      reads this
    {
      ValidState(State())
    }

    constructor()
      ensures Valid() && State() == Initial && calls == []
    {
      embeddedCcTracks := [];
      embeddedCcTimescale := 0;
      embeddedSegmentNumbers := [];
      cea608LastSegNr := None;
      cea608FieldParsers := [None, None];
      calls := [];
    }

    /** `addEmbeddedTrack(mediaInfo)`. */
    method AddEmbeddedTrack(info: MediaInfo)
      requires Valid()
      modifies this
      ensures Valid() && State() == AddTrack(old(State()), info) && calls == old(calls)
    {
      if info.id == Text("CC1") || info.id == Text("CC3") {
        embeddedCcTracks := embeddedCcTracks + [info];
      }
    }

    /** The loop that calls `reset()` on every occupied slot. */
    method ResetParsers()
      modifies this
      ensures State() == old(State()) && calls == old(calls) + Resets(cea608FieldParsers, |cea608FieldParsers|)
    {
      for i := 0 to |cea608FieldParsers|
        invariant State() == old(State())
        invariant calls == old(calls) + Resets(cea608FieldParsers, i)
      {
        if cea608FieldParsers[i].Some? {
          calls := calls + [Reset(i)];
        }
      }
    }

    /** `resetEmbeddedCc()`. */
    method ResetEmbeddedCc()
      modifies this
      ensures Valid()
      ensures var r := ResetStep(old(State())); State() == r.state && calls == old(calls) + r.calls
    {
      ResetParsers();
      cea608FieldParsers := [None, None];
      embeddedCcTracks := [];
      embeddedCcTimescale := 0;
      embeddedSegmentNumbers := [];
      cea608LastSegNr := None;
    }

    /** The setup loop of `append`: one field parser per embedded track, in slot `i` for track `i`. */
    method SetupFieldParsers(lookup: TrackLookup) returns (ready: bool)
      requires Valid()
      modifies this
      ensures Valid() && calls == old(calls)
      ensures var setup := SetupAfter(old(embeddedCcTracks), lookup, old(cea608FieldParsers), |old(embeddedCcTracks)|);
        State() == old(State()).(parsers := setup.parsers) && ready == setup.ready
    {
      ghost var ps0 := cea608FieldParsers;
      var i := 0;
      while i < |embeddedCcTracks|
        invariant 0 <= i <= |embeddedCcTracks|
        invariant Valid() && calls == old(calls)
        invariant State() == old(State()).(parsers := cea608FieldParsers)
        invariant SetupAfter(embeddedCcTracks, lookup, ps0, i) == Setup(cea608FieldParsers, true)
      {
        var trackIdx;
        if embeddedCcTracks[i].id == Text("CC1") {
          trackIdx := lookup.cc1;
        } else {
          // the only other id a track in the list can have is CC3
          trackIdx := lookup.cc3;
        }
        if trackIdx == -1 {
          SetupAbortSticks(embeddedCcTracks, lookup, ps0, i, |embeddedCcTracks|);
          return false;
        }
        cea608FieldParsers := SetSlot(cea608FieldParsers, i, FieldParser(i, trackIdx));
        i := i + 1;
      }
      ready := true;
    }

    /** The loop that hands each field to the parser in the slot of the same number. */
    method FeedFields(cc: CcData) returns (threw: bool)
      requires embeddedCcTimescale > 0
      modifies this
      ensures State() == old(State())
      ensures var f := FeedAfter(cea608FieldParsers, cc, embeddedCcTimescale, |cea608FieldParsers|);
        calls == old(calls) + f.calls && threw == f.threw
    {
      var fieldNr := 0;
      while fieldNr < |cea608FieldParsers|
        invariant 0 <= fieldNr <= |cea608FieldParsers|
        invariant State() == old(State())
        invariant var f := FeedAfter(cea608FieldParsers, cc, embeddedCcTimescale, fieldNr);
          calls == old(calls) + f.calls && !f.threw
      {
        if cea608FieldParsers[fieldNr].Some? {
          if fieldNr >= |cc.fields| {
            // `allCcData.fields[fieldNr]` is undefined: reading its length throws
            FeedThrowSticks(cea608FieldParsers, cc, embeddedCcTimescale, fieldNr + 1, |cea608FieldParsers|);
            return true;
          }
          var ccData := cc.fields[fieldNr];
          ghost var before := calls;
          for i := 0 to |ccData|
            invariant State() == old(State())
            invariant calls == before + DataCalls(fieldNr, ccData[..i], embeddedCcTimescale)
          {
            assert ccData[..i + 1][..i] == ccData[..i];
            calls := calls + [AddData(fieldNr, Seconds(ccData[i].time, embeddedCcTimescale), ccData[i].data)];
          }
          assert ccData[..|ccData|] == ccData;
          if cc.endTime != 0 {
            calls := calls + [CueSplitAtTime(fieldNr, Seconds(cc.endTime, embeddedCcTimescale))];
          }
        }
        fieldNr := fieldNr + 1;
      }
      threw := false;
    }

    /** The `video` branch of `append(bytes, chunk)`. */
    method Append(chunk: Chunk, lookup: TrackLookup) returns (outcome: Outcome)
      requires Valid()
      modifies this
      ensures Valid()
      ensures var r := VideoStep(old(State()), chunk, lookup);
        State() == r.state && calls == old(calls) + r.calls && outcome == r.outcome
    {
      outcome := Returned;
      match chunk
      case InitializationSegment(moovTimescale) =>
        if embeddedCcTimescale == 0 {
          embeddedCcTimescale := moovTimescale;
        }
      case MediaSegment(sequenceNumber, raw, frag) =>
        outcome := AppendMediaSegment(sequenceNumber, raw, frag, lookup);
    }

    /** `append` for a media segment of the video stream. */
    method AppendMediaSegment(sequenceNumber: int, raw: seq<byte>, frag: Fragment, lookup: TrackLookup) returns (outcome: Outcome)
      requires Valid()
      modifies this
      ensures Valid()
      ensures var r := MediaStep(old(State()), sequenceNumber, raw, frag, lookup);
        State() == r.state && calls == old(calls) + r.calls && outcome == r.outcome
    {
      outcome := Returned;
      if embeddedCcTimescale == 0 {
        return;
      }
      if cea608FieldParsers[0].None? && cea608FieldParsers[1].None? {
        var ready := SetupFieldParsers(lookup);
        if !ready {
          return;
        }
      }
      if sequenceNumber !in embeddedSegmentNumbers {
        outcome := ProcessNewSegment(sequenceNumber, raw, frag);
      }
    }

    /** The part of `append` that runs for a sequence number not seen before. */
    method ProcessNewSegment(sequenceNumber: int, raw: seq<byte>, frag: Fragment) returns (outcome: Outcome)
      requires embeddedCcTimescale > 0
      modifies this
      ensures var r := NewSegment(old(State()), sequenceNumber, raw, frag);
        State() == r.state && calls == old(calls) + r.calls && outcome == r.outcome
    {
      if cea608LastSegNr.Some? && sequenceNumber != cea608LastSegNr.value + 1 {
        ResetParsers();
      }
      var allCcData := CheckCc(raw, frag);
      match allCcData
      case RangeError =>
        outcome := ThrewRangeError;
      case Ok(None) =>
        // `allCcData.fields` of `null`
        outcome := ThrewTypeError;
      case Ok(Some(cc)) =>
        var threw := FeedFields(cc);
        if threw {
          outcome := ThrewTypeError;
        } else {
          outcome := Returned;
          cea608LastSegNr := Some(sequenceNumber);
          embeddedSegmentNumbers := embeddedSegmentNumbers + [sequenceNumber];
        }
    }
  }
}
