/**
 * The NAL/SEI scanner of `checkNalus`: it walks one sample as 4-byte
 * length-prefixed NAL units (the AVC sample format of ISO/IEC 14496-15),
 * looks inside units of type 6 (SEI, Table 7-1 of ITU-T H.264), decodes the
 * payloadType and payloadSize of each SEI message with the ff_byte coding of
 * section 7.3.2.3.1 of ITU-T H.264, and keeps `[pos, payloadSize]` of each
 * user_data_registered_itu_t_t35 payload that carries the ATSC "GA94"
 * caption signature (ANSI/SCTE 128).
 */
module NalScanner {
  import opened DataView

  /** `[pos, payloadSize]`: where a caption payload's body starts and its declared size. */
  datatype Window = Window(pos: int, size: nat)

  /** A value in the ff_byte coding and the number of bytes it occupies. */
  datatype Coded = Coded(value: nat, length: nat)

  /** An SEI message header: payloadType, payloadSize and the position of the payload body. */
  datatype SeiMessage = SeiMessage(payloadType: nat, payloadSize: nat, body: int)

  /** One step of the outer walk: where the unit's length field is, its length and its nal_unit_type. */
  datatype NalUnit = NalUnit(start: int, size: nat, nalType: nat)

  /** itu_t_t35_country_code 0xB5, provider code 0x0031, user identifier "GA94", user_data_type_code 3. */
  const Ga94Header: seq<byte> := [0xB5, 0x00, 0x31, 0x47, 0x41, 0x39, 0x34, 0x03]

  const SeiNalType := 6
  const UserDataRegisteredT35 := 4

  /** The eight bytes at `pos` are the caption signature, byte for byte. */
  predicate Signature(raw: seq<byte>, pos: int)
  {
    0 <= pos && pos + 8 <= |raw| && raw[pos..pos + 8] == Ga94Header
  }

  /**
   * ff_byte decoding at `pos`: the sum of the bytes read, reading on while a
   * byte is 0xFF. Fails when every byte from `pos` to the end is 0xFF.
   */
  function FfCoded(raw: seq<byte>, pos: int): (r: Result<Coded>)
    ensures r.Ok? ==> 0 <= pos && 1 <= r.value.length && pos + r.value.length <= |raw|
    decreases |raw| - pos
  {
    if pos < 0 || pos >= |raw| then RangeError
    else if raw[pos] == 0xFF then
      match FfCoded(raw, pos + 1)
      case Ok(c) => Ok(Coded(0xFF + c.value, c.length + 1))
      case RangeError => RangeError
    else Ok(Coded(raw[pos], 1))
  }

  /**
   * The decoded value is the sum of the bytes read: every byte but the last
   * is 0xFF, the last is not, and the decoding fails exactly when no byte
   * other than 0xFF follows `pos`.
   */
  lemma {:induction false} FfCodedSum(raw: seq<byte>, pos: int)
    ensures var r := FfCoded(raw, pos);
      && (r.Ok? ==>
        && (forall j :: pos <= j < pos + r.value.length - 1 ==> raw[j] == 0xFF)
        && raw[pos + r.value.length - 1] != 0xFF
        && r.value.value == 0xFF * (r.value.length - 1) + raw[pos + r.value.length - 1])
      && (r.RangeError? <==> (pos < 0 || forall j :: pos <= j < |raw| ==> raw[j] == 0xFF))
    decreases |raw| - pos
  {
    if 0 <= pos < |raw| && raw[pos] == 0xFF {
      FfCodedSum(raw, pos + 1);
    }
  }

  /** The ff_byte encoding of `v`: one 0xFF per full 255, then the remainder. */
  function FfEncode(v: nat): seq<byte>
    decreases v
  {
    if v < 0xFF then [v] else [0xFF] + FfEncode(v - 0xFF)
  }

  /** Decoding an encoded value gives the value back and consumes exactly its encoding. */
  lemma {:induction false} FfRoundTrip(prefix: seq<byte>, v: nat, rest: seq<byte>)
    ensures FfCoded(prefix + FfEncode(v) + rest, |prefix|) == Ok(Coded(v, |FfEncode(v)|))
    decreases v
  {
    if v >= 0xFF {
      FfRoundTrip(prefix + [0xFF], v - 0xFF, rest);
      assert prefix + FfEncode(v) + rest == (prefix + [0xFF]) + FfEncode(v - 0xFF) + rest;
    }
  }

  /** `FF FF 05` decodes to 255 + 255 + 5 = 515 and consumes three bytes. */
  lemma FfExample()
    ensures FfCoded([0xFF, 0xFF, 0x05], 0) == Ok(Coded(515, 3))
  {
    FfRoundTrip([], 515, []);
    assert FfEncode(515) == [0xFF, 0xFF, 0x05];
    assert [] + FfEncode(515) + [] == [0xFF, 0xFF, 0x05];
  }

  /**
   * `isCEA608SEI`: false unless payloadType is 4 and payloadSize at least 8;
   * otherwise the four header fields at `pos` are read (a read past the end
   * throws) and compared with the signature.
   */
  function IsCea608Sei(payloadType: nat, payloadSize: nat, raw: seq<byte>, pos: int): (r: Result<bool>)
    ensures r == Ok(true) <==> payloadType == UserDataRegisteredT35 && payloadSize >= 8 && Signature(raw, pos)
    ensures r.RangeError? <==> payloadType == UserDataRegisteredT35 && payloadSize >= 8 && !(0 <= pos && pos + 8 <= |raw|)
  {
    if payloadType != UserDataRegisteredT35 || payloadSize < 8 then Ok(false)
    else
      var countryCode := U8(raw, pos);
      var providerCode := U16(raw, pos + 1);
      var userIdentifier := U32(raw, pos + 3);
      var userDataTypeCode := U8(raw, pos + 7);
      if countryCode.RangeError? || providerCode.RangeError? || userIdentifier.RangeError? || userDataTypeCode.RangeError?
      then RangeError
      else
        assert raw[pos..pos + 8] == [raw[pos], raw[pos + 1], raw[pos + 2], raw[pos + 3], raw[pos + 4], raw[pos + 5], raw[pos + 6], raw[pos + 7]];
        Ok(countryCode.value == 0xB5 && providerCode.value == 0x31
           && userIdentifier.value == 0x47413934 && userDataTypeCode.value == 3)
  }

  /** The header of the SEI message at `pos`: its payloadType, its payloadSize and where its body starts. */
  function SeiMessageAt(raw: seq<byte>, pos: int): (r: Result<SeiMessage>)
    ensures r.Ok? ==> pos + 2 <= r.value.body
  {
    match FfCoded(raw, pos)
    case RangeError => RangeError
    case Ok(payloadType) =>
      match FfCoded(raw, pos + payloadType.length)
      case RangeError => RangeError
      case Ok(payloadSize) => Ok(SeiMessage(payloadType.value, payloadSize.value, pos + payloadType.length + payloadSize.length))
  }

  /**
   * The inner scan of one SEI unit: SEI messages are decoded from `pos` while
   * `pos` is before `limit` (the unit's trailing-bits byte); after each
   * message `pos` advances past its body of payloadSize bytes.
   */
  function SeiWindows(raw: seq<byte>, pos: int, limit: int): Result<seq<Window>>
    decreases limit - pos
  {
    if pos >= limit then Ok([])
    else match SeiMessageAt(raw, pos)
      case RangeError => RangeError
      case Ok(m) =>
        match IsCea608Sei(m.payloadType, m.payloadSize, raw, m.body)
        case RangeError => RangeError
        case Ok(isCc) =>
          Prepend(if isCc then [Window(m.body, m.payloadSize)] else [], SeiWindows(raw, m.body + m.payloadSize, limit))
  }

  /**
   * The outer walk of `checkNalus` from `cursor` until it reaches `end`:
   * read the unit's 4-byte length and its header byte, scan the unit when its
   * type is 6, and step over `nalSize + 4` bytes.
   */
  function NalWindows(raw: seq<byte>, cursor: int, end: int): Result<seq<Window>>
    decreases end - cursor
  {
    if cursor >= end then Ok([])
    else match U32(raw, cursor)
      case RangeError => RangeError
      case Ok(nalSize) =>
        match U8(raw, cursor + 4)
        case RangeError => RangeError
        case Ok(header) =>
          var here := if header % 0x20 == SeiNalType then SeiWindows(raw, cursor + 5, cursor + 4 + nalSize - 1) else Ok([]);
          match here
          case RangeError => RangeError
          case Ok(ws) => Prepend(ws, NalWindows(raw, cursor + nalSize + 4, end))
  }

  /**
   * Window filter: a window is recorded only for a payload of type 4 and size
   * at least 8 whose body starts with the caption signature; each lies past
   * its payload's two header bytes.
   */
  lemma {:induction false} SeiWindowsSigned(raw: seq<byte>, pos: int, limit: int)
    requires SeiWindows(raw, pos, limit).Ok?
    ensures forall w :: w in SeiWindows(raw, pos, limit).value ==> Signature(raw, w.pos) && w.size >= 8 && pos + 2 <= w.pos
    decreases limit - pos
  {
    if pos < limit {
      var m := SeiMessageAt(raw, pos).value;
      var isCc := IsCea608Sei(m.payloadType, m.payloadSize, raw, m.body).value;
      var here := if isCc then [Window(m.body, m.payloadSize)] else [];
      var rest := SeiWindows(raw, m.body + m.payloadSize, limit);
      SeiWindowsSigned(raw, m.body + m.payloadSize, limit);
      assert SeiWindows(raw, pos, limit).value == here + rest.value;
    }
  }

  /** Every window of a whole sample passes the filter. */
  lemma {:induction false} NalWindowsSigned(raw: seq<byte>, cursor: int, end: int)
    requires NalWindows(raw, cursor, end).Ok?
    ensures forall w :: w in NalWindows(raw, cursor, end).value ==> Signature(raw, w.pos) && w.size >= 8
    decreases end - cursor
  {
    if cursor < end {
      var nalSize := U32(raw, cursor).value;
      NalWindowsSigned(raw, cursor + nalSize + 4, end);
      if raw[cursor + 4] % 0x20 == SeiNalType {
        SeiWindowsSigned(raw, cursor + 5, cursor + 4 + nalSize - 1);
      }
    }
  }

  /** The units the outer walk visits, without looking inside them. */
  function NalUnits(raw: seq<byte>, cursor: int, end: int): Result<seq<NalUnit>>
    decreases end - cursor
  {
    if cursor >= end then Ok([])
    else match U32(raw, cursor)
      case RangeError => RangeError
      case Ok(nalSize) =>
        match U8(raw, cursor + 4)
        case RangeError => RangeError
        case Ok(header) => Prepend([NalUnit(cursor, nalSize, header % 0x20)], NalUnits(raw, cursor + nalSize + 4, end))
  }

  /**
   * The outer walk starts at `cursor`, advances by exactly `nalSize + 4` per
   * unit, visits only units that start before `end`, and stops at the first
   * unit boundary at or past `end`.
   */
  lemma {:induction false} NalWalk(raw: seq<byte>, cursor: int, end: int)
    requires NalUnits(raw, cursor, end).Ok?
    ensures var us := NalUnits(raw, cursor, end).value;
      && (us == [] <==> cursor >= end)
      && (forall i :: 0 <= i < |us| ==> cursor <= us[i].start < end && us[i].nalType < 0x20)
      && (us != [] ==> us[0].start == cursor)
      && (us != [] ==> end <= us[|us| - 1].start + us[|us| - 1].size + 4)
      && (forall i :: 0 <= i < |us| - 1 ==> us[i + 1].start == us[i].start + us[i].size + 4)
    decreases end - cursor
  {
    if cursor < end {
      var nalSize := U32(raw, cursor).value;
      var next := cursor + nalSize + 4;
      NalWalk(raw, next, end);
      var rest := NalUnits(raw, next, end).value;
      var us := NalUnits(raw, cursor, end).value;
      assert us == [NalUnit(cursor, nalSize, raw[cursor + 4] % 0x20)] + rest;
      forall i | 0 <= i < |us| - 1
        ensures us[i + 1].start == us[i].start + us[i].size + 4
      {
        if i > 0 {
          assert us[i] == rest[i - 1] && us[i + 1] == rest[i];
        }
      }
    }
  }

  /** A walk that finds no unit of type 6 records no window. */
  lemma {:induction false} NoSeiNoWindows(raw: seq<byte>, cursor: int, end: int)
    requires NalUnits(raw, cursor, end).Ok?
    requires forall u :: u in NalUnits(raw, cursor, end).value ==> u.nalType != SeiNalType
    ensures NalWindows(raw, cursor, end) == Ok([])
    decreases end - cursor
  {
    if cursor < end {
      var nalSize := U32(raw, cursor).value;
      var next := cursor + nalSize + 4;
      var units := NalUnits(raw, cursor, end).value;
      assert units == [NalUnit(cursor, nalSize, raw[cursor + 4] % 0x20)] + NalUnits(raw, next, end).value;
      assert units[0] in units;
      forall u | u in NalUnits(raw, next, end).value
        ensures u.nalType != SeiNalType
      {
        assert u in units;
      }
      NoSeiNoWindows(raw, next, end);
      var none: seq<Window> := [];
      assert none + none == none;
    }
  }

  /** Every recorded window lies inside a unit of type 6 that the walk visits, past its length field and header. */
  lemma {:induction false} WindowsComeFromSeiUnits(raw: seq<byte>, cursor: int, end: int)
    requires NalWindows(raw, cursor, end).Ok?
    ensures NalUnits(raw, cursor, end).Ok?
    ensures forall w :: w in NalWindows(raw, cursor, end).value ==>
      exists u :: u in NalUnits(raw, cursor, end).value && u.nalType == SeiNalType && u.start + 7 <= w.pos
    decreases end - cursor
  {
    if cursor < end {
      var nalSize := U32(raw, cursor).value;
      var next := cursor + nalSize + 4;
      WindowsComeFromSeiUnits(raw, next, end);
      var units := NalUnits(raw, cursor, end).value;
      var head := NalUnit(cursor, nalSize, raw[cursor + 4] % 0x20);
      assert units == [head] + NalUnits(raw, next, end).value;
      forall w | w in NalWindows(raw, cursor, end).value
        ensures exists u :: u in units && u.nalType == SeiNalType && u.start + 7 <= w.pos
      {
        if head.nalType == SeiNalType {
          var ws := SeiWindows(raw, cursor + 5, cursor + 4 + nalSize - 1).value;
          SeiWindowsSigned(raw, cursor + 5, cursor + 4 + nalSize - 1);
          if w in ws {
            assert head in units;
          } else {
            assert w in NalWindows(raw, next, end).value;
          }
        } else {
          assert w in NalWindows(raw, next, end).value;
        }
      }
    }
  }

  /** An SEI message the inner scan decodes, with the position of its header. */
  datatype SeiAt = SeiAt(start: int, message: SeiMessage)

  /** The SEI messages the inner scan decodes, without testing them. */
  function SeiMessages(raw: seq<byte>, pos: int, limit: int): Result<seq<SeiAt>>
    decreases limit - pos
  {
    if pos >= limit then Ok([])
    else match SeiMessageAt(raw, pos)
      case RangeError => RangeError
      case Ok(m) => Prepend([SeiAt(pos, m)], SeiMessages(raw, m.body + m.payloadSize, limit))
  }

  /** What `isCEA608SEI` accepts: payloadType 4, payloadSize at least 8 and the signature at the body. */
  predicate CaptionMessage(raw: seq<byte>, m: SeiMessage)
  {
    m.payloadType == UserDataRegisteredT35 && m.payloadSize >= 8 && Signature(raw, m.body)
  }

  /** `[body, payloadSize]` of each accepted message, in order. */
  function CaptionWindows(raw: seq<byte>, ms: seq<SeiAt>): seq<Window>
  {
    if ms == [] then []
    else
      (if CaptionMessage(raw, ms[0].message) then [Window(ms[0].message.body, ms[0].message.payloadSize)] else [])
      + CaptionWindows(raw, ms[1..])
  }

  lemma {:induction false} CaptionWindowsAppend(raw: seq<byte>, a: seq<SeiAt>, b: seq<SeiAt>)
    ensures CaptionWindows(raw, a + b) == CaptionWindows(raw, a) + CaptionWindows(raw, b)
    decreases |a|
  {
    if a != [] {
      assert (a + b)[0] == a[0] && (a + b)[1..] == a[1..] + b;
      CaptionWindowsAppend(raw, a[1..], b);
    } else {
      assert a + b == b;
    }
  }

  /** A window is recorded exactly for each accepted message. */
  lemma {:induction false} CaptionWindowsMembers(raw: seq<byte>, ms: seq<SeiAt>)
    ensures forall w :: w in CaptionWindows(raw, ms) <==>
      exists a :: a in ms && CaptionMessage(raw, a.message) && w == Window(a.message.body, a.message.payloadSize)
    decreases |ms|
  {
    if ms != [] {
      CaptionWindowsMembers(raw, ms[1..]);
      assert ms == [ms[0]] + ms[1..];
      forall a | a in ms
        ensures a == ms[0] || a in ms[1..]
      {
      }
    }
  }

  /**
   * The inner scan decodes its messages one after the other: the first at
   * `pos`, each next one right after the previous body, all of them
   * starting before `limit`.
   */
  lemma {:induction false} SeiWalk(raw: seq<byte>, pos: int, limit: int)
    requires SeiMessages(raw, pos, limit).Ok?
    ensures var ms := SeiMessages(raw, pos, limit).value;
      && (ms == [] <==> pos >= limit)
      && (forall a :: a in ms ==> pos <= a.start < limit && SeiMessageAt(raw, a.start) == Ok(a.message))
      && (ms != [] ==> ms[0].start == pos)
      && (forall i :: 0 <= i < |ms| - 1 ==> ms[i + 1].start == ms[i].message.body + ms[i].message.payloadSize)
    decreases limit - pos
  {
    if pos < limit {
      var m := SeiMessageAt(raw, pos).value;
      var next := m.body + m.payloadSize;
      SeiWalk(raw, next, limit);
      var rest := SeiMessages(raw, next, limit).value;
      var ms := SeiMessages(raw, pos, limit).value;
      assert ms == [SeiAt(pos, m)] + rest;
      forall i | 0 <= i < |ms| - 1
        ensures ms[i + 1].start == ms[i].message.body + ms[i].message.payloadSize
      {
        if i > 0 {
          assert ms[i] == rest[i - 1] && ms[i + 1] == rest[i];
        }
      }
    }
  }

  /** The windows of one SEI unit are those of the accepted messages among the ones it decodes, in order. */
  lemma {:induction false} SeiWindowsFilter(raw: seq<byte>, pos: int, limit: int)
    requires SeiWindows(raw, pos, limit).Ok?
    ensures SeiMessages(raw, pos, limit).Ok?
    ensures SeiWindows(raw, pos, limit).value == CaptionWindows(raw, SeiMessages(raw, pos, limit).value)
    decreases limit - pos
  {
    if pos < limit {
      var m := SeiMessageAt(raw, pos).value;
      var next := m.body + m.payloadSize;
      SeiWindowsFilter(raw, next, limit);
      var isCc := IsCea608Sei(m.payloadType, m.payloadSize, raw, m.body).value;
      assert isCc == CaptionMessage(raw, m);
      var ms := [SeiAt(pos, m)] + SeiMessages(raw, next, limit).value;
      assert SeiMessages(raw, pos, limit).value == ms;
      assert ms[1..] == SeiMessages(raw, next, limit).value;
    }
  }

  /**
   * Exactly the accepted messages yield windows: a window of one SEI unit
   * is the body and size of a message of type 4, size at least 8 and
   * signed, decoded at a position the scan reaches; and every such message
   * the scan reaches yields its window.
   */
  lemma SeiWindowsExactly(raw: seq<byte>, pos: int, limit: int)
    requires SeiWindows(raw, pos, limit).Ok?
    ensures SeiMessages(raw, pos, limit).Ok?
    ensures var ms := SeiMessages(raw, pos, limit).value;
      forall w :: w in SeiWindows(raw, pos, limit).value <==>
        exists a :: a in ms && CaptionMessage(raw, a.message) && w == Window(a.message.body, a.message.payloadSize)
    ensures forall w :: w in SeiWindows(raw, pos, limit).value ==>
      exists p :: pos <= p < limit && SeiMessageAt(raw, p) == Ok(SeiMessage(UserDataRegisteredT35, w.size, w.pos))
  {
    SeiWindowsFilter(raw, pos, limit);
    var ms := SeiMessages(raw, pos, limit).value;
    CaptionWindowsMembers(raw, ms);
    SeiWalk(raw, pos, limit);
    forall w | w in SeiWindows(raw, pos, limit).value
      ensures exists p :: pos <= p < limit && SeiMessageAt(raw, p) == Ok(SeiMessage(UserDataRegisteredT35, w.size, w.pos))
    {
      var a :| a in ms && CaptionMessage(raw, a.message) && w == Window(a.message.body, a.message.payloadSize);
      assert SeiMessageAt(raw, a.start) == Ok(a.message);
    }
  }

  /** The SEI messages the scans of the units of type 6 among `us` decode, unit after unit. */
  function UnitMessages(raw: seq<byte>, us: seq<NalUnit>): Result<seq<SeiAt>>
  {
    if us == [] then Ok([])
    else
      match MessagesOf(raw, us[0])
      case RangeError => RangeError
      case Ok(ms) => Prepend(ms, UnitMessages(raw, us[1..]))
  }

  /** The SEI messages decoded in one unit: none unless it is of type 6. */
  function MessagesOf(raw: seq<byte>, u: NalUnit): Result<seq<SeiAt>>
  {
    if u.nalType == SeiNalType then SeiMessages(raw, u.start + 5, u.start + 4 + u.size - 1) else Ok([])
  }

  /** One step of the outer walk, for the windows, the units and their messages alike. */
  lemma NalStep(raw: seq<byte>, cursor: int, end: int)
    requires cursor < end && NalWindows(raw, cursor, end).Ok?
    ensures U32(raw, cursor).Ok? && U8(raw, cursor + 4).Ok?
    ensures var nalSize := U32(raw, cursor).value;
      var next := cursor + nalSize + 4;
      var head := NalUnit(cursor, nalSize, raw[cursor + 4] % 0x20);
      var here := if head.nalType == SeiNalType then SeiWindows(raw, cursor + 5, cursor + 4 + nalSize - 1) else Ok([]);
      && here.Ok? && NalWindows(raw, next, end).Ok?
      && NalWindows(raw, cursor, end).value == here.value + NalWindows(raw, next, end).value
      && NalUnits(raw, cursor, end) == Prepend([head], NalUnits(raw, next, end))
  {
  }

  lemma UnitMessagesCons(raw: seq<byte>, head: NalUnit, rest: seq<NalUnit>)
    requires MessagesOf(raw, head).Ok? && UnitMessages(raw, rest).Ok?
    ensures UnitMessages(raw, [head] + rest) == Ok(MessagesOf(raw, head).value + UnitMessages(raw, rest).value)
  {
    var us := [head] + rest;
    assert us[0] == head && us[1..] == rest;
  }

  /**
   * The windows of a whole sample are those of the accepted messages among
   * all the SEI messages its units of type 6 decode, in order.
   */
  lemma {:induction false} NalWindowsFilter(raw: seq<byte>, cursor: int, end: int)
    requires NalWindows(raw, cursor, end).Ok?
    ensures NalUnits(raw, cursor, end).Ok?
    ensures UnitMessages(raw, NalUnits(raw, cursor, end).value).Ok?
    ensures NalWindows(raw, cursor, end).value == CaptionWindows(raw, UnitMessages(raw, NalUnits(raw, cursor, end).value).value)
    decreases end - cursor
  {
    if cursor < end {
      NalStep(raw, cursor, end);
      var nalSize := U32(raw, cursor).value;
      var next := cursor + nalSize + 4;
      NalWindowsFilter(raw, next, end);
      var head := NalUnit(cursor, nalSize, raw[cursor + 4] % 0x20);
      var restUnits := NalUnits(raw, next, end).value;
      var restMs := UnitMessages(raw, restUnits).value;
      var ws := if head.nalType == SeiNalType then SeiWindows(raw, cursor + 5, cursor + 4 + nalSize - 1).value else [];
      assert ws == CaptionWindows(raw, MessagesOf(raw, head).value) by {
        if head.nalType == SeiNalType {
          SeiWindowsFilter(raw, cursor + 5, cursor + 4 + nalSize - 1);
        }
      }
      UnitMessagesCons(raw, head, restUnits);
      CaptionWindowsAppend(raw, MessagesOf(raw, head).value, restMs);
    }
  }

  /**
   * `checkNalus` finds exactly the accepted messages: a window of the sample
   * is the body and size of an accepted SEI message decoded in one of its
   * units of type 6, and each such message yields its window.
   */
  lemma NalWindowsExactly(raw: seq<byte>, cursor: int, end: int)
    requires NalWindows(raw, cursor, end).Ok?
    ensures NalUnits(raw, cursor, end).Ok? && UnitMessages(raw, NalUnits(raw, cursor, end).value).Ok?
    ensures var ms := UnitMessages(raw, NalUnits(raw, cursor, end).value).value;
      forall w :: w in NalWindows(raw, cursor, end).value <==>
        exists a :: a in ms && CaptionMessage(raw, a.message) && w == Window(a.message.body, a.message.payloadSize)
  {
    NalWindowsFilter(raw, cursor, end);
    CaptionWindowsMembers(raw, UnitMessages(raw, NalUnits(raw, cursor, end).value).value);
  }

  /** Shifts a decoded value by what the bytes already read contributed. */
  function Shift(r: Result<Coded>, value: nat, length: nat): Result<Coded>
  {
    match r
    case Ok(c) => Ok(Coded(c.value + value, c.length + length))
    case RangeError => RangeError
  }

  /** The `while (b === 0xFF)` loop that reads payloadType or payloadSize. */
  method ReadFfCoded(raw: seq<byte>, pos: int) returns (r: Result<Coded>)
    ensures r == FfCoded(raw, pos)
  {
    var sum: nat := 0;
    var p := pos;
    var b: int := 0xFF;
    while b == 0xFF
      invariant pos <= p
      invariant b == 0xFF ==> FfCoded(raw, pos) == Shift(FfCoded(raw, p), sum, p - pos)
      invariant b != 0xFF ==> FfCoded(raw, pos) == Ok(Coded(sum, p - pos))
      decreases |raw| - p
    {
      if p < 0 || p >= |raw| {
        return RangeError;
      }
      b := raw[p];
      sum := sum + b;
      p := p + 1;
    }
    r := Ok(Coded(sum, p - pos));
  }

  /**
   * The inner `while` of `checkNalus`: the SEI messages of one unit, from
   * `pos` while `pos` is before the unit's trailing-bits byte at `limit`.
   */
  method ScanSeiMessages(raw: seq<byte>, pos: int, limit: int) returns (r: Result<seq<Window>>)
    ensures r == SeiWindows(raw, pos, limit)
  {
    var cea608Data: seq<Window> := [];
    var p := pos;
    PrependNothing(SeiWindows(raw, pos, limit));
    while p < limit
      invariant SeiWindows(raw, pos, limit) == Prepend(cea608Data, SeiWindows(raw, p, limit))
      decreases limit - p
    {
      var payloadType := ReadFfCoded(raw, p);
      if payloadType.RangeError? {
        return RangeError;
      }
      ghost var start := p;
      p := p + payloadType.value.length;
      var payloadSize := ReadFfCoded(raw, p);
      if payloadSize.RangeError? {
        return RangeError;
      }
      p := p + payloadSize.value.length;
      ghost var m := SeiMessage(payloadType.value.value, payloadSize.value.value, p);
      assert SeiMessageAt(raw, start) == Ok(m);
      var isCc := IsCea608Sei(payloadType.value.value, payloadSize.value.value, raw, p);
      if isCc.RangeError? {
        return RangeError;
      }
      ghost var here := if isCc.value then [Window(p, payloadSize.value.value)] else [];
      ghost var rest := SeiWindows(raw, p + payloadSize.value.value, limit);
      assert SeiWindows(raw, start, limit) == Prepend(here, rest);
      PrependTwice(cea608Data, here, rest);
      if isCc.value {
        cea608Data := cea608Data + [Window(p, payloadSize.value.value)];
      } else {
        assert cea608Data + here == cea608Data;
      }
      p := p + payloadSize.value.value;
    }
    assert cea608Data + [] == cea608Data;
    r := Ok(cea608Data);
  }

  /** `checkNalus(raw, startPos, size)`: the caption windows of one sample. */
  method CheckNalus(raw: seq<byte>, startPos: int, size: int) returns (r: Result<seq<Window>>)
    ensures r == NalWindows(raw, startPos, startPos + size)
  {
    var end := startPos + size;
    var cursor := startPos;
    var cea608Data: seq<Window> := [];
    PrependNothing(NalWindows(raw, startPos, end));
    while cursor < end
      invariant NalWindows(raw, startPos, end) == Prepend(cea608Data, NalWindows(raw, cursor, end))
      decreases end - cursor
    {
      var nalSize := U32(raw, cursor);
      if nalSize.RangeError? {
        return RangeError;
      }
      var header := U8(raw, cursor + 4);
      if header.RangeError? {
        return RangeError;
      }
      ghost var next := cursor + nalSize.value + 4;
      if header.value % 0x20 == SeiNalType {
        var windows := ScanSeiMessages(raw, cursor + 5, cursor + 4 + nalSize.value - 1);
        if windows.RangeError? {
          return RangeError;
        }
        assert NalWindows(raw, cursor, end) == Prepend(windows.value, NalWindows(raw, next, end));
        PrependTwice(cea608Data, windows.value, NalWindows(raw, next, end));
        cea608Data := cea608Data + windows.value;
      } else {
        assert NalWindows(raw, cursor, end) == Prepend([], NalWindows(raw, next, end));
        PrependNothing(NalWindows(raw, next, end));
      }
      cursor := cursor + nalSize.value + 4;
    }
    assert cea608Data + [] == cea608Data;
    r := Ok(cea608Data);
  }
}
