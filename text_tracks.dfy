/**
 * Two small choices of the text source buffer: which text track is the
 * default one (`getIsDefault`), and which subtitle parser a MIME type
 * selects (`getParser`).
 */
module TextTracks {
  import opened Wrappers
  import opened EmbeddedCc

  /** `mediaInfo.id && …`: a string id is truthy unless empty, a numeric one unless 0. */
  predicate Truthy(id: Id)
  {
    match id
    case Text(t) => t != ""
    case Number(n) => n != 0
  }

  /** `id.substring(0, 2) === "CC"`, for a string id. */
  predicate StartsWithCc(id: string)
  {
    |id| >= 2 && id[..2] == "CC"
  }

  /**
   * `getIsDefault(mediaInfo)`: with two or more embedded tracks only CC1 is
   * default; with one, any track whose id starts with "CC"; with none, the
   * track with the same index as the first media info. None stands for the
   * `TypeError` the source throws: a truthy numeric id has no `substring`,
   * and without media infos there is no first one to compare with. With
   * several embedded tracks the source yields a falsy id itself (`""` or
   * `0`) rather than `false`; both are falsy, and the model says `false`.
   */
  function IsDefault(embedded: seq<MediaInfo>, mediaInfos: seq<MediaInfo>, info: MediaInfo): (r: Option<bool>)
    ensures r.None? <==>
      || (|embedded| == 1 && info.id.Number? && info.id.number != 0)
      || (|embedded| == 0 && |mediaInfos| == 0)
  {
    if |embedded| > 1 then Some(Truthy(info.id) && info.id == Text("CC1"))
    else if |embedded| == 1 then
      if !Truthy(info.id) then Some(false)
      else if info.id.Number? then None
      else Some(StartsWithCc(info.id.text))
    else if |mediaInfos| == 0 then None
    else Some(info.index == mediaInfos[0].index)
  }

  /** Among several embedded tracks, the one that is CC1 is the default, and no other. */
  lemma OnlyCc1DefaultAmongSeveral(embedded: seq<MediaInfo>, mediaInfos: seq<MediaInfo>)
    requires |embedded| > 1 && AllSupported(embedded)
    ensures forall i :: 0 <= i < |embedded| ==>
      (IsDefault(embedded, mediaInfos, embedded[i]) == Some(true) <==> embedded[i].id == Text("CC1"))
  {
  }

  /** A single embedded track, CC1 or CC3, is always the default. */
  lemma SingleEmbeddedIsDefault(embedded: seq<MediaInfo>, mediaInfos: seq<MediaInfo>)
    requires |embedded| == 1 && AllSupported(embedded)
    ensures IsDefault(embedded, mediaInfos, embedded[0]) == Some(true)
  {
    assert Supported(embedded[0].id);
    var id := embedded[0].id.text;
    assert id[..2] == "CC" by {
      if id == "CC1" {
        assert id[..2] == ['C', 'C'];
      } else {
        assert id[..2] == ['C', 'C'];
      }
    }
  }

  /**
   * Without embedded tracks, the first media info is the default, and when
   * indices are distinct it is the only one.
   */
  lemma FirstMediaInfoIsDefault(mediaInfos: seq<MediaInfo>)
    requires |mediaInfos| > 0
    requires forall i, j :: 0 <= i < j < |mediaInfos| ==> mediaInfos[i].index != mediaInfos[j].index
    ensures forall i :: 0 <= i < |mediaInfos| ==>
      (IsDefault([], mediaInfos, mediaInfos[i]) == Some(true) <==> i == 0)
  {
  }

  /** The parsers `getParser` can hand out. */
  datatype ParserKind = VttParser | TtmlParser

  /** `getParser(mimeType)`: None when the MIME type selects no parser (`undefined`). */
  function GetParser(mimeType: string): (r: Option<ParserKind>)
    ensures r == Some(VttParser) <==> mimeType == "text/vtt"
    ensures r == Some(TtmlParser) <==> mimeType in {"application/ttml+xml", "application/mp4"}
  {
    if mimeType == "text/vtt" then Some(VttParser)
    else if mimeType == "application/ttml+xml" || mimeType == "application/mp4" then Some(TtmlParser)
    else None
  }
}
