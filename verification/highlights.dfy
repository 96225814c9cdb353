/**
 * QuickHighlights: requesting a highlight reel, the callback that fills it,
 * the confidence colour bands, the reel list filter and the numeric inputs.
 */
module Highlights {

  import opened Wrappers
  import Types
  import Text
  import Lists

  datatype HighlightKind = ActionKind | EmotionKind | SpeechKind | MusicKind | CustomKind
  datatype ReelStatus = Generating | ReelReady | ReelProcessing

  /** Times are whole seconds; `confidence` is a fraction. */
  datatype Highlight = Highlight(
    id: string,
    name: string,
    description: string,
    startTime: int,
    endTime: int,
    duration: int,
    confidence: real,
    kind: HighlightKind,
    thumbnailUrl: string,
    tags: seq<string>,
    generatedAt: int)

  datatype Reel = Reel(
    id: string,
    name: string,
    description: string,
    highlights: seq<Highlight>,
    duration: int,
    status: ReelStatus,
    createdAt: int,
    thumbnailUrl: string)

  /** The generation settings the reel reads; the others only feed the form. */
  datatype Settings = Settings(duration: int, maxHighlights: int, minConfidence: real)

  const InitialSettings := Settings(30, 10, 0.7)

  /** The reel listed one second after the request: generating, with no highlights yet. */
  function NewReel(asset: Types.Asset, settings: Settings, freshId: string, now: int): (r: Reel)
    ensures r.id == freshId && r.highlights == [] && r.status == Generating
    ensures r.duration == settings.duration && r.createdAt == now
    ensures r.name == asset.originalName + " - Highlights"
    ensures r.description == "AI-generated highlights (" + Text.IntToString(settings.duration) + "s reel)"
    ensures r.thumbnailUrl == "/thumbnails/generating.jpg"
  {
    Reel(freshId, asset.originalName + " - Highlights",
         "AI-generated highlights (" + Text.IntToString(settings.duration) + "s reel)",
         [], settings.duration, Generating, now, "/thumbnails/generating.jpg")
  }

  /** `generateHighlightReel` up to the listing: a no-op without an asset, otherwise the reel is prepended. */
  function GenerateReel(reels: seq<Reel>, selectedAsset: Option<Types.Asset>, settings: Settings,
                        freshId: string, now: int): (r: seq<Reel>)
    ensures selectedAsset.None? ==> r == reels
    ensures selectedAsset.Some? ==> r == [NewReel(selectedAsset.value, settings, freshId, now)] + reels
  {
    match selectedAsset
    case None => reels
    case Some(a) => [NewReel(a, settings, freshId, now)] + reels
  }

  /** The three highlights every completed reel receives, stamped with the completion time. */
  function GeneratedHighlights(now: int): (r: seq<Highlight>)
    ensures |r| == 3
    ensures forall k :: 0 <= k < 3 ==> r[k].generatedAt == now && r[k].confidence >= 0.8
  {
    [
      Highlight("1", "Opening Hook", "Compelling opening sequence", 5, 12, 7, 0.94, ActionKind,
                "/thumbnails/opening.jpg", ["opening", "hook", "attention"], now),
      Highlight("2", "Key Message", "Core value proposition", 25, 35, 10, 0.87, SpeechKind,
                "/thumbnails/message.jpg", ["message", "value", "proposition"], now),
      Highlight("3", "Call to Action", "Final call to action", 110, 120, 10, 0.91, ActionKind,
                "/thumbnails/cta.jpg", ["cta", "action", "conclusion"], now)
    ]
  }

  /** The completion callback: only the reel with `id` becomes ready with the generated highlights. */
  function CompleteReel(reels: seq<Reel>, id: string, now: int): (r: seq<Reel>)
    ensures |r| == |reels|
    ensures forall k :: 0 <= k < |reels| && reels[k].id != id ==> r[k] == reels[k]
    ensures forall k :: 0 <= k < |reels| && reels[k].id == id ==>
              r[k] == reels[k].(highlights := GeneratedHighlights(now), status := ReelReady,
                                thumbnailUrl := "/thumbnails/completed.jpg")
  {
    seq(|reels|, k requires 0 <= k < |reels| =>
      if reels[k].id == id then
        reels[k].(highlights := GeneratedHighlights(now), status := ReelReady, thumbnailUrl := "/thumbnails/completed.jpg")
      else reels[k])
  }

  // ---------------------------------------------------------------- confidence bands

  datatype Band = Green | Blue | Yellow | Red

  /** `getConfidenceColor`: thresholds 0.9, 0.8 and 0.7, compared from the highest down. */
  function ConfidenceBand(c: real): (r: Band)
    ensures r == Green <==> c >= 0.9
    ensures r == Blue <==> 0.8 <= c < 0.9
    ensures r == Yellow <==> 0.7 <= c < 0.8
    ensures r == Red <==> c < 0.7
  {
    if c >= 0.9 then Green
    else if c >= 0.8 then Blue
    else if c >= 0.7 then Yellow
    else Red
  }

  function BandRank(b: Band): nat {
    match b
    case Red => 0
    case Yellow => 1
    case Blue => 2
    case Green => 3
  }

  /** A higher confidence never gets a lower band. */
  lemma BandMonotone(c: real, d: real)
    requires c <= d
    ensures BandRank(ConfidenceBand(c)) <= BandRank(ConfidenceBand(d))
  {
  }

  // ---------------------------------------------------------------- listing

  /** The reel list test: some highlight exists and the selected asset's id is "1". */
  predicate Listed(reel: Reel, selectedId: string) {
    |reel.highlights| > 0 && selectedId == "1"
  }

  function ListedTest(selectedId: string): Reel -> bool {
    reel => Listed(reel, selectedId)
  }

  function ListedReels(reels: seq<Reel>, selectedId: string): (r: seq<Reel>)
    ensures Lists.IsSubsequence(r, reels)
    ensures forall k :: 0 <= k < |r| ==> r[k] in reels && |r[k].highlights| > 0
    ensures selectedId != "1" ==> r == []
    ensures selectedId == "1" ==> forall k :: 0 <= k < |reels| && |reels[k].highlights| > 0 ==> reels[k] in r
    ensures forall x :: multiset(r)[x] == if Listed(x, selectedId) then multiset(reels)[x] else 0
  {
    Lists.FilterIsSubsequence(ListedTest(selectedId), reels);
    Lists.FilterCounts(ListedTest(selectedId), reels);
    NothingListedElsewhere(reels, selectedId);
    Lists.Filter(ListedTest(selectedId), reels)
  }

  lemma NothingListedElsewhere(reels: seq<Reel>, selectedId: string)
    ensures selectedId != "1" ==> Lists.Filter(ListedTest(selectedId), reels) == []
  {
    if selectedId != "1" {
      Lists.FilterNone(ListedTest(selectedId), reels);
    }
  }

  /** A reel that is still generating is never listed, whichever asset is selected. */
  lemma GeneratingReelHidden(asset: Types.Asset, settings: Settings, freshId: string, now: int,
                             reels: seq<Reel>, selectedId: string)
    requires forall k :: 0 <= k < |reels| ==> reels[k].id != freshId
    ensures NewReel(asset, settings, freshId, now) !in ListedReels([NewReel(asset, settings, freshId, now)] + reels, selectedId)
  {
  }

  /** Once its completion callback has run, a generated reel is listed for asset "1" and nowhere else. */
  lemma CompletedReelListed(asset: Types.Asset, settings: Settings, freshId: string, now: int, later: int,
                            reels: seq<Reel>, selectedId: string)
    ensures var done := CompleteReel(GenerateReel(reels, Some(asset), settings, freshId, now), freshId, later);
      && done[0] == NewReel(asset, settings, freshId, now).(highlights := GeneratedHighlights(later), status := ReelReady,
                                                             thumbnailUrl := "/thumbnails/completed.jpg")
      && (done[0] in ListedReels(done, selectedId) <==> selectedId == "1")
  {
    var done := CompleteReel(GenerateReel(reels, Some(asset), settings, freshId, now), freshId, later);
    assert |done[0].highlights| == 3;
  }

  // ---------------------------------------------------------------- numeric inputs

  /**
   * `parseInt(value) || fallback`: the parsed number unless it is NaN (`None`)
   * or zero, which both count as false.
   */
  function ParsedOr(parsed: Option<int>, fallback: int): (r: int)
    ensures parsed.Some? && parsed.value != 0 ==> r == parsed.value
    ensures parsed.None? || parsed.value == 0 ==> r == fallback
  {
    if parsed.Some? && parsed.value != 0 then parsed.value else fallback
  }

  /** The reel duration input: 30 when the text is not a number or is zero. */
  function SetDuration(s: Settings, parsed: Option<int>): (r: Settings)
    ensures parsed.Some? && parsed.value != 0 ==> r.duration == parsed.value
    ensures parsed.None? || parsed.value == 0 ==> r.duration == 30
    ensures r.(duration := s.duration) == s
  {
    s.(duration := ParsedOr(parsed, 30))
  }

  /** The highlight count input: 10 when the text is not a number or is zero. */
  function SetMaxHighlights(s: Settings, parsed: Option<int>): (r: Settings)
    ensures parsed.Some? && parsed.value != 0 ==> r.maxHighlights == parsed.value
    ensures parsed.None? || parsed.value == 0 ==> r.maxHighlights == 10
    ensures r.(maxHighlights := s.maxHighlights) == s
  {
    s.(maxHighlights := ParsedOr(parsed, 10))
  }

  /** Only an unusable entry selects the fallback: a non-zero number is kept as typed. */
  lemma FallbackOnlyForFalsy(parsed: Option<int>, fallback: int)
    requires fallback != 0
    ensures ParsedOr(parsed, fallback) == fallback <==> parsed.None? || parsed.value == 0 || parsed.value == fallback
  {
  }
}
