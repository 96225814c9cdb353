/**
 * MediaReady: building a delivery package from the ticked formats and the
 * format checkboxes.
 */
module Delivery {

  import opened Wrappers
  import Types
  import Lists

  datatype Platform = Ott | Broadcast | Fast
  datatype FormatStatus = FormatReady | FormatProcessing | FormatCompleted | FormatFailed
  datatype PackageStatus = Draft | PackageProcessing | PackageCompleted

  /** A catalog entry. */
  datatype CatalogFormat = CatalogFormat(
    id: string, name: string, platform: Platform, resolution: string, bitrate: string, codec: string)

  datatype DeliveryFormat = DeliveryFormat(
    id: string,
    name: string,
    platform: Platform,
    resolution: string,
    bitrate: string,
    codec: string,
    status: FormatStatus,
    progress: int,
    url: Option<string>)

  datatype DeliveryPackage = DeliveryPackage(
    id: string, name: string, formats: seq<DeliveryFormat>, createdAt: int, status: PackageStatus)

  /** The page state `createDeliveryPackage` reads and writes. */
  datatype DeliveryState = DeliveryState(packages: seq<DeliveryPackage>, selectedFormats: seq<string>)

  /** The seven formats offered. */
  const Catalog: seq<CatalogFormat> := [
    CatalogFormat("ott-4k", "OTT 4K UHD", Ott, "3840x2160", "15-25 Mbps", "H.265/HEVC"),
    CatalogFormat("ott-1080p", "OTT 1080p", Ott, "1920x1080", "5-8 Mbps", "H.264"),
    CatalogFormat("ott-720p", "OTT 720p", Ott, "1280x720", "2-4 Mbps", "H.264"),
    CatalogFormat("broadcast-1080i", "Broadcast 1080i", Broadcast, "1920x1080", "50 Mbps", "MPEG-2"),
    CatalogFormat("broadcast-720p", "Broadcast 720p", Broadcast, "1280x720", "25 Mbps", "MPEG-2"),
    CatalogFormat("fast-1080p", "FAST 1080p", Fast, "1920x1080", "3-5 Mbps", "H.264"),
    CatalogFormat("fast-720p", "FAST 720p", Fast, "1280x720", "1.5-3 Mbps", "H.264")
  ]

  function HasId(id: string): CatalogFormat -> bool {
    (f: CatalogFormat) => f.id == id
  }

  /** `availableFormats.find(f => f.id === id)`. */
  function FindFormat(id: string): Option<CatalogFormat> {
    Lists.Find(Catalog, HasId(id))
  }

  /**
   * The package entry for one ticked id: the catalog's name, platform,
   * resolution, bitrate and codec, or empty strings and OTT for an unknown id;
   * always processing at 0%.
   */
  function FormatEntry(id: string): (r: DeliveryFormat)
    ensures r.id == id && r.status == FormatProcessing && r.progress == 0 && r.url.None?
    ensures FindFormat(id).Some? ==>
              var c := FindFormat(id).value;
              r.name == c.name && r.platform == c.platform && r.resolution == c.resolution &&
              r.bitrate == c.bitrate && r.codec == c.codec
    ensures FindFormat(id).None? ==>
              r.name == "" && r.platform == Ott && r.resolution == "" && r.bitrate == "" && r.codec == ""
  {
    match FindFormat(id)
    case Some(c) => DeliveryFormat(id, c.name, c.platform, c.resolution, c.bitrate, c.codec, FormatProcessing, 0, None)
    case None => DeliveryFormat(id, "", Ott, "", "", "", FormatProcessing, 0, None)
  }

  /** The package built two seconds after the request. */
  function NewPackage(asset: Types.Asset, selected: seq<string>, freshId: string, now: int): (r: DeliveryPackage)
    ensures r.id == freshId && r.name == asset.originalName + " - Multi-Platform"
    ensures r.createdAt == now && r.status == PackageProcessing
    ensures |r.formats| == |selected|
    ensures forall k :: 0 <= k < |selected| ==> r.formats[k] == FormatEntry(selected[k])
  {
    DeliveryPackage(freshId, asset.originalName + " - Multi-Platform",
                    seq(|selected|, k requires 0 <= k < |selected| => FormatEntry(selected[k])),
                    now, PackageProcessing)
  }

  /**
   * `createDeliveryPackage`: a no-op without an asset or formats; otherwise the
   * package is prepended and the ticked formats are cleared.
   */
  function CreatePackage(s: DeliveryState, selectedAsset: Option<Types.Asset>, freshId: string, now: int)
    : (r: DeliveryState)
    ensures selectedAsset.None? || s.selectedFormats == [] ==> r == s
    ensures selectedAsset.Some? && s.selectedFormats != [] ==>
              && |r.packages| == |s.packages| + 1 && r.packages[1..] == s.packages
              && r.packages[0] == NewPackage(selectedAsset.value, s.selectedFormats, freshId, now)
              && r.selectedFormats == []
  {
    if selectedAsset.None? || |s.selectedFormats| == 0 then s
    else DeliveryState([NewPackage(selectedAsset.value, s.selectedFormats, freshId, now)] + s.packages, [])
  }

  /** The ids of a package's formats are exactly the ticked ids, in order. */
  lemma PackageIdsAreSelection(asset: Types.Asset, selected: seq<string>, freshId: string, now: int)
    ensures var p := NewPackage(asset, selected, freshId, now);
      |p.formats| == |selected| && forall k :: 0 <= k < |selected| ==> p.formats[k].id == selected[k]
  {
  }

  /** Every catalog entry is copied field for field when its id is ticked. */
  lemma KnownFormatCopied(k: nat)
    requires k < |Catalog|
    ensures var e := FormatEntry(Catalog[k].id);
      e.name == Catalog[k].name && e.platform == Catalog[k].platform &&
      e.resolution == Catalog[k].resolution && e.bitrate == Catalog[k].bitrate && e.codec == Catalog[k].codec
  {
    CatalogIdsDistinct();
    Lists.FindFirst(Catalog, HasId(Catalog[k].id), k);
  }

  lemma CatalogIdsDistinct()
    ensures forall i, j :: 0 <= i < j < |Catalog| ==> Catalog[i].id != Catalog[j].id
  {
  }
}
