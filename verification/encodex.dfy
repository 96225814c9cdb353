/**
 * EncodeX: queueing an encoding job for the selected asset and the three
 * timer callbacks that take it from queued to completed.
 */
module EncodeX {

  import opened Wrappers
  import Types
  import Text
  import Lists

  datatype Quality = Standard | Premium | Ultra

  datatype Profile = Profile(
    id: string,
    name: string,
    description: string,
    resolution: string,
    bitrate: string,
    codec: string,
    features: seq<string>,
    quality: Quality,
    processingTime: string)

  datatype JobStatus = Queued | Processing | Completed | Failed

  datatype EncodingJob = EncodingJob(
    id: string,
    assetId: string,
    profile: Profile,
    status: JobStatus,
    progress: int,
    createdAt: int,
    completedAt: Option<int>,
    outputUrl: Option<string>)

  /** The page state `startEncoding` reads and writes. */
  datatype EncodeState = EncodeState(jobs: seq<EncodingJob>, selectedProfile: string)

  /** The six profiles the page offers. */
  const Profiles: seq<Profile> := [
    Profile("abr-4k", "ABR 4K UHD", "Adaptive Bitrate for 4K streaming", "3840x2160", "15-50 Mbps",
            "H.265/HEVC", ["ABR", "HDR10", "Dolby Vision"], Ultra, "45-60 min"),
    Profile("abr-1080p", "ABR 1080p", "Adaptive Bitrate for HD streaming", "1920x1080", "3-15 Mbps",
            "H.264/H.265", ["ABR", "HDR10"], Premium, "20-30 min"),
    Profile("broadcast-uhd", "Broadcast UHD", "Broadcast quality UHD encoding", "3840x2160", "100 Mbps",
            "H.265/HEVC", ["Broadcast", "HDR10", "Dolby Vision"], Ultra, "60-90 min"),
    Profile("mobile-optimized", "Mobile Optimized", "Optimized for mobile devices", "1280x720", "1-3 Mbps",
            "H.264", ["Mobile", "Low Latency"], Standard, "10-15 min"),
    Profile("av1-nextgen", "AV1 Next-Gen", "Next-generation AV1 codec", "1920x1080", "2-8 Mbps",
            "AV1", ["AV1", "HDR10", "Future-Proof"], Premium, "90-120 min"),
    Profile("dolby-atmos", "Dolby Atmos Audio", "Premium spatial audio encoding", "Audio Only", "768 kbps",
            "Dolby Atmos", ["Dolby Atmos", "Spatial Audio", "DDplus"], Ultra, "15-25 min")
  ]

  function HasId(id: string): Profile -> bool {
    (p: Profile) => p.id == id
  }

  /** `encodingProfiles.find(p => p.id === id)`. */
  function FindProfile(id: string): Option<Profile> {
    Lists.Find(Profiles, HasId(id))
  }

  /** The six profile ids are distinct, so each id names exactly one profile. */
  lemma ProfileIdsDistinct()
    ensures forall j, k :: 0 <= j < k < |Profiles| ==> Profiles[j].id != Profiles[k].id
  {
  }

  /** Every profile is found by its own id. */
  lemma KnownProfileFound(k: nat)
    requires k < |Profiles|
    ensures FindProfile(Profiles[k].id) == Some(Profiles[k])
  {
    ProfileIdsDistinct();
    Lists.FindFirst(Profiles, HasId(Profiles[k].id), k);
  }

  /**
   * Where the finished file goes: the asset's filename with its first ".mp4"
   * replaced by "-<profile id>.mp4", under "/encodex/outputs/".
   */
  function OutputUrl(filename: string, profileId: string): (r: string)
    ensures !Text.Contains(filename, ".mp4") ==> r == "/encodex/outputs/" + filename
    ensures Text.Contains(filename, ".mp4") ==>
      exists k :: Text.OccursAt(filename, ".mp4", k) && (forall j :: 0 <= j < k ==> !Text.OccursAt(filename, ".mp4", j)) &&
        r == "/encodex/outputs/" + filename[..k] + "-" + profileId + ".mp4" + filename[k + 4..]
  {
    var q := "-" + profileId + ".mp4";
    var rest := Text.ReplaceFirst(filename, ".mp4", q);
    if Text.Contains(filename, ".mp4") then
      var k :| Text.OccursAt(filename, ".mp4", k) && rest == filename[..k] + q + filename[k + |".mp4"|..] &&
               forall j :: 0 <= j < k ==> !Text.OccursAt(filename, ".mp4", j);
      assert "/encodex/outputs/" + rest == "/encodex/outputs/" + filename[..k] + "-" + profileId + ".mp4" + filename[k + 4..];
      "/encodex/outputs/" + rest
    else
      "/encodex/outputs/" + rest
  }

  /** The job listed one second after the start: queued at 0%, for the selected asset. */
  function NewJob(asset: Types.Asset, profile: Profile, freshId: string, now: int): (r: EncodingJob)
    ensures r.id == freshId && r.assetId == asset.id && r.profile == profile
    ensures r.status == Queued && r.progress == 0 && r.createdAt == now
    ensures r.completedAt.None? && r.outputUrl.None?
  {
    EncodingJob(freshId, asset.id, profile, Queued, 0, now, None, None)
  }

  /**
   * `startEncoding` up to the moment the job is listed: a no-op without an
   * asset, with an empty profile id or an unknown one; otherwise the job is
   * prepended and the profile selection cleared.
   */
  function StartEncoding(s: EncodeState, selectedAsset: Option<Types.Asset>, freshId: string, now: int): (r: EncodeState)
    ensures selectedAsset.None? || s.selectedProfile == "" || FindProfile(s.selectedProfile).None? ==> r == s
    ensures selectedAsset.Some? && s.selectedProfile != "" && FindProfile(s.selectedProfile).Some? ==>
              && |r.jobs| == |s.jobs| + 1 && r.jobs[1..] == s.jobs
              && r.jobs[0] == NewJob(selectedAsset.value, FindProfile(s.selectedProfile).value, freshId, now)
              && r.jobs[0].profile.id == s.selectedProfile
              && r.selectedProfile == ""
  {
    if selectedAsset.None? || s.selectedProfile == "" then s
    else
      match FindProfile(s.selectedProfile)
      case None => s
      case Some(p) => EncodeState([NewJob(selectedAsset.value, p, freshId, now)] + s.jobs, "")
  }

  // ---------------------------------------------------------------- progression

  /** The three callbacks, two, five and eight seconds after the job is listed. */
  datatype EncodeEvent = MarkProcessing | MarkAdvanced | MarkCompleted(now: int)

  /** What one callback does to its job; the URL uses the asset and profile captured at the start. */
  function Apply(j: EncodingJob, e: EncodeEvent, filename: string, profileId: string): (r: EncodingJob)
    ensures r.id == j.id && r.assetId == j.assetId && r.profile == j.profile && r.createdAt == j.createdAt
    ensures e.MarkProcessing? ==> r == j.(status := Processing, progress := 25)
    ensures e.MarkAdvanced? ==> r == j.(progress := 75)
    ensures e.MarkCompleted? ==>
              r == j.(status := Completed, progress := 100, completedAt := Some(e.now),
                      outputUrl := Some(OutputUrl(filename, profileId)))
  {
    match e
    case MarkProcessing => j.(status := Processing, progress := 25)
    case MarkAdvanced => j.(progress := 75)
    case MarkCompleted(now) =>
      j.(status := Completed, progress := 100, completedAt := Some(now), outputUrl := Some(OutputUrl(filename, profileId)))
  }

  /** `prev.map(job => job.id === id ? update(job) : job)`. */
  function ApplyToList(jobs: seq<EncodingJob>, id: string, e: EncodeEvent, filename: string, profileId: string)
    : (r: seq<EncodingJob>)
    ensures |r| == |jobs|
    ensures forall k :: 0 <= k < |jobs| && jobs[k].id != id ==> r[k] == jobs[k]
    ensures forall k :: 0 <= k < |jobs| && jobs[k].id == id ==> r[k] == Apply(jobs[k], e, filename, profileId)
  {
    seq(|jobs|, k requires 0 <= k < |jobs| => if jobs[k].id == id then Apply(jobs[k], e, filename, profileId) else jobs[k])
  }

  /**
   * A new job taken through the callbacks in the order they fire goes
   * queued 0 → processing 25 → processing 75 → completed 100: its progress
   * strictly increases and it ends with an output URL.
   */
  lemma JobRunsToCompletion(asset: Types.Asset, profile: Profile, freshId: string, created: int, done: int)
    ensures var j0 := NewJob(asset, profile, freshId, created);
      var j1 := Apply(j0, MarkProcessing, asset.filename, profile.id);
      var j2 := Apply(j1, MarkAdvanced, asset.filename, profile.id);
      var j3 := Apply(j2, MarkCompleted(done), asset.filename, profile.id);
      && j0.status == Queued && j1.status == Processing && j2.status == Processing && j3.status == Completed
      && j0.progress < j1.progress < j2.progress < j3.progress == 100
      && j3.outputUrl == Some(OutputUrl(asset.filename, profile.id))
      && j3.completedAt == Some(done)
  {
  }

  /** A dot-free stem followed by ".mp4" gets the profile id inserted before the extension. */
  lemma OutputUrlOfPlainName(stem: string, profileId: string)
    requires '.' !in stem
    ensures OutputUrl(stem + ".mp4", profileId) == "/encodex/outputs/" + stem + "-" + profileId + ".mp4"
  {
    var s := stem + ".mp4";
    var k := |stem|;
    assert s[k..k + 4] == ".mp4";
    forall j | 0 <= j < k ensures !Text.OccursAt(s, ".mp4", j) {
      assert s[j] == stem[j];
      assert s[j..j + 4][0] == s[j];
    }
    Text.ReplaceAtFirst(s, ".mp4", "-" + profileId + ".mp4", k);
    assert s[..k] == stem;
    assert s[k + 4..] == [];
  }
}
