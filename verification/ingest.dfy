/**
 * Ingest: queueing dropped files, the timer callbacks of one simulated
 * upload, removing and clearing uploads, and the file-kind classification of
 * the upload list.
 */
module Ingest {

  import opened Wrappers
  import opened Types
  import Text
  import Lists

  /** The page state the upload handlers read and write. */
  datatype IngestState = IngestState(uploads: seq<UploadProgress>, isUploading: bool)

  /** The entry for one dropped file: uploading at 0%. */
  function NewUpload(fileId: string, filename: string): (r: UploadProgress)
    ensures r.fileId == fileId && r.filename == filename
    ensures r.progress == 0 && r.status == UploadStatus.Uploading && r.error.None?
  {
    UploadProgress(fileId, filename, 0, UploadStatus.Uploading, None)
  }

  /** `handleFiles`: one entry per file, after the existing ones; ids come from `freshId`. */
  function HandleFiles(s: IngestState, names: seq<string>, freshId: nat -> string): (r: IngestState)
    ensures r.isUploading
    ensures |r.uploads| == |s.uploads| + |names|
    ensures r.uploads[..|s.uploads|] == s.uploads
    ensures forall k :: 0 <= k < |names| ==> r.uploads[|s.uploads| + k] == NewUpload(freshId(k), names[k])
  {
    var added := seq(|names|, k requires 0 <= k < |names| => NewUpload(freshId(k), names[k]));
    IngestState(s.uploads + added, true)
  }

  /** The callbacks of `simulateUpload`, 0.5, 1, 1.5 and 2 seconds after its start, then the final check. */
  datatype UploadEvent = Reach25 | Reach50 | Reach75 | Finish | CheckAllDone

  /** Done for the purpose of the final check: completed or failed. */
  predicate Settled(u: UploadProgress) {
    u.status == Completed || u.status == UploadStatus.Error
  }

  function Step(u: UploadProgress, e: UploadEvent): UploadProgress {
    match e
    case Reach25 => u.(progress := 25, status := UploadStatus.Uploading)
    case Reach50 => u.(progress := 50, status := UploadStatus.Uploading)
    case Reach75 => u.(progress := 75, status := UploadStatus.Uploading)
    case Finish => u.(progress := 100, status := Completed)
    case CheckAllDone => u
  }

  /**
   * One callback for the upload `fileId`: the progress steps touch only that
   * entry; the final check clears the flag only when every entry is settled.
   */
  function Apply(s: IngestState, fileId: string, e: UploadEvent): (r: IngestState)
    ensures |r.uploads| == |s.uploads|
    ensures forall k :: 0 <= k < |s.uploads| && s.uploads[k].fileId != fileId ==> r.uploads[k] == s.uploads[k]
    ensures forall k :: 0 <= k < |s.uploads| && s.uploads[k].fileId == fileId ==>
              r.uploads[k] == Step(s.uploads[k], e)
    ensures !e.CheckAllDone? ==> r.isUploading == s.isUploading
    ensures e.CheckAllDone? ==> r.uploads == s.uploads
    ensures e.CheckAllDone? ==>
              (r.isUploading <==> s.isUploading && exists k :: 0 <= k < |s.uploads| && !Settled(s.uploads[k]))
  {
    match e
    case CheckAllDone =>
      if forall k :: 0 <= k < |s.uploads| ==> Settled(s.uploads[k]) then s.(isUploading := false) else s
    case _ =>
      s.(uploads := seq(|s.uploads|, k requires 0 <= k < |s.uploads| =>
           if s.uploads[k].fileId == fileId then Step(s.uploads[k], e) else s.uploads[k]))
  }

  /** One upload's timeline in firing order: 0 → 25 → 50 → 75 → 100 and completed. */
  lemma UploadProgresses(fileId: string, filename: string)
    ensures var u0 := NewUpload(fileId, filename);
      var u1 := Step(u0, Reach25);
      var u2 := Step(u1, Reach50);
      var u3 := Step(u2, Reach75);
      var u4 := Step(u3, Finish);
      && u0.progress < u1.progress < u2.progress < u3.progress < u4.progress == 100
      && u1.status == u2.status == u3.status == UploadStatus.Uploading
      && u4.status == Completed && Settled(u4)
  {
  }

  /** The flag stays set while any upload of the list is unsettled. */
  lemma FlagKeptWhileUnsettled(s: IngestState, fileId: string, k: nat)
    requires s.isUploading && k < |s.uploads| && !Settled(s.uploads[k])
    ensures Apply(s, fileId, CheckAllDone).isUploading
  {
  }

  function OtherThan(fileId: string): UploadProgress -> bool {
    (u: UploadProgress) => u.fileId != fileId
  }

  /** `removeUpload`: every entry with `fileId` leaves, the others stay in order. */
  function RemoveUpload(uploads: seq<UploadProgress>, fileId: string): (r: seq<UploadProgress>)
    ensures Lists.IsSubsequence(r, uploads)
    ensures forall k :: 0 <= k < |r| ==> r[k].fileId != fileId
    ensures forall k :: 0 <= k < |uploads| && uploads[k].fileId != fileId ==> uploads[k] in r
    ensures forall u :: multiset(r)[u] == if u.fileId != fileId then multiset(uploads)[u] else 0
  {
    Lists.FilterIsSubsequence(OtherThan(fileId), uploads);
    Lists.FilterCounts(OtherThan(fileId), uploads);
    Lists.Filter(OtherThan(fileId), uploads)
  }

  /** Removing the same upload twice is the same as removing it once. */
  lemma RemoveUploadIdempotent(uploads: seq<UploadProgress>, fileId: string)
    ensures RemoveUpload(RemoveUpload(uploads, fileId), fileId) == RemoveUpload(uploads, fileId)
  {
    var once := RemoveUpload(uploads, fileId);
    assert forall k :: 0 <= k < |once| ==> OtherThan(fileId)(once[k]);
  }

  /** The "Clear Completed" button is shown when no upload runs and one has completed. */
  predicate ClearOffered(s: IngestState) {
    !s.isUploading && exists k :: 0 <= k < |s.uploads| && s.uploads[k].status == Completed
  }

  /** "Clear Completed" empties the whole list, failed uploads included. */
  function ClearCompleted(s: IngestState): (r: IngestState)
    ensures r.uploads == [] && r.isUploading == s.isUploading
  {
    s.(uploads := [])
  }

  // ---------------------------------------------------------------- file kinds

  datatype FileKind = VideoFile | ImageFile | AudioFile | DocumentFile

  const VideoExtensions: seq<string> := ["mp4", "avi", "mov", "wmv", "flv", "webm"]
  const ImageExtensions: seq<string> := ["jpg", "jpeg", "png", "gif", "bmp", "webp"]
  const AudioExtensions: seq<string> := ["mp3", "wav", "flac", "aac", "ogg"]

  /** `filename.split('.').pop().toLowerCase()`: the text after the last dot, or the whole name. */
  function Extension(filename: string): (r: string)
    ensures |r| <= |filename|
    ensures '.' !in filename ==> r == Text.Lower(filename)
  {
    NoDotMeansWholeName(filename);
    Text.Lower(Text.AfterLastDot(filename))
  }

  lemma NoDotMeansWholeName(filename: string)
    ensures '.' !in filename ==> Text.AfterLastDot(filename) == filename
  {
    if '.' !in filename {
      Text.NoDotKeepsWholeName(filename);
    }
  }

  /** `getFileIcon`'s classification: video, then image, then audio; anything else is a document. */
  function Classify(filename: string): (r: FileKind)
    ensures r == VideoFile <==> Extension(filename) in VideoExtensions
    ensures r == ImageFile <==> Extension(filename) !in VideoExtensions && Extension(filename) in ImageExtensions
    ensures r == AudioFile <==> Extension(filename) !in VideoExtensions && Extension(filename) !in ImageExtensions &&
                                Extension(filename) in AudioExtensions
    ensures r == DocumentFile <==> Extension(filename) !in VideoExtensions + ImageExtensions + AudioExtensions
  {
    var ext := Extension(filename);
    if ext in VideoExtensions then VideoFile
    else if ext in ImageExtensions then ImageFile
    else if ext in AudioExtensions then AudioFile
    else DocumentFile
  }

  /** The extension of `stem.ext` is the lower-cased `ext`, whatever dots the stem holds. */
  lemma ExtensionOfDotted(stem: string, ext: string)
    requires '.' !in ext
    ensures Extension(stem + "." + ext) == Text.Lower(ext)
  {
    Text.AfterLastDotOfDotted(stem, ext);
  }
}
