/**
 * The shared record and enumeration types of the application. Dates are
 * millisecond timestamps (`Date.getTime()`); numeric sizes and durations are
 * whole numbers. The free-form `metadata` record of an asset is not modelled.
 */
module Types {

  import opened Wrappers

  datatype Role = Admin | Editor | Viewer
  datatype Resource = Assets | Users | Settings
  datatype Action = Create | Read | Update | Delete
  datatype FileType = Video | Audio | Image | Document
  datatype AssetStatus = Uploading | Processing | Ready | Error | Deleted
  datatype UploadStatus = Uploading | Processing | Completed | Error
  datatype SortBy = Name | UploadedAt | FileSize | Duration
  datatype SortOrder = Asc | Desc

  datatype Permission = Permission(
    id: string,
    name: string,
    description: string,
    resource: Resource,
    action: Action)

  datatype User = User(
    id: string,
    email: string,
    name: string,
    role: Role,
    permissions: seq<Permission>,
    createdAt: int,
    updatedAt: int)

  datatype Tag = Tag(id: string, name: string, color: string, category: string, createdAt: int)

  /** Start and end times are in seconds of media time. */
  datatype Subtitle = Subtitle(
    id: string,
    language: string,
    content: string,
    startTime: real,
    endTime: real,
    assetId: string,
    createdAt: int,
    updatedAt: int)

  datatype Asset = Asset(
    id: string,
    filename: string,
    originalName: string,
    fileType: FileType,
    mimeType: string,
    fileSize: nat,
    duration: Option<nat>,
    width: Option<nat>,
    height: Option<nat>,
    bitrate: Option<nat>,
    codec: Option<string>,
    frameRate: Option<real>,
    sampleRate: Option<nat>,
    channels: Option<nat>,
    status: AssetStatus,
    tags: seq<Tag>,
    subtitles: seq<Subtitle>,
    uploadedBy: string,
    uploadedAt: int,
    updatedAt: int,
    deletedAt: Option<int>,
    thumbnailUrl: Option<string>,
    previewUrl: Option<string>,
    downloadUrl: string)

  datatype DateRange = DateRange(start: int, end: int)

  /** Every field is optional; the list filters hold the names of file types, statuses and tag ids. */
  datatype SearchFilters = SearchFilters(
    query: Option<string>,
    fileType: Option<seq<string>>,
    status: Option<seq<string>>,
    tags: Option<seq<string>>,
    uploadedBy: Option<string>,
    dateRange: Option<DateRange>,
    sortBy: Option<SortBy>,
    sortOrder: Option<SortOrder>)

  datatype UploadProgress = UploadProgress(
    fileId: string,
    filename: string,
    progress: int,
    status: UploadStatus,
    error: Option<string>)

  // The string literals the source uses for each enumeration member.

  function RoleName(r: Role): string {
    match r
    case Admin => "admin"
    case Editor => "editor"
    case Viewer => "viewer"
  }

  function ResourceName(r: Resource): string {
    match r
    case Assets => "assets"
    case Users => "users"
    case Settings => "settings"
  }

  function ActionName(a: Action): string {
    match a
    case Create => "create"
    case Read => "read"
    case Update => "update"
    case Delete => "delete"
  }

  function FileTypeName(t: FileType): string {
    match t
    case Video => "video"
    case Audio => "audio"
    case Image => "image"
    case Document => "document"
  }

  function AssetStatusName(s: AssetStatus): string {
    match s
    case Uploading => "uploading"
    case Processing => "processing"
    case Ready => "ready"
    case Error => "error"
    case Deleted => "deleted"
  }

  function UploadStatusName(s: UploadStatus): string {
    match s
    case Uploading => "uploading"
    case Processing => "processing"
    case Completed => "completed"
    case Error => "error"
  }

  function SortByName(b: SortBy): string {
    match b
    case Name => "name"
    case UploadedAt => "uploadedAt"
    case FileSize => "fileSize"
    case Duration => "duration"
  }

  function SortOrderName(o: SortOrder): string {
    match o
    case Asc => "asc"
    case Desc => "desc"
  }

  // Reading a literal back: each union type admits exactly its listed literals.

  function ParseRole(s: string): (r: Option<Role>)
    ensures r.Some? ==> RoleName(r.value) == s
    ensures r.None? ==> forall x: Role :: RoleName(x) != s
  {
    if s == "admin" then Some(Admin)
    else if s == "editor" then Some(Editor)
    else if s == "viewer" then Some(Viewer)
    else None
  }

  function ParseResource(s: string): (r: Option<Resource>)
    ensures r.Some? ==> ResourceName(r.value) == s
    ensures r.None? ==> forall x: Resource :: ResourceName(x) != s
  {
    if s == "assets" then Some(Assets)
    else if s == "users" then Some(Users)
    else if s == "settings" then Some(Settings)
    else None
  }

  function ParseAction(s: string): (r: Option<Action>)
    ensures r.Some? ==> ActionName(r.value) == s
    ensures r.None? ==> forall x: Action :: ActionName(x) != s
  {
    if s == "create" then Some(Create)
    else if s == "read" then Some(Read)
    else if s == "update" then Some(Update)
    else if s == "delete" then Some(Delete)
    else None
  }

  function ParseFileType(s: string): (r: Option<FileType>)
    ensures r.Some? ==> FileTypeName(r.value) == s
    ensures r.None? ==> forall x: FileType :: FileTypeName(x) != s
  {
    if s == "video" then Some(Video)
    else if s == "audio" then Some(Audio)
    else if s == "image" then Some(Image)
    else if s == "document" then Some(Document)
    else None
  }

  function ParseAssetStatus(s: string): (r: Option<AssetStatus>)
    ensures r.Some? ==> AssetStatusName(r.value) == s
    ensures r.None? ==> forall x: AssetStatus :: AssetStatusName(x) != s
  {
    if s == "uploading" then Some(AssetStatus.Uploading)
    else if s == "processing" then Some(AssetStatus.Processing)
    else if s == "ready" then Some(Ready)
    else if s == "error" then Some(AssetStatus.Error)
    else if s == "deleted" then Some(Deleted)
    else None
  }

  function ParseUploadStatus(s: string): (r: Option<UploadStatus>)
    ensures r.Some? ==> UploadStatusName(r.value) == s
    ensures r.None? ==> forall x: UploadStatus :: UploadStatusName(x) != s
  {
    if s == "uploading" then Some(UploadStatus.Uploading)
    else if s == "processing" then Some(UploadStatus.Processing)
    else if s == "completed" then Some(Completed)
    else if s == "error" then Some(UploadStatus.Error)
    else None
  }

  function ParseSortBy(s: string): (r: Option<SortBy>)
    ensures r.Some? ==> SortByName(r.value) == s
    ensures r.None? ==> forall x: SortBy :: SortByName(x) != s
  {
    if s == "name" then Some(Name)
    else if s == "uploadedAt" then Some(UploadedAt)
    else if s == "fileSize" then Some(FileSize)
    else if s == "duration" then Some(Duration)
    else None
  }

  function ParseSortOrder(s: string): (r: Option<SortOrder>)
    ensures r.Some? ==> SortOrderName(r.value) == s
    ensures r.None? ==> forall x: SortOrder :: SortOrderName(x) != s
  {
    if s == "asc" then Some(Asc)
    else if s == "desc" then Some(Desc)
    else None
  }

  /** Each member's literal reads back as that member, so distinct members have distinct literals. */
  lemma LiteralsRoundTrip()
    ensures forall x: Role :: ParseRole(RoleName(x)) == Some(x)
    ensures forall x: Resource :: ParseResource(ResourceName(x)) == Some(x)
    ensures forall x: Action :: ParseAction(ActionName(x)) == Some(x)
    ensures forall x: FileType :: ParseFileType(FileTypeName(x)) == Some(x)
    ensures forall x: AssetStatus :: ParseAssetStatus(AssetStatusName(x)) == Some(x)
    ensures forall x: UploadStatus :: ParseUploadStatus(UploadStatusName(x)) == Some(x)
    ensures forall x: SortBy :: ParseSortBy(SortByName(x)) == Some(x)
    ensures forall x: SortOrder :: ParseSortOrder(SortOrderName(x)) == Some(x)
  {
  }

  /**
   * `assets.map(a => a.id === updated.id ? updated : a)`: how the editing pages
   * write the selected asset back into the list.
   */
  function ReplaceAsset(assets: seq<Asset>, updated: Asset): (r: seq<Asset>)
    ensures |r| == |assets|
    ensures forall k :: 0 <= k < |assets| && assets[k].id != updated.id ==> r[k] == assets[k]
    ensures forall k :: 0 <= k < |assets| && assets[k].id == updated.id ==> r[k] == updated
  {
    seq(|assets|, k requires 0 <= k < |assets| => if assets[k].id == updated.id then updated else assets[k])
  }

  /** The filters the library page starts with. */
  const InitialFilters := SearchFilters(Some(""), Some([]), Some([]), Some([]), None, None, Some(UploadedAt), Some(Desc))
}
