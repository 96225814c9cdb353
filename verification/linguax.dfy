/**
 * LinguaX: creating a localisation project for the selected asset, the
 * language flag lookup, the language checkboxes, and the timer callbacks that
 * move a project through its phases.
 */
module LinguaX {

  import opened Wrappers
  import Types
  import Lists

  datatype Gender = Male | Female | Neutral
  datatype TrackStatus = Generating | TrackReady | TrackProcessing
  datatype ProjectStatus = Transcribing | Translating | Dubbing | Completed

  /** A recognised subtitle line; times are seconds, `confidence` a fraction. */
  datatype Line = Line(
    id: string,
    language: string,
    content: string,
    startTime: real,
    endTime: real,
    confidence: real,
    speaker: Option<string>,
    translation: Option<string>)

  datatype DubbingTrack = DubbingTrack(
    id: string,
    language: string,
    voice: string,
    gender: Gender,
    accent: string,
    status: TrackStatus,
    progress: int,
    url: Option<string>)

  datatype Project = Project(
    id: string,
    name: string,
    assetId: string,
    subtitles: seq<Line>,
    dubbingTracks: seq<DubbingTrack>,
    languages: seq<string>,
    status: ProjectStatus,
    createdAt: int,
    updatedAt: int)

  datatype Language = Language(code: string, name: string, flag: string)
  datatype Voice = Voice(id: string, name: string, gender: Gender, accent: string)

  /** The page state `createLinguaXProject` reads and writes. */
  datatype LinguaState = LinguaState(projects: seq<Project>, selectedLanguages: seq<string>)

  /** The twelve languages offered, with their flags written as regional-indicator pairs. */
  const Languages: seq<Language> := [
    Language("en", "English", "\U{1F1FA}\U{1F1F8}"),
    Language("es", "Spanish", "\U{1F1EA}\U{1F1F8}"),
    Language("fr", "French", "\U{1F1EB}\U{1F1F7}"),
    Language("de", "German", "\U{1F1E9}\U{1F1EA}"),
    Language("it", "Italian", "\U{1F1EE}\U{1F1F9}"),
    Language("pt", "Portuguese", "\U{1F1F5}\U{1F1F9}"),
    Language("ru", "Russian", "\U{1F1F7}\U{1F1FA}"),
    Language("ja", "Japanese", "\U{1F1EF}\U{1F1F5}"),
    Language("ko", "Korean", "\U{1F1F0}\U{1F1F7}"),
    Language("zh", "Chinese", "\U{1F1E8}\U{1F1F3}"),
    Language("ar", "Arabic", "\U{1F1F8}\U{1F1E6}"),
    Language("hi", "Hindi", "\U{1F1EE}\U{1F1F3}")
  ]

  /** The globe shown for a code that is not in the table. */
  const GlobeFlag: string := "\U{1F310}"

  const Voices: seq<Voice> := [
    Voice("male-deep", "Deep Male", Male, "neutral"),
    Voice("male-warm", "Warm Male", Male, "american"),
    Voice("female-professional", "Professional Female", Female, "neutral"),
    Voice("female-friendly", "Friendly Female", Female, "british"),
    Voice("neutral-ai", "AI Neutral", Neutral, "neutral")
  ]

  function HasCode(code: string): Language -> bool {
    (l: Language) => l.code == code
  }

  /** `availableLanguages.find(lang => lang.code === code)`. */
  function FindLanguage(code: string): Option<Language> {
    Lists.Find(Languages, HasCode(code))
  }

  /** `getLanguageFlag`: the table's flag, or the globe when the code is unknown or its flag is empty. */
  function LanguageFlag(code: string): (r: string)
    ensures FindLanguage(code).None? ==> r == GlobeFlag
    ensures FindLanguage(code).Some? && FindLanguage(code).value.flag != "" ==>
              r == FindLanguage(code).value.flag
    ensures r != ""
  {
    match FindLanguage(code)
    case Some(l) => if l.flag != "" then l.flag else GlobeFlag
    case None => GlobeFlag
  }

  /** Every flag of the table is non-empty, so a known code never shows the globe. */
  lemma KnownCodesShowTheirFlag(k: nat)
    requires k < |Languages|
    ensures LanguageFlag(Languages[k].code) == Languages[k].flag
    ensures LanguageFlag(Languages[k].code) != GlobeFlag
  {
    KnownLanguageFound(k);
    FlagsPresent();
  }

  /** Every language of the table is found by its own code. */
  lemma KnownLanguageFound(k: nat)
    requires k < |Languages|
    ensures FindLanguage(Languages[k].code) == Some(Languages[k])
  {
    CodesDistinct();
    Lists.FindFirst(Languages, HasCode(Languages[k].code), k);
  }

  lemma CodesDistinct()
    ensures forall i, j :: 0 <= i < j < |Languages| ==> Languages[i].code != Languages[j].code
  {
  }

  lemma FlagsPresent()
    ensures forall j :: 0 <= j < |Languages| ==> Languages[j].flag != "" && Languages[j].flag != GlobeFlag
  {
  }

  function NotEnglish(lang: string): bool {
    lang != "en"
  }

  /** The dubbing track for one language: generating at 0% with the first voice. */
  function NewTrack(id: string, lang: string): (r: DubbingTrack)
    ensures r.id == id && r.url.None?
    ensures r.language == lang && r.status == Generating && r.progress == 0
    ensures r.voice == Voices[0].name && r.gender == Voices[0].gender && r.accent == Voices[0].accent
  {
    DubbingTrack(id, lang, Voices[0].name, Voices[0].gender, Voices[0].accent, Generating, 0, None)
  }

  /** One track per selected language other than "en", in selection order; ids come from `trackId`. */
  function Tracks(selected: seq<string>, trackId: nat -> string): (r: seq<DubbingTrack>)
    ensures |r| == |Lists.Filter(NotEnglish, selected)|
    ensures forall k :: 0 <= k < |r| ==> r[k] == NewTrack(trackId(k), Lists.Filter(NotEnglish, selected)[k])
    ensures forall k :: 0 <= k < |r| ==> r[k].language in selected && r[k].language != "en"
    ensures forall l :: l in selected && l != "en" ==> exists k :: 0 <= k < |r| && r[k].language == l
  {
    var langs := Lists.Filter(NotEnglish, selected);
    var r := seq(|langs|, k requires 0 <= k < |langs| => NewTrack(trackId(k), langs[k]));
    forall l | l in selected && l != "en" ensures exists k :: 0 <= k < |r| && r[k].language == l {
      Lists.FilterKeeps(NotEnglish, selected, l);
      var k :| 0 <= k < |langs| && langs[k] == l;
      assert r[k] == NewTrack(trackId(k), l);
    }
    r
  }

  /** The project listed one second after the request. */
  function NewProject(asset: Types.Asset, selected: seq<string>, freshId: string, trackId: nat -> string, now: int)
    : (r: Project)
    ensures r.id == freshId && r.assetId == asset.id && r.name == asset.originalName + " - LinguaX"
    ensures r.languages == selected && r.status == Transcribing && r.subtitles == []
    ensures r.createdAt == now && r.updatedAt == now
    ensures |r.dubbingTracks| == |Lists.Filter(NotEnglish, selected)|
    ensures forall k :: 0 <= k < |r.dubbingTracks| ==>
              r.dubbingTracks[k] == NewTrack(trackId(k), Lists.Filter(NotEnglish, selected)[k])
    ensures forall k :: 0 <= k < |r.dubbingTracks| ==>
              (r.dubbingTracks[k].language in selected && r.dubbingTracks[k].language != "en")
    ensures forall l :: l in selected && l != "en" ==>
              (exists k :: 0 <= k < |r.dubbingTracks| && r.dubbingTracks[k].language == l)
  {
    Project(freshId, asset.originalName + " - LinguaX", asset.id, [], Tracks(selected, trackId),
            selected, Transcribing, now, now)
  }

  /**
   * `createLinguaXProject` up to the moment the project is listed: a no-op
   * without an asset or languages; otherwise the project is prepended and the
   * selection goes back to English alone.
   */
  function CreateProject(s: LinguaState, selectedAsset: Option<Types.Asset>, freshId: string,
                         trackId: nat -> string, now: int): (r: LinguaState)
    ensures selectedAsset.None? || s.selectedLanguages == [] ==> r == s
    ensures selectedAsset.Some? && s.selectedLanguages != [] ==>
              && |r.projects| == |s.projects| + 1 && r.projects[1..] == s.projects
              && r.projects[0] == NewProject(selectedAsset.value, s.selectedLanguages, freshId, trackId, now)
              && r.selectedLanguages == ["en"]
  {
    if selectedAsset.None? || |s.selectedLanguages| == 0 then s
    else
      LinguaState([NewProject(selectedAsset.value, s.selectedLanguages, freshId, trackId, now)] + s.projects, ["en"])
  }

  /** Selecting only English makes a project without dubbing tracks. */
  lemma EnglishOnlyHasNoTracks(asset: Types.Asset, freshId: string, trackId: nat -> string, now: int)
    ensures NewProject(asset, ["en"], freshId, trackId, now).dubbingTracks == []
  {
    assert Lists.Filter(NotEnglish, ["en"]) == [] by {
      assert ["en"][1..] == [];
    }
  }

  // ---------------------------------------------------------------- progression

  /** The phase order; each callback sets the next phase outright. */
  function Rank(s: ProjectStatus): nat {
    match s
    case Transcribing => 0
    case Translating => 1
    case Dubbing => 2
    case Completed => 3
  }

  /** The callback at 3, 6 and 10 seconds: the phases after transcribing, in order. */
  function PhaseAfter(k: nat): (r: ProjectStatus)
    requires 1 <= k <= 3
    ensures Rank(r) == k
  {
    if k == 1 then Translating else if k == 2 then Dubbing else Completed
  }

  /** `prev.map(p => p.id === id ? { ...p, status } : p)`. */
  function SetStatus(ps: seq<Project>, id: string, status: ProjectStatus): (r: seq<Project>)
    ensures |r| == |ps|
    ensures forall k :: 0 <= k < |ps| && ps[k].id != id ==> r[k] == ps[k]
    ensures forall k :: 0 <= k < |ps| && ps[k].id == id ==> r[k] == ps[k].(status := status)
  {
    seq(|ps|, k requires 0 <= k < |ps| => if ps[k].id == id then ps[k].(status := status) else ps[k])
  }

  /**
   * The three status callbacks, applied in order to the list the new project was
   * just prepended to: the project goes translating, dubbing, completed, each
   * phase of a higher rank, and no other project changes.
   */
  lemma PhasesAdvance(s: LinguaState, asset: Types.Asset, freshId: string, trackId: nat -> string, now: int)
    requires s.selectedLanguages != []
    requires forall k :: 0 <= k < |s.projects| ==> s.projects[k].id != freshId
    ensures var created := CreateProject(s, Some(asset), freshId, trackId, now).projects;
      var p1 := SetStatus(created, freshId, PhaseAfter(1));
      var p2 := SetStatus(p1, freshId, PhaseAfter(2));
      var p3 := SetStatus(p2, freshId, PhaseAfter(3));
      && created[0].status == Transcribing
      && p1[0] == created[0].(status := Translating)
      && p2[0] == created[0].(status := Dubbing)
      && p3[0] == created[0].(status := Completed)
      && Rank(created[0].status) < Rank(p1[0].status) < Rank(p2[0].status) < Rank(p3[0].status)
      && p1[1..] == s.projects && p2[1..] == s.projects && p3[1..] == s.projects
  {
    var created := CreateProject(s, Some(asset), freshId, trackId, now).projects;
    var p1 := SetStatus(created, freshId, PhaseAfter(1));
    var p2 := SetStatus(p1, freshId, PhaseAfter(2));
    SetStatusKeepsTail(created, freshId, PhaseAfter(1), s.projects);
    SetStatusKeepsTail(p1, freshId, PhaseAfter(2), s.projects);
    SetStatusKeepsTail(p2, freshId, PhaseAfter(3), s.projects);
  }

  /** The status update leaves every project after the first alone when none of them has the id. */
  lemma SetStatusKeepsTail(ps: seq<Project>, id: string, status: ProjectStatus, rest: seq<Project>)
    requires |ps| > 0 && ps[1..] == rest
    requires forall k :: 0 <= k < |rest| ==> rest[k].id != id
    ensures SetStatus(ps, id, status)[1..] == rest
  {
    var r := SetStatus(ps, id, status);
    forall k | 0 <= k < |rest| ensures r[k + 1] == rest[k] {
      assert ps[k + 1] == rest[k];
    }
  }
}
