/**
 * Subtitles: adding, editing and deleting the subtitles of the selected
 * asset, the subtitle shown at the player's current time, and language names.
 */
module Subtitles {

  import opened Wrappers
  import opened Types
  import Text
  import Lists

  /** The add/edit form; times are seconds. */
  datatype Form = Form(language: string, content: string, startTime: real, endTime: real)

  const EmptyForm := Form("", "", 0.0, 0.0)

  /** The page state the subtitle handlers read and write. */
  datatype SubtitleState = SubtitleState(
    assets: seq<Asset>,
    selected: Option<Asset>,
    editing: Option<Subtitle>,
    form: Form,
    showForm: bool)

  /** The form is rejected when its trimmed content is empty or no language is chosen. */
  predicate FormUsable(f: Form) {
    !Text.IsBlank(f.content) && f.language != ""
  }

  /** The asset with `subs` as its subtitles, written back to the selection and the list. */
  function WithSubtitles(s: SubtitleState, a: Asset, subs: seq<Subtitle>): SubtitleState {
    var updated := a.(subtitles := subs);
    s.(selected := Some(updated), assets := ReplaceAsset(s.assets, updated))
  }

  /** `handleAddSubtitle`: appends one subtitle for the selected asset, with the content as typed. */
  function AddSubtitle(s: SubtitleState, freshId: string, now: int): (r: SubtitleState)
    ensures s.selected.None? || !FormUsable(s.form) ==> r == s
    ensures s.selected.Some? && FormUsable(s.form) ==>
              var a := s.selected.value;
              && r.selected.Some? && r.selected.value.id == a.id
              && r.selected.value == a.(subtitles := r.selected.value.subtitles)
              && |r.selected.value.subtitles| == |a.subtitles| + 1
              && r.selected.value.subtitles[..|a.subtitles|] == a.subtitles
              && r.selected.value.subtitles[|a.subtitles|] ==
                   Subtitle(freshId, s.form.language, s.form.content, s.form.startTime, s.form.endTime, a.id, now, now)
              && r.assets == ReplaceAsset(s.assets, r.selected.value)
              && r.form == EmptyForm && !r.showForm && r.editing == s.editing
  {
    if s.selected.None? || !FormUsable(s.form) then s
    else
      var a := s.selected.value;
      var sub := Subtitle(freshId, s.form.language, s.form.content, s.form.startTime, s.form.endTime, a.id, now, now);
      WithSubtitles(s, a, a.subtitles + [sub]).(form := EmptyForm, showForm := false)
  }

  /** `handleEditSubtitle`: the form is filled from the subtitle and opened. */
  function EditSubtitle(s: SubtitleState, sub: Subtitle): (r: SubtitleState)
    ensures r.editing == Some(sub) && r.showForm
    ensures r.form == Form(sub.language, sub.content, sub.startTime, sub.endTime)
    ensures r.assets == s.assets && r.selected == s.selected
  {
    s.(editing := Some(sub), form := Form(sub.language, sub.content, sub.startTime, sub.endTime), showForm := true)
  }

  function Edited(sub: Subtitle, f: Form, now: int): Subtitle {
    sub.(language := f.language, content := f.content, startTime := f.startTime, endTime := f.endTime, updatedAt := now)
  }

  /** `handleUpdateSubtitle`: every subtitle with the edited id takes the form's four fields. */
  function UpdateSubtitle(s: SubtitleState, now: int): (r: SubtitleState)
    ensures s.selected.None? || s.editing.None? || !FormUsable(s.form) ==> r == s
    ensures s.selected.Some? && s.editing.Some? && FormUsable(s.form) ==>
              var subs := s.selected.value.subtitles;
              && r.selected.Some? && r.selected.value == s.selected.value.(subtitles := r.selected.value.subtitles)
              && |r.selected.value.subtitles| == |subs|
              && (forall k :: 0 <= k < |subs| && subs[k].id != s.editing.value.id ==> r.selected.value.subtitles[k] == subs[k])
              && (forall k :: 0 <= k < |subs| && subs[k].id == s.editing.value.id ==>
                    r.selected.value.subtitles[k] == Edited(subs[k], s.form, now))
              && r.assets == ReplaceAsset(s.assets, r.selected.value)
              && r.editing.None? && r.form == EmptyForm && !r.showForm
  {
    if s.selected.None? || s.editing.None? || !FormUsable(s.form) then s
    else
      var a := s.selected.value;
      var id := s.editing.value.id;
      var subs := seq(|a.subtitles|, k requires 0 <= k < |a.subtitles| =>
                      if a.subtitles[k].id == id then Edited(a.subtitles[k], s.form, now) else a.subtitles[k]);
      WithSubtitles(s, a, subs).(editing := None, form := EmptyForm, showForm := false)
  }

  /** Editing a subtitle and saving the form unchanged keeps its text and times; only `updatedAt` moves. */
  lemma EditThenSaveKeepsContent(s: SubtitleState, k: nat, now: int)
    requires s.selected.Some? && k < |s.selected.value.subtitles|
    requires FormUsable(Form(s.selected.value.subtitles[k].language, s.selected.value.subtitles[k].content,
                             s.selected.value.subtitles[k].startTime, s.selected.value.subtitles[k].endTime))
    ensures var r := UpdateSubtitle(EditSubtitle(s, s.selected.value.subtitles[k]), now);
      r.selected.value.subtitles[k] == s.selected.value.subtitles[k].(updatedAt := now)
  {
  }

  function OtherThan(id: string): Subtitle -> bool {
    (sub: Subtitle) => sub.id != id
  }

  /** `handleDeleteSubtitle`: every subtitle with `id` goes, the others stay in order. */
  function DeleteSubtitle(s: SubtitleState, id: string): (r: SubtitleState)
    ensures s.selected.None? ==> r == s
    ensures s.selected.Some? ==>
              && r.selected.Some?
              && r.selected.value == s.selected.value.(subtitles := r.selected.value.subtitles)
              && Lists.IsSubsequence(r.selected.value.subtitles, s.selected.value.subtitles)
              && (forall k :: 0 <= k < |r.selected.value.subtitles| ==> r.selected.value.subtitles[k].id != id)
              && (forall k :: 0 <= k < |s.selected.value.subtitles| && s.selected.value.subtitles[k].id != id ==>
                    s.selected.value.subtitles[k] in r.selected.value.subtitles)
              && (forall x :: multiset(r.selected.value.subtitles)[x] ==
                    if x.id != id then multiset(s.selected.value.subtitles)[x] else 0)
              && r.assets == ReplaceAsset(s.assets, r.selected.value)
  {
    match s.selected
    case None => s
    case Some(a) =>
      Lists.FilterIsSubsequence(OtherThan(id), a.subtitles);
      Lists.FilterCounts(OtherThan(id), a.subtitles);
      WithSubtitles(s, a, Lists.Filter(OtherThan(id), a.subtitles))
  }

  /** Deleting the same id twice leaves the subtitles as deleting it once. */
  lemma DeleteIdempotent(s: SubtitleState, id: string)
    requires s.selected.Some?
    ensures DeleteSubtitle(DeleteSubtitle(s, id), id).selected == DeleteSubtitle(s, id).selected
  {
    Lists.FilterIdempotent(OtherThan(id), s.selected.value.subtitles);
  }

  /** Adding a subtitle under an unused id and deleting it gives back the original subtitles. */
  lemma AddThenDelete(s: SubtitleState, freshId: string, now: int)
    requires s.selected.Some? && FormUsable(s.form)
    requires forall k :: 0 <= k < |s.selected.value.subtitles| ==> s.selected.value.subtitles[k].id != freshId
    ensures DeleteSubtitle(AddSubtitle(s, freshId, now), freshId).selected == s.selected
  {
    var a := s.selected.value;
    var sub := Subtitle(freshId, s.form.language, s.form.content, s.form.startTime, s.form.endTime, a.id, now, now);
    Lists.FilterDropsAppended(OtherThan(freshId), a.subtitles, sub);
  }

  // ---------------------------------------------------------------- lookups

  predicate ShownAt(sub: Subtitle, t: real) {
    sub.startTime <= t <= sub.endTime
  }

  function ShownAtTime(t: real): Subtitle -> bool {
    (sub: Subtitle) => ShownAt(sub, t)
  }

  /**
   * `getCurrentSubtitle`: nothing without an asset, else
   * `subtitles.find(sub => t >= sub.startTime && t <= sub.endTime)`.
   */
  function CurrentSubtitle(selected: Option<Asset>, t: real): (r: Option<Subtitle>)
    ensures selected.None? ==> r.None?
    ensures r.Some? ==> r.value in selected.value.subtitles && ShownAt(r.value, t)
    ensures r.Some? ==> exists k :: 0 <= k < |selected.value.subtitles| && selected.value.subtitles[k] == r.value &&
                          forall j :: 0 <= j < k ==> !ShownAt(selected.value.subtitles[j], t)
    ensures selected.Some? ==> (r.None? <==> forall k :: 0 <= k < |selected.value.subtitles| ==> !ShownAt(selected.value.subtitles[k], t))
  {
    match selected
    case None => None
    case Some(a) => Lists.Find(a.subtitles, ShownAtTime(t))
  }

  /** A subtitle whose start lies after its end, which adding does not prevent, is never current. */
  lemma InvertedNeverCurrent(selected: Option<Asset>, t: real, sub: Subtitle)
    requires sub.startTime > sub.endTime
    ensures CurrentSubtitle(selected, t) != Some(sub)
  {
  }

  /** The nine language names the page knows. */
  const LanguageNames: seq<(string, string)> := [
    ("en", "English"), ("es", "Spanish"), ("fr", "French"), ("de", "German"), ("it", "Italian"),
    ("pt", "Portuguese"), ("ja", "Japanese"), ("ko", "Korean"), ("zh", "Chinese")
  ]

  function LookupName(table: seq<(string, string)>, code: string): (r: Option<string>)
    ensures r.Some? ==> (code, r.value) in table
    ensures r.None? <==> forall k :: 0 <= k < |table| ==> table[k].0 != code
  {
    if |table| == 0 then None
    else if table[0].0 == code then Some(table[0].1)
    else LookupName(table[1..], code)
  }

  /** `getLanguageName`: the table's name, or the code in upper case. */
  function LanguageName(code: string): (r: string)
    ensures LookupName(LanguageNames, code).Some? ==> r == LookupName(LanguageNames, code).value
    ensures LookupName(LanguageNames, code).None? ==> r == Text.Upper(code)
  {
    match LookupName(LanguageNames, code)
    case Some(name) => if name != "" then name else Text.Upper(code)
    case None => Text.Upper(code)
  }

  /** Each of the nine codes has its own name; any other code is shown upper-cased. */
  lemma KnownLanguageNames(k: nat, code: string)
    requires k < |LanguageNames|
    requires forall j :: 0 <= j < |LanguageNames| ==> LanguageNames[j].0 != code
    ensures LanguageName(LanguageNames[k].0) == LanguageNames[k].1
    ensures LanguageName(code) == Text.Upper(code)
  {
    assert forall i, j :: 0 <= i < j < |LanguageNames| ==> LanguageNames[i].0 != LanguageNames[j].0;
  }
}
