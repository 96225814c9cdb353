/**
 * Restore: the trash of deleted assets, its selection, restoring and
 * permanently deleting, and the "time ago" and m:ss labels of each row.
 */
module Restore {

  import opened Wrappers
  import opened Types
  import Text
  import Lists
  import Library

  /** The page state the trash handlers read and write. */
  datatype TrashState = TrashState(deleted: seq<Asset>, selected: seq<string>)

  /** `handleSelectAsset`, also run by each row's Restore button: toggles one id. */
  function SelectAsset(s: TrashState, id: string): (r: TrashState)
    ensures r.deleted == s.deleted
    ensures id in r.selected <==> id !in s.selected
    ensures forall u :: u != id ==> (u in r.selected <==> u in s.selected)
    ensures id !in s.selected ==> r.selected == s.selected + [id]
    ensures id in s.selected ==> Lists.IsSubsequence(r.selected, s.selected)
    ensures id in s.selected ==> multiset(r.selected) == multiset(s.selected)[id := 0]
  {
    s.(selected := Library.ToggleSelection(s.selected, id))
  }

  /** `handleSelectAll`: clears when the selection is as long as the trash, otherwise selects all ids. */
  function SelectAll(s: TrashState): (r: TrashState)
    ensures r.deleted == s.deleted
    ensures |s.selected| == |s.deleted| ==> r.selected == []
    ensures |s.selected| != |s.deleted| ==>
              |r.selected| == |s.deleted| && forall k :: 0 <= k < |s.deleted| ==> r.selected[k] == s.deleted[k].id
  {
    s.(selected := Library.SelectAll(s.selected, s.deleted))
  }

  /** Selecting all of a trash with nothing selected, then again, deselects everything. */
  lemma SelectAllTwice(s: TrashState)
    requires s.selected == [] && |s.deleted| > 0
    ensures SelectAll(SelectAll(s)) == s
  {
  }

  function NotSelected(selected: seq<string>): Asset -> bool {
    (a: Asset) => a.id !in selected
  }

  /**
   * `handleRestoreSelected`: a no-op with nothing selected; otherwise every
   * selected asset leaves the trash, the rest stay in order, and the selection
   * is cleared.
   */
  function RestoreSelected(s: TrashState): (r: TrashState)
    ensures s.selected == [] ==> r == s
    ensures s.selected != [] ==> r.selected == []
    ensures s.selected != [] ==> Lists.IsSubsequence(r.deleted, s.deleted)
    ensures s.selected != [] ==> forall k :: 0 <= k < |r.deleted| ==> r.deleted[k].id !in s.selected
    ensures s.selected != [] ==> forall k :: 0 <= k < |s.deleted| && s.deleted[k].id !in s.selected ==>
              s.deleted[k] in r.deleted
  {
    if |s.selected| == 0 then s
    else
      Lists.FilterIsSubsequence(NotSelected(s.selected), s.deleted);
      TrashState(Lists.Filter(NotSelected(s.selected), s.deleted), [])
  }

  /** Restoring removes exactly as many assets as the trash holds with a selected id. */
  lemma RestoreCount(s: TrashState)
    requires s.selected != []
    ensures |RestoreSelected(s).deleted| + Lists.Count((a: Asset) => a.id in s.selected, s.deleted) == |s.deleted|
  {
    CountSplit(NotSelected(s.selected), (a: Asset) => a.id in s.selected, s.deleted);
  }

  /** Whatever `p` drops, `q` keeps, when the two tests are complementary. */
  lemma {:induction false} CountSplit(p: Asset -> bool, q: Asset -> bool, xs: seq<Asset>)
    requires forall a :: p(a) <==> !q(a)
    ensures Lists.Count(p, xs) + Lists.Count(q, xs) == |xs|
  {
    if |xs| > 0 {
      Lists.CountCons(p, xs);
      Lists.CountCons(q, xs);
      CountSplit(p, q, xs[1..]);
    }
  }

  function OtherThan(id: string): Asset -> bool {
    (a: Asset) => a.id != id
  }

  /** `handlePermanentDelete` once confirmed: every asset with `id` goes, the selection is kept. */
  function PermanentDelete(s: TrashState, id: string): (r: TrashState)
    ensures r.selected == s.selected
    ensures Lists.IsSubsequence(r.deleted, s.deleted)
    ensures forall k :: 0 <= k < |r.deleted| ==> r.deleted[k].id != id
    ensures forall k :: 0 <= k < |s.deleted| && s.deleted[k].id != id ==> s.deleted[k] in r.deleted
    ensures forall a :: multiset(r.deleted)[a] == if a.id != id then multiset(s.deleted)[a] else 0
  {
    Lists.FilterIsSubsequence(OtherThan(id), s.deleted);
    Lists.FilterCounts(OtherThan(id), s.deleted);
    s.(deleted := Lists.Filter(OtherThan(id), s.deleted))
  }

  /**
   * Select-all compares lengths only: after a selected asset is deleted for good
   * its id stays selected, and select-all then clears the selection although the
   * remaining asset was never selected.
   */
  lemma StaleSelectionClears(a: Asset, b: Asset)
    requires a.id != b.id
    ensures var s := PermanentDelete(TrashState([a, b], [b.id]), b.id);
      && s.deleted == [a] && s.selected == [b.id] && a.id !in s.selected
      && SelectAll(s).selected == []
  {
    var s := PermanentDelete(TrashState([a, b], [b.id]), b.id);
    assert [a, b][1..] == [b];
    assert [b][1..] == [];
    assert s.deleted == [a];
  }

  // ---------------------------------------------------------------- labels

  const MsPerMinute := 60000
  const MsPerHour := 3600000
  const MsPerDay := 86400000

  /** "<n> <unit>" with the plural "s" exactly when `n` exceeds one, then " ago". */
  function Ago(n: int, unit: string): string {
    Text.IntToString(n) + " " + unit + (if n > 1 then "s" else "") + " ago"
  }

  /** `getTimeAgo` for a span of `ms` milliseconds: days if any, else hours if any, else minutes. */
  function TimeAgo(ms: int): (r: string)
    ensures ms / MsPerDay > 0 ==> r == Ago(ms / MsPerDay, "day")
    ensures ms / MsPerDay <= 0 && ms / MsPerHour > 0 ==> r == Ago(ms / MsPerHour, "hour")
    ensures ms / MsPerHour <= 0 ==> r == Ago(ms / MsPerMinute, "minute")
  {
    var days := ms / MsPerDay;
    var hours := ms / MsPerHour;
    if days > 0 then Ago(days, "day")
    else if hours > 0 then Ago(hours, "hour")
    else Ago(ms / MsPerMinute, "minute")
  }

  /** The unit follows the size of the span: days from 24 hours, hours from 60 minutes. */
  lemma TimeAgoUnits(ms: int)
    ensures ms >= MsPerDay ==> TimeAgo(ms) == Ago(ms / MsPerDay, "day")
    ensures MsPerHour <= ms < MsPerDay ==> TimeAgo(ms) == Ago(ms / MsPerHour, "hour")
    ensures ms < MsPerHour ==> TimeAgo(ms) == Ago(ms / MsPerMinute, "minute")
  {
  }

  /** Less than a minute ago reads "0 minute ago": the plural needs a count above one. */
  lemma UnderAMinute(ms: int)
    requires 0 <= ms < MsPerMinute
    ensures TimeAgo(ms) == "0 minute ago"
  {
    assert ms / MsPerMinute == 0;
    assert Text.IntToString(0) == "0";
  }

  /** `m:ss` for a duration in seconds: whole minutes, a colon, the seconds padded to two digits. */
  function DurationLabel(d: nat): string {
    Text.NatToString(d / 60) + ":" + Text.PadStart(Text.NatToString(d % 60), 2, '0')
  }

  /**
   * What `{asset.duration && <span>...</span>}` puts in the row: nothing for an
   * absent duration, the bare number 0 for a zero duration (the `&&` yields the
   * falsy 0, which React renders as text), and the `m:ss` label otherwise.
   */
  function DurationShown(a: Asset): (r: Option<string>)
    ensures r.None? <==> a.duration.None?
    ensures a.duration == Some(0) ==> r == Some("0")
    ensures a.duration.Some? && a.duration.value != 0 ==> r == Some(DurationLabel(a.duration.value))
  {
    match a.duration
    case None => None
    case Some(d) => if d == 0 then Some(Text.NatToString(0)) else Some(DurationLabel(d))
  }

  /** A zero duration shows "0", not the label "0:00" that the same duration formats to. */
  lemma ZeroDurationShownBare(a: Asset)
    requires a.duration == Some(0)
    ensures DurationShown(a) == Some("0") && DurationLabel(0) == "0:00"
  {
    assert Text.PadStart("0", 2, '0') == "00";
  }

  /** The seconds field always has two digits, and the two fields read back as the duration. */
  lemma DurationLabelRoundTrip(d: nat)
    ensures var secs := Text.PadStart(Text.NatToString(d % 60), 2, '0');
      && DurationLabel(d) == Text.NatToString(d / 60) + ":" + secs
      && |secs| == 2
      && (forall k :: 0 <= k < 2 ==> Text.IsDigit(secs[k]))
      && 60 * Text.ParseDigits(Text.NatToString(d / 60)) + Text.ParseDigits(secs) == d
  {
    var n := Text.NatToString(d % 60);
    var secs := Text.PadStart(n, 2, '0');
    Text.ShortNumeral(d % 60);
    Text.NatToStringRoundTrip(d / 60);
    Text.NatToStringRoundTrip(d % 60);
    if |n| < 2 {
      assert secs == "0" + n;
      Text.LeadingZeroIgnored(n);
    }
  }
}
