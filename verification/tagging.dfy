/**
 * Tagging: applying and removing tags on the selected asset, creating a new
 * tag, and the toggle behind each available tag's button.
 */
module Tagging {

  import opened Wrappers
  import opened Types
  import Text
  import Lists

  const DefaultColor := "#3B82F6"
  const DefaultCategory := "Custom"

  /** The page state the tag handlers read and write. */
  datatype TagState = TagState(
    assets: seq<Asset>,
    selected: Option<Asset>,
    available: seq<Tag>,
    newName: string,
    newCategory: string,
    newColor: string,
    showAddTag: bool)

  /** The selected asset with `tags`, written back to the selection and to the list. */
  function WithTags(s: TagState, a: Asset, tags: seq<Tag>): TagState {
    var updated := a.(tags := tags);
    s.(selected := Some(updated), assets := ReplaceAsset(s.assets, updated))
  }

  /** `isTagApplied`: some tag of the selected asset has the id; false without a selection. */
  function IsTagApplied(s: TagState, tagId: string): (r: bool)
    ensures s.selected.None? ==> !r
    ensures s.selected.Some? ==> (r <==> exists t :: t in s.selected.value.tags && t.id == tagId)
  {
    match s.selected
    case None => false
    case Some(a) => exists t :: t in a.tags && t.id == tagId
  }

  /** `addTagToAsset`: appends the tag, without looking for one with the same id. */
  function AddTag(s: TagState, tag: Tag): (r: TagState)
    ensures s.selected.None? ==> r == s
    ensures s.selected.Some? ==>
              && r.selected == Some(s.selected.value.(tags := s.selected.value.tags + [tag]))
              && r.assets == ReplaceAsset(s.assets, r.selected.value)
              && r.available == s.available
    ensures s.selected.Some? ==> IsTagApplied(r, tag.id)
  {
    match s.selected
    case None => s
    case Some(a) =>
      var r := WithTags(s, a, a.tags + [tag]);
      assert tag in r.selected.value.tags;
      r
  }

  function OtherThan(tagId: string): Tag -> bool {
    (t: Tag) => t.id != tagId
  }

  /** `removeTagFromAsset`: every tag with the id goes, the others stay in order. */
  function RemoveTag(s: TagState, tagId: string): (r: TagState)
    ensures s.selected.None? ==> r == s
    ensures s.selected.Some? ==>
              && r.selected.Some?
              && r.selected.value == s.selected.value.(tags := r.selected.value.tags)
              && Lists.IsSubsequence(r.selected.value.tags, s.selected.value.tags)
              && (forall t :: t in s.selected.value.tags && t.id != tagId ==> t in r.selected.value.tags)
              && (forall t :: multiset(r.selected.value.tags)[t] == if t.id != tagId then multiset(s.selected.value.tags)[t] else 0)
              && r.assets == ReplaceAsset(s.assets, r.selected.value)
              && r.available == s.available
    ensures !IsTagApplied(r, tagId)
  {
    match s.selected
    case None => s
    case Some(a) =>
      Lists.FilterIsSubsequence(OtherThan(tagId), a.tags);
      Lists.FilterCounts(OtherThan(tagId), a.tags);
      var kept := Lists.Filter(OtherThan(tagId), a.tags);
      assert forall t :: t in kept ==> t.id != tagId by {
        forall t | t in kept ensures t.id != tagId {
          var k :| 0 <= k < |kept| && kept[k] == t;
        }
      }
      WithTags(s, a, kept)
  }

  /** The button of an available tag: remove it when applied, apply it otherwise. */
  function ClickTag(s: TagState, tag: Tag): (r: TagState)
    ensures s.selected.Some? ==> (IsTagApplied(r, tag.id) <==> !IsTagApplied(s, tag.id))
    ensures s.selected.None? ==> r == s
  {
    if IsTagApplied(s, tag.id) then RemoveTag(s, tag.id) else AddTag(s, tag)
  }

  /** No two tags of the list share an id. */
  predicate DistinctTagIds(tags: seq<Tag>) {
    forall i, j :: 0 <= i < j < |tags| ==> tags[i].id != tags[j].id
  }

  /** Clicking available tags never gives the selected asset two tags with one id. */
  lemma ClickKeepsIdsDistinct(s: TagState, tag: Tag)
    requires s.selected.Some? && DistinctTagIds(s.selected.value.tags)
    ensures ClickTag(s, tag).selected.Some?
    ensures DistinctTagIds(ClickTag(s, tag).selected.value.tags)
  {
    var tags := s.selected.value.tags;
    if IsTagApplied(s, tag.id) {
      var kept := ClickTag(s, tag).selected.value.tags;
      assert kept == Lists.Filter(OtherThan(tag.id), tags);
      SubsequenceKeepsDistinct(kept, tags);
    } else {
      var grown := tags + [tag];
      forall i, j | 0 <= i < j < |grown| ensures grown[i].id != grown[j].id {
        if j == |tags| {
          assert grown[i] in tags;
        }
      }
    }
  }

  /** Leaving tags out of a list with distinct ids keeps the ids distinct. */
  lemma {:induction false} SubsequenceKeepsDistinct(a: seq<Tag>, b: seq<Tag>)
    requires Lists.IsSubsequence(a, b) && DistinctTagIds(b)
    ensures DistinctTagIds(a)
    decreases |b|
  {
    if |a| > 0 && |b| > 0 {
      if a[0] == b[0] {
        SubsequenceKeepsDistinct(a[1..], b[1..]);
        Lists.SubsequenceMembers(a[1..], b[1..]);
        forall j | 0 < j < |a| ensures a[0].id != a[j].id {
          assert a[1..][j - 1] == a[j];
          assert a[j] in a[1..];
          var k :| 0 <= k < |b[1..]| && b[1..][k] == a[j];
          assert b[k + 1] == a[j];
        }
      } else {
        SubsequenceKeepsDistinct(a, b[1..]);
      }
    }
  }

  /** Clicking the same available tag twice on an asset that lacked it restores its tags. */
  lemma ClickTwiceRestores(s: TagState, tag: Tag)
    requires s.selected.Some? && !IsTagApplied(s, tag.id)
    ensures ClickTag(ClickTag(s, tag), tag).selected == s.selected
  {
    var a := s.selected.value;
    var once := AddTag(s, tag);
    assert ClickTag(s, tag) == once;
    assert IsTagApplied(once, tag.id);
    assert ClickTag(once, tag) == RemoveTag(once, tag.id);
    assert forall k :: 0 <= k < |a.tags| ==> a.tags[k].id != tag.id by {
      assert forall k :: 0 <= k < |a.tags| ==> a.tags[k] in a.tags;
    }
    Lists.FilterDropsAppended(OtherThan(tag.id), a.tags, tag);
  }

  /** `newTagCategory || 'Custom'`. */
  function CategoryOrDefault(category: string): (r: string)
    ensures r != ""
    ensures category != "" ==> r == category
  {
    if category != "" then category else DefaultCategory
  }

  /** `createNewTag`: a tag from the form, offered among the available tags and applied to the selection. */
  function CreateNewTag(s: TagState, freshId: string, now: int): (r: TagState)
    ensures Text.IsBlank(s.newName) ==> r == s
    ensures !Text.IsBlank(s.newName) ==>
              var tag := Tag(freshId, s.newName, s.newColor, CategoryOrDefault(s.newCategory), now);
              && r.available == s.available + [tag]
              && (s.selected.Some? ==>
                    && r.selected == Some(s.selected.value.(tags := s.selected.value.tags + [tag]))
                    && r.assets == ReplaceAsset(s.assets, r.selected.value)
                    && IsTagApplied(r, freshId))
              && (s.selected.None? ==> r.selected.None? && r.assets == s.assets)
              && r.newName == "" && r.newCategory == "" && r.newColor == DefaultColor && !r.showAddTag
  {
    if Text.IsBlank(s.newName) then s
    else
      var tag := Tag(freshId, s.newName, s.newColor, CategoryOrDefault(s.newCategory), now);
      var applied := AddTag(s, tag);
      applied.(available := s.available + [tag], newName := "", newCategory := "", newColor := DefaultColor,
               showAddTag := false)
  }
}
