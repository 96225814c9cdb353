/**
 * The asset library's query: the filter-and-sort effect that recomputes the
 * visible assets whenever the assets or the filters change, and the handlers
 * that toggle filter values and selected assets.
 */
module Library {

  import opened Wrappers
  import opened Types
  import opened Text
  import Lists

  // ---------------------------------------------------------------- filtering

  /** Some tag's lower-cased name contains `q`. */
  predicate SomeTagNameContains(tags: seq<Tag>, q: string) {
    exists i :: 0 <= i < |tags| && Contains(Lower(tags[i].name), q)
  }

  /** The search test for an already lower-cased query. */
  predicate MatchesQuery(a: Asset, q: string) {
    || Contains(Lower(a.originalName), q)
    || Contains(Lower(a.filename), q)
    || SomeTagNameContains(a.tags, q)
  }

  /** A list filter takes part only when it is present and non-empty. */
  predicate IsActive(l: Option<seq<string>>) {
    l.Some? && |l.value| > 0
  }

  /** The query takes part only when it is a non-empty string (JavaScript truthiness). */
  predicate QueryActive(f: SearchFilters) {
    f.query.Some? && f.query.value != ""
  }

  predicate PassesQuery(f: SearchFilters, a: Asset) {
    QueryActive(f) ==> MatchesQuery(a, Lower(f.query.value))
  }

  predicate PassesFileType(f: SearchFilters, a: Asset) {
    IsActive(f.fileType) ==> FileTypeName(a.fileType) in f.fileType.value
  }

  predicate PassesStatus(f: SearchFilters, a: Asset) {
    IsActive(f.status) ==> AssetStatusName(a.status) in f.status.value
  }

  predicate PassesTags(f: SearchFilters, a: Asset) {
    IsActive(f.tags) ==> exists i :: 0 <= i < |a.tags| && a.tags[i].id in f.tags.value
  }

  predicate PassesAll(f: SearchFilters, a: Asset) {
    PassesQuery(f, a) && PassesFileType(f, a) && PassesStatus(f, a) && PassesTags(f, a)
  }

  function QueryTest(f: SearchFilters): Asset -> bool {
    a => PassesQuery(f, a)
  }

  function FileTypeTest(f: SearchFilters): Asset -> bool {
    a => PassesFileType(f, a)
  }

  function StatusTest(f: SearchFilters): Asset -> bool {
    a => PassesStatus(f, a)
  }

  function TagsTest(f: SearchFilters): Asset -> bool {
    a => PassesTags(f, a)
  }

  /**
   * The four filter stages in source order: query, file type, status, tags.
   * A stage whose filter is inactive keeps every asset.
   */
  function FilterAssets(assets: seq<Asset>, f: SearchFilters): (r: seq<Asset>)
    ensures multiset(r) <= multiset(assets)
    ensures Lists.IsSubsequence(r, assets)
    ensures forall a :: a in r ==> PassesAll(f, a)
    ensures forall a :: a in assets && PassesAll(f, a) ==> a in r
    ensures forall a :: multiset(r)[a] == if PassesAll(f, a) then multiset(assets)[a] else 0
    ensures !QueryActive(f) && !IsActive(f.fileType) && !IsActive(f.status) && !IsActive(f.tags) ==> r == assets
  {
    FourStages(assets, f);
    InactiveFiltersKeepAll(assets, f);
    Stages(assets, f)
  }

  /** The four stages as `filter` calls, one after the other. */
  function Stages(assets: seq<Asset>, f: SearchFilters): seq<Asset> {
    Lists.Filter(TagsTest(f), Lists.Filter(StatusTest(f), Lists.Filter(FileTypeTest(f), Lists.Filter(QueryTest(f), assets))))
  }

  lemma FourStages(assets: seq<Asset>, f: SearchFilters)
    ensures multiset(Stages(assets, f)) <= multiset(assets)
    ensures Lists.IsSubsequence(Stages(assets, f), assets)
    ensures forall a :: a in Stages(assets, f) ==> PassesAll(f, a)
    ensures forall a :: a in assets && PassesAll(f, a) ==> a in Stages(assets, f)
    ensures forall a :: multiset(Stages(assets, f))[a] == if PassesAll(f, a) then multiset(assets)[a] else 0
  {
    Lists.FilterFour(QueryTest(f), FileTypeTest(f), StatusTest(f), TagsTest(f), assets);
    forall a ensures PassesAll(f, a) <==> QueryTest(f)(a) && FileTypeTest(f)(a) && StatusTest(f)(a) && TagsTest(f)(a) {
      TestsAgree(f, a);
    }
  }

  /** The four callbacks together test exactly `PassesAll`. */
  lemma TestsAgree(f: SearchFilters, a: Asset)
    ensures PassesAll(f, a) <==> QueryTest(f)(a) && FileTypeTest(f)(a) && StatusTest(f)(a) && TagsTest(f)(a)
  {
  }

  lemma InactiveFiltersKeepAll(assets: seq<Asset>, f: SearchFilters)
    ensures !QueryActive(f) && !IsActive(f.fileType) && !IsActive(f.status) && !IsActive(f.tags) ==>
      Stages(assets, f) == assets
  {
    if !QueryActive(f) && !IsActive(f.fileType) && !IsActive(f.status) && !IsActive(f.tags) {
      assert forall a :: QueryTest(f)(a) && FileTypeTest(f)(a) && StatusTest(f)(a) && TagsTest(f)(a);
      assert Lists.Filter(QueryTest(f), assets) == assets;
      assert Lists.Filter(FileTypeTest(f), assets) == assets;
      assert Lists.Filter(StatusTest(f), assets) == assets;
    }
  }

  // ---------------------------------------------------------------- sorting

  /** The value compared for one asset: a number, or a string for `name`. */
  datatype SortKey = NumKey(n: int) | TextKey(s: string)

  /** The key the comparator reads; `uploadedAt` is also the key for an absent `sortBy`. */
  function SortKeyOf(a: Asset, sortBy: Option<SortBy>): SortKey {
    match sortBy
    case Some(Name) => TextKey(a.originalName)
    case Some(FileSize) => NumKey(a.fileSize)
    case Some(Duration) => NumKey(a.duration.GetOr(0))
    case _ => NumKey(a.uploadedAt)
  }

  /** JavaScript `<` between two keys of one kind (the kinds are never mixed in one sort). */
  predicate KeyLess(a: SortKey, b: SortKey) {
    match (a, b)
    case (NumKey(x), NumKey(y)) => x < y
    case (TextKey(x), TextKey(y)) => StrLess(x, y)
    case (NumKey(_), TextKey(_)) => true
    case (TextKey(_), NumKey(_)) => false
  }

  lemma KeyLessIrreflexive(a: SortKey)
    ensures !KeyLess(a, a)
  {
    if a.TextKey? {
      StrLessIrreflexive(a.s);
    }
  }

  lemma KeyLessTransitive(a: SortKey, b: SortKey, c: SortKey)
    requires KeyLess(a, b) && KeyLess(b, c)
    ensures KeyLess(a, c)
  {
    if a.TextKey? && b.TextKey? && c.TextKey? {
      StrLessTransitive(a.s, b.s, c.s);
    }
  }

  lemma KeyLessTotal(a: SortKey, b: SortKey)
    requires a != b
    ensures KeyLess(a, b) || KeyLess(b, a)
  {
    if a.TextKey? && b.TextKey? {
      StrLessTotal(a.s, b.s);
    }
  }

  /** "Not less than" chains: from b <= a and c <= b follows c <= a. */
  lemma NotLessTransitive(a: SortKey, b: SortKey, c: SortKey)
    requires !KeyLess(b, a) && !KeyLess(c, b)
    ensures !KeyLess(c, a)
  {
    if KeyLess(c, a) {
      if a == b {
      } else {
        KeyLessTotal(a, b);
        KeyLessTransitive(c, a, b);
      }
    }
  }

  /**
   * The sort callback: `aValue > bValue ? 1 : -1` for `asc`, and
   * `aValue < bValue ? 1 : -1` otherwise. It never answers 0.
   */
  function Compare(a: Asset, b: Asset, sortBy: Option<SortBy>, order: Option<SortOrder>): (r: int)
    ensures r == 1 || r == -1
    ensures order == Some(Asc) ==> (r == 1 <==> KeyLess(SortKeyOf(b, sortBy), SortKeyOf(a, sortBy)))
    ensures order != Some(Asc) ==> (r == 1 <==> KeyLess(SortKeyOf(a, sortBy), SortKeyOf(b, sortBy)))
  {
    var ka := SortKeyOf(a, sortBy);
    var kb := SortKeyOf(b, sortBy);
    if order == Some(Asc) then (if KeyLess(kb, ka) then 1 else -1)
    else (if KeyLess(ka, kb) then 1 else -1)
  }

  /** `a` may stay in front of `b`: the comparator does not ask for `a` to move behind `b`. */
  predicate MayPrecede(a: Asset, b: Asset, sortBy: Option<SortBy>, order: Option<SortOrder>) {
    Compare(a, b, sortBy, order) == -1
  }

  /** No pair of the sequence is out of order for the comparator. */
  predicate IsSorted(s: seq<Asset>, sortBy: Option<SortBy>, order: Option<SortOrder>) {
    forall i, j :: 0 <= i < j < |s| ==> MayPrecede(s[i], s[j], sortBy, order)
  }

  /** Whenever `a` must go behind `b`, `b` may go in front of `a`. */
  lemma SwapAllowed(a: Asset, b: Asset, sortBy: Option<SortBy>, order: Option<SortOrder>)
    requires !MayPrecede(a, b, sortBy, order)
    ensures MayPrecede(b, a, sortBy, order)
  {
    var ka := SortKeyOf(a, sortBy);
    var kb := SortKeyOf(b, sortBy);
    if KeyLess(ka, kb) && KeyLess(kb, ka) {
      KeyLessTransitive(ka, kb, ka);
      KeyLessIrreflexive(ka);
    }
  }

  /** "May precede" is transitive. */
  lemma MayPrecedeTransitive(a: Asset, b: Asset, c: Asset, sortBy: Option<SortBy>, order: Option<SortOrder>)
    requires MayPrecede(a, b, sortBy, order) && MayPrecede(b, c, sortBy, order)
    ensures MayPrecede(a, c, sortBy, order)
  {
    var ka, kb, kc := SortKeyOf(a, sortBy), SortKeyOf(b, sortBy), SortKeyOf(c, sortBy);
    if order == Some(Asc) {
      NotLessTransitive(ka, kb, kc);
    } else {
      NotLessTransitive(kc, kb, ka);
    }
  }

  /** Places `x` in front of the first element it may precede. */
  function Insert(x: Asset, s: seq<Asset>, sortBy: Option<SortBy>, order: Option<SortOrder>): (r: seq<Asset>)
    requires IsSorted(s, sortBy, order)
    ensures multiset(r) == multiset(s) + multiset{x}
    ensures IsSorted(r, sortBy, order)
  {
    if |s| == 0 then [x]
    else if MayPrecede(x, s[0], sortBy, order) then
      InsertFront(x, s, sortBy, order);
      [x] + s
    else
      var rest := Insert(x, s[1..], sortBy, order);
      SwapAllowed(x, s[0], sortBy, order);
      assert s == [s[0]] + s[1..];
      InsertBehind(s[0], x, s[1..], rest, sortBy, order);
      [s[0]] + rest
  }

  lemma InsertFront(x: Asset, s: seq<Asset>, sortBy: Option<SortBy>, order: Option<SortOrder>)
    requires |s| > 0 && IsSorted(s, sortBy, order) && MayPrecede(x, s[0], sortBy, order)
    ensures IsSorted([x] + s, sortBy, order)
  {
    forall j | 1 <= j < |s| ensures MayPrecede(x, s[j], sortBy, order) {
      MayPrecedeTransitive(x, s[0], s[j], sortBy, order);
    }
  }

  lemma InsertBehind(y: Asset, x: Asset, s: seq<Asset>, rest: seq<Asset>, sortBy: Option<SortBy>, order: Option<SortOrder>)
    requires IsSorted([y] + s, sortBy, order) && MayPrecede(y, x, sortBy, order)
    requires IsSorted(rest, sortBy, order) && multiset(rest) == multiset(s) + multiset{x}
    ensures IsSorted([y] + rest, sortBy, order)
  {
    forall j | 0 <= j < |rest| ensures MayPrecede(y, rest[j], sortBy, order) {
      assert rest[j] in multiset(rest);
      if rest[j] != x {
        assert rest[j] in multiset(s);
        var k :| 0 <= k < |s| && s[k] == rest[j];
        assert ([y] + s)[0] == y && ([y] + s)[k + 1] == s[k];
      }
    }
  }

  /** The sort the effect performs: a permutation that the comparator accepts pair sortBy pair. */
  function SortAssets(s: seq<Asset>, sortBy: Option<SortBy>, order: Option<SortOrder>): (r: seq<Asset>)
    ensures multiset(r) == multiset(s)
    ensures IsSorted(r, sortBy, order)
  {
    if |s| == 0 then []
    else
      assert s == [s[0]] + s[1..];
      Insert(s[0], SortAssets(s[1..], sortBy, order), sortBy, order)
  }

  /** With pairwise-distinct keys the sorted keys strictly increase (`asc`) or strictly decrease. */
  lemma DistinctKeysStrictlyOrdered(s: seq<Asset>, sortBy: Option<SortBy>, order: Option<SortOrder>, i: int, j: int)
    requires IsSorted(s, sortBy, order)
    requires 0 <= i < j < |s| && SortKeyOf(s[i], sortBy) != SortKeyOf(s[j], sortBy)
    ensures order == Some(Asc) ==> KeyLess(SortKeyOf(s[i], sortBy), SortKeyOf(s[j], sortBy))
    ensures order != Some(Asc) ==> KeyLess(SortKeyOf(s[j], sortBy), SortKeyOf(s[i], sortBy))
  {
    assert MayPrecede(s[i], s[j], sortBy, order);
    KeyLessTotal(SortKeyOf(s[i], sortBy), SortKeyOf(s[j], sortBy));
  }

  /** The filter-and-sort effect: the assets the library lists for the current filters. */
  function VisibleAssets(assets: seq<Asset>, f: SearchFilters): (r: seq<Asset>)
    ensures multiset(r) <= multiset(assets)
    ensures multiset(r) == multiset(FilterAssets(assets, f))
    ensures forall a :: multiset(r)[a] == if PassesAll(f, a) then multiset(assets)[a] else 0
    ensures forall a :: a in r ==> PassesAll(f, a)
    ensures forall a :: a in assets && PassesAll(f, a) ==> a in r
    ensures !QueryActive(f) && !IsActive(f.fileType) && !IsActive(f.status) && !IsActive(f.tags) ==>
              multiset(r) == multiset(assets)
    ensures IsSorted(r, f.sortBy, f.sortOrder)
  {
    var kept := FilterAssets(assets, f);
    var r := SortAssets(kept, f.sortBy, f.sortOrder);
    Lists.SameMultisetSameElements(r, kept);
    r
  }

  // ---------------------------------------------------------------- handlers

  /** `handleSearch`: only the query changes. */
  function SetQuery(f: SearchFilters, q: string): (r: SearchFilters)
    ensures r.query == Some(q)
    ensures r.(query := f.query) == f
  {
    f.(query := Some(q))
  }

  /** `handleFileTypeFilter`: toggles one file type name in the (possibly absent) list. */
  function ToggleFileType(f: SearchFilters, t: string): (r: SearchFilters)
    ensures r.fileType.Some?
    ensures t in r.fileType.value <==> !(f.fileType.Some? && t in f.fileType.value)
    ensures forall u :: u != t ==> (u in r.fileType.value <==> f.fileType.Some? && u in f.fileType.value)
    ensures !(f.fileType.Some? && t in f.fileType.value) ==> r.fileType.value == f.fileType.GetOr([]) + [t]
    ensures f.fileType.Some? && t in f.fileType.value ==> Lists.IsSubsequence(r.fileType.value, f.fileType.value)
    ensures f.fileType.Some? && t in f.fileType.value ==> multiset(r.fileType.value) == multiset(f.fileType.value)[t := 0]
    ensures r.(fileType := f.fileType) == f
  {
    Lists.ToggleFlipsMembership(f.fileType.GetOr([]), t);
    f.(fileType := Some(Lists.Toggle(f.fileType.GetOr([]), t)))
  }

  /** `handleStatusFilter`: toggles one status name in the (possibly absent) list. */
  function ToggleStatus(f: SearchFilters, s: string): (r: SearchFilters)
    ensures r.status.Some?
    ensures s in r.status.value <==> !(f.status.Some? && s in f.status.value)
    ensures forall u :: u != s ==> (u in r.status.value <==> f.status.Some? && u in f.status.value)
    ensures !(f.status.Some? && s in f.status.value) ==> r.status.value == f.status.GetOr([]) + [s]
    ensures f.status.Some? && s in f.status.value ==> Lists.IsSubsequence(r.status.value, f.status.value)
    ensures f.status.Some? && s in f.status.value ==> multiset(r.status.value) == multiset(f.status.value)[s := 0]
    ensures r.(status := f.status) == f
  {
    Lists.ToggleFlipsMembership(f.status.GetOr([]), s);
    f.(status := Some(Lists.Toggle(f.status.GetOr([]), s)))
  }

  /** Toggling a file type the filter lacks, twice, leaves the filters as they were. */
  lemma ToggleFileTypeTwice(f: SearchFilters, t: string)
    requires f.fileType.Some? && t !in f.fileType.value
    ensures ToggleFileType(ToggleFileType(f, t), t) == f
  {
    Lists.ToggleTwiceRestores(f.fileType.value, t);
  }

  /** Toggling a status the filter lacks, twice, leaves the filters as they were. */
  lemma ToggleStatusTwice(f: SearchFilters, s: string)
    requires f.status.Some? && s !in f.status.value
    ensures ToggleStatus(ToggleStatus(f, s), s) == f
  {
    Lists.ToggleTwiceRestores(f.status.value, s);
  }

  /** `handleSelectAsset`: removes the id if it is selected, appends it otherwise. */
  function ToggleSelection(selected: seq<string>, id: string): (r: seq<string>)
    ensures id in r <==> id !in selected
    ensures forall u :: u != id ==> (u in r <==> u in selected)
    ensures id !in selected ==> r == selected + [id]
    ensures id in selected ==> |r| < |selected|
    ensures id in selected ==> Lists.IsSubsequence(r, selected)
    ensures id in selected ==> multiset(r) == multiset(selected)[id := 0]
  {
    Lists.ToggleFlipsMembership(selected, id);
    Lists.Toggle(selected, id)
  }

  /** Selecting and then deselecting an asset restores the selection. */
  lemma ToggleSelectionTwice(selected: seq<string>, id: string)
    requires id !in selected
    ensures ToggleSelection(ToggleSelection(selected, id), id) == selected
  {
    Lists.ToggleTwiceRestores(selected, id);
  }

  function Ids(assets: seq<Asset>): (r: seq<string>)
    ensures |r| == |assets| && forall i :: 0 <= i < |assets| ==> r[i] == assets[i].id
  {
    seq(|assets|, i requires 0 <= i < |assets| => assets[i].id)
  }

  /**
   * `handleSelectAll`: clears the selection when it is as long as the visible
   * list (a length test, not a comparison of ids); otherwise selects every
   * visible asset, in display order.
   */
  function SelectAll(selected: seq<string>, visible: seq<Asset>): (r: seq<string>)
    ensures |selected| == |visible| ==> r == []
    ensures |selected| != |visible| ==> |r| == |visible| && forall i :: 0 <= i < |r| ==> r[i] == visible[i].id
  {
    if |selected| == |visible| then [] else Ids(visible)
  }
}
