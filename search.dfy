/**
 * The search side of the bot: the result limit read from configuration,
 * the mapping from the command's type option to catalog item types, and the
 * option labels of the search result picker.
 */
module Search {
  import opened Wrappers
  import opened Tracks
  import opened Format
  import Paging

  /** Discord select menus hold at most 25 options. */
  const MaxOptions: nat := 25

  /** The `type` choice of the search and play commands. */
  datatype TypeFilter = Soundtrack | Album

  /** `LIMIT = max(1, min(search-limit, 25))`. */
  function ClampLimit(configured: int): (limit: int)
    ensures 1 <= limit <= MaxOptions
    ensures 1 <= configured <= MaxOptions ==> limit == configured
    ensures configured < 1 ==> limit == 1
    ensures configured > MaxOptions ==> limit == MaxOptions
  {
    var upper := if configured < MaxOptions then configured else MaxOptions;
    if 1 < upper then upper else 1
  }

  /** The item types `searchHelper` asks the catalog for. */
  function SearchTypes(filter: Option<TypeFilter>): (types: seq<string>)
    ensures 1 <= |types| <= 2
    ensures "Audio" in types <==> filter != Some(Album)
    ensures "MusicAlbum" in types <==> filter != Some(Soundtrack)
    ensures filter == None ==> types == ["Audio", "MusicAlbum"]
  {
    match filter
    case Some(Soundtrack) => ["Audio"]
    case Some(Album) => ["MusicAlbum"]
    case None => ["Audio", "MusicAlbum"]
  }

  /**
   * Label of one picker option, given whether the item type is shown: the
   * track label at the default artist limit of 1, cut to 100 characters; with
   * the type shown it starts with the tag's initial.
   */
  function OptionLabel(item: CatalogItem, showType: bool): (l: string)
    ensures |l| <= LabelMax
    ensures showType ==> |l| > 0 && l[0] == (if item.kind == MusicAlbum then 'A' else 'T')
    ensures var t := TrackString(item.artists, item.name, 1, showType, item.kind == MusicAlbum);
            && (|t| <= LabelMax ==> l == t)
            && (|t| > LabelMax ==> |l| == LabelMax && l[..97] == t[..97] && l[97..] == "...")
  {
    TruncateLabel(TrackString(item.artists, item.name, 1, showType, item.kind == MusicAlbum))
  }

  /**
   * The picker's option labels as written: the type flag is computed from
   * Python's builtin `type`, which is always truthy, so the tag is never shown.
   */
  function PickerLabels(items: seq<CatalogItem>): (labels: seq<string>)
    ensures |labels| == Paging.Min(|items|, MaxOptions)
    ensures forall i :: 0 <= i < |labels| ==> |labels[i]| <= LabelMax
    ensures forall i :: 0 <= i < |labels| ==> labels[i] == OptionLabel(items[i], false)
  {
    seq(Paging.Min(|items|, MaxOptions), i requires 0 <= i < Paging.Min(|items|, MaxOptions) => OptionLabel(items[i], false))
  }

  /**
   * The picker's option labels as evidently intended: the tag is shown when the
   * search was not restricted to one type, so albums and tracks can be told apart.
   */
  function PickerLabelsFor(items: seq<CatalogItem>, filter: Option<TypeFilter>): (labels: seq<string>)
    ensures |labels| == Paging.Min(|items|, MaxOptions)
    ensures forall i :: 0 <= i < |labels| ==> |labels[i]| <= LabelMax
    ensures forall i :: 0 <= i < |labels| ==> labels[i] == OptionLabel(items[i], filter == None)
  {
    seq(Paging.Min(|items|, MaxOptions), i requires 0 <= i < Paging.Min(|items|, MaxOptions) => OptionLabel(items[i], filter == None))
  }

  /** As written, an album and a track with the same artists and name get the same option label. */
  lemma PickerHidesKind()
    ensures var items := [CatalogItem(MusicAlbum, ["Ayreon"], "Universal Migrator", "a1", 0),
                          CatalogItem(Audio, ["Ayreon"], "Universal Migrator", "t1", 0)];
            var labels := PickerLabels(items);
            items[0].kind != items[1].kind && labels[0] == labels[1]
  {
  }

  /** With the intended labels, an unfiltered search never shows an album and a track under the same label. */
  lemma {:induction false} PickerShowsKind(items: seq<CatalogItem>, i: nat, j: nat)
    requires i < Paging.Min(|items|, MaxOptions) && j < Paging.Min(|items|, MaxOptions)
    requires items[i].kind != items[j].kind
    ensures PickerLabelsFor(items, None)[i] != PickerLabelsFor(items, None)[j]
  {
    assert PickerLabelsFor(items, None)[i] == OptionLabel(items[i], true);
    assert PickerLabelsFor(items, None)[j] == OptionLabel(items[j], true);
  }
}
