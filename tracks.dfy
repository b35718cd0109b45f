/** Catalog items as the media server returns them, and the queue entries built from them. */
module Tracks {

  /** Jellyfin reports durations in ticks of 100 ns. */
  const TicksPerSecond: nat := 10000000

  /** The `Type` field of a catalog item: anything that is not an album is played as a track. */
  datatype ItemKind = MusicAlbum | Audio

  /** A search result or album track as delivered by the catalog client. */
  datatype CatalogItem = CatalogItem(kind: ItemKind, artists: seq<string>, name: string, id: string, runTimeTicks: nat)

  /** One queue entry: Artists, Name, Id and Length in whole seconds. */
  datatype Track = Track(artists: seq<string>, name: string, id: string, length: nat)

  /** The entry a catalog item is queued as: its length is the tick count floored to whole seconds. */
  function MakeEntry(item: CatalogItem): (t: Track)
    ensures t.artists == item.artists && t.name == item.name && t.id == item.id
    ensures t.length * TicksPerSecond <= item.runTimeTicks < (t.length + 1) * TicksPerSecond
  {
    Track(item.artists, item.name, item.id, item.runTimeTicks / TicksPerSecond)
  }

  /** The entries an album expands to, one per track, in the catalog's order. */
  function AlbumEntries(tracks: seq<CatalogItem>): (es: seq<Track>)
    ensures |es| == |tracks|
    ensures forall i :: 0 <= i < |tracks| ==> es[i].id == tracks[i].id && es[i].name == tracks[i].name
    ensures forall i :: 0 <= i < |tracks| ==> es[i] == MakeEntry(tracks[i])
  {
    seq(|tracks|, i requires 0 <= i < |tracks| => MakeEntry(tracks[i]))
  }
}
