/**
 * The bot's process-wide state: `queues`, the pending entries of each guild,
 * and `playing`, the timing record of the track each guild is playing, with
 * the commands that change them. Voice connections are not modelled: whether
 * the guild has one is a parameter, and what the command then asks of the
 * voice client is returned.
 */
module Player {
  import opened Wrappers
  import opened Tracks
  import opened Queue
  import opened Timing
  import opened Paging

  type GuildId = int

  /** What a queueing command does with the voice client afterwards. */
  datatype Followup =
    | StartPlayer  // no voice client yet: connect and start playing
    | StopCurrent  // stop the current track; its completion callback advances to the new head
    | KeepPlaying

  /** The two refusals of the index commands: no queue for the guild, or an index past its end. */
  datatype QueueError = EmptyQueue | NoSuchIndex

  /** Result of the completion step `playNextTrack`. */
  datatype Advance =
    | Started(track: Track)  // the old head is now playing
    | Finished               // no queue: the current track is dropped and the voice client disconnects
    | Raised                 // the source raises here (pop of an empty list, or no current track to drop)

  /** Result of pause, resume and stop. */
  datatype Control = Done | AlreadyInState | NotConnected | NothingPlaying

  /** The map after a guild's list is written back: the key is dropped once the list is empty. */
  function Commit(m: map<GuildId, seq<Track>>, g: GuildId, q: seq<Track>): (r: map<GuildId, seq<Track>>)
    ensures q == [] ==> g !in r
    ensures q != [] ==> g in r && r[g] == q
    ensures forall h :: h != g ==> (h in r <==> h in m)
    ensures forall h :: h != g && h in m ==> r[h] == m[h]
  {
    if q == [] then m - {g} else m[g := q]
  }

  class Registry {
    var queues: map<GuildId, seq<Track>>
    var playing: map<GuildId, Playback>

    /** A guild has a key in `queues` only while its list is non-empty. */
    ghost predicate Valid()
      reads this
    {
      forall g :: g in queues ==> queues[g] != []
    }

    /** The guild's pending entries, empty when it has no key. */
    function QueueOf(g: GuildId): seq<Track>
      reads this
    {
      if g in queues then queues[g] else []
    }

    constructor ()
      ensures Valid()
      ensures queues == map[] && playing == map[]
    {
      queues := map[];
      playing := map[];
    }

    /** `playHelperTrack`: queue one entry at the tail (`'last'`) or the head (`'next'`, `'now'`). */
    method EnqueueTrack(g: GuildId, item: CatalogItem, pos: Position, connected: bool) returns (f: Followup)
      modifies this
      ensures queues == old(queues)[g := Place(old(QueueOf(g)), [MakeEntry(item)], pos)]
      ensures playing == old(playing)
      ensures f == if !connected then StartPlayer else if pos == Now then StopCurrent else KeepPlaying
      ensures old(Valid()) ==> Valid()
    {
      // the key is created with an empty list first, then the entry is placed
      var q := QueueOf(g);
      queues := queues[g := Place(q, [MakeEntry(item)], pos)];
      f := if !connected then StartPlayer else if pos == Now then StopCurrent else KeepPlaying;
    }

    /**
     * `playHelperAlbum`: queue an album's tracks as one block, in album order.
     * An album with no tracks still creates the guild's key, with an empty list.
     */
    method EnqueueAlbum(g: GuildId, tracks: seq<CatalogItem>, pos: Position, connected: bool) returns (f: Followup)
      modifies this
      ensures queues == old(queues)[g := Place(old(QueueOf(g)), AlbumEntries(tracks), pos)]
      ensures playing == old(playing)
      ensures f == if !connected then StartPlayer else if pos == Now then StopCurrent else KeepPlaying
      ensures old(Valid()) && (tracks != [] || g in old(queues)) ==> Valid()
      ensures tracks == [] && g !in old(queues) ==> g in queues && queues[g] == []
    {
      var q := QueueOf(g);
      var placed := Place(q, AlbumEntries(tracks), pos);
      assert |placed| == |q| + |tracks|;
      queues := queues[g := placed];
      f := if !connected then StartPlayer else if pos == Now then StopCurrent else KeepPlaying;
    }

    /**
     * `playNextTrack`, run when playback starts and whenever a track ends:
     * the head becomes the playing track with a fresh clock; without a queue
     * the current track is dropped.
     */
    method PlayNext(g: GuildId, now: int) returns (a: Advance)
      modifies this
      ensures g in old(queues) && old(queues[g]) != [] ==>
                && a == Started(old(queues[g][0]))
                && playing == old(playing)[g := Begin(old(queues[g][0]), now)]
                && queues == Commit(old(queues), g, old(queues[g][1..]))
      ensures g in old(queues) && old(queues[g]) == [] ==> a == Raised && unchanged(this)
      ensures g !in old(queues) && g in old(playing) ==>
                a == Finished && playing == old(playing) - {g} && queues == old(queues)
      ensures g !in old(queues) && g !in old(playing) ==> a == Raised && unchanged(this)
      ensures old(Valid()) ==> Valid()
      ensures old(Valid()) && g in old(queues) ==> a.Started?
    {
      if g in queues {
        var q := queues[g];
        if q == [] {
          return Raised;
        }
        playing := playing[g := Begin(q[0], now)];
        queues := Commit(queues, g, q[1..]);
        a := Started(q[0]);
      } else if g in playing {
        playing := playing - {g};
        a := Finished;
      } else {
        a := Raised;
      }
    }

    /** `remove`: delete the entry at a 1-based index, dropping the guild's key when it empties. */
    method Remove(g: GuildId, index: int) returns (r: Result<Track, QueueError>)
      requires index >= 1
      modifies this
      ensures g !in old(queues) ==> r == Err(EmptyQueue) && unchanged(this)
      ensures g in old(queues) && index > |old(queues[g])| ==> r == Err(NoSuchIndex) && unchanged(this)
      ensures g in old(queues) && index <= |old(queues[g])| ==>
                && r == Ok(old(queues[g])[index - 1])
                && queues == Commit(old(queues), g, RemoveAt(old(queues[g]), index - 1))
                && playing == old(playing)
      ensures old(Valid()) ==> Valid()
    {
      if g !in queues {
        return Err(EmptyQueue);
      }
      var q := queues[g];
      if |q| < index {
        return Err(NoSuchIndex);
      }
      r := Ok(q[index - 1]);
      queues := Commit(queues, g, RemoveAt(q, index - 1));
    }

    /** `promote`: move the entry at a 1-based index to the head. */
    method Promote(g: GuildId, index: int) returns (r: Result<Track, QueueError>)
      requires index >= 1
      modifies this
      ensures g !in old(queues) ==> r == Err(EmptyQueue) && unchanged(this)
      ensures g in old(queues) && index > |old(queues[g])| ==> r == Err(NoSuchIndex) && unchanged(this)
      ensures g in old(queues) && index <= |old(queues[g])| ==>
                && r == Ok(old(queues[g])[index - 1])
                && queues == old(queues)[g := MoveToFront(old(queues[g]), index - 1)]
                && playing == old(playing)
      ensures old(Valid()) ==> Valid()
    {
      if g !in queues {
        return Err(EmptyQueue);
      }
      var q := queues[g];
      if |q| < index {
        return Err(NoSuchIndex);
      }
      r := Ok(q[index - 1]);
      queues := queues[g := MoveToFront(q, index - 1)];
    }

    /** `demote`: move the entry at a 1-based index to the tail. */
    method Demote(g: GuildId, index: int) returns (r: Result<Track, QueueError>)
      requires index >= 1
      modifies this
      ensures g !in old(queues) ==> r == Err(EmptyQueue) && unchanged(this)
      ensures g in old(queues) && index > |old(queues[g])| ==> r == Err(NoSuchIndex) && unchanged(this)
      ensures g in old(queues) && index <= |old(queues[g])| ==>
                && r == Ok(old(queues[g])[index - 1])
                && queues == old(queues)[g := MoveToBack(old(queues[g]), index - 1)]
                && playing == old(playing)
      ensures old(Valid()) ==> Valid()
    {
      if g !in queues {
        return Err(EmptyQueue);
      }
      var q := queues[g];
      if |q| < index {
        return Err(NoSuchIndex);
      }
      r := Ok(q[index - 1]);
      queues := queues[g := MoveToBack(q, index - 1)];
    }

    /** `playnow`: promote, then stop the current track so that the promoted one plays next. */
    method PlayNow(g: GuildId, index: int) returns (r: Result<Track, QueueError>, f: Followup)
      requires index >= 1
      modifies this
      ensures g !in old(queues) ==> r == Err(EmptyQueue) && unchanged(this)
      ensures g in old(queues) && index > |old(queues[g])| ==> r == Err(NoSuchIndex) && unchanged(this)
      ensures g in old(queues) && index <= |old(queues[g])| ==>
                && r == Ok(old(queues[g])[index - 1])
                && queues == old(queues)[g := MoveToFront(old(queues[g]), index - 1)]
                && playing == old(playing)
      ensures f == if r.Ok? then StopCurrent else KeepPlaying
      ensures old(Valid()) ==> Valid()
    {
      r := Promote(g, index);
      f := if r.Ok? then StopCurrent else KeepPlaying;
    }

    /** `clear`: drop the guild's queue; reports whether there was one. */
    method Clear(g: GuildId) returns (found: bool)
      modifies this
      ensures found == (g in old(queues))
      ensures queues == old(queues) - {g} && playing == old(playing)
      ensures old(Valid()) ==> Valid()
    {
      found := g in queues;
      if found {
        queues := queues - {g};
      }
    }

    /** `stop`: with a voice client, drop the queue and stop the current track, so that playback ends. */
    method Stop(g: GuildId, connected: bool) returns (c: Control)
      modifies this
      ensures !connected ==> c == NotConnected && unchanged(this)
      ensures connected ==> c == Done && queues == old(queues) - {g} && playing == old(playing)
      ensures old(Valid()) ==> Valid()
    {
      if !connected {
        return NotConnected;
      }
      queues := queues - {g};
      c := Done;
    }

    /** `shuffle`: permute the guild's queue; reports whether there was one. */
    method Shuffle(g: GuildId, draw: nat -> nat) returns (found: bool)
      modifies this
      ensures found == (g in old(queues))
      ensures queues.Keys == old(queues).Keys && playing == old(playing)
      ensures forall h :: h in queues && h != g ==> queues[h] == old(queues)[h]
      ensures found ==> |queues[g]| == |old(queues[g])| && multiset(queues[g]) == multiset(old(queues[g]))
      ensures old(Valid()) ==> Valid()
    {
      found := g in queues;
      if found {
        var shuffled := Queue.Shuffle(queues[g], draw);
        queues := queues[g := shuffled];
      }
    }

    /** `pause`: bank the running time and mark the track paused. */
    method Pause(g: GuildId, connected: bool, now: int) returns (c: Control)
      modifies this
      ensures !connected ==> c == NotConnected && unchanged(this)
      ensures connected && g !in old(playing) ==> c == NothingPlaying && unchanged(this)
      ensures connected && g in old(playing) && old(playing[g].paused) ==> c == AlreadyInState && unchanged(this)
      ensures connected && g in old(playing) && !old(playing[g].paused) ==>
                c == Done && playing == old(playing)[g := Timing.Pause(old(playing[g]), now)] && queues == old(queues)
    {
      if !connected {
        return NotConnected;
      }
      if g !in playing {
        return NothingPlaying;
      }
      if playing[g].paused {
        return AlreadyInState;
      }
      playing := playing[g := Timing.Pause(playing[g], now)];
      c := Done;
    }

    /** `resume`: restart the clock of a paused track. */
    method Resume(g: GuildId, connected: bool, now: int) returns (c: Control)
      modifies this
      ensures !connected ==> c == NotConnected && unchanged(this)
      ensures connected && g !in old(playing) ==> c == NothingPlaying && unchanged(this)
      ensures connected && g in old(playing) && !old(playing[g].paused) ==> c == AlreadyInState && unchanged(this)
      ensures connected && g in old(playing) && old(playing[g].paused) ==>
                c == Done && playing == old(playing)[g := Timing.Resume(old(playing[g]), now)] && queues == old(queues)
    {
      if !connected {
        return NotConnected;
      }
      if g !in playing {
        return NothingPlaying;
      }
      if !playing[g].paused {
        return AlreadyInState;
      }
      playing := playing[g := Timing.Resume(playing[g], now)];
      c := Done;
    }

    /** `nowplaying`: the clock of the guild's current track, if any. */
    function NowPlaying(g: GuildId, now: int): (text: Option<string>)
      reads this
      ensures text.Some? <==> g in playing
      ensures g in playing ==> text == Some(NowPlayingClock(playing[g], now))
    {
      if g in playing then Some(NowPlayingClock(playing[g], now)) else None
    }

    /**
     * `queue`: the first page of the guild's queue, if it has one. As written
     * its entries are numbered from 0, one less than the index the index
     * commands take; `QueueCommandFixed` is the evidently intended command.
     */
    function QueueCommand(g: GuildId): (shown: Option<Listing<Track>>)
      reads this
      ensures shown.Some? <==> g in queues
      ensures shown.Some? ==> shown.value == QueueListing(queues[g])
    {
      if g in queues then Some(QueueListing(queues[g])) else None
    }

    /** `queue` numbered from 1: the first page of the view, each number the index the index commands take. */
    function QueueCommandFixed(g: GuildId): (shown: Option<Listing<Track>>)
      reads this
      ensures shown.Some? <==> g in queues
      ensures shown.Some? ==> NumberedFromOne(shown.value, queues[g]) && shown.value == PageListing(queues[g], 0)
    {
      QueueListingFixedIsFirstPage(QueueOf(g));
      if g in queues then Some(QueueListingFixed(queues[g])) else None
    }
  }
}
