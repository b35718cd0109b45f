/**
 * The timing record kept for the track a guild is playing: when it last
 * (re)started, how much play time was banked before that, and whether it is
 * paused. Timestamps are whole seconds.
 */
module Timing {
  import opened Wrappers
  import opened Tracks
  import opened Format

  /** `datetime.timedelta.seconds` wraps at one day. */
  const SecondsPerDay: nat := 86400

  /** `playing[guild]`: the entry plus `starttime`, `playtime-offset` and `paused`. */
  datatype Playback = Playback(track: Track, startTime: int, offset: int, paused: bool)

  /** Play time so far: the banked offset, plus the running stretch unless paused. */
  function Elapsed(p: Playback, now: int): (e: int)
    ensures p.paused ==> e == p.offset
    ensures !p.paused ==> e - p.offset == now - p.startTime
  {
    p.offset + (if p.paused then 0 else now - p.startTime)
  }

  /** The record `playNextTrack` makes for a track it starts: no banked time, running from now. */
  function Begin(t: Track, now: int): (p: Playback)
    ensures p.track == t && !p.paused
    ensures Elapsed(p, now) == 0
    ensures forall later :: Elapsed(p, later) == later - now
  {
    Playback(t, now, 0, false)
  }

  /** `pause`: banks the running stretch and freezes the clock; a paused record is left alone. */
  function Pause(p: Playback, now: int): (r: Playback)
    ensures r.paused && r.track == p.track
    ensures p.paused ==> r == p
    ensures !p.paused ==> forall later :: Elapsed(r, later) == Elapsed(p, now)
  {
    if p.paused then p
    else p.(paused := true, offset := p.offset + (now - p.startTime))
  }

  /** `resume`: restarts the clock from now; a running record is left alone. */
  function Resume(p: Playback, now: int): (r: Playback)
    ensures !r.paused && r.track == p.track
    ensures !p.paused ==> r == p
    ensures p.paused ==> forall later :: Elapsed(r, later) == Elapsed(p, now) + (later - now)
  {
    if p.paused then p.(startTime := now, paused := false)
    else p
  }

  /** Pausing then resuming keeps all play time before the pause and none of the time spent paused. */
  lemma PauseResume(p: Playback, tPause: int, tResume: int, later: int)
    requires !p.paused
    ensures Elapsed(Resume(Pause(p, tPause), tResume), later)
            == Elapsed(p, tPause) + (later - tResume)
  {
  }

  /** Start at 0, pause at 10, resume at 15: 10 seconds while paused, 15 seconds at 20. */
  lemma TimelineExample(t: Track)
    ensures Elapsed(Pause(Begin(t, 0), 10), 12) == 10
    ensures Elapsed(Resume(Pause(Begin(t, 0), 10), 15), 20) == 15
  {
  }

  /** The seconds `nowplaying` shows: `td.seconds`, the elapsed time modulo one day. */
  function ShownSeconds(p: Playback, now: int): (s: nat)
    ensures s < SecondsPerDay
    ensures 0 <= Elapsed(p, now) < SecondsPerDay ==> s == Elapsed(p, now)
    ensures (Elapsed(p, now) - s) % SecondsPerDay == 0
  {
    Elapsed(p, now) % SecondsPerDay
  }

  /** Reads an `elapsed/length` text back as its two numbers of seconds. */
  function ReadClockPair(text: string): Option<(nat, nat)>
  {
    var i := FirstIndex(text, '/');
    if i == |text| then None
    else match (ParseClock(text[..i]), ParseClock(text[i + 1..]))
      case (Some(e), Some(l)) => Some((e, l))
      case _ => None
  }

  /** Two readable clock texts joined by "/" read back as the pair of their values. */
  lemma ClockPairReads(e: string, l: string, a: nat, b: nat)
    requires IsClockChars(e)
    requires ParseClock(e) == Some(a) && ParseClock(l) == Some(b)
    ensures ReadClockPair(e + "/" + l) == Some((a, b))
  {
    var text := e + "/" + l;
    assert text == e + ("/" + l);
    FirstIndexAfter(e, '/', "/" + l);
    assert text[..|e|] == e && text[|e| + 1..] == l;
  }

  /**
   * The `elapsed/length` clock of `nowplaying`; the elapsed part shows hours
   * whenever the track is an hour or longer. The text reads back as the shown
   * seconds and the track length.
   */
  function NowPlayingClock(p: Playback, now: int): (text: string)
    ensures ReadClockPair(text) == Some((ShownSeconds(p, now), p.track.length))
  {
    var e := FormatTimeSecs(ShownSeconds(p, now), p.track.length >= 3600);
    var l := FormatTimeSecs(p.track.length, false);
    FormatTimeRoundTrip(ShownSeconds(p, now), p.track.length >= 3600);
    FormatTimeRoundTrip(p.track.length, false);
    ClockPairReads(e, l, ShownSeconds(p, now), p.track.length);
    e + "/" + l
  }

  /** Both halves of the clock read back as the shown seconds and the track length. */
  lemma NowPlayingClockReads(p: Playback, now: int)
    ensures var e := FormatTimeSecs(ShownSeconds(p, now), p.track.length >= 3600);
            var l := FormatTimeSecs(p.track.length, false);
            && NowPlayingClock(p, now) == e + "/" + l
            && ParseClock(e) == Some(ShownSeconds(p, now))
            && ParseClock(l) == Some(p.track.length)
            && (|e| > 5 <==> p.track.length >= 3600 || ShownSeconds(p, now) >= 3600)
            && (|l| > 5 <==> p.track.length >= 3600)
  {
    FormatTimeRoundTrip(ShownSeconds(p, now), p.track.length >= 3600);
    FormatTimeRoundTrip(p.track.length, false);
  }
}
