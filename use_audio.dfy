/**
 * The playback hook: the file-format label shown for a track, the title and
 * artist a track is first shown with, and the "next" and "previous" buttons,
 * which move through the queue according to the shuffle and repeat settings
 * and act on the player state and the audio element.
 */
module UseAudio {
  import opened Wrappers
  import opened Text
  import UseLibrary

  // ---------------------------------------------------------------------------
  // getAudioFormat
  // ---------------------------------------------------------------------------

  /** `filename.split(".").pop()`: the text after the last dot, or the whole name when there is none. */
  function Extension(filename: string): (ext: string)
    ensures |ext| <= |filename| && filename[|filename| - |ext|..] == ext
    ensures forall j :: 0 <= j < |ext| ==> ext[j] != '.'
    ensures |ext| < |filename| ==> filename[|filename| - |ext| - 1] == '.'
  {
    match LastIndexOf(filename, '.')
    case None => filename
    case Some(p) => filename[p + 1..]
  }

  /** The ten known extensions and their labels. */
  const FormatTable: map<string, string> := map[
    "flac" := "FLAC", "mp3" := "MP3", "wav" := "WAV", "aac" := "AAC", "m4a" := "M4A",
    "ogg" := "OGG", "wma" := "WMA", "aiff" := "AIFF", "alac" := "ALAC", "opus" := "OPUS"]

  /** The format label of a file name: the table entry for its lower-cased extension, else the extension upper-cased. */
  function GetAudioFormat(filename: string): string
  {
    var ext := Lower(Extension(filename));
    if ext in FormatTable then FormatTable[ext] else Upper(ext)
  }

  /** Every label in the table is its extension upper-cased. */
  lemma FormatTableIsUpper()
    ensures forall e :: e in FormatTable ==> FormatTable[e] == Upper(e)
  {
    assert Upper("flac") == "FLAC" && Upper("mp3") == "MP3" && Upper("wav") == "WAV";
    assert Upper("aac") == "AAC" && Upper("m4a") == "M4A" && Upper("ogg") == "OGG";
    assert Upper("wma") == "WMA" && Upper("aiff") == "AIFF" && Upper("alac") == "ALAC";
    assert Upper("opus") == "OPUS";
  }

  /**
   * The label of `stem.ext` is looked up by the lower-cased extension; an
   * unknown extension is shown upper-cased.
   */
  lemma GetAudioFormatOf(stem: string, ext: string)
    requires forall j :: 0 <= j < |ext| ==> ext[j] != '.'
    ensures Extension(stem + "." + ext) == ext
    ensures Lower(ext) in FormatTable ==> GetAudioFormat(stem + "." + ext) == FormatTable[Lower(ext)]
    ensures Lower(ext) !in FormatTable ==> GetAudioFormat(stem + "." + ext) == Upper(ext)
  {
    var f := stem + "." + ext;
    assert f[|stem|] == '.';
    assert forall j :: |stem| < j < |f| ==> f[j] == ext[j - |stem| - 1];
    var e := Extension(f);
    assert |e| == |ext|;
    assert e == f[|stem| + 1..] == ext;
    UpperOfLower(ext);
  }

  /** The label is always the extension upper-cased, so it never holds a lower-case ASCII letter. */
  lemma GetAudioFormatIsUpperExtension(filename: string)
    ensures GetAudioFormat(filename) == Upper(Extension(filename))
    ensures IsUpperCase(GetAudioFormat(filename))
  {
    FormatTableIsUpper();
    UpperOfLower(Extension(filename));
    UpperIsUpperCase(Extension(filename));
  }

  // ---------------------------------------------------------------------------
  // The title and artist a track starts with (playSongFromItem)
  // ---------------------------------------------------------------------------

  /** The title, artist and album shown while a track loads. */
  datatype Label = Label(title: string, artist: string, album: string)

  /**
   * The label of a queue entry named `name`: its base name, "Unknown Artist"
   * and "Unknown Album"; then the title and artist the desktop shell reports
   * for its path (`fileInfo`, when it was asked); then either the cached
   * metadata fields that are set, or, without cached metadata, the artist
   * and title read from an "artist - title" file name.
   */
  function InitialLabel(name: string, fileInfo: Option<(string, string)>, metadata: Option<UseLibrary.Metadata>): Label
  {
    var base := StripJsExtension(name);
    var title := if fileInfo.Some? then fileInfo.value.0 else base;
    var artist := if fileInfo.Some? then fileInfo.value.1 else UnknownArtist;
    match metadata
    case Some(m) =>
      Label(OrDefault(m.title, title), OrDefault(m.artist, artist),
            OrDefault(m.album, UnknownAlbum))
    case None =>
      var parts := Split(base, Dash);
      if |parts| >= 2 then
        Label(UseLibrary.TitleCase(Trim(Js, Join(parts[1..], Dash))), UseLibrary.TitleCase(Trim(Js, parts[0])),
              UnknownAlbum)
      else
        Label(UseLibrary.TitleCase(base), artist, UnknownAlbum)
  }

  /**
   * Without cached metadata, a base name with " - " gives the artist before
   * its first occurrence and the title after it (later separators stay in
   * the title); a base name without it gives the whole base name as the
   * title. The album is "Unknown Album".
   */
  lemma InitialLabelFromName(name: string, fileInfo: Option<(string, string)>)
    ensures var base := StripJsExtension(name); var r := InitialLabel(name, fileInfo, None);
      && r.album == UnknownAlbum
      && (Find(base, Dash).Some? ==>
            var i := Find(base, Dash).value;
            r.artist == UseLibrary.TitleCase(Trim(Js, base[..i]))
            && r.title == UseLibrary.TitleCase(Trim(Js, base[i + |Dash|..])))
      && (Find(base, Dash).None? ==>
            r.title == UseLibrary.TitleCase(base)
            && r.artist == (if fileInfo.Some? then fileInfo.value.1 else UnknownArtist))
  {
    SplitHead(StripJsExtension(name), Dash);
  }

  /**
   * With cached metadata, each set, non-empty field wins; otherwise the title
   * and artist fall back to the shell's report or the base name and
   * "Unknown Artist", and the album to "Unknown Album".
   */
  lemma InitialLabelFromMetadata(name: string, fileInfo: Option<(string, string)>, m: UseLibrary.Metadata)
    ensures var r := InitialLabel(name, fileInfo, Some(m));
      && (m.title.Some? && m.title.value != "" ==> r.title == m.title.value)
      && (m.title.None? || m.title.value == "" ==>
            r.title == if fileInfo.Some? then fileInfo.value.0 else StripJsExtension(name))
      && (m.artist.Some? && m.artist.value != "" ==> r.artist == m.artist.value)
      && (m.artist.None? || m.artist.value == "" ==>
            r.artist == if fileInfo.Some? then fileInfo.value.1 else UnknownArtist)
      && (m.album.Some? && m.album.value != "" ==> r.album == m.album.value)
      && (m.album.None? || m.album.value == "" ==> r.album == UnknownAlbum)
  {
  }

  // ---------------------------------------------------------------------------
  // Player state
  // ---------------------------------------------------------------------------

  /** The repeat setting; any value other than 'one' and 'all' behaves as `Off`. */
  datatype RepeatMode = Off | One | All

  /** The parts of the song state that the skip buttons read and write. */
  datatype SongState = SongState(currentSongIndex: int, isPlaying: bool, isShuffle: bool,
                                 repeatMode: RepeatMode, currentTime: real, playlistSize: nat)

  /**
   * The song state together with the audio element: whether there is one,
   * and its position in seconds. `playable` holds the queue indices whose
   * item yields a URL: it carries a `File`, or it has a path and the app
   * runs under Electron.
   */
  datatype Snapshot = Snapshot(song: SongState, hasAudio: bool, audioTime: real, playable: set<int>)

  /** What a press of "next" or "previous" does. */
  datatype Action =
    | Ignore            // nothing changes
    | Replay            // rewind the audio element and make sure it plays
    | Rewind            // rewind the audio element only
    | Halt              // stop playing
    | Choose(index: int) // select the track at `index`

  /**
   * `handleSongSelect(index)`: an index of the queue starts that track from
   * the beginning when its item yields a URL, and is otherwise ignored
   * ("Could not load audio file"); an index only of the song state's own
   * playlist, whose entries are files, starts that track; any other index
   * is ignored.
   */
  function Select(s: SongState, index: int, total: nat, playable: set<int>): SongState
  {
    var started := s.(currentSongIndex := index, isPlaying := true, currentTime := 0.0);
    if 0 <= index < total then (if index in playable then started else s)
    else if 0 <= index < s.playlistSize then started
    else s
  }

  /** The effect of an action on the state, for a queue of `total` tracks. */
  function Perform(p: Snapshot, a: Action, total: nat): Snapshot
  {
    match a
    case Ignore => p
    case Replay => if p.hasAudio then p.(song := p.song.(isPlaying := true), audioTime := 0.0) else p
    case Rewind => p.(audioTime := 0.0)
    case Halt => p.(song := p.song.(isPlaying := false))
    case Choose(i) => p.(song := Select(p.song, i, total, p.playable))
  }

  /** The draws of the random source that the shuffle loop can consume: at least one, all in range, and one it accepts. */
  predicate ValidDraws(draws: seq<int>, current: int, total: nat) {
    && |draws| > 0
    && (forall j :: 0 <= j < |draws| ==> 0 <= draws[j] < total)
    && (total > 1 ==> exists j :: 0 <= j < |draws| && draws[j] != current)
  }

  /** The index the shuffle loop settles on: the first draw, redrawn while it is the current track and there are other tracks. */
  function FirstAccepted(draws: seq<int>, current: int, total: nat): int
  {
    if draws == [] then -1
    else if draws[0] != current || total <= 1 then draws[0]
    else FirstAccepted(draws[1..], current, total)
  }

  /** The shuffle pick is a draw, in range, and differs from the current track when there are others. */
  lemma {:induction false} FirstAcceptedSpec(draws: seq<int>, current: int, total: nat)
    requires ValidDraws(draws, current, total)
    ensures 0 <= FirstAccepted(draws, current, total) < total
    ensures total > 1 ==> FirstAccepted(draws, current, total) != current
    ensures exists k :: (0 <= k < |draws| && draws[k] == FirstAccepted(draws, current, total)
                         && forall j :: 0 <= j < k ==> draws[j] == current)
    decreases |draws|
  {
    if !(draws[0] != current || total <= 1) {
      var rest := draws[1..];
      var w :| 0 <= w < |draws| && draws[w] != current;
      assert rest[w - 1] != current;
      FirstAcceptedSpec(rest, current, total);
      var k :| (0 <= k < |rest| && rest[k] == FirstAccepted(rest, current, total)
                && forall j :: 0 <= j < k ==> rest[j] == current);
      assert draws[k + 1] == rest[k];
      assert forall j :: 1 <= j < k + 1 ==> draws[j] == rest[j - 1];
    } else {
      assert draws[0] == FirstAccepted(draws, current, total);
    }
  }

  /**
   * `playNext` for a queue of `total` tracks, given where the shuffle loop
   * would settle (`pick`).
   */
  function NextAction(s: SongState, total: nat, pick: int): Action
  {
    if total == 0 then Ignore
    else if s.repeatMode == One then Replay
    else
      var next := if s.isShuffle then pick else s.currentSongIndex + 1;
      if next >= total && s.repeatMode != All then Halt
      else
        var target := if next >= total then 0 else next;
        if target == s.currentSongIndex then Replay else Choose(target)
  }

  /** `playPrevious` for a queue of `total` tracks. */
  function PreviousAction(s: SongState, total: nat, hasAudio: bool, audioTime: real): Action
  {
    if hasAudio && audioTime > 3.0 then Rewind
    else
      var prev := s.currentSongIndex - 1;
      Choose(if prev < 0 then total - 1 else prev)
  }

  // ---------------------------------------------------------------------------
  // The player
  // ---------------------------------------------------------------------------

  /** The hook's player: the song state and the audio element it drives. */
  class Player {
    var song: SongState
    var hasAudio: bool
    var audioTime: real
    /** The queue indices whose item yields a URL. */
    const playable: set<int>

    constructor(song: SongState, hasAudio: bool, audioTime: real, playable: set<int>)
      ensures this.song == song && this.hasAudio == hasAudio && this.audioTime == audioTime
      ensures this.playable == playable
    {
      this.song := song;
      this.hasAudio := hasAudio;
      this.audioTime := audioTime;
      this.playable := playable;
    }

    function Snap(): Snapshot
      reads this
    {
      Snapshot(song, hasAudio, audioTime, playable)
    }

    /** `handleSongSelect(index)` with a queue of `total` tracks. */
    method SongSelect(index: int, total: nat)
      modifies this
      ensures Snap() == Perform(old(Snap()), Choose(index), total)
    {
      if 0 <= index < total {
        if index !in playable {
          return;
        }
        song := song.(currentSongIndex := index, isPlaying := true, currentTime := 0.0);
      } else if 0 <= index < song.playlistSize {
        song := song.(currentSongIndex := index, isPlaying := true, currentTime := 0.0);
      }
    }

    /** Rewind the audio element, if there is one, and make sure it plays. */
    method ReplayCurrent()
      modifies this
      ensures Snap() == Perform(old(Snap()), Replay, 0)
    {
      if hasAudio {
        audioTime := 0.0;
        if !song.isPlaying {
          song := song.(isPlaying := true);
        }
      }
    }

    /**
     * The shuffle loop: draw, and draw again while the draw is the current
     * track and there are other tracks. `draws` stands for the values the
     * random source yields.
     */
    method DrawShuffle(draws: seq<int>, total: nat) returns (nextIndex: int)
      requires ValidDraws(draws, song.currentSongIndex, total)
      ensures nextIndex == FirstAccepted(draws, song.currentSongIndex, total)
    {
      var k := 0;
      nextIndex := draws[0];
      while nextIndex == song.currentSongIndex && total > 1
        invariant 0 <= k < |draws| && nextIndex == draws[k]
        invariant forall j :: 0 <= j < k ==> draws[j] == song.currentSongIndex
        invariant FirstAccepted(draws[k..], song.currentSongIndex, total) == FirstAccepted(draws, song.currentSongIndex, total)
        decreases |draws| - k
      {
        var w :| 0 <= w < |draws| && draws[w] != song.currentSongIndex;
        assert draws[k..][1..] == draws[k + 1..];
        k := k + 1;
        nextIndex := draws[k];
      }
    }

    /** `playNext` with a queue of `total` tracks. */
    method PlayNext(total: nat, draws: seq<int>)
      requires song.isShuffle && total > 0 && song.repeatMode != One ==> ValidDraws(draws, song.currentSongIndex, total)
      modifies this
      ensures Snap() == Perform(old(Snap()),
        NextAction(old(song), total, FirstAccepted(draws, old(song.currentSongIndex), total)), total)
    {
      if total == 0 {
        return;
      }
      if song.repeatMode == One {
        ReplayCurrent();
        return;
      }
      var nextIndex;
      if song.isShuffle {
        nextIndex := DrawShuffle(draws, total);
      } else {
        nextIndex := song.currentSongIndex + 1;
      }
      if nextIndex >= total {
        if song.repeatMode == All {
          nextIndex := 0;
        } else {
          song := song.(isPlaying := false);
          return;
        }
      }
      if nextIndex == song.currentSongIndex {
        ReplayCurrent();
        return;
      }
      SongSelect(nextIndex, total);
    }

    /** `playPrevious` with a queue of `total` tracks. */
    method PlayPrevious(total: nat)
      modifies this
      ensures Snap() == Perform(old(Snap()), PreviousAction(old(song), total, old(hasAudio), old(audioTime)), total)
    {
      if hasAudio && audioTime > 3.0 {
        audioTime := 0.0;
      } else {
        var prevIndex := song.currentSongIndex - 1;
        if prevIndex < 0 {
          prevIndex := total - 1;
        }
        SongSelect(prevIndex, total);
      }
    }
  }

  // ---------------------------------------------------------------------------
  // Properties of the skip buttons
  // ---------------------------------------------------------------------------

  /** No action touches the shuffle and repeat settings, the playlist, the queue or the presence of the audio element. */
  lemma PerformKeepsSettings(p: Snapshot, a: Action, total: nat)
    ensures var q := Perform(p, a, total);
      && q.song.isShuffle == p.song.isShuffle && q.song.repeatMode == p.song.repeatMode
      && q.song.playlistSize == p.song.playlistSize && q.hasAudio == p.hasAudio
      && q.playable == p.playable
  {
  }

  /** "Next" on an empty queue changes nothing. */
  lemma NextOnEmptyQueue(p: Snapshot, pick: int)
    ensures Perform(p, NextAction(p.song, 0, pick), 0) == p
  {
  }

  /** With repeat 'one', "next" keeps the track and, when there is an audio element, rewinds it and plays. */
  lemma NextRepeatOne(p: Snapshot, total: nat, pick: int)
    requires total > 0 && p.song.repeatMode == One
    ensures var q := Perform(p, NextAction(p.song, total, pick), total);
      && q.song.currentSongIndex == p.song.currentSongIndex
      && (p.hasAudio ==> q.audioTime == 0.0 && q.song.isPlaying)
      && (!p.hasAudio ==> q == p)
  {
  }

  /**
   * Without shuffle, "next" goes to the following track; past the end,
   * repeat 'all' goes back to the first track (replaying it when it is the
   * current one) and any other mode stops.
   */
  lemma NextInSequence(s: SongState, total: nat, pick: int)
    requires total > 0 && !s.isShuffle && s.repeatMode != One
    ensures s.currentSongIndex + 1 < total ==> NextAction(s, total, pick) == Choose(s.currentSongIndex + 1)
    ensures s.currentSongIndex + 1 >= total && s.repeatMode == All ==>
      NextAction(s, total, pick) == if s.currentSongIndex == 0 then Replay else Choose(0)
    ensures s.currentSongIndex + 1 >= total && s.repeatMode != All ==> NextAction(s, total, pick) == Halt
  {
  }

  /**
   * With shuffle, "next" selects the track the shuffle loop settles on,
   * which is in range and, when there are other tracks, is not the current
   * one; a one-track queue replays its track.
   */
  lemma NextShuffled(s: SongState, total: nat, draws: seq<int>)
    requires total > 0 && s.isShuffle && s.repeatMode != One
    requires ValidDraws(draws, s.currentSongIndex, total)
    ensures var pick := FirstAccepted(draws, s.currentSongIndex, total);
      && 0 <= pick < total
      && (total > 1 ==> pick != s.currentSongIndex && NextAction(s, total, pick) == Choose(pick))
      && (total == 1 ==> NextAction(s, total, pick) == if s.currentSongIndex == 0 then Replay else Choose(0))
  {
    FirstAcceptedSpec(draws, s.currentSongIndex, total);
  }

  /**
   * "Next" never re-selects the current track: that case is a replay. A
   * selected index is below the queue length, and not negative when the
   * current index is at least -1 and the shuffle pick is not negative.
   */
  lemma NextNeverReselects(s: SongState, total: nat, pick: int)
    requires NextAction(s, total, pick).Choose?
    ensures NextAction(s, total, pick).index != s.currentSongIndex
    ensures NextAction(s, total, pick).index < total
    ensures s.currentSongIndex >= -1 && (s.isShuffle ==> pick >= 0) ==> NextAction(s, total, pick).index >= 0
  {
  }

  /**
   * Selecting a track in the queue makes it current and playing from the
   * start exactly when its item yields a URL; otherwise nothing changes.
   */
  lemma SelectInQueue(p: Snapshot, i: int, total: nat)
    requires 0 <= i < total
    ensures i in p.playable ==>
      Perform(p, Choose(i), total) == p.(song := p.song.(currentSongIndex := i, isPlaying := true, currentTime := 0.0))
    ensures i !in p.playable ==> Perform(p, Choose(i), total) == p
  {
  }

  /**
   * An index past the queue but inside the song state's own playlist always
   * starts that track, and an index outside both is ignored.
   */
  lemma SelectOutsideQueue(p: Snapshot, i: int, total: nat)
    requires !(0 <= i < total)
    ensures 0 <= i < p.song.playlistSize ==>
      Perform(p, Choose(i), total) == p.(song := p.song.(currentSongIndex := i, isPlaying := true, currentTime := 0.0))
    ensures !(0 <= i < p.song.playlistSize) ==> Perform(p, Choose(i), total) == p
  {
  }

  /** More than three seconds into a track, "previous" only rewinds it. */
  lemma PreviousRewinds(p: Snapshot, total: nat)
    requires p.hasAudio && p.audioTime > 3.0
    ensures Perform(p, PreviousAction(p.song, total, p.hasAudio, p.audioTime), total) == p.(audioTime := 0.0)
  {
  }

  /**
   * Otherwise "previous" selects the track before the current one, and the
   * last track from the first; for a current track in the queue that target
   * is in the queue too.
   */
  lemma PreviousSelects(s: SongState, total: nat, hasAudio: bool, audioTime: real)
    requires !(hasAudio && audioTime > 3.0)
    ensures PreviousAction(s, total, hasAudio, audioTime) ==
      Choose(if s.currentSongIndex - 1 < 0 then total - 1 else s.currentSongIndex - 1)
    ensures 0 <= s.currentSongIndex < total ==>
      0 <= PreviousAction(s, total, hasAudio, audioTime).index < total
      && (s.currentSongIndex == 0 ==> PreviousAction(s, total, hasAudio, audioTime).index == total - 1)
  {
  }
}
