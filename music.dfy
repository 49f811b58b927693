/**
 * The playback engine: the reducer that owns the player state, the seek
 * clamp, and the state effect of each media-element event handler, each
 * written as a composition of reducer steps.
 */
module Music {
  import opened Results
  import opened Tracks
  import opened ArrayOps

  datatype RepeatMode = RepeatNone | RepeatOne | RepeatAll

  /** The order in which the repeat button cycles through the modes. */
  const RepeatModes: seq<RepeatMode> := [RepeatNone, RepeatOne, RepeatAll]

  datatype MusicState = MusicState(
    currentTrack: Option<Track>,
    isPlaying: bool,
    currentTime: real,
    duration: real,
    volume: real,
    queue: seq<Track>,
    currentIndex: int,
    isShuffled: bool,
    repeatMode: RepeatMode,
    isLoading: bool,
    buffered: real)

  /** The state the provider starts from. */
  const InitialState: MusicState :=
    MusicState(None, false, 0.0, 0.0, 0.7, [], 0, false, RepeatNone, false, 0.0)

  datatype MusicAction =
    | PlayTrack(track: Track, newQueue: Option<seq<Track>>)
    | TogglePlay
    | NextTrack
    | PreviousTrack
    | SetTime(time: real)
    | SetDuration(length: real)
    | SetVolume(level: real)
    | ToggleShuffle
    | ToggleRepeat
    | SetLoading(loading: bool)
    | SetBuffered(amount: real)

  function Min(a: real, b: real): real { if a <= b then a else b }
  function Max(a: real, b: real): real { if a >= b then a else b }

  /** `queue[i]`: out of range, JavaScript yields `undefined`, here `None`. */
  function QueueAt(queue: seq<Track>, i: int): (r: Option<Track>)
    ensures r.Some? <==> 0 <= i < |queue|
    ensures r.Some? ==> r.value == queue[i]
  {
    if 0 <= i < |queue| then Some(queue[i]) else None
  }

  /** The test `m => m === mode` that `indexOf` performs. */
  function IsMode(mode: RepeatMode): RepeatMode -> bool {
    (m: RepeatMode) => m == mode
  }

  /** `modes[(modes.indexOf(mode) + 1) % modes.length]`. */
  function NextRepeatMode(mode: RepeatMode): RepeatMode {
    var k := FindIndex(RepeatModes, IsMode(mode));
    RepeatModes[(k + 1) % |RepeatModes|]
  }

  /** Selecting position `i` of the queue: the track is fetched again from the start, paused until it can play. */
  function LoadIndex(s: MusicState, i: int): MusicState {
    s.(currentTrack := QueueAt(s.queue, i), currentIndex := i,
       isPlaying := false, isLoading := true, currentTime := 0.0, duration := 0.0)
  }

  /**
   * The queue invariant: the index stays within the queue (or is -1, "not
   * in the queue"), and the track at the index is the current track.
   */
  predicate QueueInvariant(s: MusicState) {
    && (|s.queue| == 0 || -1 <= s.currentIndex < |s.queue|)
    && (0 <= s.currentIndex < |s.queue| ==>
          s.currentTrack.Some? && s.currentTrack.value.id == s.queue[s.currentIndex].id)
  }

  predicate VolumeInRange(s: MusicState) {
    0.0 <= s.volume <= 1.0
  }

  /** `musicReducer`: the player state after one action. */
  function Reduce(s: MusicState, a: MusicAction): (r: MusicState)
    ensures QueueInvariant(s) ==> QueueInvariant(r)
    ensures VolumeInRange(s) ==> VolumeInRange(r)
  {
    match a
    case PlayTrack(track, newQueue) =>
      var queue := newQueue.GetOr([track]);
      s.(currentTrack := Some(track), queue := queue,
         currentIndex := FindIndex(queue, TrackIdIs(track.id)),
         isPlaying := false, isLoading := true, currentTime := 0.0, duration := 0.0)
    case TogglePlay =>
      s.(isPlaying := !s.isPlaying)
    case NextTrack =>
      if |s.queue| == 0 then s
      else
        var next :=
          if s.currentIndex + 1 >= |s.queue| then
            (if s.repeatMode == RepeatAll then 0 else s.currentIndex)
          else s.currentIndex + 1;
        if next == s.currentIndex && s.repeatMode != RepeatAll then s
        else LoadIndex(s, next)
    case PreviousTrack =>
      if |s.queue| == 0 then s
      else if s.currentTime > 3.0 then s.(currentTime := 0.0)
      else
        var prev :=
          if s.currentIndex - 1 < 0 then
            (if s.repeatMode == RepeatAll then |s.queue| - 1 else 0)
          else s.currentIndex - 1;
        LoadIndex(s, prev)
    case SetTime(time) =>
      s.(currentTime := time)
    case SetDuration(length) =>
      s.(duration := length)
    case SetVolume(level) =>
      s.(volume := Max(0.0, Min(1.0, level)))
    case ToggleShuffle =>
      s.(isShuffled := !s.isShuffled)
    case ToggleRepeat =>
      s.(repeatMode := NextRepeatMode(s.repeatMode))
    case SetLoading(loading) =>
      s.(isLoading := loading)
    case SetBuffered(amount) =>
      s.(buffered := amount)
  }

  /** The position `seekTo` moves to: `Math.max(0, Math.min(time, duration))`. */
  function SeekTime(time: real, duration: real): real {
    Max(0.0, Min(time, duration))
  }

  /** `seekTo(time)`: the state after the clamped `SET_TIME` it dispatches. */
  function SeekTo(s: MusicState, time: real): (r: MusicState)
    ensures r == s.(currentTime := r.currentTime)
    ensures s.duration >= 0.0 ==> 0.0 <= r.currentTime <= s.duration
    ensures 0.0 <= time <= s.duration ==> r.currentTime == time
    ensures time > s.duration >= 0.0 ==> r.currentTime == s.duration
    ensures time < 0.0 ==> r.currentTime == 0.0
  {
    Reduce(s, SetTime(SeekTime(time, s.duration)))
  }

  /**
   * What the media element reports to the provider. `PlayRejected` is the
   * rejection of the promise `audio.play()` returns.
   */
  datatype MediaEvent =
    | TimeUpdate(position: real)
    | LoadedMetadata(mediaDuration: real)
    | LoadedData(mediaDuration: real)
    | CanPlay(mediaDuration: real)
    | Progress(bufferedEnd: Option<real>)
    | Ended
    | MediaError
    | LoadStart
    | Waiting
    | Playing
    | PlayRejected

  /** The player state after the provider's handler for `e` has dispatched its actions in order. */
  function OnMediaEvent(s: MusicState, e: MediaEvent): (r: MusicState)
    ensures QueueInvariant(s) ==> QueueInvariant(r)
    ensures VolumeInRange(s) ==> VolumeInRange(r)
  {
    match e
    case TimeUpdate(position) =>
      Reduce(s, SetTime(position))
    case LoadedMetadata(mediaDuration) =>
      Reduce(s, SetDuration(mediaDuration))
    case LoadedData(mediaDuration) =>
      Reduce(Reduce(s, SetDuration(mediaDuration)), SetLoading(false))
    case CanPlay(mediaDuration) =>
      var ready := Reduce(Reduce(s, SetDuration(mediaDuration)), SetLoading(false));
      if s.currentTrack.Some? && !s.isPlaying then Reduce(ready, TogglePlay) else ready
    case Progress(bufferedEnd) =>
      if bufferedEnd.Some? then Reduce(s, SetBuffered(bufferedEnd.value)) else s
    case Ended =>
      // Under repeat-one the element is rewound and restarted directly; no action is dispatched.
      if s.repeatMode == RepeatOne then s else Reduce(s, NextTrack)
    case MediaError =>
      Reduce(s, SetLoading(false))
    case LoadStart =>
      Reduce(Reduce(Reduce(s, SetLoading(true)), SetTime(0.0)), SetDuration(0.0))
    case Waiting =>
      Reduce(s, SetLoading(true))
    case Playing =>
      Reduce(s, SetLoading(false))
    case PlayRejected =>
      Reduce(s, TogglePlay)
  }

  /** The effect that runs when the current track changes: time and duration are reset before the new source loads. */
  function OnTrackChange(s: MusicState): (r: MusicState)
    ensures s.currentTrack.Some? ==> r == s.(currentTime := 0.0, duration := 0.0)
    ensures s.currentTrack.None? ==> r == s
    ensures QueueInvariant(s) ==> QueueInvariant(r)
  {
    if s.currentTrack.Some? then Reduce(Reduce(s, SetTime(0.0)), SetDuration(0.0)) else s
  }

  // ---------------------------------------------------------------------
  // Properties of the reducer
  // ---------------------------------------------------------------------

  lemma InitialStateInvariant()
    ensures QueueInvariant(InitialState) && VolumeInRange(InitialState)
  {
  }

  /** `PLAY_TRACK`: the queue defaults to the one track, the index is found by id, and the player reloads. */
  lemma PlayTrackEffect(s: MusicState, track: Track, newQueue: Option<seq<Track>>)
    ensures var r := Reduce(s, PlayTrack(track, newQueue));
      && r.currentTrack == Some(track)
      && r.queue == (if newQueue.Some? then newQueue.value else [track])
      && -1 <= r.currentIndex < |r.queue|
      && (r.currentIndex == -1 <==> forall i :: 0 <= i < |r.queue| ==> r.queue[i].id != track.id)
      && (0 <= r.currentIndex ==>
            r.queue[r.currentIndex].id == track.id
            && forall j :: 0 <= j < r.currentIndex ==> r.queue[j].id != track.id)
      && !r.isPlaying && r.isLoading && r.currentTime == 0.0 && r.duration == 0.0
      && r.volume == s.volume && r.repeatMode == s.repeatMode
      && r.isShuffled == s.isShuffled && r.buffered == s.buffered
  {
  }

  /** `NEXT_TRACK` on an empty queue, or at the end of the queue without repeat-all, changes nothing. */
  lemma NextTrackNoOp(s: MusicState)
    requires |s.queue| == 0 || (s.currentIndex == |s.queue| - 1 && s.repeatMode != RepeatAll)
    ensures Reduce(s, NextTrack) == s
  {
  }

  /** `NEXT_TRACK` at the end of the queue under repeat-all wraps to the first track. */
  lemma NextTrackWraps(s: MusicState)
    requires |s.queue| > 0 && s.currentIndex == |s.queue| - 1 && s.repeatMode == RepeatAll
    ensures Reduce(s, NextTrack) == LoadIndex(s, 0)
    ensures Reduce(s, NextTrack).currentTrack == Some(s.queue[0])
  {
  }

  /** `NEXT_TRACK` before the end of the queue moves one place on and reloads. */
  lemma NextTrackAdvances(s: MusicState)
    requires -1 <= s.currentIndex < |s.queue| - 1
    ensures var r := Reduce(s, NextTrack);
      && r.currentIndex == s.currentIndex + 1
      && r.currentTrack == Some(s.queue[s.currentIndex + 1])
      && !r.isPlaying && r.isLoading && r.currentTime == 0.0 && r.duration == 0.0
      && r.queue == s.queue && r.volume == s.volume && r.repeatMode == s.repeatMode
    ensures Reduce(s, NextTrack) == LoadIndex(s, s.currentIndex + 1)
  {
  }

  /** `PREVIOUS_TRACK` more than 3 seconds in only rewinds: track, index and flags are kept. */
  lemma PreviousTrackRestarts(s: MusicState)
    requires |s.queue| > 0 && s.currentTime > 3.0
    ensures Reduce(s, PreviousTrack) == s.(currentTime := 0.0)
  {
  }

  /**
   * `PREVIOUS_TRACK` within the first 3 seconds steps back one place; before
   * the start it wraps to the last track under repeat-all and stays at 0
   * otherwise, reloading in every case (even when the index stays 0).
   */
  lemma PreviousTrackStepsBack(s: MusicState)
    requires |s.queue| > 0 && s.currentTime <= 3.0 && QueueInvariant(s)
    ensures var r := Reduce(s, PreviousTrack);
      && r.currentIndex == (if s.currentIndex >= 1 then s.currentIndex - 1
                            else if s.repeatMode == RepeatAll then |s.queue| - 1 else 0)
      && 0 <= r.currentIndex < |s.queue|
      && r.currentTrack == Some(s.queue[r.currentIndex])
      && !r.isPlaying && r.isLoading && r.currentTime == 0.0 && r.duration == 0.0
      && r.queue == s.queue
    ensures Reduce(s, PreviousTrack) == LoadIndex(s, Reduce(s, PreviousTrack).currentIndex)
  {
  }

  /** `PREVIOUS_TRACK` on an empty queue changes nothing. */
  lemma PreviousTrackEmptyQueue(s: MusicState)
    requires |s.queue| == 0
    ensures Reduce(s, PreviousTrack) == s
  {
  }

  /** `SET_VOLUME` stores the level clamped to [0, 1] and nothing else. */
  lemma SetVolumeClamps(s: MusicState, level: real)
    ensures var r := Reduce(s, SetVolume(level));
      && 0.0 <= r.volume <= 1.0
      && (0.0 <= level <= 1.0 ==> r.volume == level)
      && (level < 0.0 ==> r.volume == 0.0)
      && (level > 1.0 ==> r.volume == 1.0)
      && r == s.(volume := r.volume)
  {
  }

  /** The state after dispatching `actions` in order. */
  function ReduceAll(s: MusicState, actions: seq<MusicAction>): MusicState
    decreases |actions|
  {
    if actions == [] then s else ReduceAll(Reduce(s, actions[0]), actions[1..])
  }

  lemma {:induction false} ReduceAllInvariant(s: MusicState, actions: seq<MusicAction>)
    requires QueueInvariant(s) && VolumeInRange(s)
    ensures QueueInvariant(ReduceAll(s, actions)) && VolumeInRange(ReduceAll(s, actions))
    decreases |actions|
  {
    if actions != [] {
      ReduceAllInvariant(Reduce(s, actions[0]), actions[1..]);
    }
  }

  /** Starting from the initial state, every sequence of actions keeps the queue invariant and the volume in range. */
  lemma Reachable(actions: seq<MusicAction>)
    ensures QueueInvariant(ReduceAll(InitialState, actions))
    ensures VolumeInRange(ReduceAll(InitialState, actions))
  {
    ReduceAllInvariant(InitialState, actions);
  }

  /** `TOGGLE_PLAY` flips `isPlaying` alone, with or without a current track, and undoes itself. */
  lemma TogglePlayInvolution(s: MusicState)
    ensures Reduce(s, TogglePlay) == s.(isPlaying := !s.isPlaying)
    ensures Reduce(Reduce(s, TogglePlay), TogglePlay) == s
  {
  }

  /** `TOGGLE_SHUFFLE` flips the flag alone, never reorders the queue, and undoes itself. */
  lemma ToggleShuffleInvolution(s: MusicState)
    ensures Reduce(s, ToggleShuffle) == s.(isShuffled := !s.isShuffled)
    ensures Reduce(Reduce(s, ToggleShuffle), ToggleShuffle) == s
  {
  }

  /** The repeat mode cycles none, one, all. */
  lemma NextRepeatModeCycles()
    ensures NextRepeatMode(RepeatNone) == RepeatOne
    ensures NextRepeatMode(RepeatOne) == RepeatAll
    ensures NextRepeatMode(RepeatAll) == RepeatNone
  {
    var k0 := FindIndex(RepeatModes, IsMode(RepeatNone));
    var k1 := FindIndex(RepeatModes, IsMode(RepeatOne));
    var k2 := FindIndex(RepeatModes, IsMode(RepeatAll));
    assert IsMode(RepeatNone)(RepeatModes[0]);
    assert IsMode(RepeatOne)(RepeatModes[1]);
    assert IsMode(RepeatAll)(RepeatModes[2]);
    assert k0 == 0 && k1 == 1 && k2 == 2;
  }

  /** Three `TOGGLE_REPEAT`s give the state back; fewer change the mode. */
  lemma ToggleRepeatThrice(s: MusicState)
    ensures Reduce(s, ToggleRepeat).repeatMode != s.repeatMode
    ensures Reduce(s, ToggleRepeat) == s.(repeatMode := Reduce(s, ToggleRepeat).repeatMode)
    ensures Reduce(Reduce(Reduce(s, ToggleRepeat), ToggleRepeat), ToggleRepeat) == s
  {
    NextRepeatModeCycles();
  }

  /** Queueing two tracks from the first and skipping lands on the second. */
  lemma PlayThenNext(s: MusicState, a: Track, b: Track)
    ensures var r := Reduce(Reduce(s, PlayTrack(a, Some([a, b]))), NextTrack);
      r.currentTrack == Some(b) && r.currentIndex == 1
  {
    var p := Reduce(s, PlayTrack(a, Some([a, b])));
    assert TrackIdIs(a.id)([a, b][0]);
    assert p.currentIndex == 0;
  }

  // ---------------------------------------------------------------------
  // Properties of the provider's seek and media-event handlers
  // ---------------------------------------------------------------------

  /**
   * Seeking twice to the same position is seeking once, and seeking to the
   * current position when it already lies inside [0, duration] changes nothing.
   */
  lemma SeekToIdempotent(s: MusicState, time: real)
    ensures SeekTo(SeekTo(s, time), time) == SeekTo(s, time)
    ensures 0.0 <= s.currentTime <= s.duration ==> SeekTo(s, s.currentTime) == s
  {
  }

  /** At the end of a track, repeat-one leaves the reducer state alone; any other mode is `NEXT_TRACK`. */
  lemma EndedFollowsRepeatMode(s: MusicState)
    ensures s.repeatMode == RepeatOne ==> OnMediaEvent(s, Ended) == s
    ensures s.repeatMode != RepeatOne ==> OnMediaEvent(s, Ended) == Reduce(s, NextTrack)
  {
  }

  /** `canplay` records the duration, clears loading, and starts playback whenever a track is set. */
  lemma CanPlayStarts(s: MusicState, d: real)
    ensures var r := OnMediaEvent(s, CanPlay(d));
      && !r.isLoading && r.duration == d
      && r.isPlaying == (s.isPlaying || s.currentTrack.Some?)
      && r == s.(isLoading := false, duration := d, isPlaying := r.isPlaying)
  {
  }

  /** `loadstart` marks the player loading and zeroes time and duration. */
  lemma LoadStartResets(s: MusicState)
    ensures OnMediaEvent(s, LoadStart) == s.(isLoading := true, currentTime := 0.0, duration := 0.0)
  {
  }

  /** An `error` event clears loading and leaves the track selected. */
  lemma MediaErrorStopsLoading(s: MusicState)
    ensures OnMediaEvent(s, MediaError) == s.(isLoading := false)
  {
  }

  /** A rejected `play()` after a `TOGGLE_PLAY` undoes it. */
  lemma PlayRejectedReverts(s: MusicState)
    ensures OnMediaEvent(Reduce(s, TogglePlay), PlayRejected) == s
  {
  }
}
