/**
 * The player slice of the store (src/store/playerSlice.ts): the displayed
 * track, playing flag, position and duration, and the seek arbitration that
 * keeps device-reported progress from overwriting a position the user has
 * just chosen. `Date.now()` is the parameter `now`, in milliseconds.
 */
module Slice {
  import opened Wrappers
  import opened MusicService

  /** How long after a finished seek device-reported progress is still ignored, in milliseconds. */
  const GraceWindowMillis: int := 500

  /** Device-reported progress is applied: no seek in progress, and strictly more than the grace window since the last one finished. */
  predicate DeviceHasAuthority(isSeeking: bool, lastSeekTime: int, now: int) {
    !isSeeking && now - lastSeekTime > GraceWindowMillis
  }

  /** The `PlayerState` record as a value. */
  datatype View = View(
    currentTrack: Option<Track>,
    isPlaying: bool,
    position: int,
    duration: int,
    isSeeking: bool,
    lastSeekTime: int)

  /** `initialState`. */
  const InitialState: View := View(None, false, 0, 0, false, 0)

  /** The actions the slice exports. */
  datatype Action =
    | SetTrack(track: Option<Track>)
    | SetPlaying(playing: bool)
    | UpdateProgress(position: int, duration: int)
    | StartSeeking
    | FinishSeeking(position: int)
    | ResetPlayer

  /** The slice's state, which each reducer updates in place. */
  class PlayerState {
    var currentTrack: Option<Track>
    var isPlaying: bool
    var position: int
    var duration: int
    var isSeeking: bool
    var lastSeekTime: int

    function Snapshot(): View
      reads this
    {
      View(currentTrack, isPlaying, position, duration, isSeeking, lastSeekTime)
    }

    constructor()
      ensures Snapshot() == InitialState
    {
      currentTrack := None;
      isPlaying := false;
      position := 0;
      duration := 0;
      isSeeking := false;
      lastSeekTime := 0;
    }

    /** `setTrack`: only the track changes. */
    method SetTrack(track: Option<Track>)
      modifies this
      ensures Snapshot() == old(Snapshot()).(currentTrack := track)
    {
      currentTrack := track;
    }

    /** `setPlaying`: only the playing flag changes. */
    method SetPlaying(playing: bool)
      modifies this
      ensures Snapshot() == old(Snapshot()).(isPlaying := playing)
    {
      isPlaying := playing;
    }

    /**
     * `updateProgress`: the position is taken only while the device has
     * authority, and the duration only when it is also positive, so a zero
     * duration never replaces a known one. At exactly 500 ms after a seek the
     * update is still ignored.
     */
    method UpdateProgress(newPosition: int, newDuration: int, now: int)
      modifies this
      ensures Snapshot() == old(Snapshot()).(
        position := if DeviceHasAuthority(isSeeking, lastSeekTime, now) then newPosition else old(position),
        duration := if newDuration > 0 && DeviceHasAuthority(isSeeking, lastSeekTime, now)
                    then newDuration else old(duration))
      ensures isSeeking || now - lastSeekTime <= GraceWindowMillis ==> Snapshot() == old(Snapshot())
    {
      if !isSeeking && now - lastSeekTime > GraceWindowMillis {
        position := newPosition;
      }
      if newDuration > 0 && !isSeeking && now - lastSeekTime > GraceWindowMillis {
        duration := newDuration;
      }
    }

    /** `startSeeking`: only the seeking flag changes, to true. */
    method StartSeeking()
      modifies this
      ensures Snapshot() == old(Snapshot()).(isSeeking := true)
    {
      isSeeking := true;
    }

    /** `finishSeeking`: the chosen position is shown and the grace window starts now. */
    method FinishSeeking(newPosition: int, now: int)
      modifies this
      ensures Snapshot() == old(Snapshot()).(isSeeking := false, position := newPosition, lastSeekTime := now)
    {
      isSeeking := false;
      position := newPosition;
      lastSeekTime := now;
    }

    /** `resetPlayer`: back to exactly the initial state. */
    method ResetPlayer()
      modifies this
      ensures Snapshot() == InitialState
    {
      currentTrack := None;
      isPlaying := false;
      position := 0;
      duration := 0;
      isSeeking := false;
      lastSeekTime := 0;
    }

    /** `dispatch` of one of the slice's actions at time `now`. */
    method Dispatch(action: Action, now: int)
      modifies this
      ensures match action
        case SetTrack(t) => Snapshot() == old(Snapshot()).(currentTrack := t)
        case SetPlaying(b) => Snapshot() == old(Snapshot()).(isPlaying := b)
        case UpdateProgress(p, d) => Snapshot() == old(Snapshot()).(
          position := if DeviceHasAuthority(isSeeking, lastSeekTime, now) then p else old(position),
          duration := if d > 0 && DeviceHasAuthority(isSeeking, lastSeekTime, now) then d else old(duration))
        case StartSeeking => Snapshot() == old(Snapshot()).(isSeeking := true)
        case FinishSeeking(p) => Snapshot() == old(Snapshot()).(isSeeking := false, position := p, lastSeekTime := now)
        case ResetPlayer => Snapshot() == InitialState
    {
      match action {
        case SetTrack(t) => SetTrack(t);
        case SetPlaying(b) => SetPlaying(b);
        case UpdateProgress(p, d) => UpdateProgress(p, d, now);
        case StartSeeking => StartSeeking();
        case FinishSeeking(p) => FinishSeeking(p, now);
        case ResetPlayer => ResetPlayer();
      }
    }
  }

  /**
   * After a seek to 40 s finishes at time `t`, a device report of 5 s at
   * `t + 100` leaves 40 s displayed, and the same report at `t + 600` replaces it.
   */
  method SeekArbitration(t: int, duration: int) returns (after100: int, after600: int)
    ensures after100 == 40
    ensures after600 == 5
  {
    var store := new PlayerState();
    store.StartSeeking();
    store.FinishSeeking(40, t);
    store.UpdateProgress(5, duration, t + 100);
    after100 := store.position;
    store.UpdateProgress(5, duration, t + 600);
    after600 := store.position;
  }
}
