/**
 * The playback decisions of src/screens/PlayerScreen.tsx: which track the
 * next and previous buttons pick, how the shown index follows the current
 * track, the three-way repeat button, what a finished track leads to, and
 * the `m:ss` time label.
 */
module Screen {
  import opened Wrappers
  import opened Strings
  import opened MusicService

  /* ---------- Next and previous ---------- */

  /** `handleNext`'s index: one on, wrapping from the last track to the first; none for an empty list. */
  function NextIndex(i: nat, n: nat): (r: Option<nat>)
    ensures r.None? <==> n == 0
    ensures r.Some? ==> r.value < n
    ensures r.Some? && i + 1 < n ==> r.value == i + 1
    ensures r.Some? && i + 1 >= n ==> r.value == 0
  {
    if n == 0 then None
    else Some(if i < n - 1 then i + 1 else 0)
  }

  /**
   * `handlePrev`'s index: one back, wrapping from the first track to the last;
   * none for an empty list. It names a track exactly when `i` is at most `n`.
   */
  function PrevIndex(i: nat, n: nat): (r: Option<nat>)
    ensures r.None? <==> n == 0
    ensures r.Some? ==> (r.value < n <==> i <= n)
    ensures r.Some? && 0 < i ==> r.value == i - 1
    ensures r.Some? && i == 0 ==> r.value == n - 1
  {
    if n == 0 then None
    else Some(if i > 0 then i - 1 else n - 1)
  }

  /** On a valid index, previous undoes next and next undoes previous. */
  lemma NextPrevInverse(i: nat, n: nat)
    requires i < n
    ensures PrevIndex(NextIndex(i, n).value, n) == Some(i)
    ensures NextIndex(PrevIndex(i, n).value, n) == Some(i)
  {
  }

  /** The index reached after pressing next `k` times from `i`. */
  function NextPresses(i: nat, n: nat, k: nat): (r: nat)
    requires i < n
    ensures r < n
  {
    if k == 0 then i else NextIndex(NextPresses(i, n, k - 1), n).value
  }

  /** The index reached after pressing previous `k` times from `i`. */
  function PrevPresses(i: nat, n: nat, k: nat): (r: nat)
    requires i < n
    ensures r < n
  {
    if k == 0 then i else PrevIndex(PrevPresses(i, n, k - 1), n).value
  }

  lemma MulAtLeast(a: int, n: int)
    requires a >= 1 && n > 0
    ensures a * n >= n
  {
    assert a * n == (a - 1) * n + n;
    assert (a - 1) * n >= 0;
  }

  /** Euclidean quotient and remainder are the only ones with the remainder in range. */
  lemma DivModUnique(x: int, n: int, q: int, r: int)
    requires n > 0 && 0 <= r < n && x == q * n + r
    ensures x / n == q && x % n == r
  {
    var q', r' := x / n, x % n;
    assert x == q' * n + r';
    assert (q - q') * n == r' - r;
    if q > q' {
      MulAtLeast(q - q', n);
    } else if q' > q {
      MulAtLeast(q' - q, n);
    }
  }

  lemma ModStepUp(x: int, n: nat)
    requires n > 0
    ensures x % n + 1 < n ==> (x + 1) % n == x % n + 1
    ensures x % n + 1 == n ==> (x + 1) % n == 0
  {
    var q, r := x / n, x % n;
    assert x == q * n + r;
    if r + 1 < n {
      DivModUnique(x + 1, n, q, r + 1);
    } else {
      DivModUnique(x + 1, n, q + 1, 0);
    }
  }

  lemma ModStepDown(x: int, n: nat)
    requires n > 0
    ensures x % n > 0 ==> (x - 1) % n == x % n - 1
    ensures x % n == 0 ==> (x - 1) % n == n - 1
  {
    var q, r := x / n, x % n;
    assert x == q * n + r;
    if r > 0 {
      DivModUnique(x - 1, n, q, r - 1);
    } else {
      DivModUnique(x - 1, n, q - 1, n - 1);
    }
  }

  /** Pressing next `k` times walks the list round: `k` steps on, modulo its length. */
  lemma {:induction false} NextPressesCycle(i: nat, n: nat, k: nat)
    requires i < n
    ensures NextPresses(i, n, k) == (i + k) % n
  {
    if k > 0 {
      NextPressesCycle(i, n, k - 1);
      ModStepUp(i + k - 1, n);
    }
  }

  /** Pressing previous `k` times walks the list round backwards. */
  lemma {:induction false} PrevPressesCycle(i: nat, n: nat, k: nat)
    requires i < n
    ensures PrevPresses(i, n, k) == (i - k) % n
  {
    if k > 0 {
      PrevPressesCycle(i, n, k - 1);
      ModStepDown(i - k + 1, n);
    }
  }

  /** Pressing next once per track returns to the starting track. */
  lemma NextPressesFullCircle(i: nat, n: nat)
    requires i < n
    ensures NextPresses(i, n, n) == i
  {
    NextPressesCycle(i, n, n);
    DivModUnique(i + n, n, 1, i);
  }

  /* ---------- The shown index ---------- */

  /**
   * The current-index effect: with a current track, the position of the first
   * listed track with its id, or 0 when none has it; without one, unchanged.
   */
  function SyncedIndex(tracks: seq<Track>, track: Option<Track>, current: nat): (r: nat)
    ensures track.None? ==> r == current
    ensures track.Some? ==> r == 0 || r < |tracks|
    ensures track.Some? && r > 0 ==> tracks[r].id == track.value.id
    ensures track.Some? ==> forall j :: 0 <= j < r ==> tracks[j].id != track.value.id
    ensures track.Some? && r == 0 && |tracks| > 0 && tracks[0].id != track.value.id ==>
      forall j :: 0 <= j < |tracks| ==> tracks[j].id != track.value.id
  {
    if track.None? then current
    else
      var index := FindIndex(tracks, track.value.id);
      if index != -1 then index else 0
  }

  /* ---------- Repeat ---------- */

  datatype RepeatMode = Off | One | All

  /** The repeat button: off, then one, then all, then off again. */
  function NextRepeatMode(m: RepeatMode): (r: RepeatMode)
    ensures r != m
    ensures m == Off ==> r == One
  {
    match m
    case Off => One
    case One => All
    case All => Off
  }

  /** Three presses of the repeat button leave the mode as it was, and fewer never do. */
  lemma RepeatCycle(m: RepeatMode)
    ensures NextRepeatMode(NextRepeatMode(NextRepeatMode(m))) == m
    ensures NextRepeatMode(NextRepeatMode(m)) != m
  {
  }

  /* ---------- Finishing a track ---------- */

  /** What the finish callback does: replay through the façade, start a track through the context, or nothing. */
  datatype FinishReaction = Replay(track: Track) | PlayNew(track: Track) | Nothing

  /**
   * The track-finish callback: in repeat-one it replays the current track (if
   * any); in either other mode it does what the next button does.
   */
  function OnTrackFinish(mode: RepeatMode, track: Option<Track>, tracks: seq<Track>, index: nat): (r: FinishReaction)
    requires index == 0 || index < |tracks|
    ensures mode == One ==> (r.Replay? <==> track.Some?) && (r.Replay? ==> r.track == track.value)
    ensures mode == One ==> !r.PlayNew?
    ensures mode != One ==> (r.PlayNew? <==> |tracks| > 0) && !r.Replay?
    ensures mode != One && r.PlayNew? ==> r.track == tracks[(index + 1) % |tracks|]
  {
    if mode == One then
      if track.Some? then Replay(track.value) else Nothing
    else
      match NextIndex(index, |tracks|)
      case Some(next) =>
        assert index + 1 == |tracks| ==> (index + 1) % |tracks| == 0;
        PlayNew(tracks[next])
      case None => Nothing
  }

  /** Repeat-all and repeat-off react to a finished track in the same way, the last track included. */
  lemma OffAndAllAgree(track: Option<Track>, tracks: seq<Track>, index: nat)
    requires index == 0 || index < |tracks|
    ensures OnTrackFinish(Off, track, tracks, index) == OnTrackFinish(All, track, tracks, index)
    ensures |tracks| > 0 && index == |tracks| - 1 ==> OnTrackFinish(Off, track, tracks, index) == PlayNew(tracks[0])
  {
  }

  /* ---------- The screen's state ---------- */

  /** The screen's track list (loaded once when it mounts), shown index and repeat mode. */
  class ScreenState {
    const allTracks: seq<Track>
    var currentTrackIndex: nat
    var repeatMode: RepeatMode

    /** The shown index is the first track's, or that of a listed track. */
    ghost predicate Valid()
      reads this
    {
      currentTrackIndex == 0 || currentTrackIndex < |allTracks|
    }

    constructor(tracks: seq<Track>)
      ensures allTracks == tracks && currentTrackIndex == 0 && repeatMode == Off
      ensures Valid()
    {
      allTracks := tracks;
      currentTrackIndex := 0;
      repeatMode := Off;
    }

    /** The current-index effect, run when the current track changes. */
    method SyncCurrentIndex(track: Option<Track>)
      requires Valid()
      modifies this`currentTrackIndex
      ensures currentTrackIndex == SyncedIndex(allTracks, track, old(currentTrackIndex))
      ensures Valid()
    {
      if track.Some? {
        var index := FindIndex(allTracks, track.value.id);
        currentTrackIndex := if index != -1 then index else 0;
      }
    }

    /** The repeat button. */
    method PressRepeat()
      modifies this`repeatMode
      ensures repeatMode == NextRepeatMode(old(repeatMode))
    {
      if repeatMode == Off {
        repeatMode := One;
      } else if repeatMode == One {
        repeatMode := All;
      } else {
        repeatMode := Off;
      }
    }

    /** `handleNext`: the track handed to `playNewTrack`, the one after the shown one round the list. */
    method HandleNext() returns (r: Option<Track>)
      requires Valid()
      ensures r.None? <==> |allTracks| == 0
      ensures r.Some? ==> r.value == allTracks[(currentTrackIndex + 1) % |allTracks|]
    {
      r := None;
      if |allTracks| > 0 {
        var nextIndex := NextIndex(currentTrackIndex, |allTracks|).value;
        DivModUnique(currentTrackIndex, |allTracks|, 0, currentTrackIndex);
        ModStepUp(currentTrackIndex, |allTracks|);
        r := Some(allTracks[nextIndex]);
      }
    }

    /** `handlePrev`: the track handed to `playNewTrack`, the one before the shown one round the list. */
    method HandlePrev() returns (r: Option<Track>)
      requires Valid()
      ensures r.None? <==> |allTracks| == 0
      ensures r.Some? ==> r.value == allTracks[(currentTrackIndex - 1) % |allTracks|]
    {
      r := None;
      if |allTracks| > 0 {
        var prevIndex := PrevIndex(currentTrackIndex, |allTracks|).value;
        DivModUnique(currentTrackIndex, |allTracks|, 0, currentTrackIndex);
        ModStepDown(currentTrackIndex, |allTracks|);
        r := Some(allTracks[prevIndex]);
      }
    }
  }

  /* ---------- The time label ---------- */

  /** JavaScript's `%` on whole numbers: the remainder takes the dividend's sign. */
  function JsRem(a: int, b: int): (r: int)
    requires b > 0
    ensures a >= 0 ==> r == a % b
    ensures a < 0 ==> -b < r <= 0
    ensures (a - r) % b == 0
  {
    if a >= 0 then
      assert a == (a / b) * b + a % b;
      DivModUnique(a - a % b, b, a / b, 0);
      a % b
    else
      var m := (-a) % b;
      assert (-a) == ((-a) / b) * b + m;
      DivModUnique(a + m, b, -((-a) / b), 0);
      -m
  }

  /**
   * `formatTime`: whole minutes (rounded down), a colon, and the seconds,
   * padded with a zero below ten. For a non-negative time the label is the
   * minutes `seconds / 60` in decimal, then the only colon, then two digits
   * that read as `seconds % 60`.
   */
  function FormatTime(seconds: int): (r: string)
    ensures seconds >= 0 ==>
      && |r| >= 4
      && r[|r| - 3] == ':'
      && (forall i :: 0 <= i < |r| && i != |r| - 3 ==> IsDigit(r[i]))
      && r[..|r| - 3] == NatToString(seconds / 60)
      && DigitsValue(r[|r| - 2..]) == seconds % 60
  {
    var mins := seconds / 60;
    var secs := JsRem(seconds, 60);
    var field := (if secs < 10 then "0" else "") + IntToString(secs);
    if seconds >= 0 then
      SecondsFieldValue(secs);
      LabelParts(IntToString(mins), field);
      IntToString(mins) + ":" + field
    else
      IntToString(mins) + ":" + field
  }

  /** Reads an `m:ss` label back as a number of seconds. */
  function ParseTime(t: string): (r: nat)
    requires |t| >= 3
    requires forall i :: 0 <= i < |t| && i != |t| - 3 ==> IsDigit(t[i])
  {
    DigitsValue(t[..|t| - 3]) * 60 + DigitsValue(t[|t| - 2..])
  }

  lemma PaddedDigitValue(d: string)
    requires |d| == 1 && IsDigit(d[0])
    ensures DigitsValue("0" + d) == DigitsValue(d)
  {
    var p := "0" + d;
    assert p[..1] == "0";
    assert DigitsValue("0") == 0 by {
      assert "0"[..0] == "";
    }
    assert d[..0] == "";
  }

  /** The seconds field of a label: two digits that read back as the seconds. */
  lemma SecondsFieldValue(secs: nat)
    requires secs < 60
    ensures var b := (if secs < 10 then "0" else "") + NatToString(secs);
      && |b| == 2
      && (forall i :: 0 <= i < |b| ==> IsDigit(b[i]))
      && DigitsValue(b) == secs
  {
    NatToStringRoundTrip(secs);
    if secs < 10 {
      PaddedDigitValue(NatToString(secs));
    } else {
      assert "" + NatToString(secs) == NatToString(secs);
    }
  }

  /** A label `a:b` built from digit strings, with two digits after the colon, cuts back into `a` and `b`. */
  lemma LabelParts(a: string, b: string)
    requires |b| == 2
    requires forall i :: 0 <= i < |a| ==> IsDigit(a[i])
    requires forall i :: 0 <= i < |b| ==> IsDigit(b[i])
    ensures var t := a + ":" + b;
      && |t| >= 3
      && t[|t| - 3] == ':'
      && (forall i :: 0 <= i < |t| && i != |t| - 3 ==> IsDigit(t[i]))
      && t[..|t| - 3] == a
      && t[|t| - 2..] == b
  {
    var t := a + ":" + b;
    assert t[..|t| - 3] == a;
    assert t[|t| - 2..] == b;
  }

  /** The label of a non-negative time reads back as that time. */
  lemma FormatTimeRoundTrip(seconds: nat)
    ensures ParseTime(FormatTime(seconds)) == seconds
  {
    NatToStringRoundTrip(seconds / 60);
  }

  /** A whole minute and a quarter, a single-digit second count, and a negative time as the code renders it. */
  lemma FormatTimeExamples()
    ensures FormatTime(75) == "1:15"
    ensures FormatTime(5) == "0:05"
    ensures FormatTime(-5) == "-1:0-5"
  {
    assert JsRem(75, 60) == 15;
    assert JsRem(5, 60) == 5;
    assert JsRem(-5, 60) == -5;
    assert -5 / 60 == -1;
  }
}
