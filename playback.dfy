/** The playback state every instance keeps at module level (main.py:58-65,
    plus `prevMillis`), the key codes the two loops react to, and the
    window flags kept by `showImg` and `setFullscreen` (main.py:84-97). */
module Playback {
  import opened Optional

  const DEFAULT_FULLSCREEN: bool := true

  /** A snapshot of the mutable globals. `shown` is the frame index last
      handed to `cv2.imshow`, None while no window exists. */
  datatype Clock = Clock(
    frameIdx: nat,
    posit: nat,
    musicPlay: bool,
    prevMillis: int,
    isWindowShowing: bool,
    wndIsFS: bool,
    shown: Option<nat>)

  /** The globals at import time; `prevMillis` is first assigned when a loop
      starts (main.py:179, 248). */
  const INITIAL: Clock := Clock(0, 0, false, 0, false, false, None)

  /** `cv2.waitKey` results the loops test; -1 means no key was pressed. */
  const NO_KEY: int := -1
  const KEY_ESC: int := 27

  predicate IsMuteKey(key: int) {
    key == 'm' as int || key == 'M' as int
  }

  predicate IsFullscreenKey(key: int) {
    key == 'f' as int || key == 'F' as int
  }

  /** The transmitter quits on Esc, 'q' and 'Q' (main.py:207). */
  predicate IsTxQuitKey(key: int) {
    key == KEY_ESC || key == 'q' as int || key == 'Q' as int
  }

  /** The receiver quits on Esc and 'q' only (main.py:272). */
  predicate IsRxQuitKey(key: int) {
    key == KEY_ESC || key == 'q' as int
  }

  /** `setFullscreen(b)` records the requested window mode. */
  function SetFullscreen(c: Clock, isFullscreen: bool): (r: Clock)
    ensures r.wndIsFS == isFullscreen
    ensures r.(wndIsFS := c.wndIsFS) == c
  {
    c.(wndIsFS := isFullscreen)
  }

  /** `showImg(image)`: a window that is not yet showing is created in the
      default fullscreen mode; then the frame is displayed. */
  function ShowImg(c: Clock, frame: nat): (r: Clock)
    ensures r.isWindowShowing && r.shown == Some(frame)
    ensures r.wndIsFS == if c.isWindowShowing then c.wndIsFS else DEFAULT_FULLSCREEN
    ensures r.(isWindowShowing := c.isWindowShowing, wndIsFS := c.wndIsFS, shown := c.shown) == c
  {
    var created := if !c.isWindowShowing then SetFullscreen(c, DEFAULT_FULLSCREEN).(isWindowShowing := true) else c;
    created.(shown := Some(frame))
  }

  /** `isWindowShowing = False; cv2.destroyAllWindows()`. */
  function HideWindow(c: Clock): (r: Clock)
    ensures !r.isWindowShowing && r.shown == None
    ensures r.(isWindowShowing := c.isWindowShowing, shown := c.shown) == c
  {
    c.(isWindowShowing := false, shown := None)
  }

  /** Only the first frame shown after the window was closed resets the
      fullscreen flag: a mode chosen with the 'f' key survives every later
      frame. */
  lemma FullscreenSurvivesShowImg(c: Clock, first: nat, b: bool, next: nat)
    ensures ShowImg(SetFullscreen(ShowImg(c, first), b), next).wndIsFS == b
    ensures ShowImg(SetFullscreen(ShowImg(c, first), b), next) == SetFullscreen(ShowImg(c, next), b)
  {
  }

  /** Showing again after the window was destroyed reopens it in the default
      mode, whatever mode it had before. */
  lemma ShowAfterHideResetsFullscreen(c: Clock, frame: nat)
    ensures ShowImg(HideWindow(c), frame).wndIsFS == DEFAULT_FULLSCREEN
    ensures ShowImg(HideWindow(c), frame).isWindowShowing
  {
  }

  /** The quit keys of the two loops differ only in 'Q'. */
  lemma QuitKeys(key: int)
    ensures IsRxQuitKey(key) ==> IsTxQuitKey(key)
    ensures IsTxQuitKey(key) && !IsRxQuitKey(key) <==> key == 'Q' as int
    ensures !(IsTxQuitKey(key) && (IsMuteKey(key) || IsFullscreenKey(key)))
    ensures !(IsMuteKey(key) && IsFullscreenKey(key))
  {
  }
}
