/**
 * The player screen (PlayerActivity.kt), taken narrowly: how it reads its
 * launch extras, the request it builds for a stream, the lock / fullscreen /
 * picture-in-picture flags with the view state they drive, and the integer
 * side of the volume gesture.
 */
module Player {
  import opened Wrappers
  import MainActivity

  // ---------------------------------------------------------------------
  // Launch extras and startPlayback
  // ---------------------------------------------------------------------

  /** What onCreate reads from the intent, and whether it goes on to play. */
  datatype Launch = Launch(url: string, name: string, cookie: string, referer: string,
                           origin: string, userAgent: string, starts: bool)

  /** getStringExtra(key) ?: fallback. */
  function ExtraOr(extras: map<string, string>, key: string, fallback: string): string {
    if key in extras then extras[key] else fallback
  }

  /**
   * onCreate: missing extras default to "" except the name ("Channel") and
   * the user agent ("Default"); playback starts only for a non-empty url,
   * otherwise the screen closes.
   */
  function LaunchFromExtras(extras: map<string, string>): (l: Launch)
    ensures l.starts <==> "channel_url" in extras && extras["channel_url"] != ""
    ensures "channel_name" !in extras ==> l.name == "Channel"
    ensures "channel_user_agent" !in extras ==> l.userAgent == "Default"
  {
    var url := ExtraOr(extras, "channel_url", "");
    Launch(url, ExtraOr(extras, "channel_name", "Channel"), ExtraOr(extras, "channel_cookie", ""),
           ExtraOr(extras, "channel_referer", ""), ExtraOr(extras, "channel_origin", ""),
           ExtraOr(extras, "channel_user_agent", "Default"), url != "")
  }

  /** An intent with no extras at all does not start playback. */
  lemma NoExtrasNoPlayback()
    ensures var l := LaunchFromExtras(map[]);
            !l.starts && l.name == "Channel" && l.userAgent == "Default" && l.url == ""
  {
  }

  const PlayerAgent: string := "CookieM3U8Player/5.0"

  /** getUserAgentString: Chrome and Firefox have browser strings; every other name gets the app's own. */
  function GetUserAgentString(name: string): (r: string)
    ensures name != "Chrome" && name != "Firefox" ==> r == PlayerAgent
  {
    match name
    case "Chrome" => MainActivity.ChromeAgent
    case "Firefox" => MainActivity.FirefoxAgent
    case _ => PlayerAgent
  }

  /**
   * The two screens agree on Chrome and Firefox only: for Safari and Edge
   * the player sends its own agent where the main screen sends the browser's.
   */
  lemma AgentTablesDiffer(systemAgent: string)
    ensures GetUserAgentString("Chrome") == MainActivity.UserAgentFor("Chrome", systemAgent)
    ensures GetUserAgentString("Firefox") == MainActivity.UserAgentFor("Firefox", systemAgent)
    ensures GetUserAgentString("Safari") != MainActivity.UserAgentFor("Safari", systemAgent)
    ensures GetUserAgentString("Edge") != MainActivity.UserAgentFor("Edge", systemAgent)
    ensures GetUserAgentString("Default") == PlayerAgent
  {
    assert |PlayerAgent| == 20;
    assert |MainActivity.SafariAgent| == 114 && |MainActivity.EdgeAgent| == 125;
  }

  /** The headers startPlayback fills: one entry per non-empty argument. */
  method RequestHeaders(cookie: string, referer: string, origin: string) returns (headers: map<string, string>)
    ensures forall k :: k in headers <==>
              (k == "Cookie" && cookie != "") || (k == "Referer" && referer != "") || (k == "Origin" && origin != "")
    ensures "Cookie" in headers ==> headers["Cookie"] == cookie
    ensures "Referer" in headers ==> headers["Referer"] == referer
    ensures "Origin" in headers ==> headers["Origin"] == origin
  {
    headers := map[];
    if cookie != "" {
      headers := headers["Cookie" := cookie];
    }
    if referer != "" {
      headers := headers["Referer" := referer];
    }
    if origin != "" {
      headers := headers["Origin" := origin];
    }
  }

  /** What startPlayback hands to the media player: the url as given (no `|` parsing here), headers and agent. */
  datatype PlayerRequest = PlayerRequest(uri: string, headers: map<string, string>, userAgent: string)

  /**
   * startPlayback. The DRM check in the source has an empty body, so a
   * drmScheme/drmLicense in the url changes nothing.
   */
  method StartPlayback(url: string, cookie: string, referer: string, origin: string, userAgent: string)
    returns (request: PlayerRequest)
    ensures request.uri == url
    ensures request.userAgent == GetUserAgentString(userAgent)
    ensures forall k :: k in request.headers <==>
              (k == "Cookie" && cookie != "") || (k == "Referer" && referer != "") || (k == "Origin" && origin != "")
    ensures forall k :: k in request.headers ==> request.headers[k] == (if k == "Cookie" then cookie else if k == "Referer" then referer else origin)
  {
    var headers := RequestHeaders(cookie, referer, origin);
    request := PlayerRequest(url, headers, GetUserAgentString(userAgent));
  }

  // ---------------------------------------------------------------------
  // Lock, fullscreen and picture-in-picture
  // ---------------------------------------------------------------------

  datatype Orientation = Unspecified | Portrait | SensorLandscape

  /**
   * The flags and the view state they drive. The two icons are recorded by
   * which image they show; hideSystemUI is recorded as systemBarsHidden.
   */
  datatype Controls = Controls(
    isFullscreen: bool,
    isLocked: bool,
    useController: bool,
    topOverlayVisible: bool,
    requestedOrientation: Orientation,
    fullscreenIconIsExit: bool,
    lockIconIsClosed: bool,
    systemBarsHidden: bool)

  /** toggleLock. */
  function ToggledLock(s: Controls): Controls {
    var locked := !s.isLocked;
    s.(isLocked := locked, lockIconIsClosed := locked, useController := !locked, topOverlayVisible := !locked)
  }

  /** toggleFullscreen. */
  function ToggledFullscreen(s: Controls): Controls {
    if s.isFullscreen then s.(requestedOrientation := Portrait, fullscreenIconIsExit := false, isFullscreen := false)
    else s.(requestedOrientation := SensorLandscape, fullscreenIconIsExit := true, isFullscreen := true)
  }

  /** onConfigurationChanged. */
  function ConfigurationChanged(s: Controls, isLandscape: bool): Controls {
    if isLandscape then s.(isFullscreen := true, fullscreenIconIsExit := true, systemBarsHidden := true)
    else s.(isFullscreen := false, fullscreenIconIsExit := false)
  }

  /** onPictureInPictureModeChanged. */
  function PipModeChanged(s: Controls, isInPip: bool): Controls {
    s.(useController := !isInPip, topOverlayVisible := !isInPip)
  }

  /** The controller-visibility listener; `visible` is VISIBLE versus GONE. */
  function ControllerVisibilityChanged(s: Controls, visible: bool): Controls {
    var s1 := if !s.isLocked then s.(topOverlayVisible := visible) else s;
    if !visible then s1.(systemBarsHidden := true) else s1
  }

  /** The view agrees with the lock: controller and overlay shown exactly when unlocked. */
  predicate LockShown(s: Controls) {
    s.useController == !s.isLocked && s.topOverlayVisible == !s.isLocked && s.lockIconIsClosed == s.isLocked
  }

  /** toggleLock flips the lock, leaves the view agreeing with it, and touches nothing else. */
  lemma ToggleLockEffect(s: Controls)
    ensures var t := ToggledLock(s);
            && t.isLocked == !s.isLocked && LockShown(t)
            && t.isFullscreen == s.isFullscreen && t.requestedOrientation == s.requestedOrientation
            && t.fullscreenIconIsExit == s.fullscreenIconIsExit && t.systemBarsHidden == s.systemBarsHidden
  {
  }

  /** Toggling the lock twice gives back the state exactly when the view agreed with the lock before. */
  lemma ToggleLockTwice(s: Controls)
    ensures ToggledLock(ToggledLock(s)) == s <==> LockShown(s)
  {
  }

  /** toggleFullscreen flips the flag; the requested orientation is landscape exactly when it becomes set. */
  lemma ToggleFullscreenEffect(s: Controls)
    ensures var t := ToggledFullscreen(s);
            && t.isFullscreen == !s.isFullscreen
            && (t.requestedOrientation == SensorLandscape <==> t.isFullscreen)
            && t.fullscreenIconIsExit == t.isFullscreen
            && t.isLocked == s.isLocked && t.useController == s.useController && t.topOverlayVisible == s.topOverlayVisible
  {
  }

  /**
   * A configuration change makes the flag follow the orientation and leaves
   * the requested orientation alone, so "fullscreen" and "landscape
   * requested" can part ways when a portrait configuration arrives while
   * landscape is requested: in multi-window mode, or on a platform that
   * ignores the orientation request.
   */
  lemma ConfigurationChangeEffect(s: Controls, isLandscape: bool)
    ensures var t := ConfigurationChanged(s, isLandscape);
            && t.isFullscreen == isLandscape && t.fullscreenIconIsExit == isLandscape
            && t.requestedOrientation == s.requestedOrientation
            && (isLandscape ==> t.systemBarsHidden)
            && t.isLocked == s.isLocked && t.useController == s.useController
  {
  }

  /** A portrait configuration after entering fullscreen by the button (multi-window, or an ignored orientation request) leaves landscape requested while not fullscreen. */
  lemma RotationDesync(s: Controls)
    requires !s.isFullscreen
    ensures var t := ConfigurationChanged(ToggledFullscreen(s), false);
            !t.isFullscreen && t.requestedOrientation == SensorLandscape
  {
  }

  /** While locked the controller listener leaves the overlay alone; unlocked, the overlay follows it. */
  lemma ControllerVisibilityEffect(s: Controls, visible: bool)
    ensures var t := ControllerVisibilityChanged(s, visible);
            && (s.isLocked ==> t.topOverlayVisible == s.topOverlayVisible)
            && (!s.isLocked ==> t.topOverlayVisible == visible)
            && (!visible ==> t.systemBarsHidden)
            && t.isLocked == s.isLocked && t.useController == s.useController
  {
  }

  /**
   * Entering PiP hides controller and overlay; leaving it shows both again,
   * whatever the lock says: a screen locked before PiP comes back with its
   * controller enabled.
   */
  lemma PipEffect(s: Controls)
    ensures var inPip := PipModeChanged(s, true);
            !inPip.useController && !inPip.topOverlayVisible && inPip.isLocked == s.isLocked
    ensures var back := PipModeChanged(PipModeChanged(s, true), false);
            back.useController && back.topOverlayVisible && back.isLocked == s.isLocked
    ensures s.isLocked && LockShown(s) ==> !LockShown(PipModeChanged(PipModeChanged(s, true), false))
  {
  }

  /** The player screen's flags, updated in place by its handlers. */
  class PlayerControls {
    var isFullscreen: bool
    var isLocked: bool
    var useController: bool
    var topOverlayVisible: bool
    var requestedOrientation: Orientation
    var fullscreenIconIsExit: bool
    var lockIconIsClosed: bool
    var systemBarsHidden: bool

    function State(): Controls
      reads this
    {
      Controls(isFullscreen, isLocked, useController, topOverlayVisible, requestedOrientation,
               fullscreenIconIsExit, lockIconIsClosed, systemBarsHidden)
    }

    /** A fresh screen: unlocked, not fullscreen, controller and overlay shown, orientation left to the system. */
    constructor ()
      ensures State() == Controls(false, false, true, true, Unspecified, false, false, false)
      ensures LockShown(State())
    {
      isFullscreen := false;
      isLocked := false;
      useController := true;
      topOverlayVisible := true;
      requestedOrientation := Unspecified;
      fullscreenIconIsExit := false;
      lockIconIsClosed := false;
      systemBarsHidden := false;
    }

    method ToggleLock()
      modifies this
      ensures State() == ToggledLock(old(State()))
    {
      isLocked := !isLocked;
      if isLocked {
        lockIconIsClosed := true;
        useController := false;
        topOverlayVisible := false;
      } else {
        lockIconIsClosed := false;
        useController := true;
        topOverlayVisible := true;
      }
    }

    method ToggleFullscreen()
      modifies this
      ensures State() == ToggledFullscreen(old(State()))
    {
      if isFullscreen {
        requestedOrientation := Portrait;
        fullscreenIconIsExit := false;
        isFullscreen := false;
      } else {
        requestedOrientation := SensorLandscape;
        fullscreenIconIsExit := true;
        isFullscreen := true;
      }
    }

    method OnConfigurationChanged(isLandscape: bool)
      modifies this
      ensures State() == ConfigurationChanged(old(State()), isLandscape)
    {
      if isLandscape {
        isFullscreen := true;
        fullscreenIconIsExit := true;
        systemBarsHidden := true;
      } else {
        isFullscreen := false;
        fullscreenIconIsExit := false;
      }
    }

    method OnPictureInPictureModeChanged(isInPip: bool)
      modifies this
      ensures State() == PipModeChanged(old(State()), isInPip)
    {
      useController := !isInPip;
      topOverlayVisible := !isInPip;
    }

    method OnControllerVisibilityChanged(visible: bool)
      modifies this
      ensures State() == ControllerVisibilityChanged(old(State()), visible)
    {
      if !isLocked {
        topOverlayVisible := visible;
      }
      if !visible {
        systemBarsHidden := true;
      }
    }
  }

  // ---------------------------------------------------------------------
  // adjustVolume
  // ---------------------------------------------------------------------

  const TwoTo31: int := 0x8000_0000

  /** A Kotlin Int. */
  type int32 = x: int | -TwoTo31 <= x < TwoTo31

  /** Two's-complement wrap-around of Int arithmetic. */
  function Wrap(x: int): (r: int32)
    ensures -TwoTo31 <= x < TwoTo31 ==> r == x
  {
    var m := x % (2 * TwoTo31);
    if m >= TwoTo31 then m - 2 * TwoTo31 else m
  }

  /** Int division: truncation toward zero (the overflowing MIN_VALUE / -1 wraps). */
  function DivInt(a: int32, b: int32): int32
    requires b != 0
  {
    var x: int, y: int := a, b;
    var q := (if x >= 0 then x else -x) / (if y > 0 then y else -y);
    Wrap(if (x >= 0) == (y > 0) then q else -q)
  }

  /** coerceIn(lo, hi): None where Kotlin throws IllegalArgumentException (lo > hi). */
  function CoerceIn(x: int, lo: int, hi: int): (r: Option<int>)
    ensures r.None? <==> lo > hi
    ensures r.Some? ==> lo <= r.value <= hi
    ensures r.Some? && lo <= x <= hi ==> r.value == x
  {
    if lo > hi then None else if x < lo then Some(lo) else if x > hi then Some(hi) else Some(x)
  }

  /**
   * What adjustVolume computes from the current and maximum stream volume
   * and the integer change: the new volume it sets, and the percent it
   * shows, None where `newVol * 100 / max` divides by zero after the volume
   * has been set.
   */
  datatype VolumeStep = Rejected | Adjusted(newVol: int32, percent: Option<int32>)

  function AdjustVolume(current: int32, change: int32, max: int32): (r: VolumeStep)
    ensures r.Rejected? <==> max < 0
  {
    match CoerceIn(Wrap(current + change), 0, max)
    case None => Rejected
    case Some(v) =>
      var percent := if max == 0 then None else Some(DivInt(Wrap(v * 100), max));
      Adjusted(v, percent)
  }

  /** For every change the new volume stays in [0, max]. */
  lemma VolumeInRange(current: int32, change: int32, max: int32)
    requires 0 <= max
    ensures var r := AdjustVolume(current, change, max);
            r.Adjusted? && 0 <= r.newVol <= max
  {
  }

  /** A change that does not overflow moves the volume by that much, clamped to [0, max]. */
  lemma VolumeIsClampedSum(current: int32, change: int32, max: int32)
    requires 0 <= max && -TwoTo31 <= current + change < TwoTo31
    ensures var r := AdjustVolume(current, change, max);
            var sum := current + change;
            r.Adjusted? && r.newVol == (if sum < 0 then 0 else if sum > max then max else sum)
  {
  }

  /** With no overflow in `newVol * 100`, the percent shown lies in [0, 100], and is 100 at the top. */
  lemma PercentInRange(current: int32, change: int32, max: int32)
    requires 0 < max <= 21474836
    ensures var r := AdjustVolume(current, change, max);
            && r.Adjusted? && r.percent.Some?
            && 0 <= r.percent.value <= 100
            && (r.newVol == max ==> r.percent.value == 100)
  {
    VolumeInRange(current, change, max);
    var v := AdjustVolume(current, change, max).newVol;
    NoWrapBelowBound(v, max);
    PercentBound(v, max);
  }

  lemma NoWrapBelowBound(v: int32, max: int32)
    requires 0 <= v <= max <= 21474836 && 0 < max
    ensures DivInt(Wrap(v * 100), max) == (v * 100) / max
  {
    var p := v * 100;
    assert 0 <= p <= max * 100 < TwoTo31;
    assert Wrap(p) == p;
    DivBounds(p, max, 100);
    assert DivInt(p, max) == Wrap(p / max);
  }

  lemma PercentBound(v: int, max: int)
    requires 0 <= v <= max && 0 < max
    ensures 0 <= (v * 100) / max <= 100
    ensures v == max ==> (v * 100) / max == 100
  {
    DivBounds(v * 100, max, 100);
  }

  /** Euclidean division of a value in [0, m * c] by m lies in [0, c], and is c at the top. */
  lemma DivBounds(a: int, m: int, c: int)
    requires m > 0 && 0 <= a <= m * c
    ensures 0 <= a / m <= c
    ensures a == m * c ==> a / m == c
  {
    var q, r := a / m, a % m;
    assert a == m * q + r && 0 <= r < m;
    MulCancel(m, 0, q);
    MulCancel(m, q, c);
    if a == m * c {
      MulCancel(m, c, q);
    }
  }

  lemma MulCancel(m: int, x: int, y: int)
    requires m > 0 && m * x < m * y + m
    ensures x <= y
  {
    assert m * x - m * y == m * (x - y);
    MulAtLeast(m, x - y);
  }

  lemma {:induction false} MulAtLeast(m: int, d: int)
    requires m > 0
    ensures d >= 1 ==> m * d >= m
    decreases if d < 1 then 0 else d
  {
    if d > 1 {
      MulAtLeast(m, d - 1);
      assert m * d == m * (d - 1) + m;
    }
  }

  /** With max 0 the volume is set to 0 and the percent divides by zero. */
  lemma ZeroMaxDividesByZero(current: int32, change: int32)
    ensures AdjustVolume(current, change, 0) == Adjusted(0, None)
  {
  }

  /** Past the bound, `newVol * 100` wraps: a full volume of 30000000 shows -43. */
  lemma PercentOverflowExample()
    ensures AdjustVolume(30000000, 0, 30000000) == Adjusted(30000000, Some(-43))
  {
    assert Wrap(30000000 * 100) == -1294967296;
    assert DivInt(-1294967296, 30000000) == -43;
  }

  /** A change that overflows `current + change` wraps negative and mutes: 10 + Int.MAX_VALUE gives 0. */
  lemma SumOverflowExample()
    ensures AdjustVolume(10, TwoTo31 - 1, 15) == Adjusted(0, Some(0))
  {
    assert Wrap(10 + TwoTo31 - 1) == -TwoTo31 + 9;
  }
}
