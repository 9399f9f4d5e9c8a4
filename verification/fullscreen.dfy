/**
 * The fullscreen hook: it follows the document's fullscreen state through change events and
 * counts every change that leaves fullscreen, whoever caused it. A change event carries
 * whether a fullscreen element exists afterwards. The handler is re-registered after every
 * render, so it always sees the latest `isFullscreen`.
 */
module Fullscreen {

  /** The exits a run of change events counts, starting from fullscreen state `was`. */
  function Exits(was: bool, events: seq<bool>): nat
    decreases |events|
  {
    if events == [] then 0
    else (if was && !events[0] then 1 else 0) + Exits(events[0], events[1..])
  }

  function Entries(events: seq<bool>): nat {
    if events == [] then 0 else (if events[0] then 1 else 0) + Entries(events[1..])
  }

  /** Every counted exit leaves a fullscreen state an earlier event (or the start) entered. */
  lemma {:induction false} ExitsNeedEntries(was: bool, events: seq<bool>)
    ensures Exits(was, events) <= Entries(events) + (if was then 1 else 0)
    decreases |events|
  {
    if events != [] {
      ExitsNeedEntries(events[0], events[1..]);
    }
  }

  /** What `toggleFullscreen` asks the browser for. */
  datatype Request = Enter | Exit | NoRequest

  class FullscreenHook {
    var isFullscreen: bool
    var fullscreenExitCount: nat
    /** Whether the document offers the fullscreen API. */
    const isSupported: bool

    constructor (isSupported: bool)
      ensures this.isSupported == isSupported && !isFullscreen && fullscreenExitCount == 0
    {
      this.isSupported := isSupported;
      isFullscreen := false;
      fullscreenExitCount := 0;
    }

    /** `handleFullscreenChange`; without support no handler is attached and nothing happens. */
    method OnFullscreenChange(elementPresent: bool)
      modifies this
      ensures isSupported ==> isFullscreen == elementPresent
      ensures isSupported ==>
                (fullscreenExitCount == old(fullscreenExitCount) + (if old(isFullscreen) && !elementPresent then 1 else 0))
      ensures !isSupported ==> isFullscreen == old(isFullscreen) && fullscreenExitCount == old(fullscreenExitCount)
    {
      if !isSupported {
        return;
      }
      if isFullscreen && !elementPresent {
        fullscreenExitCount := fullscreenExitCount + 1;
      }
      isFullscreen := elementPresent;
    }

    /** A run of change events adds exactly the exits it contains to the count. */
    method OnFullscreenChanges(events: seq<bool>)
      requires isSupported
      modifies this
      ensures fullscreenExitCount == old(fullscreenExitCount) + Exits(old(isFullscreen), events)
      ensures events != [] ==> isFullscreen == events[|events| - 1]
      ensures events == [] ==> isFullscreen == old(isFullscreen)
    {
      var i := 0;
      while i < |events|
        invariant 0 <= i <= |events|
        invariant fullscreenExitCount + Exits(isFullscreen, events[i..]) ==
                  old(fullscreenExitCount) + Exits(old(isFullscreen), events)
        invariant i > 0 ==> isFullscreen == events[i - 1]
        invariant i == 0 ==> isFullscreen == old(isFullscreen)
      {
        assert events[i..][1..] == events[i + 1..];
        OnFullscreenChange(events[i]);
        i := i + 1;
      }
    }

    /** `toggleFullscreen`: leaves when in fullscreen, enters otherwise; nothing without support. */
    method ToggleFullscreen() returns (request: Request)
      ensures !isSupported ==> request == NoRequest
      ensures isSupported ==> request == if isFullscreen then Exit else Enter
    {
      if isFullscreen {
        request := if isSupported then Exit else NoRequest;
      } else {
        request := if isSupported then Enter else NoRequest;
      }
    }
  }

  /** Leaving fullscreen through the hook's own toggle is counted like a user's exit. */
  method ToggleExitIsCounted(hook: FullscreenHook)
    requires hook.isSupported && hook.isFullscreen
    modifies hook
    ensures hook.fullscreenExitCount == old(hook.fullscreenExitCount) + 1
  {
    var request := hook.ToggleFullscreen();
    assert request == Exit;
    hook.OnFullscreenChange(false);
  }
}
