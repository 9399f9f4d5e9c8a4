/**
 * The facial module's alert rate limiter. Each alert type remembers when it last went out;
 * an alert of that type goes out again only once more than the cooldown has passed. The
 * clock is a parameter (whole seconds), and a printed alert is returned instead of printed.
 */
module AlertSystem {
  import opened Wrappers
  import opened Decimal

  const DefaultCooldown: int := 10

  /**
   * The decision `_can_alert` makes and the table it leaves: the first alert of a type, or
   * one more than `cooldown` after the last, is allowed and stamped with `now`.
   */
  function Decide(last: map<string, int>, kind: string, now: int, cooldown: int): (r: (bool, map<string, int>))
    ensures r.0 <==> kind !in last || now - last[kind] > cooldown
    ensures r.0 ==> kind in r.1 && r.1[kind] == now
    ensures !r.0 ==> r.1 == last
    ensures forall u :: u != kind ==> (u in r.1 <==> u in last) && (u in last ==> r.1[u] == last[u])
  {
    if kind !in last || now - last[kind] > cooldown then (true, last[kind := now]) else (false, last)
  }

  /** The table after a run of `(type, time)` alert requests. */
  function Replay(last: map<string, int>, events: seq<(string, int)>, cooldown: int): map<string, int> {
    if events == [] then last
    else
      var e := events[|events| - 1];
      Decide(Replay(last, events[..|events| - 1], cooldown), e.0, e.1, cooldown).1
  }

  /** The times at which requests of type `kind` were allowed during the run. */
  function AllowedTimes(last: map<string, int>, events: seq<(string, int)>, cooldown: int, kind: string): seq<int> {
    if events == [] then []
    else
      var init := events[..|events| - 1];
      var e := events[|events| - 1];
      var before := AllowedTimes(last, init, cooldown, kind);
      if e.0 == kind && Decide(Replay(last, init, cooldown), e.0, e.1, cooldown).0 then before + [e.1] else before
  }

  /**
   * Starting from an empty table, any two successive alerts of one type that went out are
   * more than `cooldown` apart, and the table holds the time of the latest one.
   */
  lemma {:induction false} AlertsSpacedOut(events: seq<(string, int)>, cooldown: int, kind: string)
    ensures var times := AllowedTimes(map[], events, cooldown, kind);
            (forall i :: 0 < i < |times| ==> times[i] - times[i - 1] > cooldown) &&
            (times == [] <==> kind !in Replay(map[], events, cooldown)) &&
            (times != [] ==> Replay(map[], events, cooldown)[kind] == times[|times| - 1])
  {
    if events != [] {
      AlertsSpacedOut(events[..|events| - 1], cooldown, kind);
    }
  }

  /** Requests of other types never change what happens to type `kind`. */
  lemma {:induction false} TypesIndependent(events: seq<(string, int)>, cooldown: int, kind: string)
    ensures AllowedTimes(map[], events, cooldown, kind) == AllowedTimes(map[], OfKind(events, kind), cooldown, kind)
    ensures (kind in Replay(map[], events, cooldown)) == (kind in Replay(map[], OfKind(events, kind), cooldown))
    ensures kind in Replay(map[], events, cooldown) ==>
              Replay(map[], events, cooldown)[kind] == Replay(map[], OfKind(events, kind), cooldown)[kind]
  {
    if events != [] {
      var init := events[..|events| - 1];
      var e := events[|events| - 1];
      TypesIndependent(init, cooldown, kind);
      if e.0 == kind {
        assert OfKind(events, kind) == OfKind(init, kind) + [e];
        assert (OfKind(init, kind) + [e])[..|OfKind(init, kind)|] == OfKind(init, kind);
      } else {
        assert OfKind(events, kind) == OfKind(init, kind);
      }
    }
  }

  /** The requests of one type, in order. */
  function OfKind(events: seq<(string, int)>, kind: string): (r: seq<(string, int)>)
    ensures forall i :: 0 <= i < |r| ==> r[i].0 == kind
  {
    if events == [] then []
    else if events[|events| - 1].0 == kind then OfKind(events[..|events| - 1], kind) + [events[|events| - 1]]
    else OfKind(events[..|events| - 1], kind)
  }

  /** What a public alert method prints when its alert goes out. */
  datatype Notice = NoFace | MultipleFaces(count: int) | LowBrightness(brightness: real) | PoorAttention(score: real)

  /** The printed line, for the alerts whose line has no decimal formatting. */
  function NoticeText(n: Notice): (r: Option<string>)
    ensures r.Some? <==> n.NoFace? || n.MultipleFaces?
  {
    match n
    case NoFace => Some("ALERT: No face detected in frame. Please position yourself correctly.")
    case MultipleFaces(c) =>
      Some("ALERT: " + IntToString(c) + " faces detected. Please ensure you're alone during the interview.")
    case _ => None
  }

  class AlertSystem {
    /** `last_alert_time`: when each alert type last went out. */
    var lastAlertTime: map<string, int>

    constructor ()
      ensures lastAlertTime == map[]
    {
      lastAlertTime := map[];
    }

    /** `_can_alert`. */
    method CanAlert(kind: string, now: int, cooldown: int) returns (allowed: bool)
      modifies this
      ensures (allowed, lastAlertTime) == Decide(old(lastAlertTime), kind, now, cooldown)
      ensures !allowed ==> lastAlertTime == old(lastAlertTime)
    {
      if kind !in lastAlertTime {
        lastAlertTime := lastAlertTime[kind := now];
        return true;
      }
      if now - lastAlertTime[kind] > cooldown {
        lastAlertTime := lastAlertTime[kind := now];
        return true;
      }
      return false;
    }

    /** Sends `notice` under type `kind` with the default cooldown. */
    method Raise(kind: string, notice: Notice, now: int) returns (printed: Option<Notice>)
      modifies this
      ensures var d := Decide(old(lastAlertTime), kind, now, DefaultCooldown);
              lastAlertTime == d.1 && (printed.Some? <==> d.0) && (printed.Some? ==> printed.value == notice)
    {
      var ok := CanAlert(kind, now, DefaultCooldown);
      printed := if ok then Some(notice) else None;
    }

    method NoFaceAlert(now: int) returns (printed: Option<Notice>)
      modifies this
      ensures var d := Decide(old(lastAlertTime), "no_face", now, DefaultCooldown);
              lastAlertTime == d.1 && (printed.Some? <==> d.0) && (printed.Some? ==> printed.value == NoFace)
    {
      printed := Raise("no_face", NoFace, now);
    }

    method MultipleFacesAlert(count: int, now: int) returns (printed: Option<Notice>)
      modifies this
      ensures var d := Decide(old(lastAlertTime), "multiple_faces", now, DefaultCooldown);
              lastAlertTime == d.1 && (printed.Some? <==> d.0) && (printed.Some? ==> printed.value == MultipleFaces(count))
    {
      printed := Raise("multiple_faces", MultipleFaces(count), now);
    }

    method LowBrightnessAlert(brightness: real, now: int) returns (printed: Option<Notice>)
      modifies this
      ensures var d := Decide(old(lastAlertTime), "low_brightness", now, DefaultCooldown);
              lastAlertTime == d.1 && (printed.Some? <==> d.0) && (printed.Some? ==> printed.value == LowBrightness(brightness))
    {
      printed := Raise("low_brightness", LowBrightness(brightness), now);
    }

    method PoorAttentionAlert(score: real, now: int) returns (printed: Option<Notice>)
      modifies this
      ensures var d := Decide(old(lastAlertTime), "poor_attention", now, DefaultCooldown);
              lastAlertTime == d.1 && (printed.Some? <==> d.0) && (printed.Some? ==> printed.value == PoorAttention(score))
    {
      printed := Raise("poor_attention", PoorAttention(score), now);
    }
  }
}
