/**
 * The playback-state controller of components/AudioScroller.tsx: the six
 * pieces of React state the player keeps, the media and user events that
 * update them, and what the player asks of the audio element and the timer in return.
 *
 * The audio element itself is not modelled; each event carries the reading
 * of the element that its handler takes (the reported duration, the current
 * position, the ready state) and each user action says whether the element is
 * attached (`audioRef.current` is non-null).
 */
module Playback {
  import opened Wrappers
  import opened Clock

  type Positive = r: real | r > 0.0 witness 1.0

  /** A duration as the media element reports it: not yet known, zero, or a positive length. */
  datatype MediaDuration = NaN | Zero | Pos(length: Positive)

  /** `audio.duration && !isNaN(audio.duration)`: the test every duration handler applies. */
  predicate Truthy(d: MediaDuration) {
    !d.NaN? && !d.Zero?
  }

  predicate IsNaN(d: MediaDuration) {
    d.NaN?
  }

  /** The duration a handler adopts, if it adopts one: exactly the positive readings. */
  function Accepted(d: MediaDuration): (r: Option<Seconds>)
    ensures r.Some? <==> d.Pos?
    ensures r.Some? ==> r.value == d.length && r.value > 0.0
  {
    if Truthy(d) && !IsNaN(d) then Some(d.length) else None
  }

  /** The component state (components/AudioScroller.tsx:12-17). */
  datatype State = State(
    isPlaying: bool,
    isMuted: bool,
    currentTime: Seconds,
    duration: Seconds,
    isLoading: bool,
    hasError: bool)

  /** The state at mount: paused, unmuted, at 0 of an unknown (0) duration, loading. */
  const Initial: State := State(false, false, 0.0, 0.0, true, false)

  datatype Event =
    /** media element events, each with the element's reading at the time */
    | LoadedMetadata(reported: MediaDuration)
    | LoadedData(reported: MediaDuration)
    | CanPlay(reported: MediaDuration)
    | DurationChange(reported: MediaDuration)
    | Ended
    | MediaError
    | LoadStart
    | TimeUpdate(position: Seconds)
    /** the one-shot check two seconds after mount */
    | MountCheck(readyState: nat, reported: MediaDuration)
    /** the check half a second after a reload; `None` when the element is gone */
    | ReloadCheck(element: Option<MediaDuration>)
    /** user actions; `attached` is whether `audioRef.current` is set */
    | TogglePlay(attached: bool)
    | ToggleMute(attached: bool)
    | Seek(attached: bool, target: Seconds)

  /** A request the controller makes of the audio element or of the timer (`ScheduleReloadCheck`). */
  datatype Command =
    | Pause
    | Play
    | Load
    | ScheduleReloadCheck
    | SetMuted(muted: bool)
    | SetPosition(position: Seconds)

  datatype Reaction = Reaction(next: State, issued: seq<Command>)

  predicate DurationEvent(e: Event) {
    e.LoadedMetadata? || e.LoadedData? || e.CanPlay? || e.DurationChange?
  }

  /** The update all four duration handlers and both fallback checks share. */
  function AdoptDuration(s: State, d: MediaDuration): (r: State)
    ensures Accepted(d).Some? ==> r.duration == d.length && !r.isLoading
    ensures Accepted(d).Some? ==> r.(duration := s.duration, isLoading := s.isLoading) == s
    ensures Accepted(d).None? ==> r == s
  {
    match Accepted(d)
    case Some(v) => s.(duration := v, isLoading := false)
    case None => s
  }

  /** `isLoading` and `hasError` are never both set. */
  predicate Consistent(s: State) {
    !(s.isLoading && s.hasError)
  }

  /** Loading only ends with a known duration or an error. */
  predicate Settled(s: State) {
    !s.isLoading ==> s.hasError || s.duration > 0.0
  }

  predicate Good(s: State) {
    Consistent(s) && Settled(s)
  }

  /**
   * One event handled to completion: the next state and the requests made of
   * the element or the timer, in the order the handler makes them.
   */
  function Step(s: State, e: Event): (r: Reaction)
    ensures Consistent(s) ==> Consistent(r.next)
    ensures Settled(s) ==> Settled(r.next)
    ensures s.duration > 0.0 ==> r.next.duration > 0.0
    ensures r.issued != [] ==> e.TogglePlay? || e.ToggleMute? || e.Seek?
  {
    match e
    case LoadedMetadata(d) => Reaction(AdoptDuration(s, d), [])
    case LoadedData(d) => Reaction(AdoptDuration(s, d), [])
    case CanPlay(d) => Reaction(AdoptDuration(s, d), [])
    case DurationChange(d) => Reaction(AdoptDuration(s, d), [])
    case Ended => Reaction(s.(isPlaying := false), [])
    case MediaError => Reaction(s.(hasError := true, isLoading := false), [])
    case LoadStart => Reaction(s.(isLoading := true, hasError := false), [])
    case TimeUpdate(p) => Reaction(s.(currentTime := p), [])
    case MountCheck(ready, d) =>
      Reaction(if ready >= 1 then AdoptDuration(s, d) else s, [])
    case ReloadCheck(el) =>
      Reaction(if el.Some? then AdoptDuration(s, el.value) else s, [])
    case TogglePlay(attached) =>
      if !attached then Reaction(s, [])
      else
        var requests :=
          if s.isPlaying then [Pause]
          else if s.duration == 0.0 then [Load, ScheduleReloadCheck, Play]
          else [Play];
        Reaction(s.(isPlaying := !s.isPlaying), requests)
    case ToggleMute(attached) =>
      if !attached then Reaction(s, [])
      else Reaction(s.(isMuted := !s.isMuted), [SetMuted(!s.isMuted)])
    case Seek(attached, t) =>
      if !attached then Reaction(s, [])
      else Reaction(s.(currentTime := t), [SetPosition(t)])
  }

  /** The state after handling `events` in order. */
  function Run(s: State, events: seq<Event>): State
    decreases |events|
  {
    if events == [] then s else Run(Step(s, events[0]).next, events[1..])
  }

  /** Every state reached from a good state by any events is good. */
  lemma {:induction false} RunKeepsGood(s: State, events: seq<Event>)
    requires Good(s)
    ensures Good(Run(s, events))
    decreases |events|
  {
    if events != [] {
      RunKeepsGood(Step(s, events[0]).next, events[1..]);
    }
  }

  /**
   * From mount, no sequence of media events, timer callbacks and user actions
   * reaches a state that is loading and failed at once, and loading only ever
   * stops with an error or a known duration.
   */
  lemma NeverLoadingAndFailed(events: seq<Event>)
    ensures !(Run(Initial, events).isLoading && Run(Initial, events).hasError)
    ensures !Run(Initial, events).isLoading ==> Run(Initial, events).hasError || Run(Initial, events).duration > 0.0
  {
    RunKeepsGood(Initial, events);
  }

  /** Once a duration is known it is never forgotten: no event resets it to 0. */
  lemma {:induction false} DurationStaysKnown(s: State, events: seq<Event>)
    requires s.duration > 0.0
    ensures Run(s, events).duration > 0.0
    decreases |events|
  {
    if events != [] {
      DurationStaysKnown(Step(s, events[0]).next, events[1..]);
    }
  }

  /**
   * A duration event with an accepted reading sets the duration to it and
   * ends loading, touching nothing else; a rejected reading (NaN or 0)
   * changes nothing. No duration event issues a request.
   */
  lemma DurationEventEffect(s: State, e: Event)
    requires DurationEvent(e)
    ensures var r := Step(s, e);
      && r.issued == []
      && (e.reported.Pos? ==>
            r.next == s.(duration := e.reported.length, isLoading := false))
      && (e.reported.NaN? || e.reported.Zero? ==> r.next == s)
  {
  }

  /**
   * The four duration handlers, the mount check once the element has metadata
   * (`readyState >= 1`) and the reload check with the element present all
   * perform the same update, and repeating any of them changes nothing more.
   */
  lemma DurationHandlersAgree(s: State, d: MediaDuration, ready: nat)
    requires ready >= 1
    ensures Step(s, LoadedMetadata(d)) == Step(s, LoadedData(d))
    ensures Step(s, LoadedData(d)) == Step(s, CanPlay(d))
    ensures Step(s, CanPlay(d)) == Step(s, DurationChange(d))
    ensures Step(s, DurationChange(d)) == Step(s, MountCheck(ready, d))
    ensures Step(s, MountCheck(ready, d)) == Step(s, ReloadCheck(Some(d)))
    ensures Step(Step(s, CanPlay(d)).next, CanPlay(d)) == Step(s, CanPlay(d))
  {
  }

  /** Before the element has metadata (`readyState` 0) the mount check does nothing. */
  lemma MountCheckBeforeMetadata(s: State, d: MediaDuration)
    ensures Step(s, MountCheck(0, d)) == Reaction(s, [])
  {
  }

  /** Once the element is gone the reload check does nothing. */
  lemma ReloadCheckWithoutElement(s: State)
    ensures Step(s, ReloadCheck(None)) == Reaction(s, [])
  {
  }

  /**
   * `error` fails the load and ends loading whatever came before, and nothing
   * else changes; `loadstart` starts loading afresh and clears the error.
   */
  lemma ErrorAndLoadStart(s: State)
    ensures var r := Step(s, MediaError).next;
      r.hasError && !r.isLoading && r.(hasError := s.hasError, isLoading := s.isLoading) == s
    ensures var r := Step(s, LoadStart).next;
      r.isLoading && !r.hasError && r.(hasError := s.hasError, isLoading := s.isLoading) == s
  {
  }

  /**
   * `ended` stops playing and leaves the position where it was (no rewind);
   * `timeupdate` copies the element's position and changes nothing else.
   */
  lemma EndedAndTimeUpdate(s: State, p: Seconds)
    ensures var r := Step(s, Ended).next;
      !r.isPlaying && r.currentTime == s.currentTime && r.(isPlaying := s.isPlaying) == s
    ensures var r := Step(s, TimeUpdate(p)).next;
      r.currentTime == p && r.(currentTime := s.currentTime) == s
  {
  }

  /** Only `timeupdate` and a seek move the displayed position. */
  lemma PositionMovers(s: State, e: Event)
    requires Step(s, e).next.currentTime != s.currentTime
    ensures e.TimeUpdate? || (e.Seek? && e.attached)
  {
  }

  /**
   * `togglePlay` with the element attached negates `isPlaying` and changes
   * nothing else; pausing asks for a pause, starting asks for playback and,
   * when the duration is still unknown, first a reload and its follow-up
   * check. Without an element nothing happens.
   */
  lemma TogglePlayEffect(s: State, attached: bool)
    ensures var r := Step(s, TogglePlay(attached));
      if !attached then r == Reaction(s, [])
      else
        && r.next.isPlaying == !s.isPlaying
        && r.next.(isPlaying := s.isPlaying) == s
        && (s.isPlaying ==> r.issued == [Pause])
        && (!s.isPlaying ==>
              r.issued == (if s.duration == 0.0 then [Load, ScheduleReloadCheck] else []) + [Play])
  {
  }

  /** `n` presses of the play button with the element attached. */
  function Presses(n: nat): (r: seq<Event>)
    ensures |r| == n && forall i :: 0 <= i < n ==> r[i] == TogglePlay(true)
  {
    seq(n, _ => TogglePlay(true))
  }

  /**
   * After `n` presses the player is playing exactly when it was playing before
   * and `n` is even, or it was paused and `n` is odd; all other state is as
   * it was. In particular two presses restore it.
   */
  lemma {:induction false} PressesParity(s: State, n: nat)
    ensures Run(s, Presses(n)).isPlaying == (s.isPlaying != (n % 2 == 1))
    ensures Run(s, Presses(n)).(isPlaying := s.isPlaying) == s
    decreases n
  {
    if n > 0 {
      var s' := Step(s, TogglePlay(true)).next;
      assert Presses(n) == [TogglePlay(true)] + Presses(n - 1);
      PressesParity(s', n - 1);
    }
  }

  /**
   * `toggleMute` negates `isMuted` and sets the element's muted flag to the new
   * value; a seek to `t` shows `t` at once and asks the element to go there.
   * Neither touches anything else, and neither does anything without an element.
   */
  lemma MuteAndSeekEffect(s: State, attached: bool, t: Seconds)
    ensures var r := Step(s, ToggleMute(attached));
      if !attached then r == Reaction(s, [])
      else r.next.isMuted == !s.isMuted && r.next.(isMuted := s.isMuted) == s
           && r.issued == [SetMuted(r.next.isMuted)]
    ensures var r := Step(s, Seek(attached, t));
      if !attached then r == Reaction(s, [])
      else r.next.currentTime == t && r.next.(currentTime := s.currentTime) == s
           && r.issued == [SetPosition(t)]
  {
  }

  /**
   * A failed load stays failed until the element reports a fresh load start:
   * nothing else, including pressing play, clears the error.
   */
  lemma {:induction false} ErrorPersists(s: State, events: seq<Event>)
    requires s.hasError
    requires forall i :: 0 <= i < |events| ==> !events[i].LoadStart?
    ensures Run(s, events).hasError
    decreases |events|
  {
    if events != [] {
      ErrorPersists(Step(s, events[0]).next, events[1..]);
    }
  }

  /**
   * Walk-throughs of the controller: pressing play right after mount reloads
   * and plays; a can-play reading of 125.4 s ends loading with that duration;
   * a seek to 60 s shows 60 s at once; an error before any duration leaves
   * the duration unknown.
   */
  lemma Scenarios()
    ensures Step(Initial, TogglePlay(true)) ==
              Reaction(Initial.(isPlaying := true), [Load, ScheduleReloadCheck, Play])
    ensures var r := Run(Initial, [CanPlay(Pos(125.4))]);
              !r.isLoading && r.duration == 125.4
    ensures Run(Initial, [Seek(true, 60.0)]).currentTime == 60.0
    ensures var r := Run(Initial, [MediaError]);
              r.hasError && !r.isLoading && r.duration == 0.0
  {
  }
}
