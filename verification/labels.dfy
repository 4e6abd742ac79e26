/**
 * What the player shows for a state: the status line under the controls, the
 * duration half of the time readout, and the filled share of the seek bar
 * (components/AudioScroller.tsx:175-186).
 */
module Labels {
  import opened Wrappers
  import opened Clock
  import opened Playback

  /** The five status lines, from the most to the least urgent. */
  datatype Banner = Failed | Loading | Unavailable | Playing | Prompt

  /** Position in the priority order; 0 wins. */
  function Rank(b: Banner): nat {
    match b
    case Failed => 0
    case Loading => 1
    case Unavailable => 2
    case Playing => 3
    case Prompt => 4
  }

  /** The condition under which a status line is eligible to be shown. */
  predicate Applies(b: Banner, s: State) {
    match b
    case Failed => s.hasError
    case Loading => s.isLoading
    case Unavailable => s.duration == 0.0
    case Playing => s.isPlaying
    case Prompt => true
  }

  /**
   * The status line chosen for `s`: an eligible one, and no more urgent line
   * is eligible.
   */
  function StatusBanner(s: State): (b: Banner)
    ensures Applies(b, s)
    ensures forall c :: Rank(c) < Rank(b) ==> !Applies(c, s)
  {
    if s.hasError then Failed
    else if s.isLoading then Loading
    else if s.duration == 0.0 then Unavailable
    else if s.isPlaying then Playing
    else Prompt
  }

  const DefaultPrompt: string := "Cliquez pour écouter"

  /** `description || "Cliquez pour écouter"`: an absent or empty description falls back. */
  function PromptText(description: Option<string>): (r: string)
    ensures r != []
    ensures description.Some? && description.value != [] ==> r == description.value
    ensures description.None? || description.value == [] ==> r == DefaultPrompt
  {
    if description.Some? && description.value != [] then description.value else DefaultPrompt
  }

  const FailedText: string := "Erreur de chargement de l'audio"
  const LoadingText: string := "Chargement de l'audio..."
  const UnavailableText: string := "Audio non disponible"
  const PlayingText: string := "Lecture en cours"

  /** The text of the status line: the fixed text of the chosen banner, or the prompt. */
  function StatusLabel(s: State, description: Option<string>): (r: string)
    ensures StatusBanner(s) == Failed ==> r == FailedText
    ensures StatusBanner(s) == Loading ==> r == LoadingText
    ensures StatusBanner(s) == Unavailable ==> r == UnavailableText
    ensures StatusBanner(s) == Playing ==> r == PlayingText
    ensures StatusBanner(s) == Prompt ==> r == PromptText(description)
  {
    match StatusBanner(s)
    case Failed => FailedText
    case Loading => LoadingText
    case Unavailable => UnavailableText
    case Playing => PlayingText
    case Prompt => PromptText(description)
  }

  /**
   * The status line ignores the mute flag and the position, and a failure
   * is reported whatever else holds.
   */
  lemma StatusLabelInputs(s: State, description: Option<string>, muted: bool, position: Seconds)
    ensures StatusLabel(s.(isMuted := muted, currentTime := position), description) == StatusLabel(s, description)
    ensures s.hasError ==> StatusLabel(s, description) == FailedText
  {
  }

  /**
   * From mount, the "Audio non disponible" banner is never chosen: loading only
   * ends with a known duration or an error, and both take precedence over it.
   * That text can appear only as a description that happens to read so.
   */
  lemma UnavailableNeverShown(events: seq<Event>, description: Option<string>)
    ensures StatusBanner(Run(Initial, events)) != Unavailable
    ensures StatusLabel(Run(Initial, events), description) == UnavailableText ==>
              PromptText(description) == UnavailableText
  {
    NeverLoadingAndFailed(events);
  }

  /**
   * The duration half of the readout: the formatted duration once one is
   * known, "..." while still loading, "--:--" otherwise. The three cases are
   * told apart by the text alone.
   */
  function DurationLabel(s: State): (r: string)
    ensures s.duration > 0.0 ==> CanonicalClock(r) && ParseClock(r) == Some(s.duration.Floor)
    ensures r == "..." <==> s.duration == 0.0 && s.isLoading
    ensures r == "--:--" <==> s.duration == 0.0 && !s.isLoading
  {
    if s.duration > 0.0 then
      var r := FormatTime(s.duration);
      ClockStartsWithDigit(r);
      assert r[0] != "..."[0] && r[0] != "--:--"[0];
      r
    else if s.isLoading then "..."
    else "--:--"
  }

  /** From mount, "--:--" is shown only after a load error. */
  lemma UnknownDurationMeansError(events: seq<Event>)
    ensures DurationLabel(Run(Initial, events)) == "--:--" ==> Run(Initial, events).hasError
  {
    NeverLoadingAndFailed(events);
  }

  /**
   * The filled share of the seek bar, in percent: 0 while the duration is
   * unknown, otherwise the position as a share of the duration. It stays in
   * 0..100 while the position is within the duration.
   */
  function Progress(s: State): (r: real)
    ensures s.duration == 0.0 ==> r == 0.0
    ensures s.duration > 0.0 ==> r * s.duration == 100.0 * s.currentTime
    ensures r >= 0.0
    ensures s.currentTime <= s.duration ==> r <= 100.0
  {
    if s.duration > 0.0 then (s.currentTime / s.duration) * 100.0 else 0.0
  }
}
