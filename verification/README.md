# Audio narration controller — a Dafny model

The birthday page of this repository is declarative animation markup except for
one component, `AudioScroller`, which plays the recorded poem. The component
keeps six pieces of state about its audio element: playing, muted, position,
duration, loading and failed. It updates them from the element's events
(`loadedmetadata`, `loadeddata`, `canplay`, `durationchange`, `ended`, `error`,
`loadstart`, `timeupdate`), from two one-shot timer checks of the duration, and
from three user actions (play/pause, mute, seek). From that state it renders a
`m:ss` time readout, a status line and a seek-bar fill.

The model is written as pure functions over an immutable state:

- `Wrappers` — an `Option` type.
- `Decimal` — decimal rendering of natural numbers (`Show`) and its inverse (`Value`).
- `Clock` — the `Seconds` type (non-negative reals), `padStart`, `formatTime`
  (`FormatTime`) and `ParseClock`, which reads a clock text back into whole seconds.
- `Playback` — the `State` record, the `Event` and `Command` datatypes, and
  `Step(state, event)`. `Step` returns the next state together with the requests
  the handler makes of the element or the timer (pause, play, reload, set muted,
  set position, and scheduling the reload check). `Run` folds `Step` over a sequence of events.
- `Labels` — the status line (`StatusBanner`, `StatusLabel`), the duration label
  and the seek-bar percentage.

The audio element is not modelled as an object. Each event carries the reading
its handler takes from the element: the reported duration, the position, or
the ready state. Each user action carries whether `audioRef.current` is set.
A reported duration is `NaN`, `Zero` or `Pos(length)` with a positive length.
The source's test `audio.duration && !isNaN(audio.duration)` accepts exactly
the `Pos` readings.

Main results:

- From the initial state, no sequence of events reaches a state that is both
  loading and failed.
- Loading only ever stops with a known duration or an error. A consequence is
  that the "Audio non disponible" status line is unreachable from mount, and the
  "--:--" duration label only ever appears after an error.
- `FormatTime` produces canonical minutes, a colon and two digits below 60, and
  reads back as the floor of its input. Conversely, every such text is what
  `FormatTime` prints for the seconds it denotes.
- After `n` play/pause presses, `isPlaying` has flipped `n mod 2` times, and
  nothing else in the state has changed.

## Model

| member | source | states |
|---|---|---|
| `Decimal.Show` | components/AudioScroller.tsx:128 | `toString` of a whole number is a canonical digit string (no leading zero) that denotes that number, one character long exactly below 10 |
| `Decimal.ShowValue` | components/AudioScroller.tsx:128 | every canonical digit string is the `toString` of the number it denotes (inverse of `Show`) |
| `Clock.PadStart` | components/AudioScroller.tsx:128 | `padStart(width, fill)` keeps the string as its suffix, reaches length `width` when shorter, and fills only with `fill` |
| `Clock.Minutes` | components/AudioScroller.tsx:126 | `Math.floor(t / 60)` is the number of whole minutes in the whole seconds of `t` |
| `Clock.SecondsPart` | components/AudioScroller.tsx:127 | `Math.floor(t % 60)` is below 60 and, with the minutes, makes up the whole seconds of `t` |
| `Clock.MinutesSeconds` | components/AudioScroller.tsx:128 | the template text for whole minutes and seconds below 60 is canonical and reads back as `60 * minutes + seconds`, field by field |
| `Clock.FormatTime` | components/AudioScroller.tsx:125-129 | `formatTime(t)` is canonical minutes, ':' and two digits below 60; its minute field is `floor(t/60)`, and it reads back as `floor(t)` |
| `Clock.FormatParsed` | components/AudioScroller.tsx:125-129 | every canonical `m:ss` text is exactly what `formatTime` prints for the seconds it denotes |
| `Clock.FormatTimeFloor` | components/AudioScroller.tsx:126-127 | `formatTime` depends only on the whole seconds of its argument |
| `Clock.FormatExample` | components/AudioScroller.tsx:125-129 | any time from 125 up to 126 seconds, such as 125.4, is displayed as "2:05" |
| `Playback.Accepted` | components/AudioScroller.tsx:26 | the duration test accepts a reported duration exactly when it is a positive length, and yields that length |
| `Playback.AdoptDuration` | components/AudioScroller.tsx:25-30 | an accepted duration sets `duration` and clears `isLoading`, changing nothing else; a rejected one leaves the state as it was |
| `Playback.Step` | components/AudioScroller.tsx:24-137 | every handler keeps `isLoading` and `hasError` exclusive, keeps "not loading implies failed or duration known", never forgets a known duration, and only user actions make requests of the element or the timer |
| `Playback.RunKeepsGood` | components/AudioScroller.tsx:24-116 | the two state invariants hold after any sequence of events from a state that satisfies them |
| `Playback.NeverLoadingAndFailed` | components/AudioScroller.tsx:12-70 | from the initial state, no event sequence reaches `isLoading && hasError`, and loading only stops with an error or a known duration |
| `Playback.DurationStaysKnown` | components/AudioScroller.tsx:25-70 | once the duration is positive, no event sequence makes it 0 again |
| `Playback.DurationEventEffect` | components/AudioScroller.tsx:35-52 | a duration event with a positive reading sets the duration to it and ends loading, touching nothing else; a NaN or 0 reading changes nothing; none makes requests |
| `Playback.DurationHandlersAgree` | components/AudioScroller.tsx:25-72 | the four duration handlers, the mount check with `readyState >= 1` and the reload check with an element all perform the same update, and it is idempotent |
| `Playback.MountCheckBeforeMetadata` | components/AudioScroller.tsx:63-70 | the mount check does nothing while `readyState` is 0 |
| `Playback.ReloadCheckWithoutElement` | components/AudioScroller.tsx:105-110 | the reload check does nothing when `audioRef.current` is no longer set |
| `Playback.ErrorAndLoadStart` | components/AudioScroller.tsx:53-60 | `error` sets `hasError` and clears `isLoading` whatever came before, changing nothing else; `loadstart` does the reverse |
| `Playback.ErrorPersists` | components/AudioScroller.tsx:53-60 | a failed load stays failed through any events that contain no `loadstart` |
| `Playback.EndedAndTimeUpdate` | components/AudioScroller.tsx:24-34 | `ended` clears `isPlaying` and keeps the position (no rewind); `timeupdate` copies the element's position and changes nothing else |
| `Playback.PositionMovers` | components/AudioScroller.tsx:131-137 | only `timeupdate` and a seek with an element change the position |
| `Playback.TogglePlayEffect` | components/AudioScroller.tsx:98-116 | with an element, `togglePlay` negates `isPlaying` only; it issues exactly a pause when playing; when paused it issues exactly a play, preceded by a reload and the scheduling of the reload check exactly when the duration is 0; without an element nothing happens |
| `Playback.PressesParity` | components/AudioScroller.tsx:98-116 | after `n` presses `isPlaying` equals its old value exactly when `n` is even, and no other field changes |
| `Playback.MuteAndSeekEffect` | components/AudioScroller.tsx:118-137 | `toggleMute` negates `isMuted` and sets the element's muted flag to the new value; a seek to `t` shows `t` at once and moves the element there; neither touches anything else or acts without an element |
| `Playback.Scenarios` | components/AudioScroller.tsx:12-137 | play right after mount reloads and plays; a can-play reading of 125.4 ends loading with that duration; a seek to 60 shows 60; an error before any duration leaves it unknown |
| `Labels.StatusBanner` | components/AudioScroller.tsx:179-182 | the chosen status line is eligible, and no more urgent one is eligible; the priority is error, loading, duration 0, playing, prompt |
| `Labels.PromptText` | components/AudioScroller.tsx:182 | an absent or empty description falls back to "Cliquez pour écouter"; any other description is shown as given |
| `Labels.StatusLabel` | components/AudioScroller.tsx:179-182 | the status text is the fixed French text of the chosen banner ("Erreur de chargement de l'audio", "Chargement de l'audio...", "Audio non disponible", "Lecture en cours"), or the prompt text when no banner above the prompt applies |
| `Labels.StatusLabelInputs` | components/AudioScroller.tsx:179-182 | the status line ignores the mute flag and the position, and shows the error text whenever the load failed |
| `Labels.UnavailableNeverShown` | components/AudioScroller.tsx:181 | from mount, the "Audio non disponible" banner is never chosen, so that text is shown only if the description itself reads so |
| `Labels.DurationLabel` | components/AudioScroller.tsx:175 | a known duration is shown as a canonical clock text that reads back as its whole seconds (so, by `Clock.FormatParsed`, exactly `formatTime(duration)`); "..." exactly while loading with no duration; "--:--" exactly when not loading with no duration |
| `Labels.UnknownDurationMeansError` | components/AudioScroller.tsx:175 | from mount, "--:--" is shown only after a load error |
| `Labels.Progress` | components/AudioScroller.tsx:186 | the seek-bar fill is 0 with no duration and otherwise the position as a percentage of the duration, non-negative and at most 100 while the position is within the duration |

## Left out

- Listener registration and removal, the initial `audio.load()`, and the scheduling and cancelling of the timers (components/AudioScroller.tsx:71-95). This is DOM and timer plumbing. The two timer callbacks are modelled as the events `MountCheck` and `ReloadCheck`, which may arrive at any point in an event sequence.
- The element's own behaviour, such as whether `load()` is followed by `loadstart` or whether `play()` succeeds. These are outside the controller. Events are arbitrary sequences, and `isPlaying` is set optimistically, as in the source.
- React's asynchronous state batching. Each event or action is modelled as seeing the state left by the previous one.
- An infinite reported duration (live streams). A `+Infinity` duration passes the source's test, but the recorded narration never reports one.
- `parseFloat` of the slider value, including a NaN result. A seek target is a non-negative real, as the range input's bounds give.
- Floating-point rounding. All times are exact reals, so `FormatTime` and `Progress` are stated over reals rather than IEEE doubles.
- `Clock.FormatTime`: defined over non-negative times only. Every time the component formats (its position and its duration) is a reading from the media element or a slider value (the range input has `min={0}`), neither of which is negative. JavaScript's exponent notation for minute counts of 10^21 or more is not modelled.
- The component's markup: title, icons, the mute button's aria-label, the readout's " / " separator, and the CSS.
- app/page.tsx and app/layout.tsx: static page content and animation settings, with no computation.
