# Presence badge of the Bio profile page

The profile page (`app/page.tsx`, component `Home`) shows a Discord presence
badge and three animated skill bars. This project models the logic behind them:

- the two display mappings from a status string to a label and a colour;
- what one parsed response of the presence service does to the status and the
  "playing" activity;
- the intro timer that moves the skill bars from `[0,0,0]` to `[80,15,5]`;
- the mount and teardown of the effect that owns the timeout and the 60 s interval.

Modules:

- `Wrappers`: `Option`, which stands for JavaScript's `null`/`undefined`.
- `StatusDisplay`: `StatusText` and `StatusColor`. Both are total over strings and
  match only `"online"`, `"idle"` and `"dnd"`.
- `Presence`: the response types, `FindGame` (the `activities?.find(a => a.type === 0)`
  selection), `ActivityOf` and `ApplyResponse`. It also holds the lemmas about them:
  the first game wins, an absent or game-less list clears the activity, a
  response is idempotent, and when the activity badge shows.
- `Lifecycle`: the page state as a value (`HomeState`), the events that reach
  it (`PollResolved`, `PollThrew`, `IntroTimerFires`, `Unmount`), `Step`, and
  `Run` over a sequence of events. Its lemmas cover the whole run: status and
  activity follow the last successful poll; the bars are `[0,0,0]` until the
  timer fires and `[80,15,5]` from then on; teardown is final.
- `HomePage`: class `Home`. Its fields are the three state cells and the two
  scheduler handles. `ApplyPollResult`, `FireIntroTimer` and `Teardown` change
  them in place, and each is specified by `Lifecycle.Step` on its event.
  `ApplyPollFailure` changes nothing; its contract is `Step` on `PollThrew`.
  `IntervalFires` changes nothing either: it only reports whether the interval
  still starts a fetch, so `Lifecycle` has no event for it.

Timer and interval firings are explicit method calls or events; no wall-clock
time is modelled. A poll is split into its start (`Home.IntervalFires`, which
says whether the interval still starts a fetch) and its outcome
(`ApplyPollResult` or `ApplyPollFailure`). Each outcome is applied atomically.

Points of the code worth knowing:

- The code matches the short key `"dnd"`, so `"doNotDisturb"` falls to the
  default (`StatusDisplay.UnmatchedSpellings`).
- The labels are the Russian strings the code returns.
- The cleanup only clears the timeout and the interval (app/page.tsx:56-59),
  and no liveness flag guards the setters, so a fetch in flight at teardown
  still calls them: its setters still run (`Lifecycle.UnmountDoesNotGuardResults`).
  What React then does with a state update to an unmounted component is
  outside the model.

## Model

| member | source | states |
|---|---|---|
| StatusDisplay.StatusText | app/page.tsx:62-73 | "Онлайн", "Неактивен" and "Не беспокоить" come exactly from "online", "idle" and "dnd"; "Оффлайн" comes exactly from every other string |
| StatusDisplay.StatusColor | app/page.tsx:75-86 | green, amber and red come exactly from "online", "idle" and "dnd"; "bg-gray-500" comes exactly from every other string |
| StatusDisplay.MappingsAgree | app/page.tsx:62-86 | a status gets "bg-gray-500" exactly when it gets the label "Оффлайн" |
| StatusDisplay.ColorDeterminesText | app/page.tsx:62-86 | two statuses get the same colour exactly when they get the same label |
| StatusDisplay.UnmatchedSpellings | app/page.tsx:62-86 | "doNotDisturb" and the initial "offline" both get "Оффлайн" and grey |
| Presence.FindGame | app/page.tsx:41 | gives nothing exactly when no entry has type 0; otherwise gives the entry at the first index with type 0 |
| Presence.FindGameIsFirst | app/page.tsx:41 | if index i is the first with type 0, `find` returns that entry |
| Presence.FindGameSkipsNonGames | app/page.tsx:41 | non-game entries before the rest of the list do not change the result |
| Presence.FindGameIgnoresLater | app/page.tsx:41 | once a game is found, entries appended after it do not change the result |
| Presence.ActivityOf | app/page.tsx:41-46 | an absent list gives null; a present list gives null exactly when it has no type-0 entry; otherwise the name of the first type-0 entry |
| Presence.ApplyResponse | app/page.tsx:37-47 | success false, or a missing data object, leaves the presence as it was; success sets the status verbatim and the activity to `ActivityOf` the list |
| Presence.SuccessForgetsPrior | app/page.tsx:37-46 | the result of a successful response does not depend on the prior status or activity |
| Presence.ApplyResponseIdempotent | app/page.tsx:37-47 | applying the same response twice equals applying it once |
| Presence.FirstGameNameWins | app/page.tsx:41-43 | with non-game entries before a game entry and anything after it, the activity is that game's name |
| Presence.NoGameClearsActivity | app/page.tsx:41-46 | a successful response with no list, or no type-0 entry, sets the activity to null whatever it was |
| Presence.ShowsActivityBadge | app/page.tsx:125 | the badge shows exactly when the activity is neither null nor the empty string, the two falsy values it can hold |
| Presence.BadgeAfterSuccess | app/page.tsx:125-130 | after a successful response the "playing" badge shows exactly when a first game entry exists with a non-empty name |
| Lifecycle.Initial | app/page.tsx:19-21 | the initial state is status "offline", no activity and bars [0,0,0], with the timeout and the interval both set |
| Lifecycle.Step | app/page.tsx:27-59 | only a resolved poll changes the presence, by `ApplyResponse`; only the pending timer changes the bars, to [80,15,5]; the timeout ends when it fires or at unmount, the interval ends at unmount, and nothing re-arms either |
| Lifecycle.PresenceTracksLastUpdate | app/page.tsx:33-54 | after any run of events, status and activity are those of the last successful response, or the earlier values if none succeeded |
| Lifecycle.ProgressFromMount | app/page.tsx:21-29 | from mount, the bars are [80,15,5] exactly when the timer fired before any unmount, and [0,0,0] otherwise; each handle is live until the event that clears it |
| Lifecycle.ProgressSettles | app/page.tsx:27-29 | over any run the bars keep their value or become [80,15,5], and once [80,15,5] they stay |
| Lifecycle.UnmountIdempotent | app/page.tsx:56-59 | running the cleanup twice equals running it once |
| Lifecycle.UnmountIsFinal | app/page.tsx:56-59 | after unmount neither handle is set again and the bars never change, whatever follows |
| Lifecycle.UnmountDoesNotGuardResults | app/page.tsx:37-59 | a successful response arriving after unmount still sets status and activity: no liveness check guards the setters |
| HomePage.Home.constructor | app/page.tsx:19-29 | mount yields `Initial()` |
| HomePage.Home.ApplyPollResult | app/page.tsx:37-47 | the new state is `Step` on `PollResolved`: status and activity as `ApplyResponse`, bars and handles unchanged |
| HomePage.Home.ApplyPollFailure | app/page.tsx:48-50 | a thrown fetch or parse error leaves the whole state unchanged |
| HomePage.Home.FireIntroTimer | app/page.tsx:27-29 | a pending timer sets the bars to [80,15,5] and is gone; presence and interval unchanged |
| HomePage.Home.IntervalFires | app/page.tsx:53-54 | an interval tick starts a fetch exactly while the interval is set |
| HomePage.Home.Teardown | app/page.tsx:56-59 | both handles are cleared; status, activity and bars are unchanged |

## Left out

- `fetch`, `response.json()` and the presence service URL with its fixed user id (app/page.tsx:24, 34-35): network I/O. A parsed body is an input value, and a rejection is the `PollThrew` event / `ApplyPollFailure`.
- The immediate first call of `fetchDiscordStatus` at mount (app/page.tsx:53): it only starts a fetch, and its outcome arrives like any other poll outcome.
- The 500 ms and 60 s delays: each firing is a discrete event, not a clock reading.
- Overlapping in-flight fetches and the order their results arrive in: asynchronous concurrency. Each poll outcome is applied atomically, in whatever order the caller supplies. No count of fetches in flight is kept, so a poll outcome may be applied at any point, also one that no started fetch could produce.
- `console.error` in the catch: logging only.
- A response whose fields have other JSON types: `success` is a boolean, `type` an integer, `name` and `discord_status` strings. A missing `discord_status` (the code would store `undefined`) and an `activities` value that is not an array (the code would throw after setting the status) are not modelled.
- All JSX rendering, styling, icons, images and the static profile, contact, skill and project content (app/page.tsx:88-386). Only the activity badge's visibility test (app/page.tsx:125) is modelled, as `Presence.ShowsActivityBadge`; the badge's markup is not.
