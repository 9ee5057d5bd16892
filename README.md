# FocusFlow core, modelled in Dafny

FocusFlow is a browser study tracker with four parts:

- a 25-minute Pomodoro timer that records completed focus sessions and counts how often the page is hidden while a session runs;
- a dashboard that totals session time per category, plots a per-session timeline and shows focus minutes, distraction minutes and an efficiency percentage;
- an application shell that keeps the session history: each completed session goes in front of it, and the three demonstration sessions it starts with are in chronological order;
- an insight service that sends a summary of the history to a text model and shows its advice, with headings marked by `#`.

This project models the logic behind those four parts and proves what each part promises.

| file | module | what it holds |
|---|---|---|
| `Types.dfy` | `Types` | `TaskCategory`, `FocusSession`, `Option` |
| `Rounding.dfy` | `Rounding` | `Math.round(n / d)` and `Math.floor(n / d)` as exact integer operations |
| `Strings.dfy` | `Strings` | the JavaScript string operations the code relies on: `toString` of a non-negative integer, `padStart`, `split` on one character, `replace(/c/g, '')` |
| `Pomodoro.dfy` | `Pomodoro` | the timer as a class `Timer` with the component's six state fields, and `formatTime` |
| `Dashboard.dfy` | `Dashboard` | the category reduce (a loop over a map accumulator), pie data, timeline, totals, efficiency |
| `GeminiService.dfy` | `GeminiService` | the session summary and the choice of the returned text |
| `App.dfy` | `App` | the class `State` (history, analyzing flag, insight, tab), the insight rendering and the list minutes |

Time, the interval tick, visibility events and the model's reply are inputs:

- `now` and the other instants are parameters;
- a tick and a page-hidden event are method calls;
- the text model is a function from the summary it receives to its reply.

Durations are integers, and the clock is not assumed to be monotonic.

## Model

| member | source | states |
|---|---|---|
| Types.CategoryNameInjective | types.ts:2-8 | The five category strings are pairwise different, so keying the dashboard's dictionary by category name merges no two categories. |
| Rounding.RoundDiv | components/Dashboard.tsx:27 | `Math.round(n / d)` for `d > 0`: the result r satisfies r - 1/2 <= n/d < r + 1/2, meaning halves round up. Negative numerators are included. |
| Rounding.RoundDivUnique | components/Dashboard.tsx:33 | Only one integer meets that contract, so the rounding is fully pinned down. |
| Rounding.FloorDiv | App.tsx:123 | `Math.floor(n / d)` for `d > 0`: r <= n/d < r + 1. |
| Rounding.FloorBelowRound | App.tsx:123 | Floor <= round <= floor + 1. Round equals floor exactly when the remainder is below half the divisor. |
| Strings.DecimalString | components/Pomodoro.tsx:86 | `n.toString()`: at least one character, all digits, no leading zero. One digit exactly below 10, at most two exactly below 100. |
| Strings.ParseDecimalString | components/Pomodoro.tsx:86 | Reading the digits back gives n (round trip). |
| Strings.PadStart | components/Pomodoro.tsx:86 | `padStart(width, fill)`: the length is the larger of the length of `s` and `width`, `s` is the suffix, and everything in front is `fill`. |
| Strings.ParseZeroPadded | components/Pomodoro.tsx:86 | Zero-padding keeps the string all digits and keeps its value. |
| Strings.Split | App.tsx:143 | `split('\n')`: at least one piece, and no piece contains the separator. |
| Strings.SplitPieceCount | App.tsx:143 | There is exactly one more piece than there are separators. |
| Strings.JoinSplit | App.tsx:143 | Joining the pieces with the separator gives back the text. |
| Strings.SplitJoin | App.tsx:143 | Splitting the join of separator-free pieces gives back the pieces. |
| Strings.RemoveAll | App.tsx:145 | `replace(/#/g, '')`: the result contains no `#`. |
| Strings.RemoveAllCounts | App.tsx:145 | The length drops by the number of `#`. Every other character keeps its count. |
| Strings.RemoveAllConcat | App.tsx:145 | Removal distributes over concatenation, so the kept characters stay in order. |
| Strings.RemoveAllAbsent | App.tsx:145 | A line without `#` is left unchanged. |
| Pomodoro.ElapsedSeconds | components/Pomodoro.tsx:49 | `Math.round((now - startTime) / 1000)`: the elapsed milliseconds rounded half up to seconds. |
| Pomodoro.ElapsedWholeSeconds | components/Pomodoro.tsx:49 | A span of exactly t whole seconds gives t. |
| Pomodoro.FormatTime | components/Pomodoro.tsx:83-87 | For any s >= 0: `MM:SS` with a colon third from the end. The part before the colon reads as s div 60, the part after as s mod 60. Five characters exactly when s < 6000. |
| Pomodoro.FormatFullSession | components/Pomodoro.tsx:83-87 | `formatTime(1500) == "25:00"`. |
| Pomodoro.Timer.Pending | components/Pomodoro.tsx:48-58 | A session is pending exactly when `startTime` is truthy (set and not 0). It carries the id, the start, the end instant, the rounded elapsed seconds, and the current category, task name and distraction count. |
| Pomodoro.Timer.constructor | components/Pomodoro.tsx:10-15 | Starts idle: 1500 s left, not active, empty task name, Study, 0 distractions, no start time. The invariant holds. |
| Pomodoro.Timer.SetTaskName | components/Pomodoro.tsx:104-106 | The name changes only while idle. Nothing else changes. |
| Pomodoro.Timer.SelectCategory | components/Pomodoro.tsx:114-115 | The category changes only while idle. Nothing else changes. |
| Pomodoro.Timer.Stop | components/Pomodoro.tsx:44-66 | Emits the pending session, or nothing. Then the timer is inactive with 1500 s, 0 distractions and no start time, and the task name and category are kept. Called on any state, it re-establishes the invariant. |
| Pomodoro.Timer.Toggle | components/Pomodoro.tsx:31-42 | Three cases. Idle with an empty name: rejected and nothing changes. Idle with a name: active with `startTime == now`, while the full countdown, the zero counter, the name and the category are left alone. Active: exactly `Stop`. The invariant is kept. |
| Pomodoro.Timer.VisibilityChange | components/Pomodoro.tsx:21-29 | The counter rises by exactly one when the page turns hidden while active. Otherwise nothing changes, so it never decreases. |
| Pomodoro.Timer.Tick | components/Pomodoro.tsx:68-73 | While active with time left, the countdown drops by exactly one. Nothing else changes, and 0 <= timeLeft <= 1500 is kept. |
| Pomodoro.Timer.Expire | components/Pomodoro.tsx:74-77 | When active at 0 it does exactly what `Stop` does. In any other state it emits nothing and changes nothing. |
| Dashboard.Categories | components/Dashboard.tsx:18-25 | The dictionary's keys: distinct, and exactly the categories that occur. The contract does not state their order. The definition lists them by first occurrence, which is JavaScript's key order for string keys. |
| Dashboard.CategoryDataMap | components/Dashboard.tsx:18-23 | The reduce loop: the keys are `Categories(s)`, a category is in the map iff it occurs, and its value is the sum of that category's durations. |
| Dashboard.CategorySecondsSum | components/Dashboard.tsx:18-23 | Summed over the occurring categories, the per-category seconds give the total seconds. |
| Dashboard.CategoryTotalsSum | components/Dashboard.tsx:18-23 | The map's values over its keys sum to the total duration of all sessions. |
| Dashboard.AbsentHasNoSeconds | components/Dashboard.tsx:20 | A category that does not occur has 0 seconds, which matches the default of 0 for a missing key. |
| Dashboard.PieData | components/Dashboard.tsx:25-28 | One slice per dictionary key, in key order. Each slice carries the category's name and its stored seconds rounded half up to minutes. |
| Dashboard.PieSlices | components/Dashboard.tsx:25-28 | One slice per key, named after an occurring category. Every occurring category has a slice. Names are distinct. Each value is the category's summed seconds rounded half up to minutes once, not per session. |
| Dashboard.Timeline | components/Dashboard.tsx:31-35 | Same length and order as the sessions. Entry i is labelled `S` + (i+1), carries the session's distractions, and has its duration rounded half up to minutes. |
| Dashboard.SessionLabelNumber | components/Dashboard.tsx:32 | The label is `S` followed by digits that read as i+1. |
| Dashboard.TimelineLabelsDistinct | components/Dashboard.tsx:32 | No two timeline entries share a label. |
| Dashboard.FocusSessions | components/Dashboard.tsx:37-38 | The filter keeps no Distraction session. |
| Dashboard.DistractionSessions | components/Dashboard.tsx:41-42 | The filter keeps only Distraction sessions. |
| Dashboard.FocusSessionsAreSessions | components/Dashboard.tsx:37-38 | Every kept session comes from the input. |
| Dashboard.FocusDistractionPartition | components/Dashboard.tsx:37-43 | Focus plus distraction seconds equal the total. Focus is the four non-distraction categories. Distraction is the Distraction category alone. |
| Dashboard.TotalSecondsNonNegative | components/Dashboard.tsx:37-43 | With no negative durations, the total and every category's sum are non-negative. |
| Dashboard.FocusDistractionNonNegative | components/Dashboard.tsx:37-43 | With no negative durations, the focus and distraction totals are non-negative. |
| Dashboard.FocusMinutes | components/Dashboard.tsx:96 | `Math.round(totalStudyMinutes)`: the focus seconds rounded half up to minutes, for any history. |
| Dashboard.DistractionMinutes | components/Dashboard.tsx:101 | `Math.round(totalDistractionMinutes)`: the distraction seconds rounded half up to minutes, for any history. |
| Dashboard.Efficiency | components/Dashboard.tsx:107-109 | 0 when the total is not positive. Otherwise the result r satisfies r - 1/2 <= 100·focus/total < r + 1/2. |
| Dashboard.PercentBounds | components/Dashboard.tsx:107-109 | The rounded percentage of a non-negative part in a positive whole lies in [0, 100]. It is 100 when the other part is 0. |
| Dashboard.EfficiencyBounds | components/Dashboard.tsx:107-109 | With no negative durations: always in [0, 100], 0 for an empty total, and 100 when focus time is positive and distraction time is 0. |
| GeminiService.Summarize | services/geminiService.ts:9-14 | One entry per session, in order. Each entry copies the task name, category and distractions, and its minutes are the floor of seconds / 60. |
| GeminiService.SummarizeConcat | services/geminiService.ts:9-14 | The summary of a concatenation is the concatenation of the summaries. |
| GeminiService.FailureIndistinguishable | services/geminiService.ts:39-42 | A failed request gives the same text as a reply that reads like the connectivity message. A missing text gives the same as a reply that reads like the fallback. |
| GeminiService.SelectInsight | services/geminiService.ts:39-42 | A non-empty reply text is returned verbatim. Missing or empty text gives the fixed "Unable to generate insights" text. A failure gives the fixed connectivity message. The result is never empty. |
| GeminiService.AnalyzeProductivity | services/geminiService.ts:5-44 | It returns (rather than throws) exactly when the client could be built. The text is never empty. A failed request returns the connectivity message. A non-empty reply to the summary of exactly these sessions is passed through. A missing or empty reply text returns the fixed "Unable to generate insights" text. |
| App.MockSessions | App.tsx:8-12 | Three demonstration sessions with distinct ids. Each has an end time, starts before it ends and ends no later than `now`. Each ends before the next one starts. |
| App.SeedSeconds | App.tsx:8-12 | The three demonstration sessions hold 3000 focus seconds and 600 distraction seconds. |
| App.SeedFigures | App.tsx:8-12 | On them the dashboard shows 50 focus minutes, 10 distraction minutes and 83 % efficiency. |
| App.State.constructor | App.tsx:16-19 | Starts with the demonstration history, no insight, the tracker tab, and not analyzing. |
| App.State.HandleSessionComplete | App.tsx:21-23 | The history becomes `[session] + old history`. Nothing else changes. |
| App.State.GetAIAdvice | App.tsx:25-37 | The analyzer is called iff the history is non-empty, and with an empty history nothing changes. Afterwards the analyzing flag is down and the history is unchanged. A returned text is stored and the insights tab is shown. A throw leaves the insight and the tab as they were. |
| App.RenderLine | App.tsx:145 | A line is a heading iff it starts with `#`. A heading's text is the line with every `#` removed, so it has no `#` left and is shorter by the number of `#`. A plain line is kept as is. |
| App.RenderInsight | App.tsx:143-145 | One paragraph per `\n`-separated line, in order, so the count is the number of newlines + 1. No paragraph contains a newline. Headings are exactly the lines starting with `#`. A heading's text is its line with every `#` removed, so it has no `#` left and is shorter by their number. Other lines are verbatim. |
| App.PlainInsightRoundTrip | App.tsx:143-145 | A text without `#` renders only as plain paragraphs, and joining them with newlines gives back the text. |
| App.InsightPanelOf | App.tsx:140-145 | `aiInsight ? … : …`: paragraphs are shown exactly when the insight is set and non-empty. They are then the rendered lines of the insight (`RenderInsight`), one per line. |
| App.PanelShowsStoredInsight | App.tsx:140 | Since a stored insight is never empty, the paragraphs are shown exactly when an insight is stored. |
| App.ListedMinutes | App.tsx:123 | The session list shows the floor of seconds / 60. |
| App.ListedVersusTimeline | App.tsx:123 | The list minutes equal the summary's minutes. The timeline shows the same number or one more, one more exactly when at least 30 seconds are left over. |

## Left out

- View code: the JSX markup, styling, chart components, tab buttons and the colour bar of each listed session. `InsightPanelOf` models only the `aiInsight ? … : …` choice.
- Real time and scheduling. `Date.now`, `setInterval`/`clearInterval`, effect re-runs and listener registration are not modelled. Instants are parameters, and a tick or a visibility change is a method call.
- Session ids. `Math.random().toString(36)` is random, so the id is a parameter and uniqueness is not claimed.
- `alert` and `console.error`, which are side effects with no state.
- The text model itself: the SDK, the API key, the model name, the sampling parameters, the prompt template and `JSON.stringify`. The model is a function from the summary to its reply, and `clientCreated` says whether the client constructor, which sits outside the `try`, succeeded.
- `async`/`await`. `GetAIAdvice` runs as one sequential step, so the raised analyzing flag is never observable from outside.
- IEEE floating point. `/60`, `*100` and `Math.round` are exact integer round-half-up. Float error at exact .5 ties is not modelled, and efficiency is computed from seconds because the factor 1/60 cancels.
- The demonstration timestamps are modelled as exact integer offsets of `now`. The float products `3600000 * 1.4` and similar are not modelled; no property depends on them.
- `DailyReport` and `ProductivitySummary` (types.ts:20-32), which no logic uses.
- Pomodoro.FormatTime: takes a non-negative number only, because its one caller passes `timeLeft`, which the invariant keeps in [0, 1500]. Negative inputs are not modelled.
- Dashboard.EfficiencyBounds: requires non-negative durations. A clock that goes backwards can give a negative duration, and then the percentage is not bounded.
- The aggregation works on immutable values, so "the input is left unchanged" holds by construction and is not stated separately.

Where the behaviour is subtle, the model follows the code:

- `if (startTime)` is JavaScript truthiness. A start time of 0 counts as unset, so `Pending` emits nothing for it.
- The history is newest-first only for sessions completed during the run. The demonstration sessions behind them stay oldest first, as `MockSessions` states. The timeline labels `S1`, `S2`, ... therefore follow the history's order, not the time order.
- `stopSession` reads the clock twice. `Stop` therefore takes the instant used for the duration and the recorded end instant separately, and no relation between the end time and the duration is claimed.
- The distraction counter is never reset when a session starts, only when it stops. `Timer.Valid()` keeps the counter at 0 while idle, so a session still starts from 0.
- `analyzeProductivity` does not catch every failure: building the client happens before the `try`. `AnalyzeProductivity` can therefore throw, and `GetAIAdvice`'s `catch` covers that path.
