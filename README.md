# Shkia Clock: countdown, messages and next-sunset selection in Dafny

Shkia Clock is a browser application that counts down to sunset ("shkia")
at a chosen location. Almost all of it is presentation. Three small pieces of
sequential logic can be stated apart from rendering, and this project models
each of them in its own module:

- `CountdownDisplay` (`countdown.dfy`) models `src/components/CountdownDisplay.tsx`.
  It covers `formatTimeLeft`, which turns a millisecond difference into
  `HH:MM:SS` text, and the urgency classification of one render. That
  classification clamps the sun progress, picks the sun-phase status and
  sky, and then applies the panic and critical overrides.
- `Messages` (`messages.dfy`) models `src/lib/messages.ts`. It covers
  `getDynamicMessage`: the hour's part of the day, looked up in the 7-day
  message table.
- `Zmanim` (`zmanim.dfy`) models `src/lib/zmanim.ts`. It covers
  `getComingShkia` and its `getSunset` key lookup. The astronomical provider,
  the parsing of time strings and the device-local "tomorrow" are function
  parameters.

The three pieces are not composed. `src/app/page.tsx:25` gives the countdown
a `shkiaTime` prop, but the component reads `zmanim: ZmanimData`
(`src/components/CountdownDisplay.tsx:8-12`). `zmanim.ts` exports no such
type.

Time values are integer milliseconds, as `Date.getTime()` gives them. The
sun progress `elapsedTime / dayDuration` is a `real`. `Render` takes it as
an input, together with `msToShkia`. The thresholds on `minutesLeft` are
restated on integer milliseconds: 5 minutes is 300000 ms and 15 minutes is
900000 ms.

What the code does, as opposed to what a full sunset resolver might do:

- `getComingShkia` returns only a `Date` or `null`, not today's sunrise and
  sunset. It asks for "tomorrow" on the device's calendar, not the target
  location's. It turns every exception into `null` instead of a typed
  error. It does not guarantee a result at or after `now`:
  `Zmanim.PastSunsetIsReturned` exhibits a run that returns a sunset that
  has already passed.
- `new Date(s)` on a string it cannot read does not throw. It yields an
  invalid date. An invalid date is never "before now", so the code returns it
  as a non-null result. Only the provider's exceptions become `null`.

## Model

| member | source | states |
|---|---|---|
| `CountdownDisplay.DecimalDigits` | src/components/CountdownDisplay.tsx:20 | `n.toString()` of a non-negative integer is a non-empty string of decimal digits; it starts with '0' exactly when n is 0 (no leading zeros) |
| `CountdownDisplay.DecimalDigitsRoundTrip` | src/components/CountdownDisplay.tsx:20 | reading the decimal text of n back gives n |
| `CountdownDisplay.DecimalDigitsLength` | src/components/CountdownDisplay.tsx:20-21 | the decimal text has three or more digits exactly when n >= 100, and at most two exactly when n < 100 |
| `CountdownDisplay.PadStart` | src/components/CountdownDisplay.tsx:20 | `padStart(width, fill)` has length max(len, width), ends with the original string and is filled with `fill` before it |
| `CountdownDisplay.Pad2` | src/components/CountdownDisplay.tsx:20 | `pad(n)` is all digits, exactly 2 long for n < 100 and as long as n's digits otherwise, and reads back as n |
| `CountdownDisplay.TotalSeconds` | src/components/CountdownDisplay.tsx:15 | whole seconds are 0 exactly when ms < 1000 (so every negative or zero ms gives 0); otherwise t*1000 <= ms < t*1000 + 1000 (floor) |
| `CountdownDisplay.SplitClock` | src/components/CountdownDisplay.tsx:16-18 | hours*3600 + minutes*60 + seconds == totalSeconds with minutes < 60 and seconds < 60; hours uncapped |
| `CountdownDisplay.FormatTimeLeft` | src/components/CountdownDisplay.tsx:14-22 | any ms below one second, negative included, formats as "00:00:00"; the text is at least 8 characters |
| `CountdownDisplay.FormatTimeLeftShape` | src/components/CountdownDisplay.tsx:20-21 | split on ':' the text has exactly three all-digit fields of at least 2 characters; minutes and seconds are exactly 2; the hour field has 3 or more digits exactly when totalSeconds >= 360000 |
| `CountdownDisplay.FormatTimeLeftRoundTrip` | src/components/CountdownDisplay.tsx:14-22 | reading the three ':'-separated fields back as decimals gives hours, minutes and seconds, and hours*3600 + minutes*60 + seconds recovers totalSeconds |
| `CountdownDisplay.Render` | src/components/CountdownDisplay.tsx:37-101 | the sun progress is clamped into [0, 1.1]; panic holds exactly when 0 < msToShkia <= 300000 and then forces "SHKIA IMMINENT", the panic clock and the panic sky over any sun phase; 300000 < msToShkia <= 900000 gives "Critical Time" without panic; otherwise the status is "Approaching Sunset" for progress in (0.85, 1.0], "Shkia Passed" above 1.0 and "Time until Shkia" at or below 0.85, sunrise included; the sky follows the sun phase unless in panic; the clock text is formatTimeLeft(msToShkia) |
| `Messages.TimeOfDayOf` | src/lib/messages.ts:50-60 | each part of the day holds exactly on its range: morning on [6,12), afternoon on [12,17), evening on [17,21), night on every other hour; so the four partition all hours |
| `Messages.MessageTableShape` | src/lib/messages.ts:3-46 | the table has exactly the days 0..6; every message is non-empty and differs from the other three of its day |
| `Messages.GetDynamicMessage` | src/lib/messages.ts:2-63 | for a day of the week in 0..6 (the lookup fails outside it) the message is non-empty and is that day's morning, afternoon, evening or night message according to the hour's range |
| `Messages.SameMessageIffSamePart` | src/lib/messages.ts:50-62 | for one day, two hours give the same message exactly when they fall in the same part of the day |
| `Zmanim.FirstTruthy` | src/lib/zmanim.ts:19 | the result is None exactly when no value is truthy; otherwise it is a truthy value at some position before which every value is falsy (the first truthy one) |
| `Zmanim.GetSunset` | src/lib/zmanim.ts:18-20 | the lookup yields the first truthy value among BasicZmanim.Sunset, Zmanim.Sunset and Sunset, in that order; absent and empty strings are skipped |
| `Zmanim.GetComingShkia` | src/lib/zmanim.ts:4-46 | the first call asks for `now` at the given place; no sunset (or an exception) gives null after one call; a sunset not before now is returned unchanged after one call; a past one makes a second call with the same place and time zone and the date advanced by one device-local day; an exception there gives null, a sunset found there is returned whether or not it is before now, and none found returns today's past sunset; any non-null result is the parse of a sunset one of the calls yielded |
| `Zmanim.PastSunsetIsReturned` | src/lib/zmanim.ts:29-41 | there is a run whose non-null result is a valid instant earlier than now: today's sunset has passed and the next day's answer has no sunset |

## Left out

- React state and effects, the one-second `setInterval` tick and the
  `mounted` guard (`CountdownDisplay.tsx:25-34`): each tick is one call of
  `Render` with the tick's values.
- The computation of `rawPercent` as `elapsedTime / dayDuration`
  (`CountdownDisplay.tsx:41-45`) is not in the model. `Render` receives the
  quotient. Floating-point division, including a zero `dayDuration`
  (NaN or Infinity), is not modelled.
- `minutesLeft` is `ms / 1000 / 60` in floating point
  (`CountdownDisplay.tsx:38`). Its thresholds are stated on integer
  milliseconds instead.
- The sine-based sun arc (`sunX`, `sunY`, `visualBottom`,
  `CountdownDisplay.tsx:57-62`), the unused `textColor` and the markup.
  `bgGradient`, `sunColor` and `sunGlow` are carried as opaque labels.
- `toLocaleTimeString` of sunrise and sunset (`CountdownDisplay.tsx:150-151`),
  because it depends on the locale library.
- `FormatTimeLeft` assumes an integer number of milliseconds. JavaScript
  prints integers of 10^21 and more in exponent notation, and `Date`
  values never come near that.
- `GetComingShkia`: the provider (`getZmanimJson` of kosher-zmanim), `new
  Date(string)` and `setDate(getDate() + 1)` are uninterpreted function
  parameters. The three clock readings `new Date()` (`zmanim.ts:7, 27, 31`)
  are one `now` parameter. The source reads the clock separately each time.
- `GetSunset`: when no value is truthy, JavaScript's `||` chain returns the
  last falsy operand. Its callers only test truthiness, so the model returns
  None. Non-string values in the provider's answer are not modelled.
- `console.error` in the exception handler (`zmanim.ts:43`) is output only.
- `GetDynamicMessage`: `dayOfWeek` is an integer. Indexing the table with a
  day outside 0..6 throws in the source, and the model makes 0..6 a
  precondition. This also covers a fractional day, which misses the table.
  A NaN hour is not modelled. The table is a sequence of records indexed
  by day, and the part-of-day keys are a datatype, not strings.
- `src/app/page.tsx`, `LocationSelector.tsx` (geolocation and the geocoding
  `fetch`), `SpaceBackground.tsx`, `AtmosphereBackground.tsx`,
  `layout.tsx`: I/O and rendering only.
- The debug scripts are console experiments. Their locale-string
  round trip for the target date is not production behaviour. Time-zone
  conversion is a provider concern and is not modelled.
