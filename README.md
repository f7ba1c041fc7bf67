# BetterRest — verified model of the bedtime estimator

BetterRest is a one-screen SwiftUI form. The user picks a wake-up time, a
desired amount of sleep (4 to 12 hours in quarter-hour steps) and a daily
coffee count (1 to 20 cups). Pressing "Calculate" asks a Core ML regression
model for the sleep actually needed. The app then shows an alert with the
resulting bedtime, or a fixed failure message if the model cannot be built or
the prediction throws.

This project models the logic inside `ContentView`:

- the sleep-amount stepper's title (`calculateMinuteText`). The model keeps the
  source's mechanism: the Double's decimal description is split at ".", and
  the fraction digits are looked up in a table. The model proves that this
  equals the arithmetic rule "q/4 hours, then 15 × (q mod 4) minutes when
  non-zero", where q is the amount in quarter-hours;
- the coffee stepper's title;
- `calculateBedTime`, a method on a `ContentView` class that holds the view's
  `@State` fields. It converts the wake time to seconds of day and asks an
  injected predictor for a sleep duration. It subtracts that duration with
  wrap-around into the previous day, fills `alertTitle`/`alertText`, and sets
  `showAlert`.

Files:

- `wrappers.dfy`: `Option`.
- `swift_text.dfy`: the Swift standard-library string behaviours the labels
  rely on. These are an integer's decimal description, `Int(String)`, and
  `split(separator:)`. Each comes with its inverse or a round-trip lemma.
- `better_rest.dfy`: the labels, the bedtime arithmetic and the `ContentView`
  class.

Modelling choices:

- The sleep amount is a whole number of quarter-hours `q` in 16...48. It
  stands for the Double `q/4` that the stepper (`in: 4...12, step: 0.25`)
  produces. `String(Double)` for such a value is modelled as the whole part,
  ".", then "0", "25", "5" or "75". `DoubleString` states that this
  numeral denotes exactly `q/4`.
- `calculateMinuteText(forTime:)` reads the `sleepAmount` field, not its
  argument. The model keeps this: `ContentView.CalculateMinuteText` ignores
  `forTime`. The only call site passes `sleepAmount` itself, so the two
  readings agree there.
- The Core ML model is a total function
  `(wakeSeconds, sleepQuarters, coffee) -> Option<int>` that returns seconds of
  sleep. `None` stands for any throw, whether from building the model or from
  `prediction`. Nothing happens between those two calls that could be
  observed, so they are folded into one.
- Times of day are seconds since midnight. The bedtime is
  `(wake − predicted) mod 86400`.
- The alert text is a 24-hour "HH:mm" rendering (`ShortTime`) that drops the
  seconds. `ReadShortTime` reads it back, which shows that the text determines
  the bedtime to the minute.

The coffee stepper's range is 1...20, so the label has no case for 0 cups.

## Model

| member | source | states |
|---|---|---|
| SwiftText.NatToString | BetterRest/ContentView.swift:72 | The decimal description of a count is a non-empty string of digits with no leading zero |
| SwiftText.IntToString | BetterRest/ContentView.swift:43 | The `\(coffeeAmount)` interpolation is a minus sign exactly for a negative value, followed by one or more decimal digits |
| SwiftText.ParseInt | BetterRest/ContentView.swift:73 | `Int(String)` yields a value only for a string of digits, or a sign followed by at least one digit, and only within 64-bit range |
| SwiftText.ParseIntOfIntToString | BetterRest/ContentView.swift:73 | `Int(String)` reads back the description of every 64-bit integer as that integer |
| SwiftText.Split | BetterRest/ContentView.swift:71 | `split(separator:)` yields only non-empty pieces that do not contain the separator |
| SwiftText.SplitJoinThen | BetterRest/ContentView.swift:71 | Splitting separator-free pieces joined by the separator, followed by a separator and more text, gives back those pieces and then the split of the rest |
| SwiftText.SplitJoin | BetterRest/ContentView.swift:71 | Splitting undoes joining for non-empty pieces that do not contain the separator |
| BetterRest.DoubleString | BetterRest/ContentView.swift:71 | `String(sleepAmount)` for a quarter-hour amount splits at "." into exactly two digit strings, and read as a decimal numeral they denote exactly q/4 |
| BetterRest.SplitMinuteText | BetterRest/ContentView.swift:69-87 | The split-and-look-up label never traps, and it equals "N hours " followed by the suffix for the fraction |
| BetterRest.MinuteSuffix | BetterRest/ContentView.swift:75-84 | The suffix is empty exactly for a whole hour; otherwise it is 15 × k minutes followed by " min" for k quarters past the hour |
| BetterRest.MinuteLabelWords | BetterRest/ContentView.swift:72-84 | A label is the whole hours and "hours", followed by the minutes and "min" exactly when the amount is not a whole hour |
| BetterRest.ReadMinuteLabelRoundTrip | BetterRest/ContentView.swift:69-87 | Every stepper value can be recovered from its label |
| BetterRest.MinuteLabelInjective | BetterRest/ContentView.swift:69-87 | Distinct stepper values get distinct labels |
| BetterRest.CoffeeLabel | BetterRest/ContentView.swift:43 | The coffee label reads back as its count: the cup, the count's description, and "cup" or "cups" agreeing with the count |
| BetterRest.CoffeeLabelShowsCount | BetterRest/ContentView.swift:43 | The count always appears as its description, also for 1 where the source writes the literal, and the label ends in "s" exactly when the count is not 1 |
| BetterRest.CoffeeLabelInjective | BetterRest/ContentView.swift:43 | Distinct coffee counts get distinct labels |
| BetterRest.WakeSeconds | BetterRest/ContentView.swift:96-98 | For a valid hour and minute, the wake seconds lie in 0...86340 and are a whole minute, and the hour and minute can be recovered from them; an absent component counts as 0 |
| BetterRest.BedtimeOfDay | BetterRest/ContentView.swift:102 | The bedtime is a time of day, and adding the sleep back reaches the wake time. It falls on the same day when the sleep fits before the wake time, and on the previous day when it does not |
| BetterRest.MidnightRollover | BetterRest/ContentView.swift:102 | Waking at 00:10 after eight hours of predicted sleep gives a bedtime of 16:10 on the previous day |
| BetterRest.ShortTime | BetterRest/ContentView.swift:105 | The alert text for a bedtime reads back as that bedtime's minute of the day |
| BetterRest.EstimateBedtime | BetterRest/ContentView.swift:92-102 | An estimate exists exactly when the predictor succeeds. It is then a time of day that reaches the wake time when the predicted sleep is added back |
| BetterRest.AlertFor | BetterRest/ContentView.swift:104-109 | The failure title and text appear exactly when there is no estimate. On success the title is "Your ideal sleep time is…" and the text shows the bedtime to the minute |
| BetterRest.ContentView.constructor | BetterRest/ContentView.swift:12-18 | Initial state: wake at 06:32, 8 hours (32 quarters), 1 cup, empty alert, alert hidden |
| BetterRest.ContentView.CalculateMinuteText | BetterRest/ContentView.swift:69-87 | The stepper title is the label of the `sleepAmount` field, whatever the argument, and it reads back as that amount |
| BetterRest.ContentView.CalculateBedTime | BetterRest/ContentView.swift:89-114 | Afterwards the alert shows the bedtime estimate or the failure message, `showAlert` is true on both paths, and no other field changes |

## Left out

- SwiftUI layout and presentation (`body`, the form, the stepper and picker widgets, the alert and toolbar, the preview provider): these are user interface, not logic.
- The stepper widgets' own clamping and stepping: this is SwiftUI behaviour. The model takes the stepper ranges as the domain of the labels.
- The commented-out recommendation section and the commented-out return value of `calculateBedTime`: this is dead code.
- The Core ML `SleepCalculator` and `MLModelConfiguration`: they are opaque. They are replaced by an injected predictor that may fail. The predictor receives the sleep amount in quarter-hours, not as a Double of hours.
- Floating point: the Double sleep amount and the Double `actualSleep` are replaced by integer quarter-hours and integer seconds. `String(Double)` is modelled only for the quarter-hour values 0...12, and other values are not modelled.
- `Calendar.current`, `Date.now` and time zones: the wake-up date is represented by its hour and minute components. The subtraction works on seconds of day, so a daylight-saving change that falls between bedtime and wake-up is not modelled. The wake-up date's seconds are taken as 0.
- BetterRest.ShortTime: the locale-dependent `.formatted(date: .omitted, time: .shortened)` is replaced by one fixed 24-hour "HH:mm" form, so the model does not capture 12-hour clocks or other locales' patterns.
