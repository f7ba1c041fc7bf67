/**
 * BetterRest's ContentView: the label of the sleep-amount stepper, the label of
 * the coffee stepper, and the "Calculate" action that asks a sleep predictor for
 * a duration and shows the resulting bedtime (or a failure message) in an alert.
 *
 * The sleep amount, a Double of hours in 4...12 stepped by 0.25, is modelled as
 * a whole number of quarter-hours; times of day are seconds since midnight.
 */
module BetterRest {
  import opened Wrappers
  import opened SwiftText

  // ---------------------------------------------------------------------------
  // Sleep-amount label
  // ---------------------------------------------------------------------------

  /** Stepper bounds 4...12 hours, in quarter-hours. */
  const MinSleepQuarters: int := 16
  const MaxSleepQuarters: int := 48

  predicate InSleepRange(q: int) {
    MinSleepQuarters <= q <= MaxSleepQuarters
  }

  /** The digits Swift prints after the point of k/4 hours, k = 0..3 (".0", ".25", ".5", ".75"). */
  function FractionDigits(quarter: int): nat
    requires 0 <= quarter < 4
  {
    if quarter == 0 then 0 else if quarter == 1 then 25 else if quarter == 2 then 5 else 75
  }

  function Pow10(n: nat): (p: nat)
    ensures p >= 1
  {
    if n == 0 then 1 else 10 * Pow10(n - 1)
  }

  /** The number a decimal numeral "whole.frac" denotes. */
  function DecimalValue(whole: string, frac: string): real
    requires AllDigits(whole) && AllDigits(frac)
  {
    DigitsValue(whole) as real + DigitsValue(frac) as real / Pow10(|frac|) as real
  }

  /** The whole part and fraction digits printed for q/4 denote exactly q/4. */
  lemma QuarterNumeralDenotes(q: nat)
    requires q <= MaxSleepQuarters
    ensures DecimalValue(NatToString(q / 4), NatToString(FractionDigits(q % 4))) == q as real / 4.0
  {
    var f := FractionDigits(q % 4);
    DigitsValueOfNatToString(q / 4);
    DigitsValueOfNatToString(f);
    assert q == 4 * (q / 4) + q % 4;
    if q % 4 == 0 {
      assert NatToString(0) == "0";
    } else if q % 4 == 1 {
      assert NatToString(25) == "25";
    } else if q % 4 == 2 {
      assert NatToString(5) == "5";
    } else {
      assert NatToString(75) == "75";
    }
  }

  /**
   * `String(sleepAmount)` for the Double q/4, e.g. "8.0", "8.25", "12.5":
   * split at the point, it is two digit strings that denote exactly q/4.
   */
  function DoubleString(q: nat): (s: string)
    requires q <= MaxSleepQuarters
    ensures var parts := Split(s, '.');
            |parts| == 2 && AllDigits(parts[0]) && AllDigits(parts[1])
            && DecimalValue(parts[0], parts[1]) == q as real / 4.0
  {
    var whole := NatToString(q / 4);
    var frac := NatToString(FractionDigits(q % 4));
    DigitsExclude(whole, '.');
    DigitsExclude(frac, '.');
    SplitJoin([whole, frac], '.');
    QuarterNumeralDenotes(q);
    assert whole + "." + frac == Join([whole, frac], '.');
    whole + "." + frac
  }

  lemma DoubleStringPieces(q: nat)
    requires q <= MaxSleepQuarters
    ensures Split(DoubleString(q), '.') == [NatToString(q / 4), NatToString(FractionDigits(q % 4))]
    ensures ParseInt(NatToString(FractionDigits(q % 4))) == Some(FractionDigits(q % 4))
  {
    var whole := NatToString(q / 4);
    var f := FractionDigits(q % 4);
    DigitsExclude(whole, '.');
    DigitsExclude(NatToString(f), '.');
    assert DoubleString(q) == Join([whole, NatToString(f)], '.');
    SplitJoin([whole, NatToString(f)], '.');
    ParseIntOfIntToString(f);
  }

  /**
   * `calculateMinuteText` as written: split the Double's description at ".",
   * keep the whole part followed by " hours ", and map the fraction digits
   * 25, 5 and 75 to "15 min", "30 min" and "45 min". None stands for the trap
   * that indexing a missing piece of the split would cause; it never happens,
   * and the result is the label computed arithmetically from q.
   */
  function SplitMinuteText(q: nat): (text: Option<string>)
    requires q <= MaxSleepQuarters
    ensures text == Some(MinuteLabel(q))
  {
    DoubleStringPieces(q);
    var splitTimeString := Split(DoubleString(q), '.');
    if |splitTimeString| < 2 then None
    else
      var hours := splitTimeString[0] + " hours ";
      var minutes := ParseInt(splitTimeString[1]);
      assert MinuteLabel(q) == hours + MinuteSuffix(q % 4);
      assert q % 4 == 0 ==> MinuteLabel(q) == hours;
      if minutes == Some(25) then Some(hours + "15 min")
      else if minutes == Some(5) then Some(hours + "30 min")
      else if minutes == Some(75) then Some(hours + "45 min")
      else Some(hours)
  }

  /** The minute suffix for k quarter-hours past the whole hour. */
  function MinuteSuffix(quarter: int): (suffix: string)
    requires 0 <= quarter < 4
    ensures quarter == 0 <==> suffix == ""
    ensures quarter > 0 ==> suffix == NatToString(15 * quarter) + " min"
  {
    if quarter == 1 then "15 min"
    else if quarter == 2 then "30 min"
    else if quarter == 3 then "45 min"
    else ""
  }

  /** The label computed from the quarter-hour count directly. */
  function MinuteLabel(q: nat): string
    requires q <= MaxSleepQuarters
  {
    NatToString(q / 4) + " hours " + MinuteSuffix(q % 4)
  }

  /** The words of a label: the hours, "hours", and for a part hour the minutes and "min". */
  lemma MinuteLabelWords(q: nat)
    requires InSleepRange(q)
    ensures var words := Split(MinuteLabel(q), ' ');
            if q % 4 == 0 then words == [NatToString(q / 4), "hours"]
            else words == [NatToString(q / 4), "hours", NatToString(15 * (q % 4)), "min"]
  {
    var whole := NatToString(q / 4);
    DigitsExclude(whole, ' ');
    var suffix := MinuteSuffix(q % 4);
    assert MinuteLabel(q) == Join([whole, "hours"], ' ') + [' '] + suffix;
    SplitJoinThen([whole, "hours"], ' ', suffix);
    if q % 4 != 0 {
      var minutes := NatToString(15 * (q % 4));
      DigitsExclude(minutes, ' ');
      assert suffix == Join([minutes, "min"], ' ');
      SplitJoin([minutes, "min"], ' ');
    }
  }

  /**
   * Reads a sleep label back into quarter-hours: "N hours " alone is N whole
   * hours, "N hours M min" adds M/15 quarters.
   */
  function ReadMinuteLabel(caption: string): Option<int> {
    var words := Split(caption, ' ');
    if |words| == 2 && words[1] == "hours" then
      match ParseInt(words[0])
      case Some(h) => Some(4 * h)
      case None => None
    else if |words| == 4 && words[1] == "hours" && words[3] == "min" then
      match (ParseInt(words[0]), ParseInt(words[2]))
      case (Some(h), Some(m)) => if 0 < m < 60 && m % 15 == 0 then Some(4 * h + m / 15) else None
      case _ => None
    else None
  }

  /** The label shows the whole hours and the minutes, enough to recover the amount. */
  lemma ReadMinuteLabelRoundTrip(q: nat)
    requires InSleepRange(q)
    ensures ReadMinuteLabel(MinuteLabel(q)) == Some(q)
  {
    MinuteLabelWords(q);
    ParseIntOfIntToString(q / 4);
    if q % 4 != 0 {
      ParseIntOfIntToString(15 * (q % 4));
    }
  }

  /** Distinct stepper values get distinct labels. */
  lemma MinuteLabelInjective(q1: nat, q2: nat)
    requires InSleepRange(q1) && InSleepRange(q2)
    requires MinuteLabel(q1) == MinuteLabel(q2)
    ensures q1 == q2
  {
    ReadMinuteLabelRoundTrip(q1);
    ReadMinuteLabelRoundTrip(q2);
  }

  // ---------------------------------------------------------------------------
  // Coffee label
  // ---------------------------------------------------------------------------

  const Cup: string := "☕️"

  /** The unit word after a count of cups. */
  function CupUnit(count: int): string {
    if count == 1 then "cup" else "cups"
  }

  /**
   * Reads a coffee label back into its count: the cup, the count, and the unit
   * that agrees with the count.
   */
  function ReadCoffeeLabel(caption: string): Option<int> {
    var words := Split(caption, ' ');
    if |words| == 3 && words[0] == Cup then
      match ParseInt(words[1])
      case Some(n) => if words[2] == CupUnit(n) then Some(n) else None
      case None => None
    else None
  }

  lemma ReadCoffeeWords(count: int)
    requires IntMin <= count <= IntMax
    ensures ReadCoffeeLabel(Join([Cup, IntToString(count), CupUnit(count)], ' ')) == Some(count)
  {
    IntToStringExcludes(count, ' ');
    SplitJoin([Cup, IntToString(count), CupUnit(count)], ' ');
    ParseIntOfIntToString(count);
  }

  /** The coffee stepper's title; every 64-bit count can be read back from it. */
  function CoffeeLabel(coffeeAmount: int): (caption: string)
    ensures IntMin <= coffeeAmount <= IntMax ==> ReadCoffeeLabel(caption) == Some(coffeeAmount)
  {
    var caption := if coffeeAmount == 1 then "☕️ 1 cup" else "☕️ " + IntToString(coffeeAmount) + " cups";
    var words := [Cup, IntToString(coffeeAmount), CupUnit(coffeeAmount)];
    assert words[1..] == [IntToString(coffeeAmount), CupUnit(coffeeAmount)] && words[1..][1..] == [CupUnit(coffeeAmount)];
    assert Join(words[1..][1..], ' ') == CupUnit(coffeeAmount);
    assert Join(words[1..], ' ') == IntToString(coffeeAmount) + [' '] + CupUnit(coffeeAmount);
    assert Join(words, ' ') == Cup + [' '] + (IntToString(coffeeAmount) + [' '] + CupUnit(coffeeAmount));
    assert IntToString(1) == "1";
    assert caption == Cup + [' '] + (IntToString(coffeeAmount) + [' '] + CupUnit(coffeeAmount));
    if IntMin <= coffeeAmount <= IntMax then ReadCoffeeWords(coffeeAmount); caption else caption
  }

  /** Distinct coffee counts get distinct labels. */
  lemma CoffeeLabelInjective(c1: int, c2: int)
    requires IntMin <= c1 <= IntMax && IntMin <= c2 <= IntMax
    requires CoffeeLabel(c1) == CoffeeLabel(c2)
    ensures c1 == c2
  {
  }

  /** Every count is shown as its number, with "cup" singular exactly when it is 1. */
  lemma CoffeeLabelShowsCount(coffeeAmount: int)
    ensures CoffeeLabel(coffeeAmount)
            == "☕️ " + IntToString(coffeeAmount) + (if coffeeAmount == 1 then " cup" else " cups")
    ensures CoffeeLabel(coffeeAmount)[|CoffeeLabel(coffeeAmount)| - 1] == 's' <==> coffeeAmount != 1
  {
  }

  // ---------------------------------------------------------------------------
  // Bedtime
  // ---------------------------------------------------------------------------

  const SecondsPerDay: int := 86400

  /** The hour and minute components of the wake-up date; either may be absent. */
  datatype WakeTime = WakeTime(hour: Option<int>, minute: Option<int>)

  /** The default wake-up time, 06:32. */
  const DefaultWakeTime: WakeTime := WakeTime(Some(6), Some(32))

  predicate ValidWakeTime(w: WakeTime) {
    (w.hour.Some? ==> 0 <= w.hour.value < 24) && (w.minute.Some? ==> 0 <= w.minute.value < 60)
  }

  /** hour * 3600 + minute * 60, an absent component counting as 0. */
  function WakeSeconds(w: WakeTime): (seconds: int)
    ensures ValidWakeTime(w) ==> 0 <= seconds <= 86340 && seconds % 60 == 0
    ensures ValidWakeTime(w) ==> seconds / 3600 == w.hour.GetOr(0)
    ensures ValidWakeTime(w) ==> seconds % 3600 / 60 == w.minute.GetOr(0)
  {
    w.hour.GetOr(0) * 60 * 60 + w.minute.GetOr(0) * 60
  }

  /** The wake-up time minus the sleep duration, as a time of day. */
  function BedtimeOfDay(wakeSeconds: int, sleepSeconds: int): (bedtime: int)
    ensures 0 <= bedtime < SecondsPerDay
    ensures (bedtime + sleepSeconds) % SecondsPerDay == wakeSeconds % SecondsPerDay
    ensures 0 <= wakeSeconds - sleepSeconds < SecondsPerDay ==> bedtime == wakeSeconds - sleepSeconds
    ensures -SecondsPerDay <= wakeSeconds - sleepSeconds < 0
            ==> bedtime == wakeSeconds - sleepSeconds + SecondsPerDay
  {
    (wakeSeconds - sleepSeconds) % SecondsPerDay
  }

  function TwoDigits(n: nat): (s: string)
    requires n < 100
    ensures |s| == 2 && AllDigits(s) && DigitsValue(s) == n
  {
    var s := [DigitChar(n / 10), DigitChar(n % 10)];
    assert s[..1] == [DigitChar(n / 10)] && s[..1][..0] == [];
    assert DigitsValue(s[..1]) == n / 10;
    assert DigitsValue(s) == DigitsValue(s[..1]) * 10 + DigitValue(s[1]);
    s
  }

  lemma MinuteOfDay(secondsOfDay: int)
    requires 0 <= secondsOfDay < SecondsPerDay
    ensures secondsOfDay / 3600 < 24 && secondsOfDay % 3600 / 60 < 60
    ensures secondsOfDay / 3600 * 60 + secondsOfDay % 3600 / 60 == secondsOfDay / 60
  {
  }

  /** A time of day as "HH:mm", 24-hour clock, seconds dropped. */
  function ShortTime(secondsOfDay: int): (text: string)
    requires 0 <= secondsOfDay < SecondsPerDay
    ensures ReadShortTime(text) == Some(secondsOfDay / 60)
  {
    MinuteOfDay(secondsOfDay);
    var text := TwoDigits(secondsOfDay / 3600) + ":" + TwoDigits(secondsOfDay % 3600 / 60);
    assert text[..2] == TwoDigits(secondsOfDay / 3600);
    assert text[3..] == TwoDigits(secondsOfDay % 3600 / 60);
    text
  }

  /** Reads "HH:mm" back into a minute of the day. */
  function ReadShortTime(text: string): (minuteOfDay: Option<int>)
    ensures minuteOfDay.Some? ==> 0 <= minuteOfDay.value < 24 * 60
  {
    if |text| == 5 && text[2] == ':' && AllDigits(text[..2]) && AllDigits(text[3..]) then
      var h := DigitsValue(text[..2]);
      var m := DigitsValue(text[3..]);
      if h < 24 && m < 60 then Some(h * 60 + m) else None
    else None
  }

  /**
   * The bedtime the predictor leads to: None when the predictor fails (the
   * model cannot be built, or the prediction throws), otherwise the wake-up
   * time minus the predicted sleep, wrapped into the day.
   */
  function EstimateBedtime(wakeUp: WakeTime, sleepQuarters: int, coffeeAmount: int,
                           predict: (int, int, int) -> Option<int>): (bedtime: Option<int>)
    ensures bedtime.None? <==> predict(WakeSeconds(wakeUp), sleepQuarters, coffeeAmount).None?
    ensures bedtime.Some? ==>
              var sleep := predict(WakeSeconds(wakeUp), sleepQuarters, coffeeAmount).value;
              0 <= bedtime.value < SecondsPerDay
              && (bedtime.value + sleep) % SecondsPerDay == WakeSeconds(wakeUp) % SecondsPerDay
  {
    match predict(WakeSeconds(wakeUp), sleepQuarters, coffeeAmount)
    case None => None
    case Some(sleep) => Some(BedtimeOfDay(WakeSeconds(wakeUp), sleep))
  }

  const SuccessTitle: string := "Your ideal sleep time is…"
  const FailureTitle: string := "Something went wrong"
  const FailureText: string := "There was an error when calculating sleep time."

  datatype Alert = Alert(title: string, text: string)

  /** The alert for an estimate: the bedtime on success, the fixed failure message otherwise. */
  function AlertFor(bedtime: Option<int>): (alert: Alert)
    requires bedtime.Some? ==> 0 <= bedtime.value < SecondsPerDay
    ensures alert.title == FailureTitle <==> bedtime.None?
    ensures bedtime.None? ==> alert.text == FailureText
    ensures bedtime.Some? ==> alert.title == SuccessTitle
    ensures bedtime.Some? ==> ReadShortTime(alert.text) == Some(bedtime.value / 60)
  {
    match bedtime
    case Some(b) => Alert(SuccessTitle, ShortTime(b))
    case None => Alert(FailureTitle, FailureText)
  }

  // ---------------------------------------------------------------------------
  // The view's state
  // ---------------------------------------------------------------------------

  class ContentView {
    var wakeUp: WakeTime
    var sleepQuarters: int
    var coffeeAmount: int

    var alertTitle: string
    var alertText: string
    var showAlert: bool

    constructor ()
      ensures wakeUp == DefaultWakeTime && sleepQuarters == 32 && coffeeAmount == 1
      ensures alertTitle == "" && alertText == "" && !showAlert
    {
      wakeUp := DefaultWakeTime;
      sleepQuarters := 32;
      coffeeAmount := 1;
      alertTitle, alertText, showAlert := "", "", false;
    }

    /**
     * `calculateMinuteText(forTime:)`: the label is made from the sleep-amount
     * field; the argument is not read.
     */
    function CalculateMinuteText(forTime: int): (caption: string)
      reads this
      requires InSleepRange(sleepQuarters)
      ensures caption == MinuteLabel(sleepQuarters)
      ensures ReadMinuteLabel(caption) == Some(sleepQuarters)
    {
      ReadMinuteLabelRoundTrip(sleepQuarters);
      SplitMinuteText(sleepQuarters).value
    }

    /**
     * `calculateBedTime`: fills the alert with the bedtime or the failure
     * message, then raises it; nothing else changes.
     */
    method CalculateBedTime(predict: (int, int, int) -> Option<int>)
      modifies this`alertTitle, this`alertText, this`showAlert
      ensures showAlert
      ensures Alert(alertTitle, alertText) == AlertFor(EstimateBedtime(wakeUp, sleepQuarters, coffeeAmount, predict))
      ensures wakeUp == old(wakeUp) && sleepQuarters == old(sleepQuarters) && coffeeAmount == old(coffeeAmount)
    {
      var wakeSeconds := WakeSeconds(wakeUp);
      var prediction := predict(wakeSeconds, sleepQuarters, coffeeAmount);
      if prediction.Some? {
        var sleepTime := BedtimeOfDay(wakeSeconds, prediction.value);
        alertTitle := SuccessTitle;
        alertText := ShortTime(sleepTime);
      } else {
        alertTitle := FailureTitle;
        alertText := FailureText;
      }
      showAlert := true;
    }
  }

  /** Waking at 00:10 after a predicted eight hours means going to bed at 16:10 the day before. */
  lemma MidnightRollover()
    ensures var wake := WakeSeconds(WakeTime(Some(0), Some(10)));
            wake - 8 * 3600 < 0 && ShortTime(BedtimeOfDay(wake, 8 * 3600)) == "16:10"
  {
  }
}
