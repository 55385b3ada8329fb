/** The access window of a hotspot plan: hours, router uptime seconds, calendar expiry.
    Durations are microseconds. `fl` is the machine's rounding of a float operation. */
module PlanWindow {
  import opened Wrappers
  import opened Binary64

  datatype Plan = Plan(durationMinutes: Option<int>, validityDays: Option<int>, timeLimit: Option<int>)

  /** A Python number: a float, or an exact int. */
  datatype Hours = Float(h: real) | Whole(n: int)

  const MICROS_PER_HOUR := 3600000000
  const MICROS_PER_DAY := 86400000000
  const MAX_DATETIME := 315537897599999999 // 9999-12-31T23:59:59.999999, from year 1

  function Positive(field: Option<int>): bool {
    field.Some? && field.value > 0
  }

  function OrZero(field: Option<int>): int {
    if field.Some? then field.value else 0
  }

  function AccessWindowHours(p: Plan, fl: real -> real): Hours {
    if Positive(p.durationMinutes) then Float(fl(p.durationMinutes.value as real / 60.0))
    else
      var hours := OrZero(p.validityDays) * 24;
      if !Positive(p.timeLimit) then Whole(hours)
      else if hours > 0 then Whole(if hours <= p.timeLimit.value then hours else p.timeLimit.value)
      else Whole(p.timeLimit.value)
  }

  /** Python's round(): nearest integer, a half goes to the even one. */
  function Round(x: real): int {
    var below := x.Floor;
    var rest := x - below as real;
    if rest < 0.5 || (rest == 0.5 && below % 2 == 0) then below else below + 1
  }

  function LimitUptimeSeconds(p: Plan, fl: real -> real): int {
    match AccessWindowHours(p, fl)
    case Float(h) => if h <= 0.0 then 0 else Round(fl(h * 3600.0))
    case Whole(n) => if n <= 0 then 0 else n * 3600
  }

  /** timedelta(hours=...): exact for an int; for a float the whole hours are exact, the
      fraction goes through one float multiplication, and the sum is rounded to a microsecond. */
  function Timedelta(hours: Hours, fl: real -> real): int {
    match hours
    case Whole(n) => n * MICROS_PER_HOUR
    case Float(h) =>
      var whole := h.Floor;
      Round((whole * MICROS_PER_HOUR) as real + fl(MICROS_PER_HOUR as real * (h - whole as real)))
  }

  datatype Overflow = Overflow

  function AddTo(activatedAt: int, delta: int): Result<Option<int>, Overflow> {
    if activatedAt + delta > MAX_DATETIME then Err(Overflow) else Ok(Some(activatedAt + delta))
  }

  function Finite(hours: Hours): bool {
    match hours
    case Float(h) => h > 0.0
    case Whole(n) => n > 0
  }

  function AccessExpiryFrom(p: Plan, activatedAt: int, churnDays: Option<int>, fl: real -> real)
    : Result<Option<int>, Overflow>
  {
    var hours := AccessWindowHours(p, fl);
    if Finite(hours) then AddTo(activatedAt, Timedelta(hours, fl))
    else if Positive(churnDays) then AddTo(activatedAt, churnDays.value * MICROS_PER_DAY)
    else Ok(None)
  }

  // ---------------------------------------------------------------- exactness

  /** The window in seconds as the plan's fields mean it; 0 for none. */
  function MeantSeconds(p: Plan): int {
    var validity := if p.validityDays == None then 0 else p.validityDays.value * 86400;
    var limit := if p.timeLimit == None then 0 else p.timeLimit.value * 3600;
    if p.durationMinutes.Some? && p.durationMinutes.value >= 1 then p.durationMinutes.value * 60
    else if validity > 0 && limit > 0 then if validity <= limit then validity else limit
    else if validity > 0 then validity
    else if limit > 0 then limit
    else 0
  }

  const INT32_LIMIT := 0x8000_0000

  /** Columns are 32-bit integers. */
  predicate Int32(p: Plan) {
    p.durationMinutes.Some? ==> -INT32_LIMIT <= p.durationMinutes.value < INT32_LIMIT
  }

  lemma Powers()
    ensures Pow2(-6) == 1.0 / 64.0 && Pow2(44) == 17592186044416.0 && Pow2(100) >= Pow2(44)
  {
    assert Pow2(-3) == 1.0 / 8.0;
    assert Pow2(11) == 2048.0;
    Join(11, 11);
    Join(22, 22);
    Join(44, 56);
    AtLeastOne(56);
  }

  lemma {:induction false} Join(a: nat, b: nat)
    ensures Pow2(a + b) == Pow2(a) * Pow2(b)
  {
    if b > 0 {
      Join(a, b - 1);
    }
  }

  lemma {:induction false} AtLeastOne(n: nat)
    ensures Pow2(n) >= 1.0
  {
    if n > 0 {
      AtLeastOne(n - 1);
    }
  }

  const U: real := 1.0 / 9007199254740992.0

  /** One rounded operation on a value between 1/64 and 2^44. */
  lemma Rounded(x: real, fl: real -> real)
    requires Rounding(fl) && 1.0 / 64.0 <= x < 17592186044416.0
    ensures x - x * U <= fl(x) <= x + x * U
  {
    Powers();
    RelativeError(x, fl(x), -6, 44);
  }

  lemma RoundNear(x: real, n: int)
    requires n as real - 0.5 < x < n as real + 0.5
    ensures Round(x) == n
  {
  }

  /** The hours of a duration, within a relative error of 2^-53. */
  lemma DurationHours(d: int, fl: real -> real)
    requires Rounding(fl) && 0 < d < INT32_LIMIT
    ensures var h := fl(d as real / 60.0);
            && h > 0.0
            && 60.0 * h <= d as real + d as real * U
            && 60.0 * h >= d as real - d as real * U
  {
    Rounded(d as real / 60.0, fl);
  }

  lemma DurationSeconds(d: int, fl: real -> real)
    requires Rounding(fl) && 0 < d < INT32_LIMIT
    ensures Round(fl(fl(d as real / 60.0) * 3600.0)) == 60 * d
  {
    DurationHours(d, fl);
    var h := fl(d as real / 60.0);
    Rounded(h * 3600.0, fl);
    RoundNear(fl(h * 3600.0), 60 * d);
  }

  /** The router's uptime limit is exactly the window the plan means, for every duration a
      32-bit column holds: two float roundings never move it by a second. */
  lemma UptimeExact(p: Plan, fl: real -> real)
    requires Rounding(fl) && Int32(p)
    ensures LimitUptimeSeconds(p, fl) == MeantSeconds(p)
  {
    if Positive(p.durationMinutes) {
      DurationHours(p.durationMinutes.value, fl);
      DurationSeconds(p.durationMinutes.value, fl);
    }
  }

  lemma FractionMicros(h: real, fl: real -> real)
    requires Rounding(fl) && h >= 0.0
    ensures var exact := MICROS_PER_HOUR as real * h;
            exact - 1.0 <= Timedelta(Float(h), fl) as real <= exact + 1.0
  {
    Powers();
    var whole := h.Floor;
    var x := MICROS_PER_HOUR as real * (h - whole as real);
    AbsoluteError(x, fl(x));
    var sum := (whole * MICROS_PER_HOUR) as real + fl(x);
    assert MICROS_PER_HOUR as real * h - 0.5 <= sum <= MICROS_PER_HOUR as real * h + 0.5;
  }

  function NearestSecond(micros: int): int {
    Round(micros as real / 1000000.0)
  }

  lemma SecondOf(micros: int, n: int)
    requires -500000 < micros - n * 1000000 < 500000
    ensures NearestSecond(micros) == n
  {
    var x := micros as real / 1000000.0;
    assert x * 1000000.0 == micros as real;
    RoundNear(x, n);
  }

  /** How far, in microseconds, the float hours of a duration can carry the expiry. */
  const DRIFT := 16

  lemma DurationMicros(d: int, fl: real -> real)
    requires Rounding(fl) && 0 < d < INT32_LIMIT
    ensures -DRIFT <= Timedelta(Float(fl(d as real / 60.0)), fl) - d * 60000000 <= DRIFT
  {
    var h := fl(d as real / 60.0);
    DurationHours(d, fl);
    FractionMicros(h, fl);
    var micros := Timedelta(Float(h), fl);
    assert d as real * U <= 0.25 / 1000000.0;
    assert MICROS_PER_HOUR as real * h == 60000000.0 * (60.0 * h);
  }

  function Drift(p: Plan): int {
    if Positive(p.durationMinutes) then DRIFT else 0
  }

  lemma WindowMicros(p: Plan, fl: real -> real)
    requires Rounding(fl) && Int32(p)
    ensures var hours := AccessWindowHours(p, fl);
            && (Finite(hours) <==> MeantSeconds(p) > 0)
            && (Finite(hours) ==> -Drift(p) <= Timedelta(hours, fl) - MeantSeconds(p) * 1000000 <= Drift(p))
  {
    if Positive(p.durationMinutes) {
      DurationHours(p.durationMinutes.value, fl);
      DurationMicros(p.durationMinutes.value, fl);
    }
  }

  predicate AtLeastADay(days: Option<int>) {
    days.Some? && days.value >= 1
  }

  /** The calendar expiry agrees with the uptime limit: to the nearest second, and within
      16 microseconds, for a plan with a duration; to the microsecond otherwise. There is
      no expiry exactly when there is neither a window nor a churn fallback. */
  lemma ExpiryAgrees(p: Plan, activatedAt: int, churnDays: Option<int>, fl: real -> real)
    requires Rounding(fl) && Int32(p)
    ensures var seconds := LimitUptimeSeconds(p, fl);
            match AccessExpiryFrom(p, activatedAt, churnDays, fl)
            case Err(_) => seconds > 0 || AtLeastADay(churnDays)
            case Ok(None) => seconds == 0 && !AtLeastADay(churnDays)
            case Ok(Some(t)) =>
              if seconds == 0 then
                AtLeastADay(churnDays) && t - activatedAt == churnDays.value * 86400 * 1000000
              else
                && NearestSecond(t - activatedAt) == seconds
                && -16 <= t - activatedAt - seconds * 1000000 <= 16
                && (p.durationMinutes == None || p.durationMinutes.value < 1 ==>
                      t - activatedAt == seconds * 1000000)
  {
    UptimeExact(p, fl);
    WindowMicros(p, fl);
    var hours := AccessWindowHours(p, fl);
    if Finite(hours) {
      SecondOf(Timedelta(hours, fl), MeantSeconds(p));
    }
  }

  /** The window that binds, in seconds: the plan's, or else the churn fallback. */
  function BindingSeconds(p: Plan, churnDays: Option<int>): int {
    if MeantSeconds(p) > 0 then MeantSeconds(p)
    else if AtLeastADay(churnDays) then churnDays.value * 86400
    else 0
  }

  /** The addition overflows exactly when the expiry falls after the last representable
      time. For a plan without a duration that is the exact expiry; a duration's is at most
      16 microseconds away from it. */
  lemma ExpiryOverflow(p: Plan, activatedAt: int, churnDays: Option<int>, fl: real -> real)
    requires Rounding(fl) && Int32(p)
    ensures var seconds := BindingSeconds(p, churnDays);
            var overflows := AccessExpiryFrom(p, activatedAt, churnDays, fl).Err?;
            && (p.durationMinutes == None || p.durationMinutes.value < 1 ==>
                  (overflows <==> seconds > 0 && activatedAt + seconds * 1000000 > 315537897599999999))
            && (overflows ==> seconds > 0 && activatedAt + seconds * 1000000 + 16 > 315537897599999999)
            && (seconds > 0 && activatedAt + seconds * 1000000 - 16 > 315537897599999999 ==> overflows)
  {
    WindowMicros(p, fl);
  }

  /** The conclusions above are about something: a rounding exists. */
  lemma SomeMachine(p: Plan) returns (fl: real -> real)
    requires Int32(p)
    ensures Rounding(fl) && LimitUptimeSeconds(p, fl) == MeantSeconds(p)
  {
    fl := RoundingExists();
    UptimeExact(p, fl);
  }
}
