/**
 * Model of the dial functions of main.go: `setTime`, `setWeather`,
 * `testMode`, `getCurrentWeather`, and the body that `clockMode` and
 * `weatherMode` run at start and on every tick, where any error is a panic.
 *
 * Every write goes through `Rpi.AnalogWrite`, so the `Pigs` record holds
 * exactly the (pin, clamped duty) pairs the dials receive, in order.
 */
module Dials {
  import opened Wrappers
  import Rpi
  import Weather

  const Dial1Pin := 17
  const Dial2Pin := 27
  const Dial3Pin := 22

  /** The duty `testMode` writes on every dial. */
  const TestDuty := 240

  /** A raw `rpi.AnalogWrite(pin, value)` call. */
  datatype Request = Request(pin: int, value: int)

  /** What the PWM utility receives for a request. */
  function Delivered(r: Request): Rpi.Write {
    Rpi.Write(r.pin, Rpi.Clamp(r.value))
  }

  /** The quantity a write sets; it names the wrapped error
      ("Error setting hour: ..."). */
  datatype Field = Hour | Minute | Second | Temperature | Humidity | Precipitation

  datatype SetError = SetError(field: Field, cause: Rpi.WriteError)

  // ---------------------------------------------------------------------
  // Writes that stop at the first failure

  /** Among `n` attempts numbered from `start`, the position of the first
      that fails. */
  function FirstFailure(n: nat, start: nat, fails: set<nat>): (f: Option<nat>)
    ensures f.Some? ==> f.value < n && start + f.value in fails
    ensures f.Some? ==> forall j :: start <= j < start + f.value ==> j !in fails
    ensures f.None? ==> forall j :: start <= j < start + n ==> j !in fails
  {
    if n == 0 then None
    else if start in fails then Some(0)
    else match FirstFailure(n - 1, start + 1, fails)
      case Some(i) => Some(i + 1)
      case None => None
  }

  /** The writes issued when `reqs` are sent in order from attempt `start`,
      returning as soon as one fails. */
  function Issued(reqs: seq<Request>, start: nat, fails: set<nat>): (ws: seq<Rpi.Write>)
    ensures |ws| <= |reqs|
    ensures reqs != [] ==> |ws| >= 1
  {
    if reqs == [] then []
    else [Delivered(reqs[0])] + (if start in fails then [] else Issued(reqs[1..], start + 1, fails))
  }

  /** The error returned by such a sequence: the first failing write's,
      wrapped with the quantity it was setting. */
  function Failed(fields: seq<Field>, reqs: seq<Request>, start: nat, fails: set<nat>): Option<SetError>
    requires |fields| == |reqs|
  {
    match FirstFailure(|reqs|, start, fails)
    case None => None
    case Some(i) => Some(SetError(fields[i], Rpi.CommandFailed(reqs[i].pin, Rpi.Clamp(reqs[i].value))))
  }

  /** The writes issued are the clamped requests, up to and including the
      first failing one; none after it is attempted. */
  lemma {:induction false} IssuedUpToFirstFailure(reqs: seq<Request>, start: nat, fails: set<nat>)
    ensures var k := match FirstFailure(|reqs|, start, fails) case Some(i) => i + 1 case None => |reqs|;
      && |Issued(reqs, start, fails)| == k
      && forall i :: 0 <= i < k ==> Issued(reqs, start, fails)[i] == Delivered(reqs[i])
  {
    if reqs != [] && start !in fails {
      IssuedUpToFirstFailure(reqs[1..], start + 1, fails);
    }
  }

  /** The three cases of a three-write sequence. */
  lemma ThreeWrites(reqs: seq<Request>, start: nat, fails: set<nat>)
    requires |reqs| == 3
    ensures Issued(reqs, start, fails)
         == if start in fails then [Delivered(reqs[0])]
            else if start + 1 in fails then [Delivered(reqs[0]), Delivered(reqs[1])]
            else [Delivered(reqs[0]), Delivered(reqs[1]), Delivered(reqs[2])]
    ensures FirstFailure(3, start, fails)
         == if start in fails then Some(0)
            else if start + 1 in fails then Some(1)
            else if start + 2 in fails then Some(2)
            else None
  {
    assert reqs[1..][0] == reqs[1] && reqs[1..][1..] == [reqs[2]] && [reqs[2]][1..] == [];
    assert Issued([reqs[2]], start + 2, fails) == [Delivered(reqs[2])];
  }

  // ---------------------------------------------------------------------
  // setTime

  function TimeRequests(hour: int, min: int, sec: int): seq<Request> {
    [Request(Dial1Pin, hour * 10), Request(Dial2Pin, min * 4), Request(Dial3Pin, sec * 4)]
  }

  const TimeFields := [Hour, Minute, Second]

  /** `setTime(hour, min, sec)`. */
  method SetTime(pigs: Rpi.Pigs, hour: int, min: int, sec: int) returns (err: Option<SetError>)
    modifies pigs
    ensures pigs.attempts == old(pigs.attempts) + Issued(TimeRequests(hour, min, sec), old(|pigs.attempts|), pigs.fails)
    ensures err == Failed(TimeFields, TimeRequests(hour, min, sec), old(|pigs.attempts|), pigs.fails)
  {
    ThreeWrites(TimeRequests(hour, min, sec), |pigs.attempts|, pigs.fails);
    var e := Rpi.AnalogWrite(pigs, Dial1Pin, hour * 10);
    if e.Some? {
      return Some(SetError(Hour, e.value));
    }
    e := Rpi.AnalogWrite(pigs, Dial2Pin, min * 4);
    if e.Some? {
      return Some(SetError(Minute, e.value));
    }
    e := Rpi.AnalogWrite(pigs, Dial3Pin, sec * 4);
    if e.Some? {
      return Some(SetError(Second, e.value));
    }
    err := None;
  }

  /** For a real time of day every value lies in 0..236, so the clamp
      never alters it. */
  lemma TimeNeedsNoClamp(hour: int, min: int, sec: int, i: nat)
    requires 0 <= hour <= 23 && 0 <= min <= 59 && 0 <= sec <= 59 && i < 3
    ensures 0 <= TimeRequests(hour, min, sec)[i].value <= 236
    ensures Delivered(TimeRequests(hour, min, sec)[i]).duty == TimeRequests(hour, min, sec)[i].value
  {
  }

  lemma TimeExamples(fails: set<nat>)
    requires 0 !in fails && 1 !in fails && 2 !in fails
    ensures Issued(TimeRequests(23, 59, 0), 0, fails) == [Rpi.Write(17, 230), Rpi.Write(27, 236), Rpi.Write(22, 0)]
    ensures Issued(TimeRequests(0, 0, 0), 0, fails) == [Rpi.Write(17, 0), Rpi.Write(27, 0), Rpi.Write(22, 0)]
  {
    ThreeWrites(TimeRequests(23, 59, 0), 0, fails);
    ThreeWrites(TimeRequests(0, 0, 0), 0, fails);
    Rpi.ClampCases(230);
    Rpi.ClampCases(236);
    Rpi.ClampCases(0);
  }

  // ---------------------------------------------------------------------
  // setWeather

  /** `int(float64(x) * 2.4)`, taken as exact arithmetic truncated toward
      zero: the integer part of 12x/5. */
  function Scale(x: int): (r: int)
    ensures x >= 0 ==> 0 <= 5 * r <= 12 * x < 5 * r + 5
    ensures x < 0 ==> 5 * r - 5 < 12 * x <= 5 * r <= 0
  {
    if x >= 0 then x * 12 / 5 else -((-x) * 12 / 5)
  }

  function WeatherRequests(tempF: int, hum: int, precipitation: int): seq<Request> {
    [Request(Dial1Pin, Scale(tempF)), Request(Dial2Pin, Scale(hum)), Request(Dial3Pin, Scale(precipitation))]
  }

  const WeatherFields := [Temperature, Humidity, Precipitation]

  /** `setWeather(tempF, hum, precipitation)`. */
  method SetWeather(pigs: Rpi.Pigs, tempF: int, hum: int, precipitation: int) returns (err: Option<SetError>)
    modifies pigs
    ensures pigs.attempts == old(pigs.attempts)
      + Issued(WeatherRequests(tempF, hum, precipitation), old(|pigs.attempts|), pigs.fails)
    ensures err == Failed(WeatherFields, WeatherRequests(tempF, hum, precipitation), old(|pigs.attempts|), pigs.fails)
  {
    ThreeWrites(WeatherRequests(tempF, hum, precipitation), |pigs.attempts|, pigs.fails);
    var e := Rpi.AnalogWrite(pigs, Dial1Pin, Scale(tempF));
    if e.Some? {
      return Some(SetError(Temperature, e.value));
    }
    e := Rpi.AnalogWrite(pigs, Dial2Pin, Scale(hum));
    if e.Some? {
      return Some(SetError(Humidity, e.value));
    }
    e := Rpi.AnalogWrite(pigs, Dial3Pin, Scale(precipitation));
    if e.Some? {
      return Some(SetError(Precipitation, e.value));
    }
    err := None;
  }

  /** Percentages scale into 0..240 untouched by the clamp; any negative
      reading (a temperature below 0 °F) reaches the dial as 0. */
  lemma ScaleRange(x: int)
    ensures 0 <= x <= 100 ==> 0 <= Scale(x) <= 240 && Rpi.Clamp(Scale(x)) == Scale(x)
    ensures x < 0 ==> Rpi.Clamp(Scale(x)) == 0
  {
  }

  lemma WeatherExamples(fails: set<nat>)
    requires 0 !in fails && 1 !in fails && 2 !in fails
    ensures Issued(WeatherRequests(40, 100, 100), 0, fails) == [Rpi.Write(17, 96), Rpi.Write(27, 240), Rpi.Write(22, 240)]
    ensures Issued(WeatherRequests(-20, 0, 0), 0, fails) == [Rpi.Write(17, 0), Rpi.Write(27, 0), Rpi.Write(22, 0)]
  {
    ThreeWrites(WeatherRequests(40, 100, 100), 0, fails);
    ThreeWrites(WeatherRequests(-20, 0, 0), 0, fails);
    Rpi.ClampCases(96);
    Rpi.ClampCases(240);
    Rpi.ClampCases(Scale(-20));
    Rpi.ClampCases(0);
  }

  // ---------------------------------------------------------------------
  // testMode

  /** The errors of the requests whose attempts fail, in order. */
  function Failures(reqs: seq<Request>, start: nat, fails: set<nat>): (errs: seq<Rpi.WriteError>)
    ensures |errs| <= |reqs|
  {
    if reqs == [] then []
    else
      var last := reqs[|reqs| - 1];
      Failures(reqs[..|reqs| - 1], start, fails)
        + (if start + |reqs| - 1 in fails then [Rpi.CommandFailed(last.pin, Rpi.Clamp(last.value))] else [])
  }

  /** `testMode`: 240 on every dial; a failure is only logged (the returned
      errors) and the remaining dials are still written. */
  method TestMode(pigs: Rpi.Pigs) returns (logged: seq<Rpi.WriteError>)
    modifies pigs
    ensures pigs.attempts == old(pigs.attempts) + [Rpi.Write(Dial1Pin, TestDuty), Rpi.Write(Dial2Pin, TestDuty), Rpi.Write(Dial3Pin, TestDuty)]
    ensures logged == Failures(
      [Request(Dial1Pin, TestDuty), Request(Dial2Pin, TestDuty), Request(Dial3Pin, TestDuty)], old(|pigs.attempts|), pigs.fails)
  {
    var pins := [Dial1Pin, Dial2Pin, Dial3Pin];
    ghost var reqs := [Request(Dial1Pin, TestDuty), Request(Dial2Pin, TestDuty), Request(Dial3Pin, TestDuty)];
    ghost var start := |pigs.attempts|;
    logged := [];
    for i := 0 to |pins|
      invariant pigs.attempts == old(pigs.attempts) + seq(i, k requires 0 <= k < i => Rpi.Write(pins[k], TestDuty))
      invariant logged == Failures(reqs[..i], start, pigs.fails)
    {
      Rpi.ClampCases(TestDuty);
      var e := Rpi.AnalogWrite(pigs, pins[i], TestDuty);
      assert reqs[..i + 1][..i] == reqs[..i];
      if e.Some? {
        logged := logged + [e.value];
      }
    }
    assert reqs[..3] == reqs;
  }

  // ---------------------------------------------------------------------
  // getCurrentWeather and the mode tasks

  /** The location the clock displays. */
  const Home := Weather.Location("NJ", "Hoboken")

  /** `getCurrentWeather(client)`: the current conditions for Home as
      (tempF, tempC, hum, precipitation), all zero beside an error. */
  method GetCurrentWeather(client: Weather.WUClient, fetch: Weather.Fetch)
    returns (tempF: int, tempC: int, hum: int, precipitation: int, err: Option<Weather.Error>)
    ensures var f := fetch(Weather.RequestUrl(client.apiKey, Home));
      && (f.Failure? ==> err == Some(Weather.HourlyFailed(f.error)))
      && (f == Success([]) ==> err == Some(Weather.EmptyForecast))
      && (err.Some? ==> tempF == tempC == hum == precipitation == 0)
      && (f.Success? && f.value != [] ==>
           && err.None?
           && tempF == f.value[0].temp.english && tempC == f.value[0].temp.metric
           && hum == f.value[0].humidity && precipitation == f.value[0].pop)
  {
    var current := client.Current(Home, fetch);
    if current.Failure? {
      return 0, 0, 0, 0, Some(current.error);
    }
    var c := current.value;
    return c.tempF, c.tempC, c.humidity, c.precipitation, None;
  }

  /** Why a mode task panics. */
  datatype Fatal =
    | TimeNotSet(setError: SetError)             // "error setting time: ..."
    | MissingApiKey                              // "WU_API_KEY must be set"
    | WeatherUnavailable(error: Weather.Error)   // getCurrentWeather failed
    | WeatherNotSet(setError: SetError)          // "error settint weather conditions: ..."

  /** What `clockMode` does at start and on every tick: show the time,
      panicking if a write fails. */
  method ClockRefresh(pigs: Rpi.Pigs, hour: int, min: int, sec: int) returns (fatal: Option<Fatal>)
    modifies pigs
    ensures pigs.attempts == old(pigs.attempts) + Issued(TimeRequests(hour, min, sec), old(|pigs.attempts|), pigs.fails)
    ensures fatal.Some? <==> FirstFailure(3, old(|pigs.attempts|), pigs.fails).Some?
    ensures fatal.Some? ==> fatal.value.TimeNotSet?
  {
    var err := SetTime(pigs, hour, min, sec);
    fatal := if err.Some? then Some(TimeNotSet(err.value)) else None;
  }

  /** The effect of one weather refresh with the key `apiKey`: a failed or
      empty fetch is fatal before anything is written; otherwise the first
      hourly entry is shown, and a failed write is fatal. */
  ghost predicate WeatherShown(before: seq<Rpi.Write>, after: seq<Rpi.Write>, fails: set<nat>,
                               apiKey: string, fetch: Weather.Fetch, fatal: Option<Fatal>)
  {
    var f := fetch(Weather.RequestUrl(apiKey, Home));
    && (f.Failure? || f == Success([]) ==> fatal.Some? && fatal.value.WeatherUnavailable? && after == before)
    && (f.Success? && f.value != [] ==>
         var e := f.value[0];
         && after == before + Issued(WeatherRequests(e.temp.english, e.humidity, e.pop), |before|, fails)
         && (fatal.Some? <==> FirstFailure(3, |before|, fails).Some?)
         && (fatal.Some? ==> fatal.value.WeatherNotSet?))
  }

  /** What `weatherMode` does at start and on every tick: fetch the current
      conditions and show them, panicking on any failure. */
  method WeatherRefresh(pigs: Rpi.Pigs, client: Weather.WUClient, fetch: Weather.Fetch) returns (fatal: Option<Fatal>)
    modifies pigs
    ensures WeatherShown(old(pigs.attempts), pigs.attempts, pigs.fails, client.apiKey, fetch, fatal)
  {
    var tempF, _, hum, precipitation, err := GetCurrentWeather(client, fetch);
    if err.Some? {
      return Some(WeatherUnavailable(err.value));
    }
    var setErr := SetWeather(pigs, tempF, hum, precipitation);
    fatal := if setErr.Some? then Some(WeatherNotSet(setErr.value)) else None;
  }

  /** The start of `weatherMode`: an empty API key is fatal before anything
      is fetched or written; otherwise the first refresh. */
  method StartWeather(pigs: Rpi.Pigs, apiKey: string, fetch: Weather.Fetch) returns (fatal: Option<Fatal>)
    modifies pigs
    ensures apiKey == "" ==> fatal == Some(MissingApiKey) && pigs.attempts == old(pigs.attempts)
    ensures apiKey != "" ==> WeatherShown(old(pigs.attempts), pigs.attempts, pigs.fails, apiKey, fetch, fatal)
  {
    if apiKey == "" {
      return Some(MissingApiKey);
    }
    fatal := WeatherRefresh(pigs, Weather.WUClient(apiKey), fetch);
  }
}
