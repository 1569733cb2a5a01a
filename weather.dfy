/**
 * Model of package weather (weather/weather.go, weather/wu.go): the types,
 * the request URL of the Weather Underground client, the conversion of the
 * decoded hourly entries into `Conditions`, and `Current`.
 *
 * The HTTP GET and the JSON decoding are one abstract input, `fetch`: given
 * the request URL it yields the decoded hourly entries or an error.
 */
module Weather {
  import opened Wrappers

  datatype Location = Location(state: string, city: string)

  datatype Conditions = Conditions(tempC: int, tempF: int, humidity: int, precipitation: int)

  datatype HourlyForecast = HourlyForecast(conditions: seq<Conditions>)

  /** One decoded element of `hourly_forecast`: the fields the client keeps. */
  datatype Temp = Temp(english: int, metric: int)
  datatype HourlyEntry = HourlyEntry(temp: Temp, humidity: int, pop: int)

  datatype Error =
    | FetchFailed(message: string)   // the GET or the decoding failed
    | HourlyFailed(cause: Error)     // "could not get hourly conditions: ..."
    | EmptyForecast                  // "could not get current conditions, empty forecast"

  /** The network and the decoder: entries for a URL, or an error. */
  type Fetch = string -> Result<seq<HourlyEntry>, Error>

  // ---------------------------------------------------------------------
  // fmt.Sprintf, for formats whose only verb is %s

  /** The number of `%s` verbs in `format`, or None if a `%` starts any
      other verb. */
  function StringVerbs(format: string): Option<nat> {
    if format == [] then Some(0)
    else if format[0] == '%' then
      if |format| >= 2 && format[1] == 's' then
        match StringVerbs(format[2..])
        case Some(n) => Some(n + 1)
        case None => None
      else None
    else StringVerbs(format[1..])
  }

  /** `fmt.Sprintf(format, args...)` for string arguments, one per `%s`. */
  function Sprintf(format: string, args: seq<string>): string
    requires StringVerbs(format) == Some(|args|)
  {
    if format == [] then []
    else if format[0] == '%' then args[0] + Sprintf(format[2..], args[1..])
    else [format[0]] + Sprintf(format[1..], args)
  }

  /** Text without a `%` adds no verb ... */
  lemma {:induction false} LiteralVerbs(lit: string, rest: string)
    requires '%' !in lit
    ensures StringVerbs(lit + rest) == StringVerbs(rest)
  {
    if lit == [] {
      assert lit + rest == rest;
    } else {
      var s := lit + rest;
      assert s[0] == lit[0] && s[1..] == lit[1..] + rest;
      assert lit[0] in lit;
      LiteralVerbs(lit[1..], rest);
    }
  }

  /** ... and passes through Sprintf unchanged. */
  lemma {:induction false} LiteralPrefix(lit: string, rest: string, args: seq<string>)
    requires '%' !in lit && StringVerbs(rest) == Some(|args|)
    ensures StringVerbs(lit + rest) == Some(|args|)
    ensures Sprintf(lit + rest, args) == lit + Sprintf(rest, args)
  {
    LiteralVerbs(lit, rest);
    if lit == [] {
      assert lit + rest == rest;
    } else {
      var s := lit + rest;
      var tail := lit[1..];
      assert lit[0] in lit;
      assert s[0] == lit[0] != '%' && s[1..] == tail + rest;
      assert '%' !in tail by {
        assert forall k :: 0 <= k < |tail| ==> tail[k] == lit[k + 1];
      }
      LiteralPrefix(tail, rest, args);
      assert Sprintf(s, args) == [lit[0]] + Sprintf(tail + rest, args);
      assert lit == [lit[0]] + tail;
    }
  }

  /** A `%s` verb takes the next argument verbatim. */
  lemma VerbPrefix(rest: string, arg: string, args: seq<string>)
    requires StringVerbs(rest) == Some(|args|)
    ensures StringVerbs("%s" + rest) == Some(|args| + 1)
    ensures Sprintf("%s" + rest, [arg] + args) == arg + Sprintf(rest, args)
  {
  }

  const ApiRoot := "http://api.wunderground.com/api/"
  const HourlyPath := "/hourly/q/"
  const JsonSuffix := ".json"

  /** The `url` constant of wu.go. */
  const UrlFormat: string := ApiRoot + "%s" + HourlyPath + "%s" + "/" + "%s" + JsonSuffix

  /** `fmt.Sprintf(url, c.apiKey, loc.State, loc.City)`: the three values
      dropped into the template in order, whatever characters they hold. */
  function RequestUrl(apiKey: string, loc: Location): (u: string)
    ensures u == ApiRoot + apiKey + HourlyPath + loc.state + "/" + loc.city + JsonSuffix
  {
    UrlFormatVerbs(apiKey, loc);
    Sprintf(UrlFormat, [apiKey, loc.state, loc.city])
  }

  lemma UrlFormatVerbs(apiKey: string, loc: Location)
    ensures StringVerbs(UrlFormat) == Some(3)
    ensures Sprintf(UrlFormat, [apiKey, loc.state, loc.city])
         == ApiRoot + apiKey + HourlyPath + loc.state + "/" + loc.city + JsonSuffix
  {
    NoVerbInLiterals();
    ThreeVerbs(ApiRoot, HourlyPath, "/", JsonSuffix, apiKey, loc.state, loc.city);
    assert UrlFormat == ApiRoot + ("%s" + (HourlyPath + ("%s" + ("/" + ("%s" + JsonSuffix)))));
  }

  lemma NoVerbInLiterals()
    ensures '%' !in ApiRoot && '%' !in HourlyPath && '%' !in "/" && '%' !in JsonSuffix
  {
  }

  /** A literal piece and a `%s` verb in front of a template. */
  lemma PieceAndVerb(lit: string, rest: string, arg: string, args: seq<string>)
    requires '%' !in lit && StringVerbs(rest) == Some(|args|)
    ensures StringVerbs(lit + ("%s" + rest)) == Some(|args| + 1)
    ensures Sprintf(lit + ("%s" + rest), [arg] + args) == lit + (arg + Sprintf(rest, args))
  {
    VerbPrefix(rest, arg, args);
    LiteralPrefix(lit, "%s" + rest, [arg] + args);
  }

  /** Text without a `%` is a template with no verb, printed as it is. */
  lemma LiteralOnly(lit: string)
    requires '%' !in lit
    ensures StringVerbs(lit) == Some(0)
    ensures Sprintf(lit, []) == lit
  {
    LiteralPrefix(lit, [], []);
    assert lit + [] == lit;
  }

  /** A literal piece and a `%s` verb in front of a template whose output is
      already known. */
  lemma VerbStep(lit: string, rest: string, out: string, arg: string, args: seq<string>)
    requires '%' !in lit && StringVerbs(rest) == Some(|args|) && Sprintf(rest, args) == out
    ensures StringVerbs(lit + ("%s" + rest)) == Some(|args| + 1)
    ensures Sprintf(lit + ("%s" + rest), [arg] + args) == lit + (arg + out)
  {
    PieceAndVerb(lit, rest, arg, args);
  }

  /** Three arguments, taken one at a time from the front. */
  lemma ThreeArgs(a: string, b: string, c: string)
    ensures [c] + [] == [c] && [b] + [c] == [b, c] && [a] + [b, c] == [a, b, c]
  {
  }

  /** A template of three `%s` verbs between literal pieces. */
  lemma ThreeVerbs(p0: string, p1: string, p2: string, p3: string, a: string, b: string, c: string)
    requires '%' !in p0 && '%' !in p1 && '%' !in p2 && '%' !in p3
    ensures StringVerbs(p0 + ("%s" + (p1 + ("%s" + (p2 + ("%s" + p3)))))) == Some(3)
    ensures Sprintf(p0 + ("%s" + (p1 + ("%s" + (p2 + ("%s" + p3))))), [a, b, c])
         == p0 + (a + (p1 + (b + (p2 + (c + p3)))))
  {
    var none: seq<string> := [];
    ThreeArgs(a, b, c);
    LiteralOnly(p3);
    VerbStep(p2, p3, p3, c, none);
    VerbStep(p1, p2 + ("%s" + p3), p2 + (c + p3), b, [c]);
    VerbStep(p0, p1 + ("%s" + (p2 + ("%s" + p3))), p1 + (b + (p2 + (c + p3))), a, [b, c]);
  }

  // ---------------------------------------------------------------------
  // wuClient

  /** Entry `e` becomes `c`, field by field as `Hourly` copies them. */
  ghost predicate Converted(e: HourlyEntry, c: Conditions) {
    c.tempC == e.temp.metric && c.tempF == e.temp.english
    && c.humidity == e.humidity && c.precipitation == e.pop
  }

  datatype WUClient = WUClient(apiKey: string) {

    /** `Hourly(loc)`: fetch the forecast at the request URL; on success one
        `Conditions` per hourly entry, in the same order. */
    method Hourly(loc: Location, fetch: Fetch) returns (r: Result<HourlyForecast, Error>)
      ensures fetch(RequestUrl(apiKey, loc)).Failure? ==> r == Failure(fetch(RequestUrl(apiKey, loc)).error)
      ensures fetch(RequestUrl(apiKey, loc)).Success? ==>
        var entries := fetch(RequestUrl(apiKey, loc)).value;
        && r.Success?
        && |r.value.conditions| == |entries|
        && forall i :: 0 <= i < |entries| ==> Converted(entries[i], r.value.conditions[i])
    {
      var reqUrl := RequestUrl(apiKey, loc);
      var wu := fetch(reqUrl);
      if wu.Failure? {
        return Failure(wu.error);
      }
      var entries := wu.value;
      var conditions: seq<Conditions> := [];
      for i := 0 to |entries|
        invariant |conditions| == i
        invariant forall k :: 0 <= k < i ==> Converted(entries[k], conditions[k])
      {
        var h := entries[i];
        conditions := conditions + [Conditions(h.temp.metric, h.temp.english, h.humidity, h.pop)];
      }
      r := Success(HourlyForecast(conditions));
    }

    /** `Current(loc)`: the first hourly condition, an error when the
        forecast is empty, the `Hourly` error wrapped when it fails. */
    method Current(loc: Location, fetch: Fetch) returns (r: Result<Conditions, Error>)
      ensures fetch(RequestUrl(apiKey, loc)).Failure? ==>
        r == Failure(HourlyFailed(fetch(RequestUrl(apiKey, loc)).error))
      ensures fetch(RequestUrl(apiKey, loc)) == Success([]) ==> r == Failure(EmptyForecast)
      ensures fetch(RequestUrl(apiKey, loc)).Success? && fetch(RequestUrl(apiKey, loc)).value != [] ==>
        r.Success? && Converted(fetch(RequestUrl(apiKey, loc)).value[0], r.value)
    {
      var hourly := Hourly(loc, fetch);
      if hourly.Failure? {
        return Failure(HourlyFailed(hourly.error));
      }
      if |hourly.value.conditions| == 0 {
        return Failure(EmptyForecast);
      }
      var hr := hourly.value.conditions[0];
      r := Success(Conditions(hr.tempC, hr.tempF, hr.humidity, hr.precipitation));
    }
  }
}
