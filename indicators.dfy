/**
 * ci_get_country_indicators: the World Bank query for one indicator of one
 * country over the last few years, and the one-line text the plugin makes
 * of the observations it gets back ("1,234,567 (2020), N/A (2019)").
 *
 * The HTTP request and the JSON decoding are a parameter `api` of type
 * `string -> Option<seq<Observation>>`: it maps the request URL to None when
 * the request fails (is_wp_error) and otherwise to the observations of the
 * response's data array, in the order the API sends them.
 */
module Indicators {
  import opened Wrappers
  import opened Text
  import opened Numbers

  /** CI_WB_API_BASE_URL. */
  const ApiBaseUrl := "http://api.worldbank.org"

  /** CI_NUMBER_OF_YEARS_TO_CHECK_BACK. */
  const YearsToCheckBack := 5

  /** The text that stands for the whole series when the API cannot be reached. */
  const ConnectError := "Error: Can't connect to the API."

  /** The text that stands for an empty value. */
  const NotAvailable := "N/A"

  /** The separator between the observations of a series. */
  const SeriesSeparator := ", "

  /** One entry of the API's data array: its value (None for JSON null) and its year. */
  datatype Observation = Observation(value: Option<int>, date: string)

  /** PHP empty() on a value: null and 0 are empty. */
  predicate IsEmptyValue(v: Option<int>) {
    v == None || v == Some(0)
  }

  /** The World Bank series an indicator name selects, if any. */
  function SeriesId(indicator: string): (id: Option<string>)
    ensures id.Some? <==> indicator == "population" || indicator == "gdp"
    ensures indicator == "population" ==> id == Some("SP.POP.TOTL")
    ensures indicator == "gdp" ==> id == Some("NY.GDP.MKTP.CD")
  {
    if indicator == "population" then Some("SP.POP.TOTL")
    else if indicator == "gdp" then Some("NY.GDP.MKTP.CD")
    else None
  }

  /** A request for one series of one country over a window of years. */
  datatype Query = Query(code: string, series: string, startYear: int, endYear: int)

  /** CI_WB_API_BASE_URL followed by the path of the countries collection. */
  const CountriesPrefix := ApiBaseUrl + "/countries/"

  /** What an indicator URL holds between the code and the series. */
  const IndicatorsMarker := "/indicators/"

  /** What an indicator URL holds between the series and the window of years. */
  const FormatMarker := "?format=json&date="

  /** What separates the first and the last year of the window. */
  const YearSeparator := ":"

  /** What ends the URL of a country's general record. */
  const RecordSuffix := "?format=json"

  /**
   * The URL ci_get_country_indicators requests: the country code as given,
   * the series of the indicator and the window from currentYear - yearsBack
   * to currentYear; "" for an indicator name it does not know.
   */
  function IndicatorUrl(code: string, indicator: string, currentYear: int, yearsBack: int): (url: string)
    ensures url == "" <==> SeriesId(indicator) == None
    ensures url != "" ==> StartsWith(url, CountriesPrefix)
  {
    match SeriesId(indicator)
    case None => ""
    case Some(id) =>
      var rest := code + IndicatorsMarker + id + FormatMarker +
        DecimalString(currentYear - yearsBack) + YearSeparator + DecimalString(currentYear);
      PrefixCut(CountriesPrefix, rest);
      CountriesPrefix + rest
  }

  /** The URL of the request for a country's general record. */
  function CountryUrl(code: string): string {
    CountriesPrefix + code + RecordSuffix
  }

  /** Reads back the country code of a country-record URL. */
  function ParseCountryUrl(url: string): (code: Option<string>)
    ensures code.Some? ==> url == CountriesPrefix + code.value + RecordSuffix
  {
    if |url| >= |CountriesPrefix| + |RecordSuffix| && url[..|CountriesPrefix|] == CountriesPrefix &&
       url[|url| - |RecordSuffix|..] == RecordSuffix
    then
      assert url == url[..|CountriesPrefix|] + url[|CountriesPrefix|..|url| - |RecordSuffix|] +
        url[|url| - |RecordSuffix|..];
      Some(url[|CountriesPrefix|..|url| - |RecordSuffix|])
    else None
  }

  /** The country-record URL carries the code exactly as given, whatever its case. */
  lemma CountryUrlRoundTrip(code: string)
    ensures ParseCountryUrl(CountryUrl(code)) == Some(code)
  {
    Framed(CountriesPrefix, code, RecordSuffix);
  }

  /**
   * Reads back the query of an indicator URL: the code up to the next "/",
   * the series up to "?", and the two years around ":".
   */
  function ParseIndicatorUrl(url: string): (q: Option<Query>)
    ensures q.Some? ==>
      url == CountriesPrefix + q.value.code + IndicatorsMarker + q.value.series + FormatMarker +
               DecimalString(q.value.startYear) + YearSeparator + DecimalString(q.value.endYear)
  {
    if !StartsWith(url, CountriesPrefix) then None
    else match CutAt(url[|CountriesPrefix|..], '/', IndicatorsMarker)
      case None => None
      case Some((code, rest)) =>
        match CutAt(rest, '?', FormatMarker)
        case None => None
        case Some((series, window)) =>
          match CutAt(window, ':', YearSeparator)
          case None => None
          case Some((first, last)) =>
            match (ParseInt(first), ParseInt(last))
            case (Some(startYear), Some(endYear)) =>
              DecimalStringRoundTrip(startYear, first);
              DecimalStringRoundTrip(endYear, last);
              PrefixOf(url, CountriesPrefix);
              Flatten(CountriesPrefix, code, IndicatorsMarker, series, FormatMarker, first, YearSeparator, last);
              Some(Query(code, series, startYear, endYear))
            case _ => None
  }

  /** A string that starts with p is p followed by the rest. */
  lemma PrefixOf(s: string, p: string)
    requires StartsWith(s, p)
    ensures s == p + s[|p|..]
  {
    assert s[..|p|] == s[0..|p|];
  }

  /** The pieces of an indicator URL, nested as the reader cuts them, appended one after another. */
  lemma Flatten(p: string, code: string, m: string, id: string, f: string, a: string, c: string, b: string)
    ensures p + (code + m + (id + f + (a + c + b))) == p + code + m + id + f + a + c + b
  {
  }

  /** A decimal string holds no ":". */
  lemma NoColonInDecimal(n: int)
    ensures forall i :: 0 <= i < |DecimalString(n)| ==> DecimalString(n)[i] != ':'
  {
    var d := Digits(Abs(n));
    assert forall i :: 0 <= i < |d| ==> IsDigit(d[i]);
    if n < 0 {
      assert DecimalString(n) == "-" + d;
      forall i | 0 <= i < |DecimalString(n)| ensures DecimalString(n)[i] != ':' {
        if i > 0 {
          assert DecimalString(n)[i] == d[i - 1];
        }
      }
    }
  }

  /** The series a known indicator selects holds no "?". */
  lemma SeriesIdShape(indicator: string)
    requires SeriesId(indicator).Some?
    ensures forall i :: 0 <= i < |SeriesId(indicator).value| ==> SeriesId(indicator).value[i] != '?'
  {
  }

  /**
   * An indicator URL carries the code exactly as given (not upper-cased), the
   * indicator's series, and the window from currentYear - yearsBack to
   * currentYear: parsing it back gives that query. The code must not contain
   * "/", which would end it early.
   */
  lemma IndicatorUrlRoundTrip(code: string, indicator: string, currentYear: int, yearsBack: int)
    requires forall i :: 0 <= i < |code| ==> code[i] != '/'
    requires SeriesId(indicator).Some?
    ensures ParseIndicatorUrl(IndicatorUrl(code, indicator, currentYear, yearsBack)) ==
      Some(Query(code, SeriesId(indicator).value, currentYear - yearsBack, currentYear))
  {
    var id := SeriesId(indicator).value;
    var a := DecimalString(currentYear - yearsBack);
    var b := DecimalString(currentYear);
    var window := a + YearSeparator + b;
    var afterCode := id + FormatMarker + window;
    var rest := code + IndicatorsMarker + afterCode;
    assert code + IndicatorsMarker + id + FormatMarker + a + YearSeparator + b == rest;
    PrefixCut(CountriesPrefix, rest);
    CutAtJoin(code, IndicatorsMarker, afterCode);
    SeriesIdShape(indicator);
    CutAtJoin(id, FormatMarker, window);
    NoColonInDecimal(currentYear - yearsBack);
    CutAtJoin(a, YearSeparator, b);
    DecimalStringRoundTrip(currentYear - yearsBack, "");
    DecimalStringRoundTrip(currentYear, "");
  }

  /** The value as the plugin prints it: "N/A" when PHP finds it empty, number_format otherwise. */
  function FormatValue(v: Option<int>): string {
    if IsEmptyValue(v) then NotAvailable else NumberFormat(v.value)
  }

  /** sprintf('%s (%s)', value, date). */
  function FormatObservation(o: Observation): string {
    FormatValue(o.value) + " (" + o.date + ")"
  }

  /** The observations formatted one by one, in order. */
  function FormatAll(obs: seq<Observation>): (r: seq<string>)
    ensures |r| == |obs|
    ensures forall i :: 0 <= i < |obs| ==> r[i] == FormatObservation(obs[i])
  {
    if |obs| == 0 then [] else [FormatObservation(obs[0])] + FormatAll(obs[1..])
  }

  /** implode(', ', ...) of the formatted observations. */
  function SeriesText(obs: seq<Observation>): string {
    Join(FormatAll(obs), SeriesSeparator)
  }

  /** What ci_get_country_indicators returns for the API's answer. */
  function IndicatorText(answer: Option<seq<Observation>>): string {
    match answer
    case None => ConnectError
    case Some(obs) => SeriesText(obs)
  }

  /** The observation as its text shows it: an empty value reads as no value. */
  function Shown(o: Observation): Observation {
    Observation(if IsEmptyValue(o.value) then None else o.value, o.date)
  }

  /** Reads a value back from its text: "N/A" is no value, anything else a grouped number. */
  function ParseValue(t: string): Option<Option<int>> {
    if t == NotAvailable then Some(None)
    else match ParseInt(StripCommas(t))
      case Some(n) => Some(Some(n))
      case None => None
  }

  /** Reads an observation back from one segment "<value> (<date>)". */
  function ParseSegment(seg: string): Option<Observation> {
    var i := FirstIndexOf(seg, '(');
    if 0 < i < |seg| - 1 && seg[i - 1] == ' ' && seg[|seg| - 1] == ')' then
      match ParseValue(seg[..i - 1])
      case Some(v) => Some(Observation(v, seg[i + 1..|seg| - 1]))
      case None => None
    else None
  }

  /** The value text of an observation has no "(". */
  lemma FormatValueShape(v: Option<int>)
    ensures forall i :: 0 <= i < |FormatValue(v)| ==> FormatValue(v)[i] != '(' && FormatValue(v)[i] != ' '
    ensures CommasBeforeDigits(FormatValue(v))
  {
    if !IsEmptyValue(v) {
      NumberFormatShape(v.value);
    }
  }

  /** A value text without "(", followed by " (<date>)", is cut back into the two. */
  lemma ParseSegmentOf(v: string, date: string)
    requires forall i :: 0 <= i < |v| ==> v[i] != '('
    ensures ParseSegment(v + " (" + date + ")") ==
      if ParseValue(v).Some? then Some(Observation(ParseValue(v).value, date)) else None
  {
    var seg := v + " (" + date + ")";
    var head := v + " ";
    assert seg == head + ("(" + date + ")");
    forall i | 0 <= i < |head| ensures head[i] != '(' {
      if i < |v| {
        assert head[i] == v[i];
      }
    }
    FirstIndexOfAfter(head, "(" + date + ")", '(');
    assert seg[|v|] == ' ';
    assert seg[..|v|] == v;
    assert seg[|v| + 2..|seg| - 1] == date;
  }

  /** The value text reads back as the value, an empty one as no value. */
  lemma ParseFormatValue(v: Option<int>)
    ensures ParseValue(FormatValue(v)) == Some(if IsEmptyValue(v) then None else v)
  {
    if !IsEmptyValue(v) {
      var r := NumberFormat(v.value);
      NumberFormatShape(v.value);
      assert r != NotAvailable by {
        assert r[0] != 'N';
      }
      NumberFormatDigits(v.value);
    }
  }

  /** A formatted observation reads back as the observation it shows, whatever its date. */
  lemma SegmentRoundTrip(o: Observation)
    ensures ParseSegment(FormatObservation(o)) == Some(Shown(o))
  {
    FormatValueShape(o.value);
    ParseSegmentOf(FormatValue(o.value), o.date);
    ParseFormatValue(o.value);
  }

  /** A date without commas keeps its segment in one piece when the series is cut at ", ". */
  lemma SegmentIsSepFree(o: Observation)
    requires forall i :: 0 <= i < |o.date| ==> o.date[i] != ','
    ensures SepFree(FormatObservation(o), SeriesSeparator)
  {
    var v := FormatValue(o.value);
    var seg := FormatObservation(o);
    FormatValueShape(o.value);
    var s := seg + SeriesSeparator;
    forall i | 0 <= i < |seg|
      ensures !StartsAt(s, SeriesSeparator, i)
    {
      if i < |v| {
        assert s[i] == v[i];
        if v[i] == ',' {
          assert s[i + 1] == v[i + 1];
        }
      } else if i < |v| + 2 {
        assert s[i] == " ("[i - |v|];
      } else if i < |v| + 2 + |o.date| {
        assert s[i] == o.date[i - |v| - 2];
      } else {
        assert s[i] == ')';
      }
    }
  }

  /**
   * The series text has one segment per observation, in the order the API
   * sent them: cutting it at ", " gives the formatted observations, and each
   * reads back as the observation it shows. No observations give "".
   */
  lemma SeriesSegments(obs: seq<Observation>)
    requires forall k :: 0 <= k < |obs| ==> forall i :: 0 <= i < |obs[k].date| ==> obs[k].date[i] != ','
    ensures |obs| == 0 <==> SeriesText(obs) == ""
    ensures |obs| > 0 ==> Split(SeriesText(obs), SeriesSeparator) == FormatAll(obs)
    ensures |obs| > 0 ==> |Split(SeriesText(obs), SeriesSeparator)| == |obs|
    ensures forall k :: 0 <= k < |obs| ==> ParseSegment(FormatAll(obs)[k]) == Some(Shown(obs[k]))
  {
    var parts := FormatAll(obs);
    forall k | 0 <= k < |obs|
      ensures SepFree(parts[k], SeriesSeparator)
      ensures ParseSegment(parts[k]) == Some(Shown(obs[k]))
    {
      SegmentIsSepFree(obs[k]);
      SegmentRoundTrip(obs[k]);
    }
    if |obs| > 0 {
      SplitJoin(parts, SeriesSeparator);
      assert SeriesText(obs)[..|parts[0]|] == parts[0] by {
        if |parts| > 1 {
          assert SeriesText(obs) == parts[0] + SeriesSeparator + Join(parts[1..], SeriesSeparator);
        }
      }
      assert |parts[0]| > 0 by {
        assert parts[0] == FormatObservation(obs[0]);
      }
    }
  }

  /**
   * ci_get_country_indicators with the request made by `api`: builds the URL
   * for the indicator, gives ConnectError when the request fails, and
   * otherwise formats the observations one by one and joins them with ", ".
   */
  method CountryIndicators(code: string, indicator: string, currentYear: int, yearsBack: int,
                           api: string -> Option<seq<Observation>>)
    returns (text: string)
    ensures text == IndicatorText(api(IndicatorUrl(code, indicator, currentYear, yearsBack)))
  {
    var url := IndicatorUrl(code, indicator, currentYear, yearsBack);
    var answer := api(url);
    if answer.None? {
      return ConnectError;
    }
    var indicators := answer.value;
    var formatted: seq<string> := [];
    var i := 0;
    while i < |indicators|
      invariant 0 <= i <= |indicators|
      invariant |formatted| == i
      invariant forall k :: 0 <= k < i ==> formatted[k] == FormatObservation(indicators[k])
    {
      var o := indicators[i];
      var value := if IsEmptyValue(o.value) then NotAvailable else NumberFormat(o.value.value);
      formatted := formatted + [value + " (" + o.date + ")"];
      i := i + 1;
    }
    assert formatted == FormatAll(indicators);
    text := Join(formatted, SeriesSeparator);
  }

  /** Two observations give their two texts, joined by ", ". */
  lemma SeriesOfTwo(a: Observation, b: Observation)
    ensures SeriesText([a, b]) == FormatObservation(a) + SeriesSeparator + FormatObservation(b)
    ensures SeriesText([a]) == FormatObservation(a)
  {
    assert [a, b][1..] == [b];
    assert FormatAll([a, b]) == [FormatObservation(a), FormatObservation(b)];
    var p := [FormatObservation(a), FormatObservation(b)];
    assert p[1..] == [FormatObservation(b)];
    assert Join(p, SeriesSeparator) == p[0] + SeriesSeparator + Join(p[1..], SeriesSeparator);
  }

  /** An observation with a value shows it grouped in thousands. */
  lemma ObservationWithValue()
    ensures FormatObservation(Observation(Some(1234567), "2020")) == "1,234,567 (2020)"
  {
    NumberFormatExample();
    assert FormatValue(Some(1234567)) == "1,234,567";
  }

  /** An observation without a value, or with 0, shows "N/A". */
  lemma ObservationsWithoutValue()
    ensures FormatObservation(Observation(None, "2019")) == "N/A (2019)"
    ensures FormatObservation(Observation(Some(0), "2018")) == "N/A (2018)"
  {
  }

  /** Two years of a population series, the earlier one without a value. */
  lemma SeriesExample()
    ensures SeriesText([Observation(Some(1234567), "2020"), Observation(None, "2019")]) ==
      "1,234,567 (2020), N/A (2019)"
    ensures SeriesText([Observation(Some(0), "2018")]) == "N/A (2018)"
    ensures SeriesText([]) == ""
  {
    ObservationWithValue();
    ObservationsWithoutValue();
    SeriesOfTwo(Observation(Some(1234567), "2020"), Observation(None, "2019"));
    SeriesOfTwo(Observation(Some(0), "2018"), Observation(None, "2019"));
  }
}
