/**
 * ci_get_country_info and ci_ajax_error_message: the AJAX request that
 * checks a country code against the registry, fetches the country's general
 * record and two indicator series from the World Bank API, and answers with
 * one HTML paragraph.
 *
 * The capability checks are two booleans. CI_COUNTRIES_ARRAY, which the
 * request loads from lib/countries.php, is the parameter registry; the
 * lemmas about the plugin's own codes pass Countries.Registry. The HTTP
 * requests and their JSON decoding are the parameters countryApi and
 * indicatorApi, which map a URL to None when the request fails. The clock is
 * the parameter currentYear, and wp_kses with the allowed tags p, br and
 * strong is the parameter kses.
 */
module CountryInfo {
  import opened Wrappers
  import opened Text
  import opened Numbers
  import opened Indicators
  import Countries

  /** The message for a code whose length in bytes is not 2. */
  const LengthError := "Invalid country code. 2 letter ISO code is expected."

  /** The message for a code that is not a key of the registry. */
  const UnknownCodeError := "Invalid country code!"

  const ParagraphOpen := "<p>"
  const ParagraphClose := "</p>"
  const StrongOpen := "<strong>"
  const StrongClose := "</strong>"
  const LineBreak := "<br />"

  // ---------------------------------------------------------------------------
  // Error messages
  // ---------------------------------------------------------------------------

  /** The body ci_ajax_error_message echoes before it ends the request. */
  function ErrorResponse(msg: string): string {
    ParagraphOpen + StrongOpen + msg + StrongClose + ParagraphClose
  }

  /** Reads the message back from an error body. */
  function ParseErrorResponse(body: string): (msg: Option<string>)
    ensures msg.Some? ==> ErrorResponse(msg.value) == body
  {
    var open := ParagraphOpen + StrongOpen;
    var close := StrongClose + ParagraphClose;
    if |body| >= |open| + |close| && body[..|open|] == open && body[|body| - |close|..] == close then
      var m := body[|open|..|body| - |close|];
      assert body == open + m + close by {
        assert body == body[..|open|] + m + body[|body| - |close|..];
      }
      Some(m)
    else None
  }

  /** Every message, whatever it holds, is read back from its error body. */
  lemma ErrorResponseRoundTrip(msg: string)
    ensures ParseErrorResponse(ErrorResponse(msg)) == Some(msg)
  {
    var open := ParagraphOpen + StrongOpen;
    var close := StrongClose + ParagraphClose;
    assert ErrorResponse(msg) == open + msg + close;
    Framed(open, msg, close);
  }

  // ---------------------------------------------------------------------------
  // Validation
  // ---------------------------------------------------------------------------

  /**
   * The message the request ends with when the sanitized code is rejected
   * by a registry of codes: strlen must be 2, and strtoupper of the code must
   * be a key of the registry. None when the code is accepted.
   */
  function CheckCode(code: string, registry: map<string, string>): Option<string> {
    if ByteLength(code) != 2 then Some(LengthError)
    else if ToUpper(code) !in registry then Some(UnknownCodeError)
    else None
  }

  /** The validation of ci_get_country_info, against CI_COUNTRIES_ARRAY. */
  function ValidationError(code: string): Option<string> {
    CheckCode(code, Countries.Registry)
  }

  predicate IsAsciiLetter(c: char) {
    IsAsciiLower(c) || IsAsciiUpper(c)
  }

  /**
   * Against a registry whose keys are all two upper-case letters, a code is
   * accepted exactly when it is two ASCII letters, in either case, whose
   * upper-cased form is a key.
   */
  lemma AcceptedCodesIn(code: string, registry: map<string, string>)
    requires forall k :: k in registry ==> Countries.IsCode(k)
    ensures CheckCode(code, registry) == None <==>
      |code| == 2 && IsAsciiLetter(code[0]) && IsAsciiLetter(code[1]) && ToUpper(code) in registry
  {
    TwoBytes(code);
    var u := ToUpper(code);
    if u in registry {
      assert Countries.IsCode(u);
      assert |code| == 2;
      assert IsAsciiLetter(code[0]) by {
        assert u[0] == UpperChar(code[0]);
      }
      assert IsAsciiLetter(code[1]) by {
        assert u[1] == UpperChar(code[1]);
      }
    }
  }

  /**
   * The three outcomes of validation: a wrong byte length gives the length
   * message, a code of two bytes whose upper-cased form is no key gives the
   * unknown-code message, and any other code is accepted.
   */
  lemma ValidationOutcomes(code: string, registry: map<string, string>)
    ensures CheckCode(code, registry) == Some(LengthError) <==> ByteLength(code) != 2
    ensures CheckCode(code, registry) == Some(UnknownCodeError) <==>
      ByteLength(code) == 2 && ToUpper(code) !in registry
    ensures CheckCode(code, registry) == None <==>
      ByteLength(code) == 2 && ToUpper(code) in registry
  {
    assert LengthError != UnknownCodeError by {
      assert |LengthError| != |UnknownCodeError|;
    }
  }

  /** Validation ignores case: a code and its upper-cased form get the same verdict. */
  lemma CaseInsensitive(code: string, registry: map<string, string>)
    ensures CheckCode(ToUpper(code), registry) == CheckCode(code, registry)
  {
    ToUpperIdempotent(code);
  }

  /** Lower-case codes of listed countries are accepted. */
  lemma AcceptedExamples()
    ensures ValidationError("us") == None
    ensures ValidationError("Gb") == None
    ensures ValidationError("xk") == None
  {
    Countries.ListedCountries();
    assert ToUpper("us") == "US";
    assert ToUpper("Gb") == "GB";
    assert ToUpper("xk") == "XK";
  }

  /** A three-letter code and the empty code fail the length check, before any lookup. */
  lemma LengthExamples(registry: map<string, string>)
    ensures CheckCode("USA", registry) == Some(LengthError)
    ensures CheckCode("", registry) == Some(LengthError)
  {
  }

  /**
   * Two-letter codes absent from the table are rejected although they are
   * well formed, and so is a single two-byte character, which passes the
   * strlen check.
   */
  lemma UnknownExamples()
    ensures ValidationError("aq") == Some(UnknownCodeError)
    ensures ValidationError("EU") == Some(UnknownCodeError)
    ensures ValidationError("\U{e9}") == Some(UnknownCodeError)
  {
    Countries.UnlistedCodes();
    Countries.RegistryKeysAreCodes();
    assert ToUpper("aq") == "AQ";
    assert ToUpper("EU") == "EU";
    assert ToUpper("\U{e9}") == "\U{e9}";
    assert !Countries.IsCode("\U{e9}");
  }

  // ---------------------------------------------------------------------------
  // The report
  // ---------------------------------------------------------------------------

  /** The part of the API's country record the report shows. */
  datatype CountryRecord = CountryRecord(
    name: string, capitalCity: string, iso2Code: string, region: string, incomeLevel: string)

  /** One labelled line of the report. */
  datatype Field = Field(title: string, value: string)

  const NameLabel := "Country name: "
  const CapitalLabel := "Capital City: "
  const IsoLabel := "ISO Code: "
  const RegionLabel := "Region: "
  const IncomeLabel := "Income Level: "
  const PopulationLabel := "Population: "
  const GdpLabel := "GDP (in current USD): "

  /** "<strong>label</strong>value<br />". */
  function RenderField(f: Field): string {
    StrongOpen + f.title + StrongClose + f.value + LineBreak
  }

  /** The fields rendered one after another. */
  function RenderFields(fs: seq<Field>): string {
    if |fs| == 0 then "" else RenderField(fs[0]) + RenderFields(fs[1..])
  }

  /** The fields inside one paragraph. */
  function Report(fs: seq<Field>): string {
    ParagraphOpen + RenderFields(fs) + ParagraphClose
  }

  /** The seven fields of the report: the record's five, then the two series. */
  function ReportFields(info: CountryRecord, population: string, gdp: string): seq<Field> {
    [Field(NameLabel, info.name), Field(CapitalLabel, info.capitalCity), Field(IsoLabel, info.iso2Code),
     Field(RegionLabel, info.region), Field(IncomeLabel, info.incomeLevel),
     Field(PopulationLabel, population), Field(GdpLabel, gdp)]
  }

  /**
   * The report before wp_kses: the record's fields, then the population and
   * the GDP series of the code as given, over the last YearsToCheckBack years.
   */
  function ReportText(code: string, currentYear: int, info: CountryRecord,
                      indicatorApi: string -> Option<seq<Observation>>): string {
    Report(ReportFields(info,
      IndicatorText(indicatorApi(IndicatorUrl(code, "population", currentYear, YearsToCheckBack))),
      IndicatorText(indicatorApi(IndicatorUrl(code, "gdp", currentYear, YearsToCheckBack)))))
  }

  /** Every character of s is one that ok admits. */
  predicate AllOf(s: string, ok: char -> bool) {
    forall i :: 0 <= i < |s| ==> ok(s[i])
  }

  /** A character that cannot start a tag. */
  predicate OpensNoTag(c: char) {
    c != '<'
  }

  /**
   * A character wp_kses keeps as it is outside a tag: no tag bracket, no "&"
   * (which it would normalise as an entity), no backslash and no control
   * character (which it strips).
   */
  predicate PlainChar(c: char) {
    c != '<' && c != '>' && c != '&' && c != '\\' && c as int >= 0x20
  }

  /** s holds no "<", so no tag can start inside it. */
  predicate TagFree(s: string) {
    AllOf(s, OpensNoTag)
  }

  /** s holds only plain characters. */
  predicate Plain(s: string) {
    AllOf(s, PlainChar)
  }

  /** ok admits every plain character, so every character the plugin writes itself. */
  predicate AdmitsPlain(ok: char -> bool) {
    forall c :: PlainChar(c) ==> ok(c)
  }

  /** Six pieces appended one by one, regrouped the way the parser cuts them. */
  lemma Nest(a: string, b: string, c: string, d: string, e: string, f: string)
    ensures a + b + c + d + e + f == a + (b + c + (d + e + f))
  {
  }

  /**
   * Reads rendered fields back: "<strong>", the title up to the next "<",
   * "</strong>", the value up to the next "<", "<br />", and so on to the end.
   */
  function ParseFields(s: string): (fs: Option<seq<Field>>)
    ensures fs.Some? ==> RenderFields(fs.value) == s
    decreases |s|
  {
    if s == "" then Some([])
    else if !StartsWith(s, StrongOpen) then None
    else
      PrefixCut(StrongOpen, s[|StrongOpen|..]);
      assert s == StrongOpen + s[|StrongOpen|..] by {
        assert s[..|StrongOpen|] == s[0..|StrongOpen|];
      }
      match CutAt(s[|StrongOpen|..], '<', StrongClose)
      case None => None
      case Some((title, afterTitle)) =>
        match CutAt(afterTitle, '<', LineBreak)
        case None => None
        case Some((value, rest)) =>
          match ParseFields(rest)
          case None => None
          case Some(more) =>
            Nest(StrongOpen, title, StrongClose, value, LineBreak, rest);
            Some([Field(title, value)] + more)
  }

  /** Reads a report back: the fields between "<p>" and "</p>". */
  function ParseReport(s: string): (fs: Option<seq<Field>>)
    ensures fs.Some? ==> Report(fs.value) == s
  {
    if |s| >= |ParagraphOpen| + |ParagraphClose| && s[..|ParagraphOpen|] == ParagraphOpen &&
       s[|s| - |ParagraphClose|..] == ParagraphClose
    then
      var middle := s[|ParagraphOpen|..|s| - |ParagraphClose|];
      assert s == s[..|ParagraphOpen|] + middle + s[|s| - |ParagraphClose|..];
      ParseFields(middle)
    else None
  }

  /**
   * Fields whose titles and values hold no "<" are read back from their
   * rendering, in the same order.
   */
  lemma {:induction false} FieldsRoundTrip(fs: seq<Field>)
    requires forall i :: 0 <= i < |fs| ==> TagFree(fs[i].title) && TagFree(fs[i].value)
    ensures ParseFields(RenderFields(fs)) == Some(fs)
  {
    if |fs| > 0 {
      var f := fs[0];
      var rest := RenderFields(fs[1..]);
      Nest(StrongOpen, f.title, StrongClose, f.value, LineBreak, rest);
      var afterOpen := f.title + StrongClose + (f.value + LineBreak + rest);
      assert RenderFields(fs) == StrongOpen + afterOpen;
      PrefixCut(StrongOpen, afterOpen);
      CutAtJoin(f.title, StrongClose, f.value + LineBreak + rest);
      CutAtJoin(f.value, LineBreak, rest);
      FieldsRoundTrip(fs[1..]);
      assert [f] + fs[1..] == fs;
    }
  }

  /** A report of fields without "<" is read back as those fields, in order. */
  lemma ReportRoundTrip(fs: seq<Field>)
    requires forall i :: 0 <= i < |fs| ==> TagFree(fs[i].title) && TagFree(fs[i].value)
    ensures ParseReport(Report(fs)) == Some(fs)
  {
    Framed(ParagraphOpen, RenderFields(fs), ParagraphClose);
    FieldsRoundTrip(fs);
  }

  /** Two strings whose characters ok admits make one. */
  lemma AllOfConcat(a: string, b: string, ok: char -> bool)
    requires AllOf(a, ok) && AllOf(b, ok)
    ensures AllOf(a + b, ok)
  {
    forall i | 0 <= i < |a + b|
      ensures ok((a + b)[i])
    {
      if i < |a| {
        assert (a + b)[i] == a[i];
      } else {
        assert (a + b)[i] == b[i - |a|];
      }
    }
  }

  /** Parts and a separator whose characters ok admits join into such a string. */
  lemma {:induction false} JoinAllOf(parts: seq<string>, sep: string, ok: char -> bool)
    requires AllOf(sep, ok)
    requires forall i :: 0 <= i < |parts| ==> AllOf(parts[i], ok)
    ensures AllOf(Join(parts, sep), ok)
  {
    if |parts| > 1 {
      JoinAllOf(parts[1..], sep, ok);
      AllOfConcat(parts[0], sep, ok);
      AllOfConcat(parts[0] + sep, Join(parts[1..], sep), ok);
    }
  }

  /** A plain string has only characters that a class admitting the plain ones admits. */
  lemma PlainIsAdmitted(s: string, ok: char -> bool)
    requires AdmitsPlain(ok) && Plain(s)
    ensures AllOf(s, ok)
  {
    forall i | 0 <= i < |s| ensures ok(s[i]) {
      assert PlainChar(s[i]);
    }
  }

  /** An observation is shown with characters ok admits when its date has only such characters. */
  lemma ObservationAllOf(o: Observation, ok: char -> bool)
    requires AdmitsPlain(ok) && AllOf(o.date, ok)
    ensures AllOf(FormatObservation(o), ok)
  {
    var v := FormatValue(o.value);
    if !IsEmptyValue(o.value) {
      NumberFormatShape(o.value.value);
    }
    assert Plain(v);
    PlainIsAdmitted(v, ok);
    PlainIsAdmitted(" (", ok);
    PlainIsAdmitted(")", ok);
    AllOfConcat(v, " (", ok);
    AllOfConcat(v + " (", o.date, ok);
    AllOfConcat(v + " (" + o.date, ")", ok);
  }

  /** A failed request, or an answer whose dates have only characters ok admits. */
  predicate AnswerAllOf(answer: Option<seq<Observation>>, ok: char -> bool) {
    answer.Some? ==> forall k :: 0 <= k < |answer.value| ==> AllOf(answer.value[k].date, ok)
  }

  /** The text of an indicator has only characters ok admits when the dates it shows have only such characters. */
  lemma IndicatorTextAllOf(answer: Option<seq<Observation>>, ok: char -> bool)
    requires AdmitsPlain(ok) && AnswerAllOf(answer, ok)
    ensures AllOf(IndicatorText(answer), ok)
  {
    match answer
    case None =>
      assert Plain(ConnectError);
      PlainIsAdmitted(ConnectError, ok);
    case Some(obs) =>
      var parts := FormatAll(obs);
      forall i | 0 <= i < |parts|
        ensures AllOf(parts[i], ok)
      {
        ObservationAllOf(obs[i], ok);
      }
      assert Plain(SeriesSeparator);
      PlainIsAdmitted(SeriesSeparator, ok);
      JoinAllOf(parts, SeriesSeparator, ok);
  }

  /** The record's five values have only characters ok admits. */
  predicate RecordAllOf(info: CountryRecord, ok: char -> bool) {
    AllOf(info.name, ok) && AllOf(info.capitalCity, ok) && AllOf(info.iso2Code, ok) &&
    AllOf(info.region, ok) && AllOf(info.incomeLevel, ok)
  }

  /** The first three titles are plain. */
  lemma RecordTitlesArePlain()
    ensures Plain(NameLabel) && Plain(CapitalLabel) && Plain(IsoLabel)
  {
  }

  /** The last four titles are plain. */
  lemma OtherTitlesArePlain()
    ensures Plain(RegionLabel) && Plain(IncomeLabel) && Plain(PopulationLabel) && Plain(GdpLabel)
  {
  }

  /** The report's fields have only characters ok admits when its values have only such characters. */
  lemma ReportFieldsAllOf(info: CountryRecord, population: string, gdp: string, ok: char -> bool)
    requires AdmitsPlain(ok)
    requires RecordAllOf(info, ok) && AllOf(population, ok) && AllOf(gdp, ok)
    ensures var fs := ReportFields(info, population, gdp);
      forall i :: 0 <= i < |fs| ==> AllOf(fs[i].title, ok) && AllOf(fs[i].value, ok)
  {
    RecordTitlesArePlain();
    OtherTitlesArePlain();
    PlainIsAdmitted(NameLabel, ok);
    PlainIsAdmitted(CapitalLabel, ok);
    PlainIsAdmitted(IsoLabel, ok);
    PlainIsAdmitted(RegionLabel, ok);
    PlainIsAdmitted(IncomeLabel, ok);
    PlainIsAdmitted(PopulationLabel, ok);
    PlainIsAdmitted(GdpLabel, ok);
  }

  /** One of the tags wp_kses is given as safe (p, strong, br, without attributes) starts at i. */
  predicate SafeTagAt(s: string, i: nat) {
    StartsAt(s, ParagraphOpen, i) || StartsAt(s, ParagraphClose, i) || StartsAt(s, StrongOpen, i) ||
    StartsAt(s, StrongClose, i) || StartsAt(s, LineBreak, i)
  }

  /** One of the safe tags ends at i. */
  predicate SafeTagEndsAt(s: string, i: nat) {
    (i + 1 >= |ParagraphOpen| && StartsAt(s, ParagraphOpen, i + 1 - |ParagraphOpen|)) ||
    (i + 1 >= |ParagraphClose| && StartsAt(s, ParagraphClose, i + 1 - |ParagraphClose|)) ||
    (i + 1 >= |StrongOpen| && StartsAt(s, StrongOpen, i + 1 - |StrongOpen|)) ||
    (i + 1 >= |StrongClose| && StartsAt(s, StrongClose, i + 1 - |StrongClose|)) ||
    (i + 1 >= |LineBreak| && StartsAt(s, LineBreak, i + 1 - |LineBreak|))
  }

  /**
   * Markup wp_kses has nothing to change in when it keeps p, strong and br
   * without attributes: every character is plain, or is the "<" that starts
   * one of those tags, or the ">" that ends one.
   */
  predicate SafeMarkup(s: string) {
    forall i :: 0 <= i < |s| ==>
      PlainChar(s[i]) || (s[i] == '<' && SafeTagAt(s, i)) || (s[i] == '>' && SafeTagEndsAt(s, i))
  }

  /** Two strings of safe markup make one of safe markup. */
  lemma SafeMarkupConcat(a: string, b: string)
    requires SafeMarkup(a) && SafeMarkup(b)
    ensures SafeMarkup(a + b)
  {
    forall tag, k: nat | StartsAt(a, tag, k) ensures StartsAt(a + b, tag, k) {
      StartsAtAppendRight(a, b, tag, k);
    }
    forall tag, k: nat | StartsAt(b, tag, k) ensures StartsAt(a + b, tag, |a| + k) {
      StartsAtAppendLeft(a, b, tag, k);
    }
    forall i | 0 <= i < |a + b|
      ensures PlainChar((a + b)[i]) || ((a + b)[i] == '<' && SafeTagAt(a + b, i)) ||
              ((a + b)[i] == '>' && SafeTagEndsAt(a + b, i))
    {
      if i < |a| {
        assert (a + b)[i] == a[i];
      } else {
        assert (a + b)[i] == b[i - |a|];
      }
    }
  }

  /** Each safe tag is safe markup on its own. */
  lemma SafeTags()
    ensures SafeMarkup(ParagraphOpen) && SafeMarkup(ParagraphClose) && SafeMarkup(StrongOpen)
    ensures SafeMarkup(StrongClose) && SafeMarkup(LineBreak)
  {
    assert StartsAt(ParagraphOpen, ParagraphOpen, 0);
    assert StartsAt(ParagraphClose, ParagraphClose, 0);
    assert StartsAt(StrongOpen, StrongOpen, 0);
    assert StartsAt(StrongClose, StrongClose, 0);
    assert StartsAt(LineBreak, LineBreak, 0);
  }

  /** A rendered field whose title and value are plain is safe markup. */
  lemma FieldMarkup(f: Field)
    requires Plain(f.title) && Plain(f.value)
    ensures SafeMarkup(RenderField(f))
  {
    SafeTags();
    assert SafeMarkup(f.title) && SafeMarkup(f.value);
    SafeMarkupConcat(StrongOpen, f.title);
    SafeMarkupConcat(StrongOpen + f.title, StrongClose);
    SafeMarkupConcat(StrongOpen + f.title + StrongClose, f.value);
    SafeMarkupConcat(StrongOpen + f.title + StrongClose + f.value, LineBreak);
  }

  /**
   * A report of plain fields uses only the tags wp_kses is given as safe and
   * nothing else kses rewrites.
   */
  lemma {:induction false} ReportMarkup(fs: seq<Field>)
    requires forall i :: 0 <= i < |fs| ==> Plain(fs[i].title) && Plain(fs[i].value)
    ensures SafeMarkup(RenderFields(fs))
    ensures SafeMarkup(Report(fs))
  {
    SafeTags();
    if |fs| > 0 {
      ReportMarkup(fs[1..]);
      FieldMarkup(fs[0]);
      SafeMarkupConcat(RenderField(fs[0]), RenderFields(fs[1..]));
    }
    SafeMarkupConcat(ParagraphOpen, RenderFields(fs));
    SafeMarkupConcat(ParagraphOpen + RenderFields(fs), ParagraphClose);
  }

  // ---------------------------------------------------------------------------
  // The request
  // ---------------------------------------------------------------------------

  /** How a request ends. */
  datatype Response =
    | Ignored                  // the user may edit neither posts nor pages: nothing is echoed
    | Failed(message: string)  // ci_ajax_error_message(message) echoed ErrorResponse(message)
    | Answered(body: string)   // the filtered report was echoed

  /**
   * ci_get_country_info: the permission check, the validation, the request
   * for the country's record (a failed request ends with the connection
   * message), then the report built from the record and the two series,
   * passed through wp_kses.
   */
  function Outcome(canEditPosts: bool, canEditPages: bool, registry: map<string, string>,
                   code: string, currentYear: int,
                   countryApi: string -> Option<CountryRecord>,
                   indicatorApi: string -> Option<seq<Observation>>,
                   kses: string -> string): Response
  {
    if !canEditPosts && !canEditPages then Ignored
    else match CheckCode(code, registry)
      case Some(msg) => Failed(msg)
      case None =>
        match countryApi(CountryUrl(code))
        case None => Failed(ConnectError)
        case Some(info) => Answered(kses(ReportText(code, currentYear, info, indicatorApi)))
  }

  /**
   * Every request ends in exactly one way: ignored without either
   * capability; with the length message; with the unknown-code message; with
   * the connection message when the country's record cannot be fetched; and
   * otherwise with an answer.
   */
  lemma OutcomeCases(canEditPosts: bool, canEditPages: bool, registry: map<string, string>,
                     code: string, currentYear: int,
                     countryApi: string -> Option<CountryRecord>,
                     indicatorApi: string -> Option<seq<Observation>>,
                     kses: string -> string)
    ensures var r := Outcome(canEditPosts, canEditPages, registry, code, currentYear, countryApi, indicatorApi, kses);
      var allowed := canEditPosts || canEditPages;
      (r == Ignored <==> !allowed) &&
      (r == Failed(LengthError) <==> allowed && ByteLength(code) != 2) &&
      (r == Failed(UnknownCodeError) <==> allowed && ByteLength(code) == 2 && ToUpper(code) !in registry) &&
      (r == Failed(ConnectError) <==>
        allowed && CheckCode(code, registry) == None && countryApi(CountryUrl(code)) == None) &&
      (r.Answered? <==>
        allowed && CheckCode(code, registry) == None && countryApi(CountryUrl(code)).Some?)
  {
    assert |LengthError| != |UnknownCodeError| && |LengthError| != |ConnectError| &&
      |UnknownCodeError| != |ConnectError|;
  }

  /** What the handler echoes before wp_die: nothing, the wrapped message, or the filtered report. */
  function Echoed(r: Response): string {
    match r
    case Ignored => ""
    case Failed(message) => ErrorResponse(message)
    case Answered(body) => body
  }

  /**
   * Each failure echoes its own message wrapped in "<p><strong>", and the
   * message reads back from what was echoed; an ignored request echoes
   * nothing.
   */
  lemma EchoedOutcome(canEditPosts: bool, canEditPages: bool, registry: map<string, string>,
                      code: string, currentYear: int,
                      countryApi: string -> Option<CountryRecord>,
                      indicatorApi: string -> Option<seq<Observation>>,
                      kses: string -> string)
    ensures var r := Outcome(canEditPosts, canEditPages, registry, code, currentYear, countryApi, indicatorApi, kses);
      var allowed := canEditPosts || canEditPages;
      (!allowed ==> Echoed(r) == "") &&
      (allowed && ByteLength(code) != 2 ==> Echoed(r) == ErrorResponse(LengthError)) &&
      (allowed && ByteLength(code) == 2 && ToUpper(code) !in registry ==>
        Echoed(r) == ErrorResponse(UnknownCodeError)) &&
      (allowed && CheckCode(code, registry) == None && countryApi(CountryUrl(code)) == None ==>
        Echoed(r) == ErrorResponse(ConnectError)) &&
      (r.Failed? ==> ParseErrorResponse(Echoed(r)) == Some(r.message))
  {
    var r := Outcome(canEditPosts, canEditPages, registry, code, currentYear, countryApi, indicatorApi, kses);
    if r.Failed? {
      ErrorResponseRoundTrip(r.message);
    }
  }

  /**
   * An answered request echoes the report through kses, and the report
   * reads back as the record's five fields followed by the population and
   * the GDP texts, in this order, each text being the one for the code as
   * given.
   */
  lemma AnsweredReport(canEditPosts: bool, canEditPages: bool, registry: map<string, string>,
                       code: string, currentYear: int,
                       countryApi: string -> Option<CountryRecord>,
                       indicatorApi: string -> Option<seq<Observation>>,
                       kses: string -> string, info: CountryRecord)
    requires canEditPosts || canEditPages
    requires CheckCode(code, registry) == None
    requires countryApi(CountryUrl(code)) == Some(info)
    requires RecordAllOf(info, OpensNoTag)
    requires AnswerAllOf(indicatorApi(IndicatorUrl(code, "population", currentYear, YearsToCheckBack)), OpensNoTag)
    requires AnswerAllOf(indicatorApi(IndicatorUrl(code, "gdp", currentYear, YearsToCheckBack)), OpensNoTag)
    ensures var t := ReportText(code, currentYear, info, indicatorApi);
      Outcome(canEditPosts, canEditPages, registry, code, currentYear, countryApi, indicatorApi, kses) ==
        Answered(kses(t)) &&
      ParseReport(t) == Some(ReportFields(info,
        IndicatorText(indicatorApi(IndicatorUrl(code, "population", currentYear, YearsToCheckBack))),
        IndicatorText(indicatorApi(IndicatorUrl(code, "gdp", currentYear, YearsToCheckBack)))))
  {
    var population := IndicatorText(indicatorApi(IndicatorUrl(code, "population", currentYear, YearsToCheckBack)));
    var gdp := IndicatorText(indicatorApi(IndicatorUrl(code, "gdp", currentYear, YearsToCheckBack)));
    assert AdmitsPlain(OpensNoTag);
    IndicatorTextAllOf(indicatorApi(IndicatorUrl(code, "population", currentYear, YearsToCheckBack)), OpensNoTag);
    IndicatorTextAllOf(indicatorApi(IndicatorUrl(code, "gdp", currentYear, YearsToCheckBack)), OpensNoTag);
    ReportFieldsAllOf(info, population, gdp, OpensNoTag);
    ReportRoundTrip(ReportFields(info, population, gdp));
  }

  /**
   * When the record and the dates are plain, the report is safe markup; with
   * a kses that leaves safe markup alone, the request then echoes the report
   * itself, and it reads back as its seven fields.
   */
  lemma EchoedReport(canEditPosts: bool, canEditPages: bool, registry: map<string, string>,
                     code: string, currentYear: int,
                     countryApi: string -> Option<CountryRecord>,
                     indicatorApi: string -> Option<seq<Observation>>,
                     kses: string -> string, info: CountryRecord)
    requires canEditPosts || canEditPages
    requires CheckCode(code, registry) == None
    requires countryApi(CountryUrl(code)) == Some(info)
    requires RecordAllOf(info, PlainChar)
    requires AnswerAllOf(indicatorApi(IndicatorUrl(code, "population", currentYear, YearsToCheckBack)), PlainChar)
    requires AnswerAllOf(indicatorApi(IndicatorUrl(code, "gdp", currentYear, YearsToCheckBack)), PlainChar)
    requires forall t :: SafeMarkup(t) ==> kses(t) == t
    ensures var t := ReportText(code, currentYear, info, indicatorApi);
      Outcome(canEditPosts, canEditPages, registry, code, currentYear, countryApi, indicatorApi, kses) ==
        Answered(t) &&
      ParseReport(t) == Some(ReportFields(info,
        IndicatorText(indicatorApi(IndicatorUrl(code, "population", currentYear, YearsToCheckBack))),
        IndicatorText(indicatorApi(IndicatorUrl(code, "gdp", currentYear, YearsToCheckBack)))))
  {
    var population := IndicatorText(indicatorApi(IndicatorUrl(code, "population", currentYear, YearsToCheckBack)));
    var gdp := IndicatorText(indicatorApi(IndicatorUrl(code, "gdp", currentYear, YearsToCheckBack)));
    var fs := ReportFields(info, population, gdp);
    assert AdmitsPlain(PlainChar) && AdmitsPlain(OpensNoTag);
    IndicatorTextAllOf(indicatorApi(IndicatorUrl(code, "population", currentYear, YearsToCheckBack)), PlainChar);
    IndicatorTextAllOf(indicatorApi(IndicatorUrl(code, "gdp", currentYear, YearsToCheckBack)), PlainChar);
    ReportFieldsAllOf(info, population, gdp, PlainChar);
    ReportMarkup(fs);
    forall i | 0 <= i < |fs|
      ensures TagFree(fs[i].title) && TagFree(fs[i].value)
    {
      PlainIsAdmitted(fs[i].title, OpensNoTag);
      PlainIsAdmitted(fs[i].value, OpensNoTag);
    }
    ReportRoundTrip(fs);
  }

  /**
   * A failed indicator request does not end the request: the answer still
   * holds all seven fields, and the failed series reads as the connection
   * message inside its own field.
   */
  lemma IndicatorFailureStaysInside(canEditPosts: bool, canEditPages: bool, registry: map<string, string>,
                                    code: string, currentYear: int,
                                    countryApi: string -> Option<CountryRecord>,
                                    indicatorApi: string -> Option<seq<Observation>>,
                                    kses: string -> string, info: CountryRecord)
    requires canEditPosts || canEditPages
    requires CheckCode(code, registry) == None
    requires countryApi(CountryUrl(code)) == Some(info)
    requires RecordAllOf(info, OpensNoTag)
    requires AnswerAllOf(indicatorApi(IndicatorUrl(code, "population", currentYear, YearsToCheckBack)), OpensNoTag)
    requires AnswerAllOf(indicatorApi(IndicatorUrl(code, "gdp", currentYear, YearsToCheckBack)), OpensNoTag)
    ensures Outcome(canEditPosts, canEditPages, registry, code, currentYear, countryApi, indicatorApi, kses).Answered?
    ensures var fs := ParseReport(ReportText(code, currentYear, info, indicatorApi));
      fs.Some? && |fs.value| == 7 &&
      (indicatorApi(IndicatorUrl(code, "population", currentYear, YearsToCheckBack)) == None ==>
        fs.value[5] == Field(PopulationLabel, ConnectError)) &&
      (indicatorApi(IndicatorUrl(code, "gdp", currentYear, YearsToCheckBack)) == None ==>
        fs.value[6] == Field(GdpLabel, ConnectError))
  {
    AnsweredReport(canEditPosts, canEditPages, registry, code, currentYear, countryApi, indicatorApi, kses, info);
  }

  /**
   * The request for the country's record carries the code exactly as the
   * user gave it, not upper-cased: the URL reads back as that code, so a code
   * with a lower-case letter requests another URL than its upper-cased form.
   */
  lemma RecordRequestUsesCodeAsGiven(code: string)
    ensures ParseCountryUrl(CountryUrl(code)) == Some(code)
    ensures ToUpper(code) != code ==> CountryUrl(ToUpper(code)) != CountryUrl(code)
  {
    CountryUrlRoundTrip(code);
    CountryUrlRoundTrip(ToUpper(code));
  }

  /**
   * The indicator requests carry the code exactly as the user gave it too:
   * the URL reads back as that code with the indicator's series, so a code
   * with a lower-case letter requests another URL than its upper-cased form.
   */
  lemma IndicatorRequestUsesCodeAsGiven(code: string, indicator: string, currentYear: int)
    requires |code| == 2 && IsAsciiLetter(code[0]) && IsAsciiLetter(code[1])
    requires indicator == "population" || indicator == "gdp"
    ensures ParseIndicatorUrl(IndicatorUrl(code, indicator, currentYear, YearsToCheckBack)) ==
      Some(Query(code, SeriesId(indicator).value, currentYear - YearsToCheckBack, currentYear))
    ensures ToUpper(code) != code ==>
      IndicatorUrl(ToUpper(code), indicator, currentYear, YearsToCheckBack) !=
      IndicatorUrl(code, indicator, currentYear, YearsToCheckBack)
  {
    var upper := ToUpper(code);
    NoSlashInLetters(code);
    IndicatorUrlRoundTrip(code, indicator, currentYear, YearsToCheckBack);
    IndicatorUrlRoundTrip(upper, indicator, currentYear, YearsToCheckBack);
    var parsedUpper := ParseIndicatorUrl(IndicatorUrl(upper, indicator, currentYear, YearsToCheckBack));
    var parsed := ParseIndicatorUrl(IndicatorUrl(code, indicator, currentYear, YearsToCheckBack));
    assert parsedUpper.value.code == upper && parsed.value.code == code;
  }

  /** Two ASCII letters, and their upper-cased form, hold no "/". */
  lemma NoSlashInLetters(code: string)
    requires |code| == 2 && IsAsciiLetter(code[0]) && IsAsciiLetter(code[1])
    ensures forall i :: 0 <= i < |code| ==> code[i] != '/'
    ensures forall i :: 0 <= i < |ToUpper(code)| ==> ToUpper(code)[i] != '/'
  {
    var upper := ToUpper(code);
    assert upper[0] == UpperChar(code[0]) && upper[1] == UpperChar(code[1]);
  }

  /** Rendering one more field appends its text. */
  lemma {:induction false} RenderFieldsAppend(fs: seq<Field>, f: Field)
    ensures RenderFields(fs + [f]) == RenderFields(fs) + RenderField(f)
  {
    if |fs| == 0 {
      assert fs + [f] == [f];
    } else {
      assert (fs + [f])[1..] == fs[1..] + [f];
      RenderFieldsAppend(fs[1..], f);
    }
  }

  /** Concatenation is associative. */
  lemma Associate(a: string, b: string, c: string)
    ensures a + b + c == a + (b + c)
  {
  }

  /** Six pieces appended one by one are the first followed by the other five. */
  lemma Regroup(t: string, a: string, b: string, c: string, d: string, e: string)
    ensures t + a + b + c + d + e == t + (a + b + c + d + e)
  {
  }

  /** The paragraph built so far, followed by one more field. */
  lemma AppendField(text: string, fields: seq<Field>, title: string, value: string)
    requires text == ParagraphOpen + RenderFields(fields)
    ensures text + StrongOpen + title + StrongClose + value + LineBreak ==
      ParagraphOpen + RenderFields(fields + [Field(title, value)])
  {
    RenderFieldsAppend(fields, Field(title, value));
    Regroup(text, StrongOpen, title, StrongClose, value, LineBreak);
    Associate(ParagraphOpen, RenderFields(fields), RenderField(Field(title, value)));
  }

  /**
   * The report part of ci_get_country_info, appending to the text piece by
   * piece; the series come from ci_get_country_indicators.
   */
  method BuildReport(code: string, currentYear: int, info: CountryRecord,
                     indicatorApi: string -> Option<seq<Observation>>)
    returns (text: string)
    ensures text == ReportText(code, currentYear, info, indicatorApi)
  {
    text := ParagraphOpen;
    ghost var fields: seq<Field> := [];
    AppendField(text, fields, NameLabel, info.name);
    text := text + StrongOpen + NameLabel + StrongClose + info.name + LineBreak;
    fields := fields + [Field(NameLabel, info.name)];
    AppendField(text, fields, CapitalLabel, info.capitalCity);
    text := text + StrongOpen + CapitalLabel + StrongClose + info.capitalCity + LineBreak;
    fields := fields + [Field(CapitalLabel, info.capitalCity)];
    AppendField(text, fields, IsoLabel, info.iso2Code);
    text := text + StrongOpen + IsoLabel + StrongClose + info.iso2Code + LineBreak;
    fields := fields + [Field(IsoLabel, info.iso2Code)];
    AppendField(text, fields, RegionLabel, info.region);
    text := text + StrongOpen + RegionLabel + StrongClose + info.region + LineBreak;
    fields := fields + [Field(RegionLabel, info.region)];
    AppendField(text, fields, IncomeLabel, info.incomeLevel);
    text := text + StrongOpen + IncomeLabel + StrongClose + info.incomeLevel + LineBreak;
    fields := fields + [Field(IncomeLabel, info.incomeLevel)];

    ghost var before := text;
    text := text + StrongOpen + PopulationLabel + StrongClose;
    var population := CountryIndicators(code, "population", currentYear, YearsToCheckBack, indicatorApi);
    text := text + population;
    text := text + LineBreak;
    AppendField(before, fields, PopulationLabel, population);
    fields := fields + [Field(PopulationLabel, population)];

    before := text;
    text := text + StrongOpen + GdpLabel + StrongClose;
    var gdp := CountryIndicators(code, "gdp", currentYear, YearsToCheckBack, indicatorApi);
    text := text + gdp;
    text := text + LineBreak;
    AppendField(before, fields, GdpLabel, gdp);
    fields := fields + [Field(GdpLabel, gdp)];

    text := text + ParagraphClose;
    assert fields == ReportFields(info, population, gdp);
  }

  /**
   * ci_get_country_info: the permission check, the two validation steps, the
   * request for the country's record, then the report through kses.
   */
  method GetCountryInfo(canEditPosts: bool, canEditPages: bool, registry: map<string, string>,
                        code: string, currentYear: int,
                        countryApi: string -> Option<CountryRecord>,
                        indicatorApi: string -> Option<seq<Observation>>,
                        kses: string -> string)
    returns (r: Response)
    ensures r == Outcome(canEditPosts, canEditPages, registry, code, currentYear, countryApi, indicatorApi, kses)
  {
    if !canEditPosts && !canEditPages {
      return Ignored;
    }
    if ByteLength(code) != 2 {
      return Failed(LengthError);
    }
    if ToUpper(code) !in registry {
      return Failed(UnknownCodeError);
    }
    var answer := countryApi(CountryUrl(code));
    if answer.None? {
      return Failed(ConnectError);
    }
    var text := BuildReport(code, currentYear, answer.value, indicatorApi);
    return Answered(kses(text));
  }
}
