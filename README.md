# Country Info Visual Editor (WYSIWYG) Button — a Dafny model

The WordPress plugin adds a button to the visual editor. The button asks the
server, over AJAX, for a short HTML report about one country. The server side
is `ci_get_country_info`. It runs the following steps:

1. It ignores users who can edit neither posts nor pages.
2. It rejects a code that is not two bytes long.
3. It rejects a code whose upper-cased form is not a key of the World Bank
   country list `CI_COUNTRIES_ARRAY`.
4. It fetches the country record from the World Bank API. If that fails, it
   ends with an error.
5. It appends five labelled fields of the record to a `<p>` paragraph.
6. It adds the population series and the GDP series. Each series is fetched by
   `ci_get_country_indicators` for the years from five years back to the
   current year and formatted as
   `"1,234,567 (2020), N/A (2019)"`. A failed fetch puts an inline error into
   that field and does not end the request.
7. It filters the report through `wp_kses`, allowing only `p`, `strong` and
   `br`, and echoes it.

Errors are echoed as `<p><strong>message</strong></p>`.

The project models this path in six modules:

- `Wrappers`: `Option`.
- `Text`: the three PHP string functions the path calls:
  - `implode` (`Join`);
  - `strlen`, as a UTF-8 byte count (`ByteLength`);
  - `strtoupper`, ASCII only (`ToUpper`).

  It also holds readers that the model adds for its round-trip lemmas. The plugin does not call them:
  - `explode` (`Split`);
  - the first occurrence of a character (`FirstIndexOf`);
  - cutting a string at a marker (`CutAt`).
- `Numbers`: decimal digits, PHP's integer-to-string conversion, and
  `number_format` on integers (groups of three joined by commas).
- `Countries`: `CI_COUNTRIES_ARRAY` as a Dafny map built from its 218 rows.
- `Indicators`:
  - the indicator URL;
  - observation and series formatting;
  - the `foreach` loop of `ci_get_country_indicators`, as a method with a loop
    invariant.
- `CountryInfo`:
  - validation;
  - error wrapping;
  - report assembly, as a method that appends to the text step by step;
  - the whole request, as a method proved equal to the function `Outcome`.

Every text the plugin builds has a parser beside it: URLs, numbers, segments,
series, reports and error bodies. A round-trip lemma ties each parser to its
builder, so each lemma says exactly what information the text carries.

The request takes as parameters what PHP reads from its environment:

- the two capabilities, as booleans;
- the current year;
- the World Bank API, as two functions from URL to an optional decoded answer;
- `wp_kses`, as a function on strings;
- the registry it validates against.

The lemmas about the plugin's own registry pass `Countries.Registry`.

## Model

| member | source | states |
|---|---|---|
| Countries.TableIsAscending | lib/countries.php:3-222 | The rows of the array, taken in code order, are strictly ascending, so no two rows share a code. |
| Countries.ToMap | lib/countries.php:3-222 | Definition of a PHP array literal as a map, where a later row wins for a repeated key. `Countries.Registry` is `ToMap(Table)`, the constant CI_COUNTRIES_ARRAY. Characterised by Countries.ToMapKeys, Countries.ToMapOfDistinct and Countries.RegistryIsWellFormed. |
| Countries.ToMapOfDistinct | lib/countries.php:3-222 | An array literal whose keys are distinct loses no row: the map has one entry per row, each holding that row's name. |
| Countries.ToMapKeys | lib/countries.php:3-222 | The keys of the map built from the array literal are exactly the codes its rows list. |
| Countries.RegistryIsWellFormed | lib/countries.php:3-222 | CI_COUNTRIES_ARRAY has 218 entries, one per row; its keys are exactly the listed codes, and each key is two upper-case ASCII letters. |
| Countries.RegistryKeysAreCodes | lib/countries.php:4-221 | Every key of the registry is exactly two upper-case ASCII letters. |
| Countries.RegistryKeepsRow | lib/countries.php:4-221 | Every row's code is a key whose value is that row's name. |
| Countries.KnownRows | lib/countries.php:38-217 | The rows for US, GB, XK and JG, with their names, are among the 218 rows. |
| Countries.ListedCountries | lib/countries.php:38-217 | US maps to "United States", GB to "United Kingdom", XK to "Kosovo" and JG to "Channel Islands". |
| Countries.UnlistedBetween | lib/countries.php:3-222 | A code that sorts strictly between two neighbouring codes of the array is not a key. |
| Countries.UnlistedAntarctica | lib/countries.php:6-10 | AQ, which would sort between AO and AR, is not a key. |
| Countries.UnlistedEuropeanUnion | lib/countries.php:65-66 | EU, which would sort between ET and FI, is not a key. |
| Countries.UnlistedCodes | lib/countries.php:3-222 | The well-formed codes AQ and EU are not keys. |
| Text.Join | country-info-visual-editor-button.php:78 | Definition of implode: the parts in order, with the separator between neighbours. Characterised by Text.SplitJoin and Indicators.SeriesSegments. |
| Text.SplitJoin | country-info-visual-editor-button.php:78 | explode undoes implode when there is at least one part and no occurrence of the separator starts inside a part. |
| Text.SplitFromPart | country-info-visual-editor-button.php:78 | Splitting a part that holds no separator, followed by the separator, yields that part and then the split of the rest. |
| Text.ByteLength | country-info-visual-editor-button.php:100 | strlen counts UTF-8 bytes: at least one and at most four per character. |
| Text.AsciiByteLength | country-info-visual-editor-button.php:100 | On ASCII text, strlen equals the number of characters. |
| Text.TwoBytes | country-info-visual-editor-button.php:100 | strlen is 2 exactly for two ASCII characters or one character of two UTF-8 bytes. |
| Text.UpperChar | country-info-visual-editor-button.php:108 | strtoupper raises a-z by 32 and keeps every other character; the result has no lower-case ASCII letter. |
| Text.ToUpper | country-info-visual-editor-button.php:108 | strtoupper keeps the length and maps each character on its own. |
| Text.ToUpperIdempotent | country-info-visual-editor-button.php:108 | Upper-casing twice equals upper-casing once, and keeps the byte length. |
| Text.CutAtJoin | country-info-visual-editor-button.php:56-57 | Cutting p + marker + rest at the first marker character gives back p and rest when p lacks that character. |
| Numbers.Digits | country-info-visual-editor-button.php:57 | The decimal digits PHP prints for a natural number are non-empty and have no leading zero. |
| Numbers.ValueOfDigits | country-info-visual-editor-button.php:57 | Reading the digits of n gives back n. |
| Numbers.DigitsOfValue | country-info-visual-editor-button.php:57 | A canonical digit string is the digits of its value. |
| Numbers.DecimalString | country-info-visual-editor-button.php:51-57 | Definition of PHP's integer-to-string conversion: an optional "-", then the digits. Characterised by Numbers.DecimalStringRoundTrip. |
| Numbers.DecimalStringRoundTrip | country-info-visual-editor-button.php:57 | The year as PHP writes it into the URL reads back as that year, and only that text reads back as that year. |
| Numbers.Groups | country-info-visual-editor-button.php:74 | The digits cut into groups from the right: the first group has 1-3 digits, every later one exactly 3, and their concatenation is the digits. |
| Numbers.NumberFormat | country-info-visual-editor-button.php:74 | Definition of number_format on an integer: the sign, then the digit groups joined by ",". Characterised by Numbers.NumberFormatDigits, Numbers.NumberFormatGroups, Numbers.SplitNumberFormat and Numbers.NumberFormatShape. |
| Numbers.NumberFormatDigits | country-info-visual-editor-button.php:74 | Removing the commas from number_format(n) gives the decimal string of n, which parses back to n. |
| Numbers.SplitNumberFormat | country-info-visual-editor-button.php:74 | Cutting the unsigned part of number_format(n) at its commas gives the digit groups of abs(n). |
| Numbers.NumberFormatGroups | country-info-visual-editor-button.php:74 | number_format(n) starts with "-" exactly for negative n; its comma-separated groups are digits, the first has 1-3 of them, later ones exactly 3, and together they are the digits of abs(n). |
| Numbers.NumberFormatShape | country-info-visual-editor-button.php:74 | number_format(n) holds only digits, commas and a leading sign, and every comma comes before a digit. |
| Numbers.NumberFormatExample | country-info-visual-editor-button.php:74 | 1234567 formats as "1,234,567" and -1234 as "-1,234". |
| Numbers.GroupsExample | country-info-visual-editor-button.php:74 | "1234567" groups as ["1","234","567"]. |
| Indicators.SeriesId | country-info-visual-editor-button.php:54-63 | An indicator name selects a series exactly when it is "population" or "gdp": SP.POP.TOTL for "population" and NY.GDP.MKTP.CD for "gdp". |
| Indicators.IndicatorUrl | country-info-visual-editor-button.php:50-63 | The URL is empty exactly for an indicator name the switch does not handle; otherwise it starts with the API base and "/countries/". |
| Indicators.ParseIndicatorUrl | country-info-visual-editor-button.php:56-61 | A URL that parses as a query is exactly the countries prefix, the code, "/indicators/", the series, "?format=json&date=", the start year, ":" and the end year. So with Indicators.IndicatorUrlRoundTrip, only that URL reads back as that query. |
| Indicators.IndicatorUrlRoundTrip | country-info-visual-editor-button.php:50-63 | The URL reads back as the code as given, the series SP.POP.TOTL or NY.GDP.MKTP.CD, start year current - yearsBack and end year current. |
| Indicators.CountryUrl | country-info-visual-editor-button.php:116 | Definition of the country-record URL: the countries prefix, the code as given, then "?format=json". Characterised by Indicators.CountryUrlRoundTrip. |
| Indicators.ParseCountryUrl | country-info-visual-editor-button.php:116 | A URL that parses as a country request is the prefix, the code and "?format=json". |
| Indicators.CountryUrlRoundTrip | country-info-visual-editor-button.php:116 | The country-record URL reads back as the code as given. |
| Indicators.FormatValue | country-info-visual-editor-button.php:74 | Definition: "N/A" for a PHP-empty value, number_format otherwise. Characterised by Indicators.ParseFormatValue and Indicators.FormatValueShape. |
| Indicators.FormatObservation | country-info-visual-editor-button.php:75 | Definition of sprintf('%s (%s)') on the value and the date. Characterised by Indicators.SegmentRoundTrip. |
| Indicators.SeriesText | country-info-visual-editor-button.php:72-78 | Definition: the formatted observations joined by ", ". Characterised by Indicators.SeriesSegments. |
| Indicators.IndicatorText | country-info-visual-editor-button.php:65-78 | Definition of the result of ci_get_country_indicators: the connection error for a failed request, the series otherwise. Characterised by Indicators.CountryIndicators and CountryInfo.IndicatorFailureStaysInside. |
| Indicators.FormatAll | country-info-visual-editor-button.php:72-76 | One formatted segment per observation, in the order received. |
| Indicators.FormatValueShape | country-info-visual-editor-button.php:74 | A formatted value holds no "(" and no space. |
| Indicators.ParseFormatValue | country-info-visual-editor-button.php:74 | A formatted value reads back as no value when PHP's empty() holds (null or 0), and as the value otherwise. |
| Indicators.ParseSegmentOf | country-info-visual-editor-button.php:75 | A segment "value (date)" reads back as its date and the value its text shows. |
| Indicators.SegmentRoundTrip | country-info-visual-editor-button.php:74-75 | Each segment reads back as its observation, with an empty value shown as N/A. |
| Indicators.SegmentIsSepFree | country-info-visual-editor-button.php:75-78 | A segment whose date has no comma contains no ", " separator. |
| Indicators.SeriesSegments | country-info-visual-editor-button.php:72-78 | The series is "" exactly for no observations; otherwise explode(", ") gives exactly one segment per observation, in order, and each reads back as its observation. |
| Indicators.CountryIndicators | country-info-visual-editor-button.php:49-79 | The loop returns the connection error when the request fails, and otherwise the formatted segments of the answer joined by ", ". |
| Indicators.SeriesOfTwo | country-info-visual-editor-button.php:78 | Two observations join as first, ", ", second; one observation is its segment alone. |
| Indicators.ObservationWithValue | country-info-visual-editor-button.php:74-75 | 1234567 in 2020 formats as "1,234,567 (2020)". |
| Indicators.ObservationsWithoutValue | country-info-visual-editor-button.php:74-75 | A null value and a 0 value both format as "N/A (date)". |
| Indicators.SeriesExample | country-info-visual-editor-button.php:72-78 | The example series formats as "1,234,567 (2020), N/A (2019)", and an empty answer as "". |
| CountryInfo.ErrorResponse | country-info-visual-editor-button.php:87 | Definition of the error body: `<p><strong>`, the message, `</strong></p>`. Characterised by CountryInfo.ErrorResponseRoundTrip and CountryInfo.EchoedOutcome. |
| CountryInfo.ParseErrorResponse | country-info-visual-editor-button.php:87 | A body that parses as an error is `<p><strong>` message `</strong></p>`. |
| CountryInfo.ErrorResponseRoundTrip | country-info-visual-editor-button.php:86-89 | Every error body reads back as its message. |
| CountryInfo.CheckCode | country-info-visual-editor-button.php:98-110 | Definition of the two validation steps against a registry. Characterised by CountryInfo.ValidationOutcomes, CountryInfo.AcceptedCodesIn and CountryInfo.CaseInsensitive. |
| CountryInfo.ValidationError | country-info-visual-editor-button.php:104-110 | Definition: CheckCode against CI_COUNTRIES_ARRAY. Characterised by CountryInfo.AcceptedExamples and CountryInfo.UnknownExamples. |
| CountryInfo.ValidationOutcomes | country-info-visual-editor-button.php:98-110 | The three outcomes partition the codes: a length error exactly when strlen is not 2, an unknown-code error exactly when it is 2 and the upper-cased code is not a key, and acceptance exactly when it is 2 and the upper-cased code is a key. |
| CountryInfo.AcceptedCodesIn | country-info-visual-editor-button.php:98-110 | Against a registry of two-letter keys, a code is accepted exactly when it is two ASCII letters, in either case, whose upper-cased form is a key. |
| CountryInfo.CaseInsensitive | country-info-visual-editor-button.php:108 | Upper-casing the code first never changes the validation outcome. |
| CountryInfo.AcceptedExamples | country-info-visual-editor-button.php:108-110 | "us", "Gb" and "xk" pass validation against CI_COUNTRIES_ARRAY. |
| CountryInfo.LengthExamples | country-info-visual-editor-button.php:100-102 | "USA" and "" fail with the length error, whatever the registry. |
| CountryInfo.UnknownExamples | country-info-visual-editor-button.php:100-110 | "aq", "EU" and a one-character two-byte code pass the length check but fail as unknown codes. |
| CountryInfo.RenderField | country-info-visual-editor-button.php:122-137 | Definition of one field: `<strong>`, the title, `</strong>`, the value, `<br />`. Characterised by CountryInfo.FieldsRoundTrip and CountryInfo.FieldMarkup. |
| CountryInfo.RenderFields | country-info-visual-editor-button.php:122-137 | Definition: the fields rendered one after another. Characterised by CountryInfo.FieldsRoundTrip. |
| CountryInfo.Report | country-info-visual-editor-button.php:113-139 | Definition: the rendered fields inside `<p>` and `</p>`. Characterised by CountryInfo.ReportRoundTrip and CountryInfo.ReportMarkup. |
| CountryInfo.ReportFields | country-info-visual-editor-button.php:122-137 | Definition of the seven fields, in the source's order. Characterised by CountryInfo.AnsweredReport and CountryInfo.IndicatorFailureStaysInside. |
| CountryInfo.ReportText | country-info-visual-editor-button.php:113-139 | Definition of the report before wp_kses, for the code as given. Characterised by CountryInfo.BuildReport and CountryInfo.AnsweredReport. |
| CountryInfo.ParseFields | country-info-visual-editor-button.php:122-137 | Fields that parse from a text render back to exactly that text. |
| CountryInfo.ParseReport | country-info-visual-editor-button.php:113-139 | A report that parses has the fields inside one `<p>` paragraph. |
| CountryInfo.FieldsRoundTrip | country-info-visual-editor-button.php:122-137 | The rendered fields read back as the same fields, in order, when no title or value contains "<". |
| CountryInfo.ReportRoundTrip | country-info-visual-editor-button.php:113-139 | The report reads back as its fields, in order. |
| CountryInfo.RenderFieldsAppend | country-info-visual-editor-button.php:122-137 | Appending one field to the text appends its rendering to the report. |
| CountryInfo.AppendField | country-info-visual-editor-button.php:122-137 | One `.=` of `<strong>title</strong>value<br />` keeps the text equal to `<p>` plus the rendered fields so far, with the new field added. |
| CountryInfo.AllOfConcat | country-info-visual-editor-button.php:113-139 | Two texts whose characters all belong to a class concatenate to such a text, as each `.=` does. |
| CountryInfo.JoinAllOf | country-info-visual-editor-button.php:78 | Joining parts of a character class by a separator of that class gives a text of that class. |
| CountryInfo.PlainIsAdmitted | country-info-visual-editor-button.php:113-139 | A plain text belongs to every class that admits the plain characters. |
| CountryInfo.ObservationAllOf | country-info-visual-editor-button.php:74-75 | A segment belongs to any class that admits the plain characters and the characters of its date: the value part is plain. |
| CountryInfo.IndicatorTextAllOf | country-info-visual-editor-button.php:65-78 | An indicator text (series or connection error) belongs to any class that admits the plain characters and the characters of the dates the API sent. |
| CountryInfo.RecordTitlesArePlain | country-info-visual-editor-button.php:122-124 | The titles "Country name: ", "Capital City: " and "ISO Code: " are plain. |
| CountryInfo.OtherTitlesArePlain | country-info-visual-editor-button.php:125-135 | The titles of Region, Income Level, Population and GDP are plain. |
| CountryInfo.ReportFieldsAllOf | country-info-visual-editor-button.php:122-137 | The seven titles, and the values from a record and series whose characters belong to such a class, belong to any class that admits the plain characters. |
| CountryInfo.SafeMarkupConcat | country-info-visual-editor-button.php:142-147 | Two texts of safe markup concatenate to safe markup. Safe markup means every character is plain, or is the "<" that starts an allowed tag, or is the ">" that ends one. |
| CountryInfo.SafeTags | country-info-visual-editor-button.php:142-146 | `<p>`, `</p>`, `<strong>`, `</strong>` and `<br />` are each safe markup: the allowed tags, without attributes. |
| CountryInfo.FieldMarkup | country-info-visual-editor-button.php:122-137 | A rendered field with a plain title and value is safe markup. |
| CountryInfo.ReportMarkup | country-info-visual-editor-button.php:113-147 | A report of plain fields is safe markup. Every "<" opens a p, strong or br tag without attributes, the set wp_kses is told to keep. Every ">" closes one. No "&", backslash or control character occurs, so wp_kses has no entity to normalise and nothing to strip. |
| CountryInfo.Outcome | country-info-visual-editor-button.php:91-151 | Definition of how the request ends. Characterised by CountryInfo.OutcomeCases, CountryInfo.AnsweredReport, CountryInfo.EchoedOutcome and CountryInfo.GetCountryInfo. |
| CountryInfo.Echoed | country-info-visual-editor-button.php:86-89 | Definition of what the handler echoes: nothing, the error body, or the filtered report. Characterised by CountryInfo.EchoedOutcome and CountryInfo.EchoedReport. |
| CountryInfo.OutcomeCases | country-info-visual-editor-button.php:91-151 | The request is ignored exactly without a capability. It fails with the length error, the unknown-code error or the connection error exactly in the cases that trigger them, in that order. It answers exactly when validation passes and the record request succeeds. |
| CountryInfo.AnsweredReport | country-info-visual-editor-button.php:113-147 | An answered request echoes wp_kses of the report, and the report reads back as the five record fields, then Population, then GDP. |
| CountryInfo.EchoedReport | country-info-visual-editor-button.php:142-147 | When the record fields and dates are plain and wp_kses leaves safe markup unchanged, the echoed body is the report itself, and it reads back as the seven fields. |
| CountryInfo.EchoedOutcome | country-info-visual-editor-button.php:86-118 | The length, unknown-code and connection failures each echo `<p><strong>` plus their own message plus `</strong></p>`, and the message reads back from the echoed body. An ignored request echoes nothing. |
| CountryInfo.IndicatorFailureStaysInside | country-info-visual-editor-button.php:65-68 | A failed indicator request does not end the request. The answer still holds seven fields, and the failed series' field holds the connection error. |
| CountryInfo.RecordRequestUsesCodeAsGiven | country-info-visual-editor-button.php:116 | For every code, the record URL carries the code as given, not upper-cased: a code that upper-casing changes gives a different URL from its upper-cased form. |
| CountryInfo.IndicatorRequestUsesCodeAsGiven | country-info-visual-editor-button.php:56-61 | The indicator URLs carry the code as given, not upper-cased, with the window from five years back to the current year. |
| CountryInfo.BuildReport | country-info-visual-editor-button.php:113-139 | The step-by-step `.=` appends produce exactly the report of the record and the two series. |
| CountryInfo.GetCountryInfo | country-info-visual-editor-button.php:91-151 | The request's steps produce exactly `Outcome`, whose cases `OutcomeCases`, `AnsweredReport` and `IndicatorFailureStaysInside` describe. |

## Left out

- WordPress registration glue (`ci_enqueue_plugin_scripts`, `ci_register_buttons_editor`, the `admin_init` hook, `add_action`): platform wiring with no logic of its own.
- `current_user_can`: its results are the two boolean parameters.
- `Ignored`: the model does not say what WordPress outputs when the handler returns early.
- `wp_remote_get`, `is_wp_error`, `wp_remote_retrieve_body` and `json_decode` are abstracted. Each request is a function parameter that maps the URL to `None` (transport failure) or to the decoded answer.
- The World Bank API is not modelled. A decoded answer without data is represented as an empty observation list. A record with missing fields is represented as empty strings, which is what PHP's null concatenation yields.
- `Indicators.IndicatorUrl`: for an indicator name other than "population" or "gdp", the URL is "". The source then requests "", and that request fails. The model leaves the answer to "" to the API parameter; the request path only ever uses the two handled names.
- `sanitize_text_field` is not part of this model. The code is taken as already sanitized.
- `isset` on the sanitized code is always true, so the model drops that test.
- `wp_kses` is a parameter, not a model of that library function. `CountryInfo.ReportMarkup` and `CountryInfo.EchoedReport` state what it is asked to keep.
- `date('Y')` reads the clock. The current year is a parameter.
- `echo` and `wp_die` become the returned `Response`.
- Observation values are integers or null. The source also handles the strings "" and "0" and floats: `number_format` rounds floats, and `empty()` holds for those strings. Neither is modelled.
- Dates are arbitrary strings. The series lemmas require them to contain no ",", the round-trip lemmas require no "<", and `CountryInfo.EchoedReport` requires them to be plain. World Bank years satisfy all three.
- `CountryInfo.AnsweredReport`, `CountryInfo.IndicatorFailureStaysInside` and `CountryInfo.ReportRoundTrip` require the five record fields to contain no "<". A "<" in a field would make the report ambiguous to read back.
- `CountryInfo.EchoedReport` requires the record fields to be plain: no "<", ">", "&", backslash or control character. wp_kses is not the identity on other text: it rewrites "&" as "&amp;" and a lone ">" as "&gt;". Region names such as "Europe & Central Asia" contain "&", so for such countries the model does not say what the echoed body is. It only says it is wp_kses of the report (`CountryInfo.AnsweredReport`).
- `Numbers.NumberFormat` formats an unbounded integer exactly. PHP integers are 64-bit: json_decode turns a larger value into a float, and number_format prints a float above 2^53 rounded. The model does not capture either.
- `CountryInfo.ReportText` passes one current year to both series. The source calls `date('Y')` inside each `ci_get_country_indicators` call, so the population and GDP windows could differ if the year changes between the two calls. The model does not capture that.
- `Countries.Table` lists the rows of CI_COUNTRIES_ARRAY sorted by code, not in the order of the source file. The codes are distinct, so the resulting map is the same.
- The registry is a parameter of `CountryInfo.CheckCode`, `CountryInfo.Outcome` and `CountryInfo.GetCountryInfo`, where the source loads the constant with `require`. `CountryInfo.ValidationError` and the example lemmas instantiate it with `Countries.Registry`.
- `Countries.Registry` is a Dafny `const`, so it cannot change at run time. No lemma is needed for that.
