/**
 * The World Bank country list that country codes are validated against:
 * the constant array CI_COUNTRIES_ARRAY of lib/countries.php, which maps a
 * two-letter code to the country's display name.
 *
 * The 218 rows are listed here in ascending order of code (the original
 * array lists them in the World Bank's order); the array is only ever
 * queried by key, so the order of its rows is not observable. They are
 * written as fourteen pages, by initial letter, so that the facts about each
 * page are checked on their own.
 */
module Countries {
  import opened Text

  /** One row of the array: a code and the country's display name. */
  type Row = (string, string)

  /** Exactly two upper-case ASCII letters. */
  predicate IsCode(k: string) {
    |k| == 2 && IsAsciiUpper(k[0]) && IsAsciiUpper(k[1])
  }

  /** a and b are codes and a sorts strictly before b. */
  predicate Before(a: string, b: string) {
    IsCode(a) && IsCode(b) && (a[0] < b[0] || (a[0] == b[0] && a[1] < b[1]))
  }

  /** Each row's code sorts strictly before the next row's code. */
  predicate Ascending(rows: seq<Row>) {
    forall i :: 0 <= i < |rows| - 1 ==> Before(rows[i].0, rows[i + 1].0)
  }

  /** No two rows carry the same code. */
  predicate DistinctCodes(rows: seq<Row>) {
    forall i, j :: 0 <= i < j < |rows| ==> rows[i].0 != rows[j].0
  }

  /** Some row carries code k. */
  predicate Lists(rows: seq<Row>, k: string) {
    exists i :: 0 <= i < |rows| && rows[i].0 == k
  }

  /** The rows whose code starts with A, in ascending order of code. */
  function RowsA(): (rows: seq<Row>)
    ensures |rows| == 13
    ensures forall i :: 0 <= i < |rows| - 1 ==> Before(rows[i].0, rows[i + 1].0)
    ensures IsCode(rows[0].0) && rows[0].0[0] == 'A'
    ensures IsCode(rows[|rows| - 1].0) && rows[|rows| - 1].0[0] == 'A'
  {
    [
      ("AD", "Andorra"),
      ("AE", "United Arab Emirates"),
      ("AF", "Afghanistan"),
      ("AG", "Antigua and Barbuda"),
      ("AL", "Albania"),
      ("AM", "Armenia"),
      ("AO", "Angola"),
      ("AR", "Argentina"),
      ("AS", "American Samoa"),
      ("AT", "Austria"),
      ("AU", "Australia"),
      ("AW", "Aruba"),
      ("AZ", "Azerbaijan")
    ]
  }

  /** The rows whose code starts with B, in ascending order of code. */
  function RowsB(): (rows: seq<Row>)
    ensures |rows| == 18
    ensures forall i :: 0 <= i < |rows| - 1 ==> Before(rows[i].0, rows[i + 1].0)
    ensures IsCode(rows[0].0) && rows[0].0[0] == 'B'
    ensures IsCode(rows[|rows| - 1].0) && rows[|rows| - 1].0[0] == 'B'
  {
    [
      ("BA", "Bosnia and Herzegovina"),
      ("BB", "Barbados"),
      ("BD", "Bangladesh"),
      ("BE", "Belgium"),
      ("BF", "Burkina Faso"),
      ("BG", "Bulgaria"),
      ("BH", "Bahrain"),
      ("BI", "Burundi"),
      ("BJ", "Benin"),
      ("BM", "Bermuda"),
      ("BN", "Brunei Darussalam"),
      ("BO", "Bolivia"),
      ("BR", "Brazil"),
      ("BS", "Bahamas, The"),
      ("BT", "Bhutan"),
      ("BW", "Botswana"),
      ("BY", "Belarus"),
      ("BZ", "Belize")
    ]
  }

  /** The rows whose code starts with C, in ascending order of code. */
  function RowsC(): (rows: seq<Row>)
    ensures |rows| == 16
    ensures forall i :: 0 <= i < |rows| - 1 ==> Before(rows[i].0, rows[i + 1].0)
    ensures IsCode(rows[0].0) && rows[0].0[0] == 'C'
    ensures IsCode(rows[|rows| - 1].0) && rows[|rows| - 1].0[0] == 'C'
  {
    [
      ("CA", "Canada"),
      ("CD", "Congo, Dem. Rep."),
      ("CF", "Central African Republic"),
      ("CG", "Congo, Rep."),
      ("CH", "Switzerland"),
      ("CI", "Cote d'Ivoire"),
      ("CL", "Chile"),
      ("CM", "Cameroon"),
      ("CN", "China"),
      ("CO", "Colombia"),
      ("CR", "Costa Rica"),
      ("CU", "Cuba"),
      ("CV", "Cabo Verde"),
      ("CW", "Curacao"),
      ("CY", "Cyprus"),
      ("CZ", "Czech Republic")
    ]
  }

  /** The rows whose code starts with D to F, in ascending order of code. */
  function RowsDToF(): (rows: seq<Row>)
    ensures |rows| == 17
    ensures forall i :: 0 <= i < |rows| - 1 ==> Before(rows[i].0, rows[i + 1].0)
    ensures IsCode(rows[0].0) && rows[0].0[0] == 'D'
    ensures IsCode(rows[|rows| - 1].0) && rows[|rows| - 1].0[0] == 'F'
  {
    [
      ("DE", "Germany"),
      ("DJ", "Djibouti"),
      ("DK", "Denmark"),
      ("DM", "Dominica"),
      ("DO", "Dominican Republic"),
      ("DZ", "Algeria"),
      ("EC", "Ecuador"),
      ("EE", "Estonia"),
      ("EG", "Egypt, Arab Rep."),
      ("ER", "Eritrea"),
      ("ES", "Spain"),
      ("ET", "Ethiopia"),
      ("FI", "Finland"),
      ("FJ", "Fiji"),
      ("FM", "Micronesia, Fed. Sts."),
      ("FO", "Faroe Islands"),
      ("FR", "France")
    ]
  }

  /** The rows whose code starts with G, in ascending order of code. */
  function RowsG(): (rows: seq<Row>)
    ensures |rows| == 15
    ensures forall i :: 0 <= i < |rows| - 1 ==> Before(rows[i].0, rows[i + 1].0)
    ensures IsCode(rows[0].0) && rows[0].0[0] == 'G'
    ensures IsCode(rows[|rows| - 1].0) && rows[|rows| - 1].0[0] == 'G'
  {
    [
      ("GA", "Gabon"),
      ("GB", "United Kingdom"),
      ("GD", "Grenada"),
      ("GE", "Georgia"),
      ("GH", "Ghana"),
      ("GI", "Gibraltar"),
      ("GL", "Greenland"),
      ("GM", "Gambia, The"),
      ("GN", "Guinea"),
      ("GQ", "Equatorial Guinea"),
      ("GR", "Greece"),
      ("GT", "Guatemala"),
      ("GU", "Guam"),
      ("GW", "Guinea-Bissau"),
      ("GY", "Guyana")
    ]
  }

  /** The rows whose code starts with H to J, in ascending order of code. */
  function RowsHToJ(): (rows: seq<Row>)
    ensures |rows| == 18
    ensures forall i :: 0 <= i < |rows| - 1 ==> Before(rows[i].0, rows[i + 1].0)
    ensures IsCode(rows[0].0) && rows[0].0[0] == 'H'
    ensures IsCode(rows[|rows| - 1].0) && rows[|rows| - 1].0[0] == 'J'
  {
    [
      ("HK", "Hong Kong SAR, China"),
      ("HN", "Honduras"),
      ("HR", "Croatia"),
      ("HT", "Haiti"),
      ("HU", "Hungary"),
      ("ID", "Indonesia"),
      ("IE", "Ireland"),
      ("IL", "Israel"),
      ("IM", "Isle of Man"),
      ("IN", "India"),
      ("IQ", "Iraq"),
      ("IR", "Iran, Islamic Rep."),
      ("IS", "Iceland"),
      ("IT", "Italy"),
      ("JG", "Channel Islands"),
      ("JM", "Jamaica"),
      ("JO", "Jordan"),
      ("JP", "Japan")
    ]
  }

  /** The rows whose code starts with K, in ascending order of code. */
  function RowsK(): (rows: seq<Row>)
    ensures |rows| == 11
    ensures forall i :: 0 <= i < |rows| - 1 ==> Before(rows[i].0, rows[i + 1].0)
    ensures IsCode(rows[0].0) && rows[0].0[0] == 'K'
    ensures IsCode(rows[|rows| - 1].0) && rows[|rows| - 1].0[0] == 'K'
  {
    [
      ("KE", "Kenya"),
      ("KG", "Kyrgyz Republic"),
      ("KH", "Cambodia"),
      ("KI", "Kiribati"),
      ("KM", "Comoros"),
      ("KN", "St. Kitts and Nevis"),
      ("KP", "Korea, Dem. People\U{2019}s Rep."),
      ("KR", "Korea, Rep."),
      ("KW", "Kuwait"),
      ("KY", "Cayman Islands"),
      ("KZ", "Kazakhstan")
    ]
  }

  /** The rows whose code starts with L, in ascending order of code. */
  function RowsL(): (rows: seq<Row>)
    ensures |rows| == 11
    ensures forall i :: 0 <= i < |rows| - 1 ==> Before(rows[i].0, rows[i + 1].0)
    ensures IsCode(rows[0].0) && rows[0].0[0] == 'L'
    ensures IsCode(rows[|rows| - 1].0) && rows[|rows| - 1].0[0] == 'L'
  {
    [
      ("LA", "Lao PDR"),
      ("LB", "Lebanon"),
      ("LC", "St. Lucia"),
      ("LI", "Liechtenstein"),
      ("LK", "Sri Lanka"),
      ("LR", "Liberia"),
      ("LS", "Lesotho"),
      ("LT", "Lithuania"),
      ("LU", "Luxembourg"),
      ("LV", "Latvia"),
      ("LY", "Libya")
    ]
  }

  /** The rows whose code starts with M, in ascending order of code. */
  function RowsM(): (rows: seq<Row>)
    ensures |rows| == 21
    ensures forall i :: 0 <= i < |rows| - 1 ==> Before(rows[i].0, rows[i + 1].0)
    ensures IsCode(rows[0].0) && rows[0].0[0] == 'M'
    ensures IsCode(rows[|rows| - 1].0) && rows[|rows| - 1].0[0] == 'M'
  {
    [
      ("MA", "Morocco"),
      ("MC", "Monaco"),
      ("MD", "Moldova"),
      ("ME", "Montenegro"),
      ("MF", "St. Martin (French part)"),
      ("MG", "Madagascar"),
      ("MH", "Marshall Islands"),
      ("MK", "Macedonia, FYR"),
      ("ML", "Mali"),
      ("MM", "Myanmar"),
      ("MN", "Mongolia"),
      ("MO", "Macao SAR, China"),
      ("MP", "Northern Mariana Islands"),
      ("MR", "Mauritania"),
      ("MT", "Malta"),
      ("MU", "Mauritius"),
      ("MV", "Maldives"),
      ("MW", "Malawi"),
      ("MX", "Mexico"),
      ("MY", "Malaysia"),
      ("MZ", "Mozambique")
    ]
  }

  /** The rows whose code starts with N to O, in ascending order of code. */
  function RowsNToO(): (rows: seq<Row>)
    ensures |rows| == 11
    ensures forall i :: 0 <= i < |rows| - 1 ==> Before(rows[i].0, rows[i + 1].0)
    ensures IsCode(rows[0].0) && rows[0].0[0] == 'N'
    ensures IsCode(rows[|rows| - 1].0) && rows[|rows| - 1].0[0] == 'O'
  {
    [
      ("NA", "Namibia"),
      ("NC", "New Caledonia"),
      ("NE", "Niger"),
      ("NG", "Nigeria"),
      ("NI", "Nicaragua"),
      ("NL", "Netherlands"),
      ("NO", "Norway"),
      ("NP", "Nepal"),
      ("NR", "Nauru"),
      ("NZ", "New Zealand"),
      ("OM", "Oman")
    ]
  }

  /** The rows whose code starts with P to R, in ascending order of code. */
  function RowsPToR(): (rows: seq<Row>)
    ensures |rows| == 17
    ensures forall i :: 0 <= i < |rows| - 1 ==> Before(rows[i].0, rows[i + 1].0)
    ensures IsCode(rows[0].0) && rows[0].0[0] == 'P'
    ensures IsCode(rows[|rows| - 1].0) && rows[|rows| - 1].0[0] == 'R'
  {
    [
      ("PA", "Panama"),
      ("PE", "Peru"),
      ("PF", "French Polynesia"),
      ("PG", "Papua New Guinea"),
      ("PH", "Philippines"),
      ("PK", "Pakistan"),
      ("PL", "Poland"),
      ("PR", "Puerto Rico"),
      ("PS", "West Bank and Gaza"),
      ("PT", "Portugal"),
      ("PW", "Palau"),
      ("PY", "Paraguay"),
      ("QA", "Qatar"),
      ("RO", "Romania"),
      ("RS", "Serbia"),
      ("RU", "Russian Federation"),
      ("RW", "Rwanda")
    ]
  }

  /** The rows whose code starts with S, in ascending order of code. */
  function RowsS(): (rows: seq<Row>)
    ensures |rows| == 19
    ensures forall i :: 0 <= i < |rows| - 1 ==> Before(rows[i].0, rows[i + 1].0)
    ensures IsCode(rows[0].0) && rows[0].0[0] == 'S'
    ensures IsCode(rows[|rows| - 1].0) && rows[|rows| - 1].0[0] == 'S'
  {
    [
      ("SA", "Saudi Arabia"),
      ("SB", "Solomon Islands"),
      ("SC", "Seychelles"),
      ("SD", "Sudan"),
      ("SE", "Sweden"),
      ("SG", "Singapore"),
      ("SI", "Slovenia"),
      ("SK", "Slovak Republic"),
      ("SL", "Sierra Leone"),
      ("SM", "San Marino"),
      ("SN", "Senegal"),
      ("SO", "Somalia"),
      ("SR", "Suriname"),
      ("SS", "South Sudan"),
      ("ST", "Sao Tome and Principe"),
      ("SV", "El Salvador"),
      ("SX", "Sint Maarten (Dutch part)"),
      ("SY", "Syrian Arab Republic"),
      ("SZ", "Swaziland")
    ]
  }

  /** The rows whose code starts with T, in ascending order of code. */
  function RowsT(): (rows: seq<Row>)
    ensures |rows| == 14
    ensures forall i :: 0 <= i < |rows| - 1 ==> Before(rows[i].0, rows[i + 1].0)
    ensures IsCode(rows[0].0) && rows[0].0[0] == 'T'
    ensures IsCode(rows[|rows| - 1].0) && rows[|rows| - 1].0[0] == 'T'
  {
    [
      ("TC", "Turks and Caicos Islands"),
      ("TD", "Chad"),
      ("TG", "Togo"),
      ("TH", "Thailand"),
      ("TJ", "Tajikistan"),
      ("TL", "Timor-Leste"),
      ("TM", "Turkmenistan"),
      ("TN", "Tunisia"),
      ("TO", "Tonga"),
      ("TR", "Turkey"),
      ("TT", "Trinidad and Tobago"),
      ("TV", "Tuvalu"),
      ("TW", "Taiwan, China"),
      ("TZ", "Tanzania")
    ]
  }

  /** The rows whose code starts with U to Z, in ascending order of code. */
  function RowsUToZ(): (rows: seq<Row>)
    ensures |rows| == 17
    ensures forall i :: 0 <= i < |rows| - 1 ==> Before(rows[i].0, rows[i + 1].0)
    ensures IsCode(rows[0].0) && rows[0].0[0] == 'U'
    ensures IsCode(rows[|rows| - 1].0) && rows[|rows| - 1].0[0] == 'Z'
  {
    [
      ("UA", "Ukraine"),
      ("UG", "Uganda"),
      ("US", "United States"),
      ("UY", "Uruguay"),
      ("UZ", "Uzbekistan"),
      ("VC", "St. Vincent and the Grenadines"),
      ("VE", "Venezuela, RB"),
      ("VG", "British Virgin Islands"),
      ("VI", "Virgin Islands (U.S.)"),
      ("VN", "Vietnam"),
      ("VU", "Vanuatu"),
      ("WS", "Samoa"),
      ("XK", "Kosovo"),
      ("YE", "Yemen, Rep."),
      ("ZA", "South Africa"),
      ("ZM", "Zambia"),
      ("ZW", "Zimbabwe")
    ]
  }

  /**
   * Two ascending runs, the first ending before the second starts, make one
   * ascending run, which starts where the first starts and ends where the
   * second ends.
   */
  lemma {:induction false} JoinAscending(a: seq<Row>, b: seq<Row>)
    requires Ascending(a) && Ascending(b) && |a| > 0 && |b| > 0
    requires Before(a[|a| - 1].0, b[0].0)
    ensures Ascending(a + b)
    ensures (a + b)[0] == a[0] && (a + b)[|a + b| - 1] == b[|b| - 1]
  {
    var ab := a + b;
    forall i | 0 <= i < |ab| - 1
      ensures Before(ab[i].0, ab[i + 1].0)
    {
      if i + 1 < |a| {
        assert ab[i] == a[i] && ab[i + 1] == a[i + 1];
      } else if i >= |a| {
        assert ab[i] == b[i - |a|] && ab[i + 1] == b[i - |a| + 1];
      } else {
        assert ab[i] == a[|a| - 1] && ab[i + 1] == b[0];
      }
    }
  }

  /** In an ascending run every code sorts before every later code. */
  lemma {:induction false} AscendingIsOrdered(rows: seq<Row>, i: nat, j: nat)
    requires Ascending(rows) && i < j < |rows|
    ensures Before(rows[i].0, rows[j].0)
    decreases j - i
  {
    if i + 1 < j {
      AscendingIsOrdered(rows, i + 1, j);
    }
  }

  /** An ascending run of two or more rows lists only codes, each at most once. */
  lemma AscendingIsDistinct(rows: seq<Row>)
    requires Ascending(rows)
    ensures DistinctCodes(rows)
    ensures 1 < |rows| ==> forall i :: 0 <= i < |rows| ==> IsCode(rows[i].0)
  {
    forall i, j | 0 <= i < j < |rows|
      ensures rows[i].0 != rows[j].0
    {
      AscendingIsOrdered(rows, i, j);
    }
    forall i | 0 <= i < |rows| && 1 < |rows|
      ensures IsCode(rows[i].0)
    {
      if i + 1 < |rows| {
        assert Before(rows[i].0, rows[i + 1].0);
      } else {
        assert Before(rows[i - 1].0, rows[i].0);
      }
    }
  }

  /** A code that sorts strictly between two neighbouring rows of an ascending run is not listed. */
  lemma NotListedBetween(rows: seq<Row>, k: nat, code: string)
    requires Ascending(rows) && k + 1 < |rows|
    requires Before(rows[k].0, code) && Before(code, rows[k + 1].0)
    ensures !Lists(rows, code)
  {
    if Lists(rows, code) {
      var i :| 0 <= i < |rows| && rows[i].0 == code;
      if i < k {
        AscendingIsOrdered(rows, i, k);
      } else if k + 1 < i {
        AscendingIsOrdered(rows, k + 1, i);
      }
    }
  }

  /** All rows of CI_COUNTRIES_ARRAY, page after page. */
  const Table: seq<Row> :=
    RowsA() + RowsB() + RowsC() + RowsDToF() + RowsG() + RowsHToJ() + RowsK() +
    RowsL() + RowsM() + RowsNToO() + RowsPToR() + RowsS() + RowsT() + RowsUToZ()

  /** The pages A to F join into one ascending run: 64 rows, ending with a code that starts with F. */
  lemma {:induction false} FirstPagesAscending()
    ensures var t := RowsA() + RowsB() + RowsC() + RowsDToF();
      |t| == 64 && Ascending(t) && IsCode(t[|t| - 1].0) && t[|t| - 1].0[0] == 'F'
  {
    var t := RowsA();
    JoinAscending(t, RowsB());
    t := t + RowsB();
    JoinAscending(t, RowsC());
    t := t + RowsC();
    JoinAscending(t, RowsDToF());
  }

  /** The pages G to L continue that run: 119 rows, ending with a code that starts with L. */
  lemma {:induction false} SecondPagesAscending()
    ensures var t := RowsA() + RowsB() + RowsC() + RowsDToF() + RowsG() + RowsHToJ() + RowsK() +
        RowsL();
      |t| == 119 && Ascending(t) && IsCode(t[|t| - 1].0) && t[|t| - 1].0[0] == 'L'
  {
    FirstPagesAscending();
    var t := RowsA() + RowsB() + RowsC() + RowsDToF();
    JoinAscending(t, RowsG());
    t := t + RowsG();
    JoinAscending(t, RowsHToJ());
    t := t + RowsHToJ();
    JoinAscending(t, RowsK());
    t := t + RowsK();
    JoinAscending(t, RowsL());
  }

  /** The pages M to R continue that run: 168 rows, ending with a code that starts with R. */
  lemma {:induction false} ThirdPagesAscending()
    ensures var t := RowsA() + RowsB() + RowsC() + RowsDToF() + RowsG() + RowsHToJ() + RowsK() +
        RowsL() + RowsM() + RowsNToO() + RowsPToR();
      |t| == 168 && Ascending(t) && IsCode(t[|t| - 1].0) && t[|t| - 1].0[0] == 'R'
  {
    SecondPagesAscending();
    var t := RowsA() + RowsB() + RowsC() + RowsDToF() + RowsG() + RowsHToJ() + RowsK() +
      RowsL();
    JoinAscending(t, RowsM());
    t := t + RowsM();
    JoinAscending(t, RowsNToO());
    t := t + RowsNToO();
    JoinAscending(t, RowsPToR());
  }

  /** The whole array is one ascending run of 218 rows. */
  lemma {:induction false} TableIsAscending()
    ensures |Table| == 218 && Ascending(Table)
  {
    ThirdPagesAscending();
    var t := RowsA() + RowsB() + RowsC() + RowsDToF() + RowsG() + RowsHToJ() + RowsK() +
      RowsL() + RowsM() + RowsNToO() + RowsPToR();
    JoinAscending(t, RowsS());
    t := t + RowsS();
    JoinAscending(t, RowsT());
    t := t + RowsT();
    JoinAscending(t, RowsUToZ());
  }

  /**
   * The map a PHP array literal builds from its rows: each row adds its key,
   * and a later row whose key is already present replaces the earlier value.
   */
  function ToMap(rows: seq<Row>): map<string, string>
  {
    if rows == [] then map[]
    else ToMap(rows[..|rows| - 1])[rows[|rows| - 1].0 := rows[|rows| - 1].1]
  }

  /** The keys of the map are exactly the codes its rows carry. */
  lemma {:induction false} ToMapKeys(rows: seq<Row>)
    ensures forall k :: k in ToMap(rows) <==> Lists(rows, k)
  {
    if rows != [] {
      var n := |rows| - 1;
      var prefix := rows[..n];
      ToMapKeys(prefix);
      forall k ensures k in ToMap(rows) <==> Lists(rows, k) {
        if Lists(prefix, k) {
          var i :| 0 <= i < |prefix| && prefix[i].0 == k;
          assert rows[i] == prefix[i];
        }
        if Lists(rows, k) && k != rows[n].0 {
          var i :| 0 <= i < |rows| && rows[i].0 == k;
          assert prefix[i] == rows[i];
        }
      }
    }
  }

  /** When no code repeats, the map has one entry per row and keeps every row's name. */
  lemma {:induction false} ToMapOfDistinct(rows: seq<Row>)
    requires DistinctCodes(rows)
    ensures |ToMap(rows)| == |rows|
    ensures forall i :: 0 <= i < |rows| ==> rows[i].0 in ToMap(rows) && ToMap(rows)[rows[i].0] == rows[i].1
  {
    if rows != [] {
      var n := |rows| - 1;
      var prefix := rows[..n];
      assert DistinctCodes(prefix) by {
        forall i, j | 0 <= i < j < |prefix| ensures prefix[i].0 != prefix[j].0 {
          assert prefix[i] == rows[i] && prefix[j] == rows[j];
        }
      }
      ToMapOfDistinct(prefix);
      ToMapKeys(prefix);
      forall i | 0 <= i < |rows| ensures rows[i].0 in ToMap(rows) && ToMap(rows)[rows[i].0] == rows[i].1 {
        if i < n {
          assert prefix[i] == rows[i];
        }
      }
    }
  }

  /** CI_COUNTRIES_ARRAY: code => display name. */
  const Registry: map<string, string> := ToMap(Table)

  /**
   * The registry has one entry per row of the array (no row is shadowed by a
   * later row with the same key), and its keys are exactly the rows' codes,
   * each two upper-case letters.
   */
  lemma RegistryIsWellFormed()
    ensures |Registry| == |Table| == 218
    ensures forall k :: k in Registry <==> Lists(Table, k)
    ensures forall k :: k in Registry ==> IsCode(k)
  {
    TableIsAscending();
    AscendingIsDistinct(Table);
    ToMapOfDistinct(Table);
    ToMapKeys(Table);
  }

  /** Every key of the registry is two upper-case letters. */
  lemma RegistryKeysAreCodes()
    ensures forall k :: k in Registry ==> IsCode(k)
  {
    RegistryIsWellFormed();
  }

  /** Every row's name is the value of its code in the registry. */
  lemma RegistryKeepsRow(i: nat)
    requires i < |Table|
    ensures Table[i].0 in Registry && Registry[Table[i].0] == Table[i].1
  {
    TableIsAscending();
    AscendingIsDistinct(Table);
    ToMapOfDistinct(Table);
  }

  /** Where four of the rows sit in the array. */
  lemma KnownRows()
    ensures |Table| == 218
    ensures Table[203] == ("US", "United States")
    ensures Table[65] == ("GB", "United Kingdom")
    ensures Table[213] == ("XK", "Kosovo")
    ensures Table[93] == ("JG", "Channel Islands")
  {
  }

  /** Rows the array lists, among them the World Bank's own codes JG and XK. */
  lemma ListedCountries()
    ensures "US" in Registry && Registry["US"] == "United States"
    ensures "GB" in Registry && Registry["GB"] == "United Kingdom"
    ensures "XK" in Registry && Registry["XK"] == "Kosovo"
    ensures "JG" in Registry && Registry["JG"] == "Channel Islands"
  {
    KnownRows();
    RegistryKeepsRow(203);
    RegistryKeepsRow(65);
    RegistryKeepsRow(213);
    RegistryKeepsRow(93);
  }

  /** A code that sorts strictly between two neighbouring rows of the array is not a key. */
  lemma UnlistedBetween(k: nat, code: string)
    requires k + 1 < |Table|
    requires Before(Table[k].0, code) && Before(code, Table[k + 1].0)
    ensures code !in Registry
  {
    TableIsAscending();
    ToMapKeys(Table);
    NotListedBetween(Table, k, code);
  }

  /** Antarctica's AQ would sort between AO and AR. */
  lemma UnlistedAntarctica()
    ensures "AQ" !in Registry
  {
    assert Table[6].0 == "AO" && Table[7].0 == "AR";
    UnlistedBetween(6, "AQ");
  }

  /** The European Union's EU would sort between ET and FI. */
  lemma UnlistedEuropeanUnion()
    ensures "EU" !in Registry
  {
    assert Table[58].0 == "ET" && Table[59].0 == "FI";
    UnlistedBetween(58, "EU");
  }

  /** Well-formed codes the array does not list: Antarctica's AQ and the European Union's EU. */
  lemma UnlistedCodes()
    ensures "AQ" !in Registry && "EU" !in Registry
  {
    UnlistedAntarctica();
    UnlistedEuropeanUnion();
  }
}
