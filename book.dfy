/** Reading a book's detail page into the `properties` dictionary
    (class `Book`). The dictionary is a record whose fields are `None`
    while the key is absent. */
module Book {
  import opened Wrappers
  import opened Web

  /** A `datetime`, of which the plugin only ever builds 1 January of a year. */
  datatype Date = Date(year: int, month: int, day: int)

  /** The `properties` dictionary of `Book.from_url`. */
  datatype Properties = Properties(
    rating: Option<string>,
    title: Option<string>,
    coverUrl: Option<string>,         // key "cover_url"
    pubdate: Option<Date>,
    authors: Option<seq<string>>,
    publisher: Option<string>,
    isbn: Option<string>,
    ean: Option<string>,
    languages: Option<seq<string>>)

  /** The empty dictionary `{}`. */
  const NoProperties := Properties(None, None, None, None, None, None, None, None, None)

  // ----- Edition years: `re.match('\d{4}', value)`, `int(value)`, `datetime(...)` -----

  predicate IsDigit(c: char) {
    '0' as int <= c as int <= '9' as int
  }

  /** The whitespace `int()` accepts after a number (its ASCII part). */
  predicate IsSpace(c: char) {
    c == ' ' || '\t' <= c <= '\r'
  }

  /** `re.match('\d{4}', v)`: the value starts with four ASCII digits. */
  predicate MatchesYear(v: string) {
    |v| >= 4 && IsDigit(v[0]) && IsDigit(v[1]) && IsDigit(v[2]) && IsDigit(v[3])
  }

  /** The length of the run of digits that starts `v`. */
  function DigitRun(v: string): (n: nat)
    ensures n <= |v|
    ensures forall k :: 0 <= k < n ==> IsDigit(v[k])
    ensures n < |v| ==> !IsDigit(v[n])
    decreases |v|
  {
    if v != "" && IsDigit(v[0]) then 1 + DigitRun(v[1..]) else 0
  }

  /** The decimal number a string of digits denotes. */
  function DigitsValue(s: string): nat
    requires forall k :: 0 <= k < |s| ==> IsDigit(s[k])
    decreases |s|
  {
    if s == "" then 0
    else
      assert IsDigit(s[|s| - 1]);
      10 * DigitsValue(s[..|s| - 1]) + (s[|s| - 1] as int - '0' as int)
  }

  /** The number written by the digits that start `v`. */
  function YearOf(v: string): nat {
    DigitsValue(v[..DigitRun(v)])
  }

  /** `int(v)` for a value that starts with digits: the digits may only be
      followed by whitespace. */
  function ParseInt(v: string): Result<int>
    requires MatchesYear(v)
  {
    if forall k :: DigitRun(v) <= k < |v| ==> IsSpace(v[k]) then Ok(YearOf(v)) else Err(ValueError)
  }

  /** The largest value of a C `int`, the width `datetime` reads its year argument in. */
  const CIntMax: int := 2147483647

  /** `datetime.datetime(year=int(v), month=1, day=1)`: a year too wide for a C
      `int` overflows, and otherwise years run from 1 to 9999. */
  function EditionDate(v: string): Result<Date>
    requires MatchesYear(v)
  {
    match ParseInt(v)
    case Err(e) => Err(e)
    case Ok(year) =>
      if year > CIntMax then Err(OverflowError)
      else if 1 <= year <= 9999 then Ok(Date(year, 1, 1))
      else Err(ValueError)
  }

  /** An edition value that matches the pattern and converts to a date. */
  predicate ValidYear(v: string) {
    MatchesYear(v) && EditionDate(v).Ok?
  }

  /** A plain year converts to 1 January of that year. */
  lemma PlainYear()
    ensures EditionDate("2015") == Ok(Date(2015, 1, 1))
  {
    assert DigitRun("2015") == 4;
    assert "2015"[..4] == "2015";
    assert DigitsValue("2015"[..3]) == 201 by {
      assert "2015"[..3] == "201" && "201"[..2] == "20" && "20"[..1] == "2" && "2"[..0] == "";
    }
  }

  /** "2015r" matches the pattern, but `int` refuses it. */
  lemma YearWithSuffix()
    ensures MatchesYear("2015r") && EditionDate("2015r") == Err(ValueError)
  {
    assert DigitRun("2015r") == 4;
    assert !IsSpace("2015r"[4]);
  }

  /** "0000" matches the pattern, but `datetime` refuses year 0. */
  lemma YearZero()
    ensures MatchesYear("0000") && EditionDate("0000") == Err(ValueError)
  {
    assert DigitRun("0000") == 4;
    assert "0000"[..4] == "0000";
    assert DigitsValue("0000"[..3]) == 0 by {
      assert "0000"[..3] == "000" && "000"[..2] == "00" && "00"[..1] == "0" && "0"[..0] == "";
    }
  }

  /** A value made of digits only is one run of digits. */
  lemma AllDigitsRun(v: string)
    requires forall k :: 0 <= k < |v| ==> IsDigit(v[k])
    ensures DigitRun(v) == |v|
  {
  }

  /** The digits "2147483648" denote the number 2147483648. */
  lemma TooWideDigits()
    ensures DigitsValue("2147483648") == 2147483648
  {
    var v := "2147483648";
    assert DigitsValue(v[..1]) == 2 by { assert v[..1][..0] == ""; }
    assert DigitsValue(v[..2]) == 21 by { assert v[..2][..1] == v[..1]; }
    assert DigitsValue(v[..3]) == 214 by { assert v[..3][..2] == v[..2]; }
    assert DigitsValue(v[..4]) == 2147 by { assert v[..4][..3] == v[..3]; }
    assert DigitsValue(v[..5]) == 21474 by { assert v[..5][..4] == v[..4]; }
    assert DigitsValue(v[..6]) == 214748 by { assert v[..6][..5] == v[..5]; }
    assert DigitsValue(v[..7]) == 2147483 by { assert v[..7][..6] == v[..6]; }
    assert DigitsValue(v[..8]) == 21474836 by { assert v[..8][..7] == v[..7]; }
    assert DigitsValue(v[..9]) == 214748364 by { assert v[..9][..8] == v[..8]; }
    assert v[..10] == v;
  }

  /** A year written in digits only that a C `int` cannot hold overflows. */
  lemma WideYearOverflows(v: string)
    requires MatchesYear(v) && forall k :: 0 <= k < |v| ==> IsDigit(v[k])
    requires DigitsValue(v) > CIntMax
    ensures EditionDate(v) == Err(OverflowError)
  {
    AllDigitsRun(v);
    assert v[..DigitRun(v)] == v;
  }

  /** "2147483648" is one more than a C `int` holds: `datetime` overflows on it. */
  lemma YearTooWide()
    ensures MatchesYear("2147483648") && EditionDate("2147483648") == Err(OverflowError)
  {
    TooWideDigits();
    WideYearOverflows("2147483648");
  }

  /** 1 January of the year that starts `v`. */
  function Jan1(v: string): Date {
    Date(YearOf(v), 1, 1)
  }

  /** The values among `values` that start with four digits, in order. */
  function Editions(values: seq<string>): (years: seq<string>)
    ensures forall k :: 0 <= k < |years| ==> MatchesYear(years[k])
    ensures |years| <= |values|
    decreases |values|
  {
    if values == [] then []
    else (if MatchesYear(values[0]) then [values[0]] else []) + Editions(values[1..])
  }

  /** The date `date` becomes after the edition values `years`: 1 January of the last one's year. */
  function LastEdition(date: Option<Date>, years: seq<string>): Option<Date> {
    if years == [] then date else Some(Jan1(years[|years| - 1]))
  }

  /** The inner loop over a "Wydanie:" entry's values: every value that starts
      with four digits replaces the date, or raises if it is not a valid year. */
  function ScanEditions(date: Option<Date>, values: seq<string>): Result<Option<Date>>
    decreases |values|
  {
    if values == [] then Ok(date)
    else if MatchesYear(values[0]) then
      match EditionDate(values[0])
      case Err(e) => Err(e)
      case Ok(d) => ScanEditions(Some(d), values[1..])
    else ScanEditions(date, values[1..])
  }

  /** Every value in `years` converts to a date. */
  predicate AllValid(years: seq<string>) {
    forall k :: 0 <= k < |years| ==> ValidYear(years[k])
  }

  /** `AllValid` of a sequence with a first element. */
  lemma AllValidCons(v: string, years: seq<string>)
    ensures AllValid([v] + years) <==> ValidYear(v) && AllValid(years)
  {
    var all := [v] + years;
    if ValidYear(v) && AllValid(years) {
      forall k | 0 <= k < |all| ensures ValidYear(all[k]) {
        if k > 0 { assert all[k] == years[k - 1]; }
      }
    }
    if AllValid(all) {
      assert all[0] == v;
      forall k | 0 <= k < |years| ensures ValidYear(years[k]) {
        assert years[k] == all[k + 1];
      }
    }
  }

  /** The scan succeeds exactly when each value that starts with four digits
      is a valid year. */
  lemma {:induction false} ScanEditionsOk(date: Option<Date>, values: seq<string>)
    ensures ScanEditions(date, values).Ok? <==> AllValid(Editions(values))
    decreases |values|
  {
    if values != [] {
      var tail := Editions(values[1..]);
      if MatchesYear(values[0]) {
        assert Editions(values) == [values[0]] + tail;
        AllValidCons(values[0], tail);
        if EditionDate(values[0]).Ok? {
          ScanEditionsOk(Some(EditionDate(values[0]).value), values[1..]);
        }
      } else {
        assert Editions(values) == tail;
        ScanEditionsOk(date, values[1..]);
      }
    }
  }

  /** The only errors the scan raises are the `ValueError` of `int` or
      `datetime` and the `OverflowError` of `datetime`. */
  lemma {:induction false} ScanEditionsError(date: Option<Date>, values: seq<string>)
    ensures ScanEditions(date, values).Err? ==>
      ScanEditions(date, values).error == ValueError || ScanEditions(date, values).error == OverflowError
    decreases |values|
  {
    if values != [] {
      if MatchesYear(values[0]) {
        if EditionDate(values[0]).Ok? {
          ScanEditionsError(Some(EditionDate(values[0]).value), values[1..]);
        }
      } else {
        ScanEditionsError(date, values[1..]);
      }
    }
  }

  /** On success the last value that starts with four digits sets the date;
      without one the date is unchanged. */
  lemma {:induction false} ScanEditionsValue(date: Option<Date>, values: seq<string>)
    ensures ScanEditions(date, values).Ok? ==>
      ScanEditions(date, values).value == LastEdition(date, Editions(values))
    decreases |values|
  {
    if values != [] {
      var tail := Editions(values[1..]);
      if MatchesYear(values[0]) {
        assert Editions(values) == [values[0]] + tail;
        if EditionDate(values[0]).Ok? {
          ScanEditionsValue(Some(EditionDate(values[0]).value), values[1..]);
          assert EditionDate(values[0]).value == Jan1(values[0]);
        }
      } else {
        assert Editions(values) == tail;
        ScanEditionsValue(date, values[1..]);
      }
    }
  }

  /** The three facts about the scan together. */
  lemma ScanEditionsSpec(date: Option<Date>, values: seq<string>)
    ensures ScanEditions(date, values).Ok? <==> AllValid(Editions(values))
    ensures ScanEditions(date, values).Err? ==>
      ScanEditions(date, values).error == ValueError || ScanEditions(date, values).error == OverflowError
    ensures ScanEditions(date, values).Ok? ==>
      ScanEditions(date, values).value == LastEdition(date, Editions(values))
  {
    ScanEditionsOk(date, values);
    ScanEditionsError(date, values);
    ScanEditionsValue(date, values);
  }

  // ----- The description list: `//div[@class="emp-product-description"]/ul/li` -----

  /** The entry's label: its h3 key, or its h2 key only when it has no h3 key. */
  function Label(e: DescriptionEntry): Result<string> {
    if e.h3Keys != [] then Ok(e.h3Keys[0])
    else if e.h2Keys != [] then Ok(e.h2Keys[0])
    else Err(IndexError)
  }

  /** One iteration of the description loop. */
  function ApplyDescription(p: Properties, e: DescriptionEntry): Result<Properties> {
    match Label(e)
    case Err(err) => Err(err)
    case Ok(section) =>
      if section == "Wydanie:" then
        match ScanEditions(p.pubdate, e.h3Values)
        case Err(err) => Err(err)
        case Ok(date) => Ok(p.(pubdate := date))
      else if section == "Autor:" then Ok(p.(authors := Some(e.h2ValueLinks)))
      else if section == "Wydawca:" then
        if e.h3ValueLinks == [] then Err(IndexError) else Ok(p.(publisher := Some(e.h3ValueLinks[0])))
      else Ok(p)
  }

  /** The description loop from `p` over `es`, stopping at the first exception. */
  function DescribeAll(p: Properties, es: seq<DescriptionEntry>): Result<Properties>
    decreases |es|
  {
    if es == [] then Ok(p)
    else
      match ApplyDescription(p, es[0])
      case Err(err) => Err(err)
      case Ok(q) => DescribeAll(q, es[1..])
  }

  /** An entry the description loop gets through: it has a label, each of its
      edition values that starts with four digits is a valid year, and a
      publisher entry has a link. */
  predicate WellFormedDescription(e: DescriptionEntry) {
    match Label(e)
    case Err(_) => false
    case Ok(section) =>
      && (section == "Wydanie:" ==> AllValid(Editions(e.h3Values)))
      && (section == "Wydawca:" ==> e.h3ValueLinks != [])
  }

  /** The edition values of all "Wydanie:" entries that start with four digits, in page order. */
  function EditionValues(es: seq<DescriptionEntry>): (years: seq<string>)
    ensures forall k :: 0 <= k < |years| ==> MatchesYear(years[k])
    decreases |es|
  {
    if es == [] then []
    else (if Label(es[0]) == Ok("Wydanie:") then Editions(es[0].h3Values) else []) + EditionValues(es[1..])
  }

  /** The last entry of `es` with the given label. */
  function LastLabelled(es: seq<DescriptionEntry>, section: string): Option<DescriptionEntry>
    decreases |es|
  {
    if es == [] then None
    else
      match LastLabelled(es[1..], section)
      case Some(e) => Some(e)
      case None => if Label(es[0]) == Ok(section) then Some(es[0]) else None
  }

  lemma LastEditionAppend(date: Option<Date>, a: seq<string>, b: seq<string>)
    ensures LastEdition(date, a + b) == LastEdition(LastEdition(date, a), b)
  {
    if b != [] {
      assert (a + b)[|a + b| - 1] == b[|b| - 1];
    } else {
      assert a + b == a;
    }
  }

  /** One description entry: it goes through exactly when it is well formed,
      and then changes only the key its label names. */
  lemma ApplyDescriptionStep(p: Properties, e: DescriptionEntry)
    ensures ApplyDescription(p, e).Ok? <==> WellFormedDescription(e)
    ensures ApplyDescription(p, e).Ok? ==>
      var q := ApplyDescription(p, e).value;
      && q.rating == p.rating && q.title == p.title && q.coverUrl == p.coverUrl
      && q.isbn == p.isbn && q.ean == p.ean && q.languages == p.languages
      && q.pubdate == LastEdition(p.pubdate, if Label(e) == Ok("Wydanie:") then Editions(e.h3Values) else [])
      && q.authors == (if Label(e) == Ok("Autor:") then Some(e.h2ValueLinks) else p.authors)
      && (Label(e) == Ok("Wydawca:") ==> e.h3ValueLinks != [] && q.publisher == Some(e.h3ValueLinks[0]))
      && (Label(e) != Ok("Wydawca:") ==> q.publisher == p.publisher)
  {
    ScanEditionsOk(p.pubdate, e.h3Values);
    ScanEditionsValue(p.pubdate, e.h3Values);
  }

  /** The description loop succeeds exactly when every entry is well formed. */
  lemma {:induction false} DescribeAllOk(p: Properties, es: seq<DescriptionEntry>)
    ensures DescribeAll(p, es).Ok? <==> forall i :: 0 <= i < |es| ==> WellFormedDescription(es[i])
    decreases |es|
  {
    if es != [] {
      ApplyDescriptionStep(p, es[0]);
      assert forall i :: 0 <= i < |es[1..]| ==> es[1..][i] == es[i + 1];
      if ApplyDescription(p, es[0]).Ok? {
        DescribeAllOk(ApplyDescription(p, es[0]).value, es[1..]);
      }
    }
  }

  /** After a successful description loop the other keys are left alone, the
      date comes from the last edition value that starts with four digits, the
      authors from the last "Autor:" entry (its whole h2 link list) and the
      publisher from the last "Wydawca:" entry (its first link). */
  lemma {:induction false} DescribeAllValue(p: Properties, es: seq<DescriptionEntry>)
    ensures DescribeAll(p, es).Ok? ==>
      var q := DescribeAll(p, es).value;
      && q.rating == p.rating && q.title == p.title && q.coverUrl == p.coverUrl
      && q.isbn == p.isbn && q.ean == p.ean && q.languages == p.languages
      && q.pubdate == LastEdition(p.pubdate, EditionValues(es))
      && q.authors == (match LastLabelled(es, "Autor:")
                       case None => p.authors
                       case Some(e) => Some(e.h2ValueLinks))
      && (match LastLabelled(es, "Wydawca:")
          case None => q.publisher == p.publisher
          case Some(e) => e.h3ValueLinks != [] && q.publisher == Some(e.h3ValueLinks[0]))
    decreases |es|
  {
    if es != [] && ApplyDescription(p, es[0]).Ok? {
      var e := es[0];
      var p1 := ApplyDescription(p, e).value;
      ApplyDescriptionStep(p, e);
      DescribeAllValue(p1, es[1..]);
      var head := if Label(e) == Ok("Wydanie:") then Editions(e.h3Values) else [];
      assert EditionValues(es) == head + EditionValues(es[1..]);
      LastEditionAppend(p.pubdate, head, EditionValues(es[1..]));
    }
  }

  /** The description loop, both halves together. */
  lemma DescribeAllSpec(p: Properties, es: seq<DescriptionEntry>)
    ensures DescribeAll(p, es).Ok? <==> forall i :: 0 <= i < |es| ==> WellFormedDescription(es[i])
    ensures DescribeAll(p, es).Ok? ==>
      var q := DescribeAll(p, es).value;
      && q.rating == p.rating && q.title == p.title && q.coverUrl == p.coverUrl
      && q.isbn == p.isbn && q.ean == p.ean && q.languages == p.languages
      && q.pubdate == LastEdition(p.pubdate, EditionValues(es))
      && q.authors == (match LastLabelled(es, "Autor:")
                       case None => p.authors
                       case Some(e) => Some(e.h2ValueLinks))
      && (match LastLabelled(es, "Wydawca:")
          case None => q.publisher == p.publisher
          case Some(e) => e.h3ValueLinks != [] && q.publisher == Some(e.h3ValueLinks[0]))
  {
    DescribeAllOk(p, es);
    DescribeAllValue(p, es);
  }

  // ----- The identifier list: `//div[@id="details"]/ul[@class="head"]/li` -----

  /** The language codes for a "Język wydania:" value: only Polish is known. */
  function LanguageCodes(language: string): seq<string> {
    if language == "polski" then ["pl"] else []
  }

  /** One iteration of the identifier loop. */
  function ApplyIdentifier(p: Properties, e: IdentifierEntry): Result<Properties> {
    if e.labels == [] then Err(IndexError)
    else
      var section := e.labels[0];
      if section == "ISBN:" then
        if e.values == [] then Err(IndexError) else Ok(p.(isbn := Some(e.values[0])))
      else if section == "EAN:" then
        if e.values == [] then Err(IndexError) else Ok(p.(ean := Some(e.values[0])))
      else if section == "Język wydania:" then
        if e.values == [] then Err(IndexError) else Ok(p.(languages := Some(LanguageCodes(e.values[0]))))
      else Ok(p)
  }

  /** The identifier loop from `p` over `es`, stopping at the first exception. */
  function IdentifyAll(p: Properties, es: seq<IdentifierEntry>): Result<Properties>
    decreases |es|
  {
    if es == [] then Ok(p)
    else
      match ApplyIdentifier(p, es[0])
      case Err(err) => Err(err)
      case Ok(q) => IdentifyAll(q, es[1..])
  }

  /** An entry the identifier loop gets through: it has a label, and a value
      when the label is one the loop reads. */
  predicate WellFormedIdentifier(e: IdentifierEntry) {
    e.labels != [] &&
    (e.labels[0] == "ISBN:" || e.labels[0] == "EAN:" || e.labels[0] == "Język wydania:" ==> e.values != [])
  }

  /** The last entry of `es` with the given label. */
  function LastIdentifier(es: seq<IdentifierEntry>, section: string): Option<IdentifierEntry>
    decreases |es|
  {
    if es == [] then None
    else
      match LastIdentifier(es[1..], section)
      case Some(e) => Some(e)
      case None => if es[0].labels != [] && es[0].labels[0] == section then Some(es[0]) else None
  }

  /** The identifier loop succeeds exactly when every entry is well formed. It
      then sets the ISBN and the EAN from the first value of the last entry so
      labelled, resets the languages from the last "Język wydania:" entry
      ("pl" for "polski", none otherwise), and leaves the other keys alone. */
  lemma {:induction false} IdentifyAllSpec(p: Properties, es: seq<IdentifierEntry>)
    ensures IdentifyAll(p, es).Ok? <==> forall i :: 0 <= i < |es| ==> WellFormedIdentifier(es[i])
    ensures IdentifyAll(p, es).Ok? ==>
      var q := IdentifyAll(p, es).value;
      && q.rating == p.rating && q.title == p.title && q.coverUrl == p.coverUrl
      && q.pubdate == p.pubdate && q.authors == p.authors && q.publisher == p.publisher
      && (match LastIdentifier(es, "ISBN:")
          case None => q.isbn == p.isbn
          case Some(e) => e.values != [] && q.isbn == Some(e.values[0]))
      && (match LastIdentifier(es, "EAN:")
          case None => q.ean == p.ean
          case Some(e) => e.values != [] && q.ean == Some(e.values[0]))
      && (match LastIdentifier(es, "Język wydania:")
          case None => q.languages == p.languages
          case Some(e) => e.values != [] && q.languages == Some(LanguageCodes(e.values[0])))
    decreases |es|
  {
    if es != [] {
      assert forall i :: 0 <= i < |es[1..]| ==> es[1..][i] == es[i + 1];
      match ApplyIdentifier(p, es[0])
      case Err(_) =>
        assert !WellFormedIdentifier(es[0]);
      case Ok(p1) =>
        IdentifyAllSpec(p1, es[1..]);
    }
  }

  // ----- The whole page -----

  /** What `Book.from_url` computes from a parsed detail page. */
  function ExtractBook(root: Document): Result<Properties> {
    if root.ratings == [] || root.titles == [] || root.coverHrefs == [] then Err(IndexError)
    else
      var anchors := NoProperties.(rating := Some(root.ratings[0]), title := Some(root.titles[0]),
                                   coverUrl := Some(root.coverHrefs[0]));
      match DescribeAll(anchors, root.description)
      case Err(err) => Err(err)
      case Ok(p) => IdentifyAll(p, root.identifiers)
  }

  /** Extraction fails when the rating, title or cover anchor is missing or an
      entry of either list is malformed, and only then. Otherwise every field
      of the dictionary is as the page's last relevant entry says. */
  lemma ExtractBookSpec(root: Document)
    ensures ExtractBook(root).Ok? <==>
      && root.ratings != [] && root.titles != [] && root.coverHrefs != []
      && (forall i :: 0 <= i < |root.description| ==> WellFormedDescription(root.description[i]))
      && (forall i :: 0 <= i < |root.identifiers| ==> WellFormedIdentifier(root.identifiers[i]))
    ensures ExtractBook(root).Ok? ==>
      var b := ExtractBook(root).value;
      && b.rating == Some(root.ratings[0])
      && b.title == Some(root.titles[0])
      && b.coverUrl == Some(root.coverHrefs[0])
      && b.pubdate == LastEdition(None, EditionValues(root.description))
      && b.authors == (match LastLabelled(root.description, "Autor:")
                       case None => None
                       case Some(e) => Some(e.h2ValueLinks))
      && (match LastLabelled(root.description, "Wydawca:")
          case None => b.publisher == None
          case Some(e) => e.h3ValueLinks != [] && b.publisher == Some(e.h3ValueLinks[0]))
      && (match LastIdentifier(root.identifiers, "ISBN:")
          case None => b.isbn == None
          case Some(e) => e.values != [] && b.isbn == Some(e.values[0]))
      && (match LastIdentifier(root.identifiers, "EAN:")
          case None => b.ean == None
          case Some(e) => e.values != [] && b.ean == Some(e.values[0]))
      && (match LastIdentifier(root.identifiers, "Język wydania:")
          case None => b.languages == None
          case Some(e) => e.values != [] && b.languages == Some(LanguageCodes(e.values[0])))
  {
    if root.ratings != [] && root.titles != [] && root.coverHrefs != [] {
      var anchors := NoProperties.(rating := Some(root.ratings[0]), title := Some(root.titles[0]),
                                   coverUrl := Some(root.coverHrefs[0]));
      DescribeAllSpec(anchors, root.description);
      if DescribeAll(anchors, root.description).Ok? {
        IdentifyAllSpec(DescribeAll(anchors, root.description).value, root.identifiers);
      }
    }
  }

  /** `Book.from_url` after the page is fetched: the two loops that fill the dictionary. */
  method FromRoot(root: Document) returns (r: Result<Properties>)
    ensures r == ExtractBook(root)
  {
    var properties := NoProperties;
    if root.ratings == [] { return Err(IndexError); }
    properties := properties.(rating := Some(root.ratings[0]));
    if root.titles == [] { return Err(IndexError); }
    properties := properties.(title := Some(root.titles[0]));
    if root.coverHrefs == [] { return Err(IndexError); }
    properties := properties.(coverUrl := Some(root.coverHrefs[0]));
    var described := ReadDescription(properties, root.description);
    if described.Err? { return described; }
    r := ReadIdentifiers(described.value, root.identifiers);
  }

  /** The loop over the values of a "Wydanie:" entry. */
  method ScanEditionValues(date: Option<Date>, values: seq<string>) returns (r: Result<Option<Date>>)
    ensures r == ScanEditions(date, values)
  {
    var pubdate := date;
    var j := 0;
    while j < |values|
      invariant 0 <= j <= |values|
      invariant ScanEditions(date, values) == ScanEditions(pubdate, values[j..])
    {
      var value := values[j];
      assert values[j..][1..] == values[j + 1..];
      if MatchesYear(value) {
        var year := ParseInt(value);
        if year.Err? {
          return Err(year.error);
        }
        if year.value > CIntMax {
          return Err(OverflowError);
        }
        if !(1 <= year.value <= 9999) {
          return Err(ValueError);
        }
        pubdate := Some(Date(year.value, 1, 1));
      }
      j := j + 1;
    }
    r := Ok(pubdate);
  }

  /** The loop over the description list. */
  method ReadDescription(p: Properties, details: seq<DescriptionEntry>) returns (r: Result<Properties>)
    ensures r == DescribeAll(p, details)
  {
    var properties := p;
    var i := 0;
    while i < |details|
      invariant 0 <= i <= |details|
      invariant DescribeAll(p, details) == DescribeAll(properties, details[i..])
    {
      var detail := details[i];
      assert details[i..][1..] == details[i + 1..];
      var section;
      if detail.h3Keys != [] {
        section := detail.h3Keys[0];
      } else if detail.h2Keys != [] {
        section := detail.h2Keys[0];
      } else {
        return Err(IndexError);
      }
      if section == "Wydanie:" {
        var date := ScanEditionValues(properties.pubdate, detail.h3Values);
        if date.Err? {
          return Err(date.error);
        }
        properties := properties.(pubdate := date.value);
      } else if section == "Autor:" {
        properties := properties.(authors := Some(detail.h2ValueLinks));
      } else if section == "Wydawca:" {
        if detail.h3ValueLinks == [] {
          return Err(IndexError);
        }
        properties := properties.(publisher := Some(detail.h3ValueLinks[0]));
      }
      i := i + 1;
    }
    r := Ok(properties);
  }

  /** The loop over the identifier list. */
  method ReadIdentifiers(p: Properties, identifiers: seq<IdentifierEntry>) returns (r: Result<Properties>)
    ensures r == IdentifyAll(p, identifiers)
  {
    var properties := p;
    var k := 0;
    while k < |identifiers|
      invariant 0 <= k <= |identifiers|
      invariant IdentifyAll(p, identifiers) == IdentifyAll(properties, identifiers[k..])
    {
      var detail := identifiers[k];
      assert identifiers[k..][1..] == identifiers[k + 1..];
      ghost var before := properties;
      if detail.labels == [] {
        return Err(IndexError);
      }
      var section := detail.labels[0];
      if section == "ISBN:" {
        if detail.values == [] { return Err(IndexError); }
        properties := properties.(isbn := Some(detail.values[0]));
      } else if section == "EAN:" {
        if detail.values == [] { return Err(IndexError); }
        properties := properties.(ean := Some(detail.values[0]));
      } else if section == "Język wydania:" {
        var languages: seq<string> := [];
        properties := properties.(languages := Some(languages));
        if detail.values == [] { return Err(IndexError); }
        var language := detail.values[0];
        if language == "polski" {
          languages := languages + ["pl"];
          properties := properties.(languages := Some(languages));
        }
        assert languages == LanguageCodes(language);
      }
      assert ApplyIdentifier(before, detail) == Ok(properties);
      k := k + 1;
    }
    r := Ok(properties);
  }

  /** What `Book.from_url` yields for `url` on a site serving `pages`. */
  function BookOf(parse: seq<byte> -> Document, pages: map<Url, seq<byte>>, url: Url): Result<Properties> {
    match Root(parse, pages, url)
    case Err(e) => Err(e)
    case Ok(root) => ExtractBook(root)
  }

  /** `Book.from_url`: fetch the detail page and read it. */
  method FromUrl(parse: seq<byte> -> Document, browser: Browser, url: Url) returns (r: Result<Properties>)
    modifies browser
    ensures browser.requests == old(browser.requests) + [url]
    ensures r == BookOf(parse, browser.pages, url)
  {
    var root := RootFromUrl(parse, browser, url);
    if root.Err? {
      return Err(root.error);
    }
    r := FromRoot(root.value);
  }
}
