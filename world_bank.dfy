/** `fetch_worldbank_series`: build the World Bank request URL, check the
    shape of the decoded reply, and turn its records into a year-indexed
    series (drop null values, read the year, sort by year). */
module WorldBank {
  import opened Wrappers
  import opened Decimal

  // ---------------------------------------------------------------------------
  // The request

  const ApiBase := "https://api.worldbank.org/v2/country/"
  const IndicatorPath := "/indicator/"
  const DateParam := "?date="
  const QuerySuffix := "&format=json&per_page=20000"

  /** The `date=<start>:<end>` range, both years written by `str`. */
  function DateRange(startYear: int, endYear: int): string {
    FormatInt(startYear) + ":" + FormatInt(endYear)
  }

  /** The f-string of the request; `RequestUrlFields` locates every piece. */
  function RequestUrl(country: string, indicator: string, startYear: int, currentYear: int): (url: string)
    ensures |ApiBase| + |QuerySuffix| <= |url|
    ensures url[..|ApiBase|] == ApiBase && url[|url| - |QuerySuffix|..] == QuerySuffix
  {
    var range := DateRange(startYear, currentYear);
    SevenPieces(ApiBase, country, IndicatorPath, indicator, DateParam, range, QuerySuffix);
    ApiBase + country + IndicatorPath + indicator + DateParam + range + QuerySuffix
  }

  /** Position of the first `c` in `t`, or `|t|` when there is none. */
  function IndexOf(t: string, c: char): (k: nat)
    ensures k <= |t|
    ensures forall i | 0 <= i < k :: t[i] != c
    ensures k < |t| ==> t[k] == c
  {
    if t == [] then 0
    else if t[0] == c then 0
    else 1 + IndexOf(t[1..], c)
  }

  /** How a reader of the URL splits a `start:end` range into two years. */
  function ParseDateRange(t: string): Option<(int, int)> {
    var k := IndexOf(t, ':');
    if k == |t| then None
    else match (ParseInt64(t[..k]), ParseInt64(t[k + 1..]))
      case (Some(a), Some(b)) => Some((a, b))
      case _ => None
  }

  lemma DateRangeRoundTrip(startYear: int, endYear: int)
    requires InInt64(startYear) && InInt64(endYear)
    ensures ParseDateRange(DateRange(startYear, endYear)) == Some((startYear, endYear))
  {
    var a, b := FormatInt(startYear), FormatInt(endYear);
    var t := DateRange(startYear, endYear);
    assert t[|a|] == ':';
    assert forall i | 0 <= i < |a| :: t[i] == a[i] && t[i] != ':';
    assert IndexOf(t, ':') == |a|;
    assert t[..|a|] == a;
    assert t[|a| + 1..] == b;
    ParseFormatRoundTrip(startYear);
    ParseFormatRoundTrip(endYear);
  }

  /** Cutting a concatenation of seven strings at the pieces' boundaries
      gives back the pieces. */
  lemma {:induction false} SevenPieces(a: string, b: string, c: string, d: string, e: string, f: string, g: string)
    ensures var u := a + b + c + d + e + f + g;
            var i1 := |a|;
            var i2 := i1 + |b|;
            var i3 := i2 + |c|;
            var i4 := i3 + |d|;
            var i5 := i4 + |e|;
            var i6 := i5 + |f|;
            && i6 + |g| == |u|
            && u[..i1] == a && u[i1..i2] == b && u[i2..i3] == c && u[i3..i4] == d
            && u[i4..i5] == e && u[i5..i6] == f && u[i6..] == g
  {
    var u := a + b + c + d + e + f + g;
    var i1 := |a|;
    var i2 := i1 + |b|;
    var i3 := i2 + |c|;
    var i4 := i3 + |d|;
    var i5 := i4 + |e|;
    var i6 := i5 + |f|;
    assert u[..i1] == a;
    assert u[i1..i2] == b;
    assert u[i2..i3] == c;
    assert u[i3..i4] == d;
    assert u[i4..i5] == e;
    assert u[i5..i6] == f;
    assert u[i6..] == g;
  }

  /** The URL names the country and the indicator, carries the range
      `startYear:currentYear` and ends with the fixed format and page size. */
  lemma RequestUrlFields(country: string, indicator: string, startYear: int, currentYear: int)
    requires InInt64(startYear) && InInt64(currentYear)
    ensures var url := RequestUrl(country, indicator, startYear, currentYear);
            var c := |ApiBase|;
            var i := c + |country| + |IndicatorPath|;
            var d := i + |indicator| + |DateParam|;
            && d + |QuerySuffix| <= |url|
            && url[..c] == ApiBase
            && url[c..c + |country|] == country
            && url[c + |country|..i] == IndicatorPath
            && url[i..i + |indicator|] == indicator
            && url[i + |indicator|..d] == DateParam
            && ParseDateRange(url[d..|url| - |QuerySuffix|]) == Some((startYear, currentYear))
            && url[|url| - |QuerySuffix|..] == QuerySuffix
  {
    SevenPieces(ApiBase, country, IndicatorPath, indicator, DateParam, DateRange(startYear, currentYear), QuerySuffix);
    DateRangeRoundTrip(startYear, currentYear);
  }

  // ---------------------------------------------------------------------------
  // The decoded reply

  /** One element of `data[1]`: its `date` text and its `value`, null or not. */
  datatype Record<V> = Record(date: string, value: Option<V>)

  /** An element of the top-level list: JSON null, a list of records, or any
      other JSON value (the page metadata object, for one). */
  datatype Element<V> = Null | Records(rows: seq<Record<V>>) | OtherJson

  /** The decoded reply `data`: a JSON list, a JSON string (which, like a
      list, can be sliced), or any other JSON value (an object, a number, a
      boolean or null, none of which `data[:1]` can slice). */
  datatype Payload<V> = List(elements: seq<Element<V>>) | Text(text: string) | Unsliceable

  datatype FetchError =
    | MalformedResponse         // the ValueError raised by the shape check
    | UnsliceableReply          // TypeError or KeyError from `data[:1]` in its message
    | RecordsNotAList           // data[1] is neither null nor a list of records
    | MissingColumns            // data[1] == []: the frame has no date/value columns
    | InvalidYear(date: string) // a kept record whose date is not an int64

  /** One entry of the series: the year it is indexed by, and its value. */
  datatype Point<V> = Point(year: int, value: V)

  /** The test that guards the normalisation. */
  predicate WellShaped<V>(data: Payload<V>) {
    data.List? && 2 <= |data.elements| && !data.elements[1].Null?
  }

  /** Whether `data[:1]` can be evaluated. */
  predicate Sliceable<V>(data: Payload<V>) {
    data.List? || data.Text?
  }

  /** `rows = data[1]` after the shape check, as written: the error message
      is built from `data[:1]`, which itself raises for a reply that cannot
      be sliced, so the ValueError is raised only for lists and strings. */
  function RecordsOfAsWritten<V>(data: Payload<V>): (r: Result<seq<Record<V>>, FetchError>)
    ensures r == Err(MalformedResponse) <==> !WellShaped(data) && Sliceable(data)
    ensures r == Err(UnsliceableReply) <==> !Sliceable(data)
    ensures r.Ok? <==> WellShaped(data) && data.elements[1].Records?
    ensures r.Ok? ==> r.value == data.elements[1].rows
  {
    if !WellShaped(data) then
      if Sliceable(data) then Err(MalformedResponse) else Err(UnsliceableReply)
    else match data.elements[1]
      case Records(rows) => Ok(rows)
      case _ => Err(RecordsNotAList)
  }

  /** A JSON object, number, boolean or null reply never reaches the
      intended shape error. */
  lemma UnsliceableMissesShapeError<V>()
    ensures RecordsOfAsWritten<V>(Unsliceable) == Err(UnsliceableReply)
    ensures RecordsOf<V>(Unsliceable) == Err(MalformedResponse)
  {
  }

  /** The corrected check differs from the code as written only in the kind
      of error raised for a reply that cannot be sliced. */
  lemma {:induction false} RecordsOfCorrectsAsWritten<V>(data: Payload<V>)
    ensures Sliceable(data) ==> RecordsOf(data) == RecordsOfAsWritten(data)
    ensures !Sliceable(data) ==> RecordsOf(data).Err? && RecordsOfAsWritten(data).Err?
  {
  }

  /** `rows = data[1]` after the shape check, as intended: every malformed
      reply raises the shape error. */
  function RecordsOf<V>(data: Payload<V>): (r: Result<seq<Record<V>>, FetchError>)
    ensures r == Err(MalformedResponse) <==> !WellShaped(data)
    ensures r.Ok? <==> WellShaped(data) && data.elements[1].Records?
    ensures r.Ok? ==> r.value == data.elements[1].rows
  {
    if !WellShaped(data) then Err(MalformedResponse)
    else match data.elements[1]
      case Records(rows) => Ok(rows)
      case _ => Err(RecordsNotAList)
  }

  // ---------------------------------------------------------------------------
  // Normalisation

  /** `dropna(subset=["value"])` on the `date`/`value` columns. */
  function DropNull<V>(rows: seq<Record<V>>): (kept: seq<(string, V)>)
    ensures |kept| <= |rows|
  {
    if rows == [] then []
    else match rows[0].value
      case None => DropNull(rows[1..])
      case Some(v) => [(rows[0].date, v)] + DropNull(rows[1..])
  }

  /** Every kept pair comes from a record with a non-null value, and every
      record with a non-null value is kept. */
  lemma {:induction false} DropNullMembership<V>(rows: seq<Record<V>>)
    ensures forall e | e in DropNull(rows) :: Record(e.0, Some(e.1)) in rows
    ensures forall r | r in rows && r.value.Some? :: (r.date, r.value.value) in DropNull(rows)
  {
    if rows != [] {
      DropNullMembership(rows[1..]);
      assert forall r | r in rows :: r == rows[0] || r in rows[1..];
    }
  }

  lemma {:induction false} DropNullAllNull<V>(rows: seq<Record<V>>)
    requires forall i | 0 <= i < |rows| :: rows[i].value.None?
    ensures DropNull(rows) == []
  {
    if rows != [] {
      DropNullAllNull(rows[1..]);
    }
  }

  lemma {:induction false} DropNullAppend<V>(a: seq<Record<V>>, b: seq<Record<V>>)
    ensures DropNull(a + b) == DropNull(a) + DropNull(b)
  {
    if a == [] {
      assert a + b == b;
    } else {
      assert (a + b)[0] == a[0];
      assert (a + b)[1..] == a[1..] + b;
      DropNullAppend(a[1..], b);
    }
  }

  /** `astype(int)` on the `date` column: every kept date is read as an
      int64, the i-th entry under the i-th date's year. */
  function ParseYears<V>(kept: seq<(string, V)>): (r: Result<seq<Point<V>>, FetchError>)
    ensures r.Ok? <==> forall i | 0 <= i < |kept| :: ParseInt64(kept[i].0).Some?
    ensures r.Ok? ==> |r.value| == |kept|
    ensures r.Ok? ==> forall i | 0 <= i < |kept| ::
      r.value[i] == Point(ParseInt64(kept[i].0).value, kept[i].1)
    ensures r.Err? ==> r.error.InvalidYear?
  {
    if kept == [] then Ok([])
    else match ParseInt64(kept[0].0)
      case None => Err(InvalidYear(kept[0].0))
      case Some(year) =>
        match ParseYears(kept[1..])
        case Err(e) => Err(e)
        case Ok(points) => Ok([Point(year, kept[0].1)] + points)
  }

  /** The first date that cannot be read is the one the call fails on. */
  lemma {:induction false} ParseYearsFirstBadDate<V>(kept: seq<(string, V)>)
    ensures ParseYears(kept).Err? ==> exists i | 0 <= i < |kept| ::
      && ParseInt64(kept[i].0).None?
      && ParseYears(kept).error == InvalidYear(kept[i].0)
      && forall j | 0 <= j < i :: ParseInt64(kept[j].0).Some?
  {
    if kept != [] && ParseInt64(kept[0].0).Some? && ParseYears(kept).Err? {
      var tail := kept[1..];
      ParseYearsFirstBadDate(tail);
      var i :| 0 <= i < |tail|
        && ParseInt64(tail[i].0).None?
        && ParseYears(tail).error == InvalidYear(tail[i].0)
        && forall j | 0 <= j < i :: ParseInt64(tail[j].0).Some?;
      forall j | 0 <= j < i + 1 ensures ParseInt64(kept[j].0).Some? {
        if 0 < j {
          assert kept[j] == tail[j - 1];
        }
      }
      assert kept[i + 1] == tail[i];
    }
  }

  /** Years in ascending order; equal years may sit in any order. */
  predicate Sorted<V>(s: seq<Point<V>>) {
    forall i, j | 0 <= i < j < |s| :: s[i].year <= s[j].year
  }

  lemma SortedPrepend<V>(x: Point<V>, t: seq<Point<V>>)
    requires Sorted(t)
    requires forall q | q in t :: x.year <= q.year
    ensures Sorted([x] + t)
  {
    var u := [x] + t;
    forall i, j | 0 <= i < j < |u| ensures u[i].year <= u[j].year {
      assert u[j] == t[j - 1] && u[j] in t;
      if 0 < i {
        assert u[i] == t[i - 1];
      }
    }
  }

  /** Puts `p` before the first entry of a later-or-equal year. */
  function Insert<V>(p: Point<V>, s: seq<Point<V>>): (r: seq<Point<V>>)
    ensures |r| == |s| + 1 && p in r
  {
    if s == [] || p.year <= s[0].year then [p] + s
    else [s[0]] + Insert(p, s[1..])
  }

  lemma {:induction false} InsertPermutation<V>(p: Point<V>, s: seq<Point<V>>)
    ensures multiset(Insert(p, s)) == multiset(s) + multiset{p}
  {
    if s != [] && s[0].year < p.year {
      InsertPermutation(p, s[1..]);
      assert s == [s[0]] + s[1..];
    }
  }

  lemma {:induction false} InsertSorted<V>(p: Point<V>, s: seq<Point<V>>)
    requires Sorted(s)
    ensures Sorted(Insert(p, s))
  {
    if s == [] || p.year <= s[0].year {
      forall q | q in s ensures p.year <= q.year {
        var k :| 0 <= k < |s| && s[k] == q;
      }
      SortedPrepend(p, s);
    } else {
      var rest := Insert(p, s[1..]);
      InsertSorted(p, s[1..]);
      InsertPermutation(p, s[1..]);
      forall q | q in rest ensures s[0].year <= q.year {
        assert q in multiset(rest);
        if q != p {
          assert q in multiset(s[1..]);
          var k :| 0 <= k < |s[1..]| && s[1..][k] == q;
          assert s[k + 1] == q;
        }
      }
      SortedPrepend(s[0], rest);
    }
  }

  /** `sort_values("date")`: ascending by year, and a permutation. */
  function SortByYear<V>(s: seq<Point<V>>): (r: seq<Point<V>>)
    ensures Sorted(r)
    ensures multiset(r) == multiset(s)
  {
    if s == [] then []
    else
      var rest := SortByYear(s[1..]);
      InsertSorted(s[0], rest);
      InsertPermutation(s[0], rest);
      assert s == [s[0]] + s[1..];
      Insert(s[0], rest)
  }

  /** From `data[1]` to the series: columns selected, nulls dropped, years
      read, sorted by year. */
  function Normalise<V>(rows: seq<Record<V>>): (r: Result<seq<Point<V>>, FetchError>)
    ensures r == Err(MissingColumns) <==> rows == []
    ensures r.Ok? ==> Sorted(r.value) && |r.value| <= |rows|
  {
    if rows == [] then Err(MissingColumns)
    else match ParseYears(DropNull(rows))
      case Err(e) => Err(e)
      case Ok(points) =>
        assert |multiset(SortByYear(points))| == |multiset(points)|;
        Ok(SortByYear(points))
  }

  /** `fetch_worldbank_series`: `provider` stands for the HTTP request and
      JSON decoding, and answers the decoded reply for a URL. */
  function Fetch<V>(country: string, indicator: string, startYear: int, currentYear: int,
                    provider: string -> Payload<V>): (r: Result<seq<Point<V>>, FetchError>)
    ensures r == Err(MalformedResponse) <==>
      !WellShaped(provider(RequestUrl(country, indicator, startYear, currentYear)))
    ensures r.Ok? ==> Sorted(r.value)
    ensures var data := provider(RequestUrl(country, indicator, startYear, currentYear));
      WellShaped(data) && data.elements[1].Records? ==> r == Normalise(data.elements[1].rows)
  {
    match RecordsOf(provider(RequestUrl(country, indicator, startYear, currentYear)))
    case Err(e) => Err(e)
    case Ok(rows) => Normalise(rows)
  }

  // ---------------------------------------------------------------------------
  // What the series is

  /** A malformed reply makes the call fail with the shape error, where the
      code as written raises it only for a list or a string and fails on
      slicing anything else; a series is produced only from a list whose
      `data[1]` is a list of records. */
  lemma FetchRejectsMalformed<V>(country: string, indicator: string, startYear: int, currentYear: int,
                                 provider: string -> Payload<V>)
    ensures var data := provider(RequestUrl(country, indicator, startYear, currentYear));
            && (!WellShaped(data) ==>
                  && Fetch(country, indicator, startYear, currentYear, provider) == Err(MalformedResponse)
                  && RecordsOfAsWritten(data) ==
                       if Sliceable(data) then Err(MalformedResponse) else Err(UnsliceableReply))
            && (Fetch(country, indicator, startYear, currentYear, provider).Ok? ==>
                  WellShaped(data) && data.elements[1].Records?)
  {
  }

  /** Only `data[1]` matters: two well-shaped replies with the same second
      element give the same series, whatever else they hold. */
  lemma OnlySecondElementMatters<V>(d1: Payload<V>, d2: Payload<V>)
    requires WellShaped(d1) && WellShaped(d2)
    requires d1.elements[1] == d2.elements[1]
    ensures RecordsOf(d1) == RecordsOf(d2)
  {
  }

  /** Every entry of the series comes from a record of `data[1]` with a
      non-null value, keyed by that record's date read as an integer. */
  lemma {:induction false} NormaliseSound<V>(rows: seq<Record<V>>)
    ensures Normalise(rows).Ok? ==> forall p | p in Normalise(rows).value ::
      exists d | Record(d, Some(p.value)) in rows :: ParseInt64(d) == Some(p.year)
  {
    if Normalise(rows).Err? {
      return;
    }
    var s := Normalise(rows).value;
    var kept := DropNull(rows);
    var points := ParseYears(kept).value;
    DropNullMembership(rows);
    forall p | p in s ensures exists d | Record(d, Some(p.value)) in rows :: ParseInt64(d) == Some(p.year) {
      assert p in multiset(s);
      assert p in points;
      var i :| 0 <= i < |points| && points[i] == p;
      assert kept[i] in kept;
      assert Record(kept[i].0, Some(kept[i].1)) in rows;
    }
  }

  /** Nothing with a value is lost: every record of `data[1]` whose value is
      not null appears in the series under its parsed year. */
  lemma {:induction false} NormaliseComplete<V>(rows: seq<Record<V>>)
    ensures Normalise(rows).Ok? ==> forall d, v | Record(d, Some(v)) in rows ::
      ParseInt64(d).Some? && Point(ParseInt64(d).value, v) in Normalise(rows).value
  {
    if Normalise(rows).Err? {
      return;
    }
    var s := Normalise(rows).value;
    var kept := DropNull(rows);
    var points := ParseYears(kept).value;
    DropNullMembership(rows);
    forall d, v | Record(d, Some(v)) in rows ensures ParseInt64(d).Some? && Point(ParseInt64(d).value, v) in s {
      assert (d, v) in kept;
      var i :| 0 <= i < |kept| && kept[i] == (d, v);
      assert points[i] in points;
      assert points[i] in multiset(s);
    }
  }

  /** Sorting neither adds nor loses entries: the series is a permutation of
      the kept records read as (year, value) pairs, in ascending year order. */
  lemma NormaliseIsSortedPermutation<V>(rows: seq<Record<V>>)
    ensures Normalise(rows).Ok? ==>
      && ParseYears(DropNull(rows)).Ok?
      && Sorted(Normalise(rows).value)
      && multiset(Normalise(rows).value) == multiset(ParseYears(DropNull(rows)).value)
  {
  }

  /** A record of `data[1]` with a non-null value and a date that is not an
      integer makes the whole call fail. */
  lemma {:induction false} BadDateFails<V>(rows: seq<Record<V>>, d: string, v: V)
    requires Record(d, Some(v)) in rows
    requires ParseInt64(d).None?
    ensures Normalise(rows).Err? && Normalise(rows).error.InvalidYear?
  {
    var kept := DropNull(rows);
    DropNullMembership(rows);
    assert (d, v) in kept;
    var i :| 0 <= i < |kept| && kept[i] == (d, v);
    assert ParseYears(kept).Err?;
  }

  /** The call succeeds exactly when `data[1]` is not empty and the date of
      every record with a non-null value reads as an integer: `astype(int)`
      is the only step after the column selection that can raise. */
  lemma {:induction false} NormaliseOkWhenDatesRead<V>(rows: seq<Record<V>>)
    ensures Normalise(rows).Ok? <==>
      rows != [] && forall r | r in rows && r.value.Some? :: ParseInt64(r.date).Some?
  {
    if rows != [] {
      var kept := DropNull(rows);
      DropNullMembership(rows);
      if forall r | r in rows && r.value.Some? :: ParseInt64(r.date).Some? {
        forall i | 0 <= i < |kept| ensures ParseInt64(kept[i].0).Some? {
          assert kept[i] in kept;
          assert Record(kept[i].0, Some(kept[i].1)) in rows;
        }
      } else {
        var r :| r in rows && r.value.Some? && ParseInt64(r.date).None?;
        BadDateFails(rows, r.date, r.value.value);
      }
    }
  }

  /** Nulls are dropped before the dates are read: a null-valued record,
      whatever its date text, changes nothing. */
  lemma NullRecordIgnored<V>(a: seq<Record<V>>, b: seq<Record<V>>, date: string)
    requires a + b != []
    ensures Normalise(a + [Record(date, None)] + b) == Normalise(a + b)
  {
    var blank: Record<V> := Record(date, None);
    var rows := a + [blank] + b;
    assert DropNull([blank]) == [] by {
      assert [blank][1..] == [];
    }
    DropNullAppend(a, [blank]);
    DropNullAppend(a + [blank], b);
    DropNullAppend(a, b);
    SameKeptSameSeries(rows, a + b);
  }

  lemma SameKeptSameSeries<V>(rows1: seq<Record<V>>, rows2: seq<Record<V>>)
    requires rows1 != [] && rows2 != []
    requires DropNull(rows1) == DropNull(rows2)
    ensures Normalise(rows1) == Normalise(rows2)
  {
  }

  /** A non-empty `data[1]` whose values are all null gives the empty series,
      not an error. */
  lemma AllNullGivesEmptySeries<V>(rows: seq<Record<V>>)
    requires rows != []
    requires forall i | 0 <= i < |rows| :: rows[i].value.None?
    ensures Normalise(rows) == Ok([])
  {
    DropNullAllNull(rows);
  }

  /** Years are sorted, not de-duplicated: two records for the same year
      both stay in the series. */
  lemma DuplicateYearsKept(v1: int, v2: int)
    ensures var r := Normalise([Record("2020", Some(v1)), Record("2020", Some(v2))]);
            r.Ok? && |r.value| == 2 && r.value[0].year == r.value[1].year == 2020
  {
    var rows := [Record("2020", Some(v1)), Record("2020", Some(v2))];
    ParseFormatRoundTrip(2020);
    assert FormatInt(2020) == "2020";
    assert DropNull(rows[2..]) == [];
    assert DropNull(rows[1..]) == [("2020", v2)];
    assert DropNull(rows) == [("2020", v1), ("2020", v2)];
    var kept := DropNull(rows);
    assert ParseInt64(kept[0].0) == ParseInt64(kept[1].0) == Some(2020);
    var points := [Point(2020, v1), Point(2020, v2)];
    assert ParseYears(kept).Ok?;
    assert ParseYears(kept).value == points;
    var s := SortByYear(points);
    assert |s| == |multiset(s)| == 2;
    assert s[0] in multiset(s) && s[1] in multiset(s);
    assert s[0] in multiset(points) && s[1] in multiset(points);
  }
}
