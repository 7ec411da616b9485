/** `main`: fetch China's nominal GDP and its real growth rate from 1980 on,
    rescale GDP to trillions of US dollars, and keep the years in which both
    series have a value. */
module GdpCheck {
  import opened Wrappers
  import opened WorldBank

  const Country := "CHN"
  const StartYear := 1980
  const GdpIndicator := "NY.GDP.MKTP.CD"
  const GrowthIndicator := "NY.GDP.MKTP.KD.ZG"

  /** One row of the combined table: the year, GDP in trillions of US dollars,
      and the growth rate in percent. */
  datatype Row<V> = Row(year: int, gdp: V, growth: V)

  ghost function Years<V>(s: seq<Point<V>>): set<int> {
    set p | p in s :: p.year
  }

  ghost function RowYears<V>(rows: seq<Row<V>>): set<int> {
    set r | r in rows :: r.year
  }

  /** No year appears twice in the series. */
  predicate DistinctYears<V>(s: seq<Point<V>>) {
    forall i, j | 0 <= i < j < |s| :: s[i].year != s[j].year
  }

  /** No year appears in two rows of the table. */
  predicate DistinctRowYears<V>(rows: seq<Row<V>>) {
    forall i, j | 0 <= i < j < |rows| :: rows[i].year != rows[j].year
  }

  lemma YearsCons<V>(s: seq<Point<V>>)
    requires s != []
    ensures Years(s) == {s[0].year} + Years(s[1..])
  {
    assert forall p | p in s :: p == s[0] || p in s[1..];
  }

  /** `gdp_usd / 1e12`: the same years in the same order, each value mapped
      by `toTrillions`. */
  function Rescale<V>(s: seq<Point<V>>, toTrillions: V -> V): (r: seq<Point<V>>)
    ensures |r| == |s|
    ensures forall i | 0 <= i < |s| :: r[i].year == s[i].year && r[i].value == toTrillions(s[i].value)
    ensures Years(r) == Years(s)
    ensures Sorted(r) <==> Sorted(s)
    ensures DistinctYears(r) <==> DistinctYears(s)
  {
    var r := seq(|s|, i requires 0 <= i < |s| => Point(s[i].year, toTrillions(s[i].value)));
    assert Years(r) == Years(s) by {
      forall y | y in Years(s) ensures y in Years(r) {
        var i :| 0 <= i < |s| && s[i].year == y;
        assert r[i] in r;
      }
      forall y | y in Years(r) ensures y in Years(s) {
        var i :| 0 <= i < |r| && r[i].year == y;
        assert s[i] in s;
      }
    }
    r
  }

  /** The value a series holds for `year`, if any. */
  function Lookup<V>(s: seq<Point<V>>, year: int): (r: Option<V>)
    ensures r.None? <==> year !in Years(s)
    ensures r.Some? ==> Point(year, r.value) in s
  {
    if s == [] then None
    else
      YearsCons(s);
      if s[0].year == year then Some(s[0].value) else Lookup(s[1..], year)
  }

  /** `pd.concat({gdp, growth}, axis=1).dropna()`: a row for exactly the
      years present in both series, holding each series' value for that
      year. */
  function Combine<V>(gdp: seq<Point<V>>, growth: seq<Point<V>>): (rows: seq<Row<V>>)
    ensures RowYears(rows) == Years(gdp) * Years(growth)
    ensures forall r | r in rows :: Point(r.year, r.gdp) in gdp && Point(r.year, r.growth) in growth
    ensures |rows| <= |gdp|
    ensures DistinctYears(gdp) ==> DistinctRowYears(rows)
  {
    if gdp == [] then []
    else
      var rest := Combine(gdp[1..], growth);
      YearsCons(gdp);
      assert forall p | p in gdp[1..] :: p in gdp;
      match Lookup(growth, gdp[0].year)
      case None => rest
      case Some(g) =>
        var rows := [Row(gdp[0].year, gdp[0].value, g)] + rest;
        assert RowYears(rows) == {gdp[0].year} + RowYears(rest) by {
          assert forall r | r in rows :: r == rows[0] || r in rest;
        }
        assert DistinctYears(gdp) ==> DistinctRowYears(rows) by {
          if DistinctYears(gdp) {
            assert gdp[0].year !in Years(gdp[1..]);
            assert forall j | 0 <= j < |rest| :: rest[j] in rest;
          }
        }
        rows
  }

  /** `main` up to the CSV export: both fetches, then the rescale and the
      inner join. `provider` answers the decoded reply for each request URL;
      `toTrillions` is the division by 1e12. */
  function GdpTable<V>(currentYear: int, provider: string -> Payload<V>, toTrillions: V -> V)
    : (t: Result<seq<Row<V>>, FetchError>)
    ensures t.Ok? <==>
      && Fetch(Country, GdpIndicator, StartYear, currentYear, provider).Ok?
      && Fetch(Country, GrowthIndicator, StartYear, currentYear, provider).Ok?
  {
    match Fetch(Country, GdpIndicator, StartYear, currentYear, provider)
    case Err(e) => Err(e)
    case Ok(gdpUsd) =>
      match Fetch(Country, GrowthIndicator, StartYear, currentYear, provider)
      case Err(e) => Err(e)
      case Ok(growth) => Ok(Combine(Rescale(gdpUsd, toTrillions), growth))
  }

  /** The table exists only when both fetches succeed (the first failure is
      the one raised); a year is in it exactly when both series have a
      value for it, and its row holds the rescaled GDP and the growth rate of
      that year. */
  lemma GdpTableAligned<V>(currentYear: int, provider: string -> Payload<V>, toTrillions: V -> V)
    ensures var gdp := Fetch(Country, GdpIndicator, StartYear, currentYear, provider);
            var growth := Fetch(Country, GrowthIndicator, StartYear, currentYear, provider);
            var t := GdpTable(currentYear, provider, toTrillions);
            && (t.Ok? <==> gdp.Ok? && growth.Ok?)
            && (gdp.Err? ==> t == Err(gdp.error))
            && (gdp.Ok? && growth.Err? ==> t == Err(growth.error))
            && (t.Ok? ==> RowYears(t.value) == Years(gdp.value) * Years(growth.value))
            && (t.Ok? ==> forall r | r in t.value ::
                  && (exists v :: Point(r.year, v) in gdp.value && r.gdp == toTrillions(v))
                  && Point(r.year, r.growth) in growth.value)
            && (t.Ok? && DistinctYears(gdp.value) ==> DistinctRowYears(t.value))
  {
    var gdp := Fetch(Country, GdpIndicator, StartYear, currentYear, provider);
    var growth := Fetch(Country, GrowthIndicator, StartYear, currentYear, provider);
    if gdp.Ok? && growth.Ok? {
      var scaled := Rescale(gdp.value, toTrillions);
      var rows := Combine(scaled, growth.value);
      forall r | r in rows ensures exists v :: Point(r.year, v) in gdp.value && r.gdp == toTrillions(v) {
        var i :| 0 <= i < |scaled| && scaled[i] == Point(r.year, r.gdp);
        assert gdp.value[i] in gdp.value;
      }
    }
  }

  /** The inner join on the years of the normalised series: the
      2019-2021 and 2020-2022 series share only 2020 and 2021. */
  lemma InnerJoinExample(a: seq<Point<int>>, b: seq<Point<int>>)
    requires a == [Point(2019, 1), Point(2020, 2), Point(2021, 3)]
    requires b == [Point(2020, 5), Point(2021, 6), Point(2022, 7)]
    ensures RowYears(Combine(a, b)) == {2020, 2021}
  {
    YearsCons(a);
    YearsCons(a[1..]);
    YearsCons(a[2..]);
    YearsCons(b);
    YearsCons(b[1..]);
    YearsCons(b[2..]);
  }
}
