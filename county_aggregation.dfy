/**
 * Per-county aggregation: how many loans of each county a household at an AMI
 * band could afford, the change in the number of loans per county between two
 * years, and the table of percent changes sorted in ascending order.
 */
module CountyAggregation {
  import opened Base
  import opened Seqs
  import opened Floats
  import opened JoinedLoans
  import opened Affordability
  import opened Indicators

  /** The AMI band column the threshold is computed from. */
  datatype Band = Ami80 | Ami100 | Ami120

  function BandValue(l: JoinedLoan, band: Band): real
  {
    match band
    case Ami80 => l.ami80
    case Ami100 => l.ami100
    case Ami120 => l.ami120
  }

  /** Which interest rate a year uses: the 2010 rate for 2010, the 2019 rate for 2019, none otherwise. */
  function Interest2010(year: int): (flag: Option<bool>)
    ensures flag.Some? <==> year == 2010 || year == 2019
    ensures flag.Some? ==> (flag.value <==> year == 2010)
  {
    if year == 2019 then Some(false) else if year == 2010 then Some(true) else None
  }

  /** A loan is affordable to the band when the band's maximum loan is at least the loan amount. */
  predicate Affordable(l: JoinedLoan, band: Band, interest2010: bool)
  {
    CalcHouseAfford(BandValue(l, band), interest2010) >= l.loanAmount
  }

  function InCounty(c: string): JoinedLoan -> bool
  {
    (l: JoinedLoan) => l.countyName == c
  }

  function IsAffordable(band: Band, interest2010: bool): JoinedLoan -> bool
  {
    (l: JoinedLoan) => Affordable(l, band, interest2010)
  }

  /** The rows of county `c` that `flag` accepts. */
  function InCountyAnd(c: string, flag: JoinedLoan -> bool): JoinedLoan -> bool
  {
    (l: JoinedLoan) => l.countyName == c && flag(l)
  }

  function AffordableIn(c: string, band: Band, interest2010: bool): JoinedLoan -> bool
  {
    InCountyAnd(c, IsAffordable(band, interest2010))
  }

  /** The number of loans of county `c` affordable to the band. */
  function AffordableCount(rows: seq<JoinedLoan>, c: string, band: Band, interest2010: bool): nat
  {
    |Filter(rows, AffordableIn(c, band, interest2010))|
  }

  /** What `calc_value` adds to the frame (the two new columns) and the per-county counts it returns. */
  datatype ValueReport = ValueReport(maxAffordable: seq<real>, affordable: seq<int>, counts: map<string, nat>)

  /**
   * `calc_value`: the maximum affordable loan for each row's band value, the
   * 0/1 affordability flag of each row, and per county the number of affordable
   * loans, counties with none left out. A year without an interest rate fails.
   */
  method CalcValue(rows: seq<JoinedLoan>, band: Band, year: int) returns (r: Result<ValueReport>)
    ensures r.Err? <==> Interest2010(year).None?
    ensures r.Err? ==> r.error == UnsupportedYear(year)
    ensures r.Ok? ==>
      var i2010, report := Interest2010(year).value, r.value;
      && |report.maxAffordable| == |rows| && |report.affordable| == |rows|
      && (forall i :: 0 <= i < |rows| ==> report.maxAffordable[i] == CalcHouseAfford(BandValue(rows[i], band), i2010))
      && (forall i :: 0 <= i < |rows| ==>
            (report.affordable[i] == 1 <==> Affordable(rows[i], band, i2010)) &&
            (report.affordable[i] == 0 <==> !Affordable(rows[i], band, i2010)))
      && (forall c :: c in report.counts <==> AffordableCount(rows, c, band, i2010) > 0)
      && (forall c :: c in report.counts ==> report.counts[c] == AffordableCount(rows, c, band, i2010))
  {
    var interest2010: bool;
    if year == 2019 {
      interest2010 := false;
    } else if year == 2010 {
      interest2010 := true;
    } else {
      return Err(UnsupportedYear(year));
    }
    var maxAffordable, affordable := AffordabilityColumns(rows, band, interest2010);
    var counts := SumByCounty(rows, affordable, IsAffordable(band, interest2010));
    forall c {
      FlagCountIsFilterSize(rows, c, IsAffordable(band, interest2010));
    }
    // Drop the counties whose count is zero.
    var nonzero := map c | c in counts && counts[c] != 0 :: counts[c];
    r := Ok(ValueReport(maxAffordable, affordable, nonzero));
  }

  /** The two columns `calc_value` adds: each row's maximum affordable loan and its 0/1 affordability flag. */
  method AffordabilityColumns(rows: seq<JoinedLoan>, band: Band, interest2010: bool)
    returns (maxAffordable: seq<real>, affordable: seq<int>)
    ensures |maxAffordable| == |rows| && |affordable| == |rows|
    ensures forall i :: 0 <= i < |rows| ==> maxAffordable[i] == CalcHouseAfford(BandValue(rows[i], band), interest2010)
    ensures forall i :: 0 <= i < |rows| ==> affordable[i] == if Affordable(rows[i], band, interest2010) then 1 else 0
  {
    maxAffordable, affordable := [], [];
    var i := 0;
    while i < |rows|
      invariant 0 <= i <= |rows|
      invariant |maxAffordable| == i && |affordable| == i
      invariant forall k :: 0 <= k < i ==> maxAffordable[k] == CalcHouseAfford(BandValue(rows[k], band), interest2010)
      invariant forall k :: 0 <= k < i ==> affordable[k] == if Affordable(rows[k], band, interest2010) then 1 else 0
    {
      var threshold := CalcHouseAfford(BandValue(rows[i], band), interest2010);
      maxAffordable := maxAffordable + [threshold];
      affordable := affordable + [if threshold >= rows[i].loanAmount then 1 else 0];
      i := i + 1;
    }
  }

  /** `counts` holds, for every county, how many rows of `rows` it has that `flag` accepts (absent means none). */
  ghost predicate CountsOf(counts: map<string, nat>, rows: seq<JoinedLoan>, flag: JoinedLoan -> bool)
  {
    && (forall c :: c in counts ==> counts[c] == FlagCount(rows, c, flag))
    && (forall c :: c !in counts ==> FlagCount(rows, c, flag) == 0)
  }

  /** The number of rows of county `c` that `flag` accepts, counted from the front. */
  function FlagCount(rows: seq<JoinedLoan>, c: string, flag: JoinedLoan -> bool): nat
  {
    if rows == [] then 0
    else FlagCount(rows[..|rows| - 1], c, flag) + (if InCountyAnd(c, flag)(rows[|rows| - 1]) then 1 else 0)
  }

  /** The running count is the size of the county's filtered rows. */
  lemma {:induction false} FlagCountIsFilterSize(rows: seq<JoinedLoan>, c: string, flag: JoinedLoan -> bool)
    ensures FlagCount(rows, c, flag) == |Filter(rows, InCountyAnd(c, flag))|
  {
    if rows != [] {
      FlagCountIsFilterSize(rows[..|rows| - 1], c, flag);
    }
  }

  /** Group the rows by county and sum a 0/1 flag column (zero sums included). */
  method SumByCounty(rows: seq<JoinedLoan>, flags: seq<int>, flag: JoinedLoan -> bool)
    returns (counts: map<string, nat>)
    requires |flags| == |rows|
    requires forall i :: 0 <= i < |rows| ==> flags[i] == if flag(rows[i]) then 1 else 0
    ensures counts.Keys == CountiesOf(rows)
    ensures CountsOf(counts, rows, flag)
  {
    counts := map[];
    var i := 0;
    while i < |rows|
      invariant 0 <= i <= |rows|
      invariant counts.Keys == CountiesOf(rows[..i])
      invariant CountsOf(counts, rows[..i], flag)
    {
      var c := rows[i].countyName;
      var sofar := if c in counts then counts[c] else 0;
      CountsStep(counts, rows[..i], rows[i], flags[i], flag);
      assert rows[..i + 1] == rows[..i] + [rows[i]];
      CountiesOfLast(rows[..i + 1]);
      assert rows[..i + 1][..i] == rows[..i];
      counts := counts[c := sofar + flags[i]];
      i := i + 1;
    }
    assert rows[..|rows|] == rows;
  }

  /** Adding one row to the county sums bumps only that row's county, by its flag. */
  lemma CountsStep(counts: map<string, nat>, rows: seq<JoinedLoan>, x: JoinedLoan, v: int, flag: JoinedLoan -> bool)
    requires CountsOf(counts, rows, flag)
    requires v == if flag(x) then 1 else 0
    ensures
      var c := x.countyName;
      CountsOf(counts[c := (if c in counts then counts[c] else 0) + v], rows + [x], flag)
  {
    assert (rows + [x])[..|rows|] == rows;
  }

  /** A county never has more affordable loans than loans. */
  lemma AffordableCountBounded(rows: seq<JoinedLoan>, c: string, band: Band, interest2010: bool)
    ensures AffordableCount(rows, c, band, interest2010) <= CountyCount(rows, c)
  {
    CountyCountIsFilterSize(rows, c);
    FilterCountMono(rows, AffordableIn(c, band, interest2010), InCounty(c));
  }

  /**
   * A band whose value is at least as high on every row (120% against 80%,
   * say) makes at least as many loans of every county affordable.
   */
  lemma AffordableCountMonotoneInBand(rows: seq<JoinedLoan>, c: string, lower: Band, higher: Band, interest2010: bool)
    requires forall i :: 0 <= i < |rows| ==> BandValue(rows[i], lower) <= BandValue(rows[i], higher)
    ensures AffordableCount(rows, c, lower, interest2010) <= AffordableCount(rows, c, higher, interest2010)
  {
    forall i | 0 <= i < |rows|
      ensures AffordableIn(c, lower, interest2010)(rows[i]) ==> AffordableIn(c, higher, interest2010)(rows[i])
    {
      var lo, hi := BandValue(rows[i], lower), BandValue(rows[i], higher);
      if lo < hi {
        CalcHouseAffordStrictlyIncreasing(lo, hi, interest2010);
      }
    }
    FilterCountMono(rows, AffordableIn(c, lower, interest2010), AffordableIn(c, higher, interest2010));
  }

  // ---------------------------------------------------------------------------
  // Change in the number of loans per county.

  function CountiesOf(rows: seq<JoinedLoan>): set<string>
  {
    set i | 0 <= i < |rows| :: rows[i].countyName
  }

  /** `groupby("county_name").size()`: the number of rows of each county present. */
  function GroupSize(rows: seq<JoinedLoan>): (sizes: map<string, nat>)
    ensures sizes.Keys == CountiesOf(rows)
    ensures forall c :: c in sizes ==> sizes[c] == CountyCount(rows, c) && sizes[c] > 0
  {
    if rows == [] then map[]
    else
      var sizes, c := GroupSize(rows[..|rows| - 1]), rows[|rows| - 1].countyName;
      CountiesOfLast(rows);
      AbsentCountyHasNoRows(rows[..|rows| - 1], c);
      sizes[c := (if c in sizes then sizes[c] else 0) + 1]
  }

  lemma {:induction false} AbsentCountyHasNoRows(rows: seq<JoinedLoan>, c: string)
    ensures c !in CountiesOf(rows) ==> CountyCount(rows, c) == 0
  {
    if rows != [] {
      AbsentCountyHasNoRows(rows[..|rows| - 1], c);
      CountiesOfLast(rows);
    }
  }

  lemma CountiesOfLast(rows: seq<JoinedLoan>)
    requires rows != []
    ensures CountiesOf(rows) == CountiesOf(rows[..|rows| - 1]) + {rows[|rows| - 1].countyName}
  {
    var init := rows[..|rows| - 1];
    forall c | c in CountiesOf(init) ensures c in CountiesOf(rows) {
      var k :| 0 <= k < |init| && init[k].countyName == c;
      assert rows[k] == init[k];
    }
  }

  /** The number of rows of county `c`. */
  function CountyCount(rows: seq<JoinedLoan>, c: string): nat
  {
    if rows == [] then 0
    else CountyCount(rows[..|rows| - 1], c) + (if rows[|rows| - 1].countyName == c then 1 else 0)
  }

  /** Counting a county's rows one by one gives the size of its filtered rows. */
  lemma {:induction false} CountyCountIsFilterSize(rows: seq<JoinedLoan>, c: string)
    ensures CountyCount(rows, c) == |Filter(rows, InCounty(c))|
  {
    if rows != [] {
      CountyCountIsFilterSize(rows[..|rows| - 1], c);
    }
  }

  /**
   * `change_in_absolute_number` on the counties both tables have: per county,
   * the number of rows of the first table minus that of the second.
   */
  function ChangeInAbsoluteNumber(rows2019: seq<JoinedLoan>, rows2010: seq<JoinedLoan>): (change: map<string, int>)
    ensures change.Keys == CountiesOf(rows2019) * CountiesOf(rows2010)
    ensures forall c :: c in change ==>
      change[c] == CountyCount(rows2019, c) as int - CountyCount(rows2010, c) as int
  {
    var sizes2019, sizes2010 := GroupSize(rows2019), GroupSize(rows2010);
    map c | c in sizes2019 && c in sizes2010 :: sizes2019[c] as int - sizes2010[c] as int
  }

  /** A county missing from the second table has no change entry. */
  lemma ChangeExcludesUnmatched(rows2019: seq<JoinedLoan>, rows2010: seq<JoinedLoan>, c: string)
    requires c in CountiesOf(rows2019) && c !in CountiesOf(rows2010)
    ensures c !in ChangeInAbsoluteNumber(rows2019, rows2010)
  {
  }

  // ---------------------------------------------------------------------------
  // Merging the two years.

  /** A row of the merged table. */
  datatype ChangeRow = ChangeRow(countyName: string, figure2019: real, figure2010: real, percentChange: Float)

  predicate Sorted(rows: seq<ChangeRow>)
  {
    forall i, j :: 0 <= i < j < |rows| ==> SortsBefore(rows[i].percentChange, rows[j].percentChange)
  }

  /** Insert `x` into a sorted table before the first row it may precede. */
  function Insert(rows: seq<ChangeRow>, x: ChangeRow): (r: seq<ChangeRow>)
    ensures |r| == |rows| + 1
    ensures forall y :: y in r <==> y in rows || y == x
    ensures Sorted(rows) ==> Sorted(r)
  {
    if rows == [] then [x]
    else if SortsBefore(x.percentChange, rows[0].percentChange) then [x] + rows
    else
      var rest := Insert(rows[1..], x);
      assert forall y :: y in rows <==> y == rows[0] || y in rows[1..];
      assert forall k :: 0 <= k < |rest| ==> rest[k] in rows[1..] || rest[k] == x;
      [rows[0]] + rest
  }

  /** Inserting adds exactly the new row: the result is a permutation of the old rows and `x`. */
  lemma {:induction false} InsertPermutes(rows: seq<ChangeRow>, x: ChangeRow)
    ensures multiset(Insert(rows, x)) == multiset(rows) + multiset{x}
  {
    if rows != [] && !SortsBefore(x.percentChange, rows[0].percentChange) {
      InsertPermutes(rows[1..], x);
      assert rows == [rows[0]] + rows[1..];
    }
  }

  function MergedCounties(rows: seq<ChangeRow>): set<string>
  {
    set i | 0 <= i < |rows| :: rows[i].countyName
  }

  /** The merged row of county `c`: both years' figures and the percent change between them. */
  predicate MergedRowOf(row: ChangeRow, report2010: map<string, real>, report2019: map<string, real>)
  {
    && row.countyName in report2010 && row.countyName in report2019
    && row.figure2010 == report2010[row.countyName]
    && row.figure2019 == report2019[row.countyName]
    && row.percentChange == PercentChange(report2010[row.countyName], report2019[row.countyName])
  }

  /**
   * `merge_years`: the counties present in both years, one row each with the
   * percent change from 2010 to 2019, in ascending order of that change (NaN last).
   */
  method MergeYears(report2010: map<string, real>, report2019: map<string, real>) returns (rows: seq<ChangeRow>)
    ensures Sorted(rows)
    ensures MergedCounties(rows) == report2010.Keys * report2019.Keys
    ensures |rows| == |report2010.Keys * report2019.Keys|
    ensures forall i :: 0 <= i < |rows| ==> MergedRowOf(rows[i], report2010, report2019)
  {
    var common := report2019.Keys * report2010.Keys;
    var remaining := common;
    rows := [];
    while remaining != {}
      invariant remaining <= common
      invariant Sorted(rows)
      invariant MergedCounties(rows) == common - remaining
      invariant |rows| == |common - remaining|
      invariant forall y :: y in rows ==> MergedRowOf(y, report2010, report2019)
      decreases |remaining|
    {
      var c :| c in remaining;
      var row := ChangeRow(c, report2019[c], report2010[c], PercentChange(report2010[c], report2019[c]));
      var next := Insert(rows, row);
      MergeStep(rows, row, common, remaining);
      rows := next;
      remaining := remaining - {c};
    }
    assert forall i :: 0 <= i < |rows| ==> rows[i] in rows;
  }

  /** Inserting the row of a county not yet merged moves it from `remaining` to the merged set. */
  lemma MergeStep(rows: seq<ChangeRow>, row: ChangeRow, common: set<string>, remaining: set<string>)
    requires row.countyName in remaining && remaining <= common
    requires MergedCounties(rows) == common - remaining && |rows| == |common - remaining|
    ensures MergedCounties(Insert(rows, row)) == common - (remaining - {row.countyName})
    ensures |Insert(rows, row)| == |common - (remaining - {row.countyName})|
  {
    var c := row.countyName;
    InsertedCounty(rows, row);
    assert common - (remaining - {c}) == (common - remaining) + {c};
    assert c !in common - remaining;
  }

  /** Inserting a row adds exactly its county to the merged counties. */
  lemma InsertedCounty(rows: seq<ChangeRow>, x: ChangeRow)
    ensures MergedCounties(Insert(rows, x)) == MergedCounties(rows) + {x.countyName}
  {
    var r := Insert(rows, x);
    forall k | 0 <= k < |r| ensures r[k].countyName in MergedCounties(rows) + {x.countyName} {
      assert r[k] in r;
    }
    forall k | 0 <= k < |rows| ensures rows[k].countyName in MergedCounties(r) {
      assert rows[k] in r;
    }
    assert x in r;
  }

  /** No county appears twice in the merged table. */
  lemma MergedCountiesDistinct(rows: seq<ChangeRow>, report2010: map<string, real>, report2019: map<string, real>)
    requires MergedCounties(rows) == report2010.Keys * report2019.Keys
    requires |rows| == |report2010.Keys * report2019.Keys|
    ensures forall i, j :: 0 <= i < j < |rows| ==> rows[i].countyName != rows[j].countyName
  {
    forall i, j | 0 <= i < j < |rows| ensures rows[i].countyName != rows[j].countyName {
      if rows[i].countyName == rows[j].countyName {
        DuplicateShrinksNames(rows, i, j);
        assert false;
      }
    }
  }

  /** Two rows sharing a county leave fewer distinct counties than rows. */
  lemma {:induction false} DuplicateShrinksNames(rows: seq<ChangeRow>, i: nat, j: nat)
    requires i < j < |rows| && rows[i].countyName == rows[j].countyName
    ensures |MergedCounties(rows)| < |rows|
  {
    var without := rows[..j] + rows[j + 1..];
    assert MergedCounties(rows) == MergedCounties(without) by {
      forall k | 0 <= k < |rows| ensures rows[k].countyName in MergedCounties(without) {
        if k < j {
          assert without[k] == rows[k];
        } else if k == j {
          assert without[i] == rows[i];
        } else {
          assert without[k - 1] == rows[k];
        }
      }
      forall k | 0 <= k < |without| ensures without[k].countyName in MergedCounties(rows) {
        if k < j {
          assert without[k] == rows[k];
        } else {
          assert without[k] == rows[k + 1];
        }
      }
    }
    NamesAtMostRows(without);
  }

  lemma {:induction false} NamesAtMostRows(rows: seq<ChangeRow>)
    ensures |MergedCounties(rows)| <= |rows|
  {
    if rows != [] {
      var init := rows[..|rows| - 1];
      NamesAtMostRows(init);
      assert MergedCounties(rows) == MergedCounties(init) + {rows[|rows| - 1].countyName};
    }
  }
}
