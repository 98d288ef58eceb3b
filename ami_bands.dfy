/**
 * County Area Median Income (AMI) bands. Each county and year has an 80% and a
 * 120% band in the reference table; the 100% band is derived from the 80% one,
 * and the table is split into its 2010 and its 2019 rows.
 */
module AmiBands {
  import opened Seqs

  /** A row of the reference table as read (County_Name, year, 80%_AMI, 120%_AMI). */
  datatype RawAmi = RawAmi(countyName: string, year: int, ami80: real, ami120: real)

  /** A row after cleaning: the renamed columns and the derived "100% AMI". */
  datatype AmiBand = AmiBand(countyName: string, year: int, ami80: real, ami100: real, ami120: real)

  /** The ratio of the 100% band to the 80% band. */
  const HundredOverEighty: real := 1.25

  /** Add the "100% AMI" column to one row. */
  function WithAmi100(raw: RawAmi): (band: AmiBand)
    ensures band.ami100 * 0.8 == band.ami80
    ensures band.countyName == raw.countyName && band.year == raw.year
    ensures band.ami80 == raw.ami80 && band.ami120 == raw.ami120
  {
    AmiBand(raw.countyName, raw.year, raw.ami80, raw.ami80 * HundredOverEighty, raw.ami120)
  }

  function IsYear(y: int): AmiBand -> bool
  {
    (band: AmiBand) => band.year == y
  }

  function IsRawYear(y: int): RawAmi -> bool
  {
    (raw: RawAmi) => raw.year == y
  }

  /** `read_in_ami` after the file is read: the cleaned 2010 rows and the cleaned 2019 rows. */
  method ReadInAmi(raw: seq<RawAmi>) returns (ami2010: seq<AmiBand>, ami2019: seq<AmiBand>)
    ensures ami2010 == Filter(Map(raw, WithAmi100), IsYear(2010))
    ensures ami2019 == Filter(Map(raw, WithAmi100), IsYear(2019))
    ensures forall i :: 0 <= i < |ami2010| ==> ami2010[i].year == 2010 && ami2010[i].ami100 == 1.25 * ami2010[i].ami80
    ensures forall i :: 0 <= i < |ami2019| ==> ami2019[i].year == 2019 && ami2019[i].ami100 == 1.25 * ami2019[i].ami80
  {
    var bands := MapRows(raw, WithAmi100);
    ami2010 := FilterRows(bands, IsYear(2010));
    ami2019 := FilterRows(bands, IsYear(2019));
    CleanedYear(raw, 2010);
    CleanedYear(raw, 2019);
  }

  /** Every row selected for year `y` is of that year and carries the derived 100% band. */
  lemma CleanedYear(raw: seq<RawAmi>, y: int)
    ensures var part := Filter(Map(raw, WithAmi100), IsYear(y));
      forall i :: 0 <= i < |part| ==> part[i].year == y && part[i].ami100 == 1.25 * part[i].ami80
  {
    var bands := Map(raw, WithAmi100);
    var part := Filter(bands, IsYear(y));
    forall i | 0 <= i < |part| ensures part[i].year == y && part[i].ami100 == 1.25 * part[i].ami80 {
      var k :| 0 <= k < |bands| && bands[k] == part[i];
    }
  }

  /** A year's output is exactly the input rows of that year, cleaned, in their original order. */
  lemma YearSplitExact(raw: seq<RawAmi>, y: int)
    ensures Filter(Map(raw, WithAmi100), IsYear(y)) == Map(Filter(raw, IsRawYear(y)), WithAmi100)
  {
    MapOfFilter(raw, IsRawYear(y), WithAmi100, IsYear(y));
  }

  /** Selecting a year's output by that year again gives it back unchanged. */
  lemma YearSplitRoundTrip(raw: seq<RawAmi>, y: int)
    ensures var part := Filter(Map(raw, WithAmi100), IsYear(y));
      Filter(part, IsYear(y)) == part
  {
    FilterIdempotent(Map(raw, WithAmi100), IsYear(y));
  }

  /** The 2010 and the 2019 outputs together hold no more rows than the input. */
  lemma YearSplitCount(raw: seq<RawAmi>)
    ensures var bands := Map(raw, WithAmi100);
      |Filter(bands, IsYear(2010))| + |Filter(bands, IsYear(2019))| <= |raw|
  {
    SplitCount(Map(raw, WithAmi100));
  }

  lemma {:induction false} SplitCount(bands: seq<AmiBand>)
    ensures |Filter(bands, IsYear(2010))| + |Filter(bands, IsYear(2019))| <= |bands|
  {
    if bands != [] {
      SplitCount(bands[..|bands| - 1]);
    }
  }
}
