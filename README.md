# HMDA housing affordability pipeline — a verified model

This project models the core of `hdma_functions.py`. That code takes HMDA
(Home Mortgage Disclosure Act) loan records and county Area Median Income
(AMI) bands, and answers three questions per county:

- how many home-purchase loans a household at 80%, 100% or 120% of AMI could
  afford;
- how that number changed between 2010 and 2019;
- which counties changed most.

The model has one module per concern:

| module | file | what it holds |
|---|---|---|
| `Base` | `base.dfy` | `Option`, `Result` and the error values |
| `Seqs` | `seqs.dfy` | row selection (`Filter`), derived columns (`Map`), `dropna` with projection (`FilterMap`); the loop methods that perform them on a frame; fusion and concatenation lemmas |
| `Floats` | `floats.dfy` | the float64 behaviour the pipeline can observe: division by zero giving an infinity or NaN, numpy's half-to-even `round(2)`, NaN-last ascending sort, and the truncating `astype(int)` |
| `RecordFilter` | `record_filter.dfy` | `read_in_and_clean_hdma_data` over the two HMDA file layouts (2007–2017 and 2018 onward) |
| `AmiBands` | `ami_bands.dfy` | `read_in_ami`: the derived 100% band and the split into 2010 and 2019 rows |
| `JoinedLoans` | `joined_loans.dfy` | `JoinedLoan`, a cleaned loan joined with its county's bands: the rows `Indicators` and `CountyAggregation` work on |
| `Affordability` | `affordability.dfy` | `calc_house_afford` and its two wrappers: the largest 30-year mortgage whose payment is 30% of monthly income |
| `Indicators` | `indicators.dfy` | `middle_income`, `calc_percent_binary_col`, `percent_change` |
| `CountyAggregation` | `county_aggregation.dfy` | `calc_value`, `change_in_absolute_number`, `merge_years` |

Tables are sequences of typed rows. A cell that can be missing is an
`Option`. Finite float values are exact reals.

Behaviour of the code worth knowing, which the model keeps:

- **Which years run which filter chain.** The docstring of
  `read_in_and_clean_hdma_data` (hdma_functions.py:12-15) groups 2018 with
  2019. The code tests `year in [2019,2019]`, so only 2019 runs the newer
  layout's filter chain. Years outside 2019 and 2007–2017 (2018 included) get
  no row selection at all: only `dropna` and the integer cast of the county
  code. `RecordFilter.Year2018KeepsBusinessLoans` exhibits the difference.
- **A zero baseline in `percent_change`.** `merge_years` passes the integer
  count columns of `calc_value`, and pandas divides them with true division,
  so a zero baseline would yield `inf`, `-inf` or `NaN`; the model does the
  same. In the pipeline itself the baseline is never zero, because
  `calc_value` drops the counties whose count is zero
  (hdma_functions.py:193); the non-finite results arise only when
  `percent_change` is called directly.
- **A county in only one table.** `change_in_absolute_number` subtracts two
  `groupby` sizes, which gives NaN for such counties; it then drops two rows
  by position. The model keeps exactly the counties both tables share (see
  "Left out").

## Model

| member | source | states |
|---|---|---|
| Seqs.FilterRows | hdma_functions.py:21-27 | a boolean selection `df[mask]` run row by row equals `Filter`: every kept row is an input row satisfying the mask, and every input row satisfying it is kept |
| Seqs.MapRows | hdma_functions.py:28-29 | a derived column and projection transforms every row and keeps length and order |
| Seqs.FilterMapRows | hdma_functions.py:41-42 | `dropna` followed by the cast keeps exactly the rows that are complete, transformed, in order |
| Seqs.FilterMapConcat | hdma_functions.py:41 | dropping incomplete rows distributes over stacking two tables, so input order is preserved |
| Seqs.FilterFuse | hdma_functions.py:21-27 | two selections one after the other equal one selection by their conjunction |
| Floats.Divide | hdma_functions.py:80 | float division: finite exactly when the divisor is non-zero, and then quotient × divisor = dividend; otherwise +inf, -inf or NaN by the dividend's sign |
| Floats.SortsBeforeTotalPreorder | hdma_functions.py:207 | the ascending sort order with NaN last is reflexive, total and transitive |
| Floats.RoundHalfEven | hdma_functions.py:90 | the rounded integer is within 0.5 of its argument, and an exact tie goes to the even neighbour |
| Floats.Round2 | hdma_functions.py:90 | `round(2)` is within 0.005 of its argument and is a whole number of hundredths |
| Floats.Round2Monotone | hdma_functions.py:90 | rounding never reverses the order of two values |
| Floats.RoundFloat2 | hdma_functions.py:90 | rounding a float leaves infinities and NaN unchanged; a finite value moves by at most 0.005 and becomes a whole number of hundredths |
| Floats.TruncToInt | hdma_functions.py:42 | `astype(int)` truncates toward zero: the whole number at most one away from the value on the side of zero |
| Floats.TruncOfWhole | hdma_functions.py:42 | casting a whole-valued county code gives back that code |
| RecordFilter.CleanRecord2019 | hdma_functions.py:20-29 | a 2018-layout row survives the 2019 chain exactly when it is a first-lien product, not for business, a home purchase, a principal residence, originated, and has loan amount, property value, income and county code; the loan then carries income × 1000 and the truncated county code |
| RecordFilter.CleanRecord2007 | hdma_functions.py:30-42 | a 2007-layout row survives exactly when owner-occupied, a home purchase, originated, first lien and complete in the four kept columns; loan amount and income are then in dollars (× 1000) |
| RecordFilter.DropNaRaw2018 | hdma_functions.py:41-42 | with no chain, a newer-layout row survives exactly when it is complete; the survivor is complete, differs from the row only in its county code, and that code is the whole number next to the original toward zero |
| RecordFilter.DropNaRaw2007 | hdma_functions.py:41-42 | with no chain, an older-layout row survives exactly when it is complete; the survivor is complete, differs from the row only in its county code, and that code is the whole number next to the original toward zero |
| RecordFilter.CleanHmda | hdma_functions.py:20-42 | the cleaned table for a year: fails with the missing column exactly when the year's chain meets the other layout; otherwise the rows that the year's chain (or the no-chain `dropna`) keeps, in input order |
| RecordFilter.Chain2019 | hdma_functions.py:21-29 | the five successive selections, the derived income, the projection and `dropna`, run on the frame, give exactly the rows `CleanRecord2019` keeps, in order |
| RecordFilter.Chain2007 | hdma_functions.py:31-39 | the four successive selections, the two derived amounts, the projection and `dropna` give exactly the rows `CleanRecord2007` keeps, in order |
| RecordFilter.ReadInAndCleanHmdaData | hdma_functions.py:6-45 | the imperative pipeline computes `CleanHmda` for every table and year |
| RecordFilter.Survivor2019 | hdma_functions.py:20-29 | every cleaned 2019 loan comes from a raw row that passes all five selections and carries that row's loan amount and income × 1000 |
| RecordFilter.Survivor2007 | hdma_functions.py:30-39 | every cleaned older-layout loan comes from a raw row that passes all four selections, with amounts × 1000 |
| RecordFilter.CleaningKeepsOrder | hdma_functions.py:20-42 | cleaning two stacked tables gives the two cleaned tables stacked: row order is kept and rows do not interact |
| RecordFilter.Rejected2019Dropped | hdma_functions.py:23 | in 2019 a row not marked as non-business (code 2), or one without a county code, changes nothing wherever it stands in the table |
| RecordFilter.NoChainOnlyDropsIncomplete2018 | hdma_functions.py:20-42 | for a newer-layout table in a year that runs no chain, every complete row survives with its county code made whole, and every surviving row is complete and is such a row; there are no more rows than in the input |
| RecordFilter.NoChainOnlyDropsIncomplete2007 | hdma_functions.py:20-42 | the same for an older-layout table in a year that runs no chain |
| RecordFilter.Year2018KeepsBusinessLoans | hdma_functions.py:20 | a complete business-purpose row is dropped in 2019 but kept in 2018 |
| AmiBands.WithAmi100 | hdma_functions.py:57 | the 100% band is the 80% band × 1.25 (so 80% of it is the 80% band); other fields are copied |
| AmiBands.ReadInAmi | hdma_functions.py:47-63 | the 2010 and 2019 outputs are the derived-band rows of that year, in order; every output row has its year and a 100% band of 1.25 × the 80% band |
| AmiBands.CleanedYear | hdma_functions.py:57-62 | every row selected for a year is of that year and carries the derived 100% band |
| AmiBands.YearSplitExact | hdma_functions.py:57-62 | deriving the band and then selecting a year equals selecting the year's raw rows and then deriving |
| AmiBands.YearSplitRoundTrip | hdma_functions.py:61-62 | selecting a year's output by its year again gives it back unchanged |
| AmiBands.YearSplitCount | hdma_functions.py:61-62 | each raw row feeds at most one year's output, so the two outputs together hold no more rows than the input |
| Indicators.MiddleIncome | hdma_functions.py:72 | the flag is 1 exactly when income is above the 80% band and at most the 120% band, 0 otherwise, row by row |
| Indicators.CalcPercentBinaryCol | hdma_functions.py:80 | sum over length: finite exactly for a non-empty column, and then share × length = sum; the empty column gives NaN |
| Indicators.BinaryShareBounded | hdma_functions.py:80 | the share of ones in a non-empty 0/1 column lies in [0, 1] |
| Indicators.SumOfMiddleIncome | hdma_functions.py:72 | the sum of the middle-income flags is the number of middle-income rows |
| Indicators.MiddleIncomeShare | hdma_functions.py:72-80 | the share computed from the flags is the fraction of rows in the middle-income band |
| Indicators.PercentChange | hdma_functions.py:89-90 | finite exactly when the baseline is non-zero, and then it is 100 (figure2 − figure1) / figure1 rounded to two decimals by `Round2` (so within 0.005 of it, a whole number of hundredths, ties to even); with a zero baseline it is +inf, -inf or NaN by the sign of figure2 |
| Indicators.PercentChangeExample | hdma_functions.py:89-90 | a change from 10 to 15 is exactly 50.0 |
| Indicators.PercentChangeMonotone | hdma_functions.py:89-90 | against the same positive baseline, a larger later figure never shows a smaller change |
| Affordability.AnnuityClosedForm | hdma_functions.py:158-159 | the factor (1 − (1 + r)^−n) / r is the sum of the discount factors 1 / (1 + r)^k for k = 1..n |
| Affordability.DiscountSumDecreasing | hdma_functions.py:157-158 | a higher monthly rate gives a strictly smaller discount sum |
| Affordability.PresentValueOfPayments | hdma_functions.py:155-159 | the principal is the present value of 360 monthly payments of 30% of monthly income |
| Affordability.MaxLoanSign | hdma_functions.py:155-159 | the principal has the sign of the income |
| Affordability.MaxLoanLinear | hdma_functions.py:155-159 | the principal is proportional to income |
| Affordability.MaxLoanStrictlyIncreasing | hdma_functions.py:155-159 | a higher income affords a strictly larger principal |
| Affordability.MaxLoanDecreasingInRate | hdma_functions.py:157-159 | for a positive income, a higher rate affords a strictly smaller principal |
| Affordability.CalcHouseAfford | hdma_functions.py:147-160 | the principal at the 2010 rate (4.69%) when asked for 2010, else at the 2019 rate (3.94%); positive exactly for a positive income |
| Affordability.CalcLoanValues | hdma_functions.py:164-165 | the principal at the 2010 rate, positive exactly for a positive income |
| Affordability.CalcLoanValues2019 | hdma_functions.py:162-163 | the principal at the 2019 rate, positive exactly for a positive income |
| Affordability.CalcHouseAffordStrictlyIncreasing | hdma_functions.py:147-160 | in either year, a higher income affords strictly more |
| Affordability.LowerRate2019AffordsMore | hdma_functions.py:147-151 | the lower 2019 rate lets any positive income borrow strictly more than the 2010 rate |
| CountyAggregation.Interest2010 | hdma_functions.py:184-189 | a rate exists exactly for 2010 and 2019, and it is the 2010 rate exactly for 2010 |
| CountyAggregation.CalcValue | hdma_functions.py:168-195 | a year other than 2010 or 2019 fails; otherwise each row gets its band's maximum loan and a flag that is 1 exactly when that maximum is at least the loan amount, and each county with a non-zero number of affordable loans maps to that number (counties with none are absent) |
| CountyAggregation.AffordabilityColumns | hdma_functions.py:184-190 | the two new columns: each row's maximum affordable loan for its band value, and its 0/1 affordability flag |
| CountyAggregation.SumByCounty | hdma_functions.py:192 | `groupby("county_name").sum()` of a 0/1 flag column: the keys are exactly the counties present (zero sums included), each county maps to the number of its rows whose flag is set, and a county that is absent has none |
| CountyAggregation.AffordableCountBounded | hdma_functions.py:190-192 | a county never has more affordable loans than loans |
| CountyAggregation.AffordableCountMonotoneInBand | hdma_functions.py:185-192 | a band at least as high on every row makes at least as many loans of every county affordable |
| CountyAggregation.GroupSize | hdma_functions.py:125 | `groupby("county_name").size()`: the keys are exactly the counties present, each mapped to its positive number of rows |
| CountyAggregation.ChangeInAbsoluteNumber | hdma_functions.py:125 | on the counties both tables share, the number of rows of the first minus that of the second |
| CountyAggregation.ChangeExcludesUnmatched | hdma_functions.py:125-127 | a county missing from the second table has no change entry |
| CountyAggregation.Insert | hdma_functions.py:207 | inserting into a sorted table keeps it sorted and makes it one row longer; its rows are the old rows and the new one |
| CountyAggregation.InsertPermutes | hdma_functions.py:207 | the inserted table is a permutation of the old rows plus the new one (equal as multisets), so no old row is lost or duplicated |
| CountyAggregation.MergeYears | hdma_functions.py:203-207 | one row per county present in both years, with both figures and their percent change, sorted ascending with NaN last |
| CountyAggregation.MergedCountiesDistinct | hdma_functions.py:203 | no county appears twice in the merged table |

## Left out

- Reading CSV files (`pd.read_csv`) is not modelled. Each operation takes the parsed table as a value. The unused `state_code` parameter is dropped.
- `render_mpl_table` (plotting) is not modelled. It draws a figure and computes nothing the pipeline uses.
- Column renames (`County_Name`, `80% AMI`, "Change in Number of Middle Income Home Buyers", "County Name") and the generated column titles in `calc_value` and `merge_years` are not modelled. Columns are record fields or map entries.
- Float64 rounding error is not modelled. Finite values are exact reals, so the rounding lemmas hold for real arithmetic, not bit for bit.
- Only the columns the pipeline reads are modelled. `Complete2018`/`Complete2007` check those columns, while the no-chain `dropna` in the source checks every column of the file.
- NaN inside the AMI table or the joined table is not modelled. Bands and incomes are reals.
- The join of cleaned loans with the AMI bands happens outside this file. `JoinedLoan` stands for its result.
- CountyAggregation.ChangeInAbsoluteNumber: it does not model the NaN rows pandas produces for counties in only one table, nor `.drop([10,28])`, which removes two rows by position (Madera and Shasta in the original data). The model keeps exactly the counties both tables share.
- CountyAggregation.CalcValue: it does not model the "Column not in dataframe" message, because the band is an enumeration and always present. It does not model what happens after "Invalid Year" either: a `KeyError`, or a stale column left by an earlier call. The model returns `UnsupportedYear` instead. The frame is not mutated in place: the two new columns are returned in `ValueReport`.
- CountyAggregation.MergeYears: it takes each year's per-county figure as a map, not the full frames. It does not fix the relative order of rows whose percent changes tie, because pandas' default sort is not stable.
- Indicators.PercentChange: it assumes numpy or pandas operands, as `merge_years` passes. On plain Python numbers `(pct_change * 100).round(2)` raises `AttributeError`, because a Python float has no `round` method; the model returns a value for every input, and `PercentChangeExample` holds only for column elements.
- Affordability.CalcHouseAfford: it takes a boolean. An `interest_2010` equal to neither True nor False leaves `interest` unbound in the source, and the call fails.
- No concrete dollar amount is computed for a particular income. The model proves the formula's structure (present value, sign, monotonicity in income and rate) instead.
