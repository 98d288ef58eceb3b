/**
 * Selection and normalisation of HMDA loan records. HMDA changed its file
 * layout in 2018, so a raw table comes in one of two layouts; the year picks
 * which filter chain runs. Years 2007 to 2017 use the older layout's chain,
 * only the year 2019 uses the newer layout's chain, and every other year
 * (2018 included) gets no filtering at all, only the dropping of incomplete
 * rows and the integer cast of the county code.
 */
module RecordFilter {
  import opened Base
  import opened Seqs
  import opened Floats

  /** The four first-lien product types kept from the newer layout. */
  const FirstLienTypes: set<string> :=
    {"Conventional:First Lien", "FHA:First Lien", "VA:First Lien", "FSA/RHS:First Lien"}

  /** A raw row of the 2018-onward layout (only the columns the pipeline reads). */
  datatype LoanRecord2018 = LoanRecord2018(
    derivedLoanProductType: Option<string>,
    businessOrCommercialPurpose: Option<int>,
    loanPurpose: Option<int>,
    occupancyType: Option<int>,
    actionTaken: Option<int>,
    income: Option<real>,          // thousands of dollars
    loanAmount: Option<real>,
    propertyValue: Option<real>,
    countyCode: Option<real>)

  /** A raw row of the 2007-2017 layout (only the columns the pipeline reads). */
  datatype LoanRecord2007 = LoanRecord2007(
    ownerOccupancy: Option<int>,
    loanPurpose: Option<int>,
    actionTaken: Option<int>,
    lienStatus: Option<int>,
    loanAmount000s: Option<real>,
    applicantIncome000s: Option<real>,
    countyName: Option<string>,
    countyCode: Option<real>)

  /** A raw loan table, in whichever layout its file had. */
  datatype RawTable = Layout2018(records2018: seq<LoanRecord2018>) | Layout2007(records2007: seq<LoanRecord2007>)

  /** The newer chain's projection, before incomplete rows are dropped. */
  datatype Projected2019 = Projected2019(
    loanAmount: Option<real>, propertyValue: Option<real>, applicantIncome: Option<real>, countyCode: Option<real>)

  /** The older chain's projection, before incomplete rows are dropped. */
  datatype Projected2007 = Projected2007(
    loanAmount: Option<real>, applicantIncome: Option<real>, countyName: Option<string>, countyCode: Option<real>)

  /** A cleaned loan of the newer chain: every field present, amounts in dollars. */
  datatype Loan2019 = Loan2019(loanAmount: real, propertyValue: real, applicantIncome: real, countyCode: int)

  /** A cleaned loan of the older chain: every field present, amounts in dollars. */
  datatype Loan2007 = Loan2007(loanAmount: real, applicantIncome: real, countyName: string, countyCode: int)

  /** The cleaned table: the projection of a chain, or the raw rows when no chain ran. */
  datatype CleanTable =
    | Clean2019(loans2019: seq<Loan2019>)
    | Clean2007(loans2007: seq<Loan2007>)
    | Unfiltered2018(rows2018: seq<LoanRecord2018>)
    | Unfiltered2007(rows2007: seq<LoanRecord2007>)

  // ---------------------------------------------------------------------------
  // The year branches.

  predicate UsesChain2019(year: int) { year == 2019 }

  predicate UsesChain2007(year: int) { 2007 <= year < 2018 }

  // ---------------------------------------------------------------------------
  // The newer chain, one predicate per selection (a missing cell never matches).

  predicate IsFirstLienProduct(x: LoanRecord2018)
  {
    x.derivedLoanProductType.Some? && x.derivedLoanProductType.value in FirstLienTypes
  }

  predicate NotForBusiness(x: LoanRecord2018) { x.businessOrCommercialPurpose == Some(2) }

  predicate IsHomePurchase2018(x: LoanRecord2018) { x.loanPurpose == Some(1) }

  predicate IsPrincipalResidence(x: LoanRecord2018) { x.occupancyType == Some(1) }

  predicate IsOriginated2018(x: LoanRecord2018) { x.actionTaken == Some(1) }

  /** The conjunction of the newer chain's five selections. */
  predicate Keep2019(x: LoanRecord2018)
  {
    IsFirstLienProduct(x) && NotForBusiness(x) && IsHomePurchase2018(x) && IsPrincipalResidence(x) && IsOriginated2018(x)
  }

  /** Derive applicant income in dollars (income is reported in thousands) and keep four columns. */
  function Project2019(x: LoanRecord2018): Projected2019
  {
    var applicantIncome := if x.income.Some? then Some(x.income.value * 1000.0) else None;
    Projected2019(x.loanAmount, x.propertyValue, applicantIncome, x.countyCode)
  }

  /** Drop an incomplete projected row; cast the county code of a complete one to int. */
  function DropNa2019(p: Projected2019): Option<Loan2019>
  {
    if p.loanAmount.Some? && p.propertyValue.Some? && p.applicantIncome.Some? && p.countyCode.Some? then
      Some(Loan2019(p.loanAmount.value, p.propertyValue.value, p.applicantIncome.value, TruncToInt(p.countyCode.value)))
    else None
  }

  /** What the newer chain makes of one raw row: a cleaned loan, or nothing when the row is dropped. */
  function CleanRecord2019(x: LoanRecord2018): (r: Option<Loan2019>)
    ensures r.Some? <==>
      && x.derivedLoanProductType.Some? && x.derivedLoanProductType.value in FirstLienTypes
      && x.businessOrCommercialPurpose == Some(2)
      && x.loanPurpose == Some(1) && x.occupancyType == Some(1) && x.actionTaken == Some(1)
      && x.loanAmount.Some? && x.propertyValue.Some? && x.income.Some? && x.countyCode.Some?
    ensures r.Some? ==>
      && r.value.loanAmount == x.loanAmount.value
      && r.value.propertyValue == x.propertyValue.value
      && r.value.applicantIncome == 1000.0 * x.income.value
      && r.value.countyCode == TruncToInt(x.countyCode.value)
  {
    if Keep2019(x) then DropNa2019(Project2019(x)) else None
  }

  // ---------------------------------------------------------------------------
  // The older chain.

  predicate IsOwnerOccupied(x: LoanRecord2007) { x.ownerOccupancy == Some(1) }

  predicate IsHomePurchase2007(x: LoanRecord2007) { x.loanPurpose == Some(1) }

  predicate IsOriginated2007(x: LoanRecord2007) { x.actionTaken == Some(1) }

  predicate IsFirstLien(x: LoanRecord2007) { x.lienStatus == Some(1) }

  /** The conjunction of the older chain's four selections. */
  predicate Keep2007(x: LoanRecord2007)
  {
    IsOwnerOccupied(x) && IsHomePurchase2007(x) && IsOriginated2007(x) && IsFirstLien(x)
  }

  /** Derive loan amount and applicant income in dollars from the thousands columns and keep four columns. */
  function Project2007(x: LoanRecord2007): Projected2007
  {
    var loanAmount := if x.loanAmount000s.Some? then Some(x.loanAmount000s.value * 1000.0) else None;
    var applicantIncome := if x.applicantIncome000s.Some? then Some(x.applicantIncome000s.value * 1000.0) else None;
    Projected2007(loanAmount, applicantIncome, x.countyName, x.countyCode)
  }

  function DropNa2007(p: Projected2007): Option<Loan2007>
  {
    if p.loanAmount.Some? && p.applicantIncome.Some? && p.countyName.Some? && p.countyCode.Some? then
      Some(Loan2007(p.loanAmount.value, p.applicantIncome.value, p.countyName.value, TruncToInt(p.countyCode.value)))
    else None
  }

  /** What the older chain makes of one raw row. */
  function CleanRecord2007(x: LoanRecord2007): (r: Option<Loan2007>)
    ensures r.Some? <==>
      && x.ownerOccupancy == Some(1) && x.loanPurpose == Some(1) && x.actionTaken == Some(1) && x.lienStatus == Some(1)
      && x.loanAmount000s.Some? && x.applicantIncome000s.Some? && x.countyName.Some? && x.countyCode.Some?
    ensures r.Some? ==>
      && r.value.loanAmount == 1000.0 * x.loanAmount000s.value
      && r.value.applicantIncome == 1000.0 * x.applicantIncome000s.value
      && r.value.countyName == x.countyName.value
      && r.value.countyCode == TruncToInt(x.countyCode.value)
  {
    if Keep2007(x) then DropNa2007(Project2007(x)) else None
  }

  // ---------------------------------------------------------------------------
  // No chain: only the incomplete rows go, and the county code becomes a whole number.

  predicate Complete2018(x: LoanRecord2018)
  {
    && x.derivedLoanProductType.Some? && x.businessOrCommercialPurpose.Some? && x.loanPurpose.Some?
    && x.occupancyType.Some? && x.actionTaken.Some? && x.income.Some? && x.loanAmount.Some?
    && x.propertyValue.Some? && x.countyCode.Some?
  }

  predicate Complete2007(x: LoanRecord2007)
  {
    && x.ownerOccupancy.Some? && x.loanPurpose.Some? && x.actionTaken.Some? && x.lienStatus.Some?
    && x.loanAmount000s.Some? && x.applicantIncome000s.Some? && x.countyName.Some? && x.countyCode.Some?
  }

  function DropNaRaw2018(x: LoanRecord2018): (r: Option<LoanRecord2018>)
    ensures r.Some? <==> Complete2018(x)
    ensures r.Some? ==> Complete2018(r.value) && r.value.(countyCode := x.countyCode) == x
    ensures r.Some? ==>
      var c, v := r.value.countyCode.value, x.countyCode.value;
      && c.Floor as real == c
      && (v >= 0.0 ==> c <= v < c + 1.0)
      && (v < 0.0 ==> c - 1.0 < v <= c)
  {
    if Complete2018(x) then Some(x.(countyCode := Some(TruncToInt(x.countyCode.value) as real))) else None
  }

  function DropNaRaw2007(x: LoanRecord2007): (r: Option<LoanRecord2007>)
    ensures r.Some? <==> Complete2007(x)
    ensures r.Some? ==> Complete2007(r.value) && r.value.(countyCode := x.countyCode) == x
    ensures r.Some? ==>
      var c, v := r.value.countyCode.value, x.countyCode.value;
      && c.Floor as real == c
      && (v >= 0.0 ==> c <= v < c + 1.0)
      && (v < 0.0 ==> c - 1.0 < v <= c)
  {
    if Complete2007(x) then Some(x.(countyCode := Some(TruncToInt(x.countyCode.value) as real))) else None
  }

  // ---------------------------------------------------------------------------
  // The whole cleaning step.

  /**
   * `read_in_and_clean_hdma_data` after the file is read: the cleaned table of
   * `raw` for `year`, or the missing-column failure when the year's chain meets
   * the other layout.
   */
  function CleanHmda(raw: RawTable, year: int): (r: Result<CleanTable>)
    ensures r.Err? <==> (UsesChain2019(year) && raw.Layout2007?) || (UsesChain2007(year) && raw.Layout2018?)
    ensures r.Ok? && UsesChain2019(year) ==> r.value == Clean2019(FilterMap(raw.records2018, CleanRecord2019))
    ensures r.Ok? && UsesChain2007(year) ==> r.value == Clean2007(FilterMap(raw.records2007, CleanRecord2007))
    ensures r.Ok? && !UsesChain2019(year) && !UsesChain2007(year) ==>
      r.value == (if raw.Layout2018? then Unfiltered2018(FilterMap(raw.records2018, DropNaRaw2018))
                  else Unfiltered2007(FilterMap(raw.records2007, DropNaRaw2007)))
  {
    if UsesChain2019(year) then
      match raw
      case Layout2018(records) => Ok(Clean2019(FilterMap(records, CleanRecord2019)))
      case Layout2007(_) => Err(MissingColumn("derived_loan_product_type"))
    else if UsesChain2007(year) then
      match raw
      case Layout2007(records) => Ok(Clean2007(FilterMap(records, CleanRecord2007)))
      case Layout2018(_) => Err(MissingColumn("owner_occupancy"))
    else
      match raw
      case Layout2018(records) => Ok(Unfiltered2018(FilterMap(records, DropNaRaw2018)))
      case Layout2007(records) => Ok(Unfiltered2007(FilterMap(records, DropNaRaw2007)))
  }

  /** The newer chain as the data frame sees it: five selections, a derived column and projection, then dropna. */
  method Chain2019(records: seq<LoanRecord2018>) returns (loans: seq<Loan2019>)
    ensures loans == FilterMap(records, CleanRecord2019)
  {
    var df := FilterRows(records, IsFirstLienProduct);
    df := FilterRows(df, NotForBusiness);
    df := FilterRows(df, IsHomePurchase2018);
    df := FilterRows(df, IsPrincipalResidence);
    df := FilterRows(df, IsOriginated2018);
    var projected := MapRows(df, Project2019);
    loans := FilterMapRows(projected, DropNa2019);

    ghost var p2 := (x: LoanRecord2018) => IsFirstLienProduct(x) && NotForBusiness(x);
    ghost var p3 := (x: LoanRecord2018) => p2(x) && IsHomePurchase2018(x);
    ghost var p4 := (x: LoanRecord2018) => p3(x) && IsPrincipalResidence(x);
    FilterFuse(records, IsFirstLienProduct, NotForBusiness, p2);
    FilterFuse(records, p2, IsHomePurchase2018, p3);
    FilterFuse(records, p3, IsPrincipalResidence, p4);
    FilterFuse(records, p4, IsOriginated2018, Keep2019);
    ghost var tidy := (x: LoanRecord2018) => DropNa2019(Project2019(x));
    FilterMapOfMap(Filter(records, Keep2019), Project2019, DropNa2019, tidy);
    FilterMapOfFilter(records, Keep2019, tidy, CleanRecord2019);
  }

  /** The older chain: four selections, two derived columns and projection, then dropna. */
  method Chain2007(records: seq<LoanRecord2007>) returns (loans: seq<Loan2007>)
    ensures loans == FilterMap(records, CleanRecord2007)
  {
    var df := FilterRows(records, IsOwnerOccupied);
    df := FilterRows(df, IsHomePurchase2007);
    df := FilterRows(df, IsOriginated2007);
    df := FilterRows(df, IsFirstLien);
    var projected := MapRows(df, Project2007);
    loans := FilterMapRows(projected, DropNa2007);

    ghost var p2 := (x: LoanRecord2007) => IsOwnerOccupied(x) && IsHomePurchase2007(x);
    ghost var p3 := (x: LoanRecord2007) => p2(x) && IsOriginated2007(x);
    FilterFuse(records, IsOwnerOccupied, IsHomePurchase2007, p2);
    FilterFuse(records, p2, IsOriginated2007, p3);
    FilterFuse(records, p3, IsFirstLien, Keep2007);
    ghost var tidy := (x: LoanRecord2007) => DropNa2007(Project2007(x));
    FilterMapOfMap(Filter(records, Keep2007), Project2007, DropNa2007, tidy);
    FilterMapOfFilter(records, Keep2007, tidy, CleanRecord2007);
  }

  /** `read_in_and_clean_hdma_data`, minus reading the file. */
  method ReadInAndCleanHmdaData(raw: RawTable, year: int) returns (r: Result<CleanTable>)
    ensures r == CleanHmda(raw, year)
  {
    if year == 2019 {
      if raw.Layout2007? {
        return Err(MissingColumn("derived_loan_product_type"));
      }
      var loans := Chain2019(raw.records2018);
      r := Ok(Clean2019(loans));
    } else if 2007 <= year < 2018 {
      if raw.Layout2018? {
        return Err(MissingColumn("owner_occupancy"));
      }
      var loans := Chain2007(raw.records2007);
      r := Ok(Clean2007(loans));
    } else {
      match raw {
        case Layout2018(records) =>
          var rows := FilterMapRows(records, DropNaRaw2018);
          r := Ok(Unfiltered2018(rows));
        case Layout2007(records) =>
          var rows := FilterMapRows(records, DropNaRaw2007);
          r := Ok(Unfiltered2007(rows));
      }
    }
  }

  // ---------------------------------------------------------------------------
  // Properties of the cleaned table.

  /** Raw row `x` passes every selection of the newer chain and `l` carries its amounts. */
  predicate KeptAs2019(x: LoanRecord2018, l: Loan2019)
  {
    && Keep2019(x)
    && x.loanAmount.Some? && l.loanAmount == x.loanAmount.value
    && x.income.Some? && l.applicantIncome == 1000.0 * x.income.value
  }

  /** Raw row `x` passes every selection of the older chain and `l` carries its amounts in dollars. */
  predicate KeptAs2007(x: LoanRecord2007, l: Loan2007)
  {
    && Keep2007(x)
    && x.loanAmount000s.Some? && l.loanAmount == 1000.0 * x.loanAmount000s.value
    && x.applicantIncome000s.Some? && l.applicantIncome == 1000.0 * x.applicantIncome000s.value
  }

  /** Every 2019 loan comes from a raw first-lien, non-business, home-purchase, owner-occupied, originated row. */
  lemma Survivor2019(records: seq<LoanRecord2018>, j: nat)
    requires j < |FilterMap(records, CleanRecord2019)|
    ensures exists i :: 0 <= i < |records| && KeptAs2019(records[i], FilterMap(records, CleanRecord2019)[j])
  {
    var i :| 0 <= i < |records| && CleanRecord2019(records[i]) == Some(FilterMap(records, CleanRecord2019)[j]);
  }

  /** Every loan of a 2007-2017 year comes from a raw owner-occupied, home-purchase, originated, first-lien row. */
  lemma Survivor2007(records: seq<LoanRecord2007>, j: nat)
    requires j < |FilterMap(records, CleanRecord2007)|
    ensures exists i :: 0 <= i < |records| && KeptAs2007(records[i], FilterMap(records, CleanRecord2007)[j])
  {
    var i :| 0 <= i < |records| && CleanRecord2007(records[i]) == Some(FilterMap(records, CleanRecord2007)[j]);
  }

  /** Cleaning keeps the input order: the loans of two stacked tables are the two tables' loans, stacked. */
  lemma CleaningKeepsOrder(a: RawTable, b: RawTable, year: int)
    requires a.Layout2018? == b.Layout2018?
    requires CleanHmda(a, year).Ok?
    ensures CleanHmda(Stack(a, b), year) == Ok(StackClean(CleanHmda(a, year).value, CleanHmda(b, year).value))
  {
    match a
    case Layout2018(ra) => StackKeepsOrder2018(ra, b.records2018, year);
    case Layout2007(ra) => StackKeepsOrder2007(ra, b.records2007, year);
  }

  lemma StackKeepsOrder2018(a: seq<LoanRecord2018>, b: seq<LoanRecord2018>, year: int)
    requires !UsesChain2007(year)
    ensures CleanHmda(Layout2018(a + b), year)
         == Ok(StackClean(CleanHmda(Layout2018(a), year).value, CleanHmda(Layout2018(b), year).value))
  {
    if UsesChain2019(year) {
      StackChain2018(a, b, year);
    } else {
      StackNoChain2018(a, b, year);
    }
  }

  lemma StackChain2018(a: seq<LoanRecord2018>, b: seq<LoanRecord2018>, year: int)
    requires UsesChain2019(year)
    ensures CleanHmda(Layout2018(a + b), year)
         == Ok(StackClean(CleanHmda(Layout2018(a), year).value, CleanHmda(Layout2018(b), year).value))
  {
    FilterMapConcat(a, b, CleanRecord2019);
    assert CleanHmda(Layout2018(a), year) == Ok(Clean2019(FilterMap(a, CleanRecord2019)));
    assert CleanHmda(Layout2018(b), year) == Ok(Clean2019(FilterMap(b, CleanRecord2019)));
  }

  lemma StackNoChain2018(a: seq<LoanRecord2018>, b: seq<LoanRecord2018>, year: int)
    requires !UsesChain2019(year) && !UsesChain2007(year)
    ensures CleanHmda(Layout2018(a + b), year)
         == Ok(StackClean(CleanHmda(Layout2018(a), year).value, CleanHmda(Layout2018(b), year).value))
  {
    FilterMapConcat(a, b, DropNaRaw2018);
    assert CleanHmda(Layout2018(a), year) == Ok(Unfiltered2018(FilterMap(a, DropNaRaw2018)));
    assert CleanHmda(Layout2018(b), year) == Ok(Unfiltered2018(FilterMap(b, DropNaRaw2018)));
  }


  lemma StackKeepsOrder2007(a: seq<LoanRecord2007>, b: seq<LoanRecord2007>, year: int)
    requires !UsesChain2019(year)
    ensures CleanHmda(Layout2007(a + b), year)
         == Ok(StackClean(CleanHmda(Layout2007(a), year).value, CleanHmda(Layout2007(b), year).value))
  {
    if UsesChain2007(year) {
      StackChain2007(a, b, year);
    } else {
      StackNoChain2007(a, b, year);
    }
  }

  lemma StackChain2007(a: seq<LoanRecord2007>, b: seq<LoanRecord2007>, year: int)
    requires UsesChain2007(year)
    ensures CleanHmda(Layout2007(a + b), year)
         == Ok(StackClean(CleanHmda(Layout2007(a), year).value, CleanHmda(Layout2007(b), year).value))
  {
    FilterMapConcat(a, b, CleanRecord2007);
    assert CleanHmda(Layout2007(a), year) == Ok(Clean2007(FilterMap(a, CleanRecord2007)));
    assert CleanHmda(Layout2007(b), year) == Ok(Clean2007(FilterMap(b, CleanRecord2007)));
  }

  lemma StackNoChain2007(a: seq<LoanRecord2007>, b: seq<LoanRecord2007>, year: int)
    requires !UsesChain2019(year) && !UsesChain2007(year)
    ensures CleanHmda(Layout2007(a + b), year)
         == Ok(StackClean(CleanHmda(Layout2007(a), year).value, CleanHmda(Layout2007(b), year).value))
  {
    FilterMapConcat(a, b, DropNaRaw2007);
    assert CleanHmda(Layout2007(a), year) == Ok(Unfiltered2007(FilterMap(a, DropNaRaw2007)));
    assert CleanHmda(Layout2007(b), year) == Ok(Unfiltered2007(FilterMap(b, DropNaRaw2007)));
  }


  /** Two raw tables of the same layout, one after the other. */
  function Stack(a: RawTable, b: RawTable): RawTable
    requires a.Layout2018? == b.Layout2018?
  {
    if a.Layout2018? then Layout2018(a.records2018 + b.records2018) else Layout2007(a.records2007 + b.records2007)
  }

  /** Two cleaned tables of the same kind, one after the other. */
  function StackClean(a: CleanTable, b: CleanTable): CleanTable
  {
    match (a, b)
    case (Clean2019(x), Clean2019(y)) => Clean2019(x + y)
    case (Clean2007(x), Clean2007(y)) => Clean2007(x + y)
    case (Unfiltered2018(x), Unfiltered2018(y)) => Unfiltered2018(x + y)
    case (Unfiltered2007(x), Unfiltered2007(y)) => Unfiltered2007(x + y)
    case _ => a
  }

  /** A 2019 row for a business purpose, or with no county code, changes nothing wherever it stands. */
  lemma Rejected2019Dropped(a: seq<LoanRecord2018>, x: LoanRecord2018, b: seq<LoanRecord2018>)
    requires x.businessOrCommercialPurpose != Some(2) || x.countyCode.None?
    ensures CleanHmda(Layout2018(a + [x] + b), 2019) == CleanHmda(Layout2018(a + b), 2019)
  {
    FilterMapSkips(a, x, b, CleanRecord2019);
  }

  /**
   * A year that matches neither chain (2018 among them) selects nothing: every
   * complete raw row survives, with only its county code made whole, and every
   * surviving row is such a row.
   */
  lemma NoChainOnlyDropsIncomplete2018(records: seq<LoanRecord2018>, year: int)
    requires !UsesChain2019(year) && !UsesChain2007(year)
    ensures CleanHmda(Layout2018(records), year).Ok?
    ensures var rows := CleanHmda(Layout2018(records), year).value.rows2018;
      && (forall i :: 0 <= i < |records| && Complete2018(records[i]) ==>
            records[i].(countyCode := Some(TruncToInt(records[i].countyCode.value) as real)) in rows)
      && (forall j :: 0 <= j < |rows| ==> Complete2018(rows[j]))
      && (forall j :: 0 <= j < |rows| ==>
            exists i :: 0 <= i < |records| && Complete2018(records[i]) &&
              rows[j] == records[i].(countyCode := Some(TruncToInt(records[i].countyCode.value) as real)))
      && |rows| <= |records|
  {
    var rows := FilterMap(records, DropNaRaw2018);
    forall i | 0 <= i < |records| && Complete2018(records[i])
      ensures records[i].(countyCode := Some(TruncToInt(records[i].countyCode.value) as real)) in rows
    {
      assert DropNaRaw2018(records[i]) == Some(records[i].(countyCode := Some(TruncToInt(records[i].countyCode.value) as real)));
    }
    forall j | 0 <= j < |rows|
      ensures Complete2018(rows[j])
      ensures exists i ::
        0 <= i < |records| && Complete2018(records[i]) &&
        rows[j] == records[i].(countyCode := Some(TruncToInt(records[i].countyCode.value) as real))
    {
      var i :| 0 <= i < |records| && DropNaRaw2018(records[i]) == Some(rows[j]);
      assert DropNaRaw2018(records[i]) == Some(records[i].(countyCode := Some(TruncToInt(records[i].countyCode.value) as real)));
    }
  }

  /** The same for a table in the 2007-2017 layout. */
  lemma NoChainOnlyDropsIncomplete2007(records: seq<LoanRecord2007>, year: int)
    requires !UsesChain2019(year) && !UsesChain2007(year)
    ensures CleanHmda(Layout2007(records), year).Ok?
    ensures var rows := CleanHmda(Layout2007(records), year).value.rows2007;
      && (forall i :: 0 <= i < |records| && Complete2007(records[i]) ==>
            records[i].(countyCode := Some(TruncToInt(records[i].countyCode.value) as real)) in rows)
      && (forall j :: 0 <= j < |rows| ==> Complete2007(rows[j]))
      && (forall j :: 0 <= j < |rows| ==>
            exists i :: 0 <= i < |records| && Complete2007(records[i]) &&
              rows[j] == records[i].(countyCode := Some(TruncToInt(records[i].countyCode.value) as real)))
      && |rows| <= |records|
  {
    var rows := FilterMap(records, DropNaRaw2007);
    forall i | 0 <= i < |records| && Complete2007(records[i])
      ensures records[i].(countyCode := Some(TruncToInt(records[i].countyCode.value) as real)) in rows
    {
      assert DropNaRaw2007(records[i]) == Some(records[i].(countyCode := Some(TruncToInt(records[i].countyCode.value) as real)));
    }
    forall j | 0 <= j < |rows|
      ensures Complete2007(rows[j])
      ensures exists i ::
        0 <= i < |records| && Complete2007(records[i]) &&
        rows[j] == records[i].(countyCode := Some(TruncToInt(records[i].countyCode.value) as real))
    {
      var i :| 0 <= i < |records| && DropNaRaw2007(records[i]) == Some(rows[j]);
      assert DropNaRaw2007(records[i]) == Some(records[i].(countyCode := Some(TruncToInt(records[i].countyCode.value) as real)));
    }
  }


  /**
   * A complete 2018-layout row for a business purpose is dropped when the year
   * is 2019 but kept when the year is 2018, which runs no chain.
   */
  lemma Year2018KeepsBusinessLoans(x: LoanRecord2018)
    requires Complete2018(x) && x.businessOrCommercialPurpose == Some(1)
    ensures CleanHmda(Layout2018([x]), 2019) == Ok(Clean2019([]))
    ensures CleanHmda(Layout2018([x]), 2018)
         == Ok(Unfiltered2018([x.(countyCode := Some(TruncToInt(x.countyCode.value) as real))]))
  {
    assert [x][..0] == [];
    var cleaned := x.(countyCode := Some(TruncToInt(x.countyCode.value) as real));
    assert FilterMap([x], DropNaRaw2018) == [cleaned];
  }
}
