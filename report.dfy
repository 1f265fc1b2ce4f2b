/**
 * The `generate()` route as one pipeline: parse the posted form, filter the rows, apply the
 * validation gate, compute the totals and the sorted ledger, draw the chart, render the report,
 * convert it to PDF, stamp the footer on every page, and answer with the PDF or a fallback.
 */
module Report {
  import opened Wrappers
  import opened Text
  import opened Rows
  import opened Totals
  import opened Ledger
  import opened Footer

  /** The posted form fields, as strings, and the eight column lists of the two row tables. */
  datatype Form = Form(
    farmerName: string, cropName: string, season: string,
    totalAcres: string, totalProduction: string,
    sowingDate: string, harvestDate: string, location: string,
    expenseCategories: seq<string>, expenseAmounts: seq<string>, expenseDates: seq<string>, expenseDescs: seq<string>,
    incomeCategories: seq<string>, incomeAmounts: seq<string>, incomeDates: seq<string>, incomeDescs: seq<string>)

  /** Everything handed to the report template. */
  datatype Record = Record(
    farmerName: string, cropName: string, season: string,
    totalAcres: real, totalProduction: real,
    sowingDate: string, harvestDate: string, location: string,
    totals: Totals, expenses: seq<Row>, incomes: seq<Row>, ledger: seq<Entry>,
    generatedOn: string, chart: Option<seq<bv8>>, logo: Option<seq<bv8>>)

  /**
   * What HTML-to-PDF conversion and reading the result back give: an exception, a status reporting
   * errors, or the pages of the converted document.
   */
  datatype Conversion = Raised | ReportedErrors | Converted(pages: seq<Page>)

  /**
   * The collaborators `generate()` calls and does not define: float parsing, the chart renderer
   * (with the file written and read back; `None` when any of that raises), the logo file, the
   * template, whether the PDF libraries import, the converter, font metrics, the two merge APIs, the
   * PDF writer (`None` when it raises) and the two readings of the clock.
   */
  datatype Environment = Environment(
    parse: FloatParser,
    drawChart: (real, real) -> Option<seq<bv8>>,
    logo: Option<seq<bv8>>,
    render: Record -> string,
    librariesLoaded: bool,
    convert: string -> Conversion,
    stringWidth: StringWidth,
    mergeFails: MergeFails,
    legacyMergeFails: MergeFails,
    write: seq<Page> -> Option<seq<bv8>>,
    generatedOn: string,
    fileDate: string)

  /** The route's answer: a redirect to the form with a flashed message, the HTML itself, or a PDF download. */
  datatype Outcome = Redirect(location: string, message: string) | Markup(html: string) | PdfFile(data: seq<bv8>, filename: string)

  const RejectMessage: string := "Please provide Farmer Name, Crop Name and a positive Total Acres."

  /** The validation gate of line 76. */
  predicate Acceptable(farmerName: string, cropName: string, totalAcres: real) {
    !(farmerName == "" || cropName == "" || totalAcres <= 0.0)
  }

  /** Python's `int(x)` for a finite float: truncation towards zero. */
  function TruncToInt(x: real): (n: int)
    ensures x >= 0.0 ==> 0 <= n && n as real <= x < n as real + 1.0
    ensures x < 0.0 ==> n <= 0 && n as real - 1.0 < x <= n as real
  {
    if x >= 0.0 then x.Floor else -((-x).Floor)
  }

  /** `crop_name.replace(" ", "_") if crop_name else "report"`. */
  function SafeCrop(cropName: string): (s: string)
    ensures cropName == "" ==> s == "report"
    ensures cropName != "" ==>
      |s| == |cropName| && forall i :: 0 <= i < |s| ==> s[i] == (if cropName[i] == ' ' then '_' else cropName[i])
    ensures ' ' !in s
  {
    if cropName != "" then ReplaceSpaces(cropName) else "report"
  }

  /** The download name of line 275: crop, whole acres, season and date joined by underscores, then `.pdf`. */
  function Filename(cropName: string, totalAcres: real, season: string, date: string): (f: string)
    ensures |f| >= 4 && f[|f| - 4..] == ".pdf"
    ensures |SafeCrop(cropName)| < |f| && f[..|SafeCrop(cropName)|] == SafeCrop(cropName)
  {
    SafeCrop(cropName) + "_" + IntToDecimal(TruncToInt(totalAcres)) + "_" + season + "_" + date + ".pdf"
  }

  /**
   * For a non-negative acreage the acreage field of the file name is the decimal form of the whole
   * number of acres: read back, it is the largest integer not above `totalAcres`.
   */
  lemma FilenameAcreage(cropName: string, totalAcres: real, season: string, date: string)
    requires totalAcres >= 0.0
    ensures var digits := NatToDecimal(totalAcres.Floor);
      Filename(cropName, totalAcres, season, date) == SafeCrop(cropName) + "_" + digits + "_" + season + "_" + date + ".pdf" &&
      DecimalValue(digits) as real <= totalAcres < DecimalValue(digits) as real + 1.0
  {
    IntDecimalRoundTrip(TruncToInt(totalAcres));
    DecimalRoundTrip(totalAcres.Floor);
  }

  /** The record the template receives once the gate has passed (lines 36-201). */
  function BuildRecord(form: Form, env: Environment): Record {
    var expenses := Kept(env.parse, Zip4(form.expenseCategories, form.expenseAmounts, form.expenseDates, form.expenseDescs));
    var incomes := Kept(env.parse, Zip4(form.incomeCategories, form.incomeAmounts, form.incomeDates, form.incomeDescs));
    var totalAcres := ToFloat(env.parse, form.totalAcres);
    var totals := ComputeTotals(expenses, incomes, totalAcres);
    var ledger := SortByDate(Entries(expenses, Expense) + Entries(incomes, Income));
    Record(Strip(form.farmerName), Strip(form.cropName), Strip(form.season),
           totalAcres, ToFloat(env.parse, form.totalProduction),
           form.sowingDate, form.harvestDate, form.location,
           totals, expenses, incomes, ledger,
           env.generatedOn, env.drawChart(totals.totalIncome, totals.totalExpense), env.logo)
  }

  /** The PDF stage fails as a whole: a library does not import, conversion raises or reports errors, or writing raises. */
  predicate PdfStageFails(env: Environment, rendered: string) {
    || !env.librariesLoaded
    || !env.convert(rendered).Converted?
    || env.write(StampAll(env.convert(rendered).pages, env.stringWidth, env.mergeFails, env.legacyMergeFails)).None?
  }

  /** The answer of the PDF stage (lines 204-281) for the rendered report. */
  function PdfStage(env: Environment, rendered: string, cropName: string, totalAcres: real, season: string): Outcome {
    if PdfStageFails(env, rendered) then Markup(rendered)
    else
      var stamped := StampAll(env.convert(rendered).pages, env.stringWidth, env.mergeFails, env.legacyMergeFails);
      PdfFile(env.write(stamped).value, Filename(cropName, totalAcres, season, env.fileDate))
  }

  /** The answer of `generate()` for a form and its collaborators. */
  function Expected(form: Form, env: Environment): Outcome {
    var cropName := Strip(form.cropName);
    var totalAcres := ToFloat(env.parse, form.totalAcres);
    if !Acceptable(Strip(form.farmerName), cropName, totalAcres) then Redirect("/", RejectMessage)
    else PdfStage(env, env.render(BuildRecord(form, env)), cropName, totalAcres, Strip(form.season))
  }

  /**
   * Lines 203-281: convert the rendered HTML, stamp every page, write the document; on a conversion
   * error or any exception, answer with the HTML instead.
   */
  method ConvertAndStamp(env: Environment, rendered: string, cropName: string, totalAcres: real, season: string)
    returns (out: Outcome)
    ensures out == PdfStage(env, rendered, cropName, totalAcres, season)
  {
    if !env.librariesLoaded {
      return Markup(rendered);
    }
    match env.convert(rendered) {
      case ReportedErrors =>
        return Markup(rendered);
      case Raised =>
        return Markup(rendered);
      case Converted(pages) =>
        var stamped := StampFooters(pages, env.stringWidth, env.mergeFails, env.legacyMergeFails);
        assert stamped == StampAll(pages, env.stringWidth, env.mergeFails, env.legacyMergeFails);
        match env.write(stamped) {
          case None =>
            return Markup(rendered);
          case Some(data) =>
            return PdfFile(data, Filename(cropName, totalAcres, season, env.fileDate));
        }
    }
  }

  /** `generate()`: lines 36-107 and 179-281, with the chart and the image files behind `env`. */
  method Generate(form: Form, env: Environment) returns (out: Outcome)
    ensures out == Expected(form, env)
  {
    var farmerName := Strip(form.farmerName);
    var cropName := Strip(form.cropName);
    var season := Strip(form.season);
    var totalAcres := ToFloat(env.parse, form.totalAcres);
    var totalProduction := ToFloat(env.parse, form.totalProduction);

    var expenses := FilterRows(env.parse, form.expenseCategories, form.expenseAmounts, form.expenseDates, form.expenseDescs);
    var incomes := FilterRows(env.parse, form.incomeCategories, form.incomeAmounts, form.incomeDates, form.incomeDescs);

    if farmerName == "" || cropName == "" || totalAcres <= 0.0 {
      return Redirect("/", RejectMessage);
    }

    var totals := ComputeTotals(expenses, incomes, totalAcres);
    var ledger := BuildLedger(expenses, incomes);
    ledger := SortByDate(ledger);
    var chart := env.drawChart(totals.totalIncome, totals.totalExpense);

    var record := Record(farmerName, cropName, season, totalAcres, totalProduction,
                         form.sowingDate, form.harvestDate, form.location,
                         totals, expenses, incomes, ledger, env.generatedOn, chart, env.logo);
    assert record == BuildRecord(form, env);
    var rendered := env.render(record);
    out := ConvertAndStamp(env, rendered, cropName, totalAcres, season);
  }

  // ---------------------------------------------------------------------------------------------
  // What the route promises

  /**
   * The validation gate: the answer is a redirect to the form, with the flashed message, exactly
   * when the stripped farmer name or crop name is empty or the acreage is not positive. A redirect
   * carries no totals, ledger or document.
   */
  lemma RejectsExactlyInvalid(form: Form, env: Environment)
    ensures Expected(form, env).Redirect? <==>
      Strip(form.farmerName) == "" || Strip(form.cropName) == "" || ToFloat(env.parse, form.totalAcres) <= 0.0
    ensures Expected(form, env).Redirect? ==> Expected(form, env) == Redirect("/", RejectMessage)
  {
  }

  /**
   * The HTML fallback: a valid form is answered with the rendered report itself, rather than a PDF,
   * exactly when a PDF library does not import, conversion raises or reports errors, or the writer raises.
   */
  lemma FallsBackToMarkup(form: Form, env: Environment)
    requires Acceptable(Strip(form.farmerName), Strip(form.cropName), ToFloat(env.parse, form.totalAcres))
    ensures var rendered := env.render(BuildRecord(form, env));
      (Expected(form, env).Markup? <==> PdfStageFails(env, rendered)) &&
      (Expected(form, env).Markup? ==> Expected(form, env).html == rendered)
  {
  }

  /**
   * A PDF answer is the writer's output for the converted pages after stamping: one page per
   * converted page, in order, each keeping its own media box, under the synthesised file name.
   */
  lemma PdfIsStampedConversion(form: Form, env: Environment)
    requires Expected(form, env).PdfFile?
    ensures var rendered := env.render(BuildRecord(form, env));
      var cropName := Strip(form.cropName);
      var totalAcres := ToFloat(env.parse, form.totalAcres);
      && Acceptable(Strip(form.farmerName), cropName, totalAcres)
      && env.librariesLoaded && env.convert(rendered).Converted?
      && var pages := env.convert(rendered).pages;
         var stamped := StampAll(pages, env.stringWidth, env.mergeFails, env.legacyMergeFails);
         && |stamped| == |pages|
         && (forall i :: 0 <= i < |pages| ==> stamped[i].media == pages[i].media)
         && env.write(stamped) == Some(Expected(form, env).data)
         && Expected(form, env).filename == Filename(cropName, totalAcres, Strip(form.season), env.fileDate)
  {
  }

  /**
   * What the template receives: the kept rows of both tables, their totals, and a ledger that is
   * the expense entries followed by the income entries, sorted stably by date key, and accounting
   * for both totals.
   */
  lemma RecordContents(form: Form, env: Environment)
    ensures var r := BuildRecord(form, env);
      var expenseRows := Zip4(form.expenseCategories, form.expenseAmounts, form.expenseDates, form.expenseDescs);
      var incomeRows := Zip4(form.incomeCategories, form.incomeAmounts, form.incomeDates, form.incomeDescs);
      var unsorted := Entries(r.expenses, Expense) + Entries(r.incomes, Income);
      && r.expenses == Kept(env.parse, expenseRows)
      && r.incomes == Kept(env.parse, incomeRows)
      && r.totals == ComputeTotals(r.expenses, r.incomes, r.totalAcres)
      && |r.ledger| == |r.expenses| + |r.incomes|
      && Sorted(r.ledger)
      && multiset(r.ledger) == multiset(unsorted)
      && (forall d :: WithDate(r.ledger, d) == WithDate(unsorted, d))
      && KindTotal(r.ledger, Expense) == r.totals.totalExpense
      && KindTotal(r.ledger, Income) == r.totals.totalIncome
  {
    var r := BuildRecord(form, env);
    LedgerMatchesTotals(r.expenses, r.incomes);
    var unsorted := Entries(r.expenses, Expense) + Entries(r.incomes, Income);
    assert |multiset(r.ledger)| == |multiset(unsorted)|;
  }

  /** Two entries already in key order stay as they are. */
  lemma SortPair(a: Entry, b: Entry)
    requires KeyLe(a.date, b.date)
    ensures SortByDate([a, b]) == [a, b]
  {
    assert [a, b][..1] == [a] && [a][..0] == [];
    assert SortByDate([a]) == [a];
  }

  /** The totals of one expense row and one income row. */
  lemma SingleRowTotals(x: Row, y: Row, totalAcres: real)
    requires totalAcres > 0.0
    ensures ComputeTotals([x], [y], totalAcres) == Totals(x.amount, y.amount, y.amount - x.amount, x.amount / totalAcres)
  {
    assert [x][..0] == [] && [y][..0] == [];
    assert Sum([x]) == x.amount && Sum([y]) == y.amount;
  }

  /** A one-row table whose amount is not blank yields that one row, normalised. */
  lemma SingleRowKept(parse: FloatParser, c: string, a: string, d: string, s: string)
    requires Strip(a) != ""
    ensures Kept(parse, Zip4([c], [a], [d], [s])) == [Row(Strip(c), ToFloat(parse, a), d, Strip(s))]
  {
    var row := FormRow(c, a, d, s);
    assert Zip4([c], [a], [d], [s]) == [row];
    StripSpec(a);
    assert [row][..0] == [];
  }

  /**
   * One expense and one income, the expense dated no later (the situation of the worked example
   * "Seed, 100, 2024-01-01" and "Sale, 500, 2024-02-01" on 10 acres): the totals are the two
   * amounts, their difference and the expense per acre, and the ledger lists the expense first.
   */
  lemma OneExpenseOneIncome(parse: FloatParser, totalAcres: real,
                            ec: string, ea: string, ed: string, edesc: string,
                            ic: string, ia: string, id: string, idesc: string)
    requires Strip(ea) != "" && Strip(ia) != ""
    requires ed != "" && id != "" && StrLe(ed, id)
    requires totalAcres > 0.0
    ensures var expenses := Kept(parse, Zip4([ec], [ea], [ed], [edesc]));
      var incomes := Kept(parse, Zip4([ic], [ia], [id], [idesc]));
      var spent, earned := ToFloat(parse, ea), ToFloat(parse, ia);
      && ComputeTotals(expenses, incomes, totalAcres) == Totals(spent, earned, earned - spent, spent / totalAcres)
      && SortByDate(Entries(expenses, Expense) + Entries(incomes, Income)) ==
           [Entry(ed, Strip(ec), Expense, Strip(edesc), spent), Entry(id, Strip(ic), Income, Strip(idesc), earned)]
  {
    SingleRowKept(parse, ec, ea, ed, edesc);
    SingleRowKept(parse, ic, ia, id, idesc);
    var x := Row(Strip(ec), ToFloat(parse, ea), ed, Strip(edesc));
    var y := Row(Strip(ic), ToFloat(parse, ia), id, Strip(idesc));
    SingleRowTotals(x, y, totalAcres);
    SortedPairLedger(x, y);
  }

  /** The ledger of one expense row and one income row dated no earlier. */
  lemma SortedPairLedger(x: Row, y: Row)
    requires KeyLe(x.date, y.date)
    ensures SortByDate(Entries([x], Expense) + Entries([y], Income)) == [FromRow(x, Expense), FromRow(y, Income)]
  {
    var e, i := FromRow(x, Expense), FromRow(y, Income);
    assert Entries([x], Expense) == [e] && Entries([y], Income) == [i];
    assert Entries([x], Expense) + Entries([y], Income) == [e, i];
    SortPair(e, i);
  }

  /**
   * The worked example itself: "Seed, 100, 2024-01-01" spent and "Sale, 500, 2024-02-01" earned on
   * 10 acres give totals 100, 500, profit 400 and 10 per acre, and the ledger puts the seed first.
   */
  lemma WorkedExample(parse: FloatParser)
    requires parse("100") == Some(100.0) && parse("500") == Some(500.0)
    ensures var expenses := Kept(parse, Zip4(["Seed"], ["100"], ["2024-01-01"], [""]));
      var incomes := Kept(parse, Zip4(["Sale"], ["500"], ["2024-02-01"], [""]));
      && ComputeTotals(expenses, incomes, 10.0) == Totals(100.0, 500.0, 400.0, 10.0)
      && SortByDate(Entries(expenses, Expense) + Entries(incomes, Income)) ==
           [Entry("2024-01-01", "Seed", Expense, "", 100.0), Entry("2024-02-01", "Sale", Income, "", 500.0)]
  {
    StripUnchanged("Seed");
    StripUnchanged("Sale");
    StripUnchanged("");
    StripUnchanged("100");
    StripUnchanged("500");
    assert "2024-01-01"[..6] == "2024-02-01"[..6];
    StrLeAt("2024-01-01", "2024-02-01", 6);
    OneExpenseOneIncome(parse, 10.0, "Seed", "100", "2024-01-01", "", "Sale", "500", "2024-02-01", "");
  }
}
