/** The extractor of `src/document_processing/extraction.py`: key values are
    read from the joined OCR text with `<label>:?\s*([\d,\.]+)` patterns, and
    the tables are built line by line from whitespace tokens. The OCR result
    is an input: a sequence of pages, each a sequence of line texts. */
module Extraction {
  import opened Text
  import opened Outcomes
  import opened Decimal
  import opened LabelScan

  /** An amount field: the label, an optional colon, optional whitespace, and
      a run of digits, commas and points, matched ignoring case. */
  function AmountField(name: string, labelText: string): (string, Rule)
  {
    (name, Rule(labelText, OptionalColon, AmountChars, true))
  }

  /** `BANK_STATEMENT_KEYS` of `src/config.py`. */
  const BankStatementKeys: Table := [
    AmountField("account_number", "Account Number"),
    AmountField("total_balance", "Total Balance"),
    AmountField("opening_balance", "Opening Balance"),
    AmountField("closing_balance", "Closing Balance")]

  /** `CHECK_KEYS` of `src/config.py`. */
  const CheckKeys: Table := [
    AmountField("check_number", "Check Number"),
    AmountField("amount", "Amount"),
    AmountField("payee", "Payee"),
    AmountField("date", "Date")]

  /** `SALARY_SLIP_KEYS` of `src/config.py`. */
  const SalarySlipKeys: Table := [
    AmountField("employee_id", "Employee ID"),
    AmountField("employee_name", "Employee Name"),
    AmountField("net_salary", "Net Salary"),
    AmountField("gross_salary", "Gross Salary"),
    AmountField("deductions", "Deductions")]

  lemma KeyTablesDistinct()
    ensures DistinctFields(BankStatementKeys)
    ensures DistinctFields(CheckKeys)
    ensures DistinctFields(SalarySlipKeys)
  {
  }

  /** `extract_key_values`: each field whose pattern matches the text, with
      the run of amount characters after its first matching label. */
  method ExtractKeyValues(text: string, keys: Table) returns (extractedValues: map<string, string>)
    requires DistinctFields(keys)
    ensures extractedValues == ScanSpec(text, keys)
    ensures forall f :: f in extractedValues ==> exists k :: 0 <= k < |keys| && keys[k].0 == f
    ensures forall k :: 0 <= k < |keys| ==>
      (keys[k].0 in extractedValues <==> exists i, q :: Matches(text, keys[k].1, i, q))
    ensures forall k :: 0 <= k < |keys| && keys[k].0 in extractedValues ==>
      FieldValue(text, keys[k].1) == Some(extractedValues[keys[k].0])
  {
    extractedValues := ScanFields(text, keys);
    ScanSpecFields(text, keys);
    forall k | 0 <= k < |keys| ensures FieldValue(text, keys[k].1).Some? <==> exists i, q :: Matches(text, keys[k].1, i, q) {
      FieldValueSpec(text, keys[k].1);
    }
  }

  /** `is_credit`: the token is a number once its commas are removed. */
  predicate IsCredit(value: string)
  {
    Parse(StripCommas(value)).Some?
  }

  /** A row of the transaction table; `error` is absent until the balance
      check flags the row. */
  datatype TxnRow = TxnRow(date: string, description: string, credit: string, debit: string, balance: string, error: Option<string>)

  /** The row that the tokens of a line yield, when there are at least five:
      date, description, credit, debit, balance. */
  function TransactionRowOfColumns(columns: seq<string>): (r: Option<TxnRow>)
    ensures r.Some? <==> |columns| >= 5
  {
    var n := |columns|;
    if n >= 5 then
      Some(TxnRow(
        columns[0],
        Join(columns[1..n - 3]),
        if IsCredit(columns[n - 3]) then columns[n - 3] else "",
        if !IsCredit(columns[n - 2]) then columns[n - 2] else "",
        columns[n - 1],
        None))
    else None
  }

  /** The row a line yields, from its whitespace tokens. */
  function TransactionRowOf(lineText: string): (r: Option<TxnRow>)
    ensures r.Some? <==> |Split(lineText)| >= 5
  {
    TransactionRowOfColumns(Split(lineText))
  }

  /** The row keeps every token of its line in order: the date, the tokens of
      the description, the two amount tokens, the balance. */
  lemma TransactionRowTokens(columns: seq<string>)
    requires |columns| >= 5 && forall k :: 0 <= k < |columns| ==> IsToken(columns[k])
    ensures var n := |columns|;
      var row := TransactionRowOfColumns(columns).value;
      columns == [row.date] + Split(row.description) + [columns[n - 3], columns[n - 2], row.balance]
  {
    var n := |columns|;
    var middle := columns[1..n - 3];
    SplitJoin(middle);
    assert columns == [columns[0]] + middle + [columns[n - 3], columns[n - 2], columns[n - 1]];
  }

  /** The credit is the third-last token exactly when that token is numeric,
      and empty otherwise; the debit is the second-last token exactly when that
      token is NOT numeric, and empty otherwise. The row carries no error. */
  lemma TransactionRowSlots(columns: seq<string>)
    requires |columns| >= 5 && forall k :: 0 <= k < |columns| ==> IsToken(columns[k])
    ensures var n := |columns|;
      var row := TransactionRowOfColumns(columns).value;
      && (row.credit == columns[n - 3] <==> IsCredit(columns[n - 3]))
      && (row.credit != columns[n - 3] ==> row.credit == "")
      && (row.debit == columns[n - 2] <==> !IsCredit(columns[n - 2]))
      && (row.debit != columns[n - 2] ==> row.debit == "")
      && row.error.None?
  {
    assert IsToken(columns[|columns| - 3]) && IsToken(columns[|columns| - 2]);
  }

  /** A token row's debit is never a number and its credit is empty or a number. */
  lemma TransactionRowAmounts(columns: seq<string>)
    requires |columns| >= 5
    ensures !IsCredit(TransactionRowOfColumns(columns).value.debit)
    ensures var c := TransactionRowOfColumns(columns).value.credit; c == "" || IsCredit(c)
  {
    assert StripCommas("") == "";
    assert !IsDecimal("");
  }

  /** A row of the salary breakdown table. */
  datatype SalaryRow = SalaryRow(component: string, amount: string)

  /** The salary row that the tokens of a line yield when there are at least
      two: the last token is the amount, the others form the component. */
  function SalaryRowOfColumns(columns: seq<string>): (r: Option<SalaryRow>)
    ensures r.Some? <==> |columns| >= 2
  {
    if |columns| >= 2 then Some(SalaryRow(Join(columns[..|columns| - 1]), columns[|columns| - 1]))
    else None
  }

  /** The salary row a line yields, from its whitespace tokens. */
  function SalaryRowOf(lineText: string): (r: Option<SalaryRow>)
    ensures r.Some? <==> |Split(lineText)| >= 2
  {
    SalaryRowOfColumns(Split(lineText))
  }

  /** The salary row keeps every token of its line in order. */
  lemma SalaryRowTokens(columns: seq<string>)
    requires |columns| >= 2 && forall k :: 0 <= k < |columns| ==> IsToken(columns[k])
    ensures var row := SalaryRowOfColumns(columns).value;
      columns == Split(row.component) + [row.amount]
  {
    SplitJoin(columns[..|columns| - 1]);
    assert columns == columns[..|columns| - 1] + [columns[|columns| - 1]];
  }

  /** The line texts of all pages, page by page. */
  function AllLines(pages: seq<seq<string>>): (lines: seq<string>)
  {
    if pages == [] then [] else AllLines(pages[..|pages| - 1]) + pages[|pages| - 1]
  }

  /** The rows that a sequence of lines yields, one per qualifying line, in line order. */
  function Rows<R>(lines: seq<string>, rowOf: string -> Option<R>): seq<R>
  {
    if lines == [] then []
    else
      var rows := Rows(lines[..|lines| - 1], rowOf);
      match rowOf(lines[|lines| - 1])
      case None => rows
      case Some(row) => rows + [row]
  }

  /** Rows of consecutive lines are the rows of the first part followed by the
      rows of the second: line order is kept and no line affects another. */
  lemma {:induction false} RowsAppend<R>(a: seq<string>, b: seq<string>, rowOf: string -> Option<R>)
    ensures Rows(a + b, rowOf) == Rows(a, rowOf) + Rows(b, rowOf)
  {
    if b == [] {
      assert a + b == a;
    } else {
      var init := b[..|b| - 1];
      assert (a + b)[..|a + b| - 1] == a + init;
      RowsAppend(a, init, rowOf);
    }
  }

  /** Each row comes from one line, so there are at most as many rows as lines,
      and a line yields a row exactly when `rowOf` accepts it. */
  lemma {:induction false} RowsFromLines<R>(lines: seq<string>, rowOf: string -> Option<R>)
    ensures |Rows(lines, rowOf)| <= |lines|
    ensures forall k :: 0 <= k < |Rows(lines, rowOf)| ==>
      exists j :: 0 <= j < |lines| && rowOf(lines[j]) == Some(Rows(lines, rowOf)[k])
  {
    if lines != [] {
      var init := lines[..|lines| - 1];
      RowsFromLines(init, rowOf);
      var rows := Rows(lines, rowOf);
      forall k | 0 <= k < |rows| ensures exists j :: 0 <= j < |lines| && rowOf(lines[j]) == Some(rows[k]) {
        if k < |Rows(init, rowOf)| {
          var j :| 0 <= j < |init| && rowOf(init[j]) == Some(Rows(init, rowOf)[k]);
          assert lines[j] == init[j];
        } else {
          assert rowOf(lines[|lines| - 1]) == Some(rows[k]);
        }
      }
    }
  }

  /** One more line adds its own row, or nothing. */
  lemma RowsSnoc<R>(lines: seq<string>, line: string, rowOf: string -> Option<R>)
    ensures Rows(lines + [line], rowOf) == Rows(lines, rowOf) + (if rowOf(line).Some? then [rowOf(line).value] else [])
  {
    assert (lines + [line])[..|lines|] == lines;
  }

  /** The line loop of both table extractors: the rows of one page's lines,
      appended in line order to the rows of the lines before it. */
  method AppendPageRows<R>(rows: seq<R>, before: seq<string>, page: seq<string>, rowOf: string -> Option<R>)
    returns (extended: seq<R>)
    requires rows == Rows(before, rowOf)
    ensures extended == Rows(before + page, rowOf)
  {
    extended := rows;
    assert before + page[..0] == before;
    for l := 0 to |page|
      invariant extended == Rows(before + page[..l], rowOf)
    {
      assert before + page[..l + 1] == before + page[..l] + [page[l]];
      RowsSnoc(before + page[..l], page[l], rowOf);
      var row := rowOf(page[l]);
      if row.Some? {
        extended := extended + [row.value];
      }
    }
    assert page[..|page|] == page;
  }

  /** `extract_transaction_table`: one row per line of at least five tokens,
      in page and line order. */
  method ExtractTransactionTable(ocrResults: seq<seq<string>>) returns (transactions: seq<TxnRow>)
    ensures transactions == Rows(AllLines(ocrResults), TransactionRowOf)
  {
    transactions := [];
    for p := 0 to |ocrResults|
      invariant transactions == Rows(AllLines(ocrResults[..p]), TransactionRowOf)
    {
      assert ocrResults[..p + 1][..p] == ocrResults[..p];
      transactions := AppendPageRows(transactions, AllLines(ocrResults[..p]), ocrResults[p], TransactionRowOf);
    }
    assert ocrResults[..|ocrResults|] == ocrResults;
  }

  /** `extract_salary_breakdown_table`: one row per line of at least two
      tokens, in page and line order. */
  method ExtractSalaryBreakdownTable(ocrResults: seq<seq<string>>) returns (salaryComponents: seq<SalaryRow>)
    ensures salaryComponents == Rows(AllLines(ocrResults), SalaryRowOf)
  {
    salaryComponents := [];
    for p := 0 to |ocrResults|
      invariant salaryComponents == Rows(AllLines(ocrResults[..p]), SalaryRowOf)
    {
      assert ocrResults[..p + 1][..p] == ocrResults[..p];
      salaryComponents := AppendPageRows(salaryComponents, AllLines(ocrResults[..p]), ocrResults[p], SalaryRowOf);
    }
    assert ocrResults[..|ocrResults|] == ocrResults;
  }

  /** The `tables` entry: untouched (an empty dictionary), the transaction
      rows, or the salary components. */
  datatype Tables = NoTables | Transactions(rows: seq<TxnRow>) | SalaryComponents(components: seq<SalaryRow>)

  datatype ExtractedData = ExtractedData(keyValues: map<string, string>, tables: Tables)

  /** `extract_data` with the OCR result given: the line texts of all pages are
      joined by single spaces for the key values, and the tables depend on the
      document type. */
  method ExtractData(ocrResults: seq<seq<string>>, documentType: string) returns (extractedData: ExtractedData)
    ensures documentType == "bank_statement" ==> extractedData == ExtractedData(
      ScanSpec(Join(AllLines(ocrResults)), BankStatementKeys),
      Transactions(Rows(AllLines(ocrResults), TransactionRowOf)))
    ensures documentType == "check" ==> extractedData == ExtractedData(
      ScanSpec(Join(AllLines(ocrResults)), CheckKeys), NoTables)
    ensures documentType == "salary_slip" ==> extractedData == ExtractedData(
      ScanSpec(Join(AllLines(ocrResults)), SalarySlipKeys),
      SalaryComponents(Rows(AllLines(ocrResults), SalaryRowOf)))
    ensures documentType !in {"bank_statement", "check", "salary_slip"} ==> extractedData == ExtractedData(map[], NoTables)
  {
    var extractedText := Join(AllLines(ocrResults));
    extractedData := ExtractedData(map[], NoTables);
    KeyTablesDistinct();
    if documentType == "bank_statement" {
      var keyValues := ExtractKeyValues(extractedText, BankStatementKeys);
      var transactions := ExtractTransactionTable(ocrResults);
      extractedData := ExtractedData(keyValues, Transactions(transactions));
    } else if documentType == "check" {
      var keyValues := ExtractKeyValues(extractedText, CheckKeys);
      extractedData := extractedData.(keyValues := keyValues);
    } else if documentType == "salary_slip" {
      var keyValues := ExtractKeyValues(extractedText, SalarySlipKeys);
      var components := ExtractSalaryBreakdownTable(ocrResults);
      extractedData := ExtractedData(keyValues, SalaryComponents(components));
    }
  }
}
