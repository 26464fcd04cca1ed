/** The checksum validator of `checksum_validator.py`: transaction rows are
    read from a bank-statement page, credit or debit is decided by a fuzzy
    keyword in the description, and the running balance is compared with each
    row's stated balance after rounding to two places.

    Three library calls are parameters: `fuzz.partial_ratio` (`ratio`), the
    matches of the composed row pattern (`findRows`, one 5-tuple of groups per
    match, an unmatched optional group being ""), and `round(x, 2)`
    (`round2`). */
module Checksum {
  import opened Text
  import opened Outcomes
  import opened Decimal
  import opened Documents
  import opened LabelScan

  /** The default `threshold` of `fuzzy_match`. */
  const FUZZY_THRESHOLD: int := 80

  /** Some whitespace-separated word of the text is similar enough to the
      keyword, both lower-cased. */
  predicate FuzzyMatches(keyword: string, text: string, ratio: (string, string) -> Ratio, threshold: int)
  {
    exists k :: 0 <= k < |Split(text)| && ratio(Lower(keyword), Lower(Split(text)[k])) >= threshold
  }

  /** `fuzzy_match`: scan the words and stop at the first similar one. */
  method FuzzyMatch(keyword: string, text: string, ratio: (string, string) -> Ratio, threshold: int) returns (found: bool)
    ensures found <==> FuzzyMatches(keyword, text, ratio, threshold)
  {
    var words := Split(text);
    for i := 0 to |words|
      invariant forall k :: 0 <= k < i ==> ratio(Lower(keyword), Lower(words[k])) < threshold
    {
      if ratio(Lower(keyword), Lower(words[i])) >= threshold {
        return true;
      }
    }
    return false;
  }

  /** A text without words (empty or blank) matches no keyword. */
  lemma FuzzyMatchBlank(keyword: string, text: string, ratio: (string, string) -> Ratio, threshold: int)
    requires forall k :: 0 <= k < |text| ==> IsSpace(text[k])
    ensures !FuzzyMatches(keyword, text, ratio, threshold)
  {
    SplitBlank(text);
  }

  /** The five groups of one match of the row pattern: date, description,
      first amount, second amount, balance. */
  datatype RowMatch = RowMatch(date: string, description: string, amount1: string, amount2: string, balance: string)

  /** A parsed transaction; amounts are exact decimals. */
  datatype Transaction = Transaction(date: string, description: string, credit: real, debit: real, balance: real)

  /** Credit and debit of a row: the first amount goes to credit when the
      description fuzzily contains "credit", else to debit when it fuzzily
      contains "debit", else both stay zero. */
  function Amounts(row: RowMatch, ratio: (string, string) -> Ratio): Result<(real, real)>
  {
    if FuzzyMatches("credit", row.description, ratio, FUZZY_THRESHOLD) then
      var credit :- ParseAmount(row.amount1);
      Success((credit, 0.0))
    else if FuzzyMatches("debit", row.description, ratio, FUZZY_THRESHOLD) then
      var debit :- ParseAmount(row.amount1);
      Success((0.0, debit))
    else Success((0.0, 0.0))
  }

  /** The transaction one match yields, or the error `float` raises. */
  function TransactionOf(row: RowMatch, ratio: (string, string) -> Ratio): Result<Transaction>
  {
    var amounts :- Amounts(row, ratio);
    var balance :- ParseAmount(row.balance);
    Success(Transaction(Strip(row.date), Strip(row.description), amounts.0, amounts.1, balance))
  }

  /** What a converted row holds: credit and debit are never both non-zero;
      a description matching neither keyword has both zero; the balance is the
      last group read as a number; date and description are stripped. */
  lemma TransactionOfSpec(row: RowMatch, ratio: (string, string) -> Ratio)
    requires TransactionOf(row, ratio).Success?
    ensures var t := TransactionOf(row, ratio).value;
      && (t.credit == 0.0 || t.debit == 0.0)
      && (FuzzyMatches("credit", row.description, ratio, FUZZY_THRESHOLD) ==>
            t.debit == 0.0 && Parse(StripCommas(row.amount1)) == Some(t.credit))
      && (!FuzzyMatches("credit", row.description, ratio, FUZZY_THRESHOLD) && FuzzyMatches("debit", row.description, ratio, FUZZY_THRESHOLD) ==>
            t.credit == 0.0 && Parse(StripCommas(row.amount1)) == Some(t.debit))
      && (!FuzzyMatches("credit", row.description, ratio, FUZZY_THRESHOLD) && !FuzzyMatches("debit", row.description, ratio, FUZZY_THRESHOLD) ==>
            t.credit == 0.0 && t.debit == 0.0)
      && Parse(StripCommas(row.balance)) == Some(t.balance)
      && t.date == Strip(row.date) && t.description == Strip(row.description)
  {
  }

  /** A row fails exactly when a number it needs does not parse: the first
      amount when a keyword matches, and the balance in every case. */
  lemma TransactionOfFailure(row: RowMatch, ratio: (string, string) -> Ratio)
    ensures TransactionOf(row, ratio).Failure? <==>
      || ((FuzzyMatches("credit", row.description, ratio, FUZZY_THRESHOLD) || FuzzyMatches("debit", row.description, ratio, FUZZY_THRESHOLD))
            && !IsDecimal(StripCommas(row.amount1)))
      || !IsDecimal(StripCommas(row.balance))
  {
  }

  /** The second amount group never affects the result. */
  lemma MiddleGroupIgnored(row: RowMatch, other: string, ratio: (string, string) -> Ratio)
    ensures TransactionOf(row.(amount2 := other), ratio) == TransactionOf(row, ratio)
  {
    var changed := row.(amount2 := other);
    assert changed.description == row.description && changed.amount1 == row.amount1;
    assert Amounts(changed, ratio) == Amounts(row, ratio);
    assert changed.balance == row.balance && changed.date == row.date;
  }

  /** The conversion of one match, as a function value. */
  function Convert(ratio: (string, string) -> Ratio): RowMatch -> Result<Transaction>
  {
    row => TransactionOf(row, ratio)
  }

  /** The rows of a page, in match order; the first row that fails to convert
      makes the whole extraction fail with its error. */
  function TransactionsOf(rows: seq<RowMatch>, ratio: (string, string) -> Ratio): Result<seq<Transaction>>
  {
    MapAll(rows, Convert(ratio))
  }

  /** Extraction succeeds exactly when every match converts, and then yields
      one transaction per match, in match order; otherwise its error is that
      of the first match that fails. */
  lemma TransactionsOfSpec(rows: seq<RowMatch>, ratio: (string, string) -> Ratio)
    ensures TransactionsOf(rows, ratio).Success? <==> forall k :: 0 <= k < |rows| ==> TransactionOf(rows[k], ratio).Success?
    ensures TransactionsOf(rows, ratio).Success? ==>
      var ts := TransactionsOf(rows, ratio).value;
      |ts| == |rows| && forall k :: 0 <= k < |rows| ==> TransactionOf(rows[k], ratio) == Success(ts[k])
    ensures TransactionsOf(rows, ratio).Failure? ==> exists k ::
      (0 <= k < |rows| && TransactionOf(rows[k], ratio) == Failure(TransactionsOf(rows, ratio).error)
       && forall j :: 0 <= j < k ==> TransactionOf(rows[j], ratio).Success?)
  {
    MapAllSuccess(rows, Convert(ratio));
    if TransactionsOf(rows, ratio).Failure? {
      MapAllFailure(rows, Convert(ratio));
    }
  }

  /** The row loop of `extract_transaction_rows`. */
  method ExtractTransactionRows(rows: seq<RowMatch>, ratio: (string, string) -> Ratio) returns (result: Result<seq<Transaction>>)
    ensures result == TransactionsOf(rows, ratio)
  {
    var transactions := [];
    for i := 0 to |rows|
      invariant TransactionsOf(rows[..i], ratio) == Success(transactions)
    {
      assert rows[..i + 1] == rows[..i] + [rows[i]];
      MapAllSnoc(rows[..i], rows[i], Convert(ratio));
      var row := rows[i];
      var credit, debit := 0.0, 0.0;
      var isCredit := FuzzyMatch("credit", row.description, ratio, FUZZY_THRESHOLD);
      if isCredit {
        var amount := ParseAmount(row.amount1);
        if amount.Failure? {
          MapAllPrefixFailure(rows, i + 1, Convert(ratio));
          return Failure(amount.error);
        }
        credit := amount.value;
      } else {
        var isDebit := FuzzyMatch("debit", row.description, ratio, FUZZY_THRESHOLD);
        if isDebit {
          var amount := ParseAmount(row.amount1);
          if amount.Failure? {
            MapAllPrefixFailure(rows, i + 1, Convert(ratio));
            return Failure(amount.error);
          }
          debit := amount.value;
        }
      }
      var balance := ParseAmount(row.balance);
      if balance.Failure? {
        MapAllPrefixFailure(rows, i + 1, Convert(ratio));
        return Failure(balance.error);
      }
      transactions := transactions + [Transaction(Strip(row.date), Strip(row.description), credit, debit, balance.value)];
    }
    assert rows[..|rows|] == rows;
    result := Success(transactions);
  }

  /** The sum of credit minus debit over the transactions. */
  function NetMovement(ts: seq<Transaction>): real
  {
    if ts == [] then 0.0 else NetMovement(ts[..|ts| - 1]) + (ts[|ts| - 1].credit - ts[|ts| - 1].debit)
  }

  /** The movement over consecutive transactions is the sum of the movements. */
  lemma {:induction false} NetMovementAppend(a: seq<Transaction>, b: seq<Transaction>)
    ensures NetMovement(a + b) == NetMovement(a) + NetMovement(b)
  {
    if b == [] {
      assert a + b == a;
    } else {
      assert (a + b)[..|a + b| - 1] == a + b[..|b| - 1];
      NetMovementAppend(a, b[..|b| - 1]);
    }
  }

  /** Without credits and debits there is no movement. */
  lemma {:induction false} NetMovementZero(ts: seq<Transaction>)
    requires forall k :: 0 <= k < |ts| ==> ts[k].credit == 0.0 && ts[k].debit == 0.0
    ensures NetMovement(ts) == 0.0
  {
    if ts != [] {
      NetMovementZero(ts[..|ts| - 1]);
    }
  }

  /** An entry of the error list. */
  datatype BalanceError = BalanceError(row: nat, date: string, description: string,
                                       expectedBalance: real, calculatedBalance: real, error: string)

  /** The computed balance after row i (0-based), whatever the earlier rows' outcome. */
  function BalanceAfter(ts: seq<Transaction>, openingBalance: real, i: nat): real
    requires i < |ts|
  {
    openingBalance + NetMovement(ts[..i + 1])
  }

  /** Row i (0-based) disagrees with its stated balance after rounding. */
  predicate Mismatch(ts: seq<Transaction>, openingBalance: real, round2: real -> real, i: nat)
    requires i < |ts|
  {
    round2(BalanceAfter(ts, openingBalance, i)) != round2(ts[i].balance)
  }

  function ErrorOf(ts: seq<Transaction>, openingBalance: real, i: nat): BalanceError
    requires i < |ts|
  {
    BalanceError(i + 1, ts[i].date, ts[i].description, ts[i].balance, BalanceAfter(ts, openingBalance, i), "Balance mismatch")
  }

  /** The errors of the first n rows, in row order. */
  function ErrorsUpTo(ts: seq<Transaction>, openingBalance: real, round2: real -> real, n: nat): seq<BalanceError>
    requires n <= |ts|
  {
    if n == 0 then []
    else
      var errors := ErrorsUpTo(ts, openingBalance, round2, n - 1);
      if Mismatch(ts, openingBalance, round2, n - 1) then errors + [ErrorOf(ts, openingBalance, n - 1)] else errors
  }

  /** Every reported row is a mismatching row, numbered from 1, with its own
      data, and rows are reported in increasing order; there are at most as
      many errors as rows. */
  lemma {:induction false} ErrorsUpToSound(ts: seq<Transaction>, openingBalance: real, round2: real -> real, n: nat)
    requires n <= |ts|
    ensures var errors := ErrorsUpTo(ts, openingBalance, round2, n);
      && |errors| <= n
      && (forall j :: 0 <= j < |errors| ==>
            exists i :: 0 <= i < n && Mismatch(ts, openingBalance, round2, i) && errors[j] == ErrorOf(ts, openingBalance, i))
      && (forall j, j' :: 0 <= j < j' < |errors| ==> errors[j].row < errors[j'].row)
      && (forall j :: 0 <= j < |errors| ==> errors[j].row <= n)
  {
    if n > 0 {
      ErrorsUpToSound(ts, openingBalance, round2, n - 1);
      var prev := ErrorsUpTo(ts, openingBalance, round2, n - 1);
      var errors := ErrorsUpTo(ts, openingBalance, round2, n);
      forall j | 0 <= j < |errors|
        ensures exists i :: 0 <= i < n && Mismatch(ts, openingBalance, round2, i) && errors[j] == ErrorOf(ts, openingBalance, i)
      {
        if j < |prev| {
          assert errors[j] == prev[j];
        } else {
          assert errors[j] == ErrorOf(ts, openingBalance, n - 1);
        }
      }
      assert |errors| <= n;
      assert forall j, j' :: 0 <= j < j' < |errors| ==> errors[j].row < errors[j'].row;
      assert forall j :: 0 <= j < |errors| ==> errors[j].row <= n;
    }
  }

  /** Every mismatching row is reported. */
  lemma {:induction false} ErrorsUpToComplete(ts: seq<Transaction>, openingBalance: real, round2: real -> real, n: nat, i: nat)
    requires i < n <= |ts| && Mismatch(ts, openingBalance, round2, i)
    ensures ErrorOf(ts, openingBalance, i) in ErrorsUpTo(ts, openingBalance, round2, n)
  {
    var prev := ErrorsUpTo(ts, openingBalance, round2, n - 1);
    if i < n - 1 {
      ErrorsUpToComplete(ts, openingBalance, round2, n - 1, i);
    } else {
      assert ErrorsUpTo(ts, openingBalance, round2, n) == prev + [ErrorOf(ts, openingBalance, i)];
    }
  }

  /** `validate_balance`: advance the balance on every row and report the rows
      whose rounded balances differ. The transactions are not changed. */
  method ValidateBalance(transactions: seq<Transaction>, openingBalance: real, round2: real -> real) returns (errors: seq<BalanceError>)
    ensures errors == ErrorsUpTo(transactions, openingBalance, round2, |transactions|)
  {
    var currentBalance := openingBalance;
    errors := [];
    for index := 0 to |transactions|
      invariant currentBalance == openingBalance + NetMovement(transactions[..index])
      invariant errors == ErrorsUpTo(transactions, openingBalance, round2, index)
    {
      var transaction := transactions[index];
      assert transactions[..index + 1][..index] == transactions[..index];
      currentBalance := currentBalance + (transaction.credit - transaction.debit);
      if round2(currentBalance) != round2(transaction.balance) {
        errors := errors + [BalanceError(index + 1, transaction.date, transaction.description,
                                         transaction.balance, currentBalance, "Balance mismatch")];
      }
    }
  }

  /** With no credits and no debits, a row is reported exactly when its stated
      balance rounds differently from the opening balance. */
  lemma ZeroMovement(ts: seq<Transaction>, openingBalance: real, round2: real -> real)
    requires forall k :: 0 <= k < |ts| ==> ts[k].credit == 0.0 && ts[k].debit == 0.0
    ensures forall i :: 0 <= i < |ts| ==>
      (Mismatch(ts, openingBalance, round2, i) <==> round2(openingBalance) != round2(ts[i].balance))
  {
    forall i | 0 <= i < |ts| ensures BalanceAfter(ts, openingBalance, i) == openingBalance {
      NetMovementZero(ts[..i + 1]);
    }
  }

  /** A credit of 500 on an opening balance of 1000 with a stated balance of
      1500 is consistent, whatever the rounding. */
  lemma CreditScenario(round2: real -> real)
    ensures ErrorsUpTo([Transaction("01/01/2024", "salary credit", 500.0, 0.0, 1500.0)], 1000.0, round2, 1) == []
  {
    var ts := [Transaction("01/01/2024", "salary credit", 500.0, 0.0, 1500.0)];
    assert ts[..1] == ts && ts[..0] == [];
  }

  /** The same row with a stated balance of 1400 is reported as row 1 with a
      computed balance of 1500, for any rounding to two places. */
  lemma MismatchScenario(round2: real -> real)
    requires forall x :: -0.005 <= round2(x) - x <= 0.005
    ensures ErrorsUpTo([Transaction("01/01/2024", "salary credit", 500.0, 0.0, 1400.0)], 1000.0, round2, 1)
      == [BalanceError(1, "01/01/2024", "salary credit", 1400.0, 1500.0, "Balance mismatch")]
  {
    var ts := [Transaction("01/01/2024", "salary credit", 500.0, 0.0, 1400.0)];
    assert ts[..1] == ts && ts[..0] == [];
    assert round2(1500.0) >= 1499.995 && round2(1400.0) <= 1400.005;
  }

  /** `re.search(r"opening balance[:\s]*([\d,\.]+)", page_text)`: case-sensitive. */
  const OpeningRule: Rule := Rule("opening balance", ColonsOrSpaces, AmountChars, false)

  /** The errors one page contributes: none unless it is classified as a bank
      statement and states an opening balance. The rows are converted before
      the opening balance is looked for, so a bad row fails the page even
      without one. */
  function PageErrors(pageNumber: string, items: seq<string>, classification: map<string, string>,
                      findRows: string -> seq<RowMatch>, ratio: (string, string) -> Ratio, round2: real -> real)
    : Result<seq<BalanceError>>
  {
    if !(pageNumber in classification && classification[pageNumber] == "bank_statement") then Success([])
    else
      var pageText := PageText(items);
      var transactions :- TransactionsOf(findRows(pageText), ratio);
      match FieldValue(pageText, OpeningRule)
      case None => Success([])
      case Some(v) =>
        var openingBalance :- ParseAmount(v);
        Success(ErrorsUpTo(transactions, openingBalance, round2, |transactions|))
  }

  /** Only pages classified as bank statements are checked; a bank-statement
      page whose rows do not convert fails with the first row's error, whether
      or not it states an opening balance; an opening balance that does not
      parse fails with its ValueError; a page without an opening balance whose
      rows convert is skipped; a page with errors is a bank statement that
      states an opening balance, and its errors are those of its rows against
      that balance. */
  lemma PageErrorsSpec(pageNumber: string, items: seq<string>, classification: map<string, string>,
                       findRows: string -> seq<RowMatch>, ratio: (string, string) -> Ratio, round2: real -> real)
    ensures var r := PageErrors(pageNumber, items, classification, findRows, ratio, round2);
      !(pageNumber in classification && classification[pageNumber] == "bank_statement") ==> r == Success([])
    ensures var r := PageErrors(pageNumber, items, classification, findRows, ratio, round2);
      var pageText := PageText(items);
      TransactionsOf(findRows(pageText), ratio).Success? && FieldValue(pageText, OpeningRule).None? ==> r == Success([])
    ensures var r := PageErrors(pageNumber, items, classification, findRows, ratio, round2);
      var transactions := TransactionsOf(findRows(PageText(items)), ratio);
      pageNumber in classification && classification[pageNumber] == "bank_statement" && transactions.Failure? ==>
        r == Failure(transactions.error)
    ensures var r := PageErrors(pageNumber, items, classification, findRows, ratio, round2);
      var pageText := PageText(items);
      var opening := FieldValue(pageText, OpeningRule);
      && pageNumber in classification && classification[pageNumber] == "bank_statement"
      && TransactionsOf(findRows(pageText), ratio).Success?
      && opening.Some? && ParseAmount(opening.value).Failure? ==>
        r == Failure(ParseAmount(opening.value).error)
    ensures var r := PageErrors(pageNumber, items, classification, findRows, ratio, round2);
      var pageText := PageText(items);
      r.Success? && r.value != [] ==>
        && pageNumber in classification && classification[pageNumber] == "bank_statement"
        && TransactionsOf(findRows(pageText), ratio).Success?
        && FieldValue(pageText, OpeningRule).Some?
        && ParseAmount(FieldValue(pageText, OpeningRule).value).Success?
        && var ts := TransactionsOf(findRows(pageText), ratio).value;
           r.value == ErrorsUpTo(ts, ParseAmount(FieldValue(pageText, OpeningRule).value).value, round2, |ts|)
  {
  }

  /** The page check, as a function value. */
  function CheckPage(classification: map<string, string>, findRows: string -> seq<RowMatch>,
                     ratio: (string, string) -> Ratio, round2: real -> real)
    : (string, seq<string>) -> Result<seq<BalanceError>>
  {
    (pageNumber, items) => PageErrors(pageNumber, items, classification, findRows, ratio, round2)
  }

  /** Keyed pages in order; each is checked and the pages with a non-empty
      outcome are recorded under their key, and the first failure is the
      result. */
  function Gather<P, E>(pages: seq<(string, P)>, check: (string, P) -> Result<seq<E>>): Result<map<string, seq<E>>>
  {
    if pages == [] then Success(map[])
    else
      var summary :- Gather(pages[..|pages| - 1], check);
      var (key, page) := pages[|pages| - 1];
      var found :- check(key, page);
      Success(if found != [] then summary[key := found] else summary)
  }

  lemma {:induction false} GatherPrefixFailure<P, E>(pages: seq<(string, P)>, i: nat, check: (string, P) -> Result<seq<E>>)
    requires i <= |pages| && Gather(pages[..i], check).Failure?
    ensures Gather(pages, check) == Gather(pages[..i], check)
  {
    if i == |pages| {
      assert pages[..i] == pages;
    } else {
      assert pages[..|pages| - 1][..i] == pages[..i];
      GatherPrefixFailure(pages[..|pages| - 1], i, check);
    }
  }

  lemma GatherSnoc<P, E>(pages: seq<(string, P)>, key: string, page: P, check: (string, P) -> Result<seq<E>>)
    requires Gather(pages, check).Success?
    ensures Gather(pages + [(key, page)], check) ==
      match check(key, page)
      case Failure(e) => Failure(e)
      case Success(found) => Success(if found != [] then Gather(pages, check).value[key := found] else Gather(pages, check).value)
  {
    assert (pages + [(key, page)])[..|pages|] == pages;
  }

  predicate DistinctKeys<P>(pages: seq<(string, P)>)
  {
    forall a, b :: 0 <= a < b < |pages| ==> pages[a].0 != pages[b].0
  }

  /** With distinct keys, the summary holds exactly the pages whose outcome is
      non-empty, each with its own outcome, and every page succeeded. */
  lemma {:induction false} GatherSpec<P, E>(pages: seq<(string, P)>, check: (string, P) -> Result<seq<E>>)
    requires DistinctKeys(pages)
    requires Gather(pages, check).Success?
    ensures forall k :: 0 <= k < |pages| ==> check(pages[k].0, pages[k].1).Success?
    ensures forall key :: key in Gather(pages, check).value ==> exists k :: 0 <= k < |pages| && pages[k].0 == key
    ensures forall k :: 0 <= k < |pages| ==>
      (pages[k].0 in Gather(pages, check).value <==> check(pages[k].0, pages[k].1).value != [])
    ensures forall k :: 0 <= k < |pages| && pages[k].0 in Gather(pages, check).value ==>
      Gather(pages, check).value[pages[k].0] == check(pages[k].0, pages[k].1).value
  {
    if pages != [] {
      var init := pages[..|pages| - 1];
      var (key, page) := pages[|pages| - 1];
      assert DistinctKeys(init) by {
        forall a, b | 0 <= a < b < |init| ensures init[a].0 != init[b].0 {
          assert init[a] == pages[a] && init[b] == pages[b];
        }
      }
      GatherSpec(init, check);
      var summary := Gather(init, check).value;
      var found := check(key, page).value;
      var result := Gather(pages, check).value;
      assert result == if found != [] then summary[key := found] else summary;
      forall k | 0 <= k < |pages| - 1 ensures pages[k] == init[k] && pages[k].0 != key { }
      forall k | 0 <= k < |pages|
        ensures pages[k].0 in result <==> check(pages[k].0, pages[k].1).value != []
        ensures pages[k].0 in result ==> result[pages[k].0] == check(pages[k].0, pages[k].1).value
      {
        if k < |pages| - 1 {
          assert pages[k].0 in result <==> pages[k].0 in summary;
        }
      }
      forall k | k in result ensures exists j :: 0 <= j < |pages| && pages[j].0 == k {
        if k != key {
          var j :| 0 <= j < |init| && init[j].0 == k;
          assert pages[j] == init[j];
        }
      }
    }
  }

  /** The gather fails exactly when some page's check fails, and then with
      the error of the first such page: the raise leaves the loop. */
  lemma {:induction false} GatherFailure<P, E>(pages: seq<(string, P)>, check: (string, P) -> Result<seq<E>>)
    ensures Gather(pages, check).Failure? <==> exists k :: 0 <= k < |pages| && check(pages[k].0, pages[k].1).Failure?
    ensures Gather(pages, check).Failure? ==>
      exists k :: 0 <= k < |pages| && check(pages[k].0, pages[k].1).Failure?
        && (forall j :: 0 <= j < k ==> check(pages[j].0, pages[j].1).Success?)
        && Gather(pages, check).error == check(pages[k].0, pages[k].1).error
  {
    if pages != [] {
      var init := pages[..|pages| - 1];
      var (key, page) := pages[|pages| - 1];
      GatherFailure(init, check);
      forall k | 0 <= k < |init| ensures init[k] == pages[k] { }
      if Gather(init, check).Success? {
        assert forall k :: 0 <= k < |init| ==> check(init[k].0, init[k].1).Success?;
      }
    }
  }

  /** The page of `ocr_data` with its number and item texts, in file order. */
  type Pages = seq<(string, seq<string>)>

  /** `errors_summary` after the given pages, or the first error raised. */
  function Summary(pages: Pages, classification: map<string, string>,
                   findRows: string -> seq<RowMatch>, ratio: (string, string) -> Ratio, round2: real -> real)
    : Result<map<string, seq<BalanceError>>>
  {
    Gather(pages, CheckPage(classification, findRows, ratio, round2))
  }

  /** With distinct page numbers, the summary holds exactly the pages with at
      least one error, each with its own errors; such a page is classified as
      a bank statement and states an opening balance. */
  lemma SummarySpec(pages: Pages, classification: map<string, string>,
                    findRows: string -> seq<RowMatch>, ratio: (string, string) -> Ratio, round2: real -> real)
    requires DistinctKeys(pages)
    requires Summary(pages, classification, findRows, ratio, round2).Success?
    ensures var summary := Summary(pages, classification, findRows, ratio, round2).value;
      && (forall p :: p in summary ==> exists k :: 0 <= k < |pages| && pages[k].0 == p)
      && (forall k :: 0 <= k < |pages| ==>
            PageErrors(pages[k].0, pages[k].1, classification, findRows, ratio, round2).Success?)
      && (forall k :: 0 <= k < |pages| ==>
            (pages[k].0 in summary <==> PageErrors(pages[k].0, pages[k].1, classification, findRows, ratio, round2).value != []))
      && (forall k :: 0 <= k < |pages| && pages[k].0 in summary ==>
            summary[pages[k].0] == PageErrors(pages[k].0, pages[k].1, classification, findRows, ratio, round2).value
            && classification[pages[k].0] == "bank_statement"
            && FieldValue(PageText(pages[k].1), OpeningRule).Some?)
  {
    var check := CheckPage(classification, findRows, ratio, round2);
    GatherSpec(pages, check);
    forall k | 0 <= k < |pages| && pages[k].0 in Summary(pages, classification, findRows, ratio, round2).value
      ensures classification[pages[k].0] == "bank_statement" && FieldValue(PageText(pages[k].1), OpeningRule).Some?
    {
      PageErrorsSpec(pages[k].0, pages[k].1, classification, findRows, ratio, round2);
    }
  }

  /** The run fails exactly when some page fails, and then with the error of
      the first failing page, so nothing is summarised. */
  lemma SummaryFailure(pages: Pages, classification: map<string, string>,
                       findRows: string -> seq<RowMatch>, ratio: (string, string) -> Ratio, round2: real -> real)
    ensures var summary := Summary(pages, classification, findRows, ratio, round2);
      summary.Failure? <==>
        (exists k :: 0 <= k < |pages| && PageErrors(pages[k].0, pages[k].1, classification, findRows, ratio, round2).Failure?)
    ensures var summary := Summary(pages, classification, findRows, ratio, round2);
      summary.Failure? ==>
        (exists k :: 0 <= k < |pages|
          && PageErrors(pages[k].0, pages[k].1, classification, findRows, ratio, round2).Failure?
          && (forall j :: 0 <= j < k ==> PageErrors(pages[j].0, pages[j].1, classification, findRows, ratio, round2).Success?)
          && summary.error == PageErrors(pages[k].0, pages[k].1, classification, findRows, ratio, round2).error)
  {
    GatherFailure(pages, CheckPage(classification, findRows, ratio, round2));
  }

  /** The in-memory part of `checksum_validator`: validate every bank-statement
      page that states an opening balance and keep the pages with errors. */
  method ChecksumValidator(ocrData: Pages, classification: map<string, string>,
                           findRows: string -> seq<RowMatch>, ratio: (string, string) -> Ratio, round2: real -> real)
    returns (result: Result<map<string, seq<BalanceError>>>)
    ensures result == Summary(ocrData, classification, findRows, ratio, round2)
  {
    var check := CheckPage(classification, findRows, ratio, round2);
    var errorsSummary := map[];
    for i := 0 to |ocrData|
      invariant Gather(ocrData[..i], check) == Success(errorsSummary)
    {
      var (pageNumber, pageContent) := ocrData[i];
      assert ocrData[..i + 1] == ocrData[..i] + [(pageNumber, pageContent)];
      GatherSnoc(ocrData[..i], pageNumber, pageContent, check);
      if pageNumber in classification && classification[pageNumber] == "bank_statement" {
        var pageText := PageText(pageContent);
        var transactions := ExtractTransactionRows(findRows(pageText), ratio);
        if transactions.Failure? {
          GatherPrefixFailure(ocrData, i + 1, check);
          return Failure(transactions.error);
        }
        var openingBalanceMatch := Search(pageText, OpeningRule);
        if openingBalanceMatch.Some? {
          var span := openingBalanceMatch.value.1;
          var openingBalance := ParseAmount(pageText[span.start..span.end]);
          if openingBalance.Failure? {
            GatherPrefixFailure(ocrData, i + 1, check);
            return Failure(openingBalance.error);
          }
          var errors := ValidateBalance(transactions.value, openingBalance.value, round2);
          if errors != [] {
            errorsSummary := errorsSummary[pageNumber := errors];
          }
        }
      }
    }
    assert ocrData[..|ocrData|] == ocrData;
    result := Success(errorsSummary);
  }
}
