/** The tolerant balance check of `src/document_processing/utils.py`
    (`perform_balance_validation`): the token-table rows are walked in order,
    the running balance advances by credit minus debit on every row, and a row
    whose stated balance differs from it by more than the tolerance gets an
    `error` entry in place. */
module BalanceValidation {
  import opened Text
  import opened Outcomes
  import opened Decimal
  import opened Extraction

  /** `BALANCE_VALIDATION_TOLERANCE` of `src/config.py`. */
  const BALANCE_VALIDATION_TOLERANCE: real := 0.01

  /** The text written into a flagged row's `error` entry. */
  const DISCREPANCY_FLAG: string := "Balance discrepancy"

  function Abs(x: real): (r: real)
    ensures r >= 0.0 && (r == x || r == -x)
  {
    if x < 0.0 then -x else x
  }

  /** `float(s.replace(",", "") or 0)`: a credit or debit that is empty once
      its commas are removed counts as zero. */
  function OptionalAmount(s: string): (r: Result<real>)
    ensures r.Success? <==> StripCommas(s) == "" || IsDecimal(StripCommas(s))
    ensures StripCommas(s) == "" ==> r == Success(0.0)
    ensures StripCommas(s) != "" && r.Success? ==> Parse(StripCommas(s)) == Some(r.value)
  {
    if StripCommas(s) == "" then Success(0.0) else ParseAmount(s)
  }

  /** The three numbers read from a row. */
  datatype Amounts = Amounts(credit: real, debit: real, balance: real)

  /** The numbers of a row in the order Python reads them: credit, debit, then
      the stated balance (which, unlike the other two, may not be empty). */
  function RowAmounts(row: TxnRow): Result<Amounts>
  {
    var credit :- OptionalAmount(row.credit);
    var debit :- OptionalAmount(row.debit);
    var balance :- ParseAmount(row.balance);
    Success(Amounts(credit, debit, balance))
  }

  /** What `read` gives for each row, row by row. */
  function ReadAll(rows: seq<TxnRow>, read: TxnRow -> Result<Amounts>): (results: seq<Result<Amounts>>)
  {
    seq(|rows|, i requires 0 <= i < |rows| => read(rows[i]))
  }

  /** The numbers of the leading rows that parse, one per row, up to the
      first row that does not: the loop raises there. */
  function ParsedAmounts(rows: seq<TxnRow>): (a: seq<Amounts>)
    ensures |a| <= |rows|
  {
    Leading(ReadAll(rows, RowAmounts))
  }

  /** The parsed prefix holds the numbers of its rows, and stops only at a
      row that does not parse. */
  lemma ParsedAmountsSpec(rows: seq<TxnRow>)
    ensures var a := ParsedAmounts(rows);
      && (forall j :: 0 <= j < |a| ==> RowAmounts(rows[j]) == Success(a[j]))
      && (|a| < |rows| ==> RowAmounts(rows[|a|]).Failure?)
  {
    LeadingSpec(ReadAll(rows, RowAmounts));
  }

  /** The running balance after the first i rows: the opening balance plus
      credit minus debit of each of them, whether or not a row was flagged. */
  function CalculatedAfter(a: seq<Amounts>, openingBalance: real, i: nat): real
    requires i <= |a|
  {
    if i == 0 then openingBalance
    else CalculatedAfter(a, openingBalance, i - 1) + a[i - 1].credit - a[i - 1].debit
  }

  /** Row i (0-based) disagrees with its stated balance by more than the tolerance. */
  predicate Discrepant(a: seq<Amounts>, openingBalance: real, i: nat)
    requires i < |a|
  {
    Abs(CalculatedAfter(a, openingBalance, i + 1) - a[i].balance) > BALANCE_VALIDATION_TOLERANCE
  }

  /** A discrepancy record: 1-based row, computed balance, and the stated
      balance as the row gives it. */
  datatype Discrepancy = Discrepancy(row: nat, expectedBalance: real, providedBalance: string)

  function DiscrepancyOf(rows: seq<TxnRow>, a: seq<Amounts>, openingBalance: real, i: nat): Discrepancy
    requires i < |a| && i < |rows|
  {
    Discrepancy(i + 1, CalculatedAfter(a, openingBalance, i + 1), rows[i].balance)
  }

  /** The discrepancies of the first n rows, in row order. */
  function DiscrepanciesUpTo(rows: seq<TxnRow>, a: seq<Amounts>, openingBalance: real, n: nat): seq<Discrepancy>
    requires n <= |a| && n <= |rows|
  {
    if n == 0 then []
    else
      var ds := DiscrepanciesUpTo(rows, a, openingBalance, n - 1);
      if Discrepant(a, openingBalance, n - 1) then ds + [DiscrepancyOf(rows, a, openingBalance, n - 1)] else ds
  }

  /** Row i after the call: flagged when it was reached and is discrepant,
      otherwise unchanged. */
  function RowAfter(rows: seq<TxnRow>, a: seq<Amounts>, openingBalance: real, i: nat): TxnRow
    requires i < |rows|
  {
    if i < |a| && Discrepant(a, openingBalance, i) then rows[i].(error := Some(DISCREPANCY_FLAG))
    else rows[i]
  }

  /** The first n rows as the call leaves them: row i is flagged exactly when
      it was reached and is discrepant, and is otherwise unchanged. */
  function RowsAfter(rows: seq<TxnRow>, a: seq<Amounts>, openingBalance: real, n: nat): (out: seq<TxnRow>)
    requires n <= |rows|
    ensures |out| == n
    ensures forall i :: 0 <= i < n ==> out[i] == RowAfter(rows, a, openingBalance, i)
  {
    if n == 0 then [] else RowsAfter(rows, a, openingBalance, n - 1) + [RowAfter(rows, a, openingBalance, n - 1)]
  }

  /** Row i's turn replaces it by RowAfter and leaves the other rows alone. */
  lemma RowsAfterStep(rows: seq<TxnRow>, a: seq<Amounts>, openingBalance: real, i: nat)
    requires i < |rows|
    ensures RowsAfter(rows, a, openingBalance, i + 1) + rows[i + 1..] ==
      (RowsAfter(rows, a, openingBalance, i) + rows[i..])[i := RowAfter(rows, a, openingBalance, i)]
  {
    var before := RowsAfter(rows, a, openingBalance, i);
    assert rows[i..] == [rows[i]] + rows[i + 1..];
    assert (before + rows[i..])[i := RowAfter(rows, a, openingBalance, i)]
      == before + [RowAfter(rows, a, openingBalance, i)] + rows[i + 1..];
  }

  /** The rows past the parsed prefix are left as they are. */
  lemma {:induction false} RowsAfterBeyond(rows: seq<TxnRow>, a: seq<Amounts>, openingBalance: real, n: nat)
    requires |a| <= n <= |rows|
    ensures RowsAfter(rows, a, openingBalance, |rows|) == RowsAfter(rows, a, openingBalance, n) + rows[n..]
    decreases |rows| - n
  {
    if n < |rows| {
      RowsAfterBeyond(rows, a, openingBalance, n + 1);
      assert rows[n..] == [rows[n]] + rows[n + 1..];
    } else {
      assert rows[n..] == [];
    }
  }

  /** Row i's effect on the running balance, the log and the row itself. */
  lemma StepFacts(rows: seq<TxnRow>, a: seq<Amounts>, openingBalance: real, i: nat)
    requires i < |a| && i < |rows|
    ensures CalculatedAfter(a, openingBalance, i + 1) == CalculatedAfter(a, openingBalance, i) + a[i].credit - a[i].debit
    ensures Discrepant(a, openingBalance, i) <==>
      Abs(CalculatedAfter(a, openingBalance, i + 1) - a[i].balance) > BALANCE_VALIDATION_TOLERANCE
    ensures DiscrepanciesUpTo(rows, a, openingBalance, i + 1) == DiscrepanciesUpTo(rows, a, openingBalance, i) +
      if Discrepant(a, openingBalance, i) then [Discrepancy(i + 1, CalculatedAfter(a, openingBalance, i + 1), rows[i].balance)] else []
    ensures RowAfter(rows, a, openingBalance, i) ==
      if Discrepant(a, openingBalance, i) then rows[i].(error := Some(DISCREPANCY_FLAG)) else rows[i]
  {
  }

  /** The loop of `perform_balance_validation`, for a given way of reading a
      row's numbers: the rows are updated in place; the result is the same
      list, or the error of the first row that cannot be read, in which case
      the rows before it have already been updated and the rest are
      untouched. The discrepancies are only logged, and only when the loop
      completes. */
  method ValidateRows(transactions: array<TxnRow>, openingBalance: real, read: TxnRow -> Result<Amounts>)
    returns (result: Result<array<TxnRow>>, logged: seq<Discrepancy>)
    modifies transactions
    ensures var rows := old(transactions[..]);
      var a := Leading(ReadAll(rows, read));
      && transactions[..] == RowsAfter(rows, a, openingBalance, |rows|)
      && (result.Success? <==> |a| == |rows|)
      && (result.Success? ==> result.value == transactions && logged == DiscrepanciesUpTo(rows, a, openingBalance, |rows|))
      && (result.Failure? ==> |a| < |rows| && read(rows[|a|]) == Failure(result.error) && logged == [])
  {
    ghost var rows := transactions[..];
    ghost var a := Leading(ReadAll(rows, read));
    var calculatedBalance := openingBalance;
    var discrepancies := [];
    for index := 0 to transactions.Length
      invariant index <= |a|
      invariant calculatedBalance == CalculatedAfter(a, openingBalance, index)
      invariant discrepancies == DiscrepanciesUpTo(rows, a, openingBalance, index)
      invariant transactions[..] == RowsAfter(rows, a, openingBalance, index) + rows[index..]
    {
      var transaction := transactions[index];
      LeadingAt(ReadAll(rows, read), index);
      var amounts := read(transaction);
      if amounts.Failure? {
        RowsAfterBeyond(rows, a, openingBalance, index);
        return Failure(amounts.error), [];
      }
      var expectedBalance := calculatedBalance + amounts.value.credit - amounts.value.debit;
      var providedBalance := amounts.value.balance;
      StepFacts(rows, a, openingBalance, index);
      RowsAfterStep(rows, a, openingBalance, index);
      ghost var before := transactions[..];
      if Abs(expectedBalance - providedBalance) > BALANCE_VALIDATION_TOLERANCE {
        transactions[index] := transaction.(error := Some(DISCREPANCY_FLAG));
        discrepancies := discrepancies + [Discrepancy(index + 1, expectedBalance, transaction.balance)];
      }
      assert transactions[..] == before[index := RowAfter(rows, a, openingBalance, index)];
      calculatedBalance := expectedBalance;
    }
    assert rows[|rows|..] == [];
    result, logged := Success(transactions), discrepancies;
  }

  /** `perform_balance_validation`: the loop above, reading each row's
      credit, debit and stated balance with `float` after removing commas. */
  method PerformBalanceValidation(transactions: array<TxnRow>, openingBalance: real)
    returns (result: Result<array<TxnRow>>, logged: seq<Discrepancy>)
    modifies transactions
    ensures var rows := old(transactions[..]);
      var a := ParsedAmounts(rows);
      && transactions[..] == RowsAfter(rows, a, openingBalance, |rows|)
      && (result.Success? <==> |a| == |rows|)
      && (result.Success? ==> result.value == transactions && logged == DiscrepanciesUpTo(rows, a, openingBalance, |rows|))
      && (result.Failure? ==> |a| < |rows| && RowAmounts(rows[|a|]) == Failure(result.error) && logged == [])
  {
    result, logged := ValidateRows(transactions, openingBalance, RowAmounts);
  }

  /** Every logged row is a discrepant row, numbered from 1, with its computed
      and stated balances; rows are logged in increasing order, at most one
      record per row. */
  lemma {:induction false} DiscrepanciesSound(rows: seq<TxnRow>, a: seq<Amounts>, openingBalance: real, n: nat)
    requires n <= |a| && n <= |rows|
    ensures var ds := DiscrepanciesUpTo(rows, a, openingBalance, n);
      && |ds| <= n
      && (forall j :: 0 <= j < |ds| ==>
            exists i :: 0 <= i < n && Discrepant(a, openingBalance, i) && ds[j] == DiscrepancyOf(rows, a, openingBalance, i))
      && (forall j, j' :: 0 <= j < j' < |ds| ==> ds[j].row < ds[j'].row)
      && (forall j :: 0 <= j < |ds| ==> ds[j].row <= n)
  {
    if n > 0 {
      DiscrepanciesSound(rows, a, openingBalance, n - 1);
      var prev := DiscrepanciesUpTo(rows, a, openingBalance, n - 1);
      var ds := DiscrepanciesUpTo(rows, a, openingBalance, n);
      forall j | 0 <= j < |ds|
        ensures exists i :: 0 <= i < n && Discrepant(a, openingBalance, i) && ds[j] == DiscrepancyOf(rows, a, openingBalance, i)
      {
        if j < |prev| {
          assert ds[j] == prev[j];
        } else {
          assert ds[j] == DiscrepancyOf(rows, a, openingBalance, n - 1);
        }
      }
      assert forall j, j' :: 0 <= j < j' < |ds| ==> ds[j].row < ds[j'].row;
    }
  }

  /** Every discrepant row is logged. */
  lemma {:induction false} DiscrepanciesComplete(rows: seq<TxnRow>, a: seq<Amounts>, openingBalance: real, n: nat, i: nat)
    requires i < n <= |a| && n <= |rows| && Discrepant(a, openingBalance, i)
    ensures DiscrepancyOf(rows, a, openingBalance, i) in DiscrepanciesUpTo(rows, a, openingBalance, n)
  {
    var prev := DiscrepanciesUpTo(rows, a, openingBalance, n - 1);
    if i < n - 1 {
      DiscrepanciesComplete(rows, a, openingBalance, n - 1, i);
    } else {
      assert DiscrepanciesUpTo(rows, a, openingBalance, n) == prev + [DiscrepancyOf(rows, a, openingBalance, i)];
    }
  }

  /** After row i the balance is the opening balance plus the net movement of
      rows 1 to i: a balance computed from another start differs by exactly
      the difference of the starts, so a flagged row does not reset it. */
  lemma {:induction false} CalculatedAfterShift(a: seq<Amounts>, openingBalance: real, other: real, i: nat)
    requires i <= |a|
    ensures CalculatedAfter(a, other, i) - CalculatedAfter(a, openingBalance, i) == other - openingBalance
  {
    if i > 0 {
      CalculatedAfterShift(a, openingBalance, other, i - 1);
    }
  }

  /** A difference of exactly the tolerance is accepted; anything beyond it is flagged. */
  lemma ToleranceBoundary(a: seq<Amounts>, openingBalance: real, i: nat)
    requires i < |a|
    ensures CalculatedAfter(a, openingBalance, i + 1) - a[i].balance == BALANCE_VALIDATION_TOLERANCE
      ==> !Discrepant(a, openingBalance, i)
    ensures a[i].balance - CalculatedAfter(a, openingBalance, i + 1) == BALANCE_VALIDATION_TOLERANCE
      ==> !Discrepant(a, openingBalance, i)
    ensures Abs(CalculatedAfter(a, openingBalance, i + 1) - a[i].balance) > BALANCE_VALIDATION_TOLERANCE
      ==> Discrepant(a, openingBalance, i)
  {
  }

  /** Empty credits and debits count as zero: such rows leave the balance at
      the opening balance. */
  lemma {:induction false} ZeroMovement(rows: seq<TxnRow>, openingBalance: real, i: nat)
    requires forall k :: 0 <= k < |rows| ==> rows[k].credit == "" && rows[k].debit == ""
    requires i <= |ParsedAmounts(rows)|
    ensures CalculatedAfter(ParsedAmounts(rows), openingBalance, i) == openingBalance
  {
    if i > 0 {
      ZeroMovement(rows, openingBalance, i - 1);
      ParsedAmountsSpec(rows);
      assert StripCommas("") == "";
      var a := ParsedAmounts(rows);
      assert RowAmounts(rows[i - 1]) == Success(a[i - 1]);
    }
  }

  /** The rows as the call leaves them. */
  function Validated(rows: seq<TxnRow>, openingBalance: real): (out: seq<TxnRow>)
  {
    RowsAfter(rows, ParsedAmounts(rows), openingBalance, |rows|)
  }

  /** Flagging changes no number, so validating the updated rows again parses
      the same numbers, flags nothing new and logs the same discrepancies: the
      call is idempotent. */
  lemma Idempotent(rows: seq<TxnRow>, openingBalance: real)
    ensures var out := Validated(rows, openingBalance);
      && ParsedAmounts(out) == ParsedAmounts(rows)
      && Validated(out, openingBalance) == out
      && DiscrepanciesUpTo(out, ParsedAmounts(out), openingBalance, |ParsedAmounts(out)|)
         == DiscrepanciesUpTo(rows, ParsedAmounts(rows), openingBalance, |ParsedAmounts(rows)|)
  {
    var out := Validated(rows, openingBalance);
    var a := ParsedAmounts(rows);
    forall j | 0 <= j < |rows| ensures RowAmounts(out[j]) == RowAmounts(rows[j]) && out[j].balance == rows[j].balance {
      FlagKeepsAmounts(rows[j]);
    }
    SameAmounts(rows, out);
    assert Validated(out, openingBalance) == out;
    DiscrepanciesSame(rows, out, a, openingBalance, |a|);
  }

  /** Flagging a row changes none of its numbers. */
  lemma FlagKeepsAmounts(row: TxnRow)
    ensures RowAmounts(row.(error := Some(DISCREPANCY_FLAG))) == RowAmounts(row)
  {
  }

  /** Rows with the same numbers parse to the same amounts. */
  lemma SameAmounts(rows: seq<TxnRow>, other: seq<TxnRow>)
    requires |rows| == |other|
    requires forall j :: 0 <= j < |rows| ==> RowAmounts(other[j]) == RowAmounts(rows[j])
    ensures ParsedAmounts(other) == ParsedAmounts(rows)
  {
    assert ReadAll(other, RowAmounts) == ReadAll(rows, RowAmounts);
  }

  /** Rows with the same stated balances log the same discrepancies. */
  lemma {:induction false} DiscrepanciesSame(rows: seq<TxnRow>, other: seq<TxnRow>, a: seq<Amounts>, openingBalance: real, n: nat)
    requires n <= |a| && n <= |rows| && n <= |other|
    requires forall j :: 0 <= j < n ==> other[j].balance == rows[j].balance
    ensures DiscrepanciesUpTo(other, a, openingBalance, n) == DiscrepanciesUpTo(rows, a, openingBalance, n)
  {
    if n > 0 {
      DiscrepanciesSame(rows, other, a, openingBalance, n - 1);
    }
  }
}
