# Financial-document pipeline: classifiers, extractors and balance checks

A Dafny model of the decision logic of a small pipeline that turns OCR text of
bank statements, cheques and salary slips into records, and then checks them.
The pipeline has four stages. Each is modelled on exact values, with its
contracts proved.

- **Classifiers.** `classify_page_text` counts whole-word keyword hits per
  category (module `ExactClassifier`). `classify_document` in
  `src/document_processing/classify.py` averages fuzzy similarities per
  category and applies a threshold (module `FuzzyClassifier`).
- **Field extractors.** They scan for a label, a separator and a run of value
  characters; the first match wins, and a field that is not found is absent.
  Modules: `LabelScan` (the hand-modelled patterns and the field loop),
  `PageKeyValues` (`key_value_extractor.py`) and `Extraction`
  (`extract_key_values` of `src/document_processing/extraction.py`).
- **Table extractors.**
  - The token-count row builders for transaction and salary rows
    (`Extraction`).
  - The post-match loop of the regex variant, which decides credit or debit by
    a fuzzy keyword in the description (`Checksum`).
- **Balance validators.**
  - The strict, rounded `validate_balance`, with the per-page loop of
    `checksum_validator` (`Checksum`).
  - The tolerant, in-place-flagging `perform_balance_validation`
    (`BalanceValidation`).
  - The per-type validators with their dispatch (`Validation`).

Shared modules:
- `Text`: `split`, `join`, `strip`, `lower` and comma removal.
- `Decimal`: `float` as an exact decimal grammar.
- `Documents`: categories, Python's first-maximum `max`, and the page-text
  join.
- `Outcomes`: Option, and Result values that carry the exception Python would
  raise.

Library calls are parameters:
- `fuzz.partial_ratio` becomes `ratio`, an arbitrary function into 0..100.
- `round(x, 2)` becomes `round2`.
- The list of 5-tuples that the composed `re.findall` of
  `checksum_validator.py` returns becomes `findRows`.
- The OCR result is an input: a sequence of pages of line texts.
- The expected values that `src/document_processing/validation.py` loads
  from a file become a parameter. A JSON `null` field value is None, so `.get`
  gives None both for it and for an absent key. A section that is not a JSON
  object is None too, and `.get` on it raises AttributeError.

Three behaviours of the code are easy to misread; the model follows the code
as written:
- In the token-count transaction row, the debit slot does not take whatever
  the credit slot left over. It is tested on its own and keeps the
  second-last token only when that token is *not* numeric (`Extraction.TransactionRowSlots`).
- `validate_bank_statement` does not return a result. It subscripts
  `extracted_data["transactions"]`, then calls the two-parameter
  `perform_balance_validation` with one argument. It therefore always raises:
  AttributeError when its expected section is not an object, otherwise a
  KeyError, or else a TypeError (`Validation.ValidateDocumentSpec`).
- The balance check of `checksum_validator` converts a page's rows before it
  looks for the opening balance. So a row that does not parse fails the whole
  run, with nothing saved, even when its page states no opening balance
  (`Checksum.PageErrorsSpec`, `Checksum.SummaryFailure`).

## Model

| member | source | states |
|---|---|---|
| Documents.Rank | classify_document.py:8-12 | each category with keywords has one position in the declaration order bank_statement, check, salary_slip |
| Documents.FirstMax | classify_document.py:23 | the index `max` picks: its score is at least every score and strictly greater than every earlier one |
| Documents.PageText | classify_document.py:52 | the page text has no upper-case letter |
| Documents.PageTextAppend | classify_document.py:52 | items contribute in item order: one more item appends a single space and its lower-cased text |
| Text.Split | src/document_processing/extraction.py:45 | `str.split()` yields only non-empty tokens free of whitespace |
| Text.SplitBlank | checksum_validator.py:10-14 | a text splits into no words exactly when it is all whitespace |
| Text.SplitAtSpace | src/document_processing/extraction.py:45 | a whitespace character separates words: the words of `a`, a whitespace character and `b` are the words of `a` then those of `b`, so runs of whitespace and leading or trailing whitespace produce no empty token |
| Text.TokenSplit | src/document_processing/extraction.py:45 | a whitespace-free non-empty text splits into itself; with SplitAtSpace and SplitBlank this fixes the words of every text |
| Text.SplitJoin | src/document_processing/extraction.py:51 | tokens joined with single spaces split back into the same tokens |
| Text.StripCommas | src/document_processing/extraction.py:82 | `replace(",", "")` leaves no comma, never lengthens the text, and returns a text without commas unchanged |
| Text.StripCommasChar | src/document_processing/extraction.py:82 | a single character is removed exactly when it is a comma |
| Text.StripCommasAppend | src/document_processing/extraction.py:82 | comma removal works piece by piece, so the result is the input with its commas removed and every other character kept in order |
| Text.Strip | checksum_validator.py:49-50 | `strip()` leaves the text between a whitespace-only prefix and a whitespace-only suffix, and that text neither starts nor ends with whitespace |
| Decimal.Parse | src/document_processing/extraction.py:82 | `float` succeeds exactly on the accepted decimal grammar |
| Decimal.ParseNatToString | src/document_processing/extraction.py:82 | reading back the decimal rendering of a natural number gives the number |
| Decimal.ParseSign | src/document_processing/utils.py:27-32 | a leading `-` negates the value of an unsigned number and a leading `+` keeps it |
| Decimal.DigitsValueAppend | src/document_processing/utils.py:27-32 | the digits of a then b read as a's value times ten to the length of b, plus b's value |
| Decimal.ParseDigits | src/document_processing/utils.py:27-32 | a non-empty digit string reads as its base-ten value |
| Decimal.ParsePoint | src/document_processing/utils.py:27-32 | digits, a point and digits read as the integer part plus the fraction digits divided by ten to their number |
| Decimal.ShiftDigits | src/document_processing/utils.py:27-32 | moving the point of a.b right past the digits of b gives the value of the digits a then b |
| Decimal.ParseScale | src/document_processing/utils.py:27-32 | for digit strings a and b, not both empty, the value of a.b times ten to the length of b is the value of ab |
| Decimal.ParseAmount | checksum_validator.py:43 | `float(s.replace(",", ""))` succeeds exactly when the comma-free text is a decimal; it gives that value, or else the ValueError naming that text |
| Outcomes.LeadingSpec | src/document_processing/utils.py:26-32 | a loop that stops at its first exception has read the values of the leading successes, and stops only at a failure |
| Outcomes.MapAllSuccess | checksum_validator.py:37-54 | converting every element succeeds exactly when each does, with one value per element in order |
| Outcomes.MapAllFailure | checksum_validator.py:37-54 | a failed conversion carries the error of the first element that fails |
| ExactClassifier.Keywords | classify_document.py:8-12 | the keyword table; every keyword is non-empty |
| ExactClassifier.CountFrom | classify_document.py:20 | the `findall` count from a position is bounded by the remaining length, and positive exactly when a whole-word occurrence exists |
| ExactClassifier.KeywordTotalSnoc | classify_document.py:18-20 | adding a keyword adds its own count to the category total |
| ExactClassifier.KeywordTotalZero | classify_document.py:17-20 | a category total is zero exactly when none of its keywords occurs bounded by `\b` on both sides |
| ExactClassifier.AddKeywordCounts | classify_document.py:18-20 | the inner loop adds exactly the category's count to its entry |
| ExactClassifier.MatchCounts | classify_document.py:15-20 | each declared category's entry is the sum of its keywords' whole-word counts |
| ExactClassifier.CountsOf | classify_document.py:15-23 | the counts appear in declaration order, one per category |
| ExactClassifier.ChooseSpec | classify_document.py:23-27 | the choice is `others` exactly when all counts are zero; otherwise it has the greatest count, strictly greater than every earlier-declared category's, so ties go to the first declared |
| ExactClassifier.PageCategorySpec | classify_document.py:17-27 | the same three properties for the keyword counts of a page text |
| ExactClassifier.ClassifyPageText | classify_document.py:5-29 | the method's result is the page category, with the three properties |
| ExactClassifier.CategoryCountZero | classify_document.py:17-27 | a category's count is zero exactly when none of its keywords occurs as a whole word |
| ExactClassifier.ClassifyPage | classify_document.py:50-56 | a page is classified from its lower-cased, space-joined items; the label is one of the four names |
| FuzzyClassifier.RatioSumBounds | src/document_processing/classify.py:42 | the similarity sum lies between 0 and 100 times the number of keywords |
| FuzzyClassifier.MatchScore | src/document_processing/classify.py:40-43 | the score is the arithmetic mean of the similarities, and 0 with no keywords |
| FuzzyClassifier.ScoreBounds | src/document_processing/classify.py:42-43 | every category score lies in [0, 100] |
| FuzzyClassifier.Scores | src/document_processing/classify.py:24-28 | one score per category, in declaration order |
| FuzzyClassifier.ClassifyText | src/document_processing/classify.py:19-37 | empty text gives `others` with confidence 0. Otherwise the confidence is the best score, and a category is kept exactly when that score reaches the 0.8 threshold. A kept category is the first with that score |
| FuzzyClassifier.ConfidenceBounds | src/document_processing/classify.py:31-37 | the confidence always lies in [0, 100] |
| LabelScan.SepEnd | key_value_extractor.py:21-34 | the separator `[:\s]*` (or `:?\s*`) can end exactly at the positions up to its longest match |
| LabelScan.LastValueStart | key_value_extractor.py:28-31 | where separator and value share whitespace, the value starts at the last value character backtracking can reach |
| LabelScan.ValueEnd | key_value_extractor.py:21-34 | the capture is a maximal run of value characters |
| LabelScan.MatchAt | key_value_extractor.py:41 | an attempt at a position succeeds exactly when the pattern can match there, with the engine's value start and a maximal non-empty capture |
| LabelScan.FirstSuccess | key_value_extractor.py:41 | the search returns the first position whose attempt succeeds, and none when no attempt does |
| LabelScan.FieldValueSpec | key_value_extractor.py:41-43 | a field is found exactly when its pattern matches somewhere; the value is a substring of the text, taken at the leftmost matching position |
| LabelScan.CollectFields | key_value_extractor.py:40-43 | with distinct names, every key comes from an entry, and an entry is present exactly when its own pattern is found, with what was found |
| LabelScan.CollectSnoc | key_value_extractor.py:40-43 | one more table entry adds its own field when found, and changes nothing else |
| LabelScan.ScanSpecFields | key_value_extractor.py:39-43 | result keys are pattern keys; each is present exactly when its own pattern matches, with that capture, so a missing field never affects the others |
| LabelScan.ScanFields | key_value_extractor.py:40-43 | the field loop builds exactly that dictionary |
| PageKeyValues.PatternFieldsDistinct | key_value_extractor.py:19-36 | the field names of each pattern table are distinct |
| PageKeyValues.ExtractKeyValuesFromPage | key_value_extractor.py:5-45 | a type without a table gives an empty result; otherwise the result is the field scan of its table |
| PageKeyValues.PageFields | key_value_extractor.py:19-43 | exactly `bank_statement`, `check` and `salary_slip` have a table, so any other type gives nothing; for those, the keys are those of the type's table, each present exactly when its own pattern matches |
| PageKeyValues.ExtractPage | key_value_extractor.py:69-77 | a page without a classification entry is `others` and gives nothing; otherwise its lower-cased, joined text is scanned with its type's table |
| Extraction.KeyTablesDistinct | src/config.py:19-39 | the configured key tables have distinct field names |
| Extraction.ExtractKeyValues | src/document_processing/extraction.py:30-37 | the result is the field scan of the table: keys come from the table, and each is present exactly when its label, an optional colon, whitespace and a digit, comma or point occur; the value is the capture of the first such match |
| Extraction.TransactionRowOfColumns | src/document_processing/extraction.py:45-56 | tokens yield a transaction row exactly when there are at least five |
| Extraction.TransactionRowOf | src/document_processing/extraction.py:44-56 | a line yields a row exactly when it has at least five whitespace tokens |
| Extraction.TransactionRowTokens | src/document_processing/extraction.py:50-54 | the row keeps every token of the line in order: date, description tokens, the two amount tokens, balance |
| Extraction.TransactionRowSlots | src/document_processing/extraction.py:52-53 | credit is the third-last token exactly when that token is numeric, else empty; debit is the second-last token exactly when that token is not numeric, else empty |
| Extraction.TransactionRowAmounts | src/document_processing/extraction.py:52-53 | a row's debit is never numeric; its credit is empty or numeric |
| Extraction.SalaryRowOfColumns | src/document_processing/extraction.py:66-74 | tokens yield a salary row exactly when there are at least two |
| Extraction.SalaryRowOf | src/document_processing/extraction.py:65-74 | a line yields a salary row exactly when it has at least two whitespace tokens |
| Extraction.SalaryRowTokens | src/document_processing/extraction.py:69-73 | the component tokens followed by the amount are the line's tokens |
| Extraction.RowsAppend | src/document_processing/extraction.py:42-56 | rows of consecutive lines are the rows of the first part followed by those of the second |
| Extraction.RowsFromLines | src/document_processing/extraction.py:42-56 | at most one row per line, and each row comes from a line that yields it |
| Extraction.RowsSnoc | src/document_processing/extraction.py:43-56 | one more line adds its own row or nothing |
| Extraction.AppendPageRows | src/document_processing/extraction.py:43-56 | the line loop appends the rows of a page's lines after the rows of the lines before it |
| Extraction.ExtractTransactionTable | src/document_processing/extraction.py:39-58 | one row per qualifying line, in page and line order |
| Extraction.ExtractSalaryBreakdownTable | src/document_processing/extraction.py:60-76 | one salary row per qualifying line, in page and line order |
| Extraction.ExtractData | src/document_processing/extraction.py:13-28 | bank statements get key values and transactions; cheques get key values and no table; salary slips get key values and salary rows; other types get nothing |
| Checksum.FuzzyMatch | checksum_validator.py:6-14 | true exactly when some whitespace-separated word, lower-cased, scores at least the threshold against the lower-cased keyword |
| Checksum.FuzzyMatchBlank | checksum_validator.py:10-14 | a blank text matches no keyword |
| Checksum.TransactionOfSpec | checksum_validator.py:38-54 | credit and debit are never both non-zero. Only the first amount is used, credit tested before debit; neither keyword gives zero for both. The balance is the last group, comma-free; date and description are stripped |
| Checksum.TransactionOfFailure | checksum_validator.py:42-53 | a row fails exactly when a number it needs does not parse |
| Checksum.MiddleGroupIgnored | checksum_validator.py:38-45 | the middle amount group never affects the result |
| Checksum.TransactionsOfSpec | checksum_validator.py:37-54 | one transaction per match in match order, or the error of the first failing match |
| Checksum.ExtractTransactionRows | checksum_validator.py:16-56 | the row loop computes exactly that conversion |
| Checksum.NetMovementAppend | checksum_validator.py:62-71 | the movement over consecutive rows is the sum of their movements |
| Checksum.NetMovementZero | checksum_validator.py:62-71 | rows without credit and debit do not move the balance |
| Checksum.ErrorsUpToSound | checksum_validator.py:65-82 | every reported row mismatches, numbered from 1 with its own data; rows come in increasing order, at most one error per row |
| Checksum.ErrorsUpToComplete | checksum_validator.py:74-82 | every mismatching row is reported |
| Checksum.ValidateBalance | checksum_validator.py:58-84 | the loop reports exactly the mismatching rows, and the running balance advances on every row |
| Checksum.ZeroMovement | checksum_validator.py:62-74 | with zero credits and debits, a row is reported exactly when its stated balance rounds differently from the opening balance |
| Checksum.CreditScenario | checksum_validator.py:65-82 | a 500 credit on 1000 with stated balance 1500 reports nothing |
| Checksum.MismatchScenario | checksum_validator.py:74-82 | the same row stating 1400 is reported as row 1 with computed balance 1500 |
| Checksum.PageErrorsSpec | checksum_validator.py:100-118 | only `bank_statement` pages are checked; such a page whose rows do not convert fails with the first bad row's error, with or without an opening balance; an opening balance that does not parse fails with its ValueError; a page with no opening-balance match is skipped when its rows convert; a page with errors states an opening balance, and its errors are its rows checked against that balance |
| Checksum.GatherFailure | checksum_validator.py:97-118 | the page loop fails exactly when some page's check fails, and then with the error of the first failing page |
| Checksum.SummaryFailure | checksum_validator.py:97-121 | the validator raises exactly when some page raises, and then with the first failing page's error, so no summary is produced |
| Checksum.GatherSpec | checksum_validator.py:97-118 | with distinct keys, every page succeeded, and the summary holds exactly the pages with a non-empty outcome, each with its own outcome |
| Checksum.SummarySpec | checksum_validator.py:97-118 | the summary holds exactly the bank-statement pages with an opening balance and at least one error, each with its own errors |
| Checksum.ChecksumValidator | checksum_validator.py:86-121 | the page loop computes that summary, or the first error raised |
| BalanceValidation.OptionalAmount | src/document_processing/utils.py:27-28 | an empty credit or debit counts as zero; otherwise it is the comma-free decimal value, or a failure |
| BalanceValidation.ParsedAmounts | src/document_processing/utils.py:26-32 | at most one set of numbers per row |
| BalanceValidation.ParsedAmountsSpec | src/document_processing/utils.py:26-32 | the parsed prefix holds each row's credit, debit and balance, and stops only at a row that does not parse |
| BalanceValidation.RowsAfter | src/document_processing/utils.py:26-41 | the updated prefix covers the first n rows; each row in it is flagged exactly when it was reached and is off by more than the tolerance, and is otherwise unchanged |
| BalanceValidation.RowsAfterStep | src/document_processing/utils.py:32-33 | a row's turn changes only that row |
| BalanceValidation.RowsAfterBeyond | src/document_processing/utils.py:26-33 | rows after the first unparsable row are left as they are |
| BalanceValidation.StepFacts | src/document_processing/utils.py:29-41 | one row advances the balance by credit minus debit, is flagged exactly when it is off by more than the tolerance, and logs one record exactly then |
| BalanceValidation.ValidateRows | src/document_processing/utils.py:21-48 | rows are flagged in place, length and order kept; the same list is returned, or the error of the first unreadable row; discrepancies are only logged |
| BalanceValidation.PerformBalanceValidation | src/document_processing/utils.py:21-48 | the same, with credit, debit and balance read by `float` after removing commas |
| BalanceValidation.DiscrepanciesSound | src/document_processing/utils.py:34-38 | every record is a discrepant row, 1-based, in row order, at most one per row |
| BalanceValidation.DiscrepanciesComplete | src/document_processing/utils.py:32-38 | every discrepant row is recorded |
| BalanceValidation.CalculatedAfterShift | src/document_processing/utils.py:23-41 | after row i the balance is the opening plus the net movement, whatever earlier rows' outcome |
| BalanceValidation.ToleranceBoundary | src/document_processing/utils.py:32 | a difference of exactly 0.01 is not flagged; a larger one is |
| BalanceValidation.ZeroMovement | src/document_processing/utils.py:27-29 | empty credits and debits leave the balance at the opening balance |
| BalanceValidation.Idempotent | src/document_processing/utils.py:21-48 | validating the updated rows again changes nothing and logs the same discrepancies |
| BalanceValidation.FlagKeepsAmounts | src/document_processing/utils.py:27-33 | flagging a row changes none of its numbers |
| BalanceValidation.SameAmounts | src/document_processing/utils.py:26-32 | rows with the same numbers parse to the same amounts |
| BalanceValidation.DiscrepanciesSame | src/document_processing/utils.py:34-38 | rows with the same stated balances log the same discrepancies |
| Validation.Get | src/document_processing/validation.py:17-18 | `.get` finds a value exactly when the key is present with a non-`null` value; an absent key and a `null` value both give None |
| Validation.Section | src/document_processing/validation.py:18 | `expected_values.get(type, {})` reads as `{}` when the type is absent, is the section's fields when it is an object, and raises AttributeError exactly when the section is not an object |
| Validation.CompareField | src/document_processing/validation.py:36-47 | at most one discrepancy, present exactly when the two lookups differ; success exactly when there is none |
| Validation.ValidateDocumentSpec | src/document_processing/validation.py:64-82 | success means no discrepancies; unknown types succeed with none; a known type whose section is not an object raises AttributeError; otherwise a bank statement always raises, KeyError exactly when transactions are missing and TypeError otherwise |
| Validation.SalarySlipSpec | src/document_processing/validation.py:34-47 | AttributeError exactly when the salary-slip section is not an object; otherwise at most one discrepancy, absent exactly when net salary and its expectation are both missing or `null`, or both present and equal |
| Validation.CheckSpec | src/document_processing/validation.py:49-62 | AttributeError exactly when the check section is not an object; otherwise at most one discrepancy, absent exactly when amount and its expectation are both missing or `null`, or both present and equal |
| Validation.NullMatchesAbsent | src/document_processing/validation.py:37-40 | an expected `null` net salary against a slip with no net salary gives success with no discrepancies |
| Validation.NullSectionRaises | src/document_processing/validation.py:52-53 | a `null` check section raises AttributeError |

## Left out

- OCR, PDF rendering and orchestration (`ocr.py`, `pdf_to_image.py`, `main.py`, `src/main.py`, `pdf_to_png`) are not part of this model. The argument order of the calls in `src/main.py` is therefore not modelled either.
- JSON file reading and writing, directory creation, `print` and logging are not modelled. The logged discrepancies of `perform_balance_validation` are an out-parameter.
- `extract_transactions_as_dataframe` is a wrapper over pandas, and is not modelled.
- `fuzz.partial_ratio` is a parameter into 0..100 and is not reimplemented.
- `round(x, 2)` is a parameter. The scenario lemmas only assume that it moves a value by at most 0.005.
- The composed `re.findall` of `checksum_validator.py:31-34` is not modelled: its list of 5-tuples is an input.
- `float` accepts only an optional sign, then digits with at most one point. Python's exponents, `inf`, `nan`, underscores, surrounding whitespace and non-ASCII decimal digits (such as Arabic-Indic "١٢٣", which `float` reads as 123.0) are not modelled; `Text.IsDigit` is ASCII only, so `is_credit` classifies such a token as non-numeric.
- Amounts are exact decimals, not IEEE doubles.
- `\w`, `\d` and `lower()` are ASCII only. So is the case folding of `re.IGNORECASE` (`LabelScan.CharMatch`). Python's Unicode folding, which matches for example `ſ` with `s`, the Kelvin sign with `k`, and `ı` or `İ` with `i`, is not modelled.
- The expected values of `src/document_processing/validation.py` are a parameter, not loaded at import time. `EXPECTED_VALUES_FILE` does not exist in `src/config.py`, so that import would fail.
- Rows are values with the error slot as an Option. An absent `credit`, `debit` or `balance` key is not modelled: it would raise AttributeError on the default `0`. Aliasing of row dictionaries is not modelled: one dictionary held outside the list, or at two indices of the list, would be flagged in both places in Python (`extract_transaction_table` never builds such a list).
- The order of an opening-balance discrepancy before the balance discrepancies in `validate_bank_statement` is not modelled, because that function always raises before it returns.
- BalanceValidation.ValidateRows is the loop with the reader of a row's numbers as a parameter. `PerformBalanceValidation` passes the `float`-based reader.
- ExactClassifier.CountFrom: its contract states only the bound and when the count is positive. The exact leftmost, non-overlapping count is its definition, which `KeywordTotalZero` and `CategoryCountZero` reason about.
- The file loops of `classify_document` and `extract_key_values` are modelled one page at a time (`ClassifyPage`, `ExtractPage`). Building the page dictionary from those results is not modelled.
