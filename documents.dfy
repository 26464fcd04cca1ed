/** Document categories, the similarity scale of the fuzzy matcher, the
    "first maximum" rule of Python's `max`, and the per-page text that the
    classifiers and the field extractors read. */
module Documents {
  import opened Text

  datatype Category = BankStatement | Check | SalarySlip | Others

  /** The categories that carry keyword tables, in declaration order. */
  const Declared: seq<Category> := [BankStatement, Check, SalarySlip]

  /** The label the pipeline writes for a category. */
  function Name(c: Category): string
  {
    match c
    case BankStatement => "bank_statement"
    case Check => "check"
    case SalarySlip => "salary_slip"
    case Others => "others"
  }

  /** Position of a declared category in the declaration order. */
  function Rank(c: Category): (r: nat)
    requires c != Others
    ensures r < |Declared| && Declared[r] == c
  {
    match c
    case BankStatement => 0
    case Check => 1
    case SalarySlip => 2
  }

  /** A similarity score of `fuzz.partial_ratio`: an integer from 0 to 100. */
  type Ratio = r: int | 0 <= r <= 100

  /** `max` over a sequence of scores: the index of the first greatest score. */
  function FirstMax(s: seq<real>): (r: nat)
    requires |s| > 0
    ensures r < |s|
    ensures forall j :: 0 <= j < |s| ==> s[j] <= s[r]
    ensures forall j :: 0 <= j < r ==> s[j] < s[r]
  {
    if |s| == 1 then 0
    else
      var r := FirstMax(s[..|s| - 1]);
      if s[|s| - 1] > s[r] then |s| - 1 else r
  }

  /** The text of one page: its items' texts, lower-cased, joined by single spaces. */
  function PageText(items: seq<string>): (t: string)
    ensures HasNoUpper(t)
  {
    if |items| == 0 then ""
    else if |items| == 1 then Lower(items[0])
    else Lower(items[0]) + " " + PageText(items[1..])
  }

  /** Items contribute to the page text in item order: adding an item appends
      its lower-cased text after a single space. */
  lemma {:induction false} PageTextAppend(items: seq<string>, x: string)
    requires |items| > 0
    ensures PageText(items + [x]) == PageText(items) + " " + Lower(x)
  {
    if |items| > 1 {
      assert (items + [x])[1..] == items[1..] + [x];
      PageTextAppend(items[1..], x);
    } else {
      assert (items + [x])[1..] == [x];
    }
  }
}
