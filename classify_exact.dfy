/** The keyword-count classifier of `classify_document.py`: every keyword of a
    category is searched as a whole word (`\b` on both sides, case-sensitive,
    non-overlapping, as `re.findall` counts), the counts are summed per
    category, the first category with the greatest count wins, and a page with
    no hit at all is `others`. */
module ExactClassifier {
  import opened Text
  import opened Documents

  /** The keyword table, in declaration order. */
  function Keywords(c: Category): (ws: seq<string>)
    ensures forall k :: 0 <= k < |ws| ==> |ws[k]| > 0
  {
    match c
    case BankStatement => ["account number", "transaction", "balance", "deposit", "withdrawal", "statement"]
    case Check => ["pay to the order", "memo", "check number", "authorized signature", "routing number"]
    case SalarySlip => ["net salary", "gross salary", "deduction", "pay period", "employer", "employee", "income"]
    case Others => []
  }

  /** A word character stands at position j (positions outside the text are not word characters). */
  predicate WordAt(text: string, j: int)
  {
    0 <= j < |text| && IsWordChar(text[j])
  }

  /** `\b` at position j: exactly one of the characters around j is a word character. */
  predicate Boundary(text: string, j: int)
  {
    WordAt(text, j - 1) != WordAt(text, j)
  }

  /** The pattern `\b<kw>\b` matches at position i. */
  predicate OccursAt(text: string, kw: string, i: nat)
  {
    && i + |kw| <= |text|
    && text[i..i + |kw|] == kw
    && Boundary(text, i)
    && Boundary(text, i + |kw|)
  }

  /** The number of matches `re.findall` reports when scanning from position i:
      after a match the scan resumes at its end, otherwise one position later. */
  function CountFrom(text: string, kw: string, i: nat): (n: nat)
    requires |kw| > 0 && i <= |text|
    ensures n <= |text| - i
    ensures n > 0 <==> exists j :: i <= j <= |text| && OccursAt(text, kw, j)
    decreases |text| - i
  {
    if i + |kw| > |text| then 0
    else if OccursAt(text, kw, i) then
      var m := CountFrom(text, kw, i + |kw|);
      1 + m
    else
      CountFrom(text, kw, i + 1)
  }

  /** `len(re.findall(r"\b" + re.escape(kw) + r"\b", text))`. */
  function Count(text: string, kw: string): nat
    requires |kw| > 0
  {
    CountFrom(text, kw, 0)
  }

  /** Sum of the keyword counts of `kws`. */
  function KeywordTotal(text: string, kws: seq<string>): nat
    requires forall k :: 0 <= k < |kws| ==> |kws[k]| > 0
  {
    if kws == [] then 0 else KeywordTotal(text, kws[..|kws| - 1]) + Count(text, kws[|kws| - 1])
  }

  /** One more keyword adds its own count. */
  lemma KeywordTotalSnoc(text: string, kws: seq<string>, i: nat)
    requires i < |kws| && forall k :: 0 <= k < |kws| ==> |kws[k]| > 0
    ensures KeywordTotal(text, kws[..i + 1]) == KeywordTotal(text, kws[..i]) + Count(text, kws[i])
  {
    assert kws[..i + 1][..i] == kws[..i];
  }

  /** The match count of a category. */
  function CategoryCount(text: string, c: Category): nat
  {
    KeywordTotal(text, Keywords(c))
  }

  /** A keyword total is zero exactly when none of the keywords occurs as a whole word. */
  lemma {:induction false} KeywordTotalZero(text: string, kws: seq<string>)
    requires forall k :: 0 <= k < |kws| ==> |kws[k]| > 0
    ensures KeywordTotal(text, kws) == 0 <==>
      forall k, j :: 0 <= k < |kws| && 0 <= j <= |text| ==> !OccursAt(text, kws[k], j)
  {
    if kws != [] {
      var init := kws[..|kws| - 1];
      KeywordTotalZero(text, init);
      var last := kws[|kws| - 1];
      if KeywordTotal(text, kws) == 0 {
        forall k, j | 0 <= k < |kws| && 0 <= j <= |text| ensures !OccursAt(text, kws[k], j) {
          if k < |kws| - 1 { assert kws[k] == init[k]; }
        }
      } else if KeywordTotal(text, init) != 0 {
        var k, j :| 0 <= k < |init| && 0 <= j <= |text| && OccursAt(text, init[k], j);
        assert kws[k] == init[k];
      }
    }
  }

  /** The inner loop of `classify_page_text`: add the count of each keyword
      of a category, in order, to the category's running entry. */
  method AddKeywordCounts(pageText: string, category: Category, start: nat) returns (total: nat)
    ensures total == start + CategoryCount(pageText, category)
  {
    var words := Keywords(category);
    total := start;
    for wi := 0 to |words|
      invariant total == start + KeywordTotal(pageText, words[..wi])
    {
      KeywordTotalSnoc(pageText, words, wi);
      total := total + Count(pageText, words[wi]);
    }
    assert words[..|words|] == words;
  }

  /** The `match_counts` dictionary once the first n declared categories have
      been counted: those hold their counts, the rest are still zero. */
  function Partial(count: Category -> nat, n: nat): map<Category, nat>
  {
    map[BankStatement := if n > 0 then count(BankStatement) else 0,
        Check := if n > 1 then count(Check) else 0,
        SalarySlip := if n > 2 then count(SalarySlip) else 0]
  }

  /** The `match_counts` dictionary of `classify_page_text`, built by adding
      each keyword's count to its category's entry. */
  method MatchCounts(pageText: string) returns (matchCounts: map<Category, nat>)
    ensures forall d :: d != Others ==> d in matchCounts && matchCounts[d] == CategoryCount(pageText, d)
  {
    ghost var count := Tally(pageText);
    matchCounts := map[BankStatement := 0, Check := 0, SalarySlip := 0];
    for ci := 0 to |Declared|
      invariant matchCounts == Partial(count, ci)
    {
      var category := Declared[ci];
      var total := AddKeywordCounts(pageText, category, matchCounts[category]);
      assert total == count(category);
      matchCounts := matchCounts[category := total];
    }
    assert forall d :: count(d) == CategoryCount(pageText, d);
  }

  /** The counts of the declared categories, in declaration order. */
  function CountsOf(count: Category -> nat): (s: seq<real>)
    ensures |s| == |Declared|
    ensures forall d :: d != Others ==> s[Rank(d)] == count(d) as real
  {
    [count(BankStatement) as real, count(Check) as real, count(SalarySlip) as real]
  }

  /** The decision of `classify_page_text` on given counts: `others` when all
      are zero, else the first category with the greatest count. */
  function Choose(count: Category -> nat): Category
  {
    if forall d :: d != Others ==> count(d) == 0 then Others
    else Declared[FirstMax(CountsOf(count))]
  }

  /** The choice is `others` exactly when every count is zero; otherwise it
      has the greatest count, and strictly more than every category declared
      before it, so ties go to the earliest-declared category. */
  lemma ChooseSpec(count: Category -> nat)
    ensures Choose(count) == Others <==> forall d :: d != Others ==> count(d) == 0
    ensures var c := Choose(count);
      c != Others ==> forall d :: d != Others ==> count(d) <= count(c)
    ensures var c := Choose(count);
      c != Others ==> forall d :: d != Others && Rank(d) < Rank(c) ==> count(d) < count(c)
  {
    var c := Choose(count);
    if c != Others {
      assert CountsOf(count)[Rank(c)] == count(c) as real;
    }
  }

  /** The keyword count of each category in a text. */
  function Tally(text: string): Category -> nat
  {
    d => CategoryCount(text, d)
  }

  /** The category a page text is given. */
  function PageCategory(text: string): Category
  {
    Choose(Tally(text))
  }

  /** A page is `others` exactly when every count is zero; otherwise its
      category has the greatest count, and strictly more than every category
      declared before it. */
  lemma PageCategorySpec(text: string)
    ensures PageCategory(text) == Others <==> forall d :: d != Others ==> CategoryCount(text, d) == 0
    ensures var c := PageCategory(text);
      c != Others ==> forall d :: d != Others ==> CategoryCount(text, d) <= CategoryCount(text, c)
    ensures var c := PageCategory(text);
      c != Others ==> forall d :: d != Others && Rank(d) < Rank(c) ==> CategoryCount(text, d) < CategoryCount(text, c)
  {
    var count := Tally(text);
    assert forall d :: count(d) == CategoryCount(text, d);
    ChooseSpec(count);
  }

  /** `classify_page_text`: count the keyword hits per category, take the first
      category with the greatest count, and fall back to `others` when every
      count is zero. */
  method ClassifyPageText(pageText: string) returns (c: Category)
    ensures c == PageCategory(pageText)
    ensures c == Others <==> forall d :: d != Others ==> CategoryCount(pageText, d) == 0
    ensures c != Others ==> forall d :: d != Others ==> CategoryCount(pageText, d) <= CategoryCount(pageText, c)
    ensures c != Others ==> forall d :: d != Others && Rank(d) < Rank(c) ==> CategoryCount(pageText, d) < CategoryCount(pageText, c)
  {
    var matchCounts := MatchCounts(pageText);
    var counts := [matchCounts[BankStatement] as real, matchCounts[Check] as real, matchCounts[SalarySlip] as real];
    assert counts == CountsOf(Tally(pageText));
    c := Declared[FirstMax(counts)];
    if matchCounts[BankStatement] == 0 && matchCounts[Check] == 0 && matchCounts[SalarySlip] == 0 {
      c := Others;
    }
    PageCategorySpec(pageText);
  }

  /** No keyword of category c occurs in the text as a whole word. */
  predicate NoKeywordOccurs(text: string, c: Category)
  {
    forall k, j :: 0 <= k < |Keywords(c)| && 0 <= j <= |text| ==> !OccursAt(text, Keywords(c)[k], j)
  }

  /** A category's count is zero exactly when none of its keywords occurs as a
      whole word; so a page is `others` exactly when no keyword occurs at all. */
  lemma CategoryCountZero(text: string, c: Category)
    ensures CategoryCount(text, c) == 0 <==> NoKeywordOccurs(text, c)
  {
    KeywordTotalZero(text, Keywords(c));
  }

  /** A page of `classify_document`: its items' texts, lower-cased and joined
      by single spaces in item order, are classified, and the category's label
      is recorded. */
  method ClassifyPage(items: seq<string>) returns (classifiedType: string)
    ensures classifiedType in ["bank_statement", "check", "salary_slip", "others"]
    ensures classifiedType == Name(PageCategory(PageText(items)))
  {
    var pageText := PageText(items);
    var category := ClassifyPageText(pageText);
    classifiedType := Name(category);
  }
}
