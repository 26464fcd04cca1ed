/** The per-page field extractor of `key_value_extractor.py`: the page's items
    are lower-cased and joined, the page's document type is looked up (default
    `others`), and each pattern of that type's table is searched
    case-insensitively. */
module PageKeyValues {
  import opened Outcomes
  import opened Documents
  import opened LabelScan

  function Field(name: string, labelText: string, value: ValueClass): (string, Rule)
  {
    (name, Rule(labelText, ColonsOrSpaces, value, true))
  }

  /** The `patterns` table: every pattern is `<label>[:\s]*(<value class>+)`. */
  function Patterns(documentType: string): Option<Table>
  {
    if documentType == "bank_statement" then
      Some([Field("account_number", "account number", WordChars),
            Field("total_balance", "balance", AmountChars),
            Field("opening_balance", "opening balance", AmountChars)])
    else if documentType == "check" then
      Some([Field("check_number", "check number", WordChars),
            Field("date", "date", DateChars),
            Field("payee", "pay to the order of", WordsAndSpaces)])
    else if documentType == "salary_slip" then
      Some([Field("employee_name", "employee", WordsAndSpaces),
            Field("net_salary", "net salary", AmountChars),
            Field("gross_salary", "gross salary", AmountChars),
            Field("deductions", "deductions", AmountChars)])
    else None
  }

  lemma PatternFieldsDistinct(documentType: string)
    requires Patterns(documentType).Some?
    ensures DistinctFields(Patterns(documentType).value)
  {
  }

  /** `extract_key_values_from_page`. */
  method ExtractKeyValuesFromPage(pageText: string, documentType: string) returns (extractedData: map<string, string>)
    ensures Patterns(documentType).None? ==> extractedData == map[]
    ensures Patterns(documentType).Some? ==> extractedData == ScanSpec(pageText, Patterns(documentType).value)
  {
    extractedData := map[];
    var patterns := Patterns(documentType);
    if patterns.Some? {
      extractedData := ScanFields(pageText, patterns.value);
    }
  }

  /** Only the three classified types have a table (any other type, `others`
      included, yields no fields); for those, the result holds exactly the
      fields whose own pattern matches, each with its capture. */
  lemma PageFields(pageText: string, documentType: string)
    ensures Patterns(documentType).Some? <==> documentType in {"bank_statement", "check", "salary_slip"}
    ensures Patterns(documentType).Some? ==>
      var table := Patterns(documentType).value;
      && (forall f :: f in ScanSpec(pageText, table) ==> exists k :: 0 <= k < |table| && table[k].0 == f)
      && (forall k :: 0 <= k < |table| ==> (table[k].0 in ScanSpec(pageText, table) <==> FieldValue(pageText, table[k].1).Some?))
  {
    if Patterns(documentType).Some? {
      PatternFieldsDistinct(documentType);
      ScanSpecFields(pageText, Patterns(documentType).value);
    }
  }

  /** One page of `extract_key_values`: the page text is the lower-cased items
      joined by spaces, and a page without a classification entry is treated
      as `others`. */
  method ExtractPage(items: seq<string>, classification: map<string, string>, pageNumber: string)
    returns (extractedData: map<string, string>)
    ensures pageNumber !in classification ==> extractedData == map[]
    ensures pageNumber in classification && Patterns(classification[pageNumber]).Some? ==>
      extractedData == ScanSpec(PageText(items), Patterns(classification[pageNumber]).value)
    ensures pageNumber in classification && Patterns(classification[pageNumber]).None? ==> extractedData == map[]
  {
    var pageText := PageText(items);
    var documentType := if pageNumber in classification then classification[pageNumber] else "others";
    extractedData := ExtractKeyValuesFromPage(pageText, documentType);
  }
}
