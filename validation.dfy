/** The per-type validators of `src/document_processing/validation.py`. The
    expected values, which the module loads from a file when it is imported,
    are a parameter: a dictionary from document type to a section. A section
    is a dictionary of expected fields, or None when the JSON value is not a
    dictionary (`null`, a number, a string or a list), which has no `.get`.
    Field values are None for JSON `null` and otherwise of any type with
    equality. */
module Validation {
  import opened Outcomes

  /** A JSON object's fields; None stands for a `null` value. */
  type Fields<V> = map<string, Option<V>>

  /** The expected values: each section is an object, or None when it is not. */
  type Expected<V> = map<string, Option<Fields<V>>>

  /** `d.get(key)`: None both for an absent key and for a `null` value. */
  function Get<V>(d: Fields<V>, key: string): (r: Option<V>)
    ensures r.Some? <==> key in d && d[key].Some?
    ensures r.Some? ==> d[key] == Some(r.value)
  {
    if key in d then d[key] else None
  }

  /** `expected_values.get(documentType, {})` followed by `.get`: an absent
      section reads as `{}`, and a section that is not an object raises
      AttributeError. */
  function Section<V>(expectedValues: Expected<V>, documentType: string): (r: Result<Fields<V>>)
    ensures r.Failure? <==> documentType in expectedValues && expectedValues[documentType].None?
    ensures r.Failure? ==> r.error == AttributeError("get")
    ensures r.Success? ==> r.value == if documentType in expectedValues then expectedValues[documentType].value else map[]
  {
    if documentType !in expectedValues then Success(map[])
    else match expectedValues[documentType]
      case None => Failure(AttributeError("get"))
      case Some(fields) => Success(fields)
  }

  /** One reported difference; a missing or `null` value is None, as `.get`
      gives. */
  datatype FieldDiscrepancy<V> = FieldDiscrepancy(field: string, expected: Option<V>, found: Option<V>)

  datatype ValidationResult<V> = ValidationResult(success: bool, discrepancies: seq<FieldDiscrepancy<V>>)

  /** Compare one field with its expectation: one discrepancy exactly when the
      two lookups differ, and success exactly when there is none. */
  function CompareField<V(==)>(field: string, expected: Option<V>, found: Option<V>): (r: ValidationResult<V>)
    ensures r.success <==> r.discrepancies == []
    ensures |r.discrepancies| <= 1
    ensures r.discrepancies != [] <==> found != expected
    ensures forall d :: d in r.discrepancies ==> d.field == field && d.expected == expected && d.found == found
  {
    var discrepancies := if found != expected then [FieldDiscrepancy(field, expected, found)] else [];
    ValidationResult(discrepancies == [], discrepancies)
  }

  /** `validate_salary_slip`: the extracted `net_salary` against the expected
      `expected_net_salary` of the salary-slip section. */
  function ValidateSalarySlip<V(==)>(extractedData: Fields<V>, expectedValues: Expected<V>)
    : Result<ValidationResult<V>>
  {
    var netSalary := Get(extractedData, "net_salary");
    var expected :- Section(expectedValues, "salary_slip");
    Success(CompareField("net_salary", Get(expected, "expected_net_salary"), netSalary))
  }

  /** `validate_check`: the extracted `amount` against the expected
      `expected_amount` of the check section. */
  function ValidateCheck<V(==)>(extractedData: Fields<V>, expectedValues: Expected<V>)
    : Result<ValidationResult<V>>
  {
    var checkAmount := Get(extractedData, "amount");
    var expected :- Section(expectedValues, "check");
    Success(CompareField("amount", Get(expected, "expected_amount"), checkAmount))
  }

  /** `validate_bank_statement` as written: the opening-balance comparison it
      makes first reads both values with `.get`, so it raises only when the
      bank-statement section is not an object, and the discrepancy it may
      record is never returned, because the function then subscripts
      `extracted_data["transactions"]`, which raises KeyError when the key is
      absent, and otherwise calls the two-parameter balance validator with one
      argument, which raises TypeError. It never returns a result. */
  function ValidateBankStatement<V(==)>(extractedData: Fields<V>, expectedValues: Expected<V>)
    : Result<ValidationResult<V>>
  {
    var expected :- Section(expectedValues, "bank_statement");
    if "transactions" !in extractedData then Failure(KeyError("transactions"))
    else Failure(TypeError("perform_balance_validation() missing 1 required positional argument: 'opening_balance'"))
  }

  /** `validate_document`: dispatch on the document type. */
  function ValidateDocument<V(==)>(documentType: string, extractedData: Fields<V>, expectedValues: Expected<V>)
    : Result<ValidationResult<V>>
  {
    if documentType == "bank_statement" then ValidateBankStatement(extractedData, expectedValues)
    else if documentType == "salary_slip" then ValidateSalarySlip(extractedData, expectedValues)
    else if documentType == "check" then ValidateCheck(extractedData, expectedValues)
    else Success(ValidationResult(true, []))
  }

  /** The section of a known type is present but is not an object. */
  predicate NotObject<V>(expectedValues: Expected<V>, documentType: string)
  {
    documentType in expectedValues && expectedValues[documentType].None?
  }

  /** Whatever validator runs, `success` means "no discrepancies"; any type
      other than the three known ones succeeds with none; a known type whose
      section is not an object raises AttributeError; otherwise a bank
      statement always raises, with KeyError exactly when there are no
      transactions, and the other two types return a result. */
  lemma ValidateDocumentSpec<V>(documentType: string, extractedData: Fields<V>, expectedValues: Expected<V>)
    ensures var r := ValidateDocument(documentType, extractedData, expectedValues);
      && (r.Success? ==> (r.value.success <==> r.value.discrepancies == []))
      && (r.Failure? <==>
            (documentType == "bank_statement"
             || (documentType in {"salary_slip", "check"} && NotObject(expectedValues, documentType))))
      && (documentType in {"bank_statement", "salary_slip", "check"} && NotObject(expectedValues, documentType) ==>
            r == Failure(AttributeError("get")))
      && (documentType == "bank_statement" && !NotObject(expectedValues, documentType) ==>
            && (r.error == KeyError("transactions") <==> "transactions" !in extractedData)
            && ("transactions" in extractedData ==> r.error.TypeError?))
      && (documentType !in {"bank_statement", "salary_slip", "check"} ==> r == Success(ValidationResult(true, [])))
  {
  }

  /** A field is missing when its key is absent or its value is `null`. */
  predicate Missing<V>(d: Fields<V>, key: string)
  {
    key !in d || d[key].None?
  }

  /** The fields of a section that is an object, and `{}` otherwise. */
  function SectionFields<V>(expectedValues: Expected<V>, documentType: string): Fields<V>
  {
    if documentType in expectedValues && expectedValues[documentType].Some? then expectedValues[documentType].value
    else map[]
  }

  /** A salary slip raises AttributeError exactly when its section is not an
      object; otherwise it has at most one discrepancy, present exactly when
      the extracted and expected net salaries differ: a value missing or
      `null` on both sides is no discrepancy, and a present value matches only
      an equal present value. */
  lemma SalarySlipSpec<V>(extractedData: Fields<V>, expectedValues: Expected<V>)
    ensures var r := ValidateSalarySlip(extractedData, expectedValues);
      var expected := SectionFields(expectedValues, "salary_slip");
      && (r.Failure? <==> NotObject(expectedValues, "salary_slip"))
      && (r.Failure? ==> r.error == AttributeError("get"))
      && (r.Success? ==>
            && |r.value.discrepancies| <= 1
            && (r.value.success <==> r.value.discrepancies == [])
            && (r.value.discrepancies == [] <==>
                  || (Missing(extractedData, "net_salary") && Missing(expected, "expected_net_salary"))
                  || (!Missing(extractedData, "net_salary") && !Missing(expected, "expected_net_salary")
                      && extractedData["net_salary"] == expected["expected_net_salary"])))
  {
  }

  /** A check raises AttributeError exactly when its section is not an object;
      otherwise it has at most one discrepancy, present exactly when the
      extracted and expected amounts differ: a value missing or `null` on both
      sides is no discrepancy, and a present value matches only an equal
      present value. */
  lemma CheckSpec<V>(extractedData: Fields<V>, expectedValues: Expected<V>)
    ensures var r := ValidateCheck(extractedData, expectedValues);
      var expected := SectionFields(expectedValues, "check");
      && (r.Failure? <==> NotObject(expectedValues, "check"))
      && (r.Failure? ==> r.error == AttributeError("get"))
      && (r.Success? ==>
            && |r.value.discrepancies| <= 1
            && (r.value.success <==> r.value.discrepancies == [])
            && (r.value.discrepancies == [] <==>
                  || (Missing(extractedData, "amount") && Missing(expected, "expected_amount"))
                  || (!Missing(extractedData, "amount") && !Missing(expected, "expected_amount")
                      && extractedData["amount"] == expected["expected_amount"])))
  {
  }

  /** An expected `null` net salary matches a salary slip with no net salary:
      `.get` gives None on both sides. */
  lemma NullMatchesAbsent()
    ensures ValidateSalarySlip<int>(map[], map["salary_slip" := Some(map["expected_net_salary" := None])])
      == Success(ValidationResult(true, []))
  {
  }

  /** A `null` check section raises AttributeError on `.get`. */
  lemma NullSectionRaises(extractedData: Fields<int>)
    ensures ValidateCheck(extractedData, map["check" := None]) == Failure(AttributeError("get"))
  {
  }
}
