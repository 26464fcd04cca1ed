/** The label-then-value patterns of the field extractors, modelled by hand:
    `re.search(label + separator + "(" + class + "+)", text)` finds the first
    position where the label matches, the separator can be matched, and at
    least one value character follows; the capture is the longest run of value
    characters there. When the separator and the value class share characters
    (`[:\s]*` followed by `[\w\s]+`), the engine's backtracking gives the
    separator as many characters as still leave a value character after it. */
module LabelScan {
  import opened Text
  import opened Outcomes

  /** The character class of a capture group. */
  datatype ValueClass =
    | WordChars       // [\w\d]
    | AmountChars     // [\d,\.]
    | DateChars       // [\w\d/]
    | WordsAndSpaces  // [\w\s]

  predicate InClass(c: char, k: ValueClass)
  {
    match k
    case WordChars => IsWordChar(c)
    case AmountChars => IsDigit(c) || c == ',' || c == '.'
    case DateChars => IsWordChar(c) || c == '/'
    case WordsAndSpaces => IsWordChar(c) || IsSpace(c)
  }

  /** The separator between label and value. */
  datatype Separator =
    | ColonsOrSpaces  // [:\s]*
    | OptionalColon   // :?\s*

  /** One field pattern: label, separator, value class, and whether the search
      ignores case. */
  datatype Rule = Rule(labelText: string, sep: Separator, value: ValueClass, ignoreCase: bool)

  predicate CharMatch(a: char, b: char, ignoreCase: bool)
  {
    a == b || (ignoreCase && LowerChar(a) == LowerChar(b))
  }

  predicate LabelAt(text: string, lbl: string, i: nat, ignoreCase: bool)
  {
    i + |lbl| <= |text| && forall j :: 0 <= j < |lbl| ==> CharMatch(text[i + j], lbl[j], ignoreCase)
  }

  predicate IsSepChar(c: char)
  {
    c == ':' || IsSpace(c)
  }

  /** The separator can match exactly the text between p and q. */
  predicate SepMatches(sep: Separator, text: string, p: nat, q: nat)
    requires p <= q <= |text|
  {
    match sep
    case ColonsOrSpaces => forall k :: p <= k < q ==> IsSepChar(text[k])
    case OptionalColon =>
      || (forall k :: p <= k < q ==> IsSpace(text[k]))
      || (p < q && text[p] == ':' && forall k :: p < k < q ==> IsSpace(text[k]))
  }

  /** Length of the longest run from p of separator characters (colons
      included or not). */
  function RunLen(text: string, p: nat, colons: bool): (n: nat)
    requires p <= |text|
    ensures p + n <= |text|
    ensures forall k :: p <= k < p + n ==> (if colons then IsSepChar(text[k]) else IsSpace(text[k]))
    ensures p + n == |text| || !(if colons then IsSepChar(text[p + n]) else IsSpace(text[p + n]))
    decreases |text| - p
  {
    if p < |text| && (if colons then IsSepChar(text[p]) else IsSpace(text[p])) then 1 + RunLen(text, p + 1, colons)
    else 0
  }

  /** The longest separator match from p; every shorter end also matches. */
  function SepEnd(sep: Separator, text: string, p: nat): (q: nat)
    requires p <= |text|
    ensures p <= q <= |text|
    ensures forall q' :: p <= q' <= |text| ==> (SepMatches(sep, text, p, q') <==> q' <= q)
  {
    match sep
    case ColonsOrSpaces =>
      p + RunLen(text, p, true)
    case OptionalColon =>
      if p < |text| && text[p] == ':' then
        var q := p + 1 + RunLen(text, p + 1, false);
        assert forall q' :: q < q' <= |text| ==> !SepMatches(sep, text, p, q') by {
          forall q' | q < q' <= |text| ensures !SepMatches(sep, text, p, q') {
            assert !IsSpace(text[p]);
            assert !IsSpace(text[q]);
          }
        }
        q
      else
        p + RunLen(text, p, false)
  }

  /** The greatest position in [lo, hi] holding a value character: the
      backtracking order of a greedy separator. */
  function LastValueStart(text: string, k: ValueClass, lo: nat, hi: nat): (r: Option<nat>)
    requires lo <= hi <= |text|
    ensures r.Some? ==> lo <= r.value <= hi && r.value < |text| && InClass(text[r.value], k)
    ensures r.Some? ==> forall q :: r.value < q <= hi && q < |text| ==> !InClass(text[q], k)
    ensures r.None? ==> forall q :: lo <= q <= hi && q < |text| ==> !InClass(text[q], k)
    decreases hi - lo
  {
    if hi < |text| && InClass(text[hi], k) then Some(hi)
    else if hi == lo then None
    else LastValueStart(text, k, lo, hi - 1)
  }

  /** End of the longest run of value characters from q. */
  function ValueEnd(text: string, q: nat, k: ValueClass): (e: nat)
    requires q <= |text|
    ensures q <= e <= |text|
    ensures forall j :: q <= j < e ==> InClass(text[j], k)
    ensures e == |text| || !InClass(text[e], k)
    decreases |text| - q
  {
    if q < |text| && InClass(text[q], k) then ValueEnd(text, q + 1, k) else q
  }

  /** Where a capture lies in the text. */
  datatype Span = Span(start: nat, end: nat)

  /** The pattern matches at i with its value starting at q: the label stands
      at i, the separator covers the text up to q, and a value character
      stands at q. */
  ghost predicate Matches(text: string, rule: Rule, i: nat, q: nat)
  {
    && LabelAt(text, rule.labelText, i, rule.ignoreCase)
    && i + |rule.labelText| <= q < |text|
    && SepMatches(rule.sep, text, i + |rule.labelText|, q)
    && InClass(text[q], rule.value)
  }

  /** The capture when the engine tries position i. */
  function MatchAt(text: string, rule: Rule, i: nat): (r: Option<Span>)
    ensures r.Some? ==> Matches(text, rule, i, r.value.start)
    ensures r.Some? ==> forall q :: r.value.start < q < |text| ==> !Matches(text, rule, i, q)
    ensures r.Some? ==> r.value.start < r.value.end <= |text|
    ensures r.Some? ==> forall j :: r.value.start <= j < r.value.end ==> InClass(text[j], rule.value)
    ensures r.Some? ==> r.value.end == |text| || !InClass(text[r.value.end], rule.value)
    ensures r.None? ==> forall q :: !Matches(text, rule, i, q)
  {
    if !LabelAt(text, rule.labelText, i, rule.ignoreCase) then None
    else
      var p := i + |rule.labelText|;
      match LastValueStart(text, rule.value, p, SepEnd(rule.sep, text, p))
      case None => None
      case Some(q) => Some(Span(q, ValueEnd(text, q, rule.value)))
  }

  /** The first position in [from, last] at which `attempt` succeeds, with
      what it gave there. */
  function FirstSuccess<T>(attempt: nat -> Option<T>, from: nat, last: nat): (r: Option<(nat, T)>)
    ensures r.Some? ==> from <= r.value.0 <= last && attempt(r.value.0) == Some(r.value.1)
    ensures r.Some? ==> forall j :: from <= j < r.value.0 ==> attempt(j).None?
    ensures r.None? ==> forall j :: from <= j <= last ==> attempt(j).None?
    decreases last + 1 - from
  {
    if from > last then None
    else
      match attempt(from)
      case Some(v) => Some((from, v))
      case None => FirstSuccess(attempt, from + 1, last)
  }

  /** The engine's attempt at each position of the text. */
  function Attempt(text: string, rule: Rule): nat -> Option<Span>
  {
    (i: nat) => MatchAt(text, rule, i)
  }

  /** `re.search(pattern, text)`: the first position whose attempt succeeds. */
  function Search(text: string, rule: Rule): Option<(nat, Span)>
  {
    FirstSuccess(Attempt(text, rule), 0, |text|)
  }

  /** `match.group(1)` of `re.search(pattern, text)`, or None when there is no match. */
  function FieldValue(text: string, rule: Rule): Option<string>
  {
    match Search(text, rule)
    case None => None
    case Some((_, s)) => Some(text[s.start..s.end])
  }

  /** A field is found exactly when its pattern can match somewhere in the
      text; its value is then a non-empty run of value characters of the text,
      taken at the leftmost label that can be followed by a value. */
  lemma FieldValueSpec(text: string, rule: Rule)
    ensures FieldValue(text, rule).Some? <==> exists i, q :: Matches(text, rule, i, q)
    ensures FieldValue(text, rule).Some? ==>
      exists i, s :: MatchAt(text, rule, i) == Some(s) && FieldValue(text, rule).value == text[s.start..s.end]
        && (forall j, q :: j < i ==> !Matches(text, rule, j, q))
  {
    var attempt := Attempt(text, rule);
    match Search(text, rule)
    case None =>
      forall i: nat, q: nat ensures !Matches(text, rule, i, q) {
        if i <= |text| {
          assert attempt(i).None?;
        }
      }
    case Some((i, s)) =>
      assert attempt(i) == Some(s);
      assert Matches(text, rule, i, s.start);
      forall j: nat, q: nat | j < i ensures !Matches(text, rule, j, q) {
        assert attempt(j).None?;
      }
  }

  /** A pattern table: field names with their patterns, in dictionary order. */
  type Table = seq<(string, Rule)>

  /** The field names are distinct, as the keys of a dictionary are. */
  predicate DistinctFields(table: Table)
  {
    forall a, b :: 0 <= a < b < |table| ==> table[a].0 != table[b].0
  }

  /** The dictionary a field loop builds from a table of (name, pattern)
      entries: each name whose pattern is found, mapped to what `find` gives,
      later entries written after earlier ones. */
  function Collect<P, V>(entries: seq<(string, P)>, find: P -> Option<V>): map<string, V>
  {
    if entries == [] then map[]
    else
      var m := Collect(entries[..|entries| - 1], find);
      var (field, pattern) := entries[|entries| - 1];
      match find(pattern)
      case None => m
      case Some(v) => m[field := v]
  }

  /** With distinct names, every key comes from an entry, and an entry's name
      is present exactly when its own pattern is found, with what was found. */
  lemma {:induction false} CollectFields<P, V>(entries: seq<(string, P)>, find: P -> Option<V>)
    requires forall a, b :: 0 <= a < b < |entries| ==> entries[a].0 != entries[b].0
    ensures forall f :: f in Collect(entries, find) ==> exists k :: 0 <= k < |entries| && entries[k].0 == f
    ensures forall k :: 0 <= k < |entries| ==> (entries[k].0 in Collect(entries, find) <==> find(entries[k].1).Some?)
    ensures forall k :: 0 <= k < |entries| && entries[k].0 in Collect(entries, find) ==>
      Collect(entries, find)[entries[k].0] == find(entries[k].1).value
  {
    if entries != [] {
      var init := entries[..|entries| - 1];
      forall a, b | 0 <= a < b < |init| ensures init[a].0 != init[b].0 {
        assert init[a] == entries[a] && init[b] == entries[b];
      }
      CollectFields(init, find);
      forall k | 0 <= k < |entries| - 1 ensures entries[k] == init[k] && entries[k].0 != entries[|entries| - 1].0 { }
    }
  }

  /** One more entry adds its own name when its pattern is found. */
  lemma CollectSnoc<P, V>(entries: seq<(string, P)>, entry: (string, P), find: P -> Option<V>)
    ensures Collect(entries + [entry], find) ==
      if find(entry.1).Some? then Collect(entries, find)[entry.0 := find(entry.1).value] else Collect(entries, find)
  {
    assert (entries + [entry])[..|entries|] == entries;
  }

  /** The search of one pattern in a fixed text. */
  function Finder(text: string): Rule -> Option<string>
  {
    rule => FieldValue(text, rule)
  }

  /** The dictionary the field loop builds: each field whose pattern matches,
      mapped to its capture. */
  function ScanSpec(text: string, table: Table): map<string, string>
  {
    Collect(table, Finder(text))
  }

  /** Every result key is a field of the table; a field is present exactly
      when its own pattern matches, and then holds that pattern's capture, so
      a missing field never affects the others. */
  lemma ScanSpecFields(text: string, table: Table)
    requires DistinctFields(table)
    ensures forall f :: f in ScanSpec(text, table) ==> exists k :: 0 <= k < |table| && table[k].0 == f
    ensures forall k :: 0 <= k < |table| ==>
      (table[k].0 in ScanSpec(text, table) <==> FieldValue(text, table[k].1).Some?)
    ensures forall k :: 0 <= k < |table| && table[k].0 in ScanSpec(text, table) ==>
      ScanSpec(text, table)[table[k].0] == FieldValue(text, table[k].1).value
  {
    CollectFields(table, Finder(text));
  }

  /** The field loop: search each pattern and record the capture of those that match. */
  method ScanFields(text: string, table: Table) returns (extracted: map<string, string>)
    ensures extracted == ScanSpec(text, table)
  {
    extracted := map[];
    for i := 0 to |table|
      invariant extracted == ScanSpec(text, table[..i])
    {
      assert table[..i + 1] == table[..i] + [table[i]];
      CollectSnoc(table[..i], table[i], Finder(text));
      var (field, rule) := table[i];
      var found := Search(text, rule);
      if found.Some? {
        var span := found.value.1;
        extracted := extracted[field := text[span.start..span.end]];
      }
    }
    assert table[..|table|] == table;
  }
}
