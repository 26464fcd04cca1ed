/** Character classes, ASCII case folding, and the Python string operations
    the pipeline uses: `str.split()` with no argument, `" ".join(...)`,
    `str.strip()`, `str.lower()` and `replace(",", "")`. */
module Text {

  /** `str.isspace()`: the characters `str.split()` splits on and the regular
      expression class `\s` matches. */
  predicate IsSpace(c: char)
  {
    || c == ' ' || ('\t' <= c <= '\r') || ('\U{1c}' <= c <= '\U{1f}')
    || c == '\U{85}' || c == '\U{a0}' || c == '\U{1680}'
    || ('\U{2000}' <= c <= '\U{200a}') || c == '\U{2028}' || c == '\U{2029}'
    || c == '\U{202f}' || c == '\U{205f}' || c == '\U{3000}'
  }

  /** The regular expression class `\d`, restricted to ASCII digits. */
  predicate IsDigit(c: char)
  {
    '0' <= c <= '9'
  }

  /** The regular expression class `\w`, restricted to ASCII. */
  predicate IsWordChar(c: char)
  {
    ('a' <= c <= 'z') || ('A' <= c <= 'Z') || IsDigit(c) || c == '_'
  }

  function LowerChar(c: char): char
  {
    if 'A' <= c <= 'Z' then (c as int + 32) as char else c
  }

  /** `str.lower()` on ASCII letters. */
  function Lower(s: string): string
  {
    seq(|s|, k requires 0 <= k < |s| => LowerChar(s[k]))
  }

  predicate HasNoUpper(s: string)
  {
    forall k :: 0 <= k < |s| ==> !('A' <= s[k] <= 'Z')
  }

  /** A token as `str.split()` produces it: non-empty and free of whitespace. */
  predicate IsToken(t: string)
  {
    |t| > 0 && forall k :: 0 <= k < |t| ==> !IsSpace(t[k])
  }

  /** Length of the longest whitespace-free prefix of `s`. */
  function WordLen(s: string): (n: nat)
    ensures n <= |s|
    ensures forall k :: 0 <= k < n ==> !IsSpace(s[k])
    ensures n == |s| || IsSpace(s[n])
  {
    if s == [] || IsSpace(s[0]) then 0 else 1 + WordLen(s[1..])
  }

  /** `s.split()`: the maximal whitespace-free runs of `s`, in order. */
  function Split(s: string): (r: seq<string>)
    ensures forall k :: 0 <= k < |r| ==> IsToken(r[k])
    decreases |s|
  {
    if s == [] then []
    else if IsSpace(s[0]) then Split(s[1..])
    else
      var n := WordLen(s);
      [s[..n]] + Split(s[n..])
  }

  /** A text splits into no words exactly when it is all whitespace. */
  lemma {:induction false} SplitBlank(s: string)
    ensures Split(s) == [] <==> forall k :: 0 <= k < |s| ==> IsSpace(s[k])
    decreases |s|
  {
    if s != [] && IsSpace(s[0]) {
      SplitBlank(s[1..]);
      assert forall k :: 1 <= k < |s| ==> s[k] == s[1..][k - 1];
    }
  }

  /** A word ends where whitespace starts: text that begins with whitespace
      does not lengthen the first word. */
  lemma {:induction false} WordLenAppend(a: string, rest: string)
    requires rest == [] || IsSpace(rest[0])
    ensures WordLen(a + rest) == WordLen(a)
  {
    if a == [] {
      assert a + rest == rest;
    } else {
      assert (a + rest)[0] == a[0];
      assert (a + rest)[1..] == a[1..] + rest;
      WordLenAppend(a[1..], rest);
    }
  }

  /** A whitespace character separates: the words of `a`, a whitespace
      character and `b` are the words of `a` followed by those of `b`,
      however many whitespace characters surround it. */
  lemma {:induction false} SplitAtSpace(a: string, c: char, b: string)
    requires IsSpace(c)
    ensures Split(a + [c] + b) == Split(a) + Split(b)
    decreases |a|
  {
    var s := a + [c] + b;
    if a == [] {
      assert s[1..] == b;
    } else if IsSpace(a[0]) {
      assert s[0] == a[0];
      assert s[1..] == a[1..] + [c] + b;
      SplitAtSpace(a[1..], c, b);
    } else {
      assert s[0] == a[0];
      WordLenAppend(a, [c] + b);
      assert s == a + ([c] + b);
      var n := WordLen(a);
      assert s[..n] == a[..n];
      assert s[n..] == a[n..] + [c] + b;
      SplitAtSpace(a[n..], c, b);
    }
  }

  /** A single token splits into itself; with SplitAtSpace and SplitBlank
      this determines `Split` on every text. */
  lemma TokenSplit(t: string)
    requires IsToken(t)
    ensures Split(t) == [t]
  {
    assert t[..|t|] == t && t[|t|..] == [];
  }

  /** `" ".join(ts)`. */
  function Join(ts: seq<string>): string
  {
    if |ts| == 0 then ""
    else if |ts| == 1 then ts[0]
    else ts[0] + " " + Join(ts[1..])
  }

  lemma {:induction false} WordLenOfToken(t: string, rest: string)
    requires IsToken(t)
    requires rest == [] || IsSpace(rest[0])
    ensures WordLen(t + rest) == |t|
  {
    if |t| > 1 {
      assert (t + rest)[1..] == t[1..] + rest;
      WordLenOfToken(t[1..], rest);
    } else {
      assert (t + rest)[1..] == rest;
    }
  }

  /** Joining tokens with single spaces and splitting again gives the tokens back. */
  lemma {:induction false} SplitJoin(ts: seq<string>)
    requires forall k :: 0 <= k < |ts| ==> IsToken(ts[k])
    ensures Split(Join(ts)) == ts
  {
    if |ts| == 1 {
      var t := ts[0];
      WordLenOfToken(t, "");
      assert t + "" == t;
      assert t[|t|..] == "";
    } else if |ts| > 1 {
      var t, rest := ts[0], " " + Join(ts[1..]);
      assert Join(ts) == t + rest;
      WordLenOfToken(t, rest);
      assert (t + rest)[..|t|] == t;
      assert (t + rest)[|t|..] == rest;
      assert rest[1..] == Join(ts[1..]);
      SplitJoin(ts[1..]);
    }
  }

  /** `s.replace(",", "")`: no comma is left, and a text without commas is
      returned unchanged. */
  function StripCommas(s: string): (r: string)
    ensures forall k :: 0 <= k < |r| ==> r[k] != ','
    ensures |r| <= |s|
    ensures (forall k :: 0 <= k < |s| ==> s[k] != ',') ==> r == s
  {
    if s == [] then []
    else if s[0] == ',' then StripCommas(s[1..])
    else [s[0]] + StripCommas(s[1..])
  }

  /** A single character is dropped exactly when it is a comma. */
  lemma StripCommasChar(c: char)
    ensures StripCommas([c]) == if c == ',' then [] else [c]
  {
  }

  /** Comma removal works piece by piece: with StripCommasChar, the result is
      the input with its commas removed and every other character kept, in
      order. */
  lemma {:induction false} StripCommasAppend(a: string, b: string)
    ensures StripCommas(a + b) == StripCommas(a) + StripCommas(b)
  {
    if a != [] {
      assert (a + b)[1..] == a[1..] + b;
      StripCommasAppend(a[1..], b);
    } else {
      assert a + b == b;
    }
  }

  /** Length of the longest all-whitespace prefix of `s`. */
  function LeadLen(s: string): (n: nat)
    ensures n <= |s|
    ensures forall k :: 0 <= k < n ==> IsSpace(s[k])
    ensures n == |s| || !IsSpace(s[n])
  {
    if s == [] || !IsSpace(s[0]) then 0 else 1 + LeadLen(s[1..])
  }

  /** Length of the longest all-whitespace suffix of `s`. */
  function TrailLen(s: string): (n: nat)
    ensures n <= |s|
    ensures forall k :: |s| - n <= k < |s| ==> IsSpace(s[k])
    ensures n == |s| || !IsSpace(s[|s| - 1 - n])
  {
    if s == [] || !IsSpace(s[|s| - 1]) then 0 else 1 + TrailLen(s[..|s| - 1])
  }

  /** `s.strip()`: `s` is some leading whitespace, then the result, then some
      trailing whitespace, and the result neither starts nor ends with
      whitespace; together these determine the result. */
  function Strip(s: string): (r: string)
    ensures r == [] || (!IsSpace(r[0]) && !IsSpace(r[|r| - 1]))
    ensures var a := LeadLen(s);
      && a + |r| <= |s|
      && r == s[a..a + |r|]
      && (forall k :: 0 <= k < a ==> IsSpace(s[k]))
      && (forall k :: a + |r| <= k < |s| ==> IsSpace(s[k]))
  {
    var a := LeadLen(s);
    if a == |s| then [] else s[a..|s| - TrailLen(s)]
  }
}
