/** The string operations the pages rely on, with the JavaScript meaning they
    have in the source: `toLowerCase`, `includes`, `trim`, `split`, `join`,
    `String(n)` / `Number(s)` on whole numbers, `padStart` and the `<` / `<=`
    comparison of strings. */
module Strings {
  import opened Wrappers

  // ---------------------------------------------------------------------
  // Characters

  predicate IsDigit(c: char) { '0' <= c <= '9' }

  function DigitValue(c: char): nat
    requires IsDigit(c)
  {
    c as int - '0' as int
  }

  function DigitChar(d: nat): (c: char)
    requires d < 10
    ensures IsDigit(c) && DigitValue(c) == d
  {
    ('0' as int + d) as char
  }

  predicate AllDigits(s: string) { forall i :: 0 <= i < |s| ==> IsDigit(s[i]) }

  /** The characters JavaScript's `trim` and the regular-expression class `\s`
      treat as white space (WhiteSpace and LineTerminator of ECMA-262). */
  predicate IsJsSpace(c: char)
  {
    c == '\t' || c == '\n' || c == '\U{B}' || c == '\U{C}' || c == '\r' || c == ' '
    || c == '\U{A0}' || c == '\U{1680}' || ('\U{2000}' <= c <= '\U{200A}')
    || c == '\U{2028}' || c == '\U{2029}' || c == '\U{202F}' || c == '\U{205F}'
    || c == '\U{3000}' || c == '\U{FEFF}'
  }

  /** `toLowerCase` on one character, for the ASCII letters. */
  function LowerChar(c: char): char
  {
    if 'A' <= c <= 'Z' then (c as int + 32) as char else c
  }

  // ---------------------------------------------------------------------
  // Case folding and substring search

  function Lower(s: string): (r: string)
    ensures |r| == |s|
    ensures forall i :: 0 <= i < |s| ==> r[i] == LowerChar(s[i])
  {
    seq(|s|, i requires 0 <= i < |s| => LowerChar(s[i]))
  }

  /** Lower-casing twice is lower-casing once, so a query that is already
      lower-case is searched for unchanged. */
  lemma LowerIdempotent(s: string)
    ensures Lower(Lower(s)) == Lower(s)
  {
    forall i | 0 <= i < |s|
      ensures Lower(Lower(s))[i] == Lower(s)[i]
    {
      var c := s[i];
      if 'A' <= c <= 'Z' {
        assert LowerChar(c) as int == c as int + 32;
      }
    }
  }

  predicate StartsWith(s: string, p: string)
  {
    |p| <= |s| && s[..|p|] == p
  }

  /** `s.includes(q)`: `q` occurs in `s` at some position. */
  predicate Includes(s: string, q: string)
    decreases |s|
  {
    StartsWith(s, q) || (s != [] && Includes(s[1..], q))
  }

  /** `q` occurs in `s` starting at index `i`. */
  predicate OccursAt(s: string, q: string, i: int)
  {
    0 <= i <= |s| - |q| && s[i..i + |q|] == q
  }

  lemma {:induction false} IncludesIff(s: string, q: string)
    ensures Includes(s, q) <==> exists i :: OccursAt(s, q, i)
    decreases |s|
  {
    if s != [] {
      IncludesIff(s[1..], q);
      if Includes(s[1..], q) {
        var j :| OccursAt(s[1..], q, j);
        assert s[j + 1..j + 1 + |q|] == s[1..][j..j + |q|];
        assert OccursAt(s, q, j + 1);
      }
      if i :| OccursAt(s, q, i) {
        if i > 0 {
          assert s[1..][i - 1..i - 1 + |q|] == s[i..i + |q|];
          assert OccursAt(s[1..], q, i - 1);
        } else {
          assert StartsWith(s, q);
        }
      }
    }
    if StartsWith(s, q) {
      assert OccursAt(s, q, 0);
    }
  }

  /** Every string includes the empty query. */
  lemma IncludesEmpty(s: string)
    ensures Includes(s, "")
  {
    assert StartsWith(s, "");
  }

  // ---------------------------------------------------------------------
  // trim

  /** `s.trimStart()`. */
  function TrimStart(s: string): string
  {
    if s != [] && IsJsSpace(s[0]) then TrimStart(s[1..]) else s
  }

  /** `s.trimEnd()`. */
  function TrimEnd(s: string): string
  {
    if s != [] && IsJsSpace(s[|s| - 1]) then TrimEnd(s[..|s| - 1]) else s
  }

  /** trimStart removes exactly the leading run of white space. */
  lemma {:induction false} TrimStartRemovesSpace(s: string)
    ensures |TrimStart(s)| <= |s| && TrimStart(s) == s[|s| - |TrimStart(s)|..]
    ensures AllJsSpace(s[..|s| - |TrimStart(s)|])
    ensures TrimStart(s) == [] || !IsJsSpace(TrimStart(s)[0])
  {
    if s != [] && IsJsSpace(s[0]) {
      var t := s[1..];
      TrimStartRemovesSpace(t);
      var k := |t| - |TrimStart(t)|;
      assert s[..k + 1] == [s[0]] + t[..k];
    }
  }

  /** trimEnd removes exactly the trailing run of white space. */
  lemma {:induction false} TrimEndRemovesSpace(s: string)
    ensures |TrimEnd(s)| <= |s| && TrimEnd(s) == s[..|TrimEnd(s)|]
    ensures AllJsSpace(s[|TrimEnd(s)|..])
    ensures TrimEnd(s) == [] || !IsJsSpace(TrimEnd(s)[|TrimEnd(s)| - 1])
  {
    if s != [] && IsJsSpace(s[|s| - 1]) {
      var t := s[..|s| - 1];
      TrimEndRemovesSpace(t);
      var k := |TrimEnd(t)|;
      assert t[..k] == s[..k];
      assert s[k..] == t[k..] + [s[|s| - 1]];
    }
  }

  predicate AllJsSpace(s: string) { forall i :: 0 <= i < |s| ==> IsJsSpace(s[i]) }

  /** `s.trim()`. */
  function Trim(s: string): (r: string)
  {
    TrimEnd(TrimStart(s))
  }

  lemma {:induction false} TrimIdempotent(s: string)
    ensures Trim(Trim(s)) == Trim(s)
  {
    var u := TrimStart(s);
    var t := TrimEnd(u);
    TrimStartRemovesSpace(s);
    TrimEndRemovesSpace(u);
    if t != [] {
      assert t[0] == u[0];
    }
    assert TrimStart(t) == t;
    assert TrimEnd(t) == t;
  }

  // ---------------------------------------------------------------------
  // split and join on one separator character

  /** The part of `s` before the first `c` (all of `s` when there is none). */
  function Before(s: string, c: char): (r: string)
    ensures StartsWith(s, r) && c !in r
    ensures |r| < |s| ==> s[|r|] == c
  {
    if s == [] || s[0] == c then [] else [s[0]] + Before(s[1..], c)
  }

  /** `s.split(c)` for a one-character separator. */
  function Split(s: string, c: char): (parts: seq<string>)
    ensures |parts| >= 1
    ensures forall i :: 0 <= i < |parts| ==> c !in parts[i]
    decreases |s|
  {
    var p := Before(s, c);
    if |p| == |s| then [s] else [p] + Split(s[|p| + 1..], c)
  }

  /** `parts.join(sep)`. */
  function Join(parts: seq<string>, sep: string): string
  {
    if parts == [] then ""
    else if |parts| == 1 then parts[0]
    else parts[0] + sep + Join(parts[1..], sep)
  }

  /** A character that is in neither the parts nor the separator is not in
      their join. */
  lemma {:induction false} JoinExcludes(parts: seq<string>, sep: string, c: char)
    requires c !in sep
    requires forall i :: 0 <= i < |parts| ==> c !in parts[i]
    ensures c !in Join(parts, sep)
  {
    if |parts| > 1 {
      JoinExcludes(parts[1..], sep, c);
    }
  }

  lemma {:induction false} BeforeConcat(p: string, c: char, t: string)
    requires c !in p
    ensures Before(p + [c] + t, c) == p
  {
    if p != [] {
      assert (p + [c] + t)[1..] == p[1..] + [c] + t;
      BeforeConcat(p[1..], c, t);
    }
  }

  /** Splitting what was joined on a separator the parts do not contain gives
      the parts back. */
  lemma {:induction false} SplitJoin(parts: seq<string>, c: char)
    requires |parts| >= 1
    requires forall i :: 0 <= i < |parts| ==> c !in parts[i]
    ensures Split(Join(parts, [c]), c) == parts
  {
    if |parts| == 1 {
      assert Before(parts[0], c) == parts[0];
    } else {
      var rest := Join(parts[1..], [c]);
      var s := parts[0] + [c] + rest;
      assert Join(parts, [c]) == s;
      BeforeConcat(parts[0], c, rest);
      assert s[|parts[0]| + 1..] == rest;
      SplitJoin(parts[1..], c);
      assert parts == [parts[0]] + parts[1..];
    }
  }

  // ---------------------------------------------------------------------
  // Reading back a CSV line whose fields may be quoted

  /** Length of the first field of `s` for a reader that splits at the
      commas outside double quotes; `quoted` says whether a quote is open. */
  function FieldEnd(s: string, quoted: bool): (n: nat)
    ensures n <= |s|
    ensures n < |s| ==> s[n] == ','
  {
    if s == [] then 0
    else if s[0] == ',' && !quoted then 0
    else 1 + FieldEnd(s[1..], if s[0] == '"' then !quoted else quoted)
  }

  /** The fields of a CSV line, split at the commas outside quotes; the
      quotes stay in the fields. */
  function SplitCsv(s: string): (fields: seq<string>)
    ensures |fields| >= 1
    decreases |s|
  {
    var n := FieldEnd(s, false);
    if n == |s| then [s] else [s[..n]] + SplitCsv(s[n + 1..])
  }

  /** A field such a reader gets back whole: plain text without comma or
      quote, or text without quotes inside a pair of quotes. */
  predicate CsvField(f: string)
  {
    || ('"' !in f && ',' !in f)
    || (|f| >= 2 && f[0] == '"' && f[|f| - 1] == '"' && '"' !in f[1..|f| - 1])
  }

  /** Text without quotes (and, outside quotes, without commas) is read
      through without ending the field. */
  lemma {:induction false} FieldEndSkips(c: string, t: string, quoted: bool)
    requires '"' !in c && (quoted || ',' !in c)
    ensures FieldEnd(c + t, quoted) == |c| + FieldEnd(t, quoted)
  {
    if c != [] {
      assert (c + t)[0] == c[0] && c[0] != '"';
      assert quoted || c[0] != ',';
      assert (c + t)[1..] == c[1..] + t;
      assert forall x :: x in c[1..] ==> x in c;
      FieldEndSkips(c[1..], t, quoted);
    } else {
      assert c + t == t;
    }
  }

  /** A field followed by a comma or by nothing is read exactly. */
  lemma FieldEndOf(f: string, t: string)
    requires CsvField(f)
    requires t == [] || t[0] == ','
    ensures FieldEnd(f + t, false) == |f|
  {
    if '"' !in f && ',' !in f {
      FieldEndSkips(f, t, false);
      assert FieldEnd(t, false) == 0;
    } else {
      QuotedFieldEnd(f[1..|f| - 1], t);
      assert f == "\"" + f[1..|f| - 1] + "\"";
    }
  }

  lemma QuotedFieldEnd(c: string, t: string)
    requires '"' !in c
    requires t == [] || t[0] == ','
    ensures FieldEnd("\"" + c + "\"" + t, false) == |c| + 2
  {
    var u := "\"" + t;
    var s := "\"" + c + "\"" + t;
    assert s == "\"" + (c + u);
    OpeningQuote(c + u, false);
    FieldEndSkips(c, u, true);
    OpeningQuote(t, true);
  }

  /** A quote at the front flips the quote state. */
  lemma OpeningQuote(rest: string, quoted: bool)
    ensures FieldEnd("\"" + rest, quoted) == 1 + FieldEnd(rest, !quoted)
  {
    assert ("\"" + rest)[1..] == rest;
  }

  /** Splitting a comma-joined line of such fields gives the fields back. */
  lemma {:induction false} SplitCsvJoin(parts: seq<string>)
    requires |parts| >= 1
    requires forall i :: 0 <= i < |parts| ==> CsvField(parts[i])
    ensures SplitCsv(Join(parts, ",")) == parts
  {
    if |parts| == 1 {
      FieldEndOf(parts[0], []);
      assert parts[0] + [] == parts[0];
    } else {
      var rest := Join(parts[1..], ",");
      var s := parts[0] + "," + rest;
      assert Join(parts, ",") == s;
      assert s == parts[0] + ("," + rest);
      FieldEndOf(parts[0], "," + rest);
      assert s[..|parts[0]|] == parts[0];
      assert s[|parts[0]| + 1..] == rest;
      SplitCsvJoin(parts[1..]);
      assert parts == [parts[0]] + parts[1..];
    }
  }
  /** Text written into the CSV as it is: no comma, quote or line break. */
  predicate PlainText(t: string) { ',' !in t && '"' !in t && '\n' !in t }

  /** Text written between quotes: commas are allowed, quotes and line
      breaks are not, since neither is escaped. */
  predicate QuotableText(t: string) { '"' !in t && '\n' !in t }

  /** Number text holds digits and a minus sign only. */
  lemma IntTextPlain(n: int)
    ensures PlainText(IntToString(n))
  {
    var d := NatToString(if n < 0 then -n else n);
    assert forall x :: x in d ==> IsDigit(x);
  }

  /** Quotes around quotable text make one CSV field. */
  lemma QuotedField(t: string)
    requires QuotableText(t)
    ensures CsvField("\"" + t + "\"") && '\n' !in "\"" + t + "\""
  {
    var f := "\"" + t + "\"";
    assert f[1..|f| - 1] == t;
  }

  /** Plain text is a CSV field on its own. */
  lemma PlainField(t: string)
    requires PlainText(t)
    ensures CsvField(t) && '\n' !in t
  {
  }


  // ---------------------------------------------------------------------
  // Whole numbers as decimal text

  /** `String(n)` for a non-negative whole number. */
  function NatToString(n: nat): (r: string)
    ensures |r| >= 1 && AllDigits(r)
  {
    if n < 10 then [DigitChar(n)] else NatToString(n / 10) + [DigitChar(n % 10)]
  }

  /** `String(n)` for a whole number. */
  function IntToString(n: int): string
  {
    if n < 0 then "-" + NatToString(-n) else NatToString(n)
  }

  /** The value of a string of decimal digits. */
  function DigitsValue(s: string): nat
    requires AllDigits(s)
  {
    if s == [] then 0 else DigitsValue(s[..|s| - 1]) * 10 + DigitValue(s[|s| - 1])
  }

  /** A whole number written as an optional '-' and one or more digits. */
  function ParseIntText(s: string): Option<int>
  {
    if |s| >= 2 && s[0] == '-' && AllDigits(s[1..]) then Some(-(DigitsValue(s[1..]) as int))
    else if |s| >= 1 && AllDigits(s) then Some(DigitsValue(s))
    else None
  }

  lemma {:induction false} NatRoundTrip(n: nat)
    ensures DigitsValue(NatToString(n)) == n
  {
    if n >= 10 {
      var s := NatToString(n);
      assert s[..|s| - 1] == NatToString(n / 10);
      NatRoundTrip(n / 10);
    }
  }

  /** Reading back the text `String(n)` gives `n`, for every whole number. */
  lemma IntRoundTrip(n: int)
    ensures ParseIntText(IntToString(n)) == Some(n)
  {
    var t := NatToString(if n < 0 then -n else n);
    NatRoundTrip(if n < 0 then -n else n);
    if n < 0 {
      assert IntToString(n) == "-" + t;
      ParseNegative(t);
    } else {
      assert IntToString(n) == t;
      ParseDigits(t);
    }
  }

  lemma ParseNegative(t: string)
    requires |t| >= 1 && AllDigits(t)
    ensures ParseIntText("-" + t) == Some(-(DigitsValue(t) as int))
  {
    assert ("-" + t)[1..] == t;
  }

  lemma ParseDigits(t: string)
    requires |t| >= 1 && AllDigits(t)
    ensures ParseIntText(t) == Some(DigitsValue(t))
  {
    assert IsDigit(t[0]);
  }

  /** `String(n).padStart(2, '0')` for a non-negative number. */
  function Pad2(n: nat): (r: string)
    ensures |r| >= 2 && AllDigits(r)
    ensures n < 100 ==> |r| == 2
  {
    var t := NatToString(n);
    assert n < 100 ==> |t| <= 2 by {
      if 10 <= n < 100 { assert |NatToString(n / 10)| == 1; }
    }
    if |t| >= 2 then t else "0" + t
  }

  lemma {:induction false} Pad2Value(n: nat)
    ensures DigitsValue(Pad2(n)) == n
  {
    NatRoundTrip(n);
    var t := NatToString(n);
    if |t| < 2 {
      assert Pad2(n)[..1] == "0";
    }
  }

  // ---------------------------------------------------------------------
  // String order: JavaScript's `a < b` compares code units left to right.

  predicate LexLess(a: string, b: string)
    decreases |a|
  {
    if a == [] then b != []
    else if b == [] then false
    else if a[0] != b[0] then a[0] < b[0]
    else LexLess(a[1..], b[1..])
  }

  /** `a <= b`, which JavaScript defines as `!(b < a)`. */
  predicate LexLeq(a: string, b: string) { !LexLess(b, a) }

  lemma {:induction false} LexTrichotomy(a: string, b: string)
    ensures LexLess(a, b) || a == b || LexLess(b, a)
    ensures !(LexLess(a, b) && LexLess(b, a))
    ensures !LexLess(a, a)
    decreases |a|
  {
    if a != [] && b != [] {
      LexTrichotomy(a[1..], b[1..]);
      if a[0] == b[0] && a[1..] == b[1..] {
        assert a == [a[0]] + a[1..] && b == [b[0]] + b[1..];
      }
    } else if a != [] {
      LexTrichotomy(a[1..], a[1..]);
    }
  }

  lemma {:induction false} LexLessTrans(a: string, b: string, c: string)
    requires LexLess(a, b) && LexLess(b, c)
    ensures LexLess(a, c)
    decreases |a|
  {
    if a != [] && a[0] == b[0] && b[0] == c[0] {
      LexLessTrans(a[1..], b[1..], c[1..]);
    }
  }

  /** `<=` on strings is a total order. */
  lemma LexLeqOrder(a: string, b: string, c: string)
    ensures LexLeq(a, b) || LexLeq(b, a)
    ensures LexLeq(a, b) && LexLeq(b, a) ==> a == b
    ensures LexLeq(a, b) && LexLeq(b, c) ==> LexLeq(a, c)
    ensures LexLeq(a, b) && a != b ==> LexLess(a, b)
  {
    LexTrichotomy(a, b);
    LexTrichotomy(b, c);
    LexTrichotomy(a, c);
    if LexLeq(a, b) && LexLeq(b, c) && LexLess(c, a) {
      if a == b {
      } else {
        LexLessTrans(c, a, b);
      }
    }
  }
}
