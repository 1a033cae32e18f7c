/**
 * The pieces of JavaScript string semantics that the scrapers and formatters
 * rely on: the `\s` class and `trim`, ASCII `toLowerCase`, the regular
 * expression rewrites `replace(/[class]+/g, c)` and `replace(/[^class]/g, '')`,
 * `split`/`join` on one separator, `padEnd`, and decimal digit strings.
 */
module JsString {
  import opened Wrappers

  /** The characters matched by `\s` in a regular expression and removed by `String.prototype.trim`. */
  predicate IsSpace(c: char) {
    || c == ' ' || c == '\t' || c == '\n' || c == '\r' || c == '\U{B}' || c == '\U{C}'
    || c == '\U{A0}' || c == '\U{1680}' || ('\U{2000}' <= c <= '\U{200A}')
    || c == '\U{2028}' || c == '\U{2029}' || c == '\U{202F}' || c == '\U{205F}'
    || c == '\U{3000}' || c == '\U{FEFF}'
  }

  /** `\d`: only the ASCII digits. */
  predicate IsDigit(c: char) { '0' <= c <= '9' }

  predicate IsLowerLetter(c: char) { 'a' <= c <= 'z' }

  predicate IsUpperLetter(c: char) { 'A' <= c <= 'Z' }

  /** `[a-z0-9]` */
  predicate IsLowerAlnum(c: char) { IsLowerLetter(c) || IsDigit(c) }

  predicate AllDigits(s: string) { forall i :: 0 <= i < |s| ==> IsDigit(s[i]) }

  /** `toLowerCase` on one character; only the ASCII letters are folded. */
  function LowerChar(c: char): (d: char)
    ensures IsUpperLetter(c) ==> IsLowerLetter(d) && d as int == c as int + 32
    ensures !IsUpperLetter(c) ==> d == c
  {
    if IsUpperLetter(c) then (c as int + 32) as char else c
  }

  function Lower(s: string): (r: string)
    ensures |r| == |s|
    ensures forall i :: 0 <= i < |s| ==> r[i] == LowerChar(s[i])
  {
    if s == [] then [] else [LowerChar(s[0])] + Lower(s[1..])
  }

  /** `replace(/[^class]/g, '')`: keeps the characters satisfying `p`, in order. */
  function Filter(s: string, p: char -> bool): (r: string)
    ensures |r| <= |s|
  {
    if s == [] then [] else (if p(s[0]) then [s[0]] else []) + Filter(s[1..], p)
  }

  /** What a filter keeps satisfies it and comes from the input. */
  lemma {:induction false} FilterChars(s: string, p: char -> bool)
    ensures forall c :: c in Filter(s, p) ==> p(c) && c in s
  {
    if s != [] {
      FilterChars(s[1..], p);
    }
  }

  /** A filter that accepts every character keeps the whole string. */
  lemma {:induction false} FilterAll(s: string, p: char -> bool)
    requires forall i :: 0 <= i < |s| ==> p(s[i])
    ensures Filter(s, p) == s
  {
    if s != [] {
      FilterAll(s[1..], p);
    }
  }

  /** `replace(/[class]/g, c)` with a single-character class. */
  function MapChars(s: string, f: char -> char): (r: string)
    ensures |r| == |s|
    ensures forall i :: 0 <= i < |s| ==> r[i] == f(s[i])
  {
    if s == [] then [] else [f(s[0])] + MapChars(s[1..], f)
  }

  /** The longest suffix of `s` that does not start with a character satisfying `p`. */
  function DropWhile(s: string, p: char -> bool): (r: string)
    ensures |r| <= |s| && r == s[|s| - |r|..]
    ensures r == [] || !p(r[0])
  {
    if s != [] && p(s[0]) then DropWhile(s[1..], p) else s
  }

  /** What `DropWhile` drops satisfies `p`. */
  lemma {:induction false} DropWhileDropped(s: string, p: char -> bool)
    ensures forall i :: 0 <= i < |s| - |DropWhile(s, p)| ==> p(s[i])
  {
    if s != [] && p(s[0]) {
      DropWhileDropped(s[1..], p);
    }
  }

  function TrimStart(s: string): (r: string)
    ensures |r| <= |s| && r == s[|s| - |r|..]
    ensures r == [] || !IsSpace(r[0])
  {
    DropWhile(s, IsSpace)
  }

  function TrimEnd(s: string): (r: string)
    ensures |r| <= |s| && r == s[..|r|]
    ensures r == [] || !IsSpace(r[|r| - 1])
  {
    if s != [] && IsSpace(s[|s| - 1]) then TrimEnd(s[..|s| - 1]) else s
  }

  /** What `TrimEnd` drops is white space. */
  lemma {:induction false} TrimEndDropped(s: string)
    ensures forall i :: |TrimEnd(s)| <= i < |s| ==> IsSpace(s[i])
  {
    if s != [] && IsSpace(s[|s| - 1]) {
      TrimEndDropped(s[..|s| - 1]);
    }
  }

  /** `String.prototype.trim`. */
  function Trim(s: string): (r: string)
    ensures |r| <= |s|
    ensures r == [] || (!IsSpace(r[0]) && !IsSpace(r[|r| - 1]))
  {
    TrimEnd(TrimStart(s))
  }

  /** Trimming leaves nothing exactly when the string is all white space. */
  lemma TrimEmptyIff(s: string)
    ensures Trim(s) == [] <==> forall i :: 0 <= i < |s| ==> IsSpace(s[i])
  {
    var a := TrimStart(s);
    DropWhileDropped(s, IsSpace);
    TrimEndDropped(a);
    if a != [] {
      assert !IsSpace(a[0]);
      assert TrimEnd(a) != [];
      assert IsSpace(s[|s| - |a|]) == IsSpace(a[0]);
    }
  }

  /** Every character of the trimmed string comes from the input. */
  lemma TrimChars(s: string)
    ensures forall c :: c in Trim(s) ==> c in s
  {
    var a := TrimStart(s);
    var r := TrimEnd(a);
    forall c | c in r ensures c in s {
      var i :| 0 <= i < |r| && r[i] == c;
      assert r[i] == a[i] == s[|s| - |a| + i];
    }
  }

  /** A string with no white space at either end is its own trim. */
  lemma TrimUnchanged(s: string)
    requires s == [] || (!IsSpace(s[0]) && !IsSpace(s[|s| - 1]))
    ensures Trim(s) == s
  {
  }

  /** Trimming keeps a first character that is not white space. */
  lemma TrimKeepsFirst(s: string)
    requires s != [] && !IsSpace(s[0])
    ensures Trim(s) != [] && Trim(s)[0] == s[0]
  {
    assert TrimStart(s) == s;
    TrimEndDropped(s);
    assert !IsSpace(s[0]);
    assert TrimEnd(s) != [];
  }

  /** Trimming keeps a last character that is not white space. */
  lemma TrimKeepsLast(s: string)
    requires s != [] && !IsSpace(s[|s| - 1])
    ensures Trim(s) != [] && Trim(s)[|Trim(s)| - 1] == s[|s| - 1]
  {
    var a := TrimStart(s);
    DropWhileDropped(s, IsSpace);
    assert !IsSpace(s[|s| - 1]);
    assert a != [];
    assert a[|a| - 1] == s[|s| - 1];
    assert TrimEnd(a) == a;
  }

  /** Filtering keeps a last character that satisfies the filter. */
  lemma FilterKeepsLast(s: string, p: char -> bool)
    requires s != [] && p(s[|s| - 1])
    ensures Filter(s, p) != [] && Filter(s, p)[|Filter(s, p)| - 1] == s[|s| - 1]
  {
    var init := s[..|s| - 1];
    assert s == init + [s[|s| - 1]];
    FilterConcat(init, [s[|s| - 1]], p);
    assert Filter([s[|s| - 1]], p) == [s[|s| - 1]];
  }

  /** A string made of white space only. */
  predicate AllSpace(s: string) { forall i :: 0 <= i < |s| ==> IsSpace(s[i]) }

  /** A string none of whose characters satisfies `p`. */
  predicate NoneSatisfy(s: string, p: char -> bool) { forall i :: 0 <= i < |s| ==> !p(s[i]) }

  /** A string without two adjacent characters equal to `c`. */
  predicate NoDouble(s: string, c: char) { forall i :: 0 <= i < |s| - 1 ==> !(s[i] == c && s[i + 1] == c) }

  /**
   * `replace(/[class]+/g, rep)`: every maximal run of characters satisfying `p`
   * becomes one `rep`; the other characters are kept.
   */
  function ReplaceRuns(s: string, p: char -> bool, rep: char): (t: string)
    ensures |t| <= |s|
    ensures s != [] ==> t != [] && t[0] == (if p(s[0]) then rep else s[0])
    decreases |s|
  {
    if s == [] then []
    else if p(s[0]) then [rep] + ReplaceRuns(DropWhile(s, p), p, rep)
    else [s[0]] + ReplaceRuns(s[1..], p, rep)
  }

  /** Each output character is `rep` or an input character outside the class. */
  lemma {:induction false} ReplaceRunsChars(s: string, p: char -> bool, rep: char)
    ensures forall c :: c in ReplaceRuns(s, p, rep) ==> c == rep || (c in s && !p(c))
    decreases |s|
  {
    if s == [] {
    } else if p(s[0]) {
      var d := DropWhile(s, p);
      ReplaceRunsChars(d, p, rep);
      assert forall c :: c in d ==> c in s;
    } else {
      ReplaceRunsChars(s[1..], p, rep);
      assert forall c :: c in s[1..] ==> c in s;
    }
  }

  /** The last output character stands for the last input character. */
  lemma {:induction false} ReplaceRunsLast(s: string, p: char -> bool, rep: char)
    requires s != []
    ensures var t := ReplaceRuns(s, p, rep);
      t[|t| - 1] == if p(s[|s| - 1]) then rep else s[|s| - 1]
    decreases |s|
  {
    if p(s[0]) {
      var d := DropWhile(s, p);
      if d != [] {
        ReplaceRunsLast(d, p, rep);
        assert d[|d| - 1] == s[|s| - 1];
      } else {
        DropWhileDropped(s, p);
        assert p(s[|s| - 1]);
      }
    } else if |s| > 1 {
      ReplaceRunsLast(s[1..], p, rep);
    }
  }

  /** Without any character of the class, the rewrite changes nothing. */
  lemma {:induction false} ReplaceRunsIdentity(s: string, p: char -> bool, rep: char)
    requires NoneSatisfy(s, p)
    ensures ReplaceRuns(s, p, rep) == s
    decreases |s|
  {
    if s != [] {
      ReplaceRunsIdentity(s[1..], p, rep);
    }
  }

  /**
   * When `rep` is itself in the class, or cannot occur in the input, the output
   * never holds two adjacent `rep`s.
   */
  lemma {:induction false} ReplaceRunsNoDouble(s: string, p: char -> bool, rep: char)
    requires p(rep) || rep !in s
    ensures NoDouble(ReplaceRuns(s, p, rep), rep)
    decreases |s|
  {
    if s == [] {
    } else if p(s[0]) {
      var d := DropWhile(s, p);
      assert d != [] ==> d[0] in s && !p(d[0]);
      assert rep !in s ==> rep !in d;
      ReplaceRunsNoDouble(d, p, rep);
    } else {
      assert s[0] != rep;
      ReplaceRunsNoDouble(s[1..], p, rep);
    }
  }

  /**
   * A string whose class characters are all `rep` and never adjacent is a fixed
   * point of the rewrite.
   */
  lemma {:induction false} ReplaceRunsFixpoint(s: string, p: char -> bool, rep: char)
    requires forall i :: 0 <= i < |s| && p(s[i]) ==> s[i] == rep
    requires forall i :: 0 <= i < |s| - 1 ==> !(p(s[i]) && p(s[i + 1]))
    ensures ReplaceRuns(s, p, rep) == s
    decreases |s|
  {
    if s != [] {
      if p(s[0]) {
        assert DropWhile(s, p) == s[1..] by {
          if |s| > 1 { assert !p(s[1]); }
        }
      }
      ReplaceRunsFixpoint(s[1..], p, rep);
    }
  }

  /** Filtering distributes over concatenation. */
  lemma {:induction false} FilterConcat(a: string, b: string, q: char -> bool)
    ensures Filter(a + b, q) == Filter(a, q) + Filter(b, q)
  {
    if a == [] {
      assert a + b == b;
    } else {
      var head := if q(a[0]) then [a[0]] else [];
      assert (a + b)[0] == a[0];
      assert (a + b)[1..] == a[1..] + b;
      assert Filter(a + b, q) == head + Filter(a[1..] + b, q);
      FilterConcat(a[1..], b, q);
      assert Filter(a, q) == head + Filter(a[1..], q);
    }
  }

  /** Characters that `q` rejects can be dropped before filtering by `q`. */
  lemma {:induction false} FilterDropWhile(s: string, p: char -> bool, q: char -> bool)
    requires forall c :: p(c) ==> !q(c)
    ensures Filter(DropWhile(s, p), q) == Filter(s, q)
  {
    if s != [] && p(s[0]) {
      FilterDropWhile(s[1..], p, q);
    }
  }

  /** Filtering by `q` ignores white space removed by `trim` when `q` rejects it. */
  lemma {:induction false} FilterTrim(s: string, q: char -> bool)
    requires forall c :: IsSpace(c) ==> !q(c)
    ensures Filter(Trim(s), q) == Filter(s, q)
  {
    FilterDropWhile(s, IsSpace, q);
    FilterTrimEnd(TrimStart(s), q);
  }

  lemma {:induction false} FilterTrimEnd(s: string, q: char -> bool)
    requires forall c :: IsSpace(c) ==> !q(c)
    ensures Filter(TrimEnd(s), q) == Filter(s, q)
  {
    if s != [] && IsSpace(s[|s| - 1]) {
      var init := s[..|s| - 1];
      FilterTrimEnd(init, q);
      assert s == init + [s[|s| - 1]];
      FilterConcat(init, [s[|s| - 1]], q);
    }
  }

  /**
   * Replacing runs of rejected characters by a rejected character does not
   * change what a filter keeps.
   */
  lemma {:induction false} FilterReplaceRuns(s: string, p: char -> bool, rep: char, q: char -> bool)
    requires forall c :: p(c) ==> !q(c)
    requires !q(rep)
    ensures Filter(ReplaceRuns(s, p, rep), q) == Filter(s, q)
    decreases |s|
  {
    if s == [] {
    } else if p(s[0]) {
      var d := DropWhile(s, p);
      FilterReplaceRuns(d, p, rep, q);
      FilterDropWhile(s, p, q);
      assert ReplaceRuns(s, p, rep) == [rep] + ReplaceRuns(d, p, rep);
    } else {
      FilterReplaceRuns(s[1..], p, rep, q);
      assert ReplaceRuns(s, p, rep) == [s[0]] + ReplaceRuns(s[1..], p, rep);
    }
  }

  /** Filtering by a weaker predicate first does not change a filter by a stronger one. */
  lemma {:induction false} FilterFilter(s: string, p: char -> bool, q: char -> bool)
    requires forall c :: q(c) ==> p(c)
    ensures Filter(Filter(s, p), q) == Filter(s, q)
  {
    if s != [] {
      FilterFilter(s[1..], p, q);
      FilterConcat(if p(s[0]) then [s[0]] else [], Filter(s[1..], p), q);
    }
  }

  /** `split(sep)` with a one-character separator: always at least one part. */
  function Split(s: string, sep: char): (parts: seq<string>)
    ensures |parts| >= 1
    ensures forall k :: 0 <= k < |parts| ==> sep !in parts[k]
  {
    if s == [] then [[]]
    else
      var rest := Split(s[1..], sep);
      if s[0] == sep then [[]] + rest else [[s[0]] + rest[0]] + rest[1..]
  }

  /** A string without the separator splits into itself. */
  lemma {:induction false} SplitNoSeparator(s: string, sep: char)
    requires sep !in s
    ensures Split(s, sep) == [s]
  {
    if s != [] {
      assert sep !in s[1..];
      SplitNoSeparator(s[1..], sep);
      assert [s[0]] + s[1..] == s;
    }
  }

  /** `join(sep)`. */
  function Join(parts: seq<string>, sep: string): string
  {
    if |parts| == 0 then []
    else if |parts| == 1 then parts[0]
    else parts[0] + sep + Join(parts[1..], sep)
  }

  /** `padEnd(n)` with spaces. */
  function PadEnd(s: string, n: nat): (r: string)
    ensures |r| == if |s| < n then n else |s|
    ensures r[..|s|] == s
    ensures forall i :: |s| <= i < |r| ==> r[i] == ' '
  {
    if |s| < n then s + seq(n - |s|, _ => ' ') else s
  }

  function StartsWith(s: string, prefix: string): bool
  {
    |prefix| <= |s| && s[..|prefix|] == prefix
  }

  /** The text before the first `sep`: `s.split(sep)[0]`. */
  function Before(s: string, sep: char): (r: string)
    ensures sep !in r
    ensures StartsWith(s, r)
    ensures |r| < |s| ==> s[|r|] == sep
  {
    if s == [] || s[0] == sep then [] else [s[0]] + Before(s[1..], sep)
  }

  /** `s.replace(c, '')` with a string pattern: only the first `c` is removed. */
  function RemoveFirst(s: string, c: char): (r: string)
    ensures c !in s ==> r == s
    ensures c in s ==> |r| == |s| - 1 && r == s[..|Before(s, c)|] + s[|Before(s, c)| + 1..]
  {
    var head := Before(s, c);
    if |head| < |s| then head + s[|head| + 1..] else s
  }

  function DigitValue(c: char): nat
    requires IsDigit(c)
  {
    c as int - '0' as int
  }

  /** The value of a string of decimal digits. */
  function DigitsValue(s: string): nat
    requires AllDigits(s)
  {
    if s == [] then 0 else DigitsValue(s[..|s| - 1]) * 10 + DigitValue(s[|s| - 1])
  }

  /** `String(n)` for a natural number: decimal digits without leading zeros. */
  function NatToString(n: nat): (s: string)
    ensures |s| >= 1 && AllDigits(s)
    ensures |s| > 1 ==> s[0] != '0'
    ensures DigitsValue(s) == n
    decreases n
  {
    var last := ['0' + (n % 10) as char];
    if n < 10 then last else NatToString(n / 10) + last
  }

  /** Folding case is done character by character. */
  lemma {:induction false} LowerConcat(a: string, b: string)
    ensures Lower(a + b) == Lower(a) + Lower(b)
  {
    var l := Lower(a + b);
    assert |l| == |Lower(a) + Lower(b)|;
    forall i | 0 <= i < |l| ensures l[i] == (Lower(a) + Lower(b))[i] {
      if i < |a| {
        assert (a + b)[i] == a[i];
      } else {
        assert (a + b)[i] == b[i - |a|];
      }
    }
  }

  lemma {:induction false} MapCharsConcat(a: string, b: string, f: char -> char)
    ensures MapChars(a + b, f) == MapChars(a, f) + MapChars(b, f)
  {
    var m := MapChars(a + b, f);
    assert |m| == |MapChars(a, f) + MapChars(b, f)|;
    forall i | 0 <= i < |m| ensures m[i] == (MapChars(a, f) + MapChars(b, f))[i] {
      if i < |a| {
        assert (a + b)[i] == a[i];
      } else {
        assert (a + b)[i] == b[i - |a|];
      }
    }
  }

  /** The longest prefix of `s` whose characters all satisfy `p`. */
  function TakeWhile(s: string, p: char -> bool): (r: string)
    ensures |r| <= |s| && r == s[..|r|]
    ensures forall i :: 0 <= i < |r| ==> p(r[i])
    ensures |r| < |s| ==> !p(s[|r|])
  {
    if s != [] && p(s[0]) then [s[0]] + TakeWhile(s[1..], p) else []
  }

  /** ASCII case-insensitive equality, as a regular expression with the `i` flag compares letters. */
  predicate EqualsIgnoringCase(a: string, b: string) {
    |a| == |b| && forall i :: 0 <= i < |a| ==> LowerChar(a[i]) == LowerChar(b[i])
  }

  /**
   * `parseInt(s, 10)`: leading white space, an optional sign, then the longest
   * run of decimal digits; `None` stands for `NaN` when there is no digit.
   */
  function ParseInt(s: string): (r: Option<int>)
    ensures r.None? <==> TakeWhile(SignedBody(TrimStart(s)), IsDigit) == []
  {
    var t := TrimStart(s);
    var digits := TakeWhile(SignedBody(t), IsDigit);
    if digits == [] then None
    else
      var magnitude: int := DigitsValue(digits);
      Some(if t[0] == '-' then -magnitude else magnitude)
  }

  /** What follows an optional leading sign. */
  function SignedBody(t: string): (b: string)
    ensures b == t || (t != [] && (t[0] == '-' || t[0] == '+') && b == t[1..])
  {
    if t != [] && (t[0] == '-' || t[0] == '+') then t[1..] else t
  }

  /** A string of decimal digits, with nothing around it, parses to its value. */
  lemma ParseIntDigits(s: string)
    requires s != [] && AllDigits(s)
    ensures ParseInt(s) == Some(DigitsValue(s))
  {
    assert TrimStart(s) == s;
    assert SignedBody(s) == s;
    TakeAllDigits(s);
  }

  lemma {:induction false} TakeAllDigits(s: string)
    requires AllDigits(s)
    ensures TakeWhile(s, IsDigit) == s
  {
    if s != [] {
      TakeAllDigits(s[1..]);
    }
  }

  /** `parseInt` stops at the first character that is not a digit. */
  lemma ParseDigitsBeforeStop(digits: string, rest: string)
    requires digits != [] && AllDigits(digits)
    requires rest != [] && !IsDigit(rest[0])
    ensures ParseInt(digits + rest) == Some(DigitsValue(digits))
  {
    var s := digits + rest;
    TrimStartAtDigit(s);
    TakeDigitsStop(digits, rest);
  }

  lemma TrimStartAtDigit(s: string)
    requires s != [] && IsDigit(s[0])
    ensures TrimStart(s) == s && SignedBody(s) == s
  {
    assert !IsSpace(s[0]);
  }

  lemma {:induction false} TakeDigitsStop(digits: string, rest: string)
    requires AllDigits(digits)
    requires rest != [] && !IsDigit(rest[0])
    ensures TakeWhile(digits + rest, IsDigit) == digits
  {
    if digits == [] {
      assert digits + rest == rest;
    } else {
      assert (digits + rest)[0] == digits[0];
      assert (digits + rest)[1..] == digits[1..] + rest;
      TakeDigitsStop(digits[1..], rest);
    }
  }

  /** The text before the first `sep` of `a + rest`, when `a` has none and `rest` starts with it. */
  lemma {:induction false} BeforeStop(a: string, rest: string, sep: char)
    requires sep !in a
    requires rest != [] && rest[0] == sep
    ensures Before(a + rest, sep) == a
  {
    if a != [] {
      assert (a + rest)[1..] == a[1..] + rest;
      BeforeStop(a[1..], rest, sep);
    } else {
      assert a + rest == rest;
    }
  }

  /** Without `sep`, the text before the first `sep` is the whole string. */
  lemma {:induction false} BeforeAbsent(s: string, sep: char)
    requires sep !in s
    ensures Before(s, sep) == s
  {
    if s != [] {
      BeforeAbsent(s[1..], sep);
    }
  }

  /** The leading digits are at least as long as any all-digit prefix. */
  lemma {:induction false} TakeDigitsLongest(s: string, j: nat)
    requires j <= |s| && forall i :: 0 <= i < j ==> IsDigit(s[i])
    ensures |TakeWhile(s, IsDigit)| >= j
  {
    if j > 0 {
      assert IsDigit(s[0]);
      forall i | 0 <= i < j - 1 ensures IsDigit(s[1..][i]) {
        assert s[1..][i] == s[i + 1];
      }
      TakeDigitsLongest(s[1..], j - 1);
    }
  }

  /** `10` to the power `n`. */
  function Pow10(n: nat): (p: nat)
    ensures p >= 1
  {
    if n == 0 then 1 else 10 * Pow10(n - 1)
  }

  /** A string of `n` digits denotes a number below `10^n`. */
  lemma {:induction false} DigitsValueBound(s: string)
    requires AllDigits(s)
    ensures DigitsValue(s) < Pow10(|s|)
  {
    if s != [] {
      var init := s[..|s| - 1];
      DigitsValueBound(init);
      assert DigitsValue(s) == DigitsValue(init) * 10 + DigitValue(s[|s| - 1]);
      assert DigitsValue(init) + 1 <= Pow10(|init|);
      assert (DigitsValue(init) + 1) * 10 <= Pow10(|init|) * 10;
    }
  }

  /** Only zeros denote zero. */
  lemma {:induction false} DigitsValueZero(s: string)
    requires AllDigits(s)
    ensures DigitsValue(s) == 0 <==> forall i :: 0 <= i < |s| ==> s[i] == '0'
  {
    if s != [] {
      var init := s[..|s| - 1];
      DigitsValueZero(init);
      assert forall i :: 0 <= i < |init| ==> init[i] == s[i];
    }
  }

  /** `String(n)` for an integer. */
  function IntToString(n: int): (s: string)
    ensures n >= 0 ==> s == NatToString(n)
    ensures n < 0 ==> s == "-" + NatToString(-n)
  {
    if n >= 0 then NatToString(n) else "-" + NatToString(-n)
  }

  /** Joining at least two parts starts with the first part and ends with the last one. */
  lemma {:induction false} JoinEnds(parts: seq<string>, sep: string)
    requires |parts| >= 2
    ensures StartsWith(Join(parts, sep), parts[0] + sep)
    ensures EndsWith(Join(parts, sep), sep + parts[|parts| - 1])
  {
    var rest := Join(parts[1..], sep);
    assert Join(parts, sep) == parts[0] + sep + rest;
    assert (parts[0] + sep + rest)[..|parts[0] + sep|] == parts[0] + sep;
    if |parts| == 2 {
      assert rest == parts[1];
    } else {
      JoinEnds(parts[1..], sep);
      var r := rest[|rest| - |sep + parts[|parts| - 1]|..];
      assert r == sep + parts[|parts| - 1];
      assert (parts[0] + sep + rest)[|parts[0] + sep + rest| - |r|..] == r;
    }
  }

  function EndsWith(s: string, suffix: string): bool
  {
    |suffix| <= |s| && s[|s| - |suffix|..] == suffix
  }

  /**
   * Trimming a string that starts with a non-blank `prefix` ending in a
   * non-blank character keeps that prefix.
   */
  lemma TrimKeepsPrefix(prefix: string, rest: string)
    requires prefix != [] && !IsSpace(prefix[0]) && !IsSpace(prefix[|prefix| - 1])
    ensures StartsWith(Trim(prefix + rest), prefix)
  {
    var s := prefix + rest;
    assert s[0] == prefix[0];
    assert s[|prefix| - 1] == prefix[|prefix| - 1];
    TrimStartUnchanged(s);
    TrimEndKeeps(s, |prefix|);
    assert s[..|prefix|] == prefix;
  }

  lemma TrimStartUnchanged(s: string)
    requires s != [] && !IsSpace(s[0])
    ensures TrimStart(s) == s
  {
  }

  lemma TrimEndKeeps(s: string, n: nat)
    requires 0 < n <= |s| && !IsSpace(s[n - 1])
    ensures |TrimEnd(s)| >= n && TrimEnd(s)[..n] == s[..n]
  {
    TrimEndDropped(s);
  }

  /** An ASCII letter of either case or an ASCII digit. */
  predicate IsAsciiAlnum(c: char) { IsLowerLetter(c) || IsUpperLetter(c) || IsDigit(c) }

  /** Folding case only touches upper-case letters. */
  lemma {:induction false} LowerUnchanged(s: string)
    requires forall i :: 0 <= i < |s| ==> !IsUpperLetter(s[i])
    ensures Lower(s) == s
  {
    if s != [] {
      LowerUnchanged(s[1..]);
    }
  }

  /** The lower-case letters and digits of a lower-cased string are the lower-cased ASCII letters and digits. */
  lemma {:induction false} FilterLower(s: string)
    ensures Filter(Lower(s), IsLowerAlnum) == Lower(Filter(s, IsAsciiAlnum))
  {
    if s != [] {
      FilterLower(s[1..]);
      assert Lower(s) == [LowerChar(s[0])] + Lower(s[1..]);
      assert Lower(s)[1..] == Lower(s[1..]);
      if IsAsciiAlnum(s[0]) {
        assert Filter(s, IsAsciiAlnum) == [s[0]] + Filter(s[1..], IsAsciiAlnum);
        assert Lower([s[0]] + Filter(s[1..], IsAsciiAlnum))[1..] == Lower(Filter(s[1..], IsAsciiAlnum));
      }
    }
  }

  lemma LowerAround(a: string, c: char, b: string)
    ensures Lower(a + [c] + b) == Lower(a) + [LowerChar(c)] + Lower(b)
    ensures Lower(a + b) == Lower(a) + Lower(b)
  {
    LowerConcat(a + [c], b);
    LowerConcat(a, [c]);
    LowerConcat(a, b);
  }
}
