/** ASCII character classes, decimal numerals and the few `str` operations of
    Rust's standard library that the modelled code relies on (`split`,
    `replace`, `trim`, `to_lowercase`, `format!("{}", n)`, `parse::<usize>`).
    Rust's versions are Unicode-aware; here they act on ASCII and leave every
    other character alone. */
module Text {
  import opened Wrappers

  /** `\d` restricted to ASCII. */
  predicate IsDigit(c: char) { '0' <= c <= '9' }

  predicate IsAsciiLetter(c: char) { 'a' <= c <= 'z' || 'A' <= c <= 'Z' }

  /** `\w` restricted to ASCII: letters, digits and '_'. */
  predicate IsWordChar(c: char) { IsAsciiLetter(c) || IsDigit(c) || c == '_' }

  /** The ASCII members of `char::is_whitespace`: tab, line feed, vertical
      tab, form feed, carriage return and space. */
  predicate IsWhitespace(c: char) { c == ' ' || '\t' <= c <= '\r' }

  predicate AllDigits(s: string) { forall i :: 0 <= i < |s| ==> IsDigit(s[i]) }

  predicate AllWordChars(s: string) { forall i :: 0 <= i < |s| ==> IsWordChar(s[i]) }

  function LowerChar(c: char): char { if 'A' <= c <= 'Z' then (c as int + 32) as char else c }

  function UpperChar(c: char): char { if 'a' <= c <= 'z' then (c as int - 32) as char else c }

  /** `str::to_lowercase`. */
  function Lower(s: string): string { seq(|s|, i requires 0 <= i < |s| => LowerChar(s[i])) }

  // ---------------------------------------------------------------------
  // Decimal numerals

  function DigitValue(c: char): nat
    requires IsDigit(c)
  {
    c as int - '0' as int
  }

  function DigitChar(d: nat): (c: char)
    requires d < 10
    ensures IsDigit(c) && DigitValue(c) == d
  {
    ('0' as int + d) as char
  }

  /** The value of a run of decimal digits; leading zeros are allowed. */
  function DigitsValue(s: string): nat
    requires AllDigits(s)
    decreases |s|
  {
    if s == [] then 0 else DigitsValue(s[..|s| - 1]) * 10 + DigitValue(s[|s| - 1])
  }

  /** `format!("{}", n)` for an unsigned integer: a non-empty digit string
      without leading zeros whose value is n. */
  function Decimal(n: nat): (s: string)
    ensures s != [] && AllDigits(s) && DigitsValue(s) == n
    ensures s[0] == '0' ==> n == 0
    decreases n
  {
    if n < 10 then [DigitChar(n)]
    else
      var s := Decimal(n / 10) + [DigitChar(n % 10)];
      assert s[..|s| - 1] == Decimal(n / 10);
      s
  }

  /** Dropping the last digit of a numeral divides by ten; a one-digit
      numeral is a number below ten. */
  lemma DecimalDropLast(n: nat)
    ensures |Decimal(n)| == 1 <==> n < 10
    ensures n >= 10 ==> Decimal(n)[..|Decimal(n)| - 1] == Decimal(n / 10)
  {
    if n >= 10 {
      var s := Decimal(n / 10) + [DigitChar(n % 10)];
      assert Decimal(n) == s;
      assert s[..|s| - 1] == Decimal(n / 10);
    }
  }

  /** A leading zero does not change the value of a digit run. */
  lemma {:induction false} LeadingZeroIgnored(s: string)
    requires AllDigits(s)
    ensures AllDigits("0" + s) && DigitsValue("0" + s) == DigitsValue(s)
  {
    var z := "0" + s;
    if s != [] {
      LeadingZeroIgnored(s[..|s| - 1]);
      assert z[..|z| - 1] == "0" + s[..|s| - 1];
    }
  }

  /** `str::parse::<usize>`: an optional '+' followed by one or more ASCII
      digits; anything else (the empty string, a lone sign, '-', a space, a
      letter) is an error. */
  function ParseUsize(s: string): (r: Option<nat>)
    ensures AllDigits(s) && s != [] ==> r == Some(DigitsValue(s))
    ensures r.Some? ==> s != [] && (AllDigits(s) || (s[0] == '+' && AllDigits(s[1..])))
  {
    if s == [] then None
    else
      var digits := if s[0] == '+' then s[1..] else s;
      if digits != [] && AllDigits(digits) then Some(DigitsValue(digits)) else None
  }

  // ---------------------------------------------------------------------
  // Maximal runs, as a greedy `\w+` or `\d+` consumes them

  /** End of the maximal run of word characters starting at i. */
  function WordRunEnd(s: string, i: nat): (j: nat)
    requires i <= |s|
    ensures i <= j <= |s|
    ensures forall k :: i <= k < j ==> IsWordChar(s[k])
    ensures j < |s| ==> !IsWordChar(s[j])
    decreases |s| - i
  {
    if i < |s| && IsWordChar(s[i]) then WordRunEnd(s, i + 1) else i
  }

  /** End of the maximal run of digits starting at i. */
  function DigitRunEnd(s: string, i: nat): (j: nat)
    requires i <= |s|
    ensures i <= j <= |s|
    ensures forall k :: i <= k < j ==> IsDigit(s[k])
    ensures j < |s| ==> !IsDigit(s[j])
    decreases |s| - i
  {
    if i < |s| && IsDigit(s[i]) then DigitRunEnd(s, i + 1) else i
  }

  /** A run of word characters from i to j is covered by the maximal run;
      with a non-word character (or the end) at j, j is where it ends. */
  lemma {:induction false} WordRunEndCovers(s: string, i: nat, j: nat)
    requires i <= j <= |s|
    requires forall k :: i <= k < j ==> IsWordChar(s[k])
    ensures WordRunEnd(s, i) >= j
    ensures j < |s| && !IsWordChar(s[j]) ==> WordRunEnd(s, i) == j
    decreases j - i
  {
    if i < j {
      WordRunEndCovers(s, i + 1, j);
    }
  }

  /** The digit-run counterpart of `WordRunEndCovers`. */
  lemma {:induction false} DigitRunEndCovers(s: string, i: nat, j: nat)
    requires i <= j <= |s|
    requires forall k :: i <= k < j ==> IsDigit(s[k])
    ensures DigitRunEnd(s, i) >= j
    ensures j < |s| && !IsDigit(s[j]) ==> DigitRunEnd(s, i) == j
    decreases j - i
  {
    if i < j {
      DigitRunEndCovers(s, i + 1, j);
    }
  }

  // ---------------------------------------------------------------------
  // Leftmost search, as an unanchored regex search tries start positions

  /** The first result of f at a position in [p, last]. */
  function Leftmost<T>(f: nat -> Option<T>, p: nat, last: nat): Option<T>
    requires p <= last
    decreases last - p
  {
    if f(p).Some? then f(p) else if p == last then None else Leftmost(f, p + 1, last)
  }

  lemma {:induction false} LeftmostNone<T>(f: nat -> Option<T>, p: nat, last: nat)
    requires p <= last
    ensures Leftmost(f, p, last).None? <==> forall i :: p <= i <= last ==> f(i).None?
    decreases last - p
  {
    if f(p).None? && p < last {
      LeftmostNone(f, p + 1, last);
    }
  }

  /** Where the search stops: the first position with a result, or one past
      the last position when there is none. */
  function LeftmostIndex<T>(f: nat -> Option<T>, p: nat, last: nat): (i: nat)
    requires p <= last
    ensures p <= i <= last + 1
    decreases last - p
  {
    if f(p).Some? then p else if p == last then last + 1 else LeftmostIndex(f, p + 1, last)
  }

  /** The search result is the result at the stopping position. */
  lemma {:induction false} LeftmostAt<T>(f: nat -> Option<T>, p: nat, last: nat)
    requires p <= last
    ensures LeftmostIndex(f, p, last) <= last <==> Leftmost(f, p, last).Some?
    ensures LeftmostIndex(f, p, last) <= last ==> f(LeftmostIndex(f, p, last)) == Leftmost(f, p, last)
    decreases last - p
  {
    if f(p).None? && p < last {
      LeftmostAt(f, p + 1, last);
    }
  }

  /** No earlier position has a result. */
  lemma {:induction false} LeftmostFirst<T>(f: nat -> Option<T>, p: nat, last: nat)
    requires p <= last
    ensures forall j :: p <= j < LeftmostIndex(f, p, last) ==> f(j).None?
    decreases last - p
  {
    if f(p).None? && p < last {
      LeftmostFirst(f, p + 1, last);
    }
  }

  /** Positions without a result can be skipped. */
  lemma {:induction false} LeftmostSkip<T>(f: nat -> Option<T>, p: nat, k: nat, last: nat)
    requires p <= k <= last
    requires forall j :: p <= j < k ==> f(j).None?
    ensures Leftmost(f, p, last) == Leftmost(f, k, last)
    decreases k - p
  {
    if p < k {
      LeftmostSkip(f, p + 1, k, last);
    }
  }

  // ---------------------------------------------------------------------
  // str::replace

  predicate StartsWith(s: string, prefix: string) {
    |prefix| <= |s| && s[..|prefix|] == prefix
  }

  /** `str::replace(pat, rep)`: the non-overlapping occurrences of pat, found
      left to right, are each replaced by rep. */
  function ReplaceAll(s: string, pat: string, rep: string): string
    requires pat != []
    decreases |s|
  {
    if s == [] then []
    else if StartsWith(s, pat) then rep + ReplaceAll(s[|pat|..], pat, rep)
    else [s[0]] + ReplaceAll(s[1..], pat, rep)
  }

  /** Text in which pat does not occur is left as it is. */
  lemma {:induction false} ReplaceAllAbsent(s: string, pat: string, rep: string)
    requires pat != []
    requires forall i :: 0 <= i <= |s| ==> !StartsWith(s[i..], pat)
    ensures ReplaceAll(s, pat, rep) == s
  {
    if s != [] {
      assert !StartsWith(s[0..], pat);
      forall i | 0 <= i <= |s[1..]| ensures !StartsWith(s[1..][i..], pat) {
        assert s[1..][i..] == s[i + 1..];
      }
      ReplaceAllAbsent(s[1..], pat, rep);
    }
  }

  /** A prefix that does not contain pat's first character passes through. */
  lemma {:induction false} ReplaceAllSkipsPrefix(q: string, s: string, pat: string, rep: string)
    requires pat != [] && pat[0] !in q
    ensures ReplaceAll(q + s, pat, rep) == q + ReplaceAll(s, pat, rep)
  {
    if q != [] {
      var t := q + s;
      assert t[0] == q[0] && !StartsWith(t, pat);
      assert t[1..] == q[1..] + s;
      ReplaceAllSkipsPrefix(q[1..], s, pat, rep);
      assert [q[0]] + q[1..] == q;
    } else {
      assert q + s == s;
    }
  }

  /** An occurrence at the very start is replaced and the scan resumes after it. */
  lemma ReplaceAllHead(pat: string, s: string, rep: string)
    requires pat != []
    ensures ReplaceAll(pat + s, pat, rep) == rep + ReplaceAll(s, pat, rep)
  {
    var t := pat + s;
    assert StartsWith(t, pat);
    assert t[|pat|..] == s;
  }

  /** Replacing splits over a concatenation when no occurrence can straddle
      the seam, which holds when the right part starts with a character that
      pat does not contain. */
  lemma {:induction false} ReplaceAllConcat(a: string, b: string, pat: string, rep: string)
    requires pat != []
    requires b == [] || b[0] !in pat
    ensures ReplaceAll(a + b, pat, rep) == ReplaceAll(a, pat, rep) + ReplaceAll(b, pat, rep)
  {
    if a == [] {
      assert a + b == b;
    } else {
      var t := a + b;
      if StartsWith(t, pat) {
        if |a| < |pat| {
          NoOccurrenceAcrossSeam(a, b, pat);
        }
        assert StartsWith(a, pat) by { assert a[..|pat|] == t[..|pat|]; }
        assert t[|pat|..] == a[|pat|..] + b;
        ReplaceAllConcat(a[|pat|..], b, pat, rep);
      } else {
        assert t[1..] == a[1..] + b;
        ReplaceAllConcat(a[1..], b, pat, rep);
      }
    }
  }

  lemma NoOccurrenceAcrossSeam(a: string, b: string, pat: string)
    requires |a| < |pat| && b != [] && b[0] !in pat
    ensures !StartsWith(a + b, pat)
  {
    if |pat| <= |a + b| {
      assert (a + b)[..|pat|][|a|] == b[0];
    }
  }

  /** The segment rule used for templates: a pat-free lead-in, a part that is
      rewritten, and a tail whose first character is not in pat. */
  lemma ReplaceAllSegment(lead: string, x: string, tail: string, pat: string, rep: string)
    requires pat != [] && pat[0] !in lead
    requires tail == [] || tail[0] !in pat
    ensures ReplaceAll(lead + x + tail, pat, rep)
         == lead + ReplaceAll(x, pat, rep) + ReplaceAll(tail, pat, rep)
  {
    ReplaceAllConcat(lead + x, tail, pat, rep);
    ReplaceAllSkipsPrefix(lead, x, pat, rep);
  }

  /** Replacing one character by one other character maps every position
      and keeps the length. */
  lemma {:induction false} ReplaceCharPointwise(s: string, a: char, b: char)
    ensures |ReplaceAll(s, [a], [b])| == |s|
    ensures forall i :: 0 <= i < |s| ==>
              ReplaceAll(s, [a], [b])[i] == (if s[i] == a then b else s[i])
  {
    if s != [] {
      ReplaceCharPointwise(s[1..], a, b);
      assert StartsWith(s, [a]) <==> s[0] == a by { assert s[..1] == [s[0]]; }
      var r := ReplaceAll(s, [a], [b]);
      if s[0] == a {
        assert r == [b] + ReplaceAll(s[1..], [a], [b]);
      } else {
        assert r == [s[0]] + ReplaceAll(s[1..], [a], [b]);
      }
    }
  }

  // ---------------------------------------------------------------------
  // str::split and str::trim

  /** `str::split(sep)` collected into a vector: never empty, as many parts
      as separators plus one, none containing the separator. */
  function Split(s: string, sep: char): (parts: seq<string>)
    ensures |parts| >= 1
    ensures sep in s <==> |parts| >= 2
    ensures forall i :: 0 <= i < |parts| ==> sep !in parts[i]
    decreases |s|
  {
    if s == [] then [[]]
    else
      var rest := Split(s[1..], sep);
      assert sep in s <==> s[0] == sep || sep in s[1..] by {
        assert s == [s[0]] + s[1..];
      }
      if s[0] == sep then [[]] + rest
      else [[s[0]] + rest[0]] + rest[1..]
  }

  lemma {:induction false} SplitWithoutSeparator(s: string, sep: char)
    requires sep !in s
    ensures Split(s, sep) == [s]
  {
    if s != [] {
      assert sep !in s[1..];
      SplitWithoutSeparator(s[1..], sep);
      assert [s[0]] + s[1..] == s;
    }
  }

  lemma {:induction false} SplitAtFirstSeparator(a: string, b: string, sep: char)
    requires sep !in a
    ensures Split(a + [sep] + b, sep) == [a] + Split(b, sep)
  {
    var s := a + [sep] + b;
    if a == [] {
      assert s[1..] == b;
    } else {
      assert s[1..] == a[1..] + [sep] + b;
      assert sep !in a[1..];
      SplitAtFirstSeparator(a[1..], b, sep);
      assert [a[0]] + a[1..] == a;
    }
  }

  /** The last part of a split is the longest separator-free suffix: it is a
      suffix, and it is either the whole text or preceded by the separator. */
  lemma {:induction false} LastPartIsSuffix(s: string, sep: char)
    ensures var t := Split(s, sep)[|Split(s, sep)| - 1];
            |t| <= |s| && s[|s| - |t|..] == t && (|t| == |s| || s[|s| - |t| - 1] == sep)
  {
    if s != [] {
      LastPartIsSuffix(s[1..], sep);
      var rest := Split(s[1..], sep);
      var t := rest[|rest| - 1];
      assert s[1..][|s[1..]| - |t|..] == s[|s| - |t|..];
      if s[0] != sep && |rest| == 1 {
        assert Split(s, sep) == [[s[0]] + t];
        assert [s[0]] + s[1..] == s;
      }
    }
  }

  /** Whatever precedes the last separator, the last part is what follows it. */
  lemma {:induction false} LastPartAfterSeparator(w: string, y: string, sep: char)
    requires sep !in y
    ensures var parts := Split(w + [sep] + y, sep); parts[|parts| - 1] == y
    decreases |w|
  {
    var s := w + [sep] + y;
    if w == [] {
      assert s[1..] == y;
      SplitWithoutSeparator(y, sep);
    } else {
      assert s[1..] == w[1..] + [sep] + y;
      LastPartAfterSeparator(w[1..], y, sep);
      assert sep in s[1..] by { assert s[1..][|w| - 1] == sep; }
    }
  }

  /** Leading whitespace removed: a suffix that starts with a non-blank, and
      only blanks were dropped. */
  function TrimStart(s: string): (r: string)
    ensures |r| <= |s| && r == s[|s| - |r|..]
    ensures forall i :: 0 <= i < |s| - |r| ==> IsWhitespace(s[i])
    ensures r != [] ==> !IsWhitespace(r[0])
    decreases |s|
  {
    if s != [] && IsWhitespace(s[0]) then TrimStart(s[1..]) else s
  }

  /** Trailing whitespace removed: a prefix that ends with a non-blank, and
      only blanks were dropped. */
  function TrimEnd(s: string): (r: string)
    ensures |r| <= |s| && r == s[..|r|]
    ensures forall i :: |r| <= i < |s| ==> IsWhitespace(s[i])
    ensures r != [] ==> !IsWhitespace(r[|r| - 1])
    decreases |s|
  {
    if s != [] && IsWhitespace(s[|s| - 1]) then TrimEnd(s[..|s| - 1]) else s
  }

  /** `str::trim`. */
  function Trim(s: string): string { TrimEnd(TrimStart(s)) }

  /** Trimming introduces no character. */
  lemma TrimAvoids(s: string, c: char)
    requires c !in s
    ensures c !in Trim(s)
  {
    TrimSlice(s);
    var a := |s| - |TrimStart(s)|;
    var t := Trim(s);
    forall i | 0 <= i < |t| ensures t[i] != c {
      assert t[i] == s[a + i];
    }
  }

  /** The trimmed text is a slice of the original that is not blank at
      either end. */
  lemma TrimSlice(s: string)
    ensures var t, a := Trim(s), |s| - |TrimStart(s)|;
            a + |t| <= |s| && t == s[a..a + |t|]
            && (t != [] ==> !IsWhitespace(t[0]) && !IsWhitespace(t[|t| - 1]))
  {
    var z := TrimStart(s);
    var a := |s| - |z|;
    var t := TrimEnd(z);
    assert t == z[..|t|];
    assert z == s[a..];
    assert s[a..][..|t|] == s[a..a + |t|];
    if t != [] {
      assert t[0] == z[0];
    }
  }
}
