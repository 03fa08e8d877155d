/**
  String operations of the JavaScript runtime that the modelled code relies on:
  `indexOf`, `includes`, `startsWith`, `slice`, `split(...).pop()`, `join`,
  `/\n/g` counting, `/\s/`, decimal number formatting and parsing, and a global
  literal `replace`.
*/
module Strings {

  /** `pat` occurs in `s` starting at offset `i`. */
  predicate OccursAt(s: string, pat: string, i: int)
  {
    0 <= i && i + |pat| <= |s| && s[i..i + |pat|] == pat
  }

  /** `s.startsWith(pre)` */
  predicate StartsWith(s: string, pre: string)
  {
    |pre| <= |s| && s[..|pre|] == pre
  }

  /** `s.includes(pat)` */
  predicate Contains(s: string, pat: string)
  {
    exists i :: 0 <= i <= |s| && OccursAt(s, pat, i)
  }

  function IndexOfFrom(s: string, pat: string, from: nat): (r: int)
    decreases |s| - from
    ensures r == -1 || (from <= r && r + |pat| <= |s|)
  {
    if from + |pat| > |s| then -1
    else if s[from..from + |pat|] == pat then from
    else IndexOfFrom(s, pat, from + 1)
  }

  /** The search from `from` finds the first occurrence at or after `from`,
      and -1 exactly when there is none. */
  lemma {:induction false} IndexOfFromIsFirst(s: string, pat: string, from: nat)
    ensures var r := IndexOfFrom(s, pat, from);
      (r == -1 || OccursAt(s, pat, r)) &&
      (r == -1 ==> forall j :: from <= j ==> !OccursAt(s, pat, j)) &&
      (r != -1 ==> forall j :: from <= j < r ==> !OccursAt(s, pat, j))
    decreases |s| - from
  {
    if from + |pat| <= |s| && s[from..from + |pat|] != pat {
      IndexOfFromIsFirst(s, pat, from + 1);
    }
  }

  /** `s.indexOf(pat)`: the first occurrence, or -1 when there is none. */
  function IndexOf(s: string, pat: string): (r: int)
    ensures r == -1 || (0 <= r && r + |pat| <= |s|)
  {
    IndexOfFrom(s, pat, 0)
  }

  /** `indexOf` is -1 exactly when the pattern does not occur, and otherwise
      the offset of its first occurrence. */
  lemma IndexOfIsFirst(s: string, pat: string)
    ensures IndexOf(s, pat) == -1 <==> !Contains(s, pat)
    ensures IndexOf(s, pat) != -1 ==>
      OccursAt(s, pat, IndexOf(s, pat)) && forall j :: 0 <= j < IndexOf(s, pat) ==> !OccursAt(s, pat, j)
  {
    IndexOfFromIsFirst(s, pat, 0);
  }

  /** `s.slice(from, to)`: negative bounds count from the end, bounds are
      clamped, and a start at or after the end gives "". */
  function Slice(s: string, from: int, to: int): (r: string)
    ensures 0 <= from <= to <= |s| ==> r == s[from..to]
    ensures 0 <= to <= from ==> r == ""
  {
    var a := if from < 0 then (if |s| + from < 0 then 0 else |s| + from)
             else if from > |s| then |s| else from;
    var b := if to < 0 then (if |s| + to < 0 then 0 else |s| + to)
             else if to > |s| then |s| else to;
    if a >= b then "" else s[a..b]
  }

  /** `s.slice(from)` for a non-negative `from`. */
  function Drop(s: string, from: nat): (r: string)
    ensures |r| == if from <= |s| then |s| - from else 0
    ensures forall i :: 0 <= i < |r| ==> r[i] == s[from + i]
  {
    if from <= |s| then s[from..] else ""
  }

  /** The number of occurrences of `c` in `s[lo..hi]`, read off by index. */
  function CountIn(s: string, c: char, lo: nat, hi: nat): nat
    requires lo <= hi <= |s|
    decreases hi - lo
  {
    if lo == hi then 0 else CountIn(s, c, lo, hi - 1) + (if s[hi - 1] == c then 1 else 0)
  }

  /** The number of occurrences of `c` in `s` (`(s.match(/\n/g) || []).length` for `c == '\n'`). */
  function Count(s: string, c: char): nat
  {
    CountIn(s, c, 0, |s|)
  }

  /** Counting over two adjacent stretches adds up. */
  lemma {:induction false} CountInSplit(s: string, c: char, lo: nat, mid: nat, hi: nat)
    requires lo <= mid <= hi <= |s|
    ensures CountIn(s, c, lo, hi) == CountIn(s, c, lo, mid) + CountIn(s, c, mid, hi)
    decreases hi - mid
  {
    if mid < hi {
      CountInSplit(s, c, lo, mid, hi - 1);
    }
  }

  /** Counting in a stretch of `s` is counting in the slice `s[lo..hi]`. */
  lemma CountSlice(s: string, c: char, lo: nat, hi: nat)
    requires lo <= hi <= |s|
    ensures Count(s[lo..hi], c) == CountIn(s, c, lo, hi)
  {
    CountShifted(s, s[lo..hi], c, lo, hi - lo);
  }

  /** Where `t` is the stretch of `s` at `lo`, the first `m` characters of
      `t` count as `s[lo..lo + m]`. */
  lemma {:induction false} CountShifted(s: string, t: string, c: char, lo: nat, m: nat)
    requires m <= |t| && lo + |t| <= |s|
    requires forall j :: 0 <= j < |t| ==> t[j] == s[lo + j]
    ensures CountIn(t, c, 0, m) == CountIn(s, c, lo, lo + m)
    decreases m
  {
    if m > 0 {
      CountShifted(s, t, c, lo, m - 1);
      assert t[m - 1] == s[lo + m - 1];
    }
  }

  /** An occurrence of `pat` at `q` holds as many `c` as `pat` does. */
  lemma CountOccurrence(s: string, pat: string, c: char, q: nat)
    requires OccursAt(s, pat, q)
    ensures CountIn(s, c, q, q + |pat|) == Count(pat, c)
  {
    forall j | 0 <= j < |pat|
      ensures pat[j] == s[q + j]
    {
      assert s[q..q + |pat|][j] == s[q + j];
    }
    CountShifted(s, pat, c, q, |pat|);
  }

  /** `parts.join(sep)` */
  function Join(parts: seq<string>, sep: string): string
  {
    if |parts| == 0 then ""
    else if |parts| == 1 then parts[0]
    else parts[0] + sep + Join(parts[1..], sep)
  }

  /** `s.split([c]).pop()`: the text after the last `c`, or all of `s` when `c` does not occur. */
  function LastSegment(s: string, c: char): (r: string)
    ensures c !in r
  {
    if s == [] then ""
    else if s[|s| - 1] == c then ""
    else LastSegment(s[..|s| - 1], c) + [s[|s| - 1]]
  }

  /** The last segment ends `s`, and `c` stands right before it unless it is
      all of `s`. */
  lemma {:induction false} LastSegmentSuffix(s: string, c: char)
    ensures var r := LastSegment(s, c);
      |r| <= |s| && r == s[|s| - |r|..] && (|r| == |s| || s[|s| - |r| - 1] == c)
  {
    if s != [] && s[|s| - 1] != c {
      var last := s[|s| - 1];
      var init := s[..|s| - 1];
      LastSegmentSuffix(init, c);
      var t := LastSegment(init, c);
      SuffixExtend(s, init, t, last, c);
    }
  }

  /** One step of the induction above: a suffix of `init` extended by the
      last character is a suffix of `s`. */
  lemma SuffixExtend(s: string, init: string, t: string, last: char, c: char)
    requires s != [] && init == s[..|s| - 1] && last == s[|s| - 1]
    requires |t| <= |init| && t == init[|init| - |t|..]
    requires |t| == |init| || init[|init| - |t| - 1] == c
    ensures var r := t + [last];
      |r| <= |s| && r == s[|s| - |r|..] && (|r| == |s| || s[|s| - |r| - 1] == c)
  {
    var n := |init| - |t|;
    assert s == init + [last];
    assert s[n..] == init[n..] + [last];
  }

  lemma {:induction false} LastSegmentAfter(p: string, c: char, t: string)
    requires c !in t
    ensures LastSegment(p + [c] + t, c) == t
    decreases |t|
  {
    var s := p + [c] + t;
    if t == [] {
      assert s[|s| - 1] == c;
    } else {
      assert s[..|s| - 1] == p + [c] + t[..|t| - 1];
      LastSegmentAfter(p, c, t[..|t| - 1]);
      assert t == t[..|t| - 1] + [t[|t| - 1]];
    }
  }

  /** The characters JavaScript's `\s` matches. */
  predicate IsWhitespace(c: char)
  {
    c == ' ' || c == '\t' || c == '\n' || c == '\r' || c == '\U{B}' || c == '\U{C}' ||
    c == '\U{A0}' || c == '\U{1680}' || ('\U{2000}' <= c <= '\U{200A}') ||
    c == '\U{2028}' || c == '\U{2029}' || c == '\U{202F}' || c == '\U{205F}' ||
    c == '\U{3000}' || c == '\U{FEFF}'
  }

  // ---- decimal numbers ----

  predicate IsDigit(c: char) { '0' <= c <= '9' }

  function DigitChar(d: nat): (c: char)
    requires d < 10
    ensures IsDigit(c)
  {
    ('0' as int + d) as char
  }

  function DigitValue(c: char): nat
    requires IsDigit(c)
  {
    (c as int - '0' as int) as nat
  }

  function NatToString(n: nat): string
  {
    if n < 10 then [DigitChar(n)] else NatToString(n / 10) + [DigitChar(n % 10)]
  }

  /** The template-literal rendering `${n}` of an integer. */
  function IntToString(n: int): string
  {
    if n < 0 then "-" + NatToString(-n) else NatToString(n)
  }

  predicate AllDigits(s: string)
  {
    forall i :: 0 <= i < |s| ==> IsDigit(s[i])
  }

  /** An optional minus sign followed by at least one digit. */
  predicate IsDecimal(s: string)
  {
    if |s| > 0 && s[0] == '-' then |s| > 1 && AllDigits(s[1..]) else |s| > 0 && AllDigits(s)
  }

  function ParseNat(s: string): nat
    requires AllDigits(s)
  {
    if s == [] then 0 else ParseNat(s[..|s| - 1]) * 10 + DigitValue(s[|s| - 1])
  }

  /** `Number(s)` on a decimal string. */
  function ParseInt(s: string): int
    requires IsDecimal(s)
  {
    if s[0] == '-' then -(ParseNat(s[1..]) as int) else ParseNat(s)
  }

  /** A natural number renders as a non-empty run of digits that reads
      back as the number. */
  lemma {:induction false} ParseNatToString(n: nat)
    ensures |NatToString(n)| > 0 && AllDigits(NatToString(n))
    ensures ParseNat(NatToString(n)) == n
  {
    var s := NatToString(n);
    if n >= 10 {
      ParseNatToString(n / 10);
      assert s[..|s| - 1] == NatToString(n / 10);
      assert s == NatToString(n / 10) + [DigitChar(n % 10)];
    }
  }

  /** `${n}` is a decimal, made of digits and a leading minus sign at most. */
  lemma IntToStringChars(n: int)
    ensures IsDecimal(IntToString(n))
    ensures forall i :: 0 <= i < |IntToString(n)| ==> IsDigit(IntToString(n)[i]) || IntToString(n)[i] == '-'
  {
    if n < 0 {
      ParseNatToString(-n);
      assert IntToString(n)[1..] == NatToString(-n);
    } else {
      ParseNatToString(n);
    }
  }

  /** Formatting an integer and reading it back gives the integer. */
  lemma IntToStringRoundTrip(n: int)
    ensures IsDecimal(IntToString(n))
    ensures ParseInt(IntToString(n)) == n
  {
    if n < 0 {
      var t := NatToString(-n);
      ParseNatToString(-n);
      assert IntToString(n)[1..] == t;
    } else {
      ParseNatToString(n);
    }
  }

  // ---- literal global replace ----

  /** `s.replace(/pat/g, rep)` for a literal pattern and a replacement that
      holds no substitution pattern: every non-overlapping occurrence, scanned
      left to right, is replaced. */
  function ReplaceAll(s: string, pat: string, rep: string): string
    requires |pat| > 0
    decreases |s|
  {
    if |s| < |pat| then s
    else if s[..|pat|] == pat then rep + ReplaceAll(s[|pat|..], pat, rep)
    else [s[0]] + ReplaceAll(s[1..], pat, rep)
  }

  /** A text without the pattern is returned unchanged. */
  lemma {:induction false} ReplaceAllAbsent(s: string, pat: string, rep: string)
    requires |pat| > 0 && !Contains(s, pat)
    ensures ReplaceAll(s, pat, rep) == s
    decreases |s|
  {
    if |s| >= |pat| {
      assert !OccursAt(s, pat, 0);
      forall i | OccursAt(s[1..], pat, i) ensures OccursAt(s, pat, i + 1) {
        assert s[i + 1..i + 1 + |pat|] == s[1..][i..i + |pat|];
      }
      ReplaceAllAbsent(s[1..], pat, rep);
    }
  }

  /** An occurrence in the tail of a text is an occurrence one further on
      in the text. */
  lemma OccursInTail(s: string, pat: string, i: nat)
    requires |s| > 0
    ensures OccursAt(s[1..], pat, i) <==> OccursAt(s, pat, i + 1)
  {
    if i + 1 + |pat| <= |s| {
      assert s[i + 1..i + 1 + |pat|] == s[1..][i..i + |pat|];
    }
  }

  /** Text before the first placeholder is copied, the placeholder becomes
      `rep`, and scanning resumes right after it. */
  lemma {:induction false} ReplaceAllSplice(a: string, pat: string, b: string, rep: string)
    requires |pat| > 0
    requires forall i :: 0 <= i < |a| ==> !OccursAt(a + pat + b, pat, i)
    ensures ReplaceAll(a + pat + b, pat, rep) == a + rep + ReplaceAll(b, pat, rep)
    decreases |a|
  {
    var s := a + pat + b;
    if a == [] {
      assert s == pat + b;
      assert s[..|pat|] == pat;
      assert s[|pat|..] == b;
    } else {
      assert !OccursAt(s, pat, 0);
      var a' := a[1..];
      assert s[1..] == a' + pat + b;
      forall i | 0 <= i < |a'| ensures !OccursAt(a' + pat + b, pat, i) {
        OccursInTail(s, pat, i);
      }
      ReplaceAllSplice(a', pat, b, rep);
      assert ReplaceAll(s, pat, rep) == [s[0]] + ReplaceAll(s[1..], pat, rep);
      assert a == [a[0]] + a';
    }
  }
}
