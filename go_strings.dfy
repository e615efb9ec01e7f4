/** The Go string operations the ingestion code relies on: `strings.TrimSpace`,
    `strings.Replace`, `strings.Cut`, `strconv.Itoa`, `strconv.Atoi` (64-bit `int`), and
    the `IndexOf`/`Substr` helpers of the `mgutz/str` package.

    A Go string is a sequence of bytes. The model writes it as a `string` whose
    characters each stand for one byte; `IsByteString` says that all of them are below 256.
    The two `mgutz/str` helpers are not part of this model's source; their definitions
    below are stated assumptions about that library. */
module GoStrings {

  const MaxInt64: int := 0x7FFF_FFFF_FFFF_FFFF
  const MinInt64: int := -0x8000_0000_0000_0000
  const MaxUint64: int := 0xFFFF_FFFF_FFFF_FFFF

  predicate IsByteString(s: string) {
    forall i :: 0 <= i < |s| ==> s[i] as int < 256
  }

  /** `needle` occurs in `s` starting at index `i`. */
  predicate OccursAt(s: string, needle: string, i: int) {
    0 <= i && i + |needle| <= |s| && s[i..i + |needle|] == needle
  }

  /** Reference definition of substring containment, independent of any search. */
  ghost predicate Contains(s: string, needle: string) {
    exists i :: OccursAt(s, needle, i)
  }

  // ---------------------------------------------------------------------------
  // mgutz/str: IndexOf and Substr (stated assumptions)
  // ---------------------------------------------------------------------------

  /** Left-to-right search for `needle` from index `i` on. */
  function IndexFrom(s: string, needle: string, i: nat): (r: int)
    requires |needle| > 0
    ensures r == -1 || (i <= r && OccursAt(s, needle, r))
    ensures forall j :: i <= j && (r == -1 || j < r) ==> !OccursAt(s, needle, j)
    decreases |s| - i
  {
    if i + |needle| > |s| then -1
    else if s[i..i + |needle|] == needle then i
    else IndexFrom(s, needle, i + 1)
  }

  /** `str.IndexOf(s, needle, start)`: the first occurrence of `needle` at or after
      `start`, or -1. A negative `start`, or one past the last index, finds nothing;
      an empty needle is found at `start` clamped into `[0, len(s)]`. */
  function IndexOf(s: string, needle: string, start: int): (r: int)
    ensures |needle| > 0 && (start < 0 || start >= |s|) ==> r == -1
    ensures |needle| > 0 && 0 <= start ==> r == -1 || (start <= r && OccursAt(s, needle, r))
    ensures |needle| > 0 && 0 <= start ==>
      forall j :: start <= j && (r == -1 || j < r) ==> !OccursAt(s, needle, j)
  {
    if |needle| == 0 then
      if start < 0 then 0 else if start < |s| then start else |s|
    else if start < 0 || start > |s| - 1 then -1
    else IndexFrom(s, needle, start)
  }

  /** `str.Substr(s, index, n)`: at most `n` bytes of `s` from `index` on; empty when
      `index` is out of range or `n <= 0`. */
  function Substr(s: string, index: int, n: int): (r: string)
    ensures index < 0 || index >= |s| || n <= 0 ==> r == ""
    ensures 0 <= index < |s| && 0 < n ==>
      r == s[index..if index + n >= |s| then |s| else index + n]
  {
    if index < 0 || index >= |s| || s == "" then ""
    else
      var end := if index + n >= |s| then |s| else index + n;
      if end <= index then "" else s[index..end]
  }

  // ---------------------------------------------------------------------------
  // strings.TrimSpace
  // ---------------------------------------------------------------------------

  /** The ASCII white-space bytes that `strings.TrimSpace` removes. */
  predicate IsSpace(c: char) {
    c == ' ' || c == '\t' || c == '\n' || c == '\r' || c as int == 11 || c as int == 12
  }

  /** Number of white-space bytes at the front of `s`. */
  function LeadingSpace(s: string): (n: nat)
    ensures n <= |s|
    ensures forall k :: 0 <= k < n ==> IsSpace(s[k])
    ensures n < |s| ==> !IsSpace(s[n])
  {
    if s == [] || !IsSpace(s[0]) then 0 else 1 + LeadingSpace(s[1..])
  }

  /** Number of white-space bytes at the back of `s`. */
  function TrailingSpace(s: string): (n: nat)
    ensures n <= |s|
    ensures forall k :: |s| - n <= k < |s| ==> IsSpace(s[k])
    ensures n < |s| ==> !IsSpace(s[|s| - 1 - n])
  {
    if s == [] || !IsSpace(s[|s| - 1]) then 0 else 1 + TrailingSpace(s[..|s| - 1])
  }

  /** `strings.TrimSpace` on ASCII white space. */
  function TrimSpace(s: string): string {
    var t := s[LeadingSpace(s)..];
    t[..|t| - TrailingSpace(t)]
  }

  /** The trimmed string is the slice of `s` that starts after its leading white space,
      only white space is cut away at either end, and what is left neither starts nor
      ends with white space. */
  lemma TrimSpaceSlice(s: string)
    ensures var r, lo := TrimSpace(s), LeadingSpace(s);
            lo + |r| <= |s| && r == s[lo..lo + |r|]
            && (forall k :: 0 <= k < lo ==> IsSpace(s[k]))
            && (forall k :: lo + |r| <= k < |s| ==> IsSpace(s[k]))
            && (r == [] || (!IsSpace(r[0]) && !IsSpace(r[|r| - 1])))
  {
    var lo := LeadingSpace(s);
    var t := s[lo..];
    var n := TrailingSpace(t);
    forall k | lo + |t| - n <= k < |s| ensures IsSpace(s[k]) {
      assert s[k] == t[k - lo];
    }
  }

  /** Trimming leaves nothing exactly when `s` is all white space. */
  lemma TrimSpaceEmpty(s: string)
    ensures TrimSpace(s) == [] <==> forall k :: 0 <= k < |s| ==> IsSpace(s[k])
  {
  }

  /** A string that neither starts nor ends with white space is left as it is. */
  lemma TrimSpaceUnpadded(s: string)
    requires s != [] && !IsSpace(s[0]) && !IsSpace(s[|s| - 1])
    ensures TrimSpace(s) == s
  {
  }

  /** A slice of a slice is a slice of the whole. */
  lemma SliceOfSlice(s: string, lo: nat, hi: nat, i: nat, j: nat)
    requires lo <= hi <= |s| && i <= j <= hi - lo
    ensures s[lo..hi][i..j] == s[lo + i..lo + j]
  {
    assert forall k :: 0 <= k < j - i ==> s[lo..hi][i..j][k] == s[lo + i + k];
  }

  /** Trimming never creates an occurrence that was not in the line before. */
  lemma TrimSpaceKeepsOccurrences(s: string, needle: string)
    requires Contains(TrimSpace(s), needle)
    ensures Contains(s, needle)
  {
    var r, lo := TrimSpace(s), LeadingSpace(s);
    TrimSpaceSlice(s);
    var i :| OccursAt(r, needle, i);
    var m := |needle|;
    SliceOfSlice(s, lo, lo + |r|, i, i + m);
    assert OccursAt(s, needle, lo + i);
  }

  // ---------------------------------------------------------------------------
  // Search facts used with concrete templates
  // ---------------------------------------------------------------------------

  /** If position `t` of the needle holds a byte that `s` lacks between `lo + t` and
      `hi + t`, then no occurrence starts in `[lo, hi)`. */
  lemma NoOccurrenceByChar(s: string, needle: string, t: nat, lo: nat, hi: nat)
    requires t < |needle| && lo <= hi && hi + t <= |s|
    requires needle[t] !in s[lo + t..hi + t]
    ensures forall j :: lo <= j < hi ==> !OccursAt(s, needle, j)
  {
  }

  /** A byte of the needle that `s` lacks rules out every occurrence. */
  lemma NotContainedByChar(s: string, needle: string, t: nat)
    requires t < |needle| && needle[t] !in s
    ensures !Contains(s, needle)
  {
  }

  /** `IndexOf` finds the occurrence at `k` when none starts in `[start, k)`. */
  lemma IndexOfFinds(s: string, needle: string, start: nat, k: nat)
    requires |needle| > 0 && start <= k && OccursAt(s, needle, k)
    requires forall j :: start <= j < k ==> !OccursAt(s, needle, j)
    ensures IndexOf(s, needle, start) == k
  {
  }

  // ---------------------------------------------------------------------------
  // strings.Cut with a one-byte separator
  // ---------------------------------------------------------------------------

  /** `strings.Cut(s, sep)`: the text before and after the first `sep`, and whether
      there was one. */
  function Cut(s: string, sep: char): (r: (string, string, bool))
    ensures r.2 ==> s == r.0 + [sep] + r.1 && sep !in r.0
    ensures !r.2 ==> r.0 == s && r.1 == "" && sep !in s
    decreases |s|
  {
    if s == [] then ("", "", false)
    else if s[0] == sep then ("", s[1..], true)
    else
      var rest := Cut(s[1..], sep);
      ([s[0]] + rest.0, rest.1, rest.2)
  }

  /** Cutting at the first separator of `a + [sep] + b` gives back `a` and `b`. */
  lemma {:induction false} CutAtFirst(a: string, sep: char, b: string)
    requires sep !in a
    ensures Cut(a + [sep] + b, sep) == (a, b, true)
  {
    if a == [] {
      assert a + [sep] + b == [sep] + b;
    } else {
      var s := a + [sep] + b;
      assert s[0] == a[0] != sep;
      assert s[1..] == a[1..] + [sep] + b;
      CutAtFirst(a[1..], sep, b);
      assert a == [a[0]] + a[1..];
    }
  }

  // ---------------------------------------------------------------------------
  // strings.Replace(s, pat, repl, -1)
  // ---------------------------------------------------------------------------

  /** `strings.Replace(s, pat, repl, -1)` for a non-empty `pat`: every non-overlapping
      occurrence, found left to right, is replaced. */
  function Replace(s: string, pat: string, repl: string): string
    requires |pat| > 0
    decreases |s|, 1
  {
    if |s| < |pat| then s else ReplaceStep(s, pat, repl)
  }

  /** One step of the scan at the front of `s`: the match replaced, or one byte kept. */
  function ReplaceStep(s: string, pat: string, repl: string): string
    requires 0 < |pat| <= |s|
    decreases |s|, 0
  {
    if s[..|pat|] == pat then repl + Replace(s[|pat|..], pat, repl)
    else [s[0]] + Replace(s[1..], pat, repl)
  }

  /** A string without an occurrence of `pat` is left as it is. */
  lemma {:induction false} ReplaceWithoutMatch(s: string, pat: string, repl: string)
    requires |pat| > 0 && !Contains(s, pat)
    ensures Replace(s, pat, repl) == s
    decreases |s|
  {
    if |s| >= |pat| {
      assert !OccursAt(s, pat, 0);
      forall i ensures OccursAt(s[1..], pat, i) ==> OccursAt(s, pat, i + 1) {
        OccursShift(s, pat, i);
      }
      ReplaceWithoutMatch(s[1..], pat, repl);
      assert s == [s[0]] + s[1..];
    }
  }

  /** An occurrence in the tail of `s` is an occurrence in `s`, one further on. */
  lemma OccursShift(s: string, pat: string, i: int)
    requires |s| > 0
    ensures OccursAt(s[1..], pat, i) ==> OccursAt(s, pat, i + 1)
  {
  }

  /** One step of the scan past a byte that cannot start `pat`. */
  lemma ReplaceSkip(s: string, pat: string, repl: string)
    requires |pat| > 0 && |s| >= |pat| && s[0] != pat[0]
    ensures Replace(s, pat, repl) == [s[0]] + Replace(s[1..], pat, repl)
  {
  }

  /** One step of the scan at an occurrence of `pat`. */
  lemma ReplaceHit(pat: string, repl: string, b: string)
    requires |pat| > 0
    ensures Replace(pat + b, pat, repl) == repl + Replace(b, pat, repl)
  {
  }

  /** The first occurrence of `pat` in `a + pat + b` is the one after `a` when `a`
      lacks the first byte of `pat`. */
  lemma {:induction false} ReplaceFirst(a: string, pat: string, repl: string, b: string)
    requires |pat| > 0 && pat[0] !in a
    ensures Replace(a + pat + b, pat, repl) == a + repl + Replace(b, pat, repl)
  {
    if a == [] {
      assert a + pat + b == pat + b;
      ReplaceHit(pat, repl, b);
    } else {
      var s, r, t := a + pat + b, Replace(b, pat, repl), a[1..];
      assert Replace(s, pat, repl) == [a[0]] + Replace(t + pat + b, pat, repl) by {
        assert s[0] == a[0];
        ReplaceSkip(s, pat, repl);
        assert s[1..] == t + pat + b;
      }
      assert pat[0] !in t by {
        assert forall i :: 0 <= i < |t| ==> t[i] == a[i + 1];
      }
      ReplaceFirst(t, pat, repl, b);
      assert a == [a[0]] + t;
      calc {
        Replace(s, pat, repl);
        [a[0]] + Replace(t + pat + b, pat, repl);
        [a[0]] + (t + repl + r);
        ([a[0]] + t) + repl + r;
      }
    }
  }

  /** `a + pat + b` with one occurrence of `pat`, after a prefix lacking its first byte,
      has that occurrence replaced and nothing else. */
  lemma ReplaceOnce(a: string, pat: string, repl: string, b: string)
    requires |pat| > 0 && pat[0] !in a && !Contains(b, pat)
    ensures Replace(a + pat + b, pat, repl) == a + repl + b
  {
    ReplaceFirst(a, pat, repl, b);
    ReplaceWithoutMatch(b, pat, repl);
  }

  // ---------------------------------------------------------------------------
  // strconv.Itoa and strconv.Atoi
  // ---------------------------------------------------------------------------

  predicate IsDigit(c: char) { '0' <= c <= '9' }

  predicate AllDigits(s: string) { forall i :: 0 <= i < |s| ==> IsDigit(s[i]) }

  /** What `strconv.Atoi` accepts without a syntax error: an optional sign followed by
      one or more decimal digits. */
  predicate IsDecimalInt(s: string) {
    if |s| > 0 && (s[0] == '-' || s[0] == '+') then |s| > 1 && AllDigits(s[1..])
    else |s| > 0 && AllDigits(s)
  }

  function DigitValue(c: char): nat requires IsDigit(c) { c as int - '0' as int }

  function DigitChar(d: nat): (c: char)
    requires d < 10
    ensures IsDigit(c) && DigitValue(c) == d
  {
    (d + '0' as int) as char
  }

  /** The decimal digits of `n`, without leading zeros. */
  function Digits(n: nat): string
    decreases n
  {
    if n < 10 then [DigitChar(n)] else Digits(n / 10) + [DigitChar(n % 10)]
  }

  /** The digits are at least one, all decimal, and start with '0' only for zero. */
  lemma {:induction false} DigitsSpec(n: nat)
    ensures var r := Digits(n);
            |r| > 0 && AllDigits(r) && (r[0] == '0' ==> n == 0)
  {
    if n >= 10 {
      DigitsSpec(n / 10);
    }
  }

  /** `strconv.Itoa`. */
  function Itoa(n: int): string {
    if n < 0 then "-" + Digits(-n) else Digits(n)
  }

  /** `strconv.Itoa` writes a decimal integer that `strconv.Atoi` accepts, with a
      minus sign exactly for a negative number and never a plus sign. */
  lemma ItoaDecimal(n: int)
    ensures var r := Itoa(n);
            IsDecimalInt(r) && (r[0] == '-' <==> n < 0) && r[0] != '+'
  {
    if n < 0 {
      DigitsSpec(-n);
      assert Itoa(n)[1..] == Digits(-n);
    } else {
      DigitsSpec(n);
    }
  }

  function Pow10(k: nat): (p: nat)
    ensures p > 0
  {
    if k == 0 then 1 else 10 * Pow10(k - 1)
  }

  /** Outcome of the unsigned decimal scan inside `strconv.ParseUint`. */
  datatype UintScan = Value(n: nat) | SyntaxError | RangeError

  /** `strconv.ParseUint(s, 10, 64)` on the bytes after the sign, as a left-to-right
      scan: the first non-digit is a syntax error, the first digit that takes the value
      past 2^64 - 1 a range error, whichever comes first. */
  function ScanDecimal(s: string): (r: UintScan)
    ensures r.Value? ==> r.n <= MaxUint64
    decreases |s|
  {
    if s == [] then Value(0)
    else
      match ScanDecimal(s[..|s| - 1])
      case Value(n) =>
        var c := s[|s| - 1];
        if !IsDigit(c) then SyntaxError
        else if n * 10 + DigitValue(c) > MaxUint64 then RangeError
        else Value(n * 10 + DigitValue(c))
      case SyntaxError => SyntaxError
      case RangeError => RangeError
  }

  /** `id, _ := strconv.Atoi(s)` on a 64-bit platform: the parsed value; 0 on a syntax
      error; the nearest 64-bit bound on a range error (Go returns it together with
      the error, which the caller discards). */
  function Atoi(s: string): (r: int)
    ensures MinInt64 <= r <= MaxInt64
  {
    var neg := |s| > 0 && s[0] == '-';
    var body := if |s| > 0 && (s[0] == '-' || s[0] == '+') then s[1..] else s;
    if body == [] then 0
    else
      match ScanDecimal(body)
      case SyntaxError => 0
      case RangeError => if neg then MinInt64 else MaxInt64
      case Value(n) =>
        if neg then (if n > -MinInt64 then MinInt64 else -(n as int))
        else (if n > MaxInt64 then MaxInt64 else n)
  }

  lemma {:induction false} ScanDigits(n: nat)
    requires n <= MaxUint64
    ensures ScanDecimal(Digits(n)) == Value(n)
    decreases n
  {
    if n >= 10 {
      var s := Digits(n);
      assert s[..|s| - 1] == Digits(n / 10);
      ScanDigits(n / 10);
    }
  }

  /** `strconv.Atoi` inverts `strconv.Itoa` on every 64-bit integer. */
  lemma AtoiItoa(n: int)
    requires MinInt64 <= n <= MaxInt64
    ensures Atoi(Itoa(n)) == n
  {
    if n < 0 {
      DigitsSpec(-n);
      assert ("-" + Digits(-n))[1..] == Digits(-n);
      ScanDigits(-n);
    } else {
      DigitsSpec(n);
      ScanDigits(n);
    }
  }

  /** Fewer than twenty bytes never overflow: the scan succeeds exactly on digits. */
  lemma {:induction false} ScanShort(s: string)
    requires |s| <= 19
    ensures ScanDecimal(s) != RangeError
    ensures ScanDecimal(s).Value? <==> AllDigits(s)
    ensures ScanDecimal(s).Value? ==> ScanDecimal(s).n < Pow10(|s|)
    decreases |s|
  {
    if s != [] {
      var p := s[..|s| - 1];
      ScanShort(p);
      PowBound(|s|);
      if ScanDecimal(p).Value? {
        assert AllDigits(s) <==> IsDigit(s[|s| - 1]) by {
          assert forall i :: 0 <= i < |p| ==> p[i] == s[i];
        }
      } else {
        assert !AllDigits(s) by {
          var i :| 0 <= i < |p| && !IsDigit(p[i]);
          assert s[i] == p[i];
        }
      }
    }
  }

  lemma {:induction false} PowBound(k: nat)
    requires k <= 19
    ensures Pow10(k) <= 10_000_000_000_000_000_000
    decreases 19 - k
  {
    if k < 19 {
      PowBound(k + 1);
    } else {
      PowAdd(10, 9);
      assert Pow10(10) == 10_000_000_000 && Pow10(9) == 1_000_000_000;
    }
  }

  lemma {:induction false} PowAdd(a: nat, b: nat)
    ensures Pow10(a + b) == Pow10(a) * Pow10(b)
  {
    if a > 0 {
      PowAdd(a - 1, b);
    }
  }

  /** A short id that is not a signed decimal number parses to 0. */
  lemma AtoiRejectsNonNumeric(s: string)
    requires |s| <= 20 && !IsDecimalInt(s)
    ensures Atoi(s) == 0
  {
    var body := if |s| > 0 && (s[0] == '-' || s[0] == '+') then s[1..] else s;
    if body != [] {
      assert !AllDigits(body);
      if |body| <= 19 {
        ScanShort(body);
      } else {
        var p := body[..|body| - 1];
        ScanShort(p);
        if ScanDecimal(p).Value? {
          assert !IsDigit(body[|body| - 1]) by {
            assert forall i :: 0 <= i < |p| ==> p[i] == body[i];
          }
        }
      }
    }
  }
}
