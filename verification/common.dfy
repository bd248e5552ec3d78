/** Shared vocabulary of the model: optional values, Rx-style results, paged lists,
    the data-source switch, and the few string operations the client relies on
    (Java/Kotlin trimming, `split`, `indexOf`, `contains`, decimal formatting). */
module Common {

  /** A nullable value. */
  datatype Option<+T> = None | Some(value: T)

  /** An opaque failure (a Java/Kotlin throwable that reaches an Rx error channel). */
  datatype Error = Error(reason: string)

  /** A `Single`/`Maybe` that either emits a value or signals an error. */
  datatype Result<+T> = Ok(value: T) | Err(error: Error)

  /** A `Completable`: completes or signals an error. */
  datatype Completion = Completed | Errored(error: Error)

  /** Where a repository reads from first. */
  datatype DataSourceType = Cache | Remote

  /** A page of results with its paging metadata. */
  datatype PagedList<+T> = PagedList(list: seq<T>, page: int, hasNext: bool, hasPrev: bool)

  /** `PagedList(list)` with the default metadata: first page, nothing before or after. */
  function SinglePage<T>(xs: seq<T>): PagedList<T>
  {
    PagedList(xs, 1, false, false)
  }

  // ---------------------------------------------------------------------------
  // Trimming
  // ---------------------------------------------------------------------------

  /** The characters `java.lang.String.trim` removes: every code point up to U+0020. */
  predicate IsJavaTrimmable(c: char)
  {
    c as int <= 0x20
  }

  /** Kotlin's `Char.isWhitespace`: `Character.isWhitespace` or `Character.isSpaceChar`. */
  predicate IsKotlinWhitespace(c: char)
  {
    var n := c as int;
    || (0x09 <= n <= 0x0D) || (0x1C <= n <= 0x20)
    || n == 0xA0 || n == 0x1680 || (0x2000 <= n <= 0x200A)
    || n == 0x2028 || n == 0x2029 || n == 0x202F || n == 0x205F || n == 0x3000
  }

  /** Number of leading characters of `s` that satisfy `ws`. */
  function LeadingCount(s: string, ws: char -> bool): (n: nat)
    ensures n <= |s|
    ensures forall i :: 0 <= i < n ==> ws(s[i])
    ensures n < |s| ==> !ws(s[n])
    decreases |s|
  {
    if |s| > 0 && ws(s[0]) then 1 + LeadingCount(s[1..], ws) else 0
  }

  /** Number of trailing characters of `s` that satisfy `ws`. */
  function TrailingCount(s: string, ws: char -> bool): (n: nat)
    ensures n <= |s|
    ensures forall i :: |s| - n <= i < |s| ==> ws(s[i])
    ensures n < |s| ==> !ws(s[|s| - 1 - n])
    decreases |s|
  {
    if |s| > 0 && ws(s[|s| - 1]) then 1 + TrailingCount(s[..|s| - 1], ws) else 0
  }

  /** `s` with its maximal `ws`-prefix and `ws`-suffix removed. */
  function Trim(s: string, ws: char -> bool): (r: string)
    ensures |r| <= |s|
    ensures |r| > 0 ==> !ws(r[0]) && !ws(r[|r| - 1])
    ensures exists a :: 0 <= a <= |s| - |r| && IsTrimOf(s, ws, a, r)
  {
    var a := LeadingCount(s, ws);
    var rest := s[a..];
    var b := a + |rest| - TrailingCount(rest, ws);
    assert IsTrimOf(s, ws, a, s[a..b]);
    s[a..b]
  }

  /** `r` sits at offset `a` of `s` and everything of `s` around it satisfies `ws`. */
  ghost predicate IsTrimOf(s: string, ws: char -> bool, a: nat, r: string)
  {
    && a + |r| <= |s|
    && s[a..a + |r|] == r
    && (forall i :: 0 <= i < a ==> ws(s[i]))
    && (forall i :: a + |r| <= i < |s| ==> ws(s[i]))
  }

  /** Trimming twice is trimming once. */
  lemma TrimIdempotent(s: string, ws: char -> bool)
    ensures Trim(Trim(s, ws), ws) == Trim(s, ws)
  {
  }

  /** A string that neither starts nor ends with a `ws` character is its own trim. */
  lemma TrimOfTrimmed(s: string, ws: char -> bool)
    requires |s| > 0 ==> !ws(s[0]) && !ws(s[|s| - 1])
    ensures Trim(s, ws) == s
  {
  }

  // ---------------------------------------------------------------------------
  // Splitting and searching
  // ---------------------------------------------------------------------------

  /** `s` cut at every `sep`, keeping empty pieces (so there is one more piece than separators). */
  function Split(s: string, sep: char): (parts: seq<string>)
    ensures |parts| >= 1
    ensures forall i :: 0 <= i < |parts| ==> sep !in parts[i]
    decreases |s|
  {
    if |s| == 0 then [""]
    else
      var rest := Split(s[1..], sep);
      if s[0] == sep then [""] + rest
      else [[s[0]] + rest[0]] + rest[1..]
  }

  /** The pieces glued back with `sep` between consecutive ones. */
  function Join(parts: seq<string>, sep: char): string
    decreases |parts|
  {
    if |parts| == 0 then ""
    else if |parts| == 1 then parts[0]
    else parts[0] + [sep] + Join(parts[1..], sep)
  }

  /** Splitting loses nothing: joining the pieces gives the input back. */
  lemma {:induction false} JoinSplit(s: string, sep: char)
    ensures Join(Split(s, sep), sep) == s
    decreases |s|
  {
    if |s| > 0 {
      var rest := Split(s[1..], sep);
      JoinSplit(s[1..], sep);
      if s[0] == sep {
        assert Split(s, sep)[1..] == rest;
        calc {
          Join(Split(s, sep), sep);
          "" + [sep] + Join(rest, sep);
          [s[0]] + s[1..];
          s;
        }
      } else {
        var parts := Split(s, sep);
        if |rest| == 1 {
          assert parts == [[s[0]] + rest[0]];
          assert Join(rest, sep) == rest[0];
          assert [s[0]] + s[1..] == s;
        } else {
          assert parts[1..] == rest[1..];
          assert Join(rest, sep) == rest[0] + [sep] + Join(rest[1..], sep);
          assert Join(parts, sep) == [s[0]] + rest[0] + [sep] + Join(rest[1..], sep);
          assert [s[0]] + s[1..] == s;
        }
      }
    }
  }

  /** Java `indexOf(char)`: the first position of `c` in `s`, if any. */
  function IndexOfChar(s: string, c: char): (r: Option<nat>)
    ensures r.Some? ==> r.value < |s| && s[r.value] == c && c !in s[..r.value]
    ensures r.None? <==> c !in s
    decreases |s|
  {
    if |s| == 0 then None
    else if s[0] == c then Some(0)
    else match IndexOfChar(s[1..], c)
      case None => None
      case Some(i) =>
        assert s[..i + 1] == [s[0]] + s[1..][..i];
        Some(i + 1)
  }

  /** The position of the first element of `xs` satisfying `p`, if any. */
  function FirstIndexWhere<T>(xs: seq<T>, p: T -> bool): (r: Option<nat>)
    ensures r.None? <==> forall i :: 0 <= i < |xs| ==> !p(xs[i])
    ensures r.Some? ==> IsFirstWhere(xs, p, r.value)
    decreases |xs|
  {
    if |xs| == 0 then None
    else if p(xs[0]) then Some(0)
    else match FirstIndexWhere(xs[1..], p)
      case None => None
      case Some(i) =>
        assert forall j :: 1 <= j <= i ==> xs[j] == xs[1..][j - 1];
        Some(i + 1)
  }

  /** Element `i` satisfies `p` and no earlier one does. */
  ghost predicate IsFirstWhere<T>(xs: seq<T>, p: T -> bool, i: int)
  {
    0 <= i < |xs| && p(xs[i]) && forall j :: 0 <= j < i ==> !p(xs[j])
  }

  /** There is at most one first match. */
  lemma FirstWhereIsUnique<T>(xs: seq<T>, p: T -> bool, i: int, j: int)
    requires IsFirstWhere(xs, p, i) && IsFirstWhere(xs, p, j)
    ensures i == j
  {
  }

  /** `p` occurs in `s` starting at position `i`. */
  predicate OccursAt(p: string, s: string, i: nat)
  {
    i + |p| <= |s| && s[i..i + |p|] == p
  }

  /** `p` is a substring of `s` (Kotlin's `p in s`). */
  ghost predicate Contains(s: string, p: string)
  {
    exists i: nat :: OccursAt(p, s, i)
  }

  /** Java `indexOf(String, from)`: the first occurrence of `p` in `s` at or after `from`. */
  function IndexOfFrom(s: string, p: string, from: nat): (r: Option<nat>)
    ensures r.Some? ==> from <= r.value && OccursAt(p, s, r.value)
    ensures r.Some? ==> forall j: nat :: from <= j < r.value ==> !OccursAt(p, s, j)
    ensures r.None? ==> forall j: nat :: from <= j ==> !OccursAt(p, s, j)
    decreases |s| - from
  {
    if from + |p| > |s| then None
    else if s[from..from + |p|] == p then Some(from)
    else IndexOfFrom(s, p, from + 1)
  }

  /** `p` is a substring of `s` exactly when the search finds it. */
  function ContainsString(s: string, p: string): (b: bool)
    ensures b <==> Contains(s, p)
  {
    IndexOfFrom(s, p, 0).Some?
  }

  /** Text added before or after keeps every substring. */
  lemma ContainsWidens(s: string, p: string, before: string, after: string)
    requires Contains(s, p)
    ensures Contains(before + s + after, p)
  {
    var i: nat :| OccursAt(p, s, i);
    var t := before + s + after;
    assert t[|before| + i..|before| + i + |p|] == s[i..i + |p|];
    assert OccursAt(p, t, |before| + i);
  }

  // ---------------------------------------------------------------------------
  // Decimal numerals
  // ---------------------------------------------------------------------------

  predicate IsDigit(c: char)
  {
    '0' as int <= c as int <= '9' as int
  }

  function DigitChar(d: nat): (c: char)
    requires d < 10
    ensures IsDigit(c) && c as int - '0' as int == d
  {
    ('0' as int + d) as char
  }

  /** Kotlin/Java decimal rendering of a non-negative integer (`StringBuilder.append(Long)`). */
  function NatToString(n: nat): (s: string)
    ensures |s| >= 1
    ensures forall i :: 0 <= i < |s| ==> IsDigit(s[i])
    ensures n > 0 ==> s[0] != '0'
    decreases n
  {
    if n < 10 then [DigitChar(n)] else NatToString(n / 10) + [DigitChar(n % 10)]
  }

  /** The value of a string of decimal digits. */
  function ParseDecimal(s: string): nat
    requires forall i :: 0 <= i < |s| ==> IsDigit(s[i])
    decreases |s|
  {
    if |s| == 0 then 0
    else
      assert IsDigit(s[|s| - 1]);
      10 * ParseDecimal(s[..|s| - 1]) + (s[|s| - 1] as int - '0' as int)
  }

  /** Reading back a rendered number gives the number. */
  lemma {:induction false} ParseNatToString(n: nat)
    ensures ParseDecimal(NatToString(n)) == n
    decreases n
  {
    if n >= 10 {
      var s := NatToString(n);
      ParseNatToString(n / 10);
      assert s[..|s| - 1] == NatToString(n / 10);
    }
  }
}
