/** String primitives behind the services' string handling: substring search,
    `String.prototype.split` with a non-empty separator string and its inverse
    `Array.prototype.join`, and the decimal rendering of a non-negative integer
    that a template literal produces. */
module Strings {
  import opened Wrappers

  /** `pat` occurs in `s` starting at index `i`. */
  predicate OccursAt(s: string, pat: string, i: nat) {
    i + |pat| <= |s| && s[i..i + |pat|] == pat
  }

  /** `s.includes(pat)`. */
  predicate Contains(s: string, pat: string) {
    exists i: nat :: i <= |s| && OccursAt(s, pat, i)
  }

  /** `s.indexOf(pat)` with `-1` as `None`: the first index at which `pat` occurs. */
  function IndexOf(s: string, pat: string): (r: Option<nat>)
    ensures r.Some? ==> OccursAt(s, pat, r.value)
    ensures r.Some? ==> forall j: nat :: j < r.value ==> !OccursAt(s, pat, j)
    ensures r.None? <==> !Contains(s, pat)
  {
    IndexFrom(s, pat, 0)
  }

  function IndexFrom(s: string, pat: string, from: nat): (r: Option<nat>)
    requires from <= |s| + 1
    ensures r.Some? ==> from <= r.value && OccursAt(s, pat, r.value)
    ensures r.Some? ==> forall j: nat :: from <= j < r.value ==> !OccursAt(s, pat, j)
    ensures r.None? ==> forall j: nat :: from <= j ==> !OccursAt(s, pat, j)
    decreases |s| + 1 - from
  {
    if from + |pat| > |s| then None
    else if s[from..from + |pat|] == pat then Some(from)
    else IndexFrom(s, pat, from + 1)
  }

  /** `s.split(sep)` for a non-empty separator: the pieces between
      consecutive non-overlapping occurrences of `sep`, scanning left to right. */
  function Split(s: string, sep: string): (parts: seq<string>)
    requires |sep| > 0
    ensures |parts| >= 1
    ensures |parts| <= |s| + 1
    decreases |s|
  {
    match IndexOf(s, sep)
    case None => [s]
    case Some(i) => [s[..i]] + Split(s[i + |sep|..], sep)
  }

  /** `parts.join(sep)`. */
  function Join(parts: seq<string>, sep: string): string
    requires |parts| >= 1
  {
    if |parts| == 1 then parts[0] else parts[0] + sep + Join(parts[1..], sep)
  }

  lemma JoinCons(head: string, tail: seq<string>, sep: string)
    requires |tail| >= 1
    ensures Join([head] + tail, sep) == head + sep + Join(tail, sep)
  {
    assert ([head] + tail)[1..] == tail;
  }

  /** One step of the split: the piece before the first occurrence, then
      the split of what follows it. */
  lemma SplitStep(s: string, sep: string, i: nat)
    requires |sep| > 0 && IndexOf(s, sep) == Some(i)
    ensures Split(s, sep) == [s[..i]] + Split(s[i + |sep|..], sep)
    ensures s == s[..i] + sep + s[i + |sep|..]
  {
    Around(s, i, i + |sep|);
  }

  lemma Around(s: string, i: nat, j: nat)
    requires i <= j <= |s|
    ensures s == s[..i] + s[i..j] + s[j..]
  {
  }

  /** Splitting and re-joining on the same separator gives back the string. */
  lemma {:induction false} JoinSplit(s: string, sep: string)
    requires |sep| > 0
    ensures Join(Split(s, sep), sep) == s
    decreases |s|
  {
    match IndexOf(s, sep)
    case None =>
    case Some(i) =>
      var rest := s[i + |sep|..];
      SplitStep(s, sep, i);
      JoinSplit(rest, sep);
      JoinCons(s[..i], Split(rest, sep), sep);
  }

  /** No piece of a split contains the separator. */
  lemma {:induction false} SplitPieceFree(s: string, sep: string, k: nat)
    requires |sep| > 0
    requires k < |Split(s, sep)|
    ensures !Contains(Split(s, sep)[k], sep)
    decreases |s|
  {
    match IndexOf(s, sep)
    case None =>
    case Some(i) =>
      SplitStep(s, sep, i);
      if k == 0 {
        PrefixBeforeFirstIsFree(s, sep, i);
      } else {
        SplitPieceFree(s[i + |sep|..], sep, k - 1);
      }
  }

  lemma PrefixBeforeFirstIsFree(s: string, sep: string, i: nat)
    requires |sep| > 0
    requires IndexOf(s, sep) == Some(i)
    ensures !Contains(s[..i], sep)
  {
    forall j: nat | j <= i && OccursAt(s[..i], sep, j)
      ensures false
    {
      assert s[..i][j..j + |sep|] == s[j..j + |sep|];
      assert OccursAt(s, sep, j);
    }
  }

  /** The text after the first occurrence of `sep`, up to the next
      occurrence or the end: `s.split(sep)[1]` read off the string. */
  function AfterFirst(s: string, sep: string): string
    requires Contains(s, sep)
  {
    var rest := s[IndexOf(s, sep).value + |sep|..];
    match IndexOf(rest, sep)
    case None => rest
    case Some(j) => rest[..j]
  }

  /** The second piece of a split is the text between the first occurrence
      of the separator and the next one, or the end. */
  lemma SplitSecondPiece(s: string, sep: string)
    requires |sep| > 0 && Contains(s, sep)
    ensures |Split(s, sep)| >= 2
    ensures Split(s, sep)[1] == AfterFirst(s, sep)
  {
    var i := IndexOf(s, sep).value;
    var rest := s[i + |sep|..];
    SplitStep(s, sep, i);
    match IndexOf(rest, sep)
    case None =>
    case Some(j) => SplitStep(rest, sep, j);
  }

  /** The split has a second piece exactly when the separator occurs. */
  lemma SplitHasSecondPiece(s: string, sep: string)
    requires |sep| > 0
    ensures |Split(s, sep)| >= 2 <==> Contains(s, sep)
  {
  }

  /** If `sep` occurs first right after `head`, the split starts with `head`
      and continues with the split of whatever follows that occurrence. */
  lemma SplitAfterFirst(head: string, sep: string, tail: string)
    requires |sep| > 0
    requires IndexOf(head + sep + tail, sep) == Some(|head|)
    ensures Split(head + sep + tail, sep) == [head] + Split(tail, sep)
  {
    var s := head + sep + tail;
    assert s[..|head|] == head;
    assert s[|head| + |sep|..] == tail;
  }

  /** An occurrence that ends inside a prefix is an occurrence in that prefix. */
  lemma OccursInPrefix(p: string, s: string, pat: string, i: nat)
    requires |p| <= |s| && s[..|p|] == p
    requires i + |pat| <= |p|
    requires OccursAt(s, pat, i)
    ensures OccursAt(p, pat, i)
  {
    assert p[i..i + |pat|] == s[i..i + |pat|];
  }

  // ---------------------------------------------------------------------
  // Decimal numerals
  // ---------------------------------------------------------------------

  predicate IsDigit(c: char) {
    '0' <= c <= '9'
  }

  predicate AllDigits(s: string) {
    forall i :: 0 <= i < |s| ==> IsDigit(s[i])
  }

  function DigitChar(d: nat): (c: char)
    requires d < 10
    ensures IsDigit(c)
  {
    ['0', '1', '2', '3', '4', '5', '6', '7', '8', '9'][d]
  }

  function DigitValue(c: char): (d: nat)
    requires IsDigit(c)
    ensures d < 10
  {
    (c as int - '0' as int) as nat
  }

  /** `${n}` for a non-negative integer: its shortest decimal numeral. */
  function Decimal(n: nat): (r: string)
    ensures |r| >= 1 && AllDigits(r)
    ensures r[0] != '0' || n == 0
  {
    if n < 10 then [DigitChar(n)] else Decimal(n / 10) + [DigitChar(n % 10)]
  }

  /** The value of a numeral. */
  function DecimalValue(s: string): nat
    requires AllDigits(s)
  {
    if |s| == 0 then 0 else DecimalValue(s[..|s| - 1]) * 10 + DigitValue(s[|s| - 1])
  }

  /** Reading a rendered numeral back gives the number. */
  lemma {:induction false} DecimalRoundTrip(n: nat)
    ensures DecimalValue(Decimal(n)) == n
  {
    var r := Decimal(n);
    if n < 10 {
      assert r[..|r| - 1] == [];
    } else {
      DecimalRoundTrip(n / 10);
      assert r[..|r| - 1] == Decimal(n / 10);
    }
  }

  /** Distinct numbers have distinct numerals. */
  lemma DecimalInjective(a: nat, b: nat)
    requires Decimal(a) == Decimal(b)
    ensures a == b
  {
    DecimalRoundTrip(a);
    DecimalRoundTrip(b);
  }

  /** The length of the longest all-digit prefix of `s`. */
  function LeadingDigits(s: string): (n: nat)
    ensures n <= |s|
  {
    if |s| > 0 && IsDigit(s[0]) then 1 + LeadingDigits(s[1..]) else 0
  }

  lemma {:induction false} LeadingDigitsOf(d: string, delim: char, x: string)
    requires AllDigits(d) && !IsDigit(delim)
    ensures LeadingDigits(d + [delim] + x) == |d|
    decreases |d|
  {
    if |d| == 0 {
      assert (d + [delim] + x)[0] == delim;
    } else {
      LeadingDigitsOf(d[1..], delim, x);
      assert (d + [delim] + x)[1..] == d[1..] + [delim] + x;
    }
  }

  /** A numeral followed by a non-digit delimiter can be cut off unambiguously:
      equal strings of that shape have equal numbers and equal remainders. */
  lemma DecimalPrefixUnique(a: nat, x: string, b: nat, y: string, delim: char)
    requires !IsDigit(delim)
    requires Decimal(a) + [delim] + x == Decimal(b) + [delim] + y
    ensures a == b && x == y
  {
    var da, db := Decimal(a), Decimal(b);
    var s := da + [delim] + x;
    LeadingDigitsOf(da, delim, x);
    LeadingDigitsOf(db, delim, y);
    assert da == s[..|da|] == db;
    DecimalInjective(a, b);
    assert x == s[|da| + 1..] == y;
  }
}
