/** The file-name clean-up both storage services apply before building an
    object key: `originalname.replace(/\s+/g, '-')`, which replaces every
    maximal run of whitespace by one dash. */
module FileNames {

  /** JavaScript's `\s` class: the ECMAScript WhiteSpace and LineTerminator
      code points. */
  predicate IsWhitespace(c: char) {
    || c == '\t' || c == '\n' || c == '\U{000B}' || c == '\U{000C}' || c == '\r' || c == ' '
    || c == '\U{00A0}' || c == '\U{1680}' || ('\U{2000}' <= c <= '\U{200A}')
    || c == '\U{2028}' || c == '\U{2029}' || c == '\U{202F}' || c == '\U{205F}'
    || c == '\U{3000}' || c == '\U{FEFF}'
  }

  predicate NoWhitespace(s: string) {
    forall i :: 0 <= i < |s| ==> !IsWhitespace(s[i])
  }

  /** A concatenation is free of whitespace exactly when both parts are. */
  lemma NoWhitespaceConcat(a: string, b: string)
    ensures NoWhitespace(a + b) <==> NoWhitespace(a) && NoWhitespace(b)
  {
    if NoWhitespace(a + b) {
      assert forall i :: 0 <= i < |a| ==> a[i] == (a + b)[i];
      assert forall i :: 0 <= i < |b| ==> b[i] == (a + b)[|a| + i];
    }
  }

  predicate AllWhitespace(s: string) {
    forall i :: 0 <= i < |s| ==> IsWhitespace(s[i])
  }

  /** `s` with its leading whitespace run removed. */
  function SkipWhitespace(s: string): (r: string)
    ensures |r| <= |s|
    ensures r == s[|s| - |r|..]
    ensures AllWhitespace(s[..|s| - |r|])
    ensures |r| > 0 ==> !IsWhitespace(r[0])
  {
    if |s| > 0 && IsWhitespace(s[0]) then SkipWhitespace(s[1..]) else s
  }

  /** The global regular-expression replacement: scanning left to right, the
      leftmost match of `\s+` is greedy, so it swallows the whole run of
      whitespace, which becomes a single `-`; scanning resumes after it. */
  function Sanitise(s: string): (r: string)
    ensures NoWhitespace(r)
    ensures |r| <= |s|
    decreases |s|
  {
    if |s| == 0 then []
    else if IsWhitespace(s[0]) then "-" + Sanitise(SkipWhitespace(s))
    else [s[0]] + Sanitise(s[1..])
  }

  /** The same replacement written as a one-character-at-a-time scan that
      remembers whether the previous character was whitespace: a dash is
      emitted at the first whitespace character of each run, nothing for the
      rest of the run. */
  function ScanReplace(s: string, inRun: bool): string {
    if |s| == 0 then []
    else if IsWhitespace(s[0]) then (if inRun then [] else "-") + ScanReplace(s[1..], true)
    else [s[0]] + ScanReplace(s[1..], false)
  }

  /** Inside a run, the rest of the run produces nothing. */
  lemma {:induction false} ScanSkipsRun(s: string)
    ensures ScanReplace(s, true) == ScanReplace(SkipWhitespace(s), true)
    ensures |SkipWhitespace(s)| > 0 ==>
      ScanReplace(SkipWhitespace(s), true) == ScanReplace(SkipWhitespace(s), false)
    decreases |s|
  {
    if |s| > 0 && IsWhitespace(s[0]) {
      ScanSkipsRun(s[1..]);
    }
  }

  /** The regular-expression reading and the scanning reading agree. */
  lemma {:induction false} SanitiseIsScan(s: string)
    ensures Sanitise(s) == ScanReplace(s, false)
    decreases |s|
  {
    if |s| == 0 {
    } else if IsWhitespace(s[0]) {
      var t := SkipWhitespace(s);
      SanitiseIsScan(t);
      ScanSkipsRun(s[1..]);
      assert SkipWhitespace(s[1..]) == t;
      if |t| == 0 {
        assert ScanReplace(s[1..], true) == [];
      } else {
        assert ScanReplace(s[1..], true) == ScanReplace(t, false);
      }
    } else {
      SanitiseIsScan(s[1..]);
    }
  }

  /** A name without whitespace is left unchanged. */
  lemma {:induction false} SanitiseFixesClean(s: string)
    requires NoWhitespace(s)
    ensures Sanitise(s) == s
    decreases |s|
  {
    if |s| > 0 {
      SanitiseFixesClean(s[1..]);
    }
  }

  /** Sanitising twice is the same as sanitising once. */
  lemma SanitiseIdempotent(s: string)
    ensures Sanitise(Sanitise(s)) == Sanitise(s)
  {
    SanitiseFixesClean(Sanitise(s));
  }

  lemma {:induction false} ScanSplitsAtNonWhitespace(a: string, c: char, b: string, inRun: bool)
    requires !IsWhitespace(c)
    ensures ScanReplace(a + [c] + b, inRun) == ScanReplace(a, inRun) + [c] + ScanReplace(b, false)
    decreases |a|
  {
    if |a| == 0 {
      assert (a + [c] + b)[1..] == b;
    } else {
      assert (a + [c] + b)[1..] == a[1..] + [c] + b;
      ScanSplitsAtNonWhitespace(a[1..], c, b, IsWhitespace(a[0]));
    }
  }

  /** A non-whitespace character is kept in place: the names on either side of
      it are sanitised independently. */
  lemma SanitiseKeepsNonWhitespace(a: string, c: char, b: string)
    requires !IsWhitespace(c)
    ensures Sanitise(a + [c] + b) == Sanitise(a) + [c] + Sanitise(b)
  {
    SanitiseIsScan(a + [c] + b);
    SanitiseIsScan(a);
    SanitiseIsScan(b);
    ScanSplitsAtNonWhitespace(a, c, b, false);
  }

  /** A leading whitespace run, however long, becomes exactly one dash. */
  lemma SanitiseCollapsesRun(w: string, b: string)
    requires |w| > 0 && AllWhitespace(w)
    requires |b| == 0 || !IsWhitespace(b[0])
    ensures Sanitise(w + b) == "-" + Sanitise(b)
  {
    SkipsWholeRun(w, b);
  }

  lemma {:induction false} SkipsWholeRun(w: string, b: string)
    requires AllWhitespace(w)
    requires |b| == 0 || !IsWhitespace(b[0])
    ensures SkipWhitespace(w + b) == b
    decreases |w|
  {
    if |w| > 0 {
      assert (w + b)[1..] == w[1..] + b;
      SkipsWholeRun(w[1..], b);
    } else {
      assert w + b == b;
    }
  }
}
