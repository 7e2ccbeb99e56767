/** The parts of java.lang.String the core relies on: trim, toUpperCase and
    the decimal rendering of a long. */
module Strings {

  /** `String.trim` removes every leading and trailing char whose code is at most U+0020. */
  predicate IsTrimmed(c: char) {
    c <= ' '
  }

  function TrimStart(s: string): (r: string)
    ensures |r| <= |s| && r == s[|s| - |r|..]
    ensures forall k :: 0 <= k < |s| - |r| ==> IsTrimmed(s[k])
    ensures r != [] ==> !IsTrimmed(r[0])
    decreases |s|
  {
    if s != [] && IsTrimmed(s[0]) then TrimStart(s[1..]) else s
  }

  function TrimEnd(s: string): (r: string)
    ensures |r| <= |s| && r == s[..|r|]
    ensures forall k :: |r| <= k < |s| ==> IsTrimmed(s[k])
    ensures r != [] ==> !IsTrimmed(r[|r| - 1])
    decreases |s|
  {
    if s != [] && IsTrimmed(s[|s| - 1]) then TrimEnd(s[..|s| - 1]) else s
  }

  /** The number of trimmed chars `trim` cuts off the front of `s`. */
  function LeadingTrimmed(s: string): (n: nat)
    ensures n <= |s|
  {
    |s| - |TrimStart(s)|
  }

  /** A prefix of a suffix is a slice. */
  lemma SliceOfSuffix(s: string, i: nat, n: nat)
    requires i + n <= |s|
    ensures s[i..][..n] == s[i..i + n]
  {
  }

  /** `s.trim()`: the slice of `s` that starts after its leading trimmed chars
      and neither starts nor ends with a trimmed char. */
  function Trim(s: string): (r: string)
    ensures r == [] || (!IsTrimmed(r[0]) && !IsTrimmed(r[|r| - 1]))
    ensures LeadingTrimmed(s) + |r| <= |s|
    ensures r == s[LeadingTrimmed(s)..LeadingTrimmed(s) + |r|]
  {
    var t := TrimStart(s);
    var r := TrimEnd(t);
    assert r == [] || (!IsTrimmed(r[0]) && !IsTrimmed(r[|r| - 1])) by {
      if r != [] { assert r[0] == t[0]; }
    }
    assert LeadingTrimmed(s) + |r| <= |s| && r == s[LeadingTrimmed(s)..LeadingTrimmed(s) + |r|] by {
      SliceOfSuffix(s, |s| - |t|, |r|);
    }
    r
  }

  /** Everything `trim` cuts off, on either side, is a trimmed char. */
  lemma {:induction false} TrimCutsOnlyTrimmed(s: string)
    ensures forall k :: 0 <= k < LeadingTrimmed(s) ==> IsTrimmed(s[k])
    ensures forall k :: LeadingTrimmed(s) + |Trim(s)| <= k < |s| ==> IsTrimmed(s[k])
  {
    var t := TrimStart(s);
    var i := |s| - |t|;
    assert Trim(s) == TrimEnd(t);
    forall k | i + |Trim(s)| <= k < |s| ensures IsTrimmed(s[k]) {
      assert s[k] == t[k - i];
    }
  }

  /** `Character.toUpperCase`, restricted to the ASCII letters. */
  function UpperChar(c: char): char {
    if 'a' <= c <= 'z' then (c as int - 32) as char else c
  }

  /** `s.toUpperCase()`: the same length, each char upper-cased in place. */
  function Upper(s: string): (r: string)
    ensures |r| == |s|
    ensures forall k :: 0 <= k < |s| ==> r[k] == UpperChar(s[k])
  {
    seq(|s|, k requires 0 <= k < |s| => UpperChar(s[k]))
  }

  /** A string with no char that trimming cuts or upper-casing changes. */
  predicate Canonical(s: string) {
    forall k :: 0 <= k < |s| ==> !IsTrimmed(s[k]) && UpperChar(s[k]) == s[k]
  }

  /** Trimming and upper-casing leave a canonical string as it is. */
  lemma {:induction false} CanonicalIsFixed(s: string)
    requires Canonical(s)
    ensures Trim(s) == s && Upper(s) == s && Upper(Trim(s)) == s
  {
    if s != [] {
      TrimFixed(s);
    }
  }

  /** A string that neither starts nor ends with a trimmed char is its own trim. */
  lemma {:induction false} TrimFixed(s: string)
    requires s == [] || (!IsTrimmed(s[0]) && !IsTrimmed(s[|s| - 1]))
    ensures Trim(s) == s
  {
    assert TrimStart(s) == s;
    assert TrimEnd(s) == s;
  }

  /** A leading trimmed char makes no difference to `trim`. */
  lemma {:induction false} TrimSkipsLeadingBlank(c: char, s: string)
    requires IsTrimmed(c)
    ensures Trim([c] + s) == Trim(s)
  {
    assert ([c] + s)[1..] == s;
    assert TrimStart([c] + s) == TrimStart(s);
  }

  /** Upper-casing a char never changes whether `trim` cuts it. */
  lemma UpperKeepsTrimmed(c: char)
    ensures IsTrimmed(UpperChar(c)) <==> IsTrimmed(c)
  {
  }

  /** Trimming a trimmed string changes nothing. */
  lemma {:induction false} TrimIdempotent(s: string)
    ensures Trim(Trim(s)) == Trim(s)
  {
    var t := TrimStart(s);
    var r := TrimEnd(t);
    assert TrimStart(r) == r;
    assert TrimEnd(r) == r;
  }

  lemma {:induction false} TrimStartUpper(s: string)
    ensures TrimStart(Upper(s)) == Upper(TrimStart(s))
    decreases |s|
  {
    if s != [] {
      UpperKeepsTrimmed(s[0]);
      if IsTrimmed(s[0]) {
        assert Upper(s)[1..] == Upper(s[1..]);
        TrimStartUpper(s[1..]);
      }
    }
  }

  lemma {:induction false} TrimEndUpper(s: string)
    ensures TrimEnd(Upper(s)) == Upper(TrimEnd(s))
    decreases |s|
  {
    if s != [] {
      UpperKeepsTrimmed(s[|s| - 1]);
      if IsTrimmed(s[|s| - 1]) {
        assert Upper(s)[..|s| - 1] == Upper(s[..|s| - 1]);
        TrimEndUpper(s[..|s| - 1]);
      }
    }
  }

  /** `s.toUpperCase().trim()` and `s.trim().toUpperCase()` are the same string. */
  lemma TrimUpperCommute(s: string)
    ensures Trim(Upper(s)) == Upper(Trim(s))
  {
    TrimStartUpper(s);
    TrimEndUpper(TrimStart(s));
  }

  lemma UpperIdempotent(s: string)
    ensures Upper(Upper(s)) == Upper(s)
  {
  }

  function DigitChar(d: nat): char
    requires d < 10
  {
    "0123456789"[d]
  }

  /** Decimal digits of a natural number, most significant first. */
  function NatToString(n: nat): (r: string)
    ensures |r| >= 1
    ensures forall k :: 0 <= k < |r| ==> '0' <= r[k] <= '9'
    decreases n
  {
    if n < 10 then [DigitChar(n)] else NatToString(n / 10) + [DigitChar(n % 10)]
  }

  /** `Long.toString`: a leading '-' for a negative value, then the digits. */
  function IntToString(n: int): (r: string)
    ensures |r| >= 1
    ensures (r[0] == '-') <==> n < 0
  {
    if n < 0 then "-" + NatToString(-n) else NatToString(n)
  }

  /** `w` occurs somewhere inside `s`. */
  ghost predicate Contains(s: string, w: string) {
    exists before, after :: s == before + w + after
  }

  /** Lines joined by "\n", as a message built by `+ "\n" +`. */
  function JoinLines(lines: seq<string>): (r: string)
    ensures |lines| == 1 ==> r == lines[0]
    decreases |lines|
  {
    if |lines| == 0 then ""
    else if |lines| == 1 then lines[0]
    else JoinLines(lines[..|lines| - 1]) + "\n" + lines[|lines| - 1]
  }

  /** Every line appears in the joined text. */
  lemma {:induction false} JoinLinesContains(lines: seq<string>, k: nat)
    requires k < |lines|
    ensures Contains(JoinLines(lines), lines[k])
    decreases |lines|
  {
    var init := lines[..|lines| - 1];
    var last := lines[|lines| - 1];
    if |lines| == 1 {
      assert JoinLines(lines) == [] + lines[k] + [];
    } else if k == |lines| - 1 {
      assert JoinLines(lines) == (JoinLines(init) + "\n") + last + [];
    } else {
      assert init[k] == lines[k];
      JoinLinesContains(init, k);
      var before, after :| JoinLines(init) == before + lines[k] + after;
      assert JoinLines(lines) == before + lines[k] + (after + "\n" + last);
    }
  }

  /** A text of two or more lines starts with its first line and a line break. */
  lemma {:induction false} JoinLinesStartsWithFirst(lines: seq<string>)
    requires |lines| >= 2
    ensures |lines[0]| < |JoinLines(lines)|
    ensures JoinLines(lines)[..|lines[0]| + 1] == lines[0] + "\n"
    decreases |lines|
  {
    var init := lines[..|lines| - 1];
    if |lines| > 2 {
      assert init[0] == lines[0];
      JoinLinesStartsWithFirst(init);
      assert JoinLines(lines) == JoinLines(init) + ("\n" + lines[|lines| - 1]);
    } else {
      assert JoinLines(init) == lines[0];
    }
  }
}
