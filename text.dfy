/** Character and string primitives of the JavaScript runtime that the app's
    handlers rely on: `String.prototype.trim`, `String.prototype.indexOf`, and
    the decimal rendering of a non-negative integer inside a template string. */
module Text {

  /** The characters `trim()` removes: ECMAScript's WhiteSpace (TAB, VT, FF,
      ZWNBSP and every Zs space separator) and LineTerminator (LF, CR, LS, PS). */
  predicate IsWhitespace(c: char) {
    c in WhitespaceChars || '\U{2000}' <= c <= '\U{200A}'
  }

  /** The whitespace characters outside the range U+2000..U+200A. */
  const WhitespaceChars: set<char> := {
    '\t', '\U{B}', '\U{C}', ' ', '\U{A0}', '\U{1680}', '\U{202F}', '\U{205F}',
    '\U{3000}', '\U{FEFF}', '\n', '\r', '\U{2028}', '\U{2029}'
  }

  /** Drops the leading whitespace of `s`. */
  function TrimStart(s: string): (r: string)
    ensures |r| <= |s| && r == s[|s| - |r|..]
    ensures r == [] || !IsWhitespace(r[0])
    ensures forall i :: 0 <= i < |s| - |r| ==> IsWhitespace(s[i])
  {
    if s != [] && IsWhitespace(s[0]) then TrimStart(s[1..]) else s
  }

  /** Drops the trailing whitespace of `s`. */
  function TrimEnd(s: string): (r: string)
    ensures |r| <= |s| && r == s[..|r|]
    ensures r == [] || !IsWhitespace(r[|r| - 1])
    ensures forall i :: |r| <= i < |s| ==> IsWhitespace(s[i])
  {
    if s != [] && IsWhitespace(s[|s| - 1]) then TrimEnd(s[..|s| - 1]) else s
  }

  /** `s.trim()`: `s` without its leading and trailing whitespace; it neither
      starts nor ends with whitespace (`TrimExact` locates it in `s`). */
  function Trim(s: string): (r: string)
    ensures Trimmed(r)
  {
    TrimEnd(TrimStart(s))
  }

  /** `Trim(s)` is the infix of `s` that starts where the leading whitespace
      ends, with only whitespace before and after it; with `TrimUnique`, this
      determines it. */
  lemma TrimExact(s: string)
    ensures var k := |s| - |TrimStart(s)|;
      OccursAt(s, Trim(s), k) && WhitespaceOutside(s, k, k + |Trim(s)|)
  {
    var t := TrimStart(s);
    var r := TrimEnd(t);
    assert OccursAt(s, r, |s| - |t|) by {
      PrefixOfSuffixOccurs(s, t, r);
    }
    assert WhitespaceOutside(s, |s| - |t|, |s| - |t| + |r|) by {
      WhitespaceAround(s, t, |r|);
    }
    assert r == Trim(s);
  }

  /** A prefix of a suffix of `s` occurs in `s` where the suffix starts. */
  lemma PrefixOfSuffixOccurs(s: string, t: string, r: string)
    requires |t| <= |s| && t == s[|s| - |t|..]
    requires |r| <= |t| && r == t[..|r|]
    ensures OccursAt(s, r, |s| - |t|)
  {
    PrefixOfSuffix(s, |s| - |t|, |r|);
  }

  /** Whitespace before a suffix `t` of `s`, and whitespace after the first
      `n` characters of `t`, is whitespace outside `s[|s| - |t|..|s| - |t| + n]`. */
  lemma WhitespaceAround(s: string, t: string, n: int)
    requires |t| <= |s| && t == s[|s| - |t|..]
    requires forall i :: 0 <= i < |s| - |t| ==> IsWhitespace(s[i])
    requires 0 <= n <= |t| && forall i :: n <= i < |t| ==> IsWhitespace(t[i])
    ensures WhitespaceOutside(s, |s| - |t|, |s| - |t| + n)
  {
    var k := |s| - |t|;
    forall i | k + n <= i < |s| ensures IsWhitespace(s[i]) {
      assert s[i] == t[i - k];
    }
  }

  /** Every character of `s` outside `s[lo..hi]` is whitespace. */
  predicate WhitespaceOutside(s: string, lo: int, hi: int) {
    (forall i :: 0 <= i < lo && i < |s| ==> IsWhitespace(s[i]))
    && (forall i :: hi <= i < |s| && 0 <= i ==> IsWhitespace(s[i]))
  }

  /** Neither starts nor ends with whitespace. */
  predicate Trimmed(r: string) {
    r == [] || (!IsWhitespace(r[0]) && !IsWhitespace(r[|r| - 1]))
  }

  /** `Trim` is the only infix with whitespace around it that neither starts
      nor ends with whitespace. */
  lemma TrimUnique(s: string, r: string, k: int)
    requires OccursAt(s, r, k) && WhitespaceOutside(s, k, k + |r|) && Trimmed(r)
    ensures r == Trim(s)
  {
    TrimExact(s);
    SurroundedUnique(s, r, k, Trim(s), |s| - |TrimStart(s)|);
  }

  /** Two trimmed infixes of `s` with only whitespace around them are equal. */
  lemma SurroundedUnique(s: string, r: string, k: int, t: string, j: int)
    requires OccursAt(s, r, k) && WhitespaceOutside(s, k, k + |r|) && Trimmed(r)
    requires OccursAt(s, t, j) && WhitespaceOutside(s, j, j + |t|) && Trimmed(t)
    ensures r == t
  {
    if r != [] && t != [] {
      assert s[k] == r[0] && s[k + |r| - 1] == r[|r| - 1];
      assert s[j] == t[0] && s[j + |t| - 1] == t[|t| - 1];
      assert j == k;
      assert j + |t| == k + |r|;
    }
  }

  /** A prefix of a suffix is an infix. */
  lemma PrefixOfSuffix(s: string, k: nat, n: nat)
    requires k + n <= |s|
    ensures s[k..][..n] == s[k..k + n]
  {
  }

  /** The test `s.trim().length > 0` that the forms use to enable saving,
      read character by character: some character of `s` is not whitespace.
      `HasTextIsTrimNonEmpty` proves the two readings equal. */
  predicate HasText(s: string) {
    s != [] && (!IsWhitespace(s[0]) || HasText(s[1..]))
  }

  /** `HasText` is exactly `s.trim().length > 0`. */
  lemma HasTextIsTrimNonEmpty(s: string)
    ensures HasText(s) <==> |Trim(s)| > 0
  {
    HasTextIffNonWhitespace(s);
    TrimNonEmptyIffNonWhitespace(s);
  }

  /** `HasText` holds exactly when `s` has a character that is not whitespace. */
  lemma {:induction false} HasTextIffNonWhitespace(s: string)
    ensures HasText(s) <==> exists i :: 0 <= i < |s| && !IsWhitespace(s[i])
  {
    if s != [] {
      HasTextIffNonWhitespace(s[1..]);
      if exists i :: 0 <= i < |s| && !IsWhitespace(s[i]) {
        var i :| 0 <= i < |s| && !IsWhitespace(s[i]);
        if i > 0 {
          assert s[1..][i - 1] == s[i];
        }
      }
      if HasText(s[1..]) {
        var j :| 0 <= j < |s[1..]| && !IsWhitespace(s[1..][j]);
        assert s[j + 1] == s[1..][j];
      }
    }
  }

  /** `s.trim()` is non-empty exactly when `s` has a character that is not
      whitespace. */
  lemma TrimNonEmptyIffNonWhitespace(s: string)
    ensures |Trim(s)| > 0 <==> exists i :: 0 <= i < |s| && !IsWhitespace(s[i])
  {
    var t := TrimStart(s);
    var r := TrimEnd(t);
    var k := |s| - |t|;
    if |r| > 0 {
      assert t[0] == s[k];
    } else {
      AllWhitespaceSplit(s, k);
    }
  }

  /** A string whose prefix up to `k` and suffix from `k` are whitespace is
      whitespace throughout. */
  lemma AllWhitespaceSplit(s: string, k: nat)
    requires k <= |s|
    requires forall i :: 0 <= i < k ==> IsWhitespace(s[i])
    requires forall j :: 0 <= j < |s[k..]| ==> IsWhitespace(s[k..][j])
    ensures forall i :: 0 <= i < |s| ==> IsWhitespace(s[i])
  {
    forall i | k <= i < |s| ensures IsWhitespace(s[i]) {
      assert s[i] == s[k..][i - k];
    }
  }

  /** `sub` occurs in `s` starting at index `i`. */
  predicate OccursAt(s: string, sub: string, i: int) {
    0 <= i && i + |sub| <= |s| && s[i..i + |sub|] == sub
  }

  /** `sub` is a substring of `s`. */
  ghost predicate Contains(s: string, sub: string) {
    exists i :: OccursAt(s, sub, i)
  }

  /** An occurrence in `s[1..]` is an occurrence in `s`, one place later. */
  lemma OccursAtShift(s: string, sub: string, j: int)
    requires s != [] && j >= 1
    ensures OccursAt(s, sub, j) <==> OccursAt(s[1..], sub, j - 1)
  {
    if j + |sub| <= |s| {
      assert s[1..][j - 1..j - 1 + |sub|] == s[j..j + |sub|];
    }
  }

  /** `s.indexOf(sub)`: the first index at which `sub` occurs in `s`, or -1. */
  function IndexOf(s: string, sub: string): (r: int)
    ensures r == -1 || OccursAt(s, sub, r)
    ensures r == -1 ==> forall j :: !OccursAt(s, sub, j)
    ensures r != -1 ==> forall j :: 0 <= j < r ==> !OccursAt(s, sub, j)
    decreases |s|
  {
    if |sub| > |s| then
      -1
    else if s[..|sub|] == sub then
      0
    else
      var k := IndexOf(s[1..], sub);
      assert !OccursAt(s, sub, 0);
      assert forall j :: 1 <= j ==> (OccursAt(s, sub, j) <==> OccursAt(s[1..], sub, j - 1)) by {
        forall j | 1 <= j { OccursAtShift(s, sub, j); }
      }
      if k == -1 then -1 else k + 1
  }

  /** `s.indexOf(sub) > -1` is the substring test. */
  lemma IndexOfFindsSubstring(s: string, sub: string)
    ensures IndexOf(s, sub) > -1 <==> Contains(s, sub)
  {
  }

  predicate IsDigit(c: char) {
    '0' <= c <= '9'
  }

  function DigitChar(d: nat): (c: char)
    requires d < 10
    ensures IsDigit(c) && (c as int) - ('0' as int) == d
  {
    ('0' as int + d) as char
  }

  function DigitValue(c: char): nat
    requires IsDigit(c)
  {
    (c as int) - ('0' as int)
  }

  predicate AllDigits(s: string) {
    forall i :: 0 <= i < |s| ==> IsDigit(s[i])
  }

  /** The decimal reading of a digit string. */
  function ParseDecimal(s: string): nat
    requires AllDigits(s)
  {
    if s == [] then 0 else 10 * ParseDecimal(s[..|s| - 1]) + DigitValue(s[|s| - 1])
  }

  /** `${n}` for a non-negative integer `n`: its decimal digits, without
      leading zeros. */
  function ShowNat(n: nat): (r: string)
    ensures |r| >= 1 && AllDigits(r)
    ensures r[0] != '0' || n == 0
    ensures n < 10 <==> |r| == 1
  {
    if n < 10 then [DigitChar(n)] else ShowNat(n / 10) + [DigitChar(n % 10)]
  }

  /** A digit string as `${n}` renders one: at least one digit, and no
      leading zero unless it is "0" itself. */
  predicate Canonical(d: string) {
    |d| >= 1 && AllDigits(d) && (d[0] != '0' || |d| == 1)
  }

  /** Rendering the number a canonical digit string reads as gives that
      string back, so `ShowNat` is the only canonical rendering. */
  lemma {:induction false} ShowParseCanonical(d: string)
    requires Canonical(d)
    ensures ShowNat(ParseDecimal(d)) == d
    decreases |d|
  {
    var n := ParseDecimal(d);
    if |d| == 1 {
      assert d[..|d| - 1] == [];
    } else {
      var p := d[..|d| - 1];
      assert p[0] == d[0];
      ShowParseCanonical(p);
      assert ParseDecimal(p) != 0 by {
        assert ShowNat(0) == "0";
      }
      assert n / 10 == ParseDecimal(p) && n % 10 == DigitValue(d[|d| - 1]);
      assert d == p + [d[|d| - 1]];
    }
  }

  /** Reading back what `ShowNat` renders gives the number. */
  lemma {:induction false} ParseShowNat(n: nat)
    ensures ParseDecimal(ShowNat(n)) == n
  {
    var r := ShowNat(n);
    if n >= 10 {
      ParseShowNat(n / 10);
      assert r[..|r| - 1] == ShowNat(n / 10);
    }
  }
}
