/** String helpers with the meaning JavaScript gives them, restricted to ASCII:
    `trim`, `toUpperCase`, `startsWith` and the regular-expression class `\s`.
 */
module Text {

  /** ASCII whitespace: the characters of `\s` and of `String.prototype.trim`
      below code point 128 (space, tab, line feed, vertical tab, form feed,
      carriage return). */
  predicate IsSpace(c: char) {
    c == ' ' || c == '\t' || c == '\n' || c == '\r' || c == '\U{000B}' || c == '\U{000C}'
  }

  /** Every character of `s` is whitespace. */
  predicate AllSpace(s: string) {
    forall i :: 0 <= i < |s| ==> IsSpace(s[i])
  }

  /** No whitespace anywhere in `s` (what `^\S+$` demands of a string). */
  predicate NoSpace(s: string) {
    forall i :: 0 <= i < |s| ==> !IsSpace(s[i])
  }

  /** Neither the first nor the last character is whitespace. */
  predicate NoOuterSpace(s: string) {
    |s| == 0 || (!IsSpace(s[0]) && !IsSpace(s[|s| - 1]))
  }

  /** `s` with its leading whitespace removed. */
  function TrimStart(s: string): (r: string)
    ensures |r| <= |s| && r == s[|s| - |r|..]
    ensures AllSpace(s[..|s| - |r|])
    ensures |r| == 0 || !IsSpace(r[0])
  {
    if |s| > 0 && IsSpace(s[0]) then TrimStart(s[1..]) else s
  }

  /** `s` with its trailing whitespace removed. */
  function TrimEnd(s: string): (r: string)
    ensures |r| <= |s| && r == s[..|r|]
    ensures AllSpace(s[|r|..])
    ensures |r| == 0 || !IsSpace(r[|r| - 1])
  {
    if |s| > 0 && IsSpace(s[|s| - 1]) then TrimEnd(s[..|s| - 1]) else s
  }

  /** How many leading whitespace characters `trim` removes from `s`. */
  function Lead(s: string): (k: nat)
    ensures k <= |s|
  {
    |s| - |TrimStart(s)|
  }

  /** JavaScript `s.trim()`: the slice of `s` that starts after its leading
      whitespace and stops before its trailing whitespace. */
  function Trim(s: string): (r: string)
    ensures NoOuterSpace(r)
    ensures Lead(s) + |r| <= |s|
    ensures r == s[Lead(s)..Lead(s) + |r|]
    ensures AllSpace(s[..Lead(s)]) && AllSpace(s[Lead(s) + |r|..])
  {
    var a := TrimStart(s);
    var r := TrimEnd(a);
    var k := Lead(s);
    assert a == s[k..];
    assert r == s[k..k + |r|] by {
      assert a[..|r|] == s[k..k + |r|];
    }
    assert s[k + |r|..] == a[|r|..];
    r
  }

  /** `s.trim() === ''`: the string is empty or whitespace only. */
  predicate IsBlank(s: string) {
    Trim(s) == ""
  }

  /** Trimming removes whitespace only, so a string is blank exactly when
      all of its characters are whitespace. */
  lemma BlankIffAllSpace(s: string)
    ensures IsBlank(s) <==> AllSpace(s)
  {
    var r := Trim(s);
    var k := Lead(s);
    if r == "" {
      forall i | 0 <= i < |s|
        ensures IsSpace(s[i])
      {
        assert s[..k][i] == s[i];
      }
    } else {
      assert s[k] == r[0];
      assert !IsSpace(s[k]);
    }
  }

  /** Trimming a string that has no outer whitespace gives it back. */
  lemma TrimOfTrimmed(s: string)
    requires NoOuterSpace(s)
    ensures Trim(s) == s
  {
  }

  /** Whitespace in front of a string makes no difference to its trimmed form. */
  lemma {:induction false} TrimStartSkip(s: string, j: nat)
    requires j <= |s| && AllSpace(s[..j])
    ensures TrimStart(s[j..]) == TrimStart(s)
    decreases j
  {
    if j > 0 {
      assert IsSpace(s[..j][0]);
      assert s[1..][j - 1..] == s[j..];
      assert s[1..][..j - 1] == s[..j][1..];
      TrimStartSkip(s[1..], j - 1);
    }
  }

  /** `s.slice(j).trim() === s.trim()` when the first `j` characters are whitespace. */
  lemma TrimSkip(s: string, j: nat)
    requires j <= |s| && AllSpace(s[..j])
    ensures Trim(s[j..]) == Trim(s)
  {
    TrimStartSkip(s, j);
  }

  /** Trimming the start first changes nothing about the trimmed form. */
  lemma TrimAfterTrimStart(s: string)
    ensures Trim(TrimStart(s)) == Trim(s)
  {
    var k := |s| - |TrimStart(s)|;
    TrimSkip(s, k);
  }

  /** ASCII `toUpperCase` of one character. */
  function UpperChar(c: char): char {
    if 'a' <= c <= 'z' then (c as int - 32) as char else c
  }

  /** ASCII `toUpperCase` of a string. */
  function Upper(s: string): (r: string)
    ensures |r| == |s|
    ensures forall i :: 0 <= i < |s| ==> r[i] == UpperChar(s[i])
  {
    if |s| == 0 then "" else [UpperChar(s[0])] + Upper(s[1..])
  }

  /** ASCII `toLowerCase` of one character, used for case-insensitive matching. */
  function LowerChar(c: char): char {
    if 'A' <= c <= 'Z' then (c as int + 32) as char else c
  }

  /** `s.startsWith(p)`. */
  predicate StartsWith(s: string, p: string) {
    |p| <= |s| && s[..|p|] == p
  }

  /** A string that differs from `p` at a position both have does not start with `p`. */
  lemma DiffersAt(s: string, p: string, k: nat)
    requires k < |s| && k < |p| && s[k] != p[k]
    ensures !StartsWith(s, p)
  {
    if |p| <= |s| {
      assert s[..|p|][k] == s[k];
    }
  }

  /** The decimal digit for `d`. */
  function Digit(d: nat): char
    requires d < 10
  {
    ('0' as int + d) as char
  }

  /** `${n}` for a non-negative integer: its decimal digits, most
      significant first, with no leading zero. */
  function Decimal(n: nat): (s: string)
    ensures |s| > 0
    ensures forall i :: 0 <= i < |s| ==> '0' <= s[i] <= '9'
    ensures |s| > 1 ==> s[0] != '0'
  {
    if n < 10 then [Digit(n)] else Decimal(n / 10) + [Digit(n % 10)]
  }

  /** The number a string of decimal digits denotes. */
  function DecimalValue(s: string): nat
    requires forall i :: 0 <= i < |s| ==> '0' <= s[i] <= '9'
  {
    if |s| == 0 then 0
    else DecimalValue(s[..|s| - 1]) * 10 + (s[|s| - 1] as int - '0' as int)
  }

  /** Reading the digits back gives the number, so distinct numbers print
      differently. */
  lemma {:induction false} DecimalRoundTrip(n: nat)
    ensures DecimalValue(Decimal(n)) == n
  {
    if n >= 10 {
      DecimalRoundTrip(n / 10);
      var s := Decimal(n);
      assert s[..|s| - 1] == Decimal(n / 10);
    }
  }

  /** Printing is injective. */
  lemma DecimalInjective(m: nat, n: nat)
    ensures Decimal(m) == Decimal(n) ==> m == n
  {
    DecimalRoundTrip(m);
    DecimalRoundTrip(n);
  }
}
