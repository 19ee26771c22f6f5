/** The server's doctor-name helpers: `cleanDoctorName` strips one leading
    `Dr` prefix (the case-insensitive pattern `^dr\.?\s*`) and trims, and
    `formatDoctorName` puts exactly one `Dr. ` in front of the cleaned name.
    A name is `None` when it is `null` or `undefined`.
 */
module DoctorNames {

  import opened Wrappers
  import opened Text
  import Js

  /** The name starts with `dr` in any letter case. */
  predicate HasDrPrefix(s: string) {
    |s| >= 2 && LowerChar(s[0]) == 'd' && LowerChar(s[1]) == 'r'
  }

  /** The position of the first non-whitespace character at or after `i`. */
  function SkipSpace(s: string, i: nat): (j: nat)
    requires i <= |s|
    ensures i <= j <= |s|
    ensures AllSpace(s[i..j])
    ensures j == |s| || !IsSpace(s[j])
    decreases |s| - i
  {
    if i < |s| && IsSpace(s[i]) then
      var j := SkipSpace(s, i + 1);
      assert s[i..j] == [s[i]] + s[i + 1..j];
      j
    else i
  }

  /** How many characters the case-insensitive pattern `^dr\.?\s*` matches at the start of `s`
      (0 when it does not match). */
  function MatchLength(s: string): (k: nat)
    ensures k <= |s|
    ensures !HasDrPrefix(s) ==> k == 0
    ensures HasDrPrefix(s) ==> 2 <= k
  {
    if !HasDrPrefix(s) then 0
    else if |s| > 2 && s[2] == '.' then SkipSpace(s, 3)
    else SkipSpace(s, 2)
  }

  /** Where the name proper starts once the `dr` and its optional dot are
      dropped (the whitespace after them is left to `trim`). */
  function NameStart(s: string): (k: nat)
    ensures k <= |s|
  {
    if !HasDrPrefix(s) then 0
    else if |s| > 2 && s[2] == '.' then 3
    else 2
  }

  /** `cleanDoctorName(name)`. The result never has outer whitespace; a name
      without the prefix is only trimmed; with the prefix, the `\s*` part of
      the pattern changes nothing because `trim` removes that whitespace too. */
  function Clean(name: Option<string>): (r: string)
    ensures !Js.Filled(name) ==> r == ""
    ensures NoOuterSpace(r)
    ensures Js.Filled(name) && !HasDrPrefix(name.value) ==> r == Trim(name.value)
    ensures Js.Filled(name) ==> r == Trim(name.value[NameStart(name.value)..])
  {
    if !Js.Filled(name) then ""
    else
      var s := name.value;
      var k := MatchLength(s);
      var n := NameStart(s);
      assert s[n..][..k - n] == s[n..k];
      TrimSkip(s[n..], k - n);
      assert s[n..][k - n..] == s[k..];
      Trim(s[k..])
  }

  /** `formatDoctorName(name)`: `Doctor` for a missing or empty name,
      otherwise `Dr. ` followed by the cleaned name. */
  function Format(name: Option<string>): (r: string)
    ensures !Js.Filled(name) ==> r == "Doctor"
    ensures Js.Filled(name) ==> StartsWith(r, "Dr. ")
  {
    if !Js.Filled(name) then "Doctor" else "Dr. " + Clean(name)
  }

  /** `Dr. ` in front of a trimmed name is exactly what `cleanDoctorName` strips. */
  lemma CleanDrDot(c: string)
    requires NoOuterSpace(c)
    ensures Clean(Some("Dr. " + c)) == c
  {
    var f := "Dr. " + c;
    var t := [' '] + c;
    assert f[0] == 'D' && f[1] == 'r' && f[2] == '.';
    assert NameStart(f) == 3;
    assert f[3..] == t;
    assert AllSpace(t[..1]);
    TrimSkip(t, 1);
    assert t[1..] == c;
    TrimOfTrimmed(c);
  }

  /** Cleaning a formatted name gives the cleaned name back: the added
      prefix is exactly what `cleanDoctorName` strips. */
  lemma CleanOfFormat(name: Option<string>)
    requires Js.Filled(name)
    ensures Clean(Some(Format(name))) == Clean(name)
  {
    CleanDrDot(Clean(name));
  }

  /** Formatting is idempotent on names that are present: a formatted name
      never gains a second `Dr. `. */
  lemma FormatIdempotent(name: Option<string>)
    requires Js.Filled(name)
    ensures Format(Some(Format(name))) == Format(name)
  {
    CleanOfFormat(name);
  }

  /** Only one prefix is removed, so `Dr. Dr. X` keeps its second `Dr.`. */
  lemma CleanRemovesOnePrefix()
    ensures Clean(Some("Dr. Dr. X")) == "Dr. X"
  {
    assert "Dr. " + "Dr. X" == "Dr. Dr. X";
    CleanDrDot("Dr. X");
  }

  /** No separator is required after `dr`, so `Drake` loses its first two letters. */
  lemma CleanDrake()
    ensures Clean(Some("Drake")) == "ake"
  {
    assert NameStart("Drake") == 2;
    assert "Drake"[2..] == "ake";
    TrimOfTrimmed("ake");
  }

  /** The pattern is anchored at the very start, so a name with leading
      whitespace keeps its prefix: `cleanDoctorName(' Dr. X')` is `Dr. X`. */
  lemma CleanLeadingSpaceKeepsPrefix(c: string)
    requires NoOuterSpace(c)
    ensures Clean(Some(" " + c)) == c
  {
    var s := [' '] + c;
    assert s[0] == ' ';
    assert !HasDrPrefix(s);
    assert AllSpace(s[..1]);
    TrimSkip(s, 1);
    assert s[1..] == c;
    TrimOfTrimmed(c);
  }
}
