/** The browser's copy of `cleanDoctorName`. It is written here the way the
    regular expression reads, by cases on the first three characters, and
    proved equal to the server's helper for every input.
 */
module ClientDoctorUtils {

  import opened Wrappers
  import opened Text
  import Js
  import DoctorNames

  /** `d`/`D` followed by `r`/`R`. */
  predicate StartsWithDr(s: string) {
    |s| >= 2 && (s[0] == 'd' || s[0] == 'D') && (s[1] == 'r' || s[1] == 'R')
  }

  /** `cleanDoctorName(name)` in the browser: drop `dr`, then an optional
      `.`, then leading whitespace, then trim. */
  function CleanDoctorName(name: Option<string>): (r: string)
    ensures !Js.Filled(name) ==> r == ""
    ensures NoOuterSpace(r)
  {
    if !Js.Filled(name) then ""
    else
      var s := name.value;
      var rest :=
        if !StartsWithDr(s) then s
        else if |s| >= 3 && s[2] == '.' then s[3..]
        else s[2..];
      Trim(TrimStart(rest))
  }

  /** Both copies of `cleanDoctorName` give the same result on every input,
      so names are shown the same way on both sides. */
  lemma SameAsServer(name: Option<string>)
    ensures CleanDoctorName(name) == DoctorNames.Clean(name)
  {
    if Js.Filled(name) {
      var s := name.value;
      SamePrefixTest(s);
      var rest := if !StartsWithDr(s) then s else if |s| >= 3 && s[2] == '.' then s[3..] else s[2..];
      assert rest == s[DoctorNames.NameStart(s)..];
      assert CleanDoctorName(name) == Trim(TrimStart(rest));
      TrimAfterTrimStart(rest);
    }
  }

  /** The two spellings of the prefix test agree. */
  lemma SamePrefixTest(s: string)
    ensures StartsWithDr(s) <==> DoctorNames.HasDrPrefix(s)
  {
    if |s| >= 2 {
      assert LowerChar(s[0]) == 'd' <==> s[0] == 'd' || s[0] == 'D';
      assert LowerChar(s[1]) == 'r' <==> s[1] == 'r' || s[1] == 'R';
    }
  }
}
