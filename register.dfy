/** The sign-up form's password meter and requirement checklist
    (src/pages/Register.jsx). Lengths are `length`, in UTF-16 code units. */
module Register {
  import Text

  /** The meter's reading: a level 0..3 and its caption. */
  datatype Strength = Strength(level: int, text: string)

  predicate IsLowerLetter(c: char)
  {
    'a' <= c <= 'z'
  }

  predicate IsUpperLetter(c: char)
  {
    'A' <= c <= 'Z'
  }

  /** `\d`: an ASCII digit. */
  predicate IsDigit(c: char)
  {
    '0' <= c <= '9'
  }

  /** The characters a regular expression's `.` does not match. */
  predicate IsLineTerminator(c: char)
  {
    c == '\n' || c == '\r' || c == '\U{2028}' || c == '\U{2029}'
  }

  /** The text before the first line terminator. */
  function FirstLine(s: string): (r: string)
    ensures r <= s
    ensures forall i :: 0 <= i < |r| ==> !IsLineTerminator(r[i])
    ensures |r| < |s| ==> IsLineTerminator(s[|r|])
  {
    if s == [] || IsLineTerminator(s[0]) then [] else [s[0]] + FirstLine(s[1..])
  }

  /** `/^(?=.*[a-z])(?=.*[A-Z])(?=.*\d)/`: every lookahead starts at the beginning
      and `.*` cannot cross a line terminator, so all three character classes must
      occur on the first line. */
  predicate StrongPattern(password: string)
  {
    var line := FirstLine(password);
    (exists i :: 0 <= i < |line| && IsLowerLetter(line[i]))
    && (exists i :: 0 <= i < |line| && IsUpperLetter(line[i]))
    && (exists i :: 0 <= i < |line| && IsDigit(line[i]))
  }

  /** `passwordStrength`. The level is always 0..3 and its caption matches; 0
      means exactly the empty password, 1 exactly lengths 1 to 5; lengths 6 to 9
      are Medium whatever the characters; from length 10 the level is 3 exactly
      when the first line has a lowercase letter, an uppercase letter and a digit,
      and 2 otherwise. Lengths are UTF-16 code units. */
  function PasswordStrength(password: string): (r: Strength)
    ensures 0 <= r.level <= 3 && r.text == LevelText(r.level)
    ensures r.level == 0 <==> password == ""
    ensures r.level == 1 <==> 1 <= Text.UnitLength(password) <= 5
    ensures 6 <= Text.UnitLength(password) <= 9 ==> r.level == 2
    ensures Text.UnitLength(password) >= 10 ==> (r.level == 3 <==> StrongPattern(password))
    ensures Text.UnitLength(password) >= 10 && !StrongPattern(password) ==> r.level == 2
  {
    var n := Text.UnitLength(password);
    if n == 0 then Strength(0, "")
    else if n < 6 then Strength(1, "Weak")
    else if n < 10 then Strength(2, "Medium")
    else if StrongPattern(password) then Strength(3, "Strong")
    else Strength(2, "Medium")
  }

  /** "At least 8 characters", counted in UTF-16 code units. */
  predicate LongEnough(password: string)
  {
    Text.UnitLength(password) >= 8
  }

  /** "One uppercase letter": `/[A-Z]/` anywhere. */
  predicate HasUpper(password: string)
  {
    exists i :: 0 <= i < |password| && IsUpperLetter(password[i])
  }

  /** "One number": `/\d/` anywhere. */
  predicate HasDigit(password: string)
  {
    exists i :: 0 <= i < |password| && IsDigit(password[i])
  }

  /** The caption of each level. */
  function LevelText(level: int): string
  {
    if level == 0 then "" else if level == 1 then "Weak" else if level == 2 then "Medium" else "Strong"
  }

  /** A Strong password meets every item of the checklist. */
  lemma StrongMeetsChecklist(password: string)
    requires PasswordStrength(password).level == 3
    ensures LongEnough(password) && HasUpper(password) && HasDigit(password)
  {
    var line := FirstLine(password);
    var u :| 0 <= u < |line| && IsUpperLetter(line[u]);
    var d :| 0 <= d < |line| && IsDigit(line[d]);
    assert password[u] == line[u] && password[d] == line[d];
  }

  /** The checklist is independent of the meter: a password can meet all three
      items and still read Medium by being shorter than ten characters. */
  lemma ChecklistDoesNotImplyStrong()
    ensures LongEnough("Abcdefg1") && HasUpper("Abcdefg1") && HasDigit("Abcdefg1")
    ensures PasswordStrength("Abcdefg1").level == 2
  {
    var p := "Abcdefg1";
    assert forall i :: 0 <= i < |p| ==> p[i] <= '\U{FFFF}';
    assert Text.UnitLength(p) == 8;
    assert IsUpperLetter(p[0]) && IsDigit(p[7]);
  }

  /** A character beyond U+FFFF counts twice: three emoji are six code units and
      read Medium, not Weak. */
  lemma AstralCharactersCountTwice()
    ensures Text.UnitLength("\U{1F600}\U{1F600}\U{1F600}") == 6
    ensures PasswordStrength("\U{1F600}\U{1F600}\U{1F600}").level == 2
  {
    var e := "\U{1F600}\U{1F600}\U{1F600}";
    assert e[..2][..1] == e[..1] && e[..3][..2] == e[..2] && e[..0] == [];
    assert e == e[..3];
    assert Text.UnitLength(e[..1]) == 2;
    assert Text.UnitLength(e[..2]) == 4;
  }

  /** A long password whose capital and digit come only after a line break meets
      the checklist yet reads Medium, because the pattern looks at the first line:
      a lowercase first line, a line feed and a rest holding a capital and a digit,
      ten characters or more in all. */
  lemma SecondLineNotStrong(line: string, rest: string)
    requires forall i :: 0 <= i < |line| ==> IsLowerLetter(line[i])
    requires HasUpper(rest) && HasDigit(rest)
    requires |line| + 1 + |rest| >= 10
    ensures LongEnough(line + ['\n'] + rest) && HasUpper(line + ['\n'] + rest) && HasDigit(line + ['\n'] + rest)
    ensures PasswordStrength(line + ['\n'] + rest).level == 2
  {
    var p := line + ['\n'] + rest;
    var u :| 0 <= u < |rest| && IsUpperLetter(rest[u]);
    var d :| 0 <= d < |rest| && IsDigit(rest[d]);
    assert p[|line| + 1 + u] == rest[u] && p[|line| + 1 + d] == rest[d];
    FirstLineBreak(line, rest);
    assert !StrongPattern(p);
  }

  /** The first line of a line, a line feed and anything after it. */
  lemma {:induction false} FirstLineBreak(line: string, rest: string)
    requires forall i :: 0 <= i < |line| ==> IsLowerLetter(line[i])
    ensures FirstLine(line + ['\n'] + rest) == line
  {
    var s := line + ['\n'] + rest;
    if line != [] {
      assert s[1..] == line[1..] + ['\n'] + rest;
      FirstLineBreak(line[1..], rest);
    }
  }
}
