// Text as the repository's scripts handle it: white space and stripping it.

module Text {
  predicate Space(c: char) {
    c in " \t\n\r" || c == 11 as char || c == 12 as char
  }

  function StripLeft(s: string): string {
    if s != [] && Space(s[0]) then StripLeft(s[1..]) else s
  }

  function StripRight(s: string): string {
    if s != [] && Space(s[|s| - 1]) then StripRight(s[..|s| - 1]) else s
  }

  function Strip(s: string): string {
    StripRight(StripLeft(s))
  }

  predicate Trimmed(s: string) {
    s != "" ==> !Space(s[0]) && !Space(s[|s| - 1])
  }

  lemma StripTrimmed(s: string)
    requires Trimmed(s)
    ensures Strip(s) == s
  {
  }

  lemma StripShortens(s: string)
    ensures |Strip(s)| <= |s|
  {
    StripLeftShortens(s);
    StripRightShortens(StripLeft(s));
  }

  lemma {:induction false} StripLeftShortens(s: string)
    ensures |StripLeft(s)| <= |s|
    ensures StripLeft(s) != "" ==> !Space(StripLeft(s)[0])
  {
    if s != [] && Space(s[0]) {
      StripLeftShortens(s[1..]);
    }
  }

  lemma {:induction false} StripRightShortens(s: string)
    ensures |StripRight(s)| <= |s|
    ensures StripRight(s) != "" ==> !Space(StripRight(s)[|StripRight(s)| - 1]) && s != "" && StripRight(s)[0] == s[0]
  {
    if s != [] && Space(s[|s| - 1]) {
      StripRightShortens(s[..|s| - 1]);
    }
  }

  // Stripping leaves a trimmed text.
  lemma StripTrims(s: string)
    ensures Trimmed(Strip(s))
  {
    StripLeftShortens(s);
    StripRightShortens(StripLeft(s));
  }
}
