/** The two string operations the program applies to names and replies:
    lower-casing and replacing one character by another. Lower-casing is
    modelled on ASCII letters only. */
module Text {

  function LowerChar(c: char): (r: char)
    ensures !('A' <= r <= 'Z')
    ensures !('A' <= c <= 'Z') ==> r == c
    ensures 'A' <= c <= 'Z' ==> r as int == c as int + 32
  {
    if 'A' <= c <= 'Z' then (c as int + 32) as char else c
  }

  /** `str.lower()` */
  function Lower(s: string): (r: string) {
    seq(|s|, i requires 0 <= i < |s| => LowerChar(s[i]))
  }

  /** `str.replace(from, to)` for single characters. */
  function Replace(s: string, from: char, to: char): (r: string) {
    seq(|s|, i requires 0 <= i < |s| => if s[i] == from then to else s[i])
  }

  /** The test `answer.lower() == "yes"` used by the excerpt prompt and the pager. */
  predicate IsYes(s: string) {
    Lower(s) == "yes"
  }

  /** An answer counts as "yes" exactly when it is the three letters y, e, s
      in any mixture of upper and lower case. */
  lemma YesInAnyCase(s: string)
    ensures IsYes(s) <==> |s| == 3 && s[0] in "yY" && s[1] in "eE" && s[2] in "sS"
  {
    if IsYes(s) {
      assert Lower(s)[0] == 'y' && Lower(s)[1] == 'e' && Lower(s)[2] == 's';
    }
  }
}
