/*
 * Byte-string helpers used by the pager and by the platform check. The
 * plugin runs on Python 2, whose `str.lower()` on byte strings follows the
 * C library's locale; `Lower` is its behaviour in the default "C" locale,
 * where only the ASCII letters A-Z change.
 */
module Text {

  /** `c.lower()` for one character of a Python 2 byte string. */
  function LowerChar(c: char): char
  {
    if 'A' <= c <= 'Z' then (c as int + 32) as char else c
  }

  /** `s.lower()`: every ASCII capital replaced by its small letter. */
  function Lower(s: string): string
  {
    seq(|s|, i requires 0 <= i < |s| => LowerChar(s[i]))
  }

  /** The pager's quit test, `input.lower() == 'q'`. */
  predicate IsQuit(answer: string)
  {
    Lower(answer) == "q"
  }

  /** Exactly the two answers "q" and "Q" stop the pager. */
  lemma QuitAnswers(answer: string)
    ensures IsQuit(answer) <==> answer == "q" || answer == "Q"
  {
    if |answer| == 1 && (answer[0] == 'q' || answer[0] == 'Q') {
      assert Lower(answer) == [LowerChar(answer[0])];
    } else if |answer| == 1 {
      assert Lower(answer)[0] != 'q';
    }
  }
}
