/**
 * `generateShortCode`: `Math.random().toString(36).substring(2, 8)`.
 * The random number and its base-36 rendering are not modelled; the
 * rendering arrives as a parameter of the shape `toString(36)` gives a
 * number in [0, 1): "0" for zero, otherwise "0." followed by base-36 digits.
 */
module ShortCode {
  import opened JsText

  /** The longest code `substring(2, 8)` can return. */
  const MaxCodeLength := 6

  /** The digits `toString(36)` writes: 0-9 then lower-case a-z. */
  predicate IsBase36Digit(c: char) {
    ('0' <= c <= '9') || ('a' <= c <= 'z')
  }

  predicate AllBase36(s: string) {
    forall i :: 0 <= i < |s| ==> IsBase36Digit(s[i])
  }

  /** A code that can head a registry entry: at most six base-36 digits. */
  predicate ValidCode(code: string) {
    |code| <= MaxCodeLength && AllBase36(code)
  }

  /** The renderings `toString(36)` produces for a number in [0, 1). */
  predicate IsFractionRendering(r: string) {
    r == "0" || (|r| >= 3 && r[..2] == "0." && AllBase36(r[2..]))
  }

  /** Characters 2 to 8 of the rendering: the digits after "0.", at most six. */
  function GenerateShortCode(rendering: string): (code: string)
    requires IsFractionRendering(rendering)
    ensures ValidCode(code)
    ensures rendering != "0" ==> |code| > 0
  {
    JsSubstring(rendering, 2, 8)
  }

  /** A rendering with six or more digits yields exactly its first six. */
  lemma CodeTakesFirstSixDigits(digits: string)
    requires |digits| >= MaxCodeLength && AllBase36(digits)
    ensures IsFractionRendering("0." + digits)
    ensures GenerateShortCode("0." + digits) == digits[..MaxCodeLength]
  {
  }

  /** A short rendering yields a short code: six characters are not guaranteed. */
  lemma CodeMayBeShort()
    ensures IsFractionRendering("0.i")
    ensures GenerateShortCode("0.i") == "i"
    ensures IsFractionRendering("0")
    ensures GenerateShortCode("0") == ""
  {
  }
}
