/** The decimal-separator swap at the display boundary. The display shows a
    comma; the platform parser and formatter work with a period. The view model
    calls `replacingOccurrences(of:with:)` with single-character arguments, which
    is a character-by-character map. */
module Separator {

  /** Every occurrence of `from` in `s` replaced by `to`, every other character kept. */
  function Replace(s: string, from: char, to: char): (r: string)
    ensures |r| == |s|
    ensures forall i :: 0 <= i < |s| ==> r[i] == (if s[i] == from then to else s[i])
  {
    if s == [] then [] else [if s[0] == from then to else s[0]] + Replace(s[1..], from, to)
  }

  /** Display text to parser text: decimal comma becomes a period. */
  function Normalize(display: string): string {
    Replace(display, ',', '.')
  }

  /** Formatter text to display text: period becomes a decimal comma. */
  function Localize(text: string): string {
    Replace(text, '.', ',')
  }

  /** After replacing, the replaced character no longer occurs. */
  lemma ReplaceEliminates(s: string, from: char, to: char)
    requires from != to
    ensures from !in Replace(s, from, to)
  {
  }

  /** Swapping back undoes the swap when the target character was not there to begin with. */
  lemma ReplaceRoundTrip(s: string, from: char, to: char)
    requires to !in s
    ensures Replace(Replace(s, from, to), to, from) == s
  {
  }

  /** Text produced for display reads back to the formatter's text, provided
      the formatter does not itself emit commas. */
  lemma NormalizeLocalize(text: string)
    requires ',' !in text
    ensures Normalize(Localize(text)) == text
  {
  }

  /** Reading displayed text gives the same parser input as reading the
      formatter's text directly, whatever separators that text holds. */
  lemma NormalizeIgnoresLocalize(text: string)
    ensures Normalize(Localize(text)) == Normalize(text)
  {
  }
}
