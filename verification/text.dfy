/** The two notions of white space the calculator relies on. */
module Text {
  import opened Wrappers

  /** An ASCII decimal digit. */
  predicate IsDigit(c: char) {
    '0' <= c <= '9'
  }

  /**
   `char.IsWhiteSpace`: the Unicode space, line and paragraph separators
   plus U+0009..U+000D, U+0085 and U+00A0.
   */
  predicate IsWhiteSpace(c: char)
    ensures IsWhiteSpace(c) ==> !IsDigit(c) && c != '+' && c != '-'
  {
    || ('\t' <= c <= '\r')
    || c == ' '
    || c == '\U{0085}'
    || c == '\U{00A0}'
    || c == '\U{1680}'
    || ('\U{2000}' <= c <= '\U{200A}')
    || c == '\U{2028}'
    || c == '\U{2029}'
    || c == '\U{202F}'
    || c == '\U{205F}'
    || c == '\U{3000}'
  }

  /** `string.IsNullOrWhiteSpace`: null, empty, or made only of white-space characters. */
  predicate IsNullOrWhiteSpace(s: Option<string>)
    ensures s == Some([]) ==> IsNullOrWhiteSpace(s)
    ensures s.Some? && s.value != [] && !IsWhiteSpace(s.value[0]) ==> !IsNullOrWhiteSpace(s)
  {
    s.None? || forall i :: 0 <= i < |s.value| ==> IsWhiteSpace(s.value[i])
  }

  /**
   The white space the integer parser skips around a number: only
   U+0009..U+000D and U+0020, a strict subset of `IsWhiteSpace`.
   */
  predicate IsNumberWhite(c: char)
    ensures IsNumberWhite(c) ==> IsWhiteSpace(c)
  {
    c == ' ' || '\t' <= c <= '\r'
  }
}
