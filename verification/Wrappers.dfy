/** The optional value every other module uses for Python's `None`. */
module Wrappers {
  datatype Option<+T> = None | Some(value: T)
}

/** Python's notion of white space. */
module Text {
  /** The white space that `str.strip` removes. */
  predicate IsSpace(c: char) {
    || '\t' <= c <= '\r' || '\U{001c}' <= c <= ' ' || c == '\U{0085}' || c == '\U{00a0}' || c == '\U{1680}'
    || '\U{2000}' <= c <= '\U{200a}' || c == '\U{2028}' || c == '\U{2029}' || c == '\U{202f}'
    || c == '\U{205f}' || c == '\U{3000}'
  }

  /** `s.strip()` is not empty. */
  predicate HasText(s: string) {
    exists i :: 0 <= i < |s| && !IsSpace(s[i])
  }

  /** Of the ASCII characters these are white space. */
  lemma AsciiSpaces(c: char)
    requires c < '\U{0080}'
    ensures IsSpace(c) <==> c in " \t\n\r\U{000b}\U{000c}\U{001c}\U{001d}\U{001e}\U{001f}"
  {
  }
}
