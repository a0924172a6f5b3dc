/**
 * The two notions of whitespace the system uses. The browser side trims and
 * splits with JavaScript's rules; the server side with Python's.
 */
module Whitespace {

  /**
   * The characters matched by `\s` in a JavaScript regular expression, which
   * are also the ones `String.prototype.trim` removes: the WhiteSpace and
   * LineTerminator productions of ECMAScript.
   */
  predicate JsSpace(c: char) {
    || ('\t' <= c <= '\r')
    || c == ' '
    || c == '\U{00A0}'
    || c == '\U{1680}'
    || ('\U{2000}' <= c <= '\U{200A}')
    || c == '\U{2028}'
    || c == '\U{2029}'
    || c == '\U{202F}'
    || c == '\U{205F}'
    || c == '\U{3000}'
    || c == '\U{FEFF}'
  }

  /**
   * The characters for which Python's `str.isspace` holds; `str.split()` and
   * `str.strip()` without arguments separate and remove exactly these.
   */
  predicate PySpace(c: char) {
    || ('\t' <= c <= '\r')
    || ('\U{001C}' <= c <= '\U{001F}')
    || c == ' '
    || c == '\U{0085}'
    || c == '\U{00A0}'
    || c == '\U{1680}'
    || ('\U{2000}' <= c <= '\U{200A}')
    || c == '\U{2028}'
    || c == '\U{2029}'
    || c == '\U{202F}'
    || c == '\U{205F}'
    || c == '\U{3000}'
  }
}
