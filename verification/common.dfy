/** Small helpers shared by the models: an Option type and Rails' notion of a
    "present" (non-blank) string. */
module Common {

  datatype Option<T> = None | Some(value: T)

  /** ASCII whitespace as matched by Ruby's [[:space:]] class: space, \t, \n, \v, \f, \r. */
  predicate IsSpace(c: char) {
    c == ' ' || ('\t' <= c <= '\r')
  }

  /** Ruby's String#blank?: empty or made only of whitespace. */
  predicate Blank(s: string) {
    forall i :: 0 <= i < |s| ==> IsSpace(s[i])
  }

  /** Rails' `presence: true` on a nullable string column. */
  predicate Present(s: Option<string>) {
    s.Some? && !Blank(s.value)
  }

  /** The text "x" is present; nil, "" and "  " are not. */
  lemma PresentExamples()
    ensures Present(Some("x"))
    ensures !Present(None) && !Present(Some("")) && !Present(Some(" \t"))
  {
    assert !IsSpace("x"[0]);
    assert IsSpace(" \t"[0]) && IsSpace(" \t"[1]);
  }
}
