/**
 * The question records read from the uploaded JSON document: each is an
 * object `{title, type, options?, required?, correct?}` of the top-level
 * `questions` array. Every field is optional; `None` means the key is absent.
 */
module Questions {
  import opened Wrappers

  datatype QuestionRecord = QuestionRecord(
    title: Option<string>,
    typeTag: Option<string>,
    options: Option<seq<string>>,
    required: Option<bool>,
    correct: Option<string>)

  /** Python truthiness of the `correct` value: absent and empty both count as false. */
  predicate HasCorrect(correct: Option<string>) {
    correct.Some? && correct.value != ""
  }

  /**
   * Upper-casing of one character as Python's `str.upper` does it, restricted
   * to the characters whose upper case is an ASCII letter: `a`..`z`, the
   * dotless i (U+0131) and the long s (U+017F). Every other character is kept.
   */
  function UpperChar(c: char): char {
    if 'a' <= c <= 'z' then (c as int - 32) as char
    else if c == '\U{0131}' then 'I'
    else if c == '\U{017F}' then 'S'
    else c
  }

  /** `s.upper()`, character by character. */
  function Upper(s: string): string {
    seq(|s|, k requires 0 <= k < |s| => UpperChar(s[k]))
  }

  /** Every character that upper-cases to the ASCII capital `c`. */
  function CaseVariants(c: char): (v: set<char>)
    requires 'A' <= c <= 'Z'
    ensures forall d :: d in v <==> UpperChar(d) == c
  {
    {c, (c as int + 32) as char}
    + (if c == 'I' then {'\U{0131}'} else {})
    + (if c == 'S' then {'\U{017F}'} else {})
  }

  /** The four type tags the translator compares against. */
  predicate IsTypeTag(w: string) {
    w in {"RADIO", "CHECKBOX", "DROPDOWN", "TEXT"}
  }

  /**
   * The type tag is compared after upper-casing: it matches RADIO, CHECKBOX,
   * DROPDOWN or TEXT exactly when it has the same length and each of its
   * characters is a case variant of the tag's character at that place.
   * (Python's multi-character mappings, such as `ß` to `SS`, can make other
   * words match; they never produce these four.)
   */
  lemma UpperMatchesWord(s: string, w: string)
    requires IsTypeTag(w)
    ensures Upper(s) == w <==> |s| == |w| && forall k :: 0 <= k < |s| ==> s[k] in CaseVariants(w[k])
  {
  }
}
