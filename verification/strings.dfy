/** The string helpers `resync_strdup` and `is_blank`.
    The same two routines exist three times in the repository with identical
    bodies (src/util/string.c, src/server/util/string.h and, under the name
    `is_blank_string`, server/util/string_util.h); they are modelled once here. */
module Strings {
  import opened Wrappers

  /** `isspace` in the C locale: space, \t, \n, \v, \f and \r. */
  predicate IsSpace(c: char) {
    c == ' ' || c == '\t' || c == '\n' || c == '\U{0B}' || c == '\U{0C}' || c == '\r'
  }

  /** Every character of `s` is white space (true of the empty string). */
  predicate AllSpace(s: string) {
    forall i :: 0 <= i < |s| ==> IsSpace(s[i])
  }

  /** `resync_strdup`: NULL stays NULL, anything else is copied.
      An allocation failure (fatal) is not modelled. */
  function Strdup(str: Option<string>): (r: Option<string>)
    ensures r.None? <==> str.None?
    ensures str.Some? ==> r.Some? && r.value == str.value
  {
    match str
    case None => None
    case Some(s) => Some(s)
  }

  /** `is_blank` as a value: NULL is not blank; a string is blank when all of
      its characters are white space. */
  predicate Blank(str: Option<string>) {
    str.Some? && AllSpace(str.value)
  }

  /** `is_blank` / `is_blank_string`: the index-walking loop. */
  method IsBlank(str: Option<string>) returns (blank: bool)
    ensures blank <==> Blank(str)
    ensures str.Some? && str.value == "" ==> blank
    ensures str.None? ==> !blank
  {
    if str.None? {
      return false;
    }
    var s := str.value;
    var index := 0;
    while index < |s|
      invariant 0 <= index <= |s|
      invariant forall i :: 0 <= i < index ==> IsSpace(s[i])
    {
      if !IsSpace(s[index]) {
        return false;
      }
      index := index + 1;
    }
    return true;
  }

  /** A string whose first character is not white space is never blank. */
  lemma NotBlankWhenFirstIsVisible(s: string)
    requires |s| > 0 && !IsSpace(s[0])
    ensures !Blank(Some(s))
  {
    assert !IsSpace(s[0]);
  }
}
