/** The class-validator decorators the DTOs use, over the JSON values a
    request body can hold.  Strings are sequences of Unicode scalar values. */
module ClassValidator {

  /** A property of a parsed request body: a string or anything else. */
  datatype JsValue = JsString(text: string) | JsOther

  /** `@IsString()`. */
  predicate IsString(v: JsValue)
  {
    v.JsString?
  }

  /** U+FE0E and U+FE0F, the text and emoji presentation selectors, which
      validator.js does not count as characters. */
  predicate IsPresentationSelector(c: char)
  {
    c == '\U{FE0E}' || c == '\U{FE0F}'
  }

  /** How many presentation selectors `s` holds. */
  function PresentationSelectorCount(s: string): (n: nat)
    ensures n <= |s|
    decreases |s|
  {
    if |s| == 0 then 0
    else PresentationSelectorCount(s[..|s| - 1]) + (if IsPresentationSelector(s[|s| - 1]) then 1 else 0)
  }

  /** The length validator.js `isLength` measures: UTF-16 code units, less
      one per surrogate pair, less one per presentation selector — that is,
      scalar values other than presentation selectors. */
  function ValidatorLength(s: string): (n: nat)
    ensures n <= |s|
  {
    |s| - PresentationSelectorCount(s)
  }

  /** A string free of presentation selectors (every ASCII string is one)
      has the length it appears to have. */
  lemma {:induction false} PlainLength(s: string)
    requires forall i :: 0 <= i < |s| ==> !IsPresentationSelector(s[i])
    ensures ValidatorLength(s) == |s|
    decreases |s|
  {
    if |s| > 0 {
      PlainLength(s[..|s| - 1]);
    }
  }

  /** `@MinLength(min)`: a string whose measured length is at least `min`. */
  predicate MinLength(v: JsValue, min: nat)
  {
    v.JsString? && ValidatorLength(v.text) >= min
  }
}
