/**
 ASCII case mapping. It stands in for Go's `strings.ToLower`, which maps
 every Unicode letter; here only `A`..`Z` are mapped.
 */
module Ascii {

  predicate IsUpper(c: char) {
    'A' <= c <= 'Z'
  }

  /** Lower-case one character: upper-case ASCII letters move down by 32. */
  function LowerChar(c: char): (r: char)
    ensures !IsUpper(r)
  {
    if IsUpper(c) then (c as int + 32) as char else c
  }

  /** Lower-case a string character by character. */
  function ToLower(s: string): (r: string)
    ensures |r| == |s|
    ensures forall i :: 0 <= i < |s| ==> r[i] == LowerChar(s[i])
  {
    if s == [] then [] else [LowerChar(s[0])] + ToLower(s[1..])
  }

  /** The only characters that lower-case to a given lower-case letter are
      that letter and its upper-case form. */
  lemma LowerCharPreimage(c: char, x: char)
    requires 'a' <= x <= 'z'
    ensures LowerChar(c) == x <==> (c == x || c as int == x as int - 32)
  {
  }

  /** `ToLower(s) == t`, for an all-lower-case `t`, holds exactly when `s`
      matches `t` letter by letter ignoring ASCII case. */
  lemma ToLowerEqualsIff(s: string, t: string)
    requires forall i :: 0 <= i < |t| ==> 'a' <= t[i] <= 'z'
    ensures ToLower(s) == t <==>
              |s| == |t| &&
              forall i :: 0 <= i < |s| ==> s[i] == t[i] || s[i] as int == t[i] as int - 32
  {
    if ToLower(s) == t {
      forall i | 0 <= i < |s|
        ensures s[i] == t[i] || s[i] as int == t[i] as int - 32
      {
        LowerCharPreimage(s[i], t[i]);
      }
    }
    if |s| == |t| && forall i :: 0 <= i < |s| ==> s[i] == t[i] || s[i] as int == t[i] as int - 32 {
      forall i | 0 <= i < |s|
        ensures ToLower(s)[i] == t[i]
      {
        LowerCharPreimage(s[i], t[i]);
      }
    }
  }
}
