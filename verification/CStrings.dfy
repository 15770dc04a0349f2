/** C strings as values: sequences of characters other than NUL. */
module CStrings {

  type Char = c: char | c != '\0' witness 'a'

  type Text = seq<Char>

  datatype Option<+T> = None | Some(value: T)

  /** The first index of `c` in `s` at or after `i`, or the length of `s`. */
  function IndexOf(s: Text, c: char, i: nat): (r: nat)
    requires i <= |s|
    ensures i <= r <= |s| && (r < |s| ==> s[r] == c)
    ensures forall k :: i <= k < r ==> s[k] != c
    decreases |s| - i
  {
    if i == |s| || s[i] == c then i else IndexOf(s, c, i + 1)
  }
}
