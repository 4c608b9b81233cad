/** The part of Go's `strings` package the gateway uses. A Go string is a byte string; here each `char` stands for one byte. */
module Strings {

  /** `strings.IndexByte(s, c)`: the index of the first occurrence of `c` in `s`, or -1 if there is none. */
  function IndexByte(s: string, c: char): (r: int)
    ensures -1 <= r < |s|
    ensures r == -1 <==> c !in s
    ensures 0 <= r ==> s[r] == c && c !in s[..r]
    decreases |s|
  {
    if s == [] then -1
    else if s[0] == c then 0
    else
      var k := IndexByte(s[1..], c);
      if k == -1 then -1
      else
        assert s[1..][..k] == s[1..k + 1];
        k + 1
  }

  /** In `x + [c] + rest`, with no `c` in `x`, the first `c` is the one right after `x`. */
  lemma IndexByteAfterPrefix(x: string, c: char, rest: string)
    requires c !in x
    ensures IndexByte(x + [c] + rest, c) == |x|
  {
    assert (x + [c] + rest)[|x|] == c;
  }
}
