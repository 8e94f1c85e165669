/** The java.lang.String operations that the port-name parser relies on. */
module JavaString {
  import opened Wrappers

  /** The StringIndexOutOfBoundsException that `substring` throws. */
  datatype StringError = IndexOutOfBounds

  /** `s.indexOf(c)`: the first position of `c` in `s`, or -1 when `c` does not occur. */
  function IndexOf(s: string, c: char): (i: int)
    ensures -1 <= i < |s|
    ensures i == -1 <==> c !in s
    ensures i >= 0 ==> s[i] == c && c !in s[..i]
  {
    if |s| == 0 then -1
    else if s[0] == c then 0
    else
      var k := IndexOf(s[1..], c);
      if k < 0 then -1
      else
        assert s[..k + 1] == [s[0]] + s[1..][..k];
        k + 1
  }

  /** `s.substring(begin)`: the suffix from `begin`, or an exception unless 0 <= begin <= |s|. */
  function SubstringFrom(s: string, begin: int): (r: Result<string, StringError>)
    ensures r.Success? <==> 0 <= begin <= |s|
    ensures r.Success? ==> r.value == s[begin..]
  {
    if begin < 0 || |s| < begin then Failure(IndexOutOfBounds)
    else Success(s[begin..])
  }

  /** `s.substring(begin, end)`: the slice, or an exception unless 0 <= begin <= end <= |s|. */
  function Substring(s: string, begin: int, end: int): (r: Result<string, StringError>)
    ensures r.Success? <==> 0 <= begin <= end <= |s|
    ensures r.Success? ==> r.value == s[begin..end]
  {
    if begin < 0 || |s| < end || end < begin then Failure(IndexOutOfBounds)
    else Success(s[begin..end])
  }
}
