/**
 * Cutting the device address out of a descriptive port name, such as "COM3"
 * out of "USB Serial (COM3)", before the port is looked up by that address.
 */
module PortName {
  import opened Wrappers
  import opened JavaString

  /**
   * The two substring calls of the connect handler: drop everything up to the
   * first '(' (or nothing, when there is none), then keep what precedes the
   * first ')' of the remainder; with no ')' left the second call throws.
   */
  function ExtractAddress(name: string): (r: Result<string, StringError>)
    ensures r.Success? <==> ')' in name[IndexOf(name, '(') + 1..]
    ensures r.Success? ==> AddressAt(name, IndexOf(name, '(') + 1, r.value)
  {
    var from := IndexOf(name, '(') + 1;
    match SubstringFrom(name, from)
    case Failure(e) => Failure(e)
    case Success(rest) =>
      var close := IndexOf(rest, ')');
      var r := Substring(rest, 0, close);
      assert r.Success? <==> close >= 0;
      assert r.Success? ==> AddressAt(name, from, r.value) by {
        if r.Success? {
          assert r.value == rest[..close];
          RestAddress(name, from, rest, r.value);
        }
      }
      r
  }

  /** `address` starts at `from` in `name`, holds no ')', and a ')' follows it. */
  predicate AddressAt(name: string, from: int, address: string)
  {
    && 0 <= from
    && from + |address| < |name|
    && address == name[from..from + |address|]
    && name[from + |address|] == ')'
    && ')' !in address
  }

  lemma RestAddress(name: string, from: int, rest: string, address: string)
    requires 0 <= from <= |name| && rest == name[from..]
    requires IndexOf(rest, ')') >= 0 && address == rest[..IndexOf(rest, ')')]
    ensures AddressAt(name, from, address)
  {
    var close := IndexOf(rest, ')');
    assert name[from + close] == rest[close];
    assert name[from..from + close] == rest[..close];
  }

  /** With '(' at i (its first occurrence) and the first later ')' at j, the address is strictly between them. */
  lemma ExtractBetweenParens(name: string, i: nat, j: nat)
    requires i < j < |name|
    requires name[i] == '(' && '(' !in name[..i]
    requires name[j] == ')' && ')' !in name[i + 1..j]
    ensures ExtractAddress(name) == Success(name[i + 1..j])
  {
    var rest := name[i + 1..];
    assert rest[..j - i - 1] == name[i + 1..j];
    assert IndexOf(rest, ')') == j - i - 1 by {
      assert rest[j - i - 1] == ')';
    }
  }

  /** With no '(' at all, `indexOf` gives -1 and the address is the prefix before the first ')'. */
  lemma ExtractWithoutOpenParen(name: string)
    requires '(' !in name
    ensures ')' in name ==> ExtractAddress(name) == Success(name[..IndexOf(name, ')')])
    ensures ')' !in name ==> ExtractAddress(name) == Failure(IndexOutOfBounds)
  {
    assert name[0..] == name;
  }

  /** A name whose first '(' is never followed by ')' makes the handler throw. */
  lemma ExtractFailsWithoutClosingParen(name: string, i: nat)
    requires i < |name| && name[i] == '(' && '(' !in name[..i]
    requires ')' !in name[i + 1..]
    ensures ExtractAddress(name) == Failure(IndexOutOfBounds)
  {
  }
}
