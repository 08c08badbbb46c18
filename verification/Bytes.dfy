/** Bytes, byte searching and the optional value shared by the stream modules. */
module Bytes {

  type byte = x: int | 0 <= x < 256

  datatype Option<+T> = None | Some(value: T)

  const NEWLINE: byte := 10
  const SPACE: byte := 32

  function Min(a: int, b: int): int {
    if a <= b then a else b
  }

  function Max(a: int, b: int): int {
    if a >= b then a else b
  }

  lemma Assoc<T>(a: seq<T>, b: seq<T>, c: seq<T>)
    ensures a + b + c == a + (b + c)
  {
  }

  lemma DropDrop<T>(s: seq<T>, a: nat, b: nat)
    requires a + b <= |s|
    ensures s[a..][b..] == s[a + b..]
  {
  }

  /** A prefix of a concatenation that reaches into its second part. */
  lemma TakeConcat<T>(a: seq<T>, b: seq<T>, k: nat)
    requires |a| <= k <= |a| + |b|
    ensures (a + b)[..k] == a + b[..k - |a|]
  {
  }

  /** The first position of `b` in `s`, or -1 (Go's bytes.IndexByte). */
  function IndexOf(s: seq<byte>, b: byte): (r: int)
    ensures -1 <= r < |s|
    ensures r >= 0 ==> s[r] == b && b !in s[..r]
    ensures r < 0 ==> b !in s
  {
    if s == [] then -1
    else if s[0] == b then 0
    else
      var r := IndexOf(s[1..], b);
      assert s == [s[0]] + s[1..];
      if r < 0 then -1
      else
        assert s[..r + 1] == [s[0]] + s[1..][..r];
        r + 1
  }

  /** The first occurrence is found wherever a prefix without `b` ends. */
  lemma IndexOfAfterPrefix(prefix: seq<byte>, b: byte, rest: seq<byte>)
    requires b !in prefix
    ensures IndexOf(prefix + [b] + rest, b) == |prefix|
  {
    var s := prefix + [b] + rest;
    assert s[|prefix|] == b && s[..|prefix|] == prefix;
    forall i | |prefix| < i <= |s|
      ensures b in s[..i]
    {
      assert s[..i][|prefix|] == b;
    }
  }

  /** How many bytes of `s` equal `b`. */
  function Count(s: seq<byte>, b: byte): nat {
    if s == [] then 0 else Count(s[..|s| - 1], b) + if s[|s| - 1] == b then 1 else 0
  }

  lemma {:induction false} CountAppend(x: seq<byte>, y: seq<byte>, b: byte)
    ensures Count(x + y, b) == Count(x, b) + Count(y, b)
  {
    if y == [] {
      assert x + y == x;
    } else {
      CountAppend(x, y[..|y| - 1], b);
      assert (x + y)[..|x + y| - 1] == x + y[..|y| - 1];
    }
  }
}
