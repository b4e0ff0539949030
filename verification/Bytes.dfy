/** Bytes, 32-bit integers, byte strings and quotients. */
module Bytes {

  type byte = x: int | 0 <= x < 256

  type int32 = x: int | -0x8000_0000 <= x < 0x8000_0000

  /** One lap of a uint32_t. */
  const WRAP32: nat := 0x1_0000_0000

  function Flatten<T>(parts: seq<seq<T>>): seq<T> {
    if parts == [] then [] else parts[0] + Flatten(parts[1..])
  }

  lemma Assoc<T>(a: seq<T>, b: seq<T>, c: seq<T>)
    ensures a + b + c == a + (b + c)
  {
  }

  lemma NothingAdded<T>(a: seq<T>)
    ensures a + [] == a && [] + a == a
  {
  }

  lemma CutAt<T>(a: seq<T>, n: nat)
    requires n <= |a|
    ensures a == a[..n] + a[n..]
  {
  }

  lemma {:induction false} FlattenConcat<T>(a: seq<seq<T>>, b: seq<seq<T>>)
    ensures Flatten(a + b) == Flatten(a) + Flatten(b)
  {
    if a == [] {
      assert a + b == b;
    } else {
      var ab, rest := a + b, a[1..];
      assert ab[0] == a[0] && ab[1..] == rest + b;
      FlattenConcat(rest, b);
      assert Flatten(ab) == a[0] + (Flatten(rest) + Flatten(b));
    }
  }

  lemma FlattenSnoc<T>(a: seq<seq<T>>, x: seq<T>)
    ensures Flatten(a + [x]) == Flatten(a) + x
  {
    FlattenConcat(a, [x]);
    assert [x][1..] == [];
    assert Flatten([x]) == x;
  }

  lemma MultipleGap(c: nat, k: int)
    ensures k >= 1 ==> c * k >= c
    ensures k <= -1 ==> c * k <= 0 - c
  {
  }

  lemma DivModUnique(n: nat, c: nat, q: int, r: nat)
    requires c > 0 && n == c * q + r && r < c
    ensures n / c == q && n % c == r
  {
    var k := n / c - q;
    assert c * k == c * (n / c) - c * q;
    MultipleGap(c, k);
  }
}
