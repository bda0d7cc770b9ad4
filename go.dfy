/** Go's built-in value types and integer operators, as the models below use them. */
module Go {

  /** A value that may be absent: Go's nil pointer, nil map, missing context value or nil error. */
  datatype Option<+T> = None | Some(value: T) {
    function GetOr(default: T): T {
      match this
      case Some(v) => v
      case None => default
    }
  }

  /** The result of a Go call that can panic instead of returning. */
  datatype Outcome<+T> = Normal(value: T) | Panic(reason: string)

  /** A dynamically typed `interface{}` value, as far as a string type assertion can tell. */
  datatype Dyn = DynString(s: string) | DynOther

  newtype byte = b: int | 0 <= b < 256

  const MinInt64: int := -0x8000_0000_0000_0000
  const MaxInt64: int := 0x7fff_ffff_ffff_ffff
  const Two64: int := 0x1_0000_0000_0000_0000

  predicate IsInt64(x: int) {
    MinInt64 <= x <= MaxInt64
  }

  /** Two's-complement wrap-around of an exact integer into int64, as Go's int64 arithmetic does. */
  function WrapInt64(x: int): (r: int)
    ensures IsInt64(r)
    ensures IsInt64(x) ==> r == x
    ensures (x - r) % Two64 == 0
  {
    (x - MinInt64) % Two64 + MinInt64
  }

  /** Go's integer division `a / b`: the quotient truncated toward zero. */
  function Quo(a: int, b: int): (q: int)
    requires b > 0
    ensures a >= 0 ==> 0 <= a - q * b < b
    ensures a < 0 ==> -b < a - q * b <= 0
  {
    if a >= 0 then a / b else -((-a) / b)
  }

  /** A truncated quotient by a positive divisor lies between zero and the dividend. */
  lemma QuoBetweenZeroAndDividend(a: int, b: int)
    requires b > 0
    ensures a >= 0 ==> 0 <= Quo(a, b) <= a
    ensures a < 0 ==> a <= Quo(a, b) <= 0
  {
    if a >= 0 {
      DivNoLarger(a, b);
    } else {
      DivNoLarger(-a, b);
    }
  }

  lemma DivNoLarger(a: nat, b: int)
    requires b > 0
    ensures 0 <= a / b <= a
  {
    var q := a / b;
    if q > a {
      NoSmallerProduct(q, b);
    }
  }

  lemma {:induction false} NoSmallerProduct(x: nat, y: int)
    requires y >= 1
    ensures x * y >= x
  {
    if x > 0 {
      NoSmallerProduct(x - 1, y);
      assert x * y == (x - 1) * y + y;
    }
  }

  /** n copies of x, as the log of n identical sends. */
  function Repeat<T>(x: T, n: nat): (s: seq<T>)
    ensures |s| == n
  {
    if n == 0 then [] else Repeat(x, n - 1) + [x]
  }

  /** One more copy at the end of a log of copies. */
  lemma RepeatOneMore<T>(s: seq<T>, x: T, n: nat)
    ensures s + Repeat(x, n) + [x] == s + Repeat(x, n + 1)
  {
    assert Repeat(x, n + 1) == Repeat(x, n) + [x];
  }

  /** One more entry of b at the end of a log holding b's first n. */
  lemma PrefixOneMore<T>(s: seq<T>, b: seq<T>, n: nat)
    requires n < |b|
    ensures s + b[..n] + [b[n]] == s + b[..n + 1]
  {
    assert b[..n + 1] == b[..n] + [b[n]];
  }

  /** Taking the head off the suffix from n leaves the suffix from n + 1. */
  lemma DropOneMore<T>(s: seq<T>, n: nat)
    requires n < |s|
    ensures s[n..][1..] == s[n + 1..]
  {
  }

  /** order lists every key of the set exactly once: one iteration order of a Go map. */
  predicate Enumerates<K>(order: seq<K>, keys: set<K>) {
    |order| == |keys| &&
    (forall k :: k in order ==> k in keys) &&
    (forall k :: k in keys ==> k in order) &&
    (forall i, j :: 0 <= i < j < |order| ==> order[i] != order[j])
  }
}
