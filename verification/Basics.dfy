/** Facts about numbers and sequences that several modules use. */
module Basics {
  function Min(a: nat, b: nat): nat {
    if a < b then a else b
  }

  lemma MinIs(a: nat, b: nat)
    ensures Min(a, b) == if a < b then a else b
  {
  }

  lemma Regroup<T>(a: seq<T>, b: seq<T>, c: seq<T>)
    ensures a + b + c == a + (b + c)
  {
  }

  function Power(b: nat, n: nat): nat {
    if n == 0 then 1 else b * Power(b, n - 1)
  }

  /** One place more in a numeral. */
  lemma OnePlace(x: nat, p: nat, y: nat, b: nat, d: nat)
    ensures (x * p + y) * b + d == x * (b * p) + (y * b + d)
  {
  }
}
