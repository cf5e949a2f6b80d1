/** Scalars. `Times` is multiplication under a name, so that proofs can treat a product as a whole. */
module Reals {
  function Times(x: real, y: real): (p: real)
  {
    x * y
  }

  lemma TimesCommutes(x: real, y: real)
    ensures Times(x, y) == Times(y, x)
  {
  }

  lemma TimesAdds(z: real, x: real, y: real)
    ensures Times(z, x + y) == Times(z, x) + Times(z, y)
  {
  }

  lemma TimesOrdered(z: real, x: real, y: real)
    requires z >= 0.0 && x <= y
    ensures Times(z, x) <= Times(z, y)
  {
    assert z * (y - x) >= 0.0;
  }

  lemma TimesAssociates(k: real, x: real, y: real)
    ensures Times(Times(k, x), y) == Times(k, Times(x, y)) && Times(y, Times(k, x)) == Times(k, Times(y, x))
  {
  }

  lemma TimesOne(x: real)
    ensures Times(x, 1.0) == x && Times(1.0, x) == x
  {
  }

  lemma TimesNegated(x: real, y: real)
    ensures Times(-x, y) == -Times(x, y) && Times(x, -y) == -Times(x, y)
  {
  }

  lemma NonNegativeTimes(x: real, y: real)
    requires x >= 0.0 && y >= 0.0
    ensures Times(x, y) >= 0.0
  {
  }

  function Abs(x: real): (a: real)
    ensures a >= 0.0 && (a == x || a == -x) && (a == 0.0 <==> x == 0.0)
  {
    if x < 0.0 then -x else x
  }

  function Max(x: real, y: real): (m: real)
    ensures m >= x && m >= y && (m == x || m == y)
  {
    if x < y then y else x
  }

  function Min(x: real, y: real): (m: real)
    ensures m <= x && m <= y && (m == x || m == y)
  {
    if x < y then x else y
  }
}
