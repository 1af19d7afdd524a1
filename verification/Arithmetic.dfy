/** Facts about quotients and remainders by a variable divisor. */
module Arithmetic {

  lemma MultipleIsFar(w: nat, d: int)
    ensures d >= 1 ==> d * w >= w
    ensures d <= -1 ==> d * w + w <= 0
  {
    if d >= 1 { assert (d - 1) * w >= 0; }
    if d <= -1 { assert (-1 - d) * w >= 0; }
  }

  lemma DivModUnique(w: nat, x: nat, y: nat)
    requires x < w
    ensures (y * w + x) % w == x && (y * w + x) / w == y
  {
    var p := y * w + x;
    assert p == p / w * w + p % w;
    assert (p / w - y) * w == x - p % w;
    MultipleIsFar(w, p / w - y);
  }

  /** Numbers less than L apart fall into different slots of a ring of L. */
  lemma SlotsDiffer(L: nat, i: nat, j: nat)
    requires j < i < j + L
    ensures i % L != j % L
  {
    assert i == i / L * L + i % L && j == j / L * L + j % L;
    assert (i / L - j / L) * L == (i - j) - (i % L - j % L);
    MultipleIsFar(L, i / L - j / L);
  }
}
