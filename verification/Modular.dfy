/** Remainders of a division by a positive number, for turning a ring of places. */
module Modular {
  lemma MulAtLeast(d: int, len: int)
    requires d >= 1 && len > 0
    ensures d * len >= len
  {
    assert (d - 1) * len >= 0;
  }

  lemma MulAtMost(d: int, len: int)
    requires d <= 0 && len > 0
    ensures d * len <= 0
    ensures d < 0 ==> d * len <= -len
  {
    if d < 0 {
      assert (-1 - d) * len >= 0;
    }
  }

  /** Quotient and remainder are the only such pair. */
  lemma ModUnique(x: int, q: int, r: int, len: int)
    requires len > 0 && x == q * len + r && 0 <= r < len
    ensures x % len == r
  {
    var d := q - x / len;
    assert d * len == x % len - r;
    if d >= 1 {
      MulAtLeast(d, len);
      assert false;
    } else if d <= -1 {
      MulAtMost(d, len);
      assert false;
    }
  }

  lemma ModShift(x: int, len: int)
    requires len > 0
    ensures (x + len) % len == x % len
  {
    assert x + len == (x / len + 1) * len + x % len;
    ModUnique(x + len, x / len + 1, x % len, len);
  }

  /** The place that `k` turns bring to place `i` of a ring of `len` places. */
  function Turned(i: int, k: int, len: int): (place: int)
    requires len > 0
    ensures 0 <= place < len
  {
    (i - k) % len
  }

  lemma NoTurn(i: int, len: int)
    requires 0 <= i < len
    ensures Turned(i, 0, len) == i
  {
    ModUnique(i, 0, i, len);
  }

  lemma FullTurn(i: int, len: int)
    requires 0 <= i < len
    ensures Turned(i, len, len) == i
  {
    ModUnique(i - len, -1, i, len);
  }

  lemma OneMoreTurn(i: int, k: int, len: int)
    requires 0 <= i < len
    ensures Turned(i, k + 1, len) == Turned(if i == 0 then len - 1 else i - 1, k, len)
  {
    if i == 0 {
      ModShift(-1 - k, len);
    }
  }

  /** Two turns bring the same place only when they are a whole number of rings apart. */
  lemma TurnsApart(i: int, k: int, k': int, len: int)
    requires len > 0 && k < k' && Turned(i, k, len) == Turned(i, k', len)
    ensures k' - k >= len
  {
    var d := (i - k) / len - (i - k') / len;
    assert d * len == k' - k;
    if d <= 0 {
      MulAtMost(d, len);
      assert false;
    }
    MulAtLeast(d, len);
  }

  /** Among any `len` consecutive turns there is one that brings `place` to `i`. */
  lemma SomeTurn(i: int, place: int, from: int, len: int) returns (k: int)
    requires 0 <= place < len
    ensures from <= k < from + len && Turned(i, k, len) == place
  {
    var x := i - place - from;
    k := from + x % len;
    assert i - k == (x / len) * len + place;
    ModUnique(i - k, x / len, place, len);
  }
}
