// What smoothing does to a contour (src/unit.cc:967-991), and the circular queue of the old values that are still
// needed.
module Smooth {

  const RATIO_TOTAL := 100

  // Division as C does it, for a positive divisor.
  function Truncated(x: int): int { if x >= 0 then x / RATIO_TOTAL else -((-x) / RATIO_TOTAL) }

  function Clamp(i: int, len: nat): (k: nat)
    requires len > 0
    ensures k < len
  {
    if i < 0 then 0 else if i >= len then len - 1 else i
  }

  // The sum of the first m weights, each times the value at its neighbour of unit v; n is the
  // place of the unit's own weight.
  function Weighted(vals: seq<int>, recipe: seq<int>, n: nat, v: nat, m: nat): int
    requires vals != [] && m <= |recipe|
  {
    if m == 0 then 0 else Weighted(vals, recipe, n, v, m - 1) + recipe[m - 1] * vals[Clamp(v + m - 1 - n, |vals|)]
  }

  function Sum(recipe: seq<int>, m: nat): int
    requires m <= |recipe|
  {
    if m == 0 then 0 else Sum(recipe, m - 1) + recipe[m - 1]
  }

  function Smoothed(vals: seq<int>, recipe: seq<int>, n: nat): (r: seq<int>)
    ensures |r| == |vals|
  {
    seq(|vals|, v requires 0 <= v < |vals| => Truncated(Weighted(vals, recipe, n, v, |recipe|)))
  }

  // ---- what a smoothed contour is like -------------------------------------------------

  lemma {:induction false} Constant(vals: seq<int>, recipe: seq<int>, n: nat, v: nat, m: nat, c: int)
    requires vals != [] && m <= |recipe| && forall i :: 0 <= i < |vals| ==> vals[i] == c
    ensures Weighted(vals, recipe, n, v, m) == c * Sum(recipe, m)
  {
    if m > 0 {
      Constant(vals, recipe, n, v, m - 1, c);
      assert c * (Sum(recipe, m - 1) + recipe[m - 1]) == c * Sum(recipe, m - 1) + recipe[m - 1] * c;
    }
  }

  // A constant contour stays as it is.
  lemma ConstantFixed(vals: seq<int>, recipe: seq<int>, n: nat, c: int)
    requires Sum(recipe, |recipe|) == RATIO_TOTAL && forall i :: 0 <= i < |vals| ==> vals[i] == c
    ensures Smoothed(vals, recipe, n) == vals
  {
    forall v | 0 <= v < |vals| ensures Smoothed(vals, recipe, n)[v] == vals[v] {
      Constant(vals, recipe, n, v, |recipe|, c);
    }
  }

  lemma {:induction false} Between(vals: seq<int>, recipe: seq<int>, n: nat, v: nat, m: nat, lo: int, hi: int)
    requires vals != [] && m <= |recipe| && forall i :: 0 <= i < |vals| ==> lo <= vals[i] <= hi
    requires forall k :: 0 <= k < |recipe| ==> recipe[k] >= 0
    ensures lo * Sum(recipe, m) <= Weighted(vals, recipe, n, v, m) <= hi * Sum(recipe, m)
  {
    if m > 0 {
      Between(vals, recipe, n, v, m - 1, lo, hi);
      var w, x := recipe[m - 1], vals[Clamp(v + m - 1 - n, |vals|)];
      Times(w, lo, x);
      Times(w, x, hi);
      assert lo * (Sum(recipe, m - 1) + w) == lo * Sum(recipe, m - 1) + w * lo;
      assert hi * (Sum(recipe, m - 1) + w) == hi * Sum(recipe, m - 1) + w * hi;
    }
  }

  lemma Times(w: int, a: int, b: int)
    requires w >= 0 && a <= b
    ensures w * a <= w * b
  {
    assert w * b == w * a + w * (b - a);
  }

  // With weights that are not negative nothing leaves the range of the old values.
  lemma WithinRange(vals: seq<int>, recipe: seq<int>, n: nat, lo: int, hi: int)
    requires Sum(recipe, |recipe|) == RATIO_TOTAL && forall k :: 0 <= k < |recipe| ==> recipe[k] >= 0
    requires forall i :: 0 <= i < |vals| ==> lo <= vals[i] <= hi
    ensures forall v :: 0 <= v < |vals| ==> lo <= Smoothed(vals, recipe, n)[v] <= hi
  {
    forall v | 0 <= v < |vals| ensures lo <= Smoothed(vals, recipe, n)[v] <= hi {
      Between(vals, recipe, n, v, |recipe|, lo, hi);
    }
  }

  // A new value is the weighted sum divided by 100, towards zero.
  lemma QuotientIs(vals: seq<int>, recipe: seq<int>, n: nat, v: nat)
    requires v < |vals|
    ensures var r, total := Smoothed(vals, recipe, n)[v], Weighted(vals, recipe, n, v, |recipe|);
            && (total >= 0 ==> 100 * r <= total < 100 * r + 100)
            && (total <= 0 ==> 100 * r - 100 < total <= 100 * r)
  {
  }

  // The sum is additive in the values.
  lemma {:induction false} Additive(a: seq<int>, b: seq<int>, c: seq<int>, recipe: seq<int>, n: nat, v: nat, m: nat)
    requires a != [] && |a| == |b| == |c| && m <= |recipe| && forall i :: 0 <= i < |a| ==> c[i] == a[i] + b[i]
    ensures Weighted(c, recipe, n, v, m) == Weighted(a, recipe, n, v, m) + Weighted(b, recipe, n, v, m)
  {
    if m > 0 {
      Additive(a, b, c, recipe, n, v, m - 1);
      var k := Clamp(v + m - 1 - n, |a|);
      assert recipe[m - 1] * c[k] == recipe[m - 1] * a[k] + recipe[m - 1] * b[k];
    }
  }

  // All values are zero, but for the one at p.
  predicate Alone(vals: seq<int>, p: nat) {
    p < |vals| && forall i :: 0 <= i < |vals| && i != p ==> vals[i] == 0
  }

  // One value alone between others adds to the sum at v by the weight for its place from there, if there is one.
  lemma {:induction false} AloneInside(vals: seq<int>, recipe: seq<int>, n: nat, v: nat, m: nat, p: nat)
    requires Alone(vals, p) && 0 < p < |vals| - 1 && m <= |recipe|
    ensures Weighted(vals, recipe, n, v, m) == if 0 <= p - v + n < m then vals[p] * recipe[p - v + n] else 0
  {
    if m > 0 {
      AloneInside(vals, recipe, n, v, m - 1, p);
    }
  }

  // At the first place it does so by all weights for that place and before it; at the last, by those for that
  // place and behind it.
  lemma {:induction false} AloneFirst(vals: seq<int>, recipe: seq<int>, n: nat, v: nat, m: nat)
    requires Alone(vals, 0) && |vals| > 1 && m <= |recipe|
    ensures Weighted(vals, recipe, n, v, m) ==
            vals[0] * if n < v then 0 else if m <= n - v + 1 then Sum(recipe, m) else Sum(recipe, n - v + 1)
  {
    if m > 0 {
      AloneFirst(vals, recipe, n, v, m - 1);
      if m <= n - v + 1 {
        assert vals[0] * (Sum(recipe, m - 1) + recipe[m - 1]) == vals[0] * Sum(recipe, m - 1) + recipe[m - 1] * vals[0];
      }
    }
  }

  lemma {:induction false} AloneLast(vals: seq<int>, recipe: seq<int>, n: nat, v: nat, m: nat)
    requires |vals| > 1 && Alone(vals, |vals| - 1) && m <= |recipe| && v < |vals|
    ensures var k := |vals| - 1 - v + n;
            Weighted(vals, recipe, n, v, m) == vals[|vals| - 1] * if m <= k then 0 else Sum(recipe, m) - Sum(recipe, k)
  {
    if m > 0 {
      AloneLast(vals, recipe, n, v, m - 1);
      var k, x := |vals| - 1 - v + n, vals[|vals| - 1];
      if m > k {
        assert x * (Sum(recipe, m - 1) - Sum(recipe, k) + recipe[m - 1])
               == x * (Sum(recipe, m - 1) - Sum(recipe, k)) + recipe[m - 1] * x;
      }
    }
  }

  // ---- the loop ----------------------------------------------------------------------------

  // (k + wrap) % len
  function Slot(k: nat, wrap: nat, len: nat): (i: nat)
    requires k < len && wrap < len
    ensures i < len
  {
    if k + wrap < len then k + wrap else k + wrap - len
  }

  lemma SlotIs(k: nat, wrap: nat, len: nat)
    requires k < len && wrap < len
    ensures (k + wrap) % len == Slot(k, wrap, len)
  {
    var q, r := (k + wrap) / len, (k + wrap) % len;
    assert k + wrap == len * q + r;
    if q >= 2 { Times(len, 2, q); } else if q <= -1 { Times(len, q, -1); }
  }

  // The queue before unit v is processed: slot k has the old value at the neighbour that
  // weight k is for.
  ghost predicate Queued(cq: seq<int>, vals: seq<int>, len: nat, n: nat, v: nat, wrap: nat)
    requires vals != [] && wrap < len <= |cq|
  {
    forall k :: 0 <= k < len ==> cq[Slot(k, wrap, len)] == vals[Clamp(v + k - n, |vals|)]
  }

  function After(wrap: nat, len: nat): (w: nat)
    requires wrap < len
    ensures w < len
  {
    if wrap + 1 == len then 0 else wrap + 1
  }

  lemma QueuedNext(cq: seq<int>, vals: seq<int>, len: nat, n: nat, v: nat, wrap: nat, x: int)
    requires vals != [] && wrap < len <= |cq| && Queued(cq, vals, len, n, v, wrap)
             && x == vals[Clamp(v + len - n, |vals|)]
    ensures Queued(cq[wrap := x], vals, len, n, v + 1, After(wrap, len))
  {
    var q, w := cq[wrap := x], After(wrap, len);
    forall k | 0 <= k < len ensures q[Slot(k, w, len)] == vals[Clamp(v + 1 + k - n, |vals|)] {
      if k + 1 < len {
        assert Slot(k, w, len) == Slot(k + 1, wrap, len) != wrap;
        assert cq[Slot(k + 1, wrap, len)] == vals[Clamp(v + (k + 1) - n, |vals|)];
      } else {
        assert Slot(k, w, len) == wrap;
      }
    }
  }

  // The weighted sum for one unit, taken from the queue.
  method Average(cq: array<int>, ghost vals: seq<int>, recipe: seq<int>, ghost n: nat, ghost v: nat, wrap: nat)
    returns (avg: int)
    requires vals != [] && wrap < |recipe| <= cq.Length && Queued(cq[..], vals, |recipe|, n, v, wrap)
    ensures avg == Weighted(vals, recipe, n, v, |recipe|)
  {
    var len := |recipe|;
    avg := 0;
    var k := 0;
    while k < len
      invariant k <= len && avg == Weighted(vals, recipe, n, v, k)
    {
      SlotIs(k, wrap, len);
      assert cq[..][Slot(k, wrap, len)] == vals[Clamp(v + k - n, |vals|)];
      avg := avg + recipe[k] * cq[(k + wrap) % len];
      k := k + 1;
    }
  }
}
