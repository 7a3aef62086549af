// Where a row of phones is broken into syllables (src/unit.cc:800-836), by their sonority alone.
module Sonority {

  // The sonority at a place of the row; beyond its ends there is the juncture's.
  function At(s: seq<int>, e: int, i: int): (v: int) {
    if 0 <= i < |s| then s[i] else e
  }

  // A signed 8-bit integer.
  function Char(v: int): (c: int)
    ensures -128 <= c < 128 && (c - v) % 256 == 0
  {
    (v + 128) % 256 - 128
  }

  // ---- what the breaks are for ---------------------------------------------------------------

  // The phones from a to b are equally sonorous, and less so than what is on either side.
  ghost predicate Valley(s: seq<int>, e: int, a: int, b: int) {
    && 0 <= a <= b < |s| && (forall k :: a <= k <= b ==> s[k] == s[a])
    && At(s, e, a - 1) > s[a] && At(s, e, b + 1) > s[b]
  }

  // A valley of several phones from a on.
  ghost predicate Wide(s: seq<int>, e: int, a: int) {
    exists b :: b > a && Valley(s, e, a, b)
  }

  // A syllable begins with the only phone of a valley, or with the second one.
  ghost predicate Break(s: seq<int>, e: int, i: int) {
    Valley(s, e, i, i) || Wide(s, e, i - 1)
  }

  // ---- what the code keeps count of ---------------------------------------------------------

  // Going leftwards, the count after the i-th phone.
  function Count(s: seq<int>, e: int, i: int, pending: nat): (p: nat)
    requires 0 <= i < |s|
  {
    if s[i] < At(s, e, i + 1) then
      if s[i] < At(s, e, i - 1) then 0 else pending + if s[i] == At(s, e, i - 1) then 1 else 0
    else if pending > 0 && s[i] < At(s, e, i - 1) then 0
    else pending
  }

  // The count before the i-th phone.
  function Pend(s: seq<int>, e: int, i: int): (p: nat)
    requires -1 <= i < |s|
    decreases |s| - i
  {
    if i == |s| - 1 then 0 else Count(s, e, i + 1, Pend(s, e, i + 1))
  }

  // From i to the right the row does not fall before it has risen.
  ghost predicate Rises(s: seq<int>, e: int, i: int, y: int) {
    && 0 <= i < y < |s| && s[y] < At(s, e, y + 1) && (forall z :: i <= z < y ==> s[z] <= s[z + 1])
  }

  // A count means that the row rises from here, and it is bounded by how much it can rise.
  lemma {:induction false} PendRises(s: seq<int>, e: int, i: int, hi: int)
    requires 0 <= i < |s| && Pend(s, e, i) > 0
    requires e <= hi && forall k :: 0 <= k < |s| ==> s[k] <= hi
    ensures exists y :: Rises(s, e, i, y)
    ensures i + 1 < |s| && Pend(s, e, i) <= hi - s[i + 1]
    decreases |s| - i
  {
    var j := i + 1;
    if Pend(s, e, j) > 0 {
      PendRises(s, e, j, hi);
      var y :| Rises(s, e, j, y);
      assert s[j] <= s[j + 1];
      assert Rises(s, e, i, y);
    } else {
      assert Rises(s, e, i, j);
    }
  }

  // A plateau from i on that ends with a rise is counted.
  lemma {:induction false} PlateauCounts(s: seq<int>, e: int, i: int, m: int)
    requires 0 <= i < m < |s| && (forall k :: i <= k <= m ==> s[k] == s[i]) && s[m] < At(s, e, m + 1)
    ensures Pend(s, e, i) > 0
    decreases m - i
  {
    assert s[i + 1] == s[i];
    if i + 1 < m {
      assert s[i + 2] == s[i];
      PlateauCounts(s, e, i + 1, m);
    }
  }

  // How far a plateau goes that does not fall before it has risen.
  lemma {:induction false} PlateauEnd(s: seq<int>, e: int, i: int, y: int) returns (b: int)
    requires Rises(s, e, i, y)
    ensures i <= b <= y && (forall k :: i <= k <= b ==> s[k] == s[i]) && At(s, e, b + 1) > s[b]
    decreases y - i
  {
    if s[i] < s[i + 1] {
      b := i;
    } else if i + 1 == y {
      b := y;
    } else {
      b := PlateauEnd(s, e, i + 1, y);
    }
  }

  // The break before the second phone of a valley is the one the count asks for.
  lemma SecondExactly(s: seq<int>, e: int, i: int, hi: int)
    requires 0 <= i < |s| && e <= hi && forall k :: 0 <= k < |s| ==> s[k] <= hi
    ensures (Pend(s, e, i) > 0 && s[i] >= At(s, e, i + 1) && s[i] < At(s, e, i - 1))
            <==> Wide(s, e, i)
  {
    if Pend(s, e, i) > 0 && s[i] >= At(s, e, i + 1) && s[i] < At(s, e, i - 1) {
      PendRises(s, e, i, hi);
      var y :| Rises(s, e, i, y);
      var b := PlateauEnd(s, e, i, y);
      assert b > i;
      assert Valley(s, e, i, b);
    }
    if Wide(s, e, i) {
      var b :| b > i && Valley(s, e, i, b);
      assert s[i + 1] == s[i];
      PlateauCounts(s, e, i, b);
    }
  }

  // The only phone of a valley is the one that rises on both sides.
  lemma FirstExactly(s: seq<int>, e: int, i: int)
    requires 0 <= i < |s|
    ensures (s[i] < At(s, e, i + 1) && s[i] < At(s, e, i - 1)) <==> Valley(s, e, i, i)
  {
  }

  // The count is kept in a char: it never comes round to zero.
  lemma CharCounts(s: seq<int>, e: int, i: int)
    requires -1 <= i < |s| && -128 <= e < 128 && forall k :: 0 <= k < |s| ==> -128 <= s[k] < 128
    ensures Char(Pend(s, e, i)) == 0 <==> Pend(s, e, i) == 0
  {
    if i >= 0 && Pend(s, e, i) > 0 {
      PendRises(s, e, i, 127);
    }
    if i == -1 && Pend(s, e, i) > 0 {
      CountBelow(s, e);
    }
  }

  lemma CountBelow(s: seq<int>, e: int)
    requires |s| > 0 && -128 <= e < 128 && forall k :: 0 <= k < |s| ==> -128 <= s[k] < 128
    ensures Pend(s, e, -1) < 256
  {
    if Pend(s, e, 0) > 0 {
      PendRises(s, e, 0, 127);
    }
  }

  // ---- where breaks can be --------------------------------------------------------------------

  // Next to a wide valley's first phone there is no valley of one.
  lemma WideApart(s: seq<int>, e: int, i: int)
    requires Wide(s, e, i)
    ensures !Valley(s, e, i, i) && !Valley(s, e, i + 1, i + 1) && 0 <= i && i + 1 < |s|
  {
    var b :| b > i && Valley(s, e, i, b);
  }

  // A break at the very start is asked for exactly when the juncture is more sonorous than the first phone,
  // and so is the second.
  lemma StartExactly(s: seq<int>, e: int)
    ensures Break(s, e, 0) <==> |s| > 0 && e > s[0] && At(s, e, 1) > s[0]
  {
    if |s| > 0 && e > s[0] && At(s, e, 1) > s[0] {
      assert Valley(s, e, 0, 0);
    }
  }

  // Two phones, the second more sonorous, after a juncture more sonorous than both: a break is asked for
  // before the first of them.
  lemma StartBroken()
    ensures Break([1, 2], 3, 0)
  {
    StartExactly([1, 2], 3);
  }

  // With the juncture least sonorous of all, no break is at a boundary.
  lemma NeverAtBoundary(s: seq<int>, e: int, i: int)
    requires (forall k :: 0 <= k < |s| ==> e <= s[k]) && Break(s, e, i)
    ensures 0 < i < |s|
  {
    if Wide(s, e, i - 1) {
      WideApart(s, e, i - 1);
    }
  }

  // ---- the breaks made so far ----------------------------------------------------------------

  // The breaks made when the phones from the i-th on have been seen.
  ghost predicate Made(s: seq<int>, e: int, i: int, j: int) {
    j >= i && (Valley(s, e, j, j) || (j > i && Wide(s, e, j - 1)))
  }

  // What seeing the i-th phone adds: a break before it, before the next one, or none.
  lemma MadeNext(s: seq<int>, e: int, i: int, j: int)
    requires 0 <= i < |s|
    ensures Made(s, e, i, j) <==> (Made(s, e, i + 1, j) || (j == i && Valley(s, e, i, i))
                                   || (j == i + 1 && Wide(s, e, i)))
    ensures Wide(s, e, i) ==> !Made(s, e, i + 1, i + 1)
  {
    if Wide(s, e, i) {
      WideApart(s, e, i);
    }
  }

  lemma MadeLast(s: seq<int>, e: int, j: int)
    ensures !Made(s, e, |s|, j)
    ensures Made(s, e, 0, j) <==> Break(s, e, j)
  {
    if Wide(s, e, j - 1) {
      WideApart(s, e, j - 1);
    }
  }

  lemma NoStart(s: seq<int>, e: int)
    ensures Break(s, e, 0) <==> Valley(s, e, 0, 0)
  {
  }
}
