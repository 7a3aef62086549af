// Sets of characters and mappings of characters as hash tables without collisions
// (src/function.cc).
module CharTables {

  // A signed char.
  type Char = x: int | -128 <= x < 128

  const EXCL: Char := 33
  const MAX_SIZE := 256
  const TWO32 := 0x1_0000_0000

  // (unsigned int)x * mult % size
  function Slot(x: Char, mult: nat, size: nat): (i: nat)
    requires size > 0
    ensures i < size
  {
    ((if x >= 0 then x as int else x as int + TWO32) * mult) % TWO32 % size
  }

  predicate NoZero(s: seq<Char>) { forall i :: 0 <= i < |s| ==> s[i] != 0 }

  // No two characters of s want the same place.
  predicate Perfect(s: seq<Char>, mult: nat, size: nat)
    requires size > 0
  {
    forall i, j :: 0 <= i < |s| && 0 <= j < |s| && Slot(s[i], mult, size) == Slot(s[j], mult, size) ==> s[i] == s[j]
  }

  // 2^32 is 1 modulo 255, so with 255 places and multiplier 1 a character c goes to c modulo
  // 255 if it is positive and to c + 1 if it is negative, and no two of the 255 meet.
  lemma Slot255(x: Char)
    requires x != 0
    ensures Slot(x, 1, 255) == (if x > 0 then x as int else (x as int + 256) % 255)
  {
    if x < 0 {
      var y := x as int;
      assert (y + TWO32) == 255 * 16843009 + (y + 1);
      assert (y + TWO32) == 255 * 16843008 + (y + 256);
    }
  }

  lemma AlwaysPerfect(s: seq<Char>)
    requires NoZero(s)
    ensures Perfect(s, 1, 255)
  {
    forall i, j | 0 <= i < |s| && 0 <= j < |s| && Slot(s[i], 1, 255) == Slot(s[j], 1, 255) ensures s[i] == s[j] {
      Slot255(s[i]);
      Slot255(s[j]);
    }
  }

  // ---- negation and exclusion ------------------------------------------------------------

  function Without(s: seq<Char>, x: Char): (r: seq<Char>)
    ensures forall c :: c in r <==> c in s && c != x
    ensures |r| <= |s|
  {
    if s == [] then []
    else
      var r := Without(s[1..], x);
      assert forall c :: c in s <==> c == s[0] || c in s[1..];
      if s[0] == x then r else [s[0]] + r
  }

  lemma {:induction false} WithoutMore(s: seq<Char>, c: Char, x: Char)
    ensures Without(s + [c], x) == Without(s, x) + (if c == x then [] else [c])
    decreases |s|
  {
    if s == [] {
      assert s + [c] == [c] && [c][1..] == [];
    } else {
      assert (s + [c])[1..] == s[1..] + [c];
      WithoutMore(s[1..], c, x);
    }
  }

  function WithoutAll(s: seq<Char>, xs: seq<Char>): (r: seq<Char>)
    ensures forall c :: c in r <==> c in s && c !in xs
    ensures |r| <= |s|
    decreases xs
  {
    if xs == [] then s
    else
      assert forall c :: c in xs <==> c == xs[0] || c in xs[1..];
      WithoutAll(Without(s, xs[0]), xs[1..])
  }

  // The string in a buffer, up to its zero byte.
  predicate Holds(buf: seq<Char>, s: seq<Char>) {
    |s| < |buf| && buf[..|s|] == s && buf[|s|] == 0 && NoZero(s)
  }

  // The inner loop of unexcl: the characters other than x are moved to the front, in place.
  method Squeeze(a: array<Char>, ghost s: seq<Char>, x: Char)
    requires Holds(a[..], s) && x != 0
    modifies a
    ensures Holds(a[..], Without(s, x)) && a[|s|..] == old(a[|s|..])
  {
    var i, j := 0, 0;
    while a[j] != 0
      invariant i <= j <= |s| < a.Length && a[j..] == old(a[j..]) && a[..i] == Without(s[..j], x)
      decreases |s| - j
    {
      assert a[j] == old(a[j..])[0] == s[j];
      WithoutMore(s[..j], s[j], x);
      assert s[..j + 1] == s[..j] + [s[j]];
      ghost var rest := a[j + 1..];
      a[i] := a[j];
      assert a[j + 1..] == rest == old(a[j + 1..]);
      if a[i] != x { i := i + 1; }
      j := j + 1;
    }
    assert a[j] == old(a[j..])[0];
    assert j == |s| && s[..j] == s;
    a[i] := 0;
    assert a[..][..i] == a[..i];
    forall k | 0 <= k < |Without(s, x)| ensures Without(s, x)[k] != 0 { assert Without(s, x)[k] in Without(s, x); }
  }

  // The first and the last place of a character (strchr, strrchr), or the length.
  function First(s: seq<Char>, x: Char): (i: nat)
    ensures i <= |s| && (i < |s| ==> s[i] == x) && x !in s[..i]
  {
    if s == [] || s[0] == x then 0
    else
      var i := First(s[1..], x);
      assert s[..i + 1] == [s[0]] + s[1..][..i];
      i + 1
  }

  function Last(s: seq<Char>, x: Char): (i: nat)
    ensures i <= |s| && (i < |s| ==> s[i] == x && x !in s[i + 1..]) && (i == |s| ==> x !in s)
  {
    if s == [] then 0
    else if s[|s| - 1] == x then |s| - 1
    else
      var i := Last(s[..|s| - 1], x);
      assert s == s[..|s| - 1] + [s[|s| - 1]];
      if i == |s| - 1 then |s| else (assert s[i + 1..] == s[..|s| - 1][i + 1..] + [s[|s| - 1]]; i)
  }

  // What a description without leading exclamation marks means: the characters before the
  // mark, less those after it.
  function Meant(s: seq<Char>): seq<Char> {
    var k := Last(s, EXCL);
    if k == |s| then s else WithoutAll(s[..k], s[k + 1..])
  }

  // More than one mark is refused.
  predicate Excessive(s: seq<Char>) { First(s, EXCL) < Last(s, EXCL) < |s| }

  // unexcl: the mark is overwritten, then the characters after it are taken out one by one.
  method Unexcl(a: array<Char>, ghost s: seq<Char>) returns (ok: bool, ghost r: seq<Char>)
    requires Holds(a[..], s)
    modifies a
    ensures ok == !Excessive(s)
    ensures ok ==> r == Meant(s) && Holds(a[..], r) && |r| <= |s|
  {
    var n := Length(a, s);
    assert a[..n] == s;
    var last := Last(a[..n], EXCL);
    if last == n { return true, s; }
    if last != First(a[..n], EXCL) { return false, s; }
    ghost var buf, tail := a[..], a[last + 1..];
    TailHolds(buf, s, last + 1);
    FrontHolds(buf, s, last);
    assert buf[last + 1..] == tail;
    a[last] := 0;
    assert a[..] == buf[last := 0] && a[last + 1..] == tail;
    r := Exclude(a, last + 1, s[..last], s[last + 1..]);
    ok := true;
  }

  // Cut off at k, a string's first k characters are left.
  lemma FrontHolds(buf: seq<Char>, s: seq<Char>, k: nat)
    requires Holds(buf, s) && k < |s|
    ensures Holds(buf[k := 0], s[..k])
  {
    assert buf[k := 0][..k] == buf[..|s|][..k];
  }

  lemma TailHolds(buf: seq<Char>, s: seq<Char>, k: nat)
    requires Holds(buf, s) && k <= |s|
    ensures Holds(buf[k..], s[k..])
  {
    assert buf[k..][..|s| - k] == buf[..|s|][k..];
  }

  method SqueezeBefore(a: array<Char>, ghost r: seq<Char>, x: Char, ghost from: nat)
    requires Holds(a[..], r) && x != 0 && |r| < from <= a.Length
    modifies a
    ensures Holds(a[..], Without(r, x)) && a[from..] == old(a[from..])
  {
    Squeeze(a, r, x);
    assert a[from..] == a[|r|..][from - |r|..];
  }

  // The outer loop: base is the string at the front, tail the one at from.
  method Exclude(a: array<Char>, from: nat, ghost base: seq<Char>, ghost tail: seq<Char>) returns (ghost r: seq<Char>)
    requires Holds(a[..], base) && |base| < from <= a.Length && Holds(a[from..], tail)
    modifies a
    ensures r == WithoutAll(base, tail) && Holds(a[..], r)
  {
    r := base;
    var p := from;
    ghost var rest := a[from..];
    assert forall k :: 0 <= k < |tail| ==> rest[k] == rest[..|tail|][k] == tail[k];
    while a[p] != 0
      invariant from <= p <= from + |tail| < a.Length && a[from..] == rest
      invariant Holds(a[..], r) && |r| < from && WithoutAll(r, tail[p - from..]) == WithoutAll(base, tail)
      decreases from + |tail| - p
    {
      assert a[p] == rest[p - from];
      assert tail[p - from..][1..] == tail[p + 1 - from..];
      SqueezeBefore(a, r, a[p], from);
      r := Without(r, tail[p - from]);
      p := p + 1;
    }
    assert rest[p - from] == a[p];
  }

  // strlen
  method Length(a: array<Char>, ghost s: seq<Char>) returns (n: nat)
    requires Holds(a[..], s)
    ensures n == |s|
  {
    n := 0;
    assert forall k :: 0 <= k < |s| ==> a[k] == s[k];
    while a[n] != 0
      invariant n <= |s|
      decreases |s| - n
    {
      n := n + 1;
    }
  }

  // ---- the search for a perfect table ------------------------------------------------------------

  datatype Outcome = Fine | TooManyExcls | Mismatch | Overflow

  lemma Clash(s: seq<Char>, j: nat, y: Char, mult: nat, size: nat)
    requires size > 0 && j < |s| && y in s[..j] && y != s[j] && Slot(y, mult, size) == Slot(s[j], mult, size)
    ensures !Perfect(s, mult, size)
  {
    var i :| 0 <= i < j && s[..j][i] == y;
    assert s[i] == y;
  }

  // s[j] meets nobody before it.
  lemma PerfectMore(s: seq<Char>, j: nat, mult: nat, size: nat)
    requires size > 0 && j < |s| && Perfect(s[..j], mult, size)
    requires forall y :: y in s[..j] && Slot(y, mult, size) == Slot(s[j], mult, size) ==> y == s[j]
    ensures Perfect(s[..j + 1], mult, size)
  {
    var t := s[..j + 1];
    forall a, b | 0 <= a < |t| && 0 <= b < |t| && Slot(t[a], mult, size) == Slot(t[b], mult, size)
      ensures t[a] == t[b]
    {
      assert a < j ==> t[a] == s[..j][a];
      assert b < j ==> t[b] == s[..j][b];
    }
  }

  // The first characters of a string in their places, and nothing else.
  ghost predicate Filled(t: seq<Char>, size: nat, mult: nat, s: seq<Char>)
    requires 0 < size <= |t|
  {
    && (forall x: Char :: x != 0 ==> (t[Slot(x, mult, size)] == x <==> x in s))
    && forall k :: 0 <= k < size && t[k] != 0 ==> t[k] in s && Slot(t[k], mult, size) == k
  }

  lemma FilledMore(t: seq<Char>, size: nat, mult: nat, s: seq<Char>, x: Char)
    requires 0 < size <= |t| && Filled(t, size, mult, s) && x != 0
    requires t[Slot(x, mult, size)] == 0 || t[Slot(x, mult, size)] == x
    ensures Filled(t[Slot(x, mult, size) := x], size, mult, s + [x])
  {
  }

  // The characters of s put in their places, unless two of them meet.
  method TryFill(t: array<Char>, size: nat, s: seq<Char>, mult: nat) returns (fits: bool)
    requires 0 < size <= t.Length && NoZero(s)
    modifies t
    ensures fits == Perfect(s, mult, size)
    ensures fits ==> forall x: Char :: x != 0 ==> (t[Slot(x, mult, size)] == x <==> x in s)
  {
    var i := 0;
    while i < size
      invariant i <= size && forall k :: 0 <= k < i ==> t[k] == 0
    {
      t[i] := 0;
      i := i + 1;
    }
    var j := 0;
    while j < |s|
      invariant j <= |s| && Perfect(s[..j], mult, size)
      invariant Filled(t[..], size, mult, s[..j])
    {
      var p := Slot(s[j], mult, size);
      if t[p] != 0 && t[p] != s[j] {
        Clash(s, j, t[p], mult, size);
        return false;
      }
      ghost var was := t[..];
      FilledMore(was, size, mult, s[..j], s[j]);
      t[p] := s[j];
      assert t[..] == was[p := s[j]] && s[..j + 1] == s[..j] + [s[j]];
      PerfectMore(s, j, mult, size);
      j := j + 1;
    }
    assert s[..|s|] == s;
    fits := true;
  }

  // The loops over sizes and multipliers. A table is found exactly when the string has at
  // most 255 characters and any multiplier may be used at all.
  method Search(s: seq<Char>, hashSearch: int) returns (o: Outcome, mult: nat, size: nat, t: array<Char>)
    requires NoZero(s)
    ensures o in {Fine, Overflow} && (o == Fine <==> |s| < MAX_SIZE && hashSearch >= 1)
    ensures o == Fine ==>
              && 0 < size <= t.Length && size < MAX_SIZE && 1 <= mult <= hashSearch
              && forall x: Char :: x != 0 ==> (t[Slot(x, mult, size)] == x <==> x in s)
    ensures fresh(t)
  {
    size, mult := |s|, 0;
    var all := 2 * size;
    if size == 0 { size, all := 1, 1; }
    t := new Char[all];
    AlwaysPerfect(s);
    while size < MAX_SIZE
      invariant 0 < size <= all + 1 && t.Length == all && all > 0 && |s| <= size && fresh(t)
      invariant |s| < MAX_SIZE ==> size <= MAX_SIZE
      invariant hashSearch >= 1 && |s| < MAX_SIZE ==> size < MAX_SIZE
      decreases MAX_SIZE - size
    {
      if size > all {
        all := 2 * all;
        t := new Char[all];
      }
      mult := 1;
      while mult <= hashSearch
        invariant 1 <= mult && (mult > 1 ==> hashSearch >= 1 && !Perfect(s, 1, size))
        decreases hashSearch - mult
      {
        var fits := TryFill(t, size, s, mult);
        if fits { return Fine, mult, size, t; }
        mult := mult + 1;
      }
      size := size + 1;
    }
    o := Overflow;
  }

  // ---- sets ------------------------------------------------------------------------------------------

  // The leading marks, each of which turns the meaning round.
  function Marks(s: seq<Char>): (n: nat)
    ensures n <= |s| && (n < |s| ==> s[n] != EXCL)
  {
    if s == [] || s[0] != EXCL then 0 else 1 + Marks(s[1..])
  }

  // What a description means.
  predicate InSet(s: seq<Char>, x: Char) {
    (x in Meant(s[Marks(s)..])) != (Marks(s) % 2 == 1)
  }

  // Without exclamation marks a description means its characters.
  lemma InSetPlain(s: seq<Char>, x: Char)
    requires 33 !in s
    ensures InSet(s, x) <==> x in s
  {
    if s != [] {
      assert s[0] in s;
    }
    assert s[0..] == s;
  }

  // A mark in front turns the meaning round.
  lemma InSetNegated(s: seq<Char>, x: Char)
    ensures InSet([33] + s, x) <==> !InSet(s, x)
  {
    var d, m := [33] + s, Marks(s);
    assert d[1..] == s;
    assert Marks(d) == m + 1;
    assert d[m + 1..] == s[m..];
    assert (m + 1) % 2 == 1 <==> m % 2 != 1;
  }

  // Characters after a mark are taken out of those before it.
  lemma InSetExcluding(s: seq<Char>, xs: seq<Char>, x: Char)
    requires s != [] && 33 !in s && 33 !in xs
    ensures InSet(s + [33] + xs, x) <==> x in s && x !in xs
  {
    var d := s + [33] + xs;
    assert d[0] == s[0] && s[0] in s;
    assert Marks(d) == 0 && d[0..] == d;
    OneMark(s, xs);
    assert d[..|s|] == s && d[|s| + 1..] == xs;
  }

  lemma OneMark(s: seq<Char>, xs: seq<Char>)
    requires 33 !in s && 33 !in xs
    ensures First(s + [33] + xs, EXCL) == |s| == Last(s + [33] + xs, EXCL)
  {
    var d := s + [33] + xs;
    forall i | 0 <= i < |d| && i != |s| ensures d[i] != 33 {
      if i < |s| { assert s[i] in s; } else { assert xs[i - |s| - 1] in xs; }
    }
    OnlyAt(d, EXCL, |s|);
  }

  lemma OnlyAt(d: seq<Char>, x: Char, k: nat)
    requires k < |d| && d[k] == x && forall i :: 0 <= i < |d| && i != k ==> d[i] != x
    ensures First(d, x) == k == Last(d, x)
  {
    FirstBefore(d, x, k);
    LastAfter(d, x, k);
  }

  lemma {:induction false} FirstBefore(s: seq<Char>, x: Char, i: nat)
    requires i < |s| && s[i] == x
    ensures First(s, x) <= i
  {
    if s[0] != x {
      FirstBefore(s[1..], x, i - 1);
    }
  }

  lemma {:induction false} LastAfter(s: seq<Char>, x: Char, i: nat)
    requires i < |s| && s[i] == x
    ensures i <= Last(s, x) < |s|
  {
    if s[|s| - 1] != x {
      LastAfter(s[..|s| - 1], x, i);
    }
  }

  // A description is refused if two marks come after a character that is none.
  lemma RefusedExactly(s: seq<Char>, t: seq<Char>)
    requires (forall i :: 0 <= i < |s| ==> s[i] == 33) && (t != [] ==> t[0] != 33)
    ensures Excessive((s + t)[Marks(s + t)..]) <==> exists i, j :: 0 <= i < j < |t| && t[i] == 33 && t[j] == 33
  {
    MarksAre(s, t);
    assert (s + t)[|s|..] == t;
    var a, b := First(t, EXCL), Last(t, EXCL);
    forall i | 0 <= i < |t| && t[i] == 33 ensures a <= i <= b < |t| {
      FirstBefore(t, EXCL, i);
      LastAfter(t, EXCL, i);
    }
  }

  lemma {:induction false} MarksAre(s: seq<Char>, t: seq<Char>)
    requires (forall i :: 0 <= i < |s| ==> s[i] == 33) && (t != [] ==> t[0] != 33)
    ensures Marks(s + t) == |s|
  {
    if s == [] {
      assert s + t == t;
    } else {
      assert (s + t)[1..] == s[1..] + t;
      MarksAre(s[1..], t);
    }
  }

  // What is left of the characters before a mark: all but those after it, as often as they were there.
  lemma {:induction false} WithoutCount(s: seq<Char>, x: Char, c: Char)
    ensures multiset(Without(s, x))[c] == if c == x then 0 else multiset(s)[c]
  {
    if s != [] {
      WithoutCount(s[1..], x, c);
      assert s == [s[0]] + s[1..];
    }
  }

  lemma {:induction false} WithoutAllCount(s: seq<Char>, xs: seq<Char>, c: Char)
    ensures multiset(WithoutAll(s, xs))[c] == if c in xs then 0 else multiset(s)[c]
    decreases xs
  {
    if xs != [] {
      WithoutCount(s, xs[0], c);
      WithoutAllCount(Without(s, xs[0]), xs[1..], c);
    }
  }

  class Booltab {
    var neg: bool
    var mult: nat
    var size: nat
    var t: array<Char>
    ghost var described: seq<Char>

    ghost predicate Valid()
      reads this, t
    {
      && 0 < size <= t.Length
      && forall x: Char :: x != 0 ==> ((t[Slot(x, mult, size)] == x) != neg <==> InSet(described, x))
    }

    constructor (neg: bool, mult: nat, size: nat, t: array<Char>, ghost s: seq<Char>)
      requires 0 < size <= t.Length
      requires forall x: Char :: x != 0 ==> ((t[Slot(x, mult, size)] == x) != neg <==> InSet(s, x))
      ensures Valid() && described == s
    {
      this.neg, this.mult, this.size, this.t, described := neg, mult, size, t, s;
    }

    method IsMember(x: Char) returns (r: bool)
      requires Valid() && x != 0
      ensures r <==> InSet(described, x)
    {
      r := (t[Slot(x, mult, size)] == x) != neg;
    }
  }

  // booltab's constructor
  method MakeBooltab(s: seq<Char>, hashSearch: int) returns (o: Outcome, b: Booltab?)
    requires NoZero(s)
    ensures o != Mismatch && (o == TooManyExcls <==> Excessive(s[Marks(s)..]))
    ensures o == Overflow <==> !Excessive(s[Marks(s)..]) && (|Meant(s[Marks(s)..])| >= MAX_SIZE || hashSearch < 1)
    ensures o == Fine <==> b != null
    ensures b != null ==> b.Valid() && b.described == s
  {
    var neg, n := false, 0;
    while n < |s| && s[n] == EXCL
      invariant n <= |s| && neg == (n % 2 == 1) && Marks(s) == n + Marks(s[n..])
    {
      assert s[n..][1..] == s[n + 1..];
      neg, n := !neg, n + 1;
    }
    assert n == Marks(s);
    var a := new Char[|s| - n + 1](i requires 0 <= i < |s| - n + 1 => if n + i < |s| then s[n + i] else 0);
    assert a[..|s| - n] == s[n..];
    ghost var r;
    var ok;
    ok, r := Unexcl(a, s[n..]);
    if !ok { return TooManyExcls, null; }
    var len := Length(a, r);
    assert a[..len] == r;
    var mult, size, t;
    o, mult, size, t := Search(a[..len], hashSearch);
    if o == Overflow { return o, null; }
    b := new Booltab(neg, mult, size, t, s);
  }
}
