// Mappings of characters, with and without the identity pairs (src/function.cc).
module CharFunctions {
  import opened CharTables

  // A domain and what it is mapped to: one character for all of it, or one for each.
  predicate Fitting(s: seq<Char>, r: seq<Char>) { |r| == 1 || |r| == |s| }

  function Image(r: seq<Char>, j: nat): Char
    requires |r| == 1 || j < |r|
  {
    if |r| == 1 then r[0] else r[j]
  }

  // Pair j is stored unless it is an identity and those are left out.
  predicate Stored(s: seq<Char>, r: seq<Char>, compress: bool, j: nat)
    requires Fitting(s, r) && j < |s|
  {
    !(compress && s[j] == Image(r, j))
  }

  // What x goes to by the first n pairs: the last stored pair for x decides.
  function Maps(s: seq<Char>, r: seq<Char>, compress: bool, n: nat, x: Char): Char
    requires Fitting(s, r) && n <= |s|
  {
    if n == 0 then x
    else if s[n - 1] == x && Stored(s, r, compress, n - 1) then Image(r, n - 1)
    else Maps(s, r, compress, n - 1, x)
  }

  // x is in the domain of a stored pair among the first n.
  predicate Bound(s: seq<Char>, r: seq<Char>, compress: bool, n: nat, x: Char)
    requires Fitting(s, r) && n <= |s|
  {
    n > 0 && ((s[n - 1] == x && Stored(s, r, compress, n - 1)) || Bound(s, r, compress, n - 1, x))
  }

  lemma {:induction false} BoundIn(s: seq<Char>, r: seq<Char>, compress: bool, n: nat, x: Char)
    requires Fitting(s, r) && n <= |s|
    ensures Bound(s, r, compress, n, x) ==> x in s[..n]
    ensures !compress ==> (Bound(s, r, compress, n, x) <==> x in s[..n])
    ensures !Bound(s, r, compress, n, x) ==> Maps(s, r, compress, n, x) == x
  {
    if n > 0 {
      BoundIn(s, r, compress, n - 1, x);
      assert s[..n] == s[..n - 1] + [s[n - 1]];
    }
  }

  // Without compression the last pair for x decides; with it, the last one that is not an identity.
  lemma {:induction false} MapsIs(s: seq<Char>, r: seq<Char>, compress: bool, n: nat, x: Char, j: nat)
    requires (|r| == 1 || |r| == |s|) && n <= |s|
    requires j < n && s[j] == x && (compress ==> x != if |r| == 1 then r[0] else r[j])
    requires forall k :: j < k < n && s[k] == x ==> compress && x == if |r| == 1 then r[0] else r[k]
    ensures Maps(s, r, compress, n, x) == if |r| == 1 then r[0] else r[j]
  {
    if n - 1 > j { MapsIs(s, r, compress, n - 1, x, j); }
  }

  // ---- the table --------------------------------------------------------------------

  datatype Couple = Couple(x: Char, y: Char)

  // t maps every character as the first n pairs do.
  ghost predicate Tabled(t: seq<Couple>, size: nat, mult: nat, s: seq<Char>, r: seq<Char>, compress: bool, n: nat)
    requires 0 < size <= |t| && Fitting(s, r) && n <= |s|
  {
    && (forall x: Char :: x != 0 ==> (t[Slot(x, mult, size)].x == x <==> Bound(s, r, compress, n, x)))
    && (forall x: Char :: x != 0 && Bound(s, r, compress, n, x) ==>
        t[Slot(x, mult, size)].y == Maps(s, r, compress, n, x))
    && (forall k :: 0 <= k < size && t[k].x != 0 ==> Bound(s, r, compress, n, t[k].x) && Slot(t[k].x, mult, size) == k)
  }

  lemma Apart(s: seq<Char>, j: nat, y: Char, mult: nat, size: nat)
    requires size > 0 && j < |s| && y in s[..j] && y != s[j] && Slot(y, mult, size) == Slot(s[j], mult, size)
    ensures !Perfect(s, mult, size)
  {
    var i :| 0 <= i < j && s[..j][i] == y;
    assert s[i] == y;
  }

  lemma TabledMore(t: seq<Couple>, size: nat, mult: nat, s: seq<Char>, r: seq<Char>, compress: bool, j: nat)
    requires 0 < size <= |t| && Fitting(s, r) && j < |s| && NoZero(s)
    requires Tabled(t, size, mult, s, r, compress, j) && Stored(s, r, compress, j)
    requires var p := Slot(s[j], mult, size); t[p].x == 0 || t[p].x == s[j]
    ensures Tabled(t[Slot(s[j], mult, size) := Couple(s[j], Image(r, j))], size, mult, s, r, compress, j + 1)
  {
    var p := Slot(s[j], mult, size);
    var u := t[p := Couple(s[j], Image(r, j))];
    forall x: Char | x != 0
      ensures u[Slot(x, mult, size)].x == x <==> Bound(s, r, compress, j + 1, x)
      ensures Bound(s, r, compress, j + 1, x) ==> u[Slot(x, mult, size)].y == Maps(s, r, compress, j + 1, x)
    {
    }
  }

  // An empty table, a pair that is left out, and a place taken by another character.
  lemma TabledNone(t: seq<Couple>, size: nat, mult: nat, s: seq<Char>, r: seq<Char>, compress: bool)
    requires 0 < size <= |t| && Fitting(s, r) && forall k :: 0 <= k < size ==> t[k].x == 0
    ensures Tabled(t, size, mult, s, r, compress, 0)
  {
  }

  lemma TabledSkip(t: seq<Couple>, size: nat, mult: nat, s: seq<Char>, r: seq<Char>, compress: bool, j: nat)
    requires 0 < size <= |t| && Fitting(s, r) && j < |s|
    requires Tabled(t, size, mult, s, r, compress, j) && !Stored(s, r, compress, j)
    ensures Tabled(t, size, mult, s, r, compress, j + 1)
  {
  }

  lemma Taken(t: seq<Couple>, size: nat, mult: nat, s: seq<Char>, r: seq<Char>, compress: bool, j: nat)
    requires 0 < size <= |t| && Fitting(s, r) && j < |s| && Tabled(t, size, mult, s, r, compress, j)
    requires var p := Slot(s[j], mult, size); t[p].x != 0 && t[p].x != s[j]
    ensures !Perfect(s, mult, size)
  {
    var p := Slot(s[j], mult, size);
    BoundIn(s, r, compress, j, t[p].x);
    Apart(s, j, t[p].x, mult, size);
  }

  method TryFill(t: array<Couple>, size: nat, s: seq<Char>, r: seq<Char>, compress: bool, mult: nat)
    returns (fits: bool)
    requires 0 < size <= t.Length && NoZero(s) && Fitting(s, r)
    modifies t
    ensures fits ==> Tabled(t[..], size, mult, s, r, compress, |s|)
    ensures Perfect(s, mult, size) ==> fits
  {
    var i := 0;
    while i < size
      invariant i <= size && forall k :: 0 <= k < i ==> t[k].x == 0
    {
      t[i] := t[i].(x := 0);
      i := i + 1;
    }
    TabledNone(t[..], size, mult, s, r, compress);
    var j := 0;
    while j < |s|
      invariant j <= |s| && Tabled(t[..], size, mult, s, r, compress, j)
    {
      if Stored(s, r, compress, j) {
        var p := Slot(s[j], mult, size);
        if t[p].x != 0 && t[p].x != s[j] {
          Taken(t[..], size, mult, s, r, compress, j);
          return false;
        }
        ghost var was := t[..];
        TabledMore(was, size, mult, s, r, compress, j);
        t[p] := Couple(s[j], Image(r, j));
        assert t[..] == was[p := Couple(s[j], Image(r, j))];
      } else {
        TabledSkip(t[..], size, mult, s, r, compress, j);
      }
      j := j + 1;
    }
    fits := true;
  }

  method Search(s: seq<Char>, r: seq<Char>, compress: bool, hashSearch: int)
    returns (o: Outcome, mult: nat, size: nat, t: array<Couple>)
    requires NoZero(s) && Fitting(s, r)
    ensures o in {Fine, Overflow} && (o == Fine <==> |s| < MAX_SIZE && hashSearch >= 1)
    ensures o == Fine ==> 0 < size <= t.Length && 1 <= mult && Tabled(t[..], size, mult, s, r, compress, |s|)
    ensures fresh(t)
  {
    size, mult := |s|, 0;
    var all := 2 * size;
    if size == 0 { size, all := 1, 1; }
    t := new Couple[all];
    AlwaysPerfect(s);
    while size < MAX_SIZE
      invariant 0 < size <= all + 1 && t.Length == all && all > 0 && |s| <= size && fresh(t)
      invariant |s| < MAX_SIZE ==> size <= MAX_SIZE
      invariant hashSearch >= 1 && |s| < MAX_SIZE ==> size < MAX_SIZE
      decreases MAX_SIZE - size
    {
      if size > all {
        all := 2 * all;
        t := new Couple[all];
      }
      mult := 1;
      while mult <= hashSearch
        invariant 1 <= mult && (mult > 1 ==> hashSearch >= 1 && !Perfect(s, 1, size))
        decreases hashSearch - mult
      {
        var fits := TryFill(t, size, s, r, compress, mult);
        if fits { return Fine, mult, size, t; }
        mult := mult + 1;
      }
      size := size + 1;
    }
    o := Overflow;
  }

  class Function {
    var mult: nat
    var size: nat
    var t: array<Couple>
    ghost var s: seq<Char>
    ghost var r: seq<Char>
    ghost var compress: bool

    ghost predicate Valid()
      reads this, t
    {
      0 < size <= t.Length && Fitting(s, r) && Tabled(t[..], size, mult, s, r, compress, |s|)
    }

    constructor (mult: nat, size: nat, t: array<Couple>, ghost s: seq<Char>, ghost r: seq<Char>, ghost compress: bool)
      requires 0 < size <= t.Length && Fitting(s, r) && Tabled(t[..], size, mult, s, r, compress, |s|)
      ensures Valid() && this.s == s && this.r == r && this.compress == compress
    {
      this.mult, this.size, this.t, this.s, this.r, this.compress := mult, size, t, s, r, compress;
    }

    // xlat
    method Translate(x: Char) returns (y: Char)
      requires Valid() && x != 0
      ensures y == Maps(s, r, compress, |s|, x)
      ensures |r| == 1 || |r| == |s|
      ensures x !in s ==> y == x
      ensures forall j :: 0 <= j < |s| && s[j] == x && !compress && (forall k :: j < k < |s| ==> s[k] != x)
                          ==> y == if |r| == 1 then r[0] else r[j]
    {
      BoundIn(s, r, compress, |s|, x);
      assert s[..|s|] == s;
      forall j | 0 <= j < |s| && s[j] == x && !compress && (forall k :: j < k < |s| ==> s[k] != x)
        ensures Maps(s, r, compress, |s|, x) == if |r| == 1 then r[0] else r[j]
      {
        MapsIs(s, r, compress, |s|, x, j);
      }
      var p := Slot(x, mult, size);
      assert t[p] == t[..][p];
      y := if t[p].x == x then t[p].y else x;
    }

    method IsMember(x: Char) returns (b: bool)
      requires Valid() && x != 0
      ensures b == Bound(s, r, compress, |s|, x)
      ensures !compress ==> (b <==> x in s)
    {
      BoundIn(s, r, compress, |s|, x);
      assert s[..|s|] == s;
      var p := Slot(x, mult, size);
      assert t[p] == t[..][p];
      b := t[p].x == x;
    }
  }

  // function's constructor: lists that do not fit are refused.
  method MakeFunction(s: seq<Char>, r: seq<Char>, compress: bool, hashSearch: int) returns (o: Outcome, f: Function?)
    requires NoZero(s)
    ensures o != TooManyExcls && (o == Mismatch <==> !Fitting(s, r)) && (o == Fine <==> f != null)
    ensures f != null <==> Fitting(s, r) && |s| < MAX_SIZE && hashSearch >= 1
    ensures f != null ==> f.Valid() && f.s == s && f.r == r && f.compress == compress
  {
    if |r| != 1 && |s| != |r| { return Mismatch, null; }
    var mult, size, t;
    o, mult, size, t := Search(s, r, compress, hashSearch);
    if o == Overflow { return o, null; }
    f := new Function(mult, size, t, s, r, compress);
  }

  // ---- compressed and uncompressed ----------------------------------------------------------

  // Among the first n pairs the last one for x is at j.
  predicate LastFor(s: seq<Char>, n: nat, x: Char, j: nat)
    requires n <= |s|
  {
    j < n && s[j] == x && forall k :: j < k < n ==> s[k] != x
  }

  // Among the first n pairs the last one for x is an identity, and one before it is not.
  predicate ShadowedIn(s: seq<Char>, r: seq<Char>, n: nat, x: Char)
    requires Fitting(s, r) && n <= |s|
  {
    exists i: nat, j: nat :: i < j < n && LastFor(s, n, x, j) && Image(r, j) == x && s[i] == x && Image(r, i) != x
  }

  predicate Shadowed(s: seq<Char>, r: seq<Char>, x: Char)
    requires Fitting(s, r)
  {
    ShadowedIn(s, r, |s|, x)
  }

  // What the pairs map x to with identities stored and without, by the places of the pairs for x.
  lemma {:induction false} BothFrom(s: seq<Char>, r: seq<Char>, n: nat, x: Char)
    requires Fitting(s, r) && n <= |s|
    ensures Maps(s, r, true, n, x) != x <==> exists i: nat :: i < n && s[i] == x && Image(r, i) != x
    ensures Maps(s, r, true, n, x) == Maps(s, r, false, n, x) <==> !ShadowedIn(s, r, n, x)
    ensures Maps(s, r, false, n, x) == x || Maps(s, r, true, n, x) == Maps(s, r, false, n, x)
  {
    if n > 0 {
      BothFrom(s, r, n - 1, x);
      if s[n - 1] == x {
        assert LastFor(s, n, x, n - 1);
      } else {
        forall j: nat ensures LastFor(s, n, x, j) <==> LastFor(s, n - 1, x, j) {
        }
      }
    }
  }

  // The two kinds translate x differently exactly when the last pair for x is an identity and an earlier
  // pair for x is not.
  lemma AlikeExactly(s: seq<Char>, r: seq<Char>, x: Char)
    requires Fitting(s, r)
    ensures Maps(s, r, true, |s|, x) == Maps(s, r, false, |s|, x) <==> !Shadowed(s, r, x)
  {
    BothFrom(s, r, |s|, x);
  }

  // With the pairs a-b and a-a a compressed function takes a to b, an uncompressed one to a.
  lemma NotAlike()
    ensures Maps([97, 97], [98, 97], true, 2, 97) == 98 && Maps([97, 97], [98, 97], false, 2, 97) == 97
    ensures Shadowed([97, 97], [98, 97], 97)
  {
    var s: seq<Char>, r: seq<Char> := [97, 97], [98, 97];
    assert Maps(s, r, true, 1, 97) == 98;
    assert LastFor(s, 2, 97, 1) && s[0] == 97 && Image(r, 0) != 97;
  }

  // So they always do when no character is in the domain twice.
  lemma AlikeWithoutRepeats(s: seq<Char>, r: seq<Char>, x: Char)
    requires Fitting(s, r) && forall i, j :: 0 <= i < j < |s| ==> s[i] != s[j]
    ensures Maps(s, r, true, |s|, x) == Maps(s, r, false, |s|, x)
  {
    AlikeFrom(s, r, |s|, x);
  }

  lemma {:induction false} AlikeFrom(s: seq<Char>, r: seq<Char>, n: nat, x: Char)
    requires Fitting(s, r) && n <= |s| && forall i, j :: 0 <= i < j < |s| ==> s[i] != s[j]
    ensures Maps(s, r, true, n, x) == Maps(s, r, false, n, x)
  {
    if n > 0 {
      AlikeFrom(s, r, n - 1, x);
      if s[n - 1] == x {
        BoundIn(s, r, true, n - 1, x);
        assert x !in s[..n - 1];
      }
    }
  }
}
