// Walking leftwards (src/unit.cc:1249-1256, 1281-1289): the same walk in the mirrored tree.
module UnitMirror {
  import opened UnitTree
  import opened UnitWalk

  function Reversed(s: seq<Ref>): (r: seq<Ref>)
    ensures |r| == |s| && forall i :: 0 <= i < |s| ==> r[i] == s[|s| - 1 - i]
  {
    if s == [] then [] else Reversed(s[1..]) + [s[0]]
  }

  lemma ReversedJoin(a: seq<Ref>, b: seq<Ref>)
    ensures Reversed(a + b) == Reversed(b) + Reversed(a)
  {
    var l, m := Reversed(a + b), Reversed(b) + Reversed(a);
    forall i | 0 <= i < |l| ensures l[i] == m[i] {
    }
  }

  function Turned(u: Unit): (v: Unit) {
    u.(next := u.prev, prev := u.next, first := u.last, last := u.first)
  }

  // Left and right exchanged.
  ghost function Mirror(at: Links): (m: Links)
    ensures m.Keys == at.Keys && forall x :: x in at ==> m[x] == Turned(at[x])
  {
    map x | x in at :: Turned(at[x])
  }

  ghost function MirrorKids(kids: Kids): (m: Kids)
    ensures m.Keys == kids.Keys && forall x :: x in kids ==> m[x] == Reversed(kids[x])
  {
    map x | x in kids :: Reversed(kids[x])
  }

  lemma MirrorUnit(at: Links, kids: Kids, x: Ref)
    requires Linked(at, kids) && x in at
    ensures Children(Mirror(at), x, MirrorKids(kids)[x]) && Placed(Mirror(at), MirrorKids(kids), x)
  {
    var ks, m := kids[x], Mirror(at);
    var rs := Reversed(ks);
    assert Look(x);
    forall i | 0 <= i < |rs| ensures Child(m, x, rs, i) {
      assert Child(at, x, ks, |ks| - 1 - i);
    }
    forall i, j | 0 <= i < j < |rs| ensures rs[i] != rs[j] {
      assert ks[|ks| - 1 - j] != ks[|ks| - 1 - i];
    }
    var f := at[x].father;
    if f != NULL {
      var i :| 0 <= i < |kids[f]| && kids[f][i] == x;
      assert Reversed(kids[f])[|kids[f]| - 1 - i] == x;
    }
  }

  lemma MirrorLinked(at: Links, kids: Kids)
    requires Linked(at, kids)
    ensures Linked(Mirror(at), MirrorKids(kids))
  {
    var m, l := Mirror(at), MirrorKids(kids);
    forall x {:trigger Look(x)} | Look(x) && x in m ensures Children(m, x, l[x]) && Placed(m, l, x) {
      MirrorUnit(at, kids, x);
    }
  }

  lemma {:induction false} MirrorUnder(at: Links, r: Ref, x: Ref, n: nat)
    requires x in at
    ensures Under(at, r, x, n) == Under(Mirror(at), r, x, n)
    decreases n
  {
    if n > 0 && at[x].father in at {
      MirrorUnder(at, r, at[x].father, n - 1);
    }
  }

  // A walk stands in the mirrored tree where it stands in the tree.
  lemma MirrorStands(at: Links, kids: Kids, r: Ref, x: Ref, n: nat)
    requires Stands(at, kids, r, x, n)
    ensures Stands(Mirror(at), MirrorKids(kids), r, x, n)
  {
    MirrorLinked(at, kids);
    MirrorUnder(at, r, x, n);
    assert Look(x);
    assert Bounds(Mirror(at), r) by {
      forall z {:trigger Look(z)} | Look(z) && z in at && at[z].depth < at[r].depth ensures !Mirror(at)[z].scope {
      }
    }
  }

  lemma {:induction false} MirrorRow(kids: Kids, x: Ref, n: nat)
    ensures Row(MirrorKids(kids), x, n) == Reversed(Row(kids, x, n))
    decreases n, 0, 0
  {
    if n == 0 {
      assert [x][1..] == [];
    } else if x in kids {
      MirrorRows(kids, kids[x], n - 1);
    }
  }

  lemma {:induction false} MirrorRows(kids: Kids, xs: seq<Ref>, n: nat)
    ensures Rows(MirrorKids(kids), Reversed(xs), n) == Reversed(Rows(kids, xs, n))
    decreases n, 1, |xs|
  {
    if xs != [] {
      MirrorRow(kids, xs[0], n);
      MirrorRows(kids, xs[1..], n);
      var m := MirrorKids(kids);
      RowsJoin(m, Reversed(xs[1..]), [xs[0]], n);
      assert Rows(m, [xs[0]], n) == Row(m, xs[0], n) by {
        assert [xs[0]][1..] == [];
      }
      ReversedJoin(Row(kids, xs[0], n), Rows(kids, xs[1..], n));
    }
  }

  // m is the mirrored tree.
  ghost predicate Mirrors(at: Links, m: Links) {
    m.Keys == at.Keys && forall x {:trigger Look(x)} :: Look(x) && x in at ==> m[x] == Turned(at[x])
  }

  lemma IsTurned(at: Links, m: Links, x: Ref)
    requires Mirrors(at, m) && x in at
    ensures m[x] == Turned(at[x])
  {
    assert Look(x);
  }

  // The last unit of level d inside x, or else the last before it, within the scope.
  function RightMost(at: Links, ghost m: Links, ghost l: Kids, ghost r: Ref, x: Ref, ghost n: nat, d: nat): (y: Ref)
    requires x in at && Mirrors(at, m) && Stands(m, l, r, x, n) && d <= m[x].depth
    ensures Begins(m, l, r, y, d, Ahead(m, l, x, n, d), Left(m, l, x, n))
    decreases Left(m, l, x, n), 0, 0
  {
    IsTurned(at, m, x);
    if d == at[x].depth then
      Arrived(m, l, r, x, n);
      x
    else if at[x].last == NULL then
      if at[x].scope then
        Unscoped(m, l, r, x, n);
        NoKids(m, l, x, at[x].depth - d);
        EMPTY
      else
        var y := Prev(at, m, l, r, x, n, at[x].depth);
        Childless(m, l, r, x, n, d, y);
        if y == EMPTY then EMPTY else RightMost(at, m, l, r, y, n, d)
    else
      Inwards(m, l, r, x, n, d);
      RightMost(at, m, l, r, at[x].last, n + 1, d)
  }

  // The last unit of level d before x, within the scope.
  function Prev(at: Links, ghost m: Links, ghost l: Kids, ghost r: Ref, x: Ref, ghost n: nat, d: nat): (y: Ref)
    requires x in at && Mirrors(at, m) && Stands(m, l, r, x, n) && d <= m[x].depth
    ensures Begins(m, l, r, y, d, After(m, l, x, n, m[x].depth - d), Rest(m, l, x, n))
    decreases Rest(m, l, x, n), 1, n
  {
    IsTurned(at, m, x);
    Unscoped(m, l, r, x, n);
    if at[x].scope then EMPTY
    else if at[x].prev != NULL then
      Sideways(m, l, r, x, n, d);
      RightMost(at, m, l, r, at[x].prev, n, d)
    else if at[x].father != NULL then
      Outwards(m, l, r, x, n, d);
      Prev(at, m, l, r, at[x].father, n - 1, d)
    else EMPTY
  }

  // Leftwards, a walk has before it the row of the scope from right to left.
  lemma MirrorAhead(at: Links, kids: Kids, r: Ref, d: nat)
    requires Stands(at, kids, r, r, 0) && d <= at[r].depth
    ensures var m, l := Mirror(at), MirrorKids(kids);
            && Mirrors(at, m) && Stands(m, l, r, r, 0)
            && Ahead(m, l, r, 0, d) == Reversed(Row(kids, r, at[r].depth - d))
            && m[r].depth == at[r].depth && Row(l, r, m[r].depth - d) == Reversed(Row(kids, r, at[r].depth - d))
  {
    MirrorStands(at, kids, r, r, 0);
    MirrorRow(kids, r, at[r].depth - d);
  }
}
