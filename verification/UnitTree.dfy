// The tree of text units (src/unit.cc): its links, and the rows of units they hold.
module UnitTree {

  // Units are named by references; EMPTY is the unit that ends every walk.
  type Ref = nat
  const NULL: Ref := 0
  const EMPTY: Ref := 1

  datatype Unit = Unit(next: Ref, prev: Ref, father: Ref, first: Ref, last: Ref, depth: nat, cont: int, scope: bool)

  // The units there are.
  type Links = map<Ref, Unit>

  // Each unit's children, from left to right.
  type Kids = map<Ref, seq<Ref>>

  // ---- the links ---------------------------------------------------------------------

  // The i-th of p's children: its links to father and neighbours.
  predicate Child(at: Links, p: Ref, ks: seq<Ref>, i: nat)
    requires p in at && i < |ks|
  {
    && ks[i] in at && at[ks[i]].father == p && at[ks[i]].depth + 1 == at[p].depth
    && at[ks[i]].prev == (if i == 0 then NULL else ks[i - 1])
    && at[ks[i]].next == (if i + 1 == |ks| then NULL else ks[i + 1])
  }

  predicate Distinct(ks: seq<Ref>) {
    forall i, j :: 0 <= i < j < |ks| ==> ks[i] != ks[j]
  }

  predicate Children(at: Links, p: Ref, ks: seq<Ref>)
    requires p in at
  {
    && at[p].first == (if ks == [] then NULL else ks[0]) && at[p].last == (if ks == [] then NULL else ks[|ks| - 1])
    && (forall i :: 0 <= i < |ks| ==> Child(at, p, ks, i))
    && Distinct(ks)
  }

  // x is a root, without neighbours, or one of its father's children.
  predicate Placed(at: Links, kids: Kids, x: Ref)
    requires x in at
  {
    var f := at[x].father;
    if f == NULL then at[x].next == NULL && at[x].prev == NULL
    else f in at && f in kids && x in kids[f]
  }

  // Asked of a unit to look at its links.
  predicate Look(x: Ref) { true }

  // The conditions sanity() checks, for every unit.
  ghost predicate Linked(at: Links, kids: Kids) {
    && at.Keys == kids.Keys && NULL !in at && EMPTY !in at
    && forall x {:trigger Look(x)} :: Look(x) && x in at ==> Children(at, x, kids[x]) && Placed(at, kids, x)
  }

  // A unit's place among its father's children.
  ghost function Pos(at: Links, kids: Kids, x: Ref): (i: nat)
    requires Linked(at, kids) && x in at && at[x].father != NULL
    ensures var f := at[x].father;
            f in at && f in kids && i < |kids[f]| && kids[f][i] == x && Child(at, f, kids[f], i)
  {
    assert Look(x) && Placed(at, kids, x);
    var ks := kids[at[x].father];
    var i: nat :| i < |ks| && ks[i] == x;
    assert Look(at[x].father) && Child(at, at[x].father, ks, i);
    i
  }

  lemma PosIs(at: Links, kids: Kids, p: Ref, i: nat)
    requires Linked(at, kids) && p in at && i < |kids[p]|
    ensures var x := kids[p][i];
            p != NULL && x in at && Child(at, p, kids[p], i) && Pos(at, kids, x) == i
  {
    assert Look(p) && Child(at, p, kids[p], i);
  }

  // A unit's father and brothers.
  lemma Beside(at: Links, kids: Kids, x: Ref)
    requires Linked(at, kids) && x in at && at[x].father != NULL
    ensures var f, p := at[x].father, Pos(at, kids, x);
            && f in at && at[f].depth == at[x].depth + 1
            && (at[x].next == NULL) == (p + 1 == |kids[f]|) && (at[x].prev == NULL) == (p == 0)
            && (p + 1 < |kids[f]| ==> kids[f][p + 1] == at[x].next && at[x].next in at
                                      && at[at[x].next].father == f && at[at[x].next].depth == at[x].depth)
            && (p > 0 ==> kids[f][p - 1] == at[x].prev && at[x].prev in at
                          && at[at[x].prev].father == f && at[at[x].prev].depth == at[x].depth)
            && at[f].father != x && at[f].first == kids[f][0] && at[f].last == kids[f][|kids[f]| - 1]
  {
    var f, p := at[x].father, Pos(at, kids, x);
    assert Look(f);
    if p + 1 < |kids[f]| {
      PosIs(at, kids, f, p + 1);
    }
    if p > 0 {
      PosIs(at, kids, f, p - 1);
    }
    if at[f].father != NULL {
      assert Pos(at, kids, f) >= 0;
    }
  }

  // x lies n levels below r.
  predicate Under(at: Links, r: Ref, x: Ref, n: nat)
    requires x in at
    decreases n
  {
    if n == 0 then x == r
    else at[x].father != NULL && at[x].father in at && Under(at, r, at[x].father, n - 1)
  }

  lemma UnderDepth(at: Links, kids: Kids, r: Ref, x: Ref, n: nat)
    requires Linked(at, kids) && r in at && x in at && Under(at, r, x, n)
    ensures at[x].depth + n == at[r].depth
    decreases n
  {
    if n > 0 {
      assert Pos(at, kids, x) >= 0;
      UnderDepth(at, kids, r, at[x].father, n - 1);
    }
  }

  // ---- the units of one level ----------------------------------------------------------

  // The units n levels below x, from left to right.
  ghost function Row(kids: Kids, x: Ref, n: nat): (l: seq<Ref>)
    decreases n, 0, 0
  {
    if n == 0 then [x]
    else if x !in kids then []
    else Rows(kids, kids[x], n - 1)
  }

  ghost function Rows(kids: Kids, xs: seq<Ref>, n: nat): (l: seq<Ref>)
    decreases n, 1, |xs|
  {
    if xs == [] then [] else Row(kids, xs[0], n) + Rows(kids, xs[1..], n)
  }

  lemma {:induction false} RowsJoin(kids: Kids, xs: seq<Ref>, ys: seq<Ref>, n: nat)
    ensures Rows(kids, xs + ys, n) == Rows(kids, xs, n) + Rows(kids, ys, n)
  {
    if xs == [] {
      assert xs + ys == ys;
    } else {
      assert (xs + ys)[0] == xs[0] && (xs + ys)[1..] == xs[1..] + ys;
      RowsJoin(kids, xs[1..], ys, n);
    }
  }

  lemma RowsCons(kids: Kids, x: Ref, xs: seq<Ref>, n: nat)
    ensures Rows(kids, [x] + xs, n) == Row(kids, x, n) + Rows(kids, xs, n)
  {
    assert ([x] + xs)[1..] == xs;
  }

  lemma RowsOne(kids: Kids, x: Ref, n: nat)
    ensures Rows(kids, [x], n) == Row(kids, x, n)
  {
    assert [x][1..] == [];
  }

  lemma RowsZero(kids: Kids, xs: seq<Ref>)
    ensures Rows(kids, xs, 0) == xs
  {
    if xs != [] {
      RowsZero(kids, xs[1..]);
    }
  }

  // The row m levels below the row n levels below x is the row n + m levels below x.
  lemma {:induction false} RowBelow(kids: Kids, x: Ref, n: nat, m: nat)
    ensures Rows(kids, Row(kids, x, n), m) == Row(kids, x, n + m)
    decreases n, 0, 0
  {
    if n == 0 {
      assert [x][1..] == [];
    } else if x in kids {
      RowsBelow(kids, kids[x], n - 1, m);
    }
  }

  lemma {:induction false} RowsBelow(kids: Kids, xs: seq<Ref>, n: nat, m: nat)
    ensures Rows(kids, Rows(kids, xs, n), m) == Rows(kids, xs, n + m)
    decreases n, 1, |xs|
  {
    if xs != [] {
      RowBelow(kids, xs[0], n, m);
      RowsBelow(kids, xs[1..], n, m);
      RowsJoin(kids, Row(kids, xs[0], n), Rows(kids, xs[1..], n), m);
    }
  }

  // ---- what follows a unit ---------------------------------------------------------------

  // A unit's brothers to the right.
  ghost function Right(at: Links, kids: Kids, x: Ref): (l: seq<Ref>)
    requires Linked(at, kids) && x in at && at[x].father != NULL
    ensures at[x].father in at
  {
    var i := Pos(at, kids, x);
    kids[at[x].father][i + 1..]
  }

  // The units m levels below x's level that come after x, within the unit n levels above x.
  ghost function After(at: Links, kids: Kids, x: Ref, n: nat, m: nat): (l: seq<Ref>)
    requires Linked(at, kids) && x in at
    decreases n
  {
    if n == 0 || at[x].father == NULL then []
    else Rows(kids, Right(at, kids, x), m) + After(at, kids, at[x].father, n - 1, m + 1)
  }

  lemma {:induction false} AfterBelow(at: Links, kids: Kids, x: Ref, n: nat, m: nat, k: nat)
    requires Linked(at, kids) && x in at
    ensures Rows(kids, After(at, kids, x, n, m), k) == After(at, kids, x, n, m + k)
    decreases n
  {
    if n > 0 && at[x].father != NULL {
      var right, f := Right(at, kids, x), at[x].father;
      RowsBelow(kids, right, m, k);
      AfterBelow(at, kids, f, n - 1, m + 1, k);
      RowsJoin(kids, Rows(kids, right, m), After(at, kids, f, n - 1, m + 1), k);
    }
  }

  // How many units a subtree has, and how many come after one.
  ghost function Size(kids: Kids, x: Ref, h: nat): (s: nat)
    ensures s >= 1
    decreases h, 0, 0
  {
    if h == 0 || x !in kids then 1 else 1 + Sizes(kids, kids[x], h - 1)
  }

  ghost function Sizes(kids: Kids, xs: seq<Ref>, h: nat): (s: nat)
    decreases h, 1, |xs|
  {
    if xs == [] then 0 else Size(kids, xs[0], h) + Sizes(kids, xs[1..], h)
  }

  ghost function Rest(at: Links, kids: Kids, x: Ref, n: nat): (s: nat)
    requires Linked(at, kids) && x in at
    decreases n
  {
    if n == 0 || at[x].father == NULL then 0
    else Sizes(kids, Right(at, kids, x), at[x].depth) + Rest(at, kids, at[x].father, n - 1)
  }

  // From a unit to its first child.
  lemma FirstStep(at: Links, kids: Kids, x: Ref, n: nat, m: nat)
    requires Linked(at, kids) && x in at && at[x].first != NULL
    ensures var c := at[x].first;
            && c in at && at[c].father == x && at[c].depth + 1 == at[x].depth
            && Row(kids, x, m + 1) + After(at, kids, x, n, m + 1) == Row(kids, c, m) + After(at, kids, c, n + 1, m)
            && Size(kids, x, at[x].depth) + Rest(at, kids, x, n)
               == 1 + Size(kids, c, at[c].depth) + Rest(at, kids, c, n + 1)
  {
    assert Look(x) && Children(at, x, kids[x]);
    PosIs(at, kids, x, 0);
    assert kids[x][0 + 1..] == kids[x][1..];
  }

  // From a unit to its right neighbour, or to what follows its father.
  lemma SideStep(at: Links, kids: Kids, x: Ref, n: nat, m: nat)
    requires Linked(at, kids) && x in at && n > 0 && at[x].father != NULL
    ensures var f, y := at[x].father, at[x].next;
            && f in at && at[f].depth == at[x].depth + 1
            && (y == NULL ==>
                  After(at, kids, x, n, m) == After(at, kids, f, n - 1, m + 1)
                  && Rest(at, kids, x, n) == Rest(at, kids, f, n - 1))
            && (y != NULL ==>
                  && y in at && at[y].father == f && at[y].depth == at[x].depth
                  && After(at, kids, x, n, m) == Row(kids, y, m) + After(at, kids, y, n, m)
                  && Rest(at, kids, x, n) == Size(kids, y, at[y].depth) + Rest(at, kids, y, n))
  {
    var f, i := at[x].father, Pos(at, kids, x);
    assert Look(f) && Children(at, f, kids[f]);
    if i + 1 < |kids[f]| {
      PosIs(at, kids, f, i + 1);
      var right := kids[f][i + 1..];
      assert right[0] == kids[f][i + 1] && right[1..] == kids[f][i + 1 + 1..];
    } else {
      assert kids[f][i + 1..] == [];
    }
  }
}
