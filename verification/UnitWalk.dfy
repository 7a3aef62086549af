// Walking along one level of the tree of units (src/unit.cc:1249-1289).
module UnitWalk {
  import opened UnitTree

  // r is a scope or a whole tree, and no unit of a lower level is a scope.
  ghost predicate Bounds(at: Links, r: Ref) {
    && r in at && (at[r].scope || at[r].father == NULL)
    && forall x {:trigger Look(x)} :: Look(x) && x in at && at[x].depth < at[r].depth ==> !at[x].scope
  }

  // A walk at x, n levels below its scope r.
  ghost predicate Stands(at: Links, kids: Kids, r: Ref, x: Ref, n: nat) {
    && Linked(at, kids) && x in at && r in at && at[x].depth + n == at[r].depth
    && forall z {:trigger Look(z)} :: Look(z) && z == x ==> Bounds(at, r) && Under(at, r, x, n)
  }

  // The row that is left to a walk that has come to x, from level d on.
  ghost function Ahead(at: Links, kids: Kids, x: Ref, n: nat, d: nat): (l: seq<Ref>)
    requires Linked(at, kids) && x in at && d <= at[x].depth
  {
    Row(kids, x, at[x].depth - d) + After(at, kids, x, n, at[x].depth - d)
  }

  ghost function Left(at: Links, kids: Kids, x: Ref, n: nat): (k: nat)
    requires Linked(at, kids) && x in at
    ensures k > Rest(at, kids, x, n)
  {
    Size(kids, x, at[x].depth) + Rest(at, kids, x, n)
  }

  // y is where the row l begins, on level d within r; at most k units are left.
  ghost predicate Begins(at: Links, kids: Kids, r: Ref, y: Ref, d: nat, l: seq<Ref>, k: nat)
    requires Linked(at, kids) && r in at
  {
    if y == EMPTY then l == []
    else
      && y in at && at[y].depth == d && d <= at[r].depth
      && Stands(at, kids, r, y, at[r].depth - d)
      && l == [y] + After(at, kids, y, at[r].depth - d, 0)
      && Left(at, kids, y, at[r].depth - d) <= k
  }

  // ---- the cases of the walk -------------------------------------------------------------

  lemma Arrived(at: Links, kids: Kids, r: Ref, x: Ref, n: nat)
    requires Stands(at, kids, r, x, n)
    ensures Begins(at, kids, r, x, at[x].depth, Ahead(at, kids, x, n, at[x].depth), Left(at, kids, x, n))
  {
    assert n == at[r].depth - at[x].depth;
  }

  lemma NoKids(at: Links, kids: Kids, x: Ref, m: nat)
    requires Linked(at, kids) && x in at && at[x].first == NULL && m > 0
    ensures Row(kids, x, m) == []
  {
    assert Look(x) && Children(at, x, kids[x]);
    if kids[x] != [] {
      PosIs(at, kids, x, 0);
    }
  }

  // A unit without children, and y that comes after it on its level: the walk goes on from there.
  lemma Childless(at: Links, kids: Kids, r: Ref, x: Ref, n: nat, d: nat, y: Ref)
    requires Stands(at, kids, r, x, n) && at[x].first == NULL && d < at[x].depth
    requires Begins(at, kids, r, y, at[x].depth, After(at, kids, x, n, 0), Rest(at, kids, x, n))
    ensures y == EMPTY ==> Ahead(at, kids, x, n, d) == []
    ensures y != EMPTY ==>
      && Stands(at, kids, r, y, n) && at[y].depth == at[x].depth
      && Ahead(at, kids, x, n, d) == Ahead(at, kids, y, n, d) && Left(at, kids, y, n) < Left(at, kids, x, n)
  {
    var m := at[x].depth - d;
    NoKids(at, kids, x, m);
    AfterBelow(at, kids, x, n, 0, m);
    if y != EMPTY {
      RowsCons(kids, y, After(at, kids, y, n, 0), m);
      AfterBelow(at, kids, y, n, 0, m);
    }
  }

  lemma Inwards(at: Links, kids: Kids, r: Ref, x: Ref, n: nat, d: nat)
    requires Stands(at, kids, r, x, n) && at[x].first != NULL && d < at[x].depth
    ensures at[x].first in at
    ensures var c := at[x].first;
            && Stands(at, kids, r, c, n + 1) && d <= at[c].depth
            && Ahead(at, kids, x, n, d) == Ahead(at, kids, c, n + 1, d)
            && Left(at, kids, c, n + 1) < Left(at, kids, x, n)
  {
    FirstStep(at, kids, x, n, at[x].depth - d - 1);
    assert Look(x);
    assert Under(at, r, at[x].first, n + 1);
  }

  lemma Unscoped(at: Links, kids: Kids, r: Ref, x: Ref, n: nat)
    requires Stands(at, kids, r, x, n)
    ensures (n > 0) == (!at[x].scope && at[x].father != NULL)
    ensures n == 0 && !at[x].scope ==> at[x].next == NULL
  {
    assert Look(x) && Placed(at, kids, x);
  }

  lemma Sideways(at: Links, kids: Kids, r: Ref, x: Ref, n: nat, d: nat)
    requires Stands(at, kids, r, x, n) && n > 0 && d <= at[x].depth && at[x].next != NULL
    ensures var y := at[x].next;
            && Stands(at, kids, r, y, n) && d <= at[y].depth
            && After(at, kids, x, n, at[x].depth - d) == Ahead(at, kids, y, n, d)
            && Left(at, kids, y, n) == Rest(at, kids, x, n)
  {
    assert Look(x);
    SideStep(at, kids, x, n, at[x].depth - d);
    assert Under(at, r, at[x].next, n);
  }

  lemma Outwards(at: Links, kids: Kids, r: Ref, x: Ref, n: nat, d: nat)
    requires Stands(at, kids, r, x, n) && n > 0 && d <= at[x].depth && at[x].next == NULL
    ensures var f := at[x].father;
            && Stands(at, kids, r, f, n - 1) && d <= at[f].depth
            && After(at, kids, x, n, at[x].depth - d) == After(at, kids, f, n - 1, at[f].depth - d)
            && Rest(at, kids, x, n) == Rest(at, kids, f, n - 1)
  {
    assert Look(x);
    SideStep(at, kids, x, n, at[x].depth - d);
  }

  // The first unit of level d inside x, or else the first after it, within the scope.
  function LeftMost(at: Links, ghost kids: Kids, ghost r: Ref, x: Ref, ghost n: nat, d: nat): (y: Ref)
    requires Stands(at, kids, r, x, n) && d <= at[x].depth
    ensures Begins(at, kids, r, y, d, Ahead(at, kids, x, n, d), Left(at, kids, x, n))
    decreases Left(at, kids, x, n), 0, 0
  {
    if d == at[x].depth then
      Arrived(at, kids, r, x, n);
      x
    else if at[x].first == NULL then
      if at[x].scope then
        Unscoped(at, kids, r, x, n);
        NoKids(at, kids, x, at[x].depth - d);
        EMPTY
      else
        var y := Next(at, kids, r, x, n, at[x].depth);
        Childless(at, kids, r, x, n, d, y);
        if y == EMPTY then EMPTY else LeftMost(at, kids, r, y, n, d)
    else
      Inwards(at, kids, r, x, n, d);
      LeftMost(at, kids, r, at[x].first, n + 1, d)
  }

  // The next unit of level d after x, within the scope.
  function Next(at: Links, ghost kids: Kids, ghost r: Ref, x: Ref, ghost n: nat, d: nat): (y: Ref)
    requires Stands(at, kids, r, x, n) && d <= at[x].depth
    ensures Begins(at, kids, r, y, d, After(at, kids, x, n, at[x].depth - d), Rest(at, kids, x, n))
    decreases Rest(at, kids, x, n), 1, n
  {
    Unscoped(at, kids, r, x, n);
    if at[x].scope then EMPTY
    else if at[x].next != NULL then
      Sideways(at, kids, r, x, n, d);
      LeftMost(at, kids, r, at[x].next, n, d)
    else if at[x].father != NULL then
      Outwards(at, kids, r, x, n, d);
      Next(at, kids, r, at[x].father, n - 1, d)
    else EMPTY
  }
}
