// Dumping the segments of a text window by window (src/unit.cc:113-147, src/synth.cc:82-97).
module UnitDump {
  import opened UnitTree
  import opened UnitWalk

  // The unit a walk along the row l has come to after k steps.
  function Nth(l: seq<Ref>, k: nat): (y: Ref) {
    if k < |l| then l[k] else EMPTY
  }

  // r as the scope of a walk; scopes of lower levels would stop it short.
  ghost predicate Whole(at: Links, r: Ref) {
    && r in at && forall x {:trigger Look(x)} :: Look(x) && x in at && at[x].depth < at[r].depth ==> !at[x].scope
  }

  function Scoped(at: Links, r: Ref): (s: Links)
    requires r in at
  {
    at[r := at[r].(scope := true)]
  }

  lemma ScopedStands(at: Links, kids: Kids, r: Ref)
    requires Linked(at, kids) && Whole(at, r)
    ensures Stands(Scoped(at, r), kids, r, r, 0)
  {
    var s := Scoped(at, r);
    forall x {:trigger Look(x)} | Look(x) && x in s ensures Children(s, x, kids[x]) && Placed(s, kids, x) {
      forall i | 0 <= i < |kids[x]| ensures Child(s, x, kids[x], i) {
        assert Child(at, x, kids[x], i);
      }
    }
    assert Bounds(s, r);
  }

  lemma DropOne(l: seq<Ref>, x: Ref, rest: seq<Ref>, k: nat)
    requires 0 < k <= |l| && l[k - 1..] == [x] + rest
    ensures x == l[k - 1] && rest == l[k..]
  {
    assert l[k..] == l[k - 1..][1..];
  }

  lemma Wider(at: Links, kids: Kids, r: Ref, y: Ref, d: nat, l: seq<Ref>, k: nat, more: nat)
    requires Linked(at, kids) && r in at && Begins(at, kids, r, y, d, l, k) && k <= more
    ensures Begins(at, kids, r, y, d, l, more)
  {
  }

  lemma BeginsAt(at: Links, kids: Kids, r: Ref, y: Ref, d: nat, l: seq<Ref>, k: nat, left: nat)
    requires Linked(at, kids) && r in at && k <= |l| && Begins(at, kids, r, y, d, l[k..], left)
    ensures y == Nth(l, k)
  {
    if k < |l| {
      assert l[k..][0] == l[k];
    }
  }

  // One step along the row.
  lemma WalkOn(at: Links, kids: Kids, r: Ref, d: nat, l: seq<Ref>, k: nat)
    requires Stands(at, kids, r, r, 0) && d <= at[r].depth && k < |l|
    requires Begins(at, kids, r, Nth(l, k), d, l[k..], Left(at, kids, r, 0))
    ensures var u, n := l[k], at[r].depth - d;
            && u in at && u != EMPTY && at[u].depth == d && Stands(at, kids, r, u, n)
            && Begins(at, kids, r, Next(at, kids, r, u, n, d), d, l[k + 1..], Left(at, kids, r, 0))
  {
    var u, n := l[k], at[r].depth - d;
    assert u != EMPTY;
    DropOne(l, u, After(at, kids, u, n, 0), k + 1);
    Wider(at, kids, r, Next(at, kids, r, u, n, d), d, l[k + 1..], Rest(at, kids, u, n), Left(at, kids, r, 0));
  }

  lemma WalkFirst(at: Links, kids: Kids, r: Ref, d: nat)
    requires Stands(at, kids, r, r, 0) && d <= at[r].depth
    ensures var l := Row(kids, r, at[r].depth - d); Begins(at, kids, r, Nth(l, 0), d, l[0..], Left(at, kids, r, 0))
  {
    var l, y := Row(kids, r, at[r].depth - d), LeftMost(at, kids, r, r, 0, d);
    assert Ahead(at, kids, r, 0, d) == l[0..];
    BeginsAt(at, kids, r, y, d, l, 0, Left(at, kids, r, 0));
  }

  lemma WalkMore(at: Links, kids: Kids, r: Ref, d: nat, l: seq<Ref>, k: nat)
    requires Stands(at, kids, r, r, 0) && d <= at[r].depth && 0 < k <= |l|
    requires Begins(at, kids, r, Nth(l, k - 1), d, l[k - 1..], Left(at, kids, r, 0))
    ensures Begins(at, kids, r, Nth(l, k), d, l[k..], Left(at, kids, r, 0))
  {
    WalkOn(at, kids, r, d, l, k - 1);
    BeginsAt(at, kids, r, Next(at, kids, r, l[k - 1], at[r].depth - d, d), d, l, k, Left(at, kids, r, 0));
  }

  // The first k units of the row walked past, what is left begins at the k-th.
  lemma {:induction false} WalkTo(at: Links, kids: Kids, r: Ref, d: nat, k: nat)
    requires Stands(at, kids, r, r, 0) && d <= at[r].depth
    ensures var l := Row(kids, r, at[r].depth - d);
            Begins(at, kids, r, Nth(l, k), d, if k <= |l| then l[k..] else [], Left(at, kids, r, 0))
  {
    if k == 0 {
      WalkFirst(at, kids, r, d);
    } else {
      WalkTo(at, kids, r, d, k - 1);
      if k <= |Row(kids, r, at[r].depth - d)| {
        WalkMore(at, kids, r, d, Row(kids, r, at[r].depth - d), k);
      }
    }
  }

  // The k-th unit of the row is one a walk can stand at.
  lemma StandsAt(at: Links, kids: Kids, r: Ref, d: nat, k: nat)
    requires Stands(at, kids, r, r, 0) && d <= at[r].depth
    ensures var l, n := Row(kids, r, at[r].depth - d), at[r].depth - d;
            var u := Nth(l, k);
            && (u != EMPTY ==> k < |l| && u in at && at[u].depth == d && Stands(at, kids, r, u, n))
            && (k < |l| ==> u != EMPTY)
  {
    WalkTo(at, kids, r, d, k);
    var l := Row(kids, r, at[r].depth - d);
    if k < |l| {
      assert l[k..] != [];
    }
  }

  // LeftMost, and then Next again and again, visits the row's units in order, and ends at EMPTY.
  lemma WalksRow(at: Links, kids: Kids, r: Ref, d: nat, k: nat)
    requires Stands(at, kids, r, r, 0) && d <= at[r].depth
    ensures var l, n := Row(kids, r, at[r].depth - d), at[r].depth - d;
            var u := Nth(l, k);
            && LeftMost(at, kids, r, r, 0, d) == Nth(l, 0)
            && (u == EMPTY ==> Nth(l, k + 1) == EMPTY)
            && (u != EMPTY ==> u in at && d <= at[u].depth && Stands(at, kids, r, u, n)
                               && Next(at, kids, r, u, n, d) == Nth(l, k + 1))
  {
    var l, n := Row(kids, r, at[r].depth - d), at[r].depth - d;
    assert Ahead(at, kids, r, 0, d) == l;
    if k < |l| {
      WalkTo(at, kids, r, d, k);
      WalkOn(at, kids, r, d, l, k);
      BeginsAt(at, kids, r, Next(at, kids, r, l[k], n, d), d, l, k + 1, Left(at, kids, r, 0));
    }
  }

  // Less is left after a step along the row.
  lemma NextLess(at: Links, kids: Kids, r: Ref, d: nat, l: seq<Ref>, k: nat, y: Ref)
    requires Stands(at, kids, r, r, 0) && d <= at[r].depth && k < |l| && y != EMPTY
    requires Begins(at, kids, r, Nth(l, k), d, l[k..], Left(at, kids, r, 0))
    requires l[k] in at && y == Next(at, kids, r, l[k], at[r].depth - d, d)
    ensures y in at && Left(at, kids, y, at[r].depth - d) < Left(at, kids, l[k], at[r].depth - d)
  {
  }

  lemma StepLess(at: Links, kids: Kids, r: Ref, d: nat, k: nat)
    requires Stands(at, kids, r, r, 0) && d <= at[r].depth && k + 1 < |Row(kids, r, at[r].depth - d)|
    ensures var l, n := Row(kids, r, at[r].depth - d), at[r].depth - d;
            l[k] in at && l[k + 1] in at && Left(at, kids, l[k + 1], n) < Left(at, kids, l[k], n)
  {
    WalkTo(at, kids, r, d, k);
    StandsAt(at, kids, r, d, k);
    StandsAt(at, kids, r, d, k + 1);
    WalksRow(at, kids, r, d, k);
    NextLess(at, kids, r, d, Row(kids, r, at[r].depth - d), k, Nth(Row(kids, r, at[r].depth - d), k + 1));
  }

  // Along the row less and less is left.
  lemma {:induction false} LessLeft(at: Links, kids: Kids, r: Ref, d: nat, i: nat, j: nat)
    requires Stands(at, kids, r, r, 0) && d <= at[r].depth && i < j < |Row(kids, r, at[r].depth - d)|
    ensures var l, n := Row(kids, r, at[r].depth - d), at[r].depth - d;
            l[i] in at && l[j] in at && Left(at, kids, l[j], n) < Left(at, kids, l[i], n)
    decreases j
  {
    StepLess(at, kids, r, d, j - 1);
    if i < j - 1 {
      LessLeft(at, kids, r, d, i, j - 1);
    }
  }

  // So no unit is in it twice.
  lemma RowOnce(at: Links, kids: Kids, r: Ref, d: nat)
    requires Stands(at, kids, r, r, 0) && d <= at[r].depth
    ensures Distinct(Row(kids, r, at[r].depth - d))
  {
    var l := Row(kids, r, at[r].depth - d);
    forall i, j | 0 <= i < j < |l| ensures l[i] != l[j] {
      LessLeft(at, kids, r, d, i, j);
    }
  }

  // ---- the dump ----------------------------------------------------------------------------

  // How many segments a window of n gets, from the given one on.
  function Window(l: seq<Ref>, first: nat, n: nat): (m: nat) {
    if |l| <= first then 0 else if |l| - first < n then |l| - first else n
  }

  // The contents of the units in a row.
  ghost predicate Contents(at: Links, l: seq<Ref>, out: seq<int>) {
    |out| == |l| && forall i :: 0 <= i < |l| ==> l[i] in at && out[i] == at[l[i]].cont
  }

  // The segments written are the contents of the row's units, from the given one on.
  ghost predicate Copied(at: Links, l: seq<Ref>, first: nat, out: seq<int>) {
    out == [] || (first + |out| <= |l| && Contents(at, l[first..first + |out|], out))
  }

  lemma CopiedOn(at: Links, l: seq<Ref>, first: nat, shown: seq<int>, out: seq<int>)
    requires Copied(at, l, first, shown) && Copied(at, l, first + |shown|, out)
    ensures Copied(at, l, first, shown + out)
  {
    if shown == [] {
      assert shown + out == out;
    } else if out == [] {
      assert shown + out == shown;
    } else {
      var a, b := l[first..first + |shown|], l[first + |shown|..first + |shown| + |out|];
      assert l[first..first + |shown + out|] == a + b;
    }
  }

  lemma CopiedOne(at: Links, l: seq<Ref>, first: nat)
    requires first < |l| && l[first] in at
    ensures Copied(at, l, first, [at[l[first]].cont])
  {
    assert l[first..first + 1] == [l[first]];
  }

  lemma CopiedScoped(at: Links, r: Ref, l: seq<Ref>, first: nat, out: seq<int>)
    requires r in at && Copied(Scoped(at, r), l, first, out)
    ensures Copied(at, l, first, out)
  {
  }

  // One segment more.
  lemma CopyMore(at: Links, l: seq<Ref>, first: nat, out: seq<int>, u: Ref)
    requires Copied(at, l, first, out) && first + |out| < |l| && u == l[first + |out|] && u in at
    ensures Copied(at, l, first, out + [at[u].cont])
  {
    CopiedOne(at, l, first + |out|);
    CopiedOn(at, l, first, out, [at[u].cont]);
  }

  // Where the row ends, so does the window.
  lemma CopyEnd(at: Links, kids: Kids, r: Ref, d: nat, k: nat)
    requires Stands(at, kids, r, r, 0) && d <= at[r].depth
    ensures var l := Row(kids, r, at[r].depth - d); (Nth(l, k) == EMPTY) == (|l| <= k)
  {
    StandsAt(at, kids, r, d, k);
  }

  // One step along the row; EMPTY has no links, and is stepped to itself.
  method Step(at: Links, ghost kids: Kids, r: Ref, d: nat, u: Ref, ghost k: nat) returns (y: Ref)
    requires Stands(at, kids, r, r, 0) && d <= at[r].depth && u == Nth(Row(kids, r, at[r].depth - d), k)
    ensures var l := Row(kids, r, at[r].depth - d);
            y == Nth(l, k + 1) && (u != EMPTY ==> k < |l| && u in at)
  {
    WalksRow(at, kids, r, d, k);
    StandsAt(at, kids, r, d, k);
    y := if u == EMPTY then EMPTY else Next(at, kids, r, u, at[r].depth - d, d);
  }

  // The first unit of the row.
  method First(at: Links, ghost kids: Kids, r: Ref, d: nat) returns (y: Ref)
    requires Stands(at, kids, r, r, 0) && d <= at[r].depth
    ensures y == Nth(Row(kids, r, at[r].depth - d), 0)
  {
    WalksRow(at, kids, r, d, 0);
    y := LeftMost(at, kids, r, r, 0, d);
  }
}
