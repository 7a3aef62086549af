// What an edit of the tree of units leaves as it was.
module UnitFrame {
  import opened UnitTree

  // All of xs are units of depth h.
  predicate Level(at: Links, xs: seq<Ref>, h: int) {
    forall i :: 0 <= i < |xs| ==> xs[i] in at && at[xs[i]].depth == h
  }

  lemma KidsLevel(at: Links, kids: Kids, x: Ref)
    requires Linked(at, kids) && x in at
    ensures Level(at, kids[x], at[x].depth - 1)
  {
    forall i | 0 <= i < |kids[x]| ensures kids[x][i] in at && at[kids[x][i]].depth == at[x].depth - 1 {
      PosIs(at, kids, x, i);
    }
  }

  lemma LevelPart(at: Links, xs: seq<Ref>, h: int, i: nat, j: nat)
    requires Level(at, xs, h) && i <= j <= |xs|
    ensures Level(at, xs[i..j], h)
  {
    forall k | 0 <= k < j - i ensures xs[i..j][k] in at && at[xs[i..j][k]].depth == h {
      assert xs[i + k] in at;
    }
  }

  // Units of depth h and less keep their children.
  ghost predicate SameUpto(at: Links, kids: Kids, more: Kids, h: int) {
    forall x {:trigger Look(x)} :: Look(x) && x in at && at[x].depth <= h ==>
      x in kids && x in more && more[x] == kids[x]
  }

  lemma {:induction false} SameRow(at: Links, kids: Kids, more: Kids, x: Ref, n: nat)
    requires Linked(at, kids) && x in at && SameUpto(at, kids, more, at[x].depth)
    ensures Row(more, x, n) == Row(kids, x, n)
    decreases n, 0, 0
  {
    if n > 0 {
      assert Look(x);
      KidsLevel(at, kids, x);
      SameRows(at, kids, more, kids[x], n - 1, at[x].depth - 1);
    }
  }

  lemma {:induction false} SameRows(at: Links, kids: Kids, more: Kids, xs: seq<Ref>, n: nat, h: int)
    requires Linked(at, kids) && Level(at, xs, h) && SameUpto(at, kids, more, h)
    ensures Rows(more, xs, n) == Rows(kids, xs, n)
    decreases n, 1, |xs|
  {
    if xs != [] {
      assert xs[0] in at;
      SameRow(at, kids, more, xs[0], n);
      SameRows(at, kids, more, xs[1..], n, h);
    }
  }

  // So do units that keep their own children, when all lower ones do.
  predicate Kept(kids: Kids, more: Kids, xs: seq<Ref>) {
    forall i :: 0 <= i < |xs| ==> xs[i] in kids && xs[i] in more && more[xs[i]] == kids[xs[i]]
  }

  lemma KeptRow(at: Links, kids: Kids, more: Kids, x: Ref, n: nat)
    requires Linked(at, kids) && x in at && SameUpto(at, kids, more, at[x].depth - 1)
    requires x in more && more[x] == kids[x]
    ensures Row(more, x, n) == Row(kids, x, n)
  {
    if n > 0 {
      KidsLevel(at, kids, x);
      SameRows(at, kids, more, kids[x], n - 1, at[x].depth - 1);
    }
  }

  lemma {:induction false} KeptRows(at: Links, kids: Kids, more: Kids, xs: seq<Ref>, n: nat, h: int)
    requires Linked(at, kids) && Level(at, xs, h) && SameUpto(at, kids, more, h - 1) && Kept(kids, more, xs)
    ensures Rows(more, xs, n) == Rows(kids, xs, n)
  {
    if xs != [] {
      assert xs[0] in at;
      KeptRow(at, kids, more, xs[0], n);
      KeptRows(at, kids, more, xs[1..], n, h);
    }
  }

  // Units of more than depth h keep their children; those of depth h keep their rows m levels down.
  ghost predicate SameFrom(at: Links, kids: Kids, more: Kids, h: nat, m: nat) {
    forall x {:trigger Look(x)} :: Look(x) && x in at && at[x].depth >= h ==>
      x in kids && x in more
      && (if at[x].depth == h then Row(more, x, m) == Row(kids, x, m) else more[x] == kids[x])
  }

  // Then every unit above keeps its row on that level.
  lemma {:induction false} LiftRow(at: Links, kids: Kids, more: Kids, h: nat, m: nat, x: Ref, n: nat)
    requires Linked(at, kids) && SameFrom(at, kids, more, h, m) && x in at && at[x].depth == h + n
    ensures Row(more, x, n + m) == Row(kids, x, n + m)
    decreases n, 0, 0
  {
    assert Look(x);
    if n > 0 {
      KidsLevel(at, kids, x);
      LiftRows(at, kids, more, h, m, kids[x], n - 1);
    }
  }

  lemma {:induction false} LiftRows(at: Links, kids: Kids, more: Kids, h: nat, m: nat, xs: seq<Ref>, n: nat)
    requires Linked(at, kids) && SameFrom(at, kids, more, h, m) && Level(at, xs, h + n)
    ensures Rows(more, xs, n + m) == Rows(kids, xs, n + m)
    decreases n, 1, |xs|
  {
    if xs != [] {
      assert xs[0] in at;
      LiftRow(at, kids, more, h, m, xs[0], n);
      LiftRows(at, kids, more, h, m, xs[1..], n);
    }
  }

  // A train of brothers replaced by another with the same row.
  lemma RowsMid(kids: Kids, more: Kids, pre: seq<Ref>, a: seq<Ref>, b: seq<Ref>, post: seq<Ref>, n: nat)
    requires Rows(more, pre, n) == Rows(kids, pre, n) && Rows(more, post, n) == Rows(kids, post, n)
    requires Rows(more, b, n) == Rows(kids, a, n)
    ensures Rows(more, pre + b + post, n) == Rows(kids, pre + a + post, n)
  {
    RowsJoin(kids, pre + a, post, n);
    RowsJoin(kids, pre, a, n);
    RowsJoin(more, pre + b, post, n);
    RowsJoin(more, pre, b, n);
  }

  // Two brothers a and b in kids against one s in more that has the children of both.
  lemma RowsPair(kids: Kids, more: Kids, a: Ref, b: Ref, s: Ref, n: nat)
    requires n > 0 && a in kids && b in kids && s in more && more[s] == kids[a] + kids[b]
    requires Rows(more, kids[a], n - 1) == Rows(kids, kids[a], n - 1)
    requires Rows(more, kids[b], n - 1) == Rows(kids, kids[b], n - 1)
    ensures Rows(more, [s], n) == Rows(kids, [a, b], n)
  {
    RowsJoin(more, kids[a], kids[b], n - 1);
    assert [a, b] == [a] + [b];
    RowsCons(kids, a, [b], n);
    RowsOne(kids, b, n);
    RowsOne(more, s, n);
  }

  // ---- trains ------------------------------------------------------------------------------

  // A train of units, each linked to the next.
  ghost predicate Train(at: Links, ks: seq<Ref>) {
    && Distinct(ks)
    && forall j :: 0 <= j < |ks| ==>
         ks[j] != NULL && ks[j] in at && at[ks[j]].next == (if j + 1 == |ks| then NULL else ks[j + 1])
  }

  // The train given a father, and nothing else changed.
  ghost predicate Fathered(at: Links, ks: seq<Ref>, f: Ref, now: Links) {
    && now.Keys == at.Keys
    && forall w {:trigger Look(w)} :: Look(w) && w in at ==> now[w] == if w in ks then at[w].(father := f) else at[w]
  }
}
