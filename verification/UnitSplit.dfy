// Splitting a unit in two (src/unit.cc:777-798).
module UnitSplit {
  import opened UnitTree
  import opened UnitFrame

  // x, with a father and children, is split before its i-th child; the clone is c.
  ghost predicate CanSplit(at: Links, kids: Kids, x: Ref, i: nat, c: Ref) {
    && Linked(at, kids) && x in at && at[x].father != NULL && 0 < i < |kids[x]|
    && c !in at && c != NULL && c != EMPTY
  }

  ghost function SplitKids(at: Links, kids: Kids, x: Ref, i: nat, c: Ref): (more: Kids)
    requires CanSplit(at, kids, x, i, c)
  {
    kids[x := kids[x][..i]][c := kids[x][i..]][at[x].father := Brothers(at, kids, x, i, c)]
  }

  // What becomes of a child of x, the j-th.
  function Parted(u: Unit, j: nat, i: nat, c: Ref): Unit
  {
    if j + 1 < i then u
    else if j + 1 == i then u.(next := NULL)
    else if j == i then u.(prev := NULL, father := c)
    else u.(father := c)
  }

  // What becomes of any unit.
  ghost function SplitUnit(at: Links, kids: Kids, x: Ref, i: nat, c: Ref, w: Ref): Unit
    requires CanSplit(at, kids, x, i, c) && (w in at || w == c)
  {
    if w == c then at[x].(first := kids[x][i], prev := x, scope := false)
    else if w == x then at[x].(last := kids[x][i - 1], next := c)
    else if w == at[x].next then at[w].(prev := c)
    else if at[w].father == x then Parted(at[w], Pos(at, kids, w), i, c)
    else if w == at[x].father && at[w].last == x then at[w].(last := c)
    else at[w]
  }

  ghost predicate IsSplit(at: Links, kids: Kids, x: Ref, i: nat, c: Ref, now: Links)
    requires CanSplit(at, kids, x, i, c)
  {
    && now.Keys == at.Keys + {c}
    && forall w {:trigger Look(w)} :: Look(w) && w in now ==> now[w] == SplitUnit(at, kids, x, i, c, w)
  }

  // What becomes of the j-th child of x.
  lemma PartedAt(at: Links, kids: Kids, x: Ref, i: nat, c: Ref, now: Links, j: nat)
    requires CanSplit(at, kids, x, i, c) && IsSplit(at, kids, x, i, c, now) && j < |kids[x]|
    ensures var w := kids[x][j];
            && w in at && w in now && Child(at, x, kids[x], j) && w != c && w != x
            && now[w] == Parted(at[w], j, i, c)
  {
    PosIs(at, kids, x, j);
    Beside(at, kids, x);
    assert Look(kids[x][j]);
  }

  // The children left to x, those of the clone, and their father's.
  lemma LeftKids(at: Links, kids: Kids, x: Ref, i: nat, c: Ref, now: Links)
    requires CanSplit(at, kids, x, i, c) && IsSplit(at, kids, x, i, c, now)
    ensures x in now && Children(now, x, kids[x][..i])
  {
    var a := kids[x][..i];
    assert Look(x);
    forall j | 0 <= j < |a| ensures Child(now, x, a, j) {
      PartedAt(at, kids, x, i, c, now, j);
    }
  }

  lemma RightKids(at: Links, kids: Kids, x: Ref, i: nat, c: Ref, now: Links)
    requires CanSplit(at, kids, x, i, c) && IsSplit(at, kids, x, i, c, now)
    ensures c in now && Children(now, c, kids[x][i..])
  {
    var b := kids[x][i..];
    assert Look(x) && Look(c);
    forall j | 0 <= j < |b| ensures Child(now, c, b, j) {
      PartedAt(at, kids, x, i, c, now, i + j);
    }
  }

  // A unit that is neither x nor a child of x keeps its father and its children's list, but for x's brothers.
  lemma Otherwise(at: Links, kids: Kids, x: Ref, i: nat, c: Ref, now: Links, w: Ref)
    requires CanSplit(at, kids, x, i, c) && IsSplit(at, kids, x, i, c, now)
    requires w in at && w != x && at[w].father != x
    ensures w in now && w != c
    ensures now[w].(prev := at[w].prev, last := at[w].last) == at[w]
    ensures now[w].prev == (if w == at[x].next then c else at[w].prev)
    ensures now[w].last == (if w == at[x].father && at[w].last == x then c else at[w].last)
  {
    Beside(at, kids, x);
    assert Look(w);
  }

  // The children of x's father, with the clone among them.
  ghost function Brothers(at: Links, kids: Kids, x: Ref, i: nat, c: Ref): (more: seq<Ref>)
    requires CanSplit(at, kids, x, i, c)
  {
    var p := Pos(at, kids, x);
    kids[at[x].father][..p + 1] + [c] + kids[at[x].father][p + 1..]
  }

  lemma BrotherChild(at: Links, kids: Kids, x: Ref, i: nat, c: Ref, now: Links, j: nat)
    requires CanSplit(at, kids, x, i, c) && IsSplit(at, kids, x, i, c, now) && j < |Brothers(at, kids, x, i, c)|
    ensures at[x].father in now && Child(now, at[x].father, Brothers(at, kids, x, i, c), j)
  {
    var f, p := at[x].father, Pos(at, kids, x);
    Beside(at, kids, x);
    assert Look(x) && Look(c);
    Otherwise(at, kids, x, i, c, now, f);
    var more := Brothers(at, kids, x, i, c);
    var k := if j <= p then j else j - 1;
    PosIs(at, kids, f, k);
    if k != p {
      assert more[j] == kids[f][k];
      Otherwise(at, kids, x, i, c, now, kids[f][k]);
      assert (kids[f][k] == at[x].next) == (k == p + 1) by {
        if p + 1 < |kids[f]| {
          PosIs(at, kids, f, p + 1);
        }
      }
    }
  }

  lemma BrothersApart(at: Links, kids: Kids, x: Ref, i: nat, c: Ref)
    requires CanSplit(at, kids, x, i, c)
    ensures Distinct(Brothers(at, kids, x, i, c))
  {
    var f, p, more := at[x].father, Pos(at, kids, x), Brothers(at, kids, x, i, c);
    assert Look(f);
    forall j, k | 0 <= j < k < |more| ensures more[j] != more[k] {
      PosIs(at, kids, f, if j <= p then j else j - 1);
      PosIs(at, kids, f, if k <= p then k else k - 1);
    }
  }

  lemma BrotherKids(at: Links, kids: Kids, x: Ref, i: nat, c: Ref, now: Links)
    requires CanSplit(at, kids, x, i, c) && IsSplit(at, kids, x, i, c, now)
    ensures var f := at[x].father;
            f in at && f in now && Children(now, f, SplitKids(at, kids, x, i, c)[f])
  {
    var f, more := at[x].father, Brothers(at, kids, x, i, c);
    Beside(at, kids, x);
    Otherwise(at, kids, x, i, c, now, f);
    PosIs(at, kids, f, |kids[f]| - 1);
    assert Look(f) && more[0] == kids[f][0];
    forall j | 0 <= j < |more| ensures Child(now, f, more, j) {
      BrotherChild(at, kids, x, i, c, now, j);
    }
    BrothersApart(at, kids, x, i, c);
  }

  // The children of any other unit.
  lemma OtherKids(at: Links, kids: Kids, x: Ref, i: nat, c: Ref, now: Links, w: Ref)
    requires CanSplit(at, kids, x, i, c) && IsSplit(at, kids, x, i, c, now)
    requires w in at && w != x && w != at[x].father
    ensures w in now && SplitKids(at, kids, x, i, c)[w] == kids[w] && Children(now, w, kids[w])
  {
    var ks := kids[w];
    Beside(at, kids, x);
    assert Look(w);
    assert now[w].first == at[w].first && now[w].last == at[w].last && now[w].depth == at[w].depth;
    forall j | 0 <= j < |ks| ensures Child(now, w, ks, j) {
      PosIs(at, kids, w, j);
      Otherwise(at, kids, x, i, c, now, ks[j]);
    }
  }

  lemma SplitPlaced(at: Links, kids: Kids, x: Ref, i: nat, c: Ref, now: Links, w: Ref)
    requires CanSplit(at, kids, x, i, c) && IsSplit(at, kids, x, i, c, now) && w in now
    ensures Placed(now, SplitKids(at, kids, x, i, c), w)
  {
    var f, p := at[x].father, Pos(at, kids, x);
    var more := SplitKids(at, kids, x, i, c);
    Beside(at, kids, x);
    assert Look(w);
    if w == c {
      assert more[f][p + 1] == c;
    } else if w == x {
      assert more[f][p] == x;
    } else if at[w].father == x {
      var j := Pos(at, kids, w);
      PartedAt(at, kids, x, i, c, now, j);
      if j < i {
        assert more[x][j] == w;
      } else {
        assert more[c][j - i] == w;
      }
    } else {
      Otherwise(at, kids, x, i, c, now, w);
      var g := at[w].father;
      assert Placed(at, kids, w);
      if g == f {
        var j := Pos(at, kids, w);
        assert more[f][if j <= p then j else j + 1] == w;
      }
    }
  }

  // Splitting keeps the tree linked.
  lemma SplitLinked(at: Links, kids: Kids, x: Ref, i: nat, c: Ref, now: Links)
    requires CanSplit(at, kids, x, i, c) && IsSplit(at, kids, x, i, c, now)
    ensures Linked(now, SplitKids(at, kids, x, i, c))
  {
    var more := SplitKids(at, kids, x, i, c);
    Beside(at, kids, x);
    assert now.Keys == more.Keys;
    forall w {:trigger Look(w)} | Look(w) && w in now ensures Children(now, w, more[w]) && Placed(now, more, w) {
      SplitPlaced(at, kids, x, i, c, now, w);
      if w == c {
        RightKids(at, kids, x, i, c, now);
      } else if w == x {
        LeftKids(at, kids, x, i, c, now);
      } else if w == at[x].father {
        BrotherKids(at, kids, x, i, c, now);
      } else {
        OtherKids(at, kids, x, i, c, now, w);
      }
    }
  }

  // Below the level of x every unit but its brothers' father keeps its children.
  lemma SplitLow(at: Links, kids: Kids, x: Ref, i: nat, c: Ref)
    requires CanSplit(at, kids, x, i, c)
    ensures SameUpto(at, kids, SplitKids(at, kids, x, i, c), at[x].depth - 1)
  {
    Beside(at, kids, x);
  }

  lemma SplitSame(at: Links, kids: Kids, x: Ref, i: nat, c: Ref, xs: seq<Ref>, m: nat)
    requires CanSplit(at, kids, x, i, c) && Level(at, xs, at[x].depth) && x !in xs
    ensures Rows(SplitKids(at, kids, x, i, c), xs, m) == Rows(kids, xs, m)
  {
    var more := SplitKids(at, kids, x, i, c);
    Beside(at, kids, x);
    SplitLow(at, kids, x, i, c);
    forall j | 0 <= j < |xs| ensures xs[j] in kids && xs[j] in more && more[xs[j]] == kids[xs[j]] {
      assert xs[j] in at && xs[j] in xs;
    }
    KeptRows(at, kids, more, xs, m, at[x].depth);
  }

  // The rows of x and its clone together are what x's was.
  lemma SplitPair(at: Links, kids: Kids, x: Ref, i: nat, c: Ref, m: nat)
    requires CanSplit(at, kids, x, i, c) && m >= 1
    ensures Rows(SplitKids(at, kids, x, i, c), [x, c], m) == Rows(kids, [x], m)
  {
    var more, ks := SplitKids(at, kids, x, i, c), kids[x];
    Beside(at, kids, x);
    assert ks == ks[..i] + ks[i..];
    RowsJoin(more, ks[..i], ks[i..], m - 1);
    SplitLow(at, kids, x, i, c);
    KidsLevel(at, kids, x);
    SameRows(at, kids, more, ks, m - 1, at[x].depth - 1);
    assert [x, c] == [x] + [c];
    RowsCons(more, x, [c], m);
    RowsOne(more, c, m);
    RowsOne(kids, x, m);
  }

  // What the father's level sees: below the level of x, nothing has changed.
  lemma SplitFather(at: Links, kids: Kids, x: Ref, i: nat, c: Ref, m: nat)
    requires CanSplit(at, kids, x, i, c) && m >= 2
    ensures var f := at[x].father;
            f in at && Row(SplitKids(at, kids, x, i, c), f, m) == Row(kids, f, m)
  {
    var f, p, more := at[x].father, Pos(at, kids, x), SplitKids(at, kids, x, i, c);
    Beside(at, kids, x);
    var pre, post := kids[f][..p], kids[f][p + 1..];
    assert kids[f] == pre + [x] + post && more[f] == pre + [x, c] + post;
    KidsLevel(at, kids, f);
    assert Look(f) && Distinct(kids[f]);
    assert x !in pre && x !in post;
    SplitSame(at, kids, x, i, c, pre, m - 1);
    SplitSame(at, kids, x, i, c, post, m - 1);
    SplitPair(at, kids, x, i, c, m - 1);
    RowsMid(kids, more, pre, [x], [x, c], post, m - 1);
  }

  lemma SplitFrom(at: Links, kids: Kids, x: Ref, i: nat, c: Ref, m: nat)
    requires CanSplit(at, kids, x, i, c) && m >= 2 && at[x].father in at
    ensures SameFrom(at, kids, SplitKids(at, kids, x, i, c), at[at[x].father].depth, m)
  {
    var more, f := SplitKids(at, kids, x, i, c), at[x].father;
    Beside(at, kids, x);
    forall w {:trigger Look(w)} | Look(w) && w in at && at[w].depth >= at[f].depth
      ensures w in kids && w in more
      ensures if at[w].depth == at[f].depth then Row(more, w, m) == Row(kids, w, m) else more[w] == kids[w]
    {
      if w == f {
        SplitFather(at, kids, x, i, c, m);
      } else if at[w].depth == at[f].depth {
        KidsLevel(at, kids, w);
        if x in kids[w] {
          var j :| 0 <= j < |kids[w]| && kids[w][j] == x;
          PosIs(at, kids, w, j);
        }
        SplitSame(at, kids, x, i, c, kids[w], m - 1);
      }
    }
  }

  // Splitting leaves every row below the level of x as it was: no unit of such a level is lost, doubled or moved.
  lemma SplitRow(at: Links, kids: Kids, x: Ref, i: nat, c: Ref, y: Ref, n: nat)
    requires CanSplit(at, kids, x, i, c) && y in at && y != x
    requires n + at[x].depth > at[y].depth
    ensures Row(SplitKids(at, kids, x, i, c), y, n) == Row(kids, y, n)
  {
    var more, f := SplitKids(at, kids, x, i, c), at[x].father;
    Beside(at, kids, x);
    if at[y].depth < at[x].depth {
      SplitLow(at, kids, x, i, c);
      SameRow(at, kids, more, y, n);
    } else if at[y].depth == at[x].depth {
      SplitSame(at, kids, x, i, c, [y], n);
      RowsOne(kids, y, n);
      RowsOne(more, y, n);
    } else {
      var k := at[y].depth - at[f].depth;
      SplitFrom(at, kids, x, i, c, n - k);
      LiftRow(at, kids, more, at[f].depth, n - k, y, k);
    }
  }

  // x keeps its first children and its clone gets the others; nothing else is held anywhere but what was.
  lemma SplitIs(at: Links, kids: Kids, x: Ref, i: nat, c: Ref, now: Links)
    requires CanSplit(at, kids, x, i, c) && IsSplit(at, kids, x, i, c, now)
    ensures var more := SplitKids(at, kids, x, i, c);
            && more.Keys == kids.Keys + {c} && more[x] == kids[x][..i] && more[c] == kids[x][i..]
    ensures now.Keys == at.Keys + {c} && now[c].cont == at[x].cont && now[c].depth == at[x].depth && !now[c].scope
    ensures forall w :: w in at ==>
                          now[w].cont == at[w].cont && now[w].depth == at[w].depth && now[w].scope == at[w].scope
  {
    Beside(at, kids, x);
    assert Look(c) && Look(x) && Look(at[x].father);
    forall w | w in at
      ensures now[w].cont == at[w].cont && now[w].depth == at[w].depth && now[w].scope == at[w].scope
    {
      assert Look(w);
    }
  }

  // ---- the steps --------------------------------------------------------------------------

  // x and its new clone c with the children shared out, but for their fathers.
  function Unhook(at: Links, x: Ref, before: Ref, c: Ref): (now: Links)
    requires x in at && before in at && at[before].prev in at && c !in at
  {
    var a := at[c := at[x].(scope := false)];
    var last := a[before].prev;
    var b := a[x := a[x].(last := last)];
    var d := b[before := b[before].(prev := NULL)];
    var e := d[last := d[last].(next := NULL)];
    e[c := e[c].(first := before)]
  }

  // The clone linked to x, to what followed it and to its father.
  function Hook(at: Links, x: Ref, c: Ref): (now: Links)
    requires x in at && c in at && (at[x].next != NULL ==> at[x].next in at) && at[x].father in at
  {
    var a := if at[x].next != NULL then at[at[x].next := at[at[x].next].(prev := c)] else at;
    var b := a[c := a[c].(prev := x)];
    var d := b[x := b[x].(next := c)];
    var f := d[x].father;
    if f != NULL && f in d && d[f].last == x then d[f := d[f].(last := c)] else d
  }

  lemma UnhookTrain(at: Links, kids: Kids, x: Ref, i: nat, c: Ref)
    requires CanSplit(at, kids, x, i, c)
    ensures var before := kids[x][i];
            before in at && at[before].prev in at && Train(Unhook(at, x, before, c), kids[x][i..])
  {
    PosIs(at, kids, x, i);
    PosIs(at, kids, x, i - 1);
    var now, b := Unhook(at, x, kids[x][i], c), kids[x][i..];
    assert Look(x);
    forall j | 0 <= j < |b|
      ensures b[j] != NULL && b[j] in now && now[b[j]].next == (if j + 1 == |b| then NULL else b[j + 1])
    {
      PosIs(at, kids, x, i + j);
    }
    assert Train(now, b);
  }

  // One unit after all the steps.
  lemma StepsUnit(at: Links, kids: Kids, x: Ref, i: nat, c: Ref, mid: Links, w: Ref)
    requires CanSplit(at, kids, x, i, c) && kids[x][i] in at && at[kids[x][i]].prev in at
    requires Fathered(Unhook(at, x, kids[x][i], c), kids[x][i..], c, mid)
    requires x in mid && c in mid && (mid[x].next != NULL ==> mid[x].next in mid) && mid[x].father in mid
    requires w in at || w == c
    ensures w in mid && Hook(mid, x, c)[w] == SplitUnit(at, kids, x, i, c, w)
  {
    var before := kids[x][i];
    Beside(at, kids, x);
    PosIs(at, kids, x, i);
    PosIs(at, kids, x, i - 1);
    assert Look(x) && Look(c) && Look(w) && Look(at[x].father) && Look(at[x].next);
    RightOnes(at, kids, x, i, w);
    RightOnes(at, kids, x, i, x);
    RightOnes(at, kids, x, i, c);
    RightOnes(at, kids, x, i, at[x].father);
    if w in at && at[w].father == x {
      assert Child(at, x, kids[x], Pos(at, kids, w));
    }
  }

  lemma RightOnes(at: Links, kids: Kids, x: Ref, i: nat, w: Ref)
    requires Linked(at, kids) && x in at && i <= |kids[x]|
    ensures w in kids[x][i..] <==> (w in at && at[w].father == x && Pos(at, kids, w) >= i)
  {
    if w in kids[x][i..] {
      var j :| 0 <= j < |kids[x][i..]| && kids[x][i..][j] == w;
      PosIs(at, kids, x, i + j);
    }
    if w in at && at[w].father == x && Pos(at, kids, w) >= i {
      assert kids[x][i..][Pos(at, kids, w) - i] == w;
    }
  }

  lemma HookReady(at: Links, kids: Kids, x: Ref, i: nat, c: Ref, mid: Links)
    requires CanSplit(at, kids, x, i, c) && kids[x][i] in at && at[kids[x][i]].prev in at
    requires Fathered(Unhook(at, x, kids[x][i], c), kids[x][i..], c, mid)
    ensures x in mid && c in mid && (mid[x].next != NULL ==> mid[x].next in mid) && mid[x].father in mid
  {
    Beside(at, kids, x);
    assert Look(x);
    RightOnes(at, kids, x, i, x);
    PosIs(at, kids, x, i);
    PosIs(at, kids, x, i - 1);
  }

  // All the steps together split x.
  lemma StepsSplit(at: Links, kids: Kids, x: Ref, i: nat, c: Ref, mid: Links)
    requires CanSplit(at, kids, x, i, c) && kids[x][i] in at && at[kids[x][i]].prev in at
    requires Fathered(Unhook(at, x, kids[x][i], c), kids[x][i..], c, mid)
    requires x in mid && c in mid && (mid[x].next != NULL ==> mid[x].next in mid) && mid[x].father in mid
    ensures IsSplit(at, kids, x, i, c, Hook(mid, x, c))
  {
    var now := Hook(mid, x, c);
    assert now.Keys == at.Keys + {c};
    forall w {:trigger Look(w)} | Look(w) && w in now ensures now[w] == SplitUnit(at, kids, x, i, c, w) {
      StepsUnit(at, kids, x, i, c, mid, w);
    }
  }
}
