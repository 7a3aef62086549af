// Unlinking a unit whose children go to a brother (src/unit.cc:251-350, 1106-1143).
module UnitJoin {
  import opened UnitTree
  import opened UnitFrame

  // The brother on the side the children go to.
  function Heir(at: Links, x: Ref, left: bool): (s: Ref)
    requires x in at
  {
    if left then at[x].prev else at[x].next
  }

  ghost predicate CanJoin(at: Links, kids: Kids, x: Ref, left: bool) {
    Linked(at, kids) && x in at && at[x].father != NULL && kids[x] != [] && Heir(at, x, left) != NULL
  }

  // x's father's children without x.
  ghost function Others(at: Links, kids: Kids, x: Ref): (ks: seq<Ref>)
    requires Linked(at, kids) && x in at && at[x].father != NULL
  {
    var p := Pos(at, kids, x);
    kids[at[x].father][..p] + kids[at[x].father][p + 1..]
  }

  // The heir's children with those of x.
  ghost function Joined(at: Links, kids: Kids, x: Ref, left: bool): (ks: seq<Ref>)
    requires CanJoin(at, kids, x, left)
  {
    Beside(at, kids, x);
    var s := Heir(at, x, left);
    if left then kids[s] + kids[x] else kids[x] + kids[s]
  }

  ghost function JoinKids(at: Links, kids: Kids, x: Ref, left: bool): (more: Kids)
    requires CanJoin(at, kids, x, left)
  {
    Beside(at, kids, x);
    map z | z in kids && z != x ::
      if z == at[x].father then Others(at, kids, x)
      else if z == Heir(at, x, left) then Joined(at, kids, x, left)
      else kids[z]
  }

  // x's neighbours and father after it is gone.
  function Bridged(at: Links, x: Ref, w: Ref): (u: Unit)
    requires x in at && w in at
  {
    if w == at[x].next then at[w].(prev := at[x].prev)
    else if w == at[x].prev then at[w].(next := at[x].next)
    else if w == at[x].father then
      at[w].(first := if at[w].first == x then at[x].next else at[w].first,
             last := if at[w].last == x then at[x].prev else at[w].last)
    else at[w]
  }

  // What becomes of any unit but x.
  ghost function JoinUnit(at: Links, kids: Kids, x: Ref, left: bool, w: Ref): (u: Unit)
    requires CanJoin(at, kids, x, left) && w in at
  {
    Beside(at, kids, x);
    var s := Heir(at, x, left);
    var ks := Joined(at, kids, x, left);
    if w == s then Bridged(at, x, w).(first := ks[0], last := ks[|ks| - 1])
    else if at[w].father == x then
      at[w].(father := s,
             next := if !left && at[w].next == NULL then at[s].first else at[w].next,
             prev := if left && at[w].prev == NULL then at[s].last else at[w].prev)
    else if at[w].father == s then
      at[w].(next := if left && at[w].next == NULL then at[x].first else at[w].next,
             prev := if !left && at[w].prev == NULL then at[x].last else at[w].prev)
    else Bridged(at, x, w)
  }

  ghost predicate IsJoined(at: Links, kids: Kids, x: Ref, left: bool, now: Links)
    requires CanJoin(at, kids, x, left)
  {
    && now.Keys == at.Keys - {x}
    && forall w {:trigger Look(w)} :: Look(w) && w in now ==> now[w] == JoinUnit(at, kids, x, left, w)
  }

  // The heir is x's brother, next to it.
  lemma HeirIs(at: Links, kids: Kids, x: Ref, left: bool)
    requires CanJoin(at, kids, x, left)
    ensures var f, s, p := at[x].father, Heir(at, x, left), Pos(at, kids, x);
            && s in at && s != x && s != f && at[s].father == f && at[s].depth == at[x].depth
            && (if left then p > 0 && kids[f][p - 1] == s else p + 1 < |kids[f]| && kids[f][p + 1] == s)
            && (kids[s] == [] <==> at[s].first == NULL) && (kids[s] == [] <==> at[s].last == NULL)
            && (kids[s] != [] ==> at[s].first == kids[s][0] && at[s].last == kids[s][|kids[s]| - 1])
            && at[x].first == kids[x][0] && at[x].last == kids[x][|kids[x]| - 1]
  {
    Beside(at, kids, x);
    var s := Heir(at, x, left);
    assert Look(s) && Look(x) && Look(at[x].father);
    if kids[s] != [] {
      PosIs(at, kids, s, 0);
      PosIs(at, kids, s, |kids[s]| - 1);
    }
  }

  // The heir has the children of both; nothing else is held anywhere but what was.
  lemma JoinIs(at: Links, kids: Kids, x: Ref, left: bool, now: Links)
    requires CanJoin(at, kids, x, left) && IsJoined(at, kids, x, left, now)
    ensures var s := if left then at[x].prev else at[x].next; var more := JoinKids(at, kids, x, left);
            && s in at && s in kids && s in more
            && more[s] == if left then kids[s] + kids[x] else kids[x] + kids[s]
    ensures now.Keys == at.Keys - {x}
    ensures forall w :: w in now ==>
                          now[w].cont == at[w].cont && now[w].depth == at[w].depth && now[w].scope == at[w].scope
  {
    HeirIs(at, kids, x, left);
    var s := Heir(at, x, left);
    assert Look(s) && Look(x);
    forall w | w in now
      ensures now[w].cont == at[w].cont && now[w].depth == at[w].depth && now[w].scope == at[w].scope
    {
      assert Look(w);
    }
  }

  // Where a unit is first or last among its brothers, it has no neighbour, and only there.
  lemma Edges(at: Links, kids: Kids, p: Ref, j: nat)
    requires Linked(at, kids) && p in at && j < |kids[p]|
    ensures var w := kids[p][j];
            && p != NULL && w in at && Child(at, p, kids[p], j)
            && (at[w].next == NULL <==> j + 1 == |kids[p]|) && (at[w].prev == NULL <==> j == 0)
  {
    PosIs(at, kids, p, j);
    Beside(at, kids, kids[p][j]);
  }

  // One of the heir's children, old or new.
  lemma JoinedChild(at: Links, kids: Kids, x: Ref, left: bool, now: Links, j: nat)
    requires CanJoin(at, kids, x, left) && IsJoined(at, kids, x, left, now) && j < |Joined(at, kids, x, left)|
    ensures Heir(at, x, left) in now && Child(now, Heir(at, x, left), Joined(at, kids, x, left), j)
  {
    var s, ks := Heir(at, x, left), Joined(at, kids, x, left);
    HeirIs(at, kids, x, left);
    var a, b := if left then s else x, if left then x else s;
    var n := |kids[a]|;
    assert Look(s) && Look(ks[j]);
    if j < n {
      Edges(at, kids, a, j);
    } else {
      Edges(at, kids, b, j - n);
    }
  }

  lemma JoinedKids(at: Links, kids: Kids, x: Ref, left: bool, now: Links)
    requires CanJoin(at, kids, x, left) && IsJoined(at, kids, x, left, now)
    ensures var s := Heir(at, x, left);
            s in now && s in JoinKids(at, kids, x, left) && Children(now, s, JoinKids(at, kids, x, left)[s])
  {
    var s, ks := Heir(at, x, left), Joined(at, kids, x, left);
    HeirIs(at, kids, x, left);
    assert Look(s);
    assert JoinKids(at, kids, x, left)[s] == ks;
    forall j | 0 <= j < |ks| ensures Child(now, s, ks, j) {
      JoinedChild(at, kids, x, left, now, j);
    }
    JoinedApart(at, kids, x, left);
  }

  lemma JoinedApart(at: Links, kids: Kids, x: Ref, left: bool)
    requires CanJoin(at, kids, x, left)
    ensures Distinct(Joined(at, kids, x, left))
  {
    var s, ks := Heir(at, x, left), Joined(at, kids, x, left);
    HeirIs(at, kids, x, left);
    var a, b := if left then s else x, if left then x else s;
    var n := |kids[a]|;
    assert Look(a) && Look(b);
    forall j, k | 0 <= j < k < |ks| ensures ks[j] != ks[k] {
      PosIs(at, kids, if j < n then a else b, if j < n then j else j - n);
      PosIs(at, kids, if k < n then a else b, if k < n then k else k - n);
    }
  }

  // One of the brothers left.
  lemma OtherChild(at: Links, kids: Kids, x: Ref, left: bool, now: Links, j: nat)
    requires CanJoin(at, kids, x, left) && IsJoined(at, kids, x, left, now) && j < |Others(at, kids, x)|
    ensures at[x].father in now && Child(now, at[x].father, Others(at, kids, x), j)
  {
    var f, p, ks := at[x].father, Pos(at, kids, x), Others(at, kids, x);
    HeirIs(at, kids, x, left);
    Beside(at, kids, x);
    var k := if j < p then j else j + 1;
    assert ks[j] == kids[f][k];
    assert Look(f) && Look(ks[j]);
    Edges(at, kids, f, k);
    assert kids[f][k] != x && Bridged(at, x, ks[j]).father == f;
    assert at[ks[j]].father != x;
  }

  // Which brothers are at the ends when the p-th has gone.
  lemma EndsLeft(ks: seq<Ref>, p: nat)
    requires p < |ks| && |ks| > 1 && Distinct(ks)
    ensures var r := ks[..p] + ks[p + 1..];
            && |r| == |ks| - 1 && Distinct(r)
            && r[0] == (if p == 0 then ks[1] else ks[0])
            && r[|r| - 1] == (if p == |ks| - 1 then ks[|ks| - 2] else ks[|ks| - 1])
  {
  }

  // The father's links to its first and last child without x.
  lemma OtherEnds(at: Links, kids: Kids, x: Ref)
    requires Linked(at, kids) && x in at && at[x].father != NULL && at[x].father in at
    requires at[x].next != NULL || at[x].prev != NULL
    ensures var f, ks := at[x].father, Others(at, kids, x);
            && ks != [] && Distinct(ks)
            && Bridged(at, x, f).first == ks[0] && Bridged(at, x, f).last == ks[|ks| - 1]
  {
    var f, p := at[x].father, Pos(at, kids, x);
    Beside(at, kids, x);
    assert Look(f) && Distinct(kids[f]);
    Edges(at, kids, f, p);
    EndsLeft(kids[f], p);
  }

  lemma OtherKids(at: Links, kids: Kids, x: Ref, left: bool, now: Links)
    requires CanJoin(at, kids, x, left) && IsJoined(at, kids, x, left, now)
    ensures var f := at[x].father;
            f in now && f in JoinKids(at, kids, x, left) && Children(now, f, JoinKids(at, kids, x, left)[f])
  {
    var f, ks := at[x].father, Others(at, kids, x);
    HeirIs(at, kids, x, left);
    Beside(at, kids, x);
    Beside(at, kids, Heir(at, x, left));
    OtherEnds(at, kids, x);
    assert Look(f) && now[f] == Bridged(at, x, f);
    forall j | 0 <= j < |ks| ensures Child(now, f, ks, j) {
      OtherChild(at, kids, x, left, now, j);
    }
    assert JoinKids(at, kids, x, left)[f] == ks;
  }

  // A unit that is neither x nor a child of x or of its heir changes only as x's neighbour or father.
  lemma Bystander(at: Links, kids: Kids, x: Ref, left: bool, now: Links, w: Ref)
    requires CanJoin(at, kids, x, left) && IsJoined(at, kids, x, left, now)
    requires w in at && w != x && w != Heir(at, x, left) && at[w].father != x && at[w].father != Heir(at, x, left)
    ensures w in now && now[w] == Bridged(at, x, w)
  {
    assert Look(w);
  }

  // The children of any other unit.
  lemma FarKids(at: Links, kids: Kids, x: Ref, left: bool, now: Links, w: Ref)
    requires CanJoin(at, kids, x, left) && IsJoined(at, kids, x, left, now)
    requires w in now && w != Heir(at, x, left) && w != at[x].father
    ensures w in JoinKids(at, kids, x, left) && JoinKids(at, kids, x, left)[w] == kids[w] && Children(now, w, kids[w])
  {
    var ks := kids[w];
    HeirIs(at, kids, x, left);
    Beside(at, kids, x);
    assert Look(w);
    assert now[w].first == at[w].first && now[w].last == at[w].last && now[w].depth == at[w].depth;
    forall j | 0 <= j < |ks| ensures Child(now, w, ks, j) {
      PosIs(at, kids, w, j);
      assert ks[j] != x && ks[j] != Heir(at, x, left);
      Bystander(at, kids, x, left, now, ks[j]);
    }
  }

  // A child of x or of its heir.
  lemma ChildPlaced(at: Links, kids: Kids, x: Ref, left: bool, now: Links, w: Ref)
    requires CanJoin(at, kids, x, left) && IsJoined(at, kids, x, left, now) && w in now
    requires at[w].father == x || at[w].father == Heir(at, x, left)
    ensures Placed(now, JoinKids(at, kids, x, left), w)
  {
    var s := Heir(at, x, left);
    HeirIs(at, kids, x, left);
    Beside(at, kids, x);
    assert Look(w) && Placed(at, kids, w);
    ChildFather(at, kids, x, left, w);
    var j := Pos(at, kids, w);
    InJoined(at, kids, x, left, w, j);
    assert now[w].father == s;
  }

  lemma ChildFather(at: Links, kids: Kids, x: Ref, left: bool, w: Ref)
    requires CanJoin(at, kids, x, left) && w in at && (at[w].father == x || at[w].father == Heir(at, x, left))
    ensures w != Heir(at, x, left) && JoinUnit(at, kids, x, left, w).father == Heir(at, x, left)
  {
    HeirIs(at, kids, x, left);
    Beside(at, kids, x);
    assert Pos(at, kids, w) >= 0;
  }

  lemma InJoined(at: Links, kids: Kids, x: Ref, left: bool, w: Ref, j: nat)
    requires CanJoin(at, kids, x, left)
    requires Heir(at, x, left) in kids && x in kids
    requires (j < |kids[x]| && kids[x][j] == w) || (j < |kids[Heir(at, x, left)]| && kids[Heir(at, x, left)][j] == w)
    ensures w in Joined(at, kids, x, left)
  {
    var s := Heir(at, x, left);
    var a, b := if left then kids[s] else kids[x], if left then kids[x] else kids[s];
    assert Joined(at, kids, x, left) == a + b;
    if j < |a| && a[j] == w {
      assert (a + b)[j] == w;
    } else {
      assert (a + b)[|a| + j] == w;
    }
  }

  // A brother of x.
  lemma BrotherPlaced(at: Links, kids: Kids, x: Ref, left: bool, now: Links, w: Ref)
    requires CanJoin(at, kids, x, left) && IsJoined(at, kids, x, left, now) && w in now
    requires at[w].father == at[x].father
    ensures Placed(now, JoinKids(at, kids, x, left), w)
  {
    var f, p := at[x].father, Pos(at, kids, x);
    HeirIs(at, kids, x, left);
    Beside(at, kids, x);
    assert Look(w);
    var j := Pos(at, kids, w);
    assert j != p;
    assert Others(at, kids, x)[if j < p then j else j - 1] == w;
    assert now[w].father == f;
  }

  lemma JoinPlaced(at: Links, kids: Kids, x: Ref, left: bool, now: Links, w: Ref)
    requires CanJoin(at, kids, x, left) && IsJoined(at, kids, x, left, now) && w in now
    ensures Placed(now, JoinKids(at, kids, x, left), w)
  {
    var g := at[w].father;
    if g == x || g == Heir(at, x, left) {
      ChildPlaced(at, kids, x, left, now, w);
    } else if g == at[x].father {
      BrotherPlaced(at, kids, x, left, now, w);
    } else {
      HeirIs(at, kids, x, left);
      Beside(at, kids, x);
      assert Look(w) && Placed(at, kids, w);
    }
  }

  // Unlinking keeps the tree linked.
  lemma JoinLinked(at: Links, kids: Kids, x: Ref, left: bool, now: Links)
    requires CanJoin(at, kids, x, left) && IsJoined(at, kids, x, left, now)
    ensures Linked(now, JoinKids(at, kids, x, left))
  {
    var more := JoinKids(at, kids, x, left);
    assert now.Keys == more.Keys;
    forall w {:trigger Look(w)} | Look(w) && w in now ensures Children(now, w, more[w]) && Placed(now, more, w) {
      JoinPlaced(at, kids, x, left, now, w);
      if w == Heir(at, x, left) {
        JoinedKids(at, kids, x, left, now);
      } else if w == at[x].father {
        OtherKids(at, kids, x, left, now);
      } else {
        FarKids(at, kids, x, left, now, w);
      }
    }
  }

  // ---- the rows ----------------------------------------------------------------------------

  lemma JoinLow(at: Links, kids: Kids, x: Ref, left: bool)
    requires CanJoin(at, kids, x, left)
    ensures SameUpto(at, kids, JoinKids(at, kids, x, left), at[x].depth - 1)
  {
    HeirIs(at, kids, x, left);
    Beside(at, kids, x);
  }

  // Brothers other than x and its heir keep their rows.
  lemma JoinSame(at: Links, kids: Kids, x: Ref, left: bool, xs: seq<Ref>, m: nat)
    requires CanJoin(at, kids, x, left) && Level(at, xs, at[x].depth) && x !in xs && Heir(at, x, left) !in xs
    ensures Rows(JoinKids(at, kids, x, left), xs, m) == Rows(kids, xs, m)
  {
    var more := JoinKids(at, kids, x, left);
    Beside(at, kids, x);
    JoinLow(at, kids, x, left);
    forall j | 0 <= j < |xs| ensures xs[j] in kids && xs[j] in more && more[xs[j]] == kids[xs[j]] {
      assert xs[j] in at && xs[j] in xs;
    }
    KeptRows(at, kids, more, xs, m, at[x].depth);
  }

  // The heir's row is what its own and that of x were together.
  lemma JoinPair(at: Links, kids: Kids, x: Ref, left: bool, m: nat)
    requires CanJoin(at, kids, x, left) && m >= 1
    ensures var s := Heir(at, x, left);
            Rows(JoinKids(at, kids, x, left), [s], m) == Rows(kids, if left then [s, x] else [x, s], m)
  {
    var more, s := JoinKids(at, kids, x, left), Heir(at, x, left);
    HeirIs(at, kids, x, left);
    var a, b := if left then s else x, if left then x else s;
    JoinLow(at, kids, x, left);
    KidsLevel(at, kids, a);
    KidsLevel(at, kids, b);
    SameRows(at, kids, more, kids[a], m - 1, at[x].depth - 1);
    SameRows(at, kids, more, kids[b], m - 1, at[x].depth - 1);
    RowsPair(kids, more, a, b, s, m);
  }

  // Two neighbours among all brothers.
  lemma AroundTwo(ks: seq<Ref>, p: nat, s: Ref, left: bool)
    requires Distinct(ks) && p < |ks|
    requires if left then p > 0 && ks[p - 1] == s else p + 1 < |ks| && ks[p + 1] == s
    ensures var q := if left then p - 1 else p;
            var pre, post, two := ks[..q], ks[q + 2..], if left then [s, ks[p]] else [ks[p], s];
            && ks == pre + two + post && ks[..p] + ks[p + 1..] == pre + [s] + post
            && ks[p] !in pre && ks[p] !in post && s !in pre && s !in post
  {
  }

  // The father's children around x and its heir.
  lemma JoinParts(at: Links, kids: Kids, x: Ref, left: bool) returns (pre: seq<Ref>, post: seq<Ref>)
    requires CanJoin(at, kids, x, left)
    ensures var f, s := at[x].father, Heir(at, x, left);
            && f in kids && kids[f] == pre + (if left then [s, x] else [x, s]) + post
            && Others(at, kids, x) == pre + [s] + post
            && Level(at, pre, at[x].depth) && Level(at, post, at[x].depth)
            && x !in pre && x !in post && s !in pre && s !in post
  {
    var f, s, p := at[x].father, Heir(at, x, left), Pos(at, kids, x);
    HeirIs(at, kids, x, left);
    Beside(at, kids, x);
    var q := if left then p - 1 else p;
    pre, post := kids[f][..q], kids[f][q + 2..];
    assert Look(f) && Distinct(kids[f]);
    AroundTwo(kids[f], p, s, left);
    KidsLevel(at, kids, f);
    LevelPart(at, kids[f], at[x].depth, 0, q);
    LevelPart(at, kids[f], at[x].depth, q + 2, |kids[f]|);
    assert post == kids[f][q + 2..|kids[f]|] && pre == kids[f][0..q];
  }

  // The father's row is what it was.
  lemma JoinFather(at: Links, kids: Kids, x: Ref, left: bool, m: nat)
    requires CanJoin(at, kids, x, left) && m >= 2
    ensures var f := at[x].father;
            f in at && f in JoinKids(at, kids, x, left) && Row(JoinKids(at, kids, x, left), f, m) == Row(kids, f, m)
  {
    var f, s, more := at[x].father, Heir(at, x, left), JoinKids(at, kids, x, left);
    var pre, post := JoinParts(at, kids, x, left);
    JoinSame(at, kids, x, left, pre, m - 1);
    JoinSame(at, kids, x, left, post, m - 1);
    JoinPair(at, kids, x, left, m - 1);
    RowsMid(kids, more, pre, if left then [s, x] else [x, s], [s], post, m - 1);
    Beside(at, kids, x);
    assert more[f] == Others(at, kids, x);
  }

  lemma JoinFrom(at: Links, kids: Kids, x: Ref, left: bool, m: nat)
    requires CanJoin(at, kids, x, left) && m >= 2 && at[x].father in at
    ensures SameFrom(at, kids, JoinKids(at, kids, x, left), at[at[x].father].depth, m)
  {
    var more, f := JoinKids(at, kids, x, left), at[x].father;
    HeirIs(at, kids, x, left);
    Beside(at, kids, x);
    forall w {:trigger Look(w)} | Look(w) && w in at && at[w].depth >= at[f].depth
      ensures w in kids && w in more
      ensures if at[w].depth == at[f].depth then Row(more, w, m) == Row(kids, w, m) else more[w] == kids[w]
    {
      if w == f {
        JoinFather(at, kids, x, left, m);
      } else if at[w].depth == at[f].depth {
        KidsLevel(at, kids, w);
        NotMine(at, kids, w, x);
        NotMine(at, kids, w, Heir(at, x, left));
        JoinSame(at, kids, x, left, kids[w], m - 1);
      }
    }
  }

  lemma NotMine(at: Links, kids: Kids, w: Ref, x: Ref)
    requires Linked(at, kids) && w in at && x in at && at[x].father != w
    ensures x !in kids[w]
  {
    if x in kids[w] {
      var j :| 0 <= j < |kids[w]| && kids[w][j] == x;
      PosIs(at, kids, w, j);
    }
  }

  // Unlinking with the children reparented leaves every row below the level of x as it was.
  lemma JoinRow(at: Links, kids: Kids, x: Ref, left: bool, y: Ref, n: nat)
    requires CanJoin(at, kids, x, left) && y in at && y != x && y != Heir(at, x, left)
    requires n + at[x].depth > at[y].depth
    ensures Row(JoinKids(at, kids, x, left), y, n) == Row(kids, y, n)
  {
    var more, f := JoinKids(at, kids, x, left), at[x].father;
    HeirIs(at, kids, x, left);
    Beside(at, kids, x);
    if at[y].depth < at[x].depth {
      JoinLow(at, kids, x, left);
      SameRow(at, kids, more, y, n);
    } else if at[y].depth == at[x].depth {
      JoinSame(at, kids, x, left, [y], n);
      RowsOne(kids, y, n);
      RowsOne(more, y, n);
    } else {
      var k := at[y].depth - at[f].depth;
      JoinFrom(at, kids, x, left, n - k);
      LiftRow(at, kids, more, at[f].depth, n - k, y, k);
    }
  }

  // ---- the steps ---------------------------------------------------------------------------

  // A train linked in before the children of s, or after them; the fathers are not yet set.
  function Begun(at: Links, s: Ref, from: Ref, member: Ref): (now: Links)
    requires s in at && member in at && (at[s].first != NULL ==> at[s].first in at)
  {
    var c := at[s].first;
    var a := if c != NULL then (var b := at[c := at[c].(prev := member)]; b[member := b[member].(next := c)])
             else at[s := at[s].(last := member)];
    a[s := a[s].(first := from)]
  }

  function Ended(at: Links, s: Ref, member: Ref, to: Ref): (now: Links)
    requires s in at && member in at && (at[s].last != NULL ==> at[s].last in at)
  {
    var c := at[s].last;
    var a := if c != NULL then (var b := at[c := at[c].(next := member)]; b[member := b[member].(prev := c)])
             else at[s := at[s].(first := member)];
    a[s := a[s].(last := to)]
  }

  // x out of its brothers' train.
  ghost predicate IsBridged(at: Links, x: Ref, now: Links)
    requires x in at
  {
    now.Keys == at.Keys && forall w {:trigger Look(w)} :: Look(w) && w in at ==> now[w] == Bridged(at, x, w)
  }

  // The train that is given a new father.
  ghost function Moved(at: Links, kids: Kids, x: Ref, left: bool): (ks: seq<Ref>)
    requires CanJoin(at, kids, x, left)
  {
    if left then kids[x] else Joined(at, kids, x, left)
  }

  function Given(mid: Links, x: Ref, s: Ref, left: bool): (now: Links)
    requires x in mid && s in mid && mid[x].first in mid && mid[x].last in mid
    requires mid[s].first != NULL ==> mid[s].first in mid
    requires mid[s].last != NULL ==> mid[s].last in mid
  {
    if left then Ended(mid, s, mid[x].first, mid[x].last) else Begun(mid, s, mid[x].first, mid[x].last)
  }

  lemma GivenReady(at: Links, kids: Kids, x: Ref, left: bool, mid: Links)
    requires CanJoin(at, kids, x, left) && IsBridged(at, x, mid)
    ensures var s := Heir(at, x, left);
            && x in mid && s in mid && mid[x].first in mid && mid[x].last in mid
            && (mid[s].first != NULL ==> mid[s].first in mid) && (mid[s].last != NULL ==> mid[s].last in mid)
            && mid[x] == at[x] && mid[s].first == at[s].first && mid[s].last == at[s].last
  {
    var s := Heir(at, x, left);
    HeirIs(at, kids, x, left);
    Beside(at, kids, x);
    assert Look(x) && Look(s);
    PosIs(at, kids, x, 0);
    PosIs(at, kids, x, |kids[x]| - 1);
    if kids[s] != [] {
      PosIs(at, kids, s, 0);
      PosIs(at, kids, s, |kids[s]| - 1);
    }
  }

  // The children of x and of its heir are not among the units bridged.
  lemma ChildBridged(at: Links, kids: Kids, x: Ref, left: bool, mid: Links, a: Ref, j: nat)
    requires CanJoin(at, kids, x, left) && IsBridged(at, x, mid) && (a == x || a == Heir(at, x, left))
    requires a in at && j < |kids[a]|
    ensures var w := kids[a][j];
            && w in at && w != x && w != Heir(at, x, left) && at[w].father == a && w in mid && mid[w] == at[w]
            && (at[w].next == NULL <==> j + 1 == |kids[a]|) && (at[w].prev == NULL <==> j == 0)
            && (j + 1 < |kids[a]| ==> at[w].next == kids[a][j + 1]) && w != NULL
  {
    HeirIs(at, kids, x, left);
    Beside(at, kids, x);
    Edges(at, kids, a, j);
    assert Look(kids[a][j]);
  }

  lemma MovedTrain(at: Links, kids: Kids, x: Ref, left: bool, mid: Links)
    requires CanJoin(at, kids, x, left) && IsBridged(at, x, mid)
    requires var s := Heir(at, x, left);
             && x in mid && s in mid && mid[x].first in mid && mid[x].last in mid
             && (mid[s].first != NULL ==> mid[s].first in mid) && (mid[s].last != NULL ==> mid[s].last in mid)
    ensures Train(Given(mid, x, Heir(at, x, left), left), Moved(at, kids, x, left))
    ensures Moved(at, kids, x, left)[0] == at[x].first
  {
    var s, ks := Heir(at, x, left), Moved(at, kids, x, left);
    var now := Given(mid, x, s, left);
    GivenReady(at, kids, x, left, mid);
    HeirIs(at, kids, x, left);
    JoinedApart(at, kids, x, left);
    assert Look(x);
    forall j | 0 <= j < |ks|
      ensures ks[j] != NULL && ks[j] in now && now[ks[j]].next == if j + 1 == |ks| then NULL else ks[j + 1]
    {
      TrainAt(at, kids, x, left, mid, j);
    }
    assert Train(now, ks);
  }

  lemma TrainAt(at: Links, kids: Kids, x: Ref, left: bool, mid: Links, j: nat)
    requires CanJoin(at, kids, x, left) && IsBridged(at, x, mid) && j < |Moved(at, kids, x, left)|
    requires var s := Heir(at, x, left);
             && x in mid && s in mid && mid[x].first in mid && mid[x].last in mid
             && (mid[s].first != NULL ==> mid[s].first in mid) && (mid[s].last != NULL ==> mid[s].last in mid)
    ensures var ks, now := Moved(at, kids, x, left), Given(mid, x, Heir(at, x, left), left);
            ks[j] != NULL && ks[j] in now && now[ks[j]].next == if j + 1 == |ks| then NULL else ks[j + 1]
  {
    var s, n := Heir(at, x, left), |kids[x]|;
    GivenReady(at, kids, x, left, mid);
    HeirIs(at, kids, x, left);
    if j < n {
      ChildBridged(at, kids, x, left, mid, x, j);
      ChildBridged(at, kids, x, left, mid, x, n - 1);
      if kids[s] != [] {
        ChildBridged(at, kids, x, left, mid, s, 0);
        ChildBridged(at, kids, x, left, mid, s, |kids[s]| - 1);
      }
    } else {
      ChildBridged(at, kids, x, left, mid, s, j - n);
      ChildBridged(at, kids, x, left, mid, x, n - 1);
    }
  }

  // Which units the moved train holds.
  lemma MovedHas(at: Links, kids: Kids, x: Ref, left: bool, w: Ref)
    requires CanJoin(at, kids, x, left)
    ensures var s := Heir(at, x, left);
            w in Moved(at, kids, x, left) <==> (w in at && (at[w].father == x || (!left && at[w].father == s)))
  {
    var s := Heir(at, x, left);
    HeirIs(at, kids, x, left);
    if w in kids[x] {
      var j :| 0 <= j < |kids[x]| && kids[x][j] == w;
      PosIs(at, kids, x, j);
    }
    if w in kids[s] {
      var j :| 0 <= j < |kids[s]| && kids[s][j] == w;
      PosIs(at, kids, s, j);
    }
    if w in at && (at[w].father == x || at[w].father == s) {
      assert Look(w) && Placed(at, kids, w);
    }
  }

  // One unit after all the steps.
  lemma GivenUnit(at: Links, kids: Kids, x: Ref, left: bool, mid: Links, third: Links, w: Ref)
    requires CanJoin(at, kids, x, left) && IsBridged(at, x, mid) && w in at && w != x
    requires var s := Heir(at, x, left);
             && x in mid && s in mid && mid[x].first in mid && mid[x].last in mid
             && (mid[s].first != NULL ==> mid[s].first in mid) && (mid[s].last != NULL ==> mid[s].last in mid)
             && Fathered(Given(mid, x, s, left), Moved(at, kids, x, left), s, third)
    ensures w in third && third[w] == JoinUnit(at, kids, x, left, w)
  {
    var s := Heir(at, x, left);
    GivenReady(at, kids, x, left, mid);
    HeirIs(at, kids, x, left);
    Beside(at, kids, x);
    MovedHas(at, kids, x, left, w);
    assert Look(w);
    ChildBridged(at, kids, x, left, mid, x, 0);
    ChildBridged(at, kids, x, left, mid, x, |kids[x]| - 1);
    if kids[s] != [] {
      ChildBridged(at, kids, x, left, mid, s, 0);
      ChildBridged(at, kids, x, left, mid, s, |kids[s]| - 1);
    }
    if at[w].father == x || at[w].father == s {
      var j := Pos(at, kids, w);
      ChildBridged(at, kids, x, left, mid, at[w].father, j);
    }
  }

  lemma StepsJoin(at: Links, kids: Kids, x: Ref, left: bool, mid: Links, third: Links)
    requires CanJoin(at, kids, x, left) && IsBridged(at, x, mid)
    requires var s := Heir(at, x, left);
             && x in mid && s in mid && mid[x].first in mid && mid[x].last in mid
             && (mid[s].first != NULL ==> mid[s].first in mid) && (mid[s].last != NULL ==> mid[s].last in mid)
             && Fathered(Given(mid, x, s, left), Moved(at, kids, x, left), s, third)
    ensures IsJoined(at, kids, x, left, third - {x})
  {
    var now := third - {x};
    GivenReady(at, kids, x, left, mid);
    assert now.Keys == at.Keys - {x};
    forall w {:trigger Look(w)} | Look(w) && w in now ensures now[w] == JoinUnit(at, kids, x, left, w) {
      GivenUnit(at, kids, x, left, mid, third, w);
    }
  }

  // What the code looks at before it hands the children over.
  lemma JoinGuard(at: Links, kids: Kids, x: Ref, left: bool)
    requires Linked(at, kids) && x in at
    ensures CanJoin(at, kids, x, left) <==> Heir(at, x, left) != NULL && at[x].first != NULL
  {
    assert Look(x) && Children(at, x, kids[x]) && Placed(at, kids, x);
    if kids[x] != [] {
      PosIs(at, kids, x, 0);
    }
  }
}
