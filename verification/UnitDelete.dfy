// Deleting a unit with everything under it (src/unit.cc:85-90, 1106-1143).
module UnitDelete {
  import opened UnitTree
  import opened UnitFrame
  import opened UnitJoin

  // x and the units under it.
  ghost function Sub(kids: Kids, x: Ref, h: nat): (s: set<Ref>)
    decreases h, 0, 0
  {
    {x} + if h == 0 || x !in kids then {} else Subs(kids, kids[x], h - 1)
  }

  ghost function Subs(kids: Kids, xs: seq<Ref>, h: nat): (s: set<Ref>)
    decreases h, 1, |xs|
  {
    if xs == [] then {} else Sub(kids, xs[0], h) + Subs(kids, xs[1..], h)
  }

  lemma {:induction false} SubsHas(kids: Kids, xs: seq<Ref>, h: nat, w: Ref)
    ensures w in Subs(kids, xs, h) <==> exists i :: 0 <= i < |xs| && w in Sub(kids, xs[i], h)
  {
    if xs != [] {
      SubsHas(kids, xs[1..], h, w);
      assert forall i :: 0 < i < |xs| ==> xs[i] == xs[1..][i - 1];
      assert forall i :: 0 <= i < |xs[1..]| ==> xs[1..][i] == xs[i + 1];
    }
  }

  // A unit without children has none under it.
  lemma Leaf(at: Links, kids: Kids, x: Ref)
    requires Linked(at, kids) && x in at && at[x].depth == 0
    ensures kids[x] == []
  {
    if kids[x] != [] {
      PosIs(at, kids, x, 0);
    }
  }

  // What is under x is x itself, or has its father under x.
  lemma {:induction false} SubUp(at: Links, kids: Kids, x: Ref, w: Ref)
    requires Linked(at, kids) && x in at && w in Sub(kids, x, at[x].depth) && w != x
    ensures w in at && at[w].depth < at[x].depth && at[w].father in at && at[w].father in Sub(kids, x, at[x].depth)
    decreases at[x].depth
  {
    var h := at[x].depth;
    SubsHas(kids, kids[x], h - 1, w);
    var i :| 0 <= i < |kids[x]| && w in Sub(kids, kids[x][i], h - 1);
    PosIs(at, kids, x, i);
    var c := kids[x][i];
    if w != c {
      SubUp(at, kids, c, w);
      SubsHas(kids, kids[x], h - 1, at[w].father);
    }
  }

  // Whatever has its father under x is under x.
  lemma {:induction false} SubDown(at: Links, kids: Kids, x: Ref, w: Ref)
    requires Linked(at, kids) && x in at && w in at && at[w].father != NULL
    requires at[w].father in Sub(kids, x, at[x].depth)
    ensures w in Sub(kids, x, at[x].depth)
    decreases at[x].depth
  {
    var h, f, j := at[x].depth, at[w].father, Pos(at, kids, w);
    assert kids[f][j] == w;
    if h > 0 {
      SubsHas(kids, kids[x], h - 1, w);
      if f == x {
        assert w in Sub(kids, kids[x][j], h - 1);
      } else {
        SubsHas(kids, kids[x], h - 1, f);
        var i :| 0 <= i < |kids[x]| && f in Sub(kids, kids[x][i], h - 1);
        PosIs(at, kids, x, i);
        SubDown(at, kids, kids[x][i], w);
        assert w in Sub(kids, kids[x][i], h - 1);
      }
    } else {
      Leaf(at, kids, x);
    }
  }

  lemma SubHigher(at: Links, kids: Kids, x: Ref, w: Ref)
    requires Linked(at, kids) && x in at && w in Sub(kids, x, at[x].depth)
    ensures w in at && (w == x || at[w].depth < at[x].depth)
  {
    if w != x {
      SubUp(at, kids, x, w);
    }
  }

  // Different units of one level have nothing in common under them.
  lemma {:induction false} SubsApart(at: Links, kids: Kids, x: Ref, y: Ref, w: Ref)
    requires Linked(at, kids) && x in at && y in at && at[x].depth == at[y].depth
    requires w in Sub(kids, x, at[x].depth) && w in Sub(kids, y, at[y].depth) && w in at
    ensures x == y
    decreases at[x].depth - at[w].depth
  {
    SubHigher(at, kids, x, w);
    SubHigher(at, kids, y, w);
    if x != y && w != x && w != y {
      SubUp(at, kids, x, w);
      SubUp(at, kids, y, w);
      assert Pos(at, kids, w) >= 0;
      SubHigher(at, kids, x, at[w].father);
      SubsApart(at, kids, x, y, at[w].father);
    }
  }

  // ---- one subtree cut out --------------------------------------------------------------------

  ghost function CutKids(at: Links, kids: Kids, x: Ref): (more: Kids)
    requires Linked(at, kids) && x in at
  {
    map z | z in kids && z !in Sub(kids, x, at[x].depth) ::
      if at[x].father != NULL && z == at[x].father then Others(at, kids, x) else kids[z]
  }

  ghost predicate IsCut(at: Links, kids: Kids, x: Ref, now: Links)
    requires Linked(at, kids) && x in at
  {
    && now.Keys == at.Keys - Sub(kids, x, at[x].depth)
    && forall w {:trigger Look(w)} :: Look(w) && w in now ==> now[w] == Bridged(at, x, w)
  }

  // A unit that stays keeps all its children but x.
  lemma Stays(at: Links, kids: Kids, x: Ref, w: Ref, i: nat)
    requires Linked(at, kids) && x in at && w in at && w !in Sub(kids, x, at[x].depth) && i < |kids[w]|
    ensures var c := kids[w][i]; c in Sub(kids, x, at[x].depth) ==> c == x && at[x].father == w
  {
    var c := kids[w][i];
    PosIs(at, kids, w, i);
    if c in Sub(kids, x, at[x].depth) && c != x {
      SubUp(at, kids, x, c);
    }
  }

  lemma FatherStays(at: Links, kids: Kids, x: Ref)
    requires Linked(at, kids) && x in at && at[x].father != NULL
    ensures at[x].father !in Sub(kids, x, at[x].depth)
  {
    Beside(at, kids, x);
    if at[x].father in Sub(kids, x, at[x].depth) {
      SubHigher(at, kids, x, at[x].father);
    }
  }

  lemma CutChild(at: Links, kids: Kids, x: Ref, now: Links, j: nat)
    requires Linked(at, kids) && x in at && at[x].father != NULL && IsCut(at, kids, x, now)
    requires j < |Others(at, kids, x)|
    ensures at[x].father in now && Child(now, at[x].father, Others(at, kids, x), j)
  {
    var f, p, ks := at[x].father, Pos(at, kids, x), Others(at, kids, x);
    FatherStays(at, kids, x);
    Beside(at, kids, x);
    var k := if j < p then j else j + 1;
    assert ks[j] == kids[f][k];
    assert Look(f) && Look(ks[j]);
    Edges(at, kids, f, k);
    Stays(at, kids, x, f, k);
    assert kids[f][k] != x && Bridged(at, x, ks[j]).father == f;
  }

  lemma CutFather(at: Links, kids: Kids, x: Ref, now: Links)
    requires Linked(at, kids) && x in at && at[x].father != NULL && IsCut(at, kids, x, now)
    ensures var f := at[x].father;
            f in now && f in CutKids(at, kids, x) && Children(now, f, CutKids(at, kids, x)[f])
  {
    var f, ks := at[x].father, Others(at, kids, x);
    FatherStays(at, kids, x);
    Beside(at, kids, x);
    assert Look(f) && CutKids(at, kids, x)[f] == ks;
    forall j | 0 <= j < |ks| ensures Child(now, f, ks, j) {
      CutChild(at, kids, x, now, j);
    }
    assert Children(at, f, kids[f]);
    Edges(at, kids, f, 0);
    Edges(at, kids, f, |kids[f]| - 1);
  }

  lemma CutOther(at: Links, kids: Kids, x: Ref, now: Links, w: Ref)
    requires Linked(at, kids) && x in at && IsCut(at, kids, x, now) && w in now
    requires at[x].father == NULL || w != at[x].father
    ensures w in CutKids(at, kids, x) && CutKids(at, kids, x)[w] == kids[w] && Children(now, w, kids[w])
  {
    var ks := kids[w];
    assert Look(x) && Look(w);
    if at[x].father != NULL {
      Beside(at, kids, x);
    }
    assert w != NULL && now[w].first == at[w].first && now[w].last == at[w].last && now[w].depth == at[w].depth;
    forall j | 0 <= j < |ks| ensures Child(now, w, ks, j) {
      PosIs(at, kids, w, j);
      Stays(at, kids, x, w, j);
      assert Look(ks[j]);
    }
  }

  lemma CutPlaced(at: Links, kids: Kids, x: Ref, now: Links, w: Ref)
    requires Linked(at, kids) && x in at && IsCut(at, kids, x, now) && w in now
    ensures Placed(now, CutKids(at, kids, x), w)
  {
    assert Look(x) && Look(w) && Placed(at, kids, w);
    var g := at[w].father;
    if at[x].father != NULL {
      Beside(at, kids, x);
    }
    if g != NULL {
      if g in Sub(kids, x, at[x].depth) {
        SubDown(at, kids, x, w);
      }
      if g == at[x].father {
        var j, p := Pos(at, kids, w), Pos(at, kids, x);
        assert x in Sub(kids, x, at[x].depth);
        assert j != p;
        assert Others(at, kids, x)[if j < p then j else j - 1] == w;
      }
    }
  }

  // Cutting a subtree out keeps the tree linked.
  lemma CutLinked(at: Links, kids: Kids, x: Ref, now: Links)
    requires Linked(at, kids) && x in at && IsCut(at, kids, x, now)
    ensures Linked(now, CutKids(at, kids, x))
  {
    var more := CutKids(at, kids, x);
    assert now.Keys == more.Keys;
    forall w {:trigger Look(w)} | Look(w) && w in now ensures Children(now, w, more[w]) && Placed(now, more, w) {
      CutPlaced(at, kids, x, now, w);
      if at[x].father != NULL && w == at[x].father {
        CutFather(at, kids, x, now);
      } else {
        CutOther(at, kids, x, now, w);
      }
    }
  }

  // ---- what is left of the rows ------------------------------------------------------------

  // The units of a row that are among those given.
  ghost function Only(l: seq<Ref>, s: set<Ref>): (r: seq<Ref>) {
    if l == [] then []
    else if l[0] in s then [l[0]] + Only(l[1..], s)
    else Only(l[1..], s)
  }

  lemma {:induction false} OnlyJoin(a: seq<Ref>, b: seq<Ref>, s: set<Ref>)
    ensures Only(a + b, s) == Only(a, s) + Only(b, s)
  {
    if a == [] {
      assert a + b == b;
    } else {
      assert (a + b)[0] == a[0] && (a + b)[1..] == a[1..] + b;
      OnlyJoin(a[1..], b, s);
    }
  }

  lemma {:induction false} OnlyAll(a: seq<Ref>, s: set<Ref>)
    requires forall i :: 0 <= i < |a| ==> a[i] in s
    ensures Only(a, s) == a
  {
    if a != [] {
      OnlyAll(a[1..], s);
    }
  }

  lemma {:induction false} OnlyNone(a: seq<Ref>, s: set<Ref>)
    requires forall i :: 0 <= i < |a| ==> a[i] !in s
    ensures Only(a, s) == []
  {
    if a != [] {
      OnlyNone(a[1..], s);
    }
  }

  lemma ShiftBut(ks: seq<Ref>, p: nat)
    requires 0 < p < |ks|
    ensures var t := ks[1..]; ks[..p] + ks[p + 1..] == [ks[0]] + (t[..p - 1] + t[p..])
  {
  }

  lemma {:induction false} OnlyBut(ks: seq<Ref>, p: nat, s: set<Ref>)
    requires p < |ks| && ks[p] !in s && forall i :: 0 <= i < |ks| && i != p ==> ks[i] in s
    ensures Only(ks, s) == ks[..p] + ks[p + 1..]
  {
    var t := ks[1..];
    if p == 0 {
      OnlyAll(t, s);
    } else {
      OnlyBut(t, p - 1, s);
      ShiftBut(ks, p);
    }
  }

  lemma {:induction false} OnlyTwice(a: seq<Ref>, s: set<Ref>, t: set<Ref>)
    requires t <= s
    ensures Only(Only(a, s), t) == Only(a, t)
  {
    if a != [] {
      OnlyTwice(a[1..], s, t);
      if a[0] in s {
        assert Only(a, s)[1..] == Only(a[1..], s);
      } else {
        assert Only(a, s) == Only(a[1..], s);
      }
    }
  }

  // Everything in a row under a unit that goes, goes.
  lemma {:induction false} RowGoes(at: Links, kids: Kids, x: Ref, w: Ref, n: nat)
    requires Linked(at, kids) && x in at && w in at && w in Sub(kids, x, at[x].depth)
    ensures forall u :: u in Row(kids, w, n) ==> u in Sub(kids, x, at[x].depth)
    decreases n, 0, 0
  {
    if n > 0 {
      forall i | 0 <= i < |kids[w]| ensures kids[w][i] in at && kids[w][i] in Sub(kids, x, at[x].depth) {
        PosIs(at, kids, w, i);
        SubDown(at, kids, x, kids[w][i]);
      }
      RowsGo(at, kids, x, kids[w], n - 1);
    }
  }

  lemma {:induction false} RowsGo(at: Links, kids: Kids, x: Ref, xs: seq<Ref>, n: nat)
    requires Linked(at, kids) && x in at
    requires forall i :: 0 <= i < |xs| ==> xs[i] in at && xs[i] in Sub(kids, x, at[x].depth)
    ensures forall u :: u in Rows(kids, xs, n) ==> u in Sub(kids, x, at[x].depth)
    decreases n, 1, |xs|
  {
    if xs != [] {
      RowGoes(at, kids, x, xs[0], n);
      RowsGo(at, kids, x, xs[1..], n);
    }
  }

  // The children a unit keeps.
  lemma KeptKids(at: Links, kids: Kids, x: Ref, y: Ref)
    requires Linked(at, kids) && x in at && y in at && y !in Sub(kids, x, at[x].depth)
    ensures var more := CutKids(at, kids, x); y in more && more[y] == Only(kids[y], more.Keys)
  {
    var more, ks := CutKids(at, kids, x), kids[y];
    assert x in Sub(kids, x, at[x].depth);
    forall i | 0 <= i < |ks| && ks[i] != x ensures ks[i] in more {
      PosIs(at, kids, y, i);
      Stays(at, kids, x, y, i);
    }
    if at[x].father != NULL && y == at[x].father {
      var p := Pos(at, kids, x);
      assert Look(y) && Distinct(ks);
      OnlyBut(ks, p, more.Keys);
    } else {
      NotMine(at, kids, y, x);
      OnlyAll(ks, more.Keys);
    }
  }

  // A unit that stays keeps in each row the units that stay.
  lemma {:induction false} CutRow(at: Links, kids: Kids, x: Ref, y: Ref, n: nat)
    requires Linked(at, kids) && x in at && y in at && y !in Sub(kids, x, at[x].depth)
    ensures var more := CutKids(at, kids, x); Row(more, y, n) == Only(Row(kids, y, n), more.Keys)
    decreases n, 0, 0
  {
    var more := CutKids(at, kids, x);
    if n == 0 {
      assert [y][1..] == [];
    } else {
      KeptKids(at, kids, x, y);
      forall i | 0 <= i < |kids[y]| ensures kids[y][i] in at {
        PosIs(at, kids, y, i);
      }
      CutRows(at, kids, x, kids[y], n - 1);
    }
  }

  lemma {:induction false} CutRows(at: Links, kids: Kids, x: Ref, xs: seq<Ref>, n: nat)
    requires Linked(at, kids) && x in at && forall i :: 0 <= i < |xs| ==> xs[i] in at
    ensures var more := CutKids(at, kids, x); Rows(more, Only(xs, more.Keys), n) == Only(Rows(kids, xs, n), more.Keys)
    decreases n, 1, |xs|
  {
    if xs != [] {
      var more, w := CutKids(at, kids, x), xs[0];
      CutRows(at, kids, x, xs[1..], n);
      OnlyJoin(Row(kids, w, n), Rows(kids, xs[1..], n), more.Keys);
      if w in Sub(kids, x, at[x].depth) {
        RowGoes(at, kids, x, w, n);
        OnlyNone(Row(kids, w, n), more.Keys);
        assert Only(xs, more.Keys) == Only(xs[1..], more.Keys);
      } else {
        CutRow(at, kids, x, w, n);
        RowsCons(more, w, Only(xs[1..], more.Keys), n);
      }
    }
  }

  // ---- the ancestors that go too --------------------------------------------------------------

  ghost predicate Tall(at: Links, top: nat) {
    forall x {:trigger Look(x)} :: Look(x) && x in at ==> at[x].depth <= top
  }

  // The ancestors that would be left childless.
  ghost function Doomed(at: Links, kids: Kids, x: Ref, top: nat): (s: set<Ref>)
    requires Linked(at, kids) && x in at && Tall(at, top) && at[x].depth <= top
    decreases top - at[x].depth
  {
    var f := at[x].father;
    if f == NULL then {}
    else
      Beside(at, kids, x);
      assert Look(f);
      if kids[f] == [x] then {f} + Doomed(at, kids, f, top) else {}
  }

  // The subtree and those ancestors.
  ghost function Gone(at: Links, kids: Kids, x: Ref, top: nat): (s: set<Ref>)
    requires Linked(at, kids) && x in at && Tall(at, top) && at[x].depth <= top
  {
    Sub(kids, x, at[x].depth) + Doomed(at, kids, x, top)
  }

  lemma {:induction false} DoomedHigher(at: Links, kids: Kids, x: Ref, top: nat, w: Ref)
    requires Linked(at, kids) && x in at && Tall(at, top) && at[x].depth <= top && w in Doomed(at, kids, x, top)
    ensures w in at && at[w].depth > at[x].depth
    decreases top - at[x].depth
  {
    var f := at[x].father;
    Deeper(at, kids, x);
    assert Look(f);
    if w != f { DoomedHigher(at, kids, f, top, w); }
  }

  // An ancestor that goes has one child, which goes.
  lemma {:induction false} DoomedOnly(at: Links, kids: Kids, x: Ref, top: nat, w: Ref)
    requires Linked(at, kids) && x in at && Tall(at, top) && at[x].depth <= top && w in Doomed(at, kids, x, top)
    ensures w in kids && |kids[w]| == 1 && (kids[w][0] == x || kids[w][0] in Doomed(at, kids, x, top))
    decreases top - at[x].depth
  {
    var f := at[x].father;
    Deeper(at, kids, x);
    assert Look(f);
    if w != f { DoomedOnly(at, kids, f, top, w); }
  }

  // A unit whose children are all x or such ancestors is one.
  lemma {:induction false} DoomedAll(at: Links, kids: Kids, x: Ref, top: nat, w: Ref)
    requires Linked(at, kids) && x in at && Tall(at, top) && at[x].depth <= top && w in at && kids[w] != []
    requires forall i :: 0 <= i < |kids[w]| ==> kids[w][i] == x || kids[w][i] in Doomed(at, kids, x, top)
    ensures w in Doomed(at, kids, x, top)
    decreases top - at[x].depth
  {
    var f := at[x].father;
    assert Look(w);
    if x in kids[w] {
      KidsLevel(at, kids, w);
      forall i | 0 <= i < |kids[w]| ensures kids[w][i] == x {
        if kids[w][i] != x { DoomedHigher(at, kids, x, top, kids[w][i]); }
      }
      PosIs(at, kids, w, 0);
      assert kids[w] == [x];
    } else {
      assert kids[w][0] in Doomed(at, kids, x, top);
      Deeper(at, kids, x);
      assert Look(f);
      DoomedAll(at, kids, f, top, w);
    }
  }

  // Besides x and what is under it those units go whose one child goes; every other keeps a child if it has any.
  lemma GoneIs(at: Links, kids: Kids, x: Ref, top: nat, w: Ref)
    requires Linked(at, kids) && x in at && Tall(at, top) && at[x].depth <= top && w in at
    ensures w in kids && x in Gone(at, kids, x, top)
    ensures w in Gone(at, kids, x, top) ==>
              || w == x || (at[w].father != NULL && at[w].father in Gone(at, kids, x, top))
              || (|kids[w]| == 1 && kids[w][0] in Gone(at, kids, x, top))
    ensures w !in Gone(at, kids, x, top) && kids[w] != [] ==>
              exists i :: 0 <= i < |kids[w]| && kids[w][i] !in Gone(at, kids, x, top)
  {
    assert Look(w);
    var sub := Sub(kids, x, at[x].depth);
    if w in sub && w != x {
      SubUp(at, kids, x, w);
    } else if w in Doomed(at, kids, x, top) {
      DoomedOnly(at, kids, x, top, w);
    } else if w !in sub && kids[w] != [] && forall i :: 0 <= i < |kids[w]| ==> kids[w][i] in Gone(at, kids, x, top) {
      forall i | 0 <= i < |kids[w]| ensures kids[w][i] == x || kids[w][i] in Doomed(at, kids, x, top) {
        Stays(at, kids, x, w, i);
      }
      DoomedAll(at, kids, x, top, w);
    }
  }

  // What deleting comes to: the units that go, and the rows of those that stay.
  ghost predicate IsDeleted(at: Links, kids: Kids, gone: set<Ref>, now: Links, more: Kids) {
    && Linked(now, more) && now.Keys == at.Keys - gone
    && (forall w {:trigger Look(w)} :: Look(w) && w in now ==> SamePayload(at, now, w))
    && forall w, n: nat {:trigger Row(more, w, n)} :: w in now ==> Row(more, w, n) == Only(Row(kids, w, n), now.Keys)
  }

  predicate SamePayload(at: Links, now: Links, w: Ref) {
    w in at && w in now && now[w].depth == at[w].depth && now[w].cont == at[w].cont && now[w].scope == at[w].scope
  }

  // So x goes, and with another unit its father or its only child; nobody loses all children and stays.
  lemma DeletedIs(at: Links, kids: Kids, x: Ref, top: nat, now: Links, more: Kids, w: Ref)
    requires Linked(at, kids) && x in at && Tall(at, top) && at[x].depth <= top && w in at
    requires IsDeleted(at, kids, Gone(at, kids, x, top), now, more)
    ensures x !in now && w in kids
    ensures w !in now ==>
              || w == x || (at[w].father != NULL && at[w].father !in now)
              || (|kids[w]| == 1 && kids[w][0] !in now)
    ensures w in now ==> w in more && (kids[w] != [] ==> more[w] != [])
  {
    GoneIs(at, kids, x, top, w);
    assert Look(w);
    if w in now && kids[w] != [] {
      var i :| 0 <= i < |kids[w]| && kids[w][i] !in Gone(at, kids, x, top);
      PosIs(at, kids, w, i);
      assert Row(more, w, 1) == Only(Row(kids, w, 1), now.Keys);
      RowsZero(kids, kids[w]);
      RowsZero(more, more[w]);
      OnlyHas(kids[w], now.Keys, i);
    }
  }

  lemma AllDeleted(at: Links, kids: Kids, x: Ref, top: nat, now: Links, more: Kids)
    requires Linked(at, kids) && x in at && Tall(at, top) && at[x].depth <= top
    requires IsDeleted(at, kids, Gone(at, kids, x, top), now, more)
    ensures x !in now
    ensures forall w :: w in at && w !in now ==>
                          || w == x || (at[w].father != NULL && at[w].father !in now)
                          || (w in kids && |kids[w]| == 1 && kids[w][0] !in now)
    ensures forall w :: w in now ==> w in more && w in kids && (kids[w] != [] ==> more[w] != [])
  {
    DeletedIs(at, kids, x, top, now, more, x);
    forall w | w in at && w !in now
      ensures w == x || (at[w].father != NULL && at[w].father !in now)
              || (w in kids && |kids[w]| == 1 && kids[w][0] !in now)
    {
      DeletedIs(at, kids, x, top, now, more, w);
    }
    forall w | w in now ensures w in more && w in kids && (kids[w] != [] ==> more[w] != []) {
      DeletedIs(at, kids, x, top, now, more, w);
    }
  }

  lemma {:induction false} OnlyHas(l: seq<Ref>, s: set<Ref>, i: nat)
    requires i < |l| && l[i] in s
    ensures Only(l, s) != []
  {
    if i > 0 { OnlyHas(l[1..], s, i - 1); }
  }

  lemma CutDeletes(at: Links, kids: Kids, x: Ref, now: Links)
    requires Linked(at, kids) && x in at && IsCut(at, kids, x, now)
    ensures IsDeleted(at, kids, Sub(kids, x, at[x].depth), now, CutKids(at, kids, x))
  {
    var more := CutKids(at, kids, x);
    CutLinked(at, kids, x, now);
    forall w, n: nat {:trigger Row(more, w, n)} | w in now
      ensures Row(more, w, n) == Only(Row(kids, w, n), now.Keys)
    {
      CutRow(at, kids, x, w, n);
    }
  }

  lemma DeletedTwice(at: Links, kids: Kids, a: set<Ref>, mid: Links, some: Kids, b: set<Ref>, now: Links, more: Kids)
    requires IsDeleted(at, kids, a, mid, some) && IsDeleted(mid, some, b, now, more)
    ensures IsDeleted(at, kids, a + b, now, more)
  {
    assert now.Keys == at.Keys - (a + b);
    forall w, n: nat {:trigger Row(more, w, n)} | w in now
      ensures Row(more, w, n) == Only(Row(kids, w, n), now.Keys)
    {
      OnlyTwice(Row(kids, w, n), mid.Keys, now.Keys);
    }
  }

  // Above the cut, the same ancestors are doomed as before.
  lemma {:induction false} DoomedSame(at: Links, kids: Kids, x: Ref, now: Links, y: Ref, top: nat)
    requires Linked(at, kids) && x in at && IsCut(at, kids, x, now) && Tall(at, top)
    requires Linked(now, CutKids(at, kids, x)) && Tall(now, top)
    requires y in at && at[y].depth > at[x].depth && at[y].depth <= top
    ensures y in now && now[y].depth == at[y].depth
    ensures Doomed(now, CutKids(at, kids, x), y, top) == Doomed(at, kids, y, top)
    decreases top - at[y].depth
  {
    if y in Sub(kids, x, at[x].depth) {
      SubHigher(at, kids, x, y);
    }
    assert Look(y);
    var f := at[y].father;
    if at[x].father != NULL {
      Beside(at, kids, x);
    }
    if f != NULL {
      Beside(at, kids, y);
      assert Look(f);
      if f in Sub(kids, x, at[x].depth) {
        SubHigher(at, kids, x, f);
      }
      if kids[f] == [y] {
        DoomedSame(at, kids, x, now, f, top);
      }
    }
  }

  // A father left childless goes next.
  lemma GoneNext(at: Links, kids: Kids, x: Ref, now: Links, top: nat)
    requires Linked(at, kids) && x in at && IsCut(at, kids, x, now) && Tall(at, top) && at[x].depth <= top
    requires Linked(now, CutKids(at, kids, x)) && Tall(now, top)
    ensures var f, more := at[x].father, CutKids(at, kids, x);
            if f == NULL then Gone(at, kids, x, top) == Sub(kids, x, at[x].depth)
            else
              && f in now && now[f].depth <= top && f in more && (now[f].first == NULL <==> more[f] == [])
              && Gone(at, kids, x, top)
                 == Sub(kids, x, at[x].depth) + if more[f] == [] then Gone(now, more, f, top) else {}
  {
    var f, more := at[x].father, CutKids(at, kids, x);
    if f != NULL {
      Beside(at, kids, x);
      FatherStays(at, kids, x);
      assert Look(f);
      var p := Pos(at, kids, x);
      assert more[f] == Others(at, kids, x);
      if more[f] == [] {
        assert kids[f] == [x];
        DoomedSame(at, kids, x, now, f, top);
        assert Sub(more, f, now[f].depth) == {f};
      } else {
        PosIs(now, more, f, 0);
        assert kids[f] != [x];
      }
    }
  }

  // ---- the destructor ------------------------------------------------------------------------

  // A unit and the brothers to its right: what its destructor frees, with everything under them.
  ghost predicate Tail(was: Links, kids: Kids, xs: seq<Ref>, h: nat) {
    && Linked(was, kids) && Level(was, xs, h) && Distinct(xs)
    && forall i :: 0 <= i < |xs| ==> NextIs(was, xs, i)
  }

  predicate NextIs(was: Links, xs: seq<Ref>, i: nat)
    requires i < |xs| && xs[i] in was
  {
    was[xs[i]].next == if i + 1 == |xs| then NULL else xs[i + 1]
  }

  ghost predicate Same(was: Links, at: Links, s: set<Ref>) {
    forall w {:trigger Look(w)} :: Look(w) && w in s ==> w in was && w in at && at[w] == was[w]
  }

  lemma KidsTail(was: Links, kids: Kids, x: Ref)
    requires Linked(was, kids) && x in was && was[x].first != NULL
    ensures was[x].depth > 0 && kids[x] != [] && kids[x][0] == was[x].first
            && Tail(was, kids, kids[x], was[x].depth - 1)
  {
    assert Look(x) && Children(was, x, kids[x]);
    KidsLevel(was, kids, x);
    PosIs(was, kids, x, 0);
    forall i | 0 <= i < |kids[x]| ensures NextIs(was, kids[x], i) {
      PosIs(was, kids, x, i);
    }
  }

  // What is freed with the first of the train, and with the others, is different.
  lemma TailApart(was: Links, kids: Kids, xs: seq<Ref>, h: nat)
    requires Tail(was, kids, xs, h) && xs != []
    ensures xs[0] in was && was[xs[0]].depth == h && (was[xs[0]].next != NULL <==> |xs| > 1)
    ensures |xs| > 1 ==> was[xs[0]].next == xs[1] && Tail(was, kids, xs[1..], h)
    ensures Subs(kids, xs, h) == Sub(kids, xs[0], h) + Subs(kids, xs[1..], h)
    ensures Sub(kids, xs[0], h) !! Subs(kids, xs[1..], h)
  {
    assert xs[0] in was && NextIs(was, xs, 0);
    if |xs| > 1 {
      assert xs[1] in was;
      var t := xs[1..];
      forall i | 0 <= i < |t| ensures t[i] in was && NextIs(was, t, i) {
        assert NextIs(was, xs, i + 1);
      }
    }
    forall w | w in Sub(kids, xs[0], h) && w in Subs(kids, xs[1..], h) ensures false {
      SubsHas(kids, xs[1..], h, w);
      var i :| 0 <= i < |xs[1..]| && w in Sub(kids, xs[1..][i], h);
      SubHigher(was, kids, xs[0], w);
      SubsApart(was, kids, xs[0], xs[i + 1], w);
    }
  }

  // A unit and what is under it.
  lemma SubSplit(was: Links, kids: Kids, x: Ref)
    requires Linked(was, kids) && x in was
    ensures was[x].first == NULL ==> Sub(kids, x, was[x].depth) == {x}
    ensures was[x].first != NULL ==> (
              && was[x].depth > 0
              && Sub(kids, x, was[x].depth) == {x} + Subs(kids, kids[x], was[x].depth - 1)
              && x !in Subs(kids, kids[x], was[x].depth - 1))
  {
    assert Look(x) && Children(was, x, kids[x]);
    if was[x].first != NULL {
      KidsTail(was, kids, x);
      var h := was[x].depth - 1;
      if x in Subs(kids, kids[x], h) {
        SubsHas(kids, kids[x], h, x);
        var i :| 0 <= i < |kids[x]| && x in Sub(kids, kids[x][i], h);
        PosIs(was, kids, x, i);
        SubHigher(was, kids, kids[x][i], x);
      }
    } else if kids[x] != [] {
      PosIs(was, kids, x, 0);
    }
  }

  // Bridging x leaves x and what is under it alone.
  lemma BridgedLow(at: Links, kids: Kids, x: Ref, w: Ref)
    requires Linked(at, kids) && x in at && w in at && (w == x || at[w].depth < at[x].depth)
    ensures Bridged(at, x, w) == at[w]
  {
    assert Look(x) && Placed(at, kids, x);
    if at[x].father != NULL {
      Beside(at, kids, x);
      assert Look(at[x].father);
      Edges(at, kids, at[x].father, Pos(at, kids, x));
    }
  }

  lemma BridgedSame(at: Links, kids: Kids, x: Ref, mid: Links, s: set<Ref>)
    requires Linked(at, kids) && x in at && IsBridged(at, x, mid) && s <= Sub(kids, x, at[x].depth)
    ensures Same(at, mid, s) && mid[x] == at[x]
  {
    assert Look(x);
    BridgedLow(at, kids, x, x);
    forall w {:trigger Look(w)} | Look(w) && w in s ensures w in at && w in mid && mid[w] == at[w] {
      SubHigher(at, kids, x, w);
      BridgedLow(at, kids, x, w);
    }
  }

  lemma CutDone(at: Links, kids: Kids, x: Ref, mid: Links, now: Links)
    requires Linked(at, kids) && x in at && IsBridged(at, x, mid)
    requires now == mid - Sub(kids, x, at[x].depth)
    ensures IsCut(at, kids, x, now)
  {
    assert now.Keys == at.Keys - Sub(kids, x, at[x].depth);
  }

  lemma TallStill(at: Links, kids: Kids, gone: set<Ref>, now: Links, more: Kids, top: nat)
    requires IsDeleted(at, kids, gone, now, more) && Tall(at, top)
    ensures Tall(now, top)
  {
    forall w {:trigger Look(w)} | Look(w) && w in now ensures now[w].depth <= top {
      assert SamePayload(at, now, w);
    }
  }

  lemma Deeper(at: Links, kids: Kids, x: Ref)
    requires Linked(at, kids) && x in at && at[x].father != NULL
    ensures at[x].father in at && at[at[x].father].depth == at[x].depth + 1
  {
    Beside(at, kids, x);
  }

  // The statements that take x out of its brothers' train.
  lemma BridgeSteps(at: Links, kids: Kids, x: Ref, now: Links)
    requires Linked(at, kids) && x in at
    requires var u := at[x];
             && (u.next != NULL ==> u.next in at) && (u.prev != NULL ==> u.prev in at)
             && (u.father != NULL ==> u.father in at)
             && var a := if u.next != NULL then at[u.next := at[u.next].(prev := u.prev)]
                         else if u.father != NULL then at[u.father := at[u.father].(last := u.prev)] else at;
             now == if u.prev != NULL then (assert u.prev in a; a[u.prev := a[u.prev].(next := u.next)])
                    else if u.father != NULL then a[u.father := a[u.father].(first := u.next)] else a
    ensures IsBridged(at, x, now)
  {
    assert Look(x) && Placed(at, kids, x);
    if at[x].father != NULL {
      Beside(at, kids, x);
      Edges(at, kids, at[x].father, Pos(at, kids, x));
      Edges(at, kids, at[x].father, 0);
      Edges(at, kids, at[x].father, |kids[at[x].father]| - 1);
      assert Look(at[x].father);
    }
    forall w {:trigger Look(w)} | Look(w) && w in at ensures w in now && now[w] == Bridged(at, x, w) {
    }
    assert now.Keys == at.Keys;
  }
}
