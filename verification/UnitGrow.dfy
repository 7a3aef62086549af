// Building the tree of units from symbols, and reading them back (src/unit.cc:36-67, 335-410).
module UnitGrow {
  import opened UnitTree
  import opened UnitFrame
  import opened UnitJoin
  import opened Tokens

  // ---- a child linked in after the others --------------------------------------------------------

  // c is a root, one level below x.
  ghost predicate CanAttach(at: Links, kids: Kids, x: Ref, c: Ref) {
    && Linked(at, kids) && x in at && c in at && c != x && at[c].father == NULL && at[c].depth + 1 == at[x].depth
  }

  ghost function AttachUnit(at: Links, x: Ref, c: Ref, w: Ref): (u: Unit)
    requires x in at && w in at
  {
    if w == c then at[w].(father := x, prev := at[x].last)
    else if w == at[x].last then at[w].(next := c)
    else if w == x then at[w].(last := c, first := if at[w].first == NULL then c else at[w].first)
    else at[w]
  }

  ghost predicate IsAttached(at: Links, x: Ref, c: Ref, now: Links)
    requires x in at
  {
    now.Keys == at.Keys && forall w {:trigger Look(w)} :: Look(w) && w in at ==> now[w] == AttachUnit(at, x, c, w)
  }

  function AttachKids(kids: Kids, x: Ref, c: Ref): (more: Kids)
    requires x in kids
  {
    kids[x := kids[x] + [c]]
  }

  // x's links to its children, and c's lack of any.
  lemma AttachFacts(at: Links, kids: Kids, x: Ref, c: Ref)
    requires CanAttach(at, kids, x, c)
    ensures var ks := kids[x];
            && at[c].next == NULL && at[c].prev == NULL && c !in ks
            && (at[x].first == NULL <==> ks == []) && (at[x].last == NULL <==> ks == [])
            && (ks != [] ==> at[x].first == ks[0] && at[x].last == ks[|ks| - 1] && at[x].last in at
                             && at[at[x].last].father == x && at[at[x].last].next == NULL && at[x].last != x
                             && at[x].last != c)
  {
    assert Look(x) && Look(c);
    var ks := kids[x];
    NotMine(at, kids, x, c);
    if ks != [] {
      PosIs(at, kids, x, 0);
      Edges(at, kids, x, |ks| - 1);
    }
  }

  lemma AttachedKids(at: Links, kids: Kids, x: Ref, c: Ref, now: Links)
    requires CanAttach(at, kids, x, c) && IsAttached(at, x, c, now)
    ensures x in now && Children(now, x, kids[x] + [c])
  {
    AttachFacts(at, kids, x, c);
    var ks := kids[x];
    var more := ks + [c];
    assert Look(x) && Look(c);
    forall j | 0 <= j < |more| ensures Child(now, x, more, j) {
      if j < |ks| {
        Edges(at, kids, x, j);
        assert Look(ks[j]);
      }
    }
    assert Distinct(more);
  }

  lemma AttachedOther(at: Links, kids: Kids, x: Ref, c: Ref, now: Links, w: Ref)
    requires CanAttach(at, kids, x, c) && IsAttached(at, x, c, now) && w in at && w != x
    ensures w in now && Children(now, w, kids[w])
  {
    AttachFacts(at, kids, x, c);
    assert Look(w);
    assert now[w].first == at[w].first && now[w].last == at[w].last && now[w].depth == at[w].depth;
    forall j | 0 <= j < |kids[w]| ensures Child(now, w, kids[w], j) {
      PosIs(at, kids, w, j);
      assert Look(kids[w][j]);
    }
  }

  lemma AttachLinked(at: Links, kids: Kids, x: Ref, c: Ref, now: Links)
    requires CanAttach(at, kids, x, c) && IsAttached(at, x, c, now)
    ensures Linked(now, AttachKids(kids, x, c))
  {
    var more := AttachKids(kids, x, c);
    AttachFacts(at, kids, x, c);
    forall w: Ref {:trigger Look(w)} | Look(w) && w in now ensures Children(now, w, more[w]) && Placed(now, more, w) {
      if w == x {
        AttachedKids(at, kids, x, c, now);
      } else {
        AttachedOther(at, kids, x, c, now, w);
      }
      assert Placed(at, kids, w);
      if w == c {
        assert more[x][|kids[x]|] == c;
      }
    }
  }

  // The statements that link c in.
  lemma AttachSteps(at: Links, kids: Kids, x: Ref, c: Ref, now: Links)
    requires CanAttach(at, kids, x, c) && (at[x].last != NULL ==> at[x].last in at)
    requires Fathered(Ended(at, x, c, c), [c], x, now)
    ensures IsAttached(at, x, c, now)
  {
    AttachFacts(at, kids, x, c);
    forall w {:trigger Look(w)} | Look(w) && w in at ensures w in now && now[w] == AttachUnit(at, x, c, w) {
    }
  }

  lemma AttachTrain(at: Links, kids: Kids, x: Ref, c: Ref)
    requires CanAttach(at, kids, x, c)
    ensures at[x].last != NULL ==> at[x].last in at
    ensures Train(Ended(at, x, c, c), [c])
  {
    AttachFacts(at, kids, x, c);
  }

  // A unit made.
  lemma MadeLinked(at: Links, kids: Kids, x: Ref, u: Unit)
    requires Linked(at, kids) && x !in at && x != NULL && x != EMPTY
    requires u.next == u.prev == u.father == u.first == u.last == NULL
    ensures Linked(at[x := u], kids[x := []])
  {
    var now, more := at[x := u], kids[x := []];
    forall w: Ref {:trigger Look(w)} | Look(w) && w in now ensures Children(now, w, more[w]) && Placed(now, more, w) {
      if w != x {
        assert Children(at, w, kids[w]) && Placed(at, kids, w);
        forall j | 0 <= j < |kids[w]| ensures Child(now, w, kids[w], j) {
          PosIs(at, kids, w, j);
        }
      }
    }
  }

  // ---- what a unit holds, as a value -----------------------------------------------------------

  datatype Node = Node(cont: int, kids: seq<Node>)

  // x and everything under it.
  ghost function Shape(at: Links, kids: Kids, x: Ref, h: nat): (n: Node)
    decreases h, 0, 0
  {
    Node(if x in at then at[x].cont else 0, if h == 0 || x !in kids then [] else Shapes(at, kids, kids[x], h - 1))
  }

  ghost function Shapes(at: Links, kids: Kids, xs: seq<Ref>, h: nat): (l: seq<Node>)
    ensures |l| == |xs|
    decreases h, 1, |xs|
  {
    if xs == [] then [] else [Shape(at, kids, xs[0], h)] + Shapes(at, kids, xs[1..], h)
  }

  lemma {:induction false} ShapesJoin(at: Links, kids: Kids, xs: seq<Ref>, ys: seq<Ref>, h: nat)
    ensures Shapes(at, kids, xs + ys, h) == Shapes(at, kids, xs, h) + Shapes(at, kids, ys, h)
  {
    if xs == [] {
      assert xs + ys == ys;
    } else {
      assert (xs + ys)[0] == xs[0] && (xs + ys)[1..] == xs[1..] + ys;
      ShapesJoin(at, kids, xs[1..], ys, h);
    }
  }

  // Units of depth h and less keep their contents and children.
  ghost predicate Keeps(at: Links, kids: Kids, now: Links, more: Kids, h: int) {
    forall x {:trigger Look(x)} :: Look(x) && x in at && at[x].depth <= h ==>
      x in kids && x in now && x in more && now[x].cont == at[x].cont && more[x] == kids[x]
  }

  lemma {:induction false} KeepsShape(at: Links, kids: Kids, now: Links, more: Kids, x: Ref)
    requires Linked(at, kids) && x in at && Keeps(at, kids, now, more, at[x].depth)
    ensures Shape(now, more, x, at[x].depth) == Shape(at, kids, x, at[x].depth)
    decreases at[x].depth, 0, 0
  {
    assert Look(x);
    if at[x].depth > 0 {
      KidsLevel(at, kids, x);
      KeepsShapes(at, kids, now, more, kids[x], at[x].depth - 1);
    }
  }

  lemma {:induction false} KeepsShapes(at: Links, kids: Kids, now: Links, more: Kids, xs: seq<Ref>, h: nat)
    requires Linked(at, kids) && Level(at, xs, h) && Keeps(at, kids, now, more, h)
    ensures Shapes(now, more, xs, h) == Shapes(at, kids, xs, h)
    decreases h, 1, |xs|
  {
    if xs != [] {
      assert xs[0] in at;
      KeepsShape(at, kids, now, more, xs[0]);
      KeepsShapes(at, kids, now, more, xs[1..], h);
    }
  }

  // ---- what the symbols make -------------------------------------------------------------------

  const NO_CONT := 95

  // The unit of level h that the symbols begin with, and the symbols left after it.
  function Build(tb: Tables, h: nat, l: seq<Tok>): (r: (Node, seq<Tok>))
    requires l != [] && l[0].Tok? && tb.phone <= l[0].level <= h <= tb.top && Ends(tb, l)
    ensures r.1 != [] && Ends(tb, r.1) && (h < tb.top ==> |r.1| < |l|)
    decreases |l|, h, 1
  {
    var (ks, rest) := BuildAll(tb, h, l);
    if rest[0].Tok? && rest[0].level == h then (Node(rest[0].c, ks), if h == tb.top then rest else rest[1..])
    else (Node(NO_CONT, ks), rest)
  }

  // The units of level h - 1 that the symbols begin with.
  function BuildAll(tb: Tables, h: nat, l: seq<Tok>): (r: (seq<Node>, seq<Tok>))
    requires l != [] && (l[0].Tok? ==> tb.phone <= l[0].level) && h <= tb.top && Ends(tb, l)
    ensures r.1 != [] && Ends(tb, r.1) && (r.1[0].Tok? ==> h <= r.1[0].level)
    ensures |r.1| <= |l| && (l[0].Tok? && l[0].level < h ==> |r.1| < |l|)
    ensures !(l[0].Tok? && l[0].level < h) ==> r == ([], l)
    decreases |l|, h, 0
  {
    if l[0].Tok? && l[0].level < h then
      var (n, rest) := Build(tb, h - 1, l);
      var (ns, last) := BuildAll(tb, h, rest);
      ([n] + ns, last)
    else ([], l)
  }

  // Asked of a level to unfold what is known at that level.
  predicate Peek(x: nat) { true }

  // ---- the symbols back from the units -----------------------------------------------------------

  // The symbols of a unit, its own last; a unit without contents has none.
  function Spell(n: Node, h: nat, phone: nat): (l: seq<Tok>)
    decreases n, 0
  {
    (if h > phone then SpellAll(n.kids, h - 1, phone) else []) + if n.cont == NO_CONT
      || n.cont < 0 then [] else [Tok(n.cont, h)]
  }

  function SpellAll(ns: seq<Node>, h: nat, phone: nat): (l: seq<Tok>)
    decreases ns, 1
  {
    if ns == [] then [] else Spell(ns[0], h, phone) + SpellAll(ns[1..], h, phone)
  }

  // The symbols other than the one that stands for no contents.
  function Said(l: seq<Tok>): (r: seq<Tok>) {
    if l == [] then []
    else if l[0].Tok? && l[0].c == NO_CONT then Said(l[1..])
    else [l[0]] + Said(l[1..])
  }

  lemma {:induction false} SaidJoin(a: seq<Tok>, b: seq<Tok>)
    ensures Said(a + b) == Said(a) + Said(b)
  {
    if a == [] {
      assert a + b == b;
    } else {
      assert (a + b)[0] == a[0] && (a + b)[1..] == a[1..] + b;
      SaidJoin(a[1..], b);
    }
  }

  // The symbols of l that come before what is left of it.
  ghost function Used(l: seq<Tok>, rest: seq<Tok>): (u: seq<Tok>)
    requires |rest| <= |l|
  {
    l[..|l| - |rest|]
  }

  lemma UsedTwice(l: seq<Tok>, mid: seq<Tok>, rest: seq<Tok>)
    requires |rest| <= |mid| <= |l| && mid == l[|l| - |mid|..] && rest == mid[|mid| - |rest|..]
    ensures rest == l[|l| - |rest|..] && Used(l, rest) == Used(l, mid) + Used(mid, rest)
  {
  }

  // The units hold the symbols l, but those that stand for no contents.
  predicate Spelt(n: Node, h: nat, phone: nat, l: seq<Tok>) { Spell(n, h, phone) == Said(l) }

  predicate SpeltAll(ns: seq<Node>, h: nat, phone: nat, l: seq<Tok>) { SpellAll(ns, h, phone) == Said(l) }

  lemma SpeltNone(h: nat, phone: nat)
    ensures SpeltAll([], h, phone, [])
  {
  }

  lemma SpeltMore(n: Node, ns: seq<Node>, h: nat, phone: nat, a: seq<Tok>, b: seq<Tok>)
    requires Spelt(n, h, phone, a) && SpeltAll(ns, h, phone, b)
    ensures SpeltAll([n] + ns, h, phone, a + b)
  {
    assert ([n] + ns)[1..] == ns;
    SaidJoin(a, b);
  }

  // A unit's own contents, after those of its children.
  lemma SpeltNode(c: nat, ks: seq<Node>, h: nat, phone: nat, l: seq<Tok>)
    requires if h > phone then SpeltAll(ks, h - 1, phone, l) else l == []
    ensures Spelt(Node(c, ks), h, phone, l + [Tok(c, h)])
  {
    var t := Tok(c, h);
    SaidJoin(l, [t]);
    assert [t][1..] == [];
  }

  lemma SpeltNameless(ks: seq<Node>, h: nat, phone: nat, l: seq<Tok>)
    requires h > phone && SpeltAll(ks, h - 1, phone, l)
    ensures Spelt(Node(NO_CONT, ks), h, phone, l)
  {
  }

  // A unit, or a row of units, made of the first symbols of l, and what is left. Mentioning Peek(h) unfolds it.
  ghost predicate Taken(n: Node, h: nat, phone: nat, l: seq<Tok>, rest: seq<Tok>) {
    && |rest| <= |l|
    && forall x: nat {:trigger Peek(x)} :: Peek(x) && x == h ==>
         rest == l[|l| - |rest|..] && Spelt(n, h, phone, Used(l, rest))
  }

  ghost predicate TakenAll(ns: seq<Node>, h: nat, phone: nat, l: seq<Tok>, rest: seq<Tok>) {
    && |rest| <= |l|
    && forall x: nat {:trigger Peek(x)} :: Peek(x) && x == h ==>
         rest == l[|l| - |rest|..] && SpeltAll(ns, h, phone, Used(l, rest))
  }

  // A unit below the whole text holds the symbols it was made of, but those that stand for no contents.
  lemma {:induction false} BuildSpells(tb: Tables, h: nat, l: seq<Tok>)
    requires l != [] && l[0].Tok? && tb.phone <= l[0].level <= h < tb.top && Ends(tb, l)
    ensures var (n, rest) := Build(tb, h, l); Taken(n, h, tb.phone, l, rest)
    decreases |l|, h, 1
  {
    var (ks, mid) := BuildAll(tb, h, l);
    if h > tb.phone {
      BuildAllSpells(tb, h, l);
      assert Peek(h - 1);
    } else {
      assert mid == l && Used(l, l) == [];
    }
    if mid[0].Tok? && mid[0].level == h {
      SpeltNode(mid[0].c, ks, h, tb.phone, Used(l, mid));
      OneTaken(l, mid);
    } else {
      SpeltNameless(ks, h, tb.phone, Used(l, mid));
    }
  }

  lemma OneTaken(l: seq<Tok>, mid: seq<Tok>)
    requires 0 < |mid| <= |l| && mid == l[|l| - |mid|..]
    ensures mid[1..] == l[|l| - |mid[1..]|..] && Used(l, mid[1..]) == Used(l, mid) + [mid[0]]
  {
  }

  lemma {:induction false} BuildAllSpells(tb: Tables, h: nat, l: seq<Tok>)
    requires l != [] && (l[0].Tok? ==> tb.phone <= l[0].level) && tb.phone < h <= tb.top && Ends(tb, l)
    ensures var (ns, rest) := BuildAll(tb, h, l); TakenAll(ns, h - 1, tb.phone, l, rest)
    decreases |l|, h, 0
  {
    if l[0].Tok? && l[0].level < h {
      var (n, mid) := Build(tb, h - 1, l);
      BuildSpells(tb, h - 1, l);
      BuildAllSpells(tb, h, mid);
      var (ms, rest) := BuildAll(tb, h, mid);
      TakenMore(n, ms, h - 1, tb.phone, l, mid, rest);
    } else {
      NoneTaken(h - 1, tb.phone, l);
    }
  }

  lemma TakenMore(n: Node, ms: seq<Node>, h: nat, phone: nat, l: seq<Tok>, mid: seq<Tok>, rest: seq<Tok>)
    requires Taken(n, h, phone, l, mid) && TakenAll(ms, h, phone, mid, rest)
    ensures TakenAll([n] + ms, h, phone, l, rest)
  {
    assert Peek(h);
    UsedTwice(l, mid, rest);
    SpeltMore(n, ms, h, phone, Used(l, mid), Used(mid, rest));
  }

  lemma NoneTaken(h: nat, phone: nat, l: seq<Tok>)
    ensures TakenAll([], h, phone, l, l)
  {
    SpeltNone(h, phone);
    assert Used(l, l) == [];
  }

  // The unit that a whole text makes.
  function WholeUnit(tb: Tables, l: seq<Tok>): (n: Node)
    requires l != [] && l[0].Tok? && tb.phone <= l[0].level <= tb.top && Ends(tb, l)
  {
    Build(tb, tb.top, l).0
  }

  // The whole text takes all its symbols but the one that ends it, which it does not use up.
  lemma TextRest(tb: Tables, l: seq<Tok>)
    requires tb.phone < tb.top && Ends(tb, l) && l[|l| - 1].Tok? && tb.phone <= l[0].level
    ensures var (ks, rest) := BuildAll(tb, tb.top, l);
            && rest == [l[|l| - 1]] && l == Used(l, rest) + rest && SpeltAll(ks, tb.top - 1, tb.phone, Used(l, rest))
            && Build(tb, tb.top, l) == (Node(l[|l| - 1].c, ks), rest)
  {
    BuildAllSpells(tb, tb.top, l);
    assert Peek(tb.top - 1);
    LastLeft(tb, l, BuildAll(tb, tb.top, l).1);
  }

  // A whole text's units below it, and the symbols they were made of.
  lemma TextParts(tb: Tables, l: seq<Tok>) returns (ks: seq<Node>, used: seq<Tok>, c: nat)
    requires tb.phone < tb.top && Ends(tb, l) && l[|l| - 1].Tok? && tb.phone <= l[0].level
    ensures l == used + [Tok(c, tb.top)] && SpeltAll(ks, tb.top - 1, tb.phone, used)
    ensures WholeUnit(tb, l) == Node(c, ks)
  {
    TextRest(tb, l);
    ks, c := BuildAll(tb, tb.top, l).0, l[|l| - 1].c;
    used := Used(l, BuildAll(tb, tb.top, l).1);
  }

  // The whole text holds all its symbols, the one that ends it included.
  lemma TextSpells(tb: Tables, l: seq<Tok>)
    requires tb.phone < tb.top && Ends(tb, l) && l[|l| - 1].Tok? && tb.phone <= l[0].level
    ensures Spelt(WholeUnit(tb, l), tb.top, tb.phone, l)
  {
    var ks, used, c := TextParts(tb, l);
    SpeltNode(c, ks, tb.top, tb.phone, used);
  }

  lemma LastLeft(tb: Tables, l: seq<Tok>, mid: seq<Tok>)
    requires Ends(tb, l) && mid != [] && |mid| <= |l| && mid == l[|l| - |mid|..] && mid[0].Tok?
             && tb.top <= mid[0].level
    ensures mid == [l[|l| - 1]] && l == Used(l, mid) + mid
  {
    assert mid[0] == l[|l| - |mid|];
  }

  // ---- no unit is empty ------------------------------------------------------------------------

  // Every unit above the phones has a child.
  predicate Full(n: Node, h: nat, phone: nat)
    decreases n, 0
  {
    h > phone ==> n.kids != [] && FullAll(n.kids, h - 1, phone)
  }

  predicate FullAll(ns: seq<Node>, h: nat, phone: nat)
    decreases ns, 1
  {
    ns == [] || (Full(ns[0], h, phone) && FullAll(ns[1..], h, phone))
  }

  lemma FullCons(n: Node, ms: seq<Node>, ns: seq<Node>, h: nat, phone: nat)
    requires ns == [n] + ms && FullAll(ms, h, phone)
    ensures FullAll(ns, h, phone) <==> Full(n, h, phone)
  {
    assert ns[1..] == ms;
  }

  lemma ChainTail(tb: Tables, l: seq<Tok>)
    requires Chain(tb, l) && |l| > 1
    ensures l[0].Tok? && Follows(tb, l[0].level, l[1]) && Chain(tb, l[1..])
  {
    var t := l[1..];
    assert FollowsAt(tb, l, 0);
    forall k | 0 <= k < |t| - 1 ensures FollowsAt(tb, t, k) {
      assert FollowsAt(tb, l, k + 1);
    }
  }

  lemma FullNode(c: int, ks: seq<Node>, h: nat, phone: nat)
    ensures Full(Node(c, ks), h, phone) <==> (h > phone ==> ks != [] && FullAll(ks, h - 1, phone))
  {
  }

  // Taking the symbol that ends a unit.
  lemma OwnTaken(tb: Tables, l: seq<Tok>, mid: seq<Tok>, h: nat)
    requires Ends(tb, mid) && |mid| <= |l| && mid == l[|l| - |mid|..] && Chain(tb, mid) && h < tb.top
    requires mid[0].Tok? && mid[0].level == h
    ensures var rest := mid[1..];
            && rest != [] && rest == l[|l| - |rest|..] && Chain(tb, rest)
            && (rest[0].Tok? ==> rest[0].level == tb.phone || rest[0].level > h)
  {
    ChainTail(tb, mid);
    UsedTwice(l, mid, mid[1..]);
  }

  // No symbol stands for no contents.
  predicate Contents(l: seq<Tok>) {
    forall k :: 0 <= k < |l| && l[k].Tok? ==> l[k].c != 95
  }

  // A unit without contents is the last one of its father's.
  predicate Tight(n: Node)
    decreases n, 0
  {
    TightAll(n.kids)
  }

  predicate TightAll(ns: seq<Node>)
    decreases ns, 1
  {
    ns == [] || (Tight(ns[0]) && TightAll(ns[1..]) && (|ns| > 1 ==> ns[0].cont != 95))
  }

  // Units are only opened where a symbol has to be put: none is left without contents before another.
  lemma {:induction false} BuildTight(tb: Tables, h: nat, l: seq<Tok>)
    requires l != [] && l[0].Tok? && tb.phone <= l[0].level <= h <= tb.top && Ends(tb, l) && Contents(l)
    ensures var (n, rest) := Build(tb, h, l);
            Tight(n) && Contents(rest) && (n.cont == 95 && rest[0].Tok? ==> rest[0].level > h)
    decreases |l|, h, 1
  {
    BuildAllTight(tb, h, l);
  }

  lemma {:induction false} BuildAllTight(tb: Tables, h: nat, l: seq<Tok>)
    requires l != [] && (l[0].Tok? ==> tb.phone <= l[0].level) && h <= tb.top && Ends(tb, l) && Contents(l)
    ensures var (ns, rest) := BuildAll(tb, h, l); TightAll(ns) && Contents(rest)
    decreases |l|, h, 0
  {
    if l[0].Tok? && l[0].level < h {
      var (n, rest) := Build(tb, h - 1, l);
      BuildTight(tb, h - 1, l);
      BuildAllTight(tb, h, rest);
      var ms := BuildAll(tb, h, rest).0;
      assert ([n] + ms)[1..] == ms;
    }
  }

  // A unit made of a normal row of symbols is full exactly when the row begins with a phone; and then what
  // is left begins with a phone, or with the end of a larger unit.
  lemma {:induction false} BuildFull(tb: Tables, h: nat, l: seq<Tok>)
    requires l != [] && l[0].Tok? && tb.phone <= l[0].level <= h < tb.top && Ends(tb, l) && Chain(tb, l)
    ensures var (n, rest) := Build(tb, h, l);
            && (Full(n, h, tb.phone) <==> l[0].level == tb.phone)
            && rest == l[|l| - |rest|..] && Chain(tb, rest)
            && (rest[0].Tok? ==> rest[0].level == tb.phone || rest[0].level > h)
    decreases |l|, h, 1
  {
    var (ks, mid) := BuildAll(tb, h, l);
    var (n, rest) := Build(tb, h, l);
    BuildAllFull(tb, h, l);
    assert Peek(h);
    FullNode(n.cont, ks, h, tb.phone);
    if mid[0].Tok? && mid[0].level == h {
      OwnTaken(tb, l, mid, h);
    }
  }

  // A full unit followed by full ones.
  lemma FullStep(h: nat, phone: nat, level: nat, n: Node, t: Tok, ms: seq<Node>, ns: seq<Node>)
    requires h > phone && ns == [n] + ms && (Full(n, h - 1, phone) <==> level == phone)
    requires t.Tok? ==> t.level == phone || t.level > h - 1
    requires t.Tok? && t.level < h ==> ms != [] && (FullAll(ms, h - 1, phone) <==> t.level == phone)
    requires !(t.Tok? && t.level < h) ==> ms == []
    ensures ns != [] && (FullAll(ns, h - 1, phone) <==> level == phone)
  {
    assert FullAll(ms, h - 1, phone);
    FullCons(n, ms, ns, h - 1, phone);
  }

  // The units of level h - 1 that the symbols l begin with are ns, and rest is left: there are none just where
  // the symbols begin with the end of a unit of level h, and they are full just where l begins with a phone.
  // Mentioning Peek(h) unfolds it.
  ghost predicate AllFull(tb: Tables, h: nat, l: seq<Tok>, ns: seq<Node>, rest: seq<Tok>) {
    forall x: nat {:trigger Peek(x)} :: Peek(x) && x == h ==>
      && |rest| <= |l| && l != [] && rest == l[|l| - |rest|..] && Chain(tb, rest)
      && (h == tb.phone || !(l[0].Tok? && l[0].level < h) ==> ns == [] && rest == l)
      && (h > tb.phone && l[0].Tok? && l[0].level < h ==>
            ns != [] && (FullAll(ns, h - 1, tb.phone) <==> l[0].level == tb.phone))
  }

  lemma {:induction false} BuildAllFull(tb: Tables, h: nat, l: seq<Tok>)
    requires l != [] && (l[0].Tok? ==> tb.phone <= l[0].level) && tb.phone <= h <= tb.top && Ends(tb, l) && Chain(tb, l)
    ensures var (ns, rest) := BuildAll(tb, h, l); AllFull(tb, h, l, ns, rest)
    decreases |l|, h, 0
  {
    if l[0].Tok? && l[0].level < h {
      var (n, mid) := Build(tb, h - 1, l);
      BuildFull(tb, h - 1, l);
      BuildAllFull(tb, h, mid);
      MoreFull(tb, h, l, n, mid, BuildAll(tb, h, mid).0, BuildAll(tb, h, mid).1);
    }
  }

  // A unit more before the others.
  lemma MoreFull(tb: Tables, h: nat, l: seq<Tok>, n: Node, mid: seq<Tok>, ms: seq<Node>, rest: seq<Tok>)
    requires h > tb.phone && l != [] && mid != [] && l[0].Tok? && l[0].level < h && AllFull(tb, h, mid, ms, rest)
    requires (Full(n, h - 1, tb.phone) <==> l[0].level == tb.phone) && |mid| <= |l| && mid == l[|l| - |mid|..]
    requires mid[0].Tok? ==> mid[0].level == tb.phone || mid[0].level > h - 1
    ensures AllFull(tb, h, l, [n] + ms, rest)
  {
    assert Peek(h);
    UsedTwice(l, mid, rest);
    FullStep(h, tb.phone, l[0].level, n, mid[0], ms, [n] + ms);
  }

  // A text that is not empty is full exactly when its first symbol is a phone.
  lemma TextFull(tb: Tables, l: seq<Tok>)
    requires tb.phone < tb.top && Normal(tb, l, tb.phone) && l[0].Tok? && tb.phone <= l[0].level < tb.top
    ensures Full(WholeUnit(tb, l), tb.top, tb.phone) <==> l[0].level == tb.phone
  {
    BuildAllFull(tb, tb.top, l);
    assert Peek(tb.top);
  }

  // ---- growing ---------------------------------------------------------------------------------

  // All units there were are as they were.
  ghost predicate Extends(at: Links, kids: Kids, now: Links, more: Kids) {
    forall w {:trigger Look(w)} :: Look(w) && w in at ==>
      w in now && now[w] == at[w] && w in kids && w in more && more[w] == kids[w]
  }

  // The units are linked; x is a root of depth h, and its children's shapes are ns.
  ghost predicate Root(at: Links, kids: Kids, x: Ref, h: nat, ns: seq<Node>) {
    && Linked(at, kids) && x in at && at[x].father == NULL && at[x].depth == h
    && (h > 0 ==> Shapes(at, kids, kids[x], h - 1) == ns) && (h == 0 ==> kids[x] == [] && ns == [])
  }

  lemma RootAlone(at: Links, kids: Kids, x: Ref, u: Unit)
    requires Linked(at, kids) && x !in at && x != NULL && x != EMPTY
    requires u.next == u.prev == u.father == u.first == u.last == NULL
    ensures Root(at[x := u], kids[x := []], x, u.depth, []) && Extends(at, kids, at[x := u], kids[x := []])
  {
    MadeLinked(at, kids, x, u);
  }

  // A child is made beside x, and linked in.
  lemma RootGrows(at: Links, kids: Kids, x: Ref, h: nat, ns: seq<Node>, mid: Links, some: Kids, c: Ref, n: Node,
                  now: Links)
    requires Root(at, kids, x, h, ns) && h > 0 && Linked(mid, some) && Extends(at, kids, mid, some)
    requires c in mid && c !in at && mid[c].father == NULL && mid[c].depth == h - 1 && Shape(mid, some, c, h - 1) == n
    requires x in mid && IsAttached(mid, x, c, now)
    ensures CanAttach(mid, some, x, c)
    ensures Root(now, AttachKids(some, x, c), x, h, ns + [n]) && now[x].cont == mid[x].cont
  {
    assert Look(x);
    AttachLinked(mid, some, x, c, now);
    KidsLevel(at, kids, x);
    KeepsShapes(at, kids, mid, some, kids[x], h - 1);
    ShapesGrow(mid, some, x, h, ns, c, n, now);
  }

  // The shapes of x's children and then of c.
  lemma ShapesGrow(mid: Links, some: Kids, x: Ref, h: nat, ns: seq<Node>, c: Ref, n: Node, now: Links)
    requires CanAttach(mid, some, x, c) && IsAttached(mid, x, c, now) && mid[x].depth == h > 0
    requires Shapes(mid, some, some[x], h - 1) == ns && Shape(mid, some, c, h - 1) == n
    ensures Shapes(now, AttachKids(some, x, c), some[x] + [c], h - 1) == ns + [n]
  {
    var more := AttachKids(some, x, c);
    KidsLevel(mid, some, x);
    assert Keeps(mid, some, now, more, h - 1);
    KeepsShapes(mid, some, now, more, some[x], h - 1);
    KeepsShape(mid, some, now, more, c);
    ShapesJoin(now, more, some[x], [c], h - 1);
    assert Shapes(now, more, [c], h - 1) == [n] by {
      assert [c][1..] == [];
    }
  }

  lemma ExtendsOn(at: Links, kids: Kids, was: Links, had: Kids, x: Ref, mid: Links, some: Kids, c: Ref, now: Links)
    requires Extends(was, had, at, kids) && Extends(at, kids, mid, some) && x !in was && c !in at
    requires CanAttach(mid, some, x, c) && IsAttached(mid, x, c, now) && Linked(was, had) && x in at && Linked(at, kids)
    ensures Extends(was, had, now, AttachKids(some, x, c))
  {
    AttachFacts(mid, some, x, c);
    forall w {:trigger Look(w)} | Look(w) && w in was
      ensures w in now && now[w] == was[w] && w in had && AttachKids(some, x, c)[w] == had[w]
    {
      assert mid[w] == was[w] && w in at && at[w] == was[w];
      assert Placed(was, had, w) && was[w].father != x;
    }
  }

  // x's contents set.
  lemma RootNamed(at: Links, kids: Kids, x: Ref, h: nat, ns: seq<Node>, c: int)
    requires Root(at, kids, x, h, ns)
    ensures var now := at[x := at[x].(cont := c)]; Linked(now, kids) && Shape(now, kids, x, h) == Node(c, ns)
  {
    var now := at[x := at[x].(cont := c)];
    forall w: Ref {:trigger Look(w)} | Look(w) && w in now ensures Children(now, w, kids[w]) && Placed(now, kids, w) {
      assert Children(at, w, kids[w]) && Placed(at, kids, w);
      forall j | 0 <= j < |kids[w]| ensures Child(now, w, kids[w], j) {
        assert Child(at, w, kids[w], j);
      }
    }
    if h > 0 {
      KidsLevel(at, kids, x);
      assert Keeps(at, kids, now, kids, h - 1);
      KeepsShapes(at, kids, now, kids, kids[x], h - 1);
    }
  }

  // x is a new unit, whole, with everything under it; the others are as they were.
  ghost predicate IsBuilt(was: Links, had: Kids, at: Links, kids: Kids, x: Ref, h: nat, n: Node) {
    && Linked(at, kids) && Extends(was, had, at, kids) && x in at && x !in was
    && at[x].father == NULL && at[x].depth == h && Shape(at, kids, x, h) == n
  }

  // x is a new unit, without contents yet; its children are ns.
  ghost predicate IsGrowing(was: Links, had: Kids, at: Links, kids: Kids, x: Ref, h: nat, ns: seq<Node>) {
    && Linked(was, had) && Extends(was, had, at, kids) && x !in was && Root(at, kids, x, h, ns) && at[x].cont == NO_CONT
  }

  lemma GrowsOn(was: Links, had: Kids, at: Links, kids: Kids, x: Ref, h: nat, ns: seq<Node>,
                mid: Links, some: Kids, c: Ref, n: Node)
    requires IsGrowing(was, had, at, kids, x, h, ns) && h > 0 && IsBuilt(at, kids, mid, some, c, h - 1, n)
    ensures x in mid && CanAttach(mid, some, x, c) && some.Keys == mid.Keys
    ensures forall now :: IsAttached(mid, x, c, now) ==>
            IsGrowing(was, had, now, AttachKids(some, x, c), x, h, ns + [n])
  {
    assert Look(x);
    forall now | IsAttached(mid, x, c, now)
      ensures IsGrowing(was, had, now, AttachKids(some, x, c), x, h, ns + [n])
    {
      RootGrows(at, kids, x, h, ns, mid, some, c, n, now);
      ExtendsOn(at, kids, was, had, x, mid, some, c, now);
    }
  }

  lemma GrownUp(was: Links, had: Kids, at: Links, kids: Kids, x: Ref, h: nat, ns: seq<Node>, c: int)
    requires IsGrowing(was, had, at, kids, x, h, ns)
    ensures x in at && IsBuilt(was, had, at[x := at[x].(cont := c)], kids, x, h, Node(c, ns))
  {
    RootNamed(at, kids, x, h, ns, c);
  }

  // Symbols a unit of level h can be built from.
  ghost predicate Fit(tb: Tables, h: nat, l: seq<Tok>) {
    l != [] && (l[0].Tok? ==> tb.phone <= l[0].level) && tb.phone <= h <= tb.top && Ends(tb, l)
  }

  lemma Fits(tb: Tables, h: nat, l: seq<Tok>)
    requires l != [] && Ends(tb, l) && tb.phone <= h <= tb.top
    ensures Fit(tb, h, l)
  {
  }

  // The children ns of a unit of level h are built from the symbols l, and the symbols m are left.
  ghost predicate Doing(tb: Tables, h: nat, l: seq<Tok>, ns: seq<Node>, m: seq<Tok>) {
    && Fit(tb, h, l) && Fit(tb, h, m) && |m| <= |l|
    && BuildAll(tb, h, l) == (ns + BuildAll(tb, h, m).0, BuildAll(tb, h, m).1)
  }

  lemma DoingFirst(tb: Tables, h: nat, l: seq<Tok>)
    requires Fit(tb, h, l)
    ensures Doing(tb, h, l, [], l)
  {
    assert [] + BuildAll(tb, h, l).0 == BuildAll(tb, h, l).0;
  }

  lemma DoingNext(tb: Tables, h: nat, l: seq<Tok>, ns: seq<Node>, m: seq<Tok>)
    requires Doing(tb, h, l, ns, m) && m[0].Tok? && m[0].level < h
    ensures var (n, rest) := Build(tb, h - 1, m);
            |rest| < |m| && Doing(tb, h, l, ns + [n], rest)
  {
    var (n, rest) := Build(tb, h - 1, m);
    Fits(tb, h, rest);
    var ms := BuildAll(tb, h, rest).0;
    assert ns + ([n] + ms) == (ns + [n]) + ms;
  }

  lemma DoingLast(tb: Tables, h: nat, l: seq<Tok>, ns: seq<Node>, m: seq<Tok>)
    requires Doing(tb, h, l, ns, m) && !(m[0].Tok? && m[0].level < h) && l[0].Tok? && l[0].level <= h
    ensures Build(tb, h, l) == if m[0].Tok?
            && m[0].level == h then (Node(m[0].c, ns), if h == tb.top then m else m[1..])
                               else (Node(NO_CONT, ns), m)
  {
    assert ns + [] == ns;
  }
}
