// The text of a unit, read back from the units (src/unit.cc:362-410).
module UnitGather {
  import opened UnitTree
  import opened UnitFrame
  import opened UnitJoin
  import opened Tokens
  import opened UnitGrow

  // What a unit is itself gathered as.
  function Own(c: int, h: nat, phone: nat, all: bool): (l: seq<int>)
    ensures |l| <= 1
  {
    if c != NO_CONT && (h == phone || (all && h > phone)) then [c % 256] else []
  }

  // The contents of a unit: first of what is under it, then its own.
  function Gathered(n: Node, h: nat, phone: nat, all: bool): (l: seq<int>)
    decreases n, 1
  {
    Inner(n, h, phone, all) + Own(n.cont, h, phone, all)
  }

  function Inner(n: Node, h: nat, phone: nat, all: bool): (l: seq<int>)
    decreases n, 0
  {
    if h == 0 then [] else GatheredAll(n.kids, h - 1, phone, all)
  }

  function GatheredAll(ns: seq<Node>, h: nat, phone: nat, all: bool): (l: seq<int>)
    decreases ns
  {
    if ns == [] then [] else Gathered(ns[0], h, phone, all) + GatheredAll(ns[1..], h, phone, all)
  }

  lemma {:induction false} GatheredJoin(a: seq<Node>, b: seq<Node>, h: nat, phone: nat, all: bool)
    ensures GatheredAll(a + b, h, phone, all) == GatheredAll(a, h, phone, all) + GatheredAll(b, h, phone, all)
  {
    if a == [] {
      assert a + b == b;
    } else {
      assert (a + b)[0] == a[0] && (a + b)[1..] == a[1..] + b;
      GatheredJoin(a[1..], b, h, phone, all);
    }
  }

  // The contents of the first children, one after another.
  lemma GatheredNext(ns: seq<Node>, i: nat, h: nat, phone: nat, all: bool)
    requires i < |ns|
    ensures GatheredAll(ns[..i + 1], h, phone, all) == GatheredAll(ns[..i], h, phone, all)
            + Gathered(ns[i], h, phone, all)
    ensures |GatheredAll(ns[..i + 1], h, phone, all)| <= |GatheredAll(ns, h, phone, all)|
  {
    assert ns[..i + 1] == ns[..i] + [ns[i]] && ns == ns[..i + 1] + ns[i + 1..];
    GatheredJoin(ns[..i], [ns[i]], h, phone, all);
    GatheredJoin(ns[..i + 1], ns[i + 1..], h, phone, all);
    assert [ns[i]][1..] == [];
  }

  // The i-th child's shape.
  lemma {:induction false} ShapeAt(at: Links, kids: Kids, xs: seq<Ref>, h: nat, i: nat)
    requires i < |xs|
    ensures Shapes(at, kids, xs, h)[i] == Shape(at, kids, xs[i], h)
  {
    if i > 0 {
      ShapeAt(at, kids, xs[1..], h, i - 1);
    }
  }

  // ---- only the phones -----------------------------------------------------------------------------

  // The contents of units in turn; 95 stands for none.
  function Heard(at: Links, l: seq<Ref>): (c: seq<int>) {
    if l == [] then []
    else
      var x := if l[0] in at then at[l[0]].cont else 0;
      (if x == 95 then [] else [x % 256]) + Heard(at, l[1..])
  }

  lemma {:induction false} HeardJoin(at: Links, a: seq<Ref>, b: seq<Ref>)
    ensures Heard(at, a + b) == Heard(at, a) + Heard(at, b)
  {
    if a == [] {
      assert a + b == b;
    } else {
      assert (a + b)[0] == a[0] && (a + b)[1..] == a[1..] + b;
      HeardJoin(at, a[1..], b);
    }
  }

  lemma {:induction false} NoneHeard(n: Node, h: nat, phone: nat)
    requires h < phone
    ensures Gathered(n, h, phone, false) == []
    decreases n, 0
  {
    if h > 0 { NoneHeardIn(n.kids, h - 1, phone); }
  }

  lemma {:induction false} NoneHeardIn(ns: seq<Node>, h: nat, phone: nat)
    requires h < phone
    ensures GatheredAll(ns, h, phone, false) == []
    decreases ns, 1
  {
    if ns != [] {
      NoneHeard(ns[0], h, phone);
      NoneHeardIn(ns[1..], h, phone);
    }
  }

  // Without what is above them, a unit is gathered as its phones from left to right.
  lemma {:induction false} PhonesGathered(at: Links, kids: Kids, x: Ref, h: nat, phone: nat)
    requires h >= phone
    ensures Gathered(Shape(at, kids, x, h), h, phone, false) == Heard(at, Row(kids, x, h - phone))
    decreases h, 0, 0
  {
    var n := Shape(at, kids, x, h);
    if h == phone {
      if h > 0 { NoneHeardIn(n.kids, h - 1, phone); }
      assert [x][1..] == [];
      assert Row(kids, x, 0) == [x] && Heard(at, [x]) == Own(n.cont, h, phone, false) + Heard(at, []);
    } else {
      if x in kids { PhonesGatheredAll(at, kids, kids[x], h - 1, phone); }
      var inner := GatheredAll(n.kids, h - 1, phone, false);
      assert Gathered(n, h, phone, false) == inner + [] == inner;
    }
  }

  lemma {:induction false} PhonesGatheredAll(at: Links, kids: Kids, xs: seq<Ref>, h: nat, phone: nat)
    requires h >= phone
    ensures GatheredAll(Shapes(at, kids, xs, h), h, phone, false) == Heard(at, Rows(kids, xs, h - phone))
    decreases h, 1, |xs|
  {
    if xs != [] {
      PhonesGathered(at, kids, xs[0], h, phone);
      PhonesGatheredAll(at, kids, xs[1..], h, phone);
      HeardJoin(at, Row(kids, xs[0], h - phone), Rows(kids, xs[1..], h - phone));
      var ns := Shapes(at, kids, xs, h);
      assert ns[0] == Shape(at, kids, xs[0], h) && ns[1..] == Shapes(at, kids, xs[1..], h);
    }
  }

  // What has been written when the first i children have.
  ghost predicate Written(buf: seq<int>, now: nat, cur: nat, ns: seq<Node>, i: nat, h: nat, phone: nat, all: bool) {
    && now <= cur <= |buf| && i <= |ns| && buf[now..cur] == GatheredAll(ns[..i], h, phone, all)
    && |GatheredAll(ns[..i], h, phone, all)| <= |GatheredAll(ns, h, phone, all)|
  }

  lemma WrittenNext(was: seq<int>, buf: seq<int>, now: nat, cur: nat, next: nat, ns: seq<Node>, i: nat, h: nat,
                    phone: nat, all: bool)
    requires Written(was, now, cur, ns, i, h, phone, all) && i < |ns| && |buf| == |was| && cur <= next <= |buf|
    requires buf[..cur] == was[..cur] && buf[cur..next] == Gathered(ns[i], h, phone, all)
    ensures Written(buf, now, next, ns, i + 1, h, phone, all)
  {
    GatheredNext(ns, i, h, phone, all);
    assert buf[now..next] == buf[..cur][now..] + buf[cur..next];
    assert was[now..cur] == was[..cur][now..];
  }

  // ---- what was parsed is gathered ----------------------------------------------------------------

  // The characters of symbols.
  function Chars(l: seq<Tok>): (c: seq<int>)
    ensures |c| == |l|
  {
    if l == [] then [] else [if l[0].Tok? then l[0].c else 0] + Chars(l[1..])
  }

  lemma {:induction false} CharsJoin(a: seq<Tok>, b: seq<Tok>)
    ensures Chars(a + b) == Chars(a) + Chars(b)
  {
    if a == [] {
      assert a + b == b;
    } else {
      assert (a + b)[0] == a[0] && (a + b)[1..] == a[1..] + b;
      CharsJoin(a[1..], b);
    }
  }

  // Contents that are characters, and none below the phones.
  predicate Plain(n: Node, h: nat, phone: nat)
    decreases n, 0
  {
    0 <= n.cont < 256 && (if h > phone then PlainAll(n.kids, h - 1, phone) else n.kids == [])
  }

  predicate PlainAll(ns: seq<Node>, h: nat, phone: nat)
    decreases ns, 1
  {
    ns == [] || (Plain(ns[0], h, phone) && PlainAll(ns[1..], h, phone))
  }

  lemma {:induction false} GatheredSpells(n: Node, h: nat, phone: nat)
    requires Plain(n, h, phone) && h >= phone
    ensures Gathered(n, h, phone, true) == Chars(Spell(n, h, phone))
    decreases n, 0
  {
    var own := if n.cont == NO_CONT then [] else [Tok(n.cont, h)];
    assert Chars(own) == Own(n.cont, h, phone, true);
    if h > phone {
      GatheredAllSpell(n.kids, h - 1, phone);
      CharsJoin(SpellAll(n.kids, h - 1, phone), own);
    } else {
      assert Inner(n, h, phone, true) == [];
      assert Spell(n, h, phone) == [] + own == own;
    }
  }

  lemma {:induction false} GatheredAllSpell(ns: seq<Node>, h: nat, phone: nat)
    requires PlainAll(ns, h, phone) && h >= phone
    ensures GatheredAll(ns, h, phone, true) == Chars(SpellAll(ns, h, phone))
    decreases ns, 1
  {
    if ns != [] {
      GatheredSpells(ns[0], h, phone);
      GatheredAllSpell(ns[1..], h, phone);
      CharsJoin(Spell(ns[0], h, phone), SpellAll(ns[1..], h, phone));
    }
  }

  predicate Small(l: seq<Tok>) {
    forall k :: 0 <= k < |l| && l[k].Tok? ==> l[k].c < 256
  }

  lemma {:induction false} BuildPlain(tb: Tables, h: nat, l: seq<Tok>)
    requires l != [] && l[0].Tok? && tb.phone <= l[0].level <= h <= tb.top && Ends(tb, l) && Small(l)
    ensures Plain(Build(tb, h, l).0, h, tb.phone) && Small(Build(tb, h, l).1)
    decreases |l|, h, 1
  {
    var (ks, rest) := BuildAll(tb, h, l);
    BuildAllPlain(tb, h, l);
  }

  lemma {:induction false} BuildAllPlain(tb: Tables, h: nat, l: seq<Tok>)
    requires l != [] && (l[0].Tok? ==> tb.phone <= l[0].level) && tb.phone <= h <= tb.top && Ends(tb, l) && Small(l)
    ensures var (ns, rest) := BuildAll(tb, h, l);
            (if h > tb.phone then PlainAll(ns, h - 1, tb.phone) else ns == []) && Small(rest)
    decreases |l|, h, 0
  {
    if l[0].Tok? && l[0].level < h {
      var (n, rest) := Build(tb, h - 1, l);
      BuildPlain(tb, h - 1, l);
      BuildAllPlain(tb, h, rest);
      var ms := BuildAll(tb, h, rest).0;
      assert ([n] + ms)[1..] == ms;
    }
  }

  lemma {:induction false} SymbolsSmall(tb: Tables, text: seq<nat>, pos: nat, last: nat)
    requires Proper(tb) && Bytes(text) && pos <= |text|
    ensures Small(Symbols(tb, text, pos, last))
    decreases |text| - pos
  {
    if pos < |text| {
      var (c, next) := Lex(text, pos);
      var t := Relaxed(tb, c);
      if tb.lev[t] != ILL {
        if tb.phone < tb.lev[t] <= last {
          SymbolsSmall(tb, text, next, last);
        } else {
          SymbolsSmall(tb, text, next, tb.lev[t]);
        }
      }
    }
  }

  // A whole text is gathered as its symbols, except those that stand for no contents.
  lemma TextGathered(tb: Tables, l: seq<Tok>)
    requires tb.phone < tb.top && Ends(tb, l) && Small(l) && l[|l| - 1].Tok? && tb.phone <= l[0].level
    ensures Gathered(WholeUnit(tb, l), tb.top, tb.phone, true) == Chars(Said(l))
  {
    BuildPlain(tb, tb.top, l);
    GatheredSpells(WholeUnit(tb, l), tb.top, tb.phone);
    TextSpells(tb, l);
  }

  // So is a unit made of the first symbols of a row.
  lemma UnitGathered(tb: Tables, h: nat, l: seq<Tok>)
    requires l != [] && l[0].Tok? && tb.phone <= l[0].level <= h < tb.top && Ends(tb, l) && Small(l)
    ensures var (n, rest) := Build(tb, h, l);
            rest == l[|l| - |rest|..] && Gathered(n, h, tb.phone, true) == Chars(Said(Used(l, rest)))
  {
    BuildPlain(tb, h, l);
    GatheredSpells(Build(tb, h, l).0, h, tb.phone);
    BuildSpells(tb, h, l);
    assert Peek(h);
  }

  // The first symbol is a phone unless the first phone character, with what follows it, is read as a symbol of
  // a higher level.
  lemma FirstSymbol(tb: Tables, text: seq<nat>, p: nat)
    requires Proper(tb) && Bytes(text) && Start(tb, text, 0) == Some(p) && Symbols(tb, text, p, tb.phone)[0].Tok?
    ensures var l := Symbols(tb, text, p, tb.phone);
            if p == |text| then l == [Tok(0, tb.top)]
            else
              var t := Relaxed(tb, Lex(text, p).0);
              && l[0] == Tok(t, tb.lev[t])
              && (tb.lev[t] > tb.phone ==> Lex(text, p).0 != text[p] && text[p] in {45, 46})
  {
  }

  // Every text that parses is read back: as the symbols from its first phone on, except those that would end
  // an empty unit, and those that stand for no contents. Above the phones no unit is empty, except when the
  // text is, or when its first phone is a '-' or '.' that is read as a symbol of a higher level.
  lemma TextReadBack(tb: Tables, text: seq<nat>, p: nat)
    requires Proper(tb) && Bytes(text) && Start(tb, text, 0) == Some(p)
    requires var l := Symbols(tb, text, p, tb.phone); l[0].Tok? && l[|l| - 1].Tok?
    ensures var l := Symbols(tb, text, p, tb.phone);
            && Normal(tb, l, tb.phone) && tb.phone <= l[0].level <= tb.top
            && Gathered(WholeUnit(tb, l), tb.top, tb.phone, true) == Chars(Said(l))
            && (if p == |text| then WholeUnit(tb, l) == Node(0, [])
                else Full(WholeUnit(tb, l), tb.top, tb.phone) <==> tb.lev[Relaxed(tb, Lex(text, p).0)] == tb.phone)
  {
    var l := Symbols(tb, text, p, tb.phone);
    SymbolsNormal(tb, text, p, tb.phone);
    SymbolsSmall(tb, text, p, tb.phone);
    TextGathered(tb, l);
    FirstSymbol(tb, text, p);
    if p < |text| {
      assert tb.lev[Relaxed(tb, Lex(text, p).0)] < tb.top;
      TextFull(tb, l);
    }
  }

  // A text that makes an empty word: "-1", where '-' is a phone and the sign of a negative number ends a word.
  lemma DashFails()
    ensures var tb := Tables(seq(256, c => if c == 0 then 3 else if c == MINUS then 2 else 1), 1, 3, false, 65);
            var text: seq<nat> := [45, 49];
            && Proper(tb) && Bytes(text) && Start(tb, text, 0) == Some(0)
            && Symbols(tb, text, 0, 1) == [Tok(MINUS, 2), Tok(49, 1), Tok(0, 3)]
            && !Full(Build(tb, 3, [Tok(MINUS, 2), Tok(49, 1), Tok(0, 3)]).0, 3, 1)
  {
    var tb := Tables(seq(256, c => if c == 0 then 3 else if c == MINUS then 2 else 1), 1, 3, false, 65);
    var text: seq<nat> := [45, 49];
    assert Start(tb, text, 0) == Some(0);
    assert Lex(text, 0) == (MINUS, 1) && Lex(text, 1) == (49, 2);
    assert Symbols(tb, text, 2, 1) == [Tok(0, 3)];
    assert Symbols(tb, text, 1, 2) == [Tok(49, 1), Tok(0, 3)];
    assert Symbols(tb, text, 0, 1) == [Tok(MINUS, 2), Tok(49, 1), Tok(0, 3)];
    TextReadBack(tb, text, 0);
  }

  lemma FirstKid(at: Links, kids: Kids, x: Ref)
    requires Linked(at, kids) && x in at
    ensures at[x].first == (if kids[x] == [] then NULL else kids[x][0]) && (at[x].depth == 0 ==> kids[x] == [])
  {
    assert Look(x);
    if kids[x] != [] {
      PosIs(at, kids, x, 0);
    }
  }

  lemma NextKid(at: Links, kids: Kids, x: Ref, i: nat)
    requires Linked(at, kids) && x in at && i < |kids[x]|
    ensures var w := kids[x][i];
            && w in at && at[x].depth > 0 && at[w].depth == at[x].depth - 1
            && at[w].next == (if i + 1 < |kids[x]| then kids[x][i + 1] else NULL)
  {
    PosIs(at, kids, x, i);
  }

  // ---- gathering ---------------------------------------------------------------------------

  // Writes the contents of x from now on, short of end; it fails as soon as end is reached before a unit
  // has had its turn.
  method GatherInto(at: Links, ghost kids: Kids, x: Ref, buf: array<int>, now: nat, end: nat, all: bool, phone: nat,
                    ghost h: nat)
    returns (good: bool, next: nat)
    requires Linked(at, kids) && x in at && at[x].depth == h && now <= end <= buf.Length
    modifies buf
    ensures var n := Shape(at, kids, x, h);
            && good == (now + |Inner(n, h, phone, all)| < end)
            && (good ==>
                  next == now + |Gathered(n, h, phone, all)| <= end && buf[now..next] == Gathered(n, h, phone, all))
    ensures forall k :: 0 <= k < now ==> buf[k] == old(buf[k])
    decreases h, 1
  {
    ghost var n := Shape(at, kids, x, h);
    good, next := GatherKids(at, kids, x, buf, now, end, all, phone, h);
    if good && next >= end {
      good := false;
    }
    if good && at[x].cont != NO_CONT && (at[x].depth == phone || (all && at[x].depth > phone)) {
      ghost var was := buf[now..next];
      buf[next] := at[x].cont % 256;
      assert buf[now..next] == was;
      next := next + 1;
    }
  }

  // Writes the contents of the i-th child, u.
  method GatherChild(at: Links, ghost kids: Kids, u: Ref, buf: array<int>, ghost now: nat, cur: nat, end: nat,
                     all: bool, phone: nat,
                     ghost ns: seq<Node>, ghost i: nat, ghost h: nat)
    returns (good: bool, next: nat)
    requires Linked(at, kids) && u in at && at[u].depth == h && cur <= end <= buf.Length
    requires Written(buf[..], now, cur, ns, i, h, phone, all) && i < |ns| && ns[i] == Shape(at, kids, u, h)
    modifies buf
    ensures good ==> next <= end && Written(buf[..], now, next, ns, i + 1, h, phone, all)
    ensures !good ==> now + |GatheredAll(ns, h, phone, all)| >= end
    ensures forall k :: 0 <= k < now ==> buf[k] == old(buf[k])
    decreases h, 2
  {
    GatheredNext(ns, i, h, phone, all);
    good, next := GatherInto(at, kids, u, buf, cur, end, all, phone, h);
    if good {
      WrittenNext(old(buf[..]), buf[..], now, cur, next, ns, i, h, phone, all);
    }
  }

  // Writes the contents of the children of x.
  method GatherKids(at: Links, ghost kids: Kids, x: Ref, buf: array<int>, now: nat, end: nat, all: bool, phone: nat,
                    ghost h: nat)
    returns (good: bool, next: nat)
    requires Linked(at, kids) && x in at && at[x].depth == h && now <= end <= buf.Length
    modifies buf
    ensures var l := Inner(Shape(at, kids, x, h), h, phone, all);
            && next <= end && (good && next < end ==> next == now + |l| && now <= next && buf[now..next] == l)
            && (!(good && next < end) ==> now + |l| >= end)
    ensures forall k :: 0 <= k < now ==> buf[k] == old(buf[k])
    decreases h, 0
  {
    ghost var ks, i := kids[x], 0;
    ghost var ns := if h == 0 then [] else Shapes(at, kids, ks, h - 1);
    FirstKid(at, kids, x);
    var u := at[x].first;
    good, next := true, now;
    assert ns[..0] == [];
    while u != NULL && next < end
      invariant i <= |ks| && u == (if i < |ks| then ks[i] else NULL) && next <= end && |ns| == |ks|
      invariant h > 0 ==> Written(buf[..], now, next, ns, i, h - 1, phone, all)
      invariant h == 0 ==> next == now
      invariant forall k :: 0 <= k < now ==> buf[k] == old(buf[k])
      decreases |ks| - i
    {
      NextKid(at, kids, x, i);
      ShapeAt(at, kids, ks, h - 1, i);
      good, next := GatherChild(at, kids, u, buf, now, next, end, all, phone, ns, i, h - 1);
      if !good {
        next := end;
        return;
      }
      u := at[u].next;
      i := i + 1;
    }
    KidsGathered(at, kids, x, buf[..], now, next, end, ns, i, h, phone, all);
  }

  // Where the walk over the children of x ends.
  lemma KidsGathered(at: Links, kids: Kids, x: Ref, buf: seq<int>, now: nat, next: nat, end: nat, ns: seq<Node>,
                     i: nat, h: nat,
                     phone: nat, all: bool)
    requires Linked(at, kids) && x in at && at[x].depth == h && i <= |kids[x]| && now <= next <= end <= |buf|
    requires ns == if h == 0 then [] else Shapes(at, kids, kids[x], h - 1)
    requires if h > 0 then Written(buf, now, next, ns, i, h - 1, phone, all) else next == now
    requires i < |kids[x]| ==> next == end || kids[x][i] == NULL
    ensures var l := Inner(Shape(at, kids, x, h), h, phone, all);
            && (next < end ==> next == now + |l| && buf[now..next] == l) && (next == end ==> now + |l| >= end)
  {
    assert i == |ns| ==> ns[..i] == ns;
    if i < |kids[x]| {
      NextKid(at, kids, x, i);
    }
  }

  // The characters that stand for the ends of a unit.
  const BEGIN := 94
  const END := 36

  // The buffer that units are gathered in; it grows, and is never given back.
  class Gatherer {
    var gb: array<int>

    constructor ()
      ensures fresh(gb) && gb.Length == 8
    {
      gb := new int[8];
    }

    // The contents of x, between the characters for its ends if so wished, ended by a zero. It fails when
    // they do not fit a buffer that may not grow any more.
    method Gather(at: Links, ghost kids: Kids, x: Ref, delimited: bool, all: bool, phone: nat, maxtext: nat)
      returns (good: bool, l: nat)
      requires Linked(at, kids) && x in at && gb.Length >= 4
      modifies this, gb
      ensures gb.Length >= old(gb.Length) && (gb == old(gb) || fresh(gb))
      ensures var out := Gathered(Shape(at, kids, x, at[x].depth), at[x].depth, phone, all);
              && (good ==> l < gb.Length && gb[l] == 0
                           && gb[..l] == if delimited then [94] + out + [36] else out)
              && (!good ==> gb.Length >= maxtext && |out| + 3 >= gb.Length)
    {
      ghost var n := Shape(at, kids, x, at[x].depth);
      var r: nat := 0;
      good := false;
      while !good
        invariant gb.Length >= 4 && gb.Length >= old(gb.Length) && (gb == old(gb) || fresh(gb))
        invariant good ==> var b := if delimited then 1 else 0;
                           && b <= r <= gb.Length - 2 && gb[b..r] == Gathered(n, at[x].depth, phone, all)
                           && (delimited ==> gb[0] == BEGIN)
        decreases !good, maxtext - gb.Length
      {
        var b := 0;
        if delimited {
          gb[0] := BEGIN;
          b := 1;
        }
        good, r := GatherInto(at, kids, x, gb, b, gb.Length - 2, all, phone, at[x].depth);
        if !good {
          if gb.Length >= maxtext {
            return false, 0;
          }
          gb := new int[gb.Length * 2];
        }
      }
      l := r;
      ghost var b, out := if delimited then 1 else 0, gb[if delimited then 1 else 0..r];
      if delimited {
        gb[l] := END;
        l := l + 1;
        assert gb[b..r] == out && gb[..l] == [gb[0]] + gb[b..r] + [gb[r]];
      }
      gb[l] := 0;
      assert gb[b..r] == out;
    }
  }
}
