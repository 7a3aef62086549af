// A pattern's bytes have one meaning: all their canonical readings denote the same language.
module RxUnique {
  import opened RxBytes
  import opened RxSyntax
  import opened RxLang
  import opened RxReading
  import opened RxSteps

  // ---- texts from their beginning ---------------------------------------------------------------

  lemma Cancel(a: seq<Byte>, x: seq<Byte>, y: seq<Byte>)
    requires a + x == a + y
    ensures x == y
  {
    assert (a + x)[|a|..] == x && (a + y)[|a|..] == y;
  }

  lemma Triple(a: seq<Byte>, b: seq<Byte>, c: seq<Byte>)
    ensures (a + b) + c == a + (b + c)
  {
  }

  lemma Fourth(a: seq<Byte>, b: seq<Byte>, c: seq<Byte>, d: seq<Byte>)
    ensures ((a + b) + c) + d == a + (b + (c + d))
  {
  }

  lemma {:induction false} LitsCons(l: Lit, ls: seq<Lit>)
    ensures TextLits([l] + ls) == TextLit(l) + TextLits(ls)
  {
    var t := [l] + ls;
    if ls == [] {
      assert t[..0] == [];
    } else {
      var k := |ls| - 1;
      assert t[..|t| - 1] == [l] + ls[..k] && t[|t| - 1] == ls[k];
      LitsCons(l, ls[..k]);
      Triple(TextLit(l), TextLits(ls[..k]), TextLit(ls[k]));
    }
  }

  lemma {:induction false} ItemsCons(it: Item, items: seq<Item>)
    ensures TextItems([it] + items) == TextItem(it) + TextItems(items)
  {
    var t := [it] + items;
    if items == [] {
      assert t[..0] == [];
    } else {
      var k := |items| - 1;
      assert t[..|t| - 1] == [it] + items[..k] && t[|t| - 1] == items[k];
      ItemsCons(it, items[..k]);
      Triple(TextItem(it), TextItems(items[..k]), TextItem(items[k]));
    }
  }

  lemma {:induction false} OpsCons(op: Op, ops: seq<Op>)
    ensures TextOps([op] + ops) == TextOp(op) + TextOps(ops)
  {
    var t := [op] + ops;
    if ops == [] {
      assert t[..0] == [];
    } else {
      var k := |ops| - 1;
      assert t[..|t| - 1] == [op] + ops[..k] && t[|t| - 1] == ops[k];
      OpsCons(op, ops[..k]);
      Triple(TextOp(op), TextOps(ops[..k]), TextOp(ops[k]));
    }
  }

  lemma {:induction false} BranchCons(c: Chunk, cs: seq<Chunk>)
    ensures TextBranch([c] + cs) == TextChunk(c) + TextBranch(cs)
    decreases |cs|
  {
    var t := [c] + cs;
    if cs == [] {
      assert t[..0] == [];
    } else {
      var k := |cs| - 1;
      assert t[..|t| - 1] == [c] + cs[..k] && t[|t| - 1] == cs[k];
      BranchCons(c, cs[..k]);
      Triple(TextChunk(c), TextBranch(cs[..k]), TextChunk(cs[k]));
    }
  }

  lemma {:induction false} DoneCons(b: Branch, alts: seq<Branch>)
    ensures TextDone([b] + alts) == (TextBranch(b.chunks) + [BACKSLASH, BAR]) + TextDone(alts)
    decreases |alts|
  {
    var t := [b] + alts;
    if alts == [] {
      assert t[..0] == [];
      assert [] + TextBranch(b.chunks) == TextBranch(b.chunks);
    } else {
      var k := |alts| - 1;
      assert t[..|t| - 1] == [b] + alts[..k] && t[|t| - 1] == alts[k];
      DoneCons(b, alts[..k]);
      var h, m, e := TextBranch(b.chunks) + [BACKSLASH, BAR], TextDone(alts[..k]), TextBranch(alts[k].chunks);
      assert ((h + m) + e) + [BACKSLASH, BAR] == h + ((m + e) + [BACKSLASH, BAR]);
    }
  }

  // What follows the first alternative of several, or of one.
  function Further(alts: seq<Branch>, z: seq<Byte>): (t: seq<Byte>)
    requires alts != []
  {
    if |alts| == 1 then z else [BACKSLASH, BAR] + (TextAlts(alts[1..]) + z)
  }

  lemma AltsMore(alts: seq<Branch>)
    requires |alts| > 1
    ensures TextAlts(alts) == (TextBranch(alts[0].chunks) + [BACKSLASH, BAR]) + TextAlts(alts[1..])
  {
    var k := |alts| - 1;
    var b, mid := alts[0], alts[1..][..k - 1];
    assert alts[..k] == [b] + mid && alts[1..][k - 1] == alts[k];
    DoneCons(b, mid);
    Triple(TextBranch(b.chunks) + [BACKSLASH, BAR], TextDone(mid), TextBranch(alts[k].chunks));
  }

  lemma AltsText(alts: seq<Branch>, z: seq<Byte>)
    requires alts != []
    ensures TextAlts(alts) + z == TextBranch(alts[0].chunks) + Further(alts, z)
  {
    if |alts| == 1 {
      assert alts[..0] == [] && [] + TextBranch(alts[0].chunks) == TextBranch(alts[0].chunks);
    } else {
      AltsMore(alts);
      Fourth(TextBranch(alts[0].chunks), [BACKSLASH, BAR], TextAlts(alts[1..]), z);
    }
  }

  // ---- bracket lists ----------------------------------------------------------------------------

  // The text of a list from its k-th item on, and what follows it.
  function ListEnd(xs: seq<Item>, k: nat, z: seq<Byte>): (t: seq<Byte>)
    requires k <= |xs|
  {
    TextItems(xs[k..]) + ([RBRACK] + z)
  }

  lemma ListEndIs(xs: seq<Item>, k: nat, z: seq<Byte>)
    requires k <= |xs|
    ensures k == |xs| ==> ListEnd(xs, k, z) == [RBRACK] + z
    ensures k < |xs| ==> ListEnd(xs, k, z) == TextItem(xs[k]) + ListEnd(xs, k + 1, z)
    ensures ListEnd(xs, k, z) != [] && ListEnd(xs, k, z)[0] == if k == |xs| then RBRACK else FirstByte(xs[k])
  {
    if k < |xs| {
      assert xs[k..] == [xs[k]] + xs[k + 1..];
      ItemsCons(xs[k], xs[k + 1..]);
      Triple(TextItem(xs[k]), TextItems(xs[k + 1..]), [RBRACK] + z);
    } else {
      assert xs[k..] == [] && TextItems([]) == [];
    }
  }

  // A hyphen after a byte that stands for itself is the last byte of the list.
  lemma HyphenLast(xs: seq<Item>, k: nat, z: seq<Byte>)
    requires PlainItems(xs) && k < |xs| && xs[k].One? && ListEnd(xs, k + 1, z)[..1] == [DASH]
    ensures |ListEnd(xs, k + 1, z)| > 1 && ListEnd(xs, k + 1, z)[1] == RBRACK
  {
    ListEndIs(xs, k + 1, z);
    assert ListEnd(xs, k + 1, z)[..1][0] == DASH;
    assert ItemAfter(xs[k], xs[k + 1]) && HyphenOk(xs, k + 1);
    ListEndIs(xs, k + 2, z);
  }

  // What the bytes after the first one of an item say of it.
  lemma NextBytes(xs: seq<Item>, k: nat, z: seq<Byte>)
    requires PlainItems(xs) && k < |xs|
    ensures var t := ListEnd(xs, k, z);
            && |t| > 1 && (xs[k].Joined? ==> t[1] == xs[k].b)
            && (xs[k].Range? ==> |t| > 2 && t[1] == DASH && t[2] == xs[k].b)
            && (xs[k].One? && t[1] == DASH ==> |t| > 2 && t[2] == RBRACK)
            && (xs[k] == One(DASH) && k > 0 && t[1] != RBRACK ==> !xs[k - 1].One? && LastByte(xs[k - 1]) == LBRACK)
  {
    ListEndIs(xs, k, z);
    ListEndIs(xs, k + 1, z);
    var t, u := ListEnd(xs, k, z), ListEnd(xs, k + 1, z);
    assert HyphenOk(xs, k);
    if xs[k].One? {
      assert t[1..] == u;
      if u[0] == DASH {
        assert u[..1] == [DASH];
        HyphenLast(xs, k, z);
      }
    }
  }

  // Two items of different kinds at the same place of two lists would be followed by different bytes.
  lemma SameItem(xs: seq<Item>, ys: seq<Item>, k: nat, z: seq<Byte>, w: seq<Byte>)
    requires PlainItems(xs) && PlainItems(ys) && k < |xs| && k < |ys| && xs[..k] == ys[..k]
    requires ListEnd(xs, k, z) == ListEnd(ys, k, w)
    ensures xs[k] == ys[k]
  {
    ListEndIs(xs, k, z);
    ListEndIs(ys, k, w);
    NextBytes(xs, k, z);
    NextBytes(ys, k, w);
    if k > 0 {
      assert xs[k - 1] == xs[..k][k - 1] == ys[k - 1];
      assert ItemAfter(xs[k - 1], xs[k]) && ItemAfter(ys[k - 1], ys[k]);
    }
  }

  lemma NextItem(xs: seq<Item>, ys: seq<Item>, k: nat, z: seq<Byte>, w: seq<Byte>)
    requires PlainItems(xs) && PlainItems(ys) && k < |xs| && k < |ys| && xs[..k] == ys[..k]
    requires ListEnd(xs, k, z) == ListEnd(ys, k, w)
    ensures xs[..k + 1] == ys[..k + 1] && ListEnd(xs, k + 1, z) == ListEnd(ys, k + 1, w)
  {
    SameItem(xs, ys, k, z, w);
    ListEndIs(xs, k, z);
    ListEndIs(ys, k, w);
    Cancel(TextItem(xs[k]), ListEnd(xs, k + 1, z), ListEnd(ys, k + 1, w));
    assert xs[..k + 1] == xs[..k] + [xs[k]] && ys[..k + 1] == ys[..k] + [ys[k]];
  }

  // A list that is not at its end does not go on with a closing bracket, except at its beginning.
  lemma NotClosed(xs: seq<Item>, k: nat, z: seq<Byte>)
    requires PlainItems(xs) && 0 < k < |xs|
    ensures ListEnd(xs, k, z) != [] && ListEnd(xs, k, z)[0] != RBRACK
  {
    ListEndIs(xs, k, z);
    assert ItemAfter(xs[k - 1], xs[k]);
  }

  lemma {:induction false} ItemsSame(xs: seq<Item>, ys: seq<Item>, k: nat, z: seq<Byte>, w: seq<Byte>)
    requires PlainItems(xs) && PlainItems(ys) && k <= |xs| && k <= |ys| && xs[..k] == ys[..k]
    requires ListEnd(xs, k, z) == ListEnd(ys, k, w)
    ensures xs == ys && z == w
    decreases |xs| - k
  {
    if k < |xs| && k < |ys| {
      NextItem(xs, ys, k, z, w);
      ItemsSame(xs, ys, k + 1, z, w);
    } else {
      ListEndIs(xs, k, z);
      ListEndIs(ys, k, w);
      if k < |xs| { NotClosed(xs, k, z); }
      if k < |ys| { NotClosed(ys, k, w); }
      Cancel([RBRACK], z, w);
      assert xs == xs[..k] && ys == ys[..k];
    }
  }

  // ---- operators ----------------------------------------------------------------------------------

  // No operator begins here.
  predicate Quiet(z: seq<Byte>) { !OpAt(z, 0) }

  lemma OpsText(ops: seq<Op>, z: seq<Byte>)
    requires ops != []
    ensures TextOps(ops) + z == TextOp(ops[0]) + (TextOps(ops[1..]) + z)
  {
    assert ops == [ops[0]] + ops[1..];
    OpsCons(ops[0], ops[1..]);
    Triple(TextOp(ops[0]), TextOps(ops[1..]), z);
  }

  // What an operator's text begins with says which operator it is.
  lemma OpRead(op: Op, op': Op, t: seq<Byte>, t': seq<Byte>)
    ensures OpAt(TextOp(op) + t, 0)
    ensures TextOp(op) + t == TextOp(op') + t' ==> op == op' && t == t'
  {
    var x, y := TextOp(op) + t, TextOp(op') + t';
    assert x[0] == TextOp(op)[0] && y[0] == TextOp(op')[0];
    if op != Star { assert x[1] == TextOp(op)[1]; }
    if op' != Star { assert y[1] == TextOp(op')[1]; }
    if x == y { Cancel(TextOp(op), t, t'); }
  }

  lemma OpsStart(ops: seq<Op>, z: seq<Byte>)
    requires ops != []
    ensures OpAt(TextOps(ops) + z, 0)
  {
    OpsText(ops, z);
    OpRead(ops[0], ops[0], TextOps(ops[1..]) + z, []);
  }

  lemma {:induction false} OpsSame(ops: seq<Op>, ops': seq<Op>, z: seq<Byte>, w: seq<Byte>)
    requires TextOps(ops) + z == TextOps(ops') + w && Quiet(z) && Quiet(w)
    ensures ops == ops' && z == w
  {
    if ops == [] {
      assert TextOps([]) + z == z;
      if ops' != [] { OpsStart(ops', w); } else { assert TextOps([]) + w == w; }
    } else if ops' == [] {
      assert TextOps([]) + w == w;
      OpsStart(ops, z);
    } else {
      OpsText(ops, z);
      OpsText(ops', w);
      OpRead(ops[0], ops'[0], TextOps(ops[1..]) + z, TextOps(ops'[1..]) + w);
      OpsSame(ops[1..], ops'[1..], z, w);
      assert ops == [ops[0]] + ops[1..] && ops' == [ops'[0]] + ops'[1..];
    }
  }

  // ---- runs taken apart -----------------------------------------------------------------------------

  function Singles(ls: seq<Lit>): (cs: seq<Chunk>) {
    if ls == [] then [] else [Rep(AChar(ls[0]), [])] + Singles(ls[1..])
  }

  // A branch with its runs taken apart, character by character.
  function Spread(cs: seq<Chunk>): (ds: seq<Chunk>) {
    if cs == [] then []
    else (if cs[0].Run? then Singles(cs[0].lits) else [cs[0]]) + Spread(cs[1..])
  }

  predicate Loose(cs: seq<Chunk>, first: bool) {
    forall k :: 0 <= k < |cs| ==> cs[k].Rep? && PlainAtom(cs[k].atom, first && k == 0)
  }

  lemma {:induction false} SinglesLoose(ls: seq<Lit>, first: bool)
    requires PlainLits(ls, first)
    ensures Loose(Singles(ls), first) && (ls != [] ==> Singles(ls) != [])
  {
    if ls != [] {
      SinglesLoose(ls[1..], false);
    }
  }

  lemma LooseJoin(cs: seq<Chunk>, ds: seq<Chunk>, first: bool)
    requires Loose(cs, first) && cs != [] && Loose(ds, false)
    ensures Loose(cs + ds, first)
  {
  }

  lemma {:induction false} SpreadLoose(cs: seq<Chunk>, first: bool)
    requires forall k :: 0 <= k < |cs| ==> PlainChunk(cs[k], first && k == 0)
    ensures Loose(Spread(cs), first)
  {
    if cs != [] {
      SpreadLoose(cs[1..], false);
      if cs[0].Run? {
        SinglesLoose(cs[0].lits, first);
        LooseJoin(Singles(cs[0].lits), Spread(cs[1..]), first);
      } else {
        LooseJoin([cs[0]], Spread(cs[1..]), first);
      }
    }
  }

  lemma {:induction false} TextJoin(cs: seq<Chunk>, ds: seq<Chunk>)
    ensures TextBranch(cs + ds) == TextBranch(cs) + TextBranch(ds)
  {
    if cs == [] {
      assert cs + ds == ds;
    } else {
      assert cs + ds == [cs[0]] + (cs[1..] + ds) && cs == [cs[0]] + cs[1..];
      TextJoin(cs[1..], ds);
      BranchCons(cs[0], cs[1..] + ds);
      BranchCons(cs[0], cs[1..]);
      Triple(TextChunk(cs[0]), TextBranch(cs[1..]), TextBranch(ds));
    }
  }

  lemma {:induction false} SinglesText(ls: seq<Lit>)
    ensures TextBranch(Singles(ls)) == TextLits(ls)
  {
    if ls != [] {
      SinglesText(ls[1..]);
      assert ls == [ls[0]] + ls[1..];
      LitsCons(ls[0], ls[1..]);
      var c := Rep(AChar(ls[0]), []);
      BranchCons(c, Singles(ls[1..]));
      assert TextOps([]) == [] && TextChunk(c) == TextLit(ls[0]);
    }
  }

  lemma ChunkSpread(c: Chunk)
    ensures TextBranch(if c.Run? then Singles(c.lits) else [c]) == TextChunk(c)
  {
    if c.Run? {
      SinglesText(c.lits);
    } else {
      BranchCons(c, []);
      assert [c] + [] == [c] && TextBranch([]) == [] && TextChunk(c) + [] == TextChunk(c);
    }
  }

  lemma {:induction false} SpreadText(cs: seq<Chunk>)
    ensures TextBranch(Spread(cs)) == TextBranch(cs)
  {
    if cs != [] {
      SpreadText(cs[1..]);
      ChunkSpread(cs[0]);
      assert cs == [cs[0]] + cs[1..];
      BranchCons(cs[0], cs[1..]);
      TextJoin(if cs[0].Run? then Singles(cs[0].lits) else [cs[0]], Spread(cs[1..]));
    }
  }

  lemma HeadMatch(t: seq<Chunk>, s: seq<Byte>, i: int, j: int) returns (k: int)
    requires t != [] && MatchBranch(t, s, i, j)
    ensures MatchChunk(t[0], s, i, k) && MatchBranch(t[1..], s, k, j)
  {
    k :| MatchChunk(t[0], s, i, k) && MatchBranch(t[1..], s, k, j);
  }

  lemma MatchHead(t: seq<Chunk>, s: seq<Byte>, i: int, j: int)
    requires t != []
    ensures MatchBranch(t, s, i, j) <==> exists k :: MatchChunk(t[0], s, i, k) && MatchBranch(t[1..], s, k, j)
  {
    if MatchBranch(t, s, i, j) {
      var k := HeadMatch(t, s, i, j);
      assert MatchChunk(t[0], s, i, k) && MatchBranch(t[1..], s, k, j);
    }
  }

  lemma MatchCons(c: Chunk, cs: seq<Chunk>, s: seq<Byte>, i: int, j: int)
    ensures MatchBranch([c] + cs, s, i, j) <==> exists k :: MatchChunk(c, s, i, k) && MatchBranch(cs, s, k, j)
  {
    assert ([c] + cs)[1..] == cs;
    MatchHead([c] + cs, s, i, j);
  }

  lemma CharIs(l: Lit, s: seq<Byte>, i: int, j: int)
    ensures MatchChunk(Rep(AChar(l), []), s, i, j) <==> 0 <= i < |s| && j == i + 1 && s[i] == l.c
  {
  }

  lemma {:induction false} SinglesMatch(ls: seq<Lit>, cs: seq<Chunk>, s: seq<Byte>, i: int, j: int)
    requires ls != []
    ensures MatchBranch(Singles(ls) + cs, s, i, j) <==>
              MatchChunk(Run(ls), s, i, i + |ls|) && MatchBranch(cs, s, i + |ls|, j)
  {
    var c := Rep(AChar(ls[0]), []);
    var rest := Singles(ls[1..]) + cs;
    assert Singles(ls) + cs == [c] + rest;
    MatchCons(c, rest, s, i, j);
    forall k ensures MatchChunk(c, s, i, k) <==> 0 <= i < |s| && k == i + 1 && s[i] == ls[0].c {
      CharIs(ls[0], s, i, k);
    }
    if |ls| > 1 {
      SinglesMatch(ls[1..], cs, s, i + 1, j);
      RunMore(ls, s, i);
    } else {
      assert rest == cs;
      if 0 <= i < |s| && s[i] == ls[0].c && MatchBranch(cs, s, i + 1, j) {
        assert MatchChunk(c, s, i, i + 1);
      }
    }
    if 0 <= i < |s| && s[i] == ls[0].c && MatchBranch(rest, s, i + 1, j) {
      assert MatchChunk(c, s, i, i + 1);
    }
  }

  ghost predicate Spells(ls: seq<Lit>, s: seq<Byte>, i: int)
    requires 0 <= i && i + |ls| <= |s|
  {
    forall t :: 0 <= t < |ls| ==> s[i + t] == ls[t].c
  }

  lemma SpellsMore(ls: seq<Lit>, s: seq<Byte>, i: int)
    requires ls != [] && 0 <= i && i + |ls| <= |s|
    requires s[i] == ls[0].c && Spells(ls[1..], s, i + 1)
    ensures Spells(ls, s, i)
  {
    forall t | 0 <= t < |ls| ensures s[i + t] == ls[t].c {
      if t > 0 {
        assert s[i + 1 + (t - 1)] == ls[1..][t - 1].c;
      }
    }
  }

  lemma SpellsLess(ls: seq<Lit>, s: seq<Byte>, i: int)
    requires ls != [] && 0 <= i && i + |ls| <= |s| && Spells(ls, s, i)
    ensures s[i] == ls[0].c && Spells(ls[1..], s, i + 1)
  {
    assert s[i + 0] == ls[0].c;
    forall t | 0 <= t < |ls| - 1 ensures s[i + 1 + t] == ls[1..][t].c {
      assert s[i + (t + 1)] == ls[t + 1].c;
    }
  }

  lemma RunIs(ls: seq<Lit>, s: seq<Byte>, i: int)
    ensures MatchChunk(Run(ls), s, i, i + |ls|) <==> 0 <= i && i + |ls| <= |s| && Spells(ls, s, i)
  {
  }

  lemma RunMore(ls: seq<Lit>, s: seq<Byte>, i: int)
    requires |ls| > 1
    ensures MatchChunk(Run(ls), s, i, i + |ls|)
            <==> 0 <= i < |s| && s[i] == ls[0].c && MatchChunk(Run(ls[1..]), s, i + 1, i + |ls|)
  {
    RunIs(ls, s, i);
    RunIs(ls[1..], s, i + 1);
    if 0 <= i && i + |ls| <= |s| {
      if s[i] == ls[0].c && Spells(ls[1..], s, i + 1) { SpellsMore(ls, s, i); }
      if Spells(ls, s, i) { SpellsLess(ls, s, i); }
    }
  }

  lemma {:induction false} SpreadMatch(cs: seq<Chunk>, s: seq<Byte>, i: int, j: int)
    requires forall k :: 0 <= k < |cs| && cs[k].Run? ==> cs[k].lits != []
    ensures MatchBranch(Spread(cs), s, i, j) <==> MatchBranch(cs, s, i, j)
    decreases |cs|
  {
    if cs != [] {
      var rest := cs[1..];
      forall k ensures MatchBranch(Spread(rest), s, k, j) <==> MatchBranch(rest, s, k, j) {
        SpreadMatch(rest, s, k, j);
      }
      if cs[0].Run? {
        var ls := cs[0].lits;
        SinglesMatch(ls, Spread(rest), s, i, j);
        assert MatchBranch(cs, s, i, j) <==> MatchChunk(cs[0], s, i, i + |ls|) && MatchBranch(rest, s, i + |ls|, j);
      } else {
        MatchCons(cs[0], Spread(rest), s, i, j);
        MatchCons(cs[0], rest, s, i, j);
        assert cs == [cs[0]] + rest;
      }
    }
  }

  // ---- readings that mean the same ------------------------------------------------------------------

  ghost predicate SameAtom(a: Atom, b: Atom) {
    forall s, i, j :: MatchAtom(a, s, i, j) <==> MatchAtom(b, s, i, j)
  }

  ghost predicate SameChunk(c: Chunk, d: Chunk) {
    forall s, i, j :: MatchChunk(c, s, i, j) <==> MatchChunk(d, s, i, j)
  }

  ghost predicate SameBranch(cs: seq<Chunk>, ds: seq<Chunk>) {
    forall s, i, j :: MatchBranch(cs, s, i, j) <==> MatchBranch(ds, s, i, j)
  }

  ghost predicate SameAlts(a: seq<Branch>, b: seq<Branch>) {
    forall s, i, j :: MatchAlts(a, s, i, j) <==> MatchAlts(b, s, i, j)
  }

  lemma NestMono(R: Lang, Q: Lang, ops: seq<Op>, i: int, j: int)
    requires Nest(R, ops, i, j) && forall x, y :: R(x, y) ==> Q(x, y)
    ensures Nest(Q, ops, i, j)
  {
    NestIsCollapsed(R, ops, i, j);
    NestIsCollapsed(Q, ops, i, j);
    if ManyOk(ops) && exists n: nat :: n > 0 && Pow(R, n, i, j) {
      var n: nat :| n > 0 && Pow(R, n, i, j);
      PowMono(R, Q, n, i, j);
    }
  }

  lemma RepMono(a: Atom, b: Atom, ops: seq<Op>, s: seq<Byte>, i: int, j: int)
    requires SameAtom(a, b) && MatchChunk(Rep(a, ops), s, i, j)
    ensures MatchChunk(Rep(b, ops), s, i, j)
  {
    NestMono((x, y) => MatchAtom(a, s, x, y), (x, y) => MatchAtom(b, s, x, y), ops, i, j);
  }

  lemma RepSame(a: Atom, b: Atom, ops: seq<Op>)
    requires SameAtom(a, b)
    ensures SameChunk(Rep(a, ops), Rep(b, ops))
  {
    forall s, i, j ensures MatchChunk(Rep(a, ops), s, i, j) <==> MatchChunk(Rep(b, ops), s, i, j) {
      if MatchChunk(Rep(a, ops), s, i, j) { RepMono(a, b, ops, s, i, j); }
      if MatchChunk(Rep(b, ops), s, i, j) { RepMono(b, a, ops, s, i, j); }
    }
  }

  lemma BranchSame(c: Chunk, d: Chunk, cs: seq<Chunk>, ds: seq<Chunk>)
    requires SameChunk(c, d) && SameBranch(cs, ds)
    ensures SameBranch([c] + cs, [d] + ds)
  {
    forall s, i, j ensures MatchBranch([c] + cs, s, i, j) <==> MatchBranch([d] + ds, s, i, j) {
      if MatchBranch([c] + cs, s, i, j) { BranchMono(c, d, cs, ds, s, i, j); }
      if MatchBranch([d] + ds, s, i, j) { BranchMono(d, c, ds, cs, s, i, j); }
    }
  }

  lemma BranchMono(c: Chunk, d: Chunk, cs: seq<Chunk>, ds: seq<Chunk>, s: seq<Byte>, i: int, j: int)
    requires SameChunk(c, d) && SameBranch(cs, ds) && MatchBranch([c] + cs, s, i, j)
    ensures MatchBranch([d] + ds, s, i, j)
  {
    MatchCons(c, cs, s, i, j);
    MatchCons(d, ds, s, i, j);
    var k :| MatchChunk(c, s, i, k) && MatchBranch(cs, s, k, j);
    assert MatchChunk(d, s, i, k) && MatchBranch(ds, s, k, j);
  }

  lemma AltsCons(alts: seq<Branch>, s: seq<Byte>, i: int, j: int)
    requires alts != []
    ensures MatchAlts(alts, s, i, j) <==> MatchBranch(alts[0].chunks, s, i, j) || MatchAlts(alts[1..], s, i, j)
  {
    var rest := alts[1..];
    if MatchAlts(alts, s, i, j) {
      var k :| 0 <= k < |alts| && MatchBranch(alts[k].chunks, s, i, j);
      if k > 0 { assert rest[k - 1] == alts[k]; }
    }
    if MatchAlts(rest, s, i, j) {
      var k :| 0 <= k < |rest| && MatchBranch(rest[k].chunks, s, i, j);
      assert alts[k + 1] == rest[k];
    }
  }

  lemma AltsSameCons(a: seq<Branch>, b: seq<Branch>)
    requires a != [] && b != [] && SameBranch(a[0].chunks, b[0].chunks) && SameAlts(a[1..], b[1..])
    ensures SameAlts(a, b)
  {
    forall s, i, j ensures MatchAlts(a, s, i, j) <==> MatchAlts(b, s, i, j) {
      AltsCons(a, s, i, j);
      AltsCons(b, s, i, j);
    }
  }

  // ---- one meaning -----------------------------------------------------------------------------------

  // A branch ends here: with the pattern, or before \| or \).
  predicate Stops(z: seq<Byte>) {
    z == [] || (|z| >= 2 && z[0] == BACKSLASH && z[1] in {BAR, RPAREN})
  }

  predicate Closes(z: seq<Byte>) {
    z == [] || (|z| >= 2 && z[0] == BACKSLASH && z[1] == RPAREN)
  }

  // How the text of an atom begins.
  lemma AtomBegins(a: Atom, first: bool, z: seq<Byte>)
    requires PlainAtom(a, first)
    ensures var t := TextAtom(a) + z;
            && t != [] && !Stops(t) && (!first ==> Quiet(t))
            && (t[0] == LBRACK <==> a.ASet?) && (t[0] == DOT <==> a.ADot?)
            && (t[0] == BACKSLASH && |t| > 1 && t[1] == LPAREN <==> a.AGroup?)
  {
    if a.AGroup? {
      GroupText(a, z);
    }
  }

  lemma GroupText(a: Atom, z: seq<Byte>)
    requires a.AGroup? && a.alts != []
    ensures TextAtom(a) + z == [BACKSLASH, LPAREN] + (TextAlts(a.alts) + ([BACKSLASH, RPAREN] + z))
  {
    var h: seq<Byte>, e: seq<Byte> := [BACKSLASH, LPAREN], [BACKSLASH, RPAREN];
    var m, l := TextDone(a.alts[..|a.alts| - 1]), TextBranch(a.alts[|a.alts| - 1].chunks);
    assert (h + m + l + e) + z == h + ((m + l) + (e + z));
  }

  lemma SetText(a: Atom, z: seq<Byte>)
    requires a.ASet?
    ensures TextAtom(a) + z == [LBRACK] + ((if a.neg then [CARET] else []) + ListEnd(a.items, 0, z))
  {
    var n: seq<Byte> := if a.neg then [CARET] else [];
    assert a.items[0..] == a.items;
    assert ([LBRACK] + n + TextItems(a.items) + [RBRACK]) + z == [LBRACK] + (n + (TextItems(a.items) + ([RBRACK] + z)));
  }

  lemma SetsSame(a: Atom, b: Atom, z: seq<Byte>, w: seq<Byte>)
    requires a.ASet? && b.ASet? && PlainAtom(a, false) && PlainAtom(b, false) && TextAtom(a) + z == TextAtom(b) + w
    ensures a == b && z == w
  {
    SetText(a, z);
    SetText(b, w);
    ListEndIs(a.items, 0, z);
    ListEndIs(b.items, 0, w);
    var n: seq<Byte>, m: seq<Byte> := if a.neg then [CARET] else [], if b.neg then [CARET] else [];
    Cancel([LBRACK], n + ListEnd(a.items, 0, z), m + ListEnd(b.items, 0, w));
    assert (n + ListEnd(a.items, 0, z))[0] == (m + ListEnd(b.items, 0, w))[0];
    assert n == m;
    Cancel(n, ListEnd(a.items, 0, z), ListEnd(b.items, 0, w));
    ItemsSame(a.items, b.items, 0, z, w);
  }

  lemma CharsSame(l: Lit, m: Lit, first: bool, z: seq<Byte>, w: seq<Byte>)
    requires PlainLit(l, first) && PlainLit(m, first) && TextLit(l) + z == TextLit(m) + w
    ensures l == m && z == w
  {
    var t := TextLit(l) + z;
    assert t[0] == TextLit(l)[0] == TextLit(m)[0];
    if l.esc && m.esc {
      assert t[1] == l.c && t[1] == m.c;
    }
    Cancel(TextLit(l), z, w);
  }

  lemma {:induction false} AtomsSame(a: Atom, b: Atom, first: bool, z: seq<Byte>, w: seq<Byte>)
    requires PlainAtom(a, first) && PlainAtom(b, first) && TextAtom(a) + z == TextAtom(b) + w
    ensures z == w && SameAtom(a, b)
    decreases |TextAtom(a) + z|, 0
  {
    AtomBegins(a, first, z);
    AtomBegins(b, first, w);
    match a
    case AChar(l) => CharsSame(l, b.lit, first, z, w);
    case ADot => Cancel([DOT], z, w);
    case ASet(_, _) => SetsSame(a, b, z, w);
    case AGroup(_, _, alts) =>
      GroupText(a, z);
      GroupText(b, w);
      var e: seq<Byte> := [BACKSLASH, RPAREN];
      Cancel([BACKSLASH, LPAREN], TextAlts(alts) + (e + z), TextAlts(b.alts) + (e + w));
      AltsSame(alts, b.alts, e + z, e + w);
      Cancel(e, z, w);
  }

  // After a chunk no operator begins: it would be the chunk's.
  lemma QuietAfter(cs: seq<Chunk>, z: seq<Byte>)
    requires Loose(cs, false) && Stops(z)
    ensures Quiet(TextBranch(cs) + z) && (cs != [] ==> !Stops(TextBranch(cs) + z))
  {
    if cs == [] {
      assert TextBranch([]) + z == z;
    } else {
      BranchBegins(cs, false, z);
    }
  }

  lemma BranchBegins(cs: seq<Chunk>, first: bool, z: seq<Byte>)
    requires cs != [] && Loose(cs, first)
    ensures var a, ops := cs[0].atom, cs[0].ops;
            && TextBranch(cs) + z == TextAtom(a) + (TextOps(ops) + (TextBranch(cs[1..]) + z))
            && !Stops(TextBranch(cs) + z) && (!first ==> Quiet(TextBranch(cs) + z))
  {
    var a, ops, rest := cs[0].atom, cs[0].ops, TextBranch(cs[1..]);
    assert cs == [cs[0]] + cs[1..];
    BranchCons(cs[0], cs[1..]);
    Fourth(TextAtom(a), TextOps(ops), rest, z);
    AtomBegins(a, first, TextOps(ops) + (rest + z));
  }

  lemma {:induction false} BranchesSame(cs: seq<Chunk>, ds: seq<Chunk>, first: bool, z: seq<Byte>, w: seq<Byte>)
    requires Loose(cs, first) && Loose(ds, first) && Stops(z) && Stops(w) && TextBranch(cs) + z == TextBranch(ds) + w
    ensures z == w && SameBranch(cs, ds)
    decreases |TextBranch(cs) + z|, 1
  {
    if cs == [] || ds == [] {
      assert TextBranch([]) == [] && [] + z == z && [] + w == w;
      if cs != [] { BranchBegins(cs, first, z); }
      if ds != [] { BranchBegins(ds, first, w); }
    } else {
      BranchBegins(cs, first, z);
      BranchBegins(ds, first, w);
      var z1, w1 := TextBranch(cs[1..]) + z, TextBranch(ds[1..]) + w;
      var c, d := cs[0], ds[0];
      AtomsSame(c.atom, d.atom, first, TextOps(c.ops) + z1, TextOps(d.ops) + w1);
      QuietAfter(cs[1..], z);
      QuietAfter(ds[1..], w);
      OpsSame(c.ops, d.ops, z1, w1);
      Shorter(c.atom, first, TextOps(c.ops), z1);
      BranchesSame(cs[1..], ds[1..], false, z, w);
      RestSame(cs, ds);
    }
  }

  lemma RestSame(cs: seq<Chunk>, ds: seq<Chunk>)
    requires cs != [] && ds != [] && cs[0].Rep? && ds[0].Rep?
    requires SameAtom(cs[0].atom, ds[0].atom) && cs[0].ops == ds[0].ops && SameBranch(cs[1..], ds[1..])
    ensures SameBranch(cs, ds)
  {
    RepSame(cs[0].atom, ds[0].atom, cs[0].ops);
    BranchSame(cs[0], ds[0], cs[1..], ds[1..]);
    assert cs == [cs[0]] + cs[1..] && ds == [ds[0]] + ds[1..];
  }

  lemma Shorter(a: Atom, first: bool, ops: seq<Byte>, z: seq<Byte>)
    requires PlainAtom(a, first)
    ensures |z| < |TextAtom(a) + (ops + z)|
  {
    AtomBegins(a, first, []);
    assert TextAtom(a) + [] == TextAtom(a);
  }

  // The first branches of two readings.
  lemma {:induction false} FirstSame(cs: seq<Chunk>, ds: seq<Chunk>, z: seq<Byte>, w: seq<Byte>)
    requires PlainBranch(cs) && PlainBranch(ds) && Stops(z) && Stops(w) && TextBranch(cs) + z == TextBranch(ds) + w
    ensures z == w && SameBranch(cs, ds)
    decreases |TextBranch(cs) + z|, 2
  {
    SpreadLoose(cs, true);
    SpreadLoose(ds, true);
    SpreadText(cs);
    SpreadText(ds);
    BranchesSame(Spread(cs), Spread(ds), true, z, w);
    forall s, i, j ensures MatchBranch(cs, s, i, j) <==> MatchBranch(ds, s, i, j) {
      SpreadMatch(cs, s, i, j);
      SpreadMatch(ds, s, i, j);
    }
  }

  lemma {:induction false} AltsSame(a: seq<Branch>, b: seq<Branch>, z: seq<Byte>, w: seq<Byte>)
    requires a != [] && b != [] && PlainAlts(a) && PlainAlts(b) && Closes(z) && Closes(w)
             && TextAlts(a) + z == TextAlts(b) + w
    ensures z == w && SameAlts(a, b)
    decreases |TextAlts(a) + z|, 3
  {
    AltsText(a, z);
    AltsText(b, w);
    FirstSame(a[0].chunks, b[0].chunks, Further(a, z), Further(b, w));
    if |a| == 1 || |b| == 1 {
      assert a[1..] == b[1..] == [];
    } else {
      Cancel([BACKSLASH, BAR], TextAlts(a[1..]) + z, TextAlts(b[1..]) + w);
      AltsSame(a[1..], b[1..], z, w);
    }
    AltsSameCons(a, b);
  }
}
