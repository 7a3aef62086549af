// What the bytes of a pattern mean, given by laws: from the meaning of single bytes and bracket lists to that of
// groups, repetitions, sequences and alternatives.
module RxLaws {
  import opened RxBytes
  import opened RxSyntax
  import opened RxLang
  import opened RxReading
  import opened RxCompile
  import opened RxUnique
  import opened RxPattern

  // ---- kinds of patterns --------------------------------------------------------------------------------

  // Something that can be read at all.
  ghost predicate Reads(p: seq<Byte>) {
    exists alts :: ReadsAs(p, alts)
  }

  // One alternative.
  ghost predicate Single(p: seq<Byte>) {
    exists cs :: SingleAs(p, cs)
  }

  ghost predicate SingleAs(p: seq<Byte>, cs: seq<Chunk>) {
    PlainBranch(cs) && TextBranch(cs) == p
  }

  // What an operator behind it is applied to.
  ghost predicate Unit(p: seq<Byte>) {
    exists a :: UnitAs(p, a)
  }

  ghost predicate UnitAs(p: seq<Byte>, a: Atom) {
    PlainAtom(a, true) && TextAtom(a) == p
  }

  // Not an operator behind something else.
  predicate Standing(p: seq<Byte>) {
    p != [] ==> p[0] != 42 && (p[0] == 92 && |p| > 1 ==> p[1] != 43 && p[1] != 63)
  }

  lemma SingleMeans(p: seq<Byte>, cs: seq<Chunk>, s: seq<Byte>, i: int, j: int)
    requires SingleAs(p, cs)
    ensures Single(p) && ReadsAs(p, [Branch(cs)])
    ensures Means(p, s, i, j) <==> MatchBranch(cs, s, i, j)
  {
    var alts := [Branch(cs)];
    assert alts[..0] == [] && alts[0].chunks == cs;
    assert TextAlts(alts) == [] + TextBranch(cs) == TextBranch(cs);
    OneMeaning(p, alts, s, i, j);
    if MatchBranch(cs, s, i, j) { assert MatchBranch(alts[0].chunks, s, i, j); }
  }

  lemma ChunkSingle(c: Chunk, s: seq<Byte>, i: int, j: int)
    requires PlainChunk(c, true)
    ensures SingleAs(TextChunk(c), [c])
    ensures MatchBranch([c], s, i, j) <==> MatchChunk(c, s, i, j)
  {
    assert [c][1..] == [] && [c][..0] == [];
    assert TextBranch([c]) == [] + TextChunk(c) == TextChunk(c);
    if MatchChunk(c, s, i, j) {
      assert MatchBranch([c][1..], s, j, j);
    }
  }

  function Alone(a: Atom): Chunk { if a.AChar? then Run([a.lit]) else Rep(a, []) }

  lemma UnitMeans(p: seq<Byte>, a: Atom, s: seq<Byte>, i: int, j: int)
    requires UnitAs(p, a)
    ensures Unit(p) && SingleAs(p, [Alone(a)])
    ensures Means(p, s, i, j) <==> MatchAtom(a, s, i, j)
  {
    var c := Alone(a);
    ChunkSingle(c, s, i, j);
    if a.AChar? {
      assert [a.lit][..0] == [];
      assert TextLits([a.lit]) == [] + TextLit(a.lit) == TextLit(a.lit);
      assert TextChunk(c) == TextAtom(a);
    } else {
      assert TextChunk(c) == TextAtom(a) + [] == TextAtom(a);
    }
    SingleMeans(p, [c], s, i, j);
  }

  lemma UnitSingle(p: seq<Byte>)
    requires Unit(p)
    ensures Single(p) && Reads(p)
  {
    var a :| UnitAs(p, a);
    UnitMeans(p, a, [], 0, 0);
    SingleMeans(p, [Alone(a)], [], 0, 0);
  }

  // ---- single bytes -------------------------------------------------------------------------------------

  // .
  lemma DotMeans(s: seq<Byte>, i: int, j: int)
    ensures Unit([46])
    ensures Means([46], s, i, j) <==> 0 <= i < |s| && j == i + 1 && s[i] != 0
  {
    UnitMeans([46], ADot, s, i, j);
  }

  // A byte that is not a special one; ^ and $ are refused where they would be anchors.
  lemma ByteMeans(c: Byte, s: seq<Byte>, i: int, j: int)
    requires c !in {36, 46, 91, 92, 94}
    ensures Unit([c])
    ensures Means([c], s, i, j) <==> 0 <= i < |s| && j == i + 1 && s[i] == c
  {
    UnitMeans([c], AChar(Lit(c, false)), s, i, j);
  }

  // A byte behind a backslash: not one of ( ) | { < > w W b B ` ' or a digit from 1 to 9.
  lemma EscapedMeans(c: Byte, s: seq<Byte>, i: int, j: int)
    requires c !in {40, 41, 124, 123, 60, 62, 119, 87, 98, 66, 96, 39} && !(49 <= c <= 57)
    ensures Unit([92, c])
    ensures Means([92, c], s, i, j) <==> 0 <= i < |s| && j == i + 1 && s[i] == c
  {
    UnitMeans([92, c], AChar(Lit(c, true)), s, i, j);
  }

  // ---- bracket lists ------------------------------------------------------------------------------------

  lemma ListMeans(neg: bool, it: Item, p: seq<Byte>, s: seq<Byte>, i: int, j: int)
    requires PlainItems([it]) && (neg || FirstByte(it) != 94)
    requires p == [91] + (if neg then [94] else []) + TextItem(it) + [93]
    ensures Unit(p)
    ensures Means(p, s, i, j) <==> 0 <= i < |s| && j == i + 1 && ItemHas(it, s[i]) != neg
  {
    var a := ASet(neg, [it]);
    assert [it][..0] == [];
    assert TextItems([it]) == [] + TextItem(it) == TextItem(it);
    assert PlainAtom(a, true) && TextAtom(a) == p;
    UnitMeans(p, a, s, i, j);
    assert [it][0] == it;
    assert 0 <= i < |s| && ItemHas(it, s[i]) ==> ItemHas([it][0], s[i]);
  }

  // [a-b]
  lemma RangeMeans(a: Byte, b: Byte, s: seq<Byte>, i: int, j: int)
    requires a != 94 && b != 93 && a <= b
    ensures Unit([91, a, 45, b, 93])
    ensures Means([91, a, 45, b, 93], s, i, j) <==> 0 <= i < |s| && j == i + 1 && a <= s[i] <= b
  {
    var p := [91, a, 45, b, 93];
    assert p == [91] + [] + TextItem(Range(a, b)) + [93];
    ListMeans(false, Range(a, b), p, s, i, j);
  }

  // [^a]
  lemma OtherMeans(a: Byte, s: seq<Byte>, i: int, j: int)
    ensures Unit([91, 94, a, 93])
    ensures Means([91, 94, a, 93], s, i, j) <==> 0 <= i < |s| && j == i + 1 && s[i] != a
  {
    var p := [91, 94, a, 93];
    assert p == [91] + [94] + TextItem(One(a)) + [93];
    ListMeans(true, One(a), p, s, i, j);
  }

  // ---- groups and alternatives --------------------------------------------------------------------------

  // \(p\)
  lemma GroupMeans(p: seq<Byte>, s: seq<Byte>, i: int, j: int)
    requires Reads(p)
    ensures Unit([92, 40] + p + [92, 41])
    ensures Means([92, 40] + p + [92, 41], s, i, j) <==> Means(p, s, i, j)
  {
    var alts: seq<Branch> :| ReadsAs(p, alts);
    OneMeaning(p, alts, s, i, j);
    var a, k := AGroup(1, 0, alts), |alts| - 1;
    var d, b := TextDone(alts[..k]), TextBranch(alts[k].chunks);
    assert [92, 40] + d + b + [92, 41] == [92, 40] + p + [92, 41];
    assert PlainAtom(a, true);
    UnitMeans([92, 40] + p + [92, 41], a, s, i, j);
  }

  lemma {:induction false} DoneBoth(xs: seq<Branch>, ys: seq<Branch>)
    ensures TextDone(xs + ys) == TextDone(xs) + TextDone(ys)
  {
    if xs == [] {
      assert xs + ys == ys;
    } else {
      DoneBoth(xs[1..], ys);
      assert xs == [xs[0]] + xs[1..] && xs + ys == [xs[0]] + (xs[1..] + ys);
      DoneCons(xs[0], xs[1..]);
      DoneCons(xs[0], xs[1..] + ys);
      Triple(TextBranch(xs[0].chunks) + [92, 124], TextDone(xs[1..]), TextDone(ys));
    }
  }

  lemma AltsBoth(xs: seq<Branch>, ys: seq<Branch>, p: seq<Byte>, q: seq<Byte>)
    requires ReadsAs(p, xs) && ReadsAs(q, ys)
    ensures ReadsAs(p + [92, 124] + q, xs + ys)
  {
    var k, m := |xs| - 1, |ys| - 1;
    var t := xs + ys;
    assert t[..|t| - 1] == xs + ys[..m] && t[|t| - 1] == ys[m];
    DoneBoth(xs, ys[..m]);
    var d, e := TextDone(ys[..m]), TextBranch(ys[m].chunks);
    assert TextDone(xs) == p + [92, 124];
    Triple(p + [92, 124], d, e);
  }

  // p\|q
  lemma EitherMeans(p: seq<Byte>, q: seq<Byte>, s: seq<Byte>, i: int, j: int)
    requires Reads(p) && Reads(q)
    ensures Reads(p + [92, 124] + q)
    ensures Means(p + [92, 124] + q, s, i, j) <==> Means(p, s, i, j) || Means(q, s, i, j)
  {
    var xs :| ReadsAs(p, xs);
    var ys :| ReadsAs(q, ys);
    AltsBoth(xs, ys, p, q);
    OneMeaning(p, xs, s, i, j);
    OneMeaning(q, ys, s, i, j);
    OneMeaning(p + [92, 124] + q, xs + ys, s, i, j);
    EitherMatches(xs, ys, s, i, j);
  }

  lemma EitherMatches(xs: seq<Branch>, ys: seq<Branch>, s: seq<Byte>, i: int, j: int)
    ensures MatchAlts(xs + ys, s, i, j) <==> MatchAlts(xs, s, i, j) || MatchAlts(ys, s, i, j)
  {
    var t := xs + ys;
    if MatchAlts(xs, s, i, j) {
      var k :| 0 <= k < |xs| && MatchBranch(xs[k].chunks, s, i, j);
      assert t[k] == xs[k];
    }
    if MatchAlts(ys, s, i, j) {
      var k :| 0 <= k < |ys| && MatchBranch(ys[k].chunks, s, i, j);
      assert t[|xs| + k] == ys[k];
    }
    if MatchAlts(t, s, i, j) {
      var k :| 0 <= k < |t| && MatchBranch(t[k].chunks, s, i, j);
      assert t[k] == if k < |xs| then xs[k] else ys[k - |xs|];
    }
  }

  // ---- repetitions --------------------------------------------------------------------------------------

  // n times in a row: from place to place.
  ghost predicate InARow(p: seq<Byte>, s: seq<Byte>, ks: seq<int>, i: int, j: int) {
    && ks != [] && ks[0] == i && ks[|ks| - 1] == j
    && forall t :: 0 <= t < |ks| - 1 ==> Means(p, s, ks[t], ks[t + 1])
  }

  ghost predicate Chain(R: Lang, ks: seq<int>, i: int, j: int) {
    ks != [] && ks[0] == i && ks[|ks| - 1] == j && forall t :: 0 <= t < |ks| - 1 ==> R(ks[t], ks[t + 1])
  }

  lemma {:induction false} PowChain(R: Lang, n: nat, i: int, j: int) returns (ks: seq<int>)
    requires Pow(R, n, i, j)
    ensures |ks| == n + 1 && Chain(R, ks, i, j)
  {
    ks := [i];
    if n > 0 {
      var h :| R(i, h) && Pow(R, n - 1, h, j);
      var rest := PowChain(R, n - 1, h, j);
      ks := [i] + rest;
      forall t | 0 <= t < |ks| - 1 ensures R(ks[t], ks[t + 1]) {
        if t > 0 { assert R(rest[t - 1], rest[t - 1 + 1]); }
      }
    }
  }

  lemma {:induction false} ChainPow(R: Lang, ks: seq<int>, i: int, j: int)
    requires Chain(R, ks, i, j)
    ensures Pow(R, |ks| - 1, i, j)
  {
    if |ks| > 1 {
      assert R(ks[0], ks[0 + 1]);
      var rest := ks[1..];
      forall t | 0 <= t < |rest| - 1 ensures R(rest[t], rest[t + 1]) {
        assert R(ks[t + 1], ks[t + 1 + 1]);
      }
      ChainPow(R, rest, ks[1], j);
    }
  }

  lemma RepMeans(p: seq<Byte>, op: Op, s: seq<Byte>, i: int, j: int)
    requires Unit(p)
    ensures Single(p + TextOp(op))
    ensures Means(p + TextOp(op), s, i, j)
            <==> (op != Plus && i == j) || Means(p, s, i, j) || (op != Opt && Rows(p, s, i, j))
  {
    var a :| UnitAs(p, a);
    var c := Rep(a, [op]);
    assert [op][..0] == [] && [op][0] == op;
    assert TextOps([op]) == [] + TextOp(op) == TextOp(op);
    ChunkSingle(c, s, i, j);
    SingleMeans(p + TextOp(op), [c], s, i, j);
    var R: Lang := (x, y) => MatchAtom(a, s, x, y);
    assert ZeroOk([op]) == (op != Plus) && ManyOk([op]) == (op != Opt);
    NestIsCollapsed(R, [op], i, j);
    forall x, y ensures R(x, y) <==> Means(p, s, x, y) { UnitMeans(p, a, s, x, y); }
    RowsCollapsed(R, p, s, op != Plus, op != Opt, i, j);
  }

  // Two or more places in a row.
  ghost predicate Rows(p: seq<Byte>, s: seq<Byte>, i: int, j: int) {
    exists ks :: |ks| > 1 && InARow(p, s, ks, i, j)
  }

  lemma RowsCollapsed(R: Lang, p: seq<Byte>, s: seq<Byte>, zero: bool, many: bool, i: int, j: int)
    requires forall x, y :: R(x, y) <==> Means(p, s, x, y)
    ensures Collapsed(R, zero, many, i, j) <==> (zero && i == j) || Means(p, s, i, j) || (many && Rows(p, s, i, j))
  {
    assert R(i, j) <==> Means(p, s, i, j);
    if n: nat :| n > 0 && Pow(R, n, i, j) {
      var ks := PowChain(R, n, i, j);
      assert InARow(p, s, ks, i, j);
    }
    if ks :| |ks| > 1 && InARow(p, s, ks, i, j) {
      forall t | 0 <= t < |ks| - 1 ensures R(ks[t], ks[t + 1]) {
        assert Means(p, s, ks[t], ks[t + 1]);
      }
      ChainPow(R, ks, i, j);
      var n: nat := |ks| - 1;
      assert n > 0 && Pow(R, n, i, j);
    }
  }

  // p*
  lemma StarMeans(p: seq<Byte>, s: seq<Byte>, i: int, j: int)
    requires Unit(p)
    ensures Single(p + [42])
    ensures Means(p + [42], s, i, j) <==> exists ks :: InARow(p, s, ks, i, j)
  {
    RepMeans(p, Star, s, i, j);
    if i == j { assert InARow(p, s, [i], i, j); }
    if Means(p, s, i, j) { assert InARow(p, s, [i, j], i, j); }
  }

  // p\+
  lemma PlusMeans(p: seq<Byte>, s: seq<Byte>, i: int, j: int)
    requires Unit(p)
    ensures Single(p + [92, 43])
    ensures Means(p + [92, 43], s, i, j) <==> Rows(p, s, i, j)
  {
    RepMeans(p, Plus, s, i, j);
    if Means(p, s, i, j) { assert InARow(p, s, [i, j], i, j); }
  }

  // p\?
  lemma OptMeans(p: seq<Byte>, s: seq<Byte>, i: int, j: int)
    requires Unit(p)
    ensures Single(p + [92, 63])
    ensures Means(p + [92, 63], s, i, j) <==> i == j || Means(p, s, i, j)
  {
    RepMeans(p, Opt, s, i, j);
  }

  // ---- one after the other ------------------------------------------------------------------------------

  lemma {:induction false} BranchBoth(cs: seq<Chunk>, ds: seq<Chunk>)
    ensures TextBranch(cs + ds) == TextBranch(cs) + TextBranch(ds)
  {
    if cs == [] {
      assert cs + ds == ds;
    } else {
      BranchBoth(cs[1..], ds);
      assert cs == [cs[0]] + cs[1..] && cs + ds == [cs[0]] + (cs[1..] + ds);
      BranchCons(cs[0], cs[1..]);
      BranchCons(cs[0], cs[1..] + ds);
      Triple(TextChunk(cs[0]), TextBranch(cs[1..]), TextBranch(ds));
    }
  }

  ghost predicate Through(cs: seq<Chunk>, ds: seq<Chunk>, s: seq<Byte>, i: int, j: int) {
    exists k :: MatchBranch(cs, s, i, k) && MatchBranch(ds, s, k, j)
  }

  // The first chunk, and where it ends.
  lemma FirstChunk(cs: seq<Chunk>, s: seq<Byte>, i: int, j: int) returns (h: int)
    requires cs != [] && MatchBranch(cs, s, i, j)
    ensures MatchChunk(cs[0], s, i, h) && MatchBranch(cs[1..], s, h, j)
  {
    h :| MatchChunk(cs[0], s, i, h) && MatchBranch(cs[1..], s, h, j);
  }

  lemma {:induction false} MatchBoth(cs: seq<Chunk>, ds: seq<Chunk>, s: seq<Byte>, i: int, j: int)
    ensures MatchBranch(cs + ds, s, i, j) <==> Through(cs, ds, s, i, j)
  {
    if cs == [] {
      assert cs + ds == ds && MatchBranch(cs, s, i, i);
    } else {
      var t := cs + ds;
      assert t[0] == cs[0] && t[1..] == cs[1..] + ds;
      if MatchBranch(t, s, i, j) {
        var h := FirstChunk(t, s, i, j);
        MatchBoth(cs[1..], ds, s, h, j);
        assert Through(cs[1..], ds, s, h, j);
        var k :| MatchBranch(cs[1..], s, h, k) && MatchBranch(ds, s, k, j);
        assert MatchBranch(cs, s, i, k);
      }
      if Through(cs, ds, s, i, j) {
        var k :| MatchBranch(cs, s, i, k) && MatchBranch(ds, s, k, j);
        var h := FirstChunk(cs, s, i, k);
        MatchBoth(cs[1..], ds, s, h, j);
        assert MatchBranch(t[1..], s, h, j);
      }
    }
  }

  lemma AnyPlace(a: Atom)
    requires PlainAtom(a, true) && !a.AChar?
    ensures PlainAtom(a, false)
  {
    match a
    case ASet(neg, items) => assert PlainItems(items);
    case AGroup(_, _, alts) => assert PlainAlts(alts);
    case _ =>
  }

  lemma LitStands(l: Lit, q: seq<Byte>)
    requires PlainLit(l, true) && Standing(q) && TextLit(l) <= q
    ensures PlainLit(l, false)
  {
    assert q[0] == TextLit(l)[0] && (l.esc ==> q[1] == TextLit(l)[1]);
  }

  // What begins q is no operator when it stands behind something.
  lemma StillPlain(ds: seq<Chunk>, q: seq<Byte>)
    requires SingleAs(q, ds) && ds != [] && Standing(q)
    ensures PlainChunk(ds[0], false)
  {
    var c := ds[0];
    assert ds == [c] + ds[1..];
    BranchCons(c, ds[1..]);
    assert PlainChunk(c, true);
    ChunkStands(c, TextBranch(ds[1..]));
  }

  lemma ChunkStands(c: Chunk, rest: seq<Byte>)
    requires PlainChunk(c, true) && Standing(TextChunk(c) + rest)
    ensures PlainChunk(c, false)
  {
    match c
    case Run(ls) =>
      assert ls == [ls[0]] + ls[1..];
      LitsCons(ls[0], ls[1..]);
      Begun(TextLit(ls[0]), TextLits(ls[1..]), rest);
      LitStands(ls[0], TextChunk(c) + rest);
    case Rep(a, ops) =>
      if a.AChar? {
        assert TextChunk(c) == TextLit(a.lit) + TextOps(ops);
        Begun(TextLit(a.lit), TextOps(ops), rest);
        assert PlainAtom(a, true) && PlainLit(a.lit, true);
        LitStands(a.lit, TextChunk(c) + rest);
        assert PlainAtom(a, false);
      } else {
        AnyPlace(a);
      }
  }

  lemma Begun(a: seq<Byte>, b: seq<Byte>, c: seq<Byte>)
    ensures a <= a + b + c
  {
  }

  // pq
  lemma ThenMeans(p: seq<Byte>, q: seq<Byte>, s: seq<Byte>, i: int, j: int)
    requires Single(p) && Single(q) && Standing(q)
    ensures Single(p + q)
    ensures Means(p + q, s, i, j) <==> exists k :: Means(p, s, i, k) && Means(q, s, k, j)
  {
    var cs :| SingleAs(p, cs);
    var ds :| SingleAs(q, ds);
    BothSingle(p, q, cs, ds);
    SingleMeans(p + q, cs + ds, s, i, j);
    MatchBoth(cs, ds, s, i, j);
    if k :| MatchBranch(cs, s, i, k) && MatchBranch(ds, s, k, j) {
      SingleMeans(p, cs, s, i, k);
      SingleMeans(q, ds, s, k, j);
    }
    if k :| Means(p, s, i, k) && Means(q, s, k, j) {
      SingleMeans(p, cs, s, i, k);
      SingleMeans(q, ds, s, k, j);
      assert MatchBranch(cs, s, i, k) && MatchBranch(ds, s, k, j);
    }
  }

  lemma BothSingle(p: seq<Byte>, q: seq<Byte>, cs: seq<Chunk>, ds: seq<Chunk>)
    requires SingleAs(p, cs) && SingleAs(q, ds) && Standing(q)
    ensures SingleAs(p + q, cs + ds)
  {
    BranchBoth(cs, ds);
    var t := cs + ds;
    if ds != [] { StillPlain(ds, q); }
    forall k | 0 <= k < |t| ensures PlainChunk(t[k], k == 0) {
      if k < |cs| {
        assert PlainChunk(cs[k], k == 0);
      } else {
        assert PlainChunk(ds[k - |cs|], k == |cs|);
        if k == 0 { assert t[k] == ds[0] && PlainChunk(ds[0], 0 == 0); }
      }
    }
  }

  // Nothing at all means the empty string.
  lemma EmptyMeans(s: seq<Byte>, i: int, j: int)
    ensures Single([])
    ensures Means([], s, i, j) <==> i == j
  {
    SingleMeans([], [], s, i, j);
  }

  // p and a byte that is not a special one.
  lemma ThenByte(p: seq<Byte>, c: Byte, s: seq<Byte>, i: int, j: int)
    requires Single(p) && c !in {36, 42, 46, 91, 92, 94}
    ensures Single(p + [c])
    ensures Means(p + [c], s, i, j) <==> Means(p, s, i, j - 1) && 0 < j <= |s| && s[j - 1] == c
  {
    ByteMeans(c, s, j - 1, j);
    UnitSingle([c]);
    ThenMeans(p, [c], s, i, j);
    if k :| Means(p, s, i, k) && Means([c], s, k, j) { ByteMeans(c, s, k, j); }
  }

  // p.
  lemma ThenDot(p: seq<Byte>, s: seq<Byte>, i: int, j: int)
    requires Single(p)
    ensures Single(p + [46])
    ensures Means(p + [46], s, i, j) <==> Means(p, s, i, j - 1) && 0 < j <= |s| && s[j - 1] != 0
  {
    DotMeans(s, j - 1, j);
    UnitSingle([46]);
    ThenMeans(p, [46], s, i, j);
    if k :| Means(p, s, i, k) && Means([46], s, k, j) { DotMeans(s, k, j); }
  }

  // a.c
  lemma DotBetween(s: seq<Byte>, i: int, j: int)
    ensures Means([97, 46, 99], s, i, j)
            <==> 0 <= i && j == i + 3 <= |s| && s[i] == 97 && s[i + 1] != 0 && s[i + 2] == 99
  {
    var a: seq<Byte> := [97];
    ByteMeans(97, s, i, j - 2);
    UnitSingle(a);
    ThenDot(a, s, i, j - 1);
    ThenByte(a + [46], 99, s, i, j);
    assert a + [46] + [99] == [97, 46, 99];
  }
}
