// How long the code of a pattern can get, and patterns that are compiled for sure.
module RxSize {
  import opened RxBytes
  import opened RxSyntax
  import opened RxCode
  import opened RxReading
  import opened RxMeaning
  import opened RxMatch
  import opened RxSteps
  import opened RxCompile
  import opened RxUnique

  // ---- at most fifteen bytes of code for one of text ----------------------------------------------------

  lemma RepSize(body: seq<Byte>, ops: seq<Op>)
    ensures |CodeRep(body, ZeroOk(ops), ManyOk(ops))| <= |body| + (if ops == [] then 0 else 9)
  {
  }

  lemma {:induction false} TextSizes(ls: seq<Lit>, ops: seq<Op>)
    ensures |TextLits(ls)| >= |ls| && |TextOps(ops)| >= |ops|
    decreases |ls| + |ops|
  {
    if ls != [] {
      TextSizes(ls[..|ls| - 1], ops);
    } else if ops != [] {
      TextSizes(ls, ops[..|ops| - 1]);
    }
  }

  lemma {:induction false} AtomSize(a: Atom, first: bool)
    requires PlainAtom(a, first)
    ensures TextAtom(a) != [] && |CodeAtom(a)| <= 15 * |TextAtom(a)|
    decreases a, 2
  {
    match a
    case AGroup(reg, inner, alts) =>
      AltsSize(alts);
      var k := |alts| - 1;
      assert |TextAtom(a)| == |TextAlts(alts)| + 4;
      assert |CodeAtom(a)| <= |CodeAlts(alts)| + 7;
    case ASet(neg, items) =>
      ItemsBegin(items);
    case _ =>
  }

  lemma {:induction false} ChunkSize(c: Chunk, first: bool)
    requires PlainChunk(c, first)
    ensures |CodeChunk(c)| <= 15 * |TextChunk(c)|
    decreases c, 3
  {
    match c
    case Run(ls) => TextSizes(ls, []);
    case Rep(a, ops) =>
      AtomSize(a, first);
      TextSizes([], ops);
      RepSize(CodeAtom(a), ops);
  }

  lemma {:induction false} BranchSize(cs: seq<Chunk>, k: nat)
    requires forall i :: 0 <= i < |cs| ==> PlainChunk(cs[i], i + k == 0)
    ensures |CodeBranch(cs)| <= 15 * |TextBranch(cs)|
    decreases cs, 0
  {
    if cs != [] {
      ChunkSize(cs[0], k == 0);
      assert forall i :: 0 <= i < |cs[1..]| ==> cs[1..][i] == cs[i + 1];
      BranchSize(cs[1..], k + 1);
      assert cs == [cs[0]] + cs[1..];
      BranchCons(cs[0], cs[1..]);
    }
  }

  lemma {:induction false} AltsSize(alts: seq<Branch>)
    requires alts != [] && PlainAlts(alts)
    ensures |CodeAlts(alts)| <= 15 * |TextAlts(alts)|
    decreases alts, 1
  {
    assert PlainBranch(alts[0].chunks);
    BranchSize(alts[0].chunks, 0);
    if |alts| == 1 {
      assert alts[..0] == [];
    } else {
      AltsSize(alts[1..]);
      RxUnique.AltsMore(alts);
    }
  }

  // ---- patterns without special bytes ---------------------------------------------------------------------

  lemma {:induction false} InBranch(cs: seq<Chunk>, i: nat, x: Byte)
    requires i < |cs| && x in TextChunk(cs[i])
    ensures x in TextBranch(cs)
  {
    if i + 1 < |cs| {
      InBranch(cs[..|cs| - 1], i, x);
    }
  }

  lemma {:induction false} InDone(alts: seq<Branch>, k: nat, x: Byte)
    requires k < |alts| && x in TextBranch(alts[k].chunks)
    ensures x in TextDone(alts)
  {
    if k + 1 < |alts| {
      InDone(alts[..|alts| - 1], k, x);
    }
  }

  lemma GroupBegins(a: Atom)
    requires a.AGroup? && a.alts != []
    ensures 92 in TextAtom(a)
  {
    assert TextAtom(a)[0] == 92;
  }

  lemma GroupInside(alts: seq<Branch>, k: nat, i: nat)
    requires k < |alts| && i < |alts[k].chunks|
    requires var c := alts[k].chunks[i]; c.Rep? && c.atom.AGroup? && c.atom.alts != []
    ensures 92 in TextAlts(alts)
  {
    GroupBegins(alts[k].chunks[i].atom);
    InBranch(alts[k].chunks, i, 92);
    if k + 1 < |alts| { InDone(alts[..|alts| - 1], k, 92); }
  }

  // Without a backslash there is no group, so no loop can have a body that is empty.
  lemma NoGroups(pat: seq<Byte>, alts: seq<Branch>)
    requires ReadsAs(pat, alts) && 92 !in pat
    ensures ProperAlts(alts)
  {
    forall k, i | 0 <= k < |alts| && 0 <= i < |alts[k].chunks|
      ensures ProperChunk(alts[k].chunks[i])
    {
      var c := alts[k].chunks[i];
      assert PlainBranch(alts[k].chunks) && PlainChunk(c, i == 0);
      if c.Rep? && c.atom.AGroup? {
        assert PlainAtom(c.atom, i == 0);
        GroupInside(alts, k, i);
      }
    }
    forall k | 0 <= k < |alts| ensures ProperBranch(alts[k].chunks) {
    }
  }

  // In a pattern of at most 511 bytes there are no more than 255 groups, and its code is not too long: it can be
  // run if no loop has a body that can match the empty string.
  lemma ShortFits(pat: seq<Byte>, alts: seq<Branch>)
    requires ReadsAs(pat, alts) && SoundAlts(alts) && |pat| <= 2184
    ensures Runnable(alts) <==> ProperAlts(alts)
    ensures 92 !in pat ==> Runnable(alts)
  {
    AltsSize(alts);
    if 92 !in pat { NoGroups(pat, alts); }
  }

  // A pattern without backslashes, brackets, ^ and $ is not refused, unless it is very long.
  lemma NotRefused(pat: seq<Byte>, e: Error)
    requires 36 !in pat && 91 !in pat && 92 !in pat && 94 !in pat && |pat| <= 4366
    ensures !RefusedFor(pat, e)
  {
    if RefusedFor(pat, e) {
      var p: nat, x: Ctx :| Blame(pat, p, x, e);
      NotBlamed(pat, p, x, e);
    }
  }

  lemma NotBlamed(pat: seq<Byte>, p: nat, x: Ctx, e: Error)
    requires 36 !in pat && 91 !in pat && 92 !in pat && 94 !in pat && |pat| <= 4366
    requires TextIs(pat, p, x) && PlainCtx(x)
    ensures !Explains(pat, p, x, e)
  {
    TopAlone(pat, p, x);
    match e
    case Eescape => assert |pat| > 0 ==> pat[|pat| - 1] in pat;
    case Erparen => assert p + 2 <= |pat| ==> pat[p] in pat && pat[p..p + 2][0] == pat[p];
    case Eparen =>
    case Ebrack => NoList(pat, p);
    case Erange => NoList(pat, p);
    case Esize =>
      BranchSize(x.cur, 0);
      if Slots(x) { assert CodeOf(x) == [] + [] + CodeBranch(x.cur) == CodeBranch(x.cur); }
    case Unsupported => assert p < |pat| ==> pat[p] in pat;
  }

  lemma NoList(pat: seq<Byte>, p: nat)
    requires 91 !in pat
    ensures forall q: nat, neg, items :: !ListAt(pat, p, q, neg, items)
  {
    forall q: nat, neg, items | ListAt(pat, p, q, neg, items) ensures false { HasBracket(pat, p, q, neg, items); }
  }

  lemma HasBracket(pat: seq<Byte>, p: nat, q: nat, neg: bool, items: seq<Item>)
    requires ListAt(pat, p, q, neg, items)
    ensures 91 in pat
  {
    assert pat[p..q][0] == pat[p] && pat[p] in pat;
  }

  // Without a backslash the reading is of one alternative, outside all groups.
  lemma TopAlone(pat: seq<Byte>, p: nat, x: Ctx)
    requires 92 !in pat && TextIs(pat, p, x)
    ensures x.Top? && x.alts == [] && TextBranch(x.cur) == pat[..p]
  {
    if x.Inside? || x.alts != [] { HasBackslash(x); }
  }

  lemma HasBackslash(x: Ctx)
    requires x.Inside? || x.alts != []
    ensures 92 in TextOf(x)
  {
    if x.Inside? {
      assert TextOf(x)[|TextOf(x.outer)|] == 92;
    } else {
      var d := TextDone(x.alts);
      assert d[|d| - 2] == 92 && TextOf(x)[|d| - 2] == 92;
    }
  }
}
