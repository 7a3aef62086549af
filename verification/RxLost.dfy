// Patterns with which the matcher that discards failure points misses the longest match, or all matches.
module RxLost {
  import opened RxBytes
  import opened RxSyntax
  import opened RxLang
  import opened RxCode
  import opened RxVm
  import opened RxMeaning
  import opened RxMatch
  import opened RxFlow
  import opened RxPops
  import opened RxRun
  import opened RxReading

  function Plain(c: Byte): Lit { Lit(c, false) }

  // ---- a loop over a group ------------------------------------------------------------------------------

  // \(bc\)
  function Inner(): Atom { AGroup(2, 0, [Branch([Run([Plain(98), Plain(99)])])]) }

  // ab\?\(bc\)\?
  function Body(): seq<Chunk> { [Run([Plain(97)]), Rep(AChar(Plain(98)), [Opt]), Rep(Inner(), [Opt])] }

  // \(ab\?\(bc\)\?\)*
  function Short(): seq<Branch> { [Branch([Rep(AGroup(1, 1, [Branch(Body())]), [Star])])] }

  lemma OneOp(op: Op)
    ensures ZeroOk([op]) == (op != Plus) && ManyOk([op]) == (op != Opt)
  {
    assert [op][0] == op;
  }

  lemma OneChunk(c: Chunk)
    ensures CodeAlts([Branch([c])]) == CodeChunk(c)
  {
    assert [c][1..] == [];
    assert CodeBranch([c]) == CodeChunk(c) + [];
    assert [Branch([c])][0].chunks == [c];
  }

  lemma OneGroup(cs: seq<Chunk>, reg: Byte, inner: Byte)
    ensures CodeAtom(AGroup(reg, inner, [Branch(cs)])) == [6, reg, inner] + CodeBranch(cs) + [7, reg, inner]
  {
    assert [Branch(cs)][0].chunks == cs;
    assert CodeAlts([Branch(cs)]) == CodeBranch(cs);
  }

  lemma StarCode(a: Atom, body: seq<Byte>)
    requires CodeAtom(a) == body
    ensures CodeChunk(Rep(a, [Star])) == Jmp(ON_FAILURE_JUMP, |body| + 3) + body + Jmp(MAYBE_POP_JUMP, -(|body| + 6))
  {
    OneOp(Star);
  }

  lemma OptCode(a: Atom, body: seq<Byte>)
    requires CodeAtom(a) == body
    ensures CodeChunk(Rep(a, [Opt])) == Jmp(ON_FAILURE_JUMP, |body|) + body
  {
    OneOp(Opt);
  }

  lemma InnerCode()
    ensures CodeAtom(Inner()) == [6, 2, 0] + [2, 2, 98, 99] + [7, 2, 0]
  {
    var lits := [Plain(98), Plain(99)];
    assert LitBytes(lits) == [98, 99];
    assert CodeChunk(Run(lits)) == [2, 2, 98, 99];
    OneChunk(Run(lits));
    assert [Run(lits)][1..] == [];
    assert CodeBranch([Run(lits)]) == CodeChunk(Run(lits)) + [];
    OneGroup([Run(lits)], 2, 0);
  }

  lemma ThreeChunks(a: Chunk, b: Chunk, c: Chunk)
    ensures CodeBranch([a, b, c]) == CodeChunk(a) + (CodeChunk(b) + (CodeChunk(c) + []))
  {
    var l3, l2, l1 := [a, b, c], [b, c], [c];
    assert l3[1..] == l2 && l2[1..] == l1 && l1[1..] == [];
    assert CodeBranch(l1) == CodeChunk(c) + [];
    assert CodeBranch(l2) == CodeChunk(b) + CodeBranch(l1);
  }

  lemma BodyCode()
    ensures CodeBranch(Body()) == [2, 1, 97] + ([15, 3, 0] + [2, 1, 98] + ([15, 10, 0] + CodeAtom(Inner()) + []))
  {
    InnerCode();
    assert LitBytes([Plain(97)]) == [97];
    OptCode(AChar(Plain(98)), [2, 1, 98]);
    OptCode(Inner(), CodeAtom(Inner()));
    ThreeChunks(Run([Plain(97)]), Rep(AChar(Plain(98)), [Opt]), Rep(Inner(), [Opt]));
  }

  // The bytes of the code.
  predicate ShortBytes(code: seq<Byte>) {
    && |code| == 34
    && code[0] == 15 && code[1] == 31 && code[2] == 0
    && code[3] == 6
    && code[6] == 2 && code[7] == 1 && code[8] == 97
    && code[9] == 15 && code[10] == 3 && code[11] == 0 && code[12] == 2 && code[13] == 1 && code[14] == 98
    && code[15] == 15 && code[16] == 10 && code[17] == 0 && code[18] == 6
    && code[21] == 2 && code[22] == 2 && code[23] == 98 && code[24] == 99
    && code[25] == 7 && code[28] == 7 && code[31] == 18 && code[32] == 222 && code[33] == 255
  }

  lemma ShortJoin(code: seq<Byte>, c: seq<Byte>, i: seq<Byte>)
    requires code == [15, 31, 0] + ([6, 1, 1] + c + [7, 1, 1]) + [18, 222, 255]
    requires c == [2, 1, 97] + ([15, 3, 0] + [2, 1, 98] + ([15, 10, 0] + i + []))
    requires i == [6, 2, 0] + [2, 2, 98, 99] + [7, 2, 0]
    ensures ShortBytes(code)
  {
  }

  lemma JumpBytes()
    ensures Jmp(ON_FAILURE_JUMP, 31) == [15, 31, 0] && Jmp(MAYBE_POP_JUMP, -34) == [18, 222, 255]
  {
  }

  lemma ShortFrom(cs: seq<Chunk>, i: seq<Byte>)
    requires CodeBranch(cs) == [2, 1, 97] + ([15, 3, 0] + [2, 1, 98] + ([15, 10, 0] + i + []))
    requires i == [6, 2, 0] + [2, 2, 98, 99] + [7, 2, 0]
    ensures ShortBytes(CodeAlts([Branch([Rep(AGroup(1, 1, [Branch(cs)]), [Star])])]))
  {
    var g := AGroup(1, 1, [Branch(cs)]);
    OneGroup(cs, 1, 1);
    OneChunk(Rep(g, [Star]));
    StarCode(g, CodeAtom(g));
    JumpBytes();
    ShortJoin(CodeChunk(Rep(g, [Star])), CodeBranch(cs), i);
  }

  lemma ShortIs()
    ensures ShortBytes(CodeAlts(Short()))
  {
    InnerCode();
    BodyCode();
    ShortFrom(Body(), CodeAtom(Inner()));
  }

  // ---- its text ---------------------------------------------------------------------------------------

  lemma TextOne(c: Chunk)
    ensures TextBranch([c]) == TextChunk(c) && TextAlts([Branch([c])]) == TextChunk(c)
  {
    assert [c][..0] == [] && [Branch([c])][..0] == [];
    assert TextBranch([c]) == [] + TextChunk(c);
  }

  lemma TextGroup(cs: seq<Chunk>, reg: nat, inner: nat)
    ensures TextAtom(AGroup(reg, inner, [Branch(cs)])) == [92, 40] + TextBranch(cs) + [92, 41]
  {
    assert [Branch(cs)][..0] == [];
    assert [92, 40] + TextDone([]) + TextBranch(cs) + [92, 41] == [92, 40] + TextBranch(cs) + [92, 41];
  }

  lemma TextThree(a: Chunk, b: Chunk, c: Chunk)
    ensures TextBranch([a, b, c]) == TextChunk(a) + TextChunk(b) + TextChunk(c)
  {
    var l3, l2 := [a, b, c], [a, b];
    assert l3[..2] == l2 && l2[..1] == [a];
    TextOne(a);
    assert TextBranch(l2) == TextBranch([a]) + TextChunk(b);
  }

  lemma TextOp1(op: Op)
    ensures TextOps([op]) == TextOp(op)
  {
    assert [op][..0] == [];
    assert TextOps([op]) == [] + TextOp(op);
  }

  lemma TextRun(l: Lit, m: Lit)
    ensures TextLits([l]) == TextLit(l) && TextLits([l, m]) == TextLit(l) + TextLit(m)
  {
    assert [l][..0] == [] && [l, m][..1] == [l];
    assert TextLits([l]) == [] + TextLit(l);
  }

  lemma InnerText()
    ensures TextAtom(Inner()) == [92, 40, 98, 99, 92, 41]
  {
    TextRun(Plain(98), Plain(99));
    TextOne(Run([Plain(98), Plain(99)]));
    TextGroup([Run([Plain(98), Plain(99)])], 2, 0);
  }

  lemma BodyText()
    ensures TextBranch(Body()) == [97] + ([98] + [92, 63]) + ([92, 40, 98, 99, 92, 41] + [92, 63])
  {
    InnerText();
    TextOp1(Opt);
    TextRun(Plain(97), Plain(97));
    TextThree(Run([Plain(97)]), Rep(AChar(Plain(98)), [Opt]), Rep(Inner(), [Opt]));
  }

  lemma AroundText(cs: seq<Chunk>)
    ensures TextAlts([Branch([Rep(AGroup(1, 1, [Branch(cs)]), [Star])])]) == [92, 40] + TextBranch(cs) + [92, 41] + [42]
  {
    TextOp1(Star);
    TextGroup(cs, 1, 1);
    TextOne(Rep(AGroup(1, 1, [Branch(cs)]), [Star]));
  }

  // Short is what the bytes of \(ab\?\(bc\)\?\)* are read as.
  lemma ShortText()
    ensures TextAlts(Short()) == [92, 40, 97, 98, 92, 63, 92, 40, 98, 99, 92, 41, 92, 63, 92, 41, 42]
    ensures PlainAlts(Short())
  {
    BodyText();
    AroundText(Body());
    BodyPlain();
  }

  lemma BodyPlain()
    ensures PlainAlts(Short())
  {
    var run := Run([Plain(98), Plain(99)]);
    assert PlainChunk(run, true) && PlainBranch([run]);
    assert PlainAtom(Inner(), false);
    assert PlainBranch(Body());
    assert PlainAtom(AGroup(1, 1, [Branch(Body())]), true);
  }

  // ---- its run on abc ---------------------------------------------------------------------------------

  // The jumps of the code, and where it can be run.
  lemma ShortJumps(code: seq<Byte>)
    requires ShortBytes(code)
    ensures Target(code, 0) == 34 && Target(code, 9) == 15 && Target(code, 15) == 28 && Target(code, 31) == 0
    ensures forall p :: p in {0, 3, 6, 9, 12, 15, 18, 21, 25, 28, 31} ==> Legal(code, p)
    ensures !BackJump(code, 34) && !BackJump(code, 28) && Pops(code, 31)
    ensures code[8..9] == [97] && code[14..15] == [98] && code[23..25] == [98, 99]
  {
    assert Peek(3);
    assert Skip(code, 34) == 34;
  }

  function Abc(): seq<Byte> { [97, 98, 99] }

  // The first round: a and b are matched, and the group after them is passed over.
  lemma FirstRound(code: seq<Byte>)
    requires ShortBytes(code)
    ensures Comes(code, Abc(), 0, Hunt(true, 28, 2, [Resume(34, 0), Resume(15, 1)], false, 0))
  {
    var s := Abc();
    ShortJumps(code);
    assert s[0..1] == [97] && s[1..2] == [98];
    var r0, r1, r2 := Resume(34, 0), Resume(15, 1), Resume(28, 2);
    ComesFirst(code, s, 0);
    ComesOn(code, s, 0, Hunt(true, 0, 0, [], false, 0));
    assert [] + [r0] == [r0];
    ComesOn(code, s, 0, Hunt(true, 3, 0, [r0], false, 0));
    assert [r0] + [] == [r0];
    ComesOn(code, s, 0, Hunt(true, 6, 0, [r0], false, 0));
    ComesOn(code, s, 0, Hunt(true, 9, 1, [r0], false, 0));
    assert [r0] + [r1] == [r0, r1];
    ComesOn(code, s, 0, Hunt(true, 12, 1, [r0, r1], false, 0));
    assert [r0, r1] + [] == [r0, r1];
    ComesOn(code, s, 0, Hunt(true, 15, 2, [r0, r1], false, 0));
    FirstRoundEnd(code);
  }

  lemma FirstRoundEnd(code: seq<Byte>)
    requires ShortBytes(code)
    requires Comes(code, Abc(), 0, Hunt(true, 15, 2, [Resume(34, 0), Resume(15, 1)], false, 0))
    ensures Comes(code, Abc(), 0, Hunt(true, 28, 2, [Resume(34, 0), Resume(15, 1)], false, 0))
  {
    var s := Abc();
    ShortJumps(code);
    var r0, r1, r2 := Resume(34, 0), Resume(15, 1), Resume(28, 2);
    ComesOn(code, s, 0, Hunt(true, 15, 2, [r0, r1], false, 0));
    assert [r0, r1] + [r2] == [r0, r1, r2];
    ComesOn(code, s, 0, Hunt(true, 18, 2, [r0, r1, r2], false, 0));
    assert [r0, r1, r2] + [] == [r0, r1, r2];
    ComesOn(code, s, 0, Hunt(true, 21, 2, [r0, r1, r2], false, 0));
    assert [r0, r1, r2][..2] == [r0, r1];
    ComesOn(code, s, 0, Hunt(false, 0, 0, [r0, r1, r2], false, 0));
  }

  // The back jump takes off the point that would have let the group begin with the b; and there is no second
  // round.
  lemma SecondRound(code: seq<Byte>)
    requires ShortBytes(code)
    ensures Yields(code, Abc(), 0, 2)
  {
    var s := Abc();
    ShortJumps(code);
    FirstRound(code);
    var r0, r1, r2 := Resume(34, 0), Resume(15, 1), Resume(34, 2);
    assert [r0, r1] + [] == [r0, r1];
    ComesOn(code, s, 0, Hunt(true, 28, 2, [r0, r1], false, 0));
    assert [r0, r1][..1] == [r0];
    ComesOn(code, s, 0, Hunt(true, 31, 2, [r0, r1], false, 0));
    ComesOn(code, s, 0, Hunt(true, 0, 2, [r0], false, 0));
    assert [r0] + [r2] == [r0, r2];
    SecondRoundEnd(code);
  }

  lemma SecondRoundEnd(code: seq<Byte>)
    requires ShortBytes(code)
    requires Comes(code, Abc(), 0, Hunt(true, 3, 2, [Resume(34, 0), Resume(34, 2)], false, 0))
    ensures Yields(code, Abc(), 0, 2)
  {
    var s := Abc();
    ShortJumps(code);
    var r0, r2 := Resume(34, 0), Resume(34, 2);
    assert [r0, r2] + [] == [r0, r2] && s[2..3] == [99];
    ComesOn(code, s, 0, Hunt(true, 3, 2, [r0, r2], false, 0));
    ComesOn(code, s, 0, Hunt(true, 6, 2, [r0, r2], false, 0));
    assert [r0, r2][..1] == [r0];
    ComesOn(code, s, 0, Hunt(false, 0, 0, [r0, r2], false, 0));
    ComesOn(code, s, 0, Hunt(true, 34, 2, [r0], false, 0));
    assert [r0][..0] == [];
    ComesOn(code, s, 0, Hunt(false, 0, 0, [r0], true, 2));
    ComesOn(code, s, 0, Hunt(true, 34, 0, [], true, 2));
  }

  // ---- its language -----------------------------------------------------------------------------------

  lemma BranchThree(a: Chunk, b: Chunk, c: Chunk, s: seq<Byte>, i: int, j: int, k: int, l: int)
    requires MatchChunk(a, s, i, j) && MatchChunk(b, s, j, k) && MatchChunk(c, s, k, l)
    ensures MatchBranch([a, b, c], s, i, l)
  {
    var l3, l2, l1 := [a, b, c], [b, c], [c];
    assert l3[1..] == l2 && l2[1..] == l1 && l1[1..] == [];
    assert MatchBranch([], s, l, l);
    assert MatchBranch(l1, s, k, l);
    assert MatchBranch(l2, s, j, l);
  }

  lemma BranchOne(c: Chunk, s: seq<Byte>, i: int, j: int)
    requires MatchChunk(c, s, i, j)
    ensures MatchAlts([Branch([c])], s, i, j)
  {
    assert [c][1..] == [] && MatchBranch([], s, j, j);
    assert MatchBranch([c], s, i, j);
    assert [Branch([c])][0].chunks == [c];
  }

  lemma OpOne(a: Atom, op: Op, s: seq<Byte>, i: int, j: int)
    requires MatchAtom(a, s, i, j) || (op != Plus && i == j)
    ensures MatchChunk(Rep(a, [op]), s, i, j)
  {
    var R: Lang := (x, y) => MatchAtom(a, s, x, y);
    OneOp(op);
    NestIsCollapsed(R, [op], i, j);
  }

  lemma ShortMatches()
    ensures MatchAlts(Short(), Abc(), 0, 3)
  {
    var s := Abc();
    assert MatchChunk(Run([Plain(97)]), s, 0, 1);
    OpOne(AChar(Plain(98)), Opt, s, 1, 1);
    assert MatchChunk(Run([Plain(98), Plain(99)]), s, 1, 3);
    BranchOne(Run([Plain(98), Plain(99)]), s, 1, 3);
    OpOne(Inner(), Opt, s, 1, 3);
    BranchThree(Run([Plain(97)]), Rep(AChar(Plain(98)), [Opt]), Rep(Inner(), [Opt]), s, 0, 1, 1, 3);
    ShortAround(s);
  }

  lemma ShortAround(s: seq<Byte>)
    requires MatchBranch(Body(), s, 0, 3)
    ensures MatchAlts(Short(), s, 0, 3)
  {
    var g := AGroup(1, 1, [Branch(Body())]);
    assert [Branch(Body())][0].chunks == Body();
    assert MatchAtom(g, s, 0, 3);
    OpOne(g, Star, s, 0, 3);
    BranchOne(Rep(g, [Star]), s, 0, 3);
  }

  // Some chunk of the branch is a run.
  lemma NotNull(cs: seq<Chunk>, k: int)
    requires 0 <= k < |cs| && cs[k].Run? && cs[k].lits != []
    ensures !NullBranch(cs)
  {
    assert !NullChunk(cs[k]);
  }

  lemma OneSound(c: Chunk)
    requires SoundChunk(c) && ProperChunk(c)
    ensures SoundAlts([Branch([c])]) && ProperAlts([Branch([c])])
  {
    assert forall k :: 0 <= k < |[c]| ==> [c][k] == c;
    assert forall k :: 0 <= k < |[Branch([c])]| ==> [Branch([c])][k].chunks == [c];
  }

  lemma GroupSound(cs: seq<Chunk>, reg: nat, inner: nat)
    requires SoundBranch(cs) && ProperBranch(cs) && reg <= 255
    ensures SoundAtom(AGroup(reg, inner, [Branch(cs)])) && ProperAtom(AGroup(reg, inner, [Branch(cs)]))
    ensures NullBranch(cs) || !NullAtom(AGroup(reg, inner, [Branch(cs)]))
  {
    assert forall k :: 0 <= k < |[Branch(cs)]| ==> [Branch(cs)][k].chunks == cs;
  }

  lemma BodySound()
    ensures SoundBranch(Body()) && ProperBranch(Body()) && !NullBranch(Body())
  {
    OneOp(Opt);
    var cs := [Run([Plain(98), Plain(99)])];
    assert SoundBranch(cs) && ProperBranch(cs);
    GroupSound(cs, 2, 0);
    assert SoundChunk(Rep(Inner(), [Opt])) && ProperChunk(Rep(Inner(), [Opt]));
    NotNull(Body(), 0);
  }

  lemma ShortSound(cs: seq<Chunk>)
    requires SoundBranch(cs) && ProperBranch(cs) && !NullBranch(cs)
    ensures var alts := [Branch([Rep(AGroup(1, 1, [Branch(cs)]), [Star])])]; SoundAlts(alts) && ProperAlts(alts)
  {
    GroupSound(cs, 1, 1);
    OneSound(Rep(AGroup(1, 1, [Branch(cs)]), [Star]));
  }

  lemma ShortRunnable()
    ensures Runnable(Short())
  {
    ShortIs();
    BodySound();
    ShortSound(Body());
  }

  // The pattern \(ab\?\(bc\)\?\)* on abc: the group could be gone through once for the whole of it, but the matcher
  // ends with a match of two characters.
  lemma ShortLost()
    ensures Runnable(Short())
    ensures Yields(CodeAlts(Short()), Abc(), 0, 2) && MatchAlts(Short(), Abc(), 0, 3)
    ensures !LongestPrefix(Short(), Abc(), 0, 2)
  {
    ShortRunnable();
    ShortIs();
    SecondRound(CodeAlts(Short()));
    ShortMatches();
  }

  // ---- the odd cases of the test -----------------------------------------------------------------------

  // A loop of one character at the start of the code, whose back jump discards, on a subject of one character
  // that the body accepts: nothing is found if what follows the loop wants a character.
  lemma LoopLost(code: seq<Byte>, s: seq<Byte>, x: int)
    requires LosingLoop(code, s, x)
    ensures Yields(code, s, 0, -1)
  {
    var r0 := Resume(x, 0);
    ComesFirst(code, s, 0);
    ComesOn(code, s, 0, Hunt(true, 0, 0, [], false, 0));
    assert [] + [r0] == [r0] && [r0] + [] == [r0] && [r0][..0] == [];
    ComesOn(code, s, 0, Hunt(true, 3, 0, [r0], false, 0));
    ComesOn(code, s, 0, Hunt(true, x - 3, 1, [r0], false, 0));
    LoopLostEnd(code, s, x);
  }

  ghost predicate LosingLoop(code: seq<Byte>, s: seq<Byte>, x: int) {
    && 6 < x < |code| && Legal(code, 0) && code[0] == ON_FAILURE_JUMP && Target(code, 0) == x
    && Legal(code, 3) && code[3] in {EXACTN, CHARSET} && Succ(code, s, 3, 0) == [Point(x - 3, 1)]
    && Succ(code, s, 3, 1) == []
    && Legal(code, x - 3) && code[x - 3] == MAYBE_POP_JUMP && Target(code, x - 3) == 0 && Pops(code, x - 3)
    && Legal(code, x) && code[x] in {EXACTN, CHARSET} && Succ(code, s, x, 1) == []
  }

  lemma LoopLostEnd(code: seq<Byte>, s: seq<Byte>, x: int)
    requires LosingLoop(code, s, x) && Comes(code, s, 0, Hunt(true, 0, 1, [], false, 0))
    ensures Yields(code, s, 0, -1)
  {
    var r1 := Resume(x, 1);
    ComesOn(code, s, 0, Hunt(true, 0, 1, [], false, 0));
    assert [] + [r1] == [r1];
    Outwards(code, s, x, 1);
    NothingAt(code, s, x, 1);
  }

  // The body fails, and the loop is left.
  lemma Outwards(code: seq<Byte>, s: seq<Byte>, x: int, d: int)
    requires 0 <= x < |code| && code[x] in {EXACTN, CHARSET} && Legal(code, 3) && code[3] in {EXACTN, CHARSET}
    requires Succ(code, s, 3, d) == [] && Comes(code, s, 0, Hunt(true, 3, d, [Resume(x, d)], false, 0))
    ensures Comes(code, s, 0, Hunt(true, x, d, [], false, 0))
  {
    var r := Resume(x, d);
    ComesOn(code, s, 0, Hunt(true, 3, d, [r], false, 0));
    assert [r][..0] == [];
    ComesOn(code, s, 0, Hunt(false, 0, 0, [r], false, 0));
  }

  lemma NothingAt(code: seq<Byte>, s: seq<Byte>, x: int, d: int)
    requires 0 <= x < |code| && Legal(code, x) && code[x] in {EXACTN, CHARSET} && Succ(code, s, x, d) == []
    requires Comes(code, s, 0, Hunt(true, x, d, [], false, 0))
    ensures Yields(code, s, 0, -1)
  {
    ComesOn(code, s, 0, Hunt(true, x, d, [], false, 0));
    ComesOn(code, s, 0, Hunt(false, 0, 0, [], false, 0));
  }

  lemma TwoChunks(a: Chunk, b: Chunk)
    ensures CodeAlts([Branch([a, b])]) == CodeChunk(a) + (CodeChunk(b) + [])
  {
    var l2, l1 := [a, b], [b];
    assert l2[1..] == l1 && l1[1..] == [];
    assert CodeBranch(l1) == CodeChunk(b) + [];
    assert [Branch(l2)][0].chunks == l2;
  }

  lemma MatchTwo(a: Chunk, b: Chunk, s: seq<Byte>, i: int, j: int, k: int)
    requires MatchChunk(a, s, i, j) && MatchChunk(b, s, j, k)
    ensures MatchAlts([Branch([a, b])], s, i, k)
  {
    var l2, l1 := [a, b], [b];
    assert l2[1..] == l1 && l1[1..] == [] && MatchBranch([], s, k, k);
    assert MatchBranch(l1, s, j, k);
    assert [Branch(l2)][0].chunks == l2;
  }

  lemma TwoRunnable(a: Chunk, b: Chunk)
    requires SoundChunk(a) && ProperChunk(a) && SoundChunk(b) && ProperChunk(b)
    requires |CodeChunk(a)| + |CodeChunk(b)| <= LIMIT
    ensures Runnable([Branch([a, b])])
  {
    TwoChunks(a, b);
    assert forall k :: 0 <= k < |[Branch([a, b])]| ==> [Branch([a, b])][k].chunks == [a, b];
  }

  // a*[ab]
  function List(): seq<Item> { [One(97), One(98)] }

  function ThenList(): seq<Branch> {
    [Branch([Rep(AChar(Plain(97)), [Star]), Rep(ASet(false, List()), [])])]
  }

  lemma ListCode()
    ensures var t := Trim(BitMap(List()));
            CodeAlts(ThenList()) == [15, 6, 0] + [2, 1, 97] + [18, 247, 255] + ([4, |t|] + t + [])
  {
    StarCode(AChar(Plain(97)), [2, 1, 97]);
    assert Jmp(ON_FAILURE_JUMP, 6) == [15, 6, 0] && Jmp(MAYBE_POP_JUMP, -9) == [18, 247, 255];
    TwoChunks(Rep(AChar(Plain(97)), [Star]), Rep(ASet(false, List()), []));
  }

  lemma ListHas(t: seq<Byte>)
    requires t == Trim(BitMap(List()))
    ensures InMap(t, 97) && !InMap(t, 1)
  {
    assert ItemHas(List()[0], 97);
  }

  // What the code of a*[ab] does at the list on the subject a.
  lemma ListRun(code: seq<Byte>, t: seq<Byte>)
    requires code == [15, 6, 0] + [2, 1, 97] + [18, 247, 255] + ([4, |t|] + t + [])
    requires |t| <= 32 && InMap(t, 97) && !InMap(t, 1)
    ensures OneCharLoop(code, 6) && Pops(code, 6) && !Disjoint(code, 6) && Yields(code, [97], 0, -1)
  {
    var s: seq<Byte> := [97];
    assert code[11..11 + |t|] == t && code[5..6] == [97] && s[0..1] == [97];
    assert Peek(3);
    assert Target(code, 0) == 9 && Target(code, 6) == 0 && Skip(code, 9) == 9 && OneChar(code, 3);
    assert Accepts(code, 3, 97) && SetAccepts(code, 9, 97);
    LoopLost(code, s, 9);
  }

  // The pattern a*[ab]: the test takes the a for the character of code 1, which the list has not; so the failure
  // point is discarded, and nothing in the subject a matches.
  lemma OddListLost()
    ensures var code := CodeAlts(ThenList());
            && Runnable(ThenList()) && OneCharLoop(code, 6) && Pops(code, 6) && !Disjoint(code, 6)
            && Yields(code, [97], 0, -1) && MatchAlts(ThenList(), [97], 0, 1)
  {
    var s: seq<Byte>, a, b := [97], AChar(Plain(97)), ASet(false, List());
    ListCode();
    ListHas(Trim(BitMap(List())));
    ListRun(CodeAlts(ThenList()), Trim(BitMap(List())));
    OneOp(Star);
    TwoRunnable(Rep(a, [Star]), Rep(b, []));
    OpOne(a, Star, s, 0, 0);
    assert ItemHas(List()[0], 97);
    assert MatchAtom(b, s, 0, 1);
    assert MatchChunk(Rep(b, []), s, 0, 1);
    MatchTwo(Rep(a, [Star]), Rep(b, []), s, 0, 0, 1);
  }

  // A loop over the list of all characters, then an a.
  function All(): seq<Item> { [Range(1, 255)] }

  function ThenLiteral(): seq<Branch> {
    [Branch([Rep(ASet(false, All()), [Star]), Run([Plain(97)])])]
  }

  lemma AllHas(t: seq<Byte>)
    requires t == Trim(BitMap(All()))
    ensures |t| == 32 && InMap(t, 97)
  {
    assert ItemHas(All()[0], 97) && ItemHas(All()[0], 255);
    assert InMap(t, 255);
  }

  lemma LiteralCode(items: seq<Item>, t: seq<Byte>)
    requires t == Trim(BitMap(items)) && |t| == 32
    ensures CodeAlts([Branch([Rep(ASet(false, items), [Star]), Run([Plain(97)])])])
            == [15, 37, 0] + ([4, 32] + t) + [18, 216, 255] + ([2, 1, 97] + [])
  {
    StarCode(ASet(false, items), [4, 32] + t);
    assert Jmp(ON_FAILURE_JUMP, 37) == [15, 37, 0] && Jmp(MAYBE_POP_JUMP, -40) == [18, 216, 255];
    assert LitBytes([Plain(97)]) == [97];
    TwoChunks(Rep(ASet(false, items), [Star]), Run([Plain(97)]));
  }

  lemma LiteralRun(code: seq<Byte>, t: seq<Byte>)
    requires code == [15, 37, 0] + ([4, 32] + t) + [18, 216, 255] + ([2, 1, 97] + [])
    requires |t| == 32 && InMap(t, 97)
    ensures OneCharLoop(code, 37) && Pops(code, 37) && !Disjoint(code, 37) && Yields(code, [97], 0, -1)
  {
    var s: seq<Byte> := [97];
    assert code[5..37] == t && code[42..43] == [97];
    assert Peek(3);
    assert Target(code, 0) == 40 && Target(code, 37) == 0 && Skip(code, 40) == 40 && OneChar(code, 3);
    assert Accepts(code, 3, 97);
    LoopLost(code, s, 40);
  }

  // Here the size of the map is cut down to nothing; so the failure point is discarded, and nothing in the
  // subject a matches.
  lemma OddLiteralLost()
    ensures var code := CodeAlts(ThenLiteral());
            && Runnable(ThenLiteral()) && OneCharLoop(code, 37) && Pops(code, 37) && !Disjoint(code, 37)
            && Yields(code, [97], 0, -1) && MatchAlts(ThenLiteral(), [97], 0, 1)
  {
    var s: seq<Byte>, a := [97], ASet(false, All());
    AllHas(Trim(BitMap(All())));
    LiteralCode(All(), Trim(BitMap(All())));
    LiteralRun(CodeAlts(ThenLiteral()), Trim(BitMap(All())));
    OneOp(Star);
    TwoRunnable(Rep(a, [Star]), Run([Plain(97)]));
    OpOne(a, Star, s, 0, 0);
    MatchTwo(Rep(a, [Star]), Run([Plain(97)]), s, 0, 0, 1);
  }
}
