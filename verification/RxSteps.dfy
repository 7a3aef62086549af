// What one token does to the compiler's state: the state is always the one that the
// bytes read so far stand for.
module RxSteps {
  import opened RxBytes
  import opened RxSyntax
  import opened RxCode
  import opened RxReading
  import opened RxMeaning

  // The compiler's variables, with addresses as offsets from the start of the buffer.
  datatype St = St(code: seq<Byte>, laststart: int, begalt: int, fixup: int, pending: int, regnum: nat, stack: seq<Elt>)

  // A postfix operator begins at p.
  predicate OpAt(pat: seq<Byte>, p: nat) {
    ByteAt(pat, p) == STAR || (ByteAt(pat, p) == BACKSLASH && ByteAt(pat, p + 1) in {PLUS, QM})
  }

  predicate SoundCtx(x: Ctx) {
    SoundAlts(x.alts) && SoundBranch(x.cur) && (x.Inside? ==> SoundCtx(x.outer))
  }

  predicate TextIs(pat: seq<Byte>, p: nat, x: Ctx) {
    p <= |pat| && pat[..p] == TextOf(x)
  }

  predicate CodeAs(st: St, x: Ctx)
    requires Slots(x)
  {
    && st.code == CodeOf(x) && st.begalt == BegAlt(x) && st.fixup == Fixup(x)
    && st.laststart == LastStart(x) && st.stack == StackOf(x)
  }

  // Mentioning Peek(0) unfolds CodeIs; elsewhere the verifier carries it as it is.
  ghost predicate CodeIs(st: St, x: Ctx) {
    Slots(x) && forall n: int {:trigger Peek(n)} :: Peek(n) && n == 0 ==> CodeAs(st, x)
  }

  predicate ShapeOk(regnum: nat, x: Ctx) {
    PlainCtx(x) && RegsIn(x, regnum) && (regnum <= 255 ==> SoundCtx(x))
  }

  // The count byte of the last exactn begun, if any: either its run is the last chunk and
  // ends the buffer, or other code follows it.
  predicate PendingOk(st: St, cur: seq<Chunk>) {
    st.pending == -1 ||
    (0 <= st.pending < |st.code| &&
     (st.pending + 1 + st.code[st.pending] < |st.code| ||
      (st.pending + 1 + st.code[st.pending] == |st.code| && cur != [] && cur[|cur| - 1].Run?
       && st.pending == st.laststart + 1 && st.code[st.pending] == |cur[|cur| - 1].lits|)))
  }

  // A chunk that an operator may follow: one character, or one atom not yet repeated.
  predicate Single(c: Chunk) {
    match c case Run(ls) => |ls| == 1 case Rep(_, ops) => ops == []
  }

  predicate Settled(pat: seq<Byte>, p: nat, cur: seq<Chunk>) {
    cur != [] ==> Single(cur[|cur| - 1]) || !OpAt(pat, p)
  }

  // The first p bytes of pat read as x, and st is the compiler's state at that point.
  ghost predicate Reads(pat: seq<Byte>, p: nat, st: St, x: Ctx) {
    TextIs(pat, p, x) && CodeIs(st, x) && ShapeOk(st.regnum, x) && PendingOk(st, x.cur) && Settled(pat, p, x.cur)
  }

  // The context with its current branch changed.
  function With(x: Ctx, cur: seq<Chunk>): (y: Ctx) { x.(cur := cur) }

  // ---- the current branch, one chunk longer ----------------------------------

  lemma Assoc(a: seq<Byte>, b: seq<Byte>, c: seq<Byte>)
    ensures (a + b) + c == a + (b + c)
  {
  }

  lemma WithSame(x: Ctx, cur: seq<Chunk>)
    requires Slots(x)
    ensures var y := With(x, cur);
            && Slots(y) && Before(y) == Before(x) && BegAlt(y) == BegAlt(x) && Fixup(y) == Fixup(x)
            && StackOf(y) == StackOf(x)
  {
    var y := With(x, cur);
    assert y.Inside? ==> y.outer == x.outer;
  }

  lemma CodeSnoc(x: Ctx, c: Chunk)
    requires Slots(x)
    ensures var y := With(x, x.cur + [c]);
            && Slots(y) && CodeOf(y) == CodeOf(x) + CodeChunk(c) && LastStart(y) == |CodeOf(x)|
            && BegAlt(y) == BegAlt(x) && Fixup(y) == Fixup(x) && StackOf(y) == StackOf(x)
  {
    var y := With(x, x.cur + [c]);
    WithSame(x, x.cur + [c]);
    BranchSnoc(x.cur, c);
    Assoc(Before(x), CodeBranch(x.cur), CodeChunk(c));
    assert y.cur[|y.cur| - 1] == c;
  }

  // The text before the current branch.
  function TextBefore(x: Ctx): seq<Byte> {
    (if x.Inside? then TextOf(x.outer) + [BACKSLASH, LPAREN] else []) + TextDone(x.alts)
  }

  lemma TextParts(x: Ctx, cur: seq<Chunk>)
    ensures TextOf(With(x, cur)) == TextBefore(x) + TextBranch(cur)
  {
    var y := With(x, cur);
    assert y.Inside? ==> y.outer == x.outer;
  }

  lemma TextSnoc(x: Ctx, c: Chunk)
    ensures TextOf(With(x, x.cur + [c])) == TextOf(x) + TextChunk(c)
  {
    TextParts(x, x.cur);
    TextParts(x, x.cur + [c]);
    assert With(x, x.cur) == x;
    BranchSnoc(x.cur, c);
    Assoc(TextBefore(x), TextBranch(x.cur), TextChunk(c));
  }

  lemma ShapeSnoc(regnum: nat, x: Ctx, c: Chunk)
    requires ShapeOk(regnum, x) && PlainChunk(c, x.cur == []) && (regnum <= 255 ==> SoundChunk(c))
    ensures ShapeOk(regnum, With(x, x.cur + [c]))
  {
    var y := With(x, x.cur + [c]);
    assert y.Inside? ==> y.outer == x.outer;
  }

  // The context without its last chunk.
  function Init(x: Ctx): Ctx
    requires x.cur != []
  {
    With(x, x.cur[..|x.cur| - 1])
  }

  lemma InitIs(x: Ctx)
    requires x.cur != []
    ensures With(Init(x), Init(x).cur + [x.cur[|x.cur| - 1]]) == x
  {
    assert x.cur[..|x.cur| - 1] + [x.cur[|x.cur| - 1]] == x.cur;
  }

  lemma ShapeInit(regnum: nat, x: Ctx)
    requires ShapeOk(regnum, x) && x.cur != []
    ensures ShapeOk(regnum, Init(x))
    ensures PlainChunk(x.cur[|x.cur| - 1], Init(x).cur == [])
    ensures regnum <= 255 ==> SoundChunk(x.cur[|x.cur| - 1])
  {
    var y := Init(x);
    assert y.Inside? ==> y.outer == x.outer;
  }

  lemma CodeInit(st: St, x: Ctx)
    requires CodeIs(st, x) && x.cur != []
    ensures Slots(Init(x)) && 0 <= st.laststart <= |st.code|
    ensures st.code[..st.laststart] == CodeOf(Init(x)) && st.code[st.laststart..] == CodeChunk(x.cur[|x.cur| - 1])
    ensures BegAlt(Init(x)) == st.begalt && Fixup(Init(x)) == st.fixup && StackOf(Init(x)) == st.stack
  {
    assert Peek(0);
    var y := Init(x);
    assert y.Inside? ==> y.outer == x.outer;
    CodeSnoc(y, x.cur[|x.cur| - 1]);
    InitIs(x);
  }

  // The last chunk replaced by c1: the state with the code after laststart replaced.
  lemma CodeSwap(st: St, x: Ctx, c1: Chunk)
    requires CodeIs(st, x) && x.cur != []
    ensures 0 <= st.laststart <= |st.code|
    ensures CodeIs(st.(code := st.code[..st.laststart] + CodeChunk(c1)), With(x, x.cur[..|x.cur| - 1] + [c1]))
  {
    CodeInit(st, x);
    CodeSnoc(Init(x), c1);
  }

  lemma CodeSwapTo(st: St, x: Ctx, c1: Chunk, code: seq<Byte>)
    requires CodeIs(st, x) && x.cur != [] && 0 <= st.laststart <= |st.code|
    requires code == st.code[..st.laststart] + CodeChunk(c1)
    ensures CodeIs(st.(code := code), With(x, x.cur[..|x.cur| - 1] + [c1]))
  {
    CodeSwap(st, x, c1);
  }

  lemma TextSwap(x: Ctx, c1: Chunk, t: seq<Byte>)
    requires x.cur != [] && TextChunk(c1) == TextChunk(x.cur[|x.cur| - 1]) + t
    ensures TextOf(With(x, x.cur[..|x.cur| - 1] + [c1])) == TextOf(x) + t
  {
    InitIs(x);
    var c0 := x.cur[|x.cur| - 1];
    TextSnoc(Init(x), c0);
    TextSnoc(Init(x), c1);
    Assoc(TextOf(Init(x)), TextChunk(c0), t);
  }

  lemma ShapeSwap(regnum: nat, x: Ctx, c1: Chunk)
    requires ShapeOk(regnum, x) && x.cur != []
    requires PlainChunk(c1, |x.cur| == 1) && (regnum <= 255 ==> SoundChunk(c1))
    ensures ShapeOk(regnum, With(x, x.cur[..|x.cur| - 1] + [c1]))
  {
    ShapeInit(regnum, x);
    ShapeSnoc(regnum, Init(x), c1);
  }

  lemma TextOn(pat: seq<Byte>, p: nat, q: nat, x: Ctx, y: Ctx, t: seq<Byte>)
    requires TextIs(pat, p, x) && p <= q <= |pat| && pat[p..q] == t && TextOf(y) == TextOf(x) + t
    ensures TextIs(pat, q, y)
  {
    assert pat[..q] == pat[..p] + pat[p..q];
  }

  // ---- the tokens ---------------------------------------------------------------

  // A new chunk at the end of the current branch.
  lemma AddChunk(pat: seq<Byte>, p: nat, q: nat, st: St, x: Ctx, c: Chunk, pending: int)
    requires Reads(pat, p, st, x) && p <= q <= |pat| && pat[p..q] == TextChunk(c)
    requires PlainChunk(c, x.cur == []) && (st.regnum <= 255 ==> SoundChunk(c)) && CodeChunk(c) != [] && Single(c)
    requires pending == st.pending || pending == -1 || (c.Run? && pending == |st.code| + 1)
    ensures Reads(pat, q, st.(code := st.code + CodeChunk(c), laststart := |st.code|, pending := pending),
                  With(x, x.cur + [c]))
  {
    var y := With(x, x.cur + [c]);
    CodeSnoc(x, c);
    TextSnoc(x, c);
    TextOn(pat, p, q, x, y, TextChunk(c));
    ShapeSnoc(st.regnum, x, c);
    assert y.cur[|y.cur| - 1] == c;
    PendingAfter(st, x.cur, c, pending);
  }

  lemma PendingAfter(st: St, cur: seq<Chunk>, c: Chunk, pending: int)
    requires PendingOk(st, cur) && CodeChunk(c) != [] && Single(c)
    requires pending == st.pending || pending == -1 || (c.Run? && pending == |st.code| + 1)
    ensures PendingOk(st.(code := st.code + CodeChunk(c), laststart := |st.code|, pending := pending), cur + [c])
  {
  }

  function Counted(code: seq<Byte>, count: nat, c: Byte): seq<Byte>
    requires count < |code| && code[count] < 255
  {
    code[count := code[count] + 1] + [c]
  }

  // The context with one more literal in its last run.
  function Longer(x: Ctx, l: Lit): Ctx
    requires x.cur != [] && x.cur[|x.cur| - 1].Run?
  {
    With(x, x.cur[..|x.cur| - 1] + [Run(x.cur[|x.cur| - 1].lits + [l])])
  }

  // One more literal in the run at the end of the current branch.
  lemma ExtendRun(pat: seq<Byte>, p: nat, q: nat, st: St, x: Ctx, l: Lit)
    requires Reads(pat, p, st, x) && p <= q <= |pat| && pat[p..q] == TextLit(l)
    requires 0 <= st.pending < |st.code| && st.pending + 1 + st.code[st.pending] == |st.code|
             && st.code[st.pending] < 255
    requires PlainLit(l, false) && !OpAt(pat, q)
    ensures x.cur != [] && x.cur[|x.cur| - 1].Run?
    ensures Reads(pat, q, st.(code := Counted(st.code, st.pending, l.c)), Longer(x, l))
  {
    var c0 := x.cur[|x.cur| - 1];
    var c1 := Run(c0.lits + [l]);
    var y := With(x, x.cur[..|x.cur| - 1] + [c1]);
    RunCount(st, x);
    RunCode(st, x, l);
    TextGrows(c0.lits, l);
    TextSwap(x, c1, TextLit(l));
    TextOn(pat, p, q, x, y, TextLit(l));
    RunShape(st.regnum, x, l);
    assert y.cur[|y.cur| - 1] == c1;
  }

  lemma RunCount(st: St, x: Ctx)
    requires CodeIs(st, x) && x.cur != [] && x.cur[|x.cur| - 1].Run? && |x.cur[|x.cur| - 1].lits| < 255
    requires st.pending == st.laststart + 1
    ensures 0 <= st.pending < |st.code| && st.code[st.pending] == |x.cur[|x.cur| - 1].lits|
  {
    CodeInit(st, x);
    RunGrows(st.code, st.laststart, x.cur[|x.cur| - 1].lits, Lit(0, false));
  }

  lemma RunCode(st: St, x: Ctx, l: Lit)
    requires CodeIs(st, x) && x.cur != [] && x.cur[|x.cur| - 1].Run? && |x.cur[|x.cur| - 1].lits| < 255
    requires st.pending == st.laststart + 1
    requires 0 <= st.pending < |st.code| && st.code[st.pending] == |x.cur[|x.cur| - 1].lits|
    ensures CodeIs(st.(code := st.code[st.pending := st.code[st.pending] + 1] + [l.c]),
                   With(x, x.cur[..|x.cur| - 1] + [Run(x.cur[|x.cur| - 1].lits + [l])]))
  {
    var ls := x.cur[|x.cur| - 1].lits;
    CodeInit(st, x);
    RunBytes(st, x, l);
    CodeSwapTo(st, x, Run(ls + [l]), st.code[st.pending := st.code[st.pending] + 1] + [l.c]);
  }

  lemma RunBytes(st: St, x: Ctx, l: Lit)
    requires CodeIs(st, x) && x.cur != [] && x.cur[|x.cur| - 1].Run? && |x.cur[|x.cur| - 1].lits| < 255
    requires st.pending == st.laststart + 1
    requires 0 <= st.pending < |st.code| && st.code[st.pending] == |x.cur[|x.cur| - 1].lits| && 0 <= st.laststart
    ensures st.code[st.pending := st.code[st.pending] + 1] + [l.c] ==
            st.code[..st.laststart] + CodeChunk(Run(x.cur[|x.cur| - 1].lits + [l]))
  {
    CodeInit(st, x);
    RunGrows(st.code, st.laststart, x.cur[|x.cur| - 1].lits, l);
  }

  lemma RunShape(regnum: nat, x: Ctx, l: Lit)
    requires ShapeOk(regnum, x) && x.cur != [] && x.cur[|x.cur| - 1].Run? && |x.cur[|x.cur| - 1].lits| < 255
    requires PlainLit(l, false)
    ensures ShapeOk(regnum, With(x, x.cur[..|x.cur| - 1] + [Run(x.cur[|x.cur| - 1].lits + [l])]))
  {
    ShapeInit(regnum, x);
    PlainGrows(x.cur[|x.cur| - 1].lits, l, |x.cur| == 1);
    ShapeSwap(regnum, x, Run(x.cur[|x.cur| - 1].lits + [l]));
  }

  lemma RunGrows(code: seq<Byte>, at: nat, ls: seq<Lit>, l: Lit)
    requires at <= |code| && code[at..] == CodeChunk(Run(ls)) && |ls| < 255
    ensures at + 1 < |code| && code[at + 1] == |ls|
    ensures code[at + 1 := code[at + 1] + 1] + [l.c] == code[..at] + CodeChunk(Run(ls + [l]))
  {
    var c := CodeChunk(Run(ls));
    assert c[0] == EXACTN && c[1] == |ls|;
    assert code[at + 1] == c[1];
    assert LitBytes(ls + [l]) == LitBytes(ls) + [l.c];
    assert CodeChunk(Run(ls + [l])) == c[1 := c[1] + 1] + [l.c];
    assert code == code[..at] + c;
  }

  lemma TextGrows(ls: seq<Lit>, l: Lit)
    ensures TextLits(ls + [l]) == TextLits(ls) + TextLit(l)
  {
    assert (ls + [l])[..|ls|] == ls;
  }

  lemma PlainGrows(ls: seq<Lit>, l: Lit, first: bool)
    requires PlainChunk(Run(ls), first) && PlainLit(l, false)
    ensures PlainChunk(Run(ls + [l]), first)
  {
  }

  // The atom that a postfix operator applies to.
  function Operand(c: Chunk): Atom
    requires Single(c)
  {
    match c case Run(ls) => AChar(ls[0]) case Rep(a, _) => a
  }

  lemma OperandIs(c: Chunk, ops: seq<Op>, first: bool)
    requires Single(c) && ops != [] && PlainChunk(c, first)
    ensures CodeAtom(Operand(c)) == CodeChunk(c)
    ensures TextChunk(Rep(Operand(c), ops)) == TextChunk(c) + TextOps(ops)
    ensures PlainChunk(Rep(Operand(c), ops), first)
    ensures SoundChunk(c) ==> SoundChunk(Rep(Operand(c), ops))
  {
    match c
    case Run(ls) =>
      assert ls == [ls[0]];
      assert TextLits(ls) == TextLits([]) + TextLit(ls[0]) by { assert ls[..0] == []; }
    case Rep(a, o) =>
      assert TextOps(o) == [];
  }

  // Postfix operators after the last chunk.
  lemma AddOps(pat: seq<Byte>, p: nat, q: nat, st: St, x: Ctx, ops: seq<Op>)
    requires Reads(pat, p, st, x) && p <= q <= |pat| && pat[p..q] == TextOps(ops) && ops != [] && !OpAt(pat, q)
    requires x.cur != [] && OpAt(pat, p)
    ensures Single(x.cur[|x.cur| - 1]) && 0 <= st.laststart <= |st.code|
    ensures Reads(pat, q,
                  st.(code := st.code[..st.laststart] + CodeRep(st.code[st.laststart..], ZeroOk(ops), ManyOk(ops)),
                      pending := -1),
                  With(x, x.cur[..|x.cur| - 1] + [Rep(Operand(x.cur[|x.cur| - 1]), ops)]))
  {
    var c0 := x.cur[|x.cur| - 1];
    var c1 := Rep(Operand(c0), ops);
    var y := With(x, x.cur[..|x.cur| - 1] + [c1]);
    ShapeInit(st.regnum, x);
    OperandIs(c0, ops, |x.cur| == 1);
    CodeInit(st, x);
    CodeSwap(st, x, c1);
    TextSwap(x, c1, TextOps(ops));
    TextOn(pat, p, q, x, y, TextOps(ops));
    ShapeSwap(st.regnum, x, c1);
    assert y.cur[|y.cur| - 1] == c1;
  }

  // \( : a new group begins.
  lemma OpenGroup(pat: seq<Byte>, p: nat, st: St, x: Ctx, elt: Elt)
    requires Reads(pat, p, st, x) && p + 2 <= |pat| && pat[p..p + 2] == [BACKSLASH, LPAREN]
    requires st.begalt >= 0 && st.fixup >= -1
    requires elt == Elt(st.begalt, st.fixup + 1, if st.regnum + 1 <= 255 then |st.code| + 2 else 0, |st.code|,
                        st.regnum + 1)
    ensures var code := st.code + Memory(START_MEMORY, st.regnum + 1, 0);
            Reads(pat, p + 2, St(code, -1, |code|, -1, -1, st.regnum + 1, st.stack + [elt]),
                  Inside(x, st.regnum + 1, [], [0, 0, 0], []))
  {
    var y := Inside(x, st.regnum + 1, [], [0, 0, 0], []);
    OpenText(x, st.regnum + 1);
    TextOn(pat, p, p + 2, x, y, [BACKSLASH, LPAREN]);
    RegsMore(x, st.regnum, st.regnum + 1);
    OpenCode(st, x, elt);
  }

  lemma OpenText(x: Ctx, reg: nat)
    ensures TextOf(Inside(x, reg, [], [0, 0, 0], [])) == TextOf(x) + [BACKSLASH, LPAREN]
  {
    var t := TextOf(x) + [BACKSLASH, LPAREN];
    assert t + [] + [] == t;
  }

  lemma OpenCode(st: St, x: Ctx, elt: Elt)
    requires CodeIs(st, x) && st.begalt >= 0 && st.fixup >= -1
    requires elt == Elt(st.begalt, st.fixup + 1, if st.regnum + 1 <= 255 then |st.code| + 2 else 0, |st.code|,
                        st.regnum + 1)
    ensures var code := st.code + Memory(START_MEMORY, st.regnum + 1, 0);
            CodeIs(St(code, -1, |code|, -1, -1, st.regnum + 1, st.stack + [elt]),
                   Inside(x, st.regnum + 1, [], [0, 0, 0], []))
  {
    assert Peek(0);
    var code := st.code + Memory(START_MEMORY, st.regnum + 1, 0);
    var y := Inside(x, st.regnum + 1, [], [0, 0, 0], []);
    assert Before(y) == code && CodeOf(y) == code;
    assert StackOf(y) == st.stack + [elt];
  }

  lemma {:induction false} RegsMore(x: Ctx, n: nat, m: nat)
    requires RegsIn(x, n) && n <= m
    ensures RegsIn(x, m)
  {
    if x.Inside? { RegsMore(x.outer, n, m); }
  }

  // The start_memory of the open group, if there is one.
  function Head(x: Ctx): seq<Byte>
    requires Slots(x)
  {
    if x.Inside? then CodeOf(x.outer) + Memory(START_MEMORY, x.reg, 0) else []
  }

  // The code before the current alternative, its code, and where they meet. Peek(n) unfolds it.
  ghost predicate Made(head: seq<Byte>, pre: seq<Byte>, cb: seq<Byte>, code: seq<Byte>, begalt: int, fixup: int) {
    forall n: int {:trigger Peek(n)} :: Peek(n) && n == begalt ==>
      && code == (head + pre) + cb && n == |head + pre|
      && (if fixup == -1 then pre == [] else |pre| >= 6 && fixup == n - 3 >= 0)
  }

  lemma MadeOf(x: Ctx)
    requires Slots(x)
    ensures Made(Head(x), Pre(x.alts, x.slot), CodeBranch(x.cur), CodeOf(x), BegAlt(x), Fixup(x))
    ensures -1 <= Fixup(x) && (Fixup(x) == -1 <==> x.alts == [])
  {
    CodeParts(x);
  }

  lemma CodeParts(x: Ctx)
    requires Slots(x)
    ensures CodeOf(x) == (Head(x) + Pre(x.alts, x.slot)) + CodeBranch(x.cur)
    ensures BegAlt(x) == |Head(x) + Pre(x.alts, x.slot)|
    ensures x.alts == [] ==> Pre(x.alts, x.slot) == [] && Fixup(x) == -1
    ensures x.alts != [] ==> |Pre(x.alts, x.slot)| >= 6 && Fixup(x) == BegAlt(x) - 3 >= 0
  {
    PreLength(x.alts, x.slot);
  }

  // The context after \|
  function Following(x: Ctx, slot: seq<Byte>): Ctx {
    x.(alts := x.alts + [Branch(x.cur)], slot := slot, cur := [])
  }

  // \| : the alternative ends and another begins.
  lemma NextAlt(pat: seq<Byte>, p: nat, st: St, x: Ctx, code: seq<Byte>, slot: seq<Byte>)
    requires Reads(pat, p, st, x) && p + 2 <= |pat| && pat[p..p + 2] == [BACKSLASH, BAR] && |slot| == 3
    requires 0 <= st.begalt <= |st.code| && -1 <= st.fixup <= |st.code|
    requires var cb := st.code[st.begalt..];
             code == (if st.fixup == -1 then st.code[..st.begalt] + (Lead(cb) + slot)
                      else st.code[..st.fixup] + Switch(cb, slot))
    ensures Reads(pat, p + 2, St(code, -1, |code|, |code| - 3, -1, st.regnum, st.stack), Following(x, slot))
  {
    var y := Following(x, slot);
    FollowingText(x, slot);
    TextOn(pat, p, p + 2, x, y, [BACKSLASH, BAR]);
    FollowingShape(st.regnum, x, slot);
    FollowingCode(st, x, code, slot);
  }

  lemma FollowingText(x: Ctx, slot: seq<Byte>)
    ensures TextOf(Following(x, slot)) == TextOf(x) + [BACKSLASH, BAR]
  {
    var y := Following(x, slot);
    assert y.Inside? ==> y.outer == x.outer;
    assert y.alts[..|y.alts| - 1] == x.alts;
    assert TextDone(y.alts) == TextDone(x.alts) + TextBranch(x.cur) + [BACKSLASH, BAR];
  }

  lemma FollowingShape(regnum: nat, x: Ctx, slot: seq<Byte>)
    requires ShapeOk(regnum, x)
    ensures ShapeOk(regnum, Following(x, slot))
  {
    var y := Following(x, slot);
    assert y.Inside? ==> y.outer == x.outer;
    assert PlainAlts(y.alts);
    assert regnum <= 255 ==> SoundAlts(y.alts);
  }

  lemma FollowingCode(st: St, x: Ctx, code: seq<Byte>, slot: seq<Byte>)
    requires CodeIs(st, x) && |slot| == 3
    requires 0 <= st.begalt <= |st.code| && -1 <= st.fixup <= |st.code|
    requires var cb := st.code[st.begalt..];
             code == (if st.fixup == -1 then st.code[..st.begalt] + (Lead(cb) + slot)
                      else st.code[..st.fixup] + Switch(cb, slot))
    ensures CodeIs(St(code, -1, |code|, |code| - 3, -1, st.regnum, st.stack), Following(x, slot))
  {
    FollowingBytes(st, x, code, slot);
    FollowingStack(x, slot);
    FollowingEnd(Following(x, slot), code);
  }

  lemma FollowingBytes(st: St, x: Ctx, code: seq<Byte>, slot: seq<Byte>)
    requires CodeIs(st, x) && |slot| == 3
    requires 0 <= st.begalt <= |st.code| && -1 <= st.fixup <= |st.code|
    requires var cb := st.code[st.begalt..];
             code == (if st.fixup == -1 then st.code[..st.begalt] + (Lead(cb) + slot)
                      else st.code[..st.fixup] + Switch(cb, slot))
    ensures code == Head(x) + Pre(x.alts + [Branch(x.cur)], slot)
  {
    IsParts(st, x);
    FollowingPre(x.alts, x.slot, Branch(x.cur), slot);
    FollowingSeq(Head(x), Pre(x.alts, x.slot), CodeBranch(x.cur), st.code, st.begalt, st.fixup, slot, code,
                 Pre(x.alts + [Branch(x.cur)], slot));
  }

  lemma IsParts(st: St, x: Ctx)
    requires CodeIs(st, x)
    ensures Made(Head(x), Pre(x.alts, x.slot), CodeBranch(x.cur), st.code, st.begalt, st.fixup)
    ensures st.fixup == -1 <==> x.alts == []
  {
    assert Peek(0);
    MadeOf(x);
  }

  lemma FollowingSeq(head: seq<Byte>, pre: seq<Byte>, cb: seq<Byte>, code0: seq<Byte>, begalt: int, fixup: int,
                     slot: seq<Byte>, code: seq<Byte>, pre': seq<Byte>)
    requires Made(head, pre, cb, code0, begalt, fixup) && Switched(pre, cb, slot, pre')
    requires 0 <= begalt <= |code0| && -1 <= fixup <= |code0|
    requires code == (if fixup == -1 then code0[..begalt] + (Lead(code0[begalt..]) + slot)
                      else code0[..fixup] + Switch(code0[begalt..], slot))
    ensures code == head + pre'
  {
    assert Peek(begalt) && Peek(|pre|);
    Slices(head, pre, cb);
    if fixup == -1 {
      assert head + [] == head;
    } else {
      SpliceAt(head, pre, cb, Switch(cb, slot));
    }
  }

  lemma FollowingEnd(y: Ctx, code: seq<Byte>)
    requires Slots(y) && y.cur == [] && y.alts != [] && code == Head(y) + Pre(y.alts, y.slot)
    ensures CodeOf(y) == code && BegAlt(y) == |code| && Fixup(y) == |code| - 3 && LastStart(y) == -1
  {
    CodeParts(y);
  }

  // Everything from three bytes before cb replaced by z.
  lemma SpliceAt(head: seq<Byte>, pre: seq<Byte>, cb: seq<Byte>, z: seq<Byte>)
    requires |pre| >= 3
    ensures ((head + pre) + cb)[..|head + pre| - 3] + z == head + (pre[..|pre| - 3] + z)
  {
    Slices(head, pre, cb);
    Assoc(head, pre[..|pre| - 3], z);
  }

  // Taking apart (head + pre) + cb at the start of cb and three bytes before it.
  lemma Slices(head: seq<Byte>, pre: seq<Byte>, cb: seq<Byte>)
    ensures var c := (head + pre) + cb; var n := |head + pre|;
            c[n..] == cb && c[..n] == head + pre && (|pre| >= 3 ==> c[..n - 3] == head + pre[..|pre| - 3])
  {
    var c := (head + pre) + cb;
    var n := |head + pre|;
    if |pre| >= 3 {
      assert c[..n - 3] == (head + pre)[..n - 3];
    }
  }

  lemma FollowingStack(x: Ctx, slot: seq<Byte>)
    requires Slots(x) && |slot| == 3
    ensures Slots(Following(x, slot)) && StackOf(Following(x, slot)) == StackOf(x)
            && Head(Following(x, slot)) == Head(x)
  {
    var y := Following(x, slot);
    assert y.Inside? ==> y.outer == x.outer;
  }

  lemma FollowingPre(alts: seq<Branch>, slot: seq<Byte>, b: Branch, slot': seq<Byte>)
    requires |slot| == 3 && |slot'| == 3
    ensures Switched(Pre(alts, slot), CodeBranch(b.chunks), slot', Pre(alts + [b], slot'))
  {
    if alts == [] {
      assert alts + [b] == [b];
    } else {
      PreExtend(alts, slot, b, slot');
    }
  }

  // With the jump at f filled in, if there is one, code is t. Peek(f) unfolds it.
  ghost predicate Ended(code: seq<Byte>, f: int, t: seq<Byte>) {
    && (f == -1 || 0 <= f <= |code| - 3)
    && forall n: int {:trigger Peek(n)} :: Peek(n) && n == f ==>
         t == if n == -1 then code else code[..n] + Jmp(JUMP_PAST_ALT, |code| - n - 3) + code[n + 3..]
  }

  // The finished alternation of a context whose last alternative is complete.
  lemma FinishAlts(st: St, x: Ctx)
    requires CodeIs(st, x)
    ensures st.fixup == -1 <==> x.alts == []
    ensures Ended(st.code, st.fixup, Head(x) + CodeAlts(x.alts + [Branch(x.cur)]))
  {
    IsParts(st, x);
    FinishPre(x.alts, x.slot, Branch(x.cur));
    FinishSeq(Head(x), Pre(x.alts, x.slot), CodeBranch(x.cur), st.code, st.begalt, st.fixup,
              CodeAlts(x.alts + [Branch(x.cur)]));
  }

  lemma FinishSeq(head: seq<Byte>, pre: seq<Byte>, cb: seq<Byte>, code: seq<Byte>, begalt: int, f: int,
                  whole: seq<Byte>)
    requires Made(head, pre, cb, code, begalt, f) && Finished(pre, cb, whole)
    ensures Ended(code, f, head + whole)
  {
    assert Peek(begalt) && Peek(|pre|);
    if f == -1 {
      assert head + [] == head;
    } else {
      var j := Jmp(JUMP_PAST_ALT, |cb|);
      Slices(head, pre, cb);
      SpliceAt(head, pre, cb, j + cb);
      Assoc(code[..f], j, cb);
    }
  }

  lemma FinishPre(alts: seq<Branch>, slot: seq<Byte>, b: Branch)
    requires |slot| == 3
    ensures Finished(Pre(alts, slot), CodeBranch(b.chunks), CodeAlts(alts + [b]))
  {
    if alts == [] {
      assert alts + [b] == [b];
    } else {
      PreFinish(alts, slot, b);
    }
  }

  function GroupOf(x: Ctx, regnum: nat): Chunk
    requires x.Inside? && x.reg <= regnum
  {
    Rep(AGroup(x.reg, regnum - x.reg, x.alts + [Branch(x.cur)]), [])
  }

  // \) : the group is complete and becomes the last chunk of the enclosing branch.
  lemma CloseGroup(pat: seq<Byte>, p: nat, st: St, x: Ctx)
    requires Reads(pat, p, st, x) && p + 2 <= |pat| && pat[p..p + 2] == [BACKSLASH, RPAREN] && x.Inside?
    ensures st.stack != [] && x.reg <= st.regnum
    ensures var e := st.stack[|st.stack| - 1];
            && e.regnum == x.reg && e.laststart == |CodeOf(x.outer)| && (x.reg <= 255 ==> e.inner == e.laststart + 2)
            && Reads(pat, p + 2,
                     St(CodeOf(x.outer) + CodeChunk(GroupOf(x, st.regnum)), e.laststart, e.begalt, e.fixup as int - 1,
                        -1,
                        st.regnum, st.stack[..|st.stack| - 1]),
                     With(x.outer, x.outer.cur + [GroupOf(x, st.regnum)]))
  {
    assert Peek(0);
    var o, g := x.outer, GroupOf(x, st.regnum);
    var y := With(o, o.cur + [g]);
    GroupShape(st.regnum, x);
    GroupText(x, st.regnum);
    TextSnoc(o, g);
    TextOn(pat, p, p + 2, x, y, [BACKSLASH, RPAREN]);
    CodeSnoc(o, g);
    PreLength(o.alts, o.slot);
    assert st.stack[..|st.stack| - 1] == StackOf(o);
    assert y.cur[|y.cur| - 1] == g;
  }

  lemma GroupShape(regnum: nat, x: Ctx)
    requires ShapeOk(regnum, x) && x.Inside?
    ensures x.reg <= regnum && ShapeOk(regnum, With(x.outer, x.outer.cur + [GroupOf(x, regnum)]))
  {
    var g := GroupOf(x, regnum);
    assert PlainAlts(g.atom.alts);
    assert regnum <= 255 ==> SoundAlts(g.atom.alts);
    ShapeSnoc(regnum, x.outer, g);
  }

  lemma GroupText(x: Ctx, regnum: nat)
    requires x.Inside? && x.reg <= regnum
    ensures TextOf(x.outer) + TextChunk(GroupOf(x, regnum)) == TextOf(x) + [BACKSLASH, RPAREN]
  {
    var g := GroupOf(x, regnum);
    var alts := g.atom.alts;
    assert alts[..|alts| - 1] == x.alts && alts[|alts| - 1] == Branch(x.cur);
    assert TextOps([]) == [];
    assert TextChunk(g) == TextAtom(g.atom);
    assert TextAtom(g.atom) == [BACKSLASH, LPAREN] + TextDone(x.alts) + TextBranch(x.cur) + [BACKSLASH, RPAREN];
    assert TextOf(x) == TextOf(x.outer) + [BACKSLASH, LPAREN] + TextDone(x.alts) + TextBranch(x.cur);
  }
}
