// The code of a pattern moves the subject exactly as the pattern's language says.
module RxMeaning {
  import opened RxBytes
  import opened RxSyntax
  import opened RxLang
  import opened RxCode
  import opened RxVm

  ghost function LangAtom(a: Atom, s: seq<Byte>): Lang { (i, j) => MatchAtom(a, s, i, j) }
  ghost function LangChunk(c: Chunk, s: seq<Byte>): Lang { (i, j) => MatchChunk(c, s, i, j) }
  ghost function LangBranch(cs: seq<Chunk>, s: seq<Byte>): Lang { (i, j) => MatchBranch(cs, s, i, j) }
  ghost function LangAlts(alts: seq<Branch>, s: seq<Byte>): Lang { (i, j) => MatchAlts(alts, s, i, j) }

  // ---- bounds and emptiness ------------------------------------------------

  lemma {:induction false} AtomBounds(a: Atom, s: seq<Byte>, i: int, j: int)
    requires MatchAtom(a, s, i, j) && 0 <= i <= |s|
    ensures i <= j <= |s| && (i == j ==> NullAtom(a))
    decreases a, 2
  {
    if a.AGroup? {
      var k :| 0 <= k < |a.alts| && MatchBranch(a.alts[k].chunks, s, i, j);
      BranchBounds(a.alts[k].chunks, s, i, j);
    }
  }

  lemma {:induction false} BranchBounds(cs: seq<Chunk>, s: seq<Byte>, i: int, j: int)
    requires MatchBranch(cs, s, i, j) && 0 <= i <= |s|
    ensures i <= j <= |s| && (i == j ==> NullBranch(cs))
    decreases cs, 0
  {
    if cs != [] {
      var k :| MatchChunk(cs[0], s, i, k) && MatchBranch(cs[1..], s, k, j);
      ChunkBounds(cs[0], s, i, k);
      BranchBounds(cs[1..], s, k, j);
    }
  }

  lemma {:induction false} ChunkBounds(c: Chunk, s: seq<Byte>, i: int, j: int)
    requires MatchChunk(c, s, i, j) && 0 <= i <= |s|
    ensures i <= j <= |s| && (i == j ==> NullChunk(c))
    decreases c, 3
  {
    if c.Rep? {
      var R: Lang := (x, y) => MatchAtom(c.atom, s, x, y);
      NestIsCollapsed(R, c.ops, i, j);
      forall x, y | 0 <= x <= |s| && R(x, y) ensures x <= y <= |s| && (x == y ==> NullAtom(c.atom)) {
        AtomBounds(c.atom, s, x, y);
      }
      if ManyOk(c.ops) && exists n: nat :: n > 0 && Pow(R, n, i, j) {
        var n: nat :| n > 0 && Pow(R, n, i, j);
        PowBounds(R, s, n, i, j, NullAtom(c.atom));
      }
    }
  }

  lemma {:induction false} PowBounds(R: Lang, s: seq<Byte>, n: nat, i: int, j: int, empty: bool)
    requires Pow(R, n, i, j) && 0 <= i <= |s|
    requires forall x, y :: 0 <= x <= |s| && R(x, y) ==> x <= y <= |s| && (x == y ==> empty)
    ensures i <= j <= |s| && (n > 0 && i == j ==> empty)
  {
    if n > 0 {
      var k :| R(i, k) && Pow(R, n - 1, k, j);
      PowBounds(R, s, n - 1, k, j, empty);
    }
  }

  // ---- well-formed patterns --------------------------------------------------

  predicate SoundAtom(a: Atom) {
    a.AGroup? ==> a.reg <= 255 && a.alts != [] && SoundAlts(a.alts)
  }

  predicate SoundAlts(alts: seq<Branch>) {
    forall k :: 0 <= k < |alts| ==> SoundBranch(alts[k].chunks)
  }

  predicate SoundBranch(cs: seq<Chunk>) {
    forall k :: 0 <= k < |cs| ==> SoundChunk(cs[k])
  }

  // Runs have a length their count byte can hold; groups have a register (MAX_REGNUM).
  predicate SoundChunk(c: Chunk) {
    match c
    case Run(lits) => 0 < |lits| <= 255
    case Rep(a, _) => SoundAtom(a)
  }

  // ---- where code lies ---------------------------------------------------------

  ghost predicate At(code: seq<Byte>, lo: int, c: seq<Byte>) {
    && 0 <= lo && lo + |c| <= |code|
    && forall x: int {:trigger Peek(x)} :: Peek(x) && x == lo ==> code[lo..lo + |c|] == c
  }

  lemma AtSplit(code: seq<Byte>, lo: int, a: seq<Byte>, b: seq<Byte>)
    requires At(code, lo, a + b)
    ensures At(code, lo, a) && At(code, lo + |a|, b)
  {
    assert Peek(lo);
    var c := code[lo..lo + |a + b|];
    assert c[..|a|] == a && c[|a|..] == b;
    assert code[lo..lo + |a|] == c[..|a|];
    assert code[lo + |a|..lo + |a| + |b|] == c[|a|..];
  }

  lemma AtByte(code: seq<Byte>, lo: int, c: seq<Byte>, k: int)
    requires At(code, lo, c) && 0 <= k < |c|
    ensures code[lo + k] == c[k]
  {
    assert Peek(lo);
    assert code[lo..lo + |c|][k] == code[lo + k];
  }

  // A jump whose distance fits two bytes is read back as stored.
  lemma AtJump(code: seq<Byte>, lo: int, op: Byte, off: int)
    requires At(code, lo, Jmp(op, off)) && -32768 <= off <= 32767
    ensures code[lo] == op && Target(code, lo) == lo + 3 + off
  {
    var c := Jmp(op, off);
    AtByte(code, lo, c, 0);
    AtByte(code, lo, c, 1);
    AtByte(code, lo, c, 2);
    assert c[1] == Enc16(off)[0] && c[2] == Enc16(off)[1];
    OffsetExact(off);
  }

  const LIMIT := 32767

  predicate Starter(b: Byte) { b !in {JUMP, MAYBE_POP_JUMP, POP_FAILURE_JUMP} }

  lemma ChunkStarts(c: Chunk)
    requires SoundChunk(c)
    ensures CodeChunk(c) != [] && Starter(CodeChunk(c)[0])
  {
    if c.Rep? {
      AtomStarts(c.atom);
    }
  }

  lemma AtomStarts(a: Atom)
    requires SoundAtom(a)
    ensures CodeAtom(a) != [] && Starter(CodeAtom(a)[0])
  {
  }

  lemma BranchStarts(code: seq<Byte>, lo: int, cs: seq<Chunk>)
    requires SoundBranch(cs) && At(code, lo, CodeBranch(cs))
    requires !BackJump(code, lo + |CodeBranch(cs)|)
    ensures !BackJump(code, lo)
  {
    if cs != [] {
      ChunkStarts(cs[0]);
      AtByte(code, lo, CodeBranch(cs), 0);
    }
  }

  lemma AltsStart(code: seq<Byte>, lo: int, alts: seq<Branch>)
    requires SoundAlts(alts) && alts != [] && At(code, lo, CodeAlts(alts))
    requires !BackJump(code, lo + |CodeAlts(alts)|)
    ensures !BackJump(code, lo)
  {
    if |alts| == 1 {
      BranchStarts(code, lo, alts[0].chunks);
    } else {
      AtByte(code, lo, CodeAlts(alts), 0);
    }
  }

  // ---- meaning ---------------------------------------------------------------

  lemma ActsJump(code: seq<Byte>, s: seq<Byte>, lo: int, hi: int, R: Lang)
    requires Legal(code, lo) && code[lo] in {JUMP_PAST_ALT, DUMMY_FAILURE_JUMP}
    requires Acts(code, s, Target(code, lo), hi, R)
    ensures Acts(code, s, lo, hi, R)
  {
    assert Peek(Target(code, lo));
    forall d | 0 <= d <= |s| ensures ActsAt(code, s, lo, hi, R, d) {
      assert ActsAt(code, s, Target(code, lo), hi, R, d);
      JumpIs(code, s, lo, d);
    }
  }

  lemma {:induction false} CharActs(a: Atom, code: seq<Byte>, s: seq<Byte>, lo: int)
    requires !a.AGroup? && At(code, lo, CodeAtom(a))
    ensures Acts(code, s, lo, lo + |CodeAtom(a)|, LangAtom(a, s))
  {
    var c := CodeAtom(a);
    var hi := lo + |c|;
    AtByte(code, lo, c, 0);
    if a.AChar? {
      AtByte(code, lo, c, 1);
      AtByte(code, lo, c, 2);
      assert code[lo + 2..lo + 3] == [a.lit.c];
      forall d | 0 <= d < |s| ensures s[d..d + 1] == [a.lit.c] <==> s[d] == a.lit.c { assert s[d..d + 1] == [s[d]]; }
    } else if a.ASet? {
      AtByte(code, lo, c, 1);
      assert code[lo + 2..hi] == Trim(BitMap(a.items)) by {
        assert c[..2] + c[2..] == c;
        AtSplit(code, lo, c[..2], c[2..]);
        assert Peek(lo + 2);
      }
    }
    ActsOne(code, s, lo, hi, LangAtom(a, s));
  }

  predicate SpellsLits(s: seq<Byte>, d: int, lits: seq<Lit>) {
    0 <= d && d + |lits| <= |s| && s[d..d + |lits|] == LitBytes(lits)
  }

  lemma SpellsIs(s: seq<Byte>, d: int, lits: seq<Lit>)
    ensures SpellsLits(s, d, lits) <==> MatchChunk(Run(lits), s, d, d + |lits|)
  {
    if MatchChunk(Run(lits), s, d, d + |lits|) {
      var w := s[d..d + |lits|];
      assert forall t :: 0 <= t < |lits| ==> w[t] == s[d + t];
    }
    if SpellsLits(s, d, lits) {
      var w := s[d..d + |lits|];
      forall t | 0 <= t < |lits| ensures s[d + t] == lits[t].c { assert w[t] == s[d + t]; }
    }
  }

  lemma {:induction false} RunActs(lits: seq<Lit>, code: seq<Byte>, s: seq<Byte>, lo: int)
    requires 0 < |lits| <= 255 && At(code, lo, CodeChunk(Run(lits)))
    ensures Acts(code, s, lo, lo + |CodeChunk(Run(lits))|, LangChunk(Run(lits), s))
  {
    var c := CodeChunk(Run(lits));
    var n := |lits|;
    AtByte(code, lo, c, 0);
    AtByte(code, lo, c, 1);
    AtSplit(code, lo, c[..2], c[2..]);
    assert c[..2] + c[2..] == c && c[2..] == LitBytes(lits);
    assert Peek(lo + 2);
    assert code[lo + 2..lo + 2 + n] == LitBytes(lits);
    forall d ensures SpellsLits(s, d, lits) <==> MatchChunk(Run(lits), s, d, d + n) { SpellsIs(s, d, lits); }
    ActsOne(code, s, lo, lo + |c|, LangChunk(Run(lits), s));
  }

  lemma {:induction false} AtomActs(a: Atom, code: seq<Byte>, s: seq<Byte>, lo: int)
    requires SoundAtom(a) && ProperAtom(a) && |code| <= LIMIT && At(code, lo, CodeAtom(a))
    ensures Acts(code, s, lo, lo + |CodeAtom(a)|, LangAtom(a, s))
    decreases a, 2
  {
    if !a.AGroup? {
      CharActs(a, code, s, lo);
    } else {
      var e, f := GroupLayout(a, code, lo);
      AltsActs(a.alts, code, s, lo + 3);
      ActsSame(code, s, lo + 3, e, LangAlts(a.alts, s), LangAtom(a, s));
      GroupActs(code, s, lo, e, f, LangAtom(a, s));
    }
  }

  // Where the pieces of a group lie.
  lemma GroupLayout(a: Atom, code: seq<Byte>, lo: int) returns (e: int, f: int)
    requires a.AGroup? && SoundAtom(a) && At(code, lo, CodeAtom(a))
    ensures f + 3 == lo + |CodeAtom(a)| <= |code| && e == lo + 3 + |CodeAlts(a.alts)|
    ensures At(code, lo + 3, CodeAlts(a.alts))
    ensures code[lo] == START_MEMORY && code[f] == STOP_MEMORY
    ensures f == e || (f == e + 1 && code[e] == PUSH_DUMMY_FAILURE)
  {
    var open, body := Memory(START_MEMORY, a.reg, a.inner), CodeAlts(a.alts);
    var dummy: seq<Byte> := if |a.alts| > 1 then [PUSH_DUMMY_FAILURE] else [];
    var close := Memory(STOP_MEMORY, a.reg, a.inner);
    assert CodeAtom(a) == open + (body + (dummy + close));
    AtSplit(code, lo, open, body + (dummy + close));
    AtSplit(code, lo + 3, body, dummy + close);
    e := lo + 3 + |body|;
    AtSplit(code, e, dummy, close);
    f := e + |dummy|;
    AtByte(code, lo, open, 0);
    AtByte(code, f, close, 0);
    if |a.alts| > 1 { AtByte(code, e, dummy, 0); }
  }

  // The memory instructions and the dummy failure point leave the subject alone.
  lemma GroupActs(code: seq<Byte>, s: seq<Byte>, lo: int, e: int, f: int, L: Lang)
    requires 0 <= lo && lo + 3 <= e <= f && f + 3 <= |code| && code[lo] == START_MEMORY && code[f] == STOP_MEMORY
    requires f == e || (f == e + 1 && code[e] == PUSH_DUMMY_FAILURE)
    requires Acts(code, s, lo + 3, e, L)
    ensures Acts(code, s, lo, f + 3, L)
  {
    ActsOne(code, s, lo, lo + 3, Id());
    ActsOne(code, s, f, f + 3, Id());
    ActsThen(code, s, lo + 3, e, f, L);
    ActsFirst(code, s, lo, lo + 3, f, L);
    ActsLast(code, s, lo, f, f + 3, L);
  }

  lemma ActsThen(code: seq<Byte>, s: seq<Byte>, lo: int, e: int, f: int, L: Lang)
    requires 0 <= e < |code| && (f == e || (f == e + 1 && code[e] == PUSH_DUMMY_FAILURE))
    requires Acts(code, s, lo, e, L)
    ensures Acts(code, s, lo, f, L)
  {
    if f != e {
      ActsOne(code, s, e, f, Id());
      ActsLast(code, s, lo, e, f, L);
    }
  }

  lemma ActsFirst(code: seq<Byte>, s: seq<Byte>, lo: int, mid: int, hi: int, L: Lang)
    requires Acts(code, s, lo, mid, Id()) && Acts(code, s, mid, hi, L)
    ensures Acts(code, s, lo, hi, L)
  {
    ActsCompose(code, s, lo, mid, hi, Id(), L);
    forall i, j ensures Compose(Id(), L)(i, j) <==> L(i, j) { if L(i, j) { assert Id()(i, i); } }
    ActsSame(code, s, lo, hi, Compose(Id(), L), L);
  }

  lemma ActsLast(code: seq<Byte>, s: seq<Byte>, lo: int, mid: int, hi: int, L: Lang)
    requires Acts(code, s, lo, mid, L) && Acts(code, s, mid, hi, Id())
    ensures Acts(code, s, lo, hi, L)
  {
    ActsCompose(code, s, lo, mid, hi, L, Id());
    forall i, j ensures Compose(L, Id())(i, j) <==> L(i, j) { if L(i, j) { assert Id()(j, j); } }
    ActsSame(code, s, lo, hi, Compose(L, Id()), L);
  }

  lemma {:induction false} AltsActs(alts: seq<Branch>, code: seq<Byte>, s: seq<Byte>, lo: int)
    requires SoundAlts(alts) && ProperAlts(alts) && alts != [] && |code| <= LIMIT && At(code, lo, CodeAlts(alts))
    requires !BackJump(code, lo + |CodeAlts(alts)|)
    requires |alts| > 1 ==> Landing(code, lo + |CodeAlts(alts)|)
    ensures Acts(code, s, lo, lo + |CodeAlts(alts)|, LangAlts(alts, s))
    decreases alts, 1
  {
    if |alts| == 1 {
      BranchActs(alts[0].chunks, code, s, lo);
      AltsSingle(alts, code, s, lo);
    } else {
      SoundRest(alts);
      var jpa, next, hi := AltsReady(alts, code, lo);
      BranchActs(alts[0].chunks, code, s, lo + 3);
      AltsActs(alts[1..], code, s, next);
      AltsClose(alts, code, s, lo, jpa, next, hi);
    }
  }

  lemma AltsClose(alts: seq<Branch>, code: seq<Byte>, s: seq<Byte>, lo: int, jpa: int, next: int, hi: int)
    requires |alts| > 1 && |code| <= LIMIT && At(code, lo, CodeAlts(alts)) && Landing(code, lo + |CodeAlts(alts)|)
    requires Legal(code, lo) && code[lo] == ON_FAILURE_JUMP && Target(code, lo) == next
    requires jpa == lo + 3 + |CodeBranch(alts[0].chunks)| && hi == lo + |CodeAlts(alts)|
    requires Acts(code, s, lo + 3, jpa, LangBranch(alts[0].chunks, s))
    requires Acts(code, s, next, hi, LangAlts(alts[1..], s))
    ensures Acts(code, s, lo, hi, LangAlts(alts, s))
  {
    ChainActs(alts, code, s, lo);
    AltsJoin(alts, code, s, lo, jpa, next, hi);
  }

  lemma AltsSingle(alts: seq<Branch>, code: seq<Byte>, s: seq<Byte>, lo: int)
    requires |alts| == 1
    requires Acts(code, s, lo, lo + |CodeBranch(alts[0].chunks)|, LangBranch(alts[0].chunks, s))
    ensures Acts(code, s, lo, lo + |CodeAlts(alts)|, LangAlts(alts, s))
  {
    ActsSame(code, s, lo, lo + |CodeAlts(alts)|, LangBranch(alts[0].chunks, s), LangAlts(alts, s));
  }

  lemma AltsReady(alts: seq<Branch>, code: seq<Byte>, lo: int) returns (jpa: int, next: int, hi: int)
    requires SoundAlts(alts) && |alts| > 1 && |code| <= LIMIT && At(code, lo, CodeAlts(alts))
    requires SoundAlts(alts[1..]) && !BackJump(code, lo + |CodeAlts(alts)|)
    ensures jpa == lo + 3 + |CodeBranch(alts[0].chunks)| && !BackJump(code, jpa)
    ensures hi == lo + |CodeAlts(alts)| && next + |CodeAlts(alts[1..])| == hi
    ensures At(code, lo + 3, CodeBranch(alts[0].chunks)) && At(code, next, CodeAlts(alts[1..]))
    ensures Legal(code, lo) && code[lo] == ON_FAILURE_JUMP && Target(code, lo) == next
  {
    hi := lo + |CodeAlts(alts)|;
    jpa, next := AltsLayout(alts, code, lo);
    AltsStart(code, next, alts[1..]);
  }

  lemma AltsJoin(alts: seq<Branch>, code: seq<Byte>, s: seq<Byte>, lo: int, jpa: int, next: int, hi: int)
    requires |alts| > 1 && Legal(code, lo) && code[lo] == ON_FAILURE_JUMP && Target(code, lo) == next
    requires Acts(code, s, lo + 3, jpa, LangBranch(alts[0].chunks, s)) && Acts(code, s, jpa, hi, Id())
    requires Acts(code, s, next, hi, LangAlts(alts[1..], s))
    ensures Acts(code, s, lo, hi, LangAlts(alts, s))
  {
    AltsUnion(alts, s);
    ChoiceJoin(code, s, lo, jpa, hi, LangBranch(alts[0].chunks, s), LangAlts(alts[1..], s), LangAlts(alts, s));
  }

  lemma ChoiceJoin(code: seq<Byte>, s: seq<Byte>, lo: int, jpa: int, hi: int, L0: Lang, L1: Lang, L: Lang)
    requires Legal(code, lo) && code[lo] == ON_FAILURE_JUMP
    requires Acts(code, s, lo + 3, jpa, L0) && Acts(code, s, jpa, hi, Id()) && Acts(code, s, Target(code, lo), hi, L1)
    requires Same(Union(L0, L1), L)
    ensures Acts(code, s, lo, hi, L)
  {
    ActsLast(code, s, lo + 3, jpa, hi, L0);
    ActsChoice(code, s, lo, hi, L0, L1);
    ActsSame(code, s, lo, hi, Union(L0, L1), L);
  }

  lemma SoundRest(alts: seq<Branch>)
    requires SoundAlts(alts) && ProperAlts(alts) && alts != []
    ensures SoundAlts(alts[1..]) && ProperAlts(alts[1..])
  {
    var rest := alts[1..];
    assert forall k :: 0 <= k < |rest| ==> rest[k] == alts[k + 1];
  }

  lemma AltsUnion(alts: seq<Branch>, s: seq<Byte>)
    requires |alts| > 1
    ensures Same(Union(LangBranch(alts[0].chunks, s), LangAlts(alts[1..], s)), LangAlts(alts, s))
  {
    var rest := alts[1..];
    forall i, j ensures MatchAlts(alts, s, i, j) <==> MatchBranch(alts[0].chunks, s, i, j) || MatchAlts(rest, s, i, j) {
      if MatchAlts(alts, s, i, j) {
        var k :| 0 <= k < |alts| && MatchBranch(alts[k].chunks, s, i, j);
        if k > 0 { assert rest[k - 1] == alts[k]; }
      }
      if MatchAlts(rest, s, i, j) {
        var k :| 0 <= k < |rest| && MatchBranch(rest[k].chunks, s, i, j);
        assert rest[k] == alts[k + 1];
      }
    }
  }

  // Where the pieces of two or more alternatives lie.
  lemma AltsLayout(alts: seq<Branch>, code: seq<Byte>, lo: int) returns (jpa: int, next: int)
    requires |alts| > 1 && |code| <= LIMIT && At(code, lo, CodeAlts(alts))
    ensures jpa == lo + 3 + |CodeBranch(alts[0].chunks)| && next == jpa + 3
    ensures next + |CodeAlts(alts[1..])| == lo + |CodeAlts(alts)|
    ensures At(code, lo + 3, CodeBranch(alts[0].chunks)) && At(code, next, CodeAlts(alts[1..]))
    ensures code[lo] == ON_FAILURE_JUMP && Target(code, lo) == next
    ensures code[jpa] == JUMP_PAST_ALT && Target(code, jpa) == next + Past(alts[1..])
    ensures 0 <= Past(alts[1..]) <= |CodeAlts(alts[1..])|
  {
    var c0, rest := CodeBranch(alts[0].chunks), alts[1..];
    var j0, j1 := Jmp(ON_FAILURE_JUMP, |c0| + 3), Jmp(JUMP_PAST_ALT, Past(rest));
    jpa, next := lo + 3 + |c0|, lo + 6 + |c0|;
    assert CodeAlts(alts) == j0 + (c0 + (j1 + CodeAlts(rest)));
    AtSplit(code, lo, j0, c0 + (j1 + CodeAlts(rest)));
    AtSplit(code, lo + 3, c0, j1 + CodeAlts(rest));
    AtSplit(code, jpa, j1, CodeAlts(rest));
    AtJump(code, lo, ON_FAILURE_JUMP, |c0| + 3);
    AtJump(code, jpa, JUMP_PAST_ALT, Past(rest));
  }

  // The jumps past the alternatives lead one to the next and so to the end.
  lemma {:induction false} ChainActs(alts: seq<Branch>, code: seq<Byte>, s: seq<Byte>, lo: int)
    requires |alts| > 1 && |code| <= LIMIT && At(code, lo, CodeAlts(alts)) && Landing(code, lo + |CodeAlts(alts)|)
    ensures Acts(code, s, lo + 3 + |CodeBranch(alts[0].chunks)|, lo + |CodeAlts(alts)|, Id())
    decreases |alts|
  {
    var jpa, next := AltsLayout(alts, code, lo);
    var hi := lo + |CodeAlts(alts)|;
    var rest := alts[1..];
    if |rest| == 1 {
      ActsNothing(code, s, hi);
    } else {
      ChainActs(rest, code, s, next);
    }
    ActsJump(code, s, jpa, hi, Id());
  }

  lemma {:induction false} BranchActs(cs: seq<Chunk>, code: seq<Byte>, s: seq<Byte>, lo: int)
    requires SoundBranch(cs) && ProperBranch(cs) && |code| <= LIMIT && At(code, lo, CodeBranch(cs))
    requires !BackJump(code, lo + |CodeBranch(cs)|)
    ensures Acts(code, s, lo, lo + |CodeBranch(cs)|, LangBranch(cs, s))
    decreases cs, 0
  {
    if cs == [] {
      ActsNothing(code, s, lo);
      ActsSame(code, s, lo, lo, Id(), LangBranch(cs, s));
    } else {
      SoundTail(cs);
      var mid := BranchReady(cs, code, lo);
      ChunkActs(cs[0], code, s, lo);
      BranchActs(cs[1..], code, s, mid);
      BranchJoin(cs, code, s, lo, mid);
    }
  }

  lemma BranchReady(cs: seq<Chunk>, code: seq<Byte>, lo: int) returns (mid: int)
    requires cs != [] && SoundBranch(cs[1..]) && At(code, lo, CodeBranch(cs))
    requires !BackJump(code, lo + |CodeBranch(cs)|)
    ensures mid == lo + |CodeChunk(cs[0])| && mid + |CodeBranch(cs[1..])| == lo + |CodeBranch(cs)|
    ensures At(code, lo, CodeChunk(cs[0])) && At(code, mid, CodeBranch(cs[1..])) && !BackJump(code, mid)
  {
    mid := lo + |CodeChunk(cs[0])|;
    AtSplit(code, lo, CodeChunk(cs[0]), CodeBranch(cs[1..]));
    BranchStarts(code, mid, cs[1..]);
  }

  lemma BranchJoin(cs: seq<Chunk>, code: seq<Byte>, s: seq<Byte>, lo: int, mid: int)
    requires cs != [] && mid == lo + |CodeChunk(cs[0])|
    requires Acts(code, s, lo, mid, LangChunk(cs[0], s))
    requires Acts(code, s, mid, mid + |CodeBranch(cs[1..])|, LangBranch(cs[1..], s))
    ensures Acts(code, s, lo, lo + |CodeBranch(cs)|, LangBranch(cs, s))
  {
    BranchComposes(cs, s);
    ActsJoin(code, s, lo, mid, mid + |CodeBranch(cs[1..])|, LangChunk(cs[0], s), LangBranch(cs[1..], s),
             LangBranch(cs, s));
    assert mid + |CodeBranch(cs[1..])| == lo + |CodeBranch(cs)|;
  }

  lemma ActsJoin(code: seq<Byte>, s: seq<Byte>, lo: int, mid: int, hi: int, R: Lang, Q: Lang, L: Lang)
    requires Acts(code, s, lo, mid, R) && Acts(code, s, mid, hi, Q) && Same(Compose(R, Q), L)
    ensures Acts(code, s, lo, hi, L)
  {
    ActsCompose(code, s, lo, mid, hi, R, Q);
    ActsSame(code, s, lo, hi, Compose(R, Q), L);
  }

  lemma SoundTail(cs: seq<Chunk>)
    requires SoundBranch(cs) && ProperBranch(cs) && cs != []
    ensures SoundBranch(cs[1..]) && ProperBranch(cs[1..])
  {
    var rest := cs[1..];
    assert forall k :: 0 <= k < |rest| ==> rest[k] == cs[k + 1];
  }

  lemma BranchComposes(cs: seq<Chunk>, s: seq<Byte>)
    requires cs != []
    ensures Same(Compose(LangChunk(cs[0], s), LangBranch(cs[1..], s)), LangBranch(cs, s))
  {
    var C := Compose(LangChunk(cs[0], s), LangBranch(cs[1..], s));
    forall i, j ensures C(i, j) <==> LangBranch(cs, s)(i, j) {
      if LangBranch(cs, s)(i, j) {
        assert MatchBranch(cs, s, i, j);
        var k :| MatchChunk(cs[0], s, i, k) && MatchBranch(cs[1..], s, k, j);
        assert LangChunk(cs[0], s)(i, k) && LangBranch(cs[1..], s)(k, j);
      }
    }
  }

  function BodyAt(lo: int, zero: bool, many: bool): int {
    lo + (if many && !zero then 6 else if zero || many then 3 else 0)
  }

  lemma {:induction false} ChunkActs(c: Chunk, code: seq<Byte>, s: seq<Byte>, lo: int)
    requires SoundChunk(c) && ProperChunk(c) && |code| <= LIMIT && At(code, lo, CodeChunk(c))
    requires !BackJump(code, lo + |CodeChunk(c)|)
    ensures Acts(code, s, lo, lo + |CodeChunk(c)|, LangChunk(c, s))
    decreases c, 3
  {
    if c.Run? {
      RunChunkActs(c, code, s, lo);
    } else {
      var a, ops := c.atom, c.ops;
      var at := RepReady(a, ops, code, lo);
      AtomActs(a, code, s, at);
      if ManyOk(ops) { AtomAdvances(a, s); }
      RepIs(a, ops, s);
      RepAny(code, s, lo, lo + |CodeChunk(c)|, CodeAtom(a), ZeroOk(ops), ManyOk(ops), LangAtom(a, s), LangChunk(c, s));
    }
  }

  lemma RunChunkActs(c: Chunk, code: seq<Byte>, s: seq<Byte>, lo: int)
    requires c.Run? && SoundChunk(c) && ProperChunk(c) && |code| <= LIMIT && At(code, lo, CodeChunk(c))
    ensures Acts(code, s, lo, lo + |CodeChunk(c)|, LangChunk(c, s))
  {
    RunActs(c.lits, code, s, lo);
    assert c == Run(c.lits);
  }

  lemma RepReady(a: Atom, ops: seq<Op>, code: seq<Byte>, lo: int) returns (at: int)
    requires |code| <= LIMIT && At(code, lo, CodeChunk(Rep(a, ops))) && SoundChunk(Rep(a, ops))
             && ProperChunk(Rep(a, ops))
    ensures at == BodyAt(lo, ZeroOk(ops), ManyOk(ops)) && At(code, at, CodeAtom(a)) && SoundAtom(a) && ProperAtom(a)
    ensures At(code, lo, CodeRep(CodeAtom(a), ZeroOk(ops), ManyOk(ops))) && (ManyOk(ops) ==> !NullAtom(a))
  {
    at := BodyAt(lo, ZeroOk(ops), ManyOk(ops));
    AtRep(code, lo, CodeAtom(a), ZeroOk(ops), ManyOk(ops));
  }

  // A repetition, whatever its body is the code of.
  lemma RepAny(code: seq<Byte>, s: seq<Byte>, lo: int, hi: int, body: seq<Byte>, zero: bool, many: bool, R: Lang,
               T: Lang)
    requires |code| <= LIMIT && At(code, lo, CodeRep(body, zero, many)) && hi == lo + |CodeRep(body, zero, many)|
             && !BackJump(code, hi)
    requires Acts(code, s, BodyAt(lo, zero, many), BodyAt(lo, zero, many) + |body|, R)
    requires (many ==> Advances(s, R)) && Same(RepOf(R, zero, many), T)
    ensures Acts(code, s, lo, hi, T)
  {
    AtRep(code, lo, body, zero, many);
    RepActs(code, s, lo, hi, |body|, zero, many, R);
    ActsSame(code, s, lo, hi, RepOf(R, zero, many), T);
  }

  lemma AtomAdvances(a: Atom, s: seq<Byte>)
    requires !NullAtom(a)
    ensures Advances(s, LangAtom(a, s))
  {
    forall i, j | 0 <= i <= |s| && LangAtom(a, s)(i, j) ensures i < j { AtomBounds(a, s, i, j); }
  }

  ghost function RepOf(R: Lang, zero: bool, many: bool): Lang { (i, j) => Collapsed(R, zero, many, i, j) }

  lemma RepIs(a: Atom, ops: seq<Op>, s: seq<Byte>)
    ensures Same(RepOf(LangAtom(a, s), ZeroOk(ops), ManyOk(ops)), LangChunk(Rep(a, ops), s))
  {
    var Q: Lang := (x, y) => MatchAtom(a, s, x, y);
    assert LangAtom(a, s) == Q;
    forall i, j ensures Collapsed(Q, ZeroOk(ops), ManyOk(ops), i, j) <==> LangChunk(Rep(a, ops), s)(i, j) {
      NestIsCollapsed(Q, ops, i, j);
    }
  }

  // Where the pieces of a repetition lie.
  lemma AtRep(code: seq<Byte>, lo: int, body: seq<Byte>, zero: bool, many: bool)
    requires |code| <= LIMIT && At(code, lo, CodeRep(body, zero, many))
    ensures At(code, BodyAt(lo, zero, many), body)
    ensures RepLayout(code, lo, |body|, zero, many, lo + |CodeRep(body, zero, many)|)
  {
    var l := |body|;
    if many && !zero {
      AtSplit(code, lo, Jmp(DUMMY_FAILURE_JUMP, 3), CodeRep(body, true, true));
      AtJump(code, lo, DUMMY_FAILURE_JUMP, 3);
      AtLoop(code, lo + 3, body);
    } else if many {
      AtLoop(code, lo, body);
    } else if zero {
      AtSplit(code, lo, Jmp(ON_FAILURE_JUMP, l), body);
      AtJump(code, lo, ON_FAILURE_JUMP, l);
    }
  }

  lemma Threefold(a: seq<Byte>, b: seq<Byte>, c: seq<Byte>)
    ensures (a + b) + c == a + (b + c)
  {
  }

  lemma AtLoop(code: seq<Byte>, lo: int, body: seq<Byte>)
    requires |code| <= LIMIT && At(code, lo, CodeRep(body, true, true))
    ensures At(code, lo + 3, body) && RepLayout(code, lo, |body|, true, true, lo + |body| + 6)
  {
    var l := |body|;
    var j0, j1 := Jmp(ON_FAILURE_JUMP, l + 3), Jmp(MAYBE_POP_JUMP, -(l + 6));
    Threefold(j0, body, j1);
    AtSplit(code, lo, j0, body + j1);
    AtSplit(code, lo + 3, body, j1);
    AtJump(code, lo, ON_FAILURE_JUMP, l + 3);
    AtJump(code, lo + 3 + l, MAYBE_POP_JUMP, -(l + 6));
  }

  predicate RepLayout(code: seq<Byte>, lo: int, l: nat, zero: bool, many: bool, hi: int) {
    var b := BodyAt(lo, zero, many);
    && 0 <= lo <= b && b + l <= hi <= |code|
    && (zero || many ==> code[b - 3] == ON_FAILURE_JUMP && Target(code, b - 3) == hi)
    && (many ==> b + l + 3 == hi && code[b + l] == MAYBE_POP_JUMP && Target(code, b + l) == b - 3)
    && (!many ==> b + l == hi)
    && (many && !zero ==> code[lo] == DUMMY_FAILURE_JUMP && Target(code, lo) == b)
  }

  lemma RepActs(code: seq<Byte>, s: seq<Byte>, lo: int, hi: int, l: nat, zero: bool, many: bool, R: Lang)
    requires RepLayout(code, lo, l, zero, many, hi) && !BackJump(code, hi)
    requires Acts(code, s, BodyAt(lo, zero, many), BodyAt(lo, zero, many) + l, R)
    requires many ==> Advances(s, R)
    ensures Acts(code, s, lo, hi, RepOf(R, zero, many))
  {
    var C := RepOf(R, zero, many);
    if many {
      LoopActs(code, s, lo, hi, l, zero, R);
    } else if zero {
      ActsNothing(code, s, hi);
      ActsChoice(code, s, lo, hi, R, Id());
      ActsSame(code, s, lo, hi, Union(R, Id()), C);
    } else {
      ActsSame(code, s, lo, hi, R, C);
    }
  }

  lemma LoopActs(code: seq<Byte>, s: seq<Byte>, lo: int, hi: int, l: nat, zero: bool, R: Lang)
    requires RepLayout(code, lo, l, zero, true, hi) && !BackJump(code, hi)
    requires Acts(code, s, BodyAt(lo, zero, true), BodyAt(lo, zero, true) + l, R) && Advances(s, R)
    ensures Acts(code, s, lo, hi, RepOf(R, zero, true))
  {
    var b := BodyAt(lo, zero, true);
    var C := RepOf(R, zero, true);
    ActsLoop(code, s, b - 3, b + l, hi, R);
    if zero {
      StarIs(R);
      ActsSame(code, s, lo, hi, StarOf(R), C);
    } else {
      ActsPlus(code, s, b, b + l, hi, R);
      PlusIs(R);
      ActsSame(code, s, b, hi, Compose(R, StarOf(R)), C);
      ActsJump(code, s, lo, hi, C);
    }
  }

  // A loop entered past its failure jump: at least one repetition.
  lemma ActsPlus(code: seq<Byte>, s: seq<Byte>, b: int, back: int, hi: int, R: Lang)
    requires Legal(code, back) && code[back] == MAYBE_POP_JUMP
    requires Acts(code, s, b, back, R) && Acts(code, s, Target(code, back), hi, StarOf(R)) && Advances(s, R)
    ensures Acts(code, s, b, hi, Compose(R, StarOf(R)))
  {
    var C := Compose(R, StarOf(R));
    assert Peek(b) && Peek(Target(code, back));
    forall d | 0 <= d <= |s| ensures ActsAt(code, s, b, hi, C, d) {
      forall e ensures Reach(code, s, b, d, e) <==> exists j :: C(d, j) && Reach(code, s, hi, j, e) {
        PlusReach(code, s, b, back, hi, R, d, e);
      }
      if forall j :: C(d, j) ==> Halts(code, s, hi, j) { PlusHalts(code, s, b, back, hi, R, d); }
    }
  }

  lemma PlusReach(code: seq<Byte>, s: seq<Byte>, b: int, back: int, hi: int, R: Lang, d: int, e: int)
    requires Legal(code, back) && code[back] == MAYBE_POP_JUMP && 0 <= d <= |s|
    requires Acts(code, s, b, back, R) && Acts(code, s, Target(code, back), hi, StarOf(R)) && Advances(s, R)
    ensures Reach(code, s, b, d, e) <==> exists j :: Compose(R, StarOf(R))(d, j) && Reach(code, s, hi, j, e)
  {
    assert Peek(b) && Peek(Target(code, back));
    assert ActsAt(code, s, b, back, R, d);
    if Reach(code, s, b, d, e) {
      var k :| R(d, k) && Reach(code, s, back, k, e);
      var j := AroundFrom(code, s, back, hi, R, d, k, e);
      assert Compose(R, StarOf(R))(d, j);
    }
    if exists j :: Compose(R, StarOf(R))(d, j) && Reach(code, s, hi, j, e) {
      var j :| Compose(R, StarOf(R))(d, j) && Reach(code, s, hi, j, e);
      var k :| R(d, k) && StarOf(R)(k, j);
      AroundTo(code, s, back, hi, R, d, k, j, e);
    }
  }

  lemma AroundFrom(code: seq<Byte>, s: seq<Byte>, back: int, hi: int, R: Lang, d: int, k: int, e: int) returns (j: int)
    requires Legal(code, back) && code[back] == MAYBE_POP_JUMP && 0 <= d <= |s| && R(d, k) && d < k <= |s|
    requires Acts(code, s, Target(code, back), hi, StarOf(R)) && Reach(code, s, back, k, e)
    ensures StarOf(R)(k, j) && Reach(code, s, hi, j, e)
  {
    JumpIs(code, s, back, k);
    assert Peek(Target(code, back));
    assert ActsAt(code, s, Target(code, back), hi, StarOf(R), k);
    j :| StarOf(R)(k, j) && Reach(code, s, hi, j, e);
  }

  lemma AroundTo(code: seq<Byte>, s: seq<Byte>, back: int, hi: int, R: Lang, d: int, k: int, j: int, e: int)
    requires Legal(code, back) && code[back] == MAYBE_POP_JUMP && 0 <= d <= |s| && d < k <= |s|
    requires Acts(code, s, Target(code, back), hi, StarOf(R)) && StarOf(R)(k, j) && Reach(code, s, hi, j, e)
    ensures Reach(code, s, back, k, e)
  {
    JumpIs(code, s, back, k);
    assert Peek(Target(code, back));
    assert ActsAt(code, s, Target(code, back), hi, StarOf(R), k);
  }

  lemma PlusHalts(code: seq<Byte>, s: seq<Byte>, b: int, back: int, hi: int, R: Lang, d: int)
    requires Legal(code, back) && code[back] == MAYBE_POP_JUMP && 0 <= d <= |s|
    requires Acts(code, s, b, back, R) && Acts(code, s, Target(code, back), hi, StarOf(R)) && Advances(s, R)
    requires forall j :: Compose(R, StarOf(R))(d, j) ==> Halts(code, s, hi, j)
    ensures Halts(code, s, b, d)
  {
    assert Peek(b) && Peek(Target(code, back));
    assert ActsAt(code, s, b, back, R, d);
    forall k | R(d, k) ensures Halts(code, s, back, k) {
      assert ActsAt(code, s, Target(code, back), hi, StarOf(R), k);
      forall j | StarOf(R)(k, j) ensures Halts(code, s, hi, j) { assert Compose(R, StarOf(R))(d, j); }
      JumpIs(code, s, back, k);
    }
  }

  lemma StarIs(R: Lang)
    ensures Same(StarOf(R), RepOf(R, true, true))
  {
    forall i, j ensures StarOf(R)(i, j) <==> Collapsed(R, true, true, i, j) {
      if StarOf(R)(i, j) { var n: nat :| Pow(R, n, i, j); }
      if i == j { assert Pow(R, 0, i, j); }
      if R(i, j) { PowOne(R, i, j); }
    }
  }

  lemma PlusIs(R: Lang)
    ensures Same(Compose(R, StarOf(R)), RepOf(R, false, true))
  {
    forall i, j ensures Compose(R, StarOf(R))(i, j) <==> Collapsed(R, false, true, i, j) {
      if Compose(R, StarOf(R))(i, j) {
        var k :| R(i, k) && StarOf(R)(k, j);
        var n: nat :| Pow(R, n, k, j);
        assert Pow(R, n + 1, i, j);
      }
      if Collapsed(R, false, true, i, j) {
        PowOne(R, i, j);
        var n: nat :| n > 0 && Pow(R, n, i, j);
        var k :| R(i, k) && Pow(R, n - 1, k, j);
        assert StarOf(R)(k, j);
      }
    }
  }

  // The whole code of a pattern: the ends the matcher can reach are the ends of the
  // prefixes in the language, and every run is legal and finite.
  lemma WholeCode(alts: seq<Branch>, s: seq<Byte>, d: int)
    requires SoundAlts(alts) && ProperAlts(alts) && alts != [] && |CodeAlts(alts)| <= LIMIT && 0 <= d <= |s|
    ensures forall e :: Reach(CodeAlts(alts), s, 0, d, e) <==> MatchAlts(alts, s, d, e)
    ensures Halts(CodeAlts(alts), s, 0, d)
    ensures forall e :: MatchAlts(alts, s, d, e) ==> d <= e <= |s|
  {
    var code := CodeAlts(alts);
    assert code[0..0 + |code|] == code;
    AltsActs(alts, code, s, 0);
    assert Peek(0);
    assert ActsAt(code, s, 0, |code|, LangAlts(alts, s), d);
    forall j, e ensures Reach(code, s, |code|, j, e) <==> j == e { ReachEnd(code, s, j, e); }
    forall j ensures Halts(code, s, |code|, j) { ReachEnd(code, s, j, j); }
    forall e ensures Reach(code, s, 0, d, e) <==> MatchAlts(alts, s, d, e) {
      if LangAlts(alts, s)(d, e) { assert Reach(code, s, |code|, e, e); }
    }
    forall e | MatchAlts(alts, s, d, e) ensures d <= e <= |s| { assert LangAlts(alts, s)(d, e); }
  }
}
