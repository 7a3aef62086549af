// Where control can go in compiled code: instructions do not overlap, and the body of a
// one-character loop is entered only from the failure jump, or the dummy one, before it.
module RxFlow {
  import opened RxBytes
  import opened RxSyntax
  import opened RxCode
  import opened RxVm
  import opened RxMeaning

  // The length of the instruction at p.
  function Len(code: seq<Byte>, p: int): (n: nat)
    requires 0 <= p < |code|
    ensures n > 0
  {
    var op := code[p];
    if op in {EXACTN, CHARSET, CHARSET_NOT} then 2 + (if p + 1 < |code| then code[p + 1] as int else 0)
    else if op in {ANYCHAR, PUSH_DUMMY_FAILURE} then 1
    else 3
  }

  predicate Jumps(code: seq<Byte>, p: int)
    requires 0 <= p < |code|
  {
    code[p] in {ON_FAILURE_JUMP, MAYBE_POP_JUMP, JUMP_PAST_ALT, DUMMY_FAILURE_JUMP}
  }

  // A test of one character.
  predicate OneChar(code: seq<Byte>, q: int) {
    && 0 <= q < |code| && q + Len(code, q) <= |code|
    && (code[q] in {ANYCHAR, CHARSET, CHARSET_NOT} || (code[q] == EXACTN && Len(code, q) == 3))
  }

  // The back jump at p closes a loop whose body is a test of one character.
  predicate OneCharLoop(code: seq<Byte>, p: int) {
    && 0 <= p && p + 3 <= |code| && code[p] == MAYBE_POP_JUMP
    && OneChar(code, Target(code, p) + 3) && Target(code, p) + 3 + Len(code, Target(code, p) + 3) == p
  }

  // The instructions of a stretch of code, found one after another.
  function Starts(code: seq<Byte>, p: int): (s: set<int>)
    requires 0 <= p
    decreases |code| - p
  {
    if p >= |code| then {} else {p} + Starts(code, p + Len(code, p))
  }

  // The instruction at p, among those at S and before hi: E are the bodies of one-character loops,
  // P those bodies and the back jumps after them.
  ghost predicate FlowsAt(code: seq<Byte>, S: set<int>, E: set<int>, P: set<int>, hi: int, p: int)
    requires 0 <= p < |code|
  {
    var next := p + Len(code, p);
    && next <= hi <= |code| && next in S + {hi}
    && (code[p] == EXACTN ==> Len(code, p) > 2) && (code[p] in {CHARSET, CHARSET_NOT} ==> Len(code, p) <= 34)
    && (code[p] == DUMMY_FAILURE_JUMP ==> p + 3 <= |code| && Target(code, p) == p + 6)
    && (code[p] == MAYBE_POP_JUMP ==>
          && p + 3 <= |code| && 0 <= Target(code, p) < |code| && Target(code, p) in S
          && code[Target(code, p)] == ON_FAILURE_JUMP
          && Target(code, p) + 3 <= |code| && Target(code, Target(code, p)) == p + 3)
    && (next in P ==> (code[p] == ON_FAILURE_JUMP && next in E) || p in E)
    && (Jumps(code, p) ==>
          Target(code, p) in S + {hi} && (Target(code, p) in P ==>
                                            code[p] == DUMMY_FAILURE_JUMP && Target(code, p) in E))
    && (OneCharLoop(code, p) ==> Target(code, p) + 3 in E)
  }

  // The loop whose body is at q.
  ghost predicate LoopBody(code: seq<Byte>, P: set<int>, q: int) {
    && OneChar(code, q) && q >= 3 && code[q - 3] == ON_FAILURE_JUMP
    && var back := q + Len(code, q);
       && back in P && back + 3 <= |code| && code[back] == MAYBE_POP_JUMP && Target(code, back) == q - 3
       && Target(code, q - 3) == back + 3
  }

  ghost predicate Flowing(code: seq<Byte>, S: set<int>, E: set<int>, P: set<int>, lo: int, hi: int) {
    && 0 <= lo <= hi <= |code| && (lo < hi ==> lo in S) && E <= P <= S && lo !in P
    && (forall p {:trigger Peek(p)} :: Peek(p) && p in S ==> lo <= p < hi && FlowsAt(code, S, E, P, hi, p))
    && (forall p, q {:trigger Peek(p), Peek(q)} :: Peek(p) && Peek(q) && p in S && q in S && p < q ==>
          0 <= p && p < |code| && p + Len(code, p) <= q)
    && (forall q {:trigger Peek(q)} :: Peek(q) && q in E ==> LoopBody(code, P, q))
  }

  // Mentioning Peek(lo) unfolds what holds of the code from lo to hi.
  ghost predicate Flow(code: seq<Byte>, S: set<int>, E: set<int>, P: set<int>, lo: int, hi: int) {
    forall x: int {:trigger Peek(x)} :: Peek(x) && x == lo ==> Flowing(code, S, E, P, lo, hi)
  }

  lemma FlowIn(code: seq<Byte>, S: set<int>, E: set<int>, P: set<int>, lo: int, hi: int, p: int)
    requires Flow(code, S, E, P, lo, hi) && p in S
    ensures 0 <= lo <= p < hi <= |code| && FlowsAt(code, S, E, P, hi, p)
  {
    assert Peek(lo) && Peek(p);
  }

  lemma FlowFacts(code: seq<Byte>, S: set<int>, E: set<int>, P: set<int>, lo: int, hi: int)
    requires Flow(code, S, E, P, lo, hi)
    ensures 0 <= lo <= hi <= |code| && (lo < hi ==> lo in S) && E <= P <= S && lo !in P
    ensures forall p :: p in S ==> lo <= p < hi
  {
    assert Peek(lo);
    forall p | p in S ensures lo <= p < hi {
      FlowIn(code, S, E, P, lo, hi, p);
    }
  }

  lemma FlowNone(code: seq<Byte>, lo: int)
    requires 0 <= lo <= |code|
    ensures Flow(code, {}, {}, {}, lo, lo)
  {
  }

  // One instruction that only goes on.
  lemma FlowOne(code: seq<Byte>, p: int)
    requires 0 <= p < |code| && !Jumps(code, p) && p + Len(code, p) <= |code|
    requires (code[p] == EXACTN ==> Len(code, p) > 2) && (code[p] in {CHARSET, CHARSET_NOT} ==> Len(code, p) <= 34)
    ensures Flow(code, {p}, {}, {}, p, p + Len(code, p))
  {
  }

  // One stretch of code after another.
  lemma FlowJoin(code: seq<Byte>, S: set<int>, E: set<int>, P: set<int>, lo: int, mid: int,
                 S': set<int>, E': set<int>, P': set<int>, hi: int)
    requires Flow(code, S, E, P, lo, mid) && Flow(code, S', E', P', mid, hi)
    ensures Flow(code, S + S', E + E', P + P', lo, hi)
  {
    var s, e, a := S + S', E + E', P + P';
    assert Peek(lo) && Peek(mid);
    forall p {:trigger Peek(p)} | Peek(p) && p in s ensures lo <= p < hi && FlowsAt(code, s, e, a, hi, p) {
      if p in S {
        FlowIn(code, S, E, P, lo, mid, p);
        JoinAt(code, S, E, P, lo, mid, S', E', P', hi, p);
      } else {
        FlowIn(code, S', E', P', mid, hi, p);
        JoinAfter(code, S, E, P, lo, mid, S', E', P', hi, p);
      }
    }
    forall p, q {:trigger Peek(p), Peek(q)} | Peek(p) && Peek(q) && p in s && q in s && p < q
      ensures 0 <= p < |code| && p + Len(code, p) <= q
    {
      if p in S {
        FlowIn(code, S, E, P, lo, mid, p);
      } else {
        FlowIn(code, S', E', P', mid, hi, p);
      }
    }
    if lo in P' {
      FlowIn(code, S', E', P', mid, hi, lo);
    }
  }

  lemma JoinAt(code: seq<Byte>, S: set<int>, E: set<int>, P: set<int>, lo: int, mid: int,
               S': set<int>, E': set<int>, P': set<int>, hi: int, p: int)
    requires Flow(code, S, E, P, lo, mid) && Flow(code, S', E', P', mid, hi) && p in S && 0 <= p < |code|
    ensures FlowsAt(code, S + S', E + E', P + P', hi, p)
  {
    assert Peek(lo) && Peek(mid);
    FlowIn(code, S, E, P, lo, mid, p);
    var next := p + Len(code, p);
    if next in P' {
      FlowIn(code, S', E', P', mid, hi, next);
    }
    if Jumps(code, p) && Target(code, p) in P' {
      var t := Target(code, p);
      FlowIn(code, S', E', P', mid, hi, t);
      if t in S {
        FlowIn(code, S, E, P, lo, mid, t);
      }
    }
  }

  lemma JoinAfter(code: seq<Byte>, S: set<int>, E: set<int>, P: set<int>, lo: int, mid: int,
                  S': set<int>, E': set<int>, P': set<int>, hi: int, p: int)
    requires Flow(code, S, E, P, lo, mid) && Flow(code, S', E', P', mid, hi) && p in S' && 0 <= p < |code|
    ensures FlowsAt(code, S + S', E + E', P + P', hi, p)
  {
    assert Peek(lo) && Peek(mid);
    FlowIn(code, S', E', P', mid, hi, p);
    var next := p + Len(code, p);
    if next in P {
      FlowIn(code, S, E, P, lo, mid, next);
    }
    if Jumps(code, p) && Target(code, p) in P {
      var t := Target(code, p);
      FlowIn(code, S, E, P, lo, mid, t);
      if t in S' {
        FlowIn(code, S', E', P', mid, hi, t);
      }
    }
  }

  // ---- the pieces of compiled code ---------------------------------------------------------------

  // A jump before a stretch of code; it is no jump into a one-character loop.
  lemma FlowLead(code: seq<Byte>, lo: int, S: set<int>, E: set<int>, P: set<int>, hi: int)
    requires 0 <= lo && lo + 3 <= |code| && code[lo] in {ON_FAILURE_JUMP, JUMP_PAST_ALT}
    requires Flow(code, S, E, P, lo + 3, hi) && Target(code, lo) in S + {hi} && Target(code, lo) !in P
    ensures Flow(code, S + {lo}, E, P, lo, hi)
  {
    var s := S + {lo};
    assert Peek(lo) && Peek(lo + 3);
    if hi in P {
      FlowIn(code, S, E, P, lo + 3, hi, hi);
    }
    if lo in P {
      FlowIn(code, S, E, P, lo + 3, hi, lo);
    }
    forall p {:trigger Peek(p)} | Peek(p) && p in s ensures lo <= p < hi && FlowsAt(code, s, E, P, hi, p) {
      if p != lo {
        FlowIn(code, S, E, P, lo + 3, hi, p);
      }
    }
    forall p, q {:trigger Peek(p), Peek(q)} | Peek(p) && Peek(q) && p in s && q in s && p < q
      ensures 0 <= p < |code| && p + Len(code, p) <= q
    {
      if q != lo {
        FlowIn(code, S, E, P, lo + 3, hi, q);
      }
      if p != lo {
        FlowIn(code, S, E, P, lo + 3, hi, p);
      }
    }
  }

  // A loop around a test of one character.
  lemma FlowSmallLoop(code: seq<Byte>, lo: int, l: nat, hi: int)
    requires RepLayout(code, lo, l, true, true, hi) && 0 < l <= 34 && OneChar(code, lo + 3) && Len(code, lo + 3) == l
    ensures Flow(code, {lo, lo + 3, lo + 3 + l}, {lo + 3}, {lo + 3, lo + 3 + l}, lo, hi)
  {
    var q, back := lo + 3, lo + 3 + l;
    var S, E, P := {lo, q, back}, {q}, {q, back};
    assert Peek(lo);
    forall p {:trigger Peek(p)} | Peek(p) && p in S ensures lo <= p < hi && FlowsAt(code, S, E, P, hi, p) {
    }
  }

  // A loop around a group.
  lemma FlowBigLoop(code: seq<Byte>, lo: int, l: nat, hi: int, S: set<int>, E: set<int>, P: set<int>)
    requires RepLayout(code, lo, l, true, true, hi) && l > 0 && Flow(code, S, E, P, lo + 3, lo + 3 + l)
    requires code[lo + 3] == START_MEMORY
    ensures Flow(code, S + {lo, lo + 3 + l}, E, P, lo, hi)
  {
    var b, back := lo + 3, lo + 3 + l;
    var s := S + {lo, back};
    assert Peek(lo) && Peek(b);
    if back in P {
      FlowIn(code, S, E, P, b, back, back);
    }
    if lo in P {
      FlowIn(code, S, E, P, b, back, lo);
    }
    if hi in P {
      FlowIn(code, S, E, P, b, back, hi);
    }
    forall p {:trigger Peek(p)} | Peek(p) && p in s ensures lo <= p < hi && FlowsAt(code, s, E, P, hi, p) {
      if p != lo && p != back {
        FlowIn(code, S, E, P, b, back, p);
      }
    }
    forall p, q {:trigger Peek(p), Peek(q)} | Peek(p) && Peek(q) && p in s && q in s && p < q
      ensures 0 <= p < |code| && p + Len(code, p) <= q
    {
      if p != lo && p != back {
        FlowIn(code, S, E, P, b, back, p);
      }
      if q != lo && q != back {
        FlowIn(code, S, E, P, b, back, q);
      }
    }
  }

  // The jump that lets a loop begin past its failure jump.
  lemma FlowPlus(code: seq<Byte>, lo: int, S: set<int>, E: set<int>, P: set<int>, hi: int)
    requires 0 <= lo && lo + 6 <= |code| && code[lo] == DUMMY_FAILURE_JUMP && Target(code, lo) == lo + 6
    requires Flow(code, S, E, P, lo + 3, hi) && lo + 6 in S && (lo + 6 in P ==> lo + 6 in E)
    ensures Flow(code, S + {lo}, E, P, lo, hi)
  {
    var s := S + {lo};
    assert Peek(lo) && Peek(lo + 3);
    FlowIn(code, S, E, P, lo + 3, hi, lo + 6);
    if lo in P {
      FlowIn(code, S, E, P, lo + 3, hi, lo);
    }
    forall p {:trigger Peek(p)} | Peek(p) && p in s ensures lo <= p < hi && FlowsAt(code, s, E, P, hi, p) {
      if p != lo {
        FlowIn(code, S, E, P, lo + 3, hi, p);
      }
    }
    forall p, q {:trigger Peek(p), Peek(q)} | Peek(p) && Peek(q) && p in s && q in s && p < q
      ensures 0 <= p < |code| && p + Len(code, p) <= q
    {
      if q != lo {
        FlowIn(code, S, E, P, lo + 3, hi, q);
      }
      if p != lo {
        FlowIn(code, S, E, P, lo + 3, hi, p);
      }
    }
  }

  // ---- whole patterns ------------------------------------------------------------------------------

  lemma CharFlow(a: Atom, code: seq<Byte>, lo: int)
    requires !a.AGroup? && At(code, lo, CodeAtom(a))
    ensures OneChar(code, lo) && Len(code, lo) == |CodeAtom(a)| <= 34 && !Jumps(code, lo)
  {
    var c := CodeAtom(a);
    AtByte(code, lo, c, 0);
    if !a.ADot? {
      AtByte(code, lo, c, 1);
    }
  }

  lemma RunFlow(lits: seq<Lit>, code: seq<Byte>, lo: int)
    requires 0 < |lits| <= 255 && At(code, lo, CodeChunk(Run(lits)))
    ensures Flow(code, {lo}, {}, {}, lo, lo + |CodeChunk(Run(lits))|)
  {
    AtByte(code, lo, CodeChunk(Run(lits)), 0);
    AtByte(code, lo, CodeChunk(Run(lits)), 1);
    FlowOne(code, lo);
  }

  lemma RepPlaces(a: Atom, ops: seq<Op>, code: seq<Byte>, lo: int)
    requires |code| <= LIMIT && At(code, lo, CodeChunk(Rep(a, ops)))
    ensures At(code, BodyAt(lo, ZeroOk(ops), ManyOk(ops)), CodeAtom(a))
    ensures RepLayout(code, lo, |CodeAtom(a)|, ZeroOk(ops), ManyOk(ops), lo + |CodeChunk(Rep(a, ops))|)
  {
    AtRep(code, lo, CodeAtom(a), ZeroOk(ops), ManyOk(ops));
  }

  lemma {:induction false} ChunkFlow(c: Chunk, code: seq<Byte>, lo: int) returns (S: set<int>, E: set<int>, P: set<int>)
    requires SoundChunk(c) && |code| <= LIMIT && At(code, lo, CodeChunk(c))
    ensures Flow(code, S, E, P, lo, lo + |CodeChunk(c)|)
    decreases c, 3
  {
    match c
    case Run(lits) =>
      RunFlow(lits, code, lo);
      S, E, P := {lo}, {}, {};
    case Rep(a, ops) =>
      RepPlaces(a, ops, code, lo);
      S, E, P := RepFlow(a, ZeroOk(ops), ManyOk(ops), code, lo, lo + |CodeChunk(c)|);
  }

  lemma {:induction false} RepFlow(a: Atom, zero: bool, many: bool, code: seq<Byte>, lo: int, hi: int)
    returns (S: set<int>, E: set<int>, P: set<int>)
    requires SoundAtom(a) && |code| <= LIMIT && At(code, BodyAt(lo, zero, many), CodeAtom(a))
    requires RepLayout(code, lo, |CodeAtom(a)|, zero, many, hi)
    ensures Flow(code, S, E, P, lo, hi)
    decreases a, 4
  {
    var b, l := BodyAt(lo, zero, many), |CodeAtom(a)|;
    AtomStarts(a);
    if many {
      S, E, P := LoopFlow(a, code, b - 3, hi);
      if !zero {
        FlowPlus(code, lo, S, E, P, hi);
        S := S + {lo};
      }
    } else {
      S, E, P := AtomFlow(a, code, b);
      if zero {
        FlowFacts(code, S, E, P, b, hi);
        FlowLead(code, lo, S, E, P, hi);
        S := S + {lo};
      }
    }
  }

  lemma {:induction false} LoopFlow(a: Atom, code: seq<Byte>, lo: int, hi: int)
    returns (S: set<int>, E: set<int>, P: set<int>)
    requires SoundAtom(a) && |code| <= LIMIT && At(code, lo + 3, CodeAtom(a))
    requires RepLayout(code, lo, |CodeAtom(a)|, true, true, hi)
    ensures Flow(code, S, E, P, lo, hi) && lo + 3 in S && (lo + 3 in P ==> lo + 3 in E)
    decreases a, 3
  {
    if !a.AGroup? {
      S, E, P := CharLoopFlow(a, code, lo, hi);
    } else {
      S, E, P := AtomFlow(a, code, lo + 3);
      S := GroupLoopFlow(a, code, lo, hi, S, E, P);
    }
  }

  lemma CharLoopFlow(a: Atom, code: seq<Byte>, lo: int, hi: int) returns (S: set<int>, E: set<int>, P: set<int>)
    requires !a.AGroup? && At(code, lo + 3, CodeAtom(a)) && RepLayout(code, lo, |CodeAtom(a)|, true, true, hi)
    ensures Flow(code, S, E, P, lo, hi) && lo + 3 in S && lo + 3 in E
  {
    var l := |CodeAtom(a)|;
    CharFlow(a, code, lo + 3);
    FlowSmallLoop(code, lo, l, hi);
    S, E, P := {lo, lo + 3, lo + 3 + l}, {lo + 3}, {lo + 3, lo + 3 + l};
  }

  lemma GroupLoopFlow(a: Atom, code: seq<Byte>, lo: int, hi: int, S: set<int>, E: set<int>, P: set<int>)
    returns (s: set<int>)
    requires a.AGroup? && SoundAtom(a) && At(code, lo + 3, CodeAtom(a))
             && RepLayout(code, lo, |CodeAtom(a)|, true, true, hi)
    requires Flow(code, S, E, P, lo + 3, lo + 3 + |CodeAtom(a)|)
    ensures Flow(code, s, E, P, lo, hi) && lo + 3 in s && lo + 3 !in P
  {
    var l := |CodeAtom(a)|;
    AtomStarts(a);
    FlowFacts(code, S, E, P, lo + 3, lo + 3 + l);
    AtByte(code, lo + 3, CodeAtom(a), 0);
    FlowBigLoop(code, lo, l, hi, S, E, P);
    s := S + {lo, lo + 3 + l};
  }

  lemma {:induction false} AtomFlow(a: Atom, code: seq<Byte>, lo: int) returns (S: set<int>, E: set<int>, P: set<int>)
    requires SoundAtom(a) && |code| <= LIMIT && At(code, lo, CodeAtom(a))
    ensures Flow(code, S, E, P, lo, lo + |CodeAtom(a)|)
    decreases a, 2
  {
    if !a.AGroup? {
      CharFlow(a, code, lo);
      FlowOne(code, lo);
      S, E, P := {lo}, {}, {};
    } else {
      var e, f := GroupLayout(a, code, lo);
      S, E, P := AltsFlow(a.alts, code, lo + 3);
      S := GroupFlow(code, lo, e, f, S, E, P);
    }
  }

  lemma GroupFlow(code: seq<Byte>, lo: int, e: int, f: int, S: set<int>, E: set<int>, P: set<int>) returns (s: set<int>)
    requires 0 <= lo && lo + 3 <= e <= f && f + 3 <= |code| && code[lo] == START_MEMORY && code[f] == STOP_MEMORY
    requires f == e || (f == e + 1 && code[e] == PUSH_DUMMY_FAILURE)
    requires Flow(code, S, E, P, lo + 3, e)
    ensures Flow(code, s, E, P, lo, f + 3)
  {
    FlowOne(code, lo);
    FlowJoin(code, {lo}, {}, {}, lo, lo + 3, S, E, P, e);
    s := {lo} + S;
    assert {} + E == E && {} + P == P;
    if f != e {
      FlowThen(code, s, E, P, lo, e);
      s := s + {e};
    }
    FlowThen(code, s, E, P, lo, f);
    s := s + {f};
  }

  lemma FlowThen(code: seq<Byte>, S: set<int>, E: set<int>, P: set<int>, lo: int, p: int)
    requires Flow(code, S, E, P, lo, p) && 0 <= p < |code| && !Jumps(code, p) && p + Len(code, p) <= |code|
    requires (code[p] == EXACTN ==> Len(code, p) > 2) && (code[p] in {CHARSET, CHARSET_NOT} ==> Len(code, p) <= 34)
    ensures Flow(code, S + {p}, E, P, lo, p + Len(code, p))
  {
    FlowOne(code, p);
    FlowJoin(code, S, E, P, lo, p, {p}, {}, {}, p + Len(code, p));
    assert E + {} == E && P + {} == P;
  }

  // Where two or more alternatives and the jumps between them lie.
  lemma AltsPlaces(alts: seq<Branch>, code: seq<Byte>, lo: int) returns (jpa: int, next: int, hi: int)
    requires |alts| > 1 && |code| <= LIMIT && At(code, lo, CodeAlts(alts))
    ensures hi == lo + |CodeAlts(alts)| == next + |CodeAlts(alts[1..])|
    ensures lo + 3 + |CodeBranch(alts[0].chunks)| == jpa == lo + Past(alts) && next == jpa + 3 <= |code|
    ensures 0 <= lo && code[lo] == ON_FAILURE_JUMP && Target(code, lo) == next
    ensures code[jpa] == JUMP_PAST_ALT && Target(code, jpa) == next + Past(alts[1..])
    ensures At(code, lo + 3, CodeBranch(alts[0].chunks)) && At(code, next, CodeAlts(alts[1..]))
  {
    jpa, next := AltsLayout(alts, code, lo);
    hi := lo + |CodeAlts(alts)|;
  }

  lemma {:induction false} AltsFlow(alts: seq<Branch>, code: seq<Byte>, lo: int)
    returns (S: set<int>, E: set<int>, P: set<int>)
    requires SoundAlts(alts) && alts != [] && |code| <= LIMIT && At(code, lo, CodeAlts(alts))
    ensures Flow(code, S, E, P, lo, lo + |CodeAlts(alts)|)
    ensures lo + Past(alts) in S + {lo + |CodeAlts(alts)|} && lo + Past(alts) !in P
    decreases alts, 1
  {
    if |alts| == 1 {
      S, E, P := AltsFlowOne(alts, code, lo);
    } else {
      S, E, P := AltsFlowMore(alts, code, lo);
    }
  }

  lemma {:induction false} AltsFlowOne(alts: seq<Branch>, code: seq<Byte>, lo: int)
    returns (S: set<int>, E: set<int>, P: set<int>)
    requires SoundAlts(alts) && |alts| == 1 && |code| <= LIMIT && At(code, lo, CodeAlts(alts))
    ensures Flow(code, S, E, P, lo, lo + |CodeAlts(alts)|)
    ensures lo + Past(alts) == lo + |CodeAlts(alts)| && lo + Past(alts) !in P
    decreases alts, 0
  {
    S, E, P := BranchFlow(alts[0].chunks, code, lo);
    FlowFacts(code, S, E, P, lo, lo + |CodeAlts(alts)|);
  }

  lemma {:induction false} AltsFlowMore(alts: seq<Branch>, code: seq<Byte>, lo: int)
    returns (S: set<int>, E: set<int>, P: set<int>)
    requires SoundAlts(alts) && |alts| > 1 && |code| <= LIMIT && At(code, lo, CodeAlts(alts))
    ensures Flow(code, S, E, P, lo, lo + |CodeAlts(alts)|)
    ensures lo + Past(alts) in S && lo + Past(alts) !in P
    decreases alts, 0
  {
    SoundAfter(alts);
    var jpa, next, hi := AltsPlaces(alts, code, lo);
    var S0, E0, P0 := BranchFlow(alts[0].chunks, code, lo + 3);
    var S1, E1, P1 := AltsFlow(alts[1..], code, next);
    S, E, P := AltsFlowJoin(code, lo, jpa, next, hi, S0, E0, P0, S1, E1, P1);
  }

  lemma SoundAfter(alts: seq<Branch>)
    requires SoundAlts(alts) && alts != []
    ensures SoundAlts(alts[1..])
  {
    var rest := alts[1..];
    assert forall k :: 0 <= k < |rest| ==> rest[k] == alts[k + 1];
  }

  lemma AltsFlowJoin(code: seq<Byte>, lo: int, jpa: int, next: int, hi: int, S0: set<int>, E0: set<int>, P0: set<int>,
                     S1: set<int>, E1: set<int>, P1: set<int>) returns (S: set<int>, E: set<int>, P: set<int>)
    requires 0 <= lo && next == jpa + 3 <= |code| && lo + 3 <= jpa
    requires Flow(code, S0, E0, P0, lo + 3, jpa) && Flow(code, S1, E1, P1, next, hi)
    requires code[lo] == ON_FAILURE_JUMP && Target(code, lo) == next
    requires code[jpa] == JUMP_PAST_ALT && Target(code, jpa) in S1 + {hi} && Target(code, jpa) !in P1
    ensures Flow(code, S, E, P, lo, hi) && jpa in S && jpa !in P
  {
    FlowFacts(code, S1, E1, P1, next, hi);
    FlowFacts(code, S0, E0, P0, lo + 3, jpa);
    FlowLead(code, jpa, S1, E1, P1, hi);
    var s1 := S1 + {jpa};
    FlowJoin(code, S0, E0, P0, lo + 3, jpa, s1, E1, P1, hi);
    S, E, P := S0 + s1, E0 + E1, P0 + P1;
    FlowLead(code, lo, S, E, P, hi);
    S := S + {lo};
  }

  lemma {:induction false} BranchFlow(cs: seq<Chunk>, code: seq<Byte>, lo: int)
    returns (S: set<int>, E: set<int>, P: set<int>)
    requires SoundBranch(cs) && |code| <= LIMIT && At(code, lo, CodeBranch(cs))
    ensures Flow(code, S, E, P, lo, lo + |CodeBranch(cs)|)
    decreases cs, 0
  {
    if cs == [] {
      FlowNone(code, lo);
      S, E, P := {}, {}, {};
    } else {
      var rest, mid := cs[1..], lo + |CodeChunk(cs[0])|;
      assert forall k :: 0 <= k < |rest| ==> rest[k] == cs[k + 1];
      AtSplit(code, lo, CodeChunk(cs[0]), CodeBranch(rest));
      var S0, E0, P0 := ChunkFlow(cs[0], code, lo);
      S, E, P := BranchFlow(rest, code, mid);
      FlowJoin(code, S0, E0, P0, lo, mid, S, E, P, lo + |CodeBranch(cs)|);
      S, E, P := S0 + S, E0 + E, P0 + P;
    }
  }

  // ---- the whole code ------------------------------------------------------------------------------

  lemma {:induction false} InStarts(code: seq<Byte>, S: set<int>, E: set<int>, P: set<int>, lo: int, c: int, p: int)
    requires Flow(code, S, E, P, lo, |code|) && c in S && p in S && c <= p
    ensures 0 <= c && p in Starts(code, c)
    decreases p - c
  {
    FlowIn(code, S, E, P, lo, |code|, c);
    if c < p {
      assert Peek(lo) && Peek(c) && Peek(p);
      InStarts(code, S, E, P, lo, c + Len(code, c), p);
    }
  }

  lemma {:induction false} StartsIn(code: seq<Byte>, S: set<int>, E: set<int>, P: set<int>, lo: int, c: int)
    requires Flow(code, S, E, P, lo, |code|) && c in S + {|code|} && 0 <= c
    ensures Starts(code, c) <= S
    decreases |code| - c
  {
    if c < |code| {
      FlowIn(code, S, E, P, lo, |code|, c);
      StartsIn(code, S, E, P, lo, c + Len(code, c));
    }
  }

  // Where control stays among the instructions of the code.
  ghost predicate Kept(code: seq<Byte>, E: set<int>, P: set<int>) {
    Flow(code, Starts(code, 0), E, P, 0, |code|)
  }

  // Compiled code is made of the instructions found from its start, and control stays among them.
  lemma WholeFlow(alts: seq<Branch>) returns (E: set<int>, P: set<int>)
    requires SoundAlts(alts) && alts != [] && |CodeAlts(alts)| <= LIMIT
    ensures Kept(CodeAlts(alts), E, P)
  {
    var code := CodeAlts(alts);
    assert code[0..0 + |code|] == code;
    var S;
    S, E, P := AltsFlow(alts, code, 0);
    FlowFacts(code, S, E, P, 0, |code|);
    StartsIn(code, S, E, P, 0, 0);
    forall p | p in S ensures p in Starts(code, 0) {
      InStarts(code, S, E, P, 0, 0, p);
    }
    assert S == Starts(code, 0);
  }
}
